/**
 * The permission cache as a protocol.  `GetUserPermissions` is three Redis or database commands and
 * `AssignRole` is two, so every command here is one step and any number of readers and writers
 * interleave.  Times are nanoseconds.  The state remembers every version of the role tables and, for
 * every list of permissions, which version it was read from and when; the code stores none of that.
 */
module PermissionCache {
  import opened Results
  import opened RoleStore

  const TTL: int := 900_000_000_000

  datatype Version = Version(from: int, tables: Tables)

  /** Where a list came from: the version it was joined from, when, and when its reader was done with SET. */
  datatype Origin = Origin(version: nat, readAt: int, setAt: int)

  datatype Entry = Entry(perms: seq<string>, expiry: int, origin: Origin)

  datatype Phase =
    | Asking                                                        // before the cache GET
    | Missed                                                        // GET found nothing, or failed
    | Fetched(perms: seq<string>, version: nat, readAt: int)        // rows in hand, SET not sent
    | Holding(perms: seq<string>, origin: Origin, since: int)       // about to return
    | Returned(perms: seq<string>, origin: Origin, since: int, at: int)
    | Failed

  datatype Reader = Reader(who: Who, phase: Phase)

  /** A SET whose reader has stopped waiting for it, and which may still reach Redis. */
  datatype Late = Late(who: Who, perms: seq<string>, version: nat, readAt: int)

  datatype State = State(now: int, versions: seq<Version>, cache: map<Who, Entry>, readers: map<nat, Reader>,
      late: map<nat, Late>)

  datatype Step =
    | Tick(to: int)
    | Write(change: Change)          // one committed statement on the role tables
    | Delete(who: Who)               // a DEL that reached Redis
    | Start(r: nat, who: Who)
    | Get(r: nat)
    | GetFails(r: nat)               // Redis absent or failing, or an entry that does not decode
    | Read(r: nat, perms: seq<string>)
    | ReadFails(r: nat)
    | Store(r: nat)
    | RepeatStore(r: nat)            // a SET that was executed, but whose answer was lost and which is sent again
    | SkipStore(r: nat)              // an empty list, or a SET that failed
    | GiveUp(r: nat)                 // the client stops waiting for its SET
    | LateStore(r: nat, again: bool) // ... which reaches Redis all the same, perhaps more than once
    | Return(r: nat)

  function Current(s: State): Tables
    requires s.versions != []
  {
    s.versions[|s.versions| - 1].tables
  }

  predicate Readable(s: State, who: Who) {
    who in s.cache && s.now < s.cache[who].expiry
  }

  /** The reader has a list to SET. */
  predicate Storing(s: State, r: nat) {
    r in s.readers && s.readers[r].phase.Fetched? && s.readers[r].phase.perms != []
  }

  predicate Enabled(s: State, step: Step)
    requires s.versions != []
  {
    match step
    case Tick(to) => s.now <= to
    case Write(_) => true
    case Delete(_) => true
    case Start(r, _) => r !in s.readers
    case Get(r) => r in s.readers && s.readers[r].phase.Asking?
    case GetFails(r) => r in s.readers && s.readers[r].phase.Asking?
    case Read(r, perms) => r in s.readers && s.readers[r].phase.Missed? &&
          Lists(perms, Join(Current(s), s.readers[r].who))
    case ReadFails(r) => r in s.readers && s.readers[r].phase.Missed?
    case Store(r) => Storing(s, r)
    case RepeatStore(r) => Storing(s, r)
    case SkipStore(r) => r in s.readers && s.readers[r].phase.Fetched?
    case GiveUp(r) => Storing(s, r)
    case LateStore(r, _) => r in s.late
    case Return(r) => r in s.readers && s.readers[r].phase.Holding?
  }

  function Move(s: State, r: nat, phase: Phase): State
    requires r in s.readers
  {
    s.(readers := s.readers[r := s.readers[r].(phase := phase)])
  }

  /** SET, at the present time. */
  function Stored(s: State, who: Who, perms: seq<string>, version: nat, readAt: int): State {
    s.(cache := s.cache[who := Entry(perms, s.now + TTL, Origin(version, readAt, s.now))])
  }

  function Apply(s: State, step: Step): (s': State)
    requires s.versions != [] && Enabled(s, step)
    ensures s'.versions != []
  {
    match step
    case Tick(to) => s.(now := to)
    case Write(c) => s.(versions := s.versions + [Version(s.now, After(Current(s), c))])
    case Delete(who) => s.(cache := s.cache - {who})
    case Start(r, who) => s.(readers := s.readers[r := Reader(who, Asking)])
    case Get(r) =>
      var who := s.readers[r].who;
      Move(s, r, if Readable(s, who) then Holding(s.cache[who].perms, s.cache[who].origin, s.now) else Missed)
    case GetFails(r) => Move(s, r, Missed)
    case Read(r, perms) => Move(s, r, Fetched(perms, |s.versions| - 1, s.now))
    case ReadFails(r) => Move(s, r, Failed)
    case Store(r) =>
      var p := s.readers[r].phase;
      Stored(Move(s, r, Holding(p.perms, Origin(p.version, p.readAt, s.now), s.now)), s.readers[r].who, p.perms,
          p.version, p.readAt)
    case SkipStore(r) =>
      var p := s.readers[r].phase;
      Move(s, r, Holding(p.perms, Origin(p.version, p.readAt, s.now), s.now))
    case GiveUp(r) =>
      var p := s.readers[r].phase;
      Move(s, r, Holding(p.perms, Origin(p.version, p.readAt, s.now), s.now))
        .(late := s.late[r := Late(s.readers[r].who, p.perms, p.version, p.readAt)])
    case RepeatStore(r) =>
      var p := s.readers[r].phase;
      Stored(s, s.readers[r].who, p.perms, p.version, p.readAt)
    case LateStore(r, again) =>
      var l := s.late[r];
      Stored(s, l.who, l.perms, l.version, l.readAt).(late := if again then s.late else s.late - {r})
    case Return(r) =>
      var p := s.readers[r].phase;
      Move(s, r, Returned(p.perms, p.origin, p.since, s.now))
  }

  datatype Run = Begin(tables: Tables) | Then(prev: Run, step: Step)

  function Exec(run: Run): (s: State)
    ensures s.versions != []
  {
    match run
    case Begin(tables) => State(0, [Version(0, tables)], map[], map[], map[])
    case Then(prev, step) => if Enabled(Exec(prev), step) then Apply(Exec(prev), step) else Exec(prev)
  }

  predicate Legal(run: Run) {
    run.Then? ==> Legal(run.prev) && Enabled(Exec(run.prev), run.step)
  }

  // ---------------------------------------------------------------- bounded staleness

  /** Version `i` of the tables was the stored one at time `t`. */
  predicate CurrentAt(versions: seq<Version>, i: nat, t: int) {
    i < |versions| && versions[i].from <= t && (i + 1 < |versions| ==> t <= versions[i + 1].from)
  }

  /** The list is the role join as it was at time `t`. */
  predicate WasJoin(s: State, who: Who, perms: seq<string>, version: nat, t: int) {
    CurrentAt(s.versions, version, t) && t <= s.now && Lists(perms, Join(s.versions[version].tables, who))
  }

  predicate Sourced(s: State, who: Who, perms: seq<string>, o: Origin) {
    WasJoin(s, who, perms, o.version, o.readAt) && o.readAt <= o.setAt <= s.now
  }

  ghost predicate Inv(s: State) {
    && s.versions != [] && s.versions[|s.versions| - 1].from <= s.now
    && (forall who :: who in s.cache ==> EntryInv(s, who, s.cache[who]))
    && (forall r :: r in s.readers ==> ReaderInv(s, s.readers[r]))
    && (forall r :: r in s.late ==> LateInv(s, s.late[r]))
  }

  predicate EntryInv(s: State, who: Who, e: Entry) {
    Sourced(s, who, e.perms, e.origin) && e.perms != [] && e.expiry == e.origin.setAt + TTL
  }

  predicate LateInv(s: State, l: Late) {
    WasJoin(s, l.who, l.perms, l.version, l.readAt) && l.perms != []
  }

  predicate ReaderInv(s: State, reader: Reader) {
    match reader.phase
    case Fetched(perms, version, readAt) => WasJoin(s, reader.who, perms, version, readAt)
    case Holding(perms, o, since) => Sourced(s, reader.who, perms, o) && o.setAt <= since < o.setAt + TTL &&
          since <= s.now
    case Returned(perms, o, since, at) =>
      Sourced(s, reader.who, perms, o) && o.setAt <= since < o.setAt + TTL && since <= at <= s.now
    case _ => true
  }

  /** What was the join at some time stays what it was then. */
  lemma WasJoinStays(s: State, step: Step, who: Who, perms: seq<string>, version: nat, t: int)
    requires s.versions != [] && Enabled(s, step) && WasJoin(s, who, perms, version, t)
    ensures WasJoin(Apply(s, step), who, perms, version, t)
  {
  }

  lemma HistoryStays(s: State, step: Step)
    requires s.versions != [] && Enabled(s, step)
    ensures forall who, perms, version: nat, t :: WasJoin(s, who, perms, version, t) ==>
          WasJoin(Apply(s, step), who, perms, version, t)
    ensures s.now <= Apply(s, step).now
  {
    forall who, perms, version: nat, t | WasJoin(s, who, perms, version, t)
      ensures WasJoin(Apply(s, step), who, perms, version, t)
    {
      WasJoinStays(s, step, who, perms, version, t);
    }
  }

  /** What holds of an entry, a reader or a late SET is about the past, and stays. */
  lemma PastStays(s: State, step: Step)
    requires s.versions != [] && Enabled(s, step)
    ensures forall who, e :: EntryInv(s, who, e) ==> EntryInv(Apply(s, step), who, e)
    ensures forall reader :: ReaderInv(s, reader) ==> ReaderInv(Apply(s, step), reader)
    ensures forall l :: LateInv(s, l) ==> LateInv(Apply(s, step), l)
  {
    hide Apply, Enabled, WasJoin;
    HistoryStays(s, step);
  }

  lemma EntryStays(s: State, step: Step, who: Who)
    requires Inv(s) && Enabled(s, step) && who in Apply(s, step).cache
    ensures EntryInv(Apply(s, step), who, Apply(s, step).cache[who])
  {
    PastStays(s, step);
    var s' := Apply(s, step);
    hide WasJoin, Lists, Join;
    if who !in s.cache || s'.cache[who] != s.cache[who] {
      if step.LateStore? {
        assert LateInv(s, s.late[step.r]);
      } else {
        assert ReaderInv(s, s.readers[step.r]);
      }
      hide Inv;
      StoredInv(s, s'.cache[who], who);
    }
  }

  /** An entry that was set just now. */
  lemma StoredInv(s: State, e: Entry, who: Who)
    requires e.origin.setAt == s.now && e.expiry == s.now + TTL && e.perms != []
    requires WasJoin(s, who, e.perms, e.origin.version, e.origin.readAt)
    ensures EntryInv(s, who, e)
  {
  }

  lemma ReaderStays(s: State, step: Step, r: nat)
    requires Inv(s) && Enabled(s, step) && r in Apply(s, step).readers
    ensures ReaderInv(Apply(s, step), Apply(s, step).readers[r])
  {
    PastStays(s, step);
    var s' := Apply(s, step);
    hide WasJoin, Lists, Join;
    if r in s.readers && s'.readers[r] == s.readers[r] {
      hide Apply, Enabled, ReaderInv;
    } else {
      ReaderMoves(s, step, r);
    }
  }

  lemma ReaderMoves(s: State, step: Step, r: nat)
    requires Inv(s) && Enabled(s, step) && r in Apply(s, step).readers
    requires (r in s.readers ==> Apply(s, step).readers[r] != s.readers[r])
    ensures ReaderInv(Apply(s, step), Apply(s, step).readers[r])
  {
    assert step.Read? ==> WasJoin(s, s.readers[step.r].who, step.perms, |s.versions| - 1, s.now) by {
      if step.Read? { ReadIsJoin(s, step.r, step.perms); }
    }
    HistoryStays(s, step);
    hide WasJoin, Lists, Join;
    assert r in s.readers ==> ReaderInv(s, s.readers[r]);
    assert step.Get? && Readable(s, s.readers[r].who) ==> EntryInv(s, s.readers[r].who, s.cache[s.readers[r].who]);
    hide Inv;
  }

  lemma ReadIsJoin(s: State, r: nat, perms: seq<string>)
    requires Inv(s) && Enabled(s, Read(r, perms))
    ensures WasJoin(s, s.readers[r].who, perms, |s.versions| - 1, s.now)
  {
  }

  lemma LateStays(s: State, step: Step, r: nat)
    requires Inv(s) && Enabled(s, step) && r in Apply(s, step).late
    ensures LateInv(Apply(s, step), Apply(s, step).late[r])
  {
    PastStays(s, step);
    HistoryStays(s, step);
    hide WasJoin, Lists, Join;
    assert step.GiveUp? ==> ReaderInv(s, s.readers[step.r]);
    assert r in s.late ==> LateInv(s, s.late[r]);
    hide Inv;
  }

  lemma StepKeepsInv(s: State, step: Step)
    requires Inv(s) && Enabled(s, step)
    ensures Inv(Apply(s, step))
  {
    hide EntryInv, ReaderInv, LateInv, Join;
    var s' := Apply(s, step);
    forall who | who in s'.cache ensures EntryInv(s', who, s'.cache[who]) { EntryStays(s, step, who); }
    forall r | r in s'.readers ensures ReaderInv(s', s'.readers[r]) { ReaderStays(s, step, r); }
    forall r | r in s'.late ensures LateInv(s', s'.late[r]) { LateStays(s, step, r); }
  }

  lemma {:induction false} RunKeepsInv(run: Run)
    requires Legal(run)
    ensures Inv(Exec(run))
  {
    if run.Then? {
      RunKeepsInv(run.prev);
      StepKeepsInv(Exec(run.prev), run.step);
    }
  }

  /**
   * Every answer is the role join at some instant of the past: at most the TTL, plus the time its
   * reader took from the database read to SET, plus the time from taking the list to returning it,
   * before the answer.  No assumption on what writers do, or whether they invalidate.
   */
  lemma BoundedStaleness(run: Run, r: nat)
    requires Legal(run) && r in Exec(run).readers && Exec(run).readers[r].phase.Returned?
    ensures var Reader(who, Returned(perms, o, since, at)) := Exec(run).readers[r];
            && WasJoin(Exec(run), who, perms, o.version, o.readAt)
            && o.readAt <= at
            && at - o.readAt < TTL + (o.setAt - o.readAt) + (at - since)
            && at - o.readAt < 15 * 60 * 1_000_000_000 + (o.setAt - o.readAt) + (at - since)
  {
    RunKeepsInv(run);
  }

  /** The list a reader has in hand or has returned. */
  function InHand(phase: Phase): seq<string> {
    match phase
    case Fetched(perms, _, _) => perms
    case Holding(perms, _, _) => perms
    case Returned(perms, _, _, _) => perms
    case _ => []
  }

  // ---------------------------------------------------------------- role assignments that run alone

  /** The user of an `AssignRole` that has inserted its row and not yet deleted the cache entry. */
  function Unfinished(run: Run): Option<Who> {
    if run.Begin? then None else UnfinishedAfter(Unfinished(run.prev), run.step)
  }

  function UnfinishedAfter(u: Option<Who>, step: Step): Option<Who> {
    match step
    case Write(Assign(row)) => Some(Who(row.user, row.org))
    case Delete(who) => if u == Some(who) then None else u
    case _ => u
  }

  predicate Idle(s: State) {
    forall r :: r in s.readers ==> s.readers[r].phase.Returned? || s.readers[r].phase.Failed?
  }

  /**
   * Roles are only assigned, when no read and no SET is under way, and nothing is read from an insert until its DEL.
   */
  predicate WritesAlone(run: Run) {
    run.Then? ==> WritesAlone(run.prev) && Alone(Exec(run.prev), Unfinished(run.prev), run.step)
  }

  predicate Alone(s: State, unfinished: Option<Who>, step: Step) {
    && (step.Write? ==> step.change.Assign? && Idle(s) && s.late == map[])
    && (unfinished.Some? ==> !step.Write? && !step.Start?)
  }

  /** Cached lists, those of `unfinished` aside, and lists in hand are the join as it is now. */
  predicate UpToDate(s: State, unfinished: Option<Who>)
    requires s.versions != []
  {
    && (forall who :: who in s.cache && unfinished != Some(who) ==> IsJoin(s, who, s.cache[who].perms))
    && (forall r :: r in s.readers && (s.readers[r].phase.Fetched? || s.readers[r].phase.Holding?) ==>
          IsJoin(s, s.readers[r].who, InHand(s.readers[r].phase)))
    && (forall r :: r in s.late ==> IsJoin(s, s.late[r].who, s.late[r].perms))
    && (unfinished.Some? ==> Idle(s) && s.late == map[])
  }

  /** The list is the join as it is now. */
  predicate IsJoin(s: State, who: Who, perms: seq<string>)
    requires s.versions != []
  {
    Elements(perms) == Join(Current(s), who)
  }

  lemma IsJoinStays(s: State, step: Step)
    requires s.versions != [] && Enabled(s, step) && !step.Write?
    ensures forall who, perms :: IsJoin(Apply(s, step), who, perms) == IsJoin(s, who, perms)
    ensures step.Read? ==> IsJoin(s, s.readers[step.r].who, step.perms)
  {
  }

  lemma WriteStaysUpToDate(s: State, step: Step)
    requires s.versions != [] && UpToDate(s, None) && Enabled(s, step) && Alone(s, None, step) && step.Write?
    ensures UpToDate(Apply(s, step), UnfinishedAfter(None, step))
  {
    hide Join, After, Elements, Conflicts, Lists;
    var s', row := Apply(s, step), step.change.row;
    forall who | who != Who(row.user, row.org) ensures Join(Current(s'), who) == Join(Current(s), who) {
      AssignJoins(Current(s), row, who);
    }
  }

  lemma EntriesStayUpToDate(s: State, unfinished: Option<Who>, step: Step, who: Who)
    requires s.versions != [] && UpToDate(s, unfinished) && Enabled(s, step) && Alone(s, unfinished, step)
    requires !step.Write?
    requires who in Apply(s, step).cache && UnfinishedAfter(unfinished, step) != Some(who)
    ensures IsJoin(s, who, Apply(s, step).cache[who].perms)
  {
    hide IsJoin, Join, Lists, Current;
  }

  lemma ReadersStayUpToDate(s: State, unfinished: Option<Who>, step: Step, r: nat)
    requires s.versions != [] && UpToDate(s, unfinished) && Enabled(s, step) && Alone(s, unfinished, step)
    requires !step.Write?
    requires r in Apply(s, step).readers
    requires (Apply(s, step).readers[r].phase.Fetched? || Apply(s, step).readers[r].phase.Holding?)
    ensures IsJoin(s, Apply(s, step).readers[r].who, InHand(Apply(s, step).readers[r].phase))
  {
    IsJoinStays(s, step);
    hide IsJoin, Join, Lists, Current;
  }

  lemma StepStaysUpToDate(s: State, unfinished: Option<Who>, step: Step)
    requires s.versions != [] && UpToDate(s, unfinished) && Enabled(s, step) && Alone(s, unfinished, step)
    requires !step.Write?
    ensures UpToDate(Apply(s, step), UnfinishedAfter(unfinished, step))
  {
    hide IsJoin, Join, Lists, Current, InHand;
    var s', left := Apply(s, step), UnfinishedAfter(unfinished, step);
    IsJoinStays(s, step);
    forall who | who in s'.cache && left != Some(who) ensures IsJoin(s', who, s'.cache[who].perms) {
      EntriesStayUpToDate(s, unfinished, step, who);
    }
    forall r | r in s'.readers && (s'.readers[r].phase.Fetched? || s'.readers[r].phase.Holding?)
      ensures IsJoin(s', s'.readers[r].who, InHand(s'.readers[r].phase))
    {
      ReadersStayUpToDate(s, unfinished, step, r);
    }
    LatesStayUpToDate(s, unfinished, step);
  }

  lemma LatesStayUpToDate(s: State, unfinished: Option<Who>, step: Step)
    requires s.versions != [] && UpToDate(s, unfinished) && Enabled(s, step) && Alone(s, unfinished, step)
    requires !step.Write?
    ensures forall r :: r in Apply(s, step).late ==> IsJoin(s, Apply(s, step).late[r].who, Apply(s, step).late[r].perms)
    ensures UnfinishedAfter(unfinished, step).Some? ==> Idle(Apply(s, step)) && Apply(s, step).late == map[]
  {
    hide IsJoin, Join, Lists, Current;
  }

  lemma {:induction false} RunStaysUpToDate(run: Run)
    requires Legal(run) && WritesAlone(run)
    ensures UpToDate(Exec(run), Unfinished(run))
  {
    hide Apply, Enabled, UpToDate;
    if run.Then? {
      RunStaysUpToDate(run.prev);
      if run.step.Write? {
        WriteStaysUpToDate(Exec(run.prev), run.step);
      } else {
        StepStaysUpToDate(Exec(run.prev), Unfinished(run.prev), run.step);
      }
    } else {
      assert UpToDate(Exec(run), None) by { NothingCached(run); }
    }
  }

  lemma NothingCached(run: Run)
    requires run.Begin?
    ensures UpToDate(Exec(run), None)
  {
  }

  /**
   * The cached service is the uncached one when assignments run alone: every answer is the join at the moment it is
   * given.
   */
  lemma AnswersAreFresh(run: Run, r: nat)
    requires Legal(run) && WritesAlone(run) && run.Then? && run.step == Return(r)
    ensures r in Exec(run).readers
    ensures Elements(InHand(Exec(run).readers[r].phase)) == Join(Current(Exec(run)), Exec(run).readers[r].who)
  {
    RunStaysUpToDate(run.prev);
  }

  // ---------------------------------------------------------------- only grants

  predicate GrantsOnly(run: Run) {
    run.Then? ==> GrantsOnly(run.prev) && (run.step.Write? ==> Grants(run.step.change))
  }

  lemma VersionsAfter(s: State, step: Step)
    requires s.versions != [] && Enabled(s, step)
    ensures Apply(s, step).versions ==
            if step.Write? then s.versions + [Version(s.now, After(Current(s), step.change))] else s.versions
  {
  }

  lemma {:induction false} JoinsGrow(run: Run, i: nat, who: Who)
    requires Legal(run) && GrantsOnly(run) && i < |Exec(run).versions|
    ensures Join(Exec(run).versions[i].tables, who) <= Join(Current(Exec(run)), who)
  {
    hide Join, After, Grants, Apply, Enabled;
    if run.Then? {
      var s := Exec(run.prev);
      VersionsAfter(s, run.step);
      if run.step.Write? {
        GrantsGrow(Current(s), run.step.change, who);
        if i < |s.versions| { JoinsGrow(run.prev, i, who); }
      } else {
        JoinsGrow(run.prev, i, who);
      }
    }
  }

  /** Under grants alone, no cached list and no list in flight ever grants more than the tables do. */
  lemma {:induction false} NoOverGrant(run: Run)
    requires Legal(run) && GrantsOnly(run)
    ensures forall who :: who in Exec(run).cache ==>
          Elements(Exec(run).cache[who].perms) <= Join(Current(Exec(run)), who)
    ensures forall r :: r in Exec(run).readers ==>
              Elements(InHand(Exec(run).readers[r].phase)) <= Join(Current(Exec(run)), Exec(run).readers[r].who)
    ensures forall r :: r in Exec(run).late ==>
          Elements(Exec(run).late[r].perms) <= Join(Current(Exec(run)), Exec(run).late[r].who)
  {
    var s := Exec(run);
    RunKeepsInv(run);
    forall i: nat, who | i < |s.versions|
      ensures Join(s.versions[i].tables, who) <= Join(Current(s), who)
    {
      JoinsGrow(run, i, who);
    }
    forall r | r in s.readers
      ensures Elements(InHand(s.readers[r].phase)) <= Join(Current(s), s.readers[r].who)
    {
      assert ReaderInv(s, s.readers[r]);
    }
    forall r | r in s.late ensures Elements(s.late[r].perms) <= Join(Current(s), s.late[r].who) {
      assert LateInv(s, s.late[r]);
    }
  }

  // ---------------------------------------------------------------- when later reads see a change

  /**
   * `run` is `earlier` and further steps, of which every write is a grant (`up`), or every write takes something
   * away.
   */
  predicate Follows(run: Run, earlier: Run, up: bool) {
    run == earlier ||
    (run.Then? && Follows(run.prev, earlier, up) && (run.step.Write? ==> Grants(run.step.change) == up))
  }

  /** Under grants a list should not lack anything of `limit`; under revocations it should hold nothing else. */
  predicate Bounds(up: bool, limit: set<string>, perms: set<string>) {
    if up then limit <= perms else perms <= limit
  }

  /** No cached list that can be read, and no list of a SET under way, oversteps the limit. */
  predicate Informed(s: State, who: Who, up: bool, limit: set<string>) {
    && (Readable(s, who) ==> Bounds(up, limit, Elements(s.cache[who].perms)))
    && (forall r :: r in s.readers && s.readers[r].who == who && s.readers[r].phase.Fetched? ==>
          s.readers[r].phase.perms == [] || Bounds(up, limit, Elements(s.readers[r].phase.perms)))
    && (forall r :: r in s.late && s.late[r].who == who ==> Bounds(up, limit, Elements(s.late[r].perms)))
  }

  predicate HasList(phase: Phase) {
    phase.Fetched? || phase.Holding? || phase.Returned?
  }

  /** Readers outside `before` that have a list keep to the limit. */
  predicate Sees(s: State, before: set<nat>, who: Who, up: bool, limit: set<string>) {
    forall r :: r in s.readers && r !in before && s.readers[r].who == who && HasList(s.readers[r].phase) ==>
      Bounds(up, limit, Elements(InHand(s.readers[r].phase)))
  }

  lemma WriteKeepsBounds(t: Tables, c: Change, who: Who, up: bool, limit: set<string>)
    requires Grants(c) == up && Bounds(up, limit, Join(t, who))
    ensures Bounds(up, limit, Join(After(t, c), who))
  {
    if up { GrantsGrow(t, c, who); } else { RevokesShrink(t, c, who); }
  }

  lemma InformedStep(s: State, step: Step, who: Who, up: bool, limit: set<string>)
    requires s.versions != [] && Enabled(s, step) && (step.Write? ==> Grants(step.change) == up)
    requires Informed(s, who, up, limit) && Bounds(up, limit, Join(Current(s), who))
    ensures Informed(Apply(s, step), who, up, limit) && Bounds(up, limit, Join(Current(Apply(s, step)), who))
  {
    hide Bounds, Elements, Join, After;
    if step.Write? {
      WriteKeepsBounds(Current(s), step.change, who, up, limit);
    } else {
      assert Current(Apply(s, step)) == Current(s);
    }
  }

  lemma SeesStep(s: State, step: Step, before: set<nat>, who: Who, up: bool, limit: set<string>)
    requires s.versions != [] && Enabled(s, step) && before <= s.readers.Keys
    requires Informed(s, who, up, limit) && Sees(s, before, who, up, limit) && Bounds(up, limit, Join(Current(s), who))
    ensures Sees(Apply(s, step), before, who, up, limit) && before <= Apply(s, step).readers.Keys
  {
    hide Bounds, Elements, Join, After;
  }

  lemma {:induction false} StaysInformed(run: Run, earlier: Run, who: Who, up: bool, limit: set<string>)
    requires Legal(run) && Follows(run, earlier, up)
    requires Informed(Exec(earlier), who, up, limit) && Bounds(up, limit, Join(Current(Exec(earlier)), who))
    ensures Exec(earlier).readers.Keys <= Exec(run).readers.Keys && Bounds(up, limit, Join(Current(Exec(run)), who))
    ensures Informed(Exec(run), who, up, limit) && Sees(Exec(run), Exec(earlier).readers.Keys, who, up, limit)
  {
    hide Informed, Sees, Apply, Enabled, Current, Bounds;
    if run != earlier {
      StaysInformed(run.prev, earlier, who, up, limit);
      InformedStep(Exec(run.prev), run.step, who, up, limit);
      SeesStep(Exec(run.prev), run.step, Exec(earlier).readers.Keys, who, up, limit);
    } else {
      NobodyNew(Exec(run), who, up, limit);
    }
  }

  lemma NobodyNew(s: State, who: Who, up: bool, limit: set<string>)
    ensures Sees(s, s.readers.Keys, who, up, limit)
  {
  }

  lemma NoElements(perms: seq<string>)
    ensures perms == [] <==> Elements(perms) == {}
  {
    if perms != [] { assert perms[0] in Elements(perms); }
  }

  lemma NobodyIsGranted(run: Run, who: Who, grant: set<string>)
    requires Legal(run) && GrantsOnly(run) && Join(Current(Exec(run)), who) == {}
    ensures who !in Exec(run).cache && Informed(Exec(run), who, true, grant)
  {
    var s := Exec(run);
    NoOverGrant(run);
    RunKeepsInv(run);
    if who in s.cache { NoElements(s.cache[who].perms); }
    forall r | r in s.readers && s.readers[r].who == who && s.readers[r].phase.Fetched?
      ensures s.readers[r].phase.perms == []
    {
      NoElements(s.readers[r].phase.perms);
    }
    forall r | r in s.late ensures s.late[r].who != who {
      assert LateInv(s, s.late[r]);
      NoElements(s.late[r].perms);
    }
  }

  /**
   * A user's first grant needs no invalidation: if the join was empty until `earlier` made the first
   * grant, every read that starts later sees it, whatever happens to DEL.
   */
  lemma FirstGrantIsSeen(run: Run, earlier: Run, r: nat)
    requires Legal(run) && Follows(run, earlier, true) && Legal(earlier) && GrantsOnly(earlier)
    requires earlier.Then? && earlier.step.Write?
    requires r in Exec(run).readers && r !in Exec(earlier).readers && Exec(run).readers[r].phase.Returned?
    requires Join(Current(Exec(earlier.prev)), Exec(run).readers[r].who) == {}
    ensures Join(Current(Exec(earlier)), Exec(run).readers[r].who) <= Elements(Exec(run).readers[r].phase.perms)
  {
    var who := Exec(run).readers[r].who;
    var grant := Join(Current(Exec(earlier)), who);
    NobodyIsGranted(earlier.prev, who, grant);
    assert Informed(Exec(earlier), who, true, grant);
    StaysInformed(run, earlier, who, true, grant);
    assert Bounds(true, grant, Elements(InHand(Exec(run).readers[r].phase)));
  }

  /**
   * Every read of `who` that starts after `earlier` and returns sees, under grants alone, all of what the
   * tables granted then, or, under revocations alone, nothing else.
   */
  ghost predicate LaterReadsAgree(earlier: Run, who: Who, up: bool) {
    forall run, r :: Legal(run) && Follows(run, earlier, up) && r in Exec(run).readers && r !in Exec(earlier).readers &&
                     Exec(run).readers[r].who == who && Exec(run).readers[r].phase.Returned? ==>
      Bounds(up, Join(Current(Exec(earlier)), who), Elements(Exec(run).readers[r].phase.perms))
  }

  /** The cached list, if it can still be read, does not overstep the present join. */
  predicate NoStaleEntry(s: State, who: Who, up: bool)
    requires s.versions != []
  {
    Readable(s, who) ==> Bounds(up, Join(Current(s), who), Elements(s.cache[who].perms))
  }

  /** Nor does the list of any SET that may still be executed. */
  predicate NoStaleSetPending(s: State, who: Who, up: bool)
    requires s.versions != []
  {
    && (forall r | r in s.readers && s.readers[r].who == who && Storing(s, r) ::
          Bounds(up, Join(Current(s), who), Elements(s.readers[r].phase.perms)))
    && (forall r :: r in s.late && s.late[r].who == who ==>
        Bounds(up, Join(Current(s), who), Elements(s.late[r].perms)))
  }

  lemma FollowOn(run: Run, step: Step, earlier: Run, up: bool)
    requires Legal(run) && Enabled(Exec(run), step)
    ensures Legal(Then(run, step)) && Exec(Then(run, step)) == Apply(Exec(run), step)
    ensures Follows(run, earlier, up) && !step.Write? ==> Follows(Then(run, step), earlier, up)
  {
  }

  /** A reader that starts, hits the cache and returns. */
  function Hit(run: Run, r: nat, who: Who): Run {
    Then(Then(Then(run, Start(r, who)), Get(r)), Return(r))
  }

  lemma HitReturns(run: Run, earlier: Run, up: bool, r: nat, who: Who)
    requires Legal(run) && Follows(run, earlier, up) && Readable(Exec(run), who) && r !in Exec(run).readers
    ensures Legal(Hit(run, r, who)) && Follows(Hit(run, r, who), earlier, up)
    ensures r in Exec(Hit(run, r, who)).readers
    ensures var Reader(w, phase) := Exec(Hit(run, r, who)).readers[r];
            w == who && phase.Returned? && phase.perms == Exec(run).cache[who].perms
  {
    hide Legal, Follows;
    var r1 := Then(run, Start(r, who));
    FollowOn(run, Start(r, who), earlier, up);
    var r2 := Then(r1, Get(r));
    FollowOn(r1, Get(r), earlier, up);
    FollowOn(r2, Return(r), earlier, up);
  }

  /** A later reader is told of something else than the tables grant. */
  lemma Uninformed(run: Run, earlier: Run, up: bool, late: nat, who: Who)
    requires Legal(run) && Follows(run, earlier, up) && Readable(Exec(run), who)
    requires late !in Exec(run).readers && late !in Exec(earlier).readers
    requires !Bounds(up, Join(Current(Exec(earlier)), who), Elements(Exec(run).cache[who].perms))
    ensures !LaterReadsAgree(earlier, who, up)
  {
    hide Apply, Enabled, Legal, Follows, Bounds, Hit;
    HitReturns(run, earlier, up, late, who);
    var hit := Hit(run, late, who);
    assert !Bounds(up, Join(Current(Exec(earlier)), who), Elements(Exec(hit).readers[late].phase.perms));
  }

  lemma AllSee(earlier: Run, who: Who, up: bool)
    requires Legal(earlier) && NoStaleEntry(Exec(earlier), who, up) && NoStaleSetPending(Exec(earlier), who, up)
    ensures LaterReadsAgree(earlier, who, up)
  {
    hide Apply, Enabled, Legal, Follows;
    var limit := Join(Current(Exec(earlier)), who);
    forall run, r | Legal(run) && Follows(run, earlier, up) && r in Exec(run).readers && r !in Exec(earlier).readers &&
                    Exec(run).readers[r].who == who && Exec(run).readers[r].phase.Returned?
      ensures Bounds(up, limit, Elements(Exec(run).readers[r].phase.perms))
    {
      StaysInformed(run, earlier, who, up, limit);
    }
  }

  /** A stale SET is executed, and a later reader hits the cache. */
  lemma StaleSet(earlier: Run, who: Who, up: bool)
    requires Legal(earlier) && !NoStaleSetPending(Exec(earlier), who, up)
    ensures !LaterReadsAgree(earlier, who, up)
  {
    hide Legal, Follows, Bounds, LaterReadsAgree;
    var s := Exec(earlier);
    var limit := Join(Current(s), who);
    var late := Unused(s.readers.Keys);
    assert Follows(earlier, earlier, up) by { FollowsItself(earlier, up); }
    if r :| r in s.late && s.late[r].who == who && !Bounds(up, limit, Elements(s.late[r].perms)) {
      FollowOn(earlier, LateStore(r, false), earlier, up);
      Uninformed(Then(earlier, LateStore(r, false)), earlier, up, late, who);
    } else {
      var r :| r in s.readers && s.readers[r].who == who && Storing(s, r)
               && !Bounds(up, limit, Elements(s.readers[r].phase.perms));
      FollowOn(earlier, Store(r), earlier, up);
      Uninformed(Then(earlier, Store(r)), earlier, up, late, who);
    }
  }

  lemma FollowsItself(run: Run, up: bool)
    ensures Follows(run, run, up)
  {
  }

  /**
   * In both directions: later reads agree with the tables exactly when nothing that can be read or may still be SET
   * oversteps them.
   */
  lemma {:induction false} LaterReadsAgreeExactlyWhen(earlier: Run, who: Who, up: bool)
    requires Legal(earlier)
    ensures LaterReadsAgree(earlier, who, up) <==>
            NoStaleEntry(Exec(earlier), who, up) && NoStaleSetPending(Exec(earlier), who, up)
  {
    hide Legal, Follows, Bounds, LaterReadsAgree, NoStaleSetPending, Apply, Enabled;
    var s := Exec(earlier);
    if !NoStaleEntry(s, who, up) {
      var late := Unused(s.readers.Keys);
      FollowsItself(earlier, up);
      Uninformed(earlier, earlier, up, late, who);
    } else if !NoStaleSetPending(s, who, up) {
      StaleSet(earlier, who, up);
    } else {
      AllSee(earlier, who, up);
    }
  }

  /**
   * `AssignRole` deletes the cache entry after its insert, so that later reads see the grant.  They do
   * exactly when two things hold once the DEL is over, whether it got through or not: no readable entry
   * lacks something, and no SET is under way with a list read before the insert.
   */
  lemma {:induction false} InvalidationWorksExactlyWhen(earlier: Run, who: Who)
    requires Legal(earlier)
    ensures LaterReadsAgree(earlier, who, true) <==>
            NoStaleEntry(Exec(earlier), who, true) && NoStaleSetPending(Exec(earlier), who, true)
  {
    hide *;
    LaterReadsAgreeExactlyWhen(earlier, who, true);
  }

  /**
   * Removing a role or a permission deletes nothing from the cache.  Later reads answer no more than the
   * tables then grant exactly when no readable entry, and no SET under way, holds anything else.
   */
  lemma {:induction false} RevocationSeenExactlyWhen(earlier: Run, who: Who)
    requires Legal(earlier)
    ensures LaterReadsAgree(earlier, who, false) <==>
            NoStaleEntry(Exec(earlier), who, false) && NoStaleSetPending(Exec(earlier), who, false)
  {
    hide *;
    LaterReadsAgreeExactlyWhen(earlier, who, false);
  }

  lemma {:induction false} Unused(used: set<nat>) returns (late: nat)
    ensures forall n :: n in used ==> n < late
  {
    if used == {} {
      late := 0;
    } else {
      var n :| n in used;
      var above := Unused(used - {n});
      late := if above <= n then n + 1 else above;
      assert used == (used - {n}) + {n};
    }
  }

  // ---------------------------------------------------------------- reads end

  /** Redis is not needed: with every Redis command failing, a read answers the join of the tables. */
  lemma RedisIsOptional(run: Run, r: nat, who: Who, perms: seq<string>) returns (after: Run)
    requires Legal(run) && r !in Exec(run).readers && Lists(perms, Join(Current(Exec(run)), who))
    ensures after ==
            Then(Then(Then(Then(Then(run, Start(r, who)), GetFails(r)), Read(r, perms)), SkipStore(r)), Return(r))
    ensures Legal(after) && r in Exec(after).readers && Exec(after).cache == Exec(run).cache
    ensures Exec(after).readers[r].who == who && Exec(after).readers[r].phase.Returned?
    ensures Exec(after).readers[r].phase.perms == perms
  {
    hide Legal, Follows, Exec, Lists, Join;
    FollowOn(run, Start(r, who), run, true);
    after := Then(run, Start(r, who));
    FollowOn(after, GetFails(r), run, true);
    after := Then(after, GetFails(r));
    FollowOn(after, Read(r, perms), run, true);
    after := Then(after, Read(r, perms));
    FollowOn(after, SkipStore(r), run, true);
    after := Then(after, SkipStore(r));
    FollowOn(after, Return(r), run, true);
    after := Then(after, Return(r));
  }

  // ---------------------------------------------------------------- runs that fail

  /** A reader misses and reads, all at time 0. */
  lemma FetchList(tables: Tables, who: Who, perms: seq<string>) returns (run: Run)
    requires Lists(perms, Join(tables, who))
    ensures Legal(run)
    ensures Exec(run) == State(0, [Version(0, tables)], map[], map[0 := Reader(who, Fetched(perms, 0, 0))], map[])
  {
    hide Legal, Follows;
    var start := Begin(tables);
    assert Legal(start) by { BeginIsLegal(tables); }
    FollowOn(start, Start(0, who), start, true);
    run := Then(start, Start(0, who));
    FollowOn(run, Get(0), start, true);
    run := Then(run, Get(0));
    FollowOn(run, Read(0, perms), start, true);
    run := Then(run, Read(0, perms));
  }

  lemma BeginIsLegal(tables: Tables)
    ensures Legal(Begin(tables))
  {
  }

  /**
   * The race `AssignRole` can lose: its insert and its DEL both get through while a reader has the old,
   * non-empty list in hand, and later reads miss what the role added.
   */
  lemma {:induction false} InvalidationRaces(tables: Tables, row: UserRole, perms: seq<string>) returns (run: Run)
    requires Lists(perms, Join(tables, Who(row.user, row.org))) && perms != []
    requires !(RolePermissions(tables, row.role) <= Join(tables, Who(row.user, row.org)))
    ensures Legal(run) && run.Then? && run.step == Delete(Who(row.user, row.org))
    ensures run.prev.Then? && run.prev.step == Write(Assign(row))
    ensures Who(row.user, row.org) !in Exec(run).cache && !LaterReadsAgree(run, Who(row.user, row.org), true)
  {
    var who := Who(row.user, row.org);
    run := FetchList(tables, who, perms);
    AssignJoins(tables, row, who);
    hide Legal, Follows, Join, RolePermissions, Elements, After, LaterReadsAgree;
    FollowOn(run, Write(Assign(row)), run, true);
    run := Then(run, Write(Assign(row)));
    FollowOn(run, Delete(who), run, true);
    run := Then(run, Delete(who));
    assert Current(Exec(run)) == After(tables, Assign(row));
    assert Exec(run).readers[0].phase.perms == perms && Elements(perms) == Join(tables, who);
    assert !NoStaleSetPending(Exec(run), who, true);
    StaleSet(run, who, true);
  }

  /** A user who may read orders and is being given a role that writes them. */
  lemma {:induction false} DelIsNotEnough() returns (run: Run, who: Who)
    ensures Legal(run) && run.Then? && run.step == Delete(who)
    ensures run.prev.Then? && run.prev.step.Write? && run.prev.step.change.Assign?
    ensures who !in Exec(run).cache && !LaterReadsAgree(run, who, true)
  {
    var row := UserRole(7, 2, 5, 4, None);
    var tables, perms := Tables({UserRole(1, 2, 3, 4, None)}, {(3, "orders.read"), (5, "orders.write")}),
        ["orders.read"];
    who := Who(2, 4);
    assert Lists(perms, Join(tables, who)) by {
      assert perms[0] == "orders.read" && (3, "orders.read").1 == "orders.read";
      assert Elements(perms) == {"orders.read"} == Join(tables, who);
    }
    assert (5, "orders.write").1 == "orders.write" && |"orders.write"| != |"orders.read"|;
    assert "orders.write" in RolePermissions(tables, 5) && "orders.write" !in Join(tables, who);
    run := InvalidationRaces(tables, row, perms);
  }

  /**
   * The bound of `BoundedStaleness` is attained: for every delay `d` from read to SET and every delay `e`
   * in returning, a removed role is still answered TTL + d + e - 1 after the last moment it was held.
   */
  lemma {:induction false} RevokedRoleLingers(d: nat, e: nat) returns (run: Run, r: nat)
    ensures Legal(run) && r in Exec(run).readers && Exec(run).readers[r].phase.Returned?
    ensures Join(Current(Exec(run)), Exec(run).readers[r].who) == {}
    ensures Exec(run).readers[r].phase.perms != []
    ensures |Exec(run).versions| == 2 && Exec(run).versions[1].from == 0
    ensures var Returned(_, o, since, at) := Exec(run).readers[r].phase;
            o.readAt == 0 && o.setAt == d && at - since == e && at == TTL + d + e - 1
  {
    var row := UserRole(1, 2, 3, 4, None);
    var tables, perms, who := Tables({row}, {(3, "orders.write")}), ["orders.write"], Who(2, 4);
    assert Lists(perms, Join(tables, who)) by {
      assert perms[0] == "orders.write" && (3, "orders.write").1 == "orders.write";
      assert Elements(perms) == {"orders.write"} == Join(tables, who);
    }
    run := FetchList(tables, who, perms);
    var change := RemoveFromUser(2, 3);
    var after := After(tables, change);
    assert after.userRoles == {};
    assert Join(after, who) == {};
    run := LateSet(run, tables, who, perms, change, d);
    run := LateHit(run, who, Entry(perms, TTL + d, Origin(0, 0, d)), e);
    r := 1;
  }

  /** A change at once, and SET after `d`. */
  lemma LateSet(start: Run, tables: Tables, who: Who, perms: seq<string>, change: Change, d: nat) returns (run: Run)
    requires Legal(start) && perms != []
    requires Exec(start) == State(0, [Version(0, tables)], map[], map[0 := Reader(who, Fetched(perms, 0, 0))], map[])
    ensures Legal(run) && Exec(run).versions == [Version(0, tables), Version(0, After(tables, change))]
    ensures Exec(run).now == d && 1 !in Exec(run).readers
    ensures who in Exec(run).cache && Exec(run).cache[who] == Entry(perms, TTL + d, Origin(0, 0, d))
  {
    hide Legal, Follows, After, Exec;
    FollowOn(start, Write(change), start, true);
    run := Then(start, Write(change));
    FollowOn(run, Tick(d), start, true);
    run := Then(run, Tick(d));
    FollowOn(run, Store(0), start, true);
    run := Then(run, Store(0));
  }

  /** ... then a hit at the last moment, and its answer `e` later. */
  lemma LateHit(start: Run, who: Who, entry: Entry, e: nat) returns (run: Run)
    requires Legal(start) && 1 !in Exec(start).readers && Exec(start).now < entry.expiry
    requires who in Exec(start).cache && Exec(start).cache[who] == entry
    ensures Legal(run) && Exec(run).versions == Exec(start).versions
    ensures 1 in Exec(run).readers && Exec(run).readers[1] ==
              Reader(who, Returned(entry.perms, entry.origin, entry.expiry - 1, entry.expiry + e - 1))
  {
    hide Legal, Follows, After, Exec;
    FollowOn(start, Tick(entry.expiry - 1), start, true);
    run := Then(start, Tick(entry.expiry - 1));
    FollowOn(run, Start(1, who), start, true);
    run := Then(run, Start(1, who));
    FollowOn(run, Get(1), start, true);
    run := Then(run, Get(1));
    FollowOn(run, Tick(entry.expiry + e - 1), start, true);
    run := Then(run, Tick(entry.expiry + e - 1));
    FollowOn(run, Return(1), start, true);
    run := Then(run, Return(1));
  }
}
