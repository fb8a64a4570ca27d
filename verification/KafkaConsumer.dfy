/**
 * The consumer loop of one partition: fetch, decode, hand the message to every handler, commit only if
 * all succeeded.  The process may crash between any two steps and be started again; a commit of an
 * offset covers every offset before it.
 */
module KafkaConsumer {
  import opened Results

  /** A message that does not decode, or an envelope. */
  datatype Message = Undecodable | Envelope(id: nat)

  /** One `Start`: how many handlers were copied for the loop, and how each fared on each offset it was given. */
  datatype Session = Session(handlers: nat, results: map<(nat, nat), bool>)

  datatype Loop =
    | Down
    | Fetching(pos: nat)                                  // next offset to fetch
    | Holding(offset: nat, next: nat, failed: bool)       // a message, and the next handler to call

  /** `committed` is the first offset not covered by a commit; `lastCommit` who set it, for the record. */
  datatype State = State(log: seq<Message>, committed: nat, loop: Loop, sessions: seq<Session>,
      lastCommit: Option<(nat, nat)>)

  datatype Step =
    | Append(m: Message)      // a producer
    | Start(handlers: nat)    // resumes at the committed offset
    | Fetch
    | Handle(ok: bool)        // the next handler returns
    | Commit(ok: bool)        // CommitMessages, whose error is only logged
    | Skip                    // some handler failed: no commit, on to the next message
    | Crash                   // or cancellation

  function Current(s: State): Session
    requires s.sessions != []
  {
    s.sessions[|s.sessions| - 1]
  }

  predicate Enabled(s: State, step: Step) {
    match step
    case Append(_) => true
    case Start(handlers) => s.loop.Down? && handlers >= 1   // a topic has a reader only if it has a handler
    case Fetch => s.loop.Fetching? && s.loop.pos < |s.log|
    case Handle(_) => InHand(s) && s.log[s.loop.offset].Envelope? && s.loop.next < Current(s).handlers
    case Commit(_) => InHand(s) && (s.log[s.loop.offset].Undecodable? ||
          (s.loop.next == Current(s).handlers && !s.loop.failed))
    case Skip => InHand(s) && s.log[s.loop.offset].Envelope? && s.loop.next == Current(s).handlers && s.loop.failed
    case Crash => !s.loop.Down?
  }

  predicate InHand(s: State) {
    s.loop.Holding? && s.loop.offset < |s.log| && s.sessions != []
  }

  function Apply(s: State, step: Step): State
    requires Enabled(s, step)
  {
    match step
    case Append(m) => s.(log := s.log + [m])
    case Start(handlers) => s.(loop := Fetching(s.committed), sessions := s.sessions + [Session(handlers, map[])])
    case Fetch => s.(loop := Holding(s.loop.pos, 0, false))
    case Handle(ok) =>
      var k, c := |s.sessions| - 1, Current(s);
      s.(sessions := s.sessions[k := c.(results := c.results[(s.loop.offset, s.loop.next) := ok])],
         loop := s.loop.(next := s.loop.next + 1, failed := s.loop.failed || !ok))
    case Commit(ok) =>
      var next := Fetching(s.loop.offset + 1);
      if ok then s.(loop := next, committed := s.loop.offset + 1, lastCommit := Some((|s.sessions| - 1, s.loop.offset)))
      else s.(loop := next)
    case Skip => s.(loop := Fetching(s.loop.offset + 1))
    case Crash => s.(loop := Down)
  }

  datatype Run = Begin | Then(prev: Run, step: Step)

  function Exec(run: Run): State {
    match run
    case Begin => State([], 0, Down, [], None)
    case Then(prev, step) => if Enabled(Exec(prev), step) then Apply(Exec(prev), step) else Exec(prev)
  }

  predicate Legal(run: Run) {
    run.Then? ==> Legal(run.prev) && Enabled(Exec(run.prev), run.step)
  }

  // ---------------------------------------------------------------- committed means attempted

  /** Every handler of session `k` was given the message. */
  predicate Attempted(s: State, k: nat, offset: nat)
    requires k < |s.sessions|
  {
    forall h :: 0 <= h < s.sessions[k].handlers ==> (offset, h) in s.sessions[k].results
  }

  /** ... and every one of them returned no error. */
  predicate Succeeded(s: State, k: nat, offset: nat)
    requires k < |s.sessions|
  {
    forall h :: 0 <= h < s.sessions[k].handlers ==>
        (offset, h) in s.sessions[k].results && s.sessions[k].results[(offset, h)]
  }

  ghost predicate Covered(s: State, offset: nat)
    requires offset < |s.log|
  {
    s.log[offset].Undecodable? || exists k: nat :: k < |s.sessions| && Attempted(s, k, offset)
  }

  /** Where the loop stands; everything before it in this session was attempted. */
  function Reached(s: State): nat {
    match s.loop
    case Down => s.committed
    case Fetching(pos) => pos
    case Holding(offset, _, _) => offset
  }

  ghost predicate Positions(s: State) {
    && s.committed <= Reached(s) <= |s.log|
    && (s.loop.Holding? ==> s.loop.offset < |s.log|)
    && (!s.loop.Down? ==> s.sessions != [])
  }

  ghost predicate CommittedCovered(s: State) {
    s.committed <= |s.log| && forall o: nat :: o < s.committed ==> Covered(s, o)
  }

  /** In the running session, everything from the committed offset up to where the loop stands was attempted. */
  ghost predicate PassedAttempted(s: State) {
    s.loop.Down? ||
    (s.sessions != [] && Reached(s) <= |s.log| &&
     forall o: nat :: s.committed <= o < Reached(s) ==> s.log[o].Undecodable? || Attempted(s, |s.sessions| - 1, o))
  }

  /** The handlers called so far for the message in hand, and whether one of them failed. */
  ghost predicate HandInv(s: State) {
    s.loop.Holding? && s.sessions != [] ==>
      var c := Current(s);
      && s.loop.next <= c.handlers
      && (forall h :: 0 <= h < s.loop.next ==> (s.loop.offset, h) in c.results)
      && (!s.loop.failed ==> forall h :: 0 <= h < s.loop.next ==>
          (s.loop.offset, h) in c.results && c.results[(s.loop.offset, h)])
      && (s.loop.failed ==>
          exists h :: 0 <= h < s.loop.next && (s.loop.offset, h) in c.results && !c.results[(s.loop.offset, h)])
  }

  /** Who set the watermark: a message that was undecodable or succeeded in every handler. */
  ghost predicate WatermarkEarned(s: State) {
    match s.lastCommit
    case None => s.committed == 0
    case Some((k, offset)) =>
      && s.committed == offset + 1 <= |s.log| && k < |s.sessions|
      && (s.log[offset].Undecodable? || Succeeded(s, k, offset))
  }

  ghost predicate Inv(s: State) {
    Positions(s) && CommittedCovered(s) && PassedAttempted(s) && HandInv(s) && WatermarkEarned(s)
  }

  /** Sessions only gain results, and only for the message in hand. */
  lemma AttemptedStays(s: State, step: Step, k: nat, offset: nat)
    requires Enabled(s, step) && k < |s.sessions| && Attempted(s, k, offset)
    ensures k < |Apply(s, step).sessions| && Attempted(Apply(s, step), k, offset)
  {
    var s' := Apply(s, step);
    assert s'.sessions[k].handlers == s.sessions[k].handlers;
    forall h | 0 <= h < s.sessions[k].handlers ensures (offset, h) in s'.sessions[k].results {
      assert (offset, h) in s.sessions[k].results;
    }
  }

  lemma CoveredStays(s: State, step: Step)
    requires Enabled(s, step) && CommittedCovered(s)
    ensures s.committed <= |Apply(s, step).log|
    ensures forall o: nat :: o < s.committed ==> Covered(Apply(s, step), o)
  {
    forall o: nat | o < s.committed ensures Covered(Apply(s, step), o) {
      assert Covered(s, o);
      if s.log[o].Envelope? {
        var k: nat :| k < |s.sessions| && Attempted(s, k, o);
        AttemptedStays(s, step, k, o);
      }
    }
  }

  lemma PassedStays(s: State, step: Step)
    requires Enabled(s, step) && Positions(s) && PassedAttempted(s) && HandInv(s)
    ensures PassedAttempted(Apply(s, step))
  {
    var s' := Apply(s, step);
    if !s.loop.Down? && !s'.loop.Down? {
      forall o: nat | s.committed <= o < Reached(s)
        ensures s'.log[o].Undecodable? || Attempted(s', |s.sessions| - 1, o) {
        if s.log[o].Envelope? { AttemptedStays(s, step, |s.sessions| - 1, o); }
      }
    }
  }

  lemma CommitCovers(s: State)
    requires Enabled(s, Commit(true)) && Inv(s)
    ensures CommittedCovered(Apply(s, Commit(true)))
  {
    var s' := Apply(s, Commit(true));
    CoveredStays(s, Commit(true));
    forall o: nat | o < s'.committed ensures Covered(s', o) {
      if s.committed <= o && s.log[o].Envelope? {
        assert Attempted(s', |s.sessions| - 1, o);
      }
    }
  }

  lemma WatermarkStays(s: State, step: Step)
    requires Enabled(s, step) && Positions(s) && HandInv(s) && WatermarkEarned(s)
    ensures WatermarkEarned(Apply(s, step))
  {
  }

  lemma StepKeepsInv(s: State, step: Step)
    requires Inv(s) && Enabled(s, step)
    ensures Inv(Apply(s, step))
  {
    CoveredStays(s, step);
    PassedStays(s, step);
    WatermarkStays(s, step);
    if step == Commit(true) { CommitCovers(s); }
    hide PassedAttempted, WatermarkEarned, Covered, Attempted, Succeeded;
  }

  lemma {:induction false} RunKeepsInv(run: Run)
    requires Legal(run)
    ensures Inv(Exec(run))
  {
    if run.Then? {
      hide Inv;
      RunKeepsInv(run.prev);
      StepKeepsInv(Exec(run.prev), run.step);
    }
  }

  /**
   * Across crashes and restarts, every offset below the committed watermark was undecodable or handed to
   * every handler that some session had copied when it started.
   */
  lemma CommittedMeansAttempted(run: Run, offset: nat)
    requires Legal(run) && offset < Exec(run).committed
    ensures offset < |Exec(run).log| && Covered(Exec(run), offset)
  {
    RunKeepsInv(run);
  }

  /** The message whose commit set the watermark was itself undecodable or succeeded in every handler. */
  lemma WatermarkSucceeded(run: Run)
    requires Legal(run) && Exec(run).committed > 0
    ensures var s := Exec(run);
            && s.lastCommit.Some? && s.lastCommit.value.1 == s.committed - 1 < |s.log| &&
                s.lastCommit.value.0 < |s.sessions|
            && (s.log[s.committed - 1].Undecodable? || Succeeded(s, s.lastCommit.value.0, s.committed - 1))
  {
    RunKeepsInv(run);
  }

  predicate NeverFails(run: Run) {
    run.Then? ==> NeverFails(run.prev) && run.step != Handle(false)
  }

  ghost predicate AllOk(s: State) {
    forall k: nat, r :: k < |s.sessions| && r in s.sessions[k].results ==> s.sessions[k].results[r]
  }

  lemma {:induction false} NeverFailsAllOk(run: Run)
    requires Legal(run) && NeverFails(run)
    ensures AllOk(Exec(run))
  {
    if run.Then? {
      NeverFailsAllOk(run.prev);
    }
  }

  /** If no handler ever fails, every decodable offset below the watermark succeeded in all of them. */
  lemma CommittedMeansSucceeded(run: Run, offset: nat)
    requires Legal(run) && NeverFails(run) && offset < Exec(run).committed
    ensures offset < |Exec(run).log|
    ensures Exec(run).log[offset].Undecodable? || exists k: nat ::
          k < |Exec(run).sessions| && Succeeded(Exec(run), k, offset)
  {
    var s := Exec(run);
    CommittedMeansAttempted(run, offset);
    NeverFailsAllOk(run);
    if s.log[offset].Envelope? {
      var k: nat :| k < |s.sessions| && Attempted(s, k, offset);
      assert Succeeded(s, k, offset);
    }
  }

  // ---------------------------------------------------------------- what "at least once" comes to

  predicate Extends(run: Run, earlier: Run) {
    run == earlier || (run.Then? && Extends(run.prev, earlier))
  }

  /** Nobody is given the offset any more: its results are those of the earlier sessions. */
  ghost predicate Settled(s: State, earlier: State, offset: nat) {
    && |earlier.sessions| <= |s.sessions| && earlier.committed <= s.committed
    && (forall k: nat, h: nat :: k < |s.sessions| && (offset, h) in s.sessions[k].results ==>
          k < |earlier.sessions| && (offset, h) in earlier.sessions[k].results &&
          earlier.sessions[k].results[(offset, h)] == s.sessions[k].results[(offset, h)])
  }

  lemma SettledStep(s: State, step: Step, earlier: State, offset: nat)
    requires Inv(s) && Enabled(s, step) && Settled(s, earlier, offset) && offset < earlier.committed
    ensures Settled(Apply(s, step), earlier, offset)
  {
  }

  /** A message below the watermark is never handed to a handler again, whatever happened to it. */
  lemma {:induction false} CommittedIsFinal(run: Run, earlier: Run, offset: nat)
    requires Legal(run) && Extends(run, earlier) && offset < Exec(earlier).committed
    ensures Settled(Exec(run), Exec(earlier), offset)
  {
    if run != earlier {
      CommittedIsFinal(run.prev, earlier, offset);
      RunKeepsInv(run.prev);
      hide Settled, Inv;
      SettledStep(Exec(run.prev), run.step, Exec(earlier), offset);
    }
  }

  /** After `earlier`, some later session hands the message to its first handler. */
  ghost predicate Redelivers(run: Run, earlier: Run, offset: nat) {
    && Legal(run) && Extends(run, earlier)
    && |Exec(earlier).sessions| < |Exec(run).sessions|
    && (offset, 0) in Exec(run).sessions[|Exec(run).sessions| - 1].results
  }

  /** A session of one handler that has got to `pos`. */
  ghost predicate Walking(run: Run, earlier: Run, pos: nat) {
    var s := Exec(run);
    && Legal(run) && Extends(run, earlier) && s.log == Exec(earlier).log
    && |s.sessions| == |Exec(earlier).sessions| + 1 && Current(s).handlers == 1
    && s.loop == Fetching(pos)
  }

  lemma Snoc(run: Run, step: Step, earlier: Run)
    requires Legal(run) && Enabled(Exec(run), step)
    ensures Legal(Then(run, step)) && (Extends(run, earlier) ==> Extends(Then(run, step), earlier))
    ensures Exec(Then(run, step)) == Apply(Exec(run), step)
  {
  }

  /** Past one message, by a commit that fails or a handler that does. */
  lemma WalkOne(run: Run, earlier: Run, pos: nat) returns (after: Run)
    requires Walking(run, earlier, pos) && pos < |Exec(earlier).log|
    ensures Walking(after, earlier, pos + 1)
  {
    hide Legal, Extends;
    Snoc(run, Fetch, earlier);
    after := Then(run, Fetch);
    if Exec(run).log[pos].Undecodable? {
      Snoc(after, Commit(false), earlier);
      after := Then(after, Commit(false));
    } else {
      Snoc(after, Handle(false), earlier);
      after := Then(after, Handle(false));
      Snoc(after, Skip, earlier);
      after := Then(after, Skip);
    }
  }

  lemma {:induction false} WalkTo(run: Run, earlier: Run, pos: nat, offset: nat) returns (after: Run)
    requires Walking(run, earlier, pos) && pos <= offset < |Exec(earlier).log|
    ensures Walking(after, earlier, offset)
    decreases offset - pos
  {
    if pos == offset {
      after := run;
    } else {
      hide Walking;
      var next := WalkOne(run, earlier, pos);
      after := WalkTo(next, earlier, pos + 1, offset);
    }
  }

  /** A crash and a restart. */
  lemma Restart(earlier: Run) returns (run: Run)
    requires Legal(earlier)
    ensures Walking(run, earlier, Exec(earlier).committed)
  {
    assert Extends(earlier, earlier);
    hide Legal, Extends;
    run := earlier;
    if !Exec(earlier).loop.Down? {
      Snoc(earlier, Crash, earlier);
      run := Then(earlier, Crash);
    }
    Snoc(run, Start(1), earlier);
    run := Then(run, Start(1));
  }

  lemma Redeliver(earlier: Run, offset: nat) returns (run: Run)
    requires Legal(earlier) && Exec(earlier).committed <= offset < |Exec(earlier).log|
    requires Exec(earlier).log[offset].Envelope?
    ensures Redelivers(run, earlier, offset)
  {
    var start := Restart(earlier);
    run := WalkTo(start, earlier, Exec(earlier).committed, offset);
    hide Legal, Extends;
    Snoc(run, Fetch, earlier);
    run := Then(run, Fetch);
    Snoc(run, Handle(true), earlier);
    run := Then(run, Handle(true));
  }

  lemma NotRedelivered(run: Run, earlier: Run, offset: nat)
    requires offset < Exec(earlier).committed
    ensures !Redelivers(run, earlier, offset)
  {
    hide Legal, Extends, Exec;
    if Legal(run) && Extends(run, earlier) {
      CommittedIsFinal(run, earlier, offset);
    }
  }

  /**
   * "Commit only if all handlers succeeded" keeps a failed message for another try only until a later
   * message commits: a restart can hand a message out again exactly when the watermark is not past it.
   */
  lemma RedeliveredExactlyWhen(earlier: Run, offset: nat)
    requires Legal(earlier) && offset < |Exec(earlier).log| && Exec(earlier).log[offset].Envelope?
    ensures (exists run :: Redelivers(run, earlier, offset)) <==> Exec(earlier).committed <= offset
  {
    hide Redelivers;
    if Exec(earlier).committed <= offset {
      var run := Redeliver(earlier, offset);
    } else {
      forall run ensures !Redelivers(run, earlier, offset) {
        NotRedelivered(run, earlier, offset);
      }
    }
  }

  /** Two messages, of which the only handler has failed the first. */
  lemma FailFirst() returns (run: Run)
    ensures Legal(run)
    ensures Exec(run) == State([Envelope(1), Envelope(2)], 0, Fetching(1), [Session(1, map[(0, 0) := false])], None)
  {
    var two := Then(Then(Begin, Append(Envelope(1))), Append(Envelope(2)));
    assert Legal(two) && Exec(two) == State([Envelope(1), Envelope(2)], 0, Down, [], None);
    hide Legal, Extends;
    Snoc(two, Start(1), two);
    run := Then(two, Start(1));
    Snoc(run, Fetch, run);
    run := Then(run, Fetch);
    Snoc(run, Handle(false), run);
    run := Then(run, Handle(false));
    Snoc(run, Skip, run);
    run := Then(run, Skip);
  }

  /** So a message can fail everywhere, be committed by its successor, and be lost. */
  lemma FailedMessageLost() returns (run: Run)
    ensures Legal(run) && Exec(run).committed == 2 == |Exec(run).log| && |Exec(run).sessions| == 1
    ensures Exec(run).log[0].Envelope? && Attempted(Exec(run), 0, 0) && !Succeeded(Exec(run), 0, 0)
    ensures !exists later :: Redelivers(later, run, 0)
  {
    hide Legal, Extends, Redelivers;
    run := FailFirst();
    Snoc(run, Fetch, run);
    run := Then(run, Fetch);
    Snoc(run, Handle(true), run);
    run := Then(run, Handle(true));
    Snoc(run, Commit(true), run);
    run := Then(run, Commit(true));
    assert Exec(run).sessions[0].handlers == 1 && Exec(run).sessions[0].results == map[(0, 0) := false, (1, 0) := true];
    RedeliveredExactlyWhen(run, 0);
  }

  // ---------------------------------------------------------------- the loop goes on

  /** Started at the committed offset; and after a commit, one that fails or none, the loop fetches the next offset. */
  lemma LoopGoesOn(run: Run)
    requires Legal(run) && run.Then?
    ensures var before, s := Exec(run.prev), Exec(run);
            match run.step
            case Start(handlers) =>
              s.loop == Fetching(before.committed) && s.sessions == before.sessions + [Session(handlers, map[])]
            case Commit(ok) =>
              && s.loop == Fetching(before.loop.offset + 1) && s.sessions == before.sessions
              && s.committed == (if ok then before.loop.offset + 1 else before.committed)
              && NextIsFetched(s, before.loop.offset + 1)
            case Skip =>
              && s.loop == Fetching(before.loop.offset + 1) && s.sessions == before.sessions
              && s.committed == before.committed && NextIsFetched(s, before.loop.offset + 1)
            case _ => true
  {
  }

  /** The next fetch is possible once there is such a message, and puts it in hand for the first handler. */
  ghost predicate NextIsFetched(s: State, offset: nat) {
    && (Enabled(s, Fetch) <==> offset < |s.log|)
    && (Enabled(s, Fetch) ==>
          && Apply(s, Fetch).loop == Holding(offset, 0, false)
          && Apply(s, Fetch).sessions == s.sessions && Apply(s, Fetch).committed == s.committed)
  }

  /** `run` is `earlier` and further steps, with no crash among them. */
  predicate GoesOn(run: Run, earlier: Run) {
    run == earlier || (run.Then? && GoesOn(run.prev, earlier) && !run.step.Crash?)
  }

  /** What a session has attempted since it started at `from`. */
  ghost predicate AttemptedFrom(s: State, from: nat, sessions: nat) {
    && |s.sessions| == sessions > 0 && !s.loop.Down? && from <= Reached(s) <= |s.log|
    && forall o: nat :: from <= o < Reached(s) ==> s.log[o].Undecodable? || Attempted(s, sessions - 1, o)
  }

  lemma AttemptedFromStays(s: State, step: Step, from: nat, sessions: nat)
    requires Inv(s) && Enabled(s, step) && !step.Crash? && AttemptedFrom(s, from, sessions)
    ensures AttemptedFrom(Apply(s, step), from, sessions)
  {
    var s' := Apply(s, step);
    forall o: nat | from <= o < Reached(s) ensures s'.log[o].Undecodable? || Attempted(s', sessions - 1, o) {
      if s.log[o].Envelope? { AttemptedStays(s, step, sessions - 1, o); }
    }
  }

  /** Until it crashes, a session leaves out no message from its start up to where it stands. */
  lemma {:induction false} SessionAttemptsAll(run: Run, start: Run)
    requires Legal(run) && start.Then? && start.step.Start? && GoesOn(run, start)
    ensures AttemptedFrom(Exec(run), Exec(start.prev).committed, |Exec(start.prev).sessions| + 1)
  {
    if run == start {
      RunKeepsInv(run.prev);
    } else {
      SessionAttemptsAll(run.prev, start);
      RunKeepsInv(run.prev);
      hide Inv, AttemptedFrom, Apply, Enabled;
      AttemptedFromStays(Exec(run.prev), run.step, Exec(start.prev).committed, |Exec(start.prev).sessions| + 1);
    }
  }

  lemma SnocOn(run: Run, step: Step, earlier: Run)
    requires Legal(run) && Enabled(Exec(run), step) && GoesOn(run, earlier) && !step.Crash?
    ensures Legal(Then(run, step)) && GoesOn(Then(run, step), earlier)
    ensures Exec(Then(run, step)) == Apply(Exec(run), step)
  {
  }

  /** The same messages and the same session as before. */
  predicate SameSession(s: State, earlier: State) {
    s.log == earlier.log && |s.sessions| == |earlier.sessions| > 0 && Current(s).handlers == Current(earlier).handlers
  }

  /** The handlers that have not been called yet are called. */
  lemma {:induction false} CallRest(run: Run, earlier: Run) returns (after: Run)
    requires Legal(run) && GoesOn(run, earlier) && SameSession(Exec(run), Exec(earlier))
    requires InHand(Exec(run)) && Exec(run).log[Exec(run).loop.offset].Envelope?
    ensures Legal(after) && GoesOn(after, earlier) && SameSession(Exec(after), Exec(earlier)) && InHand(Exec(after))
    ensures Exec(after).loop.offset == Exec(run).loop.offset && Exec(after).loop.next == Current(Exec(after)).handlers
    decreases Current(Exec(run)).handlers - Exec(run).loop.next
  {
    hide Legal, GoesOn, Exec;
    RunKeepsInv(run);
    var s := Exec(run);
    assert s.loop.next <= Current(s).handlers;
    hide Inv;
    after := run;
    if s.loop.next < Current(s).handlers {
      SnocOn(run, Handle(true), earlier);
      NextHandled(s, Current(s).handlers, true);
      after := CallRest(Then(run, Handle(true)), earlier);
    }
  }

  /** A message in hand is got over, attempted if it can be decoded. */
  lemma GetOver(run: Run, earlier: Run) returns (after: Run)
    requires Legal(run) && GoesOn(run, earlier) && SameSession(Exec(run), Exec(earlier)) && InHand(Exec(run))
    ensures Legal(after) && GoesOn(after, earlier) && SameSession(Exec(after), Exec(earlier))
    ensures Exec(after).loop == Fetching(Exec(run).loop.offset + 1)
    ensures var o := Exec(run).loop.offset;
            Exec(run).log[o].Undecodable? || Attempted(Exec(after), |Exec(after).sessions| - 1, o)
  {
    hide Legal, GoesOn, Exec;
    var o := Exec(run).loop.offset;
    if Exec(run).log[o].Undecodable? {
      SnocOn(run, Commit(true), earlier);
      after := Then(run, Commit(true));
    } else {
      after := CallRest(run, earlier);
      RunKeepsInv(after);
      assert Attempted(Exec(after), |Exec(after).sessions| - 1, o);
      hide Inv;
      var last := if Exec(after).loop.failed then Skip else Commit(true);
      SnocOn(after, last, earlier);
      AttemptedStays(Exec(after), last, |Exec(after).sessions| - 1, o);
      after := Then(after, last);
    }
  }

  lemma {:induction false} GoTo(run: Run, earlier: Run, offset: nat) returns (after: Run)
    requires Legal(run) && GoesOn(run, earlier) && SameSession(Exec(run), Exec(earlier)) && !Exec(run).loop.Down?
    requires Reached(Exec(run)) <= offset < |Exec(run).log|
    ensures Legal(after) && GoesOn(after, earlier) && SameSession(Exec(after), Exec(earlier))
    ensures Exec(after).loop == Fetching(offset + 1)
    ensures Exec(run).log[offset].Undecodable? || Attempted(Exec(after), |Exec(after).sessions| - 1, offset)
    decreases offset - Reached(Exec(run))
  {
    hide Legal, GoesOn, Exec;
    var held := run;
    if Exec(run).loop.Fetching? {
      SnocOn(run, Fetch, earlier);
      held := Then(run, Fetch);
    }
    var over := GetOver(held, earlier);
    hide Attempted;
    if Reached(Exec(run)) == offset {
      after := over;
    } else {
      after := GoTo(over, earlier, offset);
    }
  }

  /**
   * No message ahead is out of reach: from any state in which the loop is up, the same session can go on,
   * without a crash, until it has handed the message to every handler.
   */
  lemma EveryMessageCanBeReached(run: Run, offset: nat) returns (after: Run)
    requires Legal(run) && !Exec(run).loop.Down? && Reached(Exec(run)) <= offset < |Exec(run).log|
    ensures Legal(after) && GoesOn(after, run) && SameSession(Exec(after), Exec(run))
    ensures Exec(after).loop == Fetching(offset + 1)
    ensures Exec(run).log[offset].Undecodable? || Attempted(Exec(after), |Exec(after).sessions| - 1, offset)
  {
    RunKeepsInv(run);
    after := GoTo(run, run, offset);
  }

  // ---------------------------------------------------------------- the consumer as an object

  /** A message of this kind has just been fetched, for so many handlers. */
  predicate JustFetched(s: State, m: Message, handlers: nat) {
    InHand(s) && s.log[s.loop.offset] == m && s.loop == Holding(s.loop.offset, 0, false) &&
        Current(s).handlers == handlers
  }

  /** The state machine after the handlers have returned, one after the other. */
  function Handled(s: State, oks: seq<bool>): State {
    if oks == [] then s
    else
      var prev, last := Handled(s, oks[..|oks| - 1]), Handle(oks[|oks| - 1]);
      if Enabled(prev, last) then Apply(prev, last) else prev
  }

  predicate AllTrue(oks: seq<bool>) {
    forall i :: 0 <= i < |oks| ==> oks[i]
  }

  lemma AllTrueSnoc(oks: seq<bool>, ok: bool)
    ensures AllTrue(oks + [ok]) <==> AllTrue(oks) && ok
  {
    var all := oks + [ok];
    assert all[|oks|] == ok && forall i :: 0 <= i < |oks| ==> all[i] == oks[i];
  }

  lemma NextHandled(s: State, handlers: nat, ok: bool)
    requires InHand(s) && s.log[s.loop.offset].Envelope? && s.loop.next < Current(s).handlers == handlers
    ensures Enabled(s, Handle(ok))
    ensures var s' := Apply(s, Handle(ok));
            && InHand(s') && s'.log == s.log && Current(s').handlers == handlers
            && s'.loop == Holding(s.loop.offset, s.loop.next + 1, s.loop.failed || !ok)
  {
  }

  lemma HandledSnoc(s: State, oks: seq<bool>, ok: bool)
    requires Enabled(Handled(s, oks), Handle(ok))
    ensures Handled(s, oks + [ok]) == Apply(Handled(s, oks), Handle(ok))
  {
    assert (oks + [ok])[..|oks|] == oks;
  }

  lemma NoneHandled(s: State)
    ensures Handled(s, []) == s && AllTrue([])
  {
  }

  /** Every handler's turn comes, and the machine remembers whether one failed. */
  lemma {:induction false} HandledInTurn(s: State, m: Message, handlers: nat, oks: seq<bool>)
    requires JustFetched(s, m, handlers) && m.Envelope? && |oks| <= handlers
    ensures var s' := Handled(s, oks);
            && InHand(s') && s'.log == s.log && Current(s').handlers == handlers
            && s'.loop == Holding(s.loop.offset, |oks|, !AllTrue(oks))
    ensures forall i :: 0 <= i < |oks| ==> Enabled(Handled(s, oks[..i]), Handle(oks[i]))
  {
    hide AllTrue, Handled, Enabled, Apply, Current;
    if oks == [] {
      NoneHandled(s);
    } else {
      var init, last := oks[..|oks| - 1], oks[|oks| - 1];
      assert oks == init + [last];
      HandledInTurn(s, m, handlers, init);
      NextHandled(Handled(s, init), handlers, last);
      HandledSnoc(s, init, last);
      AllTrueSnoc(init, last);
      forall i | 0 <= i < |oks| ensures Enabled(Handled(s, oks[..i]), Handle(oks[i])) {
        if i < |init| { assert oks[..i] == init[..i]; }
      }
    }
  }

  /** Each handler's outcome is a step the machine can take when its turn comes. */
  ghost predicate InTurn(s: State, oks: seq<bool>) {
    forall i :: 0 <= i < |oks| ==> Enabled(Handled(s, oks[..i]), Handle(oks[i]))
  }

  /** The machine commits or skips the message in hand, as told, and is back at the fetch of the next offset. */
  ghost predicate EndsTurn(end: State, offset: nat, commit: bool) {
    && (commit <==> Enabled(end, Commit(true))) && (commit <==> Enabled(end, Commit(false)))
    && (!commit <==> Enabled(end, Skip))
    && (if commit then
          var done, unsure := Apply(end, Commit(true)), Apply(end, Commit(false));
          && done.loop == unsure.loop == Fetching(offset + 1)
          && done.committed == offset + 1 && unsure.committed == end.committed
        else
          Apply(end, Skip).loop == Fetching(offset + 1) && Apply(end, Skip).committed == end.committed)
  }

  lemma TurnEnds(end: State)
    requires InHand(end) && (end.log[end.loop.offset].Envelope? ==> end.loop.next == Current(end).handlers)
    ensures EndsTurn(end, end.loop.offset, end.log[end.loop.offset].Undecodable? || !end.loop.failed)
  {
  }

  lemma TurnOf(s: State, m: Message, handlers: nat, oks: seq<bool>)
    requires JustFetched(s, m, handlers) && |oks| == handlers
    ensures m.Envelope? ==> InTurn(s, oks)
    ensures EndsTurn(if m.Undecodable? then s else Handled(s, oks), s.loop.offset, m.Undecodable? || AllTrue(oks))
  {
    hide EndsTurn, Handled, Enabled, AllTrue;
    if m.Envelope? {
      HandledInTurn(s, m, handlers, oks);
      TurnEnds(Handled(s, oks));
    } else {
      TurnEnds(s);
    }
  }

  class Consumer {
    var handlers: map<string, seq<nat>>
    var running: map<string, seq<nat>>     // the handlers each started loop was given

    constructor ()
      ensures handlers == map[] && running == map[]
    {
      handlers, running := map[], map[];
    }

    method Subscribe(topic: string, handler: nat)
      modifies this
      ensures handlers == old(handlers)[
                              topic := (if topic in old(handlers) then old(handlers)[topic] else []) + [handler]]
      ensures running == old(running)
    {
      handlers := handlers[topic := (if topic in handlers then handlers[topic] else []) + [handler]];
    }

    /** One loop per topic, in any order, each over its own copy of the handlers. */
    method Start()
      modifies this`running
      ensures running == handlers
    {
      running := map[];
      var rest := handlers.Keys;
      while rest != {}
        invariant rest <= handlers.Keys && running == handlers - rest
        decreases rest
      {
        var topic :| topic in rest;
        running := running[topic := handlers[topic]];
        rest := rest - {topic};
      }
    }

    /**
     * One turn of the loop after a fetch: every handler is called, even after one failed.  In the state
     * machine these are Handle steps in turn, and then Commit or Skip, whichever the result says.
     */
    method Deliver(m: Message, topic: string, succeeds: seq<bool>, ghost s: State)
        returns (called: seq<nat>, commit: bool)
      requires topic in running && |succeeds| == |running[topic]| && JustFetched(s, m, |running[topic]|)
      ensures called == if m.Undecodable? then [] else running[topic]
      ensures commit <==> m.Undecodable? || AllTrue(succeeds)
      ensures m.Envelope? ==> InTurn(s, succeeds)
      ensures EndsTurn(if m.Undecodable? then s else Handled(s, succeeds), s.loop.offset, commit)
    {
      TurnOf(s, m, |running[topic]|, succeeds);
      hide InTurn, EndsTurn, Handled, JustFetched, AllTrue;
      if m.Undecodable? {
        return [], true;
      }
      called, commit := Dispatch(running[topic], succeeds);
    }

    /** The loop over the handlers. */
    static method Dispatch(hs: seq<nat>, succeeds: seq<bool>) returns (called: seq<nat>, commit: bool)
      requires |hs| == |succeeds|
      ensures called == hs && (commit <==> AllTrue(succeeds))
    {
      called, commit := [], true;
      for i := 0 to |hs|
        invariant called == hs[..i]
        invariant commit <==> forall j :: 0 <= j < i ==> succeeds[j]
      {
        called := called + [hs[i]];
        if !succeeds[i] {
          commit := false;
        }
      }
    }
  }
}
