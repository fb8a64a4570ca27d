/**
 * The window counter of `checkRateLimit`: an INCR and an EXPIRE, issued as two separate Redis
 * commands by requests that run concurrently.  Times are nanoseconds.  A cell is everything there
 * is to say about one `rate:<app>:<endpoint>` key: what Redis stores, which EXPIREs are still on
 * their way, and the history of the INCRs that were executed.
 */
module RateLimiter {
  import opened Results

  const WINDOW: int := 60_000_000_000

  /** The length of `k` windows. */
  function Windows(k: nat): int {
    k * WINDOW
  }

  /** What Redis stores under the key. */
  datatype Key = Absent | Live(count: nat, expiry: Option<int>)

  /** A key cannot be read at or after its expiry. */
  predicate Readable(k: Key, now: int) {
    k.Live? && (k.expiry.Some? ==> now < k.expiry.value)
  }

  /** INCR creates the key without a TTL, and keeps the TTL of a key that exists. */
  function Incr(k: Key, now: int): (r: Key)
    ensures r.Live?
  {
    if Readable(k, now) then k.(count := k.count + 1) else Live(1, None)
  }

  /** EXPIRE does nothing to a key that is not there. */
  function Expire(k: Key, now: int): Key {
    if Readable(k, now) then k.(expiry := Some(now + WINDOW)) else Absent
  }

  /** `Pipeline` with its Redis key as the field that `checkRateLimit` changes in place. */
  class Limiter {
    var key: Key

    ghost predicate Valid()
      reads this
    {
      key.Live? ==> key.count >= 1
    }

    constructor ()
      ensures Valid() && key == Absent
    {
      key := Absent;
    }

    /** One undisturbed `checkRateLimit`.  `incrOk` and `expireOk` say whether Redis answered. */
    method CheckRateLimit(limit: int, t0: int, t1: int, incrOk: bool, expireOk: bool) returns (admitted: bool)
      requires Valid() && t0 <= t1
      modifies this
      ensures Valid()
      ensures !incrOk ==> !admitted && key == old(key)
      ensures incrOk && Readable(old(key), t0) ==>
                key == Live(old(key.count) + 1, old(key.expiry)) && admitted == (old(key.count) < limit)
      ensures incrOk && !Readable(old(key), t0) ==>
                key == Live(1, if expireOk then Some(t1 + WINDOW) else None) && admitted == (1 <= limit)
    {
      if !incrOk {
        return false;
      }
      key := Incr(key, t0);
      var count := key.count;
      if count == 1 && expireOk {
        key := Expire(key, t1);
      }
      admitted := !(count > limit);
    }
  }

  /** One executed INCR.  `replied` is false when its answer never reached the gateway. */
  datatype Call = Call(req: nat, time: int, limit: int, count: nat, replied: bool)

  predicate Admits(c: Call) {
    c.replied && c.count <= c.limit
  }

  datatype Cell = Cell(key: Key, pending: set<nat>, log: seq<Call>)

  const EmptyCell := Cell(Absent, {}, [])

  datatype Step =
    | DoIncr(req: nat, limit: int, replied: bool)
    | DoExpire(req: nat)
    | LoseExpire(req: nat)
    | RepeatExpire(req: nat)     // executed, but its answer was lost and the client sends it again

  predicate Enabled(c: Cell, step: Step) {
    match step
    case DoIncr(_, limit, _) => limit > 0
    case DoExpire(req) => req in c.pending
    case LoseExpire(req) => req in c.pending
    case RepeatExpire(req) => req in c.pending
  }

  function Apply(c: Cell, now: int, step: Step): Cell {
    match step
    case DoIncr(req, limit, replied) =>
      var key := Incr(c.key, now);
      Cell(key,
           if replied && key.count == 1 then c.pending + {req} else c.pending,
           c.log + [Call(req, now, limit, key.count, replied)])
    case DoExpire(req) => Cell(Expire(c.key, now), c.pending - {req}, c.log)
    case LoseExpire(req) => c.(pending := c.pending - {req})
    case RepeatExpire(req) => c.(key := Expire(c.key, now))
  }

  // ---------------------------------------------------------------- histories

  function Last(log: seq<Call>): Call
    requires log != []
  {
    log[|log| - 1]
  }

  function Init(log: seq<Call>): seq<Call>
    requires log != []
  {
    log[..|log| - 1]
  }

  /** When the incarnation of the key that the last call belongs to was created. */
  function Start(log: seq<Call>): int
    requires log != []
  {
    if Last(log).count == 1 || |log| == 1 then Last(log).time else Start(Init(log))
  }

  /** `c` continues the current incarnation, or opens one at least a full window after its start. */
  predicate Follows(log: seq<Call>, c: Call) {
    if log == [] then c.count == 1
    else
      && Last(log).time <= c.time
      && (c.count == Last(log).count + 1 || (c.count == 1 && c.time >= Start(log) + WINDOW))
  }

  predicate Windowed(log: seq<Call>) {
    log == [] || (Windowed(Init(log)) && Follows(Init(log), Last(log)) && Last(log).count >= 1)
  }

  predicate LimitsWithin(log: seq<Call>, L: nat) {
    forall i :: 0 <= i < |log| ==> 0 < log[i].limit <= L
  }

  /** How many calls were admitted at a time in [from, to). */
  function Admitted(log: seq<Call>, from: int, to: int): nat {
    if log == [] then 0
    else Admitted(Init(log), from, to) + (if Admits(Last(log)) && from <= Last(log).time < to then 1 else 0)
  }

  function Min(a: int, b: int): int {
    if a <= b then a else b
  }

  lemma {:induction false} StartNotAfterLast(log: seq<Call>)
    requires Windowed(log) && log != []
    ensures Start(log) <= Last(log).time
  {
    if Last(log).count != 1 && |log| > 1 {
      StartNotAfterLast(Init(log));
    }
  }

  lemma {:induction false} TimesBefore(log: seq<Call>, i: nat)
    requires Windowed(log) && i < |log|
    ensures log[i].time <= Last(log).time
  {
    if i < |log| - 1 {
      TimesBefore(Init(log), i);
    }
  }

  lemma {:induction false} NoneBefore(log: seq<Call>, from: int, to: int)
    requires Windowed(log)
    requires log != [] ==> Last(log).time < from
    ensures Admitted(log, from, to) == 0
  {
    if log != [] {
      NoneBefore(Init(log), from, to);
    }
  }

  /**
   * The counting argument: if the current incarnation started before `from + k` windows, then at
   * most k incarnations started in the interval, one more was already running, and that one had
   * spent its first count before the interval began.
   */
  lemma {:induction false} AdmittedSince(log: seq<Call>, L: nat, from: int, to: int, k: nat)
    requires Windowed(log) && LimitsWithin(log, L) && log != []
    requires Start(log) < from + Windows(k)
    ensures Admitted(log, from, to) <= k * L + Min(Last(log).count, L) - 1
  {
    var prev := Init(log);
    assert Last(log).limit <= L;
    if Last(log).count == 1 {
      StartNotAfterLast(log);
      if k == 0 {
        NoneBefore(log, from, to);
      } else if prev == [] {
        assert k * L >= L;
      } else {
        assert Start(log) == Last(log).time;
        assert LimitsWithin(prev, L);
        StartNotAfterLast(prev);
        if Last(log).count == Last(prev).count + 1 { assert false; }
        AdmittedSince(prev, L, from, to, k - 1);
        assert k * L == (k - 1) * L + L;
      }
    } else {
      assert LimitsWithin(prev, L);
      AdmittedSince(prev, L, from, to, k);
    }
  }

  /** Any k windows in a row admit at most (k+1)L-1 requests. */
  lemma {:induction false} LogBound(log: seq<Call>, L: nat, from: int, k: nat)
    requires Windowed(log) && LimitsWithin(log, L) && L > 0
    ensures Admitted(log, from, from + Windows(k)) <= (k + 1) * L - 1
  {
    assert (k + 1) * L == k * L + L;
    assert k * L >= 0;
    if log != [] {
      if Last(log).time >= from + Windows(k) {
        assert LimitsWithin(Init(log), L);
        LogBound(Init(log), L, from, k);
      } else {
        StartNotAfterLast(log);
        AdmittedSince(log, L, from, from + Windows(k), k);
      }
    }
  }

  // ---------------------------------------------------------------- the protocol invariant

  /** A TTL, once set, lasts at least a window from the start of the incarnation; so a key is never gone before that. */
  ghost predicate CellInv(c: Cell, now: int) {
    && Windowed(c.log)
    && (c.log != [] ==> Last(c.log).time <= now)
    && (c.key.Absent? && c.log != [] ==> now >= Start(c.log) + WINDOW)
    && (c.key.Live? ==> c.log != [] && c.key.count == Last(c.log).count >= 1)
    && (c.key.Live? && c.key.expiry.Some? ==> c.key.expiry.value >= Start(c.log) + WINDOW)
  }

  lemma IncrKeepsInv(c: Cell, now: int, step: Step, t: int)
    requires CellInv(c, t) && t <= now && step.DoIncr?
    ensures CellInv(Apply(c, now, step), now)
  {
    var c' := Apply(c, now, step);
    assert Init(c'.log) == c.log;
    if c.log != [] { StartNotAfterLast(c.log); }
    assert Follows(c.log, Last(c'.log));
    assert Windowed(c'.log);
    if c'.key.expiry.Some? {
      assert Readable(c.key, now);
      assert Start(c'.log) == Start(c.log);
    }
  }

  lemma ExpireKeepsInv(c: Cell, now: int, step: Step, t: int)
    requires CellInv(c, t) && t <= now && (step.DoExpire? || step.RepeatExpire?)
    ensures CellInv(Apply(c, now, step), now)
  {
    if c.log != [] { StartNotAfterLast(c.log); }
  }

  lemma ApplyKeepsInv(c: Cell, now: int, step: Step, t: int)
    requires CellInv(c, t) && t <= now && Enabled(c, step)
    ensures CellInv(Apply(c, now, step), now)
  {
    match step {
      case DoIncr(_, _, _) => IncrKeepsInv(c, now, step, t);
      case LoseExpire(_) =>
      case _ => ExpireKeepsInv(c, now, step, t);
    }
  }

  /** A run: the commands in the order Redis executed them, or lost them, with their times. */
  datatype Run = Begin | Then(prev: Run, now: int, step: Step)

  predicate Legal(run: Run) {
    match run
    case Begin => true
    case Then(prev, now, step) =>
      Legal(prev) && (prev.Then? ==> prev.now <= now) && Enabled(Exec(prev), step)
  }

  function Exec(run: Run): Cell {
    match run
    case Begin => EmptyCell
    case Then(prev, now, step) => Apply(Exec(prev), now, step)
  }

  lemma {:induction false} RunKeepsInv(run: Run)
    requires Legal(run) && run.Then?
    ensures CellInv(Exec(run), run.now)
  {
    if run.prev.Then? {
      RunKeepsInv(run.prev);
    }
    ApplyKeepsInv(Exec(run.prev), run.now, run.step, if run.prev.Then? then run.prev.now else run.now);
  }

  predicate NoRepeats(run: Run) {
    run.Then? ==> NoRepeats(run.prev) && !run.step.RepeatExpire?
  }

  /** If no EXPIRE is sent twice, at most one is on its way, and while it is the key is there and has no TTL. */
  lemma {:induction false} OneExpireOutstanding(run: Run)
    requires Legal(run) && NoRepeats(run)
    ensures forall p, q :: p in Exec(run).pending && q in Exec(run).pending ==> p == q
    ensures Exec(run).pending != {} ==> Exec(run).key.Live? && Exec(run).key.expiry.None?
  {
    if run.Then? {
      OneExpireOutstanding(run.prev);
      if run.prev.Then? { RunKeepsInv(run.prev); }
      var c := Exec(run.prev);
      if run.step.DoExpire? || run.step.LoseExpire? { assert c.pending - {run.step.req} == {}; }
    }
  }

  lemma LogBoundOfRun(run: Run, L: nat, from: int, k: nat)
    requires Legal(run) && L > 0 && LimitsWithin(Exec(run).log, L)
    ensures Admitted(Exec(run).log, from, from + Windows(k)) <= (k + 1) * L - 1
  {
    if run.Then? { RunKeepsInv(run); }
    LogBound(Exec(run).log, L, from, k);
  }

  /**
   * The rate bound in every interleaving, with EXPIRE delayed, lost or repeated at will and the limit changed
   * between requests: k consecutive windows never admit more than (k+1)L-1 requests.
   */
  lemma RateBound(run: Run, L: nat, from: int, k: nat)
    requires Legal(run) && L > 0
    requires LimitsWithin(Exec(run).log, L)
    ensures Admitted(Exec(run).log, from, from + Windows(k)) <= (k + 1) * L - 1
    ensures Admitted(Exec(run).log, from, from + 60 * 1_000_000_000) <= 2 * L - 1
  {
    LogBoundOfRun(run, L, from, k);
    LogBoundOfRun(run, L, from, 1);
  }

  // ---------------------------------------------------------------- the bound is exact

  lemma AdmittedSnoc(log: seq<Call>, c: Call, from: int, to: int)
    ensures Admitted(log + [c], from, to) ==
          Admitted(log, from, to) + (if Admits(c) && from <= c.time < to then 1 else 0)
  {
    assert Init(log + [c]) == log;
  }

  /** `run` is legal, ends by `now` with `key` stored, and has admitted `n` requests in [1, to). */
  ghost predicate Reaches(run: Run, now: int, L: nat, key: Key, to: int, n: int) {
    && Legal(run)
    && (run.Then? ==> run.now <= now)
    && LimitsWithin(Exec(run).log, L)
    && Exec(run).key == key
    && Admitted(Exec(run).log, 1, to) == n
  }

  lemma OneMore(run: Run, req: nat, t: int, now: int, L: nat, key: Key, to: int, n: int)
    requires Reaches(run, t, L, key, to, n) && t <= now && L > 0
    ensures var k' := Incr(key, now);
            Reaches(Then(run, now, DoIncr(req, L, true)), now, L, k', to,
                    n + (if k'.count <= L && 1 <= now < to then 1 else 0))
    ensures Incr(key, now).count == 1 ==> req in Exec(Then(run, now, DoIncr(req, L, true))).pending
  {
    hide Admitted;
    AdmittedSnoc(Exec(run).log, Call(req, now, L, Incr(key, now).count, true), 1, to);
  }

  /** Sends the EXPIRE of `req`. */
  lemma Arm(run: Run, req: nat, now: int, L: nat, key: Key, to: int, n: int)
    requires Reaches(run, now, L, key, to, n) && Readable(key, now) && req in Exec(run).pending
    ensures Reaches(Then(run, now, DoExpire(req)), now, L, Live(key.count, Some(now + WINDOW)), to, n)
  {
    hide Admitted;
  }

  /** `run`, then `n` INCRs at one instant. */
  function Burst(run: Run, n: nat, now: int, L: int): Run {
    if n == 0 then run else Then(Burst(run, n - 1, now, L), now, DoIncr(n, L, true))
  }

  lemma {:induction false} BurstAdmits(run: Run, m: nat, now: int, L: nat, key: Key, to: int, n: int)
    requires Reaches(run, now, L, key, to, n) && 1 <= now < to
    requires Readable(key, now) && key.count + m <= L
    ensures Reaches(Burst(run, m, now, L), now, L, Live(key.count + m, key.expiry), to, n + m)
  {
    hide Reaches;
    if m > 0 {
      BurstAdmits(run, m - 1, now, L, key, to, n);
      OneMore(Burst(run, m - 1, now, L), m, now, now, L, Live(key.count + m - 1, key.expiry), to, n + m - 1);
    }
  }

  /** Opens an incarnation, sends its EXPIRE at once, and fills it to the limit at `later`. */
  function Fill(run: Run, now: int, later: int, L: nat): Run
    requires L > 0
  {
    Burst(Then(Then(run, now, DoIncr(0, L, true)), now, DoExpire(0)), L - 1, later, L)
  }

  lemma FillAdmits(run: Run, t: int, now: int, later: int, L: nat, key: Key, to: int, n: int)
    requires L > 0 && Reaches(run, t, L, key, to, n) && t <= now <= later < now + WINDOW && 1 <= later < to
    requires !Readable(key, now)
    ensures Reaches(Fill(run, now, later, L), later, L, Live(L, Some(now + WINDOW)), to,
          n + L - (if now < 1 then 1 else 0))
  {
    hide Reaches, Exec, Legal, Burst, Windows;
    OneMore(run, 0, t, now, L, key, to, n);
    var first := Then(run, now, DoIncr(0, L, true));
    var n' := n + (if now < 1 then 0 else 1);
    Arm(first, 0, now, L, Live(1, None), to, n');
    var armed := Then(first, now, DoExpire(0));
    Wait(armed, now, later, L, Live(1, Some(now + WINDOW)), to, n');
    BurstAdmits(armed, L - 1, later, L, Live(1, Some(now + WINDOW)), to, n');
  }

  lemma Wait(run: Run, t: int, now: int, L: nat, key: Key, to: int, n: int)
    requires Reaches(run, t, L, key, to, n) && t <= now
    ensures Reaches(run, now, L, key, to, n)
  {
    hide Legal, Exec, Admitted, LimitsWithin;
  }

  /** k+1 windows in a row, each filled to the limit. */
  function Saturated(L: nat, k: nat): Run
    requires L > 0
  {
    if k == 0 then Fill(Begin, 0, 1, L) else Fill(Saturated(L, k - 1), Windows(k), Windows(k), L)
  }

  function Full(L: nat, k: nat): int {
    (k + 1) * L - 1
  }

  lemma NothingAdmitted(L: nat, to: int)
    ensures Reaches(Begin, 0, L, Absent, to, 0)
  {
  }

  lemma {:induction false} SaturatedAdmits(L: nat, k: nat, to: int)
    requires L > 0 && to > Windows(k) && to > 1
    ensures Reaches(Saturated(L, k), if k == 0 then 1 else Windows(k), L, Live(L, Some(Windows(k + 1))), to, Full(L, k))
  {
    if k == 0 {
      assert Reaches(Begin, 0, L, Absent, to, 0) by { NothingAdmitted(L, to); }
      hide Reaches, Fill, Legal, Exec, Admitted;
      FillAdmits(Begin, 0, 0, 1, L, Absent, to, 0);
    } else {
      assert Full(L, k) == Full(L, k - 1) + L;
      hide Reaches, Fill, Full, Legal, Exec, Admitted;
      SaturatedAdmits(L, k - 1, to);
      FillAdmits(Saturated(L, k - 1), if k == 1 then 1 else Windows(k - 1), Windows(k), Windows(k), L,
                 Live(L, Some(Windows(k))), to, Full(L, k - 1));
    }
  }

  /** For every limit and every number of windows, a run that attains the bound of `RateBound`. */
  lemma BoundAttained(L: nat, k: nat) returns (run: Run)
    requires L > 0 && k > 0
    ensures Legal(run) && LimitsWithin(Exec(run).log, L)
    ensures Admitted(Exec(run).log, 1, 1 + Windows(k)) == (k + 1) * L - 1
  {
    run := Saturated(L, k);
    SaturatedAdmits(L, k, 1 + Windows(k));
  }

  // ---------------------------------------------------------------- one incarnation

  /** Admissions since the current incarnation began. */
  function CurrentAdmitted(log: seq<Call>): nat {
    if log == [] then 0
    else (if Last(log).count == 1 then 0 else CurrentAdmitted(Init(log))) + (if Admits(Last(log)) then 1 else 0)
  }

  predicate CurrentUniform(log: seq<Call>, L: int) {
    log == [] ||
    (Last(log).limit == L && Last(log).replied && (Last(log).count == 1 || CurrentUniform(Init(log), L)))
  }

  lemma {:induction false} LogAdmitsFirst(log: seq<Call>, L: nat)
    requires Windowed(log) && log != [] && CurrentUniform(log, L)
    ensures CurrentAdmitted(log) == Min(Last(log).count, L)
  {
    if Last(log).count != 1 {
      LogAdmitsFirst(Init(log), L);
    }
  }

  /**
   * In every run, with one limit and no lost answer, the incarnation that is there has admitted exactly its first L
   * calls.
   */
  lemma {:induction false} IncarnationAdmitsFirst(run: Run, L: nat)
    requires Legal(run) && Exec(run).key.Live? && CurrentUniform(Exec(run).log, L)
    ensures CurrentAdmitted(Exec(run).log) == Min(Exec(run).key.count, L)
  {
    RunKeepsInv(run);
    LogAdmitsFirst(Exec(run).log, L);
  }

  // ---------------------------------------------------------------- a lost EXPIRE

  /** The key exists, has no TTL, and nobody is going to give it one. */
  predicate Stuck(c: Cell) {
    c.key.Live? && c.key.expiry.None? && c.pending == {} && c.key.count >= 1
  }

  /** `run` is `earlier` and some further steps. */
  predicate Extends(run: Run, earlier: Run) {
    run == earlier || (run.Then? && Extends(run.prev, earlier))
  }

  lemma {:induction false} StuckForever(run: Run, earlier: Run)
    requires Legal(run) && Extends(run, earlier) && Stuck(Exec(earlier))
    ensures Stuck(Exec(run)) && Exec(run).key.count >= Exec(earlier).key.count
    ensures |Exec(earlier).log| <= |Exec(run).log|
    ensures forall j :: |Exec(earlier).log| <= j < |Exec(run).log| ==> Exec(run).log[j].count > Exec(earlier).key.count
  {
    if run != earlier {
      StuckForever(run.prev, earlier);
    }
  }

  /** Once the EXPIRE of an incarnation is lost and its count has reached a limit, that limit admits nobody again. */
  lemma LostExpireRefusesForever(run: Run, earlier: Run, j: nat)
    requires Legal(run) && Extends(run, earlier) && Stuck(Exec(earlier))
    requires |Exec(earlier).log| <= j < |Exec(run).log|
    requires Exec(run).log[j].limit <= Exec(earlier).key.count
    ensures !Admits(Exec(run).log[j])
  {
    StuckForever(run, earlier);
  }

  /** Whatever happens after `earlier`, no later call under limit `L` is admitted. */
  ghost predicate NeverAdmits(earlier: Run, L: int) {
    forall run, j | Legal(run) && Extends(run, earlier) && |Exec(earlier).log| <= j < |Exec(run).log| ::
      Exec(run).log[j].limit == L ==> !Admits(Exec(run).log[j])
  }

  /** A run that goes on with an INCR within the limit. */
  lemma AdmitsNext(run: Run, earlier: Run, now: int, L: nat)
    requires Legal(run) && Extends(run, earlier) && |Exec(run).log| == |Exec(earlier).log|
    requires (run.Then? ==> run.now <= now) && 0 < L && Incr(Exec(run).key, now).count <= L
    ensures !NeverAdmits(earlier, L)
  {
    var next := Then(run, now, DoIncr(0, L, true));
    assert Legal(next) && Extends(next, earlier);
    assert Admits(Exec(next).log[|Exec(run).log|]);
  }

  /** The time of the last command. */
  function Now(run: Run): int {
    if run.Begin? then 0 else run.now
  }

  /** A key that has a TTL, or is to get one, is waited out. */
  lemma WaitOut(earlier: Run, L: nat)
    requires Legal(earlier) && 0 < L && Exec(earlier).key.Live?
    requires Exec(earlier).key.expiry.Some? || Exec(earlier).pending != {}
    ensures !NeverAdmits(earlier, L)
  {
    RunKeepsInv(earlier);
    var c, now := Exec(earlier), Now(earlier);
    if c.key.expiry.Some? {
      AdmitsNext(earlier, earlier, if now < c.key.expiry.value then c.key.expiry.value else now, L);
    } else {
      var req :| req in c.pending;
      AdmitsNext(Then(earlier, now, DoExpire(req)), earlier, now + WINDOW, L);
    }
  }

  /**
   * A limit is shut out for ever exactly when the key has no TTL, no EXPIRE is on its way, and the count
   * has reached the limit; in every other state some continuation admits a call under it.
   */
  lemma {:induction false} RefusesForeverExactlyWhen(earlier: Run, L: nat)
    requires Legal(earlier) && 0 < L
    ensures NeverAdmits(earlier, L) <==> Stuck(Exec(earlier)) && Exec(earlier).key.count >= L
  {
    var c := Exec(earlier);
    if Stuck(c) && c.key.count >= L {
      forall run, j | Legal(run) && Extends(run, earlier) && |c.log| <= j < |Exec(run).log| &&
          Exec(run).log[j].limit == L
        ensures !Admits(Exec(run).log[j])
      {
        LostExpireRefusesForever(run, earlier, j);
      }
    } else if c.key.Live? && (c.key.expiry.Some? || c.pending != {}) {
      WaitOut(earlier, L);
    } else {
      if earlier.Then? { RunKeepsInv(earlier); }
      AdmitsNext(earlier, earlier, Now(earlier), L);
    }
  }

  /** A single lost EXPIRE is enough to get there, whatever the limit. */
  lemma {:induction false} StuckIsReachable(limit: nat) returns (run: Run)
    requires limit > 0
    ensures Legal(run) && Stuck(Exec(run)) && Exec(run).key.count == limit
  {
    if limit == 1 {
      run := Then(Then(Begin, 0, DoIncr(7, 1, true)), 1, LoseExpire(7));
    } else {
      run := StuckIsReachable(limit - 1);
      run := Then(run, run.now, DoIncr(7, limit, true));
    }
  }
}
