/**
 Server-verified mini-game runs. Both services hold the player's wallet lock from their
 first statement to the commit, so a player's calls take effect one after another, as
 `MiniGameCalls` proves; what they do is a function of the stored runs, and the class does
 it in place.

 Times are microseconds.
 */
module MiniGames {
  import opened Prelude

  type User = nat
  type RunId = nat

  const ROUNDS_PER_RUN := 5
  const MIN_ROUND_DELAY_MS := 800
  const MAX_ROUND_DELAY_MS := 3_000
  const RUN_TTL := 120_000_000
  const MIN_HUMAN_REACTION_MS := 100
  const MILLISECOND := 1_000
  const LEAST_RUN := 4_501 * MILLISECOND

  datatype Status = Open | Accepted | Rejected | Expired
  datatype Run = Run(
    user: User, delays: seq<int>, issued: int, expires: int, finished: Option<int>, status: Status, average: Option<real>)

  datatype Refusal = NotFound | NotOwner | AlreadyFinished | TooLate | RoundCountMismatch
  datatype Rejection = ReactionTooFast | IdenticalReactions | WallTimeTooShort
  datatype Assessment = Assessment(plausible: bool, reason: Option<Rejection>, average: real)

  predicate ProperDelays(delays: seq<int>) {
    |delays| == ROUNDS_PER_RUN && forall i | 0 <= i < |delays| :: MIN_ROUND_DELAY_MS <= delays[i] <= MAX_ROUND_DELAY_MS
  }

  function Total(s: seq<int>): int {
    if s == [] then 0 else Total(s[..|s| - 1]) + s[|s| - 1]
  }

  function Values(s: seq<int>): set<int> { set i | 0 <= i < |s| :: s[i] }

  /** `open_run`. */
  function OpenRun(u: User, delays: seq<int>, now: int): Run {
    Run(u, delays, now, now + RUN_TTL, None, Open, None)
  }

  /** `check_can_finish`: the refusal, or none. */
  function CheckCanFinish(run: Run, u: User, reactions: seq<int>, now: int): Option<Refusal> {
    if run.user != u then Some(NotOwner)
    else if run.status.Expired? then Some(TooLate)
    else if !run.status.Open? then Some(AlreadyFinished)
    else if now > run.expires then Some(TooLate)
    else if |reactions| != |run.delays| then Some(RoundCountMismatch)
    else None
  }

  /** `assess_plausibility`. */
  function Assess(delays: seq<int>, reactions: seq<int>, issued: int, finished: int): Assessment
    requires reactions != []
  {
    var average := Total(reactions) as real / |reactions| as real;
    if exists i | 0 <= i < |reactions| :: reactions[i] < MIN_HUMAN_REACTION_MS then Assessment(false, Some(ReactionTooFast), average)
    else if |Values(reactions)| == 1 then Assessment(false, Some(IdenticalReactions), average)
    else if finished - issued < (Total(delays) + Total(reactions)) * MILLISECOND then Assessment(false, Some(WallTimeTooShort), average)
    else Assessment(true, None, average)
  }

  // ------------------------------------------------------------ what calls do

  type Runs = map<RunId, Run>

  predicate OpenOf(runs: Runs, u: User, id: RunId) { id in runs && runs[id].user == u && runs[id].status.Open? }

  function Closed(run: Run, status: Status, now: int, average: Option<real>): Run {
    run.(status := status, finished := Some(now), average := average)
  }

  /** The table after `start_run`: every run the player had open is closed, the new one is open. */
  function AfterStart(runs: Runs, u: User, id: RunId, delays: seq<int>, now: int): Runs {
    (map i | i in runs :: if OpenOf(runs, u, i) then Closed(runs[i], Expired, now, None) else runs[i])[id := OpenRun(u, delays, now)]
  }

  /** What `finish_run` answers. */
  function FinishAnswer(runs: Runs, u: User, id: RunId, reactions: seq<int>, now: int): Result<Assessment, Refusal>
    requires ProperRuns(runs)
  {
    if id !in runs then Err(NotFound)
    else
      var refusal := CheckCanFinish(runs[id], u, reactions, now);
      if refusal.Some? then Err(refusal.value) else Ok(Assess(runs[id].delays, reactions, runs[id].issued, now))
  }

  /** The table after `finish_run`: a verdict, a run found too old, or nothing. */
  function AfterFinish(runs: Runs, u: User, id: RunId, reactions: seq<int>, now: int): Runs
    requires ProperRuns(runs)
  {
    match FinishAnswer(runs, u, id, reactions, now)
    case Ok(a) => runs[id := Closed(runs[id], if a.plausible then Accepted else Rejected, now, Some(a.average))]
    case Err(e) =>
      if e.TooLate? && runs[id].status.Open? then runs[id := Closed(runs[id], Expired, now, None)] else runs
  }

  // --------------------------------------------------------------- invariant

  predicate ProperRuns(runs: Runs) {
    forall i | i in runs :: ProperDelays(runs[i].delays)
  }

  /** The partial unique index: at most one open run for each player. */
  ghost predicate OneOpen(runs: Runs) {
    forall i, j | i in runs && j in runs && runs[i].status.Open? && runs[j].status.Open? && runs[i].user == runs[j].user :: i == j
  }

  /** A closed run has its time; an accepted one took as long as five human rounds must. */
  ghost predicate TimesOk(runs: Runs) {
    forall i | i in runs ::
      && (runs[i].finished.Some? <==> !runs[i].status.Open?)
      && (runs[i].status.Accepted? ==> runs[i].finished.value - runs[i].issued >= LEAST_RUN)
  }

  ghost predicate Inv(runs: Runs) { ProperRuns(runs) && OneOpen(runs) && TimesOk(runs) }

  class MiniGameStore {
    var runs: Runs

    constructor ()
      ensures Inv(runs)
    {
      runs := map[];
    }

    method Finish(id: RunId, status: Status, now: int, average: Option<real>)
      requires id in runs
      modifies this
      ensures runs == old(runs)[id := Closed(old(runs)[id], status, now, average)]
    {
      runs := runs[id := Closed(runs[id], status, now, average)];
    }

    /** `MiniGameService.start_run`; `id` is the new UUID and `delays` what the generator gave. */
    method StartRun(u: User, id: RunId, delays: seq<int>, now: int)
      requires Inv(runs) && id !in runs && ProperDelays(delays)
      modifies this
      ensures runs == AfterStart(old(runs), u, id, delays, now) && Inv(runs)
    {
      ghost var before := runs;
      if previous :| previous in runs && OpenOf(runs, u, previous) {
        Finish(previous, Expired, now, None);
      }
      runs := runs[id := OpenRun(u, delays, now)];
      assert runs == AfterStart(before, u, id, delays, now);
      StartKeeps(before, u, id, delays, now);
    }

    /** `MiniGameService.finish_run`. */
    method FinishRun(u: User, id: RunId, reactions: seq<int>, now: int) returns (r: Result<Assessment, Refusal>)
      requires Inv(runs)
      modifies this
      ensures r == FinishAnswer(old(runs), u, id, reactions, now)
      ensures runs == AfterFinish(old(runs), u, id, reactions, now) && Inv(runs)
    {
      FinishKeeps(runs, u, id, reactions, now);
      if id !in runs { return Err(NotFound); }
      var run := runs[id];
      var refusal := CheckCanFinish(run, u, reactions, now);
      if refusal.Some? {
        if refusal.value.TooLate? && run.status.Open? {
          Finish(id, Expired, now, None);
        }
        return Err(refusal.value);
      }
      var assessment := Assess(run.delays, reactions, run.issued, now);
      Finish(id, if assessment.plausible then Accepted else Rejected, now, Some(assessment.average));
      r := Ok(assessment);
    }
  }

  lemma StartKeeps(runs: Runs, u: User, id: RunId, delays: seq<int>, now: int)
    requires Inv(runs) && id !in runs && ProperDelays(delays)
    ensures Inv(AfterStart(runs, u, id, delays, now))
  {
  }

  lemma {:induction false} TotalAtLeast(s: seq<int>, least: int)
    requires forall i | 0 <= i < |s| :: s[i] >= least
    ensures Total(s) >= |s| * least
  {
    if s != [] { TotalAtLeast(s[..|s| - 1], least); }
  }

  lemma {:induction false} TotalAbove(s: seq<int>, least: int, k: nat)
    requires k < |s| && s[k] > least && forall i | 0 <= i < |s| :: s[i] >= least
    ensures Total(s) > |s| * least
    decreases |s|
  {
    var n := |s| - 1;
    if k < n { TotalAbove(s[..n], least, k); } else { TotalAtLeast(s[..n], least); }
  }

  /** Five delays of 800 ms and five human reactions that are not all the same: at least 4501 ms. */
  lemma PlausibleTakesLong(delays: seq<int>, reactions: seq<int>, issued: int, finished: int)
    requires ProperDelays(delays) && |reactions| == |delays| && Assess(delays, reactions, issued, finished).plausible
    ensures finished - issued >= LEAST_RUN
  {
    TotalAtLeast(delays, MIN_ROUND_DELAY_MS);
    AllSame(reactions, MIN_HUMAN_REACTION_MS);
    var k :| 0 <= k < |reactions| && reactions[k] != MIN_HUMAN_REACTION_MS;
    TotalAbove(reactions, MIN_HUMAN_REACTION_MS, k);
  }

  lemma AllSame(s: seq<int>, v: int)
    requires s != []
    ensures (forall k | 0 <= k < |s| :: s[k] == v) ==> |Values(s)| == 1
  {
    if forall k | 0 <= k < |s| :: s[k] == v {
      assert s[0] in Values(s);
      assert Values(s) == {v};
    }
  }

  lemma FinishKeeps(runs: Runs, u: User, id: RunId, reactions: seq<int>, now: int)
    requires Inv(runs)
    ensures Inv(AfterFinish(runs, u, id, reactions, now))
  {
    var answer := FinishAnswer(runs, u, id, reactions, now);
    if answer.Ok? && answer.value.plausible {
      PlausibleTakesLong(runs[id].delays, reactions, runs[id].issued, now);
    }
  }

  // ------------------------------------------------------------- whole runs

  /** One committed call. */
  datatype Call =
    | Start(user: User, id: RunId, delays: seq<int>, now: int)
    | Finish(user: User, id: RunId, reactions: seq<int>, now: int)

  ghost predicate Possible(runs: Runs, call: Call) {
    call.Start? ==> call.id !in runs && ProperDelays(call.delays)
  }

  function Do(runs: Runs, call: Call): Runs
    requires ProperRuns(runs)
  {
    match call
    case Start(u, id, delays, now) => AfterStart(runs, u, id, delays, now)
    case Finish(u, id, reactions, now) => AfterFinish(runs, u, id, reactions, now)
  }

  ghost predicate Execution(states: seq<Runs>, calls: seq<Call>) {
    && |states| == |calls| + 1 && states[0] == map[]
    && forall i | 0 <= i < |calls| :: ProperRuns(states[i]) && Possible(states[i], calls[i]) && states[i + 1] == Do(states[i], calls[i])
  }

  /** The clock does not go back between two calls of the same player. */
  ghost predicate ClockOk(calls: seq<Call>) {
    forall i, j | 0 <= i < j < |calls| && calls[i].user == calls[j].user :: calls[i].now <= calls[j].now
  }

  lemma {:induction false} AlwaysInv(states: seq<Runs>, calls: seq<Call>, n: nat)
    requires Execution(states, calls) && n <= |calls|
    ensures Inv(states[n])
  {
    if n > 0 {
      AlwaysInv(states, calls, n - 1);
      match calls[n - 1]
      case Start(u, id, delays, now) => StartKeeps(states[n - 1], u, id, delays, now);
      case Finish(u, id, reactions, now) => FinishKeeps(states[n - 1], u, id, reactions, now);
    }
  }

  /** `a` was over when `b` began. */
  ghost predicate BeforeRun(a: Run, b: Run) { a.finished.Some? && a.finished.value <= b.issued }

  ghost predicate Apart(a: Run, b: Run) { BeforeRun(a, b) || BeforeRun(b, a) }

  /** A player's runs follow one another, and nothing of them is later than the last reading of the clock. */
  ghost predicate Successive(runs: Runs) {
    forall i, j | i in runs && j in runs && i != j && runs[i].user == runs[j].user :: Apart(runs[i], runs[j])
  }

  /** One of the first `n` calls of the player was no earlier than anything this run shows. */
  ghost predicate Stamped(run: Run, calls: seq<Call>, n: nat)
    requires n <= |calls|
  {
    exists k | 0 <= k < n :: StampedBy(run, calls[k])
  }

  predicate StampedBy(run: Run, call: Call) {
    call.user == run.user && run.issued <= call.now && (run.finished.Some? ==> run.finished.value <= call.now)
  }

  ghost predicate Past(runs: Runs, calls: seq<Call>, n: nat)
    requires n <= |calls|
  {
    forall i | i in runs :: Stamped(runs[i], calls, n)
  }

  lemma PastNow(runs: Runs, calls: seq<Call>, n: nat, i: RunId)
    requires n < |calls| && Past(runs, calls, n) && ClockOk(calls) && i in runs && runs[i].user == calls[n].user
    ensures runs[i].issued <= calls[n].now && (runs[i].finished.Some? ==> runs[i].finished.value <= calls[n].now)
  {
    assert Stamped(runs[i], calls, n);
    var k :| 0 <= k < n && StampedBy(runs[i], calls[k]);
  }

  lemma StartStaysSuccessive(runs: Runs, calls: seq<Call>, n: nat)
    requires Inv(runs) && Successive(runs) && n < |calls| && Past(runs, calls, n) && ClockOk(calls)
    requires calls[n].Start? && Possible(runs, calls[n])
    ensures Successive(Do(runs, calls[n])) && Past(Do(runs, calls[n]), calls, n + 1)
  {
    var Start(u, id, delays, now) := calls[n];
    var after := Do(runs, calls[n]);
    forall i | i in runs && runs[i].user == u ensures BeforeRun(after[i], after[id]) { PastNow(runs, calls, n, i); }
    forall i, j | i in after && j in after && i != j && after[i].user == after[j].user
      ensures Apart(after[i], after[j])
    {
      if i != id && j != id { StillSuccessive(runs, u, now, after, i, j); }
    }
    forall i | i in after ensures Stamped(after[i], calls, n + 1) {
      if i in runs && runs[i].user == u { PastNow(runs, calls, n, i); }
      if i == id || runs[i].user == u { assert StampedBy(after[i], calls[n]); } else { assert Stamped(runs[i], calls, n); }
    }
  }

  /** Closing the player's open run at the start of the next one leaves it after all the others. */
  lemma StillSuccessive(runs: Runs, u: User, now: int, after: Runs, i: RunId, j: RunId)
    requires Inv(runs) && Successive(runs) && i in runs && j in runs && i != j && runs[i].user == runs[j].user
    requires i in after && after[i] == if OpenOf(runs, u, i) then Closed(runs[i], Expired, now, None) else runs[i]
    requires j in after && after[j] == if OpenOf(runs, u, j) then Closed(runs[j], Expired, now, None) else runs[j]
    ensures Apart(after[i], after[j])
  {
    assert Apart(runs[i], runs[j]);
  }

  lemma FinishStaysSuccessive(runs: Runs, calls: seq<Call>, n: nat)
    requires Inv(runs) && Successive(runs) && n < |calls| && Past(runs, calls, n) && ClockOk(calls)
    requires calls[n].Finish?
    ensures Successive(Do(runs, calls[n])) && Past(Do(runs, calls[n]), calls, n + 1)
  {
    var Finish(u, id, reactions, now) := calls[n];
    var after := Do(runs, calls[n]);
    forall i, j | i in after && j in after && i != j && after[i].user == after[j].user
      ensures Apart(after[i], after[j])
    {
      assert Apart(runs[i], runs[j]);
    }
    forall i | i in after ensures Stamped(after[i], calls, n + 1) {
      if after[i] != runs[i] {
        PastNow(runs, calls, n, i);
        assert StampedBy(after[i], calls[n]);
      } else {
        assert Stamped(runs[i], calls, n);
      }
    }
  }

  lemma {:induction false} AlwaysSuccessive(states: seq<Runs>, calls: seq<Call>, n: nat)
    requires Execution(states, calls) && ClockOk(calls) && n <= |calls|
    ensures Successive(states[n]) && Past(states[n], calls, n)
  {
    if n > 0 {
      AlwaysSuccessive(states, calls, n - 1);
      AlwaysInv(states, calls, n - 1);
      if calls[n - 1].Start? { StartStaysSuccessive(states[n - 1], calls, n - 1); } else { FinishStaysSuccessive(states[n - 1], calls, n - 1); }
    }
  }

  // ------------------------------------------------------------ accepted runs

  /** A run that is issued at `now` cannot overlap this accepted one, however long it is played. */
  predicate Clear(run: Run, now: int) {
    (run.finished.Some? && run.finished.value <= now) || now + RUN_TTL <= run.issued
  }

  /** At `now` the player may start a run: it is clear of every accepted run of the player. */
  ghost predicate StartInTime(runs: Runs, u: User, now: int) {
    forall i | i in runs && runs[i].user == u && runs[i].status.Accepted? :: Clear(runs[i], now)
  }

  /** No two accepted runs of one player overlap. */
  ghost predicate AcceptedApart(runs: Runs) {
    forall i, j | i in runs && j in runs && i != j && runs[i].user == runs[j].user && runs[i].status.Accepted? && runs[j].status.Accepted? ::
      Apart(runs[i], runs[j])
  }

  /** Runs expire after their time to live, and the open ones were started in time. */
  ghost predicate Timed(runs: Runs) {
    forall i | i in runs ::
      && runs[i].expires == runs[i].issued + RUN_TTL
      && (runs[i].status.Accepted? && runs[i].finished.Some? ==> runs[i].finished.value <= runs[i].expires)
      && (runs[i].status.Open? ==> StartInTime(runs, runs[i].user, runs[i].issued))
  }

  /** A table whose accepted runs do not overlap, and will not when the open ones are finished. */
  ghost predicate Orderly(runs: Runs) { Inv(runs) && Timed(runs) && AcceptedApart(runs) }

  lemma StartKeepsOrder(runs: Runs, u: User, id: RunId, delays: seq<int>, now: int)
    requires Orderly(runs) && id !in runs && ProperDelays(delays) && StartInTime(runs, u, now)
    ensures Orderly(AfterStart(runs, u, id, delays, now))
  {
    var after := AfterStart(runs, u, id, delays, now);
    StartKeeps(runs, u, id, delays, now);
    forall i | i in after && after[i].status.Open? ensures StartInTime(after, after[i].user, after[i].issued) {
      assert i == id || StartInTime(runs, runs[i].user, runs[i].issued);
    }
    forall i, j | i in after && j in after && i != j && after[i].user == after[j].user && after[i].status.Accepted? && after[j].status.Accepted?
      ensures Apart(after[i], after[j])
    {
      assert Apart(runs[i], runs[j]);
    }
  }

  lemma FinishKeepsOrder(runs: Runs, u: User, id: RunId, reactions: seq<int>, now: int)
    requires Orderly(runs)
    ensures Orderly(AfterFinish(runs, u, id, reactions, now))
  {
    var after := AfterFinish(runs, u, id, reactions, now);
    FinishKeeps(runs, u, id, reactions, now);
    forall i | i in after && after[i].status.Open? ensures StartInTime(after, after[i].user, after[i].issued) {
      OtherStaysInTime(runs, after, id, i);
    }
    forall i, j | i in after && j in after && i != j && after[i].user == after[j].user && after[i].status.Accepted? && after[j].status.Accepted?
      ensures Apart(after[i], after[j])
    {
      if i == id && runs[id].status.Open? { assert Clear(runs[j], runs[id].issued); }
      else if j == id && runs[id].status.Open? { assert Clear(runs[i], runs[id].issued); }
      else { assert Apart(runs[i], runs[j]); }
    }
  }

  /** A run that stays open belongs to another player than the one that is closed. */
  lemma OtherStaysInTime(runs: Runs, after: Runs, id: RunId, i: RunId)
    requires Orderly(runs) && i in runs && i in after && after[i] == runs[i] && runs[i].status.Open? && after.Keys == runs.Keys
    requires forall j | j in runs && j != id :: after[j] == runs[j]
    requires id in runs ==> after[id].user == runs[id].user && (after[id] == runs[id] || (runs[id].status.Open? && !after[id].status.Open?))
    ensures StartInTime(after, after[i].user, after[i].issued)
  {
    assert StartInTime(runs, runs[i].user, runs[i].issued);
  }

  lemma DoKeepsOrder(runs: Runs, call: Call)
    requires Orderly(runs) && Possible(runs, call) && (call.Start? ==> StartInTime(runs, call.user, call.now))
    ensures Orderly(Do(runs, call))
  {
    match call
    case Start(u, id, delays, now) => StartKeepsOrder(runs, u, id, delays, now);
    case Finish(u, id, reactions, now) => FinishKeepsOrder(runs, u, id, reactions, now);
  }

  /** Every start commits in time to the table it commits to. */
  ghost predicate StartsInTime(states: seq<Runs>, calls: seq<Call>)
    requires |states| == |calls| + 1
  {
    forall k | 0 <= k < |calls| && calls[k].Start? :: StartInTime(states[k], calls[k].user, calls[k].now)
  }

  /** Whatever the clocks of the finishes: while starts are in time no two accepted runs of a player overlap. */
  lemma {:induction false} AlwaysOrderly(states: seq<Runs>, calls: seq<Call>, n: nat)
    requires Execution(states, calls) && StartsInTime(states, calls) && n <= |calls|
    ensures Orderly(states[n])
  {
    if n > 0 {
      AlwaysOrderly(states, calls, n - 1);
      DoKeepsOrder(states[n - 1], calls[n - 1]);
    }
  }

  /** A clock that does not go back starts every run in time. */
  lemma ClockOkStartsInTime(states: seq<Runs>, calls: seq<Call>)
    requires Execution(states, calls) && ClockOk(calls)
    ensures StartsInTime(states, calls)
  {
    forall k | 0 <= k < |calls| && calls[k].Start? ensures StartInTime(states[k], calls[k].user, calls[k].now) {
      AlwaysInv(states, calls, k);
      AlwaysSuccessive(states, calls, k);
      forall i | i in states[k] && states[k][i].user == calls[k].user && states[k][i].status.Accepted? ensures Clear(states[k][i], calls[k].now) {
        PastNow(states[k], calls, k, i);
      }
    }
  }

  const REACTIONS := [100, 101, 100, 100, 100]
  const DELAYS := [800, 800, 800, 800, 800]

  lemma FiveTotal(a: int, b: int, c: int, d: int, e: int)
    ensures Total([a, b, c, d, e]) == a + b + c + d + e
  {
    assert [a][..0] == [] && Total([a]) == a;
    assert [a, b][..1] == [a] && Total([a, b]) == a + b;
    assert [a, b, c][..2] == [a, b] && Total([a, b, c]) == a + b + c;
    assert [a, b, c, d][..3] == [a, b, c] && Total([a, b, c, d]) == a + b + c + d;
    assert [a, b, c, d, e][..4] == [a, b, c, d];
  }

  /** Five human reactions that are not all the same are plausible once the wall clock allows it. */
  lemma QuickIsPlausible(delays: seq<int>, issued: int, finished: int)
    requires finished - issued >= (Total(delays) + 501) * MILLISECOND
    ensures Assess(delays, REACTIONS, issued, finished).plausible
  {
    FiveTotal(100, 101, 100, 100, 100);
    assert REACTIONS[0] in Values(REACTIONS) && REACTIONS[1] in Values(REACTIONS);
    if |Values(REACTIONS)| == 1 { OneValue(Values(REACTIONS), 100, 101); }
  }

  lemma OneValue(s: set<int>, a: int, b: int)
    requires |s| == 1 && a in s && b in s
    ensures a == b
  {
    assert |s - {a}| == 0;
  }

  lemma ShortestDelays()
    ensures ProperDelays(DELAYS) && (Total(DELAYS) + 501) * MILLISECOND == LEAST_RUN
  {
    FiveTotal(800, 800, 800, 800, 800);
  }

  lemma {:induction false} TotalAtMost(s: seq<int>, most: int)
    requires forall i | 0 <= i < |s| :: s[i] <= most
    ensures Total(s) <= |s| * most
  {
    if s != [] { TotalAtMost(s[..|s| - 1], most); }
  }

  /** Any run can still be finished, and accepted, at the end of its time to live. */
  lemma LastMomentIsAccepted(runs: Runs, u: User, id: RunId)
    requires Inv(runs) && OpenOf(runs, u, id) && runs[id].expires == runs[id].issued + RUN_TTL
    ensures var after := AfterFinish(runs, u, id, REACTIONS, runs[id].expires);
            && id in after && after[id] == Closed(runs[id], Accepted, runs[id].expires, after[id].average)
            && forall i | i in runs && i != id :: i in after && after[i] == runs[i]
  {
    TotalAtMost(runs[id].delays, MAX_ROUND_DELAY_MS);
    QuickIsPlausible(runs[id].delays, runs[id].issued, runs[id].expires);
  }

  /** A start that is not in time, and a finish at the last moment: two accepted runs that overlap. */
  lemma LateFinishOverlaps(runs: Runs, u: User, id: RunId, delays: seq<int>, now: int)
    requires Inv(runs) && id !in runs && ProperDelays(delays) && !StartInTime(runs, u, now)
    ensures var started := AfterStart(runs, u, id, delays, now);
            && Inv(started) && OpenOf(started, u, id) && started[id].expires == now + RUN_TTL
            && !AcceptedApart(AfterFinish(started, u, id, REACTIONS, now + RUN_TTL))
  {
    var started := AfterStart(runs, u, id, delays, now);
    StartKeeps(runs, u, id, delays, now);
    LastMomentIsAccepted(started, u, id);
    var after := AfterFinish(started, u, id, REACTIONS, now + RUN_TTL);
    var i :| i in runs && runs[i].user == u && runs[i].status.Accepted? && !Clear(runs[i], now);
    assert started[i] == runs[i];
    assert !Apart(after[i], after[id]);
  }

  /** What a start may lead to keeps accepted runs apart exactly when the start is in time. */
  lemma StartInTimeIsExact(runs: Runs, u: User, id: RunId, delays: seq<int>, now: int)
    requires Orderly(runs) && id !in runs && ProperDelays(delays)
    ensures var started := AfterStart(runs, u, id, delays, now);
            && Inv(started)
            && (StartInTime(runs, u, now) <==> forall reactions, at :: AcceptedApart(AfterFinish(started, u, id, reactions, at)))
  {
    var started := AfterStart(runs, u, id, delays, now);
    StartKeeps(runs, u, id, delays, now);
    if StartInTime(runs, u, now) {
      StartKeepsOrder(runs, u, id, delays, now);
      forall reactions, at ensures AcceptedApart(AfterFinish(started, u, id, reactions, at)) {
        FinishKeepsOrder(started, u, id, reactions, at);
      }
    } else {
      LateFinishOverlaps(runs, u, id, delays, now);
    }
  }

  /** The run of a nonempty set that was issued last. */
  lemma {:induction false} LastIssued(runs: Runs, ids: set<RunId>) returns (last: RunId)
    requires ids != {} && forall i | i in ids :: i in runs
    ensures last in ids && forall i | i in ids :: runs[i].issued <= runs[last].issued
    decreases ids
  {
    var some :| some in ids;
    var rest := ids - {some};
    last := some;
    if rest != {} {
      var other := LastIssued(runs, rest);
      if runs[other].issued > runs[some].issued { last := other; }
      forall i | i in ids ensures runs[i].issued <= runs[last].issued {
        assert i == some || i in rest;
      }
    } else {
      assert forall i | i in ids :: i == some || i in rest;
    }
  }

  /** Accepted runs of one player between two moments. */
  ghost predicate AcceptedBetween(runs: Runs, u: User, ids: set<RunId>, from: int, to: int) {
    forall i | i in ids ::
      && i in runs && runs[i].user == u && runs[i].status.Accepted? && runs[i].finished.Some?
      && from <= runs[i].issued && runs[i].finished.value <= to
  }

  /** Of two accepted runs of a player the one issued first was over when the other began. */
  lemma Overlap(runs: Runs, i: RunId, j: RunId)
    requires Inv(runs) && AcceptedApart(runs) && i in runs && j in runs && i != j && runs[i].user == runs[j].user
    requires runs[i].status.Accepted? && runs[j].status.Accepted? && runs[i].issued <= runs[j].issued
    ensures runs[i].finished.Some? && runs[i].finished.value <= runs[j].issued
  {
    assert Apart(runs[i], runs[j]);
  }

  lemma {:induction false} ApartRunsTakeTime(runs: Runs, u: User, ids: set<RunId>, from: int, to: int)
    requires Inv(runs) && AcceptedApart(runs) && from <= to && AcceptedBetween(runs, u, ids, from, to)
    ensures to - from >= |ids| * LEAST_RUN
    decreases ids
  {
    if ids != {} {
      var last := LastIssued(runs, ids);
      var rest := ids - {last};
      assert runs[last].finished.value - runs[last].issued >= LEAST_RUN;
      forall i | i in rest ensures runs[i].finished.value <= runs[last].issued {
        Overlap(runs, i, last);
      }
      ApartRunsTakeTime(runs, u, rest, from, runs[last].issued);
      assert |ids| == |rest| + 1;
    }
  }

  /** While starts are in time, `n` accepted runs of one player need `n` times 4501 ms, from the first issue to the last finish. */
  lemma AcceptedRunsTakeTime(states: seq<Runs>, calls: seq<Call>, n: nat, u: User, ids: set<RunId>, from: int, to: int)
    requires Execution(states, calls) && StartsInTime(states, calls) && n <= |calls| && from <= to
    requires AcceptedBetween(states[n], u, ids, from, to)
    ensures to - from >= |ids| * LEAST_RUN
  {
    AlwaysOrderly(states, calls, n);
    ApartRunsTakeTime(states[n], u, ids, from, to);
  }
}
