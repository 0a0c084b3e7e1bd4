/**
 Mini-game calls in flight: transactions interleave one SQL statement at a time under the
 wallet lock that each takes first and keeps until it commits or rolls back. Updates name
 a run by its id alone, so everything rests on that lock.
 */
module MiniGameCalls {
  import opened Prelude
  import opened MiniGames

  /** A write not committed yet. */
  datatype Op = CloseRun(id: RunId, status: Status, now: int, average: Option<real>) | InsertRun(id: RunId, run: Run)

  datatype Error = Refused(refusal: Refusal) | IntegrityError

  /** The statement a transaction runs next. */
  datatype Pc =
    | TakeWallet
    | GetOpen | CloseOpen(previous: RunId) | InsertOpen
    | GetRun | UpdateRun(status: Status, average: Option<real>, answer: Result<Assessment, Refusal>)
    | Ready(outcome: Option<Result<Assessment, Refusal>>)
    | Failed(error: Error)

  /** A call in flight; `locked` from the first statement to the commit or the rollback. */
  datatype Local = Local(call: Call, pc: Pc, ops: seq<Op>, locked: bool)
  {
    predicate Running() { !pc.Ready? && !pc.Failed? }

    function Goto(next: Pc): Local { this.(pc := next) }

    function Write(op: Op, next: Pc): Local { this.(pc := next, ops := ops + [op]) }
  }

  function DoOp(runs: Runs, op: Op): Runs {
    match op
    case CloseRun(id, status, now, average) => if id in runs then runs[id := Closed(runs[id], status, now, average)] else runs
    case InsertRun(id, run) => runs[id := run]
  }

  function Apply(runs: Runs, ops: seq<Op>): Runs {
    if ops == [] then runs else DoOp(Apply(runs, ops[..|ops| - 1]), ops[|ops| - 1])
  }

  predicate HasOpen(runs: Runs, u: User) { exists i :: i in runs && OpenOf(runs, u, i) }

  /** The run `get_open` gives when the player has one. */
  ghost function OneOf(runs: Runs, u: User): (id: RunId)
    requires HasOpen(runs, u)
    ensures OpenOf(runs, u, id)
  {
    var i :| i in runs && OpenOf(runs, u, i);
    i
  }

  /** One statement of `start_run` on the transaction's own view of the table. */
  ghost function StartStep(l: Local, v: Runs): Local
    requires l.call.Start?
  {
    var Start(u, id, delays, now) := l.call;
    match l.pc
    case GetOpen => if HasOpen(v, u) then l.Goto(CloseOpen(OneOf(v, u))) else l.Goto(InsertOpen)
    case CloseOpen(previous) => l.Write(CloseRun(previous, Expired, now, None), InsertOpen)
    case InsertOpen =>
      // The primary key, and the partial unique index on the player's open run.
      if id in v || HasOpen(v, u) then l.Goto(Failed(IntegrityError))
      else l.Write(InsertRun(id, OpenRun(u, delays, now)), Ready(None))
    case _ => l
  }

  /** One statement of `finish_run`. */
  function FinishStep(l: Local, v: Runs): Local
    requires l.call.Finish? && ProperRuns(v)
  {
    var Finish(u, id, reactions, now) := l.call;
    match l.pc
    case GetRun =>
      (match FinishAnswer(v, u, id, reactions, now)
       case Ok(a) => l.Goto(UpdateRun(if a.plausible then Accepted else Rejected, Some(a.average), Ok(a)))
       case Err(e) =>
         if e.TooLate? && id in v && v[id].status.Open? then l.Goto(UpdateRun(Expired, None, Err(e))) else l.Goto(Failed(Refused(e))))
    case UpdateRun(status, average, answer) => l.Write(CloseRun(id, status, now, average), Ready(Some(answer)))
    case _ => l
  }

  ghost function Step(l: Local, v: Runs): Local
    requires ProperRuns(v)
  {
    if l.pc.TakeWallet? then l.(pc := if l.call.Start? then GetOpen else GetRun, locked := true)
    else if l.call.Start? then StartStep(l, v)
    else FinishStep(l, v)
  }

  // ----------------------------------------------------------- interleavings

  /** `log` and `used` only record history: the calls committed so far, and the run ids handed out. */
  datatype State = State(runs: Runs, active: map<nat, Local>, log: seq<Call>, used: set<RunId>)

  datatype Action = Begin(t: nat, call: Call) | Statement(t: nat) | Commit(t: nat) | Rollback(t: nat)

  /** `t` wants the wallet row that another transaction holds. */
  ghost predicate Waiting(s: State, t: nat)
    requires t in s.active
  {
    exists o :: o in s.active && o != t && s.active[o].locked && s.active[t].pc.TakeWallet? && s.active[o].call.user == s.active[t].call.user
  }

  ghost predicate Next(s: State, a: Action, n: State) {
    match a
    case Begin(t, call) =>
      && t !in s.active && (call.Start? ==> call.id !in s.used && ProperDelays(call.delays))
      && n == s.(active := s.active[t := Local(call, TakeWallet, [], false)], used := s.used + if call.Start? then {call.id} else {})
    case Statement(t) =>
      && t in s.active && s.active[t].Running() && !Waiting(s, t)
      && var l := s.active[t];
         var v := Apply(s.runs, l.ops);
         ProperRuns(v) && n == s.(active := s.active[t := Step(l, v)])
    case Commit(t) =>
      && t in s.active && s.active[t].pc.Ready?
      && n == s.(runs := Apply(s.runs, s.active[t].ops), active := s.active - {t}, log := s.log + [s.active[t].call])
    case Rollback(t) => t in s.active && n == s.(active := s.active - {t})
  }

  /** An execution from the empty table, with nobody at work yet. */
  ghost predicate Interleaved(states: seq<State>, actions: seq<Action>) {
    && |states| == |actions| + 1 && states[0] == State(map[], map[], [], {})
    && forall i | 0 <= i < |actions| :: Next(states[i], actions[i], states[i + 1])
  }

  // ---------------------------------------------------------------- invariant

  /** What a `start_run` in flight has read and written, against the table committed now. */
  ghost predicate StartOnPath(runs: Runs, l: Local)
    requires l.call.Start?
  {
    var Start(u, id, delays, now) := l.call;
    var row := InsertRun(id, OpenRun(u, delays, now));
    match l.pc
    case TakeWallet => l.ops == []
    case GetOpen => l.ops == []
    case CloseOpen(previous) => l.ops == [] && OpenOf(runs, u, previous)
    case InsertOpen => ClosesOpen(runs, u, now, l.ops)
    case Ready(answer) => answer.None? && l.ops != [] && l.ops[|l.ops| - 1] == row && ClosesOpen(runs, u, now, l.ops[..|l.ops| - 1])
    case Failed(e) => e.Refused?
    case _ => false
  }

  /** The writes that close the player's open run: one if there is one. */
  ghost predicate ClosesOpen(runs: Runs, u: User, now: int, ops: seq<Op>) {
    if HasOpen(runs, u) then |ops| == 1 && ops[0].CloseRun? && OpenOf(runs, u, ops[0].id) && ops[0] == CloseRun(ops[0].id, Expired, now, None)
    else ops == []
  }

  ghost predicate FinishOnPath(runs: Runs, l: Local)
    requires l.call.Finish?
  {
    var Finish(u, id, reactions, now) := l.call;
    match l.pc
    case TakeWallet => l.ops == []
    case GetRun => l.ops == []
    case UpdateRun(status, average, answer) => l.ops == [] && Verdict(runs, l.call, status, average, answer)
    case Ready(answer) =>
      && |l.ops| == 1 && l.ops[0].CloseRun? && l.ops[0].id == id && l.ops[0].now == now
      && answer.Some? && Verdict(runs, l.call, l.ops[0].status, l.ops[0].average, answer.value)
    case Failed(e) => e.Refused?
    case _ => false
  }

  /** The player's run is open, and this is how it has to be closed. */
  ghost predicate Verdict(runs: Runs, call: Call, status: Status, average: Option<real>, answer: Result<Assessment, Refusal>)
    requires call.Finish?
  {
    var Finish(u, id, reactions, now) := call;
    && ProperRuns(runs) && OpenOf(runs, u, id) && answer == FinishAnswer(runs, u, id, reactions, now)
    && match answer
       case Ok(a) => status == (if a.plausible then Accepted else Rejected) && average == Some(a.average)
       case Err(e) => e.TooLate? && status == Expired && average == None
  }

  ghost predicate OnPath(runs: Runs, l: Local) {
    && (l.pc.TakeWallet? <==> !l.locked)
    && if l.call.Start? then StartOnPath(runs, l) else FinishOnPath(runs, l)
  }

  /** The id of a `start_run` in flight is nobody else's. */
  ghost predicate FreshIds(s: State) {
    && (forall i | i in s.runs :: i in s.used)
    && (forall t | t in s.active && s.active[t].call.Start? ::
          s.active[t].call.id in s.used && s.active[t].call.id !in s.runs && ProperDelays(s.active[t].call.delays))
    && (forall t, o | t in s.active && o in s.active && t != o && s.active[t].call.Start? && s.active[o].call.Start? ::
          s.active[t].call.id != s.active[o].call.id)
  }

  /** No two transactions hold the same wallet. */
  ghost predicate Exclusive(s: State) {
    forall t, o | t in s.active && o in s.active && t != o && s.active[t].locked && s.active[o].locked ::
      s.active[t].call.user != s.active[o].call.user
  }

  ghost predicate Safe(s: State) {
    && Inv(s.runs) && FreshIds(s) && Exclusive(s)
    && forall t | t in s.active :: OnPath(s.runs, s.active[t])
  }

  // ------------------------------------------------------- each action is safe

  lemma ApplyOne(runs: Runs, op: Op)
    ensures Apply(runs, [op]) == DoOp(runs, op)
  {
    assert [op][..0] == [];
  }

  lemma ApplyTwo(runs: Runs, op: Op, next: Op)
    ensures Apply(runs, [op, next]) == DoOp(DoOp(runs, op), next)
  {
    assert [op, next][..1] == [op];
    ApplyOne(runs, op);
  }

  /** What a transaction that still runs sees is proper, and close to what is committed. */
  lemma ViewInFlight(runs: Runs, l: Local)
    requires Inv(runs) && OnPath(runs, l) && l.Running()
    ensures ProperRuns(Apply(runs, l.ops))
    ensures l.ops == [] ==> Apply(runs, l.ops) == runs
    ensures l.pc.InsertOpen? && l.call.Start? ==>
              !HasOpen(Apply(runs, l.ops), l.call.user) && Apply(runs, l.ops).Keys == runs.Keys
  {
    if l.pc.InsertOpen? && l.ops != [] {
      assert l.ops == [l.ops[0]];
      ApplyOne(runs, l.ops[0]);
    }
  }

  /** A statement stays on the path, whatever others did before it. */
  lemma StatementOnPath(runs: Runs, l: Local)
    requires Inv(runs) && OnPath(runs, l) && l.Running()
    requires l.call.Start? ==> l.call.id !in runs
    ensures ProperRuns(Apply(runs, l.ops)) && OnPath(runs, Step(l, Apply(runs, l.ops)))
  {
    ViewInFlight(runs, l);
    var v := Apply(runs, l.ops);
    match l.pc
    case CloseOpen(previous) => assert HasOpen(runs, l.call.user);
    case InsertOpen => assert (l.ops + [InsertRun(l.call.id, OpenRun(l.call.user, l.call.delays, l.call.now))])[..|l.ops|] == l.ops;
    case _ =>
  }

  /** A transaction that is ready commits exactly what its call does alone to the table committed now. */
  lemma ReadyDoes(runs: Runs, l: Local)
    requires Inv(runs) && OnPath(runs, l) && l.pc.Ready? && Possible(runs, l.call)
    ensures Apply(runs, l.ops) == Do(runs, l.call)
    ensures l.call.Finish? ==> l.pc.outcome == Some(FinishAnswer(runs, l.call.user, l.call.id, l.call.reactions, l.call.now))
  {
    if l.call.Finish? {
      assert l.ops == [l.ops[0]];
      ApplyOne(runs, l.ops[0]);
    } else {
      ReadyStarts(runs, l);
    }
  }

  lemma ReadyStarts(runs: Runs, l: Local)
    requires Inv(runs) && OnPath(runs, l) && l.pc.Ready? && l.call.Start? && Possible(runs, l.call)
    ensures Apply(runs, l.ops) == Do(runs, l.call)
  {
    var Start(u, id, delays, now) := l.call;
    var row := InsertRun(id, OpenRun(u, delays, now));
    if HasOpen(runs, u) {
      var close := l.ops[..|l.ops| - 1][0];
      assert l.ops == [close, row];
      ApplyTwo(runs, close, row);
    } else {
      assert l.ops == [row];
      ApplyOne(runs, row);
    }
    assert Apply(runs, l.ops) == AfterStart(runs, u, id, delays, now);
  }

  /** The two tables hold the same runs of a player. */
  ghost predicate SameRuns(a: Runs, b: Runs, u: User) {
    && (forall i | i in a && a[i].user == u :: i in b && b[i] == a[i])
    && (forall i | i in b && b[i].user == u :: i in a && b[i] == a[i])
  }

  lemma DoLeavesOthers(runs: Runs, call: Call, u: User)
    requires Inv(runs) && Possible(runs, call) && call.user != u
    ensures SameRuns(runs, Do(runs, call), u)
  {
  }

  lemma SameRunsSamePath(a: Runs, b: Runs, l: Local)
    requires Inv(a) && Inv(b) && OnPath(a, l) && (l.locked ==> SameRuns(a, b, l.call.user))
    ensures OnPath(b, l)
  {
    if l.locked {
      assert HasOpen(a, l.call.user) <==> HasOpen(b, l.call.user) by {
        if HasOpen(a, l.call.user) { assert OneOf(a, l.call.user) in b; }
        if HasOpen(b, l.call.user) { assert OneOf(b, l.call.user) in a; }
      }
    }
  }

  lemma DoKeepsInv(runs: Runs, call: Call)
    requires Inv(runs) && Possible(runs, call)
    ensures Inv(Do(runs, call))
    ensures forall i | i in Do(runs, call) :: i in runs || (call.Start? && i == call.id)
  {
    match call
    case Start(u, id, delays, now) => StartKeeps(runs, u, id, delays, now);
    case Finish(u, id, reactions, now) => FinishKeeps(runs, u, id, reactions, now);
  }

  lemma CommitIsSafe(s: State, t: nat, n: State)
    requires Safe(s) && Next(s, Commit(t), n)
    ensures Safe(n) && Possible(s.runs, s.active[t].call) && n.runs == Do(s.runs, s.active[t].call)
  {
    var m := s.active[t];
    ReadyDoes(s.runs, m);
    DoKeepsInv(s.runs, m.call);
    forall o | o in n.active ensures OnPath(n.runs, n.active[o]) {
      if s.active[o].locked { DoLeavesOthers(s.runs, m.call, s.active[o].call.user); }
      SameRunsSamePath(s.runs, n.runs, s.active[o]);
    }
  }

  lemma StatementIsSafe(s: State, t: nat, n: State)
    requires Safe(s) && Next(s, Statement(t), n)
    ensures Safe(n) && n.active[t].pc != Failed(IntegrityError)
  {
    StatementOnPath(s.runs, s.active[t]);
  }

  lemma NextIsSafe(s: State, a: Action, n: State)
    requires Safe(s) && Next(s, a, n)
    ensures Safe(n)
  {
    match a
    case Begin(_, _) =>
    case Statement(t) => StatementIsSafe(s, t, n);
    case Commit(t) => CommitIsSafe(s, t, n);
    case Rollback(_) =>
  }

  // ------------------------------------------------------------ the theorems

  lemma {:induction false} AlwaysSafe(states: seq<State>, actions: seq<Action>, i: nat)
    requires Interleaved(states, actions) && i < |states|
    ensures Safe(states[i])
  {
    if i > 0 {
      AlwaysSafe(states, actions, i - 1);
      NextIsSafe(states[i - 1], actions[i - 1], states[i]);
    }
  }

  /**
   The index on open runs never fires, nor the primary key: no statement of any interleaving
   ends in an integrity error, and in no committed table does a player have two runs open.
   */
  lemma OneOpenIndexNeverFires(states: seq<State>, actions: seq<Action>, i: nat, t: nat)
    requires Interleaved(states, actions) && i < |states| && t in states[i].active
    ensures states[i].active[t].pc != Failed(IntegrityError) && OneOpen(states[i].runs)
  {
    AlwaysSafe(states, actions, i);
    assert OnPath(states[i].runs, states[i].active[t]);
  }

  lemma OneMoreCall(tables: seq<Runs>, calls: seq<Call>, call: Call)
    requires Execution(tables, calls) && ProperRuns(tables[|calls|]) && Possible(tables[|calls|], call)
    ensures Execution(tables + [Do(tables[|calls|], call)], calls + [call])
  {
  }

  /** Commit order is a serial order: the committed table is what the committed calls make one by one. */
  lemma {:induction false} CommitOrderIsSerial(states: seq<State>, actions: seq<Action>, i: nat) returns (tables: seq<Runs>)
    requires Interleaved(states, actions) && i < |states|
    ensures Execution(tables, states[i].log) && tables[|states[i].log|] == states[i].runs
  {
    if i == 0 {
      tables := [map[]];
    } else {
      tables := CommitOrderIsSerial(states, actions, i - 1);
      AlwaysSafe(states, actions, i - 1);
      var s, a, n := states[i - 1], actions[i - 1], states[i];
      assert Next(s, a, n);
      if a.Commit? {
        CommitIsSafe(s, a.t, n);
        OneMoreCall(tables, s.log, s.active[a.t].call);
        tables := tables + [n.runs];
      }
    }
  }

  /** A run once closed, by a verdict or as expired, never changes again, whoever calls meanwhile. */
  lemma {:induction false} ClosedForGood(states: seq<State>, actions: seq<Action>, i: nat, j: nat, id: RunId)
    requires Interleaved(states, actions) && i <= j < |states| && id in states[i].runs && !states[i].runs[id].status.Open?
    ensures id in states[j].runs && states[j].runs[id] == states[i].runs[id]
    decreases j
  {
    if i < j {
      ClosedForGood(states, actions, i, j - 1, id);
      AlwaysSafe(states, actions, j - 1);
      assert Next(states[j - 1], actions[j - 1], states[j]);
      if actions[j - 1].Commit? { CommitIsSafe(states[j - 1], actions[j - 1].t, states[j]); }
    }
  }

  /** A `finish_run` commits on an open run only, closes it, and answers for the table it commits to. */
  lemma FinishCommits(states: seq<State>, actions: seq<Action>, i: nat, t: nat)
    requires Interleaved(states, actions) && i < |actions| && actions[i] == Commit(t)
    requires t in states[i].active && states[i].active[t].call.Finish?
    ensures var Finish(u, id, reactions, now) := states[i].active[t].call;
            && OpenOf(states[i].runs, u, id) && ProperRuns(states[i].runs)
            && states[i].active[t].pc == Ready(Some(FinishAnswer(states[i].runs, u, id, reactions, now)))
            && id in states[i + 1].runs && !states[i + 1].runs[id].status.Open?
  {
    AlwaysSafe(states, actions, i);
    assert Next(states[i], actions[i], states[i + 1]);
    assert OnPath(states[i].runs, states[i].active[t]);
    CommitIsSafe(states[i], t, states[i + 1]);
    ReadyDoes(states[i].runs, states[i].active[t]);
  }

  /** Of all the `finish_run` calls for a run, however they interleave, one commits at most. */
  lemma OneFinishCommits(states: seq<State>, actions: seq<Action>, i: nat, j: nat, t: nat, o: nat)
    requires Interleaved(states, actions) && i < j < |actions| && actions[i] == Commit(t) && actions[j] == Commit(o)
    requires t in states[i].active && states[i].active[t].call.Finish?
    requires o in states[j].active && states[j].active[o].call.Finish?
    ensures states[i].active[t].call.id != states[j].active[o].call.id
  {
    FinishCommits(states, actions, i, t);
    FinishCommits(states, actions, j, o);
    ClosedForGood(states, actions, i + 1, j, states[i].active[t].call.id);
  }

  /** The start that commits in step `k` is in time for the table it commits to. */
  ghost predicate InTimeAt(s: State, a: Action) {
    a.Commit? && a.t in s.active && s.active[a.t].call.Start? ==> StartInTime(s.runs, s.active[a.t].call.user, s.active[a.t].call.now)
  }

  /** In every interleaving whose starts commit in time no two accepted runs of a player overlap. */
  lemma {:induction false} AlwaysApart(states: seq<State>, actions: seq<Action>, i: nat)
    requires Interleaved(states, actions) && i < |states| && forall k | 0 <= k < i :: InTimeAt(states[k], actions[k])
    ensures Orderly(states[i].runs)
  {
    if i > 0 {
      AlwaysApart(states, actions, i - 1);
      AlwaysSafe(states, actions, i - 1);
      var s, a, n := states[i - 1], actions[i - 1], states[i];
      assert Next(s, a, n);
      if a.Commit? {
        CommitIsSafe(s, a.t, n);
        assert InTimeAt(s, a);
        DoKeepsOrder(s.runs, s.active[a.t].call);
      }
    }
  }

  /** Then `n` accepted runs of a player need `n` times 4501 ms. */
  lemma AcceptedRunsTakeTime(states: seq<State>, actions: seq<Action>, i: nat, u: User, ids: set<RunId>, from: int, to: int)
    requires Interleaved(states, actions) && i < |states| && from <= to && forall k | 0 <= k < i :: InTimeAt(states[k], actions[k])
    requires AcceptedBetween(states[i].runs, u, ids, from, to)
    ensures to - from >= |ids| * LEAST_RUN
  {
    AlwaysApart(states, actions, i);
    ApartRunsTakeTime(states[i].runs, u, ids, from, to);
  }

  // ------------------------------- the clock is read before the wallet lock

  /** The clock readings of the calls, in the order in which they begin. */
  function Clocks(actions: seq<Action>): seq<int> {
    if actions == [] then []
    else Clocks(actions[..|actions| - 1]) + if actions[|actions| - 1].Begin? then [actions[|actions| - 1].call.now] else []
  }

  /** An execution so far. */
  datatype Trace = Trace(states: seq<State>, actions: seq<Action>)

  ghost predicate At(r: Trace, s: State, clocks: seq<int>) {
    Interleaved(r.states, r.actions) && r.states[|r.actions|] == s && Clocks(r.actions) == clocks
  }

  lemma Go(r: Trace, s: State, clocks: seq<int>, a: Action, n: State) returns (q: Trace)
    requires At(r, s, clocks) && Next(s, a, n)
    ensures At(q, n, clocks + if a.Begin? then [a.call.now] else [])
  {
    q := Trace(r.states + [n], r.actions + [a]);
    assert q.actions[..|r.actions|] == r.actions;
    assert clocks + [] == clocks;
  }

  lemma GoBegin(r: Trace, s: State, clocks: seq<int>, t: nat, call: Call) returns (q: Trace, n: State)
    requires At(r, s, clocks) && t !in s.active && (call.Start? ==> call.id !in s.used && ProperDelays(call.delays))
    ensures n == s.(active := s.active[t := Local(call, TakeWallet, [], false)], used := s.used + if call.Start? then {call.id} else {})
    ensures At(q, n, clocks + [call.now])
  {
    n := s.(active := s.active[t := Local(call, TakeWallet, [], false)], used := s.used + if call.Start? then {call.id} else {});
    q := Go(r, s, clocks, Begin(t, call), n);
  }

  function With(s: State, t: nat, l: Local): State { s.(active := s.active[t := l]) }

  /** One statement of a transaction that waits for nobody. */
  lemma GoStatement(r: Trace, s: State, clocks: seq<int>, t: nat, l: Local) returns (q: Trace, n: Local)
    requires At(r, With(s, t, l), clocks) && l.Running() && !Waiting(With(s, t, l), t)
    requires OnPath(s.runs, l) && Inv(s.runs) && (l.call.Start? ==> l.call.id !in s.runs)
    ensures ProperRuns(Apply(s.runs, l.ops)) && n == Step(l, Apply(s.runs, l.ops))
    ensures OnPath(s.runs, n) && n.call == l.call && At(q, With(s, t, n), clocks)
  {
    StatementOnPath(s.runs, l);
    n := Step(l, Apply(s.runs, l.ops));
    assert With(With(s, t, l), t, n) == With(s, t, n);
    q := Go(r, With(s, t, l), clocks, Statement(t), With(s, t, n));
    assert clocks + [] == clocks;
  }

  /** How many statements are left, at most. */
  function Left(pc: Pc): nat {
    match pc
    case TakeWallet => 4
    case GetOpen => 3
    case CloseOpen(_) => 2
    case InsertOpen => 1
    case GetRun => 2
    case UpdateRun(_, _, _) => 1
    case _ => 0
  }

  /** A call with no refusal ahead. */
  ghost predicate Succeeds(runs: Runs, call: Call) {
    if call.Start? then call.id !in runs
    else ProperRuns(runs) && FinishAnswer(runs, call.user, call.id, call.reactions, call.now).Ok?
  }

  lemma StepGoesOn(runs: Runs, l: Local)
    requires Inv(runs) && OnPath(runs, l) && l.Running() && Succeeds(runs, l.call) && ProperRuns(Apply(runs, l.ops))
    ensures var n := Step(l, Apply(runs, l.ops)); !n.pc.Failed? && !n.pc.TakeWallet? && Left(n.pc) < Left(l.pc)
  {
    ViewInFlight(runs, l);
  }

  /** From its lock on, such a call runs until it is ready. */
  lemma {:induction false} GoToReady(r: Trace, s: State, clocks: seq<int>, t: nat, l: Local) returns (q: Trace, n: Local)
    requires At(r, With(s, t, l), clocks) && Inv(s.runs) && OnPath(s.runs, l) && Succeeds(s.runs, l.call) && !l.pc.Failed?
    requires !Waiting(With(s, t, l), t)
    ensures At(q, With(s, t, n), clocks) && n.pc.Ready? && n.call == l.call && OnPath(s.runs, n)
    decreases Left(l.pc)
  {
    if l.pc.Ready? {
      q, n := r, l;
    } else {
      q, n := GoStatement(r, s, clocks, t, l);
      StepGoesOn(s.runs, l);
      q, n := GoToReady(q, s, clocks, t, n);
    }
  }

  /** A call that nobody keeps from its lock can run from there to its commit. */
  lemma GoAlone(r: Trace, s: State, clocks: seq<int>, t: nat) returns (q: Trace, n: State)
    requires At(r, s, clocks) && Safe(s) && t in s.active && s.active[t].pc.TakeWallet? && (forall o | o in s.active :: !s.active[o].locked)
    requires Succeeds(s.runs, s.active[t].call)
    ensures At(q, n, clocks) && Safe(n)
    ensures n == State(Do(s.runs, s.active[t].call), s.active - {t}, s.log + [s.active[t].call], s.used)
  {
    var l := s.active[t];
    assert With(s, t, l) == s;
    q, l := GoToReady(r, s, clocks, t, l);
    ReadyDoes(s.runs, l);
    n := State(Do(s.runs, l.call), s.active - {t}, s.log + [l.call], s.used);
    assert With(s, t, l).active - {t} == s.active - {t};
    q := Go(q, With(s, t, l), clocks, Commit(t), n);
    AlwaysSafe(q.states, q.actions, |q.actions|);
    assert clocks + [] == clocks;
  }

  const SECOND := 1_000_000
  const EARLY := Start(0, 1, DELAYS, 0)
  const LATE := Start(0, 2, DELAYS, SECOND)

  /** The early start has begun but waits for its turn; the late one has committed. */
  lemma LateStartFirst() returns (r: Trace, s: State)
    ensures At(r, s, [0, SECOND]) && Safe(s)
    ensures s.runs == map[2 := OpenRun(0, DELAYS, SECOND)] && s.active == map[1 := Local(EARLY, TakeWallet, [], false)] && s.used == {1, 2}
  {
    ShortestDelays();
    s := State(map[], map[], [], {});
    r := Trace([s], []);
    r, s := GoBegin(r, s, [], 1, EARLY);
    r, s := GoBegin(r, s, [0], 2, LATE);
    AlwaysSafe(r.states, r.actions, |r.actions|);
    r, s := GoAlone(r, s, [0, SECOND], 2);
  }

  /** The late run is played and accepted while the early start still waits. */
  lemma LateRunAccepted() returns (r: Trace, s: State)
    ensures At(r, s, [0, SECOND, 6 * SECOND]) && Safe(s) && s.active == map[1 := Local(EARLY, TakeWallet, [], false)]
    ensures s.runs.Keys == {2} && AcceptedBetween(s.runs, 0, {2}, SECOND, 6 * SECOND)
  {
    ShortestDelays();
    QuickIsPlausible(DELAYS, SECOND, 6 * SECOND);
    r, s := LateStartFirst();
    var finish := Finish(0, 2, REACTIONS, 6 * SECOND);
    r, s := GoBegin(r, s, [0, SECOND], 2, finish);
    AlwaysSafe(r.states, r.actions, |r.actions|);
    r, s := GoAlone(r, s, [0, SECOND, 6 * SECOND], 2);
  }

  /** Then the early start gets its lock and commits. */
  lemma EarlyStartLast() returns (r: Trace, s: State)
    ensures At(r, s, [0, SECOND, 6 * SECOND]) && Safe(s) && s.active == map[]
    ensures s.runs.Keys == {1, 2} && s.runs[1] == OpenRun(0, DELAYS, 0) && AcceptedBetween(s.runs, 0, {2}, SECOND, 6 * SECOND)
  {
    r, s := LateRunAccepted();
    r, s := GoAlone(r, s, [0, SECOND, 6 * SECOND], 1);
  }

  /** A start that read the clock first but got its wallet lock last: two accepted runs in seven seconds. */
  lemma LateStartOverlaps() returns (r: Trace, s: State)
    ensures At(r, s, [0, SECOND, 6 * SECOND, 7 * SECOND])
    ensures AcceptedBetween(s.runs, 0, {1, 2}, 0, 7 * SECOND) && 7 * SECOND < |{1, 2}| * LEAST_RUN
  {
    ShortestDelays();
    QuickIsPlausible(DELAYS, 0, 7 * SECOND);
    r, s := EarlyStartLast();
    r, s := GoBegin(r, s, [0, SECOND, 6 * SECOND], 2, Finish(0, 1, REACTIONS, 7 * SECOND));
    AlwaysSafe(r.states, r.actions, |r.actions|);
    r, s := GoAlone(r, s, [0, SECOND, 6 * SECOND, 7 * SECOND], 2);
  }

  /** The player's open run, finished alone at the end of its time to live. */
  lemma GoLastMoment(r: Trace, s: State, clocks: seq<int>, t: nat, u: User, id: RunId) returns (q: Trace, n: State)
    requires At(r, s, clocks) && Safe(s) && t !in s.active && (forall o | o in s.active :: !s.active[o].locked)
    requires OpenOf(s.runs, u, id) && s.runs[id].expires == s.runs[id].issued + RUN_TTL
    ensures At(q, n, clocks + [s.runs[id].expires]) && n.runs == AfterFinish(s.runs, u, id, REACTIONS, s.runs[id].expires)
  {
    LastMomentIsAccepted(s.runs, u, id);
    var m;
    q, m := GoBegin(r, s, clocks, t, Finish(u, id, REACTIONS, s.runs[id].expires));
    AlwaysSafe(q.states, q.actions, |q.actions|);
    q, n := GoAlone(q, m, clocks + [s.runs[id].expires], t);
  }

  /** From any point where a start that is not in time gets its lock, the execution can go on to overlapping accepted runs. */
  lemma LateStartsOverlap(r: Trace, s: State, clocks: seq<int>, t: nat) returns (q: Trace, n: State)
    requires At(r, s, clocks) && t in s.active && s.active[t].pc.TakeWallet? && (forall o | o in s.active :: !s.active[o].locked)
    requires s.active[t].call.Start? && !StartInTime(s.runs, s.active[t].call.user, s.active[t].call.now)
    ensures At(q, n, clocks + [s.active[t].call.now + RUN_TTL]) && !AcceptedApart(n.runs)
  {
    AlwaysSafe(r.states, r.actions, |r.actions|);
    var Start(u, id, delays, now) := s.active[t].call;
    LateFinishOverlaps(s.runs, u, id, delays, now);
    q, n := GoAlone(r, s, clocks, t);
    q, n := GoLastMoment(q, n, clocks, t, u, id);
  }
}
