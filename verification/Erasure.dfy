/**
 Calls that never commit leave no trace: dropping all their actions from an execution leaves
 an execution that ends in the same tables, with the same calls committed and all others
 still where they were. Every retry of a redemption that went through is such a call.
 */
module Erasure {
  import opened Prelude
  import opened Tables
  import opened ReferralRules
  import opened Transactions
  import opened Economy
  import opened Interleaving
  import opened Concurrency
  import opened Guarantees

  /** An action of transaction `t`. */
  predicate Of(a: Action, t: nat) { !a.Staff? && a.t == t }

  /** The state with some transactions at work hidden, and some admin keys never handed out. */
  function Hidden(s: State, ts: set<nat>, uuids: set<nat>): State {
    s.(active := s.active - ts, uuids := s.uuids - uuids)
  }

  lemma FewerWait(s: State, ts: set<nat>, uuids: set<nat>, t: nat)
    requires t in s.active && t !in ts && !Waiting(s, t)
    ensures !Waiting(Hidden(s, ts, uuids), t)
  {
    var h := Hidden(s, ts, uuids);
    forall o | o in h.active ensures !WaitsFor(h, t, o) { assert !WaitsFor(s, t, o); }
  }

  /** An action of somebody else is as possible, and does the same, when the others are hidden. */
  lemma HiddenNext(cfg: Config, s: State, a: Action, n: State, ts: set<nat>, uuids: set<nat>)
    requires Next(cfg, s, a, n) && (forall t | t in ts :: !Of(a, t)) && uuids <= s.uuids
    ensures Next(cfg, Hidden(s, ts, uuids), a, Hidden(n, ts, uuids))
  {
    match a
    case Begin(t, req) =>
      var more := if req.Adjust? then {req.uuid} else {};
      assert s.active[t := Txn(Init(req), 0)] - ts == (s.active - ts)[t := Txn(Init(req), 0)];
      assert s.uuids + more - uuids == s.uuids - uuids + more;
    case Statement(t) =>
      var Txn(l, k) := s.active[t];
      FewerWait(s, ts, uuids, t);
      var after := Txn(Step(cfg, l, View(s.db, l)), k + 1);
      assert s.active[t := after] - ts == (s.active - ts)[t := after];
    case Commit(t) => assert s.active - {t} - ts == s.active - ts - {t};
    case Rollback(t) => assert s.active - {t} - ts == s.active - ts - {t};
    case Staff(_) =>
  }

  // ------------------------------------------------------------- one call

  /** The call that begins at `b` as `t` is still at work at `j`, where the run ends or the call rolls back. */
  ghost predicate Spans(actions: seq<Action>, t: nat, b: nat, j: nat) {
    && b < j <= |actions| && actions[b].Begin? && actions[b].t == t
    && (forall i | b < i < j && Of(actions[i], t) :: actions[i].Statement?)
    && (j < |actions| ==> actions[j] == Rollback(t))
  }

  function KeyOf(a: Action): set<nat> { if a.Begin? && a.req.Adjust? then {a.req.uuid} else {} }

  /** All actions but those of the call. */
  function Without(actions: seq<Action>, t: nat, b: nat, j: nat): seq<Action> {
    if actions == [] then []
    else
      var n := |actions| - 1;
      Without(actions[..n], t, b, j) + if b <= n <= j && Of(actions[n], t) then [] else [actions[n]]
  }

  /** What is left of the `m`th state without the call. */
  function Left(s: State, a: Action, t: nat, b: nat, j: nat, m: nat): State {
    if m <= b then s else Hidden(s, if m <= j then {t} else {}, KeyOf(a))
  }

  lemma {:induction false} AtWork(cfg: Config, first: Db, states: seq<State>, actions: seq<Action>, t: nat, b: nat, j: nat, m: nat)
    requires Execution(cfg, first, states, actions) && Spans(actions, t, b, j) && b < m <= |actions|
    ensures m <= j ==> t in states[m].active
    ensures KeyOf(actions[b]) <= states[m].uuids
  {
    assert Next(cfg, states[m - 1], actions[m - 1], states[m]);
    if m > b + 1 { AtWork(cfg, first, states, actions, t, b, j, m - 1); }
  }

  /** One action: it is the call's own and changes nothing that is left, or it can be taken without the call. */
  lemma LeftStep(cfg: Config, first: Db, states: seq<State>, actions: seq<Action>, t: nat, b: nat, j: nat, m: nat)
    requires Execution(cfg, first, states, actions) && Spans(actions, t, b, j) && m < |actions|
    ensures var s, n := Left(states[m], actions[b], t, b, j, m), Left(states[m + 1], actions[b], t, b, j, m + 1);
            if b <= m <= j && Of(actions[m], t) then n == s else Next(cfg, s, actions[m], n)
  {
    var s, a, n := states[m], actions[m], states[m + 1];
    assert Next(cfg, s, a, n);
    if m > b { AtWork(cfg, first, states, actions, t, b, j, m); }
    if b <= m <= j && Of(a, t) {
      OwnStep(cfg, s, a, n, t, actions[b], m == b);
    } else if m > b {
      HiddenNext(cfg, s, a, n, if m <= j then {t} else {}, KeyOf(actions[b]));
    }
  }

  lemma OwnStep(cfg: Config, s: State, a: Action, n: State, t: nat, begin: Action, begins: bool)
    requires Next(cfg, s, a, n) && Of(a, t)
    requires if begins then a.Begin? && a == begin else t in s.active && (a.Statement? || a.Rollback?)
    ensures Hidden(n, {t}, KeyOf(begin)) == if begins then s else Hidden(s, {t}, KeyOf(begin))
    ensures a.Rollback? ==> Hidden(n, {}, KeyOf(begin)) == Hidden(s, {t}, KeyOf(begin))
  {
    if begins {
      assert n.active - {t} == s.active;
      assert n.uuids - KeyOf(begin) == s.uuids;
    } else if a.Statement? {
      assert n.active - {t} == s.active - {t};
    } else {
      assert n.active - {t} == s.active - {t} && n.active - {} == s.active - {t};
    }
  }

  /** The tables and requests with which calls begin that are not picked. */
  function OtherBegins(pick: (Db, Request) -> bool, states: seq<State>, actions: seq<Action>): seq<(Db, Request)>
    requires |states| == |actions| + 1
  {
    if actions == [] then []
    else
      var n := |actions| - 1;
      OtherBegins(pick, states[..n + 1], actions[..n])
      + if actions[n].Begin? && !pick(states[n].db, actions[n].req) then [(states[n].db, actions[n].req)] else []
  }

  lemma OneMoreBegin(pick: (Db, Request) -> bool, states: seq<State>, actions: seq<Action>, a: Action, n: State)
    requires |states| == |actions| + 1
    ensures OtherBegins(pick, states + [n], actions + [a])
            == OtherBegins(pick, states, actions)
               + if a.Begin? && !pick(states[|actions|].db, a.req) then [(states[|actions|].db, a.req)] else []
  {
    assert (states + [n])[..|actions| + 1] == states && (actions + [a])[..|actions|] == actions;
    assert (states + [n])[|actions|] == states[|actions|];
  }

  lemma Longer(cfg: Config, first: Db, states: seq<State>, actions: seq<Action>, a: Action, n: State)
    requires Execution(cfg, first, states, actions) && Next(cfg, states[|actions|], a, n)
    ensures Execution(cfg, first, states + [n], actions + [a])
  {
    var ss, aa := states + [n], actions + [a];
    forall i | 0 <= i < |aa| ensures Next(cfg, ss[i], aa[i], ss[i + 1]) {
      if i < |actions| { assert ss[i] == states[i] && ss[i + 1] == states[i + 1]; }
    }
  }

  lemma Prefixes(states: seq<State>, actions: seq<Action>, t: nat, b: nat, j: nat, m: nat, pick: (Db, Request) -> bool)
    requires |states| == |actions| + 1 && 0 < m <= |actions|
    ensures var a, own := actions[m - 1], b <= m - 1 <= j && Of(actions[m - 1], t);
            && Without(actions[..m], t, b, j) == Without(actions[..m - 1], t, b, j) + (if own then [] else [a])
            && OtherBegins(pick, states[..m + 1], actions[..m])
               == OtherBegins(pick, states[..m], actions[..m - 1])
                  + if a.Begin? && !pick(states[m - 1].db, a.req) then [(states[m - 1].db, a.req)] else []
  {
    var a := actions[m - 1];
    assert actions[..m] == actions[..m - 1] + [a] && states[..m + 1] == states[..m] + [states[m]];
    assert actions[..m][..m - 1] == actions[..m - 1];
    OneMoreBegin(pick, states[..m], actions[..m - 1], a, states[m]);
  }

  /** What is left of the states, for the first `m` actions. */
  ghost predicate Leaves(
    cfg: Config, first: Db, states: seq<State>, actions: seq<Action>, t: nat, b: nat, j: nat, m: nat, pick: (Db, Request) -> bool, left: seq<State>)
    requires |states| == |actions| + 1 && m <= |actions| && b < |actions|
  {
    && Execution(cfg, first, left, Without(actions[..m], t, b, j))
    && left[|left| - 1] == Left(states[m], actions[b], t, b, j, m)
    && OtherBegins(pick, left, Without(actions[..m], t, b, j)) == OtherBegins(pick, states[..m + 1], actions[..m])
  }

  lemma LeavesOwn(
    cfg: Config, first: Db, states: seq<State>, actions: seq<Action>, t: nat, b: nat, j: nat, m: nat, pick: (Db, Request) -> bool, left: seq<State>)
    requires |states| == |actions| + 1 && 0 < m <= |actions| && b < |actions| && Leaves(cfg, first, states, actions, t, b, j, m - 1, pick, left)
    requires b <= m - 1 <= j && Of(actions[m - 1], t) && (actions[m - 1].Begin? ==> pick(states[m - 1].db, actions[m - 1].req))
    requires Left(states[m], actions[b], t, b, j, m) == Left(states[m - 1], actions[b], t, b, j, m - 1)
    ensures Leaves(cfg, first, states, actions, t, b, j, m, pick, left)
  {
    Prefixes(states, actions, t, b, j, m, pick);
    var before, begins := Without(actions[..m - 1], t, b, j), OtherBegins(pick, states[..m], actions[..m - 1]);
    assert before + [] == before && begins + [] == begins;
  }

  lemma LeavesOther(
    cfg: Config, first: Db, states: seq<State>, actions: seq<Action>, t: nat, b: nat, j: nat, m: nat, pick: (Db, Request) -> bool, left: seq<State>)
    requires |states| == |actions| + 1 && 0 < m <= |actions| && b < |actions| && Leaves(cfg, first, states, actions, t, b, j, m - 1, pick, left)
    requires !(b <= m - 1 <= j && Of(actions[m - 1], t))
    requires Next(cfg, Left(states[m - 1], actions[b], t, b, j, m - 1), actions[m - 1], Left(states[m], actions[b], t, b, j, m))
    ensures Leaves(cfg, first, states, actions, t, b, j, m, pick, left + [Left(states[m], actions[b], t, b, j, m)])
  {
    Prefixes(states, actions, t, b, j, m, pick);
    var a, before, n := actions[m - 1], Without(actions[..m - 1], t, b, j), Left(states[m], actions[b], t, b, j, m);
    Longer(cfg, first, left, before, a, n);
    OneMoreBegin(pick, left, before, a, n);
  }

  /** The first `m` actions without those of a call that never commits: an execution that ends in what is left. */
  lemma {:induction false} Erase(
    cfg: Config, first: Db, states: seq<State>, actions: seq<Action>, t: nat, b: nat, j: nat, m: nat, pick: (Db, Request) -> bool)
    returns (left: seq<State>)
    requires Execution(cfg, first, states, actions) && Spans(actions, t, b, j) && m <= |actions| && pick(states[b].db, actions[b].req)
    ensures Leaves(cfg, first, states, actions, t, b, j, m, pick, left)
  {
    if m == 0 {
      left := [states[0]];
    } else {
      left := Erase(cfg, first, states, actions, t, b, j, m - 1, pick);
      LeftStep(cfg, first, states, actions, t, b, j, m - 1);
      if b <= m - 1 <= j && Of(actions[m - 1], t) {
        LeavesOwn(cfg, first, states, actions, t, b, j, m, pick, left);
      } else {
        LeavesOther(cfg, first, states, actions, t, b, j, m, pick, left);
        left := left + [Left(states[m], actions[b], t, b, j, m)];
      }
    }
  }

  lemma {:induction false} WithoutIsShorter(actions: seq<Action>, t: nat, b: nat, j: nat)
    ensures |Without(actions, t, b, j)| <= |actions|
    ensures b < |actions| && b <= j && Of(actions[b], t) ==> |Without(actions, t, b, j)| < |actions|
  {
    if actions != [] { WithoutIsShorter(actions[..|actions| - 1], t, b, j); }
  }

  /** A whole execution without such a call. */
  lemma EraseCall(
    cfg: Config, first: Db, states: seq<State>, actions: seq<Action>, t: nat, b: nat, j: nat, pick: (Db, Request) -> bool)
    returns (left: seq<State>, rest: seq<Action>)
    requires Execution(cfg, first, states, actions) && Spans(actions, t, b, j) && pick(states[b].db, actions[b].req)
    ensures Execution(cfg, first, left, rest) && |rest| < |actions|
    ensures left[|rest|] == Left(states[|actions|], actions[b], t, b, j, |actions|)
    ensures OtherBegins(pick, left, rest) == OtherBegins(pick, states, actions)
  {
    var n := |actions|;
    left := Erase(cfg, first, states, actions, t, b, j, n, pick);
    rest := Without(actions, t, b, j);
    assert actions[..n] == actions && states[..n + 1] == states;
    WithoutIsShorter(actions, t, b, j);
  }

  // ----------------------------------------------- redemptions that come too late

  /** A redemption of a code that is already redeemed, by whomever. */
  ghost predicate Hopeless(db: Db, req: Request) {
    req.Redeem? && req.code in db.codes && db.codes[req.code].redemption.Some?
  }

  /** Between its begin and its end a transaction keeps its request. */
  lemma {:induction false} SameCall(cfg: Config, first: Db, states: seq<State>, actions: seq<Action>, t: nat, b: nat, i: nat)
    requires Execution(cfg, first, states, actions) && b < i <= |actions| && actions[b].Begin? && actions[b].t == t
    requires forall k | b < k < i && Of(actions[k], t) :: actions[k].Statement?
    ensures t in states[i].active && states[i].active[t].local.req == actions[b].req
  {
    var s, a, n := states[i - 1], actions[i - 1], states[i];
    assert Next(cfg, s, a, n);
    if i > b + 1 {
      SameCall(cfg, first, states, actions, t, b, i - 1);
      if Of(a, t) { StepWrites(cfg, s.active[t].local, View(s.db, s.active[t].local)); }
    }
  }

  lemma ReadyHoldsCode(cfg: Config, s: State, t: nat)
    requires Safe(cfg, s) && t in s.active && s.active[t].local.req.Redeem? && s.active[t].local.pc.Ready?
    ensures s.active[t].local.HoldsCode()
  {
    TrajShape(cfg, s.active[t].local.req, s.db, s.active[t].steps);
  }

  /** A call for a code redeemed before it began never gets ready to commit. */
  lemma NeverReady(cfg: Config, first: Db, states: seq<State>, actions: seq<Action>, t: nat, b: nat, i: nat)
    requires ValidZone(cfg.zone) && Inv(cfg, first) && Execution(cfg, first, states, actions)
    requires b < i <= |actions| && actions[b].Begin? && actions[b].t == t && Hopeless(states[b].db, actions[b].req)
    requires forall k | b < k < i && Of(actions[k], t) :: actions[k].Statement?
    ensures t in states[i].active && !states[i].active[t].local.pc.Ready? && states[i].active[t].local.req == actions[b].req
    ensures Hopeless(states[i].db, actions[b].req)
  {
    SameCall(cfg, first, states, actions, t, b, i);
    RedeemerNeverChanges(cfg, first, states, actions, b, i, actions[b].req.code);
    AlwaysSafe(cfg, first, states, actions, i);
    AlwaysLockedFree(cfg, first, states, actions, i);
    assert ClaimedFree(states[i].db, states[i].active[t].local);
    if states[i].active[t].local.pc.Ready? { ReadyHoldsCode(cfg, states[i], t); }
  }

  /** So it rolls back, or is still at work at the end. */
  lemma {:induction false} SpanEnd(cfg: Config, first: Db, states: seq<State>, actions: seq<Action>, t: nat, b: nat, i: nat) returns (j: nat)
    requires ValidZone(cfg.zone) && Inv(cfg, first) && Execution(cfg, first, states, actions)
    requires b < i <= |actions| && actions[b].Begin? && actions[b].t == t && Hopeless(states[b].db, actions[b].req)
    requires forall k | b < k < i && Of(actions[k], t) :: actions[k].Statement?
    ensures Spans(actions, t, b, j)
    decreases |actions| - i
  {
    j := i;
    if i < |actions| {
      NeverReady(cfg, first, states, actions, t, b, i);
      assert Next(cfg, states[i], actions[i], states[i + 1]);
      if actions[i] != Rollback(t) { j := SpanEnd(cfg, first, states, actions, t, b, i + 1); }
    }
  }

  /** The two states are the same, but that some hopeless calls are still at work in the first only. */
  ghost predicate SameButHopeless(s: State, n: State) {
    && n.db == s.db && n.log == s.log && n.uuids == s.uuids
    && (forall o | o in n.active :: o in s.active && n.active[o] == s.active[o])
    && (forall o | o in s.active && o !in n.active :: Hopeless(s.db, s.active[o].local.req))
  }

  /** Only picked calls are gone: what the other calls began with is the same, one by one. */
  ghost predicate Erased(
    cfg: Config, first: Db, pick: (Db, Request) -> bool, states: seq<State>, actions: seq<Action>, left: seq<State>, rest: seq<Action>)
    requires |states| == |actions| + 1
  {
    && Execution(cfg, first, left, rest)
    && SameButHopeless(states[|actions|], left[|rest|])
    && OtherBegins(pick, left, rest) == OtherBegins(pick, states, actions)
  }

  /** One hopeless call, erased. */
  lemma EraseOne(cfg: Config, first: Db, pick: (Db, Request) -> bool, states: seq<State>, actions: seq<Action>, b: nat)
    returns (left: seq<State>, rest: seq<Action>)
    requires ValidZone(cfg.zone) && Inv(cfg, first) && Execution(cfg, first, states, actions)
    requires b < |actions| && actions[b].Begin? && pick(states[b].db, actions[b].req) && Hopeless(states[b].db, actions[b].req)
    ensures Erased(cfg, first, pick, states, actions, left, rest) && |rest| < |actions|
  {
    var t, n := actions[b].t, |actions|;
    var j := SpanEnd(cfg, first, states, actions, t, b, b + 1);
    left, rest := EraseCall(cfg, first, states, actions, t, b, j, pick);
    if j == n { NeverReady(cfg, first, states, actions, t, b, n); }
    HiddenHopeless(states[n], if n <= j then {t} else {});
  }

  lemma HiddenHopeless(s: State, ts: set<nat>)
    requires forall t | t in ts && t in s.active :: Hopeless(s.db, s.active[t].local.req)
    ensures SameButHopeless(s, Hidden(s, ts, {}))
  {
  }

  lemma StillHopeless(s: State, n: State, m: State)
    requires SameButHopeless(s, n) && SameButHopeless(n, m)
    ensures SameButHopeless(s, m)
  {
  }

  /**
   Whichever hopeless calls are picked: an execution without any of them ends in the same tables, with the same
   calls committed and all other calls where they were.
   */
  lemma {:induction false} HopelessCallsLeaveNoTrace(cfg: Config, first: Db, pick: (Db, Request) -> bool, states: seq<State>, actions: seq<Action>)
    returns (left: seq<State>, rest: seq<Action>)
    requires ValidZone(cfg.zone) && Inv(cfg, first) && Execution(cfg, first, states, actions)
    requires forall db, req | pick(db, req) :: Hopeless(db, req)
    ensures Erased(cfg, first, pick, states, actions, left, rest)
    ensures forall i | 0 <= i < |rest| && rest[i].Begin? :: !pick(left[i].db, rest[i].req)
    decreases |actions|
  {
    if b: nat :| b < |actions| && actions[b].Begin? && pick(states[b].db, actions[b].req) {
      var ss, aa := EraseOne(cfg, first, pick, states, actions, b);
      left, rest := HopelessCallsLeaveNoTrace(cfg, first, pick, ss, aa);
      StillHopeless(states[|actions|], ss[|aa|], left[|rest|]);
    } else {
      left, rest := states, actions;
    }
  }

  /** A redemption call for a code its user has redeemed already. */
  function SameUserRetry(): (Db, Request) -> bool {
    (db: Db, req: Request) => req.Redeem? && RedeemedBy(db, req.code, req.user)
  }

  /** Deleting all same-user retries from any execution leaves an execution with the same outcome for everybody else. */
  lemma RetriesLeaveNoTrace(cfg: Config, first: Db, states: seq<State>, actions: seq<Action>)
    returns (left: seq<State>, rest: seq<Action>)
    requires ValidZone(cfg.zone) && Inv(cfg, first) && Execution(cfg, first, states, actions)
    ensures Erased(cfg, first, SameUserRetry(), states, actions, left, rest)
    ensures forall i | 0 <= i < |rest| && rest[i].Begin? && rest[i].req.Redeem? :: !RedeemedBy(left[i].db, rest[i].req.code, rest[i].req.user)
  {
    left, rest := HopelessCallsLeaveNoTrace(cfg, first, SameUserRetry(), states, actions);
    forall i | 0 <= i < |rest| && rest[i].Begin? && rest[i].req.Redeem? ensures !RedeemedBy(left[i].db, rest[i].req.code, rest[i].req.user) {
      assert !SameUserRetry()(left[i].db, rest[i].req);
    }
  }

  // ------------------------------------------------------- calls that roll back

  /** A transaction at work began at some earlier step, and has been at work since. */
  lemma {:induction false} BeginOf(cfg: Config, first: Db, states: seq<State>, actions: seq<Action>, t: nat, m: nat) returns (b: nat)
    requires Execution(cfg, first, states, actions) && m <= |actions| && t in states[m].active
    ensures b < m && actions[b].Begin? && actions[b].t == t
    ensures forall i | b < i < m && Of(actions[i], t) :: actions[i].Statement?
  {
    assert Next(cfg, states[m - 1], actions[m - 1], states[m]);
    b := m - 1;
    if !(actions[b].Begin? && actions[b].t == t) { b := BeginOf(cfg, first, states, actions, t, m - 1); }
  }

  /** The two states are the same, but that fewer admin keys were handed out before the second. */
  ghost predicate SameButKeys(s: State, n: State) {
    n.db == s.db && n.log == s.log && n.active == s.active && n.uuids <= s.uuids
  }

  lemma RollbackSpan(cfg: Config, first: Db, states: seq<State>, actions: seq<Action>, j: nat) returns (b: nat)
    requires Execution(cfg, first, states, actions) && j < |actions| && actions[j].Rollback?
    ensures Spans(actions, actions[j].t, b, j)
  {
    assert Next(cfg, states[j], actions[j], states[j + 1]);
    b := BeginOf(cfg, first, states, actions, actions[j].t, j);
  }

  lemma NothingHidden(s: State, uuids: set<nat>)
    ensures SameButKeys(s, Hidden(s, {}, uuids))
  {
    assert s.active - {} == s.active;
  }

  lemma EraseRollback(cfg: Config, first: Db, states: seq<State>, actions: seq<Action>, j: nat) returns (left: seq<State>, rest: seq<Action>)
    requires Execution(cfg, first, states, actions) && j < |actions| && actions[j].Rollback?
    ensures Execution(cfg, first, left, rest) && SameButKeys(states[|actions|], left[|rest|]) && |rest| < |actions|
  {
    var b := RollbackSpan(cfg, first, states, actions, j);
    left, rest := EraseCall(cfg, first, states, actions, actions[j].t, b, j, (db, req) => true);
    NothingHidden(states[|actions|], KeyOf(actions[b]));
  }

  /** Every call that rolls back, whenever it began, can be deleted: what is left commits the same and never rolls back. */
  lemma {:induction false} RollbacksLeaveNoTrace(cfg: Config, first: Db, states: seq<State>, actions: seq<Action>)
    returns (left: seq<State>, rest: seq<Action>)
    requires Execution(cfg, first, states, actions)
    ensures Execution(cfg, first, left, rest) && SameButKeys(states[|actions|], left[|rest|])
    ensures forall i | 0 <= i < |rest| :: !rest[i].Rollback?
    decreases |actions|
  {
    if j: nat :| j < |actions| && actions[j].Rollback? {
      var ss, aa := EraseRollback(cfg, first, states, actions, j);
      left, rest := RollbacksLeaveNoTrace(cfg, first, ss, aa);
    } else {
      left, rest := states, actions;
    }
  }

  lemma CommitRedeems(cfg: Config, first: Db, states: seq<State>, actions: seq<Action>, i: nat, t: nat)
    requires ValidZone(cfg.zone) && Inv(cfg, first) && Execution(cfg, first, states, actions)
    requires i < |actions| && actions[i] == Commit(t) && t in states[i].active && states[i].active[t].local.req.Redeem?
    ensures var req := states[i].active[t].local.req;
            && req.code in states[i].db.codes && states[i].db.codes[req.code].redemption.None?
            && RedeemedBy(states[i + 1].db, req.code, req.user)
  {
    var Txn(l, k) := states[i].active[t];
    assert Next(cfg, states[i], actions[i], states[i + 1]);
    AlwaysSafe(cfg, first, states, actions, i);
    ReadyHoldsCode(cfg, states[i], t);
    TrajTransparent(cfg, l.req, states[i].db, k);
    TrajClaimsFree(cfg, l.req, states[i].db, k);
  }

  /** Of all the redemption calls for a code, by one user or many, at once or one after the other, one commits at most. */
  lemma OneRedemptionCommits(cfg: Config, first: Db, states: seq<State>, actions: seq<Action>, i: nat, j: nat, t: nat, o: nat)
    requires ValidZone(cfg.zone) && Inv(cfg, first) && Execution(cfg, first, states, actions)
    requires i < j < |actions| && actions[i] == Commit(t) && actions[j] == Commit(o)
    requires t in states[i].active && states[i].active[t].local.req.Redeem?
    requires o in states[j].active && states[j].active[o].local.req.Redeem?
    ensures states[i].active[t].local.req.code != states[j].active[o].local.req.code
  {
    CommitRedeems(cfg, first, states, actions, i, t);
    CommitRedeems(cfg, first, states, actions, j, o);
    RedeemerNeverChanges(cfg, first, states, actions, i + 1, j, states[i].active[t].local.req.code);
  }
}
