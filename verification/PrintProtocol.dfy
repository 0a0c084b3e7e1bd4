/**
 Print runs statement by statement, under the advisory lock, while staff change batch
 statuses and generate batches directly. A run may fail or die at any point. The lock
 lives on a connection of its own: when that one is lost the lock is free, and the run
 goes on generating on other connections while the next one starts.

 `owner`, `direct`, `overlap` and `names` are history: which run made a batch, how many codes
 were generated outside print runs since the beginning, how many codes other runs still had
 to issue whenever a run was planned, and the ids of the runs.
 */
module PrintProtocol {
  import opened Prelude
  import opened Allocation
  import opened PrintRuns
  import Tables

  datatype Phase =
    | Identified
    | Generating(next: nat)
    | Filling(next: nat, b: nat, remaining: nat)
    | RollingBack(orphans: seq<nat>)

  /** A run at work. */
  datatype Run = Run(id: string, quota: int, counts: seq<int>, phase: Phase)

  datatype End = Finished(counts: seq<int>) | RunRefused | RolledBackFully | Abandoned

  datatype State = State(
    batches: seq<BatchRow>, owner: seq<Option<nat>>, codes: map<Code, nat>,
    runs: map<nat, Run>, lock: Option<nat>, started: nat, ended: map<nat, End>, direct: seq<int>, overlap: seq<int>,
    names: seq<string>)

  datatype Action =
    | Start(id: string, quota: int)                 // take the lock, find a fresh id
    | Plan(run: nat, counts: seq<int>)
    | Refuse(run: nat)
    | InsertBatch(run: nat, coins: int, rest: string)
    | Skip(run: nat)
    | Fill(run: nat, added: set<Code>)
    | CloseBatch(run: nat)
    | Finish(run: nat)
    | Fail(run: nat)
    | VoidOne(run: nat)
    | Release(run: nat)
    | LoseLock(run: nat)                            // the connection with the lock is gone, the run is not
    | Crash(run: nat)
    | DirectBatch(sku: nat, quantity: nat, coins: int, tag: string)
    | DirectFill(batch: nat, added: set<Code>)
    | SetByStaff(batch: nat, target: Status)

  predicate Allowed(s: State, run: nat, counts: seq<int>)
    requires run in s.runs
  {
    && |counts| == |SKU_ORDER|
    && forall i: nat | i < |counts| :: 0 <= counts[i] <= Max(s.runs[run].quota - Issued(s.batches, i), 0)
  }

  predicate Enabled(s: State, a: Action) {
    match a
    case Start(id, _) => s.lock.None? && ' ' !in id && !Taken(s.batches, id)
    // The issued codes are counted, and the lock is released, on the connection with the lock.
    case Plan(run, counts) => s.lock == Some(run) && run in s.runs && s.runs[run].phase.Identified? && Allowed(s, run, counts)
    case Refuse(run) => s.lock == Some(run) && run in s.runs && s.runs[run].phase.Identified?
    case InsertBatch(run, _, _) =>
      && run in s.runs && s.runs[run].phase.Generating? && s.runs[run].phase.next < |s.runs[run].counts|
      && s.runs[run].counts[s.runs[run].phase.next] > 0
    case Skip(run) =>
      && run in s.runs && s.runs[run].phase.Generating? && s.runs[run].phase.next < |s.runs[run].counts|
      && s.runs[run].counts[s.runs[run].phase.next] == 0
    case Fill(run, added) => run in s.runs && s.runs[run].phase.Filling? && added !! s.codes.Keys && |added| <= s.runs[run].phase.remaining
    case CloseBatch(run) => run in s.runs && s.runs[run].phase.Filling? && s.runs[run].phase.remaining == 0
    case Finish(run) => s.lock == Some(run) && run in s.runs && s.runs[run].phase.Generating? && s.runs[run].phase.next == |s.runs[run].counts|
    case Fail(run) => run in s.runs && (s.runs[run].phase.Generating? || s.runs[run].phase.Filling?)
    case VoidOne(run) => run in s.runs && s.runs[run].phase.RollingBack? && s.runs[run].phase.orphans != []
    case Release(run) => run in s.runs && s.runs[run].phase.RollingBack? && s.runs[run].phase.orphans == []
    case LoseLock(run) => s.lock == Some(run) && run in s.runs
    case Crash(run) => run in s.runs
    case DirectBatch(sku, _, _, _) => sku < |SKU_ORDER| && sku < |s.direct|
    case DirectFill(b, added) => b < |s.owner| && s.owner[b].None? && added !! s.codes.Keys
    case SetByStaff(b, target) => b < |s.batches| && MayBecome(s.batches[b].status, target)
  }

  function Goto(s: State, run: nat, phase: Phase): State
    requires run in s.runs
  {
    s.(runs := s.runs[run := s.runs[run].(phase := phase)])
  }

  function Unlocked(s: State, run: nat): Option<nat> { if s.lock == Some(run) then None else s.lock }

  function EndRun(s: State, run: nat, end: End): State {
    s.(runs := s.runs - {run}, lock := Unlocked(s, run), ended := s.ended[run := end])
  }

  function AddCodes(codes: map<Code, nat>, added: set<Code>, b: nat): map<Code, nat> {
    codes + map c | c in added :: b
  }

  /** `set_status` on one batch. */
  function WithStatus(batches: seq<BatchRow>, b: nat, target: Status): seq<BatchRow> {
    if b < |batches| && MayBecome(batches[b].status, target) then batches[b := batches[b].(status := target)] else batches
  }

  /** What the other runs at work have still to issue, added to what was counted before. */
  function Overlapped(s: State): (o: seq<int>)
    ensures |o| == |s.overlap| && forall i: nat | i < |o| :: o[i] == s.overlap[i] + AllPending(s.runs, s.started, i)
  {
    seq(|s.overlap|, i requires 0 <= i < |s.overlap| => s.overlap[i] + AllPending(s.runs, s.started, i))
  }

  function Do(s: State, a: Action): State
    requires Enabled(s, a)
  {
    match a
    case Start(id, quota) =>
      s.(runs := s.runs[s.started := Run(id, quota, [], Identified)], lock := Some(s.started), started := s.started + 1,
         names := s.names + [id])
    case Plan(run, counts) =>
      s.(runs := s.runs[run := s.runs[run].(counts := counts, phase := Generating(0))], overlap := Overlapped(s))
    case Refuse(run) => EndRun(s, run, RunRefused)
    case InsertBatch(run, coins, rest) =>
      var h := s.runs[run];
      var n := h.phase.next;
      var row := BatchRow(n, h.id + " " + rest, h.counts[n], coins, Tables.Generated);
      Goto(s, run, Filling(n, |s.batches|, h.counts[n])).(batches := s.batches + [row], owner := s.owner + [Some(run)])
    case Skip(run) => Goto(s, run, Generating(s.runs[run].phase.next + 1))
    case Fill(run, added) =>
      var Filling(n, b, remaining) := s.runs[run].phase;
      Goto(s, run, Filling(n, b, remaining - |added|)).(codes := AddCodes(s.codes, added, b))
    case CloseBatch(run) => Goto(s, run, Generating(s.runs[run].phase.next + 1))
    case Finish(run) => EndRun(s, run, Finished(s.runs[run].counts))
    case Fail(run) => Goto(s, run, RollingBack(Orphans(s.batches, s.runs[run].id, |s.batches|)))
    case VoidOne(run) =>
      var orphans := s.runs[run].phase.orphans;
      Goto(s, run, RollingBack(orphans[1..])).(batches := WithStatus(s.batches, orphans[0], Tables.Void))
    case Release(run) => EndRun(s, run, RolledBackFully)
    case LoseLock(run) => s.(lock := None)
    case Crash(run) => EndRun(s, run, Abandoned)
    case DirectBatch(sku, quantity, coins, tag) =>
      s.(batches := s.batches + [BatchRow(sku, tag, quantity, coins, Tables.Generated)], owner := s.owner + [None],
         direct := s.direct[sku := s.direct[sku] + quantity])
    case DirectFill(b, added) => s.(codes := AddCodes(s.codes, added, b))
    case SetByStaff(b, target) => s.(batches := WithStatus(s.batches, b, target))
  }

  // --------------------------------------------------------------- invariant

  predicate Owned(s: State, b: nat, run: nat) { b < |s.owner| && s.owner[b] == Some(run) }

  /** The codes of a flavor that run `run` issued. */
  function IssuedBy(batches: seq<BatchRow>, owner: seq<Option<nat>>, run: nat, sku: nat): nat
    requires |owner| == |batches|
  {
    if batches == [] then 0
    else
      var n := |batches| - 1;
      IssuedBy(batches[..n], owner[..n], run, sku) + if owner[n] == Some(run) && batches[n].sku == sku then batches[n].quantity else 0
  }

  ghost predicate Full(s: State, b: nat)
    requires b < |s.batches|
  {
    |BatchCodes(s.codes, b)| == s.batches[b].quantity
  }

  /** The tables fit together. */
  ghost predicate TablesOk(s: State) {
    && |s.owner| == |s.batches| && |s.direct| == |s.overlap| == |SKU_ORDER|
    && (forall i | 0 <= i < |s.direct| :: s.direct[i] >= 0 && s.overlap[i] >= 0) && CodesInBatches(s.batches, s.codes)
    && (forall b: nat, r: nat | Owned(s, b, r) :: r < s.started)
    && (forall r: nat | r in s.runs :: r < s.started && r !in s.ended)
    && (s.lock.Some? ==> s.lock.value in s.runs)
    && (forall r: nat | r in s.ended :: r < s.started)
  }

  /** What a finished or a rolled-back run left behind. */
  ghost predicate EndOk(s: State, r: nat, end: End)
    requires |s.owner| == |s.batches|
  {
    match end
    case Finished(counts) =>
      && (forall b: nat | Owned(s, b, r) :: Full(s, b))
      && forall sku: nat | sku < |counts| :: IssuedBy(s.batches, s.owner, r, sku) == counts[sku]
    case RolledBackFully => forall b: nat | Owned(s, b, r) :: s.batches[b].status.Void?
    case _ => true
  }

  /** What run `r` at work has made so far; its batches carry its label. */
  ghost predicate RunOk(s: State, r: nat, h: Run)
    requires |s.owner| == |s.batches|
  {
    && (forall b: nat | Owned(s, b, r) :: OfRun(s.batches[b].tag, h.id))
    && (forall i: nat | i < |h.counts| :: h.counts[i] >= 0)
    && match h.phase
       case Identified => forall b: nat :: !Owned(s, b, r)
       case Generating(next) =>
         && next <= |h.counts| && (forall b: nat | Owned(s, b, r) :: Full(s, b))
         && forall sku: nat | sku < |h.counts| :: IssuedBy(s.batches, s.owner, r, sku) == if sku < next then h.counts[sku] else 0
       case Filling(next, b, remaining) =>
         && next < |h.counts| && Owned(s, b, r) && |BatchCodes(s.codes, b)| + remaining == s.batches[b].quantity
         && (forall c: nat | Owned(s, c, r) && c != b :: Full(s, c))
         && forall sku: nat | sku < |h.counts| :: IssuedBy(s.batches, s.owner, r, sku) == if sku <= next then h.counts[sku] else 0
       case RollingBack(orphans) =>
         && (forall b: nat | Owned(s, b, r) :: s.batches[b].status.Void? || b in orphans)
         && forall j | 0 <= j < |orphans| :: orphans[j] < |s.batches| && OfRun(s.batches[orphans[j]].tag, h.id)
  }

  ghost predicate Inv(s: State) {
    && TablesOk(s)
    && (forall r | r in s.ended :: EndOk(s, r, s.ended[r]))
    && (forall r | r in s.runs :: RunOk(s, r, s.runs[r]))
  }

  /** Codes of a flavor that a run at work may still issue. */
  function Pending(h: Run, sku: nat): int {
    if h.phase.Generating? && h.phase.next <= sku < |h.counts| then h.counts[sku]
    else if h.phase.Filling? && h.phase.next < sku < |h.counts| then h.counts[sku]
    else 0
  }

  function PendingOf(runs: map<nat, Run>, r: nat, sku: nat): int { if r in runs then Pending(runs[r], sku) else 0 }

  /** The same of all the first `n` runs that are at work. */
  function AllPending(runs: map<nat, Run>, n: nat, sku: nat): int {
    if n == 0 then 0 else AllPending(runs, n - 1, sku) + PendingOf(runs, n - 1, sku)
  }

  /** What is issued of a flavor, or will be when the runs at work go through. */
  function Level(s: State, sku: nat): int { Issued(s.batches, sku) + AllPending(s.runs, s.started, sku) }

  /** No flavor past `quota`, or past its level `base` at the beginning, but for direct codes and overlapping plans. */
  ghost predicate WithinQuota(s: State, base: seq<int>, quota: int) {
    && |base| == |s.direct| == |s.overlap|
    && (forall r | r in s.runs :: s.runs[r].quota <= quota)
    && forall sku: nat | sku < |base| :: Level(s, sku) <= Max(quota, base[sku]) + s.direct[sku] + s.overlap[sku]
  }

  // ------------------------------------------------------------------ frames

  lemma {:induction false} IssuedByNobody(batches: seq<BatchRow>, owner: seq<Option<nat>>, run: nat, sku: nat)
    requires |owner| == |batches| && forall b | 0 <= b < |owner| :: owner[b] != Some(run)
    ensures IssuedBy(batches, owner, run, sku) == 0
  {
    if batches != [] { IssuedByNobody(batches[..|batches| - 1], owner[..|batches| - 1], run, sku); }
  }

  lemma AppendIssued(batches: seq<BatchRow>, owner: seq<Option<nat>>, row: BatchRow, who: Option<nat>, run: nat, sku: nat)
    requires |owner| == |batches|
    ensures Issued(batches + [row], sku) == Issued(batches, sku) + if row.sku == sku then row.quantity else 0
    ensures IssuedBy(batches + [row], owner + [who], run, sku)
            == IssuedBy(batches, owner, run, sku) + if who == Some(run) && row.sku == sku then row.quantity else 0
  {
    assert (batches + [row])[..|batches|] == batches && (owner + [who])[..|owner|] == owner;
  }

  lemma {:induction false} StatusKeepsIssued(b0: seq<BatchRow>, b1: seq<BatchRow>, owner: seq<Option<nat>>, run: nat, sku: nat)
    requires |owner| == |b0| == |b1| && forall b | 0 <= b < |b0| :: b1[b].sku == b0[b].sku && b1[b].quantity == b0[b].quantity
    ensures Issued(b1, sku) == Issued(b0, sku) && IssuedBy(b1, owner, run, sku) == IssuedBy(b0, owner, run, sku)
  {
    if b0 != [] {
      var n := |b0| - 1;
      StatusKeepsIssued(b0[..n], b1[..n], owner[..n], run, sku);
    }
  }

  lemma CodesAdded(codes: map<Code, nat>, added: set<Code>, b: nat)
    requires added !! codes.Keys
    ensures BatchCodes(AddCodes(codes, added, b), b) == BatchCodes(codes, b) + added
    ensures |BatchCodes(AddCodes(codes, added, b), b)| == |BatchCodes(codes, b)| + |added|
    ensures forall c: nat | c != b :: BatchCodes(AddCodes(codes, added, b), c) == BatchCodes(codes, c)
  {
    assert BatchCodes(AddCodes(codes, added, b), b) == BatchCodes(codes, b) + added;
  }

  /** From `s` to `t` statuses moved, and void batches stayed void. */
  ghost predicate OnlyStatuses(s: State, t: State) {
    && t.owner == s.owner && t.codes == s.codes && |t.batches| == |s.batches|
    && forall b | 0 <= b < |s.batches| ::
         && t.batches[b].sku == s.batches[b].sku && t.batches[b].quantity == s.batches[b].quantity && t.batches[b].tag == s.batches[b].tag
         && (s.batches[b].status.Void? ==> t.batches[b].status.Void?)
  }

  /** From `s` to `t` codes were added to batch `b`. */
  ghost predicate OnlyCodesOf(s: State, t: State, b: nat) {
    t.batches == s.batches && t.owner == s.owner && forall c: nat | c != b :: BatchCodes(t.codes, c) == BatchCodes(s.codes, c)
  }

  /** From `s` to `t` one batch was added. */
  ghost predicate OnlyAdds(s: State, t: State, row: BatchRow, who: Option<nat>) {
    t.batches == s.batches + [row] && t.owner == s.owner + [who] && t.codes == s.codes
  }

  /** The tables look the same to run `r`, or better. */
  ghost predicate SameFor(s: State, t: State, r: nat) {
    && |s.owner| == |s.batches| <= |t.batches| == |t.owner|
    && (forall b: nat :: Owned(s, b, r) == Owned(t, b, r))
    && (forall b | 0 <= b < |s.batches| :: t.batches[b].tag == s.batches[b].tag)
    && (forall b: nat | Owned(s, b, r) ::
          && BatchCodes(t.codes, b) == BatchCodes(s.codes, b) && t.batches[b].quantity == s.batches[b].quantity
          && (s.batches[b].status.Void? ==> t.batches[b].status.Void?))
    && forall sku: nat :: IssuedBy(t.batches, t.owner, r, sku) == IssuedBy(s.batches, s.owner, r, sku)
  }

  lemma SameForByStatus(s: State, t: State, r: nat)
    requires |s.owner| == |s.batches| && OnlyStatuses(s, t)
    ensures SameFor(s, t, r)
  {
    forall sku: nat ensures IssuedBy(t.batches, t.owner, r, sku) == IssuedBy(s.batches, s.owner, r, sku) {
      StatusKeepsIssued(s.batches, t.batches, s.owner, r, sku);
    }
  }

  lemma SameForByAppend(s: State, t: State, row: BatchRow, who: Option<nat>, r: nat)
    requires |s.owner| == |s.batches| && OnlyAdds(s, t, row, who) && who != Some(r)
    ensures SameFor(s, t, r)
  {
    forall sku: nat ensures IssuedBy(t.batches, t.owner, r, sku) == IssuedBy(s.batches, s.owner, r, sku) {
      AppendIssued(s.batches, s.owner, row, who, r, sku);
    }
  }

  lemma SameForByCodes(s: State, t: State, b: nat, r: nat)
    requires |s.owner| == |s.batches| && OnlyCodesOf(s, t, b) && !Owned(s, b, r)
    ensures SameFor(s, t, r)
  {
  }

  lemma EndKept(s: State, t: State, r: nat, end: End)
    requires |s.owner| == |s.batches| && SameFor(s, t, r) && EndOk(s, r, end)
    ensures EndOk(t, r, end)
  {
  }

  lemma RunKept(s: State, t: State, r: nat, h: Run)
    requires |s.owner| == |s.batches| && SameFor(s, t, r) && RunOk(s, r, h)
    ensures RunOk(t, r, h)
  {
  }

  /** Ended runs, and runs at work other than `r`, stay as they should be. */
  lemma OthersKept(s: State, t: State, r: nat)
    requires Inv(s) && |t.owner| == |t.batches| && forall q: nat | q != r :: SameFor(s, t, q)
    ensures forall q | q in s.ended && q != r :: EndOk(t, q, s.ended[q])
    ensures forall q | q in s.runs && q != r :: RunOk(t, q, s.runs[q])
  {
    forall q | q in s.ended && q != r ensures EndOk(t, q, s.ended[q]) { EndKept(s, t, q, s.ended[q]); }
    forall q | q in s.runs && q != r ensures RunOk(t, q, s.runs[q]) { RunKept(s, t, q, s.runs[q]); }
  }

  // ------------------------------------------------------------ preservation

  lemma StartKeeps(s: State, id: string, quota: int)
    requires Inv(s) && Enabled(s, Start(id, quota))
    ensures Inv(Do(s, Start(id, quota)))
  {
    var t := Do(s, Start(id, quota));
    forall q: nat ensures SameFor(s, t, q) { SameForByStatus(s, t, q); }
    OthersKept(s, t, s.started);
    forall b: nat ensures !Owned(t, b, s.started) { assert Owned(t, b, s.started) ==> Owned(s, b, s.started); }
    assert forall b: nat, r: nat :: Owned(t, b, r) == Owned(s, b, r);
  }

  lemma PlanKeeps(s: State, run: nat, counts: seq<int>)
    requires Inv(s) && Enabled(s, Plan(run, counts))
    ensures Inv(Do(s, Plan(run, counts)))
  {
    var t := Do(s, Plan(run, counts));
    forall sku: nat | sku < |counts| ensures IssuedBy(t.batches, t.owner, run, sku) == 0 {
      forall b | 0 <= b < |s.owner| ensures s.owner[b] != Some(run) { assert !Owned(s, b, run); }
      IssuedByNobody(s.batches, s.owner, run, sku);
    }
    forall q: nat ensures SameFor(s, t, q) { SameForByStatus(s, t, q); }
    OthersKept(s, t, run);
    assert forall b: nat, r: nat :: Owned(t, b, r) == Owned(s, b, r);
    forall i: nat | i < |t.overlap| ensures t.overlap[i] >= 0 { PendingNotNegative(s, s.started, i); }
  }

  lemma {:induction false} PendingNotNegative(s: State, n: nat, sku: nat)
    requires Inv(s)
    ensures AllPending(s.runs, n, sku) >= 0
    decreases n
  {
    if n > 0 {
      PendingNotNegative(s, n - 1, sku);
      if n - 1 in s.runs { assert RunOk(s, n - 1, s.runs[n - 1]); }
    }
  }

  lemma InsertKeeps(s: State, run: nat, coins: int, rest: string)
    requires Inv(s) && Enabled(s, InsertBatch(run, coins, rest))
    ensures Inv(Do(s, InsertBatch(run, coins, rest)))
  {
    var t := Do(s, InsertBatch(run, coins, rest));
    var h, row := s.runs[run], t.batches[|s.batches|];
    assert RunOk(s, run, h);
    forall q: nat | q != run ensures SameFor(s, t, q) { SameForByAppend(s, t, row, Some(run), q); }
    OthersKept(s, t, run);
    NoCodesYet(s.batches, s.codes, |s.batches|);
    assert h.id + " " <= row.tag;
    InsertedRun(s, t, run, h, t.runs[run], row);
    forall b: nat, r: nat | Owned(t, b, r) && b != |s.batches| ensures Owned(s, b, r) {}
  }

  lemma InsertedRun(s: State, t: State, run: nat, h: Run, g: Run, row: BatchRow)
    requires |s.owner| == |s.batches| && RunOk(s, run, h) && h.phase.Generating? && h.phase.next < |h.counts| && h.counts[h.phase.next] > 0
    requires OnlyAdds(s, t, row, Some(run)) && BatchCodes(s.codes, |s.batches|) == {}
    requires row.sku == h.phase.next && row.quantity == h.counts[h.phase.next] && OfRun(row.tag, h.id)
    requires g == h.(phase := Filling(h.phase.next, |s.batches|, h.counts[h.phase.next]))
    ensures RunOk(t, run, g)
  {
    forall sku: nat | sku < |h.counts|
      ensures IssuedBy(t.batches, t.owner, run, sku) == if sku <= h.phase.next then h.counts[sku] else 0
    {
      AppendIssued(s.batches, s.owner, row, Some(run), run, sku);
    }
    forall b: nat | Owned(t, b, run) && b != |s.batches| ensures Owned(s, b, run) && Full(t, b) == Full(s, b) {}
  }

  lemma FillTables(s: State, run: nat, added: set<Code>)
    requires TablesOk(s) && Enabled(s, Fill(run, added)) && s.runs[run].phase.b < |s.batches|
    ensures TablesOk(Do(s, Fill(run, added)))
  {
    assert forall c: nat, r: nat :: Owned(Do(s, Fill(run, added)), c, r) == Owned(s, c, r);
  }

  lemma FillKeeps(s: State, run: nat, added: set<Code>)
    requires Inv(s) && Enabled(s, Fill(run, added))
    ensures Inv(Do(s, Fill(run, added)))
  {
    var t := Do(s, Fill(run, added));
    assert RunOk(s, run, s.runs[run]);
    var b := s.runs[run].phase.b;
    CodesAdded(s.codes, added, b);
    forall q: nat | q != run ensures SameFor(s, t, q) { SameForByCodes(s, t, b, q); }
    OthersKept(s, t, run);
    FilledRun(s, t, run, added);
    FillTables(s, run, added);
  }

  lemma FilledRun(s: State, t: State, run: nat, added: set<Code>)
    requires |s.owner| == |s.batches| && run in s.runs && run in t.runs && RunOk(s, run, s.runs[run]) && s.runs[run].phase.Filling?
    requires |added| <= s.runs[run].phase.remaining && OnlyCodesOf(s, t, s.runs[run].phase.b)
    requires |BatchCodes(t.codes, s.runs[run].phase.b)| == |BatchCodes(s.codes, s.runs[run].phase.b)| + |added|
    requires var Filling(n, b, remaining) := s.runs[run].phase; t.runs[run] == s.runs[run].(phase := Filling(n, b, remaining - |added|))
    ensures RunOk(t, run, t.runs[run])
  {
    var b := s.runs[run].phase.b;
    forall c: nat, r: nat | Owned(t, c, r) ensures Owned(s, c, r) && (c != b ==> Full(t, c) == Full(s, c)) {}
  }

  lemma VoidOneKeeps(s: State, run: nat)
    requires Inv(s) && Enabled(s, VoidOne(run))
    ensures Inv(Do(s, VoidOne(run)))
  {
    var t := Do(s, VoidOne(run));
    assert RunOk(s, run, s.runs[run]);
    assert OnlyStatuses(s, t);
    forall q: nat ensures SameFor(s, t, q) { SameForByStatus(s, t, q); }
    OthersKept(s, t, run);
    assert forall b: nat, r: nat :: Owned(t, b, r) == Owned(s, b, r);
    VoidedRun(s, t, run, s.runs[run], t.runs[run]);
  }

  lemma VoidedRun(s: State, t: State, run: nat, h: Run, g: Run)
    requires |s.owner| == |s.batches| && RunOk(s, run, h) && OnlyStatuses(s, t) && h.phase.RollingBack? && h.phase.orphans != []
    requires g == h.(phase := RollingBack(h.phase.orphans[1..])) && t.batches == WithStatus(s.batches, h.phase.orphans[0], Tables.Void)
    ensures RunOk(t, run, g)
  {
    var orphans := h.phase.orphans;
    forall b: nat | Owned(t, b, run) ensures t.batches[b].status.Void? || b in orphans[1..] {
      assert Owned(s, b, run);
      assert b in orphans ==> b == orphans[0] || b in orphans[1..];
    }
  }

  lemma StaffKeeps(s: State, b: nat, target: Status)
    requires Inv(s) && Enabled(s, SetByStaff(b, target))
    ensures Inv(Do(s, SetByStaff(b, target)))
  {
    var t := Do(s, SetByStaff(b, target));
    forall q: nat ensures SameFor(s, t, q) { SameForByStatus(s, t, q); }
    OthersKept(s, t, s.started);
    assert forall c: nat, r: nat :: Owned(t, c, r) == Owned(s, c, r);
  }

  lemma DirectBatchKeeps(s: State, a: Action)
    requires Inv(s) && a.DirectBatch? && Enabled(s, a)
    ensures Inv(Do(s, a))
  {
    var t := Do(s, a);
    forall q: nat ensures SameFor(s, t, q) { SameForByAppend(s, t, t.batches[|s.batches|], None, q); }
    OthersKept(s, t, s.started);
    assert forall b: nat, r: nat :: Owned(t, b, r) ==> Owned(s, b, r);
  }

  lemma DirectFillKeeps(s: State, b: nat, added: set<Code>)
    requires Inv(s) && Enabled(s, DirectFill(b, added))
    ensures Inv(Do(s, DirectFill(b, added)))
  {
    var t := Do(s, DirectFill(b, added));
    CodesAdded(s.codes, added, b);
    forall q: nat ensures SameFor(s, t, q) { SameForByCodes(s, t, b, q); }
    OthersKept(s, t, s.started);
    assert forall c: nat, r: nat :: Owned(t, c, r) == Owned(s, c, r);
  }

  /** A step of a run that writes no batch and no code. */
  predicate Quiet(a: Action) { a.Skip? || a.CloseBatch? || a.Fail? || a.LoseLock? || Ends(a) }

  predicate Ends(a: Action) { a.Refuse? || a.Finish? || a.Release? || a.Crash? }

  /** From `s` to `t` nothing moved but run `r`, which goes on or has ended. */
  ghost predicate Moves(s: State, t: State, r: nat) {
    && t == s.(runs := t.runs, lock := t.lock, ended := t.ended) && r in s.runs
    && (t.lock.Some? ==> t.lock == s.lock && t.lock.value in t.runs)
    && (if r in t.runs then t.runs == s.runs[r := t.runs[r]] && t.ended == s.ended
        else t.runs == s.runs - {r} && r in t.ended && t.ended == s.ended[r := t.ended[r]])
  }

  lemma QuietMoves(s: State, a: Action)
    requires TablesOk(s) && Enabled(s, a) && Quiet(a)
    ensures Moves(s, Do(s, a), a.run) && (Ends(a) <==> a.run !in Do(s, a).runs)
  {
  }

  lemma MovedTables(s: State, t: State, r: nat)
    requires Inv(s) && Moves(s, t, r)
    ensures TablesOk(t) && RunOk(t, r, s.runs[r])
    ensures forall q | q in s.ended && q != r :: EndOk(t, q, s.ended[q])
    ensures forall q | q in s.runs && q != r :: RunOk(t, q, s.runs[q])
  {
    forall q: nat ensures SameFor(s, t, q) { SameForByStatus(s, t, q); }
    OthersKept(s, t, r);
    RunKept(s, t, r, s.runs[r]);
    assert forall b: nat, q: nat :: Owned(t, b, q) == Owned(s, b, q);
  }

  lemma QuietKeeps(s: State, a: Action)
    requires Inv(s) && Enabled(s, a) && Quiet(a)
    ensures Inv(Do(s, a))
  {
    QuietMoves(s, a);
    MovedTables(s, Do(s, a), a.run);
    if Ends(a) { EndKeeps(s, a); } else { GoOnKeeps(s, a); }
  }

  lemma EndKeeps(s: State, a: Action)
    requires Enabled(s, a) && Ends(a) && |s.owner| == |s.batches| && RunOk(Do(s, a), a.run, s.runs[a.run])
    ensures EndOk(Do(s, a), a.run, Do(s, a).ended[a.run])
  {
    EndsWell(Do(s, a), a.run, s.runs[a.run], Do(s, a).ended[a.run]);
  }

  lemma GoOnKeeps(s: State, a: Action)
    requires Enabled(s, a) && Quiet(a) && !Ends(a) && |s.owner| == |s.batches| && RunOk(Do(s, a), a.run, s.runs[a.run])
    ensures RunOk(Do(s, a), a.run, Do(s, a).runs[a.run])
  {
    GoesOn(Do(s, a), a, s.runs[a.run], Do(s, a).runs[a.run]);
  }

  lemma EndsWell(t: State, r: nat, h: Run, end: End)
    requires |t.owner| == |t.batches| && RunOk(t, r, h)
    requires end == Finished(h.counts) ==> h.phase == Generating(|h.counts|)
    requires end.Finished? ==> end.counts == h.counts
    requires end.RolledBackFully? ==> h.phase == RollingBack([])
    ensures EndOk(t, r, end)
  {
  }

  lemma GoesOn(t: State, a: Action, h: Run, g: Run)
    requires |t.owner| == |t.batches| && Quiet(a) && !Ends(a) && RunOk(t, a.run, h)
    requires a.LoseLock? ==> g == h
    requires a.Skip? ==>
               h.phase.Generating? && h.phase.next < |h.counts| && h.counts[h.phase.next] == 0 && g == h.(phase := Generating(h.phase.next + 1))
    requires a.CloseBatch? ==> h.phase.Filling? && h.phase.remaining == 0 && g == h.(phase := Generating(h.phase.next + 1))
    requires a.Fail? ==> g == h.(phase := RollingBack(Orphans(t.batches, h.id, |t.batches|)))
    ensures RunOk(t, a.run, g)
  {
  }

  lemma StepKeeps(s: State, a: Action)
    requires Inv(s) && Enabled(s, a)
    ensures Inv(Do(s, a))
  {
    match a
    case Start(id, quota) => StartKeeps(s, id, quota);
    case Plan(run, counts) => PlanKeeps(s, run, counts);
    case InsertBatch(run, coins, rest) => InsertKeeps(s, run, coins, rest);
    case Fill(run, added) => FillKeeps(s, run, added);
    case VoidOne(run) => VoidOneKeeps(s, run);
    case SetByStaff(b, target) => StaffKeeps(s, b, target);
    case DirectBatch(_, _, _, _) => DirectBatchKeeps(s, a);
    case DirectFill(b, added) => DirectFillKeeps(s, b, added);
    case _ => QuietKeeps(s, a);
  }

  // ------------------------------------------------------------------ quota

  /** Runs use quotas of at most `quota`. */
  predicate Modest(a: Action, quota: int) { a.Start? ==> a.quota <= quota }

  /** Changing one run moves the sum by what it changes for that run. */
  lemma {:induction false} PendingUpdate(runs: map<nat, Run>, after: map<nat, Run>, n: nat, r: nat, sku: nat)
    requires forall q: nat | q != r :: PendingOf(after, q, sku) == PendingOf(runs, q, sku)
    ensures AllPending(after, n, sku) == AllPending(runs, n, sku) + if r < n then PendingOf(after, r, sku) - PendingOf(runs, r, sku) else 0
    decreases n
  {
    if n > 0 { PendingUpdate(runs, after, n - 1, r, sku); }
  }

  /** A plan takes what the quota still allows, as if nobody else had codes to issue. */
  lemma PlanLevel(s: State, run: nat, counts: seq<int>, sku: nat)
    requires Inv(s) && Enabled(s, Plan(run, counts)) && sku < |SKU_ORDER|
    ensures Level(Do(s, Plan(run, counts)), sku) == Level(s, sku) + counts[sku]
    ensures counts[sku] <= Max(s.runs[run].quota - Issued(s.batches, sku), 0)
  {
    PendingUpdate(s.runs, Do(s, Plan(run, counts)).runs, s.started, run, sku);
  }

  /** Any other step adds to the level of a flavor only what it adds to the direct count. */
  lemma LevelStep(s: State, a: Action, sku: nat)
    requires Inv(s) && Enabled(s, a) && !a.Plan? && sku < |s.direct|
    ensures var t := Do(s, a); sku < |t.direct| && Level(t, sku) - t.direct[sku] <= Level(s, sku) - s.direct[sku] && t.overlap == s.overlap
  {
    var t := Do(s, a);
    match a
    case Start(id, quota) => StartLevel(s, id, quota, sku);
    case InsertBatch(run, coins, rest) => InsertLevel(s, run, coins, rest, sku);
    case DirectBatch(_, _, _, _) => DirectLevel(s, a, sku);
    case SetByStaff(b, target) => StatusKeepsIssued(s.batches, t.batches, s.owner, 0, sku);
    case DirectFill(_, _) =>
    case VoidOne(run) => VoidLevel(s, run, sku);
    case _ => RunLevel(s, a, sku);
  }

  /** A run that moves on has no more to issue than before. */
  lemma PendingFalls(s: State, a: Action, sku: nat)
    requires TablesOk(s) && Enabled(s, a) && (Quiet(a) || a.Fill? || a.VoidOne?) && RunOk(s, a.run, s.runs[a.run])
    ensures var t := Do(s, a); PendingOf(t.runs, a.run, sku) <= PendingOf(s.runs, a.run, sku)
    ensures var t := Do(s, a); forall q: nat | q != a.run :: PendingOf(t.runs, q, sku) == PendingOf(s.runs, q, sku)
  {
  }

  lemma RunLevel(s: State, a: Action, sku: nat)
    requires Inv(s) && Enabled(s, a) && (Quiet(a) || a.Fill?)
    ensures Level(Do(s, a), sku) <= Level(s, sku)
  {
    PendingFalls(s, a, sku);
    PendingUpdate(s.runs, Do(s, a).runs, s.started, a.run, sku);
  }

  lemma VoidLevel(s: State, run: nat, sku: nat)
    requires Inv(s) && Enabled(s, VoidOne(run))
    ensures Level(Do(s, VoidOne(run)), sku) <= Level(s, sku)
  {
    var t := Do(s, VoidOne(run));
    PendingFalls(s, VoidOne(run), sku);
    PendingUpdate(s.runs, t.runs, s.started, run, sku);
    StatusKeepsIssued(s.batches, t.batches, s.owner, 0, sku);
  }

  /** A batch inserted is issued and no longer to be issued. */
  lemma InsertPending(s: State, run: nat, coins: int, rest: string, sku: nat)
    requires Enabled(s, InsertBatch(run, coins, rest))
    ensures var t := Do(s, InsertBatch(run, coins, rest));
            && |t.batches| == |s.batches| + 1
            && PendingOf(t.runs, run, sku) == PendingOf(s.runs, run, sku) - Adding(t.batches[|s.batches|], sku)
            && forall q: nat | q != run :: PendingOf(t.runs, q, sku) == PendingOf(s.runs, q, sku)
  {
  }

  function Adding(row: BatchRow, sku: nat): nat { if row.sku == sku then row.quantity else 0 }

  lemma InsertLevel(s: State, run: nat, coins: int, rest: string, sku: nat)
    requires Inv(s) && Enabled(s, InsertBatch(run, coins, rest))
    ensures Level(Do(s, InsertBatch(run, coins, rest)), sku) == Level(s, sku)
  {
    var t := Do(s, InsertBatch(run, coins, rest));
    InsertPending(s, run, coins, rest, sku);
    var row := t.batches[|s.batches|];
    PendingUpdate(s.runs, t.runs, s.started, run, sku);
    AppendIssued(s.batches, s.owner, row, Some(run), 0, sku);
    LevelMoves(s, t, sku, Adding(row, sku));
  }

  lemma LevelMoves(s: State, t: State, sku: nat, n: int)
    requires Issued(t.batches, sku) == Issued(s.batches, sku) + n
    requires AllPending(t.runs, t.started, sku) == AllPending(s.runs, s.started, sku) - n
    ensures Level(t, sku) == Level(s, sku)
  {
  }

  lemma StartLevel(s: State, id: string, quota: int, sku: nat)
    requires Inv(s) && Enabled(s, Start(id, quota))
    ensures Level(Do(s, Start(id, quota)), sku) == Level(s, sku)
  {
    PendingUpdate(s.runs, Do(s, Start(id, quota)).runs, s.started + 1, s.started, sku);
  }

  lemma DirectLevel(s: State, a: Action, sku: nat)
    requires Inv(s) && Enabled(s, a) && a.DirectBatch? && sku < |s.direct|
    ensures Level(Do(s, a), sku) - Do(s, a).direct[sku] == Level(s, sku) - s.direct[sku]
  {
    AppendIssued(s.batches, s.owner, BatchRow(a.sku, a.tag, a.quantity, a.coins, Tables.Generated), None, 0, sku);
  }

  lemma QuotaStep(s: State, a: Action, base: seq<int>, quota: int)
    requires Inv(s) && Enabled(s, a) && Modest(a, quota) && |base| == |SKU_ORDER| && WithinQuota(s, base, quota)
    ensures WithinQuota(Do(s, a), base, quota)
  {
    var t := Do(s, a);
    forall sku: nat | sku < |base| ensures Level(t, sku) <= Max(quota, base[sku]) + t.direct[sku] + t.overlap[sku] {
      assert Level(s, sku) <= Max(quota, base[sku]) + s.direct[sku] + s.overlap[sku];
      if a.Plan? {
        PlanLevel(s, a.run, a.counts, sku);
        PendingNotNegative(s, s.started, sku);
        assert t.overlap[sku] == s.overlap[sku] + AllPending(s.runs, s.started, sku);
      } else {
        LevelStep(s, a, sku);
      }
    }
  }

  // ---------------------------------------------------------------- theorems

  ghost predicate Execution(states: seq<State>, actions: seq<Action>) {
    && |states| == |actions| + 1
    && forall i | 0 <= i < |actions| :: Enabled(states[i], actions[i]) && states[i + 1] == Do(states[i], actions[i])
  }

  /** Before the first print run: any batches and codes, made directly. */
  ghost predicate Initial(s: State) {
    && |s.owner| == |s.batches| && CodesInBatches(s.batches, s.codes)
    && (forall b | 0 <= b < |s.owner| :: s.owner[b].None?)
    && s.runs == map[] && s.lock.None? && s.started == 0 && s.ended == map[] && s.names == []
    && s.direct == s.overlap == Zeros()
  }

  function Zeros(): seq<int> { seq(|SKU_ORDER|, i => 0) }

  lemma {:induction false} AlwaysInv(states: seq<State>, actions: seq<Action>, n: nat)
    requires Execution(states, actions) && Initial(states[0]) && n <= |actions|
    ensures Inv(states[n])
  {
    if n > 0 {
      AlwaysInv(states, actions, n - 1);
      StepKeeps(states[n - 1], actions[n - 1]);
    }
  }

  /**
   Whatever runs, staff and crashes do, and whichever locks are lost: of no flavor is more issued, or still to
   be issued, than the quota or its level at the beginning, codes generated directly and overlapping plans apart.
   */
  lemma {:induction false} QuotaAlwaysHolds(states: seq<State>, actions: seq<Action>, n: nat, quota: int, sku: nat)
    requires Execution(states, actions) && Initial(states[0]) && n <= |actions| && sku < |SKU_ORDER|
    requires forall i | 0 <= i < |actions| :: Modest(actions[i], quota)
    ensures WithinQuota(states[n], IssuedPerCity(states[0].batches), quota)
    ensures var s := states[n];
            sku < |s.direct| == |s.overlap|
            && Issued(s.batches, sku) <= Max(quota, Issued(states[0].batches, sku)) + s.direct[sku] + s.overlap[sku]
  {
    AlwaysInv(states, actions, n);
    if n > 0 {
      QuotaAlwaysHolds(states, actions, n - 1, quota, sku);
      AlwaysInv(states, actions, n - 1);
      QuotaStep(states[n - 1], actions[n - 1], IssuedPerCity(states[0].batches), quota);
    }
    PendingNotNegative(states[n], states[n].started, sku);
  }

  /** No other run has codes to issue when a run is planned. */
  ghost predicate PlansAlone(s: State, a: Action) {
    a.Plan? ==> forall sku: nat | sku < |SKU_ORDER| :: AllPending(s.runs, s.started, sku) == 0
  }

  lemma PlansAloneStep(s: State, a: Action)
    requires Inv(s) && Enabled(s, a) && PlansAlone(s, a) && s.overlap == Zeros()
    ensures Do(s, a).overlap == Zeros()
  {
    if a.Plan? {
      forall i: nat | i < |s.overlap| ensures Do(s, a).overlap[i] == 0 {}
    }
  }

  /** Then nothing overlaps, and the quota is kept but for codes generated directly. */
  lemma {:induction false} PlansAloneKeepTheQuota(states: seq<State>, actions: seq<Action>, n: nat, quota: int, sku: nat)
    requires Execution(states, actions) && Initial(states[0]) && n <= |actions| && sku < |SKU_ORDER|
    requires forall i | 0 <= i < |actions| :: Modest(actions[i], quota) && PlansAlone(states[i], actions[i])
    ensures states[n].overlap == Zeros() && |states[n].direct| == |SKU_ORDER|
    ensures Issued(states[n].batches, sku) <= Max(quota, Issued(states[0].batches, sku)) + states[n].direct[sku]
  {
    AlwaysInv(states, actions, n);
    if n > 0 {
      PlansAloneKeepTheQuota(states, actions, n - 1, quota, sku);
      AlwaysInv(states, actions, n - 1);
      PlansAloneStep(states[n - 1], actions[n - 1]);
    }
    QuotaAlwaysHolds(states, actions, n, quota, sku);
  }

  /** The run that has the lock is the only one at work. */
  ghost predicate LockIsKept(s: State) { forall r | r in s.runs :: s.lock == Some(r) }

  /** As long as no connection with the lock is lost, plans are made alone and ids are fresh. */
  lemma {:induction false} LocksKept(states: seq<State>, actions: seq<Action>, n: nat)
    requires Execution(states, actions) && Initial(states[0]) && n <= |actions|
    requires forall i | 0 <= i < n :: !actions[i].LoseLock?
    ensures LockIsKept(states[n])
    ensures n < |actions| ==> PlansAlone(states[n], actions[n]) && FreshStart(states[n], actions[n])
  {
    if n > 0 { LocksKept(states, actions, n - 1); }
    if n < |actions| && actions[n].Plan? {
      forall sku: nat | sku < |SKU_ORDER| ensures AllPending(states[n].runs, states[n].started, sku) == 0 {
        OnlyOnePending(states[n].runs, states[n].started, actions[n].run, sku);
      }
    }
  }

  lemma {:induction false} OnlyOnePending(runs: map<nat, Run>, n: nat, r: nat, sku: nat)
    requires r in runs && runs[r].phase.Identified? && forall q | q in runs :: q == r
    ensures AllPending(runs, n, sku) == 0
    decreases n
  {
    if n > 0 { OnlyOnePending(runs, n - 1, r, sku); }
  }

  /** The quota still has room for a flavor, taking what other runs have to issue into account, or nothing is left of it. */
  predicate RoomFor(s: State, run: nat, base: seq<int>, sku: nat)
    requires run in s.runs && sku < |base| == |s.direct|
  {
    var quota := s.runs[run].quota;
    Issued(s.batches, sku) >= quota || AllPending(s.runs, s.started, sku) + quota <= Max(quota, base[sku]) + s.direct[sku]
  }

  ghost predicate WithinLevels(s: State, base: seq<int>, quota: int)
    requires |base| == |s.direct|
  {
    forall sku: nat | sku < |base| :: Level(s, sku) <= Max(quota, base[sku]) + s.direct[sku]
  }

  /**
   Whatever a run may plan keeps the quota, exactly when for each flavor there is room. Without direct codes
   and below the quota from the beginning that is: when no other run has codes of a flavor to issue that this one may want.
   */
  lemma PlansKeepTheQuota(s: State, run: nat, base: seq<int>)
    requires Inv(s) && s.lock == Some(run) && run in s.runs && s.runs[run].phase.Identified? && |base| == |SKU_ORDER|
    requires WithinLevels(s, base, s.runs[run].quota)
    ensures (forall counts | Allowed(s, run, counts) :: WithinLevels(Do(s, Plan(run, counts)), base, s.runs[run].quota))
            <==> forall sku: nat | sku < |base| :: RoomFor(s, run, base, sku)
  {
    var quota := s.runs[run].quota;
    if forall sku: nat | sku < |base| :: RoomFor(s, run, base, sku) {
      forall counts | Allowed(s, run, counts) ensures WithinLevels(Do(s, Plan(run, counts)), base, quota) {
        forall sku: nat | sku < |base|
          ensures Level(Do(s, Plan(run, counts)), sku) <= Max(quota, base[sku]) + Do(s, Plan(run, counts)).direct[sku]
        {
          PlanLevel(s, run, counts, sku);
          assert RoomFor(s, run, base, sku);
        }
      }
    } else {
      var sku: nat :| sku < |base| && !RoomFor(s, run, base, sku);
      var counts := seq(|SKU_ORDER|, i => if i == sku then quota - Issued(s.batches, sku) else 0);
      assert Allowed(s, run, counts);
      PlanLevel(s, run, counts, sku);
      assert !WithinLevels(Do(s, Plan(run, counts)), base, quota);
    }
  }

  function One(sku: nat): seq<int> { seq(|SKU_ORDER|, i => if i == sku then 1 else 0) }

  /** A run that plans one code of the first flavor. */
  function OneCode(id: string, quota: int, phase: Phase): Run { Run(id, quota, One(0), phase) }

  function Work(runs: map<nat, Run>, lock: Option<nat>, names: seq<string>, overlap: seq<int>): State {
    State([], [], map[], runs, lock, |names|, map[], Zeros(), overlap, names)
  }

  lemma FirstPlans(id: string, quota: int) returns (states: seq<State>, actions: seq<Action>)
    requires ' ' !in id && quota >= 1
    ensures |states| == 4 && Execution(states, actions) && states[0] == Work(map[], None, [], Zeros()) && actions[0] == Start(id, quota)
    ensures (forall i | 0 < i < 3 :: !actions[i].Start?) && states[3] == Work(map[0 := OneCode(id, quota, Generating(0))], None, [id], Zeros())
  {
    var s0 := Work(map[], None, [], Zeros());
    var s1 := Work(map[0 := Run(id, quota, [], Identified)], Some(0), [id], Zeros());
    var s2 := Work(map[0 := OneCode(id, quota, Generating(0))], Some(0), [id], Zeros());
    var s3 := Work(map[0 := OneCode(id, quota, Generating(0))], None, [id], Zeros());
    states, actions := [s0, s1, s2, s3], [Start(id, quota), Plan(0, One(0)), LoseLock(0)];
    forall sku: nat | sku < |SKU_ORDER| ensures AllPending(s1.runs, 1, sku) == 0 {
      assert AllPending(s1.runs, 0, sku) == 0;
    }
    assert Overlapped(s1) == Zeros();
    assert Do(s1, actions[1]) == s2;
  }

  /** Before the first of them has written a batch, two runs may have one id. */
  lemma SecondPlans(id: string, other: string, quota: int) returns (states: seq<State>, actions: seq<Action>)
    requires ' ' !in other && quota >= 1
    ensures |states| == 3 && Execution(states, actions) && states[0] == Work(map[0 := OneCode(id, quota, Generating(0))], None, [id], Zeros())
    ensures actions[0] == Start(other, quota) && actions[1].Plan? && states[2] == BothPlanned(id, other, quota)
  {
    var r := OneCode(id, quota, Generating(0));
    var s0 := Work(map[0 := r], None, [id], Zeros());
    var s1 := Work(map[0 := r, 1 := Run(other, quota, [], Identified)], Some(1), [id, other], Zeros());
    var s2 := BothPlanned(id, other, quota);
    states, actions := [s0, s1, s2], [Start(other, quota), Plan(1, One(0))];
    assert [id] + [other] == [id, other];
    forall sku: nat | sku < |SKU_ORDER| ensures AllPending(s1.runs, 2, sku) == One(0)[sku] {
      assert AllPending(s1.runs, 1, sku) == PendingOf(s1.runs, 0, sku);
    }
    assert Overlapped(s1) == One(0);
    assert Do(s1, actions[1]) == s2;
  }

  function BothPlanned(id: string, other: string, quota: int): State {
    Work(map[0 := OneCode(id, quota, Generating(0)), 1 := OneCode(other, quota, Generating(0))], Some(1), [id, other], One(0))
  }

  function OneBatch(id: string): BatchRow { BatchRow(0, id + " ", 1, 0, Tables.Generated) }

  function FirstIssued(id: string, other: string, quota: int): State {
    BothPlanned(id, other, quota).(
      runs := map[0 := OneCode(id, quota, Filling(0, 0, 1)), 1 := OneCode(other, quota, Generating(0))],
      batches := [OneBatch(id)], owner := [Some(0)])
  }

  function BothIssued(id: string, other: string, quota: int): State {
    BothPlanned(id, other, quota).(
      runs := map[0 := OneCode(id, quota, Filling(0, 0, 1)), 1 := OneCode(other, quota, Filling(0, 1, 1))],
      batches := [OneBatch(id), OneBatch(other)], owner := [Some(0), Some(1)])
  }

  lemma FirstIssues(id: string, other: string, quota: int)
    ensures Enabled(BothPlanned(id, other, quota), InsertBatch(0, 0, ""))
    ensures Do(BothPlanned(id, other, quota), InsertBatch(0, 0, "")) == FirstIssued(id, other, quota)
  {
    assert id + " " + "" == id + " ";
  }

  lemma SecondIssues(id: string, other: string, quota: int)
    ensures Enabled(FirstIssued(id, other, quota), InsertBatch(1, 0, ""))
    ensures Do(FirstIssued(id, other, quota), InsertBatch(1, 0, "")) == BothIssued(id, other, quota)
  {
    assert other + " " + "" == other + " ";
  }

  /** Two runs have both planned a code, and issue it. */
  lemma BothIssue(id: string, other: string, quota: int) returns (states: seq<State>, actions: seq<Action>)
    ensures Execution(states, actions) && |states| == 3 && states[0] == BothPlanned(id, other, quota) && states[2] == BothIssued(id, other, quota)
    ensures forall i | 0 <= i < 2 :: actions[i].InsertBatch?
    ensures Issued(states[2].batches, 0) == 2
  {
    FirstIssues(id, other, quota);
    SecondIssues(id, other, quota);
    actions := [InsertBatch(0, 0, ""), InsertBatch(1, 0, "")];
    states := [BothPlanned(id, other, quota), FirstIssued(id, other, quota), BothIssued(id, other, quota)];
    TwoIssued(OneBatch(id), OneBatch(other));
  }

  lemma TwoIssued(a: BatchRow, b: BatchRow)
    requires a.sku == b.sku == 0 && a.quantity == b.quantity == 1
    ensures Issued([a, b], 0) == 2
  {
    assert [a, b][..1] == [a] && [a][..0] == [];
    assert Issued([a], 0) == Issued([], 0) + 1;
  }

  lemma Joined(states: seq<State>, actions: seq<Action>, more: seq<State>, after: seq<Action>)
    requires Execution(states, actions) && Execution(more, after) && states[|actions|] == more[0]
    ensures Execution(states + more[1..], actions + after)
  {
    var all, acts := states + more[1..], actions + after;
    forall i | 0 <= i < |acts| ensures Enabled(all[i], acts[i]) && all[i + 1] == Do(all[i], acts[i]) {
      if i >= |actions| {
        var j := i - |actions|;
        assert acts[i] == after[j] && all[i + 1] == more[j + 1] && all[i] == more[j];
      }
    }
  }

  /** A lost lock breaks the quota: two runs plan the last code of a flavor, and both issue it. */
  lemma LostLockBreaksTheQuota() returns (states: seq<State>, actions: seq<Action>)
    ensures Execution(states, actions) && Initial(states[0]) && forall i | 0 <= i < |actions| :: Modest(actions[i], 1)
    ensures Issued(states[0].batches, 0) == 0 && states[|actions|].direct == Zeros()
    ensures Issued(states[|actions|].batches, 0) == 2
  {
    states, actions := FirstPlans("a", 1);
    var more, next := SecondPlans("a", "b", 1);
    Joined(states, actions, more, next);
    states, actions := states + more[1..], actions + next;
    var last, end := BothIssue("a", "b", 1);
    Joined(states, actions, last, end);
    states, actions := states + last[1..], actions + end;
  }

  /** A run that finished left exactly its allotment of each flavor, every batch with as many codes as it says. */
  lemma FinishedRunsAreExact(states: seq<State>, actions: seq<Action>, n: nat, run: nat, counts: seq<int>, sku: nat)
    requires Execution(states, actions) && Initial(states[0]) && n <= |actions|
    requires run in states[n].ended && states[n].ended[run] == Finished(counts) && sku < |counts|
    ensures |states[n].owner| == |states[n].batches|
    ensures IssuedBy(states[n].batches, states[n].owner, run, sku) == counts[sku]
    ensures forall b: nat | Owned(states[n], b, run) :: Full(states[n], b)
  {
    AlwaysInv(states, actions, n);
    assert EndOk(states[n], run, states[n].ended[run]);
  }

  lemma EndedStays(s: State, a: Action, run: nat)
    requires Inv(s) && Enabled(s, a) && run in s.ended
    ensures run in Do(s, a).ended && Do(s, a).ended[run] == s.ended[run]
  {
  }

  lemma {:induction false} EndedForGood(states: seq<State>, actions: seq<Action>, m: nat, n: nat, run: nat)
    requires Execution(states, actions) && Initial(states[0]) && m <= n <= |actions| && run in states[m].ended
    ensures run in states[n].ended && states[n].ended[run] == states[m].ended[run]
    decreases n
  {
    if m < n {
      EndedForGood(states, actions, m, n - 1, run);
      AlwaysInv(states, actions, n - 1);
      EndedStays(states[n - 1], actions[n - 1], run);
    }
  }

  /** Once a run is rolled back none of its batches is ever redeemable again, whatever staff do. */
  lemma RolledBackStaysVoid(states: seq<State>, actions: seq<Action>, m: nat, n: nat, run: nat, b: nat)
    requires Execution(states, actions) && Initial(states[0]) && m <= n <= |actions|
    requires run in states[m].ended && states[m].ended[run].RolledBackFully?
    requires b < |states[n].batches| && Owned(states[n], b, run)
    ensures states[n].batches[b].status.Void?
  {
    EndedForGood(states, actions, m, n, run);
    AlwaysInv(states, actions, n);
    assert EndOk(states[n], run, states[n].ended[run]);
  }

  /** No run at work has the id of the one that starts. */
  ghost predicate FreshStart(s: State, a: Action) {
    a.Start? ==> forall r | r in s.runs :: s.runs[r].id != a.id
  }

  /** Runs at work have ids of their own, and label no batch of another run. */
  ghost predicate IdsApart(s: State) {
    && (forall r | r in s.runs :: ' ' !in s.runs[r].id)
    && (forall r, q | r in s.runs && q in s.runs && s.runs[r].id == s.runs[q].id :: r == q)
    && (forall b: nat, r: nat, q | Owned(s, b, r) && b < |s.batches| && q in s.runs && OfRun(s.batches[b].tag, s.runs[q].id) :: r == q)
  }

  /** Runs keep their ids; batches keep their owner and label, and a new one gets the label of its run. */
  lemma NamesKept(s: State, a: Action)
    requires Inv(s) && Enabled(s, a)
    ensures forall q | q in Do(s, a).runs :: (a.Start? && q == s.started && Do(s, a).runs[q].id == a.id) || (q in s.runs && Do(s, a).runs[q].id == s.runs[q].id)
  {
  }

  lemma LabelsKept(s: State, a: Action, b: nat, r: nat)
    requires Inv(s) && Enabled(s, a) && Owned(Do(s, a), b, r) && b < |Do(s, a).batches|
    ensures || (b < |s.batches| && Owned(s, b, r) && Do(s, a).batches[b].tag == s.batches[b].tag)
            || (a.InsertBatch? && r == a.run && OfRun(Do(s, a).batches[b].tag, s.runs[r].id))
  {
    if a.InsertBatch? { assert s.runs[a.run].id + " " <= Do(s, a).batches[|s.batches|].tag; }
  }

  lemma IdsApartStep(s: State, a: Action)
    requires Inv(s) && Enabled(s, a) && IdsApart(s) && FreshStart(s, a)
    ensures IdsApart(Do(s, a))
  {
    var t := Do(s, a);
    NamesKept(s, a);
    forall b: nat, r: nat, q | Owned(t, b, r) && b < |t.batches| && q in t.runs && OfRun(t.batches[b].tag, t.runs[q].id) ensures r == q {
      LabelsKept(s, a, b, r);
      LabelDecides(s, a, t.batches[b].tag, t.runs[q].id, b, r, q);
    }
  }

  lemma LabelDecides(s: State, a: Action, tag: string, id: string, b: nat, r: nat, q: nat)
    requires IdsApart(s) && Enabled(s, a) && OfRun(tag, id)
    requires (a.Start? && q == s.started && id == a.id) || (q in s.runs && id == s.runs[q].id)
    requires (b < |s.batches| && Owned(s, b, r) && tag == s.batches[b].tag) || (a.InsertBatch? && r == a.run && OfRun(tag, s.runs[r].id))
    ensures r == q
  {
    if !(b < |s.batches| && Owned(s, b, r) && tag == s.batches[b].tag) { LabelsTellRunsApart(tag, s.runs[r].id, id); }
  }

  lemma {:induction false} AlwaysIdsApart(states: seq<State>, actions: seq<Action>, n: nat)
    requires Execution(states, actions) && Initial(states[0]) && n <= |actions|
    requires forall i | 0 <= i < |actions| :: FreshStart(states[i], actions[i])
    ensures IdsApart(states[n])
  {
    if n > 0 {
      AlwaysIdsApart(states, actions, n - 1);
      AlwaysInv(states, actions, n - 1);
      IdsApartStep(states[n - 1], actions[n - 1]);
    }
  }

  // ------------------------------------------------------ whom a rollback hits

  /** Every batch of a run carries the id the run started with. */
  ghost predicate Named(s: State) {
    && |s.names| == s.started && (forall r: nat | r < |s.names| :: ' ' !in s.names[r])
    && (forall r | r in s.runs :: r < |s.names| && s.runs[r].id == s.names[r])
    && (forall b: nat, r: nat | Owned(s, b, r) && b < |s.batches| :: r < |s.names| && OfRun(s.batches[b].tag, s.names[r]))
  }

  lemma NamedStep(s: State, a: Action)
    requires Inv(s) && Enabled(s, a) && Named(s)
    ensures Named(Do(s, a))
  {
    var t := Do(s, a);
    NamesKept(s, a);
    NamesGrow(s, a);
    forall b: nat, r: nat | Owned(t, b, r) && b < |t.batches| ensures r < |t.names| && OfRun(t.batches[b].tag, t.names[r]) {
      LabelsKept(s, a, b, r);
    }
  }

  lemma NamesGrow(s: State, a: Action)
    requires Enabled(s, a) && |s.names| == s.started
    ensures var t := Do(s, a);
            && |t.names| == t.started >= s.started && t.names[..s.started] == s.names
            && (a.Start? ==> t.started == s.started + 1 && t.names[s.started] == a.id) && (!a.Start? ==> t.names == s.names)
  {
  }

  lemma {:induction false} AlwaysNamed(states: seq<State>, actions: seq<Action>, n: nat)
    requires Execution(states, actions) && Initial(states[0]) && n <= |actions|
    ensures Named(states[n])
  {
    if n > 0 {
      AlwaysNamed(states, actions, n - 1);
      AlwaysInv(states, actions, n - 1);
      NamedStep(states[n - 1], actions[n - 1]);
    }
  }

  /** The run has written a batch. */
  ghost predicate HasBatch(s: State, run: nat) { exists b: nat :: b < |s.batches| && Owned(s, b, run) }

  /** Some batch of `other` is among those that the rollback of `run` is about to void. */
  ghost predicate Hits(s: State, run: nat, other: nat) {
    && run in s.runs && s.runs[run].phase.RollingBack?
    && exists b: nat :: b < |s.batches| && Owned(s, b, other) && b in s.runs[run].phase.orphans
  }

  /** A rollback goes for batches of another run exactly when that one has the same id and has written a batch. */
  lemma RollbackHits(states: seq<State>, actions: seq<Action>, n: nat, run: nat, other: nat)
    requires Execution(states, actions) && Initial(states[0]) && n < |actions| && actions[n] == Fail(run) && other < states[n].started
    ensures run < |states[n].names| == states[n].started
    ensures Hits(states[n + 1], run, other) <==> states[n].names[run] == states[n].names[other] && HasBatch(states[n], other)
  {
    AlwaysNamed(states, actions, n);
    var s, t := states[n], states[n + 1];
    var orphans := t.runs[run].phase.orphans;
    assert orphans == Orphans(s.batches, s.runs[run].id, |s.batches|) && t.batches == s.batches && t.owner == s.owner;
    if b: nat :| b < |s.batches| && Owned(s, b, other) {
      BatchHit(s, run, other, b, orphans);
      assert Owned(t, b, other);
    }
    if b: nat :| b < |t.batches| && Owned(t, b, other) && b in orphans {
      assert Owned(s, b, other);
      BatchHit(s, run, other, b, orphans);
    }
  }

  lemma BatchHit(s: State, run: nat, other: nat, b: nat, orphans: seq<nat>)
    requires Named(s) && run in s.runs && other < |s.names| && b < |s.batches| && Owned(s, b, other)
    requires orphans == Orphans(s.batches, s.runs[run].id, |s.batches|)
    ensures run < |s.names| && (b in orphans <==> s.names[run] == s.names[other])
  {
    if OfRun(s.batches[b].tag, s.runs[run].id) { LabelsTellRunsApart(s.batches[b].tag, s.names[run], s.names[other]); }
    if b in orphans { var j :| 0 <= j < |orphans| && orphans[j] == b; }
  }

  /** Two runs of one id after a lost lock: the first fails, and its rollback voids the batch of the second, still at work. */
  lemma SameIdVoidsTheOther() returns (states: seq<State>, actions: seq<Action>)
    ensures Execution(states, actions) && Initial(states[0])
    ensures var last := states[|actions|];
            1 in last.runs && last.runs[1].phase.Filling? && Owned(last, 1, 1) && |last.batches| == 2 && last.batches[1].status.Void?
    ensures forall i | 0 <= i < |actions| :: !actions[i].SetByStaff?
  {
    states, actions := FirstPlans("a", 2);
    var more, next := SecondPlans("a", "a", 2);
    Joined(states, actions, more, next);
    states, actions := states + more[1..], actions + next;
    more, next := BothIssue("a", "a", 2);
    Joined(states, actions, more, next);
    states, actions := states + more[1..], actions + next;
    more, next := FirstRollsBack(states[|actions|]);
    Joined(states, actions, more, next);
    states, actions := states + more[1..], actions + next;
  }

  lemma FirstRollsBack(s: State) returns (states: seq<State>, actions: seq<Action>)
    requires |s.batches| == 2 && OfRun(s.batches[0].tag, "a") && OfRun(s.batches[1].tag, "a")
    requires s.batches[0].status.Generated? && s.batches[1].status.Generated?
    requires s.runs.Keys == {0, 1} && s.runs[0] == OneCode("a", 2, Filling(0, 0, 1))
    ensures |states| == 4 && Execution(states, actions) && states[0] == s && forall i | 0 <= i < |actions| :: !actions[i].SetByStaff?
    ensures 1 in states[3].runs && states[3].runs[1] == s.runs[1] && states[3].owner == s.owner
    ensures |states[3].batches| == 2 && states[3].batches[1].status.Void?
  {
    BothAreOrphans(s.batches);
    actions := [Fail(0), VoidOne(0), VoidOne(0)];
    var t := Do(s, actions[0]);
    assert t.runs[0].phase.orphans == [0, 1];
    var u := Do(t, actions[1]);
    assert u.runs[0].phase.orphans == [1] && u.batches[1] == s.batches[1];
    states := [s, t, u, Do(u, actions[2])];
  }

  lemma BothAreOrphans(batches: seq<BatchRow>)
    requires |batches| == 2 && OfRun(batches[0].tag, "a") && OfRun(batches[1].tag, "a")
    ensures Orphans(batches, "a", 2) == [0, 1]
  {
    assert Orphans(batches, "a", 0) == [];
    assert Orphans(batches, "a", 1) == [0];
  }

  /** The run that takes a step, if one does. */
  function RunOf(a: Action): Option<nat> {
    if a.Start? || a.DirectBatch? || a.DirectFill? || a.SetByStaff? then None else Some(a.run)
  }

  /** The step is another run's, of another id, or nobody's. */
  ghost predicate OfAnother(s: State, a: Action, other: nat) {
    RunOf(a).Some? ==> RunOf(a).value != other && !(RunOf(a).value < |s.names| && other < |s.names| && s.names[RunOf(a).value] == s.names[other])
  }

  /** A step of one run leaves the batches of every run of another id, and their codes, alone. */
  lemma RunsKeepToTheirOwn(states: seq<State>, actions: seq<Action>, n: nat, b: nat, other: nat)
    requires Execution(states, actions) && Initial(states[0]) && n < |actions|
    requires Owned(states[n], b, other) && !actions[n].SetByStaff? && OfAnother(states[n], actions[n], other)
    ensures b < |states[n].batches| <= |states[n + 1].batches| && states[n + 1].batches[b] == states[n].batches[b]
    ensures BatchCodes(states[n + 1].codes, b) == BatchCodes(states[n].codes, b)
  {
    AlwaysInv(states, actions, n);
    AlwaysNamed(states, actions, n);
    OwnBatchesOnly(states[n], actions[n], b, other);
  }

  /** While no run starts with the id of one at work, every run that has written a batch has an id of its own. */
  lemma FreshStartsDiffer(states: seq<State>, actions: seq<Action>, n: nat, run: nat, other: nat)
    requires Execution(states, actions) && Initial(states[0]) && n <= |actions|
    requires forall i | 0 <= i < |actions| :: FreshStart(states[i], actions[i])
    requires run in states[n].runs && run != other && HasBatch(states[n], other)
    ensures run < |states[n].names| && other < |states[n].names| && states[n].names[run] != states[n].names[other]
  {
    AlwaysNamed(states, actions, n);
    AlwaysIdsApart(states, actions, n);
    var b: nat :| b < |states[n].batches| && Owned(states[n], b, other);
  }

  lemma OwnBatchesOnly(s: State, a: Action, b: nat, other: nat)
    requires Inv(s) && Named(s) && Enabled(s, a) && !a.SetByStaff? && Owned(s, b, other) && OfAnother(s, a, other)
    ensures b < |s.batches| <= |Do(s, a).batches| && Do(s, a).batches[b] == s.batches[b]
    ensures BatchCodes(Do(s, a).codes, b) == BatchCodes(s.codes, b)
  {
    match a
    case Fill(run, added) => OwnCodesOnly(s, run, added, b, other);
    case VoidOne(run) => OwnVoidsOnly(s, run, b, other);
    case DirectFill(batch, added) => CodesAdded(s.codes, added, batch);
    case _ =>
  }

  lemma OwnCodesOnly(s: State, run: nat, added: set<Code>, b: nat, other: nat)
    requires Inv(s) && Enabled(s, Fill(run, added)) && Owned(s, b, other) && run != other
    ensures Do(s, Fill(run, added)).batches == s.batches && BatchCodes(Do(s, Fill(run, added)).codes, b) == BatchCodes(s.codes, b)
  {
    assert RunOk(s, run, s.runs[run]);
    CodesAdded(s.codes, added, s.runs[run].phase.b);
  }

  lemma OwnVoidsOnly(s: State, run: nat, b: nat, other: nat)
    requires Inv(s) && Named(s) && Enabled(s, VoidOne(run)) && Owned(s, b, other) && run < |s.names| && other < |s.names|
    requires s.names[run] != s.names[other]
    ensures b < |s.batches| == |Do(s, VoidOne(run)).batches| && Do(s, VoidOne(run)).batches[b] == s.batches[b]
    ensures Do(s, VoidOne(run)).codes == s.codes
  {
    assert RunOk(s, run, s.runs[run]);
    if b == s.runs[run].phase.orphans[0] { LabelsTellRunsApart(s.batches[b].tag, s.names[run], s.names[other]); }
  }

  /** A batch becomes redeemable by a staff decision and in no other way, so a run that was only abandoned has released nothing. */
  lemma OnlyStaffActivates(s: State, a: Action, b: nat)
    requires Inv(s) && Enabled(s, a) && b < |Do(s, a).batches| && Do(s, a).batches[b].status.Active?
    ensures (b < |s.batches| && s.batches[b].status.Active?) || a == SetByStaff(b, Tables.Active)
  {
  }
}
