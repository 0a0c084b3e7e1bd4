/**
 One print run: the advisory lock is held, so nobody else starts one meanwhile. A fresh
 run id, the allocation against the quota, one batch of new random codes for each flavor,
 and a rollback by label when anything goes wrong. Every call that may fail does so or
 not, as it pleases.
 */
module PrintRuns {
  import opened Prelude
  import opened Allocation
  import opened Decimals
  import Codes
  import Tables

  type Code = string
  type Status = Tables.Status

  const INSERT_CHUNK := 2_000
  const MAX_QUANTITY := 5_000_000

  /** A row of `code_batches`; its id is its place in the table. */
  datatype BatchRow = BatchRow(sku: nat, tag: string, quantity: nat, coins: int, status: Status)

  datatype Failure = Interrupted | BadQuantity | BadCoins

  // ------------------------------------------------------------------ run ids

  /** The candidates in the order they are tried: the base, then `base-2`, `base-3` and so on. */
  function Candidate(base: string, suffix: nat): string {
    if suffix <= 1 then base else base + "-" + Decimal(suffix)
  }

  lemma CandidatesDiffer(base: string, i: nat, j: nat)
    requires 1 <= i < j
    ensures Candidate(base, i) != Candidate(base, j)
  {
    if i > 1 && Candidate(base, i) == Candidate(base, j) {
      assert Decimal(i) == Candidate(base, i)[|base| + 1..] == Candidate(base, j)[|base| + 1..] == Decimal(j);
      DecimalIsInjective(i, j);
    }
  }

  lemma CandidateHasNoSpace(base: string, suffix: nat)
    requires ' ' !in base
    ensures ' ' !in Candidate(base, suffix)
  {
  }

  /** `label.startswith(f"{id} ")`: how a run finds its batches again. */
  predicate OfRun(tag: string, id: string) { id + " " <= tag }

  function FirstSpace(text: string): nat {
    if text == [] || text[0] == ' ' then 0 else 1 + FirstSpace(text[1..])
  }

  lemma {:induction false} IdEndsAtFirstSpace(tag: string, id: string)
    requires ' ' !in id && OfRun(tag, id)
    ensures FirstSpace(tag) == |id| <= |tag| && tag[..|id|] == id
  {
    assert tag[..|id| + 1] == id + " ";
    if id == [] {
      assert tag[0] == ' ';
    } else {
      assert tag[0] == id[0];
      assert id + " " == [id[0]] + (id[1..] + " ");
      IdEndsAtFirstSpace(tag[1..], id[1..]);
      assert tag[..|id|] == [tag[0]] + tag[1..][..|id| - 1];
    }
  }

  /** A label belongs to one run only. */
  lemma LabelsTellRunsApart(tag: string, i: string, j: string)
    requires ' ' !in i && ' ' !in j && OfRun(tag, i) && OfRun(tag, j)
    ensures i == j
  {
    IdEndsAtFirstSpace(tag, i);
    IdEndsAtFirstSpace(tag, j);
  }

  predicate Taken(batches: seq<BatchRow>, id: string) {
    exists b | 0 <= b < |batches| :: OfRun(batches[b].tag, id)
  }

  function Tags(batches: seq<BatchRow>): set<string> {
    set b | 0 <= b < |batches| :: batches[b].tag
  }

  /** Each label seen belongs to a candidate tried before. */
  ghost predicate SeenBefore(base: string, suffix: nat, seen: set<string>) {
    forall tag | tag in seen :: exists i :: 1 <= i < suffix && OfRun(tag, Candidate(base, i))
  }

  /** Every candidate before the `n`th is taken. */
  ghost predicate AllTaken(batches: seq<BatchRow>, base: string, n: nat) {
    forall i | 1 <= i < n :: Taken(batches, Candidate(base, i))
  }

  lemma OneMoreTaken(batches: seq<BatchRow>, base: string, n: nat)
    requires AllTaken(batches, base, n) && Taken(batches, Candidate(base, n))
    ensures AllTaken(batches, base, n + 1)
  {
  }

  /** A taken candidate shows a label that none of the earlier ones did. */
  lemma SeeAnother(batches: seq<BatchRow>, base: string, suffix: nat, seen: set<string>) returns (more: set<string>)
    requires ' ' !in base && suffix >= 1 && SeenBefore(base, suffix, seen) && seen <= Tags(batches)
    requires Taken(batches, Candidate(base, suffix))
    ensures SeenBefore(base, suffix + 1, more) && more <= Tags(batches)
    ensures |Tags(batches) - more| < |Tags(batches) - seen|
  {
    var b :| 0 <= b < |batches| && OfRun(batches[b].tag, Candidate(base, suffix));
    var tag := batches[b].tag;
    if tag in seen {
      var i :| 1 <= i < suffix && OfRun(tag, Candidate(base, i));
      CandidateHasNoSpace(base, i);
      CandidateHasNoSpace(base, suffix);
      LabelsTellRunsApart(tag, Candidate(base, i), Candidate(base, suffix));
      CandidatesDiffer(base, i, suffix);
    }
    more := seen + {tag};
    Smaller(Tags(batches) - more, Tags(batches) - seen);
  }

  // ----------------------------------------------------------------- the store

  function Issued(batches: seq<BatchRow>, sku: nat): nat {
    if batches == [] then 0
    else
      var last := batches[|batches| - 1];
      Issued(batches[..|batches| - 1], sku) + if last.sku == sku then last.quantity else 0
  }

  function BatchCodes(codes: map<Code, nat>, b: nat): set<Code> {
    set c | c in codes && codes[c] == b
  }

  ghost predicate DrawsOutside(draws: nat -> Code, taken: set<Code>, p: nat) {
    exists q :: q >= p && draws(q) !in taken
  }

  /** However far the generator got, it can still draw a code outside any set of fewer than `n`. */
  ghost predicate Plentiful(draws: nat -> Code, n: int) {
    forall taken: set<Code>, p: nat | |taken| < n :: DrawsOutside(draws, taken, p)
  }

  lemma NextNew(draws: nat -> Code, n: int, taken: set<Code>, p: nat) returns (q: nat)
    requires Plentiful(draws, n) && |taken| < n
    ensures q >= p && draws(q) !in taken
  {
    assert DrawsOutside(draws, taken, p);
    q :| q >= p && draws(q) !in taken;
  }

  /** What generation may do to the tables: add batches and codes of those batches. */
  ghost predicate Adds(b0: seq<BatchRow>, c0: map<Code, nat>, b1: seq<BatchRow>, c1: map<Code, nat>) {
    && |b0| <= |b1|
    && (forall c | c in c0 :: c in c1 && c1[c] == c0[c])
    && (forall c | c in c1 && c !in c0 :: |b0| <= c1[c] < |b1|)
  }

  ghost predicate CodesInBatches(batches: seq<BatchRow>, codes: map<Code, nat>) {
    forall c | c in codes :: codes[c] < |batches|
  }

  lemma NoCodesYet(batches: seq<BatchRow>, codes: map<Code, nat>, b: nat)
    requires CodesInBatches(batches, codes) && b >= |batches|
    ensures BatchCodes(codes, b) == {}
  {
  }

  // ------------------------------------------------------------ planned batches

  /** The flavors among the first `n` that get codes, in order. */
  function Served(counts: seq<int>, n: nat): (skus: seq<nat>)
    requires n <= |counts|
    ensures forall j | 0 <= j < |skus| :: skus[j] < n && counts[skus[j]] > 0
    ensures forall i | 0 <= i < n && counts[i] > 0 :: i in skus
    ensures forall i, j | 0 <= i < j < |skus| :: skus[i] < skus[j]
  {
    if n == 0 then []
    else Served(counts, n - 1) + if counts[n - 1] > 0 then [n - 1] else []
  }

  function SkuName(sku: nat): string {
    if sku == 0 then "paris" else if sku == 1 then "berlin" else if sku == 2 then "pattaya"
    else if sku == 3 then "mexico" else if sku == 4 then "madrid" else if sku == 5 then "tokyo" else "moscow"
  }

  function Label(id: string, sku: nat, quantity: nat, k: nat): string {
    id + " " + (SkuName(sku) + " " + Decimal(quantity) + "/" + Decimal(k))
  }

  /** The batches after the old ones are the planned ones, as far as they go, whatever their status. */
  ghost predicate Planned(b0: seq<BatchRow>, b1: seq<BatchRow>, id: string, counts: seq<int>, skus: seq<nat>) {
    && |b1| == |b0| + |skus| && (forall j | 0 <= j < |skus| :: skus[j] < |counts|)
    && forall b | |b0| <= b < |b1| ::
         b1[b].sku == skus[b - |b0|] && b1[b].quantity == counts[b1[b].sku] && OfRun(b1[b].tag, id)
  }

  /** A run cut short has issued nothing or its whole allotment of a flavor. */
  lemma {:induction false} PlannedIssue(b0: seq<BatchRow>, b1: seq<BatchRow>, id: string, counts: seq<int>, skus: seq<nat>, sku: nat)
    requires Planned(b0, b1, id, counts, skus) && (forall j | 0 <= j < |b0| :: b1[j].sku == b0[j].sku && b1[j].quantity == b0[j].quantity)
    requires forall i, j | 0 <= i < j < |skus| :: skus[i] < skus[j]
    ensures Issued(b1, sku) == Issued(b0, sku) + if sku in skus then counts[sku] else 0
  {
    if skus == [] {
      SameIssue(b0, b1, sku);
    } else {
      var n, m := |b1| - 1, |skus| - 1;
      PlannedIssue(b0, b1[..n], id, counts, skus[..m], sku);
      assert sku in skus <==> sku in skus[..m] || sku == skus[m];
      assert sku in skus[..m] ==> sku < skus[m];
    }
  }

  lemma {:induction false} SameIssue(b0: seq<BatchRow>, b1: seq<BatchRow>, sku: nat)
    requires |b0| == |b1| && forall j | 0 <= j < |b0| :: b1[j].sku == b0[j].sku && b1[j].quantity == b0[j].quantity
    ensures Issued(b1, sku) == Issued(b0, sku)
  {
    if b0 != [] { SameIssue(b0[..|b0| - 1], b1[..|b1| - 1], sku); }
  }

  datatype RunResult =
    | Done(id: string, counts: seq<int>)
    | Refused(refusal: Refusal)
    | Failed(id: string, counts: seq<int>, rolledBack: bool)

  /** `issued_per_city`: every batch counts, whatever its status. */
  function IssuedPerCity(batches: seq<BatchRow>): (s: seq<int>)
    ensures |s| == |SKU_ORDER| && forall i | 0 <= i < |s| :: s[i] == Issued(batches, i)
  {
    seq(|SKU_ORDER|, i requires 0 <= i < |SKU_ORDER| => Issued(batches, i))
  }

  /** No flavor went past its quota, or past where it already was. */
  ghost predicate QuotaHeld(b0: seq<BatchRow>, b1: seq<BatchRow>, quota: int) {
    forall sku: nat | sku < |SKU_ORDER| :: Issued(b1, sku) <= Max(quota, Issued(b0, sku))
  }

  /** A generation that went through made every batch; one that did not was cut short. */
  ghost predicate Generated(
    b0: seq<BatchRow>, b1: seq<BatchRow>, codes: map<Code, nat>, id: string, k: nat, counts: seq<int>, coins: int, r: RunResult)
  {
    match r
    case Done(_, _) => Complete(b0, b1, codes, id, k, counts, coins, Served(counts, |counts|))
    case Failed(_, _, done) => CutShort(b0, b1, codes, id, counts, done)
    case Refused(_) => false
  }

  /** What each answer of `run_print_run` says about the tables. */
  ghost predicate RunMeans(
    b0: seq<BatchRow>, c0: map<Code, nat>, b1: seq<BatchRow>, c1: map<Code, nat>, k: int, weights: map<City, real>, coins: int, r: RunResult)
  {
    match r
    case Refused(_) => b1 == b0 && c1 == c0
    case Done(id, counts) =>
      && !Taken(b0, id) && k >= 1 && LargestRemainder(Exact(weights, k), k, counts) && Adds(b0, c0, b1, c1)
      && Complete(b0, b1, c1, id, k, counts, coins, Served(counts, |counts|))
    case Failed(id, counts, rolledBack) =>
      !Taken(b0, id) && Adds(b0, c0, b1, c1) && CutShort(b0, b1, c1, id, counts, rolledBack)
  }

  predicate MayBecome(from: Status, target: Status) {
    (target.Active? && from.Generated?) || (target.Void? && (from.Generated? || from.Active?))
  }

  /** The batches whose label starts with the run id, among the first `n`. */
  function Orphans(batches: seq<BatchRow>, id: string, n: nat): (ids: seq<nat>)
    requires n <= |batches|
    ensures forall j | 0 <= j < |ids| :: ids[j] < n && OfRun(batches[ids[j]].tag, id)
    ensures forall b | 0 <= b < n && OfRun(batches[b].tag, id) :: b in ids
  {
    if n == 0 then []
    else Orphans(batches, id, n - 1) + if OfRun(batches[n - 1].tag, id) then [n - 1] else []
  }

  /** Nothing changed but the status of batches of the run, which may have become void. */
  ghost predicate Voided(b0: seq<BatchRow>, b1: seq<BatchRow>, id: string) {
    && |b1| == |b0|
    && forall b | 0 <= b < |b0| :: b1[b] == b0[b] || (OfRun(b0[b].tag, id) && b1[b] == b0[b].(status := Tables.Void))
  }

  function PlannedRow(id: string, k: nat, counts: seq<int>, coins: int, sku: nat): BatchRow
    requires sku < |counts| && counts[sku] > 0
  {
    BatchRow(sku, Label(id, sku, counts[sku], k), counts[sku], coins, Tables.Generated)
  }

  /** After the old batches stand those of the flavors `skus`, each with exactly its codes. */
  ghost predicate Complete(
    b0: seq<BatchRow>, b1: seq<BatchRow>, codes: map<Code, nat>, id: string, k: nat, counts: seq<int>, coins: int, skus: seq<nat>)
  {
    && b0 <= b1 && |b1| == |b0| + |skus| && (forall j | 0 <= j < |skus| :: skus[j] < |counts| && counts[skus[j]] > 0)
    && forall b | |b0| <= b < |b1| ::
         && b1[b] == PlannedRow(id, k, counts, coins, skus[b - |b0|])
         && |BatchCodes(codes, b)| == b1[b].quantity
  }

  /** The old batches are as they were; after them some of the planned ones, none with too many codes, none active. */
  ghost predicate CutBefore(
    b0: seq<BatchRow>, b1: seq<BatchRow>, codes: map<Code, nat>, id: string, counts: seq<int>, skus: seq<nat>)
  {
    && b0 <= b1 && Planned(b0, b1, id, counts, skus)
    && (forall i, j | 0 <= i < j < |skus| :: skus[i] < skus[j])
    && (forall b | |b0| <= b < |b1| :: !b1[b].status.Active? && |BatchCodes(codes, b)| <= b1[b].quantity)
  }

  /** A failed run; when the rollback went through, all its batches are void. */
  ghost predicate CutShort(b0: seq<BatchRow>, b1: seq<BatchRow>, codes: map<Code, nat>, id: string, counts: seq<int>, done: bool) {
    && (exists skus :: CutBefore(b0, b1, codes, id, counts, skus))
    && (done ==> forall b | |b0| <= b < |b1| :: b1[b].status.Void?)
  }

  class Store {
    var batches: seq<BatchRow>
    var codes: map<Code, nat>

    constructor ()
      ensures batches == [] && codes == map[]
    {
      batches, codes := [], map[];
    }

    /** `unique_run_id`: the first candidate that no label starts with. */
    method UniqueRunId(base: string) returns (id: string)
      requires ' ' !in base
      ensures !Taken(batches, id) && ' ' !in id
      ensures exists n :: n >= 1 && id == Candidate(base, n) && AllTaken(batches, base, n)
    {
      var suffix := 1;
      ghost var seen: set<string> := {};
      id := base;
      while Taken(batches, id)
        invariant suffix >= 1 && id == Candidate(base, suffix) && ' ' !in id
        invariant AllTaken(batches, base, suffix)
        invariant SeenBefore(base, suffix, seen) && seen <= Tags(batches)
        decreases |Tags(batches) - seen|
      {
        seen := SeeAnother(batches, base, suffix, seen);
        OneMoreTaken(batches, base, suffix);
        suffix := suffix + 1;
        id := base + "-" + Decimal(suffix);
        CandidateHasNoSpace(base, suffix);
      }
    }

    /** The codes drawn until `count` different ones are there: `build_unique_codes`. */
    method BuildUniqueCodes(count: nat, draws: nat -> Code, start: nat) returns (drawn: set<Code>, next: nat)
      requires Plentiful(draws, count)
      ensures |drawn| == count && start <= next && (count > 0 ==> start < next)
      ensures forall p | start <= p < next :: draws(p) in drawn
      ensures forall c | c in drawn :: exists p :: start <= p < next && draws(p) == c
    {
      drawn, next := {}, start;
      ghost var target: nat := start;
      if count > 0 { target := NextNew(draws, count, drawn, next); }
      while |drawn| < count
        invariant |drawn| <= count && start <= next && (drawn != {} ==> start < next)
        invariant forall p | start <= p < next :: draws(p) in drawn
        invariant forall c | c in drawn :: exists p :: start <= p < next && draws(p) == c
        invariant |drawn| < count ==> target >= next && draws(target) !in drawn
        decreases count - |drawn|, target - next
      {
        var c := draws(next);
        ghost var known := c in drawn;
        assert known ==> drawn + {c} == drawn;
        drawn, next := drawn + {c}, next + 1;
        if !known && |drawn| < count { target := NextNew(draws, count, drawn, next); }
      }
    }

    /** `insert_codes`: those whose hash is already there are skipped. */
    method InsertCodes(b: nat, candidates: set<Code>) returns (inserted: set<Code>)
      modifies this`codes
      ensures inserted == candidates - old(codes).Keys
      ensures codes.Keys == old(codes).Keys + inserted
      ensures forall c | c in codes :: codes[c] == if c in inserted then b else old(codes)[c]
    {
      inserted := candidates - codes.Keys;
      codes := codes + map c | c in inserted :: b;
    }

    /** One chunk: candidates drawn and inserted; nothing new only when the next new code is still to come. */
    method InsertChunk(b: nat, remaining: nat, draws: nat -> Code, start: nat, ghost c0: map<Code, nat>, ghost rows: set<Code>, ghost target: nat)
      returns (inserted: set<Code>, next: nat)
      requires remaining > 0 && Plentiful(draws, remaining) && Filled(c0, codes, b, rows)
      requires start <= target && draws(target) !in codes.Keys
      modifies this`codes
      ensures Filled(c0, codes, b, rows + inserted) && |rows + inserted| == |rows| + |inserted| && |inserted| <= remaining
      ensures start <= next && (inserted == {} ==> codes == old(codes) && start < next <= target)
    {
      var wanted := if remaining < INSERT_CHUNK then remaining else INSERT_CHUNK;
      ghost var before := codes;
      var candidates;
      candidates, next := BuildUniqueCodes(wanted, draws, start);
      inserted := InsertCodes(b, candidates);
      FillMore(c0, before, codes, b, rows, inserted);
      Smaller(inserted, candidates);
    }

    /** `generate_batch`: the row first, then chunks of codes until the quantity is reached. */
    method GenerateBatch(sku: nat, quantity: nat, coins: int, tag: string, draws: nat -> Code, start: nat)
      returns (r: Result<set<Code>, Failure>, next: nat)
      requires CodesInBatches(batches, codes) && Plentiful(draws, |codes| + quantity)
      modifies this
      ensures Adds(old(batches), old(codes), batches, codes) && CodesInBatches(batches, codes)
      ensures batches == old(batches) || batches == old(batches) + [BatchRow(sku, tag, quantity, coins, Tables.Generated)]
      ensures |BatchCodes(codes, |old(batches)|)| <= quantity && |codes| <= |old(codes)| + quantity
      ensures r.Ok? ==> |batches| == |old(batches)| + 1 && r.value == BatchCodes(codes, |old(batches)|) && |r.value| == quantity
      ensures r.Ok? ==> r.value !! old(codes).Keys && |codes| == |old(codes)| + quantity
      ensures r == Err(BadQuantity) <==> !(0 < quantity <= MAX_QUANTITY)
      ensures r == Err(BadCoins) <==> 0 < quantity <= MAX_QUANTITY && coins < 0
      ensures r == Err(BadQuantity) || r == Err(BadCoins) ==> batches == old(batches) && codes == old(codes)
    {
      next := start;
      NoCodesYet(batches, codes, |batches|);
      if !(0 < quantity <= MAX_QUANTITY) { return Err(BadQuantity), next; }
      if coins < 0 { return Err(BadCoins), next; }
      if * { return Err(Interrupted), next; }
      ghost var c0, b0 := codes, batches;
      var b := |batches|;
      batches := batches + [BatchRow(sku, tag, quantity, coins, Tables.Generated)];
      var remaining, rows := quantity, {};
      FilledFacts(b0, c0, codes, b, {});
      ghost var target := NextNew(draws, |c0| + quantity, codes.Keys, next);
      while remaining > 0
        invariant batches == b0 + [BatchRow(sku, tag, quantity, coins, Tables.Generated)] && b == |b0|
        invariant 0 <= remaining <= quantity && |rows| == quantity - remaining
        invariant Filled(c0, codes, b, rows)
        invariant remaining > 0 ==> target >= next && draws(target) !in codes.Keys
        decreases remaining, target - next
      {
        FilledFacts(b0, c0, codes, b, rows);
        if * { return Err(Interrupted), next; }
        var inserted;
        inserted, next := InsertChunk(b, remaining, draws, next, c0, rows, target);
        rows := rows + inserted;
        remaining := remaining - |inserted|;
        FilledFacts(b0, c0, codes, b, rows);
        if inserted != {} && remaining > 0 { target := NextNew(draws, |c0| + quantity, codes.Keys, next); }
      }
      FilledFacts(b0, c0, codes, b, rows);
      if * { return Err(Interrupted), next; }
      r := Ok(rows);
    }

    /** `set_status`: false when the batch is not there or not in a status it may leave. */
    method SetStatus(b: nat, target: Status) returns (changed: bool)
      modifies this`batches
      ensures changed <==> b < |old(batches)| && MayBecome(old(batches)[b].status, target)
      ensures batches == if changed then old(batches)[b := old(batches)[b].(status := target)] else old(batches)
    {
      if b >= |batches| || !MayBecome(batches[b].status, target) { return false; }
      batches := batches[b := batches[b].(status := target)];
      changed := true;
    }

    /** Voids every batch of the run, found by label; false when that failed half-way. */
    method Rollback(id: string) returns (done: bool)
      modifies this`batches
      ensures Voided(old(batches), batches, id)
      ensures done ==> forall b | 0 <= b < |batches| && OfRun(batches[b].tag, id) :: batches[b].status.Void?
    {
      ghost var b0 := batches;
      var orphans := Orphans(batches, id, |batches|);
      for i := 0 to |orphans|
        invariant Voided(b0, batches, id)
        invariant forall j | 0 <= j < i :: batches[orphans[j]].status.Void?
      {
        if * { return false; }
        var _ := SetStatus(orphans[i], Tables.Void);
      }
      done := true;
    }

    /** One flavor of `_generate_all`: its batch, the digest of the file and the freeze. */
    method MakeBatch(id: string, k: nat, counts: seq<int>, coins: int, sku: nat, draws: nat -> Code, start: nat,
                     ghost b0: seq<BatchRow>, ghost c0: map<Code, nat>)
      returns (made: bool, next: nat)
      requires sku < |counts| && counts[sku] > 0 && Plentiful(draws, |codes| + counts[sku])
      requires Progress(b0, c0, batches, codes, id, k, counts, coins, sku)
      modifies this
      ensures Adds(b0, c0, batches, codes) && CodesInBatches(batches, codes)
      ensures made ==> Progress(b0, c0, batches, codes, id, k, counts, coins, sku + 1)
      ensures !made ==> exists skus :: CutBefore(b0, batches, codes, id, counts, skus)
    {
      ghost var b1, c1 := batches, codes;
      var r;
      r, next := GenerateBatch(sku, counts[sku], coins, Label(id, sku, counts[sku], k), draws, start);
      AddsOnward(b0, c0, b1, c1, batches, codes);
      if r.Ok? { OneMoreDone(b0, b1, c1, batches, codes, id, k, counts, coins, sku); }
      OneMoreCut(b0, b1, c1, batches, codes, id, k, counts, coins, sku);
      SumOnward(counts, sku);
      made := r.Ok?;
      if * { made := false; }
    }

    /** `_generate_all`: a batch for each flavor served, frozen, or the rollback. */
    method GenerateAll(id: string, k: nat, counts: seq<int>, coins: int, draws: nat -> Code)
      returns (r: Result<nat, bool>)
      requires |counts| == |SKU_ORDER| && (forall i | 0 <= i < |counts| :: counts[i] >= 0)
      requires CodesInBatches(batches, codes) && !Taken(batches, id) && Plentiful(draws, |codes| + Sum(counts))
      modifies this
      ensures Adds(old(batches), old(codes), batches, codes) && CodesInBatches(batches, codes)
      ensures match r
              case Ok(_) => Complete(old(batches), batches, codes, id, k, counts, coins, Served(counts, |counts|))
              case Err(done) => CutShort(old(batches), batches, codes, id, counts, done)
    {
      ghost var b0, c0 := batches, codes;
      var at := 0;
      for sku := 0 to |counts|
        invariant Progress(b0, c0, batches, codes, id, k, counts, coins, sku)
      {
        if counts[sku] == 0 {
          NothingForThis(b0, c0, batches, codes, id, k, counts, coins, sku);
        } else {
          EnoughDraws(draws, |c0|, counts, sku);
          var made;
          made, at := MakeBatch(id, k, counts, coins, sku, draws, at, b0, c0);
          if !made {
            ghost var b1 := batches;
            var done := Rollback(id);
            RolledBack(b0, b1, batches, codes, id, counts, done);
            return Err(done);
          }
        }
      }
      r := Ok(at);
    }

    /** `run_print_run` from the advisory lock to its release. */
    method RunPrintRun(k: int, weights: map<City, real>, coins: int, base: string, quota: int, draws: nat -> Code)
      returns (r: RunResult)
      requires ' ' !in base && CodesInBatches(batches, codes) && Plentiful(draws, |codes| + k)
      modifies this
      ensures CodesInBatches(batches, codes) && QuotaHeld(old(batches), batches, quota)
      ensures RunMeans(old(batches), old(codes), batches, codes, k, weights, coins, r)
    {
      var id := UniqueRunId(base);
      var issued := IssuedPerCity(batches);
      var plan := PlanRun(k, weights, issued, quota);
      if plan.Err? {
        ForUnchanged(batches, quota);
        return Refused(plan.error);
      }
      CountsFit(k, weights, plan.value);
      // The output directory is there already.
      if * {
        ForUnchanged(batches, quota);
        NothingMade(batches, codes, id, plan.value);
        return Failed(id, plan.value, true);
      }
      r := GenerateRun(id, k, plan.value, coins, quota, draws);
    }

    /** The generation of an accepted plan, and what it means for the quota. */
    method GenerateRun(id: string, k: nat, counts: seq<int>, coins: int, quota: int, draws: nat -> Code) returns (r: RunResult)
      requires |counts| == |SKU_ORDER| && (forall i | 0 <= i < |counts| :: counts[i] >= 0)
      requires forall i: nat | i < |counts| :: counts[i] <= Max(quota - Issued(batches, i), 0)
      requires CodesInBatches(batches, codes) && !Taken(batches, id) && Plentiful(draws, |codes| + Sum(counts))
      modifies this
      ensures CodesInBatches(batches, codes) && Adds(old(batches), old(codes), batches, codes) && QuotaHeld(old(batches), batches, quota)
      ensures r == Done(id, counts) || r == Failed(id, counts, true) || r == Failed(id, counts, false)
      ensures Generated(old(batches), batches, codes, id, k, counts, coins, r)
    {
      ghost var b0 := batches;
      var made := GenerateAll(id, k, counts, coins, draws);
      r := if made.Ok? then Done(id, counts) else Failed(id, counts, made.error);
      QuotaKept(b0, batches, codes, id, k, counts, coins, quota, r);
    }
  }

  // ------------------------------------------------------------- loop lemmas

  lemma Smaller<T>(a: set<T>, b: set<T>)
    requires a <= b
    ensures |a| <= |b| && (a != b ==> |a| < |b|)
  {
    var rest := b - a;
    assert b == a + rest;
  }

  /** `codes` is `c0` with exactly the new codes `rows`, all of batch `b`. */
  ghost predicate Filled(c0: map<Code, nat>, codes: map<Code, nat>, b: nat, rows: set<Code>) {
    && codes.Keys == c0.Keys + rows && rows !! c0.Keys
    && (forall c | c in c0 :: codes[c] == c0[c])
    && (forall c | c in rows :: codes[c] == b)
  }

  lemma FillMore(c0: map<Code, nat>, before: map<Code, nat>, codes: map<Code, nat>, b: nat, rows: set<Code>, inserted: set<Code>)
    requires Filled(c0, before, b, rows) && inserted !! before.Keys
    requires codes.Keys == before.Keys + inserted && forall c | c in codes :: codes[c] == if c in inserted then b else before[c]
    ensures Filled(c0, codes, b, rows + inserted) && |rows + inserted| == |rows| + |inserted|
    ensures inserted == {} ==> codes == before
  {
  }

  lemma FilledFacts(b0: seq<BatchRow>, c0: map<Code, nat>, codes: map<Code, nat>, b: nat, rows: set<Code>)
    requires Filled(c0, codes, b, rows) && CodesInBatches(b0, c0) && b == |b0|
    ensures BatchCodes(codes, b) == rows && |codes| == |c0| + |rows| && |codes.Keys| == |codes|
    ensures forall c | c in codes :: codes[c] <= b
  {
    assert |c0.Keys + rows| == |c0.Keys| + |rows|;
  }

  // -------------------------------------------------------------- run lemmas

  /** The first `n` flavors are done. */
  ghost predicate Progress(
    b0: seq<BatchRow>, c0: map<Code, nat>, b1: seq<BatchRow>, c1: map<Code, nat>,
    id: string, k: nat, counts: seq<int>, coins: int, n: nat)
  {
    && n <= |counts| && Adds(b0, c0, b1, c1) && CodesInBatches(b1, c1)
    && Complete(b0, b1, c1, id, k, counts, coins, Served(counts, n))
    && |c1| == |c0| + Sum(counts[..n])
  }

  lemma SumOnward(counts: seq<int>, n: nat)
    requires n < |counts|
    ensures Sum(counts[..n + 1]) == Sum(counts[..n]) + counts[n]
  {
    assert counts[..n + 1][..n] == counts[..n];
  }

  lemma NothingForThis(
    b0: seq<BatchRow>, c0: map<Code, nat>, b1: seq<BatchRow>, c1: map<Code, nat>,
    id: string, k: nat, counts: seq<int>, coins: int, n: nat)
    requires n < |counts| && counts[n] == 0 && Progress(b0, c0, b1, c1, id, k, counts, coins, n)
    ensures Progress(b0, c0, b1, c1, id, k, counts, coins, n + 1)
  {
    SumOnward(counts, n);
    assert Served(counts, n + 1) == Served(counts, n);
  }

  lemma AddsOnward(b0: seq<BatchRow>, c0: map<Code, nat>, b1: seq<BatchRow>, c1: map<Code, nat>, b2: seq<BatchRow>, c2: map<Code, nat>)
    requires Adds(b0, c0, b1, c1) && Adds(b1, c1, b2, c2)
    ensures Adds(b0, c0, b2, c2)
  {
  }

  lemma EnoughDraws(draws: nat -> Code, old_: nat, counts: seq<int>, sku: nat)
    requires Plentiful(draws, old_ + Sum(counts)) && sku < |counts| && forall i | 0 <= i < |counts| :: counts[i] >= 0
    ensures Sum(counts[..sku]) >= 0 && Plentiful(draws, old_ + Sum(counts[..sku]) + counts[sku])
  {
    PrefixSum(counts, sku);
  }

  lemma {:induction false} PrefixSum(counts: seq<int>, sku: nat)
    requires sku < |counts| && forall i | 0 <= i < |counts| :: counts[i] >= 0
    ensures 0 <= Sum(counts[..sku]) && Sum(counts[..sku]) + counts[sku] <= Sum(counts)
    decreases |counts|
  {
    var n := |counts| - 1;
    if sku < n {
      assert counts[..n][..sku] == counts[..sku];
      PrefixSum(counts[..n], sku);
    } else {
      NonNegativeSum(counts[..n]);
    }
  }

  lemma {:induction false} NonNegativeSum(counts: seq<int>)
    requires forall i | 0 <= i < |counts| :: counts[i] >= 0
    ensures Sum(counts) >= 0
  {
    if counts != [] { NonNegativeSum(counts[..|counts| - 1]); }
  }

  /** Later batches take no codes from earlier ones. */
  lemma BatchCodesKept(b0: seq<BatchRow>, c0: map<Code, nat>, b1: seq<BatchRow>, c1: map<Code, nat>)
    requires Adds(b0, c0, b1, c1)
    ensures forall b: nat | b < |b0| :: BatchCodes(c1, b) == BatchCodes(c0, b)
  {
  }

  lemma LabelIsOfRun(id: string, sku: nat, quantity: nat, k: nat)
    ensures OfRun(Label(id, sku, quantity, k), id)
  {
  }

  lemma CompleteIsCut(b0: seq<BatchRow>, b1: seq<BatchRow>, codes: map<Code, nat>, id: string, k: nat, counts: seq<int>, coins: int, n: nat)
    requires n <= |counts| && Complete(b0, b1, codes, id, k, counts, coins, Served(counts, n))
    ensures CutBefore(b0, b1, codes, id, counts, Served(counts, n))
  {
    var skus := Served(counts, n);
    forall b | |b0| <= b < |b1|
      ensures b1[b].sku == skus[b - |b0|] && b1[b].quantity == counts[b1[b].sku] && OfRun(b1[b].tag, id)
    {
      LabelIsOfRun(id, skus[b - |b0|], counts[skus[b - |b0|]], k);
    }
  }

  lemma OneMoreDone(
    b0: seq<BatchRow>, b1: seq<BatchRow>, c1: map<Code, nat>, b2: seq<BatchRow>, c2: map<Code, nat>,
    id: string, k: nat, counts: seq<int>, coins: int, sku: nat)
    requires sku < |counts| && counts[sku] > 0 && Adds(b1, c1, b2, c2)
    requires Complete(b0, b1, c1, id, k, counts, coins, Served(counts, sku))
    requires b2 == b1 + [PlannedRow(id, k, counts, coins, sku)] && |BatchCodes(c2, |b1|)| == counts[sku]
    ensures Complete(b0, b2, c2, id, k, counts, coins, Served(counts, sku + 1))
  {
    StillComplete(b0, b1, c1, b2, c2, id, k, counts, coins, sku);
    var skus := Served(counts, sku);
    assert Served(counts, sku + 1) == skus + [sku];
    CompleteSnoc(b0, b1, c2, id, k, counts, coins, skus, sku);
  }

  /** Another complete batch after the ones there are. */
  lemma CompleteSnoc(
    b0: seq<BatchRow>, b1: seq<BatchRow>, codes: map<Code, nat>, id: string, k: nat, counts: seq<int>, coins: int, skus: seq<nat>, sku: nat)
    requires sku < |counts| && counts[sku] > 0 && Complete(b0, b1, codes, id, k, counts, coins, skus)
    requires |BatchCodes(codes, |b1|)| == counts[sku]
    ensures Complete(b0, b1 + [PlannedRow(id, k, counts, coins, sku)], codes, id, k, counts, coins, skus + [sku])
  {
    var b2, more := b1 + [PlannedRow(id, k, counts, coins, sku)], skus + [sku];
    forall b | |b0| <= b < |b2|
      ensures b2[b] == PlannedRow(id, k, counts, coins, more[b - |b0|]) && |BatchCodes(codes, b)| == b2[b].quantity
    {
      if b < |b1| { assert b2[b] == b1[b] && more[b - |b0|] == skus[b - |b0|]; }
    }
  }

  /** One more flavor, as far as it got. */
  lemma OneMoreCut(
    b0: seq<BatchRow>, b1: seq<BatchRow>, c1: map<Code, nat>, b2: seq<BatchRow>, c2: map<Code, nat>,
    id: string, k: nat, counts: seq<int>, coins: int, sku: nat)
    requires sku < |counts| && counts[sku] > 0 && Adds(b1, c1, b2, c2)
    requires Complete(b0, b1, c1, id, k, counts, coins, Served(counts, sku))
    requires b2 == b1 || b2 == b1 + [PlannedRow(id, k, counts, coins, sku)]
    requires |BatchCodes(c2, |b1|)| <= counts[sku]
    ensures exists skus :: CutBefore(b0, b2, c2, id, counts, skus)
  {
    StillComplete(b0, b1, c1, b2, c2, id, k, counts, coins, sku);
    if b2 == b1 {
      CompleteIsCut(b0, b1, c2, id, k, counts, coins, sku);
    } else {
      CutWithOneMore(b0, b1, b2, c2, id, k, counts, coins, sku);
    }
  }

  lemma StillComplete(
    b0: seq<BatchRow>, b1: seq<BatchRow>, c1: map<Code, nat>, b2: seq<BatchRow>, c2: map<Code, nat>,
    id: string, k: nat, counts: seq<int>, coins: int, n: nat)
    requires n <= |counts| && Adds(b1, c1, b2, c2) && Complete(b0, b1, c1, id, k, counts, coins, Served(counts, n))
    ensures Complete(b0, b1, c2, id, k, counts, coins, Served(counts, n))
  {
    BatchCodesKept(b1, c1, b2, c2);
  }

  lemma CutWithOneMore(
    b0: seq<BatchRow>, b1: seq<BatchRow>, b2: seq<BatchRow>, codes: map<Code, nat>, id: string, k: nat, counts: seq<int>, coins: int, sku: nat)
    requires sku < |counts| && counts[sku] > 0
    requires Complete(b0, b1, codes, id, k, counts, coins, Served(counts, sku))
    requires b2 == b1 + [PlannedRow(id, k, counts, coins, sku)] && |BatchCodes(codes, |b1|)| <= counts[sku]
    ensures CutBefore(b0, b2, codes, id, counts, Served(counts, sku + 1))
  {
    CompleteIsCut(b0, b1, codes, id, k, counts, coins, sku);
    LabelIsOfRun(id, sku, counts[sku], k);
    var row := PlannedRow(id, k, counts, coins, sku);
    CutSnoc(b0, b1, row, codes, id, counts, Served(counts, sku));
    assert Served(counts, sku + 1) == Served(counts, sku) + [sku];
  }

  /** Another planned batch, of a later flavor, with not too many codes. */
  lemma CutSnoc(
    b0: seq<BatchRow>, b1: seq<BatchRow>, row: BatchRow, codes: map<Code, nat>, id: string, counts: seq<int>, skus: seq<nat>)
    requires CutBefore(b0, b1, codes, id, counts, skus) && row.sku < |counts| && (forall j | 0 <= j < |skus| :: skus[j] < row.sku)
    requires row.quantity == counts[row.sku] && OfRun(row.tag, id) && !row.status.Active? && |BatchCodes(codes, |b1|)| <= row.quantity
    ensures CutBefore(b0, b1 + [row], codes, id, counts, skus + [row.sku])
  {
    var b2, more := b1 + [row], skus + [row.sku];
    forall b | |b0| <= b < |b2|
      ensures b2[b].sku == more[b - |b0|] && b2[b].quantity == counts[b2[b].sku] && OfRun(b2[b].tag, id)
      ensures !b2[b].status.Active? && |BatchCodes(codes, b)| <= b2[b].quantity
    {
      if b < |b1| { assert b2[b] == b1[b] && more[b - |b0|] == skus[b - |b0|]; }
    }
  }

  /** After the rollback the run is cut short, and the batches of others are as they were. */
  lemma RolledBack(b0: seq<BatchRow>, b1: seq<BatchRow>, b2: seq<BatchRow>, codes: map<Code, nat>, id: string, counts: seq<int>, done: bool)
    requires !Taken(b0, id) && (exists skus :: CutBefore(b0, b1, codes, id, counts, skus)) && Voided(b1, b2, id)
    requires done ==> forall b | 0 <= b < |b2| && OfRun(b2[b].tag, id) :: b2[b].status.Void?
    ensures CutShort(b0, b2, codes, id, counts, done)
  {
    var skus :| CutBefore(b0, b1, codes, id, counts, skus);
    forall b | 0 <= b < |b0| ensures b2[b] == b0[b] {
      assert !OfRun(b0[b].tag, id);
    }
    assert CutBefore(b0, b2, codes, id, counts, skus);
  }

  lemma CountsFit(k: int, weights: map<City, real>, counts: seq<int>)
    requires k >= 1 && ValidateWeights(weights).None? && LargestRemainder(Exact(weights, k), k, counts)
    ensures |counts| == |SKU_ORDER| && (forall i | 0 <= i < |counts| :: counts[i] >= 0) && Sum(counts) == k
  {
    forall i | 0 <= i < |counts| ensures counts[i] >= 0 {
      AllocationIsFair(k, weights, counts, i);
    }
  }

  /** However far a run got, no flavor goes past its quota, or past where it already was. */
  lemma QuotaKept(
    b0: seq<BatchRow>, b1: seq<BatchRow>, codes: map<Code, nat>, id: string, k: nat, counts: seq<int>, coins: int, quota: int, r: RunResult)
    requires Generated(b0, b1, codes, id, k, counts, coins, r)
    requires |counts| == |SKU_ORDER| && forall i: nat | i < |counts| :: counts[i] <= Max(quota - Issued(b0, i), 0)
    ensures QuotaHeld(b0, b1, quota)
  {
    if r.Done? {
      CompleteIsCut(b0, b1, codes, id, k, counts, coins, |counts|);
      CutKeepsQuota(b0, b1, codes, id, counts, Served(counts, |counts|), quota);
    } else {
      var skus :| CutBefore(b0, b1, codes, id, counts, skus);
      CutKeepsQuota(b0, b1, codes, id, counts, skus, quota);
    }
  }

  lemma CutKeepsQuota(
    b0: seq<BatchRow>, b1: seq<BatchRow>, codes: map<Code, nat>, id: string, counts: seq<int>, skus: seq<nat>, quota: int)
    requires CutBefore(b0, b1, codes, id, counts, skus)
    requires |counts| == |SKU_ORDER| && forall i: nat | i < |counts| :: counts[i] <= Max(quota - Issued(b0, i), 0)
    ensures QuotaHeld(b0, b1, quota)
  {
    forall sku: nat | sku < |SKU_ORDER| ensures Issued(b1, sku) <= Max(quota, Issued(b0, sku)) {
      PlannedIssue(b0, b1, id, counts, skus, sku);
    }
  }

  lemma ForUnchanged(batches: seq<BatchRow>, quota: int)
    ensures QuotaHeld(batches, batches, quota)
  {
  }

  lemma NothingMade(batches: seq<BatchRow>, codes: map<Code, nat>, id: string, counts: seq<int>)
    ensures CutShort(batches, batches, codes, id, counts, true)
  {
    assert CutBefore(batches, batches, codes, id, counts, []);
  }
}
