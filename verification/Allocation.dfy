/**
 Splitting a print run over the flavors by largest remainder, and the quota check.

 Weights are exact (`Fraction` in the program, `real` here). Counts, shares and issued
 totals are listed in `SKU_ORDER`.
 */
module Allocation {
  import opened Prelude
  import Codes

  const SKU_ORDER: seq<City> := Codes.CITIES
  const POOL_SIZE := 1_000_000
  const QUOTA_PER_SKU: int := POOL_SIZE / 7

  datatype Shortage = Shortage(sku: nat, wanted: int, remaining: int)
  datatype Refusal = BadK | NegativeWeight | WeightsNotOne | QuotaExceeded(shortages: seq<Shortage>)

  function Sum(s: seq<int>): int {
    if s == [] then 0 else Sum(s[..|s| - 1]) + s[|s| - 1]
  }

  function SumReal(s: seq<real>): real {
    if s == [] then 0.0 else SumReal(s[..|s| - 1]) + s[|s| - 1]
  }

  /** The weights in order; a flavor left out weighs 0. */
  function Weights(weights: map<City, real>): (s: seq<real>)
    ensures |s| == |SKU_ORDER|
  {
    seq(|SKU_ORDER|, i requires 0 <= i < |SKU_ORDER| => if SKU_ORDER[i] in weights then weights[SKU_ORDER[i]] else 0.0)
  }

  function Share(weight: real, k: int): real { weight * k as real }

  function Scaled(weights: seq<real>, k: int): (s: seq<real>)
    ensures |s| == |weights|
  {
    seq(|weights|, i requires 0 <= i < |weights| => Share(weights[i], k))
  }

  /** The exact share of each flavor in a run of `k`. */
  function Exact(weights: map<City, real>, k: int): seq<real> { Scaled(Weights(weights), k) }

  function Remainder(share: real): (r: real)
    ensures 0.0 <= r < 1.0
  {
    share - share.Floor as real
  }

  // ------------------------------------------------------ what is asked for

  /** `i` is served before `j`: the larger remainder first, ties in `SKU_ORDER`. */
  predicate Before(exact: seq<real>, i: int, j: int)
    requires 0 <= i < |exact| && 0 <= j < |exact|
  {
    var a, b := Remainder(exact[i]), Remainder(exact[j]);
    a > b || (a == b && i < j)
  }

  predicate RoundedUp(exact: seq<real>, counts: seq<int>, i: int)
    requires 0 <= i < |exact| == |counts|
  {
    counts[i] == exact[i].Floor + 1
  }

  /** Every share is rounded down or up, whoever is rounded up comes before whoever is not, and the counts make `k`. */
  ghost predicate LargestRemainder(exact: seq<real>, k: int, counts: seq<int>) {
    && |counts| == |exact| && Sum(counts) == k
    && (forall i | 0 <= i < |exact| :: counts[i] == exact[i].Floor || RoundedUp(exact, counts, i))
    && (forall i, j | 0 <= i < |exact| && 0 <= j < |exact| && RoundedUp(exact, counts, i) && !RoundedUp(exact, counts, j) ::
          Before(exact, i, j))
  }

  // ------------------------------------------------------------------- sums

  lemma {:induction false} SumUpdate(s: seq<int>, i: nat, v: int)
    requires i < |s|
    ensures Sum(s[i := v]) == Sum(s) - s[i] + v
  {
    var n := |s| - 1;
    if i < n {
      assert s[i := v][..n] == s[..n][i := v];
      SumUpdate(s[..n], i, v);
    } else {
      assert s[i := v][..n] == s[..n];
    }
  }

  lemma {:induction false} ScaledSum(weights: seq<real>, k: int)
    ensures SumReal(Scaled(weights, k)) == SumReal(weights) * k as real
  {
    if weights != [] {
      var n := |weights| - 1;
      ScaledSum(weights[..n], k);
      assert Scaled(weights, k)[..n] == Scaled(weights[..n], k);
      assert SumReal(weights) * k as real == SumReal(weights[..n]) * k as real + Share(weights[n], k);
    }
  }

  function Floors(exact: seq<real>): (s: seq<int>)
    ensures |s| == |exact|
  {
    seq(|exact|, i requires 0 <= i < |exact| => exact[i].Floor)
  }

  /** Rounding everything down loses less than one per flavor. */
  lemma {:induction false} FloorsSum(exact: seq<real>)
    ensures Sum(Floors(exact)) as real <= SumReal(exact)
    ensures exact != [] ==> SumReal(exact) < (Sum(Floors(exact)) + |exact|) as real
  {
    if exact != [] {
      var n := |exact| - 1;
      assert Floors(exact)[..n] == Floors(exact[..n]);
      FloorsSum(exact[..n]);
    }
  }

  // ------------------------------------------------------- sorted by remainder

  predicate InRange(exact: seq<real>, order: seq<nat>) {
    forall a | 0 <= a < |order| :: order[a] < |exact|
  }

  /** Puts `i` after everything that stays before it. */
  function Insert(exact: seq<real>, order: seq<nat>, i: nat): seq<nat>
    requires i < |exact| && InRange(exact, order)
  {
    if order == [] then [i]
    else if Before(exact, i, order[0]) then [i] + order
    else [order[0]] + Insert(exact, order[1..], i)
  }

  ghost predicate InOrder(exact: seq<real>, order: seq<nat>) {
    && InRange(exact, order)
    && (forall a, b | 0 <= a < b < |order| :: Before(exact, order[a], order[b]))
  }

  lemma {:induction false} InsertKeepsOrder(exact: seq<real>, order: seq<nat>, i: nat)
    requires InOrder(exact, order) && i < |exact| && i !in order
    ensures InOrder(exact, Insert(exact, order, i))
    ensures forall j :: j in Insert(exact, order, i) <==> j == i || j in order
    ensures |Insert(exact, order, i)| == |order| + 1
  {
    if order == [] {
    } else if Before(exact, i, order[0]) {
      BeforeAll(exact, order, i);
      ConsInOrder(exact, i, order);
    } else {
      var rest := Insert(exact, order[1..], i);
      InsertKeepsOrder(exact, order[1..], i);
      HeadStaysFirst(exact, order, i, rest);
      ConsInOrder(exact, order[0], rest);
    }
  }

  lemma ConsInOrder(exact: seq<real>, x: nat, rest: seq<nat>)
    requires InOrder(exact, rest) && x < |exact| && forall b | 0 <= b < |rest| :: Before(exact, x, rest[b])
    ensures InOrder(exact, [x] + rest)
  {
  }

  lemma BeforeAll(exact: seq<real>, order: seq<nat>, i: nat)
    requires InOrder(exact, order) && order != [] && i < |exact| && Before(exact, i, order[0])
    ensures forall b | 0 <= b < |order| :: Before(exact, i, order[b])
  {
    forall b | 0 <= b < |order| ensures Before(exact, i, order[b]) {
      if b > 0 { assert Before(exact, order[0], order[b]); }
    }
  }

  lemma HeadStaysFirst(exact: seq<real>, order: seq<nat>, i: nat, rest: seq<nat>)
    requires InOrder(exact, order) && order != [] && i < |exact| && i !in order && !Before(exact, i, order[0])
    requires InRange(exact, rest) && forall j | j in rest :: j == i || j in order[1..]
    ensures forall b | 0 <= b < |rest| :: Before(exact, order[0], rest[b])
  {
    forall b | 0 <= b < |rest| ensures Before(exact, order[0], rest[b]) {
      assert rest[b] in rest;
      if rest[b] != i {
        var c :| 0 <= c < |order[1..]| && order[1..][c] == rest[b];
        assert order[c + 1] == rest[b];
      } else {
        assert order[0] != i;
      }
    }
  }

  /** `sorted(SKU_ORDER, key=remainder, reverse=True)`, which is stable. */
  function ByRemainder(exact: seq<real>, n: nat): (order: seq<nat>)
    requires n <= |exact|
    ensures |order| == n && InOrder(exact, order) && forall i :: i in order <==> 0 <= i < n
  {
    if n == 0 then []
    else
      InsertKeepsOrder(exact, ByRemainder(exact, n - 1), n - 1);
      Insert(exact, ByRemainder(exact, n - 1), n - 1)
  }

  // -------------------------------------------------------------- operations

  /** `validate_weights`. */
  function ValidateWeights(weights: map<City, real>): (r: Option<Refusal>)
    ensures r.None? <==> (forall c | c in weights :: weights[c] >= 0.0) && SumReal(Weights(weights)) == 1.0
    ensures r == Some(NegativeWeight) <==> exists c | c in weights :: weights[c] < 0.0
    ensures r == Some(WeightsNotOne) <==> (forall c | c in weights :: weights[c] >= 0.0) && SumReal(Weights(weights)) != 1.0
  {
    if exists c | c in weights :: weights[c] < 0.0 then Some(NegativeWeight)
    else if SumReal(Weights(weights)) != 1.0 then Some(WeightsNotOne)
    else None
  }

  /** `allocate`. */
  method Allocate(k: int, weights: map<City, real>) returns (r: Result<seq<int>, Refusal>)
    ensures r == Err(BadK) <==> k < 1
    ensures k >= 1 && ValidateWeights(weights).Some? ==> r == Err(ValidateWeights(weights).value)
    ensures k >= 1 && ValidateWeights(weights).None? ==> r.Ok? && LargestRemainder(Exact(weights, k), k, r.value)
  {
    if k < 1 { return Err(BadK); }
    var problem := ValidateWeights(weights);
    if problem.Some? { return Err(problem.value); }
    var exact := Exact(weights, k);
    var counts: seq<int> := [];
    for i := 0 to |exact|
      invariant counts == Floors(exact)[..i]
    {
      counts := counts + [exact[i].Floor];
    }
    assert counts == Floors(exact);
    var leftover := k - Sum(counts);
    LeftoverFits(weights, k);
    var byRemainder := ByRemainder(exact, |exact|);
    for j := 0 to leftover
      invariant RaisedTo(exact, byRemainder, j, counts) && Sum(counts) == k - leftover + j
    {
      RaiseNext(exact, byRemainder, j, counts);
      counts := counts[byRemainder[j] := counts[byRemainder[j]] + 1];
    }
    RaisedIsLargest(exact, byRemainder, leftover, k, counts);
    r := Ok(counts);
  }

  lemma LeftoverFits(weights: map<City, real>, k: int)
    requires k >= 1 && SumReal(Weights(weights)) == 1.0
    ensures 0 <= k - Sum(Floors(Exact(weights, k))) < |SKU_ORDER|
  {
    ScaledSum(Weights(weights), k);
    FloorsSum(Exact(weights, k));
  }

  /** The first `j` of `order` are rounded up, the others down. */
  ghost predicate RaisedTo(exact: seq<real>, order: seq<nat>, j: nat, counts: seq<int>) {
    && |counts| == |exact| == |order| && j <= |order|
    && forall a | 0 <= a < |order| :: order[a] < |exact| && counts[order[a]] == exact[order[a]].Floor + (if a < j then 1 else 0)
  }

  lemma RaiseNext(exact: seq<real>, order: seq<nat>, j: nat, counts: seq<int>)
    requires RaisedTo(exact, order, j, counts) && InOrder(exact, order) && j < |order|
    ensures var raised := counts[order[j] := counts[order[j]] + 1];
            RaisedTo(exact, order, j + 1, raised) && Sum(raised) == Sum(counts) + 1
  {
    SumUpdate(counts, order[j], counts[order[j]] + 1);
    var raised := counts[order[j] := counts[order[j]] + 1];
    forall a | 0 <= a < |order|
      ensures raised[order[a]] == exact[order[a]].Floor + (if a < j + 1 then 1 else 0)
    {
      if a < j { assert Before(exact, order[a], order[j]); }
      if a > j { assert Before(exact, order[j], order[a]); }
    }
  }

  lemma RaisedIsLargest(exact: seq<real>, order: seq<nat>, j: nat, k: int, counts: seq<int>)
    requires RaisedTo(exact, order, j, counts) && InOrder(exact, order) && Sum(counts) == k
    requires forall i :: i in order <==> 0 <= i < |exact|
    ensures LargestRemainder(exact, k, counts)
  {
    forall i | 0 <= i < |exact| ensures counts[i] == exact[i].Floor || RoundedUp(exact, counts, i) {
      var a := Position(order, i);
    }
    forall i, l | 0 <= i < |exact| && 0 <= l < |exact| && RoundedUp(exact, counts, i) && !RoundedUp(exact, counts, l)
      ensures Before(exact, i, l)
    {
      var a := Position(order, i);
      var b := Position(order, l);
      assert a < j <= b;
    }
  }

  lemma Position(order: seq<nat>, i: nat) returns (a: nat)
    requires i in order
    ensures a < |order| && order[a] == i
  {
    a :| 0 <= a < |order| && order[a] == i;
  }

  function Max(a: int, b: int): int { if a > b then a else b }

  function Shortages(counts: seq<int>, remaining: seq<int>, n: nat): (s: seq<Shortage>)
    requires n <= |counts| == |remaining|
    ensures s == [] <==> forall i | 0 <= i < n :: counts[i] <= Max(remaining[i], 0)
    ensures forall i | 0 <= i < n :: Shortage(i, counts[i], remaining[i]) in s <==> counts[i] > Max(remaining[i], 0)
    ensures forall x | x in s :: x.sku < n && x.wanted == counts[x.sku] && x.remaining == remaining[x.sku]
  {
    if n == 0 then []
    else
      Shortages(counts, remaining, n - 1)
      + if counts[n - 1] > Max(remaining[n - 1], 0) then [Shortage(n - 1, counts[n - 1], remaining[n - 1])] else []
  }

  function RemainingQuota(issued: seq<int>, quota: int): (s: seq<int>)
    ensures |s| == |issued| && forall i | 0 <= i < |s| :: s[i] == quota - issued[i]
  {
    seq(|issued|, i requires 0 <= i < |issued| => quota - issued[i])
  }

  /** `plan_run`: the allocation, refused as a whole when any flavor is short. */
  method PlanRun(k: int, weights: map<City, real>, issued: seq<int>, quota: int) returns (r: Result<seq<int>, Refusal>)
    requires |issued| == |SKU_ORDER|
    ensures r == Err(BadK) <==> k < 1
    ensures k >= 1 && ValidateWeights(weights).Some? ==> r == Err(ValidateWeights(weights).value)
    ensures r.Ok? ==> LargestRemainder(Exact(weights, k), k, r.value) && k >= 1 && ValidateWeights(weights).None?
    ensures r.Ok? ==> forall i | 0 <= i < |issued| :: r.value[i] <= Max(quota - issued[i], 0)
    ensures k >= 1 && ValidateWeights(weights).None? && r.Err? ==>
              r.error.QuotaExceeded? && r.error.shortages != []
              && exists counts :: LargestRemainder(Exact(weights, k), k, counts)
                                  && r.error.shortages == Shortages(counts, RemainingQuota(issued, quota), |issued|)
  {
    var allocation := Allocate(k, weights);
    if allocation.Err? { return allocation; }
    var shortages := Shortages(allocation.value, RemainingQuota(issued, quota), |issued|);
    if shortages != [] { return Err(QuotaExceeded(shortages)); }
    r := allocation;
  }

  // ---------------------------------------------------------------- theorems

  /** The conditions fix the counts: there is one largest-remainder split. */
  lemma OnlyOneSplit(exact: seq<real>, k: int, a: seq<int>, b: seq<int>)
    requires LargestRemainder(exact, k, a) && LargestRemainder(exact, k, b)
    ensures a == b
  {
    if i :| 0 <= i < |exact| && a[i] > b[i] {
      MoreEverywhere(exact, k, a, b, i);
      SumStrict(b, a, i);
    }
    if i :| 0 <= i < |exact| && b[i] > a[i] {
      MoreEverywhere(exact, k, b, a, i);
      SumStrict(a, b, i);
    }
  }

  /** If `a` rounds up one flavor that `b` rounds down, it rounds up every one that `b` does. */
  lemma MoreEverywhere(exact: seq<real>, k: int, a: seq<int>, b: seq<int>, i: nat)
    requires LargestRemainder(exact, k, a) && LargestRemainder(exact, k, b) && i < |exact| && a[i] > b[i]
    ensures forall j | 0 <= j < |exact| :: a[j] >= b[j]
  {
    forall j | 0 <= j < |exact| ensures a[j] >= b[j] {
      assert RoundedUp(exact, b, j) && !RoundedUp(exact, a, j) ==> Before(exact, j, i) && Before(exact, i, j);
    }
  }

  lemma {:induction false} SumStrict(a: seq<int>, b: seq<int>, i: nat)
    requires |a| == |b| && i < |a| && a[i] < b[i] && forall j | 0 <= j < |a| :: a[j] <= b[j]
    ensures Sum(a) < Sum(b)
  {
    var n := |a| - 1;
    if i < n { SumStrict(a[..n], b[..n], i); } else { SumMonotone(a[..n], b[..n]); }
  }

  lemma {:induction false} SumMonotone(a: seq<int>, b: seq<int>)
    requires |a| == |b| && forall j | 0 <= j < |a| :: a[j] <= b[j]
    ensures Sum(a) <= Sum(b)
  {
    if a != [] { SumMonotone(a[..|a| - 1], b[..|b| - 1]); }
  }

  /** Nobody is off by one or more, and a share that is a whole number is met exactly. */
  lemma WithinOne(exact: seq<real>, k: int, counts: seq<int>, i: nat)
    requires LargestRemainder(exact, k, counts) && SumReal(exact) == k as real && i < |exact|
    ensures -1.0 < counts[i] as real - exact[i] < 1.0
    ensures exact[i] == exact[i].Floor as real ==> counts[i] == exact[i].Floor
  {
    if exact[i] == exact[i].Floor as real && RoundedUp(exact, counts, i) {
      // Everyone with a remainder comes before `i`, so nobody gets less than the share, and `i` gets more.
      forall j | 0 <= j < |exact| ensures counts[j] as real >= exact[j] {
        if !RoundedUp(exact, counts, j) { assert Before(exact, i, j); }
      }
      SumAbove(exact, counts, i);
    }
  }

  lemma {:induction false} SumAbove(exact: seq<real>, counts: seq<int>, i: nat)
    requires |exact| == |counts| && i < |exact| && counts[i] as real > exact[i]
    requires forall j | 0 <= j < |exact| :: counts[j] as real >= exact[j]
    ensures Sum(counts) as real > SumReal(exact)
  {
    var n := |exact| - 1;
    if i < n { SumAbove(exact[..n], counts[..n], i); } else { SumAtLeast(exact[..n], counts[..n]); }
  }

  lemma {:induction false} SumAtLeast(exact: seq<real>, counts: seq<int>)
    requires |exact| == |counts| && forall j | 0 <= j < |exact| :: counts[j] as real >= exact[j]
    ensures Sum(counts) as real >= SumReal(exact)
  {
    if exact != [] { SumAtLeast(exact[..|exact| - 1], counts[..|counts| - 1]); }
  }

  // ------------------------------------------------------------- optimality

  function Abs(x: real): real { if x < 0.0 then -x else x }

  /** How far a split is from the exact shares, in all. */
  function Deviation(exact: seq<real>, counts: seq<int>): real
    requires |exact| == |counts|
  {
    if exact == [] then 0.0
    else
      var n := |exact| - 1;
      Deviation(exact[..n], counts[..n]) + Abs(counts[n] as real - exact[n])
  }

  /** `t` parts the remainders rounded up from those rounded down. */
  ghost predicate Threshold(exact: seq<real>, counts: seq<int>, t: real) {
    && |exact| == |counts| && 0.0 <= t <= 1.0
    && forall i | 0 <= i < |exact| ::
         || (counts[i] == exact[i].Floor && Remainder(exact[i]) <= t)
         || (counts[i] == exact[i].Floor + 1 && Remainder(exact[i]) >= t)
  }

  /** The least remainder rounded up among the first `n`, or 1 when there is none. */
  lemma {:induction false} LeastRaised(exact: seq<real>, counts: seq<int>, n: nat) returns (t: real)
    requires |exact| == |counts| && n <= |exact|
    ensures 0.0 <= t <= 1.0
    ensures forall i | 0 <= i < n && RoundedUp(exact, counts, i) :: Remainder(exact[i]) >= t
    ensures t == 1.0 || exists i :: 0 <= i < n && RoundedUp(exact, counts, i) && Remainder(exact[i]) == t
  {
    if n == 0 {
      t := 1.0;
    } else {
      t := LeastRaised(exact, counts, n - 1);
      var r := Remainder(exact[n - 1]);
      if RoundedUp(exact, counts, n - 1) && r < t {
        t := r;
        assert RoundedUp(exact, counts, n - 1) && Remainder(exact[n - 1]) == t;
      }
    }
  }

  lemma HasThreshold(exact: seq<real>, k: int, counts: seq<int>) returns (t: real)
    requires LargestRemainder(exact, k, counts)
    ensures Threshold(exact, counts, t)
  {
    t := LeastRaised(exact, counts, |exact|);
    forall j | 0 <= j < |exact| && !RoundedUp(exact, counts, j) ensures Remainder(exact[j]) <= t {
      if t != 1.0 {
        var i :| 0 <= i < |exact| && RoundedUp(exact, counts, i) && Remainder(exact[i]) == t;
        assert Before(exact, i, j);
      }
    }
  }

  lemma AtLeast(t: real, d: real)
    requires t >= 0.0 && d >= 1.0
    ensures t * d >= t
  {
  }

  /** Moving one count away from the split costs at least the common slope per code moved. */
  lemma Slope(e: real, n: int, m: int, t: real)
    requires 0.0 <= t <= 1.0
    requires (n == e.Floor && Remainder(e) <= t) || (n == e.Floor + 1 && Remainder(e) >= t)
    ensures Abs(m as real - e) >= Abs(n as real - e) + (1.0 - 2.0 * t) * (m - n) as real
  {
    var p := Product(t, (m - n) as real);
    if m > n {
      SlopeUp(e, n, m, t, p);
    } else if m < n {
      SlopeDown(e, n, m, t, -p);
    }
  }

  /** The one product the slope needs, and its size. */
  lemma Product(t: real, d: real) returns (p: real)
    requires 0.0 <= t <= 1.0
    ensures (1.0 - 2.0 * t) * d == d - 2.0 * p
    ensures d >= 1.0 ==> p >= t
    ensures d <= -1.0 ==> -p >= t && -d + p >= 1.0 - t
  {
    p := t * d;
    assert (1.0 - 2.0 * t) * d == d - 2.0 * p;
    if d >= 1.0 {
      AtLeast(t, d);
    } else if d <= -1.0 {
      AtLeast(t, -d);
      AtLeast(1.0 - t, -d);
      assert t * -d == -p && (1.0 - t) * -d == -d + p;
    }
  }

  lemma SlopeUp(e: real, n: int, m: int, t: real, p: real)
    requires 0.0 <= t <= p && m > n
    requires (n == e.Floor && Remainder(e) <= t) || n == e.Floor + 1
    ensures Abs(m as real - e) >= Abs(n as real - e) + (m - n) as real - 2.0 * p
  {
  }

  lemma SlopeDown(e: real, n: int, m: int, t: real, p: real)
    requires t <= 1.0 && t <= p && (n - m) as real - p >= 1.0 - t && m < n
    requires n == e.Floor || (n == e.Floor + 1 && Remainder(e) >= t)
    ensures Abs(m as real - e) >= Abs(n as real - e) - (n - m) as real + 2.0 * p
  {
  }

  function Times(c: real, d: int): real { c * d as real }

  lemma TimesAdds(c: real, x: int, y: int)
    ensures Times(c, x + y) == Times(c, x) + Times(c, y)
  {
    assert (x + y) as real == x as real + y as real;
  }

  /** Each count of `other` costs at least `c` more per code than that of `counts`. */
  ghost predicate Slopes(exact: seq<real>, counts: seq<int>, other: seq<int>, c: real) {
    && |exact| == |counts| == |other|
    && forall i | 0 <= i < |exact| :: Abs(other[i] as real - exact[i]) >= Abs(counts[i] as real - exact[i]) + Times(c, other[i] - counts[i])
  }

  lemma SlopesByThreshold(exact: seq<real>, counts: seq<int>, other: seq<int>, t: real)
    requires Threshold(exact, counts, t) && |other| == |exact|
    ensures Slopes(exact, counts, other, 1.0 - 2.0 * t)
  {
    var c := 1.0 - 2.0 * t;
    forall i | 0 <= i < |exact|
      ensures Abs(other[i] as real - exact[i]) >= Abs(counts[i] as real - exact[i]) + Times(c, other[i] - counts[i])
    {
      Slope(exact[i], counts[i], other[i], t);
    }
  }

  lemma {:induction false} SlopesAddUp(exact: seq<real>, counts: seq<int>, other: seq<int>, c: real)
    requires Slopes(exact, counts, other, c)
    ensures Deviation(exact, other) >= Deviation(exact, counts) + Times(c, Sum(other) - Sum(counts))
  {
    if exact != [] {
      var n := |exact| - 1;
      SlopesAddUp(exact[..n], counts[..n], other[..n], c);
      TimesAdds(c, Sum(other[..n]) - Sum(counts[..n]), other[n] - counts[n]);
    }
  }

  /** No other way to split `k` codes, fair or not, is closer to the exact shares in all. */
  lemma LargestRemainderIsOptimal(exact: seq<real>, k: int, counts: seq<int>, other: seq<int>)
    requires LargestRemainder(exact, k, counts) && |other| == |exact| && Sum(other) == k
    ensures Deviation(exact, counts) <= Deviation(exact, other)
  {
    var t := HasThreshold(exact, k, counts);
    SlopesByThreshold(exact, counts, other, t);
    SlopesAddUp(exact, counts, other, 1.0 - 2.0 * t);
  }

  lemma ShareSign(w: real, k: int)
    requires w >= 0.0 && k >= 0
    ensures Share(w, k) >= 0.0 && (w == 0.0 ==> Share(w, k) == 0.0)
  {
  }

  /** A run split by weights that pass the validation: nobody is off by one, weight zero gets nothing, whole shares are met. */
  lemma AllocationIsFair(k: int, weights: map<City, real>, counts: seq<int>, i: nat)
    requires k >= 1 && ValidateWeights(weights).None? && LargestRemainder(Exact(weights, k), k, counts) && i < |SKU_ORDER|
    ensures var share := Share(Weights(weights)[i], k);
            && -1.0 < counts[i] as real - share < 1.0 && counts[i] >= 0
            && (Weights(weights)[i] == 0.0 ==> counts[i] == 0)
            && (share == share.Floor as real ==> counts[i] as real == share)
  {
    SharesAddUp(k, weights);
    WithinOne(Exact(weights, k), k, counts, i);
    ShareSign(Weights(weights)[i], k);
  }

  lemma SharesAddUp(k: int, weights: map<City, real>)
    requires SumReal(Weights(weights)) == 1.0
    ensures SumReal(Exact(weights, k)) == k as real
  {
    ScaledSum(Weights(weights), k);
  }
}
