/**
 The reproducible weighted draw: a uniform number by rejection from keyed digests, and
 winners drawn without replacement from the sorted entries.

 `hmac` is any function from message text to a number; the digest of the program is one
 such, below 2^256.
 */
module Draw {
  import opened Prelude
  import opened Decimals
  import opened Residues

  datatype Entry = Entry(id: string, weight: int)
  datatype DrawError = BadBound | DuplicateIds | NegativeWeight

  const SPACE: int := 115792089237316195423570985008687907853269984665640564039457584007913129639936

  // ------------------------------------------------------------------ sorting

  predicate LexLeq(a: string, b: string) {
    a == [] || (b != [] && (a[0] < b[0] || (a[0] == b[0] && LexLeq(a[1..], b[1..]))))
  }

  /** Tuples in Python's order. */
  predicate EntryLeq(e: Entry, f: Entry) {
    if e.id == f.id then e.weight <= f.weight else LexLeq(e.id, f.id)
  }

  lemma {:induction false} LexTotal(a: string, b: string)
    ensures LexLeq(a, b) || LexLeq(b, a)
    ensures LexLeq(a, b) && LexLeq(b, a) ==> a == b
  {
    if a != [] && b != [] && a[0] == b[0] {
      LexTotal(a[1..], b[1..]);
      if a[1..] == b[1..] { assert a == [a[0]] + a[1..] && b == [b[0]] + b[1..]; }
    }
  }

  lemma {:induction false} LexTransitive(a: string, b: string, c: string)
    requires LexLeq(a, b) && LexLeq(b, c)
    ensures LexLeq(a, c)
  {
    if a != [] && a[0] == b[0] == c[0] { LexTransitive(a[1..], b[1..], c[1..]); }
  }

  lemma EntryOrder(e: Entry, f: Entry, g: Entry)
    ensures EntryLeq(e, f) || EntryLeq(f, e)
    ensures EntryLeq(e, f) && EntryLeq(f, e) ==> e == f
    ensures EntryLeq(e, f) && EntryLeq(f, g) ==> EntryLeq(e, g)
  {
    LexTotal(e.id, f.id);
    LexTotal(f.id, g.id);
    LexTotal(e.id, g.id);
    if LexLeq(e.id, f.id) && LexLeq(f.id, g.id) { LexTransitive(e.id, f.id, g.id); }
  }

  ghost predicate IsSorted(s: seq<Entry>) {
    forall i, j | 0 <= i < j < |s| :: EntryLeq(s[i], s[j])
  }

  function Insert(e: Entry, s: seq<Entry>): seq<Entry> {
    if s == [] || EntryLeq(e, s[0]) then [e] + s else [s[0]] + Insert(e, s[1..])
  }

  lemma {:induction false} InsertSorts(e: Entry, s: seq<Entry>)
    requires IsSorted(s)
    ensures IsSorted(Insert(e, s)) && multiset(Insert(e, s)) == multiset(s) + multiset{e}
  {
    if s == [] {
    } else if EntryLeq(e, s[0]) {
      forall j | 0 <= j < |s| ensures EntryLeq(e, s[j]) { EntryOrder(e, s[0], s[j]); }
    } else {
      InsertSorts(e, s[1..]);
      assert s == [s[0]] + s[1..];
      var t := Insert(e, s[1..]);
      forall j | 0 <= j < |t| ensures EntryLeq(s[0], t[j]) {
        EntryOrder(s[0], e, e);
        assert t[j] in multiset(t);
        if t[j] != e {
          assert t[j] in multiset(s[1..]);
          var k :| 0 <= k < |s[1..]| && s[1..][k] == t[j];
          assert s[k + 1] == t[j];
        }
      }
    }
  }

  /** `sorted(entries)`. */
  function Sorted(entries: seq<Entry>): (s: seq<Entry>)
    ensures IsSorted(s) && multiset(s) == multiset(entries) && |s| == |entries|
  {
    if entries == [] then []
    else
      var n := |entries| - 1;
      InsertSorts(entries[n], Sorted(entries[..n]));
      assert entries == entries[..n] + [entries[n]];
      var s := Insert(entries[n], Sorted(entries[..n]));
      assert |s| == |multiset(s)|;
      s
  }

  lemma HeadIsLeast(s: seq<Entry>, e: Entry)
    requires IsSorted(s) && e in multiset(s)
    ensures s != [] && EntryLeq(s[0], e)
  {
    var i :| 0 <= i < |s| && s[i] == e;
    EntryOrder(e, e, e);
  }

  lemma Tail(s: seq<Entry>)
    requires s != []
    ensures multiset(s[1..]) == multiset(s) - multiset{s[0]}
  {
    assert s == [s[0]] + s[1..];
  }

  /** Sorting forgets the order the entries came in. */
  lemma {:induction false} SortedIsUnique(a: seq<Entry>, b: seq<Entry>)
    requires IsSorted(a) && IsSorted(b) && multiset(a) == multiset(b)
    ensures a == b
  {
    if a == [] {
      assert |multiset(b)| == |b|;
    } else {
      HeadIsLeast(b, a[0]);
      HeadIsLeast(a, b[0]);
      EntryOrder(a[0], b[0], b[0]);
      Tail(a);
      Tail(b);
      SortedIsUnique(a[1..], b[1..]);
      assert a == [a[0]] + a[1..] && b == [b[0]] + b[1..];
    }
  }

  // ------------------------------------------------------ one uniform number

  function Limit(bound: int): int
    requires bound > 0
  {
    SPACE - SPACE % bound
  }

  function Value(hmac: string -> nat, tag: string, counter: nat): nat { hmac(tag + ":" + Decimal(counter)) }

  ghost predicate Accepts(hmac: string -> nat, tag: string, bound: int)
    requires bound > 0
  {
    exists c: nat :: Value(hmac, tag, c) < Limit(bound)
  }

  ghost predicate FirstAccepted(hmac: string -> nat, tag: string, bound: int, c: nat)
    requires bound > 0
  {
    Value(hmac, tag, c) < Limit(bound) && forall d: nat | d < c :: Value(hmac, tag, d) >= Limit(bound)
  }

  lemma {:induction false} SomeFirst(hmac: string -> nat, tag: string, bound: int, c: nat)
    requires bound > 0 && Value(hmac, tag, c) < Limit(bound)
    ensures exists d: nat :: FirstAccepted(hmac, tag, bound, d)
  {
    if d: nat :| d < c && Value(hmac, tag, d) < Limit(bound) {
      SomeFirst(hmac, tag, bound, d);
    } else {
      assert FirstAccepted(hmac, tag, bound, c);
    }
  }

  /** The number that seed and label stand for. */
  ghost function Uniform(hmac: string -> nat, tag: string, bound: int): (r: nat)
    requires bound > 0 && Accepts(hmac, tag, bound)
    ensures r < bound
  {
    var a: nat :| Value(hmac, tag, a) < Limit(bound);
    SomeFirst(hmac, tag, bound, a);
    var c: nat :| FirstAccepted(hmac, tag, bound, c);
    Value(hmac, tag, c) % bound
  }

  /** `uniform_below`: the first value under the limit decides; it exists unless every digest is rejected. */
  method UniformBelow(hmac: string -> nat, tag: string, bound: int) returns (r: Result<nat, DrawError>)
    requires bound > 0 ==> Accepts(hmac, tag, bound)
    ensures bound <= 0 ==> r == Err(BadBound)
    ensures bound > 0 ==> r == Ok(Uniform(hmac, tag, bound))
    ensures r.Ok? ==> exists c: nat :: FirstAccepted(hmac, tag, bound, c) && r.value == Value(hmac, tag, c) % bound
  {
    if bound <= 0 { return Err(BadBound); }
    var limit := SPACE - SPACE % bound;
    ghost var accepted: nat :| Value(hmac, tag, accepted) < Limit(bound);
    SomeFirst(hmac, tag, bound, accepted);
    ghost var first: nat :| FirstAccepted(hmac, tag, bound, first);
    var counter: nat := 0;
    while Value(hmac, tag, counter) >= limit
      invariant counter <= first && forall d: nat | d < counter :: Value(hmac, tag, d) >= limit
      decreases first - counter
    {
      counter := counter + 1;
    }
    OneFirst(hmac, tag, bound, counter);
    r := Ok(Value(hmac, tag, counter) % bound);
  }

  lemma OneFirst(hmac: string -> nat, tag: string, bound: int, c: nat)
    requires bound > 0 && FirstAccepted(hmac, tag, bound, c)
    ensures Accepts(hmac, tag, bound) && Uniform(hmac, tag, bound) == Value(hmac, tag, c) % bound
  {
    forall d: nat | FirstAccepted(hmac, tag, bound, d) ensures d == c {
      assert !(d < c) && !(c < d);
    }
  }

  // -------------------------------------------------------------- the drawing

  function Total(pool: seq<Entry>): int {
    if pool == [] then 0 else Total(pool[..|pool| - 1]) + pool[|pool| - 1].weight
  }

  ghost predicate AllPositive(pool: seq<Entry>) { forall i | 0 <= i < |pool| :: pool[i].weight > 0 }

  ghost predicate DistinctIds(pool: seq<Entry>) {
    forall i, j | 0 <= i < j < |pool| :: pool[i].id != pool[j].id
  }

  /** The entry whose stretch of tickets holds `ticket`. */
  ghost predicate Picks(pool: seq<Entry>, ticket: int, i: nat) {
    i < |pool| && Total(pool[..i]) <= ticket < Total(pool[..i + 1])
  }

  lemma {:induction false} SomePick(pool: seq<Entry>, ticket: int) returns (i: nat)
    requires 0 <= ticket < Total(pool)
    ensures Picks(pool, ticket, i)
  {
    var n := |pool| - 1;
    if Total(pool[..n]) <= ticket {
      i := n;
      assert pool[..n + 1] == pool;
    } else {
      i := SomePick(pool[..n], ticket);
      assert pool[..n][..i] == pool[..i] && pool[..n][..i + 1] == pool[..i + 1];
    }
  }

  lemma {:induction false} TotalGrows(pool: seq<Entry>, i: nat, j: nat)
    requires AllPositive(pool) && i <= j <= |pool|
    ensures 0 <= Total(pool[..i]) <= Total(pool[..j]) && (i < j ==> Total(pool[..i]) < Total(pool[..j]))
    decreases j
  {
    if j > 0 {
      assert pool[..j][..j - 1] == pool[..j - 1];
      if i < j { TotalGrows(pool, i, j - 1); } else { TotalGrows(pool, i - 1, j - 1); assert pool[..i][..i - 1] == pool[..i - 1]; }
    }
  }

  lemma OnePick(pool: seq<Entry>, ticket: int, i: nat, j: nat)
    requires AllPositive(pool) && Picks(pool, ticket, i) && Picks(pool, ticket, j)
    ensures i == j
  {
    if i < j { TotalGrows(pool, i + 1, j); }
    if j < i { TotalGrows(pool, j + 1, i); }
  }

  ghost function Pick(pool: seq<Entry>, ticket: int): (i: nat)
    requires 0 <= ticket < Total(pool)
    ensures Picks(pool, ticket, i)
  {
    assert exists i: nat :: Picks(pool, ticket, i) by { var k := SomePick(pool, ticket); }
    var i: nat :| Picks(pool, ticket, i);
    i
  }

  function Without(pool: seq<Entry>, i: nat): seq<Entry>
    requires i < |pool|
  {
    pool[..i] + pool[i + 1..]
  }

  function RoundTag(tag: string, round: nat): string { tag + ":" + Decimal(round) }

  /** Every round of the draw gets its number. */
  ghost predicate Answers(hmac: string -> nat, tag: string, total: int) {
    forall round: nat, bound: int | 0 < bound <= total :: Accepts(hmac, RoundTag(tag, round), bound)
  }

  lemma {:induction false} WithoutTotal(pool: seq<Entry>, i: nat)
    requires i < |pool|
    ensures Total(Without(pool, i)) == Total(pool) - pool[i].weight
  {
    var n := |pool| - 1;
    if i < n {
      WithoutTotal(pool[..n], i);
      assert Without(pool, i)[..|pool| - 2] == Without(pool[..n], i);
    } else {
      assert Without(pool, i) == pool[..n];
    }
  }

  lemma WithoutFacts(pool: seq<Entry>, i: nat)
    requires AllPositive(pool) && DistinctIds(pool) && i < |pool|
    ensures AllPositive(Without(pool, i)) && DistinctIds(Without(pool, i))
    ensures Total(Without(pool, i)) == Total(pool) - pool[i].weight
    ensures forall j | 0 <= j < |Without(pool, i)| :: Without(pool, i)[j] in pool && Without(pool, i)[j].id != pool[i].id
  {
    WithoutTotal(pool, i);
    var rest := Without(pool, i);
    forall j | 0 <= j < |rest| ensures rest[j] == pool[if j < i then j else j + 1] {}
  }

  ghost predicate Drawable(hmac: string -> nat, tag: string, pool: seq<Entry>) {
    AllPositive(pool) && DistinctIds(pool) && Answers(hmac, tag, Total(pool))
  }

  lemma PositiveTotal(pool: seq<Entry>)
    requires AllPositive(pool) && pool != []
    ensures Total(pool) > 0
  {
    TotalGrows(pool, 0, |pool|);
    assert pool[..|pool|] == pool;
  }

  lemma StillDrawable(hmac: string -> nat, tag: string, pool: seq<Entry>, i: nat)
    requires Drawable(hmac, tag, pool) && i < |pool|
    ensures Drawable(hmac, tag, Without(pool, i))
  {
    WithoutFacts(pool, i);
  }

  /** The place in the pool that a round picks. */
  ghost function Chosen(hmac: string -> nat, tag: string, pool: seq<Entry>, round: nat): (i: nat)
    requires Drawable(hmac, tag, pool) && pool != []
    ensures i < |pool|
  {
    PositiveTotal(pool);
    Pick(pool, Uniform(hmac, RoundTag(tag, round), Total(pool)))
  }

  /** The winners of the rounds from `round` on. */
  ghost function Winners(hmac: string -> nat, tag: string, pool: seq<Entry>, round: nat, n: nat): (w: seq<string>)
    requires Drawable(hmac, tag, pool)
    ensures |w| == if n < |pool| then n else |pool|
    decreases n
  {
    if n == 0 || pool == [] then []
    else
      var i := Chosen(hmac, tag, pool, round);
      StillDrawable(hmac, tag, pool, i);
      [pool[i].id] + Winners(hmac, tag, Without(pool, i), round + 1, n - 1)
  }

  function Positive(entries: seq<Entry>): (s: seq<Entry>)
    ensures AllPositive(s) && forall e :: e in s <==> e in entries && e.weight > 0
  {
    if entries == [] then []
    else Positive(entries[..|entries| - 1]) + if entries[|entries| - 1].weight > 0 then [entries[|entries| - 1]] else []
  }

  function Ids(entries: seq<Entry>): set<string> {
    set i | 0 <= i < |entries| :: entries[i].id
  }

  lemma {:induction false} DistinctByCount(entries: seq<Entry>)
    ensures |Ids(entries)| <= |entries|
    ensures |Ids(entries)| == |entries| <==> DistinctIds(entries)
  {
    if entries != [] {
      var n := |entries| - 1;
      DistinctByCount(entries[..n]);
      IdsOfLast(entries);
      DistinctLast(entries);
    }
  }

  lemma IdsOfLast(entries: seq<Entry>)
    requires entries != []
    ensures Ids(entries) == Ids(entries[..|entries| - 1]) + {entries[|entries| - 1].id}
  {
    var n := |entries| - 1;
    forall i | 0 <= i < n ensures entries[i].id in Ids(entries[..n]) {
      assert entries[..n][i] == entries[i];
    }
    forall i | 0 <= i < n ensures entries[..n][i].id in Ids(entries) {
      assert entries[..n][i] == entries[i];
    }
  }

  lemma DistinctLast(entries: seq<Entry>)
    requires entries != []
    ensures DistinctIds(entries) <==>
            DistinctIds(entries[..|entries| - 1]) && entries[|entries| - 1].id !in Ids(entries[..|entries| - 1])
  {
    var n := |entries| - 1;
    var most := entries[..n];
    if DistinctIds(most) && entries[n].id !in Ids(most) {
      forall i | 0 <= i < n ensures entries[i].id != entries[n].id {
        assert most[i].id in Ids(most);
      }
      forall i, j | 0 <= i < j < |entries| ensures entries[i].id != entries[j].id {
        if j < n { assert most[i].id != most[j].id; }
      }
    }
  }

  lemma {:induction false} PositiveKeepsDistinct(entries: seq<Entry>)
    requires DistinctIds(entries)
    ensures DistinctIds(Positive(entries))
  {
    if entries != [] {
      var n := |entries| - 1;
      PositiveKeepsDistinct(entries[..n]);
      forall e | e in Positive(entries[..n]) ensures e.id != entries[n].id {
        assert e in entries[..n];
      }
    }
  }

  lemma SortedKeepsDistinct(entries: seq<Entry>)
    ensures DistinctIds(Sorted(entries)) <==> DistinctIds(entries)
  {
    DistinctByCount(entries);
    DistinctByCount(Sorted(entries));
    SameIds(entries, Sorted(entries));
  }

  lemma SameIds(a: seq<Entry>, b: seq<Entry>)
    requires multiset(a) == multiset(b)
    ensures Ids(a) == Ids(b)
  {
    forall i | 0 <= i < |a| ensures a[i].id in Ids(b) {
      assert a[i] in multiset(b);
      var j :| 0 <= j < |b| && b[j] == a[i];
    }
    forall i | 0 <= i < |b| ensures b[i].id in Ids(a) {
      assert b[i] in multiset(a);
      var j :| 0 <= j < |a| && a[j] == b[i];
    }
  }

  /** The sorted entries that can win. */
  function Pool(entries: seq<Entry>): seq<Entry> { Positive(Sorted(entries)) }

  predicate Acceptable(entries: seq<Entry>) {
    |Ids(entries)| == |entries| && forall i | 0 <= i < |entries| :: entries[i].weight >= 0
  }

  lemma PoolIsDistinct(entries: seq<Entry>)
    requires Acceptable(entries)
    ensures DistinctIds(Pool(entries))
  {
    DistinctByCount(entries);
    SortedKeepsDistinct(entries);
    PositiveKeepsDistinct(Sorted(entries));
  }

  /** `draw_winners`. */
  method DrawWinners(entries: seq<Entry>, hmac: string -> nat, tag: string, count: int) returns (r: Result<seq<string>, DrawError>)
    requires Answers(hmac, tag, Total(Pool(entries)))
    ensures r == Err(DuplicateIds) <==> !DistinctIds(entries)
    ensures r == Err(NegativeWeight) <==> DistinctIds(entries) && exists i :: 0 <= i < |entries| && entries[i].weight < 0
    ensures Acceptable(entries) ==> DistinctIds(Pool(entries)) && r == Ok(Winners(hmac, tag, Pool(entries), 0, if count < 0 then 0 else count))
  {
    DistinctByCount(entries);
    if |Ids(entries)| != |entries| { return Err(DuplicateIds); }
    if exists i :: 0 <= i < |entries| && entries[i].weight < 0 { return Err(NegativeWeight); }
    PoolIsDistinct(entries);
    // A negative count gives no rounds.
    ghost var whole := Winners(hmac, tag, Pool(entries), 0, if count < 0 then 0 else count);
    assert [] + whole == whole;
    var winners := DrawAll(Pool(entries), hmac, tag, if count < 0 then 0 else count, whole);
    r := Ok(winners);
  }

  /** The winners so far, and what the pool gives in the rounds left, make the whole draw. */
  ghost predicate OnTrack(
    hmac: string -> nat, tag: string, round: nat, left: nat, pool: seq<Entry>, winners: seq<string>, whole: seq<string>)
  {
    Drawable(hmac, tag, pool) && winners + Winners(hmac, tag, pool, round, left) == whole
  }

  lemma TrackEnds(hmac: string -> nat, tag: string, round: nat, left: nat, pool: seq<Entry>, winners: seq<string>, whole: seq<string>)
    requires OnTrack(hmac, tag, round, left, pool, winners, whole) && (pool == [] || left == 0)
    ensures winners == whole
  {
    NoMoreWinners(hmac, tag, pool, round, left);
    assert winners + [] == winners;
  }

  /** The rounds of `draw_winners` over the pool. */
  method DrawAll(all: seq<Entry>, hmac: string -> nat, tag: string, count: nat, ghost whole: seq<string>) returns (winners: seq<string>)
    requires OnTrack(hmac, tag, 0, count, all, [], whole)
    ensures winners == whole
  {
    var pool := all;
    winners := [];
    var rounds := if count < |pool| then count else |pool|;
    ghost var left := count;
    for round := 0 to rounds
      invariant |pool| == |all| - round && left == count - round && OnTrack(hmac, tag, round, left, pool, winners, whole)
    {
      pool, winners := DrawOne(pool, winners, hmac, tag, round, left, whole);
      left := left - 1;
    }
    TrackEnds(hmac, tag, rounds, left, pool, winners, whole);
  }

  lemma NoMoreWinners(hmac: string -> nat, tag: string, pool: seq<Entry>, round: nat, left: nat)
    requires Drawable(hmac, tag, pool) && (pool == [] || left == 0)
    ensures Winners(hmac, tag, pool, round, left) == []
  {
  }

  /** The scan of one round: adds up weights until the ticket is passed. */
  method Scan(pool: seq<Entry>, ticket: int) returns (index: nat)
    requires 0 <= ticket < Total(pool)
    ensures Picks(pool, ticket, index)
  {
    var cumulative := 0;
    index := 0;
    assert pool[..|pool|] == pool;
    while index < |pool|
      invariant 0 <= index <= |pool| && cumulative == Total(pool[..index]) <= ticket
    {
      assert pool[..index + 1][..index] == pool[..index];
      cumulative := cumulative + pool[index].weight;
      if ticket < cumulative { return; }
      index := index + 1;
    }
  }

  lemma ChosenByTicket(hmac: string -> nat, tag: string, pool: seq<Entry>, round: nat, i: nat)
    requires Drawable(hmac, tag, pool) && pool != [] && 0 < Total(pool)
    requires Picks(pool, Uniform(hmac, RoundTag(tag, round), Total(pool)), i)
    ensures i == Chosen(hmac, tag, pool, round)
  {
    var ticket := Uniform(hmac, RoundTag(tag, round), Total(pool));
    OnePick(pool, ticket, i, Pick(pool, ticket));
  }

  /** One round. */
  method DrawOne(
    pool: seq<Entry>, winners: seq<string>, hmac: string -> nat, tag: string, round: nat, ghost left: nat, ghost whole: seq<string>)
    returns (rest: seq<Entry>, more: seq<string>)
    requires OnTrack(hmac, tag, round, left, pool, winners, whole) && pool != [] && left > 0
    ensures |rest| == |pool| - 1 && OnTrack(hmac, tag, round + 1, left - 1, rest, more, whole)
  {
    PositiveTotal(pool);
    var drawn := UniformBelow(hmac, RoundTag(tag, round), Total(pool));
    var index := Scan(pool, drawn.value);
    TrackStep(hmac, tag, round, left, pool, winners, whole, index);
    rest, more := Without(pool, index), winners + [pool[index].id];
  }

  lemma TrackStep(
    hmac: string -> nat, tag: string, round: nat, left: nat, pool: seq<Entry>, winners: seq<string>, whole: seq<string>, i: nat)
    requires OnTrack(hmac, tag, round, left, pool, winners, whole) && pool != [] && left > 0 && 0 < Total(pool)
    requires Picks(pool, Uniform(hmac, RoundTag(tag, round), Total(pool)), i)
    ensures OnTrack(hmac, tag, round + 1, left - 1, Without(pool, i), winners + [pool[i].id], whole)
  {
    ChosenByTicket(hmac, tag, pool, round, i);
    StillDrawable(hmac, tag, pool, i);
    Regroup(winners, pool[i].id, Winners(hmac, tag, Without(pool, i), round + 1, left - 1));
  }

  lemma Regroup(a: seq<string>, x: string, b: seq<string>)
    ensures a + ([x] + b) == a + [x] + b
  {
  }
}
