/**
 What the draw promises: anyone with the entries and the seed gets the same winners, the
 reserve list changes nothing, each ticket is exactly as likely as its weight says, and
 the published snapshot stands for one list of entries.
 */
module DrawProperties {
  import opened Prelude
  import opened Decimals
  import opened Residues
  import opened Draw

  // ---------------------------------------------------------- reproducibility

  /** The order in which the entries are listed does not matter, neither for the verdict nor for the winners. */
  lemma OrderDoesNotMatter(a: seq<Entry>, b: seq<Entry>, hmac: string -> nat, tag: string, count: nat)
    requires multiset(a) == multiset(b) && Answers(hmac, tag, Total(Pool(a))) && Acceptable(a)
    ensures Acceptable(b) && Pool(a) == Pool(b) && DistinctIds(Pool(a))
    ensures Winners(hmac, tag, Pool(a), 0, count) == Winners(hmac, tag, Pool(b), 0, count)
  {
    SortedIsUnique(Sorted(a), Sorted(b));
    PoolIsDistinct(a);
    SameIds(a, b);
    assert |a| == |multiset(a)| == |multiset(b)| == |b|;
    forall i | 0 <= i < |b| ensures b[i].weight >= 0 {
      assert b[i] in multiset(a);
    }
  }

  /** Drawing more names leaves the first ones as they were: the reserve list never changes the winners. */
  lemma {:induction false} ReserveIsAfterTheWinners(hmac: string -> nat, tag: string, pool: seq<Entry>, round: nat, m: nat, n: nat)
    requires Drawable(hmac, tag, pool) && m <= n
    ensures Winners(hmac, tag, pool, round, m) <= Winners(hmac, tag, pool, round, n)
    decreases m
  {
    if m > 0 && pool != [] {
      var i := Chosen(hmac, tag, pool, round);
      StillDrawable(hmac, tag, pool, i);
      ReserveIsAfterTheWinners(hmac, tag, Without(pool, i), round + 1, m - 1, n - 1);
    }
  }

  ghost predicate DistinctAmong(w: seq<string>, ids: set<string>) {
    && (forall j | 0 <= j < |w| :: w[j] in ids)
    && (forall j, k | 0 <= j < k < |w| :: w[j] != w[k])
  }

  lemma WithoutIds(pool: seq<Entry>, i: nat)
    requires AllPositive(pool) && DistinctIds(pool) && i < |pool|
    ensures Ids(Without(pool, i)) <= Ids(pool) - {pool[i].id}
  {
    WithoutFacts(pool, i);
    forall k | 0 <= k < |Without(pool, i)| ensures Without(pool, i)[k].id in Ids(pool) - {pool[i].id} {
      assert Without(pool, i)[k] in pool;
    }
  }

  lemma DistinctFirst(x: string, rest: seq<string>, ids: set<string>)
    requires x in ids && DistinctAmong(rest, ids - {x})
    ensures DistinctAmong([x] + rest, ids)
  {
  }

  /** Winners have entries, and nobody wins twice. */
  lemma {:induction false} WinnersAreDistinctEntrants(hmac: string -> nat, tag: string, pool: seq<Entry>, round: nat, n: nat)
    requires Drawable(hmac, tag, pool)
    ensures DistinctAmong(Winners(hmac, tag, pool, round, n), Ids(pool))
    decreases n
  {
    if n > 0 && pool != [] {
      var i := Chosen(hmac, tag, pool, round);
      StillDrawable(hmac, tag, pool, i);
      WinnersAreDistinctEntrants(hmac, tag, Without(pool, i), round + 1, n - 1);
      FirstOfAll(pool, i, Winners(hmac, tag, Without(pool, i), round + 1, n - 1));
    } else {
      NoMoreWinners(hmac, tag, pool, round, n);
    }
  }

  lemma FirstOfAll(pool: seq<Entry>, i: nat, rest: seq<string>)
    requires AllPositive(pool) && DistinctIds(pool) && i < |pool| && DistinctAmong(rest, Ids(Without(pool, i)))
    ensures DistinctAmong([pool[i].id] + rest, Ids(pool))
  {
    WithoutIds(pool, i);
    DistinctFirst(pool[i].id, rest, Ids(pool));
  }

  /** The pool has one place for each entrant with a positive weight, so that many names can be drawn. */
  lemma PoolCounts(entries: seq<Entry>)
    requires Acceptable(entries)
    ensures |Pool(entries)| == |set e | e in entries && e.weight > 0 :: e.id|
    ensures Ids(Pool(entries)) == set e | e in entries && e.weight > 0 :: e.id
  {
    PoolIsDistinct(entries);
    DistinctByCount(Pool(entries));
    var sorted := Sorted(entries);
    forall e ensures e in sorted <==> e in entries {
      assert e in multiset(sorted) <==> e in multiset(entries);
    }
    forall e | e in entries && e.weight > 0 ensures e.id in Ids(Pool(entries)) {
      assert e in Pool(entries);
      var i :| 0 <= i < |Pool(entries)| && Pool(entries)[i] == e;
    }
    forall i | 0 <= i < |Pool(entries)| ensures Pool(entries)[i] in entries && Pool(entries)[i].weight > 0 {
      assert Pool(entries)[i] in Pool(entries);
    }
    assert Ids(Pool(entries)) == set e | e in entries && e.weight > 0 :: e.id;
  }

  // ------------------------------------------------------------------ fairness

  /** The numbers below `n` whose residue lies in `t`. */
  ghost function Hits(bound: int, n: int, t: set<int>): set<int>
    requires bound > 0
  {
    set v | 0 <= v < n && v % bound in t
  }

  /** The numbers of `t`, moved up. */
  ghost function Moved(t: set<int>, up: int): set<int> {
    set r | r in t :: Plus(r, up)
  }

  function Plus(r: int, up: int): int { r + up }

  lemma Member<T>(t: set<T>) returns (x: T)
    requires t != {}
    ensures x in t
  {
    x :| x in t;
  }

  lemma {:induction false} MovedCount(t: set<int>, up: int)
    ensures |Moved(t, up)| == |t|
  {
    if t != {} {
      var x := Member(t);
      MovedCount(t - {x}, up);
      MovedBut(t, x, up);
    }
  }

  lemma MovedBut(t: set<int>, x: int, up: int)
    requires x in t
    ensures Moved(t, up) == Moved(t - {x}, up) + {Plus(x, up)} && Plus(x, up) !in Moved(t - {x}, up)
  {
    assert t == t - {x} + {x};
  }

  /** In `q` whole rounds of residues, each set of residues is hit `q` times its size. */
  lemma {:induction false} HitsPerRound(bound: int, q: nat, t: set<int>)
    requires bound > 0 && forall r | r in t :: 0 <= r < bound
    ensures |Hits(bound, bound * q, t)| == q * |t|
  {
    if q == 0 {
      assert Hits(bound, bound * q, t) == {};
    } else {
      var before, now := Hits(bound, bound * (q - 1), t), Moved(t, bound * (q - 1));
      HitsPerRound(bound, q - 1, t);
      MovedCount(t, bound * (q - 1));
      LastRound(bound, q, t);
      assert before !! now;
      assert q * |t| == (q - 1) * |t| + |t|;
    }
  }

  lemma LastRound(bound: int, q: int, t: set<int>)
    requires bound > 0 && q > 0 && forall r | r in t :: 0 <= r < bound
    ensures Hits(bound, bound * q, t) == Hits(bound, bound * (q - 1), t) + Moved(t, bound * (q - 1))
  {
    var base := bound * (q - 1);
    assert bound * q == base + bound && base >= 0;
    forall v | base <= v < base + bound ensures v % bound == v - base {
      Division(bound, v, q - 1, v - base);
    }
    RoundAdds(bound, base, t);
  }

  lemma RoundAdds(bound: int, base: int, t: set<int>)
    requires bound > 0 && base >= 0 && (forall r | r in t :: 0 <= r < bound)
    requires forall v | base <= v < base + bound :: v % bound == v - base
    ensures Hits(bound, base + bound, t) == Hits(bound, base, t) + Moved(t, base)
  {
    forall v | v in Hits(bound, base + bound, t) ensures v in Hits(bound, base, t) + Moved(t, base) {
      if v >= base { assert v - base in t && v == Plus(v - base, base); }
    }
    forall v | v in Moved(t, base) ensures v in Hits(bound, base + bound, t) {
      var r :| r in t && v == Plus(r, base);
      assert base <= v < base + bound;
    }
  }

  /** The accepted values are whole rounds, and more than half of all values. */
  lemma MostAreAccepted(bound: int)
    requires 0 < bound <= SPACE
    ensures Limit(bound) == bound * (SPACE / bound) && 2 * Limit(bound) > SPACE && SPACE / bound >= 1
  {
    var q, r := SPACE / bound, SPACE % bound;
    assert SPACE == bound * q + r;
    Multiples(bound, q);
    assert q <= 0 ==> bound * q <= 0;
  }

  /** Every set of numbers below the bound comes from its size times equally many accepted values. */
  lemma AcceptedHits(bound: int, t: set<int>)
    requires 0 < bound <= SPACE && forall r | r in t :: 0 <= r < bound
    ensures |Hits(bound, Limit(bound), t)| == |t| * (Limit(bound) / bound)
  {
    var q := SPACE / bound;
    MostAreAccepted(bound);
    HitsPerRound(bound, q, t);
    Division(bound, Limit(bound), q, 0);
  }

  /** Every number below the bound comes from equally many accepted values. */
  lemma EveryResidueEqually(bound: int, r: int)
    requires 0 <= r < bound <= SPACE
    ensures |Hits(bound, Limit(bound), {r})| == Limit(bound) / bound
  {
    AcceptedHits(bound, {r});
  }

  ghost function Range(a: int, b: int): (s: set<int>)
    requires a <= b
    ensures |s| == b - a && forall t :: t in s <==> a <= t < b
    decreases b - a
  {
    if a == b then {} else Range(a, b - 1) + {b - 1}
  }

  /** The accepted values that make entry `i` the winner of a round. */
  ghost function WinningValues(pool: seq<Entry>, i: nat): set<int>
    requires AllPositive(pool) && i < |pool| && Total(pool) > 0
  {
    set v | 0 <= v < Limit(Total(pool)) && Picks(pool, v % Total(pool), i)
  }

  /** The tickets of entry `i` lie between the totals before and after it. */
  lemma TicketRange(pool: seq<Entry>, i: nat)
    requires AllPositive(pool) && i < |pool|
    ensures 0 <= Total(pool[..i]) <= Total(pool[..i + 1]) <= Total(pool)
    ensures Total(pool[..i + 1]) - Total(pool[..i]) == pool[i].weight
  {
    assert pool[..i + 1][..i] == pool[..i];
    assert pool[..|pool|] == pool;
    TotalGrows(pool, i, i + 1);
    TotalGrows(pool, i + 1, |pool|);
  }

  /** An entry of weight `w` wins a round by exactly `w` times as many values as a single ticket has. */
  lemma ChancesAreProportional(pool: seq<Entry>, i: nat)
    requires AllPositive(pool) && i < |pool| && 0 < Total(pool) <= SPACE
    ensures |WinningValues(pool, i)| == pool[i].weight * (Limit(Total(pool)) / Total(pool))
  {
    TicketRange(pool, i);
    var total, tickets := Total(pool), Range(Total(pool[..i]), Total(pool[..i + 1]));
    AcceptedHits(total, tickets);
    WinningAreHits(pool, i);
  }

  lemma WinningAreHits(pool: seq<Entry>, i: nat)
    requires AllPositive(pool) && i < |pool| && 0 < Total(pool)
    requires 0 <= Total(pool[..i]) <= Total(pool[..i + 1]) <= Total(pool)
    ensures WinningValues(pool, i) == Hits(Total(pool), Limit(Total(pool)), Range(Total(pool[..i]), Total(pool[..i + 1])))
  {
  }

  // ------------------------------------------------------------- the snapshot

  function Line(e: Entry): string { e.id + "," + Signed(e.weight) + "\n" }

  function Lines(entries: seq<Entry>): string {
    if entries == [] then [] else Line(entries[0]) + Lines(entries[1..])
  }

  /** The text whose digest is published: `snapshot_digest` before hashing. */
  function Canonical(entries: seq<Entry>): string { Lines(Sorted(entries)) }

  ghost predicate OneLineIds(entries: seq<Entry>) {
    forall i | 0 <= i < |entries| :: '\n' !in entries[i].id
  }

  /** A text up to its first mark. */
  lemma {:induction false} FirstMark(a: string, b: string, p: string, q: string, mark: char)
    requires a + [mark] + b == p + [mark] + q && mark !in a && mark !in p
    ensures a == p && b == q
  {
    var s, t := a + [mark] + b, p + [mark] + q;
    assert s[0] == if a == [] then mark else a[0];
    assert t[0] == if p == [] then mark else p[0];
    if a != [] && p != [] {
      assert s[1..] == a[1..] + [mark] + b && t[1..] == p[1..] + [mark] + q;
      FirstMark(a[1..], b, p[1..], q, mark);
      assert a == [a[0]] + a[1..] && p == [p[0]] + p[1..];
    } else {
      assert a == [] && p == [];
      assert b == s[1..] && q == t[1..];
    }
  }

  /** A text from its last mark on. */
  lemma {:induction false} LastMark(a: string, b: string, p: string, q: string, mark: char)
    requires a + [mark] + b == p + [mark] + q && mark !in b && mark !in q
    ensures a == p && b == q
    decreases |b|
  {
    var s, t := a + [mark] + b, p + [mark] + q;
    var m, n := |b| - 1, |q| - 1;
    assert s[|s| - 1] == if b == [] then mark else b[m];
    assert t[|t| - 1] == if q == [] then mark else q[n];
    if b != [] && q != [] {
      assert s[..|s| - 1] == a + [mark] + b[..m] && t[..|t| - 1] == p + [mark] + q[..n];
      LastMark(a, b[..m], p, q[..n], mark);
      assert b == b[..m] + [b[m]] && q == q[..n] + [q[n]];
    } else {
      assert b == [] && q == [];
      assert a == s[..|s| - 1] && p == t[..|t| - 1];
    }
  }

  lemma LineDecides(e: Entry, rest: string, f: Entry, more: string)
    requires Line(e) + rest == Line(f) + more && '\n' !in e.id && '\n' !in f.id
    ensures e == f && rest == more
  {
    SignedCharacters(e.weight);
    SignedCharacters(f.weight);
    var a, p := e.id + "," + Signed(e.weight), f.id + "," + Signed(f.weight);
    assert Line(e) + rest == a + ['\n'] + rest && Line(f) + more == p + ['\n'] + more;
    FirstMark(a, rest, p, more, '\n');
    LastMark(e.id, Signed(e.weight), f.id, Signed(f.weight), ',');
    SignedIsInjective(e.weight, f.weight);
  }

  lemma {:induction false} LinesDecide(a: seq<Entry>, b: seq<Entry>)
    requires OneLineIds(a) && OneLineIds(b) && Lines(a) == Lines(b)
    ensures a == b
  {
    if a != [] && b != [] {
      LineDecides(a[0], Lines(a[1..]), b[0], Lines(b[1..]));
      LinesDecide(a[1..], b[1..]);
      assert a == [a[0]] + a[1..] && b == [b[0]] + b[1..];
    }
  }

  /** Two snapshots have the same canonical text exactly when they hold the same entries, in whatever order. */
  lemma SnapshotCommits(a: seq<Entry>, b: seq<Entry>)
    requires OneLineIds(a) && OneLineIds(b)
    ensures Canonical(a) == Canonical(b) <==> multiset(a) == multiset(b)
  {
    if multiset(a) == multiset(b) { SortedIsUnique(Sorted(a), Sorted(b)); }
    if Canonical(a) == Canonical(b) {
      SortedIds(a);
      SortedIds(b);
      LinesDecide(Sorted(a), Sorted(b));
    }
  }

  lemma SortedIds(a: seq<Entry>)
    requires OneLineIds(a)
    ensures OneLineIds(Sorted(a))
  {
    forall i | 0 <= i < |Sorted(a)| ensures '\n' !in Sorted(a)[i].id {
      assert Sorted(a)[i] in multiset(a);
      var j :| 0 <= j < |a| && a[j] == Sorted(a)[i];
    }
  }

  lemma Associates(a: string, b: string, c: string)
    ensures a + (b + c) == a + b + c && a + [] == a && [] + a == a
  {
  }

  lemma LinesOf(e: Entry, rest: seq<Entry>)
    ensures Lines([e] + rest) == Line(e) + Lines(rest)
  {
    assert ([e] + rest)[1..] == rest;
  }

  lemma {:induction false} LinesSnoc(entries: seq<Entry>, e: Entry)
    ensures Lines(entries + [e]) == Lines(entries) + Line(e)
  {
    if entries == [] {
      OneLine(e);
      assert entries + [e] == [e];
      Associates(Line(e), [], []);
    } else {
      var rest, one := entries[1..], entries[0];
      LinesSnoc(rest, e);
      assert entries + [e] == [one] + (rest + [e]);
      LinesOf(one, rest + [e]);
      Associates(Line(one), Lines(rest), Line(e));
    }
  }

  lemma OneLine(e: Entry)
    ensures Lines([e]) == Line(e) && Canonical([e]) == Line(e)
  {
    SortedIsUnique(Sorted([e]), [e]);
    assert [e] == [e] + [];
    LinesOf(e, []);
    Associates(Line(e), [], []);
  }

  lemma EndsInBreak(before: seq<Entry>)
    requires before != []
    ensures '\n' in Lines(before)
  {
    assert Line(before[0])[|Line(before[0])| - 1] == '\n';
  }

  lemma MergedLine(text: string, e: Entry)
    ensures Line(Entry(text + e.id, e.weight)) == text + Line(e)
  {
  }

  /** Ids with line breaks void the commitment: a single entry can have the text of any snapshot of two or more. */
  lemma LineBreaksVoidTheCommitment(a: seq<Entry>) returns (merged: Entry)
    requires |a| >= 2
    ensures Canonical([merged]) == Canonical(a) && multiset([merged]) != multiset(a)
    ensures merged.weight == Sorted(a)[|a| - 1].weight && '\n' in merged.id
  {
    var n := |a| - 1;
    var before, last := Sorted(a)[..n], Sorted(a)[n];
    merged := Entry(Lines(before) + last.id, last.weight);
    LinesSnoc(before, last);
    assert before + [last] == Sorted(a);
    OneLine(merged);
    MergedLine(Lines(before), last);
    EndsInBreak(before);
    assert |multiset([merged])| == 1 && |multiset(a)| == |a|;
  }
}
