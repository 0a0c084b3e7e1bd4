/**
 The mini-game leaderboard query. `row_number()` numbers rows in the order asked for and
 breaks ties as the database pleases, so a query may give any of the results that
 `IsRanking` allows, and two queries may give different ones.
 */
module Leaderboard {
  import opened Prelude

  type User = nat

  datatype Direction = Lowest | Highest

  /** An accepted run of the board's game inside the window. */
  datatype Run = Run(user: User, score: real, at: int)

  predicate BetterScore(d: Direction, a: real, b: real) { if d.Lowest? then a < b else a > b }

  /** The better score, and on equal scores whoever set it first. */
  predicate Better(d: Direction, a: Run, b: Run) {
    BetterScore(d, a.score, b.score) || (a.score == b.score && a.at < b.at)
  }

  predicate Tied(a: Run, b: Run) { a.score == b.score && a.at == b.at }

  /** A row that may come first among its player's rows (`rn == 1`). */
  ghost predicate IsBest(d: Direction, runs: set<Run>, r: Run) {
    r in runs && forall q | q in runs && q.user == r.user :: !Better(d, q, r)
  }

  predicate DistinctUsers(ranking: seq<Run>) {
    forall i, j | 0 <= i < j < |ranking| :: ranking[i].user != ranking[j].user
  }

  predicate InOrder(d: Direction, ranking: seq<Run>) {
    forall i, j | 0 <= i < j < |ranking| :: !Better(d, ranking[j], ranking[i])
  }

  /** The players of a list of rows. */
  function Users(ranking: seq<Run>): set<User> {
    set i | 0 <= i < |ranking| :: ranking[i].user
  }

  function Players(runs: set<Run>): set<User> {
    set r | r in runs :: r.user
  }

  /** A result of the two window functions: one best row for each player, numbered in order. */
  ghost predicate IsRanking(d: Direction, runs: set<Run>, ranking: seq<Run>) {
    && (forall i | 0 <= i < |ranking| :: IsBest(d, runs, ranking[i]))
    && DistinctUsers(ranking) && Users(ranking) == Players(runs) && InOrder(d, ranking)
  }

  /** `top(limit)`: place `i` of it has rank `i + 1`. */
  function Top(ranking: seq<Run>, limit: nat): seq<Run> {
    if limit < |ranking| then ranking[..limit] else ranking
  }

  /** `rank_of(user)`. */
  function RankOf(ranking: seq<Run>, u: User): Option<(nat, real)> {
    if ranking == [] then None
    else
      var n := |ranking| - 1;
      if ranking[n].user == u then Some((n + 1, ranking[n].score)) else RankOf(ranking[..n], u)
  }

  /** No two players' best runs agree in score and time. */
  ghost predicate NoTies(d: Direction, runs: set<Run>) {
    forall a, b | IsBest(d, runs, a) && IsBest(d, runs, b) && Tied(a, b) :: a.user == b.user
  }

  // ----------------------------------------------------------------- the order

  lemma Trichotomy(d: Direction, a: Run, b: Run)
    ensures Better(d, a, b) || Better(d, b, a) || Tied(a, b)
    ensures !(Better(d, a, b) && Better(d, b, a)) && !(Tied(a, b) && Better(d, a, b))
  {
  }

  lemma BestsAreTied(d: Direction, runs: set<Run>, a: Run, b: Run)
    requires IsBest(d, runs, a) && IsBest(d, runs, b) && a.user == b.user
    ensures Tied(a, b)
  {
    Trichotomy(d, a, b);
  }

  lemma {:induction false} RankOfFinds(ranking: seq<Run>, u: User)
    requires DistinctUsers(ranking)
    ensures match RankOf(ranking, u)
            case None => u !in Users(ranking)
            case Some(p) => 1 <= p.0 <= |ranking| && ranking[p.0 - 1].user == u && ranking[p.0 - 1].score == p.1
  {
    if ranking != [] {
      var n := |ranking| - 1;
      RankOfFinds(ranking[..n], u);
      if RankOf(ranking, u).None? {
        forall i | 0 <= i < |ranking| ensures ranking[i].user != u {
          if i < n { assert ranking[..n][i].user in Users(ranking[..n]); }
        }
      }
    }
  }

  /** The players whose best run beats that of `u`. */
  ghost function Ahead(d: Direction, runs: set<Run>, u: User): set<User> {
    set a | a in runs && IsBest(d, runs, a) && (exists b :: IsBest(d, runs, b) && b.user == u && Better(d, a, b)) :: a.user
  }

  lemma {:induction false} UsersCount(ranking: seq<Run>)
    requires DistinctUsers(ranking)
    ensures |Users(ranking)| == |ranking|
  {
    if ranking != [] {
      var n := |ranking| - 1;
      UsersCount(ranking[..n]);
      assert Users(ranking) == Users(ranking[..n]) + {ranking[n].user};
    }
  }

  /** Everyone ahead stands before: a rank is at least one more than their number, and exactly that when nobody is tied. */
  lemma RankIsOneMoreThanThoseAhead(d: Direction, runs: set<Run>, ranking: seq<Run>, i: nat)
    requires IsRanking(d, runs, ranking) && i < |ranking|
    ensures |Ahead(d, runs, ranking[i].user)| <= i
    ensures NoTies(d, runs) ==> |Ahead(d, runs, ranking[i].user)| == i
  {
    var u, before := ranking[i].user, ranking[..i];
    UsersCount(before);
    forall w | w in Ahead(d, runs, u) ensures w in Users(before) {
      AheadStandsBefore(d, runs, ranking, i, w);
    }
    assert Ahead(d, runs, u) <= Users(before);
    Subset(Ahead(d, runs, u), Users(before));
    if NoTies(d, runs) {
      forall j | 0 <= j < i ensures ranking[j].user in Ahead(d, runs, u) {
        Trichotomy(d, ranking[j], ranking[i]);
      }
      assert Ahead(d, runs, u) == Users(before);
    }
  }

  lemma AheadStandsBefore(d: Direction, runs: set<Run>, ranking: seq<Run>, i: nat, w: User)
    requires IsRanking(d, runs, ranking) && i < |ranking| && w in Ahead(d, runs, ranking[i].user)
    ensures w in Users(ranking[..i])
  {
    var a :| IsBest(d, runs, a) && a.user == w && exists b :: IsBest(d, runs, b) && b.user == ranking[i].user && Better(d, a, b);
    var b :| IsBest(d, runs, b) && b.user == ranking[i].user && Better(d, a, b);
    BestsAreTied(d, runs, b, ranking[i]);
    assert w in Players(runs);
    var j :| 0 <= j < |ranking| && ranking[j].user == w;
    BestsAreTied(d, runs, a, ranking[j]);
    assert Better(d, ranking[j], ranking[i]);
    assert j < i;
    assert ranking[..i][j].user == w;
  }

  lemma Subset<T>(a: set<T>, b: set<T>)
    requires a <= b
    ensures |a| <= |b|
  {
    assert b == a + (b - a);
  }

  // ------------------------------------------------------------- one ranking

  /** Two results place the same players, with the same scores, at the same ranks. */
  ghost predicate SamePlaces(r: seq<Run>, q: seq<Run>) {
    |r| == |q| && forall i | 0 <= i < |r| :: r[i].user == q[i].user && Tied(r[i], q[i])
  }

  /** Without ties there is nothing for the database to choose. */
  lemma NoTiesNoChoice(d: Direction, runs: set<Run>, r: seq<Run>, q: seq<Run>)
    requires NoTies(d, runs) && IsRanking(d, runs, r) && IsRanking(d, runs, q)
    ensures SamePlaces(r, q)
  {
    UsersCount(r);
    UsersCount(q);
    forall i | 0 <= i < |r| ensures r[i].user == q[i].user && Tied(r[i], q[i]) {
      assert r[i].user in Users(q);
      var j :| 0 <= j < |q| && q[j].user == r[i].user;
      RankIsOneMoreThanThoseAhead(d, runs, r, i);
      RankIsOneMoreThanThoseAhead(d, runs, q, j);
      BestsAreTied(d, runs, r[i], q[i]);
    }
  }

  function SwapAt(r: seq<Run>, i: nat, j: nat): seq<Run>
    requires i < |r| && j < |r|
  {
    r[i := r[j]][j := r[i]]
  }

  /** Two tied players may change places. */
  lemma TiesMaySwap(d: Direction, runs: set<Run>, r: seq<Run>, i: nat, j: nat)
    requires IsRanking(d, runs, r) && i < j < |r| && Tied(r[i], r[j])
    ensures IsRanking(d, runs, SwapAt(r, i, j)) && !SamePlaces(r, SwapAt(r, i, j))
  {
    var q := SwapAt(r, i, j);
    forall k | 0 <= k < |r| ensures r[k].user in Users(q) {
      var l := if k == i then j else if k == j then i else k;
      assert q[l] == r[k];
    }
    forall k | 0 <= k < |q| ensures q[k].user in Users(r) {
      var l := if k == i then j else if k == j then i else k;
      assert q[k] == r[l];
    }
    assert Users(q) == Users(r);
    forall k, l | 0 <= k < l < |q| ensures !Better(d, q[l], q[k]) {
      assert Tied(q[k], r[k]) && Tied(q[l], r[l]);
    }
    assert q[i].user != r[i].user;
  }

  /** The query always has a result. */
  lemma SomeRanking(d: Direction, runs: set<Run>) returns (r: seq<Run>)
    ensures IsRanking(d, runs, r)
  {
    r := RankPlayers(d, runs, Players(runs));
  }

  lemma {:induction false} RankPlayers(d: Direction, runs: set<Run>, users: set<User>) returns (r: seq<Run>)
    requires users <= Players(runs)
    ensures (forall i | 0 <= i < |r| :: IsBest(d, runs, r[i])) && DistinctUsers(r) && Users(r) == users && InOrder(d, r)
  {
    if users == {} {
      r := [];
    } else {
      var u :| u in users;
      var rest := RankPlayers(d, runs, users - {u});
      var mine := set q | q in runs && q.user == u;
      var any :| any in runs && any.user == u;
      assert any in mine;
      var best := BestOf(d, mine);
      assert IsBest(d, runs, best);
      r := Place(d, best, rest);
      forall i | 0 <= i < |r| ensures IsBest(d, runs, r[i]) { assert r[i] in r; }
    }
  }

  lemma {:induction false} BestOf(d: Direction, mine: set<Run>) returns (best: Run)
    requires mine != {}
    ensures best in mine && forall q | q in mine :: !Better(d, q, best)
    decreases mine
  {
    var x :| x in mine;
    best := x;
    if mine != {x} {
      var y := BestOf(d, mine - {x});
      if Better(d, y, x) { best := y; }
      forall q | q in mine ensures !Better(d, q, best) {
        assert q == x || q in mine - {x};
        Trichotomy(d, x, y);
      }
    }
  }

  lemma UsersSnoc(s: seq<Run>, x: Run)
    ensures Users(s + [x]) == Users(s) + {x.user}
  {
    var t := s + [x];
    forall u | u in Users(s) ensures u in Users(t) {
      var i :| 0 <= i < |s| && s[i].user == u;
      assert t[i] == s[i];
    }
    assert t[|s|].user == x.user;
  }

  /** `x` may stand behind all of `s`. */
  ghost predicate Behind(d: Direction, s: seq<Run>, x: Run) {
    x.user !in Users(s) && forall i | 0 <= i < |s| :: !Better(d, x, s[i])
  }

  lemma Append(d: Direction, s: seq<Run>, x: Run)
    requires DistinctUsers(s) && InOrder(d, s) && Behind(d, s, x)
    ensures DistinctUsers(s + [x]) && InOrder(d, s + [x]) && Users(s + [x]) == Users(s) + {x.user}
  {
    UsersSnoc(s, x);
    forall i | 0 <= i < |s| ensures s[i].user != x.user { assert s[i].user in Users(s); }
  }

  /** The last of a list in order, taken off, may stand behind the rest and whatever is better. */
  lemma LastBehind(d: Direction, rest: seq<Run>, x: Run, s: seq<Run>)
    requires rest != [] && DistinctUsers(rest) && InOrder(d, rest) && x.user !in Users(rest) && Better(d, x, rest[|rest| - 1])
    requires Users(s) == Users(rest[..|rest| - 1]) + {x.user} && forall q | q in s :: q == x || q in rest[..|rest| - 1]
    ensures Behind(d, s, rest[|rest| - 1])
  {
    var n := |rest| - 1;
    assert rest[n].user in Users(rest);
    assert rest[n].user !in Users(rest[..n]);
    forall i | 0 <= i < |s| ensures !Better(d, rest[n], s[i]) {
      assert s[i] in s;
      if s[i] != x {
        var k :| 0 <= k < n && rest[..n][k] == s[i];
        assert rest[k] == s[i];
      }
    }
  }

  /** Inserts a row behind everything that is not worse. */
  lemma {:induction false} Place(d: Direction, x: Run, rest: seq<Run>) returns (r: seq<Run>)
    requires DistinctUsers(rest) && InOrder(d, rest) && x.user !in Users(rest)
    ensures DistinctUsers(r) && InOrder(d, r) && Users(r) == Users(rest) + {x.user}
    ensures forall q | q in r :: q == x || q in rest
  {
    var n := |rest| - 1;
    if rest != [] && Better(d, x, rest[n]) {
      UsersSnoc(rest[..n], rest[n]);
      assert rest == rest[..n] + [rest[n]];
      var s := Place(d, x, rest[..n]);
      LastBehind(d, rest, x, s);
      Append(d, s, rest[n]);
      r := s + [rest[n]];
    } else {
      forall i | 0 <= i < |rest| ensures !Better(d, x, rest[i]) {
        if i < n { assert !Better(d, rest[n], rest[i]); }
      }
      Append(d, rest, x);
      r := rest + [x];
    }
  }

  /** Every query gives the same places if and only if no two players are tied. */
  lemma PlacesAreFixed(d: Direction, runs: set<Run>)
    ensures NoTies(d, runs) <==> forall r, q :: IsRanking(d, runs, r) && IsRanking(d, runs, q) ==> SamePlaces(r, q)
  {
    if NoTies(d, runs) {
      forall r, q | IsRanking(d, runs, r) && IsRanking(d, runs, q) ensures SamePlaces(r, q) {
        NoTiesNoChoice(d, runs, r, q);
      }
    } else {
      var a, b :| IsBest(d, runs, a) && IsBest(d, runs, b) && Tied(a, b) && a.user != b.user;
      var r := SomeRanking(d, runs);
      assert a.user in Users(r) && b.user in Users(r);
      var i :| 0 <= i < |r| && r[i].user == a.user;
      var j :| 0 <= j < |r| && r[j].user == b.user;
      BestsAreTied(d, runs, a, r[i]);
      BestsAreTied(d, runs, b, r[j]);
      var k, l := if i < j then i else j, if i < j then j else i;
      TiesMaySwap(d, runs, r, k, l);
      assert IsRanking(d, runs, r) && IsRanking(d, runs, SwapAt(r, k, l)) && !SamePlaces(r, SwapAt(r, k, l));
    }
  }

  /**
   Two queries agree: whoever `rank_of` puts within the limit stands at that rank of `top` with
   that score, and nobody else stands there.
   */
  lemma RankOfAgreesWithTop(d: Direction, runs: set<Run>, r: seq<Run>, q: seq<Run>, limit: nat, u: User, rank: nat)
    requires NoTies(d, runs) && IsRanking(d, runs, r) && IsRanking(d, runs, q) && 1 <= rank
    ensures |Top(r, limit)| == if limit < |Players(runs)| then limit else |Players(runs)|
    ensures RankOf(q, u).Some? && RankOf(q, u).value.0 == rank && rank <= limit
            <==> rank <= |Top(r, limit)| && Top(r, limit)[rank - 1].user == u
    ensures rank <= |Top(r, limit)| && Top(r, limit)[rank - 1].user == u ==> RankOf(q, u) == Some((rank, Top(r, limit)[rank - 1].score))
    ensures RankOf(q, u).None? <==> u !in Players(runs)
  {
    NoTiesNoChoice(d, runs, r, q);
    UsersCount(r);
    RankOfFinds(q, u);
    if rank <= |q| && q[rank - 1].user == u { assert u in Users(q); }
    if RankOf(q, u).Some? { assert q[RankOf(q, u).value.0 - 1].user in Users(q); }
  }
}
