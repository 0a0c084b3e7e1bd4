/**
 The sliding-window rate limiter: for each client a queue of the times of its admitted
 requests, trimmed at the front whenever the client calls again.
 */
module Limiter {

  type Client = string

  datatype Call = Call(client: Client, at: real, admitted: bool)

  /** The times of a client's admitted calls, in order. */
  function Admitted(history: seq<Call>, c: Client): seq<real> {
    if history == [] then []
    else
      var last := history[|history| - 1];
      Admitted(history[..|history| - 1], c) + if last.client == c && last.admitted then [last.at] else []
  }

  /** How many of the times lie less than `window` before `now`. */
  function Recent(times: seq<real>, now: real, window: real): nat {
    if times == [] then 0
    else Recent(times[..|times| - 1], now, window) + if now - times[|times| - 1] < window then 1 else 0
  }

  ghost predicate Nondecreasing(times: seq<real>) {
    forall i, j | 0 <= i < j < |times| :: times[i] <= times[j]
  }

  /** The clock never goes back, and the last reading is `now` at most. */
  ghost predicate InTime(history: seq<Call>, now: real) {
    && (forall i, j | 0 <= i < j < |history| :: history[i].at <= history[j].at)
    && (forall i | 0 <= i < |history| :: history[i].at <= now)
  }

  lemma {:induction false} AdmittedInTime(history: seq<Call>, c: Client, now: real)
    requires InTime(history, now)
    ensures Nondecreasing(Admitted(history, c)) && forall i | 0 <= i < |Admitted(history, c)| :: Admitted(history, c)[i] <= now
  {
    if history != [] {
      var n := |history| - 1;
      assert InTime(history[..n], history[n].at);
      AdmittedInTime(history[..n], c, history[n].at);
    }
  }

  /** With the old times gone from the front, all that is left is recent. */
  lemma {:induction false} RecentIsRest(times: seq<real>, k: nat, now: real, window: real)
    requires k <= |times|
    requires forall i | 0 <= i < k :: now - times[i] >= window
    requires forall i | k <= i < |times| :: now - times[i] < window
    ensures Recent(times, now, window) == |times| - k
    decreases |times|
  {
    if times != [] {
      var n := |times| - 1;
      RecentIsRest(times[..n], if k <= n then k else n, now, window);
    }
  }

  /** `queue` is what is left of the times `all` after dropping some from the front that were out of the window by `now`. */
  ghost predicate Rest(all: seq<real>, queue: seq<real>, now: real, window: real) {
    && |queue| <= |all| && queue == all[|all| - |queue|..]
    && forall i | 0 <= i < |all| - |queue| :: now - all[i] >= window
  }

  /** The queues kept for the clients fit the history of calls. */
  ghost predicate Queues(times: map<Client, seq<real>>, history: seq<Call>, window: real) {
    forall c :: FitsQueue(times, history, window, c)
  }

  ghost predicate FitsQueue(times: map<Client, seq<real>>, history: seq<Call>, window: real, c: Client) {
    if c in times then history != [] && Rest(Admitted(history, c), times[c], history[|history| - 1].at, window)
    else Admitted(history, c) == []
  }

  lemma LaterRest(all: seq<real>, queue: seq<real>, now: real, later: real, window: real)
    requires Rest(all, queue, now, window) && now <= later
    ensures Rest(all, queue, later, window)
  {
  }

  lemma AdmittedSnoc(history: seq<Call>, call: Call, c: Client)
    ensures Admitted(history + [call], c) == Admitted(history, c) + if call.client == c && call.admitted then [call.at] else []
  {
    assert (history + [call])[..|history|] == history;
  }

  lemma OthersFit(times: map<Client, seq<real>>, history: seq<Call>, window: real, call: Call, queue: seq<real>, d: Client)
    requires FitsQueue(times, history, window, d) && InTime(history, call.at) && d != call.client
    ensures FitsQueue(times[call.client := queue], history + [call], window, d)
  {
    AdmittedSnoc(history, call, d);
    if d in times { LaterRest(Admitted(history, d), times[d], history[|history| - 1].at, call.at, window); }
  }

  lemma OwnFits(times: map<Client, seq<real>>, history: seq<Call>, window: real, call: Call, queue: seq<real>)
    requires Rest(Admitted(history, call.client), queue, call.at, window)
    ensures FitsQueue(times[call.client := queue + if call.admitted then [call.at] else []], history + [call], window, call.client)
  {
    var all := Admitted(history, call.client);
    AdmittedSnoc(history, call, call.client);
    assert queue + [call.at] == (all + [call.at])[|all| - |queue|..];
  }

  /** Judging one more call keeps every queue fitting. */
  lemma QueuesFit(times: map<Client, seq<real>>, history: seq<Call>, window: real, call: Call, queue: seq<real>)
    requires Queues(times, history, window) && InTime(history, call.at) && Rest(Admitted(history, call.client), queue, call.at, window)
    ensures Queues(times[call.client := queue + if call.admitted then [call.at] else []], history + [call], window)
    ensures InTime(history + [call], call.at)
  {
    var now := queue + if call.admitted then [call.at] else [];
    var updated, after := times[call.client := now], history + [call];
    forall d ensures FitsQueue(updated, after, window, d) {
      if d == call.client { OwnFits(times, history, window, call, queue); } else { OthersFit(times, history, window, call, now, d); }
    }
  }

  /** The queue found for a client, at the time of its next call. */
  lemma QueueFound(times: map<Client, seq<real>>, history: seq<Call>, window: real, c: Client, now: real)
    requires Queues(times, history, window) && InTime(history, now)
    ensures Rest(Admitted(history, c), if c in times then times[c] else [], now, window)
  {
    assert FitsQueue(times, history, window, c);
  }

  /** A history the limiter produced: every call judged on what went before it. */
  ghost predicate Judged(history: seq<Call>, requests: int, window: real) {
    forall n | 0 <= n < |history| ::
      history[n].admitted <==> Recent(Admitted(history[..n], history[n].client), history[n].at, window) < requests
  }

  lemma JudgedSnoc(history: seq<Call>, requests: int, window: real, call: Call)
    requires Judged(history, requests, window)
    requires call.admitted <==> Recent(Admitted(history, call.client), call.at, window) < requests
    ensures Judged(history + [call], requests, window)
  {
    forall n | 0 <= n <= |history| ensures (history + [call])[..n] == history[..n] {}
    assert history[..|history|] == history;
  }

  class RateLimiter {
    const requests: int
    const window: real
    var times: map<Client, seq<real>>
    ghost var history: seq<Call>

    ghost predicate Valid()
      reads this
    {
      Queues(times, history, window) && Judged(history, requests, window)
    }

    constructor (requests: int, window: real)
      ensures Valid() && history == [] && this.requests == requests && this.window == window
    {
      this.requests, this.window, times, history := requests, window, map[], [];
    }

    /** `__call__` of a request that is not exempt: admitted or answered 429. */
    method Handle(c: Client, now: real) returns (admitted: bool)
      requires Valid() && InTime(history, now)
      modifies this
      ensures Valid() && history == old(history) + [Call(c, now, admitted)] && InTime(history, now)
      ensures admitted <==> Recent(Admitted(old(history), c), now, window) < requests
    {
      AdmittedInTime(history, c, now);
      QueueFound(times, history, window, c, now);
      var queue := Trim(if c in times then times[c] else [], now, Admitted(history, c));
      admitted := |queue| < requests;
      QueuesFit(times, history, window, Call(c, now, admitted), queue);
      JudgedSnoc(history, requests, window, Call(c, now, admitted));
      history := history + [Call(c, now, admitted)];
      times := times[c := queue + if admitted then [now] else []];
    }

    /** The loop that drops expired times. */
    method Trim(queue: seq<real>, now: real, ghost all: seq<real>) returns (rest: seq<real>)
      requires Rest(all, queue, now, window) && Nondecreasing(all)
      ensures Rest(all, rest, now, window) && Recent(all, now, window) == |rest|
    {
      rest := queue;
      while rest != [] && now - rest[0] >= window
        invariant Rest(all, rest, now, window)
        decreases |rest|
      {
        rest := rest[1..];
      }
      RecentIsRest(all, |all| - |rest|, now, window);
    }
  }

  // ---------------------------------------------------------------- theorems

  /** Among times in order, `m` in a row that end less than `window` before `now` are all recent. */
  lemma {:induction false} RecentAtLeast(times: seq<real>, i: nat, now: real, window: real)
    requires Nondecreasing(times) && i < |times| && now - times[i] < window
    ensures Recent(times, now, window) >= |times| - i
    decreases |times|
  {
    var n := |times| - 1;
    if i < n { RecentAtLeast(times[..n], i, now, window); }
  }

  /** The last call of the history that admitted the `j`th time of `c`. */
  lemma {:induction false} AdmittedAt(history: seq<Call>, c: Client, j: nat) returns (n: nat)
    requires j < |Admitted(history, c)|
    ensures n < |history| && history[n].client == c && history[n].admitted && history[n].at == Admitted(history, c)[j]
    ensures Admitted(history[..n], c) == Admitted(history, c)[..j]
  {
    var m := |history| - 1;
    if j < |Admitted(history[..m], c)| {
      n := AdmittedAt(history[..m], c, j);
      assert history[..m][..n] == history[..n];
    } else {
      n := m;
    }
  }

  /** Any `requests + 1` consecutive admitted calls of one client span at least the window. */
  lemma AdmittedCallsAreSpread(history: seq<Call>, requests: nat, window: real, now: real, c: Client, i: nat)
    requires Judged(history, requests, window) && InTime(history, now) && i + requests < |Admitted(history, c)|
    ensures Admitted(history, c)[i + requests] - Admitted(history, c)[i] >= window
  {
    AdmittedInTime(history, c, now);
    UnderTheLimit(history, requests, window, c, i + requests);
    SpreadOut(Admitted(history, c), i, requests, window);
  }

  /** Each admitted call found fewer than `requests` recent ones before it. */
  lemma UnderTheLimit(history: seq<Call>, requests: int, window: real, c: Client, j: nat)
    requires Judged(history, requests, window) && j < |Admitted(history, c)|
    ensures Recent(Admitted(history, c)[..j], Admitted(history, c)[j], window) < requests
  {
    var n := AdmittedAt(history, c, j);
    assert history[n].admitted;
  }

  lemma SpreadOut(all: seq<real>, i: nat, requests: nat, window: real)
    requires Nondecreasing(all) && i + requests < |all| && Recent(all[..i + requests], all[i + requests], window) < requests
    ensures all[i + requests] - all[i] >= window
  {
    if all[i + requests] - all[i] < window {
      RecentAtLeast(all[..i + requests], i, all[i + requests], window);
    }
  }

  /** Nobody is refused who did not have `requests` calls admitted within the window just before. */
  lemma RefusedOnlyWhenFull(history: seq<Call>, requests: nat, window: real, now: real, n: nat)
    requires Judged(history, requests, window) && InTime(history, now) && n < |history| && !history[n].admitted
    ensures var all := Admitted(history[..n], history[n].client);
            requests <= |all| && forall i | |all| - requests <= i < |all| :: history[n].at - all[i] < window
  {
    var all := Admitted(history[..n], history[n].client);
    assert InTime(history[..n], history[n].at);
    AdmittedInTime(history[..n], history[n].client, history[n].at);
    RecentAreLast(all, requests, history[n].at, window);
  }

  lemma {:induction false} RecentAreLast(times: seq<real>, m: nat, now: real, window: real)
    requires Nondecreasing(times) && m <= Recent(times, now, window)
    ensures m <= |times| && forall i | |times| - m <= i < |times| :: now - times[i] < window
    decreases |times|
  {
    if times != [] {
      var n := |times| - 1;
      if now - times[n] < window {
        if m > 0 { RecentAreLast(times[..n], m - 1, now, window); }
      } else {
        NoneRecent(times, now, window);
      }
    }
  }

  lemma {:induction false} NoneRecent(times: seq<real>, now: real, window: real)
    requires times != [] && Nondecreasing(times) && now - times[|times| - 1] >= window
    ensures Recent(times, now, window) == 0
    decreases |times|
  {
    if |times| > 1 { NoneRecentBefore(times, |times| - 1, now, window); }
  }

  lemma {:induction false} NoneRecentBefore(times: seq<real>, n: nat, now: real, window: real)
    requires n < |times| && Nondecreasing(times) && now - times[|times| - 1] >= window
    ensures Recent(times[..n], now, window) == 0
  {
    if n > 0 {
      NoneRecentBefore(times, n - 1, now, window);
      assert times[..n][..n - 1] == times[..n - 1];
    }
  }

  /** When a client called, whatever the answers were. */
  function Times(history: seq<Call>, c: Client): seq<real> {
    if history == [] then []
    else
      var last := history[|history| - 1];
      Times(history[..|history| - 1], c) + if last.client == c then [last.at] else []
  }

  /** The calls of one client, with their verdicts. */
  function Only(history: seq<Call>, c: Client): seq<Call> {
    if history == [] then []
    else Only(history[..|history| - 1], c) + if history[|history| - 1].client == c then [history[|history| - 1]] else []
  }

  /** A client who calls at the same times gets the same verdicts, whatever other clients do. */
  lemma {:induction false} ClientsAreSeparate(a: seq<Call>, b: seq<Call>, requests: int, window: real, c: Client)
    requires Judged(a, requests, window) && Judged(b, requests, window) && Times(a, c) == Times(b, c)
    ensures Only(a, c) == Only(b, c)
    decreases |a| + |b|
  {
    var m, n := |a| - 1, |b| - 1;
    if a != [] && a[m].client != c {
      JudgedBefore(a, requests, window);
      ClientsAreSeparate(a[..m], b, requests, window, c);
    } else if b != [] && b[n].client != c {
      JudgedBefore(b, requests, window);
      ClientsAreSeparate(a, b[..n], requests, window, c);
    } else if a != [] {
      assert b != [];
      var before, others := Times(a[..m], c), Times(b[..n], c);
      SameSnoc(before, others, a[m].at, b[n].at);
      JudgedBefore(a, requests, window);
      JudgedBefore(b, requests, window);
      ClientsAreSeparate(a[..m], b[..n], requests, window, c);
      AdmittedOfOnly(a[..m], c);
      AdmittedOfOnly(b[..n], c);
      assert a[m].admitted <==> b[n].admitted;
    }
  }

  lemma SameSnoc(before: seq<real>, others: seq<real>, x: real, y: real)
    requires before + [x] == others + [y]
    ensures before == others && x == y
  {
    assert before == (before + [x])[..|before|] && others == (others + [y])[..|others|];
    assert x == (before + [x])[|before|] && y == (others + [y])[|others|];
  }

  lemma JudgedBefore(history: seq<Call>, requests: int, window: real)
    requires Judged(history, requests, window) && history != []
    ensures Judged(history[..|history| - 1], requests, window)
  {
    var before := history[..|history| - 1];
    forall n | 0 <= n < |before| ensures before[..n] == history[..n] && before[n] == history[n] {}
  }

  lemma {:induction false} AdmittedOfOnly(history: seq<Call>, c: Client)
    ensures Admitted(Only(history, c), c) == Admitted(history, c)
  {
    if history != [] {
      var n := |history| - 1;
      AdmittedOfOnly(history[..n], c);
      AdmittedSnoc(Only(history[..n], c), history[n], c);
      assert Only(history[..n], c) + [] == Only(history[..n], c);
      assert Admitted(history[..n], c) + [] == Admitted(history[..n], c);
    }
  }
}
