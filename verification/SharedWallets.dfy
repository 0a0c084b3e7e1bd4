/**
 Coin calls and mini-game calls side by side. Both kinds lock the player's wallet row first,
 so each waits for the other; a mini-game call, too, adds the wallet row where it is missing.
 */
module SharedWallets {
  import opened Prelude
  import opened Tables
  import opened Transactions
  import opened Economy
  import Coins = Interleaving
  import Concurrency
  import Games = MiniGameCalls

  datatype State = State(coins: Coins.State, games: Games.State)

  datatype Action = Coin(coin: Coins.Action) | Game(game: Games.Action)

  // ------------------------------------------------------------------ steps

  ghost predicate CoinHolds(s: State, u: User) {
    exists t :: t in s.coins.active && s.coins.active[t].local.HoldsWallet() && LockUser(s.coins.active[t].local.req) == u
  }

  ghost predicate GameHolds(s: State, u: User) {
    exists t :: t in s.games.active && s.games.active[t].locked && s.games.active[t].call.user == u
  }

  /** A coin call that waits for another one, or wants a wallet that a mini-game call has locked. */
  ghost predicate CoinWaits(s: State, t: nat)
    requires t in s.coins.active
  {
    var l := s.coins.active[t].local;
    Coins.Waiting(s.coins, t) || (l.pc.TakeWallet? && GameHolds(s, LockUser(l.req)))
  }

  ghost predicate GameWaits(s: State, t: nat)
    requires t in s.games.active
  {
    var l := s.games.active[t];
    Games.Waiting(s.games, t) || (l.pc.TakeWallet? && CoinHolds(s, l.call.user))
  }

  ghost predicate Next(cfg: Config, s: State, a: Action, n: State) {
    match a
    case Coin(c) =>
      && Coins.Next(cfg, s.coins, c, n.coins) && n.games == s.games
      && (c.Statement? && c.t in s.coins.active ==> !CoinWaits(s, c.t))
    case Game(g) =>
      && Games.Next(s.games, g, n.games)
      && (g.Statement? && g.t in s.games.active ==> !GameWaits(s, g.t))
      && n.coins == if g.Commit? && g.t in s.games.active then WithWallet(s.coins, s.games.active[g.t].call.user) else s.coins
  }

  /** The wallet row of the player is there, empty when it was missing. */
  function WithWallet(s: Coins.State, u: User): Coins.State { s.(db := DoOp(s.db, LockWallet(u))) }

  ghost predicate Execution(cfg: Config, first: Db, states: seq<State>, actions: seq<Action>) {
    && |states| == |actions| + 1
    && states[0].coins.db == first && states[0].coins.active == map[]
    && (forall k: Key | k.AdminAdjustment? && HasKey(first.ledger, k) :: k.uuid in states[0].coins.uuids)
    && states[0].games == Games.State(map[], map[], [], {})
    && forall i | 0 <= i < |actions| :: Next(cfg, states[i], actions[i], states[i + 1])
  }

  // -------------------------------------------------------------- invariant

  /** No wallet is locked by both a coin call and a mini-game call. */
  ghost predicate Apart(s: State) {
    forall u: User :: !(CoinHolds(s, u) && GameHolds(s, u))
  }

  ghost predicate Safe(cfg: Config, s: State) {
    Concurrency.Safe(cfg, s.coins) && Games.Safe(s.games) && Apart(s)
  }

  /** Only the statement that takes the wallet lock makes a holder of a call that was none. */
  lemma NewHolder(cfg: Config, s: Coins.State, t: nat)
    requires Concurrency.Safe(cfg, s) && t in s.active && s.active[t].local.Running() && !s.active[t].local.HoldsWallet()
    ensures var n := Step(cfg, s.active[t].local, View(s.db, s.active[t].local));
            n.req == s.active[t].local.req && (n.HoldsWallet() ==> s.active[t].local.pc.TakeWallet?)
  {
    var l := s.active[t].local;
    Coins.TrajShape(cfg, l.req, s.db, s.active[t].steps);
    StepWrites(cfg, l, View(s.db, l));
    if !l.pc.TakeWallet? { WritesNothingYet(cfg, l, View(s.db, l)); }
  }

  lemma WritesNothingYet(cfg: Config, l: Local, v: Db)
    requires BeforeLock(l.pc) && !l.pc.TakeWallet?
    ensures Step(cfg, l, v).ops == l.ops
  {
  }

  lemma SameRequest(cfg: Config, l: Local, v: Db)
    ensures Step(cfg, l, v).req == l.req
  {
    StepWrites(cfg, l, v);
  }

  /** Who holds a wallet after a coin action held it before, or took a lock that was free. */
  lemma CoinHolders(cfg: Config, s: State, c: Coins.Action, n: State, t: nat)
    requires Safe(cfg, s) && Next(cfg, s, Coin(c), n) && t in n.coins.active && n.coins.active[t].local.HoldsWallet()
    ensures var u := LockUser(n.coins.active[t].local.req); CoinHolds(s, u) || !GameHolds(s, u)
  {
    var l := n.coins.active[t].local;
    if c.Statement? && c.t == t {
      var m := s.coins.active[t].local;
      SameRequest(cfg, m, View(s.coins.db, m));
      if !m.HoldsWallet() { NewHolder(cfg, s.coins, t); }
    } else if !c.Begin? || c.t != t {
      assert s.coins.active[t] == n.coins.active[t];
    }
  }

  lemma CoinKeepsSafe(cfg: Config, s: State, c: Coins.Action, n: State)
    requires ValidZone(cfg.zone) && Safe(cfg, s) && Next(cfg, s, Coin(c), n)
    ensures Safe(cfg, n)
  {
    Concurrency.NextIsSafe(cfg, s.coins, c, n.coins);
    forall u: User ensures !(CoinHolds(n, u) && GameHolds(n, u)) {
      if t :| t in n.coins.active && n.coins.active[t].local.HoldsWallet() && LockUser(n.coins.active[t].local.req) == u {
        CoinHolders(cfg, s, c, n, t);
        assert GameHolds(n, u) == GameHolds(s, u);
      }
    }
  }

  /** The same for a mini-game action. */
  lemma GameHolders(s: State, g: Games.Action, n: Games.State, t: nat)
    requires Games.Next(s.games, g, n) && Games.Safe(s.games) && t in n.active && n.active[t].locked
    requires g.Statement? && g.t in s.games.active ==> !GameWaits(s, g.t)
    ensures var u := n.active[t].call.user; GameHolds(s, u) || !CoinHolds(s, u)
  {
    if g.Statement? && g.t == t {
      assert n.active[t].call == s.games.active[t].call;
      assert Games.OnPath(s.games.runs, s.games.active[t]);
    } else if !g.Begin? || g.t != t {
      assert s.games.active[t] == n.active[t];
    }
  }

  /** A wallet row added under a lock that no coin call has changes nothing for the coin calls in flight. */
  lemma WalletForOther(db: Db, u: User, l: Local)
    requires LockUser(l.req) != u && (l.HoldsCode() ==> l.req.code in db.codes)
    ensures Coins.SameFor(db, DoOp(db, LockWallet(u)), l)
  {
  }

  lemma WalletKeepsTxn(cfg: Config, s: Coins.State, u: User, t: nat)
    requires Concurrency.Safe(cfg, s) && t in s.active && (s.active[t].local.HoldsWallet() ==> LockUser(s.active[t].local.req) != u)
    ensures Concurrency.OnPath(cfg, WithWallet(s, u).db, s.active[t])
  {
    var l, k := s.active[t].local, s.active[t].steps;
    var after := WithWallet(s, u).db;
    if !l.pc.Failed? {
      Coins.TrajClaimsFree(cfg, l.req, s.db, k);
      if l.HoldsWallet() { WalletForOther(s.db, u, l); }
      Coins.TrajMoves(cfg, l.req, s.db, after, k);
    }
  }

  lemma WalletKeepsReads(s: Coins.State, u: User, l: Local)
    requires Concurrency.SettleReads(s.db, l) && Concurrency.UuidFresh(s, l)
    ensures Concurrency.SettleReads(WithWallet(s, u).db, l) && Concurrency.UuidFresh(WithWallet(s, u), l)
  {
  }

  lemma WalletKeepsCoins(cfg: Config, s: Coins.State, u: User)
    requires Concurrency.Safe(cfg, s)
    requires forall t | t in s.active && s.active[t].local.HoldsWallet() :: LockUser(s.active[t].local.req) != u
    ensures Concurrency.Safe(cfg, WithWallet(s, u))
  {
    var n := WithWallet(s, u);
    LockKeeps(cfg, s.db, u);
    forall t | t in n.active
      ensures Concurrency.OnPath(cfg, n.db, n.active[t]) && Concurrency.SettleReads(n.db, n.active[t].local) && Concurrency.UuidFresh(n, n.active[t].local)
    {
      WalletKeepsTxn(cfg, s, u, t);
      WalletKeepsReads(s, u, s.active[t].local);
    }
  }

  lemma GameKeepsSafe(cfg: Config, s: State, g: Games.Action, n: State)
    requires Safe(cfg, s) && Next(cfg, s, Game(g), n)
    ensures Safe(cfg, n)
  {
    Games.NextIsSafe(s.games, g, n.games);
    if g.Commit? {
      var u := s.games.active[g.t].call.user;
      assert Games.OnPath(s.games.runs, s.games.active[g.t]);
      assert GameHolds(s, u);
      forall t | t in s.coins.active && s.coins.active[t].local.HoldsWallet() ensures LockUser(s.coins.active[t].local.req) != u {
        assert CoinHolds(s, LockUser(s.coins.active[t].local.req));
      }
      WalletKeepsCoins(cfg, s.coins, u);
    }
    forall u: User ensures !(CoinHolds(n, u) && GameHolds(n, u)) {
      assert CoinHolds(n, u) == CoinHolds(s, u);
      if t :| t in n.games.active && n.games.active[t].locked && n.games.active[t].call.user == u { GameHolders(s, g, n.games, t); }
    }
  }

  /** Both kinds of calls interleaved keep both invariants, and no wallet lock is held twice. */
  lemma {:induction false} AlwaysSafe(cfg: Config, first: Db, states: seq<State>, actions: seq<Action>, i: nat)
    requires ValidZone(cfg.zone) && Inv(cfg, first) && Execution(cfg, first, states, actions) && i < |states|
    ensures Safe(cfg, states[i])
  {
    if i > 0 {
      AlwaysSafe(cfg, first, states, actions, i - 1);
      assert Next(cfg, states[i - 1], actions[i - 1], states[i]);
      match actions[i - 1]
      case Coin(c) => CoinKeepsSafe(cfg, states[i - 1], c, states[i]);
      case Game(g) => GameKeepsSafe(cfg, states[i - 1], g, states[i]);
    }
  }

  // ---------------------------------------------------------------- deadlock

  /** Some call in flight waits for no lock. */
  ghost predicate SomebodyMoves(s: State) {
    || (exists t :: t in s.coins.active && !CoinWaits(s, t))
    || (exists t :: t in s.games.active && !GameWaits(s, t))
  }

  lemma GameHolderMoves(s: State, u: User)
    requires Games.Safe(s.games) && GameHolds(s, u)
    ensures SomebodyMoves(s)
  {
    var t :| t in s.games.active && s.games.active[t].locked && s.games.active[t].call.user == u;
    assert Games.OnPath(s.games.runs, s.games.active[t]);
    assert !GameWaits(s, t);
  }

  /** A call that has its wallet lock wants no wallet. */
  lemma HolderWantsNoWallet(cfg: Config, s: Coins.State, t: nat)
    requires Concurrency.Safe(cfg, s) && t in s.active && s.active[t].local.HoldsWallet()
    ensures !s.active[t].local.pc.TakeWallet?
  {
    Coins.TrajShape(cfg, s.active[t].local.req, s.db, s.active[t].steps);
  }

  lemma CoinHolderMoves(cfg: Config, s: State, u: User)
    requires Concurrency.Safe(cfg, s.coins) && CoinHolds(s, u)
    ensures SomebodyMoves(s)
  {
    var t :| t in s.coins.active && s.coins.active[t].local.HoldsWallet() && LockUser(s.coins.active[t].local.req) == u;
    HolderWantsNoWallet(cfg, s.coins, t);
    if CoinWaits(s, t) {
      var p :| p in s.coins.active && Coins.WaitsFor(s.coins, t, p);
      HolderWantsNoWallet(cfg, s.coins, p);
      Concurrency.LockHoldersMove(cfg, s.coins, p);
      assert !CoinWaits(s, p);
    }
  }

  /** The wallet lock first, for coin calls and mini-game calls alike: whenever calls are in flight, one of them waits for nobody. */
  lemma NoDeadlock(cfg: Config, first: Db, states: seq<State>, actions: seq<Action>, i: nat)
    requires ValidZone(cfg.zone) && Inv(cfg, first) && Execution(cfg, first, states, actions) && i < |states|
    requires states[i].coins.active != map[] || states[i].games.active != map[]
    ensures SomebodyMoves(states[i])
  {
    AlwaysSafe(cfg, first, states, actions, i);
    var s := states[i];
    if s.games.active != map[] {
      var t :| t in s.games.active;
      GameMoves(cfg, s, t);
    } else {
      var t :| t in s.coins.active;
      CoinMoves(cfg, s, t);
    }
  }

  lemma GameMoves(cfg: Config, s: State, t: nat)
    requires Safe(cfg, s) && t in s.games.active
    ensures SomebodyMoves(s)
  {
    var u := s.games.active[t].call.user;
    if CoinHolds(s, u) {
      CoinHolderMoves(cfg, s, u);
    } else if Games.Waiting(s.games, t) {
      assert GameHolds(s, u);
      GameHolderMoves(s, u);
    }
  }

  lemma CoinMoves(cfg: Config, s: State, t: nat)
    requires Safe(cfg, s) && t in s.coins.active
    ensures SomebodyMoves(s)
  {
    var u := LockUser(s.coins.active[t].local.req);
    if GameHolds(s, u) {
      GameHolderMoves(s, u);
    } else if Coins.Waiting(s.coins, t) {
      var o :| o in s.coins.active && Coins.WaitsFor(s.coins, t, o);
      assert s.coins.active[o].local.HoldsWallet();
      CoinHolderMoves(cfg, s, LockUser(s.coins.active[o].local.req));
    }
  }
}
