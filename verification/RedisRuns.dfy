/** Every interleaving of the round trips of Add, Refresh, Remove, ListByUser and
    RemoveByUser with clock ticks. */
module RedisRuns {
  import opened RedisIndex

  // A client call between two of its round trips.
  datatype Call =
    | Removing(conn: ConnId, user: UserId)
    | Refreshing(conn: ConnId, user: UserId, ttl: Ttl)
    | Scanned(user: UserId, keys: set<ConnId>, stale: set<ConnId>)
    | Listing(user: UserId, stale: set<ConnId>)
    | Tidying(user: UserId)
    | Dropping(user: UserId, keys: set<ConnId>)

  datatype System = System(db: Db, calls: map<nat, Call>)

  datatype Action =
    | Tick(ms: nat)
    | Add(conn: ConnId, info: Info)
    | RemoveGet(call: nat, conn: ConnId)
    | RemoveRun(call: nat)
    | RefreshGet(call: nat, conn: ConnId)
    | RefreshRun(call: nat)
    | ListScan(call: nat, user: UserId, keys: set<ConnId>)
    | ListMGet(call: nat)
    | ListSRem(call: nat)
    | Cleanup(call: nat)
    | DropGet(call: nat, user: UserId)            // RemoveByUser: SMEMBERS
    | DropInfos(call: nat, batch: set<ConnId>)    // UNLINK of one batch of info keys
    | DropSet(call: nat)                          // UNLINK of the set

  function AddOf(cfg: Config, db: Db, c: ConnId, info: Info): (Db, bool) {
    LuaAdd(db, c, info, ResolveTtl(info.ttl, cfg.defaultTtl), cfg.max)
  }

  // One round trip. An action that its call is not ready for changes nothing.
  function Step(cfg: Config, s: System, a: Action): System {
    match a
    case Tick(ms) => s.(db := s.db.Advance(ms))
    case Add(c, info) => if c == "" || info.user == "" then s else s.(db := AddOf(cfg, s.db, c, info).0)
    case RemoveGet(k, c) =>
      if k in s.calls || !s.db.Live(c) then s
      else s.(calls := s.calls[k := Removing(c, s.db.infos[c].info.user)])
    case RemoveRun(k) =>
      if k !in s.calls || !s.calls[k].Removing? then s
      else s.(db := LuaRemove(s.db, s.calls[k].conn, s.calls[k].user),
              calls := s.calls[k := Tidying(s.calls[k].user)])
    case RefreshGet(k, c) =>
      if k in s.calls || !s.db.Live(c) then s
      else s.(calls := s.calls[k := Refreshing(c, s.db.infos[c].info.user,
                                               ResolveTtl(s.db.infos[c].info.ttl, cfg.defaultTtl))])
    case RefreshRun(k) =>
      if k !in s.calls || !s.calls[k].Refreshing? then s
      else s.(db := LuaRefresh(s.db, s.calls[k].conn, s.calls[k].user, s.calls[k].ttl), calls := s.calls - {k})
    case ListScan(k, u, keys) =>
      // SSCAN may return any part of the set, a part it returned before included.
      if !(keys <= s.db.Members(u)) then s
      else if k !in s.calls then s.(calls := s.calls[k := Scanned(u, keys, {})])
      else if s.calls[k].Listing? && s.calls[k].user == u then
        s.(calls := s.calls[k := Scanned(u, keys, s.calls[k].stale)])
      else s
    case ListMGet(k) =>
      if k !in s.calls || !s.calls[k].Scanned? then s
      else s.(calls := s.calls[k := Listing(s.calls[k].user,
                                            s.calls[k].stale + set c | c in s.calls[k].keys && !s.db.Live(c))])
    case ListSRem(k) =>
      if k !in s.calls || !s.calls[k].Listing? then s
      else if s.calls[k].stale == {} then s.(calls := s.calls - {k})
      else s.(db := s.db.SRem(s.calls[k].user, s.calls[k].stale), calls := s.calls[k := Tidying(s.calls[k].user)])
    case Cleanup(k) =>
      if k !in s.calls || !s.calls[k].Tidying? then s
      else s.(db := LuaCleanupEmptySet(s.db, s.calls[k].user), calls := s.calls - {k})
    case DropGet(k, u) =>
      if k in s.calls || s.db.Members(u) == {} then s else s.(calls := s.calls[k := Dropping(u, s.db.Members(u))])
    case DropInfos(k, batch) =>
      if k !in s.calls || !s.calls[k].Dropping? then s
      else s.(db := s.db.DelInfos(batch * s.calls[k].keys),
              calls := s.calls[k := Dropping(s.calls[k].user, s.calls[k].keys - batch)])
    case DropSet(k) =>
      if k !in s.calls || !s.calls[k].Dropping? || s.calls[k].keys != {} then s
      else s.(db := s.db.DelSet(s.calls[k].user), calls := s.calls - {k})
  }

  function Run(cfg: Config, s: System, actions: seq<Action>): System
    decreases |actions|
  {
    if actions == [] then s else Run(cfg, Step(cfg, s, actions[0]), actions[1..])
  }

  const EMPTY: System := System(EMPTY_DB, map[])

  // --------------------------------------------------------------------
  // The invariant
  // --------------------------------------------------------------------

  // What a call remembers between its round trips is still safe to act on.
  ghost predicate CallOk(db: Db, call: Call) {
    match call
    case Refreshing(c, u, _) => db.Live(c) ==> db.infos[c].info.user == u
    case Scanned(u, _, stale) => NotServing(db, u, stale)
    case Listing(u, stale) => NotServing(db, u, stale)
    case Dropping(u, keys) => db.LiveOf(u) <= keys
    case _ => true
  }

  ghost predicate Inv(cfg: Config, s: System) {
    DbInv(s.db, cfg.max) && forall k :: k in s.calls ==> CallOk(s.db, s.calls[k])
  }

  // The call can live with c becoming a connection of u.
  ghost predicate Welcome(call: Call, c: ConnId, u: UserId) {
    match call
    case Refreshing(c', u', _) => c' == c ==> u' == u
    case Scanned(u', _, stale) => u' == u ==> c !in stale
    case Listing(u', stale) => u' == u ==> c !in stale
    case Dropping(u', keys) => u' == u ==> c in keys
    case _ => true
  }

  /** When an Add is safe: it is not a move that is refused, and if it is accepted then
      no call in flight is about to refresh the id for another user, to take it out
      of this user's set as stale, or to drop this user without knowing the id. */
  ghost predicate Safe(cfg: Config, s: System, a: Action) {
    a.Add? && a.conn != "" && a.info.user != "" ==>
      && !RejectedMove(s.db, a.conn, a.info, cfg.max)
      && (AddOf(cfg, s.db, a.conn, a.info).1 ==> forall k :: k in s.calls ==> Welcome(s.calls[k], a.conn, a.info.user))
  }

  ghost predicate SafeRun(cfg: Config, s: System, actions: seq<Action>)
    decreases |actions|
  {
    actions == [] || (Safe(cfg, s, actions[0]) && SafeRun(cfg, Step(cfg, s, actions[0]), actions[1..]))
  }

  // --------------------------------------------------------------------
  // Every interleaving
  // --------------------------------------------------------------------

  // No connection comes alive or changes hands.
  ghost predicate NoneRise(db: Db, db': Db) {
    forall c :: db'.Live(c) ==> db.Live(c) && db'.infos[c].info.user == db.infos[c].info.user
  }

  lemma OnlyAddRaises(cfg: Config, s: System, a: Action)
    requires !a.Add?
    ensures NoneRise(s.db, Step(cfg, s, a).db)
  {
  }

  lemma RemoveKeepsDbInv(db: Db, c: ConnId, u: UserId, max: nat)
    requires DbInv(db, max)
    ensures DbInv(LuaRemove(db, c, u), max)
  {
    var db1 := db.DelInfos({c});
    DelInfosKeepsIndex(db, {c});
    SRemKeepsIndexIff(db1, u, {c});
    SRemKeepsLimit(db1, u, {c}, max);
  }

  lemma RefreshKeepsDbInv(db: Db, call: Call, max: nat)
    requires DbInv(db, max) && call.Refreshing? && CallOk(db, call)
    ensures DbInv(LuaRefresh(db, call.conn, call.user, call.ttl), max)
  {
    if db.Live(call.conn) { RefreshKeepsIndexIff(db, call.conn, call.user, call.ttl); }
  }

  lemma SRemKeepsDbInv(db: Db, call: Call, max: nat)
    requires DbInv(db, max) && call.Listing? && CallOk(db, call)
    ensures DbInv(db.SRem(call.user, call.stale), max)
  {
    SRemKeepsIndexIff(db, call.user, call.stale);
    SRemKeepsLimit(db, call.user, call.stale, max);
  }

  lemma DelSetKeepsDbInv(db: Db, call: Call, max: nat)
    requires DbInv(db, max) && call.Dropping? && call.keys == {} && CallOk(db, call)
    ensures DbInv(db.DelSet(call.user), max)
  {
    DelSetKeepsIndexIff(db, call.user);
  }

  lemma OtherStepsKeepDbInv(cfg: Config, s: System, a: Action)
    requires Inv(cfg, s) && !a.Add?
    ensures DbInv(Step(cfg, s, a).db, cfg.max)
  {
    match a
    case Tick(ms) => AdvanceKeepsIndex(s.db, ms);
    case RemoveRun(k) =>
      if k in s.calls && s.calls[k].Removing? { RemoveKeepsDbInv(s.db, s.calls[k].conn, s.calls[k].user, cfg.max); }
    case RefreshRun(k) =>
      if k in s.calls && s.calls[k].Refreshing? {
        assert CallOk(s.db, s.calls[k]);
        RefreshKeepsDbInv(s.db, s.calls[k], cfg.max);
      }
    case ListSRem(k) =>
      if k in s.calls && s.calls[k].Listing? {
        assert CallOk(s.db, s.calls[k]);
        SRemKeepsDbInv(s.db, s.calls[k], cfg.max);
      }
    case Cleanup(k) => if k in s.calls && s.calls[k].Tidying? { CleanupIsNoop(s.db, s.calls[k].user); }
    case DropInfos(k, batch) =>
      if k in s.calls && s.calls[k].Dropping? { DelInfosKeepsIndex(s.db, batch * s.calls[k].keys); }
    case DropSet(k) =>
      if k in s.calls && s.calls[k].Dropping? && s.calls[k].keys == {} {
        assert CallOk(s.db, s.calls[k]);
        DelSetKeepsDbInv(s.db, s.calls[k], cfg.max);
      }
    case _ =>
  }

  lemma OldCallStaysOk(db: Db, db': Db, call: Call)
    requires NoneRise(db, db') && CallOk(db, call)
    ensures CallOk(db', call)
  {
  }

  // The call that a step begins or moves on.
  lemma MovedCallIsOk(cfg: Config, s: System, a: Action, k: nat)
    requires Inv(cfg, s) && !a.Add? && k in Step(cfg, s, a).calls
    requires k !in s.calls || Step(cfg, s, a).calls[k] != s.calls[k]
    ensures CallOk(Step(cfg, s, a).db, Step(cfg, s, a).calls[k])
  {
    if k in s.calls { assert CallOk(s.db, s.calls[k]); }
  }

  lemma OtherStepsKeepInv(cfg: Config, s: System, a: Action)
    requires Inv(cfg, s) && !a.Add?
    ensures Inv(cfg, Step(cfg, s, a))
  {
    var s' := Step(cfg, s, a);
    OtherStepsKeepDbInv(cfg, s, a);
    OnlyAddRaises(cfg, s, a);
    forall k | k in s'.calls ensures CallOk(s'.db, s'.calls[k]) {
      if k in s.calls && s'.calls[k] == s.calls[k] {
        OldCallStaysOk(s.db, s'.db, s.calls[k]);
      } else {
        MovedCallIsOk(cfg, s, a, k);
      }
    }
  }

  lemma CallOkAfterAddIff(db: Db, c: ConnId, info: Info, ttl: Ttl, max: nat, call: Call)
    requires CallOk(db, call)
    ensures var (db', ok) := LuaAdd(db, c, info, ttl, max);
            CallOk(db', call) <==> (ok ==> Welcome(call, c, info.user))
  {
    var (db', ok) := LuaAdd(db, c, info, ttl, max);
    AddedInfos(db, c, info, ttl, max);
    assert ok ==> db'.Live(c) && c in db'.LiveOf(info.user);
    forall u, d | !ok || d != c ensures d in db'.LiveOf(u) <==> d in db.LiveOf(u) {
    }
  }

  /** The whole invariant survives an Add exactly when the Add is safe. */
  lemma StepKeepsInvIff(cfg: Config, s: System, a: Action)
    requires Inv(cfg, s)
    ensures Inv(cfg, Step(cfg, s, a)) <==> Safe(cfg, s, a)
  {
    if !a.Add? {
      OtherStepsKeepInv(cfg, s, a);
    } else if a.conn != "" && a.info.user != "" {
      var s', ttl := Step(cfg, s, a), ResolveTtl(a.info.ttl, cfg.defaultTtl);
      AddKeepsIndexIff(s.db, a.conn, a.info, ttl, cfg.max);
      AddKeepsLimit(s.db, a.conn, a.info, ttl, cfg.max);
      forall k | k in s.calls
        ensures CallOk(s'.db, s.calls[k])
                <==> (AddOf(cfg, s.db, a.conn, a.info).1 ==> Welcome(s.calls[k], a.conn, a.info.user))
      {
        CallOkAfterAddIff(s.db, a.conn, a.info, ttl, cfg.max, s.calls[k]);
      }
    }
  }

  lemma {:induction false} RunKeepsInv(cfg: Config, s: System, actions: seq<Action>)
    requires Inv(cfg, s) && SafeRun(cfg, s, actions)
    ensures Inv(cfg, Run(cfg, s, actions))
    decreases |actions|
  {
    if actions != [] {
      StepKeepsInvIff(cfg, s, actions[0]);
      RunKeepsInv(cfg, Step(cfg, s, actions[0]), actions[1..]);
    }
  }

  // The user's live connections are in the user's set, which outlives them, and are no
  // more than the limit allows.
  ghost predicate WithinBounds(cfg: Config, db: Db, u: UserId) {
    && db.LiveOf(u) <= db.Members(u)
    && (forall c :: c in db.LiveOf(u) ==> db.infos[c].expireAt <= db.now + db.Pttl(u))
    && (cfg.max > 0 ==> |db.LiveOf(u)| <= cfg.max)
  }

  /** In every interleaving of round trips and clock ticks in which each Add is safe,
      a live connection is found in its owner's set, the set outlives it, and no
      user has more live connections than the limit allows. */
  lemma LimitHolds(cfg: Config, actions: seq<Action>, u: UserId)
    requires SafeRun(cfg, EMPTY, actions)
    ensures WithinBounds(cfg, Run(cfg, EMPTY, actions).db, u)
  {
    RunKeepsInv(cfg, EMPTY, actions);
    var db := Run(cfg, EMPTY, actions).db;
    forall c | c in db.LiveOf(u) ensures c in db.Members(u) && db.infos[c].expireAt <= db.now + db.Pttl(u) {
      assert IndexedConn(db, c);
    }
    CardinalityOfSubset(db.LiveOf(u), db.Members(u));
  }

  // --------------------------------------------------------------------
  // Which Adds are safe
  // --------------------------------------------------------------------

  // No call in flight has this id in what it remembers.
  ghost predicate Mentions(call: Call, c: ConnId) {
    match call
    case Refreshing(c', _, _) => c' == c
    case Scanned(_, _, stale) => c in stale
    case Listing(_, stale) => c in stale
    case Dropping(_, keys) => c in keys
    case _ => false
  }

  ghost predicate BeingDropped(s: System, u: UserId) {
    exists k :: k in s.calls && s.calls[k].Dropping? && s.calls[k].user == u
  }

  /** An id that no call in flight remembers is safe for a user who is not being
      removed, whether it is new or was used before. */
  lemma UnmentionedAddIsSafe(cfg: Config, s: System, c: ConnId, info: Info)
    requires !s.db.Live(c) && !BeingDropped(s, info.user)
    requires forall k :: k in s.calls ==> !Mentions(s.calls[k], c)
    ensures Safe(cfg, s, Add(c, info))
  {
    forall k | k in s.calls ensures Welcome(s.calls[k], c, info.user) {
      assert !Mentions(s.calls[k], c);
    }
  }

  /** Adding a live connection again for its own user is safe whatever is in flight. */
  lemma OverwritingIsSafe(cfg: Config, s: System, c: ConnId, info: Info)
    requires Inv(cfg, s) && s.db.Live(c) && s.db.infos[c].info.user == info.user
    ensures Safe(cfg, s, Add(c, info))
  {
    assert c in s.db.LiveOf(info.user);
    forall k | k in s.calls ensures Welcome(s.calls[k], c, info.user) {
      assert CallOk(s.db, s.calls[k]);
    }
  }

  // --------------------------------------------------------------------
  // Runs with new ids
  // --------------------------------------------------------------------

  // The call remembers used ids only.
  ghost predicate Recalls(call: Call, used: set<ConnId>) {
    match call
    case Refreshing(c, _, _) => c in used
    case Scanned(_, keys, stale) => keys <= used && stale <= used
    case Listing(_, stale) => stale <= used
    case Dropping(_, keys) => keys <= used
    case _ => true
  }

  // Every id in the database or in a call was used before.
  ghost predicate OnlyUsed(s: System, used: set<ConnId>) {
    && s.db.infos.Keys <= used
    && (forall u :: u in s.db.sets ==> s.db.sets[u].members <= used)
    && forall k :: k in s.calls ==> Recalls(s.calls[k], used)
  }

  function UsedAfter(used: set<ConnId>, a: Action): set<ConnId> {
    if a.Add? then used + {a.conn} else used
  }

  /** What a caller controls: an Add uses an id that was never used before, for a user no
      RemoveByUser is at work on; or it overwrites a live connection of the user. */
  ghost predicate Considerate(s: System, used: set<ConnId>, a: Action) {
    a.Add? ==>
      || (a.conn !in used && !BeingDropped(s, a.info.user))
      || (s.db.Live(a.conn) && s.db.infos[a.conn].info.user == a.info.user)
  }

  ghost predicate ConsiderateRun(cfg: Config, s: System, used: set<ConnId>, actions: seq<Action>)
    decreases |actions|
  {
    || actions == []
    || (&& Considerate(s, used, actions[0])
        && ConsiderateRun(cfg, Step(cfg, s, actions[0]), UsedAfter(used, actions[0]), actions[1..]))
  }

  lemma ConsiderateIsSafe(cfg: Config, s: System, used: set<ConnId>, a: Action)
    requires Inv(cfg, s) && OnlyUsed(s, used) && Considerate(s, used, a)
    ensures Safe(cfg, s, a)
  {
    if a.Add? {
      if a.conn !in used && !BeingDropped(s, a.info.user) {
        forall k | k in s.calls ensures !Mentions(s.calls[k], a.conn) { assert Recalls(s.calls[k], used); }
        UnmentionedAddIsSafe(cfg, s, a.conn, a.info);
      } else {
        OverwritingIsSafe(cfg, s, a.conn, a.info);
      }
    }
  }

  lemma AddKeepsUsed(db: Db, c: ConnId, info: Info, ttl: Ttl, max: nat, used: set<ConnId>)
    requires db.infos.Keys <= used && forall u :: u in db.sets ==> db.sets[u].members <= used
    ensures var db' := LuaAdd(db, c, info, ttl, max).0;
            && db'.infos.Keys <= used + {c}
            && forall u :: u in db'.sets ==> db'.sets[u].members <= used + {c}
  {
    AddedInfos(db, c, info, ttl, max);
  }

  lemma OtherStepsKeepUsed(cfg: Config, s: System, used: set<ConnId>, a: Action)
    requires OnlyUsed(s, used) && !a.Add?
    ensures OnlyUsed(Step(cfg, s, a), used)
  {
  }

  lemma StepKeepsUsed(cfg: Config, s: System, used: set<ConnId>, a: Action)
    requires OnlyUsed(s, used)
    ensures OnlyUsed(Step(cfg, s, a), UsedAfter(used, a))
  {
    if a.Add? {
      AddKeepsUsed(s.db, a.conn, a.info, ResolveTtl(a.info.ttl, cfg.defaultTtl), cfg.max, used);
    } else {
      OtherStepsKeepUsed(cfg, s, used, a);
    }
  }

  /** Along such a run every Add is safe. */
  lemma {:induction false} ConsiderateRunsAreSafe(cfg: Config, s: System, used: set<ConnId>, actions: seq<Action>)
    requires Inv(cfg, s) && OnlyUsed(s, used) && ConsiderateRun(cfg, s, used, actions)
    ensures SafeRun(cfg, s, actions)
    decreases |actions|
  {
    if actions != [] {
      ConsiderateIsSafe(cfg, s, used, actions[0]);
      StepKeepsInvIff(cfg, s, actions[0]);
      StepKeepsUsed(cfg, s, used, actions[0]);
      ConsiderateRunsAreSafe(cfg, Step(cfg, s, actions[0]), UsedAfter(used, actions[0]), actions[1..]);
    }
  }

  /** With considerate callers the limit holds in every interleaving. */
  lemma LimitHoldsForConsiderateCallers(cfg: Config, actions: seq<Action>, u: UserId)
    requires ConsiderateRun(cfg, EMPTY, {}, actions)
    ensures SafeRun(cfg, EMPTY, actions) && WithinBounds(cfg, Run(cfg, EMPTY, actions).db, u)
  {
    ConsiderateRunsAreSafe(cfg, EMPTY, {}, actions);
    LimitHolds(cfg, actions, u);
  }

  // Every Add of the run uses an id of its own, and no RemoveByUser begins: nothing about
  // the state needs to be known.
  predicate NewIds(actions: seq<Action>, used: set<ConnId>)
    decreases |actions|
  {
    || actions == []
    || (&& (actions[0].Add? ==> actions[0].conn !in used) && !actions[0].DropGet?
        && NewIds(actions[1..], UsedAfter(used, actions[0])))
  }

  ghost predicate NoneDropped(s: System) {
    forall k :: k in s.calls ==> !s.calls[k].Dropping?
  }

  lemma {:induction false} NewIdsAreConsiderate(cfg: Config, s: System, used: set<ConnId>, actions: seq<Action>)
    requires NoneDropped(s) && NewIds(actions, used)
    ensures ConsiderateRun(cfg, s, used, actions)
    decreases |actions|
  {
    if actions != [] {
      assert NoneDropped(Step(cfg, s, actions[0]));
      NewIdsAreConsiderate(cfg, Step(cfg, s, actions[0]), UsedAfter(used, actions[0]), actions[1..]);
    }
  }

  /** New ids and no RemoveByUser: the limit holds whatever is interleaved. */
  lemma LimitHoldsForNewIds(cfg: Config, actions: seq<Action>, u: UserId)
    requires NewIds(actions, {})
    ensures WithinBounds(cfg, Run(cfg, EMPTY, actions).db, u)
  {
    NewIdsAreConsiderate(cfg, EMPTY, {}, actions);
    LimitHoldsForConsiderateCallers(cfg, actions, u);
  }
}
