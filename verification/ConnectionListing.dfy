/** When ListByUser is exact: live connections that are in no set but their owner's. */
module ConnectionListing {
  import opened RedisIndex
  import opened RedisRuns
  import opened RedisStore

  // A live connection is in no set but its owner's.
  ghost predicate Exclusive(db: Db) {
    forall u, c :: c in db.Members(u) && db.Live(c) ==> db.infos[c].info.user == u
  }

  // The id is dead, but still a member of another user's set.
  ghost predicate LeftOver(db: Db, c: ConnId, u: UserId) {
    !db.Live(c) && exists v :: v != u && c in db.Members(v)
  }

  lemma PlacedMembers(db: Db, c: ConnId, info: Info, ttl: Ttl)
    ensures forall v :: Placed(db, c, info, ttl).Members(v)
                        == if v == info.user then db.Members(v) + {c} else db.Members(v)
  {
    PlacedSets(db, c, info, ttl);
  }

  ghost predicate ExclusiveBut(db: Db, c: ConnId) {
    forall u, d :: d in db.Members(u) && db.Live(d) && d != c ==> db.infos[d].info.user == u
  }

  ghost predicate InNoOtherSet(db: Db, c: ConnId, u: UserId) {
    forall v :: v != u ==> c !in db.Members(v)
  }

  // After the SREM of a move, or right away, the id is in no set but those it is left over in.
  lemma PlacingKeepsExclusiveIff(db: Db, c: ConnId, info: Info, ttl: Ttl)
    requires ExclusiveBut(db, c)
    ensures Exclusive(Placed(db, c, info, ttl)) <==> InNoOtherSet(db, c, info.user)
  {
    var db' := Placed(db, c, info, ttl);
    PlacedSets(db, c, info, ttl);
    PlacedMembers(db, c, info, ttl);
    assert db'.Live(c) && db'.infos[c].info.user == info.user;
    if Exclusive(db') {
      forall v | v != info.user ensures c !in db.Members(v) { assert db'.Members(v) == db.Members(v); }
    }
  }

  /** An accepted Add keeps live connections out of other users' sets exactly when the
      id is not left over, dead, in the set of another user. */
  lemma AddKeepsExclusiveIff(db: Db, c: ConnId, info: Info, ttl: Ttl, max: nat)
    requires Exclusive(db) && Named(db) && info.user != "" && LuaAdd(db, c, info, ttl, max).1
    ensures Exclusive(LuaAdd(db, c, info, ttl, max).0) <==> !LeftOver(db, c, info.user)
  {
    var moved := db.Live(c) && db.infos[c].info.user != info.user;
    var base := if moved then db.SRem(db.infos[c].info.user, {c}) else db;
    assert forall v, d :: d in base.Members(v) ==> d in db.Members(v);
    assert base.infos == db.infos && base.now == db.now;
    PlacingKeepsExclusiveIff(base, c, info, ttl);
  }

  lemma OtherStepsKeepExclusive(cfg: Config, s: System, a: Action)
    requires Exclusive(s.db) && !a.Add?
    ensures Exclusive(Step(cfg, s, a).db)
  {
    var db' := Step(cfg, s, a).db;
    OnlyAddRaises(cfg, s, a);
    forall u, c | c in db'.Members(u) && db'.Live(c) ensures db'.infos[c].info.user == u {
      assert c in s.db.Members(u) && s.db.Live(c);
    }
  }

  // Every Add is safe, and none uses an id that is left over in another user's set.
  ghost predicate CleanRun(cfg: Config, s: System, actions: seq<Action>)
    decreases |actions|
  {
    actions == []
    || (&& Safe(cfg, s, actions[0])
        && (actions[0].Add? ==> !LeftOver(s.db, actions[0].conn, actions[0].info.user))
        && CleanRun(cfg, Step(cfg, s, actions[0]), actions[1..]))
  }

  lemma StepKeepsExclusive(cfg: Config, s: System, a: Action)
    requires Inv(cfg, s) && Exclusive(s.db) && Safe(cfg, s, a)
    requires a.Add? ==> !LeftOver(s.db, a.conn, a.info.user)
    ensures Exclusive(Step(cfg, s, a).db)
  {
    if !a.Add? {
      OtherStepsKeepExclusive(cfg, s, a);
    } else if a.conn != "" && a.info.user != "" {
      if AddOf(cfg, s.db, a.conn, a.info).1 {
        AddKeepsExclusiveIff(s.db, a.conn, a.info, ResolveTtl(a.info.ttl, cfg.defaultTtl), cfg.max);
      }
    }
  }

  lemma {:induction false} RunKeepsExclusive(cfg: Config, s: System, actions: seq<Action>)
    requires Inv(cfg, s) && Exclusive(s.db) && CleanRun(cfg, s, actions)
    ensures Inv(cfg, Run(cfg, s, actions)) && Exclusive(Run(cfg, s, actions).db)
    decreases |actions|
  {
    if actions != [] {
      StepKeepsInvIff(cfg, s, actions[0]);
      StepKeepsExclusive(cfg, s, actions[0]);
      RunKeepsExclusive(cfg, Step(cfg, s, actions[0]), actions[1..]);
    }
  }

  ghost predicate Covers(scan: seq<seq<ConnId>>, db: Db, u: UserId) {
    forall c :: c in Flatten(scan) <==> c in db.Members(u)
  }

  ghost predicate ListsTheLive(scan: seq<seq<ConnId>>, db: Db, u: UserId) {
    forall c :: c in LiveKeys(db, Flatten(scan)) <==> c in db.LiveOf(u)
  }

  ghost predicate NoStrangers(db: Db, u: UserId) {
    forall c :: c in db.Members(u) && db.Live(c) ==> db.infos[c].info.user == u
  }

  /** After every such run a scan that covers a user's set lists exactly the user's
      live connections. */
  lemma ListingIsExact(cfg: Config, actions: seq<Action>, u: UserId, scan: seq<seq<ConnId>>)
    requires CleanRun(cfg, EMPTY, actions)
    requires Covers(scan, Run(cfg, EMPTY, actions).db, u)
    ensures ListsTheLive(scan, Run(cfg, EMPTY, actions).db, u)
  {
    RunKeepsExclusive(cfg, EMPTY, actions);
    assert NoStrangers(Run(cfg, EMPTY, actions).db, u);
    FullScanListsTheLiveIff(Run(cfg, EMPTY, actions).db, u, scan);
  }

  /** A scan that covers the user's set lists exactly the user's live connections,
      exactly when the set holds no live connection of somebody else. */
  lemma FullScanListsTheLiveIff(db: Db, u: UserId, scan: seq<seq<ConnId>>)
    requires Indexed(db) && Covers(scan, db, u)
    ensures ListsTheLive(scan, db, u) <==> NoStrangers(db, u)
  {
    forall c ensures c in LiveKeys(db, Flatten(scan)) <==> c in db.Members(u) && db.Live(c) {
      LiveKeysAre(db, Flatten(scan), c);
    }
    forall c | c in db.LiveOf(u) ensures c in db.Members(u) { assert IndexedConn(db, c); }
  }
}
