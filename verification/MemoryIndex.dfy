/** The in-memory connection store: two maps kept as exact inverses, and its
    agreement with the Redis index while nothing expires and no connection
    changes owner. */
module MemoryIndex {
  import R = RedisIndex

  type ConnId = R.ConnId
  type UserId = R.UserId

  datatype Index = Index(infoByKey: map<ConnId, UserId>, userSet: map<UserId, set<ConnId>>) {

    function Conns(u: UserId): set<ConnId> {
      if u in userSet then userSet[u] else {}
    }

    predicate Owns(u: UserId, c: ConnId) {
      c in infoByKey && infoByKey[c] == u
    }

    // Each map is the inverse of the other.
    ghost predicate Inverse() {
      forall u, c {:trigger c in Conns(u)} :: c in Conns(u) <==> Owns(u, c)
    }

    ghost predicate NoEmptyEntry() {
      forall u :: u in userSet ==> userSet[u] != {}
    }

    function Dropped(u: UserId, c: ConnId): Index {
      if u !in userSet then this
      else if userSet[u] - {c} == {} then this.(userSet := userSet - {u})
      else this.(userSet := userSet[u := userSet[u] - {c}])
    }
  }

  function Added(s: Index, c: ConnId, u: UserId, max: nat): (Index, bool) {
    if c !in s.infoByKey && max > 0 && |s.Conns(u)| >= max then (s, false)
    else
      var base := if c in s.infoByKey && s.infoByKey[c] != u then s.Dropped(s.infoByKey[c], c) else s;
      (Put(base, c, u), true)
  }

  function Removed(s: Index, c: ConnId): Index {
    if c !in s.infoByKey then s
    else s.Dropped(s.infoByKey[c], c).(infoByKey := s.infoByKey - {c})
  }

  function RemovedUser(s: Index, u: UserId): Index {
    Index(s.infoByKey - s.Conns(u), s.userSet - {u})
  }

  lemma DroppedConns(s: Index, u: UserId, c: ConnId)
    ensures forall v :: s.Dropped(u, c).Conns(v) == if v == u then s.Conns(u) - {c} else s.Conns(v)
  {
  }

  function Put(base: Index, c: ConnId, u: UserId): Index {
    Index(base.infoByKey[c := u], base.userSet[u := base.Conns(u) + {c}])
  }

  lemma PutConns(base: Index, c: ConnId, u: UserId)
    ensures forall v :: Put(base, c, u).Conns(v) == if v == u then base.Conns(u) + {c} else base.Conns(v)
  {
  }

  // The connection joins its new user and leaves every other one.
  lemma AddedConns(s: Index, c: ConnId, u: UserId, max: nat)
    requires s.Inverse() && Added(s, c, u, max).1
    ensures var s' := Added(s, c, u, max).0;
            && s'.infoByKey == s.infoByKey[c := u]
            && (forall v :: s'.Conns(v) == if v == u then s.Conns(u) + {c} else s.Conns(v) - {c})
  {
    var s' := Added(s, c, u, max).0;
    var base := if c in s.infoByKey && s.infoByKey[c] != u then s.Dropped(s.infoByKey[c], c) else s;
    if base != s { DroppedConns(s, s.infoByKey[c], c); }
    PutConns(base, c, u);
    forall v ensures s'.Conns(v) == if v == u then s.Conns(u) + {c} else s.Conns(v) - {c} {
      assert c in s.Conns(v) <==> s.Owns(v, c);
    }
  }

  lemma AddedKeepsInverse(s: Index, c: ConnId, u: UserId, max: nat)
    requires s.Inverse()
    ensures Added(s, c, u, max).0.Inverse()
  {
    var (s', ok) := Added(s, c, u, max);
    if ok {
      AddedConns(s, c, u, max);
      forall v, d ensures d in s'.Conns(v) <==> s'.Owns(v, d) {
        assert d in s.Conns(v) <==> s.Owns(v, d);
      }
    }
  }

  lemma RemovedKeepsInverse(s: Index, c: ConnId)
    requires s.Inverse()
    ensures Removed(s, c).Inverse()
    ensures forall v :: Removed(s, c).Conns(v) == s.Conns(v) - {c}
  {
    var s' := Removed(s, c);
    forall v ensures s'.Conns(v) == s.Conns(v) - {c} {
      assert c in s.Conns(v) <==> s.Owns(v, c);
    }
    forall v, d ensures d in s'.Conns(v) <==> s'.Owns(v, d) {
      assert d in s.Conns(v) <==> s.Owns(v, d);
    }
  }

  lemma RemovedUserKeepsInverse(s: Index, u: UserId)
    requires s.Inverse()
    ensures RemovedUser(s, u).Inverse()
    ensures forall v :: RemovedUser(s, u).Conns(v) == if v == u then {} else s.Conns(v)
  {
    var s' := RemovedUser(s, u);
    forall v, d ensures d in s'.Conns(v) <==> s'.Owns(v, d) {
      assert d in s.Conns(v) <==> s.Owns(v, d);
      assert d in s.Conns(u) <==> s.Owns(u, d);
    }
  }

  lemma StepsLeaveNoEmptyEntry(s: Index, c: ConnId, u: UserId, max: nat)
    requires s.NoEmptyEntry()
    ensures Added(s, c, u, max).0.NoEmptyEntry()
    ensures Removed(s, c).NoEmptyEntry()
    ensures RemovedUser(s, u).NoEmptyEntry()
  {
    var s' := Added(s, c, u, max).0;
    if u in s'.userSet && s' != s { assert c in s'.userSet[u]; }
  }

  class MemoryConnectionStore {
    var infoByKey: map<ConnId, UserId>
    var userSet: map<UserId, set<ConnId>>
    const max: nat

    ghost function State(): Index
      reads this
    {
      Index(infoByKey, userSet)
    }

    ghost predicate Valid()
      reads this
    {
      State().Inverse() && State().NoEmptyEntry()
    }

    constructor (max: nat)
      ensures State() == Index(map[], map[]) && Valid() && this.max == max
    {
      this.max, infoByKey, userSet := max, map[], map[];
    }

    method Add(c: ConnId, u: UserId) returns (r: R.AddResult)
      requires Valid()
      modifies this
      ensures Valid()
      ensures r.InvalidInfo? <==> c == "" || u == ""
      ensures r.InvalidInfo? ==> State() == old(State())
      ensures !r.InvalidInfo? ==> (State(), r.Added?) == Added(old(State()), c, u, max)
    {
      if c == "" || u == "" { return R.InvalidInfo; }
      ghost var before := State();
      if c !in infoByKey {
        if max > 0 {
          var conns := if u in userSet then userSet[u] else {};
          if |conns| >= max { return R.MaxConnectionsExceeded; }
        }
      }
      if c in infoByKey && infoByKey[c] != u {
        Detach(infoByKey[c], c);
      }
      infoByKey := infoByKey[c := u];
      Attach(u, c);
      AddedKeepsInverse(before, c, u, max);
      StepsLeaveNoEmptyEntry(before, c, u, max);
      return R.Added;
    }

    method Attach(u: UserId, c: ConnId)
      modifies this`userSet
      ensures userSet == old(userSet)[u := old(State()).Conns(u) + {c}]
    {
      if u !in userSet { userSet := userSet[u := {}]; }
      userSet := userSet[u := userSet[u] + {c}];
    }

    method Remove(c: ConnId)
      requires Valid()
      modifies this
      ensures State() == Removed(old(State()), c) && Valid()
    {
      RemovedKeepsInverse(State(), c);
      StepsLeaveNoEmptyEntry(State(), c, c, max);
      if c !in infoByKey { return; }
      var u := infoByKey[c];
      infoByKey := infoByKey - {c};
      Detach(u, c);
    }

    // Takes c out of the user's entry, and drops the entry when that empties it.
    method Detach(u: UserId, c: ConnId)
      modifies this`userSet
      ensures State() == old(State()).Dropped(u, c)
    {
      if u in userSet {
        userSet := userSet[u := userSet[u] - {c}];
        if |userSet[u]| == 0 {
          userSet := userSet - {u};
          assert userSet == old(userSet) - {u};
        }
      }
    }

    /** Go iterates over the set in an arbitrary order and stops at the limit. */
    method ListByUser(u: UserId, limit: int) returns (result: seq<ConnId>)
      requires Valid()
      ensures forall i, j :: 0 <= i < j < |result| ==> result[i] != result[j]
      ensures forall c :: c in result ==> c in State().Conns(u)
      ensures limit <= 0 || |State().Conns(u)| <= limit ==> forall c :: c in State().Conns(u) ==> c in result
      ensures limit > 0 && |State().Conns(u)| > limit ==> |result| == limit
    {
      var conns := if u in userSet then userSet[u] else {};
      var rest := conns;
      result := [];
      while rest != {}
        invariant rest <= conns
        invariant forall c :: c in conns <==> c in result || c in rest
        invariant forall c :: c in result ==> c !in rest
        invariant forall i, j :: 0 <= i < j < |result| ==> result[i] != result[j]
        invariant |result| + |rest| == |conns|
        invariant limit > 0 ==> |result| < limit
        decreases rest
      {
        var c :| c in rest;
        rest := rest - {c};
        assert c in State().Conns(u) && State().Owns(u, c);
        if c in infoByKey { result := result + [c]; }
        if limit > 0 && |result| >= limit { break; }
      }
    }

    method RemoveByUser(u: UserId) returns (count: nat)
      requires Valid()
      modifies this
      ensures State() == RemovedUser(old(State()), u) && Valid()
      ensures count == |old(State()).Conns(u)|
    {
      RemovedUserKeepsInverse(State(), u);
      StepsLeaveNoEmptyEntry(State(), u, u, max);
      var conns := if u in userSet then userSet[u] else {};
      count := |conns|;
      var rest := conns;
      while rest != {}
        invariant rest <= conns
        invariant infoByKey == old(infoByKey) - (conns - rest)
        invariant userSet == old(userSet)
        decreases rest
      {
        var c :| c in rest;
        infoByKey, rest := infoByKey - {c}, rest - {c};
      }
      userSet := userSet - {u};
    }
  }

  // --------------------------------------------------------------------
  // Agreement with the Redis index
  // --------------------------------------------------------------------

  datatype Op =
    | Add(conn: ConnId, info: R.Info)
    | Remove(conn: ConnId)
    | Refresh(conn: ConnId)
    | RemoveByUser(user: UserId)
    | Tick(ms: nat)

  // A run answers true for every accepted Add and every other call, false for a rejected Add.
  function MemoryStep(s: Index, op: Op, max: nat): (Index, bool) {
    match op
    case Add(c, info) => if c == "" || info.user == "" then (s, false) else Added(s, c, info.user, max)
    case Remove(c) => (Removed(s, c), true)
    case Refresh(_) => (s, true)
    case RemoveByUser(u) => (RemovedUser(s, u), true)
    case Tick(_) => (s, true)
  }

  function RedisStep(db: R.Db, op: Op, cfg: R.Config): (R.Db, bool) {
    match op
    case Add(c, info) =>
      if c == "" || info.user == "" then (db, false)
      else R.LuaAdd(db, c, info, R.ResolveTtl(info.ttl, cfg.defaultTtl), cfg.max)
    case Remove(c) =>
      if !db.Live(c) then (db, true)
      else var u := db.infos[c].info.user; (R.LuaCleanupEmptySet(R.LuaRemove(db, c, u), u), true)
    case Refresh(c) =>
      if !db.Live(c) then (db, true)
      else var info := db.infos[c].info; (R.LuaRefresh(db, c, info.user, R.ResolveTtl(info.ttl, cfg.defaultTtl)), true)
    case RemoveByUser(u) => (R.RemoveAll(db, u), true)
    case Tick(ms) => (db.Advance(ms), true)
  }

  /** The two stores hold the same connections, and every connection Redis
      stores is live and indexed. */
  ghost predicate Agree(s: Index, db: R.Db) {
    && s.Inverse()
    && AllLive(db)
    && (forall c :: c in s.infoByKey <==> c in db.infos)
    && (forall c :: c in db.infos ==> s.infoByKey[c] == db.infos[c].info.user)
    && (forall u :: s.Conns(u) == db.Members(u))
  }

  ghost predicate AllLive(db: R.Db) {
    forall c :: c in db.infos ==> db.Live(c) && R.IndexedConn(db, c) && db.infos[c].info.user != ""
  }

  // No owner changes, and no tick outlasts a connection.
  ghost predicate Undisturbed(db: R.Db, op: Op) {
    match op
    case Add(c, info) => c in db.infos ==> db.infos[c].info.user == info.user
    case Tick(ms) => forall c :: c in db.infos ==> db.now + ms <= db.infos[c].expireAt
    case _ => true
  }

  ghost predicate UndisturbedRun(db: R.Db, ops: seq<Op>, cfg: R.Config)
    decreases |ops|
  {
    ops == [] || (Undisturbed(db, ops[0]) && UndisturbedRun(RedisStep(db, ops[0], cfg).0, ops[1..], cfg))
  }

  function MemoryRun(s: Index, ops: seq<Op>, max: nat): (Index, seq<bool>)
    decreases |ops|
  {
    if ops == [] then (s, [])
    else
      var (s', a) := MemoryStep(s, ops[0], max);
      var (end, rest) := MemoryRun(s', ops[1..], max);
      (end, [a] + rest)
  }

  function RedisRun(db: R.Db, ops: seq<Op>, cfg: R.Config): (R.Db, seq<bool>)
    decreases |ops|
  {
    if ops == [] then (db, [])
    else
      var (db', a) := RedisStep(db, ops[0], cfg);
      var (end, rest) := RedisRun(db', ops[1..], cfg);
      (end, [a] + rest)
  }

  lemma AddedMembers(db: R.Db, c: ConnId, info: R.Info, ttl: R.Ttl, max: nat)
    requires info.user != "" && R.LuaAdd(db, c, info, ttl, max).1
    requires db.Live(c) ==> db.infos[c].info.user == info.user
    ensures forall v :: R.LuaAdd(db, c, info, ttl, max).0.Members(v)
                     == if v == info.user then db.Members(v) + {c} else db.Members(v)
  {
    R.AddedSets(db, c, info, ttl, max);
  }

  lemma AddAnswersAgree(s: Index, db: R.Db, c: ConnId, info: R.Info, ttl: R.Ttl, max: nat)
    requires Agree(s, db) && info.user != ""
    requires c in db.infos ==> db.infos[c].info.user == info.user
    ensures Added(s, c, info.user, max).1 == R.LuaAdd(db, c, info, ttl, max).1
  {
    assert s.Conns(info.user) == db.Members(info.user);
    assert c in db.infos ==> db.Live(c);
  }

  lemma AddKeepsAllLive(db: R.Db, c: ConnId, info: R.Info, ttl: R.Ttl, max: nat)
    requires AllLive(db) && info.user != ""
    requires c in db.infos ==> db.infos[c].info.user == info.user
    requires R.LuaAdd(db, c, info, ttl, max).1
    ensures AllLive(R.LuaAdd(db, c, info, ttl, max).0)
  {
    var db' := R.LuaAdd(db, c, info, ttl, max).0;
    R.AddedSets(db, c, info, ttl, max);
    forall d | d in db'.infos ensures db'.Live(d) && R.IndexedConn(db', d) {
      if d != c { assert db.Live(d) && R.IndexedConn(db, d); }
    }
  }

  lemma SameAfterAdd(s: Index, s': Index, db: R.Db, db': R.Db, c: ConnId, u: UserId)
    requires forall v :: s.Conns(v) == db.Members(v)
    requires forall v :: v != u ==> c !in s.Conns(v)
    requires forall v :: s'.Conns(v) == if v == u then s.Conns(u) + {c} else s.Conns(v) - {c}
    requires forall v :: db'.Members(v) == if v == u then db.Members(v) + {c} else db.Members(v)
    ensures forall v :: s'.Conns(v) == db'.Members(v)
  {
    forall v ensures s'.Conns(v) == db'.Members(v) {
      assert s.Conns(v) == db.Members(v);
      assert v != u ==> s.Conns(v) - {c} == s.Conns(v);
    }
  }

  lemma AddAgrees(s: Index, db: R.Db, c: ConnId, info: R.Info, ttl: R.Ttl, max: nat)
    requires Agree(s, db) && info.user != ""
    requires c in db.infos ==> db.infos[c].info.user == info.user
    requires R.LuaAdd(db, c, info, ttl, max).1
    ensures Agree(Added(s, c, info.user, max).0, R.LuaAdd(db, c, info, ttl, max).0)
  {
    AddAnswersAgree(s, db, c, info, ttl, max);
    var s', db' := Added(s, c, info.user, max).0, R.LuaAdd(db, c, info, ttl, max).0;
    R.AddedSets(db, c, info, ttl, max);
    AddedMembers(db, c, info, ttl, max);
    AddedConns(s, c, info.user, max);
    AddedKeepsInverse(s, c, info.user, max);
    AddKeepsAllLive(db, c, info, ttl, max);
    forall v | v != info.user ensures c !in s.Conns(v) {
      assert c in s.Conns(v) <==> s.Owns(v, c);
    }
    SameAfterAdd(s, s', db, db', c, info.user);
  }

  lemma RemovedMembers(db: R.Db, c: ConnId, u: UserId)
    ensures var db' := R.LuaCleanupEmptySet(R.LuaRemove(db, c, u), u);
            && db'.now == db.now
            && db'.infos == db.infos - {c}
            && (forall v :: db'.Members(v) == if v == u then db.Members(u) - {c} else db.Members(v))
            && (forall v :: v in db'.sets ==> v in db.sets && db'.sets[v].expireAt == db.sets[v].expireAt)
  {
  }

  lemma RemoveAgrees(s: Index, db: R.Db, c: ConnId, cfg: R.Config)
    requires Agree(s, db)
    ensures Agree(Removed(s, c), RedisStep(db, Remove(c), cfg).0)
  {
    RemovedKeepsInverse(s, c);
    var s', db' := Removed(s, c), RedisStep(db, Remove(c), cfg).0;
    if c in db.infos {
      var u := db.infos[c].info.user;
      assert db.Live(c);
      RemovedMembers(db, c, u);
      forall v ensures s'.Conns(v) == db'.Members(v) {
        assert s.Conns(v) == db.Members(v);
        assert c in s.Conns(v) <==> s.Owns(v, c);
      }
      forall d | d in db'.infos ensures db'.Live(d) && R.IndexedConn(db', d) {
        assert db.Live(d) && R.IndexedConn(db, d);
        assert d in db'.Members(db.infos[d].info.user);
      }
    }
  }

  lemma RemoveByUserAgrees(s: Index, db: R.Db, u: UserId)
    requires Agree(s, db)
    ensures Agree(RemovedUser(s, u), R.RemoveAll(db, u))
  {
    RemovedUserKeepsInverse(s, u);
    var s', db' := RemovedUser(s, u), R.RemoveAll(db, u);
    assert s.Conns(u) == db.Members(u);
    forall v ensures s'.Conns(v) == db'.Members(v) {
      assert s.Conns(v) == db.Members(v);
    }
    forall d | d in db'.infos ensures db'.Live(d) && R.IndexedConn(db', d) {
      assert db.Live(d) && R.IndexedConn(db, d);
      assert d in db.Members(db.infos[d].info.user);
    }
  }

  lemma RefreshOrTickKeepsAllLive(db: R.Db, op: Op, cfg: R.Config)
    requires AllLive(db) && Undisturbed(db, op) && (op.Refresh? || op.Tick?)
    ensures var db' := RedisStep(db, op, cfg).0;
            && AllLive(db')
            && (forall v :: v in db.sets <==> v in db'.sets)
            && (forall v :: v in db.sets ==> db.sets[v].members == db'.sets[v].members)
  {
    var db' := RedisStep(db, op, cfg).0;
    forall d | d in db'.infos ensures db'.Live(d) && R.IndexedConn(db', d) {
      assert db.Live(d) && R.IndexedConn(db, d);
    }
  }

  lemma RefreshOrTickAgrees(s: Index, db: R.Db, op: Op, cfg: R.Config)
    requires Agree(s, db) && Undisturbed(db, op) && (op.Refresh? || op.Tick?)
    ensures Agree(s, RedisStep(db, op, cfg).0)
  {
    RefreshOrTickKeepsAllLive(db, op, cfg);
    var db' := RedisStep(db, op, cfg).0;
    forall v ensures s.Conns(v) == db'.Members(v) {
      assert s.Conns(v) == db.Members(v);
      if c :| c in db.Members(v) {
        assert c in s.Conns(v) && s.Owns(v, c);
        assert db'.Live(c) && R.IndexedConn(db', c);
      }
    }
  }

  lemma StepAgrees(s: Index, db: R.Db, op: Op, cfg: R.Config)
    requires Agree(s, db) && Undisturbed(db, op)
    ensures var (s', a), (db', b) := MemoryStep(s, op, cfg.max), RedisStep(db, op, cfg);
            a == b && Agree(s', db')
  {
    match op
    case Add(c, info) =>
      if c != "" && info.user != "" {
        var ttl := R.ResolveTtl(info.ttl, cfg.defaultTtl);
        AddAnswersAgree(s, db, c, info, ttl, cfg.max);
        if R.LuaAdd(db, c, info, ttl, cfg.max).1 {
          AddAgrees(s, db, c, info, ttl, cfg.max);
        } else {
          assert c in db.infos ==> db.Live(c);
        }
      }
    case Remove(c) => RemoveAgrees(s, db, c, cfg);
    case RemoveByUser(u) => RemoveByUserAgrees(s, db, u);
    case _ => RefreshOrTickAgrees(s, db, op, cfg);
  }

  /** Whatever the calls, as long as owners stay fixed and nothing expires, both
      stores accept and reject the same Adds and end with the same live
      connections for every user. */
  lemma {:induction false} StoresAgree(s: Index, db: R.Db, ops: seq<Op>, cfg: R.Config)
    requires Agree(s, db) && UndisturbedRun(db, ops, cfg)
    ensures var (s', answers), (db', answers') := MemoryRun(s, ops, cfg.max), RedisRun(db, ops, cfg);
            && answers == answers'
            && Agree(s', db')
            && forall u :: s'.Conns(u) == db'.LiveOf(u)
    decreases |ops|
  {
    if ops == [] {
      forall u ensures s.Conns(u) == db.LiveOf(u) {
        assert s.Conns(u) == db.Members(u);
        forall c ensures c in s.Conns(u) <==> c in db.LiveOf(u) {
          if c in db.infos { assert db.Live(c) && R.IndexedConn(db, c); }
        }
      }
    } else {
      StepAgrees(s, db, ops[0], cfg);
      StoresAgree(MemoryStep(s, ops[0], cfg.max).0, RedisStep(db, ops[0], cfg).0, ops[1..], cfg);
    }
  }

  /** With a moving owner they disagree: the memory store checks the limit only
      for unknown ids, so it takes the connection where Redis refuses it. */
  lemma MovedOwnerDisagrees(s: Index, db: R.Db, c: ConnId, info: R.Info, cfg: R.Config)
    requires Agree(s, db) && c in db.infos && info.user != "" && c != ""
    requires db.infos[c].info.user != info.user
    ensures MemoryStep(s, Add(c, info), cfg.max).1
    ensures RedisStep(db, Add(c, info), cfg).1 <==> cfg.max == 0 || |db.Members(info.user)| < cfg.max
  {
    assert db.Live(c);
    assert db.SRem(db.infos[c].info.user, {c}).Members(info.user) == db.Members(info.user);
  }

  lemma StoresAgreeFromEmpty(ops: seq<Op>, cfg: R.Config)
    requires UndisturbedRun(R.EMPTY_DB, ops, cfg)
    ensures var (s, answers) := MemoryRun(Index(map[], map[]), ops, cfg.max);
            var (db, answers') := RedisRun(R.EMPTY_DB, ops, cfg);
            answers == answers' && forall u :: s.Conns(u) == db.LiveOf(u)
  {
    StoresAgree(Index(map[], map[]), R.EMPTY_DB, ops, cfg);
  }
}
