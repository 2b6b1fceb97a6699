/** The Redis connection index: info keys with a TTL, per-user sets with a
    MAX-TTL, and a per-user limit that counts set members.

    `Db` is the part of a Redis server the index uses, with the meaning of each
    command it issues. The Lua scripts are functions on `Db`; the class in
    RedisStore runs them command by command. */
module RedisIndex {
  import opened Option

  type ConnId = string
  type UserId = string

  // PX and PEXPIRE reject a deadline that is not in the future.
  type Ttl = t: nat | t > 0 witness 1

  // The fields of ConnectionInfo that the index reads back; ttl is in milliseconds, <= 0 means unset.
  datatype Info = Info(user: UserId, ttl: int)

  datatype InfoKey = InfoKey(info: Info, expireAt: nat)

  datatype SetKey = SetKey(members: set<ConnId>, expireAt: Option<nat>)

  // A key whose deadline has passed behaves as absent, whether or not it is still stored.
  datatype Db = Db(now: nat, infos: map<ConnId, InfoKey>, sets: map<UserId, SetKey>) {

    predicate Live(c: ConnId) {
      c in infos && now <= infos[c].expireAt
    }

    predicate SetLive(u: UserId) {
      u in sets && (sets[u].expireAt.Some? ==> now <= sets[u].expireAt.value)
    }

    // SMEMBERS
    function Members(u: UserId): set<ConnId> {
      if SetLive(u) then sets[u].members else {}
    }

    // PTTL on a user set
    function Pttl(u: UserId): int {
      if !SetLive(u) then -2 else if sets[u].expireAt.None? then -1 else sets[u].expireAt.value - now
    }

    // SET infoKey data PX ttl
    function SetInfo(c: ConnId, info: Info, ttl: Ttl): Db {
      this.(infos := infos[c := InfoKey(info, now + ttl)])
    }

    // PEXPIRE infoKey ttl
    function ExpireInfo(c: ConnId, ttl: Ttl): Db {
      if Live(c) then this.(infos := infos[c := infos[c].(expireAt := now + ttl)]) else this
    }

    // DEL / UNLINK of info keys
    function DelInfos(cs: set<ConnId>): Db {
      this.(infos := infos - cs)
    }

    // SADD; a set created here has no deadline yet
    function SAdd(u: UserId, c: ConnId): Db {
      this.(sets := sets[u := if SetLive(u) then sets[u].(members := sets[u].members + {c}) else SetKey({c}, None)])
    }

    // SREM; removing the last member deletes the key
    function SRem(u: UserId, cs: set<ConnId>): Db {
      if !SetLive(u) then this
      else if sets[u].members <= cs then this.(sets := sets - {u})
      else this.(sets := sets[u := sets[u].(members := sets[u].members - cs)])
    }

    // PEXPIRE userKey ttl
    function ExpireSet(u: UserId, ttl: Ttl): Db {
      if SetLive(u) then this.(sets := sets[u := sets[u].(expireAt := Some(now + ttl))]) else this
    }

    // DEL / UNLINK of a user set
    function DelSet(u: UserId): Db {
      this.(sets := sets - {u})
    }

    // The MAX rule for set deadlines: never shorten, always give one.
    function ExtendSet(u: UserId, ttl: Ttl): (r: Db)
      ensures r.now == now && r.infos == infos && r.sets.Keys == sets.Keys
      ensures forall v :: v in sets && (v != u || !SetLive(u)) ==> r.sets[v] == sets[v]
      ensures SetLive(u) ==>
                && r.SetLive(u)
                && r.sets[u].members == sets[u].members
                && r.sets[u].expireAt.Some?
                && r.sets[u].expireAt.value >= now + ttl
                && (sets[u].expireAt.Some? ==> r.sets[u].expireAt.value >= sets[u].expireAt.value)
                && (r.sets[u].expireAt.value == now + ttl || r.sets[u].expireAt == sets[u].expireAt)
    {
      if Pttl(u) < 0 || ttl > Pttl(u) then ExpireSet(u, ttl) else this
    }

    function Advance(ms: nat): Db {
      this.(now := now + ms)
    }

    // The connections of a user that have not expired.
    ghost function LiveOf(u: UserId): set<ConnId> {
      set c | c in infos && Live(c) && infos[c].info.user == u
    }
  }

  function ResolveTtl(ttl: int, defaultTtl: Ttl): Ttl {
    if ttl > 0 then ttl else defaultTtl
  }

  // --------------------------------------------------------------------
  // The Lua scripts, each one atomic step
  // --------------------------------------------------------------------

  // SET, SADD and the MAX rule.
  function Placed(db: Db, c: ConnId, info: Info, ttl: Ttl): Db {
    db.SetInfo(c, info, ttl).SAdd(info.user, c).ExtendSet(info.user, ttl)
  }

  function LuaAdd(db: Db, c: ConnId, info: Info, ttl: Ttl, max: nat): (Db, bool) {
    var known := db.Live(c) && db.infos[c].info.user != "";
    var moved := known && db.infos[c].info.user != info.user;
    var base := if moved then db.SRem(db.infos[c].info.user, {c}) else db;
    if (!known || moved) && max > 0 && |base.Members(info.user)| >= max then (base, false)
    else (Placed(base, c, info, ttl), true)
  }

  function LuaRemove(db: Db, c: ConnId, u: UserId): Db {
    db.DelInfos({c}).SRem(u, {c})
  }

  function LuaUpdate(db: Db, c: ConnId, info: Info, ttl: Ttl): Db {
    if db.Live(c) then db.SetInfo(c, info, ttl) else db
  }

  function LuaRefresh(db: Db, c: ConnId, u: UserId, ttl: Ttl): Db {
    if db.Live(c) then db.ExpireInfo(c, ttl).ExtendSet(u, ttl) else db
  }

  function LuaCleanupEmptySet(db: Db, u: UserId): Db {
    if |db.Members(u)| == 0 then db.DelSet(u) else db
  }

  // SMEMBERS, UNLINK of every info key, UNLINK of the set, with nothing in between.
  function RemoveAll(db: Db, u: UserId): Db {
    if db.Members(u) == {} then db else db.DelInfos(db.Members(u)).DelSet(u)
  }

  datatype AddResult = Added | InvalidInfo | MaxConnectionsExceeded

  const EMPTY_DB: Db := Db(0, map[], map[])

  datatype Config = Config(max: nat, defaultTtl: Ttl)

  // --------------------------------------------------------------------
  // Facts that depend on each other
  // --------------------------------------------------------------------

  // A live connection is in its owner's set, which does not expire before it.
  ghost predicate IndexedConn(db: Db, c: ConnId)
    requires c in db.infos
  {
    var u := db.infos[c].info.user;
    && db.SetLive(u)
    && c in db.sets[u].members
    && db.sets[u].expireAt.Some?
    && db.infos[c].expireAt <= db.sets[u].expireAt.value
  }

  ghost predicate Indexed(db: Db) {
    forall c :: c in db.infos && db.Live(c) ==> IndexedConn(db, c)
  }

  ghost predicate Named(db: Db) {
    forall c :: c in db.infos ==> db.infos[c].info.user != ""
  }

  ghost predicate WithinLimit(db: Db, max: nat) {
    max > 0 ==> forall u :: u in db.sets ==> |db.sets[u].members| <= max
  }

  ghost predicate DbInv(db: Db, max: nat) {
    Indexed(db) && Named(db) && WithinLimit(db, max)
  }

  // None of these ids is a live connection of the user.
  ghost predicate NotServing(db: Db, u: UserId, cs: set<ConnId>) {
    forall c :: c in cs ==> c !in db.LiveOf(u)
  }

  // A live connection asks for another user who is full.
  ghost predicate RejectedMove(db: Db, c: ConnId, info: Info, max: nat) {
    db.Live(c) && info.user != db.infos[c].info.user && max > 0 && |db.Members(info.user)| >= max
  }

  lemma CardinalityOfSubset(a: set<ConnId>, b: set<ConnId>)
    requires a <= b
    ensures |a| <= |b|
  {
    if a != b {
      var x :| x in b && x !in a;
      CardinalityOfSubset(a, b - {x});
    }
  }

  // --------------------------------------------------------------------
  // When each command keeps the index
  // --------------------------------------------------------------------

  lemma PlacedSets(db: Db, c: ConnId, info: Info, ttl: Ttl)
    ensures var db', u := Placed(db, c, info, ttl), info.user;
            && db'.now == db.now
            && db'.infos == db.infos[c := InfoKey(info, db.now + ttl)]
            && db'.sets.Keys == db.sets.Keys + {u}
            && (forall v :: v in db.sets && v != u ==> db'.sets[v] == db.sets[v])
            && db'.sets[u].members == db.Members(u) + {c}
            && db'.sets[u].expireAt.Some?
            && db'.sets[u].expireAt.value >= db.now + ttl
            && (db.SetLive(u) && db.sets[u].expireAt.Some? ==> db'.sets[u].expireAt.value >= db.sets[u].expireAt.value)
  {
  }

  // What an accepted add leaves behind when the connection is new or overwritten by its own user.
  lemma AddedSets(db: Db, c: ConnId, info: Info, ttl: Ttl, max: nat)
    requires info.user != "" && LuaAdd(db, c, info, ttl, max).1
    requires db.Live(c) ==> db.infos[c].info.user == info.user
    ensures LuaAdd(db, c, info, ttl, max).0 == Placed(db, c, info, ttl)
    ensures var db', u := LuaAdd(db, c, info, ttl, max).0, info.user;
            && db'.now == db.now
            && db'.infos == db.infos[c := InfoKey(info, db.now + ttl)]
            && db'.sets.Keys == db.sets.Keys + {u}
            && (forall v :: v in db.sets && v != u ==> db'.sets[v] == db.sets[v])
            && db'.sets[u].members == db.Members(u) + {c}
            && db'.sets[u].expireAt.Some?
            && db'.sets[u].expireAt.value >= db.now + ttl
            && (db.SetLive(u) && db.sets[u].expireAt.Some? ==> db'.sets[u].expireAt.value >= db.sets[u].expireAt.value)
  {
    PlacedSets(db, c, info, ttl);
  }

  ghost predicate OthersIndexed(db: Db, c: ConnId) {
    forall d :: d in db.infos && db.Live(d) && d != c ==> IndexedConn(db, d)
  }

  lemma PlacingIndexes(db: Db, c: ConnId, info: Info, ttl: Ttl)
    requires OthersIndexed(db, c)
    ensures Indexed(Placed(db, c, info, ttl))
  {
    var db' := Placed(db, c, info, ttl);
    PlacedSets(db, c, info, ttl);
    forall d | d in db'.infos && db'.Live(d) ensures IndexedConn(db', d) {
      if d != c { assert db.Live(d) && IndexedConn(db, d); }
    }
  }

  lemma TakingOutKeepsOthers(db: Db, c: ConnId, u: UserId)
    requires Indexed(db)
    ensures OthersIndexed(db.SRem(u, {c}), c)
  {
    var db' := db.SRem(u, {c});
    forall d | d in db'.infos && db'.Live(d) && d != c ensures IndexedConn(db', d) {
      assert IndexedConn(db, d);
    }
  }

  /** Add keeps the index exactly when it is not a refused move: such a move has
      already taken the live connection out of its old user's set. */
  lemma AddKeepsIndexIff(db: Db, c: ConnId, info: Info, ttl: Ttl, max: nat)
    requires Indexed(db) && Named(db) && info.user != ""
    ensures Indexed(LuaAdd(db, c, info, ttl, max).0) <==> !RejectedMove(db, c, info, max)
  {
    var (db', ok) := LuaAdd(db, c, info, ttl, max);
    var moved := db.Live(c) && db.infos[c].info.user != info.user;
    var old' := if moved then db.infos[c].info.user else "";
    var base := if moved then db.SRem(old', {c}) else db;
    if moved {
      TakingOutKeepsOthers(db, c, old');
      assert base.Members(info.user) == db.Members(info.user);
    }
    if ok { PlacingIndexes(base, c, info, ttl); }
    if RejectedMove(db, c, info, max) {
      assert db' == base && db'.Live(c) && c !in db'.Members(old');
      assert !IndexedConn(db', c);
    }
  }

  /** Update renews the info key alone, so it keeps the index exactly when the
      user set was going to last as long anyway. */
  lemma UpdateKeepsIndexIff(db: Db, c: ConnId, info: Info, ttl: Ttl)
    requires Indexed(db) && db.Live(c) && info.user == db.infos[c].info.user
    ensures Indexed(LuaUpdate(db, c, info, ttl)) <==> ttl <= db.Pttl(info.user)
  {
    var db' := LuaUpdate(db, c, info, ttl);
    assert IndexedConn(db, c);
    assert db'.Live(c);
    if ttl <= db.Pttl(info.user) {
      forall d | d in db'.infos && db'.Live(d) ensures IndexedConn(db', d) {
        if d != c { assert IndexedConn(db, d); }
      }
    } else {
      assert !IndexedConn(db', c);
    }
  }

  /** Refresh extends the set of the user it read earlier: the index survives exactly
      when that is still the owner, or the owner's set lasts long enough anyway. */
  lemma RefreshKeepsIndexIff(db: Db, c: ConnId, u: UserId, ttl: Ttl)
    requires Indexed(db) && db.Live(c)
    ensures Indexed(LuaRefresh(db, c, u, ttl))
            <==> u == db.infos[c].info.user || ttl <= db.Pttl(db.infos[c].info.user)
  {
    var db', owner := LuaRefresh(db, c, u, ttl), db.infos[c].info.user;
    assert IndexedConn(db, c) && db'.Live(c) && db'.infos[c].info.user == owner;
    if u == owner || ttl <= db.Pttl(owner) {
      forall d | d in db'.infos && db'.Live(d) ensures IndexedConn(db', d) {
        assert db.Live(d) && IndexedConn(db, d);
      }
    } else {
      assert !IndexedConn(db', c);
    }
  }

  /** Taking ids out of a user's set keeps the index exactly when none of them is a
      live connection of that user. */
  lemma SRemKeepsIndexIff(db: Db, u: UserId, cs: set<ConnId>)
    requires Indexed(db)
    ensures Indexed(db.SRem(u, cs)) <==> NotServing(db, u, cs)
  {
    var db' := db.SRem(u, cs);
    if NotServing(db, u, cs) {
      forall d | d in db'.infos && db'.Live(d) ensures IndexedConn(db', d) {
        assert IndexedConn(db, d);
        assert db.infos[d].info.user == u ==> d in db.LiveOf(u);
      }
    } else {
      var c :| c in cs && c in db.LiveOf(u);
      assert IndexedConn(db, c);
      assert db'.Live(c) && !IndexedConn(db', c);
    }
  }

  /** Deleting a user's set keeps the index exactly when the user has no live connection. */
  lemma DelSetKeepsIndexIff(db: Db, u: UserId)
    requires Indexed(db)
    ensures Indexed(db.DelSet(u)) <==> db.LiveOf(u) == {}
  {
    var db' := db.DelSet(u);
    if db.LiveOf(u) == {} {
      forall d | d in db'.infos && db'.Live(d) ensures IndexedConn(db', d) {
        assert IndexedConn(db, d) && d !in db.LiveOf(u);
      }
    } else {
      var c :| c in db.LiveOf(u);
      assert db'.Live(c) && !IndexedConn(db', c);
    }
  }

  lemma DelInfosKeepsIndex(db: Db, cs: set<ConnId>)
    requires Indexed(db)
    ensures Indexed(db.DelInfos(cs))
  {
    var db' := db.DelInfos(cs);
    forall d | d in db'.infos && db'.Live(d) ensures IndexedConn(db', d) {
      assert IndexedConn(db, d);
    }
  }

  lemma AdvanceKeepsIndex(db: Db, ms: nat)
    requires Indexed(db)
    ensures Indexed(db.Advance(ms))
  {
    var db' := db.Advance(ms);
    forall d | d in db'.infos && db'.Live(d) ensures IndexedConn(db', d) {
      assert IndexedConn(db, d);
    }
  }

  // The empty-set script never finds work: it changes nobody's members.
  lemma CleanupIsNoop(db: Db, u: UserId)
    ensures forall v :: LuaCleanupEmptySet(db, u).Members(v) == db.Members(v)
    ensures Indexed(db) ==> Indexed(LuaCleanupEmptySet(db, u))
  {
    var db' := LuaCleanupEmptySet(db, u);
    if Indexed(db) {
      forall d | d in db'.infos && db'.Live(d) ensures IndexedConn(db', d) {
        assert IndexedConn(db, d);
      }
    }
  }

  lemma PlacingKeepsLimit(db: Db, c: ConnId, info: Info, ttl: Ttl, max: nat)
    requires WithinLimit(db, max) && Named(db) && info.user != ""
    requires max > 0 ==> c in db.Members(info.user) || |db.Members(info.user)| < max
    ensures WithinLimit(Placed(db, c, info, ttl), max) && Named(Placed(db, c, info, ttl))
  {
    PlacedSets(db, c, info, ttl);
    if c in db.Members(info.user) { assert db.Members(info.user) + {c} == db.Members(info.user); }
  }

  lemma AddKeepsLimit(db: Db, c: ConnId, info: Info, ttl: Ttl, max: nat)
    requires DbInv(db, max) && info.user != ""
    ensures WithinLimit(LuaAdd(db, c, info, ttl, max).0, max) && Named(LuaAdd(db, c, info, ttl, max).0)
  {
    var moved := db.Live(c) && db.infos[c].info.user != info.user;
    var base := if moved then db.SRem(db.infos[c].info.user, {c}) else db;
    if moved { SRemKeepsLimit(db, db.infos[c].info.user, {c}, max); }
    if db.Live(c) && !moved { assert IndexedConn(db, c); }
    if LuaAdd(db, c, info, ttl, max).1 { PlacingKeepsLimit(base, c, info, ttl, max); }
  }

  lemma SRemKeepsLimit(db: Db, u: UserId, cs: set<ConnId>, max: nat)
    requires WithinLimit(db, max)
    ensures WithinLimit(db.SRem(u, cs), max)
  {
    var db' := db.SRem(u, cs);
    if u in db'.sets { CardinalityOfSubset(db'.sets[u].members, db.sets[u].members); }
  }

  // The infos after an Add: the new one if it was accepted, and nothing else moves.
  lemma AddedInfos(db: Db, c: ConnId, info: Info, ttl: Ttl, max: nat)
    ensures var (db', ok) := LuaAdd(db, c, info, ttl, max);
            && db'.now == db.now
            && db'.infos == if ok then db.infos[c := InfoKey(info, db.now + ttl)] else db.infos
  {
  }

  /** Using a dead id again before a list that found it dead has taken it out of the
      set: the index survives the late SREM exactly when the id was not in the list. */
  lemma ReuseIsSafeIff(db: Db, max: nat, c: ConnId, info: Info, ttl: Ttl, stale: set<ConnId>)
    requires Indexed(db) && Named(db) && info.user != "" && !db.Live(c) && LuaAdd(db, c, info, ttl, max).1
    requires forall d :: d in stale ==> !db.Live(d)
    ensures Indexed(LuaAdd(db, c, info, ttl, max).0.SRem(info.user, stale)) <==> c !in stale
  {
    var db' := LuaAdd(db, c, info, ttl, max).0;
    AddKeepsIndexIff(db, c, info, ttl, max);
    AddedInfos(db, c, info, ttl, max);
    SRemKeepsIndexIff(db', info.user, stale);
    assert c in db'.LiveOf(info.user);
    forall d | d in stale && d != c ensures d !in db'.LiveOf(info.user) { assert !db.Live(d); }
  }

  /** A connection accepted between the SMEMBERS and the UNLINK of RemoveByUser: the
      index survives exactly when SMEMBERS had listed the id, and then the
      connection is dropped with the others. */
  lemma AddDuringRemoveByUserIsSafeIff(db: Db, max: nat, c: ConnId, info: Info, ttl: Ttl)
    requires Indexed(db) && Named(db) && info.user != "" && LuaAdd(db, c, info, ttl, max).1
    ensures var db' := LuaAdd(db, c, info, ttl, max).0.DelInfos(db.Members(info.user));
            && (Indexed(db'.DelSet(info.user)) <==> c in db.Members(info.user))
            && (db'.Live(c) <==> c !in db.Members(info.user))
  {
    var added, u := LuaAdd(db, c, info, ttl, max).0, info.user;
    var db' := added.DelInfos(db.Members(u));
    AddKeepsIndexIff(db, c, info, ttl, max);
    AddedInfos(db, c, info, ttl, max);
    DelInfosKeepsIndex(added, db.Members(u));
    DelSetKeepsIndexIff(db', u);
    forall d | d in added.LiveOf(u) && d != c ensures d in db.Members(u) {
      assert db.Live(d) && IndexedConn(db, d);
    }
    if c !in db.Members(u) { assert c in db'.LiveOf(u); }
  }

  // --------------------------------------------------------------------
  // How long a connection lives
  // --------------------------------------------------------------------

  // Left alone, c is live for ttl milliseconds and no longer.
  ghost predicate LivesFor(db: Db, c: ConnId, ttl: nat) {
    forall ms: nat :: db.Advance(ms).Live(c) <==> ms <= ttl
  }

  /** An accepted connection lives for the TTL it came with, or for the default when it came
      with none, and belongs to the user it named. */
  lemma AddedLivesFor(db: Db, c: ConnId, info: Info, defaultTtl: Ttl, max: nat)
    requires LuaAdd(db, c, info, ResolveTtl(info.ttl, defaultTtl), max).1
    ensures var db' := LuaAdd(db, c, info, ResolveTtl(info.ttl, defaultTtl), max).0;
            && LivesFor(db', c, if info.ttl > 0 then info.ttl else defaultTtl) && db'.infos[c].info == info
  {
    var db' := LuaAdd(db, c, info, ResolveTtl(info.ttl, defaultTtl), max).0;
    AddedInfos(db, c, info, ResolveTtl(info.ttl, defaultTtl), max);
    var ttl := if info.ttl > 0 then info.ttl else defaultTtl;
    forall ms: nat ensures db'.Advance(ms).Live(c) <==> ms <= ttl { }
  }

  /** A refreshed connection lives that long again. */
  lemma RefreshedLivesFor(db: Db, c: ConnId, defaultTtl: Ttl)
    requires db.Live(c)
    ensures var info := db.infos[c].info;
            var db' := LuaRefresh(db, c, info.user, ResolveTtl(info.ttl, defaultTtl));
            LivesFor(db', c, if info.ttl > 0 then info.ttl else defaultTtl) && db'.infos[c].info == info
  {
    var info := db.infos[c].info;
    var db' := LuaRefresh(db, c, info.user, ResolveTtl(info.ttl, defaultTtl));
    var ttl := if info.ttl > 0 then info.ttl else defaultTtl;
    forall ms: nat ensures db'.Advance(ms).Live(c) <==> ms <= ttl { }
  }

  /** An Add is accepted if and only if there is no limit, the connection is already live for
      that user, or the user's set has room. */
  lemma AddIsAcceptedIff(db: Db, c: ConnId, info: Info, ttl: Ttl, max: nat)
    requires Named(db) && info.user != ""
    ensures LuaAdd(db, c, info, ttl, max).1
            <==> || max == 0 || (db.Live(c) && db.infos[c].info.user == info.user)
                 || |db.Members(info.user)| < max
  {
  }
}
