/** The Redis connection store as written: its scripts command by command, and its
    loops over cursors and batches. */
module RedisStore {
  import opened Option
  import opened RedisIndex

  function LiveKeys(db: Db, keys: seq<ConnId>): seq<ConnId> {
    if keys == [] then []
    else (if db.Live(keys[0]) then [keys[0]] else []) + LiveKeys(db, keys[1..])
  }

  ghost function StaleKeys(db: Db, keys: seq<ConnId>): set<ConnId> {
    set c | c in keys && !db.Live(c)
  }

  ghost function Elems(keys: seq<ConnId>): set<ConnId> {
    set c | c in keys
  }

  function Flatten(scan: seq<seq<ConnId>>): seq<ConnId> {
    if scan == [] then [] else Flatten(scan[..|scan| - 1]) + scan[|scan| - 1]
  }

  // How many SSCAN replies ListByUser reads: it stops after the first one that brings it to enough results.
  ghost predicate StopsAt(db: Db, scan: seq<seq<ConnId>>, enough: Option<nat>, n: nat) {
    && n <= |scan|
    && (n < |scan| ==> Enough(db, scan, enough, n))
    && (forall m :: 0 <= m < n ==> !Enough(db, scan, enough, m))
  }

  ghost predicate Enough(db: Db, scan: seq<seq<ConnId>>, enough: Option<nat>, n: nat)
    requires n <= |scan|
  {
    n > 0 && scan[n - 1] != [] && enough.Some? && |LiveKeys(db, Flatten(scan[..n]))| >= enough.value
  }

  lemma {:induction false} LiveKeysConcat(db: Db, a: seq<ConnId>, b: seq<ConnId>)
    ensures LiveKeys(db, a + b) == LiveKeys(db, a) + LiveKeys(db, b)
  {
    if a == [] {
      assert a + b == b;
    } else {
      assert (a + b)[1..] == a[1..] + b;
      LiveKeysConcat(db, a[1..], b);
    }
  }

  lemma {:induction false} LiveKeysAre(db: Db, keys: seq<ConnId>, c: ConnId)
    ensures c in LiveKeys(db, keys) <==> c in keys && db.Live(c)
  {
    if keys != [] {
      LiveKeysAre(db, keys[1..], c);
    }
  }

  lemma ScanOneMore(db: Db, scan: seq<seq<ConnId>>, i: nat)
    requires i < |scan|
    ensures LiveKeys(db, Flatten(scan[..i + 1])) == LiveKeys(db, Flatten(scan[..i])) + LiveKeys(db, scan[i])
    ensures StaleKeys(db, Flatten(scan[..i + 1])) == StaleKeys(db, Flatten(scan[..i])) + StaleKeys(db, scan[i])
  {
    assert scan[..i + 1][..i] == scan[..i];
    LiveKeysConcat(db, Flatten(scan[..i]), scan[i]);
  }

  const MAX_LIST_LIMIT: nat := 1000
  const REMOVE_BATCH: nat := 100

  // A limit that is not positive asks for everything.
  function Wanted(limit: int): Option<nat> {
    if limit <= 0 then None else if limit > MAX_LIST_LIMIT then Some(MAX_LIST_LIMIT) else Some(limit)
  }

  class RedisConnectionStore {
    var db: Db
    const cfg: Config

    constructor (db: Db, cfg: Config)
      ensures this.db == db && this.cfg == cfg
    {
      this.db, this.cfg := db, cfg;
    }

    method Add(c: ConnId, info: Info) returns (r: AddResult)
      modifies this
      ensures r.InvalidInfo? <==> c == "" || info.user == ""
      ensures r.InvalidInfo? ==> db == old(db)
      ensures !r.InvalidInfo? ==>
                (db, r.Added?) == LuaAdd(old(db), c, info, ResolveTtl(info.ttl, cfg.defaultTtl), cfg.max)
      ensures r.Added? ==> LivesFor(db, c, if info.ttl > 0 then info.ttl else cfg.defaultTtl)
    {
      if c == "" || info.user == "" { return InvalidInfo; }
      var ttl := ResolveTtl(info.ttl, cfg.defaultTtl);
      var oldUser := "";
      if db.Live(c) { oldUser := db.infos[c].info.user; }
      if oldUser == "" {
        if cfg.max > 0 && |db.Members(info.user)| >= cfg.max { return MaxConnectionsExceeded; }
      } else if oldUser != info.user {
        db := db.SRem(oldUser, {c});
        if cfg.max > 0 && |db.Members(info.user)| >= cfg.max { return MaxConnectionsExceeded; }
      }
      db := db.SetInfo(c, info, ttl);
      db := db.SAdd(info.user, c);
      var setTtl := db.Pttl(info.user);
      if setTtl < 0 || ttl > setTtl { db := db.ExpireSet(info.user, ttl); }
      AddedLivesFor(old(db), c, info, cfg.defaultTtl, cfg.max);
      return Added;
    }

    method Refresh(c: ConnId) returns (found: bool)
      modifies this
      ensures found <==> old(db).Live(c)
      ensures !found ==> db == old(db)
      ensures found ==>
                var info := old(db).infos[c].info;
                && db == LuaRefresh(old(db), c, info.user, ResolveTtl(info.ttl, cfg.defaultTtl))
                && LivesFor(db, c, if info.ttl > 0 then info.ttl else cfg.defaultTtl)
    {
      if !db.Live(c) { return false; }
      var info := db.infos[c].info;
      var ttl := ResolveTtl(info.ttl, cfg.defaultTtl);
      db := db.ExpireInfo(c, ttl);
      var setTtl := db.Pttl(info.user);
      if setTtl < 0 || ttl > setTtl { db := db.ExpireSet(info.user, ttl); }
      RefreshedLivesFor(old(db), c, cfg.defaultTtl);
      return true;
    }

    method Remove(c: ConnId)
      modifies this
      ensures !old(db).Live(c) ==> db == old(db)
      ensures old(db).Live(c) ==>
                var u := old(db).infos[c].info.user;
                db == LuaCleanupEmptySet(LuaRemove(old(db), c, u), u)
    {
      if !db.Live(c) { return; }
      var u := db.infos[c].info.user;
      db := db.DelInfos({c});
      db := db.SRem(u, {c});
      if |db.Members(u)| == 0 { db := db.DelSet(u); }
    }

    /** scan is the sequence of SSCAN replies up to cursor zero. */
    method ListByUser(u: UserId, limit: int, scan: seq<seq<ConnId>>) returns (result: seq<ConnId>, ghost read: nat)
      modifies this
      ensures var enough := Wanted(limit);
              && StopsAt(old(db), scan, enough, read)
              && (var all := LiveKeys(old(db), Flatten(scan[..read]));
                  result == if enough.Some? && |all| > enough.value then all[..enough.value] else all)
      // A positive limit, 1000 at most, bounds the result, and only a full one ends the scan early.
      ensures limit > 0 ==> |result| <= limit && |result| <= 1000
      ensures read < |scan| ==> limit > 0 && |result| == if limit < 1000 then limit else 1000
      ensures var stale := StaleKeys(old(db), Flatten(scan[..read]));
              db == if stale == {} then old(db) else LuaCleanupEmptySet(old(db).SRem(u, stale), u)
    {
      ghost var d := db;
      var enough := Wanted(limit);
      var stale: set<ConnId> := {};
      result := [];
      var i := 0;
      while i < |scan|
        invariant 0 <= i <= |scan|
        invariant db == d
        invariant result == LiveKeys(d, Flatten(scan[..i]))
        invariant stale == StaleKeys(d, Flatten(scan[..i]))
        invariant forall m :: 0 <= m <= i ==> !Enough(d, scan, enough, m)
      {
        var keys := scan[i];
        ScanOneMore(d, scan, i);
        i := i + 1;
        if |keys| > 0 {
          result := result + LiveKeys(db, keys);
          stale := stale + set c | c in keys && !db.Live(c);
          if enough.Some? && |result| >= enough.value {
            assert Enough(d, scan, enough, i);
            break;
          }
        }
      }
      read := i;
      if enough.Some? && |result| >= enough.value { result := result[..enough.value]; }
      DropStale(u, stale);
    }

    method DropStale(u: UserId, stale: set<ConnId>)
      modifies this
      ensures db == if stale == {} then old(db) else LuaCleanupEmptySet(old(db).SRem(u, stale), u)
    {
      if |stale| > 0 {
        db := db.SRem(u, stale);
        if |db.Members(u)| == 0 { db := db.DelSet(u); }
      }
    }

    // SMEMBERS replies in no particular order.
    method SMembers(u: UserId) returns (members: seq<ConnId>)
      ensures Elems(members) == db.Members(u) && |members| == |db.Members(u)|
    {
      var rest := db.Members(u);
      members := [];
      while rest != {}
        invariant Elems(members) + rest == db.Members(u)
        invariant |members| + |rest| == |db.Members(u)|
        decreases rest
      {
        var c :| c in rest;
        members, rest := members + [c], rest - {c};
      }
    }

    method RemoveByUser(u: UserId) returns (removed: nat)
      modifies this
      ensures removed == |old(db).Members(u)|
      ensures db == RemoveAll(old(db), u)
    {
      var members := SMembers(u);
      removed := |members|;
      if removed == 0 { return; }
      var i := 0;
      while i < |members|
        invariant 0 <= i
        invariant db == old(db).DelInfos(Elems(members[..if i <= |members| then i else |members|]))
      {
        var end := if i + REMOVE_BATCH > |members| then |members| else i + REMOVE_BATCH;
        ghost var done := Elems(members[..i]);
        var batch := set c | c in members[i..end];
        assert members[..end] == members[..i] + members[i..end];
        assert done + batch == Elems(members[..end]);
        assert db.infos - batch == old(db).infos - (done + batch);
        db := db.DelInfos(batch);
        i := i + REMOVE_BATCH;
      }
      assert members[..|members|] == members;
      db := db.DelSet(u);
    }
  }
}
