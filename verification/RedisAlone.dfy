/** The store's calls, each left alone, as their callers see them: which connections are live
    afterwards, who is in which set, and how long the sets last. */
module RedisAlone {
  import opened Option
  import opened RedisIndex
  import opened RedisRuns

  // --------------------------------------------------------------------
  // What a caller can see of the keys
  // --------------------------------------------------------------------

  // The connections that are live, and what is known of each, but for cs.
  ghost predicate SameConns(db: Db, db': Db, cs: set<ConnId>) {
    && db'.now == db.now
    && forall c :: c !in cs ==> (db'.Live(c) <==> db.Live(c)) && (db.Live(c) ==> db'.infos[c] == db.infos[c])
  }

  // The set of v is what it was.
  ghost predicate SameSet(db: Db, db': Db, v: UserId) {
    (db'.SetLive(v) <==> db.SetLive(v)) && (db.SetLive(v) ==> db'.sets[v] == db.sets[v])
  }

  // The ids cs are gone from the set of u, which lasts as long as before.
  ghost predicate TakenOut(db: Db, db': Db, u: UserId, cs: set<ConnId>) {
    && db'.Members(u) == db.Members(u) - cs
    && (db'.Members(u) != {} ==> db'.sets[u].expireAt == db.sets[u].expireAt)
    && forall v :: v != u ==> SameSet(db, db', v)
  }

  // The set of u lasts ttl milliseconds from now, or longer if it did.
  ghost predicate Extended(db: Db, db': Db, u: UserId, ttl: nat)
    requires db'.Members(u) != {}
  {
    var kept := db.SetLive(u) && db.sets[u].expireAt.Some? && db.sets[u].expireAt.value >= db.now + ttl;
    db'.sets[u].expireAt == if kept then db.sets[u].expireAt else Some(db.now + ttl)
  }

  /** A set that holds something lasts exactly until its deadline, and for ever without one; a
      connection, until its own. */
  lemma TimePasses(cfg: Config, s: System, ms: nat)
    ensures var db := Step(cfg, s, Tick(ms)).db;
            && Step(cfg, s, Tick(ms)).calls == s.calls && db == s.db.(now := s.db.now + ms)
            && (forall u :: db.Members(u) == if u in s.db.sets && (s.db.sets[u].expireAt == None
                                                || s.db.now + ms <= s.db.sets[u].expireAt.value)
                                             then s.db.sets[u].members else {})
            && (forall c :: db.Live(c) <==> c in s.db.infos && s.db.now + ms <= s.db.infos[c].expireAt)
  {
  }

  /** A call that is under way is not begun again, and RemoveByUser does nothing to a user without
      connections. */
  lemma BusyCallsGoOn(cfg: Config, s: System, k: nat, c: ConnId, u: UserId)
    ensures k in s.calls ==> Step(cfg, s, RemoveGet(k, c)) == Step(cfg, s, RefreshGet(k, c)) == s
    ensures k in s.calls || s.db.Members(u) == {} ==> Step(cfg, s, DropGet(k, u)) == s
  {
  }

  /** An accepted Add makes c a live connection as described, puts it into the user's set, takes it out
      of the set of a previous owner, and leaves everybody else alone; a refused
      one may have taken it out of there already, and does nothing else. */
  lemma AddIs(db: Db, c: ConnId, info: Info, ttl: Ttl, max: nat)
    requires Named(db) && info.user != ""
    ensures var (db', ok) := LuaAdd(db, c, info, ttl, max);
            && SameConns(db, db', if ok then {c} else {}) && LeavesPreviousOwner(db, db', c, info.user)
            && (ok ==> IsPlaced(db, db', c, info, ttl)) && (!ok ==> SameSet(db, db', info.user))
  {
    var moved := db.Live(c) && db.infos[c].info.user != info.user;
    var base := if moved then db.SRem(db.infos[c].info.user, {c}) else db;
    assert SameConns(db, base, {}) && LeavesPreviousOwner(db, base, c, info.user) && SameSet(db, base, info.user) by {
      if moved { SRemTakesOut(db, db.infos[c].info.user, {c}); }
    }
    if LuaAdd(db, c, info, ttl, max).1 { PlacedOn(db, base, c, info, ttl); }
  }

  // c is out of the set of a previous owner, and the sets of all but the two users are as they were.
  ghost predicate LeavesPreviousOwner(db: Db, db': Db, c: ConnId, u: UserId) {
    var moved := db.Live(c) && db.infos[c].info.user != u;
    && (forall v :: v != u && !(moved && v == db.infos[c].info.user) ==> SameSet(db, db', v))
    && (moved ==> db'.Members(db.infos[c].info.user) == db.Members(db.infos[c].info.user) - {c})
  }

  // c is a live connection as described, and a member of its user's set, which lasts long enough.
  ghost predicate IsPlaced(db: Db, db': Db, c: ConnId, info: Info, ttl: Ttl) {
    && db'.Live(c) && db'.infos[c] == InfoKey(info, db.now + ttl)
    && db'.Members(info.user) == db.Members(info.user) + {c} && Extended(db, db', info.user, ttl)
  }

  lemma PlacedOn(db: Db, base: Db, c: ConnId, info: Info, ttl: Ttl)
    requires SameConns(db, base, {}) && LeavesPreviousOwner(db, base, c, info.user) && SameSet(db, base, info.user)
    ensures var db' := Placed(base, c, info, ttl);
            && SameConns(db, db', {c}) && LeavesPreviousOwner(db, db', c, info.user) && IsPlaced(db, db', c, info, ttl)
  {
    PlacedIs(base, c, info, ttl);
    var db' := Placed(base, c, info, ttl);
    forall v | v != info.user ensures SameSet(db, base, v) ==> SameSet(db, db', v) {
      assert SameSet(base, db', v);
    }
  }

  lemma SRemTakesOut(db: Db, u: UserId, cs: set<ConnId>)
    ensures TakenOut(db, db.SRem(u, cs), u, cs) && SameConns(db, db.SRem(u, cs), {})
  {
  }

  lemma PlacedIs(db: Db, c: ConnId, info: Info, ttl: Ttl)
    ensures var db' := Placed(db, c, info, ttl);
            && SameConns(db, db', {c}) && IsPlaced(db, db', c, info, ttl)
            && forall v :: v != info.user ==> SameSet(db, db', v)
  {
    var db1 := db.SetInfo(c, info, ttl).SAdd(info.user, c);
    ExtendIs(db1, info.user, ttl);
  }

  lemma ExtendIs(db: Db, u: UserId, ttl: Ttl)
    ensures var db' := db.ExtendSet(u, ttl);
            && db'.now == db.now && db'.infos == db.infos && db'.Members(u) == db.Members(u)
            && (db.Members(u) != {} ==> Extended(db, db', u, ttl))
            && forall v :: v != u ==> SameSet(db, db', v)
  {
  }

  // --------------------------------------------------------------------
  // The calls of the machine
  // --------------------------------------------------------------------

  lemma {:induction false} RunsOn(cfg: Config, s: System, first: seq<Action>, second: seq<Action>)
    ensures Run(cfg, s, first + second) == Run(cfg, Run(cfg, s, first), second)
    decreases |first|
  {
    if first == [] {
      assert first + second == second;
    } else {
      RunsOn(cfg, Step(cfg, s, first[0]), first[1..], second);
      assert (first + second)[1..] == first[1..] + second;
    }
  }

  lemma RunsTwo(cfg: Config, s: System, a: Action, b: Action)
    ensures Run(cfg, s, [a, b]) == Step(cfg, Step(cfg, s, a), b)
  {
    assert [a, b][1..] == [b] && [b][1..] == [];
    assert Run(cfg, Step(cfg, Step(cfg, s, a), b), []) == Step(cfg, Step(cfg, s, a), b);
  }

  lemma RunsThree(cfg: Config, s: System, a: Action, b: Action, c: Action)
    ensures Run(cfg, s, [a, b, c]) == Step(cfg, Step(cfg, Step(cfg, s, a), b), c)
  {
    RunsTwo(cfg, Step(cfg, s, a), b, c);
    assert [a, b, c][1..] == [b, c];
  }

  lemma TidyingIs(db: Db, u: UserId)
    ensures SameConns(db, LuaCleanupEmptySet(db, u), {}) && TakenOut(db, LuaCleanupEmptySet(db, u), u, {})
  {
  }

  ghost predicate IsRemoved(db: Db, db': Db, c: ConnId, u: UserId) {
    !db'.Live(c) && SameConns(db, db', {c}) && TakenOut(db, db', u, {c})
  }

  /** Remove, left alone: exactly this connection is gone, from its owner's set too. */
  lemma UninterruptedRemove(cfg: Config, s: System, k: nat, c: ConnId)
    requires k !in s.calls
    ensures var s' := Run(cfg, s, [RemoveGet(k, c), RemoveRun(k), Cleanup(k)]);
            && s'.calls == s.calls && (!s.db.Live(c) ==> s'.db == s.db)
            && (s.db.Live(c) ==> IsRemoved(s.db, s'.db, c, s.db.infos[c].info.user))
  {
    RunsThree(cfg, s, RemoveGet(k, c), RemoveRun(k), Cleanup(k));
    if s.db.Live(c) {
      var u := s.db.infos[c].info.user;
      var s1 := Step(cfg, s, RemoveGet(k, c));
      var s2 := Step(cfg, s1, RemoveRun(k));
      RemovedIs(s.db, c, u);
      assert Step(cfg, s2, Cleanup(k)) == System(LuaCleanupEmptySet(LuaRemove(s.db, c, u), u), s2.calls - {k});
      assert s2.calls - {k} == s.calls;
    }
  }

  lemma RemovedIs(db: Db, c: ConnId, u: UserId)
    ensures IsRemoved(db, LuaCleanupEmptySet(LuaRemove(db, c, u), u), c, u)
  {
    RemovalIs(db, c, u);
    TidiedIsRemoved(db, LuaRemove(db, c, u), c, u);
  }

  lemma RemovalIs(db: Db, c: ConnId, u: UserId)
    ensures IsRemoved(db, LuaRemove(db, c, u), c, u)
  {
    SRemTakesOut(db.DelInfos({c}), u, {c});
  }

  lemma TidiedIsRemoved(db: Db, db1: Db, c: ConnId, u: UserId)
    requires IsRemoved(db, db1, c, u)
    ensures IsRemoved(db, LuaCleanupEmptySet(db1, u), c, u)
  {
    TidyingIs(db1, u);
    TakenOutBoth(db, db1, LuaCleanupEmptySet(db1, u), u, {c});
  }

  lemma TakenOutBoth(db: Db, db1: Db, db2: Db, u: UserId, cs: set<ConnId>)
    requires TakenOut(db, db1, u, cs) && TakenOut(db1, db2, u, {})
    ensures TakenOut(db, db2, u, cs)
  {
    forall v | v != u ensures SameSet(db, db2, v) { assert SameSet(db, db1, v) && SameSet(db1, db2, v); }
  }

  /** Refresh, left alone: the connection lives for its own TTL again, or for the default, its owner's
      set at least as long, and nothing else changes. */
  lemma UninterruptedRefresh(cfg: Config, s: System, k: nat, c: ConnId)
    requires k !in s.calls
    ensures var s' := Run(cfg, s, [RefreshGet(k, c), RefreshRun(k)]);
            && s'.calls == s.calls && (!s.db.Live(c) ==> s'.db == s.db)
            && (s.db.Live(c) ==>
                  var info := s.db.infos[c].info;
                  var ttl := if info.ttl > 0 then info.ttl else cfg.defaultTtl;
                  && SameConns(s.db, s'.db, {c}) && s'.db.Live(c) && s'.db.infos[c] == InfoKey(info, s.db.now + ttl)
                  && s'.db.Members(info.user) == s.db.Members(info.user)
                  && (s.db.Members(info.user) != {} ==> Extended(s.db, s'.db, info.user, ttl))
                  && forall v :: v != info.user ==> SameSet(s.db, s'.db, v))
  {
    RunsTwo(cfg, s, RefreshGet(k, c), RefreshRun(k));
    if s.db.Live(c) {
      var info := s.db.infos[c].info;
      var ttl: Ttl := if info.ttl > 0 then info.ttl else cfg.defaultTtl;
      var s1 := Step(cfg, s, RefreshGet(k, c));
      assert s1.calls - {k} == s.calls;
      ExtendIs(s.db.ExpireInfo(c, ttl), info.user, ttl);
    }
  }

  // The round trips that delete the info keys, batch by batch.
  function Drops(k: nat, batches: seq<set<ConnId>>): seq<Action> {
    seq(|batches|, i requires 0 <= i < |batches| => DropInfos(k, batches[i]))
  }

  function Union(batches: seq<set<ConnId>>): set<ConnId> {
    if batches == [] then {} else batches[0] + Union(batches[1..])
  }

  lemma {:induction false} DropsAll(cfg: Config, s: System, k: nat, u: UserId, keys: set<ConnId>,
                                    batches: seq<set<ConnId>>)
    requires k in s.calls && s.calls[k] == Dropping(u, keys)
    ensures Run(cfg, s, Drops(k, batches))
            == System(s.db.DelInfos(Union(batches) * keys), s.calls[k := Dropping(u, keys - Union(batches))])
    decreases |batches|
  {
    if batches == [] {
      assert s.db.infos - ({} * keys) == s.db.infos && keys - {} == keys && s.calls[k := s.calls[k]] == s.calls;
    } else {
      var first := batches[0];
      var s1 := Step(cfg, s, DropInfos(k, first));
      var left := keys - first;
      DropsAll(cfg, s1, k, u, left, batches[1..]);
      assert Drops(k, batches)[0] == DropInfos(k, first) && Drops(k, batches)[1..] == Drops(k, batches[1..]);
      var rest := Union(batches[1..]);
      assert s.db.infos - (first * keys) - (rest * left) == s.db.infos - ((first + rest) * keys);
      assert left - rest == keys - (first + rest);
      assert s1.calls[k := Dropping(u, left - rest)] == s.calls[k := Dropping(u, left - rest)];
    }
  }

  /** RemoveByUser, left alone: however the members are cut into batches, exactly the members' connections
      and the set are gone. */
  lemma UninterruptedRemoveByUser(cfg: Config, s: System, k: nat, u: UserId, batches: seq<set<ConnId>>)
    requires k !in s.calls && s.db.Members(u) != {} && Union(batches) == s.db.Members(u)
    ensures var s' := Run(cfg, s, [DropGet(k, u)] + Drops(k, batches) + [DropSet(k)]);
            && s'.calls == s.calls && s'.db.Members(u) == {}
            && (forall c :: c in s.db.Members(u) ==> !s'.db.Live(c)) && SameConns(s.db, s'.db, s.db.Members(u))
            && forall v :: v != u ==> SameSet(s.db, s'.db, v)
  {
    var members := s.db.Members(u);
    var get, drops := [DropGet(k, u)], Drops(k, batches);
    var s1 := Step(cfg, s, DropGet(k, u));
    assert get[1..] == [] && Run(cfg, s, get) == Run(cfg, s1, []) == s1;
    RunsOn(cfg, s, get + drops, [DropSet(k)]);
    RunsOn(cfg, s, get, drops);
    DropsAll(cfg, s1, k, u, members, batches);
    assert members * members == members && members - members == {};
    var s2 := Run(cfg, s1, drops);
    assert s2 == System(s.db.DelInfos(members), s1.calls[k := Dropping(u, {})]);
    assert [DropSet(k)][1..] == [] && Run(cfg, s2, [DropSet(k)]) == Step(cfg, s2, DropSet(k));
    assert s2.calls - {k} == s.calls;
  }

  // The round trips that read a set, one SSCAN and one MGET for each batch.
  function Scans(k: nat, u: UserId, batches: seq<set<ConnId>>): seq<Action> {
    if batches == [] then [] else [ListScan(k, u, batches[0]), ListMGet(k)] + Scans(k, u, batches[1..])
  }

  ghost function Stale(db: Db, cs: set<ConnId>): set<ConnId> {
    set c | c in cs && !db.Live(c)
  }

  lemma ScanOne(cfg: Config, s: System, k: nat, u: UserId, batch: set<ConnId>, stale: set<ConnId>)
    requires batch <= s.db.Members(u)
    requires (k !in s.calls && stale == {}) || (k in s.calls && s.calls[k] == Listing(u, stale))
    ensures Run(cfg, s, [ListScan(k, u, batch), ListMGet(k)])
            == s.(calls := s.calls[k := Listing(u, stale + Stale(s.db, batch))])
  {
    RunsTwo(cfg, s, ListScan(k, u, batch), ListMGet(k));
  }

  lemma {:induction false} ScansAll(cfg: Config, s: System, k: nat, u: UserId, batches: seq<set<ConnId>>,
                                    stale: set<ConnId>)
    requires (forall b :: b in batches ==> b <= s.db.Members(u)) && batches != []
    requires (k !in s.calls && stale == {}) || (k in s.calls && s.calls[k] == Listing(u, stale))
    ensures Run(cfg, s, Scans(k, u, batches))
            == s.(calls := s.calls[k := Listing(u, stale + Stale(s.db, Union(batches)))])
    decreases |batches|
  {
    var first, rest := [ListScan(k, u, batches[0]), ListMGet(k)], batches[1..];
    var seen := stale + Stale(s.db, batches[0]);
    var s1 := s.(calls := s.calls[k := Listing(u, seen)]);
    ScanOne(cfg, s, k, u, batches[0], stale);
    RunsOn(cfg, s, first, Scans(k, u, rest));
    if rest == [] {
      assert batches[0] + {} == batches[0];
    } else {
      ScansAll(cfg, s1, k, u, rest, seen);
      assert seen + Stale(s.db, Union(rest)) == stale + Stale(s.db, Union(batches));
      assert s1.calls[k := Listing(u, seen + Stale(s.db, Union(rest)))]
          == s.calls[k := Listing(u, seen + Stale(s.db, Union(rest)))];
    }
  }

  lemma StaleAreDropped(db: Db, u: UserId, stale: set<ConnId>)
    ensures var db' := LuaCleanupEmptySet(db.SRem(u, stale), u); SameConns(db, db', {}) && TakenOut(db, db', u, stale)
  {
    var db1 := db.SRem(u, stale);
    SRemTakesOut(db, u, stale);
    TidyingIs(db1, u);
    TakenOutBoth(db, db1, LuaCleanupEmptySet(db1, u), u, stale);
  }

  lemma DropsStale(cfg: Config, s: System, k: nat, u: UserId, stale: set<ConnId>)
    requires k in s.calls && s.calls[k] == Listing(u, stale)
    ensures var s' := Run(cfg, s, [ListSRem(k), Cleanup(k)]);
            && s'.calls == s.calls - {k} && SameConns(s.db, s'.db, {}) && TakenOut(s.db, s'.db, u, stale)
  {
    RunsTwo(cfg, s, ListSRem(k), Cleanup(k));
    if stale != {} {
      StaleAreDropped(s.db, u, stale);
      var s1 := Step(cfg, s, ListSRem(k));
      assert s1.calls - {k} == s.calls - {k};
    } else {
      assert s.db.Members(u) - stale == s.db.Members(u);
    }
  }

  /** ListByUser, left alone: the ids it has read that are no longer live are gone from the user's set,
      and no connection, live id or other set is touched. */
  lemma UninterruptedList(cfg: Config, s: System, k: nat, u: UserId, batches: seq<set<ConnId>>)
    requires k !in s.calls && batches != [] && forall b :: b in batches ==> b <= s.db.Members(u)
    ensures var s' := Run(cfg, s, Scans(k, u, batches) + [ListSRem(k), Cleanup(k)]);
            && s'.calls == s.calls && SameConns(s.db, s'.db, {})
            && TakenOut(s.db, s'.db, u, Stale(s.db, Union(batches)))
  {
    var stale := Stale(s.db, Union(batches));
    ScansAll(cfg, s, k, u, batches, {});
    assert {} + stale == stale;
    var s1 := s.(calls := s.calls[k := Listing(u, stale)]);
    RunsOn(cfg, s, Scans(k, u, batches), [ListSRem(k), Cleanup(k)]);
    DropsStale(cfg, s1, k, u, stale);
    assert s1.calls - {k} == s.calls;
  }
}
