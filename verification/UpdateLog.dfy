/** The per-user update log: transactional MAX + 1 seq allocation, retention
    cleanup, the gap-filling sync_updates handler over 32-bit seqs, and the
    client loop that pages through it. */
module UpdateLog {
  import opened Option

  const MODULUS: int := 0x1_0000_0000
  const MAX_SEQ: int := MODULUS - 1

  // uint32
  type Seq = n: int | 0 <= n < MODULUS

  datatype Update = Update(user: string, num: Seq, kind: string, payload: string, createdAt: nat)

  // SELECT COALESCE(MAX(seq), 0)
  function LatestSeq(rows: seq<Update>, u: string): Seq {
    if rows == [] then 0
    else
      var rest, last := LatestSeq(rows[..|rows| - 1], u), rows[|rows| - 1];
      if last.user == u && last.num > rest then last.num else rest
  }

  ghost predicate UniqueSeqs(rows: seq<Update>) {
    forall i, j :: 0 <= i < j < |rows| && rows[i].user == rows[j].user ==> rows[i].num != rows[j].num
  }

  lemma {:induction false} LatestIsMax(rows: seq<Update>, u: string)
    ensures forall i :: 0 <= i < |rows| && rows[i].user == u ==> rows[i].num <= LatestSeq(rows, u)
    ensures LatestSeq(rows, u) > 0 ==>
              exists i :: 0 <= i < |rows| && rows[i].user == u && rows[i].num == LatestSeq(rows, u)
  {
    if rows != [] {
      var front, last := rows[..|rows| - 1], rows[|rows| - 1];
      LatestIsMax(front, u);
      forall i | 0 <= i < |rows| && rows[i].user == u ensures rows[i].num <= LatestSeq(rows, u) {
        if i < |front| { assert rows[i] == front[i]; }
      }
      if LatestSeq(rows, u) > 0 && LatestSeq(rows, u) == LatestSeq(front, u) {
        var i :| 0 <= i < |front| && front[i].user == u && front[i].num == LatestSeq(front, u);
        assert rows[i] == front[i];
      }
    }
  }

  // --------------------------------------------------------------------
  // sync_updates
  // --------------------------------------------------------------------

  // A gap carries no payload.
  datatype Item = Item(num: Seq, kind: string, payload: Option<string>)

  datatype Response = Response(updates: seq<Item>, hasMore: bool, latestSeq: Seq)

  datatype Outcome = Reply(response: Response) | NeverReturns

  const GAP := "gap"

  function SyncLimit(limit: int): nat {
    if limit <= 0 then 100 else if limit > 500 then 500 else limit
  }

  function ItemAt(rows: seq<Update>, u: string, s: Seq): Item {
    if rows == [] then Item(s, GAP, None)
    else if rows[0].user == u && rows[0].num == s then Item(s, rows[0].kind, Some(rows[0].payload))
    else ItemAt(rows[1..], u, s)
  }

  // uint32 addition
  function Add32(a: Seq, b: nat): Seq {
    (a + b) % MODULUS
  }

  function ExpectedEnd(after: Seq, limit: int, latest: Seq): Seq {
    var end := Add32(after, SyncLimit(limit));
    if end > latest then latest else end
  }

  function Items(rows: seq<Update>, u: string, after: Seq, end: Seq): seq<Item> {
    seq(if end > after then end - after else 0, i requires 0 <= i < end - after => ItemAt(rows, u, after + 1 + i))
  }

  /** The gap-filling loop `for seq := s; seq <= end; seq++` over uint32 is still running
      after n iterations: the condition has held n + 1 times. */
  predicate Running(s: Seq, end: Seq, n: nat)
    decreases n
  {
    s <= end && (n == 0 || Running(Add32(s, 1), end, n - 1))
  }

  lemma {:induction false} RunningIff(s: Seq, end: Seq, n: nat)
    ensures Running(s, end, n) <==> end == MAX_SEQ || s + n <= end
    decreases n
  {
    if n > 0 { RunningIff(Add32(s, 1), end, n - 1); }
  }

  ghost predicate RunsForEver(s: Seq, end: Seq) {
    forall n: nat :: Running(s, end, n)
  }

  /** The loop runs for ever exactly when its bound is the largest uint32. */
  lemma LoopNeverEndsIff(s: Seq, end: Seq)
    ensures RunsForEver(s, end) <==> end == MAX_SEQ
  {
    forall n: nat ensures Running(s, end, n) <==> end == MAX_SEQ || s + n <= end { RunningIff(s, end, n); }
    assert end != MAX_SEQ ==> !Running(s, end, MODULUS);
  }

  // The answer, or none for a loop that goes on for ever.
  ghost function Sync(rows: seq<Update>, u: string, after: Seq, limit: int): Outcome {
    var latest := LatestSeq(rows, u);
    if latest <= after then Reply(Response([], false, latest))
    else
      var end := ExpectedEnd(after, limit, latest);
      if RunsForEver(Add32(after, 1), end) then NeverReturns
      else Reply(Response(Items(rows, u, after, end), Add32(after, SyncLimit(limit)) < latest, latest))
  }

  // What a caller has that waits for this many iterations.
  function Observed(rows: seq<Update>, u: string, after: Seq, limit: int, patience: nat): Option<Response> {
    var latest := LatestSeq(rows, u);
    if latest <= after then Some(Response([], false, latest))
    else
      var end := ExpectedEnd(after, limit, latest);
      if Running(Add32(after, 1), end, patience) then None
      else Some(Response(Items(rows, u, after, end), Add32(after, SyncLimit(limit)) < latest, latest))
  }

  /** The handler returns this response after enough iterations, or is seen running however
      long one waits. */
  lemma SyncIsWhatIsObserved(rows: seq<Update>, u: string, after: Seq, limit: int)
    ensures Sync(rows, u, after, limit) == NeverReturns <==> forall n: nat :: Observed(rows, u, after, limit, n) == None
    ensures forall r ::
            Sync(rows, u, after, limit) == Reply(r) <==> exists n: nat :: Observed(rows, u, after, limit, n) == Some(r)
  {
    var latest := LatestSeq(rows, u);
    if latest <= after {
      assert Observed(rows, u, after, limit, 0) == Some(Response([], false, latest));
    } else {
      var end := ExpectedEnd(after, limit, latest);
      if !RunsForEver(Add32(after, 1), end) {
        var n: nat :| !Running(Add32(after, 1), end, n);
        assert Observed(rows, u, after, limit, n).Some?;
      } else {
        assert forall n: nat :: Running(Add32(after, 1), end, n) ==> Observed(rows, u, after, limit, n) == None;
      }
    }
  }

  /** What sync_updates is for: the contiguous seqs after + 1 .. min(after + limit, latest),
      and has_more when there are more. */
  ghost predicate Complete(o: Outcome, rows: seq<Update>, u: string, after: Seq, limit: int) {
    var latest := LatestSeq(rows, u);
    var wanted := after + if limit <= 0 then 100 else if limit > 500 then 500 else limit;
    var end := if wanted < latest then wanted else latest;
    && o.Reply?
    && |o.response.updates| == (if end > after then end - after else 0)
    && (forall i :: 0 <= i < |o.response.updates| ==> o.response.updates[i] == ItemAt(rows, u, after + 1 + i))
    && (o.response.hasMore <==> wanted < latest)
    && o.response.latestSeq == latest
  }

  /** Beyond it the answer is empty and says there is more: a client that asks
      again with the same cursor gets the same answer. */
  lemma WrappedWindowMakesNoProgress(rows: seq<Update>, u: string, after: Seq, limit: int)
    requires after < LatestSeq(rows, u) && after + SyncLimit(limit) >= MODULUS
    ensures Sync(rows, u, after, limit) == Reply(Response([], true, LatestSeq(rows, u)))
  {
    LoopNeverEndsIff(Add32(after, 1), ExpectedEnd(after, limit, LatestSeq(rows, u)));
    assert Items(rows, u, after, ExpectedEnd(after, limit, LatestSeq(rows, u))) == [];
  }

  lemma WindowInRange(after: Seq, limit: int, latest: Seq)
    requires after + SyncLimit(limit) < MODULUS
    ensures Add32(after, SyncLimit(limit)) == after + SyncLimit(limit)
    ensures ExpectedEnd(after, limit, latest)
            == if after + SyncLimit(limit) > latest then latest else after + SyncLimit(limit)
  {
  }

  // The window stays inside 32 bits, and does not end at the largest seq when that was issued.
  predicate InRange(after: Seq, limit: int, latest: Seq) {
    var wanted := after + if limit <= 0 then 100 else if limit > 500 then 500 else limit;
    wanted < 0xFFFF_FFFF || (wanted == 0xFFFF_FFFF && latest < 0xFFFF_FFFF)
  }

  lemma CompleteInRange(rows: seq<Update>, u: string, after: Seq, limit: int)
    requires after < LatestSeq(rows, u) && InRange(after, limit, LatestSeq(rows, u))
    ensures Complete(Sync(rows, u, after, limit), rows, u, after, limit)
  {
    var latest := LatestSeq(rows, u);
    WindowInRange(after, limit, latest);
    var end := ExpectedEnd(after, limit, latest);
    LoopNeverEndsIff(Add32(after, 1), end);
    assert end < MAX_SEQ && |Items(rows, u, after, end)| == end - after;
  }

  /** sync_updates keeps that promise exactly when the window does not reach the
      end of the 32-bit range. */
  lemma SyncIsCompleteIff(rows: seq<Update>, u: string, after: Seq, limit: int)
    ensures var latest := LatestSeq(rows, u);
            Complete(Sync(rows, u, after, limit), rows, u, after, limit)
            <==> latest <= after || InRange(after, limit, latest)
  {
    var latest := LatestSeq(rows, u);
    if after < latest {
      if after + SyncLimit(limit) >= MODULUS {
        WrappedWindowMakesNoProgress(rows, u, after, limit);
      } else if InRange(after, limit, latest) {
        CompleteInRange(rows, u, after, limit);
      } else {
        NeverReturnsIff(rows, u, after, limit);
      }
    }
  }

  /** The handler never returns exactly when the window ends at the largest seq and that
      seq was issued. */
  lemma NeverReturnsIff(rows: seq<Update>, u: string, after: Seq, limit: int)
    ensures Sync(rows, u, after, limit) == NeverReturns
            <==> after < LatestSeq(rows, u) == MAX_SEQ && after + SyncLimit(limit) == MAX_SEQ
  {
    LoopNeverEndsIff(Add32(after, 1), ExpectedEnd(after, limit, LatestSeq(rows, u)));
  }

  lemma {:induction false} ItemOfRow(rows: seq<Update>, u: string, i: nat)
    requires UniqueSeqs(rows) && i < |rows| && rows[i].user == u
    ensures ItemAt(rows, u, rows[i].num) == Item(rows[i].num, rows[i].kind, Some(rows[i].payload))
  {
    if i > 0 {
      assert rows[0].user == u ==> rows[0].num != rows[i].num;
      assert rows[i] == rows[1..][i - 1];
      ItemOfRow(rows[1..], u, i - 1);
    }
  }

  lemma {:induction false} ItemOfHole(rows: seq<Update>, u: string, s: Seq)
    requires forall i :: 0 <= i < |rows| && rows[i].user == u ==> rows[i].num != s
    ensures ItemAt(rows, u, s) == Item(s, "gap", None)
  {
    if rows != [] {
      assert rows[0].user == u ==> rows[0].num != s;
      forall i | 0 <= i < |rows[1..]| && rows[1..][i].user == u ensures rows[1..][i].num != s {
        assert rows[1..][i] == rows[i + 1];
      }
      ItemOfHole(rows[1..], u, s);
    }
  }

  ghost predicate InOrder(found: seq<Update>) {
    forall i, j :: 0 <= i < j < |found| ==> found[i].num <= found[j].num
  }

  class UserUpdateStore {
    var rows: seq<Update>

    constructor ()
      ensures rows == []
    {
      rows := [];
    }

    // SELECT ... WHERE user_id = ? AND seq > ? AND seq <= ? ORDER BY seq
    method ListByUserRange(u: string, after: Seq, max: Seq) returns (found: seq<Update>)
      ensures forall r :: r in found <==> r in rows && r.user == u && after < r.num <= max
      ensures InOrder(found)
    {
      found := [];
      if max <= after { return; }
      for i := 0 to |rows|
        invariant forall r :: r in found <==> r in rows[..i] && r.user == u && after < r.num <= max
        invariant InOrder(found)
      {
        assert rows[..i + 1] == rows[..i] + [rows[i]];
        if rows[i].user == u && after < rows[i].num <= max { found := InsertBySeq(found, rows[i]); }
      }
      assert rows[..|rows|] == rows;
    }

    method InsertBySeq(found: seq<Update>, r: Update) returns (longer: seq<Update>)
      requires InOrder(found)
      ensures InOrder(longer)
      ensures forall x :: x in longer <==> x in found || x == r
    {
      var i := |found|;
      while i > 0 && found[i - 1].num > r.num
        invariant 0 <= i <= |found|
        invariant i < |found| ==> found[i].num > r.num
      {
        i := i - 1;
      }
      longer := found[..i] + [r] + found[i..];
    }

    // One transaction: every member's MAX is read before the batch is inserted.
    method BroadcastToMembers(members: seq<string>, kind: string, payload: string, now: nat)
      modifies this
      ensures rows == Broadcast(old(rows), members, kind, payload, now)
    {
      var updates: seq<Update> := [];
      for i := 0 to |members|
        invariant rows == old(rows)
        invariant updates == Allocated(rows, members[..i], kind, payload, now)
      {
        var newSeq := Add32(LatestSeq(rows, members[i]), 1);
        updates := updates + [Update(members[i], newSeq, kind, payload, now)];
        assert members[..i + 1][..i] == members[..i];
      }
      assert members[..|members|] == members;
      if |updates| > 0 { rows := rows + updates; }
    }

    method CleanupExpiredBefore(before: nat) returns (count: nat)
      modifies this
      ensures rows == Cleaned(old(rows), before)
      ensures count == |old(rows)| - |rows|
    {
      var kept: seq<Update> := [];
      for i := 0 to |rows|
        invariant rows == old(rows)
        invariant kept == Cleaned(rows[..i], before) && |kept| <= i
      {
        assert rows[..i + 1][..i] == rows[..i];
        if rows[i].createdAt >= before { kept := kept + [rows[i]]; }
      }
      assert rows[..|rows|] == rows;
      count := |rows| - |kept|;
      rows := kept;
    }

    method BySeq(actual: seq<Update>) returns (m: map<Seq, Update>)
      ensures forall s :: s in m ==> m[s] in actual && m[s].num == s
      ensures forall r :: r in actual ==> r.num in m
    {
      m := map[];
      for i := 0 to |actual|
        invariant forall s :: s in m ==> m[s] in actual && m[s].num == s
        invariant forall r :: r in actual[..i] ==> r.num in m
      {
        assert actual[..i + 1] == actual[..i] + [actual[i]];
        m := m[actual[i].num := actual[i]];
      }
      assert actual[..|actual|] == actual;
    }

    // The loop as written, watched for at most patience iterations.
    method FillGaps(m: map<Seq, Update>, after: Seq, end: Seq, patience: nat)
      returns (result: seq<Item>, returned: bool)
      requires after < MAX_SEQ
      ensures !returned <==> Running(Add32(after, 1), end, patience)
      ensures returned ==> result == Filled(m, after, end)
    {
      result := [];
      var s: Seq, n := Add32(after, 1), 0;
      while s <= end && n < patience
        invariant n <= patience
        decreases patience - n
        invariant Running(Add32(after, 1), end, patience) <==> Running(s, end, patience - n)
        invariant end < MAX_SEQ ==> s == after + 1 + n && (s <= end + 1 || n == 0) && result == Filled(m, after, s - 1)
      {
        if end < MAX_SEQ { FilledNext(m, after, s); }
        if s in m {
          var r := m[s];
          result := result + [Item(r.num, r.kind, Some(r.payload))];
        } else {
          result := result + [Item(s, GAP, None)];
        }
        s, n := Add32(s, 1), n + 1;
      }
      returned := s > end;
      if returned && n == 0 { assert Filled(m, after, end) == []; }
    }

    /** None: the handler is still in its loop after that many iterations. */
    method SyncUpdates(u: string, after: Seq, limit: int, patience: nat) returns (o: Option<Response>)
      requires UniqueSeqs(rows)
      ensures o == Observed(rows, u, after, limit, patience)
    {
      var lim := if limit <= 0 then 100 else limit;
      if lim > 500 { lim := 500; }
      var latestSeq := LatestSeq(rows, u);
      if latestSeq <= after { return Some(Response([], false, latestSeq)); }
      var expectedEnd := Add32(after, lim);
      if expectedEnd > latestSeq { expectedEnd := latestSeq; }
      var actual := ListByUserRange(u, after, expectedEnd);
      var actualMap := BySeq(actual);
      var result, returned := FillGaps(actualMap, after, expectedEnd, patience);
      if !returned { return None; }
      FilledIsItems(rows, u, after, expectedEnd, actualMap, result);
      var hasMore := Add32(after, lim) < latestSeq;
      return Some(Response(result, hasMore, latestSeq));
    }
  }

  function Filled(m: map<Seq, Update>, after: Seq, end: Seq): seq<Item> {
    seq(if end > after then end - after else 0, i requires 0 <= i < end - after =>
      var s := after + 1 + i;
      if s in m then Item(m[s].num, m[s].kind, Some(m[s].payload)) else Item(s, GAP, None))
  }

  lemma FilledNext(m: map<Seq, Update>, after: Seq, s: Seq)
    requires after < s
    ensures var item := if s in m then Item(m[s].num, m[s].kind, Some(m[s].payload)) else Item(s, GAP, None);
            Filled(m, after, s) == Filled(m, after, s - 1) + [item]
  {
  }

  lemma FilledIsItems(rows: seq<Update>, u: string, after: Seq, end: Seq, m: map<Seq, Update>, result: seq<Item>)
    requires UniqueSeqs(rows) && result == Filled(m, after, end)
    requires forall k :: k in m ==> m[k] in rows && m[k].user == u && m[k].num == k
    requires forall r :: r in rows && r.user == u && after < r.num <= end ==> r.num in m
    ensures result == Items(rows, u, after, end)
  {
    forall i | 0 <= i < |result| ensures result[i] == ItemAt(rows, u, after + 1 + i) {
      MapHoldsItem(rows, u, after, end, m, after + 1 + i);
    }
  }

  lemma MapHoldsItem(rows: seq<Update>, u: string, after: Seq, end: Seq, m: map<Seq, Update>, s: Seq)
    requires UniqueSeqs(rows) && after < s <= end
    requires forall k :: k in m ==> m[k] in rows && m[k].user == u && m[k].num == k
    requires forall r :: r in rows && r.user == u && after < r.num <= end ==> r.num in m
    ensures ItemAt(rows, u, s) == if s in m then Item(s, m[s].kind, Some(m[s].payload)) else Item(s, GAP, None)
  {
    if s in m {
      var i :| 0 <= i < |rows| && rows[i] == m[s];
      ItemOfRow(rows, u, i);
    } else {
      ItemOfHole(rows, u, s);
    }
  }

  // --------------------------------------------------------------------
  // Allocation and retention
  // --------------------------------------------------------------------

  function Allocated(rows: seq<Update>, members: seq<string>, kind: string, payload: string, now: nat): seq<Update> {
    if members == [] then []
    else
      var m := members[|members| - 1];
      Allocated(rows, members[..|members| - 1], kind, payload, now)
      + [Update(m, Add32(LatestSeq(rows, m), 1), kind, payload, now)]
  }

  function Broadcast(rows: seq<Update>, members: seq<string>, kind: string, payload: string, now: nat): seq<Update> {
    rows + Allocated(rows, members, kind, payload, now)
  }

  function Cleaned(rows: seq<Update>, before: nat): seq<Update> {
    if rows == [] then []
    else
      var rest, last := Cleaned(rows[..|rows| - 1], before), rows[|rows| - 1];
      if last.createdAt >= before then rest + [last] else rest
  }

  ghost predicate WellFormed(rows: seq<Update>) {
    UniqueSeqs(rows) && forall r :: r in rows ==> r.num > 0
  }

  ghost predicate Distinct(members: seq<string>) {
    forall i, j :: 0 <= i < j < |members| ==> members[i] != members[j]
  }

  lemma {:induction false} AllocatedAt(rows: seq<Update>, members: seq<string>, kind: string, payload: string, now: nat)
    ensures var added := Allocated(rows, members, kind, payload, now);
            && |added| == |members|
            && forall i :: 0 <= i < |members| ==>
                 added[i] == Update(members[i], Add32(LatestSeq(rows, members[i]), 1), kind, payload, now)
  {
    if members != [] { AllocatedAt(rows, members[..|members| - 1], kind, payload, now); }
  }

  ghost predicate RoomForAll(rows: seq<Update>, members: seq<string>) {
    forall m :: m in members ==> LatestSeq(rows, m) < MAX_SEQ
  }

  lemma BroadcastNeedsRoom(rows: seq<Update>, members: seq<string>, kind: string, payload: string, now: nat)
    requires WellFormed(Broadcast(rows, members, kind, payload, now))
    ensures Distinct(members) && RoomForAll(rows, members)
  {
    var added := Allocated(rows, members, kind, payload, now);
    var after := Broadcast(rows, members, kind, payload, now);
    AllocatedAt(rows, members, kind, payload, now);
    assert forall i :: 0 <= i < |members| ==> after[|rows| + i] == added[i] && added[i] in after;
    forall i, j | 0 <= i < j < |members| ensures members[i] != members[j] {
      assert after[|rows| + i] == added[i] && after[|rows| + j] == added[j];
    }
    forall m | m in members ensures LatestSeq(rows, m) < MAX_SEQ {
      var i :| 0 <= i < |members| && members[i] == m;
      assert added[i] in after;
    }
  }

  lemma BroadcastKeepsUnique(rows: seq<Update>, members: seq<string>, kind: string, payload: string, now: nat)
    requires UniqueSeqs(rows) && Distinct(members) && RoomForAll(rows, members)
    ensures UniqueSeqs(Broadcast(rows, members, kind, payload, now))
  {
    var n, after := |rows|, Broadcast(rows, members, kind, payload, now);
    AllocatedAt(rows, members, kind, payload, now);
    forall i, j | 0 <= i < j < |after| && after[i].user == after[j].user ensures after[i].num != after[j].num {
      if i < n <= j {
        LatestIsMax(rows, after[i].user);
        assert members[j - n] in members;
      }
    }
  }

  lemma AllocatedIsPositive(rows: seq<Update>, members: seq<string>, kind: string, payload: string, now: nat)
    requires RoomForAll(rows, members)
    ensures forall r :: r in Allocated(rows, members, kind, payload, now) ==> r.num > 0
  {
    AllocatedAt(rows, members, kind, payload, now);
    forall r | r in Allocated(rows, members, kind, payload, now) ensures r.num > 0 {
      var i :| 0 <= i < |members| && Allocated(rows, members, kind, payload, now)[i] == r;
      assert members[i] in members;
    }
  }

  /** One broadcast keeps the log usable exactly when no member is named twice
      and nobody's 32-bit counter wraps. */
  lemma BroadcastKeepsWellFormedIff(rows: seq<Update>, members: seq<string>, kind: string, payload: string, now: nat)
    requires WellFormed(rows)
    ensures WellFormed(Broadcast(rows, members, kind, payload, now)) <==> Distinct(members) && RoomForAll(rows, members)
  {
    if WellFormed(Broadcast(rows, members, kind, payload, now)) {
      BroadcastNeedsRoom(rows, members, kind, payload, now);
    }
    if Distinct(members) && RoomForAll(rows, members) {
      BroadcastKeepsUnique(rows, members, kind, payload, now);
      AllocatedIsPositive(rows, members, kind, payload, now);
    }
  }

  lemma {:induction false} CleanedHolds(rows: seq<Update>, before: nat)
    ensures forall r :: r in Cleaned(rows, before) <==> r in rows && r.createdAt >= before
    ensures UniqueSeqs(rows) ==> UniqueSeqs(Cleaned(rows, before))
  {
    if rows != [] {
      var front, last := rows[..|rows| - 1], rows[|rows| - 1];
      CleanedHolds(front, before);
      assert rows == front + [last];
      if UniqueSeqs(rows) {
        assert UniqueSeqs(front);
        forall i, j | 0 <= i < j < |Cleaned(rows, before)|
            && Cleaned(rows, before)[i].user == Cleaned(rows, before)[j].user
          ensures Cleaned(rows, before)[i].num != Cleaned(rows, before)[j].num
        {
          if j == |Cleaned(front, before)| {
            var r := Cleaned(front, before)[i];
            assert r in Cleaned(front, before);
            var k :| 0 <= k < |front| && front[k] == r;
            assert rows[k] == r;
          }
        }
      }
    }
  }

  // The user's newest row is inside the retention period.
  ghost predicate KeepsNewest(rows: seq<Update>, u: string, before: nat) {
    LatestSeq(rows, u) > 0 ==>
        exists r :: r in rows && r.user == u && r.num == LatestSeq(rows, u) && r.createdAt >= before
  }

  lemma CleanupKeepsLatestIff(rows: seq<Update>, u: string, before: nat)
    ensures LatestSeq(Cleaned(rows, before), u) <= LatestSeq(rows, u)
    ensures LatestSeq(Cleaned(rows, before), u) == LatestSeq(rows, u) <==> KeepsNewest(rows, u, before)
  {
    var kept := Cleaned(rows, before);
    CleanedHolds(rows, before);
    LatestIsMax(rows, u);
    LatestIsMax(kept, u);
    if LatestSeq(kept, u) > 0 {
      var i :| 0 <= i < |kept| && kept[i].user == u && kept[i].num == LatestSeq(kept, u);
      assert kept[i] in kept;
      var j :| 0 <= j < |rows| && rows[j] == kept[i];
    }
    if KeepsNewest(rows, u, before) && LatestSeq(rows, u) > 0 {
      var r :| r in rows && r.user == u && r.num == LatestSeq(rows, u) && r.createdAt >= before;
      assert r in kept;
      var j :| 0 <= j < |kept| && kept[j] == r;
    }
  }

  datatype Op =
    | Send(members: seq<string>, kind: string, payload: string, now: nat)
    | Cleanup(before: nat)

  // issued: every row ever created, in order.
  datatype Log = Log(rows: seq<Update>, issued: seq<Update>)

  function Step(l: Log, op: Op): Log {
    match op
    case Send(members, kind, payload, now) =>
      Log(Broadcast(l.rows, members, kind, payload, now), l.issued + Allocated(l.rows, members, kind, payload, now))
    case Cleanup(before) => l.(rows := Cleaned(l.rows, before))
  }

  function Run(l: Log, ops: seq<Op>): Log
    decreases |ops|
  {
    if ops == [] then l else Run(Step(l, ops[0]), ops[1..])
  }

  /** Members are distinct, counters do not wrap, and cleanup leaves each user's newest row. */
  ghost predicate Allowed(l: Log, op: Op) {
    match op
    case Send(members, _, _, _) => Distinct(members) && RoomForAll(l.rows, members)
    case Cleanup(before) => forall u :: KeepsNewest(l.rows, u, before)
  }

  ghost predicate AllAllowed(l: Log, ops: seq<Op>)
    decreases |ops|
  {
    ops == [] || (Allowed(l, ops[0]) && AllAllowed(Step(l, ops[0]), ops[1..]))
  }

  // The seqs issued to one user, in the order they were issued.
  function SeqsOf(issued: seq<Update>, u: string): seq<Seq> {
    if issued == [] then []
    else
      var rest, last := SeqsOf(issued[..|issued| - 1], u), issued[|issued| - 1];
      if last.user == u then rest + [last.num] else rest
  }

  function UpTo(n: Seq): seq<Seq> {
    seq(n, i requires 0 <= i < n => i + 1)
  }

  ghost predicate Inv(l: Log) {
    && WellFormed(l.rows)
    && (forall r :: r in l.rows ==> r in l.issued)
    && forall u :: Counts(l, u)
  }

  // The user was issued 1, 2, .., latest in that order.
  ghost predicate Counts(l: Log, u: string) {
    SeqsOf(l.issued, u) == UpTo(LatestSeq(l.rows, u))
  }

  lemma {:induction false} SeqsOfSend(l: Log, members: seq<string>, kind: string, payload: string, now: nat, u: string)
    requires Distinct(members)
    ensures SeqsOf(l.issued + Allocated(l.rows, members, kind, payload, now), u)
            == SeqsOf(l.issued, u) + if u in members then [Add32(LatestSeq(l.rows, u), 1)] else []
  {
    if members == [] {
      assert l.issued + Allocated(l.rows, members, kind, payload, now) == l.issued;
    } else {
      var front, m := members[..|members| - 1], members[|members| - 1];
      var r := Update(m, Add32(LatestSeq(l.rows, m), 1), kind, payload, now);
      var before := Allocated(l.rows, front, kind, payload, now);
      SeqsOfSend(l, front, kind, payload, now, u);
      SeqsOfOneMore(l.issued + before, r, u);
      assert l.issued + (before + [r]) == l.issued + before + [r];
      assert m !in front && members == front + [m];
    }
  }

  lemma SeqsOfOneMore(issued: seq<Update>, r: Update, u: string)
    ensures SeqsOf(issued + [r], u) == SeqsOf(issued, u) + if r.user == u then [r.num] else []
  {
    assert (issued + [r])[..|issued|] == issued;
  }

  lemma {:induction false} LatestOfSend(rows: seq<Update>, members: seq<string>, kind: string, payload: string,
                                        now: nat, u: string)
    requires RoomForAll(rows, members)
    ensures LatestSeq(Broadcast(rows, members, kind, payload, now), u)
            == if u in members then LatestSeq(rows, u) + 1 else LatestSeq(rows, u)
  {
    var all := Broadcast(rows, members, kind, payload, now);
    if members == [] {
      assert all == rows;
    } else {
      var front, m := members[..|members| - 1], members[|members| - 1];
      LatestOfSend(rows, front, kind, payload, now, u);
      assert all[..|all| - 1] == Broadcast(rows, front, kind, payload, now);
      assert members == front + [m];
    }
  }

  lemma OneMoreIsUpTo(rows: seq<Update>, members: seq<string>, u: string)
    requires RoomForAll(rows, members) && u in members
    ensures UpTo(LatestSeq(rows, u)) + [Add32(LatestSeq(rows, u), 1)] == UpTo(LatestSeq(rows, u) + 1)
  {
    assert LatestSeq(rows, u) < MAX_SEQ;
  }

  lemma SendCounts(l: Log, members: seq<string>, kind: string, payload: string, now: nat, u: string)
    requires Counts(l, u) && Distinct(members) && RoomForAll(l.rows, members)
    ensures Counts(Step(l, Send(members, kind, payload, now)), u)
  {
    var next := Step(l, Send(members, kind, payload, now));
    var latest := LatestSeq(l.rows, u);
    assert SeqsOf(next.issued, u) == SeqsOf(l.issued, u) + if u in members then [Add32(latest, 1)] else [] by {
      SeqsOfSend(l, members, kind, payload, now, u);
    }
    LatestOfSend(l.rows, members, kind, payload, now, u);
    if u in members { OneMoreIsUpTo(l.rows, members, u); }
  }

  lemma SendKeepsInv(l: Log, members: seq<string>, kind: string, payload: string, now: nat)
    requires Inv(l) && Distinct(members) && RoomForAll(l.rows, members)
    ensures Inv(Step(l, Send(members, kind, payload, now)))
  {
    var next := Step(l, Send(members, kind, payload, now));
    BroadcastKeepsWellFormedIff(l.rows, members, kind, payload, now);
    forall u ensures Counts(next, u) { SendCounts(l, members, kind, payload, now, u); }
  }

  lemma CleanupKeepsInv(l: Log, before: nat)
    requires Inv(l) && forall u :: KeepsNewest(l.rows, u, before)
    ensures Inv(Step(l, Cleanup(before)))
  {
    CleanedHolds(l.rows, before);
    forall u ensures Counts(Step(l, Cleanup(before)), u) {
      CleanupKeepsLatestIff(l.rows, u, before);
      assert Counts(l, u);
    }
  }

  lemma StepKeepsInv(l: Log, op: Op)
    requires Inv(l) && Allowed(l, op)
    ensures Inv(Step(l, op))
  {
    match op
    case Send(members, kind, payload, now) => SendKeepsInv(l, members, kind, payload, now);
    case Cleanup(before) => CleanupKeepsInv(l, before);
  }

  /** Over any run of broadcasts and retention cleanups, each user has been
      issued exactly 1, 2, .., n in that order, and n is what the next MAX
      reads: seqs are strictly increasing and never used twice. */
  lemma {:induction false} SeqsAreNeverReused(l: Log, ops: seq<Op>)
    requires Inv(l) && AllAllowed(l, ops)
    ensures Inv(Run(l, ops))
    ensures forall u :: Counts(Run(l, ops), u)
    decreases |ops|
  {
    if ops != [] {
      StepKeepsInv(l, ops[0]);
      SeqsAreNeverReused(Step(l, ops[0]), ops[1..]);
    }
  }

  /** A cleanup is safe for a user exactly when it leaves the newest row: otherwise
      the next broadcast to that user issues a seq that was issued before. */
  lemma CleanupReusesASeqIff(l: Log, u: string, before: nat, kind: string, payload: string, now: nat)
    requires Inv(l) && LatestSeq(l.rows, u) < MAX_SEQ
    ensures var cleaned := Step(l, Cleanup(before));
            var sent := Step(cleaned, Send([u], kind, payload, now));
            sent.rows[|sent.rows| - 1].num in SeqsOf(l.issued, u) <==> !KeepsNewest(l.rows, u, before)
  {
    var cleaned := Step(l, Cleanup(before));
    CleanupKeepsLatestIff(l.rows, u, before);
    AllocatedAt(cleaned.rows, [u], kind, payload, now);
    var next := Add32(LatestSeq(cleaned.rows, u), 1);
    assert Counts(l, u);
    if next <= LatestSeq(l.rows, u) { assert UpTo(LatestSeq(l.rows, u))[next - 1] == next; }
  }

  /** Holes left by cleanup hide nothing: every surviving row above a cursor is
      in the gap-filled list, and whatever carries a payload there was issued. */
  lemma SurvivorsAreListed(l: Log, u: string, after: Seq)
    requires Inv(l) && after <= LatestSeq(l.rows, u)
    ensures var items := Items(l.rows, u, after, LatestSeq(l.rows, u));
            && (forall r :: r in l.rows && r.user == u && r.num > after ==>
                Item(r.num, r.kind, Some(r.payload)) in items)
            && (forall item :: item in items && item.payload.Some? ==>
                  exists r :: r in l.issued && r.user == u && item == Item(r.num, r.kind, Some(r.payload)))
  {
    var latest := LatestSeq(l.rows, u);
    var items := Items(l.rows, u, after, latest);
    LatestIsMax(l.rows, u);
    forall r | r in l.rows && r.user == u && r.num > after ensures Item(r.num, r.kind, Some(r.payload)) in items {
      var i :| 0 <= i < |l.rows| && l.rows[i] == r;
      ItemOfRow(l.rows, u, i);
      assert items[r.num - after - 1] == ItemAt(l.rows, u, r.num);
    }
    forall item | item in items && item.payload.Some?
      ensures exists r :: r in l.issued && r.user == u && item == Item(r.num, r.kind, Some(r.payload))
    {
      var i :| 0 <= i < |items| && items[i] == item;
      ItemIsARow(l.rows, u, after + 1 + i);
    }
  }

  lemma {:induction false} ItemIsARow(rows: seq<Update>, u: string, s: Seq)
    requires ItemAt(rows, u, s).payload.Some?
    ensures exists r :: r in rows && r.user == u && ItemAt(rows, u, s) == Item(r.num, r.kind, Some(r.payload))
  {
    if rows[0].user == u && rows[0].num == s {
      assert rows[0] in rows;
    } else {
      ItemIsARow(rows[1..], u, s);
    }
  }

  // --------------------------------------------------------------------
  // The client
  // --------------------------------------------------------------------

  // log: the seqs of the notification log, where a seq is unique. dispatched:
  // the updates written to the client's database, in order.
  datatype Client = Client(cursor: Seq, log: set<Seq>, dispatched: seq<Item>)

  ghost predicate ClientInv(c: Client) {
    forall s :: s in c.log ==> s <= c.cursor
  }

  function ApplyUpdate(c: Client, item: Item): (r: (Client, bool)) {
    if item.num == 0 || item.num <= c.cursor then (c, true)
    else if item.num > c.cursor + 1 then (c, false)
    else if item.num in c.log then (c.(cursor := item.num), true)
    else (Client(item.num, c.log + {item.num}, c.dispatched + [item]), true)
  }

  function ApplyUpdates(c: Client, items: seq<Item>): (r: (Client, bool))
    decreases |items|
  {
    if items == [] then (c, true)
    else
      var (next, ok) := ApplyUpdate(c, items[0]);
      if ok then ApplyUpdates(next, items[1..]) else (next, false)
  }

  ghost predicate Truthful(items: seq<Item>, rows: seq<Update>, u: string) {
    forall i :: 0 <= i < |items| ==> items[i] == ItemAt(rows, u, items[i].num)
  }

  /** Whatever arrives, in whatever order, doubled or with losses: the client
      dispatches the seqs after its cursor once each, in order, up to its new cursor. */
  lemma {:induction false} DispatchIsContiguous(c: Client, items: seq<Item>, rows: seq<Update>, u: string)
    requires ClientInv(c) && Truthful(items, rows, u)
    ensures var (after, _) := ApplyUpdates(c, items);
            && ClientInv(after) && c.cursor <= after.cursor
            && after.dispatched == c.dispatched + Items(rows, u, c.cursor, after.cursor)
            && forall s :: s in after.log <==> s in c.log || c.cursor < s <= after.cursor
    decreases |items|
  {
    if items != [] {
      var (next, ok) := ApplyUpdate(c, items[0]);
      assert next.dispatched == c.dispatched + Items(rows, u, c.cursor, next.cursor);
      if ok {
        DispatchIsContiguous(next, items[1..], rows, u);
        var (after, _) := ApplyUpdates(next, items[1..]);
        assert Items(rows, u, c.cursor, next.cursor) + Items(rows, u, next.cursor, after.cursor)
            == Items(rows, u, c.cursor, after.cursor);
      }
    }
  }

  // The largest of the cursor and the seqs that arrived.
  function Highest(cursor: Seq, items: seq<Item>): Seq {
    if items == [] then cursor
    else
      var rest, last := Highest(cursor, items[..|items| - 1]), items[|items| - 1].num;
      if last > rest then last else rest
  }

  // Nothing arrives before what it follows.
  ghost predicate NoGap(cursor: Seq, items: seq<Item>) {
    forall i :: 0 <= i < |items| ==> items[i].num <= Highest(cursor, items[..i]) + 1
  }

  lemma {:induction false} HighestGrows(cursor: Seq, items: seq<Item>)
    requires items != []
    ensures Highest(cursor, items) == Highest(if items[0].num > cursor then items[0].num else cursor, items[1..])
  {
    if |items| > 1 {
      HighestGrows(cursor, items[..|items| - 1]);
      assert items[..|items| - 1][1..] == items[1..][..|items| - 2];
    }
  }

  lemma NoGapBehind(cursor: Seq, items: seq<Item>)
    requires items != []
    ensures var next := if items[0].num > cursor then items[0].num else cursor;
            NoGap(cursor, items) <==> items[0].num <= cursor + 1 && NoGap(next, items[1..])
  {
    var next := if items[0].num > cursor then items[0].num else cursor;
    forall i | 0 < i < |items| ensures Highest(cursor, items[..i]) == Highest(next, items[1..][..i - 1]) {
      HighestGrows(cursor, items[..i]);
      assert items[..i][1..] == items[1..][..i - 1];
    }
    assert Highest(cursor, items[..0]) == cursor;
    assert forall i :: 0 < i < |items| ==> items[i] == items[1..][i - 1];
    if NoGap(cursor, items) {
      forall i | 0 <= i < |items[1..]| ensures items[1..][i].num <= Highest(next, items[1..][..i]) + 1 {
        assert items[i + 1].num <= Highest(cursor, items[..i + 1]) + 1;
      }
    }
  }

  /** A batch is accepted exactly when each seq in it is at most one above the cursor and
      everything before it, and then the cursor is the largest of them. */
  lemma {:induction false} AcceptedIff(c: Client, items: seq<Item>)
    ensures ApplyUpdates(c, items).1 <==> NoGap(c.cursor, items)
    ensures NoGap(c.cursor, items) ==> ApplyUpdates(c, items).0.cursor == Highest(c.cursor, items)
    decreases |items|
  {
    if items != [] {
      NoGapBehind(c.cursor, items);
      HighestGrows(c.cursor, items);
      if items[0].num <= c.cursor + 1 { AcceptedIff(ApplyUpdate(c, items[0]).0, items[1..]); }
    }
  }

  /** Otherwise what stood before the first gap is taken, and nothing of the rest. */
  lemma StopsAtTheGap(c: Client, items: seq<Item>, i: nat)
    requires i < |items| && NoGap(c.cursor, items[..i]) && items[i].num > Highest(c.cursor, items[..i]) + 1
    ensures ApplyUpdates(c, items) == (ApplyUpdates(c, items[..i]).0, false)
  {
    AcceptedIff(c, items[..i]);
    TheRestFollows(c, items, i);
  }

  // An accepted beginning hands over to the rest.
  lemma {:induction false} TheRestFollows(c: Client, items: seq<Item>, i: nat)
    requires i <= |items| && ApplyUpdates(c, items[..i]).1
    ensures ApplyUpdates(c, items) == ApplyUpdates(ApplyUpdates(c, items[..i]).0, items[i..])
    decreases i
  {
    if i == 0 {
      assert items[0..] == items;
    } else {
      assert items[..i][1..] == items[1..][..i - 1] && items[1..][i - 1..] == items[i..];
      TheRestFollows(ApplyUpdate(c, items[0]).0, items[1..], i - 1);
    }
  }

  /** A page that starts just above the cursor is taken whole. */
  lemma {:induction false} PageIsTaken(c: Client, items: seq<Item>)
    requires ClientInv(c)
    requires forall i :: 0 <= i < |items| ==> items[i].num == c.cursor + 1 + i
    ensures ApplyUpdates(c, items).1 && ApplyUpdates(c, items).0.cursor == c.cursor + |items|
    decreases |items|
  {
    if items != [] {
      var next := ApplyUpdate(c, items[0]).0;
      assert forall i :: 0 <= i < |items[1..]| ==> items[1..][i].num == next.cursor + 1 + i;
      PageIsTaken(next, items[1..]);
    }
  }

  lemma {:induction false} ItemsAreNumbered(rows: seq<Update>, u: string, after: Seq, end: Seq)
    ensures Truthful(Items(rows, u, after, end), rows, u)
    ensures forall i :: 0 <= i < |Items(rows, u, after, end)| ==> Items(rows, u, after, end)[i].num == after + 1 + i
  {
    forall i | 0 <= i < |Items(rows, u, after, end)|
      ensures Items(rows, u, after, end)[i].num == after + 1 + i
    {
      ItemKeepsNum(rows, u, after + 1 + i);
    }
  }

  lemma {:induction false} ItemKeepsNum(rows: seq<Update>, u: string, s: Seq)
    ensures ItemAt(rows, u, s).num == s
  {
    if rows != [] && !(rows[0].user == u && rows[0].num == s) { ItemKeepsNum(rows[1..], u, s); }
  }

  // More iterations than a page has items.
  const PATIENCE: nat := 501

  // In range the loop ends within the page.
  lemma PageEnds(after: Seq, limit: int, latest: Seq, patience: nat)
    requires InRange(after, limit, latest) && after < latest && patience > 500
    ensures !Running(Add32(after, 1), ExpectedEnd(after, limit, latest), patience)
  {
    WindowInRange(after, limit, latest);
    RunningIff(Add32(after, 1), ExpectedEnd(after, limit, latest), patience);
  }

  lemma PatienceSuffices(rows: seq<Update>, u: string, after: Seq, limit: int, patience: nat)
    requires LatestSeq(rows, u) <= after || InRange(after, limit, LatestSeq(rows, u))
    requires patience > 500
    ensures var o := Observed(rows, u, after, limit, patience); o.Some? && Sync(rows, u, after, limit) == Reply(o.value)
  {
    if after < LatestSeq(rows, u) { PageEnds(after, limit, LatestSeq(rows, u), patience); }
  }

  /** One page moves the cursor to min(cursor + limit, latest). */
  lemma PageAdvances(c: Client, resp: Response, rows: seq<Update>, u: string, limit: int)
    requires ClientInv(c) && Sync(rows, u, c.cursor, limit) == Reply(resp)
    requires LatestSeq(rows, u) <= c.cursor || InRange(c.cursor, limit, LatestSeq(rows, u))
    ensures var (after, ok) := ApplyUpdates(c, resp.updates);
            var latest, wanted := LatestSeq(rows, u), c.cursor + SyncLimit(limit);
            && ok && ClientInv(after) && resp.latestSeq == latest
            && after.dispatched == c.dispatched + Items(rows, u, c.cursor, after.cursor)
            && (latest <= c.cursor ==> after.cursor == c.cursor && !resp.hasMore)
            && (c.cursor < latest ==>
                  after.cursor == (if wanted < latest then wanted else latest) && (resp.hasMore <==> wanted < latest))
  {
    var latest := LatestSeq(rows, u);
    if latest <= c.cursor {
      assert resp.updates == [];
    } else {
      WindowInRange(c.cursor, limit, latest);
      var end := ExpectedEnd(c.cursor, limit, latest);
      ItemsAreNumbered(rows, u, c.cursor, end);
      assert resp.updates == Items(rows, u, c.cursor, end);
    }
    PageIsTaken(c, resp.updates);
    DispatchIsContiguous(c, resp.updates, rows, u);
  }

  // The cursor with which the last page is asked for.
  function LastAsked(cursor: Seq, limit: int, latest: Seq): (last: Seq)
    requires cursor < latest
    ensures cursor <= last < latest <= last + SyncLimit(limit)
    decreases latest - cursor
  {
    if cursor + SyncLimit(limit) < latest then LastAsked(cursor + SyncLimit(limit), limit, latest) else cursor
  }

  /** Paging reaches the newest seq when the window of the last page is in range. */
  predicate Reaches(cursor: Seq, limit: int, latest: Seq) {
    latest <= cursor || InRange(LastAsked(cursor, limit, latest), limit, latest)
  }

  lemma RemainderIsUnique(x: int, d: nat, q: int, r: int)
    requires 0 < d && x == d * q + r && 0 <= r < d
    ensures x % d == r
  {
    var k := x / d - q;
    assert d * k == r - x % d by { assert d * k == d * (x / d) - d * q; }
    assert (k >= 1 ==> d * k >= d) && (k <= -1 ==> d * k <= 0 - d);
  }

  lemma RemainderStep(x: int, d: nat)
    requires 0 < d <= x
    ensures (x - d) % d == x % d
  {
    var q, r := x / d, x % d;
    assert x - d == d * (q - 1) + r by { assert d * (q - 1) == d * q - d; }
    RemainderIsUnique(x - d, d, q - 1, r);
  }

  /** That cursor in one step: the largest cursor + k * limit below the newest seq. */
  lemma {:induction false} LastAskedIs(cursor: Seq, limit: int, latest: Seq)
    requires cursor < latest
    ensures LastAsked(cursor, limit, latest) == latest - 1 - (latest - 1 - cursor) % SyncLimit(limit)
    decreases latest - cursor
  {
    var gap, lim := latest - 1 - cursor, SyncLimit(limit);
    if lim <= gap {
      RemainderStep(gap, lim);
      LastAskedIs(cursor + lim, limit, latest);
    } else {
      RemainderIsUnique(gap, lim, 0, gap);
    }
  }

  lemma ReachesStep(cursor: Seq, limit: int, latest: Seq)
    requires cursor < latest
    ensures var wanted := cursor + SyncLimit(limit);
            && (wanted < latest ==> InRange(cursor, limit, latest))
            && (wanted < latest ==> (Reaches(cursor, limit, latest) <==> Reaches(wanted, limit, latest)))
            && (wanted >= latest ==> (Reaches(cursor, limit, latest) <==> InRange(cursor, limit, latest)))
  {
  }

  /** How far FullSync is after some pages: still asking, done, or waiting for an answer that
      never comes. */
  datatype Progress = Asking(c: Client) | Synced(c: Client) | Hanging

  ghost function AfterPages(rows: seq<Update>, u: string, limit: int, c: Client, n: nat): Progress
    decreases n
  {
    if n == 0 then Asking(c)
    else
      match Sync(rows, u, c.cursor, limit)
      case NeverReturns => Hanging
      case Reply(resp) =>
        var next := ApplyUpdates(c, resp.updates).0;
        if resp.hasMore then AfterPages(rows, u, limit, next, n - 1) else Synced(next)
  }

  ghost predicate SyncsAfter(rows: seq<Update>, u: string, limit: int, c: Client, n: nat) {
    AfterPages(rows, u, limit, c, n).Synced?
  }

  ghost predicate Syncs(rows: seq<Update>, u: string, limit: int, c: Client) {
    exists n: nat :: SyncsAfter(rows, u, limit, c, n)
  }

  lemma {:induction false} WrappedNeverSyncs(rows: seq<Update>, u: string, limit: int, c: Client, n: nat)
    requires c.cursor < LatestSeq(rows, u) && c.cursor + SyncLimit(limit) >= MODULUS
    ensures !SyncsAfter(rows, u, limit, c, n)
    decreases n
  {
    WrappedWindowMakesNoProgress(rows, u, c.cursor, limit);
    if n > 0 { WrappedNeverSyncs(rows, u, limit, c, n - 1); }
  }

  // A page with more behind it passes the question on.
  lemma SyncsIffRestDoes(rows: seq<Update>, u: string, limit: int, c: Client, resp: Response)
    requires Sync(rows, u, c.cursor, limit) == Reply(resp) && resp.hasMore
    ensures Syncs(rows, u, limit, c) <==> Syncs(rows, u, limit, ApplyUpdates(c, resp.updates).0)
  {
    var next := ApplyUpdates(c, resp.updates).0;
    if Syncs(rows, u, limit, c) {
      var n: nat :| SyncsAfter(rows, u, limit, c, n);
      assert n > 0 && SyncsAfter(rows, u, limit, next, n - 1);
    }
    if Syncs(rows, u, limit, next) {
      var n: nat :| SyncsAfter(rows, u, limit, next, n);
      assert SyncsAfter(rows, u, limit, c, n + 1);
    }
  }

  // The page that ends the sync, or the page that never comes.
  lemma LastPageSyncsIff(rows: seq<Update>, u: string, limit: int, c: Client)
    requires ClientInv(c) && c.cursor < LatestSeq(rows, u) <= c.cursor + SyncLimit(limit)
    ensures Syncs(rows, u, limit, c) <==> InRange(c.cursor, limit, LatestSeq(rows, u))
  {
    if InRange(c.cursor, limit, LatestSeq(rows, u)) {
      CompleteInRange(rows, u, c.cursor, limit);
      assert SyncsAfter(rows, u, limit, c, 1);
    } else if c.cursor + SyncLimit(limit) >= MODULUS {
      forall n: nat ensures !SyncsAfter(rows, u, limit, c, n) { WrappedNeverSyncs(rows, u, limit, c, n); }
    } else {
      NeverReturnsIff(rows, u, c.cursor, limit);
    }
  }

  // A page below the newest seq is full, and the sync goes on from its end.
  lemma FullPage(rows: seq<Update>, u: string, limit: int, c: Client) returns (next: Client)
    requires ClientInv(c) && c.cursor + SyncLimit(limit) < LatestSeq(rows, u)
    ensures ClientInv(next) && next.cursor == c.cursor + SyncLimit(limit)
    ensures Syncs(rows, u, limit, c) <==> Syncs(rows, u, limit, next)
  {
    CompleteInRange(rows, u, c.cursor, limit);
    var resp := Sync(rows, u, c.cursor, limit).response;
    PageAdvances(c, resp, rows, u, limit);
    SyncsIffRestDoes(rows, u, limit, c, resp);
    next := ApplyUpdates(c, resp.updates).0;
  }

  /** FullSync comes to an end exactly when the last page it has to ask for is in range;
      otherwise it asks for ever, or hangs on that page. */
  lemma {:induction false} FullSyncEndsIff(rows: seq<Update>, u: string, limit: int, c: Client)
    requires ClientInv(c)
    ensures Syncs(rows, u, limit, c) <==> Reaches(c.cursor, limit, LatestSeq(rows, u))
    decreases MODULUS - c.cursor
  {
    var latest := LatestSeq(rows, u);
    if latest <= c.cursor {
      assert SyncsAfter(rows, u, limit, c, 1);
    } else {
      ReachesStep(c.cursor, limit, latest);
      if c.cursor + SyncLimit(limit) < latest {
        var next := FullPage(rows, u, limit, c);
        FullSyncEndsIff(rows, u, limit, next);
      } else {
        LastPageSyncsIff(rows, u, limit, c);
      }
    }
  }

  // What holds after every page: the client took exactly the seqs between the two cursors.
  ghost predicate Paged(start: Client, c: Client, hasMore: bool, rows: seq<Update>, u: string, limit: int) {
    var latest := LatestSeq(rows, u);
    && ClientInv(c) && start.cursor <= c.cursor && Reaches(c.cursor, limit, latest)
    && (c.cursor <= latest || c.cursor == start.cursor)
    && (!hasMore ==> c.cursor >= latest)
    && c.dispatched == start.dispatched + Items(rows, u, start.cursor, c.cursor)
  }

  lemma NoPageYet(start: Client, rows: seq<Update>, u: string, limit: int)
    requires ClientInv(start) && Reaches(start.cursor, limit, LatestSeq(rows, u))
    ensures Paged(start, start, true, rows, u, limit)
  {
    assert Items(rows, u, start.cursor, start.cursor) == [];
  }

  lemma PageIsAnswered(start: Client, c: Client, rows: seq<Update>, u: string, limit: int, patience: nat)
    requires Paged(start, c, true, rows, u, limit) && patience > 500
    ensures var o := Observed(rows, u, c.cursor, limit, patience);
            o.Some? && Sync(rows, u, c.cursor, limit) == Reply(o.value)
  {
    if c.cursor < LatestSeq(rows, u) { ReachesStep(c.cursor, limit, LatestSeq(rows, u)); }
    PatienceSuffices(rows, u, c.cursor, limit, patience);
  }

  lemma ItemsJoin(rows: seq<Update>, u: string, a: Seq, b: Seq, c: Seq)
    requires a <= b <= c
    ensures Items(rows, u, a, b) + Items(rows, u, b, c) == Items(rows, u, a, c)
  {
  }

  // What is dispatched by a page joins what was dispatched before.
  lemma DispatchedJoin(start: Client, c: Client, next: Client, rows: seq<Update>, u: string)
    requires start.cursor <= c.cursor <= next.cursor
    requires c.dispatched == start.dispatched + Items(rows, u, start.cursor, c.cursor)
    requires next.dispatched == c.dispatched + Items(rows, u, c.cursor, next.cursor)
    ensures next.dispatched == start.dispatched + Items(rows, u, start.cursor, next.cursor)
  {
    var before, page := Items(rows, u, start.cursor, c.cursor), Items(rows, u, c.cursor, next.cursor);
    assert start.dispatched + before + page == start.dispatched + (before + page);
    ItemsJoin(rows, u, start.cursor, c.cursor, next.cursor);
  }

  lemma PageIsApplied(start: Client, c: Client, resp: Response, rows: seq<Update>, u: string, limit: int)
    requires Paged(start, c, true, rows, u, limit) && Sync(rows, u, c.cursor, limit) == Reply(resp)
    ensures var next := ApplyUpdates(c, resp.updates).0;
            && Paged(start, next, resp.hasMore, rows, u, limit) && resp.latestSeq == LatestSeq(rows, u)
            && (resp.hasMore ==> c.cursor < next.cursor)
  {
    if c.cursor < LatestSeq(rows, u) { ReachesStep(c.cursor, limit, LatestSeq(rows, u)); }
    PageAdvances(c, resp, rows, u, limit);
    DispatchedJoin(start, c, ApplyUpdates(c, resp.updates).0, rows, u);
  }

  lemma PagedAll(start: Client, c: Client, rows: seq<Update>, u: string, limit: int)
    requires Paged(start, c, false, rows, u, limit)
    ensures var latest := LatestSeq(rows, u);
            && c.cursor == (if start.cursor < latest then latest else start.cursor)
            && c.dispatched == start.dispatched + Items(rows, u, start.cursor, latest)
  {
    var latest := LatestSeq(rows, u);
    if latest <= start.cursor { assert Items(rows, u, start.cursor, c.cursor) == Items(rows, u, start.cursor, latest); }
  }

  class SyncManager {
    var localMaxSeq: Seq
    var latestSeq: Seq
    var log: set<Seq>
    var dispatched: seq<Item>
    const server: UserUpdateStore
    const user: string
    const batchSize: int

    constructor (server: UserUpdateStore, user: string, batchSize: int)
      ensures this.server == server && this.user == user && this.batchSize == batchSize
      ensures State() == Client(0, {}, []) && ClientInv(State())
    {
      this.server, this.user, this.batchSize := server, user, batchSize;
      localMaxSeq, latestSeq, log, dispatched := 0, 0, {}, [];
    }

    function State(): Client
      reads this
    {
      Client(localMaxSeq, log, dispatched)
    }

    method Apply(item: Item) returns (ok: bool)
      modifies this
      ensures (State(), ok) == ApplyUpdate(old(State()), item)
      ensures latestSeq == old(latestSeq)
    {
      if item.num == 0 { return true; }
      if item.num <= localMaxSeq { return true; }
      if item.num > localMaxSeq + 1 { return false; }
      if item.num in log {
        localMaxSeq := item.num;
        return true;
      }
      log := log + {item.num};
      dispatched := dispatched + [item];
      localMaxSeq := item.num;
      return true;
    }

    method ApplyAll(items: seq<Item>) returns (ok: bool)
      modifies this
      ensures (State(), ok) == ApplyUpdates(old(State()), items)
      ensures latestSeq == old(latestSeq)
    {
      for i := 0 to |items|
        invariant ApplyUpdates(old(State()), items) == ApplyUpdates(State(), items[i..])
        invariant latestSeq == old(latestSeq)
      {
        assert items[i..][1..] == items[i + 1..];
        ok := Apply(items[i]);
        if !ok { return false; }
      }
      return true;
    }

    /** Where paging reaches the newest seq, the loop ends and has dispatched
        cursor + 1 .. latest once each, in order. */
    method FullSync()
      requires UniqueSeqs(server.rows) && ClientInv(State())
      requires Reaches(localMaxSeq, batchSize, LatestSeq(server.rows, user))
      modifies this
      ensures server.rows == old(server.rows) && ClientInv(State())
      ensures latestSeq == LatestSeq(server.rows, user)
      ensures localMaxSeq == if old(localMaxSeq) < latestSeq then latestSeq else old(localMaxSeq)
      ensures dispatched == old(dispatched) + Items(server.rows, user, old(localMaxSeq), latestSeq)
    {
      ghost var start, rows := State(), server.rows;
      var hasMore := true;
      NoPageYet(start, rows, user, batchSize);
      while hasMore
        invariant server.rows == rows && Paged(start, State(), hasMore, rows, user, batchSize)
        invariant !hasMore ==> latestSeq == LatestSeq(rows, user)
        decreases hasMore, MODULUS - localMaxSeq
      {
        ghost var was := State();
        PageIsAnswered(start, was, rows, user, batchSize, PATIENCE);
        var o := server.SyncUpdates(user, localMaxSeq, batchSize, PATIENCE);
        PageIsApplied(start, was, o.value, rows, user, batchSize);
        var _ := ApplyAll(o.value.updates);
        latestSeq := o.value.latestSeq;
        hasMore := o.value.hasMore;
      }
      PagedAll(start, State(), rows, user, batchSize);
    }
  }
}
