/** GetByUser: two top-k queries, one per user column, are merged, deduplicated,
    insertion-sorted and sliced. The result is a page of the full list, which the
    source's own comment doubts. */
module ConversationPages {
  datatype Conversation = Conversation(id: string, user1: string, user2: string, lastMessageAt: int, deleted: bool)

  ghost function Elems(s: seq<Conversation>): set<Conversation> {
    set c | c in s
  }

  ghost predicate Distinct(s: seq<Conversation>) {
    forall i, j :: 0 <= i < j < |s| ==> s[i] != s[j]
  }

  ghost predicate Descending(s: seq<Conversation>) {
    forall i, j :: 0 <= i < j < |s| ==> s[i].lastMessageAt >= s[j].lastMessageAt
  }

  function Min(a: nat, b: nat): nat {
    if a <= b then a else b
  }

  /** What `ORDER BY last_message_at DESC LIMIT k` promises: rows with equal
      timestamps come in any order, and any of them may be the ones cut off. */
  ghost predicate TopK(r: seq<Conversation>, s: set<Conversation>, k: nat) {
    && Distinct(r) && Elems(r) <= s && Descending(r)
    && |r| == Min(k, |s|)
    && forall x, y :: x in s && x !in r && y in r ==> x.lastMessageAt <= y.lastMessageAt
  }

  // Ids are primary keys.
  ghost predicate UniqueIds(s: set<Conversation>) {
    forall x, y :: x in s && y in s && x.id == y.id ==> x == y
  }

  function AsUser1(rows: set<Conversation>, u: string): set<Conversation> {
    set c | c in rows && !c.deleted && c.user1 == u
  }

  function AsUser2(rows: set<Conversation>, u: string): set<Conversation> {
    set c | c in rows && !c.deleted && c.user2 == u && c.user2 != ""
  }

  // Nobody has a conversation with oneself: create_conversation refuses it.
  lemma ColumnsAreDisjoint(rows: set<Conversation>, u: string)
    requires forall c :: c in rows ==> c.user1 != c.user2
    ensures AsUser1(rows, u) !! AsUser2(rows, u)
  {
  }

  // --------------------------------------------------------------------
  // The stable insertion sort
  // --------------------------------------------------------------------

  function Insert(s: seq<Conversation>, x: Conversation): seq<Conversation> {
    if s == [] || x.lastMessageAt <= s[|s| - 1].lastMessageAt then s + [x]
    else Insert(s[..|s| - 1], x) + [s[|s| - 1]]
  }

  function Sorted(s: seq<Conversation>): seq<Conversation> {
    if s == [] then [] else Insert(Sorted(s[..|s| - 1]), s[|s| - 1])
  }

  // The conversations of one timestamp, in order.
  function AtTime(s: seq<Conversation>, t: int): seq<Conversation> {
    if s == [] then []
    else AtTime(s[..|s| - 1], t) + if s[|s| - 1].lastMessageAt == t then [s[|s| - 1]] else []
  }

  lemma {:induction false} InsertAdds(s: seq<Conversation>, x: Conversation)
    ensures |Insert(s, x)| == |s| + 1 && Elems(Insert(s, x)) == Elems(s) + {x}
  {
    if s != [] && x.lastMessageAt > s[|s| - 1].lastMessageAt {
      var front, last := s[..|s| - 1], s[|s| - 1];
      InsertAdds(front, x);
      assert s == front + [last];
      assert Elems(Insert(front, x) + [last]) == Elems(Insert(front, x)) + {last};
    }
  }

  lemma {:induction false} InsertKeepsDescending(s: seq<Conversation>, x: Conversation)
    requires Descending(s)
    ensures Descending(Insert(s, x))
  {
    if s != [] && x.lastMessageAt > s[|s| - 1].lastMessageAt {
      var front, last := s[..|s| - 1], s[|s| - 1];
      InsertKeepsDescending(front, x);
      InsertAdds(front, x);
      var r := Insert(front, x);
      forall i | 0 <= i < |r| ensures r[i].lastMessageAt >= last.lastMessageAt {
        assert r[i] in Elems(front) + {x};
      }
    }
  }

  lemma {:induction false} InsertKeepsDistinct(s: seq<Conversation>, x: Conversation)
    requires Distinct(s) && x !in s
    ensures Distinct(Insert(s, x))
  {
    if s != [] && x.lastMessageAt > s[|s| - 1].lastMessageAt {
      var front, last := s[..|s| - 1], s[|s| - 1];
      InsertKeepsDistinct(front, x);
      InsertAdds(front, x);
      var r := Insert(front, x);
      forall i | 0 <= i < |r| ensures r[i] != last {
        assert r[i] in Elems(front) + {x};
      }
    }
  }

  lemma {:induction false} SortedOrders(s: seq<Conversation>)
    ensures var r := Sorted(s);
            && Descending(r) && |r| == |s| && Elems(r) == Elems(s)
            && (Distinct(s) ==> Distinct(r))
  {
    if s != [] {
      var front, last := s[..|s| - 1], s[|s| - 1];
      assert s == front + [last];
      SortedOrders(front);
      InsertAdds(Sorted(front), last);
      InsertKeepsDescending(Sorted(front), last);
      assert Elems(s) == Elems(front) + {last};
      if Distinct(s) {
        assert last !in Elems(front);
        assert last !in Elems(Sorted(front));
        InsertKeepsDistinct(Sorted(front), last);
      }
    }
  }

  lemma {:induction false} InsertIsStable(s: seq<Conversation>, x: Conversation, t: int)
    requires Descending(s)
    ensures AtTime(Insert(s, x), t) == AtTime(s + [x], t)
  {
    assert (s + [x])[..|s|] == s;
    if s != [] && x.lastMessageAt > s[|s| - 1].lastMessageAt {
      var front, last := s[..|s| - 1], s[|s| - 1];
      InsertIsStable(front, x, t);
      assert (front + [x])[..|front|] == front;
      assert (Insert(front, x) + [last])[..|Insert(front, x)|] == Insert(front, x);
      if x.lastMessageAt == t { assert last.lastMessageAt != t; }
    }
  }

  /** Conversations with equal timestamps keep their order. */
  lemma {:induction false} SortIsStable(s: seq<Conversation>, t: int)
    ensures AtTime(Sorted(s), t) == AtTime(s, t)
  {
    if s != [] {
      var front, last := s[..|s| - 1], s[|s| - 1];
      SortIsStable(front, t);
      SortedOrders(front);
      InsertIsStable(Sorted(front), last, t);
      assert (Sorted(front) + [last])[..|Sorted(front)|] == Sorted(front);
    }
  }

  // x goes after the last conversation that is not older.
  lemma {:induction false} InsertAt(p: seq<Conversation>, x: Conversation, j: nat)
    requires j <= |p| && (j == 0 || x.lastMessageAt <= p[j - 1].lastMessageAt)
    requires forall k :: j <= k < |p| ==> x.lastMessageAt > p[k].lastMessageAt
    ensures Insert(p, x) == p[..j] + [x] + p[j..]
  {
    if j < |p| {
      var front := p[..|p| - 1];
      InsertAt(front, x, j);
      assert front[..j] == p[..j] && p[j..] == front[j..] + [p[|p| - 1]];
    }
  }

  /** The inner loop: element i moves left past every older conversation. */
  method SiftDown(a: array<Conversation>, i: nat)
    requires i < a.Length
    modifies a
    ensures a[..] == Insert(old(a[..i]), old(a[i])) + old(a[i + 1..])
  {
    ghost var was := a[..];
    ghost var x := a[i];
    var j := i;
    while j > 0 && a[j].lastMessageAt > a[j - 1].lastMessageAt
      invariant 0 <= j <= i
      invariant a[j] == x
      invariant forall k :: 0 <= k < j || i < k < a.Length ==> a[k] == was[k]
      invariant forall k :: j < k <= i ==> a[k] == was[k - 1]
      invariant forall k :: j < k <= i ==> x.lastMessageAt > a[k].lastMessageAt
    {
      a[j], a[j - 1] := a[j - 1], a[j];
      j := j - 1;
    }
    Shifted(a[..], was, i, j);
    InsertAt(was[..i], x, j);
  }

  lemma Shifted(s: seq<Conversation>, was: seq<Conversation>, i: nat, j: nat)
    requires j <= i < |s| == |was|
    requires s[j] == was[i]
    requires forall k :: 0 <= k < j || i < k < |s| ==> s[k] == was[k]
    requires forall k :: j < k <= i ==> s[k] == was[k - 1]
    requires forall k :: j < k <= i ==> was[i].lastMessageAt > s[k].lastMessageAt
    ensures var p := was[..i];
            && s == p[..j] + [was[i]] + p[j..] + was[i + 1..]
            && forall k :: j <= k < |p| ==> was[i].lastMessageAt > p[k].lastMessageAt
  {
    var p := was[..i];
    forall k | j <= k < |p| ensures was[i].lastMessageAt > p[k].lastMessageAt {
      assert s[k + 1] == p[k];
    }
  }

  // Inserting the next conversation sorts one more.
  lemma SortedNext(was: seq<Conversation>, i: nat)
    requires i < |was|
    ensures Sorted(was[..i + 1]) == Insert(Sorted(was[..i]), was[i])
    ensures |Sorted(was[..i])| == i
  {
    assert was[..i + 1][..i] == was[..i] && was[..i + 1][i] == was[i];
    SortedOrders(was[..i]);
  }

  // The prefix is sorted and the rest is as it was.
  ghost predicate SortedUpTo(s: seq<Conversation>, was: seq<Conversation>, i: nat) {
    i <= |was| && s == Sorted(was[..i]) + was[i..]
  }

  lemma SortedUpToParts(s: seq<Conversation>, was: seq<Conversation>, i: nat)
    requires i < |was| && SortedUpTo(s, was, i)
    ensures |s| == |was| && s[..i] == Sorted(was[..i]) && s[i] == was[i] && s[i + 1..] == was[i + 1..]
  {
    SortedNext(was, i);
  }

  method SortByLastMessageAt(a: array<Conversation>)
    modifies a
    ensures a[..] == Sorted(old(a[..]))
  {
    ghost var was := a[..];
    var i := 1;
    assert a.Length > 0 ==> SortedUpTo(a[..], was, 1) by { if a.Length > 0 { OneIsSorted(was); } }
    while i < a.Length
      invariant 1 <= i
      invariant a.Length > 0 ==> i <= a.Length && SortedUpTo(a[..], was, i)
    {
      SortedUpToParts(a[..], was, i);
      SortedNext(was, i);
      SiftDown(a, i);
      i := i + 1;
    }
    assert was[..|was|] == was && was[|was|..] == [];
  }

  lemma OneIsSorted(was: seq<Conversation>)
    requires was != []
    ensures SortedUpTo(was, was, 1)
  {
    assert was[..1][..0] == [] && was[..1] == [was[0]];
    assert was == [was[0]] + was[1..];
  }

  // --------------------------------------------------------------------
  // Merging two top-k results
  // --------------------------------------------------------------------

  lemma {:induction false} DistinctCardinality(s: seq<Conversation>)
    requires Distinct(s)
    ensures |Elems(s)| == |s|
  {
    if s != [] {
      var front, last := s[..|s| - 1], s[|s| - 1];
      DistinctCardinality(front);
      assert s == front + [last];
      assert Elems(s) == Elems(front) + {last} && last !in Elems(front);
    }
  }

  lemma SubsetCardinality(a: set<Conversation>, b: set<Conversation>)
    requires a <= b
    ensures |a| <= |b| && (|a| == |b| ==> a == b)
  {
    if a != b {
      var x :| x in b && x !in a;
      SubsetCardinality(a, b - {x});
    }
  }

  lemma {:induction false} ElemsAtMostLength(s: seq<Conversation>)
    ensures |Elems(s)| <= |s|
  {
    if s != [] {
      ElemsAtMostLength(s[..|s| - 1]);
      assert s == s[..|s| - 1] + [s[|s| - 1]];
      assert Elems(s) == Elems(s[..|s| - 1]) + {s[|s| - 1]};
    }
  }

  ghost predicate IsMerge(merged: seq<Conversation>, a: seq<Conversation>, b: seq<Conversation>) {
    Distinct(merged) && Elems(merged) == Elems(a) + Elems(b)
  }

  // Anything a query left out is preceded by k conversations of the merged list that are not older.
  lemma LeftOutIsPastK(full: seq<Conversation>, a: seq<Conversation>, s: set<Conversation>, k: nat, x: Conversation,
                       i: nat)
    requires Descending(full) && TopK(a, s, k) && Elems(a) <= Elems(full)
    requires x in s && x !in a
    requires i < |full| && full[i].lastMessageAt < x.lastMessageAt
    ensures i >= k
  {
    SubsetCardinality(Elems(a), s);
    DistinctCardinality(a);
    forall y | y in Elems(a) ensures y in Elems(full[..i]) {
      assert y in Elems(full);
      var j :| 0 <= j < |full| && full[j] == y;
      assert x.lastMessageAt <= y.lastMessageAt;
      assert j < i;
      assert full[..i][j] == y;
    }
    SubsetCardinality(Elems(a), Elems(full[..i]));
    ElemsAtMostLength(full[..i]);
  }

  lemma MergeLength(merged: seq<Conversation>, a: seq<Conversation>, b: seq<Conversation>,
                    s: set<Conversation>, t: set<Conversation>, k: nat)
    requires TopK(a, s, k) && TopK(b, t, k) && IsMerge(merged, a, b)
    ensures Min(k, |merged|) == Min(k, |s + t|)
  {
    DistinctCardinality(merged);
    DistinctCardinality(a);
    DistinctCardinality(b);
    SubsetCardinality(Elems(a), Elems(merged));
    SubsetCardinality(Elems(b), Elems(merged));
    SubsetCardinality(Elems(merged), s + t);
    if |a| < k && |b| < k {
      SubsetCardinality(Elems(a), s);
      SubsetCardinality(Elems(b), t);
      assert Elems(merged) == s + t;
    }
  }

  function Top(s: seq<Conversation>, k: nat): seq<Conversation> {
    s[..Min(k, |s|)]
  }

  lemma CutKeepsTheNewest(full: seq<Conversation>, a: seq<Conversation>, b: seq<Conversation>,
                          s: set<Conversation>, t: set<Conversation>, k: nat, x: Conversation, i: nat)
    requires TopK(a, s, k) && TopK(b, t, k)
    requires Descending(full) && Elems(full) == Elems(a) + Elems(b)
    requires i < Min(k, |full|) && x in s + t && x !in Top(full, k)
    ensures x.lastMessageAt <= full[i].lastMessageAt
  {
    if x in Elems(full) {
      var j :| 0 <= j < |full| && full[j] == x;
    } else if x.lastMessageAt > full[i].lastMessageAt {
      assert x !in Elems(a) && x !in Elems(b);
      if x in s { LeftOutIsPastK(full, a, s, k, x, i); } else { LeftOutIsPastK(full, b, t, k, x, i); }
    }
  }

  /** Merging the two top-k results, sorting and cutting at k gives a top-k
      result of the union, ties included. */
  lemma MergeOfTopKsIsTopK(merged: seq<Conversation>, a: seq<Conversation>, b: seq<Conversation>,
                           s: set<Conversation>, t: set<Conversation>, k: nat)
    requires TopK(a, s, k) && TopK(b, t, k) && IsMerge(merged, a, b)
    ensures TopK(Top(Sorted(merged), k), s + t, k)
  {
    var full := Sorted(merged);
    SortedOrders(merged);
    MergeLength(merged, a, b, s, t, k);
    var r := Top(full, k);
    forall x, y | x in s + t && x !in r && y in r ensures x.lastMessageAt <= y.lastMessageAt {
      var i :| 0 <= i < |r| && r[i] == y;
      CutKeepsTheNewest(full, a, b, s, t, k, x, i);
    }
    forall x | x in Elems(r) ensures x in s + t {
      assert x in Elems(full);
      assert x in Elems(a) || x in Elems(b);
    }
  }

  // --------------------------------------------------------------------
  // Distinct timestamps make the page unique
  // --------------------------------------------------------------------

  ghost predicate DistinctTimes(s: set<Conversation>) {
    forall x, y :: x in s && y in s && x.lastMessageAt == y.lastMessageAt ==> x == y
  }

  /** full is the whole of s, newest first. */
  ghost predicate Listing(full: seq<Conversation>, s: set<Conversation>) {
    Distinct(full) && Elems(full) == s && Descending(full)
  }

  /** With distinct timestamps a top-k result is the first k of the full list. */
  lemma TopKIsPrefix(r: seq<Conversation>, full: seq<Conversation>, s: set<Conversation>, k: nat)
    requires TopK(r, s, k) && Listing(full, s) && DistinctTimes(s)
    ensures r == Top(full, k)
  {
    DistinctCardinality(full);
    DistinctCardinality(r);
    var p := full[..|r|];
    DistinctCardinality(p);
    if j :| |r| <= j < |full| && full[j] in r {
      SubsetCardinality(Elems(p), Elems(r));
    } else {
      SubsetCardinality(Elems(r), Elems(p));
    }
    SameElementsSameOrder(p, r, s);
  }

  lemma Tail(p: seq<Conversation>)
    requires p != [] && Distinct(p) && Descending(p)
    ensures Distinct(p[1..]) && Descending(p[1..])
    ensures Elems(p[1..]) == Elems(p) - {p[0]}
    ensures forall x :: x in Elems(p) ==> x.lastMessageAt <= p[0].lastMessageAt
  {
    assert p == [p[0]] + p[1..];
  }

  // The newest of a set with distinct timestamps comes first in both.
  lemma SameHead(p: seq<Conversation>, r: seq<Conversation>, s: set<Conversation>)
    requires p != [] && Descending(p) && Descending(r)
    requires Elems(p) == Elems(r) <= s && DistinctTimes(s)
    ensures r != [] && p[0] == r[0]
  {
    assert p[0] in Elems(r);
    assert r[0] in Elems(p);
  }

  lemma {:induction false} SameElementsSameOrder(p: seq<Conversation>, r: seq<Conversation>, s: set<Conversation>)
    requires Distinct(p) && Distinct(r) && Descending(p) && Descending(r)
    requires Elems(p) == Elems(r) <= s && DistinctTimes(s)
    ensures p == r
  {
    if p == [] {
      DistinctCardinality(p);
      DistinctCardinality(r);
    } else {
      SameHead(p, r, s);
      Tail(p);
      Tail(r);
      SameElementsSameOrder(p[1..], r[1..], s);
      assert p == [p[0]] + p[1..] && r == [r[0]] + r[1..];
    }
  }

  // --------------------------------------------------------------------
  // The two columns merged
  // --------------------------------------------------------------------

  // The conversations of b that are not in a, in order.
  function NotIn(b: seq<Conversation>, a: seq<Conversation>): seq<Conversation> {
    if b == [] then []
    else
      var rest, last := NotIn(b[..|b| - 1], a), b[|b| - 1];
      if last in a then rest else rest + [last]
  }

  lemma {:induction false} NotInHolds(b: seq<Conversation>, a: seq<Conversation>)
    ensures Elems(NotIn(b, a)) == Elems(b) - Elems(a)
  {
    if b != [] {
      var front, last := b[..|b| - 1], b[|b| - 1];
      NotInHolds(front, a);
      assert b == front + [last];
      OneMore(front, last);
      OneMore(NotIn(front, a), last);
    }
  }

  lemma {:induction false} NotInIsDistinct(b: seq<Conversation>, a: seq<Conversation>)
    requires Distinct(b)
    ensures Distinct(NotIn(b, a))
  {
    if b != [] {
      var front, last := b[..|b| - 1], b[|b| - 1];
      NotInIsDistinct(front, a);
      NotInHolds(front, a);
      assert last !in Elems(front);
      DistinctJoin(NotIn(front, a), [last]);
    }
  }

  lemma {:induction false} NotInOfStrangers(b: seq<Conversation>, a: seq<Conversation>)
    requires Elems(b) !! Elems(a)
    ensures NotIn(b, a) == b
  {
    if b != [] {
      var front, last := b[..|b| - 1], b[|b| - 1];
      assert b == front + [last];
      OneMore(front, last);
      NotInOfStrangers(front, a);
      assert last in Elems(b) && last !in Elems(a);
    }
  }

  lemma DistinctJoin(a: seq<Conversation>, b: seq<Conversation>)
    requires Distinct(a) && Distinct(b) && Elems(a) !! Elems(b)
    ensures Distinct(a + b)
  {
    forall i, j | 0 <= i < j < |a + b| ensures (a + b)[i] != (a + b)[j] {
      if i < |a| <= j { assert a[i] in Elems(a) && b[j - |a|] in Elems(b); }
    }
  }

  lemma ElemsOfJoin(a: seq<Conversation>, b: seq<Conversation>)
    ensures Elems(a + b) == Elems(a) + Elems(b)
  {
  }

  lemma JoinIsMerge(a: seq<Conversation>, b: seq<Conversation>)
    requires Distinct(a) && Distinct(b)
    ensures IsMerge(a + NotIn(b, a), a, b)
  {
    NotInHolds(b, a);
    NotInIsDistinct(b, a);
    DistinctJoin(a, NotIn(b, a));
    ElemsOfJoin(a, NotIn(b, a));
  }

  // Both lists newest first into one, the first list before the second among equal timestamps.
  function Merge(a: seq<Conversation>, b: seq<Conversation>): seq<Conversation>
    decreases |a| + |b|
  {
    if a == [] then b
    else if b == [] then a
    else if a[0].lastMessageAt >= b[0].lastMessageAt then [a[0]] + Merge(a[1..], b)
    else [b[0]] + Merge(a, b[1..])
  }

  // A conversation that is not newer than the head is inserted behind it.
  lemma {:induction false} InsertBehind(h: Conversation, m: seq<Conversation>, x: Conversation)
    requires x.lastMessageAt <= h.lastMessageAt
    ensures Insert([h] + m, x) == [h] + Insert(m, x)
  {
    var s := [h] + m;
    if m == [] {
      assert s == [h];
    } else {
      var front := m[..|m| - 1];
      assert s[..|s| - 1] == [h] + front && s[|s| - 1] == m[|m| - 1];
      if x.lastMessageAt > m[|m| - 1].lastMessageAt { InsertBehind(h, front, x); }
    }
  }

  lemma InsertInFront(a: seq<Conversation>, x: Conversation)
    requires forall i :: 0 <= i < |a| ==> a[i].lastMessageAt < x.lastMessageAt
    ensures Insert(a, x) == [x] + a
  {
    InsertAt(a, x, 0);
  }

  lemma LastIsNotNewer(b: seq<Conversation>, x: Conversation)
    requires Descending(b + [x]) && b != []
    ensures x.lastMessageAt <= b[0].lastMessageAt && x.lastMessageAt <= b[|b| - 1].lastMessageAt
    ensures Descending(b[1..] + [x]) && (b + [x])[1..] == b[1..] + [x]
  {
    var c := b + [x];
    assert c[|b|] == x && c[0] == b[0] && c[|b| - 1] == b[|b| - 1];
    assert c[1..] == b[1..] + [x];
  }

  lemma {:induction false} InsertIntoMerge(a: seq<Conversation>, b: seq<Conversation>, x: Conversation)
    requires Descending(a) && Descending(b + [x])
    ensures Insert(Merge(a, b), x) == Merge(a, b + [x])
    decreases |a| + |b|
  {
    if b != [] { LastIsNotNewer(b, x); }
    if a == [] {
    } else if b == [] {
      assert b + [x] == [x];
      InsertOne(a, x);
    } else if a[0].lastMessageAt >= b[0].lastMessageAt {
      InsertBehind(a[0], Merge(a[1..], b), x);
      InsertIntoMerge(a[1..], b, x);
    } else {
      InsertBehind(b[0], Merge(a, b[1..]), x);
      InsertIntoMerge(a, b[1..], x);
    }
  }

  lemma {:induction false} InsertOne(a: seq<Conversation>, x: Conversation)
    requires Descending(a)
    ensures Insert(a, x) == Merge(a, [x])
  {
    if a != [] {
      assert a == [a[0]] + a[1..] && [x][1..] == [];
      if a[0].lastMessageAt >= x.lastMessageAt {
        InsertBehind(a[0], a[1..], x);
        InsertOne(a[1..], x);
      } else {
        InsertInFront(a, x);
      }
    }
  }

  lemma {:induction false} DescendingIsSorted(a: seq<Conversation>)
    requires Descending(a)
    ensures Sorted(a) == a
  {
    if a != [] {
      var front, last := a[..|a| - 1], a[|a| - 1];
      DescendingIsSorted(front);
      assert a == front + [last];
      if front != [] { assert a[|a| - 2].lastMessageAt >= last.lastMessageAt; }
    }
  }

  lemma SortedOneMore(s: seq<Conversation>, x: Conversation)
    ensures Sorted(s + [x]) == Insert(Sorted(s), x)
  {
    assert (s + [x])[..|s|] == s;
  }

  /** Sorting one query's result followed by the other's merges them. */
  lemma {:induction false} SortedIsMerge(a: seq<Conversation>, b: seq<Conversation>)
    requires Descending(a) && Descending(b)
    ensures Sorted(a + b) == Merge(a, b)
  {
    if b == [] {
      assert a + b == a;
      DescendingIsSorted(a);
    } else {
      var front, last := b[..|b| - 1], b[|b| - 1];
      assert b == front + [last] && a + b == a + front + [last];
      SortedOneMore(a + front, last);
      SortedIsMerge(a, front);
      InsertIntoMerge(a, front, last);
    }
  }

  lemma TopsAgree(a: seq<Conversation>, x: seq<Conversation>, k: nat)
    requires k > 0 && Top(a, k) == Top(x, k)
    ensures Top(a, k - 1) == Top(x, k - 1) && (a == [] <==> x == [])
    ensures a != [] ==> a[0] == x[0] && Top(a[1..], k - 1) == Top(x[1..], k - 1)
  {
    assert Top(a, k)[..Min(k - 1, |Top(a, k)|)] == Top(a, k - 1);
    assert Top(x, k)[..Min(k - 1, |Top(x, k)|)] == Top(x, k - 1);
    if a != [] && x != [] {
      assert Top(a, k)[0] == a[0] && Top(x, k)[0] == x[0];
      assert Top(a, k)[1..] == Top(a[1..], k - 1) && Top(x, k)[1..] == Top(x[1..], k - 1);
    }
  }

  /** The first k of a merge depend on the first k of each list only. */
  lemma {:induction false} MergeTop(a: seq<Conversation>, b: seq<Conversation>, x: seq<Conversation>,
                                    y: seq<Conversation>, k: nat)
    requires Top(a, k) == Top(x, k) && Top(b, k) == Top(y, k)
    ensures Top(Merge(a, b), k) == Top(Merge(x, y), k)
    decreases k
  {
    if k > 0 {
      TopsAgree(a, x, k);
      TopsAgree(b, y, k);
      if a != [] && b != [] {
        if a[0].lastMessageAt >= b[0].lastMessageAt {
          MergeTop(a[1..], b, x[1..], y, k - 1);
          TopOfCons(a[0], Merge(a[1..], b), Merge(x[1..], y), k);
        } else {
          MergeTop(a, b[1..], x, y[1..], k - 1);
          TopOfCons(b[0], Merge(a, b[1..]), Merge(x, y[1..]), k);
        }
      }
    }
  }

  lemma TopOfCons(h: Conversation, m: seq<Conversation>, n: seq<Conversation>, k: nat)
    requires k > 0 && Top(m, k - 1) == Top(n, k - 1)
    ensures Top([h] + m, k) == Top([h] + n, k)
  {
    assert Top([h] + m, k) == [h] + Top(m, k - 1);
    assert Top([h] + n, k) == [h] + Top(n, k - 1);
  }

  function OnlyIn(m: seq<Conversation>, s: set<Conversation>): seq<Conversation> {
    if m == [] then [] else (if m[0] in s then [m[0]] else []) + OnlyIn(m[1..], s)
  }

  ghost predicate Inside(m: seq<Conversation>, s: set<Conversation>) {
    forall x :: x in m ==> x in s
  }

  ghost predicate Outside(m: seq<Conversation>, s: set<Conversation>) {
    forall x :: x in m ==> x !in s
  }

  lemma {:induction false} OnlyInAll(m: seq<Conversation>, s: set<Conversation>)
    ensures Inside(m, s) ==> OnlyIn(m, s) == m
    ensures Outside(m, s) ==> OnlyIn(m, s) == []
  {
    if m != [] {
      OnlyInAll(m[1..], s);
      assert m == [m[0]] + m[1..];
    }
  }

  lemma OnlyInOneMore(h: Conversation, m: seq<Conversation>, s: set<Conversation>)
    ensures OnlyIn([h] + m, s) == (if h in s then [h] else []) + OnlyIn(m, s)
  {
    assert ([h] + m)[1..] == m;
  }

  // A merge keeps the order of each list.
  lemma {:induction false} MergeKeepsFirst(a: seq<Conversation>, b: seq<Conversation>, s: set<Conversation>)
    requires Inside(a, s) && Outside(b, s)
    ensures OnlyIn(Merge(a, b), s) == a
    decreases |a| + |b|
  {
    if a == [] || b == [] {
      OnlyInAll(Merge(a, b), s);
    } else if a[0].lastMessageAt >= b[0].lastMessageAt {
      MergeKeepsFirst(a[1..], b, s);
      OnlyInOneMore(a[0], Merge(a[1..], b), s);
    } else {
      MergeKeepsFirst(a, b[1..], s);
      OnlyInOneMore(b[0], Merge(a, b[1..]), s);
    }
  }

  lemma {:induction false} MergeKeepsSecond(a: seq<Conversation>, b: seq<Conversation>, s: set<Conversation>)
    requires Outside(a, s) && Inside(b, s)
    ensures OnlyIn(Merge(a, b), s) == b
    decreases |a| + |b|
  {
    if a == [] || b == [] {
      OnlyInAll(Merge(a, b), s);
    } else if a[0].lastMessageAt >= b[0].lastMessageAt {
      MergeKeepsSecond(a[1..], b, s);
      OnlyInOneMore(a[0], Merge(a[1..], b), s);
    } else {
      MergeKeepsSecond(a, b[1..], s);
      OnlyInOneMore(b[0], Merge(a, b[1..]), s);
    }
  }

  // --------------------------------------------------------------------
  // The store
  // --------------------------------------------------------------------

  function Slice(full: seq<Conversation>, offset: nat, limit: nat): seq<Conversation> {
    if offset >= |full| then [] else full[offset..Min(offset + limit, |full|)]
  }

  ghost predicate Picking(r: seq<Conversation>, rest: set<Conversation>, selected: set<Conversation>) {
    && Distinct(r) && Descending(r)
    && Elems(r) + rest == selected && Elems(r) !! rest
    && forall x, i :: x in rest && 0 <= i < |r| ==> x.lastMessageAt <= r[i].lastMessageAt
  }

  lemma PickedTopK(r: seq<Conversation>, rest: set<Conversation>, selected: set<Conversation>, k: nat)
    requires Picking(r, rest, selected) && |r| <= k && (|r| == k || rest == {})
    ensures TopK(r, selected, k)
  {
    DistinctCardinality(r);
    SubsetCardinality(Elems(r), selected);
    forall x | x in selected && x !in r ensures x in rest {
      assert x !in Elems(r);
    }
  }

  ghost predicate SeenIds(seen: set<string>, merged: seq<Conversation>) {
    && (forall c :: c in merged ==> c.id in seen)
    && (forall id :: id in seen ==> exists c :: c in merged && c.id == id)
  }

  /** A page of some top-(offset + limit) result. */
  ghost predicate IsPage(page: seq<Conversation>, s: set<Conversation>, offset: nat, limit: nat) {
    exists top :: TopK(top, s, offset + limit) && page == Slice(top, offset, limit)
  }

  // The page that GetByUser makes of its two query results.
  function PageFrom(a: seq<Conversation>, b: seq<Conversation>, offset: nat, limit: nat): seq<Conversation> {
    Slice(Sorted(a + NotIn(b, a)), offset, limit)
  }

  /** A page that GetByUser can return: whichever rows the two queries pick among
      equal timestamps, and whatever order they give them. */
  ghost predicate CanReturn(page: seq<Conversation>, s: set<Conversation>, t: set<Conversation>, offset: nat,
                            limit: nat)
  {
    exists a, b :: TopK(a, s, offset + limit) && TopK(b, t, offset + limit) && page == PageFrom(a, b, offset, limit)
  }

  /** Such a page is a page of the union, equal timestamps included. */
  lemma ReturnedIsPage(page: seq<Conversation>, s: set<Conversation>, t: set<Conversation>, offset: nat, limit: nat)
    requires CanReturn(page, s, t, offset, limit)
    ensures IsPage(page, s + t, offset, limit)
  {
    var a, b :| TopK(a, s, offset + limit) && TopK(b, t, offset + limit)
                && page == PageFrom(a, b, offset, limit);
    var merged := a + NotIn(b, a);
    JoinIsMerge(a, b);
    MergeOfTopKsIsTopK(merged, a, b, s, t, offset + limit);
    SliceOfTop(Sorted(merged), offset, limit);
  }

  lemma SliceOfTop(full: seq<Conversation>, offset: nat, limit: nat)
    ensures Slice(Top(full, offset + limit), offset, limit) == Slice(full, offset, limit)
  {
  }

  lemma QueriesMakeAPage(page: seq<Conversation>, a: seq<Conversation>, b: seq<Conversation>,
                         s: set<Conversation>, t: set<Conversation>, offset: nat, limit: nat)
    requires TopK(a, s, offset + limit) && TopK(b, t, offset + limit) && page == PageFrom(a, b, offset, limit)
    ensures CanReturn(page, s, t, offset, limit)
  {
  }

  // The store has the conversation, nobody deleted it, and the user is one of its two.
  ghost predicate HasUser(c: Conversation, rows: set<Conversation>, u: string) {
    c in rows && !c.deleted && (c.user1 == u || (c.user2 == u && u != ""))
  }

  // Conversations of the user and nothing else, each once, newest first.
  ghost predicate ListsOnly(page: seq<Conversation>, rows: set<Conversation>, u: string) {
    Distinct(page) && Descending(page) && forall c :: c in page ==> HasUser(c, rows, u)
  }

  // The whole list of the user.
  ghost predicate ListsExactly(full: seq<Conversation>, rows: set<Conversation>, u: string) {
    ListsOnly(full, rows, u) && forall c :: HasUser(c, rows, u) ==> c in full
  }

  lemma BothColumns(full: seq<Conversation>, rows: set<Conversation>, u: string)
    requires Listing(full, AsUser1(rows, u) + AsUser2(rows, u))
    ensures ListsExactly(full, rows, u)
  {
    forall c ensures HasUser(c, rows, u) <==> c in full {
      assert c in AsUser1(rows, u) + AsUser2(rows, u) <==> c in Elems(full);
    }
  }

  lemma DistinctSlice(full: seq<Conversation>, offset: nat, limit: nat)
    ensures var page := Slice(full, offset, limit);
            && |page| == (if offset >= |full| then 0 else Min(limit, |full| - offset))
            && (forall i :: 0 <= i < |page| ==> page[i] == full[offset + i])
            && (Distinct(full) ==> Distinct(page)) && (Descending(full) ==> Descending(page))
  {
  }

  /** Whichever rows the queries pick among equal timestamps, a page holds undeleted
      conversations of the user only, each once, newest first, and is as long as the user's list allows. */
  lemma PageIsOfUser(page: seq<Conversation>, rows: set<Conversation>, u: string, offset: nat, limit: nat)
    returns (full: seq<Conversation>)
    requires CanReturn(page, AsUser1(rows, u), AsUser2(rows, u), offset, limit)
    ensures ListsOnly(page, rows, u) && ListsExactly(full, rows, u)
    ensures |page| == if offset >= |full| then 0 else Min(limit, |full| - offset)
  {
    var s, t := AsUser1(rows, u), AsUser2(rows, u);
    ReturnedIsPage(page, s, t, offset, limit);
    var top :| TopK(top, s + t, offset + limit) && page == Slice(top, offset, limit);
    full := ListingExists(s + t);
    BothColumns(full, rows, u);
    DistinctCardinality(full);
    SliceOnly(top, full, rows, u, offset, limit);
  }

  lemma SliceOnly(top: seq<Conversation>, full: seq<Conversation>, rows: set<Conversation>, u: string, offset: nat,
                  limit: nat)
    requires Distinct(top) && Descending(top) && Elems(top) <= Elems(full) && ListsExactly(full, rows, u)
    ensures var page := Slice(top, offset, limit);
            && ListsOnly(page, rows, u) && |page| == if offset >= |top| then 0 else Min(limit, |top| - offset)
  {
    var page := Slice(top, offset, limit);
    DistinctSlice(top, offset, limit);
    forall c | c in page ensures HasUser(c, rows, u) {
      var i :| 0 <= i < |page| && page[i] == c;
      assert top[offset + i] in Elems(top);
      assert c in Elems(full);
    }
  }

  class ConversationStore {
    var rows: set<Conversation>

    constructor (rows: set<Conversation>)
      ensures this.rows == rows
    {
      this.rows := rows;
    }

    // The database: newest first, ties in an arbitrary order.
    method Query(selected: set<Conversation>, k: nat) returns (r: seq<Conversation>)
      ensures TopK(r, selected, k)
    {
      r := [];
      var rest := selected;
      while |r| < k && rest != {}
        invariant |r| <= k && Picking(r, rest, selected)
        decreases rest
      {
        ghost var newest := Newest(rest);
        var c :| c in rest && forall d :: d in rest ==> d.lastMessageAt <= c.lastMessageAt;
        r, rest := r + [c], rest - {c};
      }
      PickedTopK(r, rest, selected, k);
    }

    method GetByUser(user: string, offset: int, limit: int) returns (result: seq<Conversation>)
      requires UniqueIds(rows)
      ensures CanReturn(result, AsUser1(rows, user), AsUser2(rows, user), if offset < 0 then 0 else offset,
                        if 1 <= limit <= 101 then limit else 20)
      ensures ListsOnly(result, rows, user)
    {
      var lim: nat := if limit <= 0 || limit > 101 then 20 else limit;
      var off: nat := if offset < 0 then 0 else offset;
      var fetchLimit := off + lim;
      var asUser1 := Query(AsUser1(rows, user), fetchLimit);
      var asUser2 := Query(AsUser2(rows, user), fetchLimit);
      var merged := MergeUnseen(asUser1, asUser2);
      var convs := new Conversation[|merged|](i requires 0 <= i < |merged| => merged[i]);
      assert convs[..] == merged;
      SortByLastMessageAt(convs);
      result := Paginate(convs[..], off, lim);
      QueriesMakeAPage(result, asUser1, asUser2, AsUser1(rows, user), AsUser2(rows, user), off, lim);
      ghost var full := PageIsOfUser(result, rows, user, off, lim);
    }

    method MergeUnseen(asUser1: seq<Conversation>, asUser2: seq<Conversation>) returns (merged: seq<Conversation>)
      requires UniqueIds(rows) && Elems(asUser1) <= rows && Elems(asUser2) <= rows
      requires Distinct(asUser1) && Distinct(asUser2)
      ensures merged == asUser1 + NotIn(asUser2, asUser1)
    {
      var seen: set<string> := {};
      merged := [];
      seen, merged := Unseen(asUser1, seen, merged);
      NotInOfStrangers(asUser1, []);
      assert merged == asUser1;
      seen, merged := Unseen(asUser2, seen, merged);
    }

    method Paginate(convs: seq<Conversation>, offset: nat, limit: nat) returns (page: seq<Conversation>)
      ensures page == Slice(convs, offset, limit)
    {
      if offset >= |convs| { return []; }
      var end := offset + limit;
      if end > |convs| { end := |convs|; }
      return convs[offset..end];
    }

    // The deduplication loop: appends the conversations whose id has not been seen.
    method Unseen(convs: seq<Conversation>, seen: set<string>, merged: seq<Conversation>)
      returns (seen': set<string>, merged': seq<Conversation>)
      requires UniqueIds(rows) && Elems(convs) <= rows && Elems(merged) <= rows
      requires Distinct(convs) && SeenIds(seen, merged)
      ensures merged' == merged + NotIn(convs, merged)
      ensures SeenIds(seen', merged')
    {
      seen', merged' := seen, merged;
      for i := 0 to |convs|
        invariant merged' == merged + NotIn(convs[..i], merged)
        invariant SeenIds(seen', merged')
      {
        var c := convs[i];
        NextIsUnseen(rows, seen', merged, convs, i);
        if c.id !in seen' {
          AnotherSeen(seen', merged', c);
          seen', merged' := seen' + {c.id}, merged' + [c];
        }
      }
      assert convs[..|convs|] == convs;
    }
  }

  lemma AnotherSeen(seen: set<string>, merged: seq<Conversation>, c: Conversation)
    requires SeenIds(seen, merged)
    ensures SeenIds(seen + {c.id}, merged + [c])
  {
    forall id | id in seen + {c.id} ensures exists d :: d in merged + [c] && d.id == id {
      if id in seen {
        var d :| d in merged && d.id == id;
        assert d in merged + [c];
      } else {
        assert c in merged + [c];
      }
    }
  }

  // Whether the next conversation was seen, and what NotIn makes of it.
  lemma NextIsUnseen(rows: set<Conversation>, seen: set<string>, merged: seq<Conversation>, convs: seq<Conversation>,
                     i: nat)
    requires UniqueIds(rows) && Elems(convs) <= rows && Elems(merged) <= rows && Distinct(convs) && i < |convs|
    requires SeenIds(seen, merged + NotIn(convs[..i], merged))
    ensures convs[i].id in seen <==> convs[i] in merged
    ensures NotIn(convs[..i + 1], merged)
            == if convs[i] in merged then NotIn(convs[..i], merged) else NotIn(convs[..i], merged) + [convs[i]]
  {
    var c, front := convs[i], convs[..i];
    assert convs[..i + 1][..i] == front;
    NotInHolds(front, merged);
    ElemsOfJoin(merged, NotIn(front, merged));
    assert c in Elems(convs) && Elems(front) <= Elems(convs) by {
      assert forall j :: 0 <= j < i ==> front[j] == convs[j];
    }
    SeenIffMember(seen, merged + NotIn(front, merged), rows, c);
    assert c !in Elems(front);
  }

  lemma OneMore(s: seq<Conversation>, c: Conversation)
    ensures Elems(s + [c]) == Elems(s) + {c}
  {
  }

  lemma SeenIffMember(seen: set<string>, merged: seq<Conversation>, rows: set<Conversation>, c: Conversation)
    requires UniqueIds(rows) && Elems(merged) <= rows && c in rows && SeenIds(seen, merged)
    ensures c.id in seen <==> c in Elems(merged)
  {
    if c.id in seen {
      var d :| d in merged && d.id == c.id;
      assert d in Elems(merged);
    }
  }

  lemma Newest(s: set<Conversation>) returns (c: Conversation)
    requires s != {}
    ensures c in s && forall d :: d in s ==> d.lastMessageAt <= c.lastMessageAt
  {
    c :| c in s;
    if s != {c} {
      var d := Newest(s - {c});
      if d.lastMessageAt > c.lastMessageAt { c := d; }
    }
  }

  /** With distinct timestamps GetByUser returns exactly the slice
      [offset, offset + limit) of the user's full list, newest first. */
  lemma PageIsSlice(page: seq<Conversation>, s: set<Conversation>, full: seq<Conversation>, offset: nat, limit: nat)
    requires IsPage(page, s, offset, limit) && Listing(full, s) && DistinctTimes(s)
    ensures page == Slice(full, offset, limit)
  {
    var top :| TopK(top, s, offset + limit) && page == Slice(top, offset, limit);
    TopKIsPrefix(top, full, s, offset + limit);
    SliceOfTop(full, offset, limit);
  }

  // --------------------------------------------------------------------
  // When the pages of a user fit together
  // --------------------------------------------------------------------

  // A listing in which x comes first among the conversations of its timestamp.
  lemma ListingWithFirst(s: set<Conversation>, x: Conversation) returns (full: seq<Conversation>, i: nat)
    requires x in s
    ensures Listing(full, s) && i < |full| && full[i] == x
    ensures forall j :: 0 <= j < i ==> full[j].lastMessageAt > x.lastMessageAt
  {
    var c := Newest(s);
    if c.lastMessageAt == x.lastMessageAt {
      var rest := ListingExists(s - {x});
      full, i := [x] + rest, 0;
      ListingGrows(x, rest, s);
    } else {
      var rest, j := ListingWithFirst(s - {c}, x);
      full, i := [c] + rest, j + 1;
      ListingGrows(c, rest, s);
    }
  }

  lemma ListingExists(s: set<Conversation>) returns (full: seq<Conversation>)
    ensures Listing(full, s)
  {
    if s == {} {
      full := [];
    } else {
      var x := Newest(s);
      var rest := ListingExists(s - {x});
      full := [x] + rest;
      ListingGrows(x, rest, s);
    }
  }

  lemma ListingGrows(x: Conversation, rest: seq<Conversation>, s: set<Conversation>)
    requires x in s && Listing(rest, s - {x}) && forall c :: c in s ==> c.lastMessageAt <= x.lastMessageAt
    ensures Listing([x] + rest, s)
  {
    ElemsOfJoin([x], rest);
    assert forall j :: 0 <= j < |rest| ==> rest[j] in Elems(rest);
  }

  // Equal timestamps leave room for two listings.
  lemma TwoListings(s: set<Conversation>) returns (l: seq<Conversation>, l': seq<Conversation>)
    requires !DistinctTimes(s)
    ensures Listing(l, s) && Listing(l', s) && l != l'
  {
    var x, y :| x in s && y in s && x.lastMessageAt == y.lastMessageAt && x != y;
    var i, j;
    l, i := ListingWithFirst(s, x);
    l', j := ListingWithFirst(s, y);
  }

  lemma TopOfListing(full: seq<Conversation>, s: set<Conversation>, k: nat)
    requires Listing(full, s)
    ensures TopK(Top(full, k), s, k)
  {
    var r := Top(full, k);
    DistinctCardinality(full);
    TopIsFrom(full, k);
    forall x, y | x in s && x !in r && y in r ensures x.lastMessageAt <= y.lastMessageAt {
      assert x in Elems(full);
    }
  }

  // Two query results without a common conversation, sorted into one.
  lemma PageOfStrangers(a: seq<Conversation>, b: seq<Conversation>, offset: nat, limit: nat)
    requires Descending(a) && Descending(b) && Elems(a) !! Elems(b)
    ensures PageFrom(a, b, offset, limit) == Slice(Merge(a, b), offset, limit)
  {
    NotInOfStrangers(b, a);
    SortedIsMerge(a, b);
  }

  lemma MergedSlice(l: seq<Conversation>, m: seq<Conversation>, offset: nat, limit: nat)
    ensures Slice(Merge(Top(l, offset + limit), Top(m, offset + limit)), offset, limit)
            == Slice(Merge(l, m), offset, limit)
  {
    var k := offset + limit;
    MergeTop(l, m, Top(l, k), Top(m, k), k);
  }

  /** Two queries that follow two listings give a slice of the merged listings. */
  lemma PageOfListings(l: seq<Conversation>, m: seq<Conversation>, offset: nat, limit: nat)
    requires Descending(l) && Descending(m) && Elems(l) !! Elems(m)
    ensures PageFrom(Top(l, offset + limit), Top(m, offset + limit), offset, limit) == Slice(Merge(l, m), offset, limit)
  {
    var a, b := Top(l, offset + limit), Top(m, offset + limit);
    TopIsFrom(l, offset + limit);
    TopIsFrom(m, offset + limit);
    PageOfStrangers(a, b, offset, limit);
    MergedSlice(l, m, offset, limit);
  }

  lemma TopIsFrom(l: seq<Conversation>, k: nat)
    ensures Elems(Top(l, k)) <= Elems(l) && (Descending(l) ==> Descending(Top(l, k)))
  {
    ElemsOfJoin(Top(l, k), l[|Top(l, k)|..]);
    assert l == Top(l, k) + l[|Top(l, k)|..];
  }

  lemma ListingsPage(l: seq<Conversation>, m: seq<Conversation>, s: set<Conversation>, t: set<Conversation>,
                     offset: nat, limit: nat)
    requires Listing(l, s) && Listing(m, t) && s !! t
    ensures CanReturn(Slice(Merge(l, m), offset, limit), s, t, offset, limit)
  {
    PageOfListings(l, m, offset, limit);
    TopOfListing(l, s, offset + limit);
    TopOfListing(m, t, offset + limit);
  }

  /** With distinct timestamps in each column GetByUser returns exactly the slice
      [offset, offset + limit) of one list; between the columns timestamps may be equal. */
  lemma ReturnedIsSlice(page: seq<Conversation>, l: seq<Conversation>, m: seq<Conversation>, s: set<Conversation>,
                        t: set<Conversation>, offset: nat, limit: nat)
    requires CanReturn(page, s, t, offset, limit) && Listing(l, s) && Listing(m, t) && s !! t
    requires DistinctTimes(s) && DistinctTimes(t)
    ensures page == Slice(Merge(l, m), offset, limit)
  {
    var a, b :| TopK(a, s, offset + limit) && TopK(b, t, offset + limit)
                && page == PageFrom(a, b, offset, limit);
    TopKIsPrefix(a, l, s, offset + limit);
    TopKIsPrefix(b, m, t, offset + limit);
    PageOfListings(l, m, offset, limit);
  }

  // Every page GetByUser can return is a slice of this one list.
  ghost predicate PagesFit(full: seq<Conversation>, s: set<Conversation>, t: set<Conversation>) {
    forall page, offset: nat, limit: nat :: 0 < limit <= 101 && CanReturn(page, s, t, offset, limit) ==>
      page == Slice(full, offset, limit)
  }

  lemma PagesFitOneList(full: seq<Conversation>, l: seq<Conversation>, m: seq<Conversation>, s: set<Conversation>,
                        t: set<Conversation>)
    requires PagesFit(full, s, t) && Listing(l, s) && Listing(m, t) && s !! t
    ensures full == Merge(l, m)
  {
    var merged := Merge(l, m);
    forall i: nat ensures Slice(full, i, 1) == Slice(merged, i, 1) { ListingsPage(l, m, s, t, i, 1); }
    SameSlices(full, merged);
  }

  lemma SameSlices(a: seq<Conversation>, b: seq<Conversation>)
    requires forall i: nat :: Slice(a, i, 1) == Slice(b, i, 1)
    ensures a == b
  {
    assert |Slice(a, |b|, 1)| == |Slice(b, |b|, 1)| && |Slice(a, |a|, 1)| == |Slice(b, |a|, 1)|;
    forall i | 0 <= i < |a| ensures a[i] == b[i] { assert Slice(a, i, 1)[0] == Slice(b, i, 1)[0]; }
  }

  /** The pages of a user are slices of one list exactly when neither of the two columns
      holds equal timestamps. Otherwise pages need not fit together. */
  lemma PagesFitIff(s: set<Conversation>, t: set<Conversation>)
    requires s !! t
    ensures (exists full :: PagesFit(full, s, t)) <==> DistinctTimes(s) && DistinctTimes(t)
  {
    var l := ListingExists(s);
    var m := ListingExists(t);
    if DistinctTimes(s) && DistinctTimes(t) {
      forall page, offset: nat, limit: nat | 0 < limit <= 101 && CanReturn(page, s, t, offset, limit)
        ensures page == Slice(Merge(l, m), offset, limit)
      {
        ReturnedIsSlice(page, l, m, s, t, offset, limit);
      }
      assert PagesFit(Merge(l, m), s, t);
    } else if !DistinctTimes(s) {
      var a, b := TwoListings(s);
      forall full ensures !PagesFit(full, s, t) {
        if PagesFit(full, s, t) {
          PagesFitOneList(full, a, m, s, t);
          PagesFitOneList(full, b, m, s, t);
          FirstSide(a, m, s, t);
          FirstSide(b, m, s, t);
        }
      }
    } else {
      var a, b := TwoListings(t);
      forall full ensures !PagesFit(full, s, t) {
        if PagesFit(full, s, t) {
          PagesFitOneList(full, l, a, s, t);
          PagesFitOneList(full, l, b, s, t);
          SecondSide(l, a, s, t);
          SecondSide(l, b, s, t);
        }
      }
    }
  }

  lemma FirstSide(a: seq<Conversation>, b: seq<Conversation>, s: set<Conversation>, t: set<Conversation>)
    requires Elems(a) == s && Elems(b) == t && s !! t
    ensures OnlyIn(Merge(a, b), s) == a
  {
    assert Inside(a, s) by { forall x | x in a ensures x in s { assert x in Elems(a); } }
    assert Outside(b, s) by { forall x | x in b ensures x !in s { assert x in Elems(b); } }
    MergeKeepsFirst(a, b, s);
  }

  lemma SecondSide(a: seq<Conversation>, b: seq<Conversation>, s: set<Conversation>, t: set<Conversation>)
    requires Elems(a) == s && Elems(b) == t && s !! t
    ensures OnlyIn(Merge(a, b), t) == b
  {
    assert Outside(a, t) by { forall x | x in a ensures x !in t { assert x in Elems(a); } }
    assert Inside(b, t) by { forall x | x in b ensures x in t { assert x in Elems(b); } }
    MergeKeepsSecond(a, b, t);
  }

  /** For a page cut from any top-(offset + limit) result of one set the condition is
      that the set holds no equal timestamps at all. */
  lemma PagesAreSlicesIff(full: seq<Conversation>, s: set<Conversation>)
    requires Listing(full, s)
    ensures (forall page, offset: nat, limit: nat :: limit > 0 && IsPage(page, s, offset, limit) ==>
               page == Slice(full, offset, limit))
            <==> DistinctTimes(s)
  {
    if DistinctTimes(s) {
      forall page, offset: nat, limit: nat | limit > 0 && IsPage(page, s, offset, limit)
        ensures page == Slice(full, offset, limit)
      {
        PageIsSlice(page, s, full, offset, limit);
      }
    } else {
      var l, l' := TwoListings(s);
      var other := if l == full then l' else l;
      if forall page, offset: nat, limit: nat :: limit > 0 && IsPage(page, s, offset, limit) ==>
           page == Slice(full, offset, limit)
      {
        forall i: nat ensures Slice(other, i, 1) == Slice(full, i, 1) {
          TopOfListing(other, s, i + 1);
          SliceOfTop(other, i, 1);
          assert IsPage(Slice(other, i, 1), s, i, 1);
        }
        SameSlices(other, full);
      }
    }
  }
}
