/** list_conversations: one call of GetByUser for a conversation more than the page,
    and a client that walks the pages. */
module ListConversations {
  import opened ConversationPages

  type Reply = (seq<Conversation>, bool)

  function Cut(convs: seq<Conversation>, limit: nat): Reply {
    if |convs| > limit then (convs[..limit], true) else (convs, false)
  }

  // A page and has_more, from a call of GetByUser for one conversation more.
  ghost predicate HandlerReply(r: Reply, s: set<Conversation>, t: set<Conversation>, offset: nat, limit: nat) {
    exists convs :: CanReturn(convs, s, t, offset, limit + 1) && r == Cut(convs, limit)
  }

  lemma CutIsReply(convs: seq<Conversation>, s: set<Conversation>, t: set<Conversation>, offset: nat, limit: nat)
    requires CanReturn(convs, s, t, offset, limit + 1)
    ensures HandlerReply(Cut(convs, limit), s, t, offset, limit)
  {
  }

  lemma PageLength(convs: seq<Conversation>, s: set<Conversation>, offset: nat, limit: nat)
    requires IsPage(convs, s, offset, limit)
    ensures |convs| == if offset >= |s| then 0 else Min(limit, |s| - offset)
  {
    var top :| TopK(top, s, offset + limit) && convs == Slice(top, offset, limit);
  }

  // What a page and its has_more say of a list of n conversations.
  predicate Measures(r: Reply, n: nat, offset: nat, limit: nat) {
    (r.1 <==> offset + limit < n) && |r.0| == if offset >= n then 0 else Min(limit, n - offset)
  }

  /** has_more says exactly whether conversations follow the page, and no page is shorter
      than it must be, equal timestamps included. */
  lemma HasMoreIff(r: Reply, s: set<Conversation>, t: set<Conversation>, offset: nat, limit: nat)
    requires HandlerReply(r, s, t, offset, limit)
    ensures Measures(r, |s + t|, offset, limit)
  {
    var convs :| CanReturn(convs, s, t, offset, limit + 1) && r == Cut(convs, limit);
    ReturnedIsPage(convs, s, t, offset, limit + 1);
    PageLength(convs, s + t, offset, limit + 1);
  }

  // The replies the handler can give for an offset.
  ghost function Answers(s: set<Conversation>, t: set<Conversation>, limit: nat): (Reply, nat) -> bool {
    (r: Reply, offset: nat) => HandlerReply(r, s, t, offset, limit)
  }

  lemma CutSlice(full: seq<Conversation>, offset: nat, limit: nat)
    ensures Cut(Slice(full, offset, limit + 1), limit).0 == Slice(full, offset, limit)
  {
  }

  lemma ReplyIsSlice(r: Reply, l: seq<Conversation>, m: seq<Conversation>, s: set<Conversation>, t: set<Conversation>,
                     offset: nat, limit: nat)
    requires Answers(s, t, limit)(r, offset) && Listing(l, s) && Listing(m, t) && s !! t
    requires DistinctTimes(s) && DistinctTimes(t)
    ensures r.0 == Slice(Merge(l, m), offset, limit)
  {
    var convs :| CanReturn(convs, s, t, offset, limit + 1) && r == Cut(convs, limit);
    ReturnedIsSlice(convs, l, m, s, t, offset, limit + 1);
    CutSlice(Merge(l, m), offset, limit);
  }

  // The replies of a client that asks for page after page until has_more is false.
  ghost predicate Walked(replies: seq<Reply>, answers: (Reply, nat) -> bool, offset: nat, limit: nat)
    decreases |replies|
  {
    && replies != [] && answers(replies[0], offset)
    && if replies[0].1 then Walked(replies[1..], answers, offset + limit, limit) else |replies| == 1
  }

  function Joined(replies: seq<Reply>): seq<Conversation> {
    if replies == [] then [] else replies[0].0 + Joined(replies[1..])
  }

  // Slices of full asked for one after the other add up to its rest.
  lemma {:induction false} SlicesAddUp(replies: seq<Reply>, answers: (Reply, nat) -> bool, full: seq<Conversation>,
                                       offset: nat, limit: nat)
    requires Walked(replies, answers, offset, limit) && offset <= |full|
    requires forall r: Reply, off: nat :: answers(r, off) ==> r == (Slice(full, off, limit), off + limit < |full|)
    ensures Joined(replies) == full[offset..]
    decreases |replies|
  {
    if replies[0].1 {
      SlicesAddUp(replies[1..], answers, full, offset + limit, limit);
    } else {
      assert replies[1..] == [];
    }
  }

  lemma MergeIsListing(l: seq<Conversation>, m: seq<Conversation>, s: set<Conversation>, t: set<Conversation>)
    requires Listing(l, s) && Listing(m, t) && s !! t
    ensures Listing(Merge(l, m), s + t) && |Merge(l, m)| == |s + t|
  {
    SortedIsMerge(l, m);
    SortedOrders(l + m);
    DistinctJoin(l, m);
    ElemsOfJoin(l, m);
    DistinctCardinality(Merge(l, m));
  }

  /** With distinct timestamps in each column a reply is the slice that was asked for,
      and says whether more follows. */
  lemma ReplyIs(r: Reply, l: seq<Conversation>, m: seq<Conversation>, s: set<Conversation>, t: set<Conversation>,
                offset: nat, limit: nat)
    requires Answers(s, t, limit)(r, offset) && Listing(l, s) && Listing(m, t) && s !! t
    requires DistinctTimes(s) && DistinctTimes(t)
    ensures r == (Slice(Merge(l, m), offset, limit), offset + limit < |Merge(l, m)|)
  {
    MergeIsListing(l, m, s, t);
    HasMoreIff(r, s, t, offset, limit);
    ReplyIsSlice(r, l, m, s, t, offset, limit);
  }

  /** Walking the pages of an unchanged store lists every conversation of the user once,
      newest first, whatever limit is asked for, when neither column holds equal timestamps. */
  lemma WalkListsAll(replies: seq<Reply>, l: seq<Conversation>, m: seq<Conversation>, s: set<Conversation>,
                     t: set<Conversation>, limit: nat)
    requires Walked(replies, Answers(s, t, limit), 0, limit) && Listing(l, s) && Listing(m, t) && s !! t
    requires DistinctTimes(s) && DistinctTimes(t)
    ensures Joined(replies) == Merge(l, m) && Listing(Joined(replies), s + t)
  {
    var full := Merge(l, m);
    MergeIsListing(l, m, s, t);
    forall r: Reply, off: nat | Answers(s, t, limit)(r, off)
      ensures r == (Slice(full, off, limit), off + limit < |full|)
    {
      ReplyIs(r, l, m, s, t, off, limit);
    }
    SlicesAddUp(replies, Answers(s, t, limit), full, 0, limit);
    assert full[0..] == full;
  }

  lemma AnswersMeasure(s: set<Conversation>, t: set<Conversation>, n: nat, limit: nat)
    requires n == |s + t|
    ensures forall r: Reply, off: nat :: Answers(s, t, limit)(r, off) ==> Measures(r, n, off, limit)
  {
    forall r: Reply, off: nat | Answers(s, t, limit)(r, off) ensures Measures(r, n, off, limit) {
      HasMoreIff(r, s, t, off, limit);
    }
  }

  lemma {:induction false} LengthsAddUp(replies: seq<Reply>, answers: (Reply, nat) -> bool, n: nat, offset: nat,
                                        limit: nat)
    requires Walked(replies, answers, offset, limit) && offset <= n
    requires forall r: Reply, off: nat :: answers(r, off) ==> Measures(r, n, off, limit)
    ensures |Joined(replies)| == n - offset
    decreases |replies|
  {
    assert Measures(replies[0], n, offset, limit);
    if replies[0].1 {
      LengthsAddUp(replies[1..], answers, n, offset + limit, limit);
    } else {
      assert replies[1..] == [];
    }
  }

  /** With equal timestamps a walk still reads as many conversations as there are, so it
      misses one exactly when it repeats one. */
  lemma WalkReadsAsMany(replies: seq<Reply>, s: set<Conversation>, t: set<Conversation>, limit: nat)
    requires Walked(replies, Answers(s, t, limit), 0, limit)
    ensures |Joined(replies)| == |s + t|
  {
    AnswersMeasure(s, t, |s + t|, limit);
    LengthsAddUp(replies, Answers(s, t, limit), |s + t|, 0, limit);
  }

  // A walk so far: every reply answers the next offset and says that more follows.
  ghost predicate Begun(replies: seq<Reply>, answers: (Reply, nat) -> bool, offset: nat, limit: nat)
    decreases |replies|
  {
    || replies == []
    || (answers(replies[0], offset) && replies[0].1 && Begun(replies[1..], answers, offset + limit, limit))
  }

  // For any offset the handler has a reply.
  lemma AnswerExists(s: set<Conversation>, t: set<Conversation>, limit: nat, offset: nat) returns (r: Reply)
    ensures Answers(s, t, limit)(r, offset)
  {
    var l := ListingExists(s);
    var m := ListingExists(t);
    var k := offset + (limit + 1);
    TopOfListing(l, s, k);
    TopOfListing(m, t, k);
    var convs := PageFrom(Top(l, k), Top(m, k), offset, limit + 1);
    QueriesMakeAPage(convs, Top(l, k), Top(m, k), s, t, offset, limit + 1);
    r := Cut(convs, limit);
    CutIsReply(convs, s, t, offset, limit);
  }

  // A reply that says more follows, and a finished walk from the next offset.
  lemma FirstPage(r: Reply, rest: seq<Reply>, answers: (Reply, nat) -> bool, offset: nat, limit: nat)
    requires answers(r, offset) && r.1 && Walked(rest, answers, offset + limit, limit)
    ensures Walked([r] + rest, answers, offset, limit)
  {
    assert ([r] + rest)[1..] == rest;
  }

  lemma LastPage(r: Reply, answers: (Reply, nat) -> bool, offset: nat, limit: nat)
    requires answers(r, offset) && !r.1
    ensures Walked([r], answers, offset, limit)
  {
  }

  lemma MoreIsLeft(r: Reply, s: set<Conversation>, t: set<Conversation>, limit: nat, offset: nat)
    requires Answers(s, t, limit)(r, offset) && r.1
    ensures offset + limit < |s + t|
  {
    HasMoreIff(r, s, t, offset, limit);
  }

  lemma {:induction false} WalkExists(s: set<Conversation>, t: set<Conversation>, offset: nat, limit: nat)
    returns (replies: seq<Reply>)
    requires limit > 0
    ensures Walked(replies, Answers(s, t, limit), offset, limit)
    decreases |s + t| - offset
  {
    var r := AnswerExists(s, t, limit, offset);
    if r.1 {
      MoreIsLeft(r, s, t, limit, offset);
      var rest := WalkExists(s, t, offset + limit, limit);
      replies := [r] + rest;
      FirstPage(r, rest, Answers(s, t, limit), offset, limit);
    } else {
      replies := [r];
      LastPage(r, Answers(s, t, limit), offset, limit);
    }
  }

  // The offset that comes after the replies so far.
  function Reached(replies: seq<Reply>, offset: nat, limit: nat): nat
    decreases |replies|
  {
    if replies == [] then offset else Reached(replies[1..], offset + limit, limit)
  }

  lemma {:induction false} WalksJoin(begun: seq<Reply>, rest: seq<Reply>, answers: (Reply, nat) -> bool, offset: nat,
                                     limit: nat)
    requires Begun(begun, answers, offset, limit) && Walked(rest, answers, Reached(begun, offset, limit), limit)
    ensures Walked(begun + rest, answers, offset, limit)
    decreases |begun|
  {
    if begun == [] {
      assert begun + rest == rest;
    } else {
      WalksJoin(begun[1..], rest, answers, offset + limit, limit);
      FirstPage(begun[0], begun[1..] + rest, answers, offset, limit);
      assert [begun[0]] + (begun[1..] + rest) == begun + rest;
    }
  }

  /** Whatever replies a walk has had so far, it can be finished: the handler always has a
      next reply and has_more does not stay true for ever. */
  lemma WalkCanFinish(begun: seq<Reply>, s: set<Conversation>, t: set<Conversation>, limit: nat)
    returns (rest: seq<Reply>)
    requires limit > 0 && Begun(begun, Answers(s, t, limit), 0, limit)
    ensures Walked(begun + rest, Answers(s, t, limit), 0, limit)
  {
    rest := WalkExists(s, t, Reached(begun, 0, limit), limit);
    WalksJoin(begun, rest, Answers(s, t, limit), 0, limit);
  }

  // The pages of n conversations, and one page when there are none.
  function Pages(n: nat, limit: nat): nat
    requires limit > 0
  {
    if n == 0 then 1 else (n + limit - 1) / limit
  }

  lemma {:induction false} PagesAddUp(replies: seq<Reply>, answers: (Reply, nat) -> bool, n: nat, offset: nat,
                                      limit: nat)
    requires Walked(replies, answers, offset, limit)
    requires forall r: Reply, off: nat :: answers(r, off) ==> Measures(r, n, off, limit)
    ensures n <= offset + |replies| * limit && (|replies| > 1 ==> offset + (|replies| - 1) * limit < n)
    decreases |replies|
  {
    assert Measures(replies[0], n, offset, limit);
    if replies[0].1 {
      PagesAddUp(replies[1..], answers, n, offset + limit, limit);
      assert (|replies| - 1) * limit + limit == |replies| * limit;
      assert |replies| > 2 ==> (|replies| - 2) * limit + limit == (|replies| - 1) * limit;
    }
  }

  lemma Scales(a: int, b: int, c: nat)
    requires a <= b
    ensures a * c <= b * c
  {
  }

  lemma CeilingIs(n: nat, limit: nat, k: nat)
    requires 0 < n <= k * limit && limit > 0 && (k - 1) * limit < n
    ensures k == (n + limit - 1) / limit
  {
    var q := (n + limit - 1) / limit;
    assert q * limit <= n + limit - 1 < q * limit + limit;
    assert (k - 1) * limit == k * limit - limit;
    assert q < k ==> q * limit + limit <= k * limit by { if q < k { Scales(q + 1, k, limit); } }
    assert k < q ==> k * limit + limit <= q * limit by { if k < q { Scales(k + 1, q, limit); } }
  }

  lemma PagesAre(n: nat, limit: nat, k: nat)
    requires 0 < k && limit > 0 && n <= k * limit && (k > 1 ==> (k - 1) * limit < n)
    ensures k == Pages(n, limit)
  {
    if n > 0 {
      CeilingIs(n, limit, k);
    } else if k > 1 {
      Scales(0, k - 1, limit);
    }
  }

  /** Every finished walk has had exactly as many pages as the conversations fill, equal
      timestamps included. */
  lemma WalkHasPages(replies: seq<Reply>, s: set<Conversation>, t: set<Conversation>, limit: nat)
    requires limit > 0 && Walked(replies, Answers(s, t, limit), 0, limit)
    ensures |replies| == Pages(|s + t|, limit)
  {
    var n := |s + t|;
    AnswersMeasure(s, t, n, limit);
    PagesAddUp(replies, Answers(s, t, limit), n, 0, limit);
    PagesAre(n, limit, |replies|);
  }

  // --------------------------------------------------------------------
  // What the rows say
  // --------------------------------------------------------------------

  // The replies that HandleRequest can give a user.
  ghost function RepliesFor(rows: set<Conversation>, u: string, limit: nat): (Reply, nat) -> bool {
    Answers(AsUser1(rows, u), AsUser2(rows, u), limit)
  }

  // No two undeleted conversations with the user in the same column have one timestamp.
  ghost predicate TimesDiffer(rows: set<Conversation>, u: string) {
    forall x, y :: x in rows && y in rows && x != y && !x.deleted && !y.deleted ==>
      x.lastMessageAt == y.lastMessageAt ==> !(x.user1 == u && y.user1 == u) && !(x.user2 == u && y.user2 == u)
  }

  ghost predicate NobodyAlone(rows: set<Conversation>) {
    forall c :: c in rows ==> c.user1 != c.user2
  }

  /** A finished walk over unchanged rows lists exactly the undeleted conversations that
      have the user in a column, each once, newest first. */
  lemma WalkListsTheUser(replies: seq<Reply>, rows: set<Conversation>, u: string, limit: nat)
    requires Walked(replies, RepliesFor(rows, u, limit), 0, limit) && NobodyAlone(rows) && TimesDiffer(rows, u)
    ensures ListsExactly(Joined(replies), rows, u)
  {
    var s, t := AsUser1(rows, u), AsUser2(rows, u);
    var l := ListingExists(s);
    var m := ListingExists(t);
    ColumnsAreDisjoint(rows, u);
    WalkListsAll(replies, l, m, s, t, limit);
    BothColumns(Joined(replies), rows, u);
  }

  /** The same of one request: its page is the stretch of the user's list that was asked
      for, and has_more says whether the list goes on behind it. */
  lemma ReplyToUser(r: Reply, rows: set<Conversation>, u: string, offset: nat, limit: nat)
    returns (full: seq<Conversation>)
    requires RepliesFor(rows, u, limit)(r, offset) && NobodyAlone(rows)
    ensures ListsExactly(full, rows, u) && ListsOnly(r.0, rows, u) && (r.1 <==> offset + limit < |full|)
    ensures |r.0| == if offset >= |full| then 0 else Min(limit, |full| - offset)
    ensures TimesDiffer(rows, u) ==> forall i :: 0 <= i < |r.0| ==> r.0[i] == full[offset + i]
  {
    var s, t := AsUser1(rows, u), AsUser2(rows, u);
    var l := ListingExists(s);
    var m := ListingExists(t);
    ColumnsAreDisjoint(rows, u);
    full := Merge(l, m);
    MergeIsListing(l, m, s, t);
    BothColumns(full, rows, u);
    HasMoreIff(r, s, t, offset, limit);
    CutOfUser(r, rows, u, offset, limit);
    if TimesDiffer(rows, u) {
      ReplyIs(r, l, m, s, t, offset, limit);
      DistinctSlice(full, offset, limit);
    }
  }

  lemma CutOfUser(r: Reply, rows: set<Conversation>, u: string, offset: nat, limit: nat)
    requires RepliesFor(rows, u, limit)(r, offset)
    ensures ListsOnly(r.0, rows, u)
  {
    var convs :| CanReturn(convs, AsUser1(rows, u), AsUser2(rows, u), offset, limit + 1) && r == Cut(convs, limit);
    var full := PageIsOfUser(convs, rows, u, offset, limit + 1);
  }

  class ListConversationsHandler {
    const store: ConversationStore

    constructor (store: ConversationStore)
      ensures this.store == store
    {
      this.store := store;
    }

    method HandleRequest(user: string, offset: int, limit: int) returns (page: seq<Conversation>, hasMore: bool)
      requires UniqueIds(store.rows)
      ensures RepliesFor(store.rows, user, if 1 <= limit <= 100 then limit else 20)
                ((page, hasMore), if offset < 0 then 0 else offset)
      ensures ListsOnly(page, store.rows, user)
    {
      var lim := if limit <= 0 || limit > 100 then 20 else limit;
      var off := if offset < 0 then 0 else offset;
      var convs := store.GetByUser(user, off, lim + 1);
      CutIsReply(convs, AsUser1(store.rows, user), AsUser2(store.rows, user), off, lim);
      hasMore := |convs| > lim;
      page := if hasMore then convs[..lim] else convs;
      CutOfUser((page, hasMore), store.rows, user, off, lim);
    }
  }
}
