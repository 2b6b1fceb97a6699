/** Conversations, messages and read cursors: send, individual and cascade soft
    delete, cascade restore by matching timestamp, and mark_as_read. */
module ConversationLifecycle {
  import opened Option

  const MODULUS: int := 0x1_0000_0000
  const MILLISECOND: nat := 1_000_000

  // uint32
  type Seq = n: int | 0 <= n < MODULUS

  // Times are nanoseconds. Rows are named by their position: keys are fresh
  // UUIDs and rows are never physically removed.
  datatype Conv = Conv(user1: string, user2: string, deletedAt: Option<nat>,
                       lastProcessed: Seq, lastMessageAt: nat, read1: Seq, read2: Seq)

  datatype Msg = Msg(conv: nat, messageId: Seq, sender: string, createdAt: nat, deletedAt: Option<nat>)

  // A mark_as_read call between its clamp and its UPDATE.
  datatype Mark = Mark(user: string, conv: nat, target: Seq, done: bool)

  datatype State = State(convs: seq<Conv>, msgs: seq<Msg>, marks: seq<Mark>)

  datatype Reply =
    | Created(conv: nat)
    | Sent(messageId: Seq)
    | Deleted
    | Count(n: nat)
    | Begun(call: nat)
    | Cursor(cursor: Seq)
    | NotFound
    | Denied
    | Invalid

  datatype Op =
    | Create(user1: string, user2: string, now: nat)
    | Send(conv: nat, sender: string, createdAt: nat)
    | DeleteMessage(user: string, msg: nat, now: nat)
    | DeleteConversation(user: string, conv: nat, now: nat)
    | Restore(user: string, conv: nat)
    | MarkBegin(user: string, conv: nat, messageId: Seq)
    | MarkCommit(call: nat)

  function Truncated(now: nat): nat {
    now - now % MILLISECOND
  }

  function Members(c: Conv): seq<string> {
    [c.user1] + if c.user2 != "" then [c.user2] else []
  }

  predicate Live(s: State, c: nat) {
    c < |s.convs| && s.convs[c].deletedAt.None?
  }

  predicate Visible(s: State, m: nat) {
    m < |s.msgs| && s.msgs[m].deletedAt.None?
  }

  // --------------------------------------------------------------------
  // SQL statements
  // --------------------------------------------------------------------

  // UPDATE messages SET deleted_at = ? WHERE conversation_id = ? AND deleted_at IS NULL
  function Stamped(msgs: seq<Msg>, c: nat, t: nat): seq<Msg> {
    seq(|msgs|, i requires 0 <= i < |msgs| =>
      if msgs[i].conv == c && msgs[i].deletedAt.None? then msgs[i].(deletedAt := Some(t)) else msgs[i])
  }

  // UPDATE messages SET deleted_at = NULL WHERE conversation_id = ? AND deleted_at = ?
  function Unstamped(msgs: seq<Msg>, c: nat, t: nat): seq<Msg> {
    seq(|msgs|, i requires 0 <= i < |msgs| =>
      if msgs[i].conv == c && msgs[i].deletedAt == Some(t) then msgs[i].(deletedAt := None) else msgs[i])
  }

  function WithStamp(msgs: seq<Msg>, c: nat, t: Option<nat>): set<nat> {
    set i: nat | i < |msgs| && msgs[i].conv == c && msgs[i].deletedAt == t
  }

  // SELECT ... WHERE conversation_id = ? ORDER BY message_id DESC LIMIT 1, deleted rows included
  function Latest(msgs: seq<Msg>, c: nat): (r: Option<nat>)
    ensures r.None? ==> forall i :: 0 <= i < |msgs| ==> msgs[i].conv != c
    ensures r.Some? ==> r.value < |msgs| && msgs[r.value].conv == c
                        && forall i :: 0 <= i < |msgs| && msgs[i].conv == c ==>
                            msgs[i].messageId <= msgs[r.value].messageId
  {
    if msgs == [] then None
    else
      var n := |msgs| - 1;
      var front := msgs[..n];
      var rest := Latest(front, c);
      assert forall i :: 0 <= i < n ==> msgs[i] == front[i];
      if msgs[n].conv != c then rest
      else if rest.Some? && msgs[rest.value].messageId >= msgs[n].messageId then rest
      else Some(n)
  }

  function Max(a: Seq, b: Seq): Seq {
    if a > b then a else b
  }

  // UPDATE conversations SET column = MAX(column, ?); the first matching column is taken.
  function WithCursor(c: Conv, user: string, target: Seq): Conv {
    if c.user1 == user then c.(read1 := Max(c.read1, target))
    else if c.user2 == user then c.(read2 := Max(c.read2, target))
    else c
  }

  // mark_as_read reports the second column when the caller is the second user.
  function ReportedCursor(c: Conv, user: string): Seq {
    if user == c.user2 then c.read2 else c.read1
  }

  function RestoredMetadata(c: Conv, msgs: seq<Msg>, latest: Option<nat>): Conv
    requires latest.Some? ==> latest.value < |msgs|
  {
    match latest
    case None => c
    case Some(i) => c.(lastProcessed := msgs[i].messageId, lastMessageAt := msgs[i].createdAt)
  }

  // The restore transaction, given the deleted_at the handler read before it.
  function RestoreTx(s: State, c: nat, seen: nat): State
    requires c < |s.convs|
  {
    var msgs := Unstamped(s.msgs, c, seen);
    s.(convs := s.convs[c := RestoredMetadata(s.convs[c].(deletedAt := None), msgs, Latest(msgs, c))], msgs := msgs)
  }

  // --------------------------------------------------------------------
  // Operations
  // --------------------------------------------------------------------

  function Step(s: State, op: Op): (State, Reply) {
    match op
    case Create(user1, user2, now) =>
      if user1 == user2 || user1 == "" || user2 == "" then (s, Invalid)
      else (s.(convs := s.convs + [Conv(user1, user2, None, 0, now, 0, 0)]), Created(|s.convs|))
    case Send(c, sender, createdAt) => SendStep(s, c, sender, createdAt)
    case DeleteMessage(user, m, now) => DeleteMessageStep(s, user, m, now)
    case DeleteConversation(user, c, now) => DeleteConversationStep(s, user, c, now)
    case Restore(user, c) => RestoreStep(s, user, c)
    case MarkBegin(user, c, messageId) => MarkBeginStep(s, user, c, messageId)
    case MarkCommit(call) => MarkCommitStep(s, call)
  }

  function SendStep(s: State, c: nat, sender: string, createdAt: nat): (State, Reply) {
    if !Live(s, c) then (s, NotFound)
    else
      var id: Seq := (s.convs[c].lastProcessed + 1) % MODULUS;
      (s.(convs := s.convs[c := s.convs[c].(lastProcessed := id, lastMessageAt := createdAt)],
          msgs := s.msgs + [Msg(c, id, sender, createdAt, None)]), Sent(id))
  }

  function DeleteMessageStep(s: State, user: string, m: nat, now: nat): (State, Reply) {
    if !Visible(s, m) || !Live(s, s.msgs[m].conv) then (s, NotFound)
    else if user !in Members(s.convs[s.msgs[m].conv]) || s.msgs[m].sender != user then (s, Denied)
    else (s.(msgs := s.msgs[m := s.msgs[m].(deletedAt := Some(now))]), Deleted)
  }

  function DeleteConversationStep(s: State, user: string, c: nat, now: nat): (State, Reply) {
    if !Live(s, c) then (s, NotFound)
    else if user !in Members(s.convs[c]) then (s, Denied)
    else
      var t := Truncated(now);
      (s.(convs := s.convs[c := s.convs[c].(deletedAt := Some(t))], msgs := Stamped(s.msgs, c, t)),
       Count(|WithStamp(s.msgs, c, None)|))
  }

  function RestoreStep(s: State, user: string, c: nat): (State, Reply) {
    if c >= |s.convs| then (s, NotFound)
    else if user !in Members(s.convs[c]) then (s, Denied)
    else if s.convs[c].deletedAt.None? then (s, Count(0))
    else
      var t := s.convs[c].deletedAt.value;
      (RestoreTx(s, c, t), Count(|WithStamp(s.msgs, c, Some(t))|))
  }

  function MarkBeginStep(s: State, user: string, c: nat, messageId: Seq): (State, Reply) {
    if !Live(s, c) then (s, NotFound)
    else if user !in Members(s.convs[c]) then (s, Denied)
    else
      var wanted := if messageId == 0 then s.convs[c].lastProcessed else messageId;
      var target := if wanted > s.convs[c].lastProcessed then s.convs[c].lastProcessed else wanted;
      (s.(marks := s.marks + [Mark(user, c, target, false)]), Begun(|s.marks|))
  }

  function MarkCommitStep(s: State, call: nat): (State, Reply) {
    if call >= |s.marks| || s.marks[call].done then (s, Invalid)
    else
      var mark := s.marks[call];
      var over := s.(marks := s.marks[call := mark.(done := true)]);
      if !Live(s, mark.conv) then (over, NotFound)
      else
        var conv := WithCursor(s.convs[mark.conv], mark.user, mark.target);
        (over.(convs := s.convs[mark.conv := conv]), Cursor(ReportedCursor(conv, mark.user)))
  }

  function Run(s: State, ops: seq<Op>): State
    decreases |ops|
  {
    if ops == [] then s else Run(Step(s, ops[0]).0, ops[1..])
  }

  const Empty := State([], [], [])

  // --------------------------------------------------------------------
  // Visibility: deletion timestamps refine a simple specification
  // --------------------------------------------------------------------

  // What the callers were told: the messages whose individual delete succeeded,
  // and the count reported by the last delete of each conversation.
  datatype Told = Told(removed: set<nat>, counts: map<nat, nat>)

  function Tell(h: Told, op: Op, reply: Reply): Told {
    if op.DeleteMessage? && reply == Deleted then h.(removed := h.removed + {op.msg})
    else if op.DeleteConversation? && reply.Count? then h.(counts := h.counts[op.conv := reply.n])
    else h
  }

  function RunTold(s: State, h: Told, ops: seq<Op>): Told
    decreases |ops|
  {
    if ops == [] then h
    else
      var (next, reply) := Step(s, ops[0]);
      RunTold(next, Tell(h, ops[0], reply), ops[1..])
  }

  function Kept(s: State, h: Told, c: nat): set<nat> {
    set i: nat | i < |s.msgs| && s.msgs[i].conv == c && i !in h.removed
  }

  ghost predicate Owned(s: State, h: Told) {
    (forall m: nat :: m < |s.msgs| ==> s.msgs[m].conv < |s.convs|) && forall m :: m in h.removed ==> m < |s.msgs|
  }

  /** A message is visible iff its conversation is live and it was never individually deleted. */
  ghost predicate VisibleIff(s: State, h: Told) {
    forall m: nat :: m < |s.msgs| ==> (Visible(s, m) <==> Live(s, s.msgs[m].conv) && m !in h.removed)
  }

  // The stamp of a deleted conversation marks exactly its cascaded messages.
  ghost predicate StampsTell(s: State, h: Told) {
    forall m: nat :: m < |s.msgs| && s.msgs[m].conv < |s.convs| && s.convs[s.msgs[m].conv].deletedAt.Some? ==>
      (s.msgs[m].deletedAt == s.convs[s.msgs[m].conv].deletedAt <==> m !in h.removed)
  }

  ghost predicate CountsTell(s: State, h: Told) {
    forall c: nat :: c < |s.convs| && s.convs[c].deletedAt.Some? ==> c in h.counts && h.counts[c] == |Kept(s, h, c)|
  }

  ghost predicate Inv(s: State, h: Told) {
    Owned(s, h) && VisibleIff(s, h) && StampsTell(s, h) && CountsTell(s, h)
  }

  /** No message of the conversation already carries the stamp of this delete. */
  ghost predicate FreshStamp(s: State, c: nat, t: nat) {
    forall m :: 0 <= m < |s.msgs| && s.msgs[m].conv == c ==> s.msgs[m].deletedAt != Some(t)
  }

  ghost predicate Allowed(s: State, op: Op) {
    op.DeleteConversation? ==> FreshStamp(s, op.conv, Truncated(op.now))
  }

  ghost predicate AllAllowed(s: State, ops: seq<Op>)
    decreases |ops|
  {
    ops == [] || (Allowed(s, ops[0]) && AllAllowed(Step(s, ops[0]).0, ops[1..]))
  }

  lemma SendKeepsInv(s: State, h: Told, c: nat, sender: string, createdAt: nat)
    requires Inv(s, h)
    ensures Inv(SendStep(s, c, sender, createdAt).0, h)
  {
    var next := SendStep(s, c, sender, createdAt).0;
    if next != s {
      forall d: nat | d < |next.convs| && next.convs[d].deletedAt.Some?
        ensures d in h.counts && h.counts[d] == |Kept(next, h, d)|
      {
        assert d != c;
        assert Kept(next, h, d) == Kept(s, h, d);
      }
    }
  }

  lemma DeleteMessageKeepsInv(s: State, h: Told, user: string, m: nat, now: nat)
    requires Inv(s, h)
    ensures var (next, reply) := DeleteMessageStep(s, user, m, now);
            Inv(next, Tell(h, DeleteMessage(user, m, now), reply))
  {
    var (next, reply) := DeleteMessageStep(s, user, m, now);
    var told := Tell(h, DeleteMessage(user, m, now), reply);
    if reply == Deleted {
      forall d: nat | d < |next.convs| && next.convs[d].deletedAt.Some?
        ensures d in told.counts && told.counts[d] == |Kept(next, told, d)|
      {
        assert d != s.msgs[m].conv;
        assert Kept(next, told, d) == Kept(s, h, d);
      }
    }
  }

  lemma DeleteConversationKeepsInv(s: State, h: Told, user: string, c: nat, now: nat)
    requires Inv(s, h) && FreshStamp(s, c, Truncated(now))
    ensures var (next, reply) := DeleteConversationStep(s, user, c, now);
            Inv(next, Tell(h, DeleteConversation(user, c, now), reply))
  {
    var (next, reply) := DeleteConversationStep(s, user, c, now);
    var told := Tell(h, DeleteConversation(user, c, now), reply);
    if reply.Count? {
      assert WithStamp(s.msgs, c, None) == Kept(s, h, c);
      forall d: nat | d < |next.convs| && next.convs[d].deletedAt.Some?
        ensures d in told.counts && told.counts[d] == |Kept(next, told, d)|
      {
        assert Kept(next, told, d) == Kept(s, h, d);
      }
    }
  }

  lemma RestoreKeepsInv(s: State, h: Told, user: string, c: nat)
    requires Inv(s, h)
    ensures Inv(RestoreStep(s, user, c).0, h)
  {
    var next := RestoreStep(s, user, c).0;
    if next != s {
      forall d: nat | d < |next.convs| && next.convs[d].deletedAt.Some?
        ensures d in h.counts && h.counts[d] == |Kept(next, h, d)|
      {
        assert Kept(next, h, d) == Kept(s, h, d);
      }
    }
  }

  // Only live flags and message rows matter to Inv.
  lemma SameRowsKeepInv(s: State, h: Told, next: State)
    requires Inv(s, h) && next.msgs == s.msgs && |s.convs| <= |next.convs|
    requires forall c :: 0 <= c < |s.convs| ==> next.convs[c].deletedAt == s.convs[c].deletedAt
    requires forall c :: |s.convs| <= c < |next.convs| ==> next.convs[c].deletedAt.None?
    ensures Inv(next, h)
  {
    forall d: nat | d < |next.convs| && next.convs[d].deletedAt.Some?
      ensures d in h.counts && h.counts[d] == |Kept(next, h, d)|
    {
      assert Kept(next, h, d) == Kept(s, h, d);
    }
  }

  lemma StepKeepsInv(s: State, h: Told, op: Op)
    requires Inv(s, h) && Allowed(s, op)
    ensures var (next, reply) := Step(s, op);
            Inv(next, Tell(h, op, reply))
  {
    match op
    case Send(c, sender, createdAt) => SendKeepsInv(s, h, c, sender, createdAt);
    case DeleteMessage(user, m, now) => DeleteMessageKeepsInv(s, h, user, m, now);
    case DeleteConversation(user, c, now) => DeleteConversationKeepsInv(s, h, user, c, now);
    case Restore(user, c) => RestoreKeepsInv(s, h, user, c);
    case Create(_, _, _) => SameRowsKeepInv(s, h, Step(s, op).0);
    case MarkBegin(_, _, _) => SameRowsKeepInv(s, h, Step(s, op).0);
    case MarkCommit(_) => SameRowsKeepInv(s, h, Step(s, op).0);
  }

  /** Over every run in which a cascade delete never reuses the stamp of a message of
      its conversation, visibility is what the callers were told. */
  lemma {:induction false} VisibilityRefinesTheSpec(s: State, h: Told, ops: seq<Op>)
    requires Inv(s, h) && AllAllowed(s, ops)
    ensures Inv(Run(s, ops), RunTold(s, h, ops))
    decreases |ops|
  {
    if ops != [] {
      StepKeepsInv(s, h, ops[0]);
      var (next, reply) := Step(s, ops[0]);
      VisibilityRefinesTheSpec(next, Tell(h, ops[0], reply), ops[1..]);
    }
  }

  /** A restore recovers exactly the count the matching delete reported. */
  lemma RestoreCountsTheDelete(s: State, h: Told, user: string, c: nat)
    requires Inv(s, h) && c < |s.convs| && user in Members(s.convs[c]) && s.convs[c].deletedAt.Some?
    ensures c in h.counts && RestoreStep(s, user, c).1 == Count(h.counts[c])
    ensures WithStamp(RestoreStep(s, user, c).0.msgs, c, None) == Kept(s, h, c)
  {
    assert WithStamp(s.msgs, c, s.convs[c].deletedAt) == Kept(s, h, c);
  }

  /** Restoring right after deleting gives back the same message rows exactly when the
      stamp was fresh: otherwise an individually deleted message comes back. */
  lemma RestoreUndoesDeleteIff(s: State, user: string, c: nat, now: nat)
    requires Live(s, c) && user in Members(s.convs[c])
    ensures var deleted := DeleteConversationStep(s, user, c, now).0;
            RestoreStep(deleted, user, c).0.msgs == s.msgs <==> FreshStamp(s, c, Truncated(now))
  {
    var t := Truncated(now);
    var deleted := DeleteConversationStep(s, user, c, now).0;
    var back := RestoreStep(deleted, user, c).0.msgs;
    assert back == Unstamped(Stamped(s.msgs, c, t), c, t);
    if !FreshStamp(s, c, t) {
      var m :| 0 <= m < |s.msgs| && s.msgs[m].conv == c && s.msgs[m].deletedAt == Some(t);
      assert back[m].deletedAt.None?;
    }
  }

  /** Run as one step the restore is exact. With the deleted_at read before its
      transaction, and the conversation restored and deleted again meanwhile, it
      is exact only if the stamp read is still the current one, or there is
      nothing that either stamp could bring back. */
  lemma StaleRestoreIsExactIff(s: State, h: Told, c: nat, seen: nat)
    requires Inv(s, h) && c < |s.convs| && s.convs[c].deletedAt.Some?
    ensures (forall m :: 0 <= m < |s.msgs| && s.msgs[m].conv == c ==>
            (Visible(RestoreTx(s, c, seen), m) <==> m !in h.removed))
            <==> Some(seen) == s.convs[c].deletedAt || (Kept(s, h, c) == {} && FreshStamp(s, c, seen))
  {
    var after := RestoreTx(s, c, seen);
    if Some(seen) != s.convs[c].deletedAt {
      if Kept(s, h, c) != {} {
        var m :| m in Kept(s, h, c);
        assert s.msgs[m].deletedAt == s.convs[c].deletedAt;
        assert !Visible(after, m);
      } else if !FreshStamp(s, c, seen) {
        var m :| 0 <= m < |s.msgs| && s.msgs[m].conv == c && s.msgs[m].deletedAt == Some(seen);
        assert m !in Kept(s, h, c);
        assert Visible(after, m);
      } else {
        forall m | 0 <= m < |s.msgs| && s.msgs[m].conv == c ensures !Visible(after, m) && m in h.removed {
          assert m !in Kept(s, h, c);
        }
      }
    }
  }

  // The operation is about conversation c, one of its messages or a mark in it.
  predicate Concerns(s: State, op: Op, c: nat) {
    match op
    case Create(_, _, _) => false
    case Send(d, _, _) => d == c
    case DeleteMessage(_, m, _) => m < |s.msgs| && s.msgs[m].conv == c
    case DeleteConversation(_, d, _) => d == c
    case Restore(_, d) => d == c
    case MarkBegin(_, d, _) => d == c
    case MarkCommit(call) => call < |s.marks| && s.marks[call].conv == c
  }

  ghost predicate Elsewhere(s: State, ops: seq<Op>, c: nat)
    decreases |ops|
  {
    ops == [] || (!Concerns(s, ops[0], c) && Elsewhere(Step(s, ops[0]).0, ops[1..], c))
  }

  // Conversation c has the same columns and the same messages in both states.
  ghost predicate SameFor(s: State, next: State, c: nat) {
    && c < |s.convs| <= |next.convs| && next.convs[c] == s.convs[c] && |s.msgs| <= |next.msgs|
    && (forall m :: 0 <= m < |s.msgs| && s.msgs[m].conv == c ==> next.msgs[m] == s.msgs[m])
    && (forall m :: 0 <= m < |next.msgs| && next.msgs[m].conv == c ==> m < |s.msgs| && s.msgs[m].conv == c)
  }

  lemma StepElsewhere(s: State, op: Op, c: nat)
    requires c < |s.convs| && !Concerns(s, op, c)
    ensures SameFor(s, Step(s, op).0, c)
  {
  }

  /** Conversations do not interfere: any run of operations on other conversations leaves the
      columns, the cursors and every message of this one as they were. */
  lemma {:induction false} OthersAreUntouched(s: State, ops: seq<Op>, c: nat)
    requires c < |s.convs| && Elsewhere(s, ops, c)
    ensures SameFor(s, Run(s, ops), c)
    decreases |ops|
  {
    if ops != [] {
      StepElsewhere(s, ops[0], c);
      OthersAreUntouched(Step(s, ops[0]).0, ops[1..], c);
    }
  }

  /** A message disappears only when its sender deletes it or a member deletes its
      conversation, and it comes back only when a member restores the conversation. */
  lemma OnlyMembersChangeVisibility(s: State, op: Op, m: nat)
    requires m < |s.msgs| && s.msgs[m].conv < |s.convs|
    ensures var next, msg := Step(s, op).0, s.msgs[m];
            var members := Members(s.convs[msg.conv]);
            && (Visible(s, m) && !Visible(next, m) ==>
                 || (op.DeleteMessage? && op.msg == m && op.user == msg.sender && op.user in members)
                 || (op.DeleteConversation? && op.conv == msg.conv && op.user in members))
            && (!Visible(s, m) && Visible(next, m) ==> op.Restore? && op.conv == msg.conv && op.user in members)
            && next.msgs[m].(deletedAt := None) == msg.(deletedAt := None)
  {
  }

  // --------------------------------------------------------------------
  // Message ids and read cursors
  // --------------------------------------------------------------------

  // lastProcessed is the largest message id ever sent in the conversation, and
  // lastMessageAt the time of that message.
  ghost predicate MetadataIsLatest(s: State, c: nat)
    requires c < |s.convs|
  {
    match Latest(s.msgs, c)
    case None => s.convs[c].lastProcessed == 0
    case Some(i) => s.convs[c].lastProcessed == s.msgs[i].messageId && s.convs[c].lastMessageAt == s.msgs[i].createdAt
  }

  ghost predicate CursorsInside(s: State, c: nat)
    requires c < |s.convs|
  {
    s.convs[c].read1 <= s.convs[c].lastProcessed && s.convs[c].read2 <= s.convs[c].lastProcessed
    && s.convs[c].user1 != s.convs[c].user2
  }

  ghost predicate CursorInv(s: State) {
    && (forall m :: 0 <= m < |s.msgs| ==> s.msgs[m].conv < |s.convs| && s.msgs[m].messageId > 0)
    && (forall c :: 0 <= c < |s.convs| ==> MetadataIsLatest(s, c) && CursorsInside(s, c))
    && (forall k :: 0 <= k < |s.marks| ==>
          s.marks[k].conv < |s.convs| && s.marks[k].target <= s.convs[s.marks[k].conv].lastProcessed)
  }

  ghost predicate Room(s: State, op: Op) {
    op.Send? && op.conv < |s.convs| ==> s.convs[op.conv].lastProcessed + 1 < MODULUS
  }

  ghost predicate AllRoom(s: State, ops: seq<Op>)
    decreases |ops|
  {
    ops == [] || (Room(s, ops[0]) && AllRoom(Step(s, ops[0]).0, ops[1..]))
  }

  // Only ids and conversations of the rows matter to Latest.
  lemma {:induction false} LatestIgnoresStamps(a: seq<Msg>, b: seq<Msg>, c: nat)
    requires |a| == |b| && forall i :: 0 <= i < |a| ==> a[i].(deletedAt := None) == b[i].(deletedAt := None)
    ensures Latest(a, c) == Latest(b, c)
  {
    if a != [] { LatestIgnoresStamps(a[..|a| - 1], b[..|b| - 1], c); }
  }

  lemma SendKeepsCursors(s: State, c: nat, sender: string, createdAt: nat)
    requires CursorInv(s) && Room(s, Send(c, sender, createdAt))
    ensures CursorInv(SendStep(s, c, sender, createdAt).0)
  {
    var next := SendStep(s, c, sender, createdAt).0;
    if Live(s, c) {
      var m := next.msgs[|s.msgs|];
      assert next.msgs == s.msgs + [m] && m.messageId == s.convs[c].lastProcessed + 1;
      assert MetadataIsLatest(s, c);
      forall d | 0 <= d < |next.convs| ensures MetadataIsLatest(next, d) && CursorsInside(next, d) {
        assert MetadataIsLatest(s, d) && CursorsInside(s, d);
      }
    }
  }

  // The two states differ in deletion stamps only.
  ghost predicate OnlyStampsDiffer(s: State, next: State) {
    && |next.convs| == |s.convs| && |next.msgs| == |s.msgs| && next.marks == s.marks
    && (forall d :: 0 <= d < |s.convs| ==> next.convs[d].(deletedAt := None) == s.convs[d].(deletedAt := None))
    && (forall m :: 0 <= m < |s.msgs| ==> next.msgs[m].(deletedAt := None) == s.msgs[m].(deletedAt := None))
  }

  lemma StampsKeepMetadata(s: State, next: State, d: nat)
    requires OnlyStampsDiffer(s, next) && d < |s.convs| && MetadataIsLatest(s, d) && CursorsInside(s, d)
    ensures MetadataIsLatest(next, d) && CursorsInside(next, d)
  {
    LatestIgnoresStamps(s.msgs, next.msgs, d);
    assert next.convs[d].(deletedAt := None) == s.convs[d].(deletedAt := None);
    var latest := Latest(s.msgs, d);
    if latest.Some? {
      assert next.msgs[latest.value].(deletedAt := None) == s.msgs[latest.value].(deletedAt := None);
    }
  }

  lemma StampsKeepCursors(s: State, next: State)
    requires CursorInv(s) && OnlyStampsDiffer(s, next)
    ensures CursorInv(next)
  {
    forall d | 0 <= d < |next.convs| ensures MetadataIsLatest(next, d) && CursorsInside(next, d) {
      assert MetadataIsLatest(s, d) && CursorsInside(s, d);
      StampsKeepMetadata(s, next, d);
    }
    forall m | 0 <= m < |next.msgs| ensures next.msgs[m].conv < |next.convs| && next.msgs[m].messageId > 0 {
      assert next.msgs[m].(deletedAt := None) == s.msgs[m].(deletedAt := None);
    }
    forall k | 0 <= k < |next.marks|
      ensures next.marks[k].conv < |next.convs| && next.marks[k].target <= next.convs[next.marks[k].conv].lastProcessed
    {
      var d := s.marks[k].conv;
      assert next.convs[d].(deletedAt := None) == s.convs[d].(deletedAt := None);
    }
  }

  lemma DeletesKeepCursors(s: State, op: Op)
    requires CursorInv(s) && (op.DeleteMessage? || op.DeleteConversation?)
    ensures CursorInv(Step(s, op).0)
  {
    StampsKeepCursors(s, Step(s, op).0);
  }

  /** The recomputation in a restore changes nothing: apart from deleted_at the
      conversation is as it was. */
  lemma RestoreKeepsMetadata(s: State, c: nat, seen: nat)
    requires CursorInv(s) && c < |s.convs|
    ensures RestoreTx(s, c, seen).convs == s.convs[c := s.convs[c].(deletedAt := None)]
    ensures CursorInv(RestoreTx(s, c, seen))
  {
    var next := RestoreTx(s, c, seen);
    assert MetadataIsLatest(s, c);
    LatestIgnoresStamps(s.msgs, next.msgs, c);
    StampsKeepCursors(s, next);
  }

  // A step that touches neither messages nor metadata of existing conversations.
  lemma SameMessagesKeepCursors(s: State, next: State)
    requires CursorInv(s) && next.msgs == s.msgs && |s.convs| <= |next.convs|
    requires forall d :: 0 <= d < |s.convs| ==>
               CursorsInside(next, d) && next.convs[d].lastProcessed == s.convs[d].lastProcessed
               && next.convs[d].lastMessageAt == s.convs[d].lastMessageAt
    requires forall d :: |s.convs| <= d < |next.convs| ==> CursorsInside(next, d) && next.convs[d].lastProcessed == 0
    requires forall k :: 0 <= k < |next.marks| ==>
               next.marks[k].conv < |s.convs| && next.marks[k].target <= s.convs[next.marks[k].conv].lastProcessed
    ensures CursorInv(next)
  {
    forall d | 0 <= d < |next.convs| ensures MetadataIsLatest(next, d) {
      if d < |s.convs| { assert MetadataIsLatest(s, d); }
    }
  }

  lemma CreateKeepsCursors(s: State, user1: string, user2: string, now: nat)
    requires CursorInv(s)
    ensures CursorInv(Step(s, Create(user1, user2, now)).0)
  {
    var next := Step(s, Create(user1, user2, now)).0;
    forall d | 0 <= d < |s.convs| ensures CursorsInside(next, d) { assert CursorsInside(s, d); }
    SameMessagesKeepCursors(s, next);
  }

  lemma MarkBeginKeepsCursors(s: State, user: string, c: nat, messageId: Seq)
    requires CursorInv(s)
    ensures CursorInv(MarkBeginStep(s, user, c, messageId).0)
  {
    var next := MarkBeginStep(s, user, c, messageId).0;
    forall d | 0 <= d < |s.convs| ensures CursorsInside(next, d) { assert CursorsInside(s, d); }
    SameMessagesKeepCursors(s, next);
  }

  lemma MarkCommitKeepsCursors(s: State, call: nat)
    requires CursorInv(s)
    ensures CursorInv(MarkCommitStep(s, call).0)
  {
    var next := MarkCommitStep(s, call).0;
    forall d | 0 <= d < |s.convs| ensures CursorsInside(next, d) { assert CursorsInside(s, d); }
    SameMessagesKeepCursors(s, next);
  }

  lemma StepKeepsCursors(s: State, op: Op)
    requires CursorInv(s) && Room(s, op)
    ensures CursorInv(Step(s, op).0)
  {
    match op
    case Send(c, sender, createdAt) => SendKeepsCursors(s, c, sender, createdAt);
    case Restore(user, c) =>
      if Step(s, op).0 != s { RestoreKeepsMetadata(s, c, s.convs[c].deletedAt.value); }
    case DeleteMessage(_, _, _) => DeletesKeepCursors(s, op);
    case DeleteConversation(_, _, _) => DeletesKeepCursors(s, op);
    case Create(user1, user2, now) => CreateKeepsCursors(s, user1, user2, now);
    case MarkBegin(user, c, messageId) => MarkBeginKeepsCursors(s, user, c, messageId);
    case MarkCommit(call) => MarkCommitKeepsCursors(s, call);
  }

  /** No cursor ever passes the largest message id of its conversation, over any
      run of sends, overlapping marks, deletes and restores. */
  lemma {:induction false} CursorsNeverPassTheLastMessage(s: State, ops: seq<Op>)
    requires CursorInv(s) && AllRoom(s, ops)
    ensures CursorInv(Run(s, ops))
    decreases |ops|
  {
    if ops != [] {
      StepKeepsCursors(s, ops[0]);
      CursorsNeverPassTheLastMessage(Step(s, ops[0]).0, ops[1..]);
    }
  }

  /** Every run from an empty database, with fresh cascade stamps and message ids that do
      not wrap, keeps both invariants. */
  lemma RunsFromEmpty(ops: seq<Op>)
    requires AllAllowed(Empty, ops) && AllRoom(Empty, ops)
    ensures Inv(Run(Empty, ops), RunTold(Empty, Told({}, map[]), ops)) && CursorInv(Run(Empty, ops))
  {
    VisibilityRefinesTheSpec(Empty, Told({}, map[]), ops);
    CursorsNeverPassTheLastMessage(Empty, ops);
  }

  function CursorOf(s: State, c: nat, user: string): Seq
    requires c < |s.convs|
  {
    if user == s.convs[c].user1 then s.convs[c].read1 else s.convs[c].read2
  }

  // The targets that the run's commits wrote for one user, in commit order.
  function Committed(s: State, ops: seq<Op>, c: nat, user: string): seq<Seq>
    decreases |ops|
  {
    if ops == [] then []
    else
      var (next, reply) := Step(s, ops[0]);
      var rest := Committed(next, ops[1..], c, user);
      if ops[0].MarkCommit? && reply.Cursor? && s.marks[ops[0].call].conv == c && s.marks[ops[0].call].user == user
      then [s.marks[ops[0].call].target] + rest
      else rest
  }

  ghost predicate IsMaxOf(x: Seq, base: Seq, targets: seq<Seq>) {
    base <= x && (forall t :: t in targets ==> t <= x) && (x == base || x in targets)
  }

  lemma StepMovesCursor(s: State, op: Op, c: nat, user: string)
    requires CursorInv(s) && Room(s, op) && c < |s.convs| && user in Members(s.convs[c])
    ensures var next := Step(s, op).0;
            && c < |next.convs| && user in Members(next.convs[c])
            && IsMaxOf(CursorOf(next, c, user), CursorOf(s, c, user), Committed(s, [op], c, user))
  {
    var next := Step(s, op).0;
    assert Committed(next, [op][1..], c, user) == [];
    if op.MarkCommit? {
      CommitMovesCursor(s, op.call, c, user);
    } else {
      assert Committed(s, [op], c, user) == [];
    }
  }

  lemma CommitMovesCursor(s: State, call: nat, c: nat, user: string)
    requires CursorInv(s) && c < |s.convs| && user in Members(s.convs[c])
    ensures var (next, reply) := MarkCommitStep(s, call);
            && c < |next.convs| && next.convs[c].user1 == s.convs[c].user1 && next.convs[c].user2 == s.convs[c].user2
            && CursorOf(next, c, user)
               == if reply.Cursor? && s.marks[call].conv == c && s.marks[call].user == user
                  then Max(CursorOf(s, c, user), s.marks[call].target)
                  else CursorOf(s, c, user)
  {
    assert CursorsInside(s, c);
  }

  /** Cursors only move forward, and overlapping marks converge: after any run a
      user's cursor is the maximum of where it was and of every target
      committed for that user, whatever the order of the commits. */
  lemma {:induction false} CursorConvergesToTheMaximum(s: State, ops: seq<Op>, c: nat, user: string)
    requires CursorInv(s) && AllRoom(s, ops) && c < |s.convs| && user in Members(s.convs[c])
    ensures c < |Run(s, ops).convs|
    ensures IsMaxOf(CursorOf(Run(s, ops), c, user), CursorOf(s, c, user), Committed(s, ops, c, user))
    decreases |ops|
  {
    if ops != [] {
      var op := ops[0];
      var next := Step(s, op).0;
      StepKeepsCursors(s, op);
      StepMovesCursor(s, op, c, user);
      CursorConvergesToTheMaximum(next, ops[1..], c, user);
      assert Committed(next, [op][1..], c, user) == [];
      assert Committed(s, ops, c, user) == Committed(s, [op], c, user) + Committed(next, ops[1..], c, user);
    }
  }

  /** A committed mark reports the caller's own cursor, not lower than the target. */
  lemma CommitReportsOwnCursor(s: State, call: nat)
    requires CursorInv(s) && call < |s.marks| && !s.marks[call].done && Live(s, s.marks[call].conv)
    requires s.marks[call].user in Members(s.convs[s.marks[call].conv])
    ensures var mark := s.marks[call];
            var (next, reply) := MarkCommitStep(s, call);
            && reply == Cursor(CursorOf(next, mark.conv, mark.user))
            && reply.cursor == Max(CursorOf(s, mark.conv, mark.user), mark.target)
  {
    assert CursorsInside(s, s.marks[call].conv);
  }

  // --------------------------------------------------------------------
  // What a caller sees
  // --------------------------------------------------------------------

  // A conversation that exists and is not deleted.
  ghost predicate Exists(s: State, c: nat) {
    c < |s.convs| && s.convs[c].deletedAt == None
  }

  // An empty second column names nobody.
  ghost predicate IsMember(c: Conv, user: string) {
    user == c.user1 || (user == c.user2 && user != "")
  }

  ghost predicate IsMissing(s: State, op: Op) {
    match op
    case Create(_, _, _) => false
    case Send(c, _, _) => !Exists(s, c)
    case DeleteMessage(_, m, _) => !(m < |s.msgs| && s.msgs[m].deletedAt == None && Exists(s, s.msgs[m].conv))
    case DeleteConversation(_, c, _) => !Exists(s, c)
    case Restore(_, c) => c >= |s.convs|
    case MarkBegin(_, c, _) => !Exists(s, c)
    case MarkCommit(call) => call < |s.marks| && !s.marks[call].done && !Exists(s, s.marks[call].conv)
  }

  ghost predicate IsDenied(s: State, op: Op) {
    match op
    case DeleteMessage(user, m, _) =>
      m < |s.msgs| && s.msgs[m].deletedAt == None && Exists(s, s.msgs[m].conv)
      && !(user == s.msgs[m].sender && IsMember(s.convs[s.msgs[m].conv], user))
    case DeleteConversation(user, c, _) => Exists(s, c) && !IsMember(s.convs[c], user)
    case Restore(user, c) => c < |s.convs| && !IsMember(s.convs[c], user)
    case MarkBegin(user, c, _) => Exists(s, c) && !IsMember(s.convs[c], user)
    case _ => false
  }

  ghost predicate IsInvalid(s: State, op: Op) {
    match op
    case Create(user1, user2, _) => user1 == user2 || user1 == "" || user2 == ""
    case MarkCommit(call) => !(call < |s.marks| && !s.marks[call].done)
    case _ => false
  }

  /** What is refused and why; a refused request changes nothing, but for the mark that is
      over when its conversation was deleted after it began. */
  lemma Refusals(s: State, op: Op)
    ensures var (next, reply) := Step(s, op);
            && (reply == NotFound <==> IsMissing(s, op)) && (reply == Denied <==> IsDenied(s, op))
            && (reply == Invalid <==> IsInvalid(s, op))
            && (reply in {NotFound, Denied, Invalid} ==>
                  next.convs == s.convs && next.msgs == s.msgs && (op.MarkCommit? || next.marks == s.marks))
  {
  }

  // The messages of c.
  function CountOf(msgs: seq<Msg>, c: nat): nat {
    if msgs == [] then 0 else CountOf(msgs[..|msgs| - 1], c) + if msgs[|msgs| - 1].conv == c then 1 else 0
  }

  // The messages of a conversation are numbered 1, 2, 3 and so on in the order they were
  // sent, deleted ones included, and the conversation knows the last number.
  ghost predicate Numbered(s: State) {
    && (forall m: nat :: m < |s.msgs| ==> s.msgs[m].messageId == CountOf(s.msgs[..m + 1], s.msgs[m].conv))
    && (forall c: nat :: c < |s.convs| ==> s.convs[c].lastProcessed == CountOf(s.msgs, c))
    && (forall m: nat :: m < |s.msgs| ==> s.msgs[m].conv < |s.convs|)
  }

  lemma {:induction false} CountIgnoresStamps(a: seq<Msg>, b: seq<Msg>, c: nat)
    requires |a| == |b| && forall i :: 0 <= i < |a| ==> a[i].conv == b[i].conv
    ensures CountOf(a, c) == CountOf(b, c)
  {
    if a != [] { CountIgnoresStamps(a[..|a| - 1], b[..|b| - 1], c); }
  }

  lemma {:induction false} NoneOfTheNext(msgs: seq<Msg>, c: nat)
    requires forall i :: 0 <= i < |msgs| ==> msgs[i].conv != c
    ensures CountOf(msgs, c) == 0
  {
    if msgs != [] { NoneOfTheNext(msgs[..|msgs| - 1], c); }
  }

  lemma SendNumbers(s: State, c: nat, sender: string, createdAt: nat)
    requires Numbered(s) && Room(s, Send(c, sender, createdAt))
    ensures Numbered(SendStep(s, c, sender, createdAt).0)
  {
    var next := SendStep(s, c, sender, createdAt).0;
    if Live(s, c) {
      assert next.msgs[..|s.msgs|] == s.msgs && next.msgs[..|next.msgs|] == next.msgs;
      forall m: nat | m < |next.msgs| ensures next.msgs[m].messageId == CountOf(next.msgs[..m + 1], next.msgs[m].conv) {
        if m < |s.msgs| { assert next.msgs[..m + 1] == s.msgs[..m + 1]; }
      }
    }
  }

  lemma StampsKeepNumbers(s: State, next: State)
    requires Numbered(s) && OnlyStampsDiffer(s, next)
    ensures Numbered(next)
  {
    forall m: nat | m < |s.msgs|
      ensures next.msgs[m].conv == s.msgs[m].conv && next.msgs[m].messageId == s.msgs[m].messageId
    {
      assert next.msgs[m].(deletedAt := None) == s.msgs[m].(deletedAt := None);
    }
    forall m: nat | m < |next.msgs| ensures next.msgs[m].messageId == CountOf(next.msgs[..m + 1], next.msgs[m].conv) {
      CountIgnoresStamps(next.msgs[..m + 1], s.msgs[..m + 1], s.msgs[m].conv);
    }
    forall c: nat | c < |next.convs| ensures next.convs[c].lastProcessed == CountOf(next.msgs, c) {
      assert next.convs[c].(deletedAt := None) == s.convs[c].(deletedAt := None);
      CountIgnoresStamps(next.msgs, s.msgs, c);
    }
  }

  lemma DeletesKeepNumbers(s: State, op: Op)
    requires Numbered(s) && (op.DeleteMessage? || op.DeleteConversation?)
    ensures Numbered(Step(s, op).0)
  {
    StampsKeepNumbers(s, Step(s, op).0);
  }

  lemma SameMessagesKeepNumbers(s: State, next: State)
    requires Numbered(s) && next.msgs == s.msgs && |s.convs| <= |next.convs|
    requires forall c :: 0 <= c < |s.convs| ==> next.convs[c].lastProcessed == s.convs[c].lastProcessed
    requires forall c :: |s.convs| <= c < |next.convs| ==> next.convs[c].lastProcessed == 0
    ensures Numbered(next)
  {
    forall c: nat | |s.convs| <= c < |next.convs| ensures CountOf(s.msgs, c) == 0 { NoneOfTheNext(s.msgs, c); }
  }

  lemma StepNumbers(s: State, op: Op)
    requires Numbered(s) && CursorInv(s) && Room(s, op)
    ensures Numbered(Step(s, op).0)
  {
    match op
    case Send(c, sender, createdAt) => SendNumbers(s, c, sender, createdAt);
    case Restore(user, c) =>
      if Step(s, op).0 != s {
        RestoreKeepsMetadata(s, c, s.convs[c].deletedAt.value);
        StampsKeepNumbers(s, Step(s, op).0);
      }
    case DeleteMessage(_, _, _) => DeletesKeepNumbers(s, op);
    case DeleteConversation(_, _, _) => DeletesKeepNumbers(s, op);
    case Create(_, _, _) => SameMessagesKeepNumbers(s, Step(s, op).0);
    case MarkBegin(_, _, _) => SameMessagesKeepNumbers(s, Step(s, op).0);
    case MarkCommit(_) => SameMessagesKeepNumbers(s, Step(s, op).0);
  }

  lemma {:induction false} RunNumbers(s: State, ops: seq<Op>)
    requires Numbered(s) && CursorInv(s) && AllRoom(s, ops)
    ensures Numbered(Run(s, ops))
    decreases |ops|
  {
    if ops != [] {
      StepNumbers(s, ops[0]);
      StepKeepsCursors(s, ops[0]);
      RunNumbers(Step(s, ops[0]).0, ops[1..]);
    }
  }

  /** Over every run from an empty database whose ids do not wrap, message ids have neither
      holes nor repetitions, whatever is deleted and restored in between. */
  lemma MessageIdsAreConsecutive(ops: seq<Op>)
    requires AllRoom(Empty, ops)
    ensures Numbered(Run(Empty, ops))
  {
    RunNumbers(Empty, ops);
  }

  /** A new message is the newest of its conversation, and it and the time of it are noted there. */
  lemma SendIs(s: State, c: nat, sender: string, createdAt: nat)
    requires Exists(s, c)
    ensures var (next, reply) := Step(s, Send(c, sender, createdAt));
            && |next.msgs| == |s.msgs| + 1 && next.msgs[..|s.msgs|] == s.msgs && next.marks == s.marks
            && var added, conv := next.msgs[|s.msgs|], next.convs[c];
               && added.conv == c && added.sender == sender && added.createdAt == createdAt && added.deletedAt == None
               && reply == Sent(added.messageId)
               && conv.lastProcessed == added.messageId && conv.lastMessageAt == createdAt
               && added.messageId == (if s.convs[c].lastProcessed == 0xFFFF_FFFF then 0
                                      else s.convs[c].lastProcessed + 1)
               && next.convs == s.convs[c := conv]
               && conv.(lastProcessed := 0, lastMessageAt := 0) == s.convs[c].(lastProcessed := 0, lastMessageAt := 0)
  {
  }

  lemma CreateIs(s: State, user1: string, user2: string, now: nat)
    requires user1 != user2 && user1 != "" && user2 != ""
    ensures var (next, reply) := Step(s, Create(user1, user2, now));
            && reply == Created(|s.convs|) && |next.convs| == |s.convs| + 1 && next.convs[..|s.convs|] == s.convs
            && next.msgs == s.msgs && next.marks == s.marks
            && var added := next.convs[|s.convs|];
               && added.user1 == user1 && added.user2 == user2 && added.deletedAt == None && added.lastMessageAt == now
               && added.lastProcessed == added.read1 == added.read2 == 0
  {
  }

  /** A delete marks the conversation and its visible messages with one stamp, the time cut to
      the millisecond, and reports how many messages that were. */
  lemma DeleteStamps(s: State, user: string, c: nat, now: nat)
    requires Exists(s, c) && IsMember(s.convs[c], user)
    ensures var (next, reply) := Step(s, DeleteConversation(user, c, now));
            && next.convs[c].deletedAt.Some? && next.marks == s.marks && |next.msgs| == |s.msgs|
            && var stamp := next.convs[c].deletedAt.value;
               && stamp <= now < stamp + 1_000_000 && stamp % 1_000_000 == 0
               && next.convs == s.convs[c := s.convs[c].(deletedAt := Some(stamp))]
               && (forall m :: 0 <= m < |s.msgs| ==>
                   next.msgs[m] == if s.msgs[m].conv == c && s.msgs[m].deletedAt == None
                                                                    then s.msgs[m].(deletedAt := Some(stamp))
                                                                    else s.msgs[m])
               && reply == Count(|set m: nat | m < |s.msgs| && s.msgs[m].conv == c && s.msgs[m].deletedAt == None|)
  {
  }

  // The newest message of c, deleted ones included.
  ghost predicate IsNewest(msgs: seq<Msg>, c: nat, m: nat) {
    && m < |msgs| && msgs[m].conv == c
    && forall i :: 0 <= i < |msgs| && msgs[i].conv == c ==> msgs[i].messageId <= msgs[m].messageId
  }

  /** A restore of a deleted conversation brings back the messages with its stamp, reports how many,
      and reads the metadata from the newest message; of a live one it does nothing. */
  lemma RestoreIs(s: State, user: string, c: nat)
    requires c < |s.convs| && IsMember(s.convs[c], user)
    ensures var (next, reply) := Step(s, Restore(user, c));
            var stamp := s.convs[c].deletedAt;
            if stamp == None then next == s && reply == Count(0)
            else
              && |next.msgs| == |s.msgs| && next.marks == s.marks && next.convs == s.convs[c := next.convs[c]]
              && (forall m :: 0 <= m < |s.msgs| ==>
                  next.msgs[m] == if s.msgs[m].conv == c && s.msgs[m].deletedAt == stamp
                                                                   then s.msgs[m].(deletedAt := None)
                                                                   else s.msgs[m])
              && reply == Count(|set m: nat | m < |s.msgs| && s.msgs[m].conv == c && s.msgs[m].deletedAt == stamp|)
              && Exists(next, c)
              && next.convs[c].(deletedAt := stamp, lastProcessed := 0, lastMessageAt := 0)
                 == s.convs[c].(lastProcessed := 0, lastMessageAt := 0)
              && if exists m :: 0 <= m < |s.msgs| && s.msgs[m].conv == c then
                   exists m: nat :: IsNewest(next.msgs, c, m) && next.convs[c].lastProcessed == next.msgs[m].messageId
                               && next.convs[c].lastMessageAt == next.msgs[m].createdAt
                 else
                   next.convs[c].lastProcessed == s.convs[c].lastProcessed
                   && next.convs[c].lastMessageAt == s.convs[c].lastMessageAt
  {
    if s.convs[c].deletedAt.Some? {
      var next := Step(s, Restore(user, c)).0;
      var latest := Latest(next.msgs, c);
      if latest.Some? { assert IsNewest(next.msgs, c, latest.value) && s.msgs[latest.value].conv == c; }
      if m :| 0 <= m < |s.msgs| && s.msgs[m].conv == c { assert next.msgs[m].conv == c; }
    }
  }

  /** mark_as_read without interruption: the caller's cursor goes to the message that was asked
      for, to the last one when none was named or it lies beyond, and never back. */
  lemma MarkAsReadIs(s: State, user: string, c: nat, messageId: Seq)
    requires Exists(s, c) && IsMember(s.convs[c], user)
    ensures var (begun, first) := Step(s, MarkBegin(user, c, messageId));
            && first == Begun(|s.marks|)
            && var (next, reply) := Step(begun, MarkCommit(first.call));
               var conv, last := s.convs[c], s.convs[c].lastProcessed;
               var wanted := if messageId == 0 || messageId > last then last else messageId;
               && next.msgs == s.msgs
               && (conv.user1 == user && conv.user2 != user ==>
                     && next.convs == s.convs[c := conv.(read1 := if wanted > conv.read1 then wanted else conv.read1)]
                     && reply == Cursor(next.convs[c].read1))
               && (conv.user1 != user ==>
                     && next.convs == s.convs[c := conv.(read2 := if wanted > conv.read2 then wanted else conv.read2)]
                     && reply == Cursor(next.convs[c].read2))
  {
  }

  /** A mark is used up by its commit, written or not, and no commit touches another mark. */
  lemma CommitsOnce(s: State, call: nat)
    requires call < |s.marks|
    ensures var next := Step(s, MarkCommit(call)).0;
            && next.marks == s.marks[call := Mark(s.marks[call].user, s.marks[call].conv, s.marks[call].target, true)]
            && Step(next, MarkCommit(call)) == (next, Invalid)
  {
  }

  // --------------------------------------------------------------------
  // The handlers
  // --------------------------------------------------------------------

  class Handlers {
    var db: State

    constructor ()
      ensures db == Empty
    {
      db := Empty;
    }

    method SendMessage(c: nat, sender: string, createdAt: nat) returns (reply: Reply)
      modifies this
      ensures (db, reply) == Step(old(db), Send(c, sender, createdAt))
    {
      if !Live(db, c) { return NotFound; }
      var conv := db.convs[c];
      var id := (conv.lastProcessed + 1) % MODULUS;
      db := db.(msgs := db.msgs + [Msg(c, id, sender, createdAt, None)]);
      db := db.(convs := db.convs[c := conv.(lastMessageAt := createdAt, lastProcessed := id)]);
      return Sent(id);
    }

    method HandleDeleteMessage(user: string, m: nat, now: nat) returns (reply: Reply)
      modifies this
      ensures (db, reply) == Step(old(db), DeleteMessage(user, m, now))
    {
      if !Visible(db, m) { return NotFound; }
      var msg := db.msgs[m];
      if !Live(db, msg.conv) { return NotFound; }
      if user !in Members(db.convs[msg.conv]) { return Denied; }
      if msg.sender != user { return Denied; }
      db := db.(msgs := db.msgs[m := msg.(deletedAt := Some(now))]);
      return Deleted;
    }

    method HandleDeleteConversation(user: string, c: nat, now: nat) returns (reply: Reply)
      modifies this
      ensures (db, reply) == Step(old(db), DeleteConversation(user, c, now))
    {
      if !Live(db, c) { return NotFound; }
      if user !in Members(db.convs[c]) { return Denied; }
      var t := Truncated(now);
      var count := |WithStamp(db.msgs, c, None)|;
      db := db.(convs := db.convs[c := db.convs[c].(deletedAt := Some(t))]);
      db := db.(msgs := Stamped(db.msgs, c, t));
      return Count(count);
    }

    method HandleRestoreConversation(user: string, c: nat) returns (reply: Reply)
      modifies this
      ensures (db, reply) == Step(old(db), Restore(user, c))
    {
      if c >= |db.convs| { return NotFound; }
      var conv := db.convs[c];
      if user !in Members(conv) { return Denied; }
      if conv.deletedAt.None? { return Count(0); }
      db := db.(convs := db.convs[c := conv.(deletedAt := None)]);
      var restored := |WithStamp(db.msgs, c, conv.deletedAt)|;
      db := db.(msgs := Unstamped(db.msgs, c, conv.deletedAt.value));
      var latest := Latest(db.msgs, c);
      if latest.Some? {
        var msg := db.msgs[latest.value];
        db := db.(convs := db.convs[c := db.convs[c].(lastProcessed := msg.messageId, lastMessageAt := msg.createdAt)]);
      }
      assert db.convs == RestoreTx(old(db), c, conv.deletedAt.value).convs;
      return Count(restored);
    }

    /** One uninterrupted mark_as_read: the two steps of the machine in a row. */
    method HandleMarkAsRead(user: string, c: nat, messageId: Seq) returns (reply: Reply)
      modifies this
      ensures var (begun, first) := Step(old(db), MarkBegin(user, c, messageId));
              (db, reply) == if first.Begun? then Step(begun, MarkCommit(first.call)) else (begun, first)
    {
      if !Live(db, c) { return NotFound; }
      var conv := db.convs[c];
      if user !in Members(conv) { return Denied; }
      var target := messageId;
      if target == 0 { target := conv.lastProcessed; }
      if target > conv.lastProcessed { target := conv.lastProcessed; }
      db := db.(marks := db.marks + [Mark(user, c, target, true)]);
      assert db.marks
          == (old(db).marks + [Mark(user, c, target, false)])[|old(db).marks| := Mark(user, c, target, true)];
      db := db.(convs := db.convs[c := WithCursor(conv, user, target)]);
      return Cursor(ReportedCursor(db.convs[c], user));
    }
  }
}
