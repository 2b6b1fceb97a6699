/** The worker that resumes a paused agent run once its remote callings are answered:
    every exit path, and what each leaves of the idempotency keys, the
    conversation's status, the calls, the checkpoint and the lock. */
module ResumeWorker {
  import opened Option
  import opened RemoteCalling
  import opened TaskLock

  datatype AgentStatus = Idle | AskingUser | ToolCalling

  // live: not soft-deleted. Status updates do not reach a soft-deleted conversation.
  datatype Conv = Conv(status: AgentStatus, agent: string, checkpoint: CheckpointId, live: bool)

  // keys: the resume keys and the conversation locks. order: the calls' ids in
  // creation order. done is history: the checkpoints that were marked processed.
  datatype World = World(keys: Keys, convs: map<ConversationId, Conv>, rows: Table, order: seq<RcId>,
                         checkpoints: set<CheckpointId>, done: set<CheckpointId>)

  // How the agent run goes on from its checkpoint.
  datatype AgentRun =
    | ResumeFails(notFound: bool, transient: bool)
    | StreamFails(transient: bool)
    | InterruptsAgain(call: string, interruptId: string)
    | Finishes

  // One delivery of a resume task, by the process whose lock token is token.
  datatype Delivery = Delivery(conv: ConversationId, checkpoint: CheckpointId, agent: string, token: nat,
                               agentKnown: bool, built: bool, run: AgentRun, elapsed: nat,
                               rowId: RcId, expiresAt: nat)

  datatype End = Skipped | Finished | Waiting | Untouched | Retried

  // --------------------------------------------------------------------
  // The calls of a checkpoint
  // --------------------------------------------------------------------

  function CallsOf(w: World, k: CheckpointId): seq<Row> {
    Listed(w.rows, w.order, k)
  }

  // SELECT ... WHERE checkpoint_id = ? ORDER BY created_at, deleted rows excluded
  function Listed(rows: Table, order: seq<RcId>, k: CheckpointId): seq<Row> {
    if order == [] then []
    else
      var rest, id := Listed(rows, order[..|order| - 1], k), order[|order| - 1];
      if id in rows && rows[id].checkpoint == k && !rows[id].deleted then rest + [rows[id]] else rest
  }

  // The result column: it stays empty when the call was resolved with an error.
  function ResultOf(r: Row): string {
    if r.success then r.answer else ""
  }

  // Later calls of the same interrupt id replace earlier ones.
  function Targets(calls: seq<Row>): map<string, string> {
    if calls == [] then map[]
    else
      var rest, r := Targets(calls[..|calls| - 1]), calls[|calls| - 1];
      if r.status == Resolved && r.interruptId != "" then rest[r.interruptId := ResultOf(r)] else rest
  }

  // There are calls, and every one was given up.
  predicate AllGone(calls: seq<Row>) {
    calls != [] && forall i :: 0 <= i < |calls| ==> calls[i].status == Expired || calls[i].status == Cancelled
  }

  // The calls of k that a resume reads: not deleted, and in the order of their creation.
  ghost predicate IsCallOf(rows: Table, order: seq<RcId>, i: nat, k: CheckpointId) {
    i < |order| && order[i] in rows && rows[order[i]].checkpoint == k && !rows[order[i]].deleted
  }

  // at gives the positions in the creation order, ascending and complete.
  ghost predicate ListedAt(calls: seq<Row>, rows: Table, order: seq<RcId>, k: CheckpointId, at: seq<nat>) {
    && |at| == |calls| && (forall i, j :: 0 <= i < j < |at| ==> at[i] < at[j])
    && (forall i :: 0 <= i < |at| ==> IsCallOf(rows, order, at[i], k) && calls[i] == rows[order[at[i]]])
    && (forall i: nat :: IsCallOf(rows, order, i, k) ==> i in at)
  }

  lemma LastIsListed(front: seq<Row>, rows: Table, order: seq<RcId>, k: CheckpointId, at: seq<nat>)
    requires order != [] && ListedAt(front, rows, order[..|order| - 1], k, at)
    ensures var n := |order| - 1;
            if IsCallOf(rows, order, n, k) then ListedAt(front + [rows[order[n]]], rows, order, k, at + [n])
            else ListedAt(front, rows, order, k, at)
  {
    var n := |order| - 1;
    forall i: nat ensures IsCallOf(rows, order, i, k)
                          <==> IsCallOf(rows, order[..n], i, k) || (i == n && IsCallOf(rows, order, n, k)) {
    }
  }

  /** A resume reads exactly the undeleted calls of its checkpoint, each once, oldest first. */
  lemma {:induction false} CallsAreListed(rows: Table, order: seq<RcId>, k: CheckpointId) returns (at: seq<nat>)
    ensures ListedAt(Listed(rows, order, k), rows, order, k, at)
  {
    if order == [] {
      at := [];
    } else {
      var n := |order| - 1;
      at := CallsAreListed(rows, order[..n], k);
      LastIsListed(Listed(rows, order[..n], k), rows, order, k, at);
      if IsCallOf(rows, order, n, k) { at := at + [n]; }
    }
  }

  // One of the calls was resolved, and gives this text for the interrupt.
  ghost predicate Gives(calls: seq<Row>, x: string, text: string) {
    exists r :: r in calls && r.status == Resolved && r.interruptId == x && x != "" && text == ResultOf(r)
  }

  lemma {:induction false} TargetsAreResolved(calls: seq<Row>)
    ensures forall x :: x in Targets(calls) ==> Gives(calls, x, Targets(calls)[x])
    ensures forall r :: r in calls && r.status == Resolved && r.interruptId != "" ==> r.interruptId in Targets(calls)
  {
    if calls != [] {
      var front, last := calls[..|calls| - 1], calls[|calls| - 1];
      TargetsAreResolved(front);
      assert calls == front + [last];
      forall x | x in Targets(calls) ensures Gives(calls, x, Targets(calls)[x]) {
        if last.status == Resolved && last.interruptId == x && x != "" {
          assert last in calls;
        } else {
          assert Gives(front, x, Targets(front)[x]);
          var r :| r in front && r.status == Resolved && r.interruptId == x && x != ""
              && Targets(front)[x] == ResultOf(r);
          assert r in calls;
        }
      }
    }
  }

  // The newest resolved call for the interrupt is the one at i, and this is its text.
  ghost predicate LatestOf(calls: seq<Row>, i: nat, x: string, text: string) {
    && i < |calls| && calls[i].status == Resolved && calls[i].interruptId == x && x != ""
    && text == (if calls[i].success then calls[i].answer else "")
    && forall j :: i < j < |calls| ==> !(calls[j].status == Resolved && calls[j].interruptId == x)
  }

  lemma LatestOfLonger(calls: seq<Row>, x: string, text: string)
    requires calls != []
    ensures var n := |calls| - 1;
            (exists i :: LatestOf(calls, i, x, text))
            <==> if calls[n].status == Resolved && calls[n].interruptId == x then LatestOf(calls, n, x, text)
                 else exists i :: LatestOf(calls[..n], i, x, text)
  {
    var n := |calls| - 1;
    if !(calls[n].status == Resolved && calls[n].interruptId == x) {
      forall i: nat ensures LatestOf(calls, i, x, text) <==> LatestOf(calls[..n], i, x, text) {
      }
    }
  }

  lemma {:induction false} TargetsAreLatest(calls: seq<Row>, x: string, text: string)
    ensures x in Targets(calls) && Targets(calls)[x] == text <==> exists i :: LatestOf(calls, i, x, text)
  {
    if calls != [] {
      TargetsAreLatest(calls[..|calls| - 1], x, text);
      LatestOfLonger(calls, x, text);
    }
  }

  // The same in terms of the rows: the newest undeleted resolved call of k for the interrupt.
  ghost predicate LatestAnswer(rows: Table, order: seq<RcId>, k: CheckpointId, i: nat, x: string, text: string) {
    && IsCallOf(rows, order, i, k) && rows[order[i]].status == Resolved && rows[order[i]].interruptId == x && x != ""
    && text == (if rows[order[i]].success then rows[order[i]].answer else "")
    && forall j: nat :: i < j && IsCallOf(rows, order, j, k) ==>
         !(rows[order[j]].status == Resolved && rows[order[j]].interruptId == x)
  }

  // The checkpoint has calls, and every one of them expired or was cancelled.
  ghost predicate OnlyGivenUp(rows: Table, order: seq<RcId>, k: CheckpointId) {
    && (exists i: nat :: IsCallOf(rows, order, i, k))
    && forall i: nat :: IsCallOf(rows, order, i, k) ==>
         rows[order[i]].status == Expired || rows[order[i]].status == Cancelled
  }

  lemma GoneHaveNoTargets(calls: seq<Row>)
    requires AllGone(calls)
    ensures Targets(calls) == map[]
  {
    TargetsAreResolved(calls);
    assert forall x, text :: !Gives(calls, x, text);
  }

  lemma GoneInTheRows(calls: seq<Row>, rows: Table, order: seq<RcId>, k: CheckpointId, at: seq<nat>)
    requires ListedAt(calls, rows, order, k, at)
    ensures AllGone(calls) <==> OnlyGivenUp(rows, order, k)
  {
    if AllGone(calls) {
      assert IsCallOf(rows, order, at[0], k);
      forall i: nat | IsCallOf(rows, order, i, k)
        ensures rows[order[i]].status == Expired || rows[order[i]].status == Cancelled
      {
        var l :| 0 <= l < |at| && at[l] == i;
        assert calls[l] == rows[order[i]];
      }
    }
    if OnlyGivenUp(rows, order, k) {
      var i: nat :| IsCallOf(rows, order, i, k);
      assert i in at;
      forall l | 0 <= l < |calls| ensures calls[l].status == Expired || calls[l].status == Cancelled {
        assert IsCallOf(rows, order, at[l], k);
      }
    }
  }

  // What the worker reads for k, and what the rows say.
  lemma CallsSayWhatRowsSay(rows: Table, order: seq<RcId>, k: CheckpointId)
    ensures AllGone(Listed(rows, order, k)) <==> OnlyGivenUp(rows, order, k)
    ensures AllGone(Listed(rows, order, k)) ==> Targets(Listed(rows, order, k)) == map[]
  {
    var at := CallsAreListed(rows, order, k);
    GoneInTheRows(Listed(rows, order, k), rows, order, k, at);
    if AllGone(Listed(rows, order, k)) { GoneHaveNoTargets(Listed(rows, order, k)); }
  }

  // The call at i of the list is the row at its position.
  lemma LatestAtPosition(calls: seq<Row>, rows: Table, order: seq<RcId>, k: CheckpointId, at: seq<nat>, i: nat,
                         x: string, text: string)
    requires ListedAt(calls, rows, order, k, at) && i < |calls|
    ensures LatestOf(calls, i, x, text) <==> LatestAnswer(rows, order, k, at[i], x, text)
  {
    assert IsCallOf(rows, order, at[i], k) && calls[i] == rows[order[at[i]]];
    if LatestOf(calls, i, x, text) {
      forall j: nat | at[i] < j && IsCallOf(rows, order, j, k)
        ensures !(rows[order[j]].status == Resolved && rows[order[j]].interruptId == x)
      {
        var l :| 0 <= l < |at| && at[l] == j;
        assert i < l && calls[l] == rows[order[j]];
      }
    }
    if LatestAnswer(rows, order, k, at[i], x, text) {
      forall l | i < l < |calls| ensures !(calls[l].status == Resolved && calls[l].interruptId == x) {
        assert IsCallOf(rows, order, at[l], k) && calls[l] == rows[order[at[l]]];
      }
    }
  }

  // And the row at i stands somewhere in the list.
  lemma LatestHasAPlace(calls: seq<Row>, rows: Table, order: seq<RcId>, k: CheckpointId, at: seq<nat>, i: nat,
                        x: string, text: string) returns (l: nat)
    requires ListedAt(calls, rows, order, k, at) && LatestAnswer(rows, order, k, i, x, text)
    ensures LatestOf(calls, l, x, text)
  {
    assert IsCallOf(rows, order, i, k);
    l :| 0 <= l < |at| && at[l] == i;
    LatestAtPosition(calls, rows, order, k, at, l, x, text);
  }

  ghost predicate SomeLatestOf(calls: seq<Row>, x: string, text: string) {
    exists i: nat :: LatestOf(calls, i, x, text)
  }

  ghost predicate SomeLatestAnswer(rows: Table, order: seq<RcId>, k: CheckpointId, x: string, text: string) {
    exists i: nat :: LatestAnswer(rows, order, k, i, x, text)
  }

  lemma LatestInTheRows(rows: Table, order: seq<RcId>, k: CheckpointId, x: string, text: string)
    ensures SomeLatestOf(Listed(rows, order, k), x, text) <==> SomeLatestAnswer(rows, order, k, x, text)
  {
    var calls := Listed(rows, order, k);
    var at := CallsAreListed(rows, order, k);
    if SomeLatestOf(calls, x, text) {
      var i: nat :| LatestOf(calls, i, x, text);
      LatestAtPosition(calls, rows, order, k, at, i, x, text);
    }
    if SomeLatestAnswer(rows, order, k, x, text) {
      var i: nat :| LatestAnswer(rows, order, k, i, x, text);
      var l := LatestHasAPlace(calls, rows, order, k, at, i, x, text);
    }
  }

  // What the agent is resumed with, when it is resumed at all.
  function Told(w: World, d: Delivery): Option<map<string, string>> {
    if !d.agentKnown || !d.built || (Targets(CallsOf(w, d.checkpoint)) == map[] && AllGone(CallsOf(w, d.checkpoint)))
    then None
    else Some(Targets(CallsOf(w, d.checkpoint)))
  }

  /** The agent is resumed exactly when it is known, can be built and some call is not given
      up, and then it is told for each interrupt the newest resolved answer of its own
      checkpoint, and nothing else. */
  lemma AgentIsTold(w: World, d: Delivery, x: string, text: string)
    ensures Told(w, d).Some? <==> d.agentKnown && d.built && !OnlyGivenUp(w.rows, w.order, d.checkpoint)
    ensures Told(w, d).Some? ==>
              (x in Told(w, d).value && Told(w, d).value[x] == text
               <==> exists i :: LatestAnswer(w.rows, w.order, d.checkpoint, i, x, text))
  {
    CallsSayWhatRowsSay(w.rows, w.order, d.checkpoint);
    TargetsAreLatest(CallsOf(w, d.checkpoint), x, text);
    LatestInTheRows(w.rows, w.order, d.checkpoint, x, text);
  }

  /** No resolved call with an interrupt id is forgotten. */
  lemma EveryResolvedCallIsTold(w: World, d: Delivery, i: nat)
    requires Told(w, d).Some? && IsCallOf(w.rows, w.order, i, d.checkpoint)
    requires w.rows[w.order[i]].status == Resolved && w.rows[w.order[i]].interruptId != ""
    ensures w.rows[w.order[i]].interruptId in Told(w, d).value
  {
    var at := CallsAreListed(w.rows, w.order, d.checkpoint);
    assert i in at;
    TargetsAreResolved(CallsOf(w, d.checkpoint));
  }

  ghost predicate DistinctInterrupts(calls: seq<Row>) {
    forall i, j :: 0 <= i < j < |calls| ==> calls[i].interruptId != calls[j].interruptId
  }

  /** With distinct interrupt ids the agent is given what the client answered exactly for
      successful calls: the message of a failed call does not reach it. */
  lemma AgentSeesTheAnswerIff(calls: seq<Row>, r: Row)
    requires DistinctInterrupts(calls) && r in calls && r.status == Resolved && r.interruptId != ""
    ensures r.interruptId in Targets(calls)
    ensures Targets(calls)[r.interruptId] == r.answer <==> r.success || r.answer == ""
  {
    TargetsAreResolved(calls);
    assert Gives(calls, r.interruptId, Targets(calls)[r.interruptId]);
    var q :| q in calls && q.interruptId == r.interruptId && Targets(calls)[r.interruptId] == ResultOf(q);
    var i :| 0 <= i < |calls| && calls[i] == q;
    var j :| 0 <= j < |calls| && calls[j] == r;
    assert i == j;
  }

  // --------------------------------------------------------------------
  // The exit paths
  // --------------------------------------------------------------------

  // Scoped to live conversations; whatever the conversation was waiting for.
  function StatusCleared(convs: map<ConversationId, Conv>, c: ConversationId): map<ConversationId, Conv> {
    if c in convs && convs[c].live then convs[c := Conv(Idle, "", "", true)] else convs
  }

  function CleanedUp(w: World, d: Delivery): World {
    w.(convs := StatusCleared(w.convs, d.conv), rows := DeleteByCheckpoint(w.rows, d.checkpoint),
       checkpoints := w.checkpoints - {d.checkpoint})
  }

  function Unlocked(w: World, d: Delivery): World {
    w.(keys := w.keys.Release(d.conv, d.token))
  }

  function Reopened(w: World, d: Delivery): World {
    w.(keys := w.keys.DeleteProcessing(d.checkpoint))
  }

  function MarkedDone(w: World, d: Delivery): World {
    w.(keys := w.keys.MarkProcessed(d.checkpoint), done := w.done + {d.checkpoint})
  }

  // A failure that no retry can mend.
  function GivenUp(w: World, d: Delivery): World {
    Unlocked(MarkedDone(Reopened(CleanedUp(w, d), d), d), d)
  }

  function Completed(w: World, d: Delivery): World {
    Unlocked(CleanedUp(Reopened(MarkedDone(w, d), d), d), d)
  }

  // A failure that leaves the calls and the checkpoint for another attempt.
  function LeftAlone(w: World, d: Delivery, transient: bool): World {
    Unlocked(if transient then Reopened(w, d) else w, d)
  }

  predicate IsClientFunction(call: string) {
    call != "" && call != "ask_user"
  }

  function NewCall(d: Delivery, call: string, interruptId: string): Row {
    Row(d.checkpoint, Pending, Some(d.expiresAt), false, "", false,
        if IsClientFunction(call) then call else "ask_user", interruptId)
  }

  predicate LiveConv(w: World, c: ConversationId) {
    c in w.convs && w.convs[c].live
  }

  // The run paused again: the lock stays, and the same checkpoint may be resumed at once.
  function PausedAgain(w: World, d: Delivery, call: string, interruptId: string): World {
    var status := if IsClientFunction(call) then ToolCalling else AskingUser;
    Reopened(w.(convs := w.convs[d.conv := Conv(status, d.agent, d.checkpoint, true)],
                rows := w.rows[d.rowId := NewCall(d, call, interruptId)], order := w.order + [d.rowId]), d)
  }

  // Marked in progress, lock taken or already there, and the time the run took.
  function Started(w: World, d: Delivery): World {
    var keys := w.keys.MarkProcessing(d.checkpoint).Acquire(d.conv, d.token, d.token).0;
    w.(keys := keys.(now := keys.now + d.elapsed))
  }

  predicate Skips(w: World, d: Delivery) {
    w.keys.Processed(d.checkpoint) || w.keys.Processing(d.checkpoint)
  }

  // Everything after the marks and the lock.
  function Execute(v: World, d: Delivery): (World, End) {
    if !d.agentKnown || !d.built || (Targets(CallsOf(v, d.checkpoint)) == map[] && AllGone(CallsOf(v, d.checkpoint)))
    then (GivenUp(v, d), Finished)
    else
      match d.run
      case ResumeFails(notFound, transient) =>
        if notFound then (LeftAlone(GivenUp(v, d), d, transient), Finished) else (LeftAlone(v, d, transient), Untouched)
      case StreamFails(transient) => (LeftAlone(v, d, transient), Untouched)
      case InterruptsAgain(call, interruptId) =>
        if LiveConv(v, d.conv) then (PausedAgain(v, d, call, interruptId), Waiting) else (Unlocked(v, d), Retried)
      case Finishes => (Completed(v, d), Finished)
  }

  function Handle(w: World, d: Delivery): (World, End) {
    if Skips(w, d) then (w, Skipped) else Execute(Started(w, d), d)
  }

  // --------------------------------------------------------------------
  // What an executed resume leaves
  // --------------------------------------------------------------------

  // Processed, idle, calls and checkpoint gone, and not in progress.
  ghost predicate IsFinished(w: World, w': World, d: Delivery) {
    && w'.keys.Processed(d.checkpoint) && d.checkpoint in w'.done && d.checkpoint !in w'.keys.processing
    && w'.convs == (if d.conv in w.convs && w.convs[d.conv].live then w.convs[d.conv := Conv(Idle, "", "", true)]
                    else w.convs)
    && CallsGone(w'.rows, d.checkpoint) && d.checkpoint !in w'.checkpoints
  }

  ghost predicate CallsGone(rows: Table, k: CheckpointId) {
    forall id :: id in rows && rows[id].checkpoint == k ==> rows[id].deleted
  }

  // The conversation waits, for the user or for a client's function.
  ghost predicate WaitsFor(w: World, d: Delivery, call: string) {
    && LiveConv(w, d.conv) && w.convs[d.conv].checkpoint == d.checkpoint && w.convs[d.conv].agent == d.agent
    && (w.convs[d.conv].status == AskingUser <==> call == "" || call == "ask_user")
    && (w.convs[d.conv].status == ToolCalling <==> call != "" && call != "ask_user")
  }

  // One call more: pending, unanswered, with its deadline, and last in the order.
  ghost predicate Asks(w: World, w': World, d: Delivery, call: string, interruptId: string) {
    && d.rowId !in w.rows && d.rowId in w'.rows && w'.rows == w.rows[d.rowId := w'.rows[d.rowId]]
    && w'.order == w.order + [d.rowId]
    && PendingOf(w'.rows, d.checkpoint) == PendingOf(w.rows, d.checkpoint) + {d.rowId}
    && var r := w'.rows[d.rowId];
       && r.Claimable() && r.expiresAt == Some(d.expiresAt) && r.answer == "" && !r.success
       && r.call == (if call == "" then "ask_user" else call) && r.interruptId == interruptId
  }

  // Waiting for exactly one new call more, with the way open for the next resume.
  ghost predicate IsWaiting(w: World, w': World, d: Delivery) {
    && d.run.InterruptsAgain? && WaitsFor(w', d, d.run.call) && Asks(w, w', d, d.run.call, d.run.interruptId)
    && !w'.keys.Processed(d.checkpoint) && d.checkpoint !in w'.keys.processing
    && w'.checkpoints == w.checkpoints
  }

  // Not processed, and conversation, calls and checkpoint as they were.
  ghost predicate IsUntouched(w: World, w': World, d: Delivery) {
    && !w'.keys.Processed(d.checkpoint) && w'.done == w.done
    && w'.convs == w.convs && w'.rows == w.rows && w'.checkpoints == w.checkpoints
  }

  // New ids are fresh, and without its checkpoint a run cannot be resumed.
  ghost predicate Possible(w: World, d: Delivery) {
    d.rowId !in w.rows && (d.checkpoint !in w.checkpoints ==> d.run.ResumeFails?)
  }

  // Starting touches the in-progress key, the lock and the clock.
  lemma StartedKeepsTheRest(w: World, d: Delivery)
    ensures var v := Started(w, d);
            && v.convs == w.convs && v.rows == w.rows && v.order == w.order
            && v.checkpoints == w.checkpoints && v.done == w.done
            && v.keys.processed == w.keys.processed && v.keys.now >= w.keys.now
            && (!Skips(w, d) ==> !v.keys.Processed(d.checkpoint))
  {
  }

  lemma GivingUpFinishes(w: World, d: Delivery, transient: bool)
    ensures IsFinished(w, GivenUp(w, d), d) && IsFinished(w, LeftAlone(GivenUp(w, d), d, transient), d)
    ensures IsFinished(w, Completed(w, d), d)
  {
  }

  lemma PausingWaits(w: World, d: Delivery, call: string, interruptId: string)
    requires LiveConv(w, d.conv) && d.rowId !in w.rows && !w.keys.Processed(d.checkpoint)
    requires d.run == InterruptsAgain(call, interruptId)
    ensures IsWaiting(w, PausedAgain(w, d, call, interruptId), d)
  {
    var w' := PausedAgain(w, d, call, interruptId);
    assert PendingOf(w'.rows, d.checkpoint) == PendingOf(w.rows, d.checkpoint) + {d.rowId};
  }

  // The condition under which a resume ends for good.
  ghost predicate EndsForGood(w: World, d: Delivery) {
    || !d.agentKnown || !d.built || OnlyGivenUp(w.rows, w.order, d.checkpoint)
    || d.run == Finishes || (d.run.ResumeFails? && d.run.notFound)
  }

  /** Every resume that is executed ends in exactly one of three ways, and each for its
      own reason: finished; waiting again; or failed with everything but the
      idempotency key and the lock untouched. A deleted conversation is never changed. */
  lemma EveryResumeEndsOneWay(w: World, d: Delivery)
    requires !Skips(w, d) && Possible(w, d)
    ensures var (w', end) := Handle(w, d);
            && (IsFinished(w, w', d) <==> EndsForGood(w, d)) && (end == Finished <==> EndsForGood(w, d))
            && (end == Waiting <==> IsWaiting(w, w', d)) && end != Skipped
            && (end == Retried <==> !EndsForGood(w, d) && d.run.InterruptsAgain? && !LiveConv(w, d.conv))
            && (IsWaiting(w, w', d) <==> !EndsForGood(w, d) && d.run.InterruptsAgain? && LiveConv(w, d.conv))
            && (IsUntouched(w, w', d) <==>
                 !EndsForGood(w, d) && (d.run.InterruptsAgain? ==> !LiveConv(w, d.conv)))
  {
    var v := Started(w, d);
    StartedKeepsTheRest(w, d);
    CallsSayWhatRowsSay(w.rows, w.order, d.checkpoint);
    if EndsForGood(w, d) {
      GivingUpFinishes(v, d, d.run.ResumeFails? && d.run.transient);
    } else if d.run.InterruptsAgain? && LiveConv(w, d.conv) {
      PausingWaits(v, d, d.run.call, d.run.interruptId);
    }
  }

  // The keys when the run ended for good, and when it failed otherwise.
  lemma KeysAfterFinish(v: World, d: Delivery, transient: bool)
    requires !v.keys.Processed(d.checkpoint)
    ensures FinishedKeys(v.keys, GivenUp(v, d).keys, d) && FinishedKeys(v.keys, Completed(v, d).keys, d)
    ensures FinishedKeys(v.keys, LeftAlone(GivenUp(v, d), d, transient).keys, d)
  {
  }

  ghost predicate FinishedKeys(before: Keys, after: Keys, d: Delivery) {
    && after.now == before.now && d.checkpoint !in after.processing
    && d.checkpoint in after.processed && after.processed[d.checkpoint] == before.now + PROCESSED_TTL
    && !(after.Locked(d.conv) && after.locks[d.conv].token == d.token)
  }

  ghost predicate FailedKeys(before: Keys, after: Keys, d: Delivery, transient: bool) {
    && after.now == before.now && after.processed == before.processed
    && after.processing == (if transient then before.processing - {d.checkpoint} else before.processing)
    && !(after.Locked(d.conv) && after.locks[d.conv].token == d.token)
  }

  lemma KeysAfterFailure(v: World, d: Delivery, transient: bool)
    ensures FailedKeys(v.keys, LeftAlone(v, d, transient).keys, d, transient)
    ensures FailedKeys(v.keys, Unlocked(v, d).keys, d, false)
  {
  }

  lemma KeysAfterExecute(v: World, d: Delivery)
    requires !v.keys.Processed(d.checkpoint)
    ensures var (w', end) := Execute(v, d);
            match end
            case Finished => FinishedKeys(v.keys, w'.keys, d)
            case Waiting => w'.keys == v.keys.DeleteProcessing(d.checkpoint)
            case _ => FailedKeys(v.keys, w'.keys, d, Transient(d.run))
  {
    KeysAfterFinish(v, d, Transient(d.run));
    KeysAfterFailure(v, d, Transient(d.run));
  }

  /** Apart from pausing again, no end leaves this process holding the conversation. */
  lemma OnlyPausingKeepsTheLock(w: World, d: Delivery)
    requires !Skips(w, d)
    ensures var (w', end) := Handle(w, d);
            end != Waiting ==> !(w'.keys.Locked(d.conv) && w'.keys.locks[d.conv].token == d.token)
  {
    KeysAfterExecute(Started(w, d), d);
  }

  /** A pause leaves the conversation locked: by the lock that was there, or by one
      taken for this resume. */
  lemma PausingKeepsTheLock(w: World, d: Delivery)
    requires Handle(w, d).1 == Waiting
    ensures Handle(w, d).0.keys.locks
            == if w.keys.Locked(d.conv) then w.keys.locks
               else w.keys.locks[d.conv := Lock(d.token, w.keys.now + LOCK_TTL, d.token)]
  {
    KeysAfterExecute(Started(w, d), d);
  }

  /** A resume that finds the conversation locked works there all the same, and at its end
      frees that lock, whoever took it, exactly when the lock carries its own
      process's token; otherwise the lock is gone only if it ran out meanwhile. */
  lemma ResumeFreesTheLockIff(w: World, d: Delivery)
    requires !Skips(w, d) && w.keys.Locked(d.conv) && Handle(w, d).1 != Waiting
    ensures !Handle(w, d).0.keys.Locked(d.conv)
            <==> w.keys.locks[d.conv].token == d.token || w.keys.locks[d.conv].expireAt < w.keys.now + d.elapsed
  {
    LocksAtStart(w, d);
    LocksAfterExecute(Started(w, d), d);
  }

  lemma LocksAtStart(w: World, d: Delivery)
    requires w.keys.Locked(d.conv)
    ensures Started(w, d).keys.locks == w.keys.locks && Started(w, d).keys.now == w.keys.now + d.elapsed
  {
  }

  // Every end but a pause releases the lock, once or twice, under the process's token.
  lemma LocksAfterExecute(v: World, d: Delivery)
    requires Execute(v, d).1 != Waiting
    ensures Freed(v, Execute(v, d).0, d)
  {
    LocksAfterFinish(v, d, Transient(d.run));
    LocksAfterFailure(v, d, Transient(d.run));
  }

  ghost predicate Freed(v: World, w': World, d: Delivery) {
    w'.keys.now == v.keys.now && w'.keys.locks == v.keys.Release(d.conv, d.token).locks
  }

  lemma LocksAfterFinish(v: World, d: Delivery, transient: bool)
    ensures Freed(v, GivenUp(v, d), d) && Freed(v, Completed(v, d), d)
    ensures Freed(v, LeftAlone(GivenUp(v, d), d, transient), d)
  {
    var w := GivenUp(v, d);
    assert Freed(v, w, d);
    assert Freed(w, LeftAlone(w, d, transient), d);
  }

  lemma LocksAfterFailure(v: World, d: Delivery, transient: bool)
    ensures Freed(v, LeftAlone(v, d, transient), d) && Freed(v, Unlocked(v, d), d)
  {
  }

  /** So while a process task executes, a resume of the same conversation lets another
      unmarked message start beside it exactly when the executing task's lock
      carries the resuming process's token, or has run out. */
  lemma ResumeBreaksExclusionIff(home: MessageId -> ConversationId, tasks: TaskLock.World, w: World, d: Delivery,
                                 i: nat, m: MessageId, token: nat)
    requires tasks.keys.locks == w.keys.locks && tasks.keys.now == w.keys.now
    requires !Skips(w, d) && w.keys.Locked(d.conv) && Handle(w, d).1 != Waiting
    requires i < |tasks.workers| && tasks.workers[i].pc.Executing?
            && home(tasks.workers[i].message) == d.conv == home(m)
    requires !tasks.keys.Processed(m) && !tasks.keys.Processing(m)
    ensures var keys := Handle(w, d).0.keys;
            var later := tasks.(keys := tasks.keys.(locks := keys.locks, now := keys.now));
            (exists k: nat :: BothExecute(OwnSteps(home, TaskLock.Step(home, later, TaskLock.Deliver(m, token)),
                                                   |tasks.workers|, k), i, |tasks.workers|))
            <==> w.keys.locks[d.conv].token == d.token || w.keys.locks[d.conv].expireAt < w.keys.now + d.elapsed
  {
    var keys := Handle(w, d).0.keys;
    var later := tasks.(keys := tasks.keys.(locks := keys.locks, now := keys.now));
    ResumeFreesTheLockIff(w, d);
    LocksAtStart(w, d);
    LocksAfterExecute(Started(w, d), d);
    assert later.keys.Locked(d.conv) <==> keys.Locked(d.conv);
    OverrunBreaksExclusionIff(home, later, i, m, token);
  }

  /** A redelivery d' is executed exactly when no mark is alive. After a pause or a
      transient failure it runs at once; after any other failure, including the
      error return for a deleted conversation that asks the queue to retry, it is
      skipped until the 130-second mark has run out; after a finished resume it is
      skipped for 24 hours. */
  lemma RedeliveryRunsIff(w: World, d: Delivery, d': Delivery, wait: nat)
    requires !Skips(w, d) && d'.checkpoint == d.checkpoint
    ensures var (w', end) := Handle(w, d);
            var later := w'.(keys := w'.keys.(now := w'.keys.now + wait));
            !Skips(later, d') <==>
              match end
              case Finished => wait > 86_400_000
              case Waiting => true
              case _ => Transient(d.run) || d.elapsed + wait > 130_000
  {
    KeysAfterExecute(Started(w, d), d);
  }

  predicate Transient(run: AgentRun) {
    (run.ResumeFails? || run.StreamFails?) && run.transient
  }

  /** The status is cleared whatever the conversation was waiting for: finishing one
      checkpoint leaves a live conversation waiting on another exactly when that is a
      different conversation; the calls of the other checkpoint stay pending. */
  lemma FinishClearsOtherWaitsIff(w: World, d: Delivery, c: ConversationId)
    requires Handle(w, d).1 == Finished && LiveConv(w, c) && w.convs[c].status != Idle
    ensures var w', k := Handle(w, d).0, w.convs[c].checkpoint;
            && c in w'.convs && (w'.convs[c] == w.convs[c] <==> c != d.conv)
            && (k != d.checkpoint ==> PendingOf(w'.rows, k) == PendingOf(w.rows, k))
  {
    FinishLeaves(w, d);
    DeletionKeepsOthersPending(w.rows, d.checkpoint, w.convs[c].checkpoint);
  }

  // The calls and conversations that a finished resume leaves.
  ghost predicate LeftByFinish(w: World, w': World, d: Delivery) {
    && w'.rows == DeleteByCheckpoint(w.rows, d.checkpoint)
    && w'.convs == (if LiveConv(w, d.conv) then w.convs[d.conv := Conv(Idle, "", "", true)] else w.convs)
  }

  lemma FinishLeaves(w: World, d: Delivery)
    requires Handle(w, d).1 == Finished
    ensures LeftByFinish(w, Handle(w, d).0, d)
  {
    var v := Started(w, d);
    StartedKeepsTheRest(w, d);
    EachFinishLeaves(v, d, Transient(d.run));
  }

  lemma EachFinishLeaves(v: World, d: Delivery, transient: bool)
    ensures LeftByFinish(v, GivenUp(v, d), d) && LeftByFinish(v, Completed(v, d), d)
    ensures LeftByFinish(v, LeftAlone(GivenUp(v, d), d, transient), d)
  {
  }

  lemma DeletionKeepsOthersPending(t: Table, k: CheckpointId, k': CheckpointId)
    ensures k' != k ==> PendingOf(DeleteByCheckpoint(t, k), k') == PendingOf(t, k')
  {
  }

  // --------------------------------------------------------------------
  // Whole runs
  // --------------------------------------------------------------------

  datatype Action =
    | Deliver(d: Delivery)
    | FirstPause(d: Delivery, call: string, interruptId: string)  // a new run reaches its first interrupt
    | Answer(id: RcId, success: bool, text: string)
    | Sweep(checkpoint: CheckpointId)
    | CancelCalls(checkpoint: CheckpointId)
    | LoseCheckpoint(checkpoint: CheckpointId)
    | SetLive(conv: ConversationId, live: bool)
    | Wait(ms: nat)

  ghost predicate NewCheckpoint(w: World, k: CheckpointId) {
    k !in w.checkpoints && k !in w.done && forall id :: id in w.rows ==> w.rows[id].checkpoint != k
  }

  function Step(w: World, a: Action): World {
    match a
    case Deliver(d) => Handle(w, d).0
    case FirstPause(d, call, interruptId) =>
      if !LiveConv(w, d.conv) then w
      else
        w.(convs := w.convs[d.conv := Conv(if IsClientFunction(call) then ToolCalling else AskingUser,
                                           d.agent, d.checkpoint, true)],
           rows := w.rows[d.rowId := NewCall(d, call, interruptId)], order := w.order + [d.rowId],
           checkpoints := w.checkpoints + {d.checkpoint})
    case Answer(id, success, text) => w.(rows := Resolve(w.rows, id, success, text).0)
    case Sweep(k) => w.(rows := MarkExpiredByCheckpoint(w.rows, k, w.keys.now))
    case CancelCalls(k) => w.(rows := CancelByCheckpoint(w.rows, k).0)
    case LoseCheckpoint(k) => w.(checkpoints := w.checkpoints - {k})
    case SetLive(c, live) => if c in w.convs then w.(convs := w.convs[c := w.convs[c].(live := live)]) else w
    case Wait(ms) => w.(keys := w.keys.(now := w.keys.now + ms))
  }

  // What happens beside the worker, in terms of the rows.
  lemma SideEventsAre(w: World, a: Action)
    requires !a.Deliver? && !a.FirstPause?
    ensures var w' := Step(w, a);
            && w'.order == w.order && w'.done == w.done && w'.rows.Keys == w.rows.Keys
            && (forall id :: id in w.rows ==>
                  var r := w.rows[id];
                  w'.rows[id] == if r.status != Pending || r.deleted then r
                                 else if a.Answer? && a.id == id then
                                   r.(status := Resolved, success := a.success, answer := a.text)
                                 else if a.CancelCalls? && a.checkpoint == r.checkpoint then r.(status := Cancelled)
                                 else if a.Sweep? && a.checkpoint == r.checkpoint
                                         && r.expiresAt.Some? && r.expiresAt.value < w.keys.now then
                                   r.(status := Expired)
                                 else r)
            && w'.checkpoints == (if a.LoseCheckpoint? then w.checkpoints - {a.checkpoint} else w.checkpoints)
            && w'.keys == (if a.Wait? then w.keys.(now := w.keys.now + a.ms) else w.keys)
            && w'.convs == if a.SetLive? && a.conv in w.convs then w.convs[a.conv := w.convs[a.conv].(live := a.live)]
                           else w.convs
  {
  }

  /** The first interrupt of a new run leaves the conversation waiting in the same way. */
  lemma FirstPauseWaits(w: World, d: Delivery, call: string, interruptId: string)
    requires LiveConv(w, d.conv) && Allowed(w, FirstPause(d, call, interruptId))
    ensures var w' := Step(w, FirstPause(d, call, interruptId));
            && WaitsFor(w', d, call) && Asks(w, w', d, call, interruptId)
            && PendingOf(w'.rows, d.checkpoint) == {d.rowId} && d.checkpoint in w'.checkpoints
  {
    var w' := Step(w, FirstPause(d, call, interruptId));
    assert PendingOf(w'.rows, d.checkpoint) == PendingOf(w.rows, d.checkpoint) + {d.rowId};
    assert PendingOf(w.rows, d.checkpoint) == {};
  }

  ghost predicate Allowed(w: World, a: Action) {
    match a
    case Deliver(d) => Possible(w, d)
    case FirstPause(d, _, _) => d.rowId !in w.rows && NewCheckpoint(w, d.checkpoint)
    case _ => true
  }

  function Run(w: World, actions: seq<Action>): World
    decreases |actions|
  {
    if actions == [] then w else Run(Step(w, actions[0]), actions[1..])
  }

  ghost predicate AllAllowed(w: World, actions: seq<Action>)
    decreases |actions|
  {
    actions == [] || (Allowed(w, actions[0]) && AllAllowed(Step(w, actions[0]), actions[1..]))
  }

  // A processed checkpoint is gone, and so are its calls.
  ghost predicate Inv(w: World) {
    forall k :: k in w.done ==> k !in w.checkpoints && CallsGone(w.rows, k)
  }

  predicate WaitsOn(w: World, c: ConversationId, k: CheckpointId) {
    c in w.convs && w.convs[c].status != Idle && w.convs[c].checkpoint == k
  }

  // Nothing starts waiting on a processed checkpoint.
  ghost predicate NoNewWaits(w: World, w': World) {
    && w.done <= w'.done
    && forall c, k :: k in w.done && WaitsOn(w', c, k) ==> WaitsOn(w, c, k)
  }

  lemma CleanupKeepsInv(w: World, d: Delivery)
    requires Inv(w)
    ensures Inv(GivenUp(w, d)) && NoNewWaits(w, GivenUp(w, d))
    ensures Inv(Completed(w, d)) && NoNewWaits(w, Completed(w, d))
  {
  }

  lemma PausingKeepsInv(w: World, d: Delivery, call: string, interruptId: string)
    requires Inv(w) && d.checkpoint in w.checkpoints && d.rowId !in w.rows
    ensures Inv(PausedAgain(w, d, call, interruptId)) && NoNewWaits(w, PausedAgain(w, d, call, interruptId))
  {
    assert d.checkpoint !in w.done;
  }

  // Only locks and keys move.
  lemma KeysDoNotMatter(w: World, w': World)
    requires Inv(w) && w' == w.(keys := w'.keys)
    ensures Inv(w') && NoNewWaits(w, w')
  {
  }

  lemma HandleKeepsInv(w: World, d: Delivery)
    requires Inv(w) && Possible(w, d)
    ensures Inv(Handle(w, d).0) && NoNewWaits(w, Handle(w, d).0)
  {
    var (w', end) := Handle(w, d);
    if end != Skipped {
      var v := Started(w, d);
      StartedKeepsTheRest(w, d);
      KeysDoNotMatter(w, v);
      match end
      case Finished =>
        CleanupKeepsInv(v, d);
        if w' != Completed(v, d) && w' != GivenUp(v, d) {
          KeysDoNotMatter(GivenUp(v, d), w');
        }
      case Waiting => PausingKeepsInv(v, d, d.run.call, d.run.interruptId);
      case _ => KeysDoNotMatter(v, w');
    }
  }

  lemma StepKeepsInv(w: World, a: Action)
    requires Inv(w) && Allowed(w, a)
    ensures Inv(Step(w, a)) && NoNewWaits(w, Step(w, a))
  {
    if a.Deliver? { HandleKeepsInv(w, a.d); }
  }

  /** Over every run, however late and however often it is delivered again, a processed
      checkpoint never becomes waiting again: it stays gone, it gets no pending
      call, and no conversation starts waiting on it. */
  lemma {:induction false} ProcessedNeverWaitsAgain(w: World, actions: seq<Action>)
    requires Inv(w) && AllAllowed(w, actions)
    ensures Inv(Run(w, actions)) && NoNewWaits(w, Run(w, actions))
    ensures forall k :: k in w.done ==> PendingOf(Run(w, actions).rows, k) == {} && k !in Run(w, actions).checkpoints
    decreases |actions|
  {
    if actions != [] {
      StepKeepsInv(w, actions[0]);
      ProcessedNeverWaitsAgain(Step(w, actions[0]), actions[1..]);
    }
  }

  // --------------------------------------------------------------------
  // The worker as written
  // --------------------------------------------------------------------

  class AgentResumeHandler {
    var w: World

    constructor (w: World)
      ensures this.w == w
    {
      this.w := w;
    }

    method BuildTargets(calls: seq<Row>) returns (targets: map<string, string>)
      ensures targets == Targets(calls)
    {
      targets := map[];
      for i := 0 to |calls|
        invariant targets == Targets(calls[..i])
      {
        assert calls[..i + 1][..i] == calls[..i];
        if calls[i].status == Resolved {
          if calls[i].interruptId != "" { targets := targets[calls[i].interruptId := ResultOf(calls[i])]; }
        }
      }
      assert calls[..|calls|] == calls;
    }

    method AllExpired(calls: seq<Row>) returns (gone: bool)
      ensures gone <==> AllGone(calls)
    {
      gone := |calls| > 0;
      for i := 0 to |calls|
        invariant gone == (|calls| > 0)
        invariant forall j :: 0 <= j < i ==> calls[j].status == Expired || calls[j].status == Cancelled
      {
        if calls[i].status != Expired && calls[i].status != Cancelled { return false; }
      }
    }

    method ReleaseLock(d: Delivery)
      modifies this
      ensures w == Unlocked(old(w), d)
    {
      w := w.(keys := w.keys.Release(d.conv, d.token));
    }

    method DeleteProcessing(d: Delivery)
      modifies this
      ensures w == Reopened(old(w), d)
    {
      w := w.(keys := w.keys.DeleteProcessing(d.checkpoint));
    }

    method CleanupAfterResumeFailure(d: Delivery)
      modifies this
      ensures w == CleanedUp(old(w), d)
    {
      w := w.(convs := StatusCleared(w.convs, d.conv));
      w := w.(rows := DeleteByCheckpoint(w.rows, d.checkpoint));
      w := w.(checkpoints := w.checkpoints - {d.checkpoint});
    }

    method MarkResumeFailed(d: Delivery)
      modifies this
      ensures w == Unlocked(MarkedDone(Reopened(old(w), d), d), d)
    {
      DeleteProcessing(d);
      w := w.(keys := w.keys.MarkProcessed(d.checkpoint), done := w.done + {d.checkpoint});
      ReleaseLock(d);
    }

    // One resume task, run without another handler in between.
    method HandleResume(d: Delivery) returns (end: End, told: Option<map<string, string>>)
      modifies this
      ensures (w, end) == Handle(old(w), d)
      ensures told == if end == Skipped then None else Told(old(w), d)
    {
      var processed, processing := w.keys.Processed(d.checkpoint), w.keys.Processing(d.checkpoint);
      if processed || processing { return Skipped, None; }
      w := w.(keys := w.keys.MarkProcessing(d.checkpoint));
      var (locked, _) := w.keys.Acquire(d.conv, d.token, d.token);
      w := w.(keys := locked.(now := locked.now + d.elapsed));
      end, told := ExecuteResume(d);
    }

    method ExecuteResume(d: Delivery) returns (end: End, told: Option<map<string, string>>)
      modifies this
      ensures (w, end) == Execute(old(w), d) && end != Skipped
      ensures told == Told(old(w), d)
    {
      if !d.agentKnown || !d.built {
        CleanupAfterResumeFailure(d);
        MarkResumeFailed(d);
        return Finished, None;
      }
      var calls := CallsOf(w, d.checkpoint);
      var targets := BuildTargets(calls);
      if |targets| == 0 {
        var gone := AllExpired(calls);
        if gone {
          CleanupAfterResumeFailure(d);
          MarkResumeFailed(d);
          return Finished, None;
        }
      }
      told := Some(targets);
      end := RunAgent(d);
    }

    method RunAgent(d: Delivery) returns (end: End)
      requires d.agentKnown && d.built
      requires !(Targets(CallsOf(w, d.checkpoint)) == map[] && AllGone(CallsOf(w, d.checkpoint)))
      modifies this
      ensures (w, end) == Execute(old(w), d)
    {
      match d.run {
        case ResumeFails(notFound, transient) =>
          if notFound {
            CleanupAfterResumeFailure(d);
            MarkResumeFailed(d);
          }
          if transient { DeleteProcessing(d); }
          ReleaseLock(d);
          return if notFound then Finished else Untouched;
        case StreamFails(transient) =>
          if transient { DeleteProcessing(d); }
          ReleaseLock(d);
          return Untouched;
        case InterruptsAgain(call, interruptId) =>
          if !LiveConv(w, d.conv) {
            ReleaseLock(d);
            return Retried;
          }
          if IsClientFunction(call) {
            w := w.(convs := w.convs[d.conv := Conv(ToolCalling, d.agent, d.checkpoint, true)]);
          } else {
            w := w.(convs := w.convs[d.conv := Conv(AskingUser, d.agent, d.checkpoint, true)]);
          }
          w := w.(rows := w.rows[d.rowId := NewCall(d, call, interruptId)], order := w.order + [d.rowId]);
          DeleteProcessing(d);
          return Waiting;
        case Finishes =>
          w := w.(keys := w.keys.MarkProcessed(d.checkpoint), done := w.done + {d.checkpoint});
          DeleteProcessing(d);
          CleanupAfterResumeFailure(d);
          ReleaseLock(d);
          return Finished;
      }
    }
  }
}
