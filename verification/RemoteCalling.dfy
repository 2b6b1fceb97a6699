/** The table of remote callings and the two handlers that claim its rows. Every
    claim is a conditional update `WHERE status = 'pending'`. */
module RemoteCalling {
  import opened Option

  type RcId = string
  type CheckpointId = string

  datatype Status = Pending | Resolved | Cancelled | Expired

  // answer is the result of a successful call or the error message of a failed one.
  datatype Row = Row(checkpoint: CheckpointId, status: Status, expiresAt: Option<nat>,
                     success: bool, answer: string, deleted: bool,
                     call: string, interruptId: string) {

    // Soft-deleted rows are invisible to conditional updates and counts.
    predicate Claimable() {
      status == Pending && !deleted
    }

    predicate Overdue(now: nat) {
      expiresAt.Some? && expiresAt.value < now
    }
  }

  type Table = map<RcId, Row>

  datatype Claim = Claimed | Conflict | NotFound

  function PendingOf(t: Table, k: CheckpointId): set<RcId> {
    set id | id in t && t[id].checkpoint == k && t[id].Claimable()
  }

  function ResolvedOf(t: Table, k: CheckpointId): set<RcId> {
    set id | id in t && t[id].checkpoint == k && t[id].status == Resolved && !t[id].deleted
  }

  // ResolveResult and ResolveError; a lost claim finds soft-deleted rows too.
  function Resolve(t: Table, id: RcId, success: bool, answer: string): (Table, Claim) {
    if id !in t then (t, NotFound)
    else if !t[id].Claimable() then (t, Conflict)
    else (t[id := t[id].(status := Resolved, success := success, answer := answer)], Claimed)
  }

  function MarkExpired(t: Table, id: RcId): (Table, Claim) {
    if id !in t || t[id].deleted then (t, NotFound)
    else if !t[id].Claimable() then (t, Conflict)
    else (t[id := t[id].(status := Expired)], Claimed)
  }

  function MarkExpiredByCheckpoint(t: Table, k: CheckpointId, now: nat): Table {
    map id | id in t ::
      if t[id].checkpoint == k && t[id].Claimable() && t[id].Overdue(now) then t[id].(status := Expired) else t[id]
  }

  // The flag says whether a pending row was found, and with it the conversation and agent ids.
  function CancelByCheckpoint(t: Table, k: CheckpointId): (Table, bool) {
    (map id | id in t ::
       if t[id].checkpoint == k && t[id].Claimable() then t[id].(status := Cancelled) else t[id],
     PendingOf(t, k) != {})
  }

  function DeleteByCheckpoint(t: Table, k: CheckpointId): Table {
    map id | id in t :: if t[id].checkpoint == k then t[id].(deleted := true) else t[id]
  }

  /** What no later operation can undo: rows persist, a row that left pending
      keeps its status and answer, and no row returns to pending. */
  ghost predicate Settles(t: Table, t': Table) {
    && t.Keys == t'.Keys
    && forall id :: id in t ==>
         && t'[id].checkpoint == t[id].checkpoint
         && t'[id].expiresAt == t[id].expiresAt
         && (t[id].deleted ==> t'[id].deleted)
         && (t[id].status != Pending ==>
               t'[id].status == t[id].status && t'[id].success == t[id].success && t'[id].answer == t[id].answer)
  }

  // Settles, and deletes nothing.
  ghost predicate Claims(t: Table, t': Table) {
    Settles(t, t') && forall id :: id in t ==> t'[id].deleted == t[id].deleted
  }

  lemma ResolveSettles(t: Table, id: RcId, success: bool, answer: string)
    ensures Claims(t, Resolve(t, id, success, answer).0)
  {
  }

  lemma ClaimsSettle(t: Table, id: RcId, success: bool, answer: string)
    ensures Claims(t, Resolve(t, id, success, answer).0)
    ensures Claims(t, MarkExpired(t, id).0)
  {
    ResolveSettles(t, id, success, answer);
  }

  lemma SweepsSettle(t: Table, k: CheckpointId, now: nat)
    ensures Claims(t, MarkExpiredByCheckpoint(t, k, now))
    ensures Claims(t, CancelByCheckpoint(t, k).0)
  {
  }

  lemma DeletionSettles(t: Table, k: CheckpointId)
    ensures Settles(t, DeleteByCheckpoint(t, k))
  {
  }

  // --------------------------------------------------------------------
  // The handlers, run without interruption
  // --------------------------------------------------------------------

  datatype Reply =
    | RcNotFound
    | AlreadyProcessed(status: Status)
    | HasExpired
    | Partial(pending: nat)
    | Queued
    | NothingPending
    | PermissionDenied
    | CancelledCalls(count: nat)
    | InternalError

  // The status part of what agent_resume does to its own row and its overdue siblings.
  ghost predicate ResumeEffect(t: Table, t': Table, id: RcId, success: bool, answer: string, now: nat)
    requires id in t
  {
    && t'.Keys == t.Keys
    && t'[id] == t[id].(status := Resolved, success := success, answer := answer)
    && forall i :: i in t && i != id ==>
         t'[i] == if t[i].checkpoint == t[id].checkpoint && t[i].Claimable() && t[i].Overdue(now)
                  then t[i].(status := Expired) else t[i]
  }

  // Exactly the pending calls of k are cancelled.
  ghost predicate CancelEffect(t: Table, t': Table, k: CheckpointId) {
    && t'.Keys == t.Keys
    && forall i :: i in t ==>
         t'[i] == if t[i].checkpoint == k && t[i].status == Pending && !t[i].deleted
                  then t[i].(status := Cancelled) else t[i]
  }

  class RemoteCallingHandlers {
    var rows: Table
    var tasks: seq<CheckpointId>  // TypeAgentResume tasks, oldest first

    constructor (rows: Table)
      ensures this.rows == rows && tasks == []
    {
      this.rows, tasks := rows, [];
    }

    method AgentResume(id: RcId, success: bool, answer: string, now: nat) returns (r: Reply)
      modifies this
      ensures id !in old(rows) ==> r == RcNotFound && rows == old(rows) && tasks == old(tasks)
      ensures id in old(rows) && old(rows)[id].status != Pending ==>
                r == AlreadyProcessed(old(rows)[id].status) && rows == old(rows) && tasks == old(tasks)
      ensures id in old(rows) && old(rows)[id].status == Pending && old(rows)[id].deleted ==>
                && rows == old(rows) && tasks == old(tasks)
                && r == if old(rows)[id].Overdue(now) then InternalError else AlreadyProcessed(Resolved)
      ensures id in old(rows) && old(rows)[id].Claimable() && old(rows)[id].Overdue(now) ==>
                && r == HasExpired && tasks == old(tasks)
                && rows == old(rows)[id := old(rows)[id].(status := Expired)]
      ensures id in old(rows) && old(rows)[id].Claimable() && !old(rows)[id].Overdue(now) ==>
                && ResumeEffect(old(rows), rows, id, success, answer, now)
                && var k := old(rows)[id].checkpoint;
                   if PendingOf(rows, k) == {} then r == Queued && tasks == old(tasks) + [k]
                   else r == Partial(|PendingOf(rows, k)|) && tasks == old(tasks)
    {
      if id !in rows { return RcNotFound; }
      var rc := rows[id];
      if rc.status != Pending { return AlreadyProcessed(rc.status); }
      if rc.Overdue(now) {
        var (marked, claim) := MarkExpired(rows, id);
        rows := marked;
        return if claim == Claimed then HasExpired else InternalError;
      }
      var (resolved, claim) := Resolve(rows, id, success, answer);
      rows := resolved;
      if claim == Conflict { return AlreadyProcessed(Resolved); }
      rows := MarkExpiredByCheckpoint(rows, rc.checkpoint, now);
      var pending := |PendingOf(rows, rc.checkpoint)|;
      if pending > 0 { return Partial(pending); }
      tasks := tasks + [rc.checkpoint];
      return Queued;
    }

    // member: the caller is a member of the calls' conversation, or the agent's own user.
    method CancelRemoteCalls(k: CheckpointId, member: bool) returns (r: Reply)
      modifies this
      ensures PendingOf(old(rows), k) == {} ==> r == NothingPending && rows == old(rows) && tasks == old(tasks)
      ensures PendingOf(old(rows), k) != {} && !member ==>
                r == PermissionDenied && rows == old(rows) && tasks == old(tasks)
      ensures PendingOf(old(rows), k) != {} && member ==>
                && r == CancelledCalls(|PendingOf(old(rows), k)|)
                && tasks == old(tasks) + [k]
                && CancelEffect(old(rows), rows, k)
    {
      if |PendingOf(rows, k)| == 0 { return NothingPending; }
      if !member { return PermissionDenied; }
      var count := |PendingOf(rows, k)|;
      var (cancelled, found) := CancelByCheckpoint(rows, k);
      rows := cancelled;
      var pending := |PendingOf(rows, k)|;
      if pending == 0 && found { tasks := tasks + [k]; }
      return CancelledCalls(count);
    }
  }
}
