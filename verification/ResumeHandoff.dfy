/** The protocol of the remote callings and the resume workers in one machine: answers,
    cancels and sweeps enqueue resumes, workers take them, check the idempotency
    keys, read the answers, and may pause again with a new call. Every statement,
    Redis command and enqueue is one step, in any interleaving. */
module ResumeHandoff {
  import opened Option
  import opened RemoteCalling
  import opened TaskLock
  import Hitl = HitlProtocol

  // What a worker still has to do once its agent run has come back.
  datatype Chore = Create(id: RcId, row: Row) | DeleteKey | MarkDone | DeleteCalls

  datatype Ending =
    | Finishes
    | GivesUp
    | PausesAgain(id: RcId, row: Row)
    | Fails(transient: bool)

  datatype Stage =
    | CheckProcessed
    | CheckProcessing(processed: bool)
    | MarkProcessing
    | ReadAnswers
    | RunAgent
    | Chores(left: seq<Chore>)
    | Gone

  datatype Resumer = Resumer(checkpoint: CheckpointId, stage: Stage)

  // taken counts the tasks of the queue that were handed out. read is history: the
  // answered calls that a worker has read for its agent run.
  datatype Joint = Joint(calls: Hitl.System, keys: Keys, taken: nat, resumers: seq<Resumer>, read: set<RcId>)

  datatype Action =
    | Protocol(a: Hitl.Action)
    | Take
    | Work(i: nat, ending: Ending)

  function ChoresOf(e: Ending): seq<Chore> {
    match e
    case Finishes => [MarkDone, DeleteKey, DeleteCalls]
    case GivesUp => [DeleteCalls, DeleteKey, MarkDone]
    case PausesAgain(id, row) => [Create(id, row), DeleteKey]
    case Fails(transient) => if transient then [DeleteKey] else []
  }

  // A call is created pending, under a new id.
  function Created(t: Table, k: CheckpointId, id: RcId, row: Row): Table {
    if id in t then t else t[id := row.(checkpoint := k, status := Pending, deleted := false)]
  }

  // There are calls of k, and all of them were cancelled or expired.
  predicate AllGivenUp(t: Table, k: CheckpointId) {
    && (exists id :: id in t && t[id].checkpoint == k && !t[id].deleted)
    && (forall id :: id in t && t[id].checkpoint == k && !t[id].deleted ==>
          t[id].status == Cancelled || t[id].status == Expired)
  }

  function DoChore(j: Joint, k: CheckpointId, c: Chore): Joint {
    match c
    case Create(id, row) => j.(calls := j.calls.(rows := Created(j.calls.rows, k, id, row)))
    case DeleteKey => j.(keys := j.keys.DeleteProcessing(k))
    case MarkDone => j.(keys := j.keys.MarkProcessed(k))
    case DeleteCalls => j.(calls := j.calls.(rows := DeleteByCheckpoint(j.calls.rows, k)))
  }

  function MoveTo(j: Joint, i: nat, stage: Stage): Joint
    requires i < |j.resumers|
  {
    j.(resumers := j.resumers[i := j.resumers[i].(stage := stage)])
  }

  function WorkStep(j: Joint, i: nat, e: Ending): Joint
    requires i < |j.resumers|
  {
    var k := j.resumers[i].checkpoint;
    match j.resumers[i].stage
    case CheckProcessed => MoveTo(j, i, CheckProcessing(j.keys.Processed(k)))
    case CheckProcessing(processed) =>
      MoveTo(j, i, if processed || j.keys.Processing(k) then Gone else MarkProcessing)
    case MarkProcessing => MoveTo(j.(keys := j.keys.MarkProcessing(k)), i, ReadAnswers)
    case ReadAnswers =>
      MoveTo(j.(read := j.read + ResolvedOf(j.calls.rows, k)), i,
             if AllGivenUp(j.calls.rows, k) then Chores(ChoresOf(GivesUp)) else RunAgent)
    case RunAgent => MoveTo(j, i, Chores(ChoresOf(e)))
    case Chores(left) =>
      if left == [] then MoveTo(j, i, Gone) else MoveTo(DoChore(j, k, left[0]), i, Chores(left[1..]))
    case Gone => j
  }

  function Step(j: Joint, a: Action): Joint {
    match a
    case Protocol(b) =>
      var calls := Hitl.Step(j.calls, b);
      if b.Tick? then j.(calls := calls, keys := j.keys.(now := j.keys.now + b.ms)) else j.(calls := calls)
    case Take =>
      if j.taken >= |j.calls.tasks| then j
      else j.(taken := j.taken + 1, resumers := j.resumers + [Resumer(j.calls.tasks[j.taken], CheckProcessed)])
    case Work(i, e) => if i < |j.resumers| then WorkStep(j, i, e) else j
  }

  function Run(j: Joint, actions: seq<Action>): Joint
    decreases |actions|
  {
    if actions == [] then j else Run(Step(j, actions[0]), actions[1..])
  }

  // --------------------------------------------------------------------
  // Answers and those who owe them a reading
  // --------------------------------------------------------------------

  // An answer of k that no worker has read.
  ghost predicate Unread(j: Joint, k: CheckpointId) {
    exists id :: id in ResolvedOf(j.calls.rows, k) && id !in j.read
  }

  // The calls of k that were answered, those deleted afterwards included.
  function AnswersOf(t: Table, k: CheckpointId): set<RcId> {
    set id | id in t && t[id].checkpoint == k && t[id].status == Resolved
  }

  // An answer of k was deleted before any worker had read it.
  ghost predicate Erased(j: Joint, k: CheckpointId) {
    exists id :: id in AnswersOf(j.calls.rows, k) && j.calls.rows[id].deleted && id !in j.read
  }

  ghost predicate Answered(j: Joint, k: CheckpointId) {
    PendingOf(j.calls.rows, k) == {} && Unread(j, k)
  }

  // A worker on its way to read the answers of k.
  predicate Owing(r: Resumer, k: CheckpointId) {
    r.checkpoint == k
    && (r.stage.CheckProcessed? || r.stage.CheckProcessing? || r.stage.MarkProcessing? || r.stage.ReadAnswers?)
  }

  ghost predicate HandlerOwes(s: Hitl.System, k: CheckpointId) {
    exists i :: 0 <= i < |s.handlers| && Hitl.Owes(s.handlers[i], k)
  }

  ghost predicate OtherHandlerOwes(s: Hitl.System, i: nat, k: CheckpointId) {
    exists j :: 0 <= j < |s.handlers| && j != i && Hitl.Owes(s.handlers[j], k)
  }

  ghost predicate Queued(j: Joint, k: CheckpointId) {
    exists i :: j.taken <= i < |j.calls.tasks| && j.calls.tasks[i] == k
  }

  ghost predicate ResumerOwes(j: Joint, k: CheckpointId) {
    exists i :: 0 <= i < |j.resumers| && Owing(j.resumers[i], k)
  }

  ghost predicate OtherResumerOwes(j: Joint, i: nat, k: CheckpointId) {
    exists l :: 0 <= l < |j.resumers| && l != i && Owing(j.resumers[l], k)
  }

  ghost predicate Debt(j: Joint, k: CheckpointId) {
    HandlerOwes(j.calls, k) || Queued(j, k) || ResumerOwes(j, k)
  }

  /** Once nothing of k is pending, whatever was answered is still going to be read. */
  ghost predicate Served(j: Joint, k: CheckpointId) {
    Answered(j, k) ==> Debt(j, k)
  }

  /** No answer of k is out of reach: none was erased, and the others are going to be read. */
  ghost predicate Safe(j: Joint, k: CheckpointId) {
    Served(j, k) && !Erased(j, k)
  }

  // A sweep counts every checkpoint it expires a call of.
  ghost predicate SweepsCount(s: Hitl.System) {
    forall i, id :: 0 <= i < |s.handlers| && s.handlers[i].SweepMark? && id in s.handlers[i].ids ==>
      id in s.rows && s.rows[id].checkpoint in s.handlers[i].groups
  }

  ghost predicate Ok(j: Joint) {
    SweepsCount(j.calls) && j.taken <= |j.calls.tasks|
  }

  /** The steps that lose a wake-up: a worker skips a marked checkpoint, a sweep defers to the
      guard of an earlier sweep, or agent_resume expires the last pending call by
      itself; each with an answer unread and nobody else on the way to it. */
  ghost predicate Loses(j: Joint, a: Action, k: CheckpointId) {
    match a
    case Work(i, _) =>
      && i < |j.resumers| && j.resumers[i].checkpoint == k && j.resumers[i].stage.CheckProcessing?
      && (j.resumers[i].stage.processed || j.keys.Processing(k))
      && Answered(j, k) && !HandlerOwes(j.calls, k) && !Queued(j, k) && !OtherResumerOwes(j, i, k)
    case Protocol(Advance(i, _, _)) =>
      && i < |j.calls.handlers| && !OtherHandlerOwes(j.calls, i, k) && !Queued(j, k) && !ResumerOwes(j, k)
      && (Defers(j, j.calls.handlers[i], k) || ExpiresTheLast(j, j.calls.handlers[i], k))
    case _ => false
  }

  ghost predicate Defers(j: Joint, h: Hitl.Handler, k: CheckpointId) {
    h.SweepGuard? && h.k == k && k !in h.groups && k in j.calls.guards && j.calls.now <= j.calls.guards[k]
    && Answered(j, k)
  }

  ghost predicate ExpiresTheLast(j: Joint, h: Hitl.Handler, k: CheckpointId) {
    h.ResumeExpire? && h.id in j.calls.rows && PendingOf(j.calls.rows, k) == {h.id} && Unread(j, k)
  }

  /** The steps that erase an answer: a worker that is done with k deletes the calls of k, or a
      sweep wipes them, with an answer unread. */
  ghost predicate Erases(j: Joint, a: Action, k: CheckpointId) {
    && Unread(j, k)
    && match a
       case Work(i, _) => i < |j.resumers| && j.resumers[i].checkpoint == k && DeletesNext(j.resumers[i].stage)
       case Protocol(Advance(i, _, toolCalling)) =>
         i < |j.calls.handlers| && j.calls.handlers[i].SweepWipe? && j.calls.handlers[i].k == k && toolCalling
       case _ => false
  }

  predicate DeletesNext(stage: Stage) {
    stage.Chores? && stage.left != [] && stage.left[0].DeleteCalls?
  }

  // --------------------------------------------------------------------
  // The steps of the protocol
  // --------------------------------------------------------------------

  // With nothing of k pending, a debtor pays, passes the debt on, finds that there is no
  // answer, or defers to a guard.
  lemma DebtIsKeptUnlessGuarded(s: Hitl.System, h: Hitl.Handler, pick: CheckpointId, toolCalling: bool, k: CheckpointId)
    requires PendingOf(s.rows, k) == {} && Hitl.Owes(h, k)
    ensures var e := Hitl.Next(s, h, pick, toolCalling);
            || e.task == Some(k) || Hitl.Owes(e.next, k) || ResolvedOf(s.rows, k) == {}
            || (h.SweepGuard? && h.k == k && k !in h.groups && k in s.guards && s.now <= s.guards[k])
  {
  }

  lemma SettledStaysSettled(t: Table, t': Table, k: CheckpointId)
    requires Settles(t, t') && PendingOf(t, k) == {}
    ensures PendingOf(t', k) == {} && ResolvedOf(t', k) <= ResolvedOf(t, k)
  {
    forall id | id in ResolvedOf(t', k) ensures id in ResolvedOf(t, k) {
      assert id !in PendingOf(t, k);
    }
  }

  // A step that takes the last call of k out of pending owes k a count, unless it is the
  // single-row expiry or deletes the calls.
  lemma ClearingOwes(s: Hitl.System, h: Hitl.Handler, pick: CheckpointId, toolCalling: bool, k: CheckpointId)
    requires h.SweepMark? ==> forall id :: id in h.ids ==> id in s.rows && s.rows[id].checkpoint in h.groups
    requires PendingOf(s.rows, k) != {} && PendingOf(Hitl.Next(s, h, pick, toolCalling).rows, k) == {}
    ensures Hitl.Owes(Hitl.Next(s, h, pick, toolCalling).next, k) || (h.SweepWipe? && h.k == k)
            || (h.ResumeExpire? && h.id in s.rows && PendingOf(s.rows, k) == {h.id})
  {
    if h.SweepWipe? {
      if h.k != k { DeletionLeavesOthers(s.rows, h.k, k); }
    } else {
      Hitl.ClaimsTouchOneCheckpoint(s, h, pick, toolCalling, k);
      if h.ResumeExpire? && h.id in s.rows { OneRowLeaves(s.rows, h.id, k); }
    }
  }

  lemma DeletionLeavesOthers(t: Table, k': CheckpointId, k: CheckpointId)
    requires k' != k
    ensures PendingOf(DeleteByCheckpoint(t, k'), k) == PendingOf(t, k)
    ensures ResolvedOf(DeleteByCheckpoint(t, k'), k) == ResolvedOf(t, k)
  {
  }

  lemma OneRowLeaves(t: Table, id: RcId, k: CheckpointId)
    requires id in t
    ensures PendingOf(MarkExpired(t, id).0, k) == PendingOf(t, k) - {id}
    ensures ResolvedOf(MarkExpired(t, id).0, k) == ResolvedOf(t, k)
  {
  }

  // The debts after handler i has moved.
  lemma DebtsAfterAdvance(j: Joint, i: nat, e: Hitl.Effect, k: CheckpointId)
    requires i < |j.calls.handlers| && j.taken <= |j.calls.tasks|
    ensures var j' := j.(calls := Hitl.Apply(j.calls, i, e));
            Debt(j', k) <==> || OtherHandlerOwes(j.calls, i, k) || Hitl.Owes(e.next, k)
                             || Queued(j, k) || e.task == Some(k) || ResumerOwes(j, k)
  {
    var j' := j.(calls := Hitl.Apply(j.calls, i, e));
    var old', new' := j.calls, j'.calls;
    assert new'.handlers[i] == e.next;
    assert HandlerOwes(new', k) <==> OtherHandlerOwes(old', i, k) || Hitl.Owes(e.next, k) by {
      if OtherHandlerOwes(old', i, k) {
        var l :| 0 <= l < |old'.handlers| && l != i && Hitl.Owes(old'.handlers[l], k);
        assert Hitl.Owes(new'.handlers[l], k);
      }
      if l :| 0 <= l < |new'.handlers| && Hitl.Owes(new'.handlers[l], k) {
        assert l != i ==> Hitl.Owes(old'.handlers[l], k);
      }
    }
    assert Queued(j', k) <==> Queued(j, k) || e.task == Some(k) by {
      if Queued(j, k) {
        var l :| j.taken <= l < |old'.tasks| && old'.tasks[l] == k;
        assert new'.tasks[l] == k;
      }
      if e.task == Some(k) { assert new'.tasks[|old'.tasks|] == k; }
    }
  }

  lemma DebtsBefore(j: Joint, i: nat, k: CheckpointId)
    requires i < |j.calls.handlers|
    ensures Debt(j, k) <==> || OtherHandlerOwes(j.calls, i, k) || Hitl.Owes(j.calls.handlers[i], k)
                            || Queued(j, k) || ResumerOwes(j, k)
  {
    if l :| 0 <= l < |j.calls.handlers| && Hitl.Owes(j.calls.handlers[l], k) {
      assert l == i || OtherHandlerOwes(j.calls, i, k);
    }
  }

  // Nothing of k pending before the step.
  lemma SettledStepLosesIff(j: Joint, i: nat, pick: CheckpointId, toolCalling: bool, k: CheckpointId)
    requires Ok(j) && Served(j, k) && i < |j.calls.handlers| && PendingOf(j.calls.rows, k) == {}
    ensures var a := Protocol(Hitl.Advance(i, pick, toolCalling)); !Served(Step(j, a), k) <==> Loses(j, a, k)
  {
    var s, h := j.calls, j.calls.handlers[i];
    var e := Hitl.Next(s, h, pick, toolCalling);
    Hitl.NextSettles(s, h, pick, toolCalling);
    SettledStaysSettled(s.rows, e.rows, k);
    DebtsAfterAdvance(j, i, e, k);
    DebtsBefore(j, i, k);
    if Hitl.Owes(h, k) {
      DebtIsKeptUnlessGuarded(s, h, pick, toolCalling, k);
    } else {
      Hitl.NoNewDebt(s, h, pick, toolCalling, k);
    }
  }

  lemma ExpiryEffect(s: Hitl.System, h: Hitl.Handler, pick: CheckpointId, toolCalling: bool, k: CheckpointId)
    requires h.ResumeExpire?
    ensures var e := Hitl.Next(s, h, pick, toolCalling);
            && e.next == Hitl.Finished && e.task == None && ResolvedOf(e.rows, k) == ResolvedOf(s.rows, k)
            && PendingOf(e.rows, k) == if h.id in s.rows then PendingOf(s.rows, k) - {h.id} else PendingOf(s.rows, k)
  {
    if h.id in s.rows { OneRowLeaves(s.rows, h.id, k); }
  }

  // The single-row expiry owes nothing, so it loses the wake-up when nobody else does either.
  lemma ExpiryLosesIff(j: Joint, i: nat, pick: CheckpointId, toolCalling: bool, k: CheckpointId)
    requires i < |j.calls.handlers| && j.calls.handlers[i].ResumeExpire? && PendingOf(j.calls.rows, k) != {}
    requires j.taken <= |j.calls.tasks|
    ensures var a := Protocol(Hitl.Advance(i, pick, toolCalling)); !Served(Step(j, a), k) <==> Loses(j, a, k)
  {
    var s, h := j.calls, j.calls.handlers[i];
    var e := Hitl.Next(s, h, pick, toolCalling);
    ExpiryEffect(s, h, pick, toolCalling, k);
    DebtsAfterAdvance(j, i, e, k);
    assert PendingOf(e.rows, k) == {} <==> h.id in s.rows && PendingOf(s.rows, k) == {h.id};
    assert Unread(j.(calls := Hitl.Apply(s, i, e)), k) <==> Unread(j, k);
  }

  // An effect after which the handler owes k a count, or k has no answer.
  lemma OwingIsServed(j: Joint, i: nat, e: Hitl.Effect, k: CheckpointId)
    requires i < |j.calls.handlers| && j.taken <= |j.calls.tasks|
    requires PendingOf(e.rows, k) == {} ==> Hitl.Owes(e.next, k) || ResolvedOf(e.rows, k) == {}
    ensures Served(j.(calls := Hitl.Apply(j.calls, i, e)), k)
  {
    DebtsAfterAdvance(j, i, e, k);
  }

  lemma ClearingIsServed(j: Joint, i: nat, pick: CheckpointId, toolCalling: bool, k: CheckpointId)
    requires Ok(j) && i < |j.calls.handlers| && !j.calls.handlers[i].ResumeExpire?
    requires PendingOf(j.calls.rows, k) != {}
    ensures Served(Step(j, Protocol(Hitl.Advance(i, pick, toolCalling))), k)
  {
    var s, h := j.calls, j.calls.handlers[i];
    ClearingOwesOrWipes(s, h, pick, toolCalling, k);
    OwingIsServed(j, i, Hitl.Next(s, h, pick, toolCalling), k);
  }

  lemma ClearingOwesOrWipes(s: Hitl.System, h: Hitl.Handler, pick: CheckpointId, toolCalling: bool, k: CheckpointId)
    requires h.SweepMark? ==> forall id :: id in h.ids ==> id in s.rows && s.rows[id].checkpoint in h.groups
    requires !h.ResumeExpire? && PendingOf(s.rows, k) != {}
    ensures var e := Hitl.Next(s, h, pick, toolCalling);
            PendingOf(e.rows, k) == {} ==> Hitl.Owes(e.next, k) || ResolvedOf(e.rows, k) == {}
  {
    if PendingOf(Hitl.Next(s, h, pick, toolCalling).rows, k) == {} {
      ClearingOwes(s, h, pick, toolCalling, k);
      if h.SweepWipe? && h.k == k { WipedHasNoAnswer(s, h, pick, toolCalling); }
    }
  }

  lemma WipedHasNoAnswer(s: Hitl.System, h: Hitl.Handler, pick: CheckpointId, toolCalling: bool)
    requires h.SweepWipe? && PendingOf(Hitl.Next(s, h, pick, toolCalling).rows, h.k) != PendingOf(s.rows, h.k)
    ensures ResolvedOf(Hitl.Next(s, h, pick, toolCalling).rows, h.k) == {}
  {
  }

  // Some call of k pending before the step.
  lemma PendingStepLosesIff(j: Joint, i: nat, pick: CheckpointId, toolCalling: bool, k: CheckpointId)
    requires Ok(j) && i < |j.calls.handlers| && PendingOf(j.calls.rows, k) != {}
    ensures var a := Protocol(Hitl.Advance(i, pick, toolCalling)); !Served(Step(j, a), k) <==> Loses(j, a, k)
  {
    if j.calls.handlers[i].ResumeExpire? {
      ExpiryLosesIff(j, i, pick, toolCalling, k);
    } else {
      ClearingIsServed(j, i, pick, toolCalling, k);
    }
  }

  lemma BeginningOwesNothing(s: Hitl.System, b: Hitl.Action, k: CheckpointId)
    requires !b.Advance?
    ensures var s' := Hitl.Step(s, b);
            && s'.rows == s.rows && s'.tasks == s.tasks
            && (HandlerOwes(s, k) ==> HandlerOwes(s', k))
            && (PendingOf(s.rows, k) == {} && HandlerOwes(s', k) ==> HandlerOwes(s, k))
  {
    var s' := Hitl.Step(s, b);
    if i :| 0 <= i < |s.handlers| && Hitl.Owes(s.handlers[i], k) { assert Hitl.Owes(s'.handlers[i], k); }
    if PendingOf(s.rows, k) == {} {
      if b.BeginSweep? && k in (set id | id in b.ids && id in s.rows :: s.rows[id].checkpoint) {
        var id :| id in b.ids && id in s.rows && s.rows[id].checkpoint == k;
        assert id !in PendingOf(s.rows, k);
      }
      if i :| 0 <= i < |s'.handlers| && Hitl.Owes(s'.handlers[i], k) { assert i < |s.handlers|; }
    }
  }

  lemma TakeKeepsDebt(j: Joint, k: CheckpointId)
    requires j.taken < |j.calls.tasks|
    ensures Debt(Step(j, Take), k) <==> Debt(j, k)
  {
    var j' := Step(j, Take);
    var last := |j.resumers|;
    assert j'.resumers[last] == Resumer(j.calls.tasks[j.taken], CheckProcessed);
    if Queued(j, k) {
      var i :| j.taken <= i < |j.calls.tasks| && j.calls.tasks[i] == k;
      if i == j.taken { assert Owing(j'.resumers[last], k); } else { assert Queued(j', k); }
    }
    if i :| 0 <= i < |j.resumers| && Owing(j.resumers[i], k) { assert Owing(j'.resumers[i], k); }
    if i :| 0 <= i < |j'.resumers| && Owing(j'.resumers[i], k) {
      if i == last { assert j.calls.tasks[j.taken] == k; } else { assert Owing(j.resumers[i], k); }
    }
  }

  // Worker i is the only one that changes.
  lemma ResumersAfterMove(j: Joint, i: nat, stage: Stage, k: CheckpointId)
    requires i < |j.resumers|
    ensures ResumerOwes(j, k) <==> OtherResumerOwes(j, i, k) || Owing(j.resumers[i], k)
    ensures ResumerOwes(MoveTo(j, i, stage), k)
            <==> OtherResumerOwes(j, i, k) || Owing(Resumer(j.resumers[i].checkpoint, stage), k)
  {
    var j' := MoveTo(j, i, stage);
    if l :| 0 <= l < |j.resumers| && Owing(j.resumers[l], k) { assert l == i || OtherResumerOwes(j, i, k); }
    if OtherResumerOwes(j, i, k) {
      var l :| 0 <= l < |j.resumers| && l != i && Owing(j.resumers[l], k);
      assert Owing(j'.resumers[l], k);
    }
    if l :| 0 <= l < |j'.resumers| && Owing(j'.resumers[l], k) { assert l != i ==> Owing(j.resumers[l], k); }
    if Owing(Resumer(j.resumers[i].checkpoint, stage), k) { assert Owing(j'.resumers[i], k); }
  }

  lemma CreationLeavesAnswers(t: Table, k': CheckpointId, id: RcId, row: Row, k: CheckpointId)
    ensures ResolvedOf(Created(t, k', id, row), k) == ResolvedOf(t, k)
    ensures PendingOf(t, k) <= PendingOf(Created(t, k', id, row), k)
    ensures k != k' ==> PendingOf(Created(t, k', id, row), k) == PendingOf(t, k)
  {
  }

  // A chore of a worker of k' neither answers anything nor owes anything.
  lemma ChoreKeepsServed(j: Joint, i: nat, k: CheckpointId)
    requires Served(j, k) && i < |j.resumers| && j.resumers[i].stage.Chores?
    ensures Served(WorkStep(j, i, Finishes), k)
    ensures forall e :: WorkStep(j, i, e) == WorkStep(j, i, Finishes)
  {
    var k', left := j.resumers[i].checkpoint, j.resumers[i].stage.left;
    var stage := if left == [] then Gone else Chores(left[1..]);
    ResumersAfterMove(j, i, stage, k);
    if left != [] {
      var j1 := DoChore(j, k', left[0]);
      assert j1.resumers == j.resumers && j1.calls.handlers == j.calls.handlers && j1.calls.tasks == j.calls.tasks;
      ResumersAfterMove(j1, i, stage, k);
      if left[0].Create? { CreationLeavesAnswers(j.calls.rows, k', left[0].id, left[0].row, k); }
      if left[0].DeleteCalls? && k' != k { DeletionLeavesOthers(j.calls.rows, k', k); }
    }
  }

  lemma WorkServesIff(j: Joint, i: nat, e: Ending, k: CheckpointId)
    requires Served(j, k) && i < |j.resumers|
    ensures !Served(Step(j, Work(i, e)), k) <==> Loses(j, Work(i, e), k)
  {
    var r := j.resumers[i];
    var j' := WorkStep(j, i, e);
    if r.stage.Chores? {
      ChoreKeepsServed(j, i, k);
    } else {
      ResumersAfterMove(j, i, j'.resumers[i].stage, k);
      assert j'.resumers == MoveTo(j, i, j'.resumers[i].stage).resumers;
      assert j'.calls == j.calls && j'.taken == j.taken;
      assert ResumerOwes(j', k) <==> ResumerOwes(MoveTo(j, i, j'.resumers[i].stage), k);
    }
  }

  lemma StepServesIff(j: Joint, a: Action, k: CheckpointId)
    requires Ok(j) && Served(j, k)
    ensures !Served(Step(j, a), k) <==> Loses(j, a, k)
  {
    match a
    case Take => if j.taken < |j.calls.tasks| { TakeKeepsDebt(j, k); }
    case Work(i, e) => if i < |j.resumers| { WorkServesIff(j, i, e, k); }
    case Protocol(b) =>
      if !b.Advance? {
        BeginningOwesNothing(j.calls, b, k);
      } else if b.i < |j.calls.handlers| {
        if PendingOf(j.calls.rows, k) == {} {
          SettledStepLosesIff(j, b.i, b.pick, b.toolCalling, k);
        } else {
          PendingStepLosesIff(j, b.i, b.pick, b.toolCalling, k);
        }
      }
  }

  // --------------------------------------------------------------------
  // Deleted answers
  // --------------------------------------------------------------------

  // Apart from new pending rows, the table keeps its rows, its deletions and its answers.
  ghost predicate KeepsAnswers(t: Table, t': Table) {
    && (forall id :: id in t ==> id in t' && t'[id].checkpoint == t[id].checkpoint && t'[id].deleted == t[id].deleted)
    && (forall id :: id in t && (t[id].deleted || t[id].status == Resolved) ==> t'[id].status == t[id].status)
    && (forall id :: id in t' && id !in t ==> !t'[id].deleted)
  }

  // Soft-deleted rows are invisible to every conditional update.
  ghost predicate LeavesDeleted(t: Table, t': Table) {
    forall id :: id in t && t[id].deleted ==> id in t' && t'[id] == t[id]
  }

  lemma ClaimsKeepAnswers(t: Table, t': Table)
    requires Claims(t, t') && LeavesDeleted(t, t')
    ensures KeepsAnswers(t, t')
  {
  }

  lemma OneRowLeavesDeleted(t: Table, id: RcId, success: bool, answer: string)
    ensures LeavesDeleted(t, Resolve(t, id, success, answer).0) && LeavesDeleted(t, MarkExpired(t, id).0)
  {
  }

  lemma NextLeavesDeleted(s: Hitl.System, h: Hitl.Handler, pick: CheckpointId, toolCalling: bool)
    requires !h.SweepWipe?
    ensures LeavesDeleted(s.rows, Hitl.Next(s, h, pick, toolCalling).rows)
  {
    var rows := Hitl.Next(s, h, pick, toolCalling).rows;
    if h.ResumeExpire? {
      OneRowLeavesDeleted(s.rows, h.id, true, "");
    } else if h.ResumeResolve? {
      OneRowLeavesDeleted(s.rows, h.id, h.success, h.answer);
    } else if h.SweepMark? && h.ids != [] {
      OneRowLeavesDeleted(s.rows, h.ids[0], true, "");
    } else if h.ResumeSiblings? {
      assert rows == MarkExpiredByCheckpoint(s.rows, h.k, s.now);
    } else if h.CancelRun? {
      assert rows == CancelByCheckpoint(s.rows, h.k).0;
    } else {
      assert rows == s.rows;
    }
  }

  lemma NextKeepsAnswers(s: Hitl.System, h: Hitl.Handler, pick: CheckpointId, toolCalling: bool)
    requires !h.SweepWipe?
    ensures KeepsAnswers(s.rows, Hitl.Next(s, h, pick, toolCalling).rows)
  {
    Hitl.NextSettles(s, h, pick, toolCalling);
    NextLeavesDeleted(s, h, pick, toolCalling);
    ClaimsKeepAnswers(s.rows, Hitl.Next(s, h, pick, toolCalling).rows);
  }

  lemma KeptAnswersStay(t: Table, t': Table, k: CheckpointId, id: RcId)
    requires KeepsAnswers(t, t')
    ensures id in AnswersOf(t', k) && t'[id].deleted <==> id in AnswersOf(t, k) && t[id].deleted
  {
  }

  lemma KeepingErasesNothing(j: Joint, j': Joint, k: CheckpointId)
    requires KeepsAnswers(j.calls.rows, j'.calls.rows) && j.read <= j'.read
    requires forall id :: id in j'.read - j.read ==> id in j.calls.rows && !j.calls.rows[id].deleted
    ensures Erased(j', k) <==> Erased(j, k)
  {
    if id :| id in AnswersOf(j.calls.rows, k) && j.calls.rows[id].deleted && id !in j.read {
      KeptAnswersStay(j.calls.rows, j'.calls.rows, k, id);
    }
    if id :| id in AnswersOf(j'.calls.rows, k) && j'.calls.rows[id].deleted && id !in j'.read {
      KeptAnswersStay(j.calls.rows, j'.calls.rows, k, id);
    }
  }

  lemma DeletingErasesIff(j: Joint, j': Joint, k': CheckpointId, k: CheckpointId)
    requires j'.calls.rows == DeleteByCheckpoint(j.calls.rows, k') && j'.read == j.read
    ensures Erased(j', k) <==> Erased(j, k) || (k' == k && Unread(j, k))
  {
    var t, t' := j.calls.rows, j'.calls.rows;
    assert AnswersOf(t', k) == AnswersOf(t, k);
    if id :| id in AnswersOf(t, k) && t[id].deleted && id !in j.read { assert t'[id].deleted; }
    if k' == k && Unread(j, k) {
      var id :| id in ResolvedOf(t, k) && id !in j.read;
      assert id in AnswersOf(t, k) && t'[id].deleted;
    }
    if id :| id in AnswersOf(t', k) && t'[id].deleted && id !in j'.read {
      assert t[id].deleted || (k' == k && id in ResolvedOf(t, k));
    }
  }

  lemma AdvanceErasesIff(j: Joint, i: nat, pick: CheckpointId, toolCalling: bool, k: CheckpointId)
    requires i < |j.calls.handlers|
    ensures var a := Protocol(Hitl.Advance(i, pick, toolCalling));
            Erased(Step(j, a), k) <==> Erased(j, k) || Erases(j, a, k)
  {
    var h := j.calls.handlers[i];
    var j' := Step(j, Protocol(Hitl.Advance(i, pick, toolCalling)));
    if h.SweepWipe? {
      if toolCalling { DeletingErasesIff(j, j', h.k, k); }
    } else {
      NextKeepsAnswers(j.calls, h, pick, toolCalling);
      KeepingErasesNothing(j, j', k);
    }
  }

  lemma WorkErasesIff(j: Joint, i: nat, e: Ending, k: CheckpointId)
    requires i < |j.resumers|
    ensures Erased(Step(j, Work(i, e)), k) <==> Erased(j, k) || Erases(j, Work(i, e), k)
  {
    var r, j' := j.resumers[i], WorkStep(j, i, e);
    if DeletesNext(r.stage) {
      DeletingErasesIff(j, j', r.checkpoint, k);
    } else {
      WorkKeepsAnswers(j, i, e);
      KeepingErasesNothing(j, j', k);
    }
  }

  lemma WorkKeepsAnswers(j: Joint, i: nat, e: Ending)
    requires i < |j.resumers| && !DeletesNext(j.resumers[i].stage)
    ensures var j' := WorkStep(j, i, e);
            && KeepsAnswers(j.calls.rows, j'.calls.rows) && j.read <= j'.read
            && forall id :: id in j'.read - j.read ==> id in j.calls.rows && !j.calls.rows[id].deleted
  {
  }

  /** A step erases an unread answer exactly when it deletes the calls of the checkpoint while
      there is one; what is erased stays erased. */
  lemma StepErasesIff(j: Joint, a: Action, k: CheckpointId)
    ensures Erased(Step(j, a), k) <==> Erased(j, k) || Erases(j, a, k)
  {
    match a
    case Take => KeepingErasesNothing(j, Step(j, a), k);
    case Work(i, e) => if i < |j.resumers| { WorkErasesIff(j, i, e, k); }
    case Protocol(b) =>
      if b.Advance? && b.i < |j.calls.handlers| {
        AdvanceErasesIff(j, b.i, b.pick, b.toolCalling, k);
      } else {
        KeepingErasesNothing(j, Step(j, a), k);
      }
  }

  /** A step of a worker puts an answer out of reach exactly when the worker skips a marked
      checkpoint with nobody else on the way, or deletes the calls with an answer unread. */
  lemma WorkLosesIff(j: Joint, i: nat, e: Ending, k: CheckpointId)
    requires Safe(j, k) && i < |j.resumers|
    ensures !Safe(Step(j, Work(i, e)), k) <==> Loses(j, Work(i, e), k) || Erases(j, Work(i, e), k)
  {
    WorkServesIff(j, i, e, k);
    WorkErasesIff(j, i, e, k);
  }

  /** A step puts an answer that was safe out of reach exactly when it is one of the three that
      lose the wake-up or one of the two that erase. */
  lemma StepLosesIff(j: Joint, a: Action, k: CheckpointId)
    requires Ok(j) && Safe(j, k)
    ensures !Safe(Step(j, a), k) <==> Loses(j, a, k) || Erases(j, a, k)
  {
    StepServesIff(j, a, k);
    StepErasesIff(j, a, k);
  }

  // --------------------------------------------------------------------
  // Whole runs
  // --------------------------------------------------------------------

  lemma ProtocolKeepsOk(s: Hitl.System, b: Hitl.Action)
    requires SweepsCount(s)
    ensures SweepsCount(Hitl.Step(s, b)) && |Hitl.Step(s, b).tasks| >= |s.tasks|
  {
    var s' := Hitl.Step(s, b);
    Hitl.StepSettles(s, b);
    forall i, id | 0 <= i < |s'.handlers| && s'.handlers[i].SweepMark? && id in s'.handlers[i].ids
      ensures id in s'.rows && s'.rows[id].checkpoint in s'.handlers[i].groups
    {
      if i < |s.handlers| { NewMarksAreOld(s, b, i); }
    }
  }

  // A sweep that still has rows to mark was marking rows of the same groups before.
  lemma NextMarksAreOld(s: Hitl.System, h: Hitl.Handler, pick: CheckpointId, toolCalling: bool)
    requires Hitl.Next(s, h, pick, toolCalling).next.SweepMark?
    ensures var next := Hitl.Next(s, h, pick, toolCalling).next;
            h.SweepMark? && h.groups == next.groups && forall id :: id in next.ids ==> id in h.ids
  {
    if !Hitl.Sweeping(h) { Hitl.OthersDoNotSweep(s, h, pick, toolCalling); }
  }

  lemma NewMarksAreOld(s: Hitl.System, b: Hitl.Action, i: nat)
    requires i < |s.handlers| && Hitl.Step(s, b).handlers[i].SweepMark?
    ensures var h, h' := s.handlers[i], Hitl.Step(s, b).handlers[i];
            h.SweepMark? && h.groups == h'.groups && forall id :: id in h'.ids ==> id in h.ids
  {
    if b.Advance? && b.i == i { NextMarksAreOld(s, s.handlers[i], b.pick, b.toolCalling); }
  }

  lemma StepKeepsOk(j: Joint, a: Action)
    requires Ok(j)
    ensures Ok(Step(j, a))
  {
    if a.Protocol? { ProtocolKeepsOk(j.calls, a.a); }
  }

  lemma {:induction false} RunKeepsOk(j: Joint, actions: seq<Action>)
    requires Ok(j)
    ensures Ok(Run(j, actions))
    decreases |actions|
  {
    if actions != [] {
      StepKeepsOk(j, actions[0]);
      RunKeepsOk(Step(j, actions[0]), actions[1..]);
    }
  }

  ghost predicate LosesNothing(j: Joint, actions: seq<Action>, k: CheckpointId)
    decreases |actions|
  {
    actions == [] || (!Loses(j, actions[0], k) && LosesNothing(Step(j, actions[0]), actions[1..], k))
  }

  lemma {:induction false} RunKeepsServed(j: Joint, actions: seq<Action>, k: CheckpointId)
    requires Ok(j) && Served(j, k) && LosesNothing(j, actions, k)
    ensures Ok(Run(j, actions)) && Served(Run(j, actions), k)
    decreases |actions|
  {
    if actions != [] {
      StepServesIff(j, actions[0], k);
      StepKeepsOk(j, actions[0]);
      RunKeepsServed(Step(j, actions[0]), actions[1..], k);
    }
  }

  ghost predicate ErasesNothing(j: Joint, actions: seq<Action>, k: CheckpointId)
    decreases |actions|
  {
    actions == [] || (!Erases(j, actions[0], k) && ErasesNothing(Step(j, actions[0]), actions[1..], k))
  }

  /** Over a run an answer is erased exactly when some step of it erases. */
  lemma {:induction false} RunErasesIff(j: Joint, actions: seq<Action>, k: CheckpointId)
    ensures Erased(Run(j, actions), k) <==> Erased(j, k) || !ErasesNothing(j, actions, k)
    decreases |actions|
  {
    if actions != [] {
      StepErasesIff(j, actions[0], k);
      RunErasesIff(Step(j, actions[0]), actions[1..], k);
    }
  }

  function Start(rows: Table, keys: Keys): Joint {
    Joint(Hitl.Start(rows), keys, 0, [], {})
  }

  /** When a run that loses no wake-up has come to where nobody owes k a reading and no call of
      k is pending, all the answers k ever got were read for an agent run, exactly when
      no step of the run erased one. */
  lemma EveryAnswerIsReadIff(rows: Table, keys: Keys, actions: seq<Action>, k: CheckpointId)
    requires AnswersOf(rows, k) == {} && LosesNothing(Start(rows, keys), actions, k)
    requires var j := Run(Start(rows, keys), actions); PendingOf(j.calls.rows, k) == {} && !Debt(j, k)
    ensures var j := Run(Start(rows, keys), actions);
            AnswersOf(j.calls.rows, k) <= j.read <==> ErasesNothing(Start(rows, keys), actions, k)
  {
    var start, j := Start(rows, keys), Run(Start(rows, keys), actions);
    assert ResolvedOf(rows, k) <= AnswersOf(rows, k);
    RunKeepsServed(start, actions, k);
    RunErasesIff(start, actions, k);
    forall id | id in AnswersOf(j.calls.rows, k) && !j.calls.rows[id].deleted ensures id in j.read {
      assert id in ResolvedOf(j.calls.rows, k);
    }
  }

  /** An erased answer is never read by any later run. */
  lemma {:induction false} ErasedAnswerIsNeverRead(j: Joint, actions: seq<Action>, id: RcId)
    requires id in j.calls.rows && j.calls.rows[id].deleted && id !in j.read
    ensures id !in Run(j, actions).read
    decreases |actions|
  {
    if actions != [] {
      DeletedStaysUnread(j, actions[0], id);
      ErasedAnswerIsNeverRead(Step(j, actions[0]), actions[1..], id);
    }
  }

  lemma DeletedStaysUnread(j: Joint, a: Action, id: RcId)
    requires id in j.calls.rows && j.calls.rows[id].deleted && id !in j.read
    ensures var j' := Step(j, a); id in j'.calls.rows && j'.calls.rows[id].deleted && id !in j'.read
  {
    if a.Protocol? { Hitl.StepSettles(j.calls, a.a); }
  }

  // --------------------------------------------------------------------
  // What is lost stays lost
  // --------------------------------------------------------------------

  // A worker that may still create a call.
  predicate MayPause(r: Resumer, k: CheckpointId) {
    r.checkpoint == k && (r.stage.RunAgent? || (r.stage.Chores? && exists c :: c in r.stage.left && c.Create?))
  }

  ghost predicate Quiet(j: Joint, k: CheckpointId) {
    forall i :: 0 <= i < |j.resumers| ==> !MayPause(j.resumers[i], k)
  }

  ghost predicate Lost(j: Joint, k: CheckpointId) {
    Ok(j) && PendingOf(j.calls.rows, k) == {} && !Debt(j, k) && Quiet(j, k)
  }

  lemma ProtocolKeepsLost(j: Joint, b: Hitl.Action, k: CheckpointId)
    requires Lost(j, k)
    ensures Lost(Step(j, Protocol(b)), k)
  {
    StepKeepsOk(j, Protocol(b));
    Hitl.StepSettles(j.calls, b);
    SettledStaysSettled(j.calls.rows, Hitl.Step(j.calls, b).rows, k);
    if !b.Advance? {
      BeginningOwesNothing(j.calls, b, k);
    } else if b.i < |j.calls.handlers| {
      DebtsBefore(j, b.i, k);
      DebtsAfterAdvance(j, b.i, Hitl.Next(j.calls, j.calls.handlers[b.i], b.pick, b.toolCalling), k);
      Hitl.NoNewDebt(j.calls, j.calls.handlers[b.i], b.pick, b.toolCalling, k);
    }
  }

  lemma ChoreKeepsSettled(j: Joint, k': CheckpointId, c: Chore, k: CheckpointId)
    requires PendingOf(j.calls.rows, k) == {} && (c.Create? ==> k' != k)
    ensures PendingOf(DoChore(j, k', c).calls.rows, k) == {}
  {
    if c.Create? { CreationLeavesAnswers(j.calls.rows, k', c.id, c.row, k); }
    if c.DeleteCalls? && k' != k { DeletionLeavesOthers(j.calls.rows, k', k); }
  }

  lemma WorkKeepsLost(j: Joint, i: nat, e: Ending, k: CheckpointId)
    requires Lost(j, k) && i < |j.resumers|
    ensures Lost(WorkStep(j, i, e), k)
  {
    var r, j' := j.resumers[i], WorkStep(j, i, e);
    StepKeepsOk(j, Work(i, e));
    if r.stage.Chores? && r.stage.left != [] { ChoreKeepsSettled(j, r.checkpoint, r.stage.left[0], k); }
    ResumersAfterMove(j, i, j'.resumers[i].stage, k);
    assert j'.resumers == MoveTo(j, i, j'.resumers[i].stage).resumers;
    assert ResumerOwes(j', k) <==> ResumerOwes(MoveTo(j, i, j'.resumers[i].stage), k);
    forall l | 0 <= l < |j'.resumers| ensures !MayPause(j'.resumers[l], k) {
      assert !MayPause(j.resumers[l], k);
    }
  }

  // A worker that is not on its way to the answers of k reads none of them.
  lemma OthersReadOthers(j: Joint, i: nat, e: Ending, k: CheckpointId, id: RcId)
    requires i < |j.resumers| && !Owing(j.resumers[i], k)
    requires id in j.calls.rows && j.calls.rows[id].checkpoint == k && id !in j.read
    ensures var j' := WorkStep(j, i, e);
            id in j'.calls.rows && j'.calls.rows[id].checkpoint == k && id !in j'.read
  {
  }

  lemma StepKeepsLost(j: Joint, a: Action, k: CheckpointId, id: RcId)
    requires Lost(j, k) && id in j.calls.rows && j.calls.rows[id].checkpoint == k && id !in j.read
    ensures var j' := Step(j, a);
            Lost(j', k) && id in j'.calls.rows && j'.calls.rows[id].checkpoint == k && id !in j'.read
  {
    match a
    case Protocol(b) =>
      ProtocolKeepsLost(j, b, k);
      Hitl.StepSettles(j.calls, b);
    case Take =>
      if j.taken < |j.calls.tasks| { TakeKeepsDebt(j, k); }
    case Work(i, e) =>
      if i < |j.resumers| {
        assert !Owing(j.resumers[i], k);
        WorkKeepsLost(j, i, e, k);
        OthersReadOthers(j, i, e, k, id);
      }
  }

  /** Once the wake-up is lost and no worker of k may pause again, no run ever reads an
      unread answer of k. */
  lemma {:induction false} LostAnswerIsNeverRead(j: Joint, actions: seq<Action>, k: CheckpointId, id: RcId)
    requires Lost(j, k) && id in j.calls.rows && j.calls.rows[id].checkpoint == k && id !in j.read
    ensures id !in Run(j, actions).read
    decreases |actions|
  {
    if actions != [] {
      StepKeepsLost(j, actions[0], k, id);
      LostAnswerIsNeverRead(Step(j, actions[0]), actions[1..], k, id);
    }
  }

  // --------------------------------------------------------------------
  // An answer between the creation of a call and the deletion of the key
  // --------------------------------------------------------------------

  // agent_resume for one call, left alone.
  function AnswerAlone(j: Joint, k: CheckpointId, id: RcId, answer: string): Joint {
    Run(j, Lifted(Hitl.Uninterrupted(j.calls, k, id, true, answer)))
  }

  function Lifted(actions: seq<Hitl.Action>): seq<Action> {
    seq(|actions|, i requires 0 <= i < |actions| => Protocol(actions[i]))
  }

  // Worker a creates its call and perhaps deletes the in-progress key too.
  function Pausing(j: Joint, a: nat, keyDeleted: bool): Joint {
    var created := Step(j, Work(a, Finishes));
    if keyDeleted then Step(created, Work(a, Finishes)) else created
  }

  // The queue hands out the next task and its worker checks both keys.
  function TakeAndCheck(j: Joint): Joint {
    var n := |j.resumers|;
    Step(Step(Step(j, Take), Work(n, Finishes)), Work(n, Finishes))
  }

  /** Worker a pauses with a new call, the call is answered, and ms later the resume is
      taken off the queue. keyDeleted says whether the deletion of the in-progress key
      came before the answer. */
  function AnsweredWhilePausing(j: Joint, a: nat, id: RcId, answer: string, keyDeleted: bool, ms: nat): Joint
    requires a < |j.resumers|
  {
    TakeAndCheck(Step(AnswerWhilePausing(j, a, id, answer, keyDeleted), Protocol(Hitl.Tick(ms))))
  }

  function AnswerWhilePausing(j: Joint, a: nat, id: RcId, answer: string, keyDeleted: bool): Joint
    requires a < |j.resumers|
  {
    AnswerAlone(Pausing(j, a, keyDeleted), j.resumers[a].checkpoint, id, answer)
  }

  // Worker a alone is at work on its checkpoint and is about to create call id.
  ghost predicate Alone(j: Joint, a: nat, id: RcId, row: Row) {
    && a < |j.resumers| && j.resumers[a].stage == Chores([Create(id, row), DeleteKey])
    && var k := j.resumers[a].checkpoint;
    && Ok(j) && j.taken == |j.calls.tasks| && PendingOf(j.calls.rows, k) == {} && !Debt(j, k)
    && (forall i :: 0 <= i < |j.resumers| && i != a ==> !MayPause(j.resumers[i], k))
    && id !in j.calls.rows && id !in j.read && !row.Overdue(j.calls.now)
    && j.keys.Processing(k) && !j.keys.Processed(k)
  }

  lemma {:induction false} LiftedRuns(j: Joint, actions: seq<Hitl.Action>)
    requires forall b :: b in actions ==> !b.Tick?
    ensures Run(j, Lifted(actions)) == j.(calls := Hitl.Run(j.calls, actions))
    decreases |actions|
  {
    if actions != [] {
      LiftedRuns(Step(j, Protocol(actions[0])), actions[1..]);
      assert Lifted(actions)[1..] == Lifted(actions[1..]);
    }
  }

  lemma PausingKeepsAlone(j: Joint, a: nat, id: RcId, row: Row, keyDeleted: bool)
    requires Alone(j, a, id, row)
    ensures var j', k := Pausing(j, a, keyDeleted), j.resumers[a].checkpoint;
            && Ok(j') && j'.taken == |j'.calls.tasks| && !Debt(j', k) && Quiet(j', k) && id !in j'.read
            && j'.calls == j.calls.(rows := Created(j.calls.rows, k, id, row))
            && j'.keys == (if keyDeleted then j.keys.DeleteProcessing(k) else j.keys)
  {
    var k := j.resumers[a].checkpoint;
    var left := if keyDeleted then [] else [DeleteKey];
    var j' := Pausing(j, a, keyDeleted);
    assert [Create(id, row), DeleteKey][1..] == [DeleteKey] && [DeleteKey][1..] == [];
    StepKeepsOk(j, Work(a, Finishes));
    StepKeepsOk(Step(j, Work(a, Finishes)), Work(a, Finishes));
    ResumersAfterMove(j, a, Chores(left), k);
    assert j'.resumers == MoveTo(j, a, Chores(left)).resumers;
    assert ResumerOwes(j', k) <==> ResumerOwes(MoveTo(j, a, Chores(left)), k);
    forall i | 0 <= i < |j'.resumers| ensures !MayPause(j'.resumers[i], k) {
      if i != a { assert !MayPause(j.resumers[i], k); }
    }
  }

  lemma OnlyTheRowLeaves(t: Table, t': Table, id: RcId, answer: string, now: nat)
    requires id in t && ResumeEffect(t, t', id, true, answer, now)
    ensures PendingOf(t', t[id].checkpoint) <= PendingOf(t, t[id].checkpoint) - {id}
  {
  }

  // Answering the only pending call of k enqueues one resume and leaves nothing pending.
  lemma AnsweringAlone(j: Joint, k: CheckpointId, id: RcId, answer: string)
    requires id in j.calls.rows && j.calls.rows[id].checkpoint == k && PendingOf(j.calls.rows, k) == {id}
    requires !j.calls.rows[id].Overdue(j.calls.now) && Ok(j)
    ensures var j' := AnswerAlone(j, k, id, answer);
            && j' == j.(calls := j'.calls) && Ok(j')
            && j'.calls.handlers == j.calls.handlers + [Hitl.Finished] && j'.calls.tasks == j.calls.tasks + [k]
            && PendingOf(j'.calls.rows, k) == {}
            && id in ResolvedOf(j'.calls.rows, k) && j'.calls.rows[id].checkpoint == k
  {
    var s := j.calls;
    var j' := AnswerAlone(j, k, id, answer);
    assert id in PendingOf(s.rows, k);
    Hitl.UninterruptedResume(s, id, true, answer);
    LiftedRuns(j, Hitl.Uninterrupted(s, k, id, true, answer));
    OnlyTheRowLeaves(s.rows, j'.calls.rows, id, answer, s.now);
    RunKeepsOk(j, Lifted(Hitl.Uninterrupted(s, k, id, true, answer)));
  }

  // The new worker is skipped exactly when the in-progress key is still alive.
  lemma TakeAndCheckIs(j: Joint, k: CheckpointId)
    requires j.taken < |j.calls.tasks| && j.calls.tasks[j.taken] == k && !j.keys.Processed(k)
    ensures var stage := if j.keys.Processing(k) then Gone else MarkProcessing;
            TakeAndCheck(j) == j.(taken := j.taken + 1, resumers := j.resumers + [Resumer(k, stage)])
  {
    var n := |j.resumers|;
    var j1 := Step(j, Take);
    assert j1.resumers == j.resumers + [Resumer(k, CheckProcessed)];
    var j2 := Step(j1, Work(n, Finishes));
    assert j2.resumers == j.resumers + [Resumer(k, CheckProcessing(false))];
  }

  ghost predicate NeverRead(j: Joint, id: RcId) {
    forall actions :: id !in Run(j, actions).read
  }

  // One resume of k waits in the queue for an answer that nobody else is going to read.
  ghost predicate OneResumeWaits(j: Joint, k: CheckpointId, id: RcId) {
    && Ok(j) && PendingOf(j.calls.rows, k) == {} && id in ResolvedOf(j.calls.rows, k) && id !in j.read
    && j.taken + 1 == |j.calls.tasks| && j.calls.tasks[j.taken] == k
    && !HandlerOwes(j.calls, k) && !ResumerOwes(j, k) && Quiet(j, k) && !j.keys.Processed(k)
  }

  lemma AnswerWhilePausingWaits(j: Joint, a: nat, id: RcId, row: Row, answer: string, keyDeleted: bool)
    requires Alone(j, a, id, row)
    ensures var k, j' := j.resumers[a].checkpoint, AnswerWhilePausing(j, a, id, answer, keyDeleted);
            OneResumeWaits(j', k, id) && j'.keys == if keyDeleted then j.keys.DeleteProcessing(k) else j.keys
  {
    var k := j.resumers[a].checkpoint;
    var j1 := Pausing(j, a, keyDeleted);
    PausingKeepsAlone(j, a, id, row, keyDeleted);
    assert PendingOf(j1.calls.rows, k) == {id};
    var j' := AnswerAlone(j1, k, id, answer);
    AnsweringAlone(j1, k, id, answer);
    forall i | 0 <= i < |j'.calls.handlers| ensures !Hitl.Owes(j'.calls.handlers[i], k) {
      if i < |j1.calls.handlers| { assert !Hitl.Owes(j1.calls.handlers[i], k); }
    }
    assert j'.resumers == j1.resumers;
  }

  lemma SkippedIsNeverRead(j: Joint, k: CheckpointId, id: RcId)
    requires OneResumeWaits(j, k, id)
    ensures NeverRead(j.(taken := j.taken + 1, resumers := j.resumers + [Resumer(k, Gone)]), id)
  {
    var j' := j.(taken := j.taken + 1, resumers := j.resumers + [Resumer(k, Gone)]);
    forall i | 0 <= i < |j'.resumers| ensures !Owing(j'.resumers[i], k) && !MayPause(j'.resumers[i], k) {
      if i < |j.resumers| { assert !Owing(j.resumers[i], k) && !MayPause(j.resumers[i], k); }
    }
    forall actions: seq<Action> ensures id !in Run(j', actions).read {
      LostAnswerIsNeverRead(j', actions, k, id);
    }
  }

  lemma LetThroughIsRead(j: Joint, n: nat, k: CheckpointId, id: RcId)
    requires n < |j.resumers| && j.resumers[n] == Resumer(k, MarkProcessing) && id in ResolvedOf(j.calls.rows, k)
    ensures !NeverRead(j, id)
  {
    var go := Work(n, Finishes);
    var j1 := Step(j, go);
    assert j1.resumers[n] == Resumer(k, ReadAnswers);
    assert [go, go][1..] == [go] && [go][1..] == [];
    assert Run(j, [go, go]) == Run(j1, [go]) == Run(Step(j1, go), []) == Step(j1, go);
    assert id in Run(j, [go, go]).read;
  }

  /** A worker pauses again by creating a call and then deleting its in-progress key. An answer
      to the new call is never read for an agent run, whatever happens afterwards, exactly
      when it came before the deletion and its resume was checked while the key lived. */
  lemma AnswerWhilePausingIsNeverReadIff(j: Joint, a: nat, id: RcId, row: Row, answer: string,
                                         keyDeleted: bool, ms: nat)
    requires Alone(j, a, id, row)
    ensures var k, j' := j.resumers[a].checkpoint, AnsweredWhilePausing(j, a, id, answer, keyDeleted, ms);
            && id in ResolvedOf(j'.calls.rows, k) && PendingOf(j'.calls.rows, k) == {}
            && (NeverRead(j', id) <==> !keyDeleted && j.keys.now + ms <= j.keys.processing[k])
  {
    var k := j.resumers[a].checkpoint;
    AnswerWhilePausingWaits(j, a, id, row, answer, keyDeleted);
    var waiting := Step(AnswerWhilePausing(j, a, id, answer, keyDeleted), Protocol(Hitl.Tick(ms)));
    assert OneResumeWaits(waiting, k, id);
    TakeAndCheckIs(waiting, k);
    if waiting.keys.Processing(k) {
      SkippedIsNeverRead(waiting, k, id);
    } else {
      LetThroughIsRead(TakeAndCheck(waiting), |waiting.resumers|, k, id);
    }
  }
}
