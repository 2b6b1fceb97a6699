/** Concurrent agent_resume and cancel_remote_calls handlers beside the sweep
    that expires overdue calls: every database statement, Redis command and
    enqueue is one step, in any interleaving. The rows are a fixed set: no step
    creates one. */
module HitlProtocol {
  import opened Option
  import opened RemoteCalling

  // Where a handler or a sweep stands; each name says what it is about to do.
  datatype Handler =
    | ResumeLookUp(id: RcId, success: bool, answer: string)
    | ResumeCheckExpiry(id: RcId, success: bool, answer: string)
    | ResumeExpire(id: RcId)
    | ResumeResolve(id: RcId, success: bool, answer: string)
    | ResumeSiblings(k: CheckpointId)
    | ResumeCount(k: CheckpointId)
    | CancelLookUp(k: CheckpointId, member: bool)
    | CancelRun(k: CheckpointId)
    | CancelCount(k: CheckpointId, found: bool)
    | Enqueue(k: CheckpointId)
    | SweepMark(ids: seq<RcId>, groups: set<CheckpointId>)
    | SweepCount(groups: set<CheckpointId>)
    | SweepResolved(k: CheckpointId, groups: set<CheckpointId>)
    | SweepGuard(k: CheckpointId, groups: set<CheckpointId>)
    | SweepEnqueue(k: CheckpointId, groups: set<CheckpointId>)
    | SweepWipe(k: CheckpointId, groups: set<CheckpointId>)
    | Finished

  /** tasks is the resume queue and guards the SETNX keys of the sweep. The
      last three fields are history that no step reads: whether the step that
      last took a row of a checkpoint out of pending is one whose handler goes on
      to count, the checkpoints a sweep found without an answer, and the
      checkpoints it wiped. */
  datatype System = System(now: nat, rows: Table, handlers: seq<Handler>, tasks: seq<CheckpointId>,
                           guards: map<CheckpointId, nat>,
                           counting: map<CheckpointId, bool>, unanswered: set<CheckpointId>, wiped: set<CheckpointId>)

  datatype Action =
    | Tick(ms: nat)
    | BeginResume(id: RcId, success: bool, answer: string)
    | BeginCancel(k: CheckpointId, member: bool)
    | BeginSweep(ids: seq<RcId>)
    | Advance(i: nat, pick: CheckpointId, toolCalling: bool)

  const GUARD_TTL: nat := 300_000

  /** What one step of a handler does: the row table it leaves, the checkpoint
      whose rows it claims and whether the handler counts afterwards, and what it
      adds to the queue, the guards and the history. */
  datatype Effect = Effect(next: Handler, rows: Table, claims: Option<CheckpointId>, counts: bool,
                           task: Option<CheckpointId>, guard: Option<CheckpointId>,
                           unanswered: Option<CheckpointId>, wiped: Option<CheckpointId>)

  function GoTo(rows: Table, next: Handler): Effect {
    Effect(next, rows, None, false, None, None, None, None)
  }

  function ResumeNext(h: Handler, now: nat, rows: Table): Effect {
    match h
    case ResumeLookUp(id, success, answer) =>
      GoTo(rows, if id !in rows || rows[id].status != Pending then Finished else ResumeCheckExpiry(id, success, answer))
    case ResumeCheckExpiry(id, success, answer) =>
      GoTo(rows, if id in rows && rows[id].Overdue(now) then ResumeExpire(id) else ResumeResolve(id, success, answer))
    case ResumeExpire(id) =>
      if id !in rows then GoTo(rows, Finished)
      else GoTo(MarkExpired(rows, id).0, Finished).(claims := Some(rows[id].checkpoint))
    case ResumeResolve(id, success, answer) =>
      var (rows', claim) := Resolve(rows, id, success, answer);
      if claim != Claimed then GoTo(rows, Finished)
      else GoTo(rows', ResumeSiblings(rows[id].checkpoint)).(claims := Some(rows[id].checkpoint), counts := true)
    case ResumeSiblings(k) =>
      GoTo(MarkExpiredByCheckpoint(rows, k, now), ResumeCount(k)).(claims := Some(k), counts := true)
    case ResumeCount(k) =>
      GoTo(rows, if |PendingOf(rows, k)| > 0 then Finished else Enqueue(k))
    case _ => GoTo(rows, h)
  }

  function CancelNext(h: Handler, rows: Table): Effect {
    match h
    case CancelLookUp(k, member) =>
      GoTo(rows, if PendingOf(rows, k) == {} || !member then Finished else CancelRun(k))
    case CancelRun(k) =>
      var (rows', found) := CancelByCheckpoint(rows, k);
      GoTo(rows', CancelCount(k, found)).(claims := Some(k), counts := found)
    case CancelCount(k, found) =>
      GoTo(rows, if |PendingOf(rows, k)| == 0 && found then Enqueue(k) else Finished)
    case Enqueue(k) =>
      GoTo(rows, Finished).(task := Some(k))
    case _ => GoTo(rows, h)
  }

  function SweepNext(h: Handler, now: nat, rows: Table, guards: map<CheckpointId, nat>,
                     pick: CheckpointId, toolCalling: bool): Effect
  {
    match h
    case SweepMark(ids, groups) =>
      if ids == [] then GoTo(rows, SweepCount(groups))
      else if ids[0] !in rows then GoTo(rows, SweepMark(ids[1..], groups))
      else GoTo(MarkExpired(rows, ids[0]).0, SweepMark(ids[1..], groups))
           .(claims := Some(rows[ids[0]].checkpoint), counts := true)
    case SweepCount(groups) =>
      // Go ranges over the groups in an arbitrary order.
      GoTo(rows, if groups == {} then Finished
                 else if pick !in groups then h
                 else if |PendingOf(rows, pick)| == 0 then SweepResolved(pick, groups - {pick})
                 else SweepCount(groups - {pick}))
    case SweepResolved(k, groups) =>
      if |ResolvedOf(rows, k)| > 0 then GoTo(rows, SweepGuard(k, groups))
      else GoTo(rows, SweepWipe(k, groups)).(unanswered := Some(k))
    case SweepGuard(k, groups) =>
      if k in guards && now <= guards[k] then GoTo(rows, SweepCount(groups))
      else GoTo(rows, SweepEnqueue(k, groups)).(guard := Some(k))
    case SweepEnqueue(k, groups) =>
      GoTo(rows, SweepCount(groups)).(task := Some(k))
    case SweepWipe(k, groups) =>
      // Only a conversation still in tool_calling is wiped.
      if !toolCalling then GoTo(rows, SweepCount(groups))
      else GoTo(DeleteByCheckpoint(rows, k), SweepCount(groups)).(wiped := Some(k))
    case _ => GoTo(rows, h)
  }

  function Next(s: System, h: Handler, pick: CheckpointId, toolCalling: bool): Effect {
    match h
    case ResumeLookUp(_, _, _) | ResumeCheckExpiry(_, _, _) | ResumeExpire(_) | ResumeResolve(_, _, _)
       | ResumeSiblings(_) | ResumeCount(_) => ResumeNext(h, s.now, s.rows)
    case CancelLookUp(_, _) | CancelRun(_) | CancelCount(_, _) | Enqueue(_) => CancelNext(h, s.rows)
    case _ => SweepNext(h, s.now, s.rows, s.guards, pick, toolCalling)
  }

  function Joined(ks: set<CheckpointId>, k: Option<CheckpointId>): set<CheckpointId> {
    if k.Some? then ks + {k.value} else ks
  }

  function Apply(s: System, i: nat, e: Effect): System
    requires i < |s.handlers|
  {
    System(s.now, e.rows, s.handlers[i := e.next],
           if e.task.Some? then s.tasks + [e.task.value] else s.tasks,
           if e.guard.Some? then s.guards[e.guard.value := s.now + GUARD_TTL] else s.guards,
           if e.claims.Some? && PendingOf(e.rows, e.claims.value) != PendingOf(s.rows, e.claims.value)
           then s.counting[e.claims.value := e.counts] else s.counting,
           Joined(s.unanswered, e.unanswered), Joined(s.wiped, e.wiped))
  }

  function Step(s: System, a: Action): System {
    match a
    case Tick(ms) => s.(now := s.now + ms)
    case BeginResume(id, success, answer) => s.(handlers := s.handlers + [ResumeLookUp(id, success, answer)])
    case BeginCancel(k, member) => s.(handlers := s.handlers + [CancelLookUp(k, member)])
    case BeginSweep(ids) =>
      // ListExpired returns some of the pending rows that are overdue.
      if exists id :: id in ids && !(id in s.rows && s.rows[id].Claimable() && s.rows[id].Overdue(s.now)) then s
      else s.(handlers := s.handlers + [SweepMark(ids, set id | id in ids && id in s.rows :: s.rows[id].checkpoint)])
    case Advance(i, pick, toolCalling) =>
      if i >= |s.handlers| then s else Apply(s, i, Next(s, s.handlers[i], pick, toolCalling))
  }

  function Run(s: System, actions: seq<Action>): System
    decreases |actions|
  {
    if actions == [] then s else Run(Step(s, actions[0]), actions[1..])
  }

  function Start(rows: Table): System {
    System(0, rows, [], [], map[], map[], {}, {})
  }

  ghost predicate AtRest(s: System) {
    forall i :: 0 <= i < |s.handlers| ==> s.handlers[i] == Finished
  }

  // --------------------------------------------------------------------
  // The invariant
  // --------------------------------------------------------------------

  // A handler that is bound to enqueue a resume for k, or to note that k has no answer, once nothing is pending.
  ghost predicate Owes(h: Handler, k: CheckpointId) {
    match h
    case ResumeSiblings(k') => k' == k
    case ResumeCount(k') => k' == k
    case CancelCount(k', found) => k' == k && found
    case Enqueue(k') => k' == k
    case SweepMark(_, groups) => k in groups
    case SweepCount(groups) => k in groups
    case SweepResolved(k', groups) => k' == k || k in groups
    case SweepGuard(k', groups) => k' == k || k in groups
    case SweepEnqueue(k', groups) => k' == k || k in groups
    case SweepWipe(_, groups) => k in groups
    case _ => false
  }

  ghost predicate Awake(s: System, k: CheckpointId) {
    k in s.tasks || k in s.unanswered || exists i :: 0 <= i < |s.handlers| && Owes(s.handlers[i], k)
  }

  ghost predicate Counted(s: System, k: CheckpointId) {
    PendingOf(s.rows, k) == {} && k in s.counting && s.counting[k]
  }

  ghost predicate EnqueuesNext(s: System, k: CheckpointId) {
    k in s.tasks || exists i :: 0 <= i < |s.handlers| && s.handlers[i].SweepEnqueue? && s.handlers[i].k == k
  }

  // Every row of k was cancelled or expired.
  ghost predicate NoAnswer(rows: Table, k: CheckpointId) {
    forall id :: id in rows && rows[id].checkpoint == k ==> rows[id].status == Cancelled || rows[id].status == Expired
  }

  ghost predicate HandlerOk(rows: Table, h: Handler) {
    match h
    case SweepMark(ids, groups) => forall id :: id in ids ==> id in rows && rows[id].checkpoint in groups
    case SweepResolved(k, _) => PendingOf(rows, k) == {}
    case SweepGuard(k, _) => PendingOf(rows, k) == {}
    case SweepEnqueue(k, _) => PendingOf(rows, k) == {}
    case SweepWipe(k, _) => NoAnswer(rows, k)
    case _ => true
  }

  ghost predicate HistoryOk(s: System) {
    && (forall k :: k in s.unanswered ==> NoAnswer(s.rows, k))
    && (forall id :: id in s.rows && s.rows[id].deleted ==> s.rows[id].checkpoint in s.unanswered)
    && s.wiped <= s.unanswered
    && (forall i :: 0 <= i < |s.handlers| && s.handlers[i].SweepWipe? ==> s.handlers[i].k in s.unanswered)
  }

  ghost predicate Inv(s: System) {
    && (forall i :: 0 <= i < |s.handlers| ==> HandlerOk(s.rows, s.handlers[i]))
    && (forall k :: k in s.guards ==> EnqueuesNext(s, k))
    && (forall k :: Counted(s, k) ==> Awake(s, k))
    && HistoryOk(s)
  }

  // --------------------------------------------------------------------
  // What settled stays settled
  // --------------------------------------------------------------------

  lemma SettledFactsStay(t: Table, t': Table, h: Handler, k: CheckpointId)
    requires Settles(t, t')
    ensures PendingOf(t', k) <= PendingOf(t, k)
    ensures PendingOf(t, k) == {} ==> PendingOf(t', k) == {}
    ensures NoAnswer(t, k) ==> NoAnswer(t', k)
    ensures HandlerOk(t, h) ==> HandlerOk(t', h)
  {
    SettledPendingStays(t, t', k);
    match h
    case SweepResolved(k', _) => SettledPendingStays(t, t', k');
    case SweepGuard(k', _) => SettledPendingStays(t, t', k');
    case SweepEnqueue(k', _) => SettledPendingStays(t, t', k');
    case _ =>
  }

  lemma SettledPendingStays(t: Table, t': Table, k: CheckpointId)
    requires Settles(t, t')
    ensures PendingOf(t', k) <= PendingOf(t, k)
    ensures PendingOf(t, k) == {} ==> PendingOf(t', k) == {}
  {
  }

  lemma ResumeClaims(h: Handler, now: nat, rows: Table)
    ensures Claims(rows, ResumeNext(h, now, rows).rows)
  {
    if h.ResumeExpire? || h.ResumeResolve? {
      OneRowClaims(h, now, rows);
    } else if h.ResumeSiblings? {
      SweepsSettle(rows, h.k, now);
    } else {
      assert ResumeNext(h, now, rows).rows == rows;
    }
  }

  lemma OneRowClaims(h: Handler, now: nat, rows: Table)
    requires h.ResumeExpire? || h.ResumeResolve?
    ensures Claims(rows, ResumeNext(h, now, rows).rows)
  {
    match h
    case ResumeExpire(id) => ClaimsSettle(rows, id, true, "");
    case ResumeResolve(id, success, answer) => ClaimsSettle(rows, id, success, answer);
  }

  lemma CancelClaims(h: Handler, rows: Table)
    ensures Claims(rows, CancelNext(h, rows).rows)
  {
    if h.CancelRun? { SweepsSettle(rows, h.k, 0); } else { assert CancelNext(h, rows).rows == rows; }
  }

  lemma SweepSettles(h: Handler, now: nat, rows: Table, guards: map<CheckpointId, nat>, pick: CheckpointId,
                     toolCalling: bool)
    ensures var e := SweepNext(h, now, rows, guards, pick, toolCalling);
            Settles(rows, e.rows) && (!h.SweepWipe? ==> Claims(rows, e.rows))
  {
    if h.SweepMark? && h.ids != [] {
      ClaimsSettle(rows, h.ids[0], true, "");
    } else if h.SweepWipe? {
      DeletionSettles(rows, h.k);
    } else {
      assert SweepNext(h, now, rows, guards, pick, toolCalling).rows == rows;
    }
  }

  lemma NextSettles(s: System, h: Handler, pick: CheckpointId, toolCalling: bool)
    ensures var e := Next(s, h, pick, toolCalling);
            Settles(s.rows, e.rows) && (!h.SweepWipe? ==> Claims(s.rows, e.rows))
  {
    ResumeClaims(h, s.now, s.rows);
    CancelClaims(h, s.rows);
    SweepSettles(h, s.now, s.rows, s.guards, pick, toolCalling);
  }

  /** Whatever runs beside whatever: a row leaves pending once, and its status
      and answer never change after that. */
  lemma StepSettles(s: System, a: Action)
    ensures Settles(s.rows, Step(s, a).rows)
  {
    if a.Advance? && a.i < |s.handlers| {
      NextSettles(s, s.handlers[a.i], a.pick, a.toolCalling);
    }
  }

  lemma {:induction false} RunSettles(s: System, actions: seq<Action>)
    ensures Settles(s.rows, Run(s, actions).rows)
    decreases |actions|
  {
    if actions != [] {
      StepSettles(s, actions[0]);
      RunSettles(Step(s, actions[0]), actions[1..]);
    }
  }

  // --------------------------------------------------------------------
  // Every step keeps the invariant
  // --------------------------------------------------------------------

  predicate Sweeping(h: Handler) {
    h.SweepMark? || h.SweepCount? || h.SweepResolved? || h.SweepGuard? || h.SweepEnqueue? || h.SweepWipe?
  }

  lemma OthersDoNotSweep(s: System, h: Handler, pick: CheckpointId, toolCalling: bool)
    requires !Sweeping(h)
    ensures !Sweeping(Next(s, h, pick, toolCalling).next)
  {
  }

  lemma MarkStepOk(s: System, h: Handler, pick: CheckpointId, toolCalling: bool)
    requires h.SweepMark? && HandlerOk(s.rows, h)
    ensures var e := Next(s, h, pick, toolCalling); HandlerOk(e.rows, e.next)
  {
    NextSettles(s, h, pick, toolCalling);
  }

  lemma NextHandlerOk(s: System, h: Handler, pick: CheckpointId, toolCalling: bool)
    requires Inv(s) && HandlerOk(s.rows, h)
    ensures var e := Next(s, h, pick, toolCalling); HandlerOk(e.rows, e.next)
  {
    if !Sweeping(h) {
      OthersDoNotSweep(s, h, pick, toolCalling);
    } else if h.SweepMark? {
      MarkStepOk(s, h, pick, toolCalling);
    } else {
      SweepStepOk(s, h, pick, toolCalling);
    }
  }

  lemma SweepStepOk(s: System, h: Handler, pick: CheckpointId, toolCalling: bool)
    requires Inv(s) && HandlerOk(s.rows, h) && Sweeping(h) && !h.SweepMark?
    ensures var e := Next(s, h, pick, toolCalling); HandlerOk(e.rows, e.next)
  {
    if h.SweepWipe? {
      assert Next(s, h, pick, toolCalling).next == SweepCount(h.groups);
    } else {
      assert Next(s, h, pick, toolCalling).rows == s.rows;
      if h.SweepResolved? && |ResolvedOf(s.rows, h.k)| == 0 { NothingLeftToAnswer(s, h.k); }
    }
  }

  // With nothing pending and nothing resolved, every row of k was cancelled or expired.
  lemma NothingLeftToAnswer(s: System, k: CheckpointId)
    requires Inv(s) && PendingOf(s.rows, k) == {} && ResolvedOf(s.rows, k) == {}
    ensures NoAnswer(s.rows, k)
  {
    forall id | id in s.rows && s.rows[id].checkpoint == k
      ensures s.rows[id].status == Cancelled || s.rows[id].status == Expired
    {
      assert id !in PendingOf(s.rows, k) && id !in ResolvedOf(s.rows, k);
      if s.rows[id].deleted { assert NoAnswer(s.rows, k); }
    }
  }

  lemma NoAnswerMeansNothingPending(t: Table, k: CheckpointId)
    requires NoAnswer(t, k)
    ensures PendingOf(t, k) == {}
  {
  }

  // A step claims rows of one checkpoint only, and owes that one a count unless it is the single-row expiry.
  lemma ClaimsOwe(s: System, h: Handler, pick: CheckpointId, toolCalling: bool, k: CheckpointId)
    requires HandlerOk(s.rows, h)
    ensures var e := Next(s, h, pick, toolCalling);
            && (PendingOf(e.rows, k) != PendingOf(s.rows, k) ==> e.claims == Some(k))
            && (e.claims == Some(k) && e.counts ==> Owes(e.next, k))
  {
    if h.SweepWipe? {
      NoAnswerMeansNothingPending(s.rows, h.k);
      assert PendingOf(DeleteByCheckpoint(s.rows, h.k), k) == PendingOf(s.rows, k);
    } else {
      ClaimsTouchOneCheckpoint(s, h, pick, toolCalling, k);
    }
  }

  lemma ClaimsTouchOneCheckpoint(s: System, h: Handler, pick: CheckpointId, toolCalling: bool, k: CheckpointId)
    requires !h.SweepWipe?
    ensures var e := Next(s, h, pick, toolCalling);
            e.claims != Some(k) ==> PendingOf(e.rows, k) == PendingOf(s.rows, k)
  {
    if h.ResumeExpire? || h.ResumeResolve? {
      OneRowStepIsLocal(s, h, pick, toolCalling, k);
    } else if h.ResumeSiblings? || h.CancelRun? {
      if h.k != k { SweepIsLocal(s.rows, h.k, s.now, k); }
    } else if h.SweepMark? && h.ids != [] && h.ids[0] in s.rows {
      OneClaimIsLocal(s.rows, h.ids[0], true, "", k);
    } else {
      assert Next(s, h, pick, toolCalling).rows == s.rows;
    }
  }

  lemma OneRowStepIsLocal(s: System, h: Handler, pick: CheckpointId, toolCalling: bool, k: CheckpointId)
    requires h.ResumeExpire? || h.ResumeResolve?
    ensures var e := Next(s, h, pick, toolCalling);
            e.claims != Some(k) ==> PendingOf(e.rows, k) == PendingOf(s.rows, k)
  {
    if h.id in s.rows {
      if h.ResumeExpire? { OneClaimIsLocal(s.rows, h.id, true, "", k); }
      else { OneClaimIsLocal(s.rows, h.id, h.success, h.answer, k); }
    }
  }

  lemma OneClaimIsLocal(t: Table, id: RcId, success: bool, answer: string, k: CheckpointId)
    requires id in t
    ensures t[id].checkpoint != k ==>
              && PendingOf(MarkExpired(t, id).0, k) == PendingOf(t, k)
              && PendingOf(Resolve(t, id, success, answer).0, k) == PendingOf(t, k)
  {
  }

  lemma SweepIsLocal(t: Table, k': CheckpointId, now: nat, k: CheckpointId)
    requires k' != k
    ensures PendingOf(MarkExpiredByCheckpoint(t, k', now), k) == PendingOf(t, k)
    ensures PendingOf(CancelByCheckpoint(t, k').0, k) == PendingOf(t, k)
  {
  }

  // A handler that owes k a count pays, or passes the debt on, or finds that a guard holder is paying.
  lemma DebtIsKept(s: System, h: Handler, pick: CheckpointId, toolCalling: bool, k: CheckpointId)
    requires PendingOf(s.rows, k) == {} && Owes(h, k)
    ensures var e := Next(s, h, pick, toolCalling);
            e.task == Some(k) || e.unanswered == Some(k) || Owes(e.next, k) || k in s.guards
  {
  }

  // Once nothing of k is pending, whoever owes it is paid by the same or another debtor.
  lemma AdvanceKeepsDebt(s: System, i: nat, pick: CheckpointId, toolCalling: bool, k: CheckpointId)
    requires i < |s.handlers| && Inv(s) && PendingOf(s.rows, k) == {} && Awake(s, k)
    ensures Awake(Apply(s, i, Next(s, s.handlers[i], pick, toolCalling)), k)
  {
    var e := Next(s, s.handlers[i], pick, toolCalling);
    var s' := Apply(s, i, e);
    if k !in s.tasks && k !in s.unanswered {
      var j :| 0 <= j < |s.handlers| && Owes(s.handlers[j], k);
      if j != i {
        assert Owes(s'.handlers[j], k);
      } else {
        DebtIsKept(s, s.handlers[i], pick, toolCalling, k);
        if k in s.guards {
          assert EnqueuesNext(s, k);
          j :| 0 <= j < |s.handlers| && s.handlers[j].SweepEnqueue? && s.handlers[j].k == k;
          assert j != i ==> Owes(s'.handlers[j], k);
        } else {
          assert Owes(e.next, k) ==> Owes(s'.handlers[i], k);
        }
      }
    }
  }

  lemma AdvanceKeepsAwake(s: System, i: nat, pick: CheckpointId, toolCalling: bool, k: CheckpointId)
    requires i < |s.handlers| && Inv(s)
    requires Counted(Apply(s, i, Next(s, s.handlers[i], pick, toolCalling)), k)
    ensures Awake(Apply(s, i, Next(s, s.handlers[i], pick, toolCalling)), k)
  {
    var s' := Apply(s, i, Next(s, s.handlers[i], pick, toolCalling));
    ClaimsOwe(s, s.handlers[i], pick, toolCalling, k);
    if Counted(s, k) {
      AdvanceKeepsDebt(s, i, pick, toolCalling, k);
    } else {
      assert Owes(s'.handlers[i], k);
    }
  }

  lemma GuardsLeadToTasks(s: System, h: Handler, pick: CheckpointId, toolCalling: bool)
    ensures var e := Next(s, h, pick, toolCalling);
            && (e.guard.Some? ==> e.next.SweepEnqueue? && e.next.k == e.guard.value)
            && (h.SweepEnqueue? ==> e.task == Some(h.k))
  {
  }

  lemma AdvanceKeepsGuards(s: System, i: nat, pick: CheckpointId, toolCalling: bool, k: CheckpointId)
    requires i < |s.handlers| && Inv(s)
    requires k in Apply(s, i, Next(s, s.handlers[i], pick, toolCalling)).guards
    ensures EnqueuesNext(Apply(s, i, Next(s, s.handlers[i], pick, toolCalling)), k)
  {
    var e := Next(s, s.handlers[i], pick, toolCalling);
    var s' := Apply(s, i, e);
    GuardsLeadToTasks(s, s.handlers[i], pick, toolCalling);
    assert s'.handlers[i] == e.next;
    if k !in s.guards {
      assert s'.handlers[i].SweepEnqueue? && s'.handlers[i].k == k;
    } else if k !in s.tasks {
      assert EnqueuesNext(s, k);
      var j :| 0 <= j < |s.handlers| && s.handlers[j].SweepEnqueue? && s.handlers[j].k == k;
      if j != i { assert s'.handlers[j].SweepEnqueue? && s'.handlers[j].k == k; }
    }
  }

  // An effect that deletes rows only for the wipe it was preparing.
  ghost predicate WipesOnly(s: System, h: Handler, e: Effect) {
    && Settles(s.rows, e.rows)
    && (forall id :: id in s.rows && e.rows[id].deleted ==>
          s.rows[id].deleted || (h.SweepWipe? && s.rows[id].checkpoint == h.k))
    && (e.wiped.Some? ==> h.SweepWipe? && e.wiped.value == h.k)
    && (e.unanswered.Some? ==> e.next.SweepWipe? && e.next.k == e.unanswered.value)
    && (e.next.SweepWipe? ==> e.unanswered == Some(e.next.k))
  }

  lemma WipesKeepHistory(s: System, i: nat, e: Effect)
    requires i < |s.handlers| && HistoryOk(s)
    requires WipesOnly(s, s.handlers[i], e) && HandlerOk(e.rows, e.next)
    ensures HistoryOk(Apply(s, i, e))
  {
    var s' := Apply(s, i, e);
    forall k | k in s'.unanswered ensures NoAnswer(s'.rows, k) {
      SettledFactsStay(s.rows, s'.rows, e.next, k);
    }
  }

  lemma NextWipesOnly(s: System, h: Handler, pick: CheckpointId, toolCalling: bool)
    ensures WipesOnly(s, h, Next(s, h, pick, toolCalling))
  {
    NextSettles(s, h, pick, toolCalling);
    NextNotes(s, h, pick, toolCalling);
  }

  // What a step adds to the history of wipes.
  lemma NextNotes(s: System, h: Handler, pick: CheckpointId, toolCalling: bool)
    ensures var e := Next(s, h, pick, toolCalling);
            && (e.wiped.Some? ==> h.SweepWipe? && e.wiped.value == h.k)
            && (e.unanswered.Some? ==> e.next.SweepWipe? && e.next.k == e.unanswered.value)
            && (e.next.SweepWipe? ==> e.unanswered == Some(e.next.k))
  {
    if !Sweeping(h) { OthersDoNotSweep(s, h, pick, toolCalling); }
  }

  lemma AdvanceKeepsInv(s: System, i: nat, pick: CheckpointId, toolCalling: bool)
    requires i < |s.handlers| && Inv(s)
    ensures Inv(Apply(s, i, Next(s, s.handlers[i], pick, toolCalling)))
  {
    var s' := Apply(s, i, Next(s, s.handlers[i], pick, toolCalling));
    NextHandlerOk(s, s.handlers[i], pick, toolCalling);
    NextWipesOnly(s, s.handlers[i], pick, toolCalling);
    WipesKeepHistory(s, i, Next(s, s.handlers[i], pick, toolCalling));
    NextSettles(s, s.handlers[i], pick, toolCalling);
    forall j | 0 <= j < |s'.handlers| ensures HandlerOk(s'.rows, s'.handlers[j]) {
      if j == i { NextHandlerOk(s, s.handlers[i], pick, toolCalling); }
      else { SettledFactsStay(s.rows, s'.rows, s.handlers[j], pick); }
    }
    forall k | k in s'.guards ensures EnqueuesNext(s', k) {
      AdvanceKeepsGuards(s, i, pick, toolCalling, k);
    }
    forall k | Counted(s', k) ensures Awake(s', k) {
      AdvanceKeepsAwake(s, i, pick, toolCalling, k);
    }
  }

  lemma StepKeepsInv(s: System, a: Action)
    requires Inv(s)
    ensures Inv(Step(s, a))
  {
    var s' := Step(s, a);
    if a.Advance? && a.i < |s.handlers| {
      AdvanceKeepsInv(s, a.i, a.pick, a.toolCalling);
    } else {
      forall k | Counted(s', k) ensures Awake(s', k) {
        if k !in s.tasks && k !in s.unanswered {
          assert Counted(s, k);
          var j :| 0 <= j < |s.handlers| && Owes(s.handlers[j], k);
          assert s'.handlers[j] == s.handlers[j];
        }
      }
      forall k | k in s'.guards ensures EnqueuesNext(s', k) {
        if k !in s.tasks {
          assert EnqueuesNext(s, k);
          var j :| 0 <= j < |s.handlers| && s.handlers[j].SweepEnqueue? && s.handlers[j].k == k;
          assert s'.handlers[j] == s.handlers[j];
        }
      }
    }
  }

  lemma {:induction false} RunKeepsInv(s: System, actions: seq<Action>)
    requires Inv(s)
    ensures Inv(Run(s, actions))
    decreases |actions|
  {
    if actions != [] {
      StepKeepsInv(s, actions[0]);
      RunKeepsInv(Step(s, actions[0]), actions[1..]);
    }
  }

  // --------------------------------------------------------------------
  // No lost wake-up
  // --------------------------------------------------------------------

  ghost predicate Fresh(rows: Table) {
    forall id :: id in rows ==> !rows[id].deleted
  }

  lemma StartIsOk(rows: Table)
    requires Fresh(rows)
    ensures Inv(Start(rows))
  {
  }

  /** Once every handler has finished and nothing of k is pending, a resume of k
      was enqueued, or a sweep saw that every row was cancelled or expired;
      unless the last row left through the single-row expiry of agent_resume. */
  lemma NoLostWakeUp(rows: Table, actions: seq<Action>, k: CheckpointId)
    requires Fresh(rows)
    requires var s := Run(Start(rows), actions); AtRest(s) && Counted(s, k)
    ensures var s := Run(Start(rows), actions); k in s.tasks || (k in s.unanswered && NoAnswer(s.rows, k))
  {
    StartIsOk(rows);
    RunKeepsInv(Start(rows), actions);
    assert Awake(Run(Start(rows), actions), k);
  }

  /** In particular an answer that arrived is always followed by a resume. */
  lemma AnswerIsNotLost(rows: Table, actions: seq<Action>, k: CheckpointId, id: RcId)
    requires Fresh(rows)
    requires var s := Run(Start(rows), actions);
             AtRest(s) && Counted(s, k) && id in s.rows && s.rows[id].checkpoint == k && s.rows[id].status == Resolved
    ensures k in Run(Start(rows), actions).tasks
  {
    NoLostWakeUp(rows, actions, k);
  }

  ghost predicate NoSweep(s: System) {
    s.unanswered == {} && forall i :: 0 <= i < |s.handlers| ==> !Sweeping(s.handlers[i])
  }

  // No sweep begins.
  ghost predicate Unswept(actions: seq<Action>)
    decreases |actions|
  {
    actions == [] || (!actions[0].BeginSweep? && Unswept(actions[1..]))
  }

  lemma StepKeepsNoSweep(s: System, a: Action)
    requires NoSweep(s) && !a.BeginSweep?
    ensures NoSweep(Step(s, a))
  {
    if a.Advance? && a.i < |s.handlers| {
      OthersDoNotSweep(s, s.handlers[a.i], a.pick, a.toolCalling);
      NextNotes(s, s.handlers[a.i], a.pick, a.toolCalling);
    }
  }

  lemma {:induction false} WithoutSweepNothingIsUnanswered(s: System, actions: seq<Action>)
    requires NoSweep(s) && Unswept(actions)
    ensures NoSweep(Run(s, actions))
    decreases |actions|
  {
    if actions != [] {
      StepKeepsNoSweep(s, actions[0]);
      WithoutSweepNothingIsUnanswered(Step(s, actions[0]), actions[1..]);
    }
  }

  /** With agent_resume and cancel_remote_calls alone, at least one resume task
      is enqueued. */
  lemma NoLostWakeUpWithoutSweeps(rows: Table, actions: seq<Action>, k: CheckpointId)
    requires Fresh(rows) && Unswept(actions)
    requires var s := Run(Start(rows), actions); AtRest(s) && Counted(s, k)
    ensures k in Run(Start(rows), actions).tasks
  {
    NoLostWakeUp(rows, actions, k);
    WithoutSweepNothingIsUnanswered(Start(rows), actions);
  }

  // A step of handler h takes calls of its own checkpoint out of pending, and no others.
  lemma OnlyOwnClaims(s: System, h: Handler, pick: CheckpointId, toolCalling: bool, k: CheckpointId)
    requires HandlerOk(s.rows, h)
    ensures var e := Next(s, h, pick, toolCalling);
            PendingOf(e.rows, k) != PendingOf(s.rows, k) ==> e.claims == Some(k) && (e.counts <==> !h.ResumeExpire?)
  {
    match h
    case ResumeExpire(id) => OneRowOnly(s.rows, id, k, true, "");
    case ResumeResolve(id, success, answer) => OneRowOnly(s.rows, id, k, success, answer);
    case SweepMark(ids, _) => if ids != [] { OneRowOnly(s.rows, ids[0], k, true, ""); }
    case ResumeSiblings(k') => OneCheckpointOnly(s.rows, k', k, s.now);
    case CancelRun(k') => OneCheckpointOnly(s.rows, k', k, s.now);
    case SweepWipe(k', _) => WipingLeavesPending(s.rows, k', k);
    case _ =>
  }

  lemma OneRowOnly(t: Table, id: RcId, k: CheckpointId, success: bool, answer: string)
    ensures id !in t || t[id].checkpoint != k ==> PendingOf(Resolve(t, id, success, answer).0, k) == PendingOf(t, k)
    ensures id !in t || t[id].checkpoint != k ==> PendingOf(MarkExpired(t, id).0, k) == PendingOf(t, k)
  {
  }

  lemma OneCheckpointOnly(t: Table, k': CheckpointId, k: CheckpointId, now: nat)
    ensures k' != k ==> PendingOf(MarkExpiredByCheckpoint(t, k', now), k) == PendingOf(t, k)
    ensures k' != k || PendingOf(t, k) == {} ==> PendingOf(CancelByCheckpoint(t, k').0, k) == PendingOf(t, k)
  {
  }

  lemma WipingLeavesPending(t: Table, k': CheckpointId, k: CheckpointId)
    requires NoAnswer(t, k')
    ensures PendingOf(DeleteByCheckpoint(t, k'), k) == PendingOf(t, k)
  {
  }

  // The only branch that takes a row out of pending and does not count afterwards.
  ghost predicate ExpiresAlone(s: System, a: Action) {
    && a.Advance? && a.i < |s.handlers| && s.handlers[a.i].ResumeExpire?
    && var id := s.handlers[a.i].id; id in s.rows && s.rows[id].status == Pending && !s.rows[id].deleted
  }

  ghost predicate NeverExpiresAlone(s: System, actions: seq<Action>)
    decreases |actions|
  {
    actions == [] || (!ExpiresAlone(s, actions[0]) && NeverExpiresAlone(Step(s, actions[0]), actions[1..]))
  }

  // Rows that left pending left it by a handler that counts afterwards.
  ghost predicate AllCounted(rows: Table, s: System) {
    && (forall k :: k in s.counting ==> s.counting[k])
    && (forall k :: k !in s.counting ==> PendingOf(s.rows, k) == PendingOf(rows, k))
  }

  lemma StepKeepsCounted(rows: Table, s: System, a: Action)
    requires Inv(s) && AllCounted(rows, s) && !ExpiresAlone(s, a)
    ensures AllCounted(rows, Step(s, a))
  {
    if a.Advance? && a.i < |s.handlers| {
      var h, s' := s.handlers[a.i], Step(s, a);
      var e := Next(s, h, a.pick, a.toolCalling);
      forall k ensures PendingOf(s'.rows, k) != PendingOf(s.rows, k) ==> e.claims == Some(k) && e.counts {
        OnlyOwnClaims(s, h, a.pick, a.toolCalling, k);
      }
    }
  }

  lemma {:induction false} RunKeepsCounted(rows: Table, s: System, actions: seq<Action>)
    requires Inv(s) && AllCounted(rows, s) && NeverExpiresAlone(s, actions)
    ensures AllCounted(rows, Run(s, actions))
    decreases |actions|
  {
    if actions != [] {
      StepKeepsCounted(rows, s, actions[0]);
      StepKeepsInv(s, actions[0]);
      RunKeepsCounted(rows, Step(s, actions[0]), actions[1..]);
    }
  }

  /** So when calls were waiting, no row was expired alone, and everything has come to rest with
      none waiting any more, a resume was enqueued or nothing was ever answered. */
  lemma SettledCheckpointIsWoken(rows: Table, actions: seq<Action>, k: CheckpointId)
    requires Fresh(rows) && PendingOf(rows, k) != {} && NeverExpiresAlone(Start(rows), actions)
    requires var s := Run(Start(rows), actions); AtRest(s) && PendingOf(s.rows, k) == {}
    ensures var s := Run(Start(rows), actions); k in s.tasks || (k in s.unanswered && NoAnswer(s.rows, k))
  {
    StartIsOk(rows);
    RunKeepsCounted(rows, Start(rows), actions);
    NoLostWakeUp(rows, actions, k);
  }

  // --------------------------------------------------------------------
  // And no wake-up out of nothing
  // --------------------------------------------------------------------

  // Once nothing of k is pending, a handler that does not owe k a count never will.
  lemma NoNewDebt(s: System, h: Handler, pick: CheckpointId, toolCalling: bool, k: CheckpointId)
    requires PendingOf(s.rows, k) == {} && !Owes(h, k)
    ensures var e := Next(s, h, pick, toolCalling);
            e.task != Some(k) && e.unanswered != Some(k) && !Owes(e.next, k)
  {
    if h.ResumeResolve? && h.id in s.rows && s.rows[h.id].checkpoint == k {
      assert h.id !in PendingOf(s.rows, k);
    }
  }

  lemma AdvanceWakesNobody(s: System, i: nat, pick: CheckpointId, toolCalling: bool, k: CheckpointId)
    requires i < |s.handlers| && PendingOf(s.rows, k) == {} && !Awake(s, k)
    ensures !Awake(Apply(s, i, Next(s, s.handlers[i], pick, toolCalling)), k)
  {
    var e := Next(s, s.handlers[i], pick, toolCalling);
    var s' := Apply(s, i, e);
    NoNewDebt(s, s.handlers[i], pick, toolCalling, k);
    forall j | 0 <= j < |s'.handlers| ensures !Owes(s'.handlers[j], k) {
      if j != i { assert s'.handlers[j] == s.handlers[j]; }
    }
  }

  lemma NewHandlerOwesNothing(s: System, a: Action, k: CheckpointId)
    requires PendingOf(s.rows, k) == {} && !a.Advance?
    ensures Awake(Step(s, a), k) <==> Awake(s, k)
  {
    var s' := Step(s, a);
    if a.BeginSweep? && k in (set id | id in a.ids && id in s.rows :: s.rows[id].checkpoint) {
      var id :| id in a.ids && id in s.rows && s.rows[id].checkpoint == k;
      assert id !in PendingOf(s.rows, k);
    }
    assert s'.handlers != s.handlers ==> !Owes(s'.handlers[|s.handlers|], k);
    if j :| 0 <= j < |s.handlers| && Owes(s.handlers[j], k) { assert s'.handlers[j] == s.handlers[j]; }
    if j :| 0 <= j < |s'.handlers| && Owes(s'.handlers[j], k) { assert s'.handlers[j] == s.handlers[j]; }
  }

  lemma StepKeepsAwakeIff(s: System, a: Action, k: CheckpointId)
    requires Inv(s) && PendingOf(s.rows, k) == {}
    ensures PendingOf(Step(s, a).rows, k) == {} && (Awake(Step(s, a), k) <==> Awake(s, k))
  {
    StepSettles(s, a);
    SettledFactsStay(s.rows, Step(s, a).rows, Finished, k);
    if !a.Advance? {
      NewHandlerOwesNothing(s, a, k);
    } else if a.i < |s.handlers| {
      if Awake(s, k) { AdvanceKeepsDebt(s, a.i, a.pick, a.toolCalling, k); }
      else { AdvanceWakesNobody(s, a.i, a.pick, a.toolCalling, k); }
    }
  }

  /** Once nothing of k is pending it is decided whether k will be noticed: after every run
      that comes to rest a resume was enqueued, or a sweep saw that nothing was
      answered, exactly when one of the two had happened or a handler owed it. */
  lemma {:induction false} WokenAtRestIff(s: System, actions: seq<Action>, k: CheckpointId)
    requires Inv(s) && PendingOf(s.rows, k) == {} && AtRest(Run(s, actions))
    ensures var s' := Run(s, actions); (k in s'.tasks || k in s'.unanswered) <==> Awake(s, k)
    decreases |actions|
  {
    if actions != [] {
      StepKeepsInv(s, actions[0]);
      StepKeepsAwakeIff(s, actions[0], k);
      WokenAtRestIff(Step(s, actions[0]), actions[1..], k);
    }
  }

  // How far a handler is from its end, if it is given something to pick.
  function Left(h: Handler): nat {
    match h
    case ResumeLookUp(_, _, _) => 6
    case ResumeCheckExpiry(_, _, _) => 5
    case ResumeExpire(_) => 1
    case ResumeResolve(_, _, _) => 4
    case ResumeSiblings(_) => 3
    case ResumeCount(_) => 2
    case CancelLookUp(_, _) => 4
    case CancelRun(_) => 3
    case CancelCount(_, _) => 2
    case Enqueue(_) => 1
    case SweepMark(ids, groups) => |ids| + 5 * |groups| + 2
    case SweepCount(groups) => 5 * |groups| + 1
    case SweepResolved(_, groups) => 5 * |groups| + 5
    case SweepGuard(_, groups) => 5 * |groups| + 4
    case SweepEnqueue(_, groups) => 5 * |groups| + 3
    case SweepWipe(_, groups) => 5 * |groups| + 3
    case Finished => 0
  }

  function AllLeft(handlers: seq<Handler>): nat {
    if handlers == [] then 0 else Left(handlers[0]) + AllLeft(handlers[1..])
  }

  lemma {:induction false} AllLeftUpdates(handlers: seq<Handler>, i: nat, h: Handler)
    requires i < |handlers|
    ensures AllLeft(handlers[i := h]) == AllLeft(handlers) - Left(handlers[i]) + Left(h)
  {
    if i == 0 {
      assert handlers[0 := h][1..] == handlers[1..];
    } else {
      AllLeftUpdates(handlers[1..], i - 1, h);
      assert handlers[i := h][1..] == handlers[1..][i - 1 := h];
    }
  }

  // What a sweep that is counting should pick.
  ghost function PickFor(h: Handler): CheckpointId {
    if h.SweepCount? && h.groups != {} then
      var k :| k in h.groups; k
    else ""
  }

  lemma ResumeShortens(h: Handler, now: nat, rows: Table)
    requires || h.ResumeLookUp? || h.ResumeCheckExpiry? || h.ResumeExpire?
             || h.ResumeResolve? || h.ResumeSiblings? || h.ResumeCount?
    ensures Left(ResumeNext(h, now, rows).next) < Left(h)
  {
  }

  lemma SweepShortens(h: Handler, now: nat, rows: Table, guards: map<CheckpointId, nat>)
    requires Sweeping(h)
    ensures Left(SweepNext(h, now, rows, guards, PickFor(h), true).next) < Left(h)
  {
    if h.SweepCount? {
      if h.groups != {} { assert |h.groups - {PickFor(h)}| == |h.groups| - 1; }
    } else if h.SweepMark? {
      MarkShortens(h, now, rows, guards);
    } else {
      PaySteps(h, now, rows, guards);
    }
  }

  lemma MarkShortens(h: Handler, now: nat, rows: Table, guards: map<CheckpointId, nat>)
    requires h.SweepMark?
    ensures Left(SweepNext(h, now, rows, guards, PickFor(h), true).next) < Left(h)
  {
  }

  lemma PaySteps(h: Handler, now: nat, rows: Table, guards: map<CheckpointId, nat>)
    requires h.SweepResolved? || h.SweepGuard? || h.SweepEnqueue? || h.SweepWipe?
    ensures Left(SweepNext(h, now, rows, guards, PickFor(h), true).next) < Left(h)
  {
  }

  lemma AdvanceShortens(s: System, h: Handler)
    requires h != Finished
    ensures Left(Next(s, h, PickFor(h), true).next) < Left(h)
  {
    if Sweeping(h) {
      SweepShortens(h, s.now, s.rows, s.guards);
    } else if h.CancelLookUp? || h.CancelRun? || h.CancelCount? || h.Enqueue? {
      assert Left(CancelNext(h, s.rows).next) < Left(h);
    } else {
      ResumeShortens(h, s.now, s.rows);
    }
  }

  /** Every state can come to rest. */
  lemma {:induction false} CanComeToRest(s: System) returns (actions: seq<Action>)
    ensures AtRest(Run(s, actions))
    decreases AllLeft(s.handlers)
  {
    if AtRest(s) {
      actions := [];
    } else {
      var i :| 0 <= i < |s.handlers| && s.handlers[i] != Finished;
      var h := s.handlers[i];
      var a := Advance(i, PickFor(h), true);
      AdvanceShortens(s, h);
      AllLeftUpdates(s.handlers, i, Next(s, h, PickFor(h), true).next);
      var rest := CanComeToRest(Step(s, a));
      actions := [a] + rest;
      assert actions[1..] == rest;
    }
  }

  // A handler other than i owes k a count.
  ghost predicate OtherOwes(s: System, i: nat, k: CheckpointId) {
    exists j :: 0 <= j < |s.handlers| && j != i && Owes(s.handlers[j], k)
  }

  /** The exception: agent_resume on an overdue row moves that row to expired and returns
      without counting. When it was the last pending row, the wake-up is lost for
      ever exactly when no other handler owes the checkpoint a count, no resume was
      enqueued before and no sweep has noticed. */
  lemma SingleRowExpiryLosesTheWakeUpIff(s: System, i: nat, pick: CheckpointId, toolCalling: bool, actions: seq<Action>)
    requires Inv(s) && i < |s.handlers| && s.handlers[i].ResumeExpire?
    requires var id := s.handlers[i].id; id in s.rows && PendingOf(s.rows, s.rows[id].checkpoint) == {id}
    requires AtRest(Run(Step(s, Advance(i, pick, toolCalling)), actions))
    ensures var k := s.rows[s.handlers[i].id].checkpoint;
            var s' := Run(Step(s, Advance(i, pick, toolCalling)), actions);
            (k !in s'.tasks && k !in s'.unanswered)
            <==> k !in s.tasks && k !in s.unanswered && !OtherOwes(s, i, k)
  {
    var id := s.handlers[i].id;
    var k := s.rows[id].checkpoint;
    var s1 := Step(s, Advance(i, pick, toolCalling));
    assert id in PendingOf(s.rows, k);
    assert s1.rows == s.rows[id := s.rows[id].(status := Expired)];
    assert PendingOf(s1.rows, k) <= PendingOf(s.rows, k) && id !in PendingOf(s1.rows, k);
    StepKeepsInv(s, Advance(i, pick, toolCalling));
    WokenAtRestIff(s1, actions, k);
    AwakeWithout(s, s1, i, k);
  }

  // What is left of the debts once handler i has finished without paying.
  lemma AwakeWithout(s: System, s1: System, i: nat, k: CheckpointId)
    requires i < |s.handlers| && s1.handlers == s.handlers[i := Finished]
    requires s1.tasks == s.tasks && s1.unanswered == s.unanswered
    ensures Awake(s1, k) <==> k in s.tasks || k in s.unanswered || OtherOwes(s, i, k)
  {
    if OtherOwes(s, i, k) {
      var j :| 0 <= j < |s.handlers| && j != i && Owes(s.handlers[j], k);
      assert Owes(s1.handlers[j], k);
    }
    if j :| 0 <= j < |s1.handlers| && Owes(s1.handlers[j], k) { assert j != i && Owes(s.handlers[j], k); }
  }

  // --------------------------------------------------------------------
  // A handler left alone
  // --------------------------------------------------------------------

  // How the newest handler moves when it is left alone.
  lemma NewestMoves(s: System, before: seq<Handler>, h: Handler, k: CheckpointId)
    requires s.handlers == before + [h]
    ensures var e, s' := Next(s, h, k, true), Step(s, Advance(|before|, k, true));
            && s'.handlers == before + [e.next]
            && s'.rows == e.rows && s'.now == s.now
            && s'.tasks == (if e.task.Some? then s.tasks + [e.task.value] else s.tasks)
            && s'.unanswered == Joined(s.unanswered, e.unanswered)
  {
    assert s.handlers[|before|] == h;
  }

  function Twice(s: System, a: Action): System {
    Step(Step(s, a), a)
  }

  function Thrice(s: System, a: Action): System {
    Step(Twice(s, a), a)
  }

  lemma UninterruptedClaim(s: System, id: RcId, success: bool, answer: string)
    requires id in s.rows && s.rows[id].Claimable() && !s.rows[id].Overdue(s.now)
    ensures var i, k := |s.handlers|, s.rows[id].checkpoint;
            var s' := Thrice(Step(s, BeginResume(id, success, answer)), Advance(i, k, true));
            && s'.handlers == s.handlers + [ResumeSiblings(k)]
            && s'.rows == Resolve(s.rows, id, success, answer).0
            && s'.tasks == s.tasks && s'.now == s.now
  {
    var i, k := |s.handlers|, s.rows[id].checkpoint;
    var go := Advance(i, k, true);
    var s0 := Step(s, BeginResume(id, success, answer));
    NewestMoves(s0, s.handlers, ResumeLookUp(id, success, answer), k);
    var s1 := Step(s0, go);
    NewestMoves(s1, s.handlers, ResumeCheckExpiry(id, success, answer), k);
    NewestMoves(Step(s1, go), s.handlers, ResumeResolve(id, success, answer), k);
  }

  lemma UninterruptedCount(s: System, before: seq<Handler>, k: CheckpointId)
    requires s.handlers == before + [ResumeCount(k)]
    ensures var s' := Twice(s, Advance(|before|, k, true));
            && s'.handlers == before + [Finished]
            && s'.rows == s.rows && s'.now == s.now
            && s'.tasks == if PendingOf(s.rows, k) == {} then s.tasks + [k] else s.tasks
  {
    NewestMoves(s, before, ResumeCount(k), k);
    var s1 := Step(s, Advance(|before|, k, true));
    NewestMoves(s1, before, if PendingOf(s.rows, k) == {} then Enqueue(k) else Finished, k);
  }

  lemma RunsSeven(s: System, a: Action, b: Action)
    ensures Run(s, [a, b, b, b, b, b, b]) == Twice(Step(Thrice(Step(s, a), b), b), b)
  {
    var s0 := Step(s, a);
    var s3 := Thrice(s0, b);
    assert [a, b, b, b, b, b, b][1..] == [b, b, b, b, b, b];
    assert [b, b, b, b, b, b][1..] == [b, b, b, b, b];
    assert [b, b, b, b, b][1..] == [b, b, b, b];
    assert [b, b, b, b][1..] == [b, b, b] && [b, b, b][1..] == [b, b] && [b, b][1..] == [b];
    assert Run(s0, [b, b, b, b, b, b]) == Run(Step(s0, b), [b, b, b, b, b]) == Run(Twice(s0, b), [b, b, b, b])
        == Run(s3, [b, b, b]);
    assert Run(s3, [b, b, b]) == Run(Step(s3, b), [b, b]) == Run(Twice(s3, b), [b]) == Run(Thrice(s3, b), []);
  }

  // agent_resume for one call with nothing in between.
  function Uninterrupted(s: System, k: CheckpointId, id: RcId, success: bool, answer: string): seq<Action> {
    var go := Advance(|s.handlers|, k, true);
    [BeginResume(id, success, answer), go, go, go, go, go, go]
  }

  lemma UninterruptedSteps(s: System, id: RcId, success: bool, answer: string)
    requires id in s.rows && s.rows[id].Claimable() && !s.rows[id].Overdue(s.now)
    ensures var k, go := s.rows[id].checkpoint, Advance(|s.handlers|, s.rows[id].checkpoint, true);
            var s' := Twice(Step(Thrice(Step(s, BeginResume(id, success, answer)), go), go), go);
            && s'.handlers == s.handlers + [Finished] && s'.now == s.now
            && ResumeEffect(s.rows, s'.rows, id, success, answer, s.now)
            && s'.tasks == if PendingOf(s'.rows, k) == {} then s.tasks + [k] else s.tasks
  {
    var k := s.rows[id].checkpoint;
    var go := Advance(|s.handlers|, k, true);
    var s0 := Step(s, BeginResume(id, success, answer));
    UninterruptedClaim(s, id, success, answer);
    var s3 := Thrice(s0, go);
    NewestMoves(s3, s.handlers, ResumeSiblings(k), k);
    UninterruptedCount(Step(s3, go), s.handlers, k);
  }

  /** Left alone, the handler of this machine does what the uninterrupted
      agent_resume does: it answers its row, expires the overdue siblings, and
      enqueues a resume exactly when nothing is left pending. */
  lemma UninterruptedResume(s: System, id: RcId, success: bool, answer: string)
    requires id in s.rows && s.rows[id].Claimable() && !s.rows[id].Overdue(s.now)
    ensures var k := s.rows[id].checkpoint;
            var s' := Run(s, Uninterrupted(s, k, id, success, answer));
            && s'.handlers == s.handlers + [Finished] && s'.now == s.now
            && ResumeEffect(s.rows, s'.rows, id, success, answer, s.now)
            && s'.tasks == if PendingOf(s'.rows, k) == {} then s.tasks + [k] else s.tasks
  {
    UninterruptedSteps(s, id, success, answer);
    RunsSeven(s, BeginResume(id, success, answer), Advance(|s.handlers|, s.rows[id].checkpoint, true));
  }

  // cancel_remote_calls with nothing in between.
  function UninterruptedCancelOf(s: System, k: CheckpointId, member: bool): seq<Action> {
    var go := Advance(|s.handlers|, k, true);
    [BeginCancel(k, member), go, go, go, go]
  }

  lemma RunsFive(s: System, a: Action, b: Action)
    ensures Run(s, [a, b, b, b, b]) == Step(Thrice(Step(s, a), b), b)
  {
    var s0 := Step(s, a);
    assert [a, b, b, b, b][1..] == [b, b, b, b] && [b, b, b, b][1..] == [b, b, b];
    assert [b, b, b][1..] == [b, b] && [b, b][1..] == [b] && [b][1..] == [];
    assert Run(s0, [b, b, b, b]) == Run(Step(s0, b), [b, b, b]) == Run(Twice(s0, b), [b, b]) == Run(Thrice(s0, b), [b])
        == Run(Step(Thrice(s0, b), b), []);
  }

  lemma CancelLeavesNothing(t: Table, k: CheckpointId)
    ensures PendingOf(CancelByCheckpoint(t, k).0, k) == {} && CancelEffect(t, CancelByCheckpoint(t, k).0, k)
  {
  }

  lemma CancelRunStep(s: System, before: seq<Handler>, k: CheckpointId)
    requires s.handlers == before + [CancelRun(k)] && PendingOf(s.rows, k) != {}
    ensures var s' := Step(s, Advance(|before|, k, true));
            && s'.handlers == before + [CancelCount(k, true)] && s'.now == s.now && s'.tasks == s.tasks
            && CancelEffect(s.rows, s'.rows, k) && PendingOf(s'.rows, k) == {}
  {
    NewestMoves(s, before, CancelRun(k), k);
    CancelLeavesNothing(s.rows, k);
  }

  lemma CancelSteps(s: System, k: CheckpointId)
    requires PendingOf(s.rows, k) != {}
    ensures var go := Advance(|s.handlers|, k, true);
            var s' := Step(Thrice(Step(s, BeginCancel(k, true)), go), go);
            && s'.handlers == s.handlers + [Finished] && s'.now == s.now
            && CancelEffect(s.rows, s'.rows, k) && s'.tasks == s.tasks + [k]
  {
    var go := Advance(|s.handlers|, k, true);
    var s0 := Step(s, BeginCancel(k, true));
    NewestMoves(s0, s.handlers, CancelLookUp(k, true), k);
    var s1 := Step(s0, go);
    CancelRunStep(s1, s.handlers, k);
    var s2 := Step(s1, go);
    NewestMoves(s2, s.handlers, CancelCount(k, true), k);
    NewestMoves(Step(s2, go), s.handlers, Enqueue(k), k);
  }

  /** Left alone, a member's cancel of this machine does what the uninterrupted handler does:
      exactly the pending calls of the checkpoint are cancelled and one resume is queued. */
  lemma UninterruptedCancel(s: System, k: CheckpointId)
    requires PendingOf(s.rows, k) != {}
    ensures var s' := Run(s, UninterruptedCancelOf(s, k, true));
            && s'.handlers == s.handlers + [Finished] && s'.now == s.now
            && CancelEffect(s.rows, s'.rows, k) && s'.tasks == s.tasks + [k]
  {
    CancelSteps(s, k);
    RunsFive(s, BeginCancel(k, true), Advance(|s.handlers|, k, true));
  }

  function Again(s: System, a: Action, n: nat): System
    decreases n
  {
    if n == 0 then s else Again(Step(s, a), a, n - 1)
  }

  /** A cancel by someone else, or with nothing pending, changes no row and queues nothing, at
      whichever of its steps one looks. */
  lemma RefusedCancelDoesNothing(s: System, k: CheckpointId, member: bool, n: nat)
    requires !member || PendingOf(s.rows, k) == {}
    ensures var s' := Again(Step(s, BeginCancel(k, member)), Advance(|s.handlers|, k, true), n);
            s'.rows == s.rows && s'.tasks == s.tasks
  {
    var go := Advance(|s.handlers|, k, true);
    var s0 := Step(s, BeginCancel(k, member));
    if n > 0 {
      NewestMoves(s0, s.handlers, CancelLookUp(k, member), k);
      FinishedStays(Step(s0, go), s.handlers, k, n - 1);
    }
  }

  lemma {:induction false} FinishedStays(s: System, before: seq<Handler>, k: CheckpointId, n: nat)
    requires s.handlers == before + [Finished]
    ensures var s' := Again(s, Advance(|before|, k, true), n); s'.rows == s.rows && s'.tasks == s.tasks
    decreases n
  {
    if n > 0 {
      NewestMoves(s, before, Finished, k);
      FinishedStays(Step(s, Advance(|before|, k, true)), before, k, n - 1);
    }
  }

  // --------------------------------------------------------------------
  // Expiry never discards an answer
  // --------------------------------------------------------------------

  // Every deletion is noted.
  ghost predicate WipesNoted(s: System) {
    forall id :: id in s.rows && s.rows[id].deleted ==> s.rows[id].checkpoint in s.wiped
  }

  lemma StepNotesWipes(s: System, a: Action)
    requires WipesNoted(s)
    ensures WipesNoted(Step(s, a))
  {
    if a.Advance? && a.i < |s.handlers| {
      NextSettles(s, s.handlers[a.i], a.pick, a.toolCalling);
      NextWipesOnly(s, s.handlers[a.i], a.pick, a.toolCalling);
    }
  }

  lemma {:induction false} RunNotesWipes(s: System, actions: seq<Action>)
    requires WipesNoted(s)
    ensures WipesNoted(Run(s, actions))
    decreases |actions|
  {
    if actions != [] {
      StepNotesWipes(s, actions[0]);
      RunNotesWipes(Step(s, actions[0]), actions[1..]);
    }
  }

  /** A call is deleted only when each call of its checkpoint was cancelled or expired. */
  lemma WipedRowsHadNoAnswer(rows: Table, actions: seq<Action>, id: RcId)
    requires Fresh(rows)
    requires var s := Run(Start(rows), actions); id in s.rows && s.rows[id].deleted
    ensures var s := Run(Start(rows), actions);
            NoAnswer(s.rows, s.rows[id].checkpoint) && s.rows[id].checkpoint in s.wiped
  {
    StartIsOk(rows);
    RunKeepsInv(Start(rows), actions);
    RunNotesWipes(Start(rows), actions);
  }

  // An expired call was past its deadline, and what is about to be expired is.
  ghost predicate Late(rows: Table, id: RcId, now: nat) {
    id in rows ==> rows[id].expiresAt.Some? && rows[id].expiresAt.value < now
  }

  ghost predicate OnTime(s: System) {
    && (forall id :: id in s.rows && s.rows[id].status == Expired ==> Late(s.rows, id, s.now))
    && (forall i :: 0 <= i < |s.handlers| ==> HandlerOnTime(s.rows, s.handlers[i], s.now))
  }

  ghost predicate HandlerOnTime(rows: Table, h: Handler, now: nat) {
    match h
    case ResumeExpire(id) => Late(rows, id, now)
    case SweepMark(ids, _) => forall id :: id in ids ==> Late(rows, id, now)
    case _ => true
  }

  // A step keeps deadlines, and expires what is late.
  lemma NextOnTime(s: System, h: Handler, pick: CheckpointId, toolCalling: bool)
    requires HandlerOnTime(s.rows, h, s.now)
    ensures var e := Next(s, h, pick, toolCalling);
            && HandlerOnTime(s.rows, e.next, s.now)
            && forall id :: id in s.rows && id in e.rows && e.rows[id].status == Expired ==>
                 s.rows[id].status == Expired || Late(s.rows, id, s.now)
  {
  }

  lemma StepOnTime(s: System, a: Action)
    requires OnTime(s)
    ensures OnTime(Step(s, a))
  {
    if a.Advance? && a.i < |s.handlers| {
      var s', h := Step(s, a), s.handlers[a.i];
      NextOnTime(s, h, a.pick, a.toolCalling);
      NextSettles(s, h, a.pick, a.toolCalling);
      assert forall id :: id in s.rows ==> s'.rows[id].expiresAt == s.rows[id].expiresAt;
      forall i | 0 <= i < |s'.handlers| ensures HandlerOnTime(s'.rows, s'.handlers[i], s'.now) {
        if i != a.i { assert HandlerOnTime(s.rows, s.handlers[i], s.now); }
      }
    } else if a.Tick? {
      assert forall i :: 0 <= i < |s.handlers| ==> HandlerOnTime(s.rows, s.handlers[i], s.now);
    }
  }

  lemma {:induction false} RunOnTime(s: System, actions: seq<Action>)
    requires OnTime(s)
    ensures OnTime(Run(s, actions))
    decreases |actions|
  {
    if actions != [] {
      StepOnTime(s, actions[0]);
      RunOnTime(Step(s, actions[0]), actions[1..]);
    }
  }

  /** No call expires before its deadline has passed, whoever expires it, and one without a
      deadline never does. */
  lemma NothingExpiresEarly(rows: Table, actions: seq<Action>, id: RcId)
    requires forall i :: i in rows ==> rows[i].status != Expired
    requires var s := Run(Start(rows), actions); id in s.rows && s.rows[id].status == Expired
    ensures var s := Run(Start(rows), actions); s.rows[id].expiresAt.Some? && s.rows[id].expiresAt.value < s.now
  {
    RunOnTime(Start(rows), actions);
  }

  /** A sweep wipes a checkpoint only when each of its rows was cancelled or
      expired, and since settled rows do not change, no answer can arrive for it
      afterwards. */
  lemma SweepNeverWipesAnAnswer(rows: Table, actions: seq<Action>, k: CheckpointId)
    requires Fresh(rows) && k in Run(Start(rows), actions).wiped
    ensures NoAnswer(Run(Start(rows), actions).rows, k)
  {
    StartIsOk(rows);
    RunKeepsInv(Start(rows), actions);
  }

  /** The answers a sweep reads after it has counted zero pending rows are
      final: no later run changes the set of resolved rows, short of deleting them. */
  lemma AnswersAreFinalOnceNothingIsPending(s: System, actions: seq<Action>, k: CheckpointId, id: RcId)
    requires PendingOf(s.rows, k) == {} && id in s.rows && s.rows[id].checkpoint == k && !s.rows[id].deleted
    ensures var rows := Run(s, actions).rows;
            && id in rows && rows[id].status == s.rows[id].status
            && rows[id].answer == s.rows[id].answer && rows[id].success == s.rows[id].success
  {
    assert id !in PendingOf(s.rows, k);
    RunSettles(s, actions);
  }
}
