/** When the answers of a paused agent can be erased unread although no wake-up is lost: without
    sweeps one call at a time is safe and two pending calls are enough to go wrong; with
    sweeps one call with a deadline is enough. */
module AnswerErasure {
  import opened Option
  import opened RemoteCalling
  import opened ResumeHandoff
  import Hitl = HitlProtocol
  import TaskLock

  // --------------------------------------------------------------------
  // Sums over sequences
  // --------------------------------------------------------------------

  function Total<T>(xs: seq<T>, f: T -> nat): nat {
    if xs == [] then 0 else f(xs[0]) + Total(xs[1..], f)
  }

  lemma {:induction false} TotalOfUpdate<T>(xs: seq<T>, f: T -> nat, i: nat, x: T)
    requires i < |xs|
    ensures Total(xs[i := x], f) == Total(xs, f) - f(xs[i]) + f(x)
  {
    if i == 0 {
      assert xs[0 := x][1..] == xs[1..];
    } else {
      TotalOfUpdate(xs[1..], f, i - 1, x);
      assert xs[i := x][1..] == xs[1..][i - 1 := x];
    }
  }

  lemma {:induction false} TotalOfOneMore<T>(xs: seq<T>, f: T -> nat, x: T)
    ensures Total(xs + [x], f) == Total(xs, f) + f(x)
  {
    if xs == [] {
      assert (xs + [x])[1..] == [];
    } else {
      TotalOfOneMore(xs[1..], f, x);
      assert (xs + [x])[1..] == xs[1..] + [x];
    }
  }

  lemma {:induction false} TotalCounts<T>(xs: seq<T>, f: T -> nat, i: nat)
    requires i < |xs|
    ensures f(xs[i]) <= Total(xs, f)
  {
    if i > 0 { TotalCounts(xs[1..], f, i - 1); }
  }

  // --------------------------------------------------------------------
  // Tokens: the ways in which a call of k can still lead to a deletion
  // --------------------------------------------------------------------

  ghost function Owed(k: CheckpointId): Hitl.Handler -> nat {
    h => if Hitl.Owes(h, k) then 1 else 0
  }

  ghost function Tasked(k: CheckpointId): CheckpointId -> nat {
    c => if c == k then 1 else 0
  }

  predicate Big(c: Chore) {
    c.Create? || c.DeleteCalls?
  }

  function BigOnes(left: seq<Chore>): nat {
    if left == [] then 0 else (if Big(left[0]) then 1 else 0) + BigOnes(left[1..])
  }

  function HeldBy(r: Resumer, k: CheckpointId): nat {
    if r.checkpoint != k || r.stage.Gone? then 0 else if r.stage.Chores? then BigOnes(r.stage.left) else 1
  }

  ghost function Held(k: CheckpointId): Resumer -> nat {
    r => HeldBy(r, k)
  }

  ghost function Waiting(j: Joint): seq<CheckpointId>
    requires j.taken <= |j.calls.tasks|
  {
    j.calls.tasks[j.taken..]
  }

  // Pending calls of k, handlers that owe k a count, queued tasks and workers of k.
  ghost function Tokens(j: Joint, k: CheckpointId): nat
    requires j.taken <= |j.calls.tasks|
  {
    |PendingOf(j.calls.rows, k)| + Total(j.calls.handlers, Owed(k)) + Total(Waiting(j), Tasked(k))
    + Total(j.resumers, Held(k))
  }

  // Has read the answers of k, and may still delete or create calls.
  predicate HasRead(r: Resumer, k: CheckpointId) {
    r.checkpoint == k && (r.stage.RunAgent? || (r.stage.Chores? && BigOnes(r.stage.left) > 0))
  }

  ghost predicate NobodyHasRead(j: Joint, k: CheckpointId) {
    forall i :: 0 <= i < |j.resumers| ==> !HasRead(j.resumers[i], k)
  }

  ghost predicate NoSweeps(s: Hitl.System) {
    forall i :: 0 <= i < |s.handlers| ==> !Hitl.Sweeping(s.handlers[i])
  }

  /** There is one token of k at most, and no unread answer while a call is pending or a worker
      that has read is not done. */
  ghost predicate OneAtATime(j: Joint, k: CheckpointId) {
    && j.taken <= |j.calls.tasks| && NoSweeps(j.calls) && Tokens(j, k) <= 1
    && (Unread(j, k) ==> PendingOf(j.calls.rows, k) == {} && NobodyHasRead(j, k))
  }

  // --------------------------------------------------------------------
  // Every step keeps the one token
  // --------------------------------------------------------------------

  lemma OneLess<T>(a: set<T>, x: T)
    requires x in a
    ensures |a - {x}| == |a| - 1
  {
  }

  lemma FewerPending(a: set<RcId>, b: set<RcId>)
    requires a <= b
    ensures |a| <= |b|
    decreases a
  {
    if x :| x in a {
      FewerPending(a - {x}, b - {x});
      OneLess(a, x);
      OneLess(b, x);
    }
  }

  // A claim of one row: it was pending, or nothing changes.
  lemma ResolvingTakesOne(t: Table, id: RcId, success: bool, answer: string, k: CheckpointId)
    ensures var t' := Resolve(t, id, success, answer).0;
            if id in PendingOf(t, k)
            then PendingOf(t', k) == PendingOf(t, k) - {id} && ResolvedOf(t', k) == ResolvedOf(t, k) + {id}
            else PendingOf(t', k) == PendingOf(t, k) && ResolvedOf(t', k) == ResolvedOf(t, k)
  {
  }

  lemma ExpiringTakesSome(t: Table, k': CheckpointId, now: nat, k: CheckpointId)
    ensures PendingOf(MarkExpiredByCheckpoint(t, k', now), k) <= PendingOf(t, k)
    ensures ResolvedOf(MarkExpiredByCheckpoint(t, k', now), k) == ResolvedOf(t, k)
  {
  }

  lemma CancellingTakesAll(t: Table, k': CheckpointId, k: CheckpointId)
    ensures PendingOf(CancelByCheckpoint(t, k').0, k) == if k' == k then {} else PendingOf(t, k)
    ensures ResolvedOf(CancelByCheckpoint(t, k').0, k) == ResolvedOf(t, k)
  {
  }

  // What a handler's step does to the calls of k.
  ghost predicate Balanced(t: Table, h: Hitl.Handler, e: Hitl.Effect, k: CheckpointId) {
    && |PendingOf(e.rows, k)| + Owed(k)(e.next) + (if e.task == Some(k) then 1 else 0)
       <= |PendingOf(t, k)| + Owed(k)(h)
    && (ResolvedOf(e.rows, k) <= ResolvedOf(t, k) || PendingOf(t, k) != {})
    && PendingOf(e.rows, k) <= PendingOf(t, k)
    && (!(ResolvedOf(e.rows, k) <= ResolvedOf(t, k)) ==> |PendingOf(e.rows, k)| < |PendingOf(t, k)|)
  }

  lemma ResolveIsBalanced(s: Hitl.System, h: Hitl.Handler, pick: CheckpointId, toolCalling: bool, k: CheckpointId)
    requires h.ResumeResolve?
    ensures Balanced(s.rows, h, Hitl.Next(s, h, pick, toolCalling), k)
  {
    var e := Hitl.Next(s, h, pick, toolCalling);
    ResolvingTakesOne(s.rows, h.id, h.success, h.answer, k);
    assert e.rows == Resolve(s.rows, h.id, h.success, h.answer).0 && e.task == None;
    if h.id in PendingOf(s.rows, k) {
      OneLess(PendingOf(s.rows, k), h.id);
    } else {
      assert !Hitl.Owes(e.next, k);
    }
  }

  lemma ResumeIsBalanced(s: Hitl.System, h: Hitl.Handler, pick: CheckpointId, toolCalling: bool, k: CheckpointId)
    requires h.ResumeLookUp? || h.ResumeCheckExpiry? || h.ResumeExpire? || h.ResumeSiblings? || h.ResumeCount?
    ensures Balanced(s.rows, h, Hitl.Next(s, h, pick, toolCalling), k)
  {
    var e := Hitl.Next(s, h, pick, toolCalling);
    if h.ResumeExpire? {
      ExpiryEffect(s, h, pick, toolCalling, k);
      FewerPending(PendingOf(e.rows, k), PendingOf(s.rows, k));
    } else if h.ResumeSiblings? {
      ExpiringTakesSome(s.rows, h.k, s.now, k);
      FewerPending(PendingOf(e.rows, k), PendingOf(s.rows, k));
    } else {
      assert e.rows == s.rows;
    }
  }

  lemma CancelIsBalanced(s: Hitl.System, h: Hitl.Handler, pick: CheckpointId, toolCalling: bool, k: CheckpointId)
    requires h.CancelLookUp? || h.CancelRun? || h.CancelCount? || h.Enqueue? || h.Finished?
    ensures Balanced(s.rows, h, Hitl.Next(s, h, pick, toolCalling), k)
  {
    if h.CancelRun? {
      CancellingTakesAll(s.rows, h.k, k);
    } else {
      assert Hitl.Next(s, h, pick, toolCalling).rows == s.rows;
    }
  }

  lemma HandlerIsBalanced(s: Hitl.System, h: Hitl.Handler, pick: CheckpointId, toolCalling: bool, k: CheckpointId)
    requires !Hitl.Sweeping(h)
    ensures Balanced(s.rows, h, Hitl.Next(s, h, pick, toolCalling), k)
  {
    if h.ResumeResolve? {
      ResolveIsBalanced(s, h, pick, toolCalling, k);
    } else if h.CancelLookUp? || h.CancelRun? || h.CancelCount? || h.Enqueue? || h.Finished? {
      CancelIsBalanced(s, h, pick, toolCalling, k);
    } else {
      ResumeIsBalanced(s, h, pick, toolCalling, k);
    }
  }

  lemma TokensAfterAdvance(j: Joint, i: nat, e: Hitl.Effect, k: CheckpointId)
    requires i < |j.calls.handlers| && j.taken <= |j.calls.tasks|
    requires Balanced(j.calls.rows, j.calls.handlers[i], e, k)
    ensures Tokens(j.(calls := Hitl.Apply(j.calls, i, e)), k) <= Tokens(j, k)
  {
    var j' := j.(calls := Hitl.Apply(j.calls, i, e));
    TotalOfUpdate(j.calls.handlers, Owed(k), i, e.next);
    if e.task.Some? {
      assert Waiting(j') == Waiting(j) + [e.task.value];
      TotalOfOneMore(Waiting(j), Tasked(k), e.task.value);
    }
  }

  // A worker that has read is a token.
  lemma ReaderIsToken(j: Joint, k: CheckpointId)
    requires j.taken <= |j.calls.tasks| && !NobodyHasRead(j, k)
    ensures Total(j.resumers, Held(k)) >= 1
  {
    var i :| 0 <= i < |j.resumers| && HasRead(j.resumers[i], k);
    TotalCounts(j.resumers, Held(k), i);
  }

  lemma BalancedKeepsOne(j: Joint, i: nat, e: Hitl.Effect, k: CheckpointId)
    requires OneAtATime(j, k) && i < |j.calls.handlers| && !Hitl.Sweeping(e.next)
    requires Balanced(j.calls.rows, j.calls.handlers[i], e, k)
    ensures OneAtATime(j.(calls := Hitl.Apply(j.calls, i, e)), k)
  {
    var j' := j.(calls := Hitl.Apply(j.calls, i, e));
    TokensAfterAdvance(j, i, e, k);
    if !(ResolvedOf(e.rows, k) <= ResolvedOf(j.calls.rows, k)) {
      assert |PendingOf(e.rows, k)| == 0;
      if !NobodyHasRead(j, k) { ReaderIsToken(j, k); }
    } else if Unread(j', k) {
      assert Unread(j, k);
    }
  }

  lemma ProtocolKeepsOne(j: Joint, b: Hitl.Action, k: CheckpointId)
    requires OneAtATime(j, k) && !b.BeginSweep?
    ensures OneAtATime(Step(j, Protocol(b)), k)
  {
    var j' := Step(j, Protocol(b));
    if b.Advance? {
      if b.i < |j.calls.handlers| {
        var h := j.calls.handlers[b.i];
        HandlerIsBalanced(j.calls, h, b.pick, b.toolCalling, k);
        Hitl.OthersDoNotSweep(j.calls, h, b.pick, b.toolCalling);
        BalancedKeepsOne(j, b.i, Hitl.Next(j.calls, h, b.pick, b.toolCalling), k);
      }
    } else {
      if !b.Tick? { TotalOfOneMore(j.calls.handlers, Owed(k), j'.calls.handlers[|j.calls.handlers|]); }
      assert Unread(j', k) <==> Unread(j, k);
    }
  }

  lemma TakeKeepsOne(j: Joint, k: CheckpointId)
    requires OneAtATime(j, k) && j.taken < |j.calls.tasks|
    ensures OneAtATime(Step(j, Take), k)
  {
    var j', c := Step(j, Take), j.calls.tasks[j.taken];
    assert Waiting(j)[0] == c && Waiting(j)[1..] == Waiting(j');
    TotalOfOneMore(j.resumers, Held(k), Resumer(c, CheckProcessed));
    assert Unread(j', k) <==> Unread(j, k);
  }

  // What a worker's step does to the calls of k.
  lemma ChoreIsBalanced(t: Table, j: Joint, k': CheckpointId, c: Chore, k: CheckpointId)
    requires t == j.calls.rows
    ensures var t' := DoChore(j, k', c).calls.rows;
            && |PendingOf(t', k)| <= |PendingOf(t, k)| + (if k' == k && Big(c) then 1 else 0)
            && (!(k' == k && Big(c)) ==> PendingOf(t', k) == PendingOf(t, k))
            && ResolvedOf(t', k) <= ResolvedOf(t, k)
  {
    match c
    case Create(id, row) => CreationAddsOne(t, k', id, row, k);
    case DeleteCalls => DeletionTakesAll(t, k', k);
    case _ =>
  }

  lemma CreationAddsOne(t: Table, k': CheckpointId, id: RcId, row: Row, k: CheckpointId)
    ensures var t' := Created(t, k', id, row);
            && PendingOf(t', k) == (if k' == k && id !in t then PendingOf(t, k) + {id} else PendingOf(t, k))
            && ResolvedOf(t', k) == ResolvedOf(t, k)
  {
  }

  lemma DeletionTakesAll(t: Table, k': CheckpointId, k: CheckpointId)
    ensures PendingOf(DeleteByCheckpoint(t, k'), k) == if k' == k then {} else PendingOf(t, k)
    ensures ResolvedOf(DeleteByCheckpoint(t, k'), k) == if k' == k then {} else ResolvedOf(t, k)
  {
  }

  // What a worker's step leaves: it moves one worker, takes tokens of k at most, and answers nothing.
  ghost predicate WorkEffect(j: Joint, j': Joint, i: nat, k: CheckpointId) {
    && i < |j.resumers| == |j'.resumers| && j'.resumers == j.resumers[i := j'.resumers[i]]
    && j'.calls.handlers == j.calls.handlers && j'.calls.tasks == j.calls.tasks && j'.taken == j.taken
    && |PendingOf(j'.calls.rows, k)| + HeldBy(j'.resumers[i], k)
       <= |PendingOf(j.calls.rows, k)| + HeldBy(j.resumers[i], k)
    && ResolvedOf(j'.calls.rows, k) <= ResolvedOf(j.calls.rows, k) && j.read <= j'.read
  }

  lemma ChoreHasEffect(j: Joint, i: nat, e: Ending, k: CheckpointId)
    requires i < |j.resumers| && j.resumers[i].stage.Chores? && j.resumers[i].stage.left != []
    ensures WorkEffect(j, WorkStep(j, i, e), i, k)
  {
    var r := j.resumers[i];
    ChoreIsBalanced(j.calls.rows, j, r.checkpoint, r.stage.left[0], k);
    var j1 := DoChore(j, r.checkpoint, r.stage.left[0]);
    assert WorkStep(j, i, e) == MoveTo(j1, i, Chores(r.stage.left[1..]));
  }

  lemma WorkHasEffect(j: Joint, i: nat, e: Ending, k: CheckpointId)
    requires i < |j.resumers|
    ensures WorkEffect(j, WorkStep(j, i, e), i, k)
  {
    var r := j.resumers[i];
    if r.stage.Chores? && r.stage.left != [] {
      ChoreHasEffect(j, i, e, k);
    } else {
      FewBigOnes(e);
      FewBigOnes(GivesUp);
    }
  }

  lemma FewBigOnes(e: Ending)
    ensures BigOnes(ChoresOf(e)) <= 1
  {
    match e
    case Finishes =>
      assert [MarkDone, DeleteKey, DeleteCalls][1..] == [DeleteKey, DeleteCalls];
      assert [DeleteKey, DeleteCalls][1..] == [DeleteCalls];
    case GivesUp =>
      assert [DeleteCalls, DeleteKey, MarkDone][1..] == [DeleteKey, MarkDone];
      assert [DeleteKey, MarkDone][1..] == [MarkDone];
    case PausesAgain(id, row) =>
      assert [Create(id, row), DeleteKey][1..] == [DeleteKey] && [DeleteKey][1..] == [];
    case Fails(_) =>
  }

  lemma TokensAfterWork(j: Joint, j': Joint, i: nat, k: CheckpointId)
    requires WorkEffect(j, j', i, k) && j.taken <= |j.calls.tasks|
    ensures Tokens(j', k) <= Tokens(j, k)
  {
    TotalOfUpdate(j.resumers, Held(k), i, j'.resumers[i]);
  }

  lemma WorkKeepsOne(j: Joint, i: nat, e: Ending, k: CheckpointId)
    requires OneAtATime(j, k) && i < |j.resumers|
    ensures OneAtATime(WorkStep(j, i, e), k)
  {
    var j' := WorkStep(j, i, e);
    WorkHasEffect(j, i, e, k);
    TokensAfterWork(j, j', i, k);
    if Unread(j', k) { WorkKeepsUnreadAlone(j, j', i, e, k); }
  }

  // With an answer unread before and after the step, no worker of k has read and none creates a call.
  lemma WorkKeepsUnreadAlone(j: Joint, j': Joint, i: nat, e: Ending, k: CheckpointId)
    requires OneAtATime(j, k) && WorkEffect(j, j', i, k) && j' == WorkStep(j, i, e) && Unread(j', k)
    ensures PendingOf(j'.calls.rows, k) == {} && NobodyHasRead(j', k)
  {
    assert Unread(j, k);
    assert !HasRead(j.resumers[i], k);
    ReadingLeavesNothing(j, i, e, k);
    MovedHasNotRead(j, i, e, k);
    forall l | 0 <= l < |j'.resumers| ensures !HasRead(j'.resumers[l], k) {
      if l != i { assert j'.resumers[l] == j.resumers[l]; }
    }
  }

  // Apart from reading, a worker that has not read still has not, and creates no call of k.
  lemma MovedHasNotRead(j: Joint, i: nat, e: Ending, k: CheckpointId)
    requires i < |j.resumers| && !HasRead(j.resumers[i], k)
    requires !(j.resumers[i].checkpoint == k && j.resumers[i].stage.ReadAnswers?)
    ensures !HasRead(WorkStep(j, i, e).resumers[i], k)
    ensures PendingOf(j.calls.rows, k) == {} ==> PendingOf(WorkStep(j, i, e).calls.rows, k) == {}
  {
    var r := j.resumers[i];
    if r.stage.Chores? && r.stage.left != [] {
      ChoreIsBalanced(j.calls.rows, j, r.checkpoint, r.stage.left[0], k);
    }
  }

  lemma ReadingLeavesNothing(j: Joint, i: nat, e: Ending, k: CheckpointId)
    requires i < |j.resumers|
    ensures j.resumers[i].checkpoint == k && j.resumers[i].stage.ReadAnswers? ==> !Unread(WorkStep(j, i, e), k)
  {
  }

  lemma StepKeepsOne(j: Joint, a: Action, k: CheckpointId)
    requires OneAtATime(j, k) && !Sweeps(a)
    ensures OneAtATime(Step(j, a), k)
  {
    match a
    case Protocol(b) => ProtocolKeepsOne(j, b, k);
    case Take => if j.taken < |j.calls.tasks| { TakeKeepsOne(j, k); }
    case Work(i, e) => if i < |j.resumers| { WorkKeepsOne(j, i, e, k); }
  }

  predicate Sweeps(a: Action) {
    a.Protocol? && a.a.BeginSweep?
  }

  predicate Unswept(actions: seq<Action>) {
    forall a :: a in actions ==> !Sweeps(a)
  }

  lemma OneAtATimeErasesNothing(j: Joint, a: Action, k: CheckpointId)
    requires OneAtATime(j, k)
    ensures !Erases(j, a, k)
  {
    if a.Work? && a.i < |j.resumers| && j.resumers[a.i].checkpoint == k && DeletesNext(j.resumers[a.i].stage) {
      assert HasRead(j.resumers[a.i], k);
    }
  }

  /** From a state with one token at most, no run without sweeps erases an answer of k. */
  lemma {:induction false} OneCallIsNeverErased(j: Joint, actions: seq<Action>, k: CheckpointId)
    requires OneAtATime(j, k) && !Erased(j, k) && Unswept(actions)
    ensures !Erased(Run(j, actions), k)
    decreases |actions|
  {
    if actions != [] {
      OneAtATimeErasesNothing(j, actions[0], k);
      StepErasesIff(j, actions[0], k);
      StepKeepsOne(j, actions[0], k);
      OneCallIsNeverErased(Step(j, actions[0]), actions[1..], k);
    }
  }

  // --------------------------------------------------------------------
  // Two pending calls are enough
  // --------------------------------------------------------------------

  // The run leads from j to j' without losing a wake-up of k.
  ghost predicate Leads(j: Joint, actions: seq<Action>, j': Joint, k: CheckpointId) {
    Run(j, actions) == j' && LosesNothing(j, actions, k)
  }

  lemma LeadsFirst(j: Joint, a: Action, rest: seq<Action>, j': Joint, k: CheckpointId)
    requires !Loses(j, a, k) && Leads(Step(j, a), rest, j', k)
    ensures Leads(j, [a] + rest, j', k)
  {
    assert ([a] + rest)[1..] == rest;
  }

  lemma {:induction false} LeadsOn(j: Joint, a: seq<Action>, j': Joint, b: seq<Action>, j'': Joint, k: CheckpointId)
    requires Leads(j, a, j', k) && Leads(j', b, j'', k)
    ensures Leads(j, a + b, j'', k)
    decreases |a|
  {
    if a == [] {
      assert a + b == b;
    } else {
      LeadsOn(Step(j, a[0]), a[1..], j', b, j'', k);
      LeadsFirst(j, a[0], a[1..] + b, j'', k);
      assert [a[0]] + (a[1..] + b) == a + b;
    }
  }

  predicate Timely(t: Table, now: nat, id: RcId) {
    id !in t || !t[id].Overdue(now)
  }

  // A handler that neither sweeps nor gets to expire its own row.
  ghost predicate PlainHandler(s: Hitl.System, h: Hitl.Handler) {
    && !Hitl.Sweeping(h) && !h.ResumeExpire?
    && (h.ResumeLookUp? || h.ResumeCheckExpiry? ==> Timely(s.rows, s.now, h.id))
  }

  ghost predicate Plain(s: Hitl.System) {
    forall i :: 0 <= i < |s.handlers| ==> PlainHandler(s, s.handlers[i])
  }

  predicate PlainAction(t: Table, now: nat, b: Hitl.Action) {
    !b.Tick? && !b.BeginSweep? && (b.BeginResume? ==> Timely(t, now, b.id))
  }

  // The time stands still, no sweep begins, and only calls in time are answered.
  ghost predicate AllPlain(s: Hitl.System, actions: seq<Hitl.Action>) {
    forall b :: b in actions ==> PlainAction(s.rows, s.now, b)
  }

  lemma PlainStays(s: Hitl.System, b: Hitl.Action)
    requires Plain(s) && PlainAction(s.rows, s.now, b)
    ensures var s' := Hitl.Step(s, b);
            && Plain(s') && s'.guards == s.guards && s'.now == s.now
            && forall id :: Timely(s'.rows, s.now, id) <==> Timely(s.rows, s.now, id)
  {
    var s' := Hitl.Step(s, b);
    Hitl.StepSettles(s, b);
    if b.Advance? && b.i < |s.handlers| {
      PlainHandlerStays(s, s.handlers[b.i], b.pick, b.toolCalling);
      forall i | 0 <= i < |s'.handlers| ensures PlainHandler(s', s'.handlers[i]) {
        if i != b.i { assert s'.handlers[i] == s.handlers[i]; }
      }
    }
  }

  lemma PlainHandlerStays(s: Hitl.System, h: Hitl.Handler, pick: CheckpointId, toolCalling: bool)
    requires PlainHandler(s, h)
    ensures var e := Hitl.Next(s, h, pick, toolCalling);
            PlainHandler(s, e.next) && e.guard == None
  {
    Hitl.OthersDoNotSweep(s, h, pick, toolCalling);
    Hitl.GuardsLeadToTasks(s, h, pick, toolCalling);
  }

  lemma RestIsPlain(s: Hitl.System, actions: seq<Hitl.Action>)
    requires Plain(s) && AllPlain(s, actions) && actions != []
    ensures var next := Hitl.Step(s, actions[0]);
            Plain(next) && AllPlain(next, actions[1..]) && next.guards == s.guards
  {
    var next := Hitl.Step(s, actions[0]);
    PlainStays(s, actions[0]);
    forall b | b in actions[1..] ensures PlainAction(next.rows, next.now, b) {
      assert PlainAction(s.rows, s.now, b);
      if b.BeginResume? { assert Timely(next.rows, s.now, b.id); }
    }
  }

  lemma PlainLosesNothing(j: Joint, b: Hitl.Action, k: CheckpointId)
    requires Plain(j.calls)
    ensures !Loses(j, Protocol(b), k)
  {
    if b.Advance? && b.i < |j.calls.handlers| { assert PlainHandler(j.calls, j.calls.handlers[b.i]); }
  }

  lemma {:induction false} LiftedLeads(j: Joint, actions: seq<Hitl.Action>, k: CheckpointId)
    requires Plain(j.calls) && AllPlain(j.calls, actions)
    ensures Leads(j, Lifted(actions), j.(calls := Hitl.Run(j.calls, actions)), k) && Unswept(Lifted(actions))
    ensures Hitl.Run(j.calls, actions).guards == j.calls.guards
    decreases |actions|
  {
    if actions != [] {
      RestIsPlain(j.calls, actions);
      var a, rest := Protocol(actions[0]), actions[1..];
      var j1 := Step(j, a);
      assert PlainAction(j.calls.rows, j.calls.now, actions[0]);
      assert j1 == j.(calls := Hitl.Step(j.calls, actions[0]));
      LiftedLeads(j1, rest, k);
      assert !Loses(j, a, k) by { PlainLosesNothing(j, actions[0], k); }
      LeadsFirst(j, a, Lifted(rest), j1.(calls := Hitl.Run(j1.calls, rest)), k);
      assert Lifted(actions) == [a] + Lifted(rest);
    }
  }

  // Every handler has finished, and the pending calls of k are in time.
  ghost predicate Still(s: Hitl.System, k: CheckpointId) {
    && (forall i :: 0 <= i < |s.handlers| ==> s.handlers[i] == Hitl.Finished)
    && (forall id :: id in PendingOf(s.rows, k) ==> !s.rows[id].Overdue(s.now))
  }

  // Nobody is at work on k, nothing is marked, and these tasks of k wait in the queue.
  ghost predicate Idle(j: Joint, k: CheckpointId, waiting: seq<CheckpointId>) {
    && Still(j.calls, k) && j.taken <= |j.calls.tasks| && Waiting(j) == waiting
    && j.read <= j.calls.rows.Keys && !j.keys.Processed(k) && !j.keys.Processing(k)
  }

  // What an uninterrupted answer to x leaves of the calls of its checkpoint.
  ghost predicate AnsweredIn(t: Table, t': Table, k: CheckpointId, x: RcId, now: nat) {
    && t'.Keys == t.Keys && PendingOf(t', k) == PendingOf(t, k) - {x} && x in ResolvedOf(t', k)
    && (forall id :: id in PendingOf(t', k) ==> !t'[id].Overdue(now))
  }

  lemma EffectIsAnswered(t: Table, t': Table, k: CheckpointId, x: RcId, now: nat)
    requires x in PendingOf(t, k) && ResumeEffect(t, t', x, true, "", now)
    requires forall id :: id in PendingOf(t, k) ==> !t[id].Overdue(now)
    ensures AnsweredIn(t, t', k, x, now)
  {
    forall id | id in t ensures id in PendingOf(t', k) <==> id in PendingOf(t, k) - {x} {
      if id != x && id !in PendingOf(t, k) { assert t'[id] == t[id]; }
    }
  }

  lemma ResolvedIsNotGivenUp(t: Table, k: CheckpointId, x: RcId)
    requires x in ResolvedOf(t, k) || x in PendingOf(t, k)
    ensures !AllGivenUp(t, k)
  {
  }

  // One call answered from end to end: a resume is queued when it was the last.
  lemma AnswerOne(j: Joint, k: CheckpointId, x: RcId) returns (actions: seq<Action>, j': Joint)
    requires Idle(j, k, []) && x in PendingOf(j.calls.rows, k)
    ensures Leads(j, actions, j', k) && Unswept(actions)
    ensures Idle(j', k, if PendingOf(j.calls.rows, k) == {x} then [k] else []) && j'.resumers == j.resumers
    ensures AnsweredIn(j.calls.rows, j'.calls.rows, k, x, j.calls.now) && j'.calls.guards == j.calls.guards
  {
    var s := j.calls;
    var steps := AnswerSteps(s, k, x);
    LiftedLeads(j, steps, k);
    actions, j' := Lifted(steps), j.(calls := Hitl.Run(s, steps));
    assert Waiting(j') == if PendingOf(s.rows, k) == {x} then [k] else [];
    ResolvedIsNotGivenUp(j'.calls.rows, k, x);
  }

  lemma AnswerSteps(s: Hitl.System, k: CheckpointId, x: RcId) returns (steps: seq<Hitl.Action>)
    requires Still(s, k) && x in PendingOf(s.rows, k)
    ensures AllPlain(s, steps)
    ensures var s' := Hitl.Run(s, steps);
            && Still(s', k) && s'.now == s.now && AnsweredIn(s.rows, s'.rows, k, x, s.now)
            && s'.tasks == if PendingOf(s.rows, k) == {x} then s.tasks + [k] else s.tasks
  {
    steps := Hitl.Uninterrupted(s, k, x, true, "");
    Hitl.UninterruptedResume(s, x, true, "");
    EffectIsAnswered(s.rows, Hitl.Run(s, steps).rows, k, x, s.now);
    assert PendingOf(s.rows, k) - {x} == {} <==> PendingOf(s.rows, k) == {x};
  }

  // All but n of the pending calls are answered, and nobody is woken.
  lemma {:induction false} AnswerDownTo(j: Joint, k: CheckpointId, n: nat) returns (actions: seq<Action>, j': Joint)
    requires Idle(j, k, []) && |PendingOf(j.calls.rows, k)| >= n > 0
    ensures Leads(j, actions, j', k) && Unswept(actions) && Idle(j', k, []) && j'.resumers == j.resumers
    ensures |PendingOf(j'.calls.rows, k)| == n && j'.calls.rows.Keys == j.calls.rows.Keys
    ensures j'.calls.guards == j.calls.guards
    decreases |PendingOf(j.calls.rows, k)|
  {
    if |PendingOf(j.calls.rows, k)| == n {
      actions, j' := [], j;
    } else {
      var x :| x in PendingOf(j.calls.rows, k);
      var first, j1 := AnswerOne(j, k, x);
      OneLess(PendingOf(j.calls.rows, k), x);
      var rest, j2 := AnswerDownTo(j1, k, n);
      LeadsOn(j, first, j1, rest, j2, k);
      actions, j' := first + rest, j2;
    }
  }

  // --------------------------------------------------------------------
  // Two handlers count zero
  // --------------------------------------------------------------------

  lemma MovesAt(s: Hitl.System, i: nat, k: CheckpointId)
    requires i < |s.handlers|
    ensures var e, s' := Hitl.Next(s, s.handlers[i], k, true), Hitl.Step(s, Hitl.Advance(i, k, true));
            && s'.handlers == s.handlers[i := e.next] && s'.rows == e.rows && s'.now == s.now
            && s'.tasks == (if e.task.Some? then s.tasks + [e.task.value] else s.tasks)
  {
  }

  lemma NothingToExpire(t: Table, k: CheckpointId, now: nat)
    requires PendingOf(t, k) == {}
    ensures MarkExpiredByCheckpoint(t, k, now) == t
  {
    forall id | id in t ensures MarkExpiredByCheckpoint(t, k, now)[id] == t[id] {
      assert id !in PendingOf(t, k);
    }
  }

  // A handler that has claimed its row counts zero and enqueues.
  lemma CountsAndEnqueues(s: Hitl.System, i: nat, k: CheckpointId) returns (count: seq<Hitl.Action>)
    requires i < |s.handlers| && s.handlers[i] == Hitl.ResumeSiblings(k) && PendingOf(s.rows, k) == {}
    ensures forall t: Table :: AllPlain(s.(rows := t), count)
    ensures var s' := Hitl.Run(s, count);
            && s'.handlers == s.handlers[i := Hitl.Finished] && s'.rows == s.rows && s'.now == s.now
            && s'.tasks == s.tasks + [k]
  {
    var go := Hitl.Advance(i, k, true);
    count := [go, go, go];
    NothingToExpire(s.rows, k, s.now);
    MovesAt(s, i, k);
    var s1 := Hitl.Step(s, go);
    MovesAt(s1, i, k);
    var s2 := Hitl.Step(s1, go);
    MovesAt(s2, i, k);
    RunsThree(s, go);
  }

  lemma RunsThree(s: Hitl.System, b: Hitl.Action)
    ensures Hitl.Run(s, [b, b, b]) == Hitl.Thrice(s, b)
  {
    assert [b, b, b][1..] == [b, b] && [b, b][1..] == [b] && [b][1..] == [];
    assert Hitl.Run(s, [b, b, b]) == Hitl.Run(Hitl.Step(s, b), [b, b]) == Hitl.Run(Hitl.Twice(s, b), [b])
        == Hitl.Run(Hitl.Thrice(s, b), []);
  }

  lemma RunsFour(s: Hitl.System, a: Hitl.Action, b: Hitl.Action)
    ensures Hitl.Run(s, [a, b, b, b]) == Hitl.Thrice(Hitl.Step(s, a), b)
  {
    RunsThree(Hitl.Step(s, a), b);
    assert [a, b, b, b][1..] == [b, b, b];
  }

  lemma {:induction false} RunsJoin(s: Hitl.System, a: seq<Hitl.Action>, b: seq<Hitl.Action>)
    ensures Hitl.Run(s, a + b) == Hitl.Run(Hitl.Run(s, a), b)
    decreases |a|
  {
    if a == [] {
      assert a + b == b;
    } else {
      RunsJoin(Hitl.Step(s, a[0]), a[1..], b);
      assert (a + b)[1..] == a[1..] + b;
    }
  }

  // A new handler has claimed its row and not counted yet; z is left.
  ghost predicate FirstClaimed(s: Hitl.System, s1: Hitl.System, k: CheckpointId, z: RcId) {
    && s1.handlers == s.handlers + [Hitl.ResumeSiblings(k)] && s1.tasks == s.tasks && s1.now == s.now
    && PendingOf(s1.rows, k) == {z} && !s1.rows[z].Overdue(s.now) && Settles(s.rows, s1.rows)
  }

  lemma FirstClaims(s: Hitl.System, k: CheckpointId, x: RcId, z: RcId) returns (claim: seq<Hitl.Action>)
    requires Still(s, k) && PendingOf(s.rows, k) == {x, z} && x != z
    ensures FirstClaimed(s, Hitl.Run(s, claim), k, z) && AllPlain(s, claim)
  {
    var go := Hitl.Advance(|s.handlers|, k, true);
    claim := [Hitl.BeginResume(x, true, ""), go, go, go];
    assert x in PendingOf(s.rows, k) && z in PendingOf(s.rows, k);
    Hitl.UninterruptedClaim(s, x, true, "");
    RunsFour(s, Hitl.BeginResume(x, true, ""), go);
    ResolvingTakesOne(s.rows, x, true, "", k);
    ResolveSettles(s.rows, x, true, "");
  }

  // Both rows are answered; one resume is queued and one handler has still to count.
  ghost predicate SecondDone(s: Hitl.System, s2: Hitl.System, k: CheckpointId, z: RcId) {
    && s2.handlers == s.handlers + [Hitl.ResumeSiblings(k)] + [Hitl.Finished] && s2.tasks == s.tasks + [k]
    && s2.now == s.now && PendingOf(s2.rows, k) == {} && z in ResolvedOf(s2.rows, k) && s2.rows.Keys == s.rows.Keys
  }

  lemma SecondRuns(s: Hitl.System, s1: Hitl.System, k: CheckpointId, z: RcId) returns (whole: seq<Hitl.Action>)
    requires FirstClaimed(s, s1, k, z)
    ensures SecondDone(s, Hitl.Run(s1, whole), k, z) && AllPlain(s, whole)
  {
    whole := Hitl.Uninterrupted(s1, k, z, true, "");
    assert z in PendingOf(s1.rows, k);
    Hitl.UninterruptedResume(s1, z, true, "");
    EffectIsAnswered(s1.rows, Hitl.Run(s1, whole).rows, k, z, s1.now);
    assert z in s.rows && s1.rows[z].expiresAt == s.rows[z].expiresAt;
  }

  // The first handler claims its row, the second runs from end to end, and the first goes on.
  lemma BothCountZero(j: Joint, k: CheckpointId, x: RcId, z: RcId) returns (actions: seq<Action>, j': Joint)
    requires Idle(j, k, []) && PendingOf(j.calls.rows, k) == {x, z} && x != z
    ensures Leads(j, actions, j', k) && Unswept(actions) && Idle(j', k, [k, k])
    ensures j'.calls.rows.Keys == j.calls.rows.Keys
    ensures PendingOf(j'.calls.rows, k) == {} && !AllGivenUp(j'.calls.rows, k)
  {
    var s := j.calls;
    var claim := FirstClaims(s, k, x, z);
    var s1 := Hitl.Run(s, claim);
    var whole := SecondRuns(s, s1, k, z);
    var s2 := Hitl.Run(s1, whole);
    var count := CountsAndEnqueues(s2, |s.handlers|, k);
    var all := claim + whole + count;
    RunsJoin(s, claim, whole);
    RunsJoin(s, claim + whole, count);
    assert AllPlain(s, all) by { assert s2.(rows := s.rows).now == s.now; }
    LiftedLeads(j, all, k);
    actions, j' := Lifted(all), j.(calls := Hitl.Run(s, all));
    TwoWait(j, j', s2, k, z);
  }

  lemma TwoWait(j: Joint, j': Joint, s2: Hitl.System, k: CheckpointId, z: RcId)
    requires Idle(j, k, []) && SecondDone(j.calls, s2, k, z) && j' == j.(calls := j'.calls)
    requires j'.calls.handlers == s2.handlers[|j.calls.handlers| := Hitl.Finished] && j'.calls.rows == s2.rows
    requires j'.calls.now == s2.now && j'.calls.tasks == s2.tasks + [k]
    ensures Idle(j', k, [k, k]) && PendingOf(j'.calls.rows, k) == {} && !AllGivenUp(j'.calls.rows, k)
  {
    assert j'.calls.tasks[j.taken..] == j.calls.tasks[j.taken..] + [k] + [k];
    ResolvedIsNotGivenUp(j'.calls.rows, k, z);
  }

  // --------------------------------------------------------------------
  // The workers
  // --------------------------------------------------------------------

  // The next worker has taken its task, passed both checks and read the answers.
  function Reading(j: Joint, k: CheckpointId): Joint {
    j.(taken := j.taken + 1, resumers := j.resumers + [Resumer(k, RunAgent)], keys := j.keys.MarkProcessing(k),
       read := j.read + ResolvedOf(j.calls.rows, k))
  }

  // The newest worker moves.
  lemma NewestWorks(j: Joint, before: seq<Resumer>, r: Resumer, e: Ending)
    requires j.resumers == before + [r]
    ensures forall stage :: MoveTo(j, |before|, stage) == j.(resumers := before + [Resumer(r.checkpoint, stage)])
  {
    forall stage ensures MoveTo(j, |before|, stage) == j.(resumers := before + [Resumer(r.checkpoint, stage)]) {
      assert (before + [r])[|before| := Resumer(r.checkpoint, stage)] == before + [Resumer(r.checkpoint, stage)];
    }
  }

  lemma WorkerReads(j: Joint, k: CheckpointId) returns (actions: seq<Action>)
    requires j.taken < |j.calls.tasks| && j.calls.tasks[j.taken] == k && !AllGivenUp(j.calls.rows, k)
    requires !j.keys.Processed(k) && !j.keys.Processing(k)
    ensures Leads(j, actions, Reading(j, k), k) && Unswept(actions)
  {
    var n, go := |j.resumers|, Work(|j.resumers|, Finishes);
    var j1 := Step(j, Take);
    NewestWorks(j1, j.resumers, Resumer(k, CheckProcessed), Finishes);
    var j2 := Step(j1, go);
    NewestWorks(j2, j.resumers, Resumer(k, CheckProcessing(false)), Finishes);
    var j3 := Step(j2, go);
    NewestWorks(j3, j.resumers, Resumer(k, MarkProcessing), Finishes);
    var j4 := Step(j3, go);
    NewestWorks(j4, j.resumers, Resumer(k, ReadAnswers), Finishes);
    var j5 := Step(j4, go);
    assert j5 == Reading(j, k);
    LeadsFirst(j4, go, [], j5, k);
    LeadsFirst(j3, go, [go] + [], j5, k);
    LeadsFirst(j2, go, [go] + ([go] + []), j5, k);
    LeadsFirst(j1, go, [go] + ([go] + ([go] + [])), j5, k);
    LeadsFirst(j, Take, [go] + ([go] + ([go] + ([go] + []))), j5, k);
    actions := [Take] + ([go] + ([go] + ([go] + ([go] + []))));
  }

  // The newest worker has paused again with call y, and may be followed by the next resume.
  function PausedWith(j: Joint, before: seq<Resumer>, k: CheckpointId, y: RcId, row: Row): Joint {
    j.(calls := j.calls.(rows := Created(j.calls.rows, k, y, row)), keys := j.keys.DeleteProcessing(k),
       resumers := before + [Resumer(k, Chores([]))])
  }

  lemma WorkerPauses(j: Joint, before: seq<Resumer>, k: CheckpointId, y: RcId, row: Row)
    returns (actions: seq<Action>)
    requires j.resumers == before + [Resumer(k, RunAgent)]
    ensures Leads(j, actions, PausedWith(j, before, k, y, row), k) && Unswept(actions)
  {
    var n := |before|;
    var pause, go := Work(n, PausesAgain(y, row)), Work(n, Finishes);
    assert [Create(y, row), DeleteKey][1..] == [DeleteKey] && [DeleteKey][1..] == [];
    NewestWorks(j, before, Resumer(k, RunAgent), Finishes);
    var j1 := Step(j, pause);
    NewestWorks(DoChore(j1, k, Create(y, row)), before, Resumer(k, Chores([Create(y, row), DeleteKey])), Finishes);
    var j2 := Step(j1, go);
    NewestWorks(DoChore(j2, k, DeleteKey), before, Resumer(k, Chores([DeleteKey])), Finishes);
    var j3 := Step(j2, go);
    assert j3 == PausedWith(j, before, k, y, row);
    LeadsFirst(j2, go, [], j3, k);
    LeadsFirst(j1, go, [go] + [], j3, k);
    LeadsFirst(j, pause, [go] + ([go] + []), j3, k);
    actions := [pause] + ([go] + ([go] + []));
  }

  // The newest worker has finished: marked, its key and all the calls of k deleted.
  function FinishedOff(j: Joint, before: seq<Resumer>, k: CheckpointId): Joint {
    j.(calls := j.calls.(rows := DeleteByCheckpoint(j.calls.rows, k)),
       keys := j.keys.MarkProcessed(k).DeleteProcessing(k), resumers := before + [Resumer(k, Chores([]))])
  }

  lemma WorkerFinishes(j: Joint, before: seq<Resumer>, k: CheckpointId) returns (actions: seq<Action>)
    requires j.resumers == before + [Resumer(k, RunAgent)]
    ensures Leads(j, actions, FinishedOff(j, before, k), k) && Unswept(actions)
  {
    var n, go := |before|, Work(|before|, Finishes);
    assert [MarkDone, DeleteKey, DeleteCalls][1..] == [DeleteKey, DeleteCalls];
    assert [DeleteKey, DeleteCalls][1..] == [DeleteCalls] && [DeleteCalls][1..] == [];
    NewestWorks(j, before, Resumer(k, RunAgent), Finishes);
    var j1 := Step(j, go);
    NewestWorks(DoChore(j1, k, MarkDone), before, Resumer(k, Chores([MarkDone, DeleteKey, DeleteCalls])), Finishes);
    var j2 := Step(j1, go);
    NewestWorks(DoChore(j2, k, DeleteKey), before, Resumer(k, Chores([DeleteKey, DeleteCalls])), Finishes);
    var j3 := Step(j2, go);
    NewestWorks(DoChore(j3, k, DeleteCalls), before, Resumer(k, Chores([DeleteCalls])), Finishes);
    var j4 := Step(j3, go);
    assert j4 == FinishedOff(j, before, k);
    LeadsFirst(j3, go, [], j4, k);
    LeadsFirst(j2, go, [go] + [], j4, k);
    LeadsFirst(j1, go, [go] + ([go] + []), j4, k);
    LeadsFirst(j, go, [go] + ([go] + ([go] + [])), j4, k);
    actions := [go] + ([go] + ([go] + ([go] + [])));
  }

  // --------------------------------------------------------------------
  // From two pending calls to an erased answer
  // --------------------------------------------------------------------

  // Call y of k is pending, and a worker that has read all the other answers of k runs its agent.
  ghost predicate StaleWorker(j: Joint, before: seq<Resumer>, k: CheckpointId, y: RcId) {
    && Still(j.calls, k) && j.taken <= |j.calls.tasks| && j.resumers == before + [Resumer(k, RunAgent)]
    && PendingOf(j.calls.rows, k) == {y} && y !in j.read
  }

  // The next worker reads and pauses with a new call.
  lemma WorkerReadsAndPauses(j: Joint, k: CheckpointId, waiting: seq<CheckpointId>, y: RcId, row: Row)
    returns (actions: seq<Action>, j': Joint)
    requires Idle(j, k, [k] + waiting) && PendingOf(j.calls.rows, k) == {} && !AllGivenUp(j.calls.rows, k)
    requires y !in j.calls.rows && !row.Overdue(j.calls.now)
    ensures Leads(j, actions, j', k) && Unswept(actions) && Idle(j', k, waiting) && y !in j'.read
    ensures PendingOf(j'.calls.rows, k) == {y} && j'.calls.rows.Keys == j.calls.rows.Keys + {y}
    ensures j'.calls.rows[y].expiresAt == row.expiresAt && !AllGivenUp(j'.calls.rows, k)
    ensures j'.calls.now == j.calls.now && j'.calls.guards == j.calls.guards
  {
    assert Waiting(j)[0] == k && Waiting(j)[1..] == waiting;
    var first := WorkerReads(j, k);
    var j1 := Reading(j, k);
    var pause := WorkerPauses(j1, j.resumers, k, y, row);
    j' := PausedWith(j1, j.resumers, k, y, row);
    LeadsOn(j, first, j1, pause, j', k);
    actions := first + pause;
    CreationAddsOne(j.calls.rows, k, y, row, k);
    assert Waiting(j') == waiting;
    ResolvedIsNotGivenUp(j'.calls.rows, k, y);
  }

  // The first worker pauses with call y, and the second takes the other resume.
  lemma SecondWorkerIsStale(j: Joint, k: CheckpointId, y: RcId)
    returns (actions: seq<Action>, j': Joint, before: seq<Resumer>)
    requires Idle(j, k, [k, k]) && PendingOf(j.calls.rows, k) == {} && !AllGivenUp(j.calls.rows, k)
    requires y !in j.calls.rows
    ensures Leads(j, actions, j', k) && Unswept(actions) && StaleWorker(j', before, k, y)
  {
    assert [k, k] == [k] + [k];
    var first, j1 := WorkerReadsAndPauses(j, k, [k], y, Row(k, Pending, None, false, "", false, "", ""));
    assert Waiting(j1)[0] == k;
    var second := WorkerReads(j1, k);
    before, j' := j1.resumers, Reading(j1, k);
    LeadsOn(j, first, j1, second, j', k);
    actions := first + second;
    assert y in PendingOf(j1.calls.rows, k);
  }

  // Call y is answered while that worker runs its agent; then the worker finishes.
  lemma StaleWorkerErases(j: Joint, before: seq<Resumer>, k: CheckpointId, y: RcId)
    returns (actions: seq<Action>, j': Joint)
    requires StaleWorker(j, before, k, y)
    ensures Leads(j, actions, j', k) && Unswept(actions) && Erased(j', k)
  {
    assert y in PendingOf(j.calls.rows, k);
    var steps := Hitl.Uninterrupted(j.calls, k, y, true, "");
    LiftedLeads(j, steps, k);
    AnsweringAlone(j, k, y, "");
    var j1 := AnswerAlone(j, k, y, "");
    var finish := WorkerFinishes(j1, before, k);
    j' := FinishedOff(j1, before, k);
    LeadsOn(j, Lifted(steps), j1, finish, j', k);
    actions := Lifted(steps) + finish;
    assert y in AnswersOf(j'.calls.rows, k) && j'.calls.rows[y].deleted && y !in j'.read;
  }

  // Two resumes for one answered checkpoint are enough.
  lemma TwoTasksErase(j: Joint, k: CheckpointId, y: RcId) returns (actions: seq<Action>, j': Joint)
    requires Idle(j, k, [k, k]) && PendingOf(j.calls.rows, k) == {} && !AllGivenUp(j.calls.rows, k)
    requires y !in j.calls.rows
    ensures Leads(j, actions, j', k) && Unswept(actions) && Erased(j', k)
  {
    var stale, j1, before := SecondWorkerIsStale(j, k, y);
    var erase, j2 := StaleWorkerErases(j1, before, k, y);
    LeadsOn(j, stale, j1, erase, j2, k);
    actions, j' := stale + erase, j2;
  }

  // A checkpoint at the moment its agent has paused for the first time.
  ghost predicate JustPaused(rows: Table, keys: TaskLock.Keys, k: CheckpointId) {
    AnswersOf(rows, k) == {} && !keys.Processed(k) && !keys.Processing(k)
  }

  lemma TwoCallsCanBeErased(rows: Table, keys: TaskLock.Keys, k: CheckpointId, y: RcId)
    returns (actions: seq<Action>, j': Joint)
    requires JustPaused(rows, keys, k) && |PendingOf(rows, k)| >= 2 && y !in rows
    ensures Leads(Start(rows, keys), actions, j', k) && Unswept(actions) && Erased(j', k)
  {
    var start := Start(rows, keys);
    var down, j1 := AnswerDownTo(start, k, 2);
    var x, z := TwoOf(PendingOf(j1.calls.rows, k));
    var both, j2 := BothCountZero(j1, k, x, z);
    LeadsOn(start, down, j1, both, j2, k);
    var erase, j3 := TwoTasksErase(j2, k, y);
    LeadsOn(start, down + both, j2, erase, j3, k);
    actions, j' := down + both + erase, j3;
  }

  lemma TwoOf(a: set<RcId>) returns (x: RcId, z: RcId)
    requires |a| == 2
    ensures a == {x, z} && x != z
  {
    x :| x in a;
    OneLess(a, x);
    z :| z in a - {x};
    OneLess(a - {x}, z);
    assert a - {x} - {z} == {};
  }

  /** Some run without sweeps that loses no wake-up erases an unread answer of k. */
  ghost predicate CanEraseUnswept(rows: Table, keys: TaskLock.Keys, k: CheckpointId) {
    exists actions, j' :: Leads(Start(rows, keys), actions, j', k) && Unswept(actions) && Erased(j', k)
  }

  /** While no sweep begins, an answer can be erased unread exactly when the agent paused with at
      least two calls pending: their handlers can both count zero, and the second resume
      then deletes what was answered after the first one paused again. */
  lemma CanEraseUnsweptIff(rows: Table, keys: TaskLock.Keys, k: CheckpointId, y: RcId)
    requires JustPaused(rows, keys, k) && y !in rows
    ensures CanEraseUnswept(rows, keys, k) <==> |PendingOf(rows, k)| >= 2
  {
    var start := Start(rows, keys);
    if |PendingOf(rows, k)| >= 2 {
      var actions, j' := TwoCallsCanBeErased(rows, keys, k, y);
    } else {
      assert ResolvedOf(rows, k) <= AnswersOf(rows, k);
      assert OneAtATime(start, k);
      forall actions, j' | Leads(start, actions, j', k) && Unswept(actions) ensures !Erased(j', k) {
        OneCallIsNeverErased(start, actions, k);
      }
    }
  }

  // --------------------------------------------------------------------
  // With sweeps one call is enough
  // --------------------------------------------------------------------

  // One step of handler i that neither expires its row by itself nor meets a guard of k.
  lemma AdvanceAt(j: Joint, i: nat, k: CheckpointId) returns (actions: seq<Action>, j': Joint)
    requires i < |j.calls.handlers| && !j.calls.handlers[i].ResumeExpire?
    requires j.calls.handlers[i].SweepGuard? ==> k !in j.calls.guards
    ensures Leads(j, actions, j', k) && j' == j.(calls := j'.calls)
    ensures var e := Hitl.Next(j.calls, j.calls.handlers[i], k, true);
            && j'.calls.handlers == j.calls.handlers[i := e.next] && j'.calls.rows == e.rows
            && j'.calls.tasks == (if e.task.Some? then j.calls.tasks + [e.task.value] else j.calls.tasks)
            && j'.calls.now == j.calls.now && (e.guard == None ==> j'.calls.guards == j.calls.guards)
  {
    var a := Protocol(Hitl.Advance(i, k, true));
    j' := Step(j, a);
    LeadsFirst(j, a, [], j', k);
    actions := [a] + [];
  }

  // The parts of the state that a step of handler i leaves, with the handler now at h.
  ghost predicate At(j: Joint, j': Joint, i: nat, h: Hitl.Handler, tasks: seq<CheckpointId>) {
    && j' == j.(calls := j'.calls) && i < |j.calls.handlers| && j'.calls.handlers == j.calls.handlers[i := h]
    && j'.calls.rows == j.calls.rows && j'.calls.tasks == j.calls.tasks + tasks && j'.calls.now == j.calls.now
  }

  // A handler that is about to claim the last pending call claims it, counts zero and enqueues.
  lemma LastClaim(j: Joint, i: nat, k: CheckpointId, y: RcId) returns (actions: seq<Action>, j': Joint)
    requires i < |j.calls.handlers| && j.calls.handlers[i] == Hitl.ResumeResolve(y, true, "")
    requires PendingOf(j.calls.rows, k) == {y}
    ensures Leads(j, actions, j', k) && j' == j.(calls := j'.calls)
    ensures j'.calls.handlers == j.calls.handlers[i := Hitl.Finished] && j'.calls.tasks == j.calls.tasks + [k]
    ensures PendingOf(j'.calls.rows, k) == {} && y in ResolvedOf(j'.calls.rows, k)
    ensures j'.calls.rows.Keys == j.calls.rows.Keys && j'.calls.now == j.calls.now && j'.calls.guards == j.calls.guards
  {
    assert y in PendingOf(j.calls.rows, k);
    ResolvingTakesOne(j.calls.rows, y, true, "", k);
    var claim, j1 := AdvanceAt(j, i, k);
    var count, j2 := CountsZero(j1, i, k);
    LeadsOn(j, claim, j1, count, j2, k);
    actions, j' := claim + count, j2;
  }

  lemma CountsZero(j: Joint, i: nat, k: CheckpointId) returns (actions: seq<Action>, j': Joint)
    requires i < |j.calls.handlers| && j.calls.handlers[i] == Hitl.ResumeSiblings(k)
    requires PendingOf(j.calls.rows, k) == {}
    ensures Leads(j, actions, j', k) && At(j, j', i, Hitl.Finished, [k]) && j'.calls.guards == j.calls.guards
  {
    NothingToExpire(j.calls.rows, k, j.calls.now);
    var a1, j1 := AdvanceAt(j, i, k);
    var a2, j2 := AdvanceAt(j1, i, k);
    LeadsOn(j, a1, j1, a2, j2, k);
    var a3, j3 := AdvanceAt(j2, i, k);
    LeadsOn(j, a1 + a2, j2, a3, j3, k);
    actions, j' := a1 + a2 + a3, j3;
  }

  // A sweep that comes too late to expire call y goes on to count.
  lemma LateSweepCounts(j: Joint, i: nat, k: CheckpointId, y: RcId) returns (actions: seq<Action>, j': Joint)
    requires i < |j.calls.handlers| && j.calls.handlers[i] == Hitl.SweepMark([y], {k})
    requires PendingOf(j.calls.rows, k) == {} && y in ResolvedOf(j.calls.rows, k)
    ensures Leads(j, actions, j', k) && At(j, j', i, Hitl.SweepResolved(k, {}), []) && j'.calls.guards == j.calls.guards
  {
    assert [y][1..] == [] && {k} - {k} == {};
    var a1, j1 := AdvanceAt(j, i, k);
    var a2, j2 := AdvanceAt(j1, i, k);
    LeadsOn(j, a1, j1, a2, j2, k);
    var a3, j3 := AdvanceAt(j2, i, k);
    LeadsOn(j, a1 + a2, j2, a3, j3, k);
    actions, j' := a1 + a2 + a3, j3;
  }

  // It finds the answer and no guard, and enqueues a second resume.
  lemma LateSweepEnqueues(j: Joint, i: nat, k: CheckpointId, y: RcId) returns (actions: seq<Action>, j': Joint)
    requires i < |j.calls.handlers| && j.calls.handlers[i] == Hitl.SweepResolved(k, {})
    requires y in ResolvedOf(j.calls.rows, k) && k !in j.calls.guards
    ensures Leads(j, actions, j', k) && At(j, j', i, Hitl.Finished, [k])
  {
    var a1, j1 := AdvanceAt(j, i, k);
    var a2, j2 := AdvanceAt(j1, i, k);
    LeadsOn(j, a1, j1, a2, j2, k);
    var a3, j3 := SweepEnds(j2, i, k);
    LeadsOn(j, a1 + a2, j2, a3, j3, k);
    actions, j' := a1 + a2 + a3, j3;
  }

  lemma SweepEnds(j: Joint, i: nat, k: CheckpointId) returns (actions: seq<Action>, j': Joint)
    requires i < |j.calls.handlers| && j.calls.handlers[i] == Hitl.SweepEnqueue(k, {})
    ensures Leads(j, actions, j', k) && At(j, j', i, Hitl.Finished, [k])
  {
    var a1, j1 := AdvanceAt(j, i, k);
    var a2, j2 := AdvanceAt(j1, i, k);
    LeadsOn(j, a1, j1, a2, j2, k);
    actions, j' := a1 + a2, j2;
  }

  // agent_resume for y has found the call in time, and then its deadline passes and a sweep lists it.
  ghost predicate Racing(j: Joint, j': Joint, k: CheckpointId, y: RcId) {
    && j' == j.(calls := j'.calls, keys := j.keys.(now := j.keys.now + 1))
    && j'.calls.handlers == j.calls.handlers + [Hitl.ResumeResolve(y, true, "")] + [Hitl.SweepMark([y], {k})]
    && j'.calls.rows == j.calls.rows && j'.calls.tasks == j.calls.tasks && j'.calls.guards == j.calls.guards
  }

  lemma RaceBegins(j: Joint, k: CheckpointId, y: RcId) returns (actions: seq<Action>, j': Joint)
    requires PendingOf(j.calls.rows, k) == {y} && j.calls.rows[y].expiresAt == Some(j.calls.now)
    ensures Leads(j, actions, j', k) && Racing(j, j', k, y)
  {
    assert y in PendingOf(j.calls.rows, k);
    var n, begin := |j.calls.handlers|, Protocol(Hitl.BeginResume(y, true, ""));
    var j1 := Step(j, begin);
    LeadsFirst(j, begin, [], j1, k);
    var a2, j2 := AdvanceAt(j1, n, k);
    LeadsOn(j, [begin] + [], j1, a2, j2, k);
    var a3, j3 := AdvanceAt(j2, n, k);
    LeadsOn(j, [begin] + [] + a2, j2, a3, j3, k);
    var a4, j4 := DeadlinePasses(j3, k, y);
    LeadsOn(j, [begin] + [] + a2 + a3, j3, a4, j4, k);
    actions, j' := [begin] + [] + a2 + a3 + a4, j4;
  }

  lemma DeadlinePasses(j: Joint, k: CheckpointId, y: RcId) returns (actions: seq<Action>, j': Joint)
    requires y in PendingOf(j.calls.rows, k) && j.calls.rows[y].expiresAt == Some(j.calls.now)
    ensures Leads(j, actions, j', k) && j' == j.(calls := j'.calls, keys := j.keys.(now := j.keys.now + 1))
    ensures j'.calls == j.calls.(now := j.calls.now + 1, handlers := j.calls.handlers + [Hitl.SweepMark([y], {k})])
  {
    var tick, sweep := Protocol(Hitl.Tick(1)), Protocol(Hitl.BeginSweep([y]));
    var j1 := Step(j, tick);
    j' := Step(j1, sweep);
    assert (set id | id in [y] && id in j1.calls.rows :: j1.calls.rows[id].checkpoint) == {k};
    LeadsFirst(j1, sweep, [], j', k);
    LeadsFirst(j, tick, [sweep] + [], j', k);
    actions := [tick] + ([sweep] + []);
  }

  // The claim wins, and both the handler and the sweep count zero.
  lemma BothEnqueue(j: Joint, k: CheckpointId, y: RcId) returns (actions: seq<Action>, j': Joint)
    requires Idle(j, k, []) && PendingOf(j.calls.rows, k) == {y} && j.calls.rows[y].expiresAt == Some(j.calls.now)
    requires k !in j.calls.guards
    ensures Leads(j, actions, j', k) && Idle(j', k, [k, k]) && j'.calls.rows.Keys == j.calls.rows.Keys
    ensures PendingOf(j'.calls.rows, k) == {} && !AllGivenUp(j'.calls.rows, k)
  {
    var n := |j.calls.handlers|;
    var a1, j1 := RaceBegins(j, k, y);
    var a2, j2 := LastClaim(j1, n, k, y);
    LeadsOn(j, a1, j1, a2, j2, k);
    var a3, j3 := LateSweepCounts(j2, n + 1, k, y);
    LeadsOn(j, a1 + a2, j2, a3, j3, k);
    var a4, j4 := LateSweepEnqueues(j3, n + 1, k, y);
    LeadsOn(j, a1 + a2 + a3, j3, a4, j4, k);
    actions, j' := a1 + a2 + a3 + a4, j4;
    RaceLeavesTwo(j, j', k, y);
  }

  lemma RaceLeavesTwo(j: Joint, j': Joint, k: CheckpointId, y: RcId)
    requires Idle(j, k, []) && j' == j.(calls := j'.calls, keys := j.keys.(now := j.keys.now + 1))
    requires j'.calls.handlers == j.calls.handlers + [Hitl.Finished] + [Hitl.Finished]
    requires j'.calls.tasks == j.calls.tasks + [k] + [k] && j'.calls.rows.Keys == j.calls.rows.Keys
    requires PendingOf(j'.calls.rows, k) == {} && y in ResolvedOf(j'.calls.rows, k)
    ensures Idle(j', k, [k, k]) && !AllGivenUp(j'.calls.rows, k)
  {
    assert Waiting(j') == Waiting(j) + [k] + [k];
    ResolvedIsNotGivenUp(j'.calls.rows, k, y);
  }

  // All calls of k are answered, and the one resume pauses again with a call that has a deadline.
  lemma PausesWithDeadline(rows: Table, keys: TaskLock.Keys, k: CheckpointId, y: RcId)
    returns (actions: seq<Action>, j': Joint)
    requires JustPaused(rows, keys, k) && PendingOf(rows, k) != {} && y !in rows
    ensures Leads(Start(rows, keys), actions, j', k) && Idle(j', k, []) && k !in j'.calls.guards
    ensures PendingOf(j'.calls.rows, k) == {y} && j'.calls.rows[y].expiresAt == Some(j'.calls.now)
    ensures j'.calls.rows.Keys == rows.Keys + {y}
  {
    var start := Start(rows, keys);
    var a1, j1 := AnswerDownTo(start, k, 1);
    var x :| x in PendingOf(j1.calls.rows, k);
    OneLess(PendingOf(j1.calls.rows, k), x);
    assert PendingOf(j1.calls.rows, k) == {x};
    var a2, j2 := AnswerOne(j1, k, x);
    LeadsOn(start, a1, j1, a2, j2, k);
    assert [k] == [k] + [];
    var a3;
    a3, j' := WorkerReadsAndPauses(j2, k, [], y, Row(k, Pending, Some(j2.calls.now), false, "", false, "", ""));
    LeadsOn(start, a1 + a2, j2, a3, j', k);
    actions := a1 + a2 + a3;
  }

  lemma OneCallCanBeErased(rows: Table, keys: TaskLock.Keys, k: CheckpointId, y: RcId, z: RcId)
    returns (actions: seq<Action>, j': Joint)
    requires JustPaused(rows, keys, k) && PendingOf(rows, k) != {} && y !in rows && z !in rows && y != z
    ensures Leads(Start(rows, keys), actions, j', k) && Erased(j', k)
  {
    var start := Start(rows, keys);
    var pause, j1 := PausesWithDeadline(rows, keys, k, y);
    var both, j2 := BothEnqueue(j1, k, y);
    LeadsOn(start, pause, j1, both, j2, k);
    var erase, j3 := TwoTasksErase(j2, k, z);
    LeadsOn(start, pause + both, j2, erase, j3, k);
    actions, j' := pause + both + erase, j3;
  }

  // No call of k, and nobody who could create one.
  ghost predicate Untouched(j: Joint, k: CheckpointId) {
    Lost(j, k) && ResolvedOf(j.calls.rows, k) == {} && !Erased(j, k)
  }

  lemma StepKeepsUntouched(j: Joint, a: Action, k: CheckpointId)
    requires Untouched(j, k)
    ensures Untouched(Step(j, a), k)
  {
    StepErasesIff(j, a, k);
    match a
    case Protocol(b) =>
      ProtocolKeepsLost(j, b, k);
      Hitl.StepSettles(j.calls, b);
      SettledStaysSettled(j.calls.rows, Hitl.Step(j.calls, b).rows, k);
    case Take => if j.taken < |j.calls.tasks| { TakeKeepsDebt(j, k); }
    case Work(i, e) =>
      if i < |j.resumers| {
        WorkKeepsLost(j, i, e, k);
        WorkHasEffect(j, i, e, k);
      }
  }

  lemma {:induction false} UntouchedStays(j: Joint, actions: seq<Action>, k: CheckpointId)
    requires Untouched(j, k)
    ensures !Erased(Run(j, actions), k)
    decreases |actions|
  {
    if actions != [] {
      StepKeepsUntouched(j, actions[0], k);
      UntouchedStays(Step(j, actions[0]), actions[1..], k);
    }
  }

  /** Some run that loses no wake-up erases an unread answer of k. */
  ghost predicate CanErase(rows: Table, keys: TaskLock.Keys, k: CheckpointId) {
    exists actions, j' :: Leads(Start(rows, keys), actions, j', k) && Erased(j', k)
  }

  /** With sweeps too it takes a single pending call: its answer lets the agent pause again with a
      call that has a deadline, and agent_resume and a sweep can both count zero for that one. */
  lemma CanEraseIff(rows: Table, keys: TaskLock.Keys, k: CheckpointId, y: RcId, z: RcId)
    requires JustPaused(rows, keys, k) && y !in rows && z !in rows && y != z
    ensures CanErase(rows, keys, k) <==> PendingOf(rows, k) != {}
  {
    var start := Start(rows, keys);
    if PendingOf(rows, k) != {} {
      var actions, j' := OneCallCanBeErased(rows, keys, k, y, z);
    } else {
      assert ResolvedOf(rows, k) <= AnswersOf(rows, k);
      assert Untouched(start, k);
      forall actions, j' | Leads(start, actions, j', k) ensures !Erased(j', k) { UntouchedStays(start, actions, k); }
    }
  }
}
