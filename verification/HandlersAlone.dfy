/** The handlers and the sweep of the step machine, each left alone: what they do to
    the rows, the queue and the guards when nothing else runs in between. */
module HandlersAlone {
  import opened Option
  import opened RemoteCalling
  import opened HitlProtocol

  // --------------------------------------------------------------------
  // agent_resume without an answer to write
  // --------------------------------------------------------------------

  /** An answer to an unknown or settled call changes no row and queues nothing, at whichever
      of the handler's steps one looks. */
  lemma RefusedResumeDoesNothing(s: System, id: RcId, success: bool, answer: string, k: CheckpointId, n: nat)
    requires id !in s.rows || s.rows[id].status != Pending
    ensures var s' := Again(Step(s, BeginResume(id, success, answer)), Advance(|s.handlers|, k, true), n);
            s'.rows == s.rows && s'.tasks == s.tasks
  {
    var s0 := Step(s, BeginResume(id, success, answer));
    if n > 0 {
      NewestMoves(s0, s.handlers, ResumeLookUp(id, success, answer), k);
      FinishedStays(Step(s0, Advance(|s.handlers|, k, true)), s.handlers, k, n - 1);
    }
  }

  /** An answer that comes after the deadline expires its own row, once the handler has taken its
      three steps, and queues nothing. */
  lemma OverdueResumeExpires(s: System, id: RcId, success: bool, answer: string, k: CheckpointId)
    requires id in s.rows && s.rows[id].Claimable() && s.rows[id].Overdue(s.now)
    ensures var s' := Thrice(Step(s, BeginResume(id, success, answer)), Advance(|s.handlers|, k, true));
            && s'.handlers == s.handlers + [Finished] && s'.now == s.now && s'.tasks == s.tasks
            && s'.rows == s.rows[id := s.rows[id].(status := Expired)]
  {
    var go := Advance(|s.handlers|, k, true);
    var s0 := Step(s, BeginResume(id, success, answer));
    NewestMoves(s0, s.handlers, ResumeLookUp(id, success, answer), k);
    NewestMoves(Step(s0, go), s.handlers, ResumeCheckExpiry(id, success, answer), k);
    NewestMoves(Twice(s0, go), s.handlers, ResumeExpire(id), k);
  }

  // --------------------------------------------------------------------
  // The sweep
  // --------------------------------------------------------------------

  // Some call of k is still to be answered.
  ghost predicate Waits(rows: Table, k: CheckpointId) {
    exists id :: id in rows && rows[id].checkpoint == k && rows[id].status == Pending && !rows[id].deleted
  }

  // Some call of k was answered.
  ghost predicate Answered(rows: Table, k: CheckpointId) {
    exists id :: id in rows && rows[id].checkpoint == k && rows[id].status == Resolved && !rows[id].deleted
  }

  // Everything is settled and something was answered, and no sweep saw to it in the last five minutes.
  ghost predicate WantsWaking(s: System, k: CheckpointId) {
    !Waits(s.rows, k) && Answered(s.rows, k) && !(k in s.guards && s.now <= s.guards[k])
  }

  ghost predicate Hopeless(rows: Table, k: CheckpointId) {
    !Waits(rows, k) && !Answered(rows, k)
  }

  // How the sweep moves when it is left alone.
  lemma SweepMoves(s: System, before: seq<Handler>, h: Handler, k: CheckpointId, toolCalling: bool)
    requires s.handlers == before + [h]
    ensures var e, s' := Next(s, h, k, toolCalling), Step(s, Advance(|before|, k, toolCalling));
            && s'.handlers == before + [e.next]
            && s'.rows == e.rows && s'.now == s.now
            && s'.tasks == (if e.task.Some? then s.tasks + [e.task.value] else s.tasks)
            && s'.guards == (if e.guard.Some? then s.guards[e.guard.value := s.now + 300_000] else s.guards)
            && s'.unanswered == Joined(s.unanswered, e.unanswered)
  {
    assert s.handlers[|before|] == h;
  }

  // The checkpoints of a group of calls that are woken, in the order in which they come.
  ghost function Woken(s: System, ks: seq<CheckpointId>): seq<CheckpointId> {
    if ks == [] then []
    else
      var rest, k := Woken(s, ks[..|ks| - 1]), ks[|ks| - 1];
      if WantsWaking(s, k) then rest + [k] else rest
  }

  // The calls of each hopeless checkpoint are deleted while its conversation is waiting for them.
  ghost predicate SweptRows(s: System, s': System, ks: seq<CheckpointId>, toolCalling: CheckpointId -> bool) {
    && s'.rows.Keys == s.rows.Keys
    && forall id :: id in s.rows ==>
         var k := s.rows[id].checkpoint;
         s'.rows[id] == if k in ks && Hopeless(s.rows, k) && toolCalling(k) then s.rows[id].(deleted := true)
                        else s.rows[id]
  }

  // Each that wants waking has a guard of five minutes.
  ghost predicate SweptGuards(s: System, s': System, ks: seq<CheckpointId>) {
    && (forall k :: k in s'.guards <==> k in s.guards || (k in ks && WantsWaking(s, k)))
    && (forall k :: k in s'.guards ==>
          s'.guards[k] == if k in ks && WantsWaking(s, k) then s.now + 300_000 else s.guards[k])
  }

  // Each hopeless one is noted.
  ghost predicate SweptNotes(s: System, s': System, ks: seq<CheckpointId>) {
    forall k :: k in s'.unanswered <==> k in s.unanswered || (k in ks && Hopeless(s.rows, k))
  }

  /** What the second half of a sweep makes of these checkpoints: one resume and one guard for each
      that wants waking, the calls of the hopeless ones deleted, and everything else as it was. */
  ghost predicate Swept(s: System, s': System, ks: seq<CheckpointId>, toolCalling: CheckpointId -> bool) {
    && s'.now == s.now && s'.tasks == s.tasks + Woken(s, ks)
    && SweptRows(s, s', ks, toolCalling) && SweptGuards(s, s', ks)
    && SweptNotes(s, s', ks)
  }

  lemma PendingIsWaiting(rows: Table, k: CheckpointId)
    ensures PendingOf(rows, k) == {} <==> !Waits(rows, k)
    ensures ResolvedOf(rows, k) == {} <==> !Answered(rows, k)
  {
    if Waits(rows, k) {
      var id :| id in rows && rows[id].checkpoint == k && rows[id].status == Pending && !rows[id].deleted;
      assert id in PendingOf(rows, k);
    }
    if Answered(rows, k) {
      var id :| id in rows && rows[id].checkpoint == k && rows[id].status == Resolved && !rows[id].deleted;
      assert id in ResolvedOf(rows, k);
    }
  }

  lemma OneIsWoken(s: System, k: CheckpointId)
    ensures Woken(s, [k]) == if WantsWaking(s, k) then [k] else []
  {
    assert [k][..0] == [];
  }

  // What one step or several of them did for k: what they set, added, noted and deleted.
  datatype Did = Did(guard: bool, task: bool, noted: bool, wiped: bool)

  ghost predicate Became(s: System, s': System, k: CheckpointId, d: Did) {
    && s'.now == s.now && s'.rows == (if d.wiped then DeleteByCheckpoint(s.rows, k) else s.rows)
    && s'.tasks == (if d.task then s.tasks + [k] else s.tasks)
    && s'.guards == (if d.guard then s.guards[k := s.now + 300_000] else s.guards)
    && s'.unanswered == (if d.noted then s.unanswered + {k} else s.unanswered)
  }

  function Both(d: Did, e: Did): Did {
    Did(d.guard || e.guard, d.task || e.task, d.noted || e.noted, d.wiped || e.wiped)
  }

  lemma BecameBoth(s: System, s1: System, s2: System, k: CheckpointId, d: Did, e: Did)
    requires Became(s, s1, k, d) && Became(s1, s2, k, e) && !(d.task && e.task)
    ensures Became(s, s2, k, Both(d, e))
  {
    assert DeleteByCheckpoint(DeleteByCheckpoint(s.rows, k), k) == DeleteByCheckpoint(s.rows, k);
  }

  const Nothing := Did(false, false, false, false)

  ghost predicate Guarded(s: System, k: CheckpointId) {
    k in s.guards && s.now <= s.guards[k]
  }

  lemma CountStep(s: System, before: seq<Handler>, k: CheckpointId, groups: set<CheckpointId>, toolCalling: bool)
    requires s.handlers == before + [SweepCount(groups)] && k in groups
    ensures var s' := Step(s, Advance(|before|, k, toolCalling));
            && s'.handlers == before + [if Waits(s.rows, k) then SweepCount(groups - {k})
                                        else SweepResolved(k, groups - {k})]
            && Became(s, s', k, Nothing)
  {
    PendingIsWaiting(s.rows, k);
    SweepMoves(s, before, SweepCount(groups), k, toolCalling);
  }

  lemma ResolvedStep(s: System, before: seq<Handler>, k: CheckpointId, groups: set<CheckpointId>, toolCalling: bool)
    requires s.handlers == before + [SweepResolved(k, groups)]
    ensures var s' := Step(s, Advance(|before|, k, toolCalling));
            && s'.handlers == before + [if Answered(s.rows, k) then SweepGuard(k, groups) else SweepWipe(k, groups)]
            && Became(s, s', k, Nothing.(noted := !Answered(s.rows, k)))
  {
    PendingIsWaiting(s.rows, k);
    SweepMoves(s, before, SweepResolved(k, groups), k, toolCalling);
  }

  lemma GuardStep(s: System, before: seq<Handler>, k: CheckpointId, groups: set<CheckpointId>, toolCalling: bool)
    requires s.handlers == before + [SweepGuard(k, groups)]
    ensures var s' := Step(s, Advance(|before|, k, toolCalling));
            && s'.handlers == before + [if Guarded(s, k) then SweepCount(groups) else SweepEnqueue(k, groups)]
            && Became(s, s', k, Nothing.(guard := !Guarded(s, k)))
  {
    SweepMoves(s, before, SweepGuard(k, groups), k, toolCalling);
  }

  lemma LastStep(s: System, before: seq<Handler>, h: Handler, k: CheckpointId, groups: set<CheckpointId>,
                 toolCalling: bool)
    requires s.handlers == before + [h] && (h == SweepEnqueue(k, groups) || h == SweepWipe(k, groups))
    ensures var s' := Step(s, Advance(|before|, k, toolCalling));
            && s'.handlers == before + [SweepCount(groups)]
            && Became(s, s', k, Nothing.(task := h.SweepEnqueue?, wiped := h.SweepWipe? && toolCalling))
  {
    SweepMoves(s, before, h, k, toolCalling);
  }

  lemma BecameIsSwept(s: System, s': System, k: CheckpointId, toolCalling: CheckpointId -> bool)
    requires Became(s, s', k, Did(WantsWaking(s, k), WantsWaking(s, k), Hopeless(s.rows, k),
                                  Hopeless(s.rows, k) && toolCalling(k)))
    ensures Swept(s, s', [k], toolCalling)
  {
    OneIsWoken(s, k);
  }

  lemma SweepsAnswered(s: System, before: seq<Handler>, k: CheckpointId, groups: set<CheckpointId>, toolCalling: bool)
    requires s.handlers == before + [SweepResolved(k, groups)] && Answered(s.rows, k)
    ensures var go := Advance(|before|, k, toolCalling);
            var s' := if Guarded(s, k) then Twice(s, go) else Thrice(s, go);
            && s'.handlers == before + [SweepCount(groups)]
            && Became(s, s', k, Did(!Guarded(s, k), !Guarded(s, k), false, false))
  {
    var go := Advance(|before|, k, toolCalling);
    var s1, s2 := Step(s, go), Twice(s, go);
    ResolvedStep(s, before, k, groups, toolCalling);
    GuardStep(s1, before, k, groups, toolCalling);
    BecameBoth(s, s1, s2, k, Nothing, Nothing.(guard := !Guarded(s1, k)));
    if !Guarded(s, k) {
      LastStep(s2, before, SweepEnqueue(k, groups), k, groups, toolCalling);
      BecameBoth(s, s2, Step(s2, go), k, Nothing.(guard := true), Nothing.(task := true));
    }
  }

  lemma SweepsHopeless(s: System, before: seq<Handler>, k: CheckpointId, groups: set<CheckpointId>, toolCalling: bool)
    requires s.handlers == before + [SweepResolved(k, groups)] && !Answered(s.rows, k)
    ensures var s' := Twice(s, Advance(|before|, k, toolCalling));
            && s'.handlers == before + [SweepCount(groups)]
            && Became(s, s', k, Did(false, false, true, toolCalling))
  {
    var go := Advance(|before|, k, toolCalling);
    ResolvedStep(s, before, k, groups, toolCalling);
    LastStep(Step(s, go), before, SweepWipe(k, groups), k, groups, toolCalling);
    BecameBoth(s, Step(s, go), Twice(s, go), k, Nothing.(noted := true), Nothing.(wiped := toolCalling));
  }

  // The steps that the sweep takes for k.
  ghost function StepsFor(s: System, i: nat, k: CheckpointId, toolCalling: bool): seq<Action> {
    var go := Advance(i, k, toolCalling);
    if Waits(s.rows, k) then [go] else if Answered(s.rows, k) && !Guarded(s, k) then [go, go, go, go] else [go, go, go]
  }

  lemma GroupBecomes(s: System, before: seq<Handler>, k: CheckpointId, groups: set<CheckpointId>, toolCalling: bool)
    requires s.handlers == before + [SweepCount(groups)] && k in groups
    ensures var s' := Run(s, StepsFor(s, |before|, k, toolCalling));
            && s'.handlers == before + [SweepCount(groups - {k})]
            && Became(s, s', k, Did(WantsWaking(s, k), WantsWaking(s, k), Hopeless(s.rows, k),
                                    Hopeless(s.rows, k) && toolCalling))
  {
    var go := Advance(|before|, k, toolCalling);
    var s1 := Step(s, go);
    CountStep(s, before, k, groups, toolCalling);
    RunsUpToFour(s, go);
    if !Waits(s.rows, k) {
      var end := Run(s, StepsFor(s, |before|, k, toolCalling));
      if Answered(s.rows, k) {
        SweepsAnswered(s1, before, k, groups - {k}, toolCalling);
        BecameBoth(s, s1, end, k, Nothing, Did(!Guarded(s, k), !Guarded(s, k), false, false));
      } else {
        SweepsHopeless(s1, before, k, groups - {k}, toolCalling);
        BecameBoth(s, s1, end, k, Nothing, Did(false, false, true, toolCalling));
      }
    }
  }

  // The sweep sees to one of its checkpoints in at most four steps.
  lemma SweepsOne(s: System, before: seq<Handler>, k: CheckpointId, groups: set<CheckpointId>,
                  toolCalling: CheckpointId -> bool) returns (steps: seq<Action>)
    requires s.handlers == before + [SweepCount(groups)] && k in groups
    ensures Run(s, steps).handlers == before + [SweepCount(groups - {k})]
    ensures Swept(s, Run(s, steps), [k], toolCalling) && IsOwn(steps, |before|)
  {
    steps := StepsFor(s, |before|, k, toolCalling(k));
    GroupBecomes(s, before, k, groups, toolCalling(k));
    BecameIsSwept(s, Run(s, steps), k, toolCalling);
  }

  // All of these are steps of handler i.
  ghost predicate IsOwn(steps: seq<Action>, i: nat) {
    forall a :: a in steps ==> a.Advance? && a.i == i
  }

  lemma RunsOnce(s: System, a: Action)
    ensures Run(s, [a]) == Step(s, a)
  {
    assert [a][1..] == [];
  }

  lemma RunsUpToFour(s: System, a: Action)
    ensures Run(s, [a]) == Step(s, a)
    ensures Run(s, [a, a, a]) == Twice(Step(s, a), a)
    ensures Run(s, [a, a, a, a]) == Thrice(Step(s, a), a)
  {
    var s1 := Step(s, a);
    var s2 := Step(s1, a);
    RunsOnce(s, a);
    RunsOnce(s2, a);
    RunsOnce(Step(s2, a), a);
    assert [a, a, a, a][1..] == [a, a, a] && [a, a, a][1..] == [a, a] && [a, a][1..] == [a];
    assert Run(s, [a, a, a]) == Run(s1, [a, a]) == Run(s2, [a]);
    assert Run(s, [a, a, a, a]) == Run(s1, [a, a, a]) == Run(s2, [a, a]) == Run(Step(s2, a), [a]);
  }

  lemma {:induction false} RunsOn(s: System, first: seq<Action>, second: seq<Action>)
    ensures Run(s, first + second) == Run(Run(s, first), second)
    decreases |first|
  {
    if first == [] {
      assert first + second == second;
    } else {
      RunsOn(Step(s, first[0]), first[1..], second);
      assert (first + second)[1..] == first[1..] + second;
    }
  }

  // What was done for other checkpoints changes nothing for k.
  lemma OthersDoNotMatter(s: System, s1: System, ks: seq<CheckpointId>, toolCalling: CheckpointId -> bool,
                          k: CheckpointId)
    requires Swept(s, s1, ks, toolCalling) && k !in ks
    ensures WantsWaking(s1, k) <==> WantsWaking(s, k)
    ensures Hopeless(s1.rows, k) <==> Hopeless(s.rows, k)
  {
    assert forall id :: id in s.rows && s.rows[id].checkpoint == k ==> s1.rows[id] == s.rows[id];
    assert forall id :: id in s.rows ==> s1.rows[id].checkpoint == s.rows[id].checkpoint;
  }

  lemma SweptOneMore(s: System, s1: System, s2: System, ks: seq<CheckpointId>, toolCalling: CheckpointId -> bool,
                     k: CheckpointId)
    requires Swept(s, s1, ks, toolCalling) && k !in ks && Swept(s1, s2, [k], toolCalling)
    ensures Swept(s, s2, ks + [k], toolCalling)
  {
    OthersDoNotMatter(s, s1, ks, toolCalling, k);
    assert SweptRows(s, s2, ks + [k], toolCalling) by { RowsOneMore(s, s1, s2, ks, toolCalling, k); }
    assert SweptGuards(s, s2, ks + [k]) by { GuardsOneMore(s, s1, s2, ks, k); }
    assert SweptNotes(s, s2, ks + [k]) by { NotesOneMore(s, s1, s2, ks, k); }
    assert s2.tasks == s.tasks + Woken(s, ks + [k]) by { TasksOneMore(s, s1, s2, ks, k); }
  }

  lemma TasksOneMore(s: System, s1: System, s2: System, ks: seq<CheckpointId>, k: CheckpointId)
    requires s1.tasks == s.tasks + Woken(s, ks) && s2.tasks == s1.tasks + Woken(s1, [k])
    requires WantsWaking(s1, k) <==> WantsWaking(s, k)
    ensures s2.tasks == s.tasks + Woken(s, ks + [k])
  {
    WokenOneMore(s, s1, ks, k);
    assert s2.tasks == s.tasks + (Woken(s, ks) + Woken(s1, [k]));
  }

  lemma NotesOneMore(s: System, s1: System, s2: System, ks: seq<CheckpointId>, k: CheckpointId)
    requires SweptNotes(s, s1, ks) && SweptNotes(s1, s2, [k]) && (Hopeless(s1.rows, k) <==> Hopeless(s.rows, k))
    ensures SweptNotes(s, s2, ks + [k])
  {
  }

  lemma WokenOneMore(s: System, s1: System, ks: seq<CheckpointId>, k: CheckpointId)
    requires WantsWaking(s1, k) <==> WantsWaking(s, k)
    ensures Woken(s, ks + [k]) == Woken(s, ks) + Woken(s1, [k])
  {
    OneIsWoken(s1, k);
    assert (ks + [k])[..|ks|] == ks;
  }

  lemma RowsOneMore(s: System, s1: System, s2: System, ks: seq<CheckpointId>, toolCalling: CheckpointId -> bool,
                    k: CheckpointId)
    requires SweptRows(s, s1, ks, toolCalling) && k !in ks && SweptRows(s1, s2, [k], toolCalling)
    requires Hopeless(s1.rows, k) <==> Hopeless(s.rows, k)
    ensures SweptRows(s, s2, ks + [k], toolCalling)
  {
    assert forall id :: id in s.rows ==> s1.rows[id].checkpoint == s.rows[id].checkpoint;
  }

  lemma GuardsOneMore(s: System, s1: System, s2: System, ks: seq<CheckpointId>, k: CheckpointId)
    requires SweptGuards(s, s1, ks) && k !in ks && SweptGuards(s1, s2, [k]) && s1.now == s.now
    requires WantsWaking(s1, k) <==> WantsWaking(s, k)
    ensures SweptGuards(s, s2, ks + [k])
  {
  }

  // The sweep sees to its checkpoints one after the other, in the order given.
  lemma {:induction false} SweepsAll(s: System, before: seq<Handler>, ks: seq<CheckpointId>, groups: set<CheckpointId>,
                                     toolCalling: CheckpointId -> bool) returns (steps: seq<Action>)
    requires s.handlers == before + [SweepCount(groups)]
    requires (forall k :: k in ks ==> k in groups) && forall i, j :: 0 <= i < j < |ks| ==> ks[i] != ks[j]
    ensures Run(s, steps).handlers == before + [SweepCount(groups - (set k | k in ks))]
    ensures Swept(s, Run(s, steps), ks, toolCalling) && IsOwn(steps, |before|)
  {
    if ks == [] {
      steps := [];
      assert groups - (set k | k in ks) == groups;
    } else {
      var front, k := ks[..|ks| - 1], ks[|ks| - 1];
      var first := SweepsAll(s, before, front, groups, toolCalling);
      var s1 := Run(s, first);
      var second := SweepsOne(s1, before, k, groups - (set c | c in front), toolCalling);
      steps := first + second;
      RunsOn(s, first, second);
      assert front + [k] == ks;
      SweptOneMore(s, s1, Run(s1, second), front, toolCalling, k);
      assert groups - (set k | k in front) - {k} == groups - set k | k in ks;
    }
  }

  // The first half: every call that was listed expires.
  ghost predicate Marked(s: System, s': System, ids: seq<RcId>) {
    && s' == s.(rows := s'.rows, handlers := s'.handlers, counting := s'.counting)
    && s'.rows.Keys == s.rows.Keys
    && forall id :: id in s.rows ==>
         s'.rows[id] == if id in ids && s.rows[id].status == Pending && !s.rows[id].deleted
                        then s.rows[id].(status := Expired) else s.rows[id]
  }

  lemma MarkMoves(s: System, before: seq<Handler>, ids: seq<RcId>, groups: set<CheckpointId>)
    requires s.handlers == before + [SweepMark(ids, groups)]
    ensures var s' := Step(s, Advance(|before|, "", true));
            if ids == [] then s'.handlers == before + [SweepCount(groups)] && Marked(s, s', [])
            else s'.handlers == before + [SweepMark(ids[1..], groups)] && Marked(s, s', [ids[0]])
  {
    assert s.handlers[|before|] == SweepMark(ids, groups);
  }

  lemma {:induction false} MarksAll(s: System, before: seq<Handler>, ids: seq<RcId>, groups: set<CheckpointId>)
    returns (steps: seq<Action>)
    requires s.handlers == before + [SweepMark(ids, groups)]
    ensures Run(s, steps).handlers == before + [SweepCount(groups)]
    ensures Marked(s, Run(s, steps), ids) && IsOwn(steps, |before|)
    decreases |ids|
  {
    var go := Advance(|before|, "", true);
    MarkMoves(s, before, ids, groups);
    RunsOnce(s, go);
    if ids == [] {
      steps := [go];
    } else {
      var s1 := Step(s, go);
      var rest := MarksAll(s1, before, ids[1..], groups);
      steps := [go] + rest;
      RunsOn(s, [go], rest);
      assert ids == [ids[0]] + ids[1..];
    }
  }

  // The calls that a sweep may find: pending, not deleted, and past their deadline.
  ghost predicate IsOverdue(s: System, id: RcId) {
    && id in s.rows && s.rows[id].status == Pending && !s.rows[id].deleted
    && s.rows[id].expiresAt.Some? && s.rows[id].expiresAt.value < s.now
  }

  /** Left alone, a sweep of overdue calls first expires all of them, and then sees to each of their
      checkpoints, in whatever order it ranges over them. */
  lemma UninterruptedSweep(s: System, ids: seq<RcId>, ks: seq<CheckpointId>, toolCalling: CheckpointId -> bool)
    returns (mid: System, steps: seq<Action>)
    requires forall id :: id in ids ==> IsOverdue(s, id)
    requires forall k :: k in ks <==> exists id :: id in ids && id in s.rows && s.rows[id].checkpoint == k
    requires forall i, j :: 0 <= i < j < |ks| ==> ks[i] != ks[j]
    ensures IsOwn(steps, |s.handlers|)
    ensures Marked(s, mid, ids) && Swept(mid, Run(Step(s, BeginSweep(ids)), steps), ks, toolCalling)
    ensures Run(Step(s, BeginSweep(ids)), steps).handlers == s.handlers + [Finished]
  {
    var before := s.handlers;
    var groups := set id | id in ids && id in s.rows :: s.rows[id].checkpoint;
    var s0 := Step(s, BeginSweep(ids));
    BeginsAsListed(s, ids, groups);
    var first := MarksAll(s0, before, ids, groups);
    mid := Run(s0, first);
    var second := SweepsAndStops(mid, before, ks, groups, toolCalling);
    RunsOn(s0, first, second);
    steps := first + second;
  }

  lemma BeginsAsListed(s: System, ids: seq<RcId>, groups: set<CheckpointId>)
    requires forall id :: id in ids ==> IsOverdue(s, id)
    requires groups == set id | id in ids && id in s.rows :: s.rows[id].checkpoint
    ensures Step(s, BeginSweep(ids)) == s.(handlers := s.handlers + [SweepMark(ids, groups)])
  {
  }

  lemma SweepsAndStops(s: System, before: seq<Handler>, ks: seq<CheckpointId>, groups: set<CheckpointId>,
                       toolCalling: CheckpointId -> bool) returns (steps: seq<Action>)
    requires s.handlers == before + [SweepCount(groups)] && (forall k :: k in ks <==> k in groups)
    requires forall i, j :: 0 <= i < j < |ks| ==> ks[i] != ks[j]
    ensures Run(s, steps).handlers == before + [Finished]
    ensures Swept(s, Run(s, steps), ks, toolCalling) && IsOwn(steps, |before|)
  {
    var all := SweepsAll(s, before, ks, groups, toolCalling);
    var end, last := Run(s, all), Advance(|before|, "", true);
    assert groups - (set k | k in ks) == {};
    SweepMoves(end, before, SweepCount({}), "", true);
    RunsOnce(end, last);
    RunsOn(s, all, [last]);
    steps := all + [last];
  }
}
