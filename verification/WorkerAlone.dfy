/** A resume worker of the joint machine left alone does what the worker handles in one go. */
module WorkerAlone {
  import opened Option
  import opened RemoteCalling
  import opened TaskLock
  import Hitl = HitlProtocol
  import H = ResumeHandoff
  import W = ResumeWorker

  // What both models have: the clock, the resume keys and the calls.
  ghost predicate Same(j: H.Joint, w: W.World) {
    SameKeys(j.keys, w.keys) && j.calls.rows == w.rows
  }

  ghost predicate SameKeys(a: Keys, b: Keys) {
    a.now == b.now && a.processed == b.processed && a.processing == b.processing
  }

  // How the delivery goes on, as the machine names it.
  function EndingOf(w: W.World, d: W.Delivery): H.Ending {
    match d.run
    case ResumeFails(notFound, transient) => if notFound then H.GivesUp else H.Fails(transient)
    case StreamFails(transient) => H.Fails(transient)
    case InterruptsAgain(call, interruptId) =>
      if W.LiveConv(w, d.conv) then H.PausesAgain(d.rowId, W.NewCall(d, call, interruptId)) else H.Fails(false)
    case Finishes => H.Finishes
  }

  // n steps of worker i, and nothing else.
  function Works(j: H.Joint, i: nat, e: H.Ending, n: nat): H.Joint
    decreases n
  {
    if n == 0 then j else Works(H.Step(j, H.Work(i, e)), i, e, n - 1)
  }

  function DoAll(j: H.Joint, k: CheckpointId, chores: seq<H.Chore>): (j': H.Joint)
    ensures j'.resumers == j.resumers
    decreases |chores|
  {
    if chores == [] then j else DoAll(H.DoChore(j, k, chores[0]), k, chores[1..])
  }

  lemma {:induction false} ChoresAreDone(j: H.Joint, i: nat, e: H.Ending, k: CheckpointId, left: seq<H.Chore>)
    requires i < |j.resumers| && j.resumers[i] == H.Resumer(k, H.Chores(left))
    ensures Works(j, i, e, |left| + 1) == H.MoveTo(DoAll(j, k, left), i, H.Gone)
    decreases |left|
  {
    var j1 := H.Step(j, H.Work(i, e));
    if left == [] {
      assert Works(j, i, e, 1) == Works(j1, i, e, 0) == j1;
    } else {
      ChoresAreDone(j1, i, e, k, left[1..]);
      StagesDoNotMatter(H.DoChore(j, k, left[0]), i, H.Chores(left[1..]), k, left[1..]);
      assert Works(j, i, e, |left| + 1) == Works(j1, i, e, |left|);
    }
  }

  lemma {:induction false} StagesDoNotMatter(j: H.Joint, i: nat, stage: H.Stage, k: CheckpointId, chores: seq<H.Chore>)
    requires i < |j.resumers|
    ensures H.MoveTo(DoAll(H.MoveTo(j, i, stage), k, chores), i, H.Gone) == H.MoveTo(DoAll(j, k, chores), i, H.Gone)
    decreases |chores|
  {
    if chores == [] {
      var all := j.resumers;
      assert all[i := all[i].(stage := stage)][i := all[i].(stage := H.Gone)] == all[i := all[i].(stage := H.Gone)];
    } else {
      StagesDoNotMatter(H.DoChore(j, k, chores[0]), i, stage, k, chores[1..]);
    }
  }

  // The keys and the calls after an ending.
  function KeysAfter(keys: Keys, k: CheckpointId, e: H.Ending): Keys {
    if e.Finishes? then keys.MarkProcessed(k).DeleteProcessing(k)
    else if e.GivesUp? then keys.DeleteProcessing(k).MarkProcessed(k)
    else if e.PausesAgain? || e.transient then keys.DeleteProcessing(k)
    else keys
  }

  function RowsAfter(rows: Table, k: CheckpointId, e: H.Ending): Table {
    if e.Finishes? || e.GivesUp? then DeleteByCheckpoint(rows, k)
    else if e.PausesAgain? then H.Created(rows, k, e.id, e.row)
    else rows
  }

  lemma ChoresLeave(j: H.Joint, k: CheckpointId, e: H.Ending)
    ensures DoAll(j, k, H.ChoresOf(e))
            == j.(keys := KeysAfter(j.keys, k, e), calls := j.calls.(rows := RowsAfter(j.calls.rows, k, e)))
  {
    if e.Finishes? {
      DoesThree(j, k, H.MarkDone, H.DeleteKey, H.DeleteCalls);
    } else if e.GivesUp? {
      DoesThree(j, k, H.DeleteCalls, H.DeleteKey, H.MarkDone);
    } else if e.PausesAgain? {
      DoesTwo(j, k, H.Create(e.id, e.row), H.DeleteKey);
    } else if e.transient {
      assert DoAll(j, k, [H.DeleteKey]) == DoAll(H.DoChore(j, k, H.DeleteKey), k, []);
    }
  }

  lemma DoesTwo(j: H.Joint, k: CheckpointId, a: H.Chore, b: H.Chore)
    ensures DoAll(j, k, [a, b]) == H.DoChore(H.DoChore(j, k, a), k, b)
  {
    assert [a, b][1..] == [b] && [b][1..] == [];
    assert DoAll(H.DoChore(H.DoChore(j, k, a), k, b), k, []) == H.DoChore(H.DoChore(j, k, a), k, b);
  }

  lemma DoesThree(j: H.Joint, k: CheckpointId, a: H.Chore, b: H.Chore, c: H.Chore)
    ensures DoAll(j, k, [a, b, c]) == H.DoChore(H.DoChore(H.DoChore(j, k, a), k, b), k, c)
  {
    assert [a, b, c][1..] == [b, c];
    DoesTwo(H.DoChore(j, k, a), k, b, c);
  }

  // Every call has its place in the order of creation.
  ghost predicate AllListed(w: W.World) {
    forall id :: id in w.rows ==> id in w.order
  }

  lemma GivenUpAgree(j: H.Joint, w: W.World, k: CheckpointId)
    requires j.calls.rows == w.rows && AllListed(w)
    ensures H.AllGivenUp(j.calls.rows, k) <==> W.OnlyGivenUp(w.rows, w.order, k)
  {
    forall id | id in w.rows && w.rows[id].checkpoint == k && !w.rows[id].deleted
      ensures exists i: nat :: W.IsCallOf(w.rows, w.order, i, k) && w.order[i] == id
    {
      var i: nat :| i < |w.order| && w.order[i] == id;
      assert W.IsCallOf(w.rows, w.order, i, k);
    }
  }

  // The first steps: turned away, or marked in progress.
  lemma Begins(j: H.Joint, i: nat, e: H.Ending, k: CheckpointId)
    requires i < |j.resumers| && j.resumers[i] == H.Resumer(k, H.CheckProcessed)
    ensures var j' := Works(j, i, e, 3);
            if j.keys.Processed(k) || j.keys.Processing(k) then j' == H.MoveTo(j, i, H.Gone)
            else j' == H.MoveTo(j.(keys := j.keys.MarkProcessing(k)), i, H.ReadAnswers)
  {
    var a := H.Work(i, e);
    var j1 := H.Step(j, a);
    var j2 := H.Step(j1, a);
    assert Works(j, i, e, 3) == Works(j1, i, e, 2) == Works(j2, i, e, 1) == Works(H.Step(j2, a), i, e, 0);
  }

  // From the reading to the end.
  lemma Ends(j: H.Joint, i: nat, e: H.Ending, k: CheckpointId) returns (n: nat)
    requires i < |j.resumers| && j.resumers[i] == H.Resumer(k, H.ReadAnswers)
    ensures var end := if H.AllGivenUp(j.calls.rows, k) then H.GivesUp else e;
            Works(j, i, e, n) == H.MoveTo(DoAll(j.(read := j.read + ResolvedOf(j.calls.rows, k)), k, H.ChoresOf(end)),
                                          i, H.Gone)
  {
    var a := H.Work(i, e);
    var read := j.(read := j.read + ResolvedOf(j.calls.rows, k));
    var j1 := H.Step(j, a);
    if H.AllGivenUp(j.calls.rows, k) {
      ChoresAreDone(j1, i, e, k, H.ChoresOf(H.GivesUp));
      StagesDoNotMatter(read, i, H.Chores(H.ChoresOf(H.GivesUp)), k, H.ChoresOf(H.GivesUp));
      n := 1 + (|H.ChoresOf(H.GivesUp)| + 1);
    } else {
      var j2 := H.Step(j1, a);
      ChoresAreDone(j2, i, e, k, H.ChoresOf(e));
      StagesDoNotMatter(read, i, H.Chores(H.ChoresOf(e)), k, H.ChoresOf(e));
      assert j2 == H.MoveTo(read, i, H.Chores(H.ChoresOf(e)));
      n := 1 + (1 + (|H.ChoresOf(e)| + 1));
    }
  }

  // How the delivery ends, given what the calls say.
  ghost function EndOf(v: W.World, d: W.Delivery): H.Ending {
    if W.OnlyGivenUp(v.rows, v.order, d.checkpoint) then H.GivesUp else EndingOf(v, d)
  }

  lemma KeysGivenUp(v: W.World, d: W.Delivery, transient: bool)
    ensures SameKeys(KeysAfter(v.keys, d.checkpoint, H.GivesUp), W.GivenUp(v, d).keys)
    ensures SameKeys(KeysAfter(v.keys, d.checkpoint, H.GivesUp), W.LeftAlone(W.GivenUp(v, d), d, transient).keys)
    ensures SameKeys(KeysAfter(v.keys, d.checkpoint, H.Finishes), W.Completed(v, d).keys)
  {
    assert v.keys.processing - {d.checkpoint} - {d.checkpoint} == v.keys.processing - {d.checkpoint};
  }

  lemma KeysLeftAlone(v: W.World, d: W.Delivery, transient: bool)
    ensures SameKeys(KeysAfter(v.keys, d.checkpoint, H.Fails(transient)), W.LeftAlone(v, d, transient).keys)
    ensures SameKeys(KeysAfter(v.keys, d.checkpoint, H.Fails(false)), W.Unlocked(v, d).keys)
  {
  }

  lemma KeysAgree(v: W.World, d: W.Delivery)
    requires d.agentKnown && d.built
    ensures SameKeys(KeysAfter(v.keys, d.checkpoint, EndOf(v, d)), W.Execute(v, d).0.keys)
  {
    W.CallsSayWhatRowsSay(v.rows, v.order, d.checkpoint);
    KeysGivenUp(v, d, W.Transient(d.run));
    KeysLeftAlone(v, d, W.Transient(d.run));
  }

  lemma RowsAgree(v: W.World, d: W.Delivery)
    requires d.agentKnown && d.built && d.rowId !in v.rows
    ensures RowsAfter(v.rows, d.checkpoint, EndOf(v, d)) == W.Execute(v, d).0.rows
  {
    W.CallsSayWhatRowsSay(v.rows, v.order, d.checkpoint);
  }

  // Locks do not matter to the resume keys.
  lemma SameKeysAfter(a: Keys, b: Keys, k: CheckpointId, e: H.Ending)
    requires SameKeys(a, b)
    ensures SameKeys(KeysAfter(a, k, e), KeysAfter(b, k, e))
  {
  }

  // The rest of a delivery leaves the same in both.
  lemma RestAgrees(j: H.Joint, v: W.World, d: W.Delivery)
    requires Same(j, v) && AllListed(v) && d.agentKnown && d.built && d.rowId !in v.rows
    ensures var end := if H.AllGivenUp(j.calls.rows, d.checkpoint) then H.GivesUp else EndingOf(v, d);
            && DoAll(j, d.checkpoint, H.ChoresOf(end)) == j.(keys := KeysAfter(j.keys, d.checkpoint, end),
                                                             calls := DoAll(j, d.checkpoint, H.ChoresOf(end)).calls)
            && DoAll(j, d.checkpoint, H.ChoresOf(end)).calls.tasks == j.calls.tasks
            && Same(DoAll(j, d.checkpoint, H.ChoresOf(end)), W.Execute(v, d).0)
  {
    ChoresLeave(j, d.checkpoint, EndOf(v, d));
    GivenUpAgree(j, v, d.checkpoint);
    KeysAgree(v, d);
    RowsAgree(v, d);
    SameKeysAfter(j.keys, v.keys, d.checkpoint, EndOf(v, d));
  }

  // The start leaves the same in both, after the time the run takes.
  lemma StartAgrees(j: H.Joint, w: W.World, d: W.Delivery)
    requires Same(j, w) && !W.Skips(w, d)
    ensures var j' := H.Step(j.(keys := j.keys.MarkProcessing(d.checkpoint)), H.Protocol(Hitl.Tick(d.elapsed)));
            && Same(j', W.Started(w, d)) && j'.resumers == j.resumers && j'.read == j.read && j'.taken == j.taken
            && j'.calls.tasks == j.calls.tasks
  {
  }

  /** Whatever way it ends, a worker of the joint machine that nothing else comes between leaves the keys
      and the calls as the delivery handled in one go does, is gone, and has read the answers of its
      checkpoint unless it was turned away. */
  lemma UninterruptedWorker(j: H.Joint, w: W.World, i: nat, d: W.Delivery) returns (n: nat)
    requires Same(j, w) && AllListed(w) && d.agentKnown && d.built && d.rowId !in w.rows
    requires i < |j.resumers| && j.resumers[i] == H.Resumer(d.checkpoint, H.CheckProcessed)
    ensures var e := EndingOf(w, d);
            var begun := Works(j, i, e, 3);
            var j' := if W.Skips(w, d) then begun
                      else Works(H.Step(begun, H.Protocol(Hitl.Tick(d.elapsed))), i, e, n);
            && Same(j', W.Handle(w, d).0) && j'.resumers == j.resumers[i := H.Resumer(d.checkpoint, H.Gone)]
            && j'.calls.tasks == j.calls.tasks && j'.taken == j.taken
            && j'.read == j.read + if W.Skips(w, d) then {} else ResolvedOf(w.rows, d.checkpoint)
  {
    var e, k := EndingOf(w, d), d.checkpoint;
    var begun := Works(j, i, e, 3);
    n := 0;
    Begins(j, i, e, k);
    if !W.Skips(w, d) {
      n := GoesOn(j, w, i, d);
    }
  }

  lemma GoesOn(j: H.Joint, w: W.World, i: nat, d: W.Delivery) returns (n: nat)
    requires Same(j, w) && AllListed(w) && d.agentKnown && d.built && d.rowId !in w.rows && !W.Skips(w, d)
    requires i < |j.resumers| && j.resumers[i] == H.Resumer(d.checkpoint, H.CheckProcessed)
    ensures var marked := H.MoveTo(j.(keys := j.keys.MarkProcessing(d.checkpoint)), i, H.ReadAnswers);
            var j' := Works(H.Step(marked, H.Protocol(Hitl.Tick(d.elapsed))), i, EndingOf(w, d), n);
            && Same(j', W.Handle(w, d).0) && j'.resumers == j.resumers[i := H.Resumer(d.checkpoint, H.Gone)]
            && j'.calls.tasks == j.calls.tasks && j'.taken == j.taken
            && j'.read == j.read + ResolvedOf(w.rows, d.checkpoint)
  {
    var moved := H.MoveTo(j, i, H.ReadAnswers);
    StartAgrees(moved, w, d);
    W.StartedKeepsTheRest(w, d);
    assert moved.(keys := moved.keys.MarkProcessing(d.checkpoint))
        == H.MoveTo(j.(keys := j.keys.MarkProcessing(d.checkpoint)), i, H.ReadAnswers);
    var ran := H.Step(moved.(keys := moved.keys.MarkProcessing(d.checkpoint)), H.Protocol(Hitl.Tick(d.elapsed)));
    assert EndingOf(W.Started(w, d), d) == EndingOf(w, d);
    n := Finishes(ran, W.Started(w, d), i, d);
  }

  lemma Finishes(j: H.Joint, v: W.World, i: nat, d: W.Delivery) returns (n: nat)
    requires Same(j, v) && AllListed(v) && d.agentKnown && d.built && d.rowId !in v.rows
    requires i < |j.resumers| && j.resumers[i] == H.Resumer(d.checkpoint, H.ReadAnswers)
    ensures var j' := Works(j, i, EndingOf(v, d), n);
            && Same(j', W.Execute(v, d).0) && j'.resumers == j.resumers[i := H.Resumer(d.checkpoint, H.Gone)]
            && j'.calls.tasks == j.calls.tasks && j'.taken == j.taken
            && j'.read == j.read + ResolvedOf(v.rows, d.checkpoint)
  {
    n := Ends(j, i, EndingOf(v, d), d.checkpoint);
    RestAgrees(j.(read := j.read + ResolvedOf(j.calls.rows, d.checkpoint)), v, d);
  }
}
