/** Agent task processing: a per-conversation lock with a deadline, and a
    two-phase idempotency check that is safe only because the lock is held. */
module TaskLock {
  type MessageId = string
  type ConversationId = string

  const LOCK_TTL: nat := 130_000
  const PROCESSED_TTL: nat := 86_400_000

  // holder is history: which worker set the key. Redis stores the token only.
  datatype Lock = Lock(token: nat, expireAt: nat, holder: nat)

  /** The Redis keys of the agent tasks. A key whose deadline has passed behaves as absent. */
  datatype Keys = Keys(now: nat, locks: map<ConversationId, Lock>,
                       processed: map<MessageId, nat>, processing: map<MessageId, nat>) {

    predicate Locked(c: ConversationId) {
      c in locks && now <= locks[c].expireAt
    }

    predicate Processed(m: MessageId) {
      m in processed && now <= processed[m]
    }

    predicate Processing(m: MessageId) {
      m in processing && now <= processing[m]
    }

    // SETNX with a deadline
    function Acquire(c: ConversationId, token: nat, holder: nat): (Keys, bool) {
      if Locked(c) then (this, false)
      else (this.(locks := locks[c := Lock(token, now + LOCK_TTL, holder)]), true)
    }

    // Delete if the value is still this token
    function Release(c: ConversationId, token: nat): Keys {
      if Locked(c) && locks[c].token == token then this.(locks := locks - {c}) else this
    }

    function MarkProcessing(m: MessageId): Keys {
      if Processing(m) then this else this.(processing := processing[m := now + LOCK_TTL])
    }

    function MarkProcessed(m: MessageId): Keys {
      if Processed(m) then this else this.(processed := processed[m := now + PROCESSED_TTL])
    }

    function DeleteProcessing(m: MessageId): Keys {
      this.(processing := processing - {m})
    }
  }

  // What the executor returns: success or a permanent error, a transient error, a pause for the user.
  datatype Outcome = Completed | Transient | Interrupted

  datatype Pc =
    | AtAcquire
    | AtCheckProcessed
    | AtCheckProcessing(processed: bool)
    | AtMarkProcessing
    | Executing
    | AtMarkProcessed
    | AtDeleteProcessing
    | AtRelease
    | Done
    | Paused
    | Crashed

  // One delivery of a task. deadline is history: when the lock it took runs out.
  datatype Worker = Worker(message: MessageId, token: nat, pc: Pc, deadline: nat)

  // marks is history: when a completion of the message was marked.
  datatype World = World(keys: Keys, workers: seq<Worker>, marks: map<MessageId, seq<nat>>)

  datatype Action =
    | Tick(ms: nat)
    | Deliver(message: MessageId, token: nat)
    | Advance(i: nat, outcome: Outcome)
    | Crash(i: nat)

  function MarksOf(w: World, m: MessageId): seq<nat> {
    if m in w.marks then w.marks[m] else []
  }

  function Put(w: World, i: nat, pc: Pc, keys: Keys): World
    requires i < |w.workers|
  {
    w.(keys := keys, workers := w.workers[i := w.workers[i].(pc := pc)])
  }

  /** One round trip of worker i. home gives the conversation of a message. */
  function AdvanceWorker(home: MessageId -> ConversationId, w: World, i: nat, outcome: Outcome): World
    requires i < |w.workers|
  {
    var v, k := w.workers[i], w.keys;
    match v.pc
    case AtAcquire =>
      var (k', ok) := k.Acquire(home(v.message), v.token, i);
      if !ok then Put(w, i, Done, k)
      else w.(keys := k', workers := w.workers[i := v.(pc := AtCheckProcessed, deadline := k.now + LOCK_TTL)])
    case AtCheckProcessed => Put(w, i, AtCheckProcessing(k.Processed(v.message)), k)
    case AtCheckProcessing(processed) =>
      Put(w, i, if processed || k.Processing(v.message) then AtRelease else AtMarkProcessing, k)
    case AtMarkProcessing => Put(w, i, Executing, k.MarkProcessing(v.message))
    case Executing =>
      Put(w, i, match outcome
                case Completed => AtMarkProcessed
                case Transient => AtRelease
                case Interrupted => Paused, k)
    case AtMarkProcessed =>
      Put(w, i, AtDeleteProcessing, k.MarkProcessed(v.message))
        .(marks := w.marks[v.message := MarksOf(w, v.message) + [k.now]])
    case AtDeleteProcessing => Put(w, i, AtRelease, k.DeleteProcessing(v.message))
    case AtRelease => Put(w, i, Done, k.Release(home(v.message), v.token))
    case _ => w
  }

  function Step(home: MessageId -> ConversationId, w: World, a: Action): World {
    match a
    case Tick(ms) => w.(keys := w.keys.(now := w.keys.now + ms))
    case Deliver(m, token) => w.(workers := w.workers + [Worker(m, token, AtAcquire, 0)])
    case Advance(i, outcome) => if i < |w.workers| then AdvanceWorker(home, w, i, outcome) else w
    case Crash(i) => if i < |w.workers| && Active(w.workers[i]) then Put(w, i, Crashed, w.keys) else w
  }

  function Run(home: MessageId -> ConversationId, w: World, actions: seq<Action>): World
    decreases |actions|
  {
    if actions == [] then w else Run(home, Step(home, w, actions[0]), actions[1..])
  }

  // Between taking the lock and giving it back.
  predicate Active(v: Worker) {
    !(v.pc.AtAcquire? || v.pc.Done? || v.pc.Paused? || v.pc.Crashed?)
  }

  // Took the lock and has not given it back.
  predicate Took(v: Worker) {
    Active(v) || v.pc.Paused? || (v.pc.Crashed? && v.deadline > 0)
  }

  // Has seen the message unprocessed and has not marked it.
  predicate Cleared(v: Worker) {
    v.pc == AtCheckProcessing(false) || v.pc.AtMarkProcessing? || v.pc.Executing? || v.pc.AtMarkProcessed?
  }

  /** Every holder finishes within its deadline. */
  ghost predicate Timely(w: World, a: Action) {
    a.Tick? ==> forall i :: 0 <= i < |w.workers| && Active(w.workers[i]) ==> w.keys.now + a.ms <= w.workers[i].deadline
  }

  ghost predicate TimelyRun(home: MessageId -> ConversationId, w: World, actions: seq<Action>)
    decreases |actions|
  {
    actions == [] || (Timely(w, actions[0]) && TimelyRun(home, Step(home, w, actions[0]), actions[1..]))
  }

  const START: World := World(Keys(0, map[], map[], map[]), [], map[])

  ghost predicate HoldsLock(home: MessageId -> ConversationId, w: World, i: nat)
    requires i < |w.workers|
  {
    var v, c := w.workers[i], home(w.workers[i].message);
    c in w.keys.locks && w.keys.locks[c] == Lock(v.token, v.deadline, i)
  }

  // Marks of one message are more than 24 hours apart.
  ghost predicate Spaced(marks: seq<nat>) {
    forall i, j :: 0 <= i < j < |marks| ==> marks[i] + 86_400_000 < marks[j]
  }

  // The processed key of a message is the one its last mark set.
  ghost predicate MarksOk(w: World, m: MessageId) {
    var marks := MarksOf(w, m);
    && Spaced(marks)
    && (m in w.keys.processed <==> marks != [])
    && (m in w.keys.processed ==> w.keys.processed[m] == marks[|marks| - 1] + PROCESSED_TTL)
  }

  // No mark of m is younger than 24 hours.
  ghost predicate Unmarked(w: World, m: MessageId) {
    forall i :: 0 <= i < |MarksOf(w, m)| ==> MarksOf(w, m)[i] + PROCESSED_TTL < w.keys.now
  }

  ghost predicate WorkerOk(home: MessageId -> ConversationId, w: World, i: nat)
    requires i < |w.workers|
  {
    var v := w.workers[i];
    && (Took(v) && w.keys.now <= v.deadline ==> HoldsLock(home, w, i))
    && (Active(v) ==> w.keys.now <= v.deadline)
    && (Cleared(v) ==> Unmarked(w, v.message))
  }

  ghost predicate Inv(home: MessageId -> ConversationId, w: World) {
    && (forall i :: 0 <= i < |w.workers| ==> WorkerOk(home, w, i))
    && (forall m :: MarksOk(w, m))
  }

  // Two workers that both still have the lock of one conversation are the same worker.
  lemma LockHasOneHolder(home: MessageId -> ConversationId, w: World, i: nat, j: nat)
    requires Inv(home, w) && i < |w.workers| && j < |w.workers|
    requires Took(w.workers[i]) && w.keys.now <= w.workers[i].deadline
    requires Took(w.workers[j]) && w.keys.now <= w.workers[j].deadline
    requires home(w.workers[i].message) == home(w.workers[j].message)
    ensures i == j
  {
    assert WorkerOk(home, w, i) && WorkerOk(home, w, j);
  }

  lemma MovingWorkerOk(home: MessageId -> ConversationId, w: World, i: nat, outcome: Outcome)
    requires Inv(home, w) && i < |w.workers|
    ensures WorkerOk(home, AdvanceWorker(home, w, i, outcome), i)
  {
    var pc := w.workers[i].pc;
    if pc.AtAcquire? || pc.AtRelease? || pc.Executing? {
      LockStepOk(home, w, i, outcome);
    } else if pc.AtCheckProcessed? || pc.AtCheckProcessing? || pc.AtMarkProcessing? {
      CheckStepOk(home, w, i, outcome);
    } else {
      assert WorkerOk(home, w, i);
    }
  }

  lemma CheckStepOk(home: MessageId -> ConversationId, w: World, i: nat, outcome: Outcome)
    requires Inv(home, w) && i < |w.workers|
    requires w.workers[i].pc.AtCheckProcessed? || w.workers[i].pc.AtCheckProcessing?
            || w.workers[i].pc.AtMarkProcessing?
    ensures WorkerOk(home, AdvanceWorker(home, w, i, outcome), i)
  {
    assert WorkerOk(home, w, i);
    assert MarksOk(w, w.workers[i].message);
  }

  lemma LockStepOk(home: MessageId -> ConversationId, w: World, i: nat, outcome: Outcome)
    requires Inv(home, w) && i < |w.workers|
    requires w.workers[i].pc.AtAcquire? || w.workers[i].pc.AtRelease? || w.workers[i].pc.Executing?
    ensures WorkerOk(home, AdvanceWorker(home, w, i, outcome), i)
  {
    assert WorkerOk(home, w, i);
    assert MarksOk(w, w.workers[i].message);
  }

  lemma OtherWorkerOk(home: MessageId -> ConversationId, w: World, i: nat, outcome: Outcome, j: nat)
    requires Inv(home, w) && i < |w.workers| && j < |w.workers| && i != j
    ensures WorkerOk(home, AdvanceWorker(home, w, i, outcome), j)
  {
    assert WorkerOk(home, w, i) && WorkerOk(home, w, j);
    var w' := AdvanceWorker(home, w, i, outcome);
    assert w'.workers[j] == w.workers[j] && w'.keys.now == w.keys.now;
    if Active(w.workers[i]) && Took(w.workers[j]) && w.keys.now <= w.workers[j].deadline
       && home(w.workers[i].message) == home(w.workers[j].message) {
      LockHasOneHolder(home, w, i, j);
    }
    if Cleared(w.workers[j]) {
      assert MarksOf(w', w.workers[j].message) == MarksOf(w, w.workers[j].message);
    }
  }

  // The worker that marks its message has the lock, so the last mark is more than a day old.
  lemma MarkIsSpaced(home: MessageId -> ConversationId, w: World, i: nat, outcome: Outcome)
    requires Inv(home, w) && i < |w.workers| && w.workers[i].pc.AtMarkProcessed?
    ensures MarksOk(AdvanceWorker(home, w, i, outcome), w.workers[i].message)
  {
    var m := w.workers[i].message;
    assert WorkerOk(home, w, i) && MarksOk(w, m);
    assert MarksOf(AdvanceWorker(home, w, i, outcome), m) == MarksOf(w, m) + [w.keys.now];
    assert !w.keys.Processed(m);
  }

  lemma AdvanceKeepsMarks(home: MessageId -> ConversationId, w: World, i: nat, outcome: Outcome, m: MessageId)
    requires Inv(home, w) && i < |w.workers|
    ensures MarksOk(AdvanceWorker(home, w, i, outcome), m)
  {
    assert WorkerOk(home, w, i) && MarksOk(w, m);
    var w' := AdvanceWorker(home, w, i, outcome);
    if w.workers[i].pc.AtMarkProcessed? && w.workers[i].message == m {
      MarkIsSpaced(home, w, i, outcome);
    } else {
      assert MarksOf(w', m) == MarksOf(w, m) && (m in w'.keys.processed <==> m in w.keys.processed);
    }
  }

  lemma StepKeepsInv(home: MessageId -> ConversationId, w: World, a: Action)
    requires Inv(home, w) && Timely(w, a)
    ensures Inv(home, Step(home, w, a))
  {
    var w' := Step(home, w, a);
    if a.Advance? && a.i < |w.workers| {
      forall j | 0 <= j < |w'.workers| ensures WorkerOk(home, w', j) {
        if j == a.i { MovingWorkerOk(home, w, a.i, a.outcome); } else { OtherWorkerOk(home, w, a.i, a.outcome, j); }
      }
      forall m ensures MarksOk(w', m) { AdvanceKeepsMarks(home, w, a.i, a.outcome, m); }
    } else {
      forall j | 0 <= j < |w'.workers| ensures WorkerOk(home, w', j) {
        if j < |w.workers| {
          assert WorkerOk(home, w, j);
          assert MarksOf(w', w.workers[j].message) == MarksOf(w, w.workers[j].message);
        }
      }
      forall m ensures MarksOk(w', m) { assert MarksOk(w, m); }
    }
  }

  lemma {:induction false} RunKeepsInv(home: MessageId -> ConversationId, w: World, actions: seq<Action>)
    requires Inv(home, w) && TimelyRun(home, w, actions)
    ensures Inv(home, Run(home, w, actions))
    decreases |actions|
  {
    if actions != [] {
      StepKeepsInv(home, w, actions[0]);
      RunKeepsInv(home, Step(home, w, actions[0]), actions[1..]);
    }
  }

  lemma StartIsOk(home: MessageId -> ConversationId)
    ensures Inv(home, START)
  {
  }

  /** Whatever deliveries, crashes and pauses happen, at most one process task
      executes per conversation. Resume tasks are not in this machine. */
  lemma OneExecutorPerConversation(home: MessageId -> ConversationId, actions: seq<Action>, i: nat, j: nat)
    requires TimelyRun(home, START, actions)
    requires var w := Run(home, START, actions);
             && i < |w.workers| && j < |w.workers|
             && w.workers[i].pc.Executing? && w.workers[j].pc.Executing?
             && home(w.workers[i].message) == home(w.workers[j].message)
    ensures i == j
  {
    StartIsOk(home);
    RunKeepsInv(home, START, actions);
    var w := Run(home, START, actions);
    assert WorkerOk(home, w, i) && WorkerOk(home, w, j);
    LockHasOneHolder(home, w, i, j);
  }

  /** No process task works on a conversation whose agent is paused, until the lock
      it left behind runs out. */
  lemma PausedConversationIsLeftAlone(home: MessageId -> ConversationId, actions: seq<Action>, i: nat, j: nat)
    requires TimelyRun(home, START, actions)
    requires var w := Run(home, START, actions);
             && i < |w.workers| && j < |w.workers|
             && w.workers[i].pc.Paused? && w.keys.now <= w.workers[i].deadline
             && Active(w.workers[j])
    ensures var w := Run(home, START, actions); home(w.workers[i].message) != home(w.workers[j].message)
  {
    StartIsOk(home);
    RunKeepsInv(home, START, actions);
    var w := Run(home, START, actions);
    assert WorkerOk(home, w, i) && WorkerOk(home, w, j);
    if home(w.workers[i].message) == home(w.workers[j].message) {
      LockHasOneHolder(home, w, i, j);
    }
  }

  /** Each message is marked complete at most once within 24 hours. */
  lemma CompletesOncePerDay(home: MessageId -> ConversationId, actions: seq<Action>, m: MessageId)
    requires TimelyRun(home, START, actions)
    ensures Spaced(MarksOf(Run(home, START, actions), m))
  {
    StartIsOk(home);
    RunKeepsInv(home, START, actions);
    assert MarksOk(Run(home, START, actions), m);
  }

  predicate Ended(v: Worker) {
    v.pc.Done? || v.pc.Paused? || v.pc.Crashed?
  }

  /** Over every run a worker that is done, paused or crashed never moves again. */
  lemma {:induction false} EndedIsFinal(home: MessageId -> ConversationId, w: World, actions: seq<Action>, i: nat)
    requires i < |w.workers| && Ended(w.workers[i])
    ensures i < |Run(home, w, actions).workers| && Run(home, w, actions).workers[i] == w.workers[i]
    decreases |actions|
  {
    if actions != [] { EndedIsFinal(home, Step(home, w, actions[0]), actions[1..], i); }
  }

  // A crash stops a worker where it stands, keys and lock as they are.
  lemma CrashEnds(home: MessageId -> ConversationId, w: World, i: nat)
    requires i < |w.workers| && Active(w.workers[i])
    ensures Step(home, w, Crash(i)) == w.(workers := w.workers[i := w.workers[i].(pc := Crashed)])
  {
  }

  // k round trips of worker i, with no tick and nobody else in between.
  function OwnSteps(home: MessageId -> ConversationId, w: World, i: nat, k: nat): World
    decreases k
  {
    if k == 0 then w else OwnSteps(home, Step(home, w, Advance(i, Completed)), i, k - 1)
  }

  lemma {:induction false} OthersStand(home: MessageId -> ConversationId, w: World, i: nat, k: nat, j: nat)
    requires i < |w.workers| && j < |w.workers| && j != i
    ensures |OwnSteps(home, w, i, k).workers| == |w.workers| && OwnSteps(home, w, i, k).workers[j] == w.workers[j]
    decreases k
  {
    if k > 0 { OthersStand(home, Step(home, w, Advance(i, Completed)), i, k - 1, j); }
  }

  // A worker that is on its way out does not execute.
  lemma {:induction false} LeavingIsFinal(home: MessageId -> ConversationId, w: World, i: nat, k: nat)
    requires i < |w.workers| && (w.workers[i].pc.AtRelease? || w.workers[i].pc.Done?)
    ensures var w' := OwnSteps(home, w, i, k); |w'.workers| == |w.workers| && !w'.workers[i].pc.Executing?
    decreases k
  {
    if k > 0 { LeavingIsFinal(home, Step(home, w, Advance(i, Completed)), i, k - 1); }
  }

  // What the first round trips of a delivery find.
  lemma FirstSteps(home: MessageId -> ConversationId, w: World, m: MessageId, token: nat)
    ensures var n, go := |w.workers|, Advance(|w.workers|, Completed);
            var w1 := Step(home, w, Deliver(m, token));
            var w2 := Step(home, w1, go);
            var w3 := Step(home, w2, go);
            var w4 := Step(home, w3, go);
            && |w1.workers| == |w2.workers| == |w3.workers| == |w4.workers| == n + 1
            && w1.workers[n].pc == AtAcquire
            && (w.keys.Locked(home(m)) ==> w2.workers[n].pc == Done)
            && (!w.keys.Locked(home(m)) ==>
                 && w2.workers[n].pc == AtCheckProcessed
                 && w3.workers[n].pc.AtCheckProcessing?
                 && w4.workers[n].pc
                    == if w.keys.Processed(m) || w.keys.Processing(m) then AtRelease else AtMarkProcessing)
  {
  }

  /** The deadline matters: while a task of the conversation executes, another delivery that
      runs undisturbed starts executing beside it exactly when the lock has run out
      and the message is not marked. */
  lemma OverrunBreaksExclusionIff(home: MessageId -> ConversationId, w: World, i: nat, m: MessageId, token: nat)
    requires i < |w.workers| && w.workers[i].pc.Executing? && home(m) == home(w.workers[i].message)
    ensures (exists k: nat ::
               BothExecute(OwnSteps(home, Step(home, w, Deliver(m, token)), |w.workers|, k), i, |w.workers|))
            <==> !w.keys.Locked(home(m)) && !w.keys.Processed(m) && !w.keys.Processing(m)
  {
    var n, go := |w.workers|, Advance(|w.workers|, Completed);
    var w1 := Step(home, w, Deliver(m, token));
    var w2 := Step(home, w1, go);
    var w3 := Step(home, w2, go);
    var w4 := Step(home, w3, go);
    FirstSteps(home, w, m, token);
    if !w.keys.Locked(home(m)) && !w.keys.Processed(m) && !w.keys.Processing(m) {
      var w5 := Step(home, w4, go);
      assert OwnSteps(home, w1, n, 4) == OwnSteps(home, w2, n, 3) == OwnSteps(home, w3, n, 2)
          == OwnSteps(home, w4, n, 1)
          == OwnSteps(home, w5, n, 0) == w5;
      OthersStand(home, w1, n, 4, i);
      assert BothExecute(OwnSteps(home, w1, n, 4), i, n);
    } else {
      forall k: nat ensures !BothExecute(OwnSteps(home, w1, n, k), i, n) {
        if w.keys.Locked(home(m)) {
          if k > 0 { LeavingIsFinal(home, w2, n, k - 1); }
        } else if k >= 3 {
          assert OwnSteps(home, w1, n, k) == OwnSteps(home, w2, n, k - 1) == OwnSteps(home, w3, n, k - 2)
              == OwnSteps(home, w4, n, k - 3);
          LeavingIsFinal(home, w4, n, k - 3);
        } else {
          assert OwnSteps(home, w1, n, 1) == OwnSteps(home, w2, n, 0)
              && OwnSteps(home, w1, n, 2) == OwnSteps(home, w2, n, 1) == OwnSteps(home, w3, n, 0);
        }
      }
    }
  }

  predicate BothExecute(w: World, i: nat, j: nat) {
    i < |w.workers| && j < |w.workers| && w.workers[i].pc.Executing? && w.workers[j].pc.Executing?
  }

  // --------------------------------------------------------------------
  // One task handler, run without interference
  // --------------------------------------------------------------------

  datatype Reply = Ack | LockHeld | TransientError

  /** elapsed is how long the executor takes; the result says whether it ran. */
  function HandleTask(k: Keys, m: MessageId, c: ConversationId, token: nat, holder: nat,
                      outcome: Outcome, elapsed: nat): (Keys, Reply, bool)
  {
    if k.Locked(c) then (k, LockHeld, false)
    else if k.Processed(m) || k.Processing(m) then (k.(locks := k.locks - {c}), Ack, false)
    else
      var locks := k.locks[c := Lock(token, k.now + LOCK_TTL, holder)];
      var freed := if elapsed <= LOCK_TTL then locks - {c} else locks;
      var end := Keys(k.now + elapsed, freed, k.processed, k.processing[m := k.now + LOCK_TTL]);
      match outcome
      case Completed =>
        (end.(processed := k.processed[m := end.now + PROCESSED_TTL], processing := k.processing - {m}), Ack, true)
      case Transient => (end, TransientError, true)
      case Interrupted => (end.(locks := locks), Ack, true)
  }

  class AgentTaskHandler {
    var keys: Keys
    const token: nat

    constructor (keys: Keys, token: nat)
      ensures this.keys == keys && this.token == token
    {
      this.keys, this.token := keys, token;
    }

    method Handle(m: MessageId, c: ConversationId, holder: nat, outcome: Outcome, elapsed: nat)
      returns (r: Reply, executed: bool)
      modifies this
      ensures m != "" && c != "" ==>
                (keys, r, executed) == HandleTask(old(keys), m, c, token, holder, outcome, elapsed)
      ensures m == "" || c == "" ==> r == Ack && !executed && keys == old(keys)
    {
      if m == "" || c == "" { return Ack, false; }
      var (locked, acquired) := keys.Acquire(c, token, holder);
      keys := locked;
      if !acquired { return LockHeld, false; }
      if keys.Processed(m) || keys.Processing(m) {
        keys := keys.Release(c, token);
        assert keys.locks == old(keys).locks - {c};
        return Ack, false;
      }
      keys := keys.MarkProcessing(m);
      keys := keys.(now := keys.now + elapsed);
      if outcome.Interrupted? { return Ack, true; }
      if outcome.Completed? {
        keys := keys.MarkProcessed(m);
        keys := keys.DeleteProcessing(m);
        assert keys.processing == old(keys).processing - {m};
      }
      keys := keys.Release(c, token);
      return if outcome.Transient? then TransientError else Ack, true;
    }
  }

  // The three tries of the conversation and the message that a delivery starts with.
  predicate Startable(k: Keys, m: MessageId, c: ConversationId) {
    && !(c in k.locks && k.now <= k.locks[c].expireAt)
    && !(m in k.processed && k.now <= k.processed[m]) && !(m in k.processing && k.now <= k.processing[m])
  }

  /** A delivery that runs undisturbed executes exactly when the conversation is not locked and
      the message bears no living mark; otherwise no time passes and nothing but
      a lock that had run out is gone. */
  lemma TaskExecutesIff(k: Keys, m: MessageId, c: ConversationId, token: nat, holder: nat, outcome: Outcome,
                        elapsed: nat)
    ensures var (k', reply, executed) := HandleTask(k, m, c, token, holder, outcome, elapsed);
            && (executed <==> Startable(k, m, c)) && (reply == LockHeld <==> k.Locked(c))
            && (reply == TransientError <==> executed && outcome == Transient)
            && k'.now == (if executed then k.now + elapsed else k.now)
            && (!executed ==> k'.processed == k.processed && k'.processing == k.processing
                              && forall c' :: k'.Locked(c') <==> k.Locked(c'))
  {
  }

  /** The conversation is given back: another message of it that bears no mark executes after
      any wait, however short, unless the agent paused, and then exactly when the
      lock taken for the paused task has run out. */
  lemma NextMessageRunsIff(k: Keys, m: MessageId, c: ConversationId, token: nat, holder: nat, outcome: Outcome,
                           elapsed: nat, wait: nat, m': MessageId, token': nat, holder': nat, outcome': Outcome,
                           elapsed': nat)
    requires HandleTask(k, m, c, token, holder, outcome, elapsed).2 && m' != m
    requires var now := k.now + elapsed + wait;
             && !(m' in k.processed && now <= k.processed[m']) && !(m' in k.processing && now <= k.processing[m'])
    ensures var k1 := HandleTask(k, m, c, token, holder, outcome, elapsed).0;
            var (_, reply, executed) :=
              HandleTask(k1.(now := k1.now + wait), m', c, token', holder', outcome', elapsed');
            && (executed <==> outcome != Interrupted || elapsed + wait > 130_000)
            && (!executed ==> reply == LockHeld)
  {
  }

  // A delivery's own round trips: to the execution, the time it takes, and to the end.
  function Alone(home: MessageId -> ConversationId, w: World, m: MessageId, token: nat, outcome: Outcome,
                 elapsed: nat): World
  {
    var n, begun := |w.workers|, OwnSteps(home, Step(home, w, Deliver(m, token)), |w.workers|, 4);
    if n < |begun.workers| && begun.workers[n].pc.Executing? then
      OwnSteps(home, Step(home, Step(home, begun, Tick(elapsed)), Advance(n, outcome)), n, 3)
    else begun
  }

  // The first round trips end in an execution, or are all there are.
  lemma BeginsAs(home: MessageId -> ConversationId, w: World, m: MessageId, token: nat)
    ensures var n := |w.workers|;
            var begun := OwnSteps(home, Step(home, w, Deliver(m, token)), n, 4);
            && |begun.workers| == n + 1 && begun.workers[n].message == m && begun.workers[n].token == token
            && begun.marks == w.marks
            && if Startable(w.keys, m, home(m)) then
                 && begun.workers[n].pc == Executing
                 && begun.keys == w.keys.Acquire(home(m), token, n).0.MarkProcessing(m)
               else
                 && begun.workers[n].pc == Done
                 && begun.keys.locks == (if w.keys.Locked(home(m)) then w.keys.locks else w.keys.locks - {home(m)})
                 && begun.keys == w.keys.(locks := begun.keys.locks)
  {
    var n, go := |w.workers|, Advance(|w.workers|, Completed);
    var w1 := Step(home, w, Deliver(m, token));
    var w2 := Step(home, w1, go);
    var w3 := Step(home, w2, go);
    var w4 := Step(home, w3, go);
    var w5 := Step(home, w4, go);
    assert OwnSteps(home, w1, n, 4) == OwnSteps(home, w2, n, 3) == OwnSteps(home, w3, n, 2)
        == OwnSteps(home, w4, n, 1) == OwnSteps(home, w5, n, 0) == w5;
  }

  // The keys once the executor has come back, and after the rest of the handler.
  function KeysRan(k: Keys, m: MessageId, c: ConversationId, token: nat, holder: nat, elapsed: nat): Keys {
    var begun := k.Acquire(c, token, holder).0.MarkProcessing(m);
    begun.(now := begun.now + elapsed)
  }

  function KeysEnded(k: Keys, m: MessageId, c: ConversationId, token: nat, outcome: Outcome): Keys {
    match outcome
    case Completed => k.MarkProcessed(m).DeleteProcessing(m).Release(c, token)
    case Transient => k.Release(c, token)
    case Interrupted => k
  }

  // From the execution to the end.
  lemma EndsAs(home: MessageId -> ConversationId, w: World, n: nat, outcome: Outcome)
    requires n < |w.workers| && w.workers[n].pc == Executing
    ensures var m, token := w.workers[n].message, w.workers[n].token;
            var end := OwnSteps(home, Step(home, w, Advance(n, outcome)), n, 3);
            && |end.workers| == |w.workers|
            && end.workers[n].pc == (if outcome == Interrupted then Paused else Done)
            && end.keys == KeysEnded(w.keys, m, home(m), token, outcome)
            && end.marks == if outcome == Completed then w.marks[m := MarksOf(w, m) + [w.keys.now]] else w.marks
  {
    var go := Advance(n, Completed);
    var w1 := Step(home, w, Advance(n, outcome));
    var w2 := Step(home, w1, go);
    var w3 := Step(home, w2, go);
    var w4 := Step(home, w3, go);
    assert OwnSteps(home, w1, n, 3) == OwnSteps(home, w2, n, 2) == OwnSteps(home, w3, n, 1)
        == OwnSteps(home, w4, n, 0) == w4;
  }

  // The handler's keys, one round trip after the other.
  lemma HandlerKeys(k: Keys, m: MessageId, c: ConversationId, token: nat, holder: nat, outcome: Outcome, elapsed: nat)
    requires Startable(k, m, c)
    ensures HandleTask(k, m, c, token, holder, outcome, elapsed).0
            == KeysEnded(KeysRan(k, m, c, token, holder, elapsed), m, c, token, outcome)
    ensures HandleTask(k, m, c, token, holder, outcome, elapsed).0.now == k.now + elapsed
  {
    var begun := k.Acquire(c, token, holder).0.MarkProcessing(m);
    assert begun.processing - {m} == k.processing - {m};
  }

  // What a delivery left alone leaves of the keys, its worker and the history.
  ghost predicate Leaves(w: World, w': World, keys: Keys, m: MessageId, paused: bool, completed: bool) {
    && w'.keys == keys && |w'.workers| == |w.workers| + 1
    && w'.workers[|w.workers|].pc == (if paused then Paused else Done)
    && w'.marks == if completed then w.marks[m := MarksOf(w, m) + [keys.now]] else w.marks
  }

  lemma RunsAlone(home: MessageId -> ConversationId, w: World, m: MessageId, token: nat, outcome: Outcome, elapsed: nat)
    requires Startable(w.keys, m, home(m))
    ensures var keys := HandleTask(w.keys, m, home(m), token, |w.workers|, outcome, elapsed).0;
            Leaves(w, Alone(home, w, m, token, outcome, elapsed), keys, m, outcome == Interrupted, outcome == Completed)
  {
    var n := |w.workers|;
    var ran := RanAlone(home, w, m, token, elapsed);
    EndsAs(home, ran, n, outcome);
    HandlerKeys(w.keys, m, home(m), token, n, outcome, elapsed);
    assert Alone(home, w, m, token, outcome, elapsed) == OwnSteps(home, Step(home, ran, Advance(n, outcome)), n, 3);
  }

  lemma RanAlone(home: MessageId -> ConversationId, w: World, m: MessageId, token: nat, elapsed: nat)
    returns (ran: World)
    requires Startable(w.keys, m, home(m))
    ensures var begun := OwnSteps(home, Step(home, w, Deliver(m, token)), |w.workers|, 4);
            && ran == Step(home, begun, Tick(elapsed)) && |begun.workers| == |ran.workers| == |w.workers| + 1
            && ran.workers[|w.workers|].message == m && ran.workers[|w.workers|].token == token
            && begun.workers[|w.workers|].pc == ran.workers[|w.workers|].pc == Executing && ran.marks == w.marks
            && ran.keys == KeysRan(w.keys, m, home(m), token, |w.workers|, elapsed)
            && ran.keys.now == w.keys.now + elapsed
  {
    var begun := OwnSteps(home, Step(home, w, Deliver(m, token)), |w.workers|, 4);
    BeginsAs(home, w, m, token);
    ran := Step(home, begun, Tick(elapsed));
  }

  lemma IsTurnedAway(home: MessageId -> ConversationId, w: World, m: MessageId, token: nat, outcome: Outcome,
                     elapsed: nat)
    requires !Startable(w.keys, m, home(m))
    ensures var keys := HandleTask(w.keys, m, home(m), token, |w.workers|, outcome, elapsed).0;
            Leaves(w, Alone(home, w, m, token, outcome, elapsed), keys, m, false, false)
  {
    BeginsAs(home, w, m, token);
  }

  /** Left alone, a worker of the machine does what the handler does: the same keys at the
      end, and a completion is marked exactly when the task executed and completed. */
  lemma UninterruptedTask(home: MessageId -> ConversationId, w: World, m: MessageId, token: nat, outcome: Outcome,
                          elapsed: nat)
    ensures var (keys, _, executed) := HandleTask(w.keys, m, home(m), token, |w.workers|, outcome, elapsed);
            Leaves(w, Alone(home, w, m, token, outcome, elapsed), keys, m,
                   executed && outcome == Interrupted, executed && outcome == Completed)
  {
    if Startable(w.keys, m, home(m)) {
      RunsAlone(home, w, m, token, outcome, elapsed);
    } else {
      IsTurnedAway(home, w, m, token, outcome, elapsed);
    }
  }

  /** A transient error is returned to the queue so that it is delivered again, but
      the processing mark is left to run out: the retry executes exactly when it
      comes more than 130 seconds after the failed attempt began, and an earlier
      one is acknowledged without doing anything. */
  lemma TransientRetryExecutesIff(k: Keys, m: MessageId, c: ConversationId, token: nat, holder: nat, elapsed: nat,
                                  wait: nat, token': nat, holder': nat, outcome: Outcome, elapsed': nat)
    requires HandleTask(k, m, c, token, holder, Transient, elapsed).2
    ensures var k1 := HandleTask(k, m, c, token, holder, Transient, elapsed).0;
            var (_, reply, executed) := HandleTask(k1.(now := k1.now + wait), m, c, token', holder', outcome, elapsed');
            && (executed <==> elapsed + wait > 130_000)
            && (!executed ==> reply == Ack)
  {
  }

  /** A task redelivered while its agent is paused goes back to the queue until
      the lock runs out, and is then executed again from the start. */
  lemma InterruptedTaskRunsAgainIff(k: Keys, m: MessageId, c: ConversationId, token: nat, holder: nat, elapsed: nat,
                                    wait: nat, token': nat, holder': nat, outcome: Outcome, elapsed': nat)
    requires HandleTask(k, m, c, token, holder, Interrupted, elapsed).2
    ensures var k1 := HandleTask(k, m, c, token, holder, Interrupted, elapsed).0;
            var (_, reply, executed) := HandleTask(k1.(now := k1.now + wait), m, c, token', holder', outcome, elapsed');
            && (executed <==> elapsed + wait > 130_000)
            && (!executed ==> reply == LockHeld)
  {
  }

  /** After a completion, redeliveries are acknowledged without executing for 24 hours. */
  lemma CompletedTaskIsNotRepeated(k: Keys, m: MessageId, c: ConversationId, token: nat, holder: nat, elapsed: nat,
                                   wait: nat, token': nat, holder': nat, outcome: Outcome, elapsed': nat)
    requires HandleTask(k, m, c, token, holder, Completed, elapsed).2
    ensures var k1 := HandleTask(k, m, c, token, holder, Completed, elapsed).0;
            HandleTask(k1.(now := k1.now + wait), m, c, token', holder', outcome, elapsed').2
            <==> wait > 86_400_000
  {
  }
}
