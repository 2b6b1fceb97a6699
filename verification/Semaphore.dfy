/** The execution semaphore: a channel of tokens, with counters that are updated
    after the channel operation and not together with it. */
module Semaphore {
  // One caller's place in Acquire or Release.
  datatype Phase =
    | Idle
    | Sent       // token in the channel, active not yet incremented
    | Counted    // active incremented, totalAcq not yet
    | Holding
    | Received   // token taken out, active not yet decremented

  datatype Shared = Shared(tokens: nat, active: int, peak: int, totalAcq: int)

  // sends counts the tokens ever put into the channel.
  datatype State = State(capacity: int, shared: Shared, phases: seq<Phase>, sends: nat)

  datatype Action = Send(p: nat) | Increment(p: nat) | Tally(p: nat) | Receive(p: nat) | Decrement(p: nat)

  function Sending(s: Shared): Shared {
    s.(tokens := s.tokens + 1)
  }

  function Incremented(s: Shared): Shared {
    s.(active := s.active + 1, peak := if s.active + 1 > s.peak then s.active + 1 else s.peak)
  }

  function Tallied(s: Shared): Shared {
    s.(totalAcq := s.totalAcq + 1)
  }

  function Receiving(s: Shared): Shared
    requires s.tokens > 0
  {
    s.(tokens := s.tokens - 1)
  }

  function Decremented(s: Shared): Shared {
    s.(active := s.active - 1)
  }

  function Moved(s: State, p: nat, to: Phase, shared: Shared): State
    requires p < |s.phases|
  {
    s.(shared := shared, phases := s.phases[p := to])
  }

  // A step that is not possible leaves the state alone: the caller waits.
  function Step(s: State, a: Action): State {
    if a.p >= |s.phases| then s
    else
      var at := s.phases[a.p];
      match a
      case Send(p) =>
        if at != Idle then s
        else if s.capacity <= 0 then Moved(s, p, Holding, s.shared)
        else if s.shared.tokens >= s.capacity then s
        else Moved(s, p, Sent, Sending(s.shared)).(sends := s.sends + 1)
      case Increment(p) => if at == Sent then Moved(s, p, Counted, Incremented(s.shared)) else s
      case Tally(p) => if at == Counted then Moved(s, p, Holding, Tallied(s.shared)) else s
      case Receive(p) =>
        if at != Holding then s
        else if s.capacity <= 0 then Moved(s, p, Idle, s.shared)
        else if s.shared.tokens == 0 then s
        else Moved(s, p, Received, Receiving(s.shared))
      case Decrement(p) => if at == Received then Moved(s, p, Idle, Decremented(s.shared)) else s
  }

  /** A semaphore without a capacity lets everybody through at once and counts nobody. */
  lemma UnlimitedNeverWaits(s: State, p: nat)
    requires s.capacity <= 0 && p < |s.phases|
    ensures s.phases[p] == Idle ==> Step(s, Send(p)) == s.(phases := s.phases[p := Holding])
    ensures s.phases[p] == Holding ==> Step(s, Receive(p)) == s.(phases := s.phases[p := Idle])
  {
  }

  function Run(s: State, actions: seq<Action>): State
    decreases |actions|
  {
    if actions == [] then s else Run(Step(s, actions[0]), actions[1..])
  }

  function Start(capacity: int, callers: nat): State {
    State(capacity, Shared(0, 0, 0, 0), seq(callers, _ => Idle), 0)
  }

  function Count(phases: seq<Phase>, ph: Phase): nat {
    if phases == [] then 0 else (if phases[0] == ph then 1 else 0) + Count(phases[1..], ph)
  }

  lemma {:induction false} CountMoves(phases: seq<Phase>, p: nat, to: Phase, ph: Phase)
    requires p < |phases|
    ensures Count(phases[p := to], ph)
            == Count(phases, ph) - (if phases[p] == ph then 1 else 0) + (if to == ph then 1 else 0)
  {
    if p == 0 {
      assert phases[0 := to][1..] == phases[1..];
    } else {
      CountMoves(phases[1..], p - 1, to, ph);
      assert phases[p := to][1..] == phases[1..][p - 1 := to];
    }
  }

  lemma {:induction false} CountIsPositive(phases: seq<Phase>, p: nat)
    requires p < |phases|
    ensures Count(phases, phases[p]) > 0
  {
    if p > 0 {
      CountIsPositive(phases[1..], p - 1);
    }
  }

  lemma {:induction false} NobodyYet(callers: nat, ph: Phase)
    ensures Count(seq(callers, _ => Idle), ph) == if ph == Idle then callers else 0
  {
    if callers > 0 {
      NobodyYet(callers - 1, ph);
      assert seq(callers, _ => Idle)[1..] == seq(callers - 1, _ => Idle);
    }
  }

  // Callers whose Acquire has put its token in and whose Release has not taken it out.
  function Holders(s: State): nat {
    Count(s.phases, Sent) + Count(s.phases, Counted) + Count(s.phases, Holding)
  }

  ghost predicate Inv(s: State) {
    && s.capacity > 0
    && s.shared.tokens == Holders(s) <= s.capacity
    && s.shared.active == s.shared.tokens - Count(s.phases, Sent) + Count(s.phases, Received)
    && s.shared.active <= s.shared.peak
    && s.shared.totalAcq == s.sends - Count(s.phases, Sent) - Count(s.phases, Counted)
  }

  lemma StepKeepsInv(s: State, a: Action)
    requires Inv(s)
    ensures Inv(Step(s, a))
    ensures s.shared.peak <= Step(s, a).shared.peak
  {
    var next := Step(s, a);
    if next != s {
      CountMoves(s.phases, a.p, next.phases[a.p], Sent);
      CountMoves(s.phases, a.p, next.phases[a.p], Counted);
      CountMoves(s.phases, a.p, next.phases[a.p], Holding);
      CountMoves(s.phases, a.p, next.phases[a.p], Received);
    }
  }

  /** In every interleaving the holders never exceed the capacity, and active is the
      tokens in the channel minus the acquirers that have not yet incremented plus
      the releasers that have not yet decremented. */
  lemma {:induction false} HoldersNeverExceedCapacity(s: State, actions: seq<Action>)
    requires Inv(s)
    ensures Inv(Run(s, actions)) && s.shared.peak <= Run(s, actions).shared.peak
    decreases |actions|
  {
    if actions != [] {
      StepKeepsInv(s, actions[0]);
      HoldersNeverExceedCapacity(Step(s, actions[0]), actions[1..]);
    }
  }

  lemma RunsFromStart(capacity: int, callers: nat, actions: seq<Action>)
    requires capacity > 0
    ensures Inv(Run(Start(capacity, callers), actions))
  {
    NobodyYet(callers, Sent);
    NobodyYet(callers, Counted);
    NobodyYet(callers, Holding);
    NobodyYet(callers, Received);
    HoldersNeverExceedCapacity(Start(capacity, callers), actions);
  }

  // Nobody is between a channel operation and its counters.
  ghost predicate AtRest(s: State) {
    forall p :: 0 <= p < |s.phases| ==> s.phases[p] == Idle || s.phases[p] == Holding
  }

  lemma {:induction false} RestCounts(phases: seq<Phase>)
    requires forall p :: 0 <= p < |phases| ==> phases[p] == Idle || phases[p] == Holding
    ensures Count(phases, Sent) == 0 && Count(phases, Counted) == 0 && Count(phases, Received) == 0
  {
    if phases != [] { RestCounts(phases[1..]); }
  }

  /** At rest the counters are exact. */
  lemma ExactAtRest(s: State)
    requires Inv(s) && AtRest(s)
    ensures s.shared.active == s.shared.tokens == Holders(s) == Count(s.phases, Holding)
    ensures s.shared.totalAcq == s.sends && s.shared.active <= s.capacity
  {
    RestCounts(s.phases);
  }

  /** A release by a holder never waits. */
  lemma ReleaseNeverBlocks(s: State, p: nat)
    requires Inv(s) && p < |s.phases| && s.phases[p] == Holding
    ensures Step(s, Receive(p)).phases[p] == Received
  {
    CountIsPositive(s.phases, p);
  }

  lemma {:induction false} RunJoins(s: State, a: seq<Action>, b: seq<Action>)
    ensures Run(s, a + b) == Run(Run(s, a), b)
    decreases |a|
  {
    if a == [] {
      assert a + b == b;
    } else {
      assert (a + b)[1..] == a[1..] + b;
      RunJoins(Step(s, a[0]), a[1..], b);
    }
  }

  // --------------------------------------------------------------------
  // The peak may exceed the capacity
  // --------------------------------------------------------------------

  lemma {:induction false} CountedAtMostAll(phases: seq<Phase>)
    ensures Count(phases, Counted) + Count(phases, Holding) + Count(phases, Received) <= |phases|
  {
    if phases != [] { CountedAtMostAll(phases[1..]); }
  }

  lemma {:induction false} PeakIsAtMostCallers(s: State, actions: seq<Action>)
    requires Inv(s) && s.shared.peak <= |s.phases|
    ensures Run(s, actions).shared.peak <= |s.phases| == |Run(s, actions).phases|
    decreases |actions|
  {
    if actions != [] {
      var next := Step(s, actions[0]);
      StepKeepsInv(s, actions[0]);
      CountedAtMostAll(next.phases);
      PeakIsAtMostCallers(next, actions[1..]);
    }
  }

  // The first n callers hold a slot, with their counters up to date.
  function Filled(capacity: int, callers: nat, n: nat): State {
    State(capacity, Shared(n, n, n, n), seq(callers, i => if i < n then Holding else Idle), n)
  }

  // One caller goes through the three steps of Acquire.
  lemma AcquireSteps(s: State, p: nat)
    requires p < |s.phases| && s.phases[p] == Idle && 0 <= s.shared.tokens < s.capacity
    ensures Run(s, [Send(p)] + [Increment(p)] + [Tally(p)])
            == Moved(s, p, Holding, Tallied(Incremented(Sending(s.shared)))).(sends := s.sends + 1)
  {
    RunJoins(s, [Send(p)], [Increment(p)]);
    RunJoins(s, [Send(p)] + [Increment(p)], [Tally(p)]);
  }

  function Filling(n: nat): seq<Action> {
    if n == 0 then [] else Filling(n - 1) + ([Send(n - 1)] + [Increment(n - 1)] + [Tally(n - 1)])
  }

  lemma {:induction false} FillingFills(capacity: int, callers: nat, n: nat)
    requires n <= capacity && n <= callers
    ensures Run(Start(capacity, callers), Filling(n)) == Filled(capacity, callers, n)
    decreases n
  {
    if n == 0 {
      assert Start(capacity, callers).phases == Filled(capacity, callers, 0).phases;
    } else {
      var s, p := Filled(capacity, callers, n - 1), n - 1;
      FillingFills(capacity, callers, n - 1);
      AcquireSteps(s, p);
      RunJoins(Start(capacity, callers), Filling(n - 1), [Send(p)] + [Increment(p)] + [Tally(p)]);
      assert s.phases[p := Holding] == Filled(capacity, callers, n).phases;
    }
  }

  // With every slot held, a holder receives and one more caller is counted before it decrements.
  lemma OneTooManyIsCounted(capacity: int, callers: nat)
    requires 0 < capacity < callers
    ensures Run(Filled(capacity, callers, capacity),
                [Receive(0)] + [Send(capacity)] + [Increment(capacity)]).shared.peak == capacity + 1
  {
    var s := Filled(capacity, callers, capacity);
    RunJoins(s, [Receive(0)], [Send(capacity)]);
    RunJoins(s, [Receive(0)] + [Send(capacity)], [Increment(capacity)]);
  }

  /** Some run shows a peak above the capacity exactly when there are more callers than
      slots; the holders themselves never exceed it. */
  lemma PeakCanExceedCapacityIff(capacity: int, callers: nat)
    requires capacity > 0
    ensures (exists actions :: Run(Start(capacity, callers), actions).shared.peak > capacity) <==> callers > capacity
  {
    if callers > capacity {
      var last := [Receive(0)] + [Send(capacity)] + [Increment(capacity)];
      FillingFills(capacity, callers, capacity);
      OneTooManyIsCounted(capacity, callers);
      RunJoins(Start(capacity, callers), Filling(capacity), last);
      assert Run(Start(capacity, callers), Filling(capacity) + last).shared.peak > capacity;
    } else {
      RunsFromStart(capacity, callers, []);
      forall actions ensures Run(Start(capacity, callers), actions).shared.peak <= capacity {
        PeakIsAtMostCallers(Start(capacity, callers), actions);
      }
    }
  }

  /** A peak above the capacity stays for ever. */
  lemma PeakStaysAbove(s: State, later: seq<Action>)
    requires Inv(s) && s.shared.peak > s.capacity
    ensures Run(s, later).shared.peak > s.capacity
  {
    HoldersNeverExceedCapacity(s, later);
  }

  datatype Outcome = Acquired | Cancelled | Waiting

  class Semaphore {
    const capacity: int
    var tokens: nat      // len(ch)
    var active: int
    var peak: int
    var totalAcq: int

    constructor (capacity: int)
      ensures this.capacity == (if capacity <= 0 then 0 else capacity) && State() == Shared(0, 0, 0, 0)
    {
      this.capacity := if capacity <= 0 then 0 else capacity;
      tokens, active, peak, totalAcq := 0, 0, 0, 0;
    }

    function State(): Shared
      reads this
    {
      Shared(tokens, active, peak, totalAcq)
    }

    // With a free slot and a cancelled context either branch of the select may be taken.
    method Acquire(cancelled: bool, preferCancel: bool) returns (outcome: Outcome)
      modifies this
      ensures capacity <= 0 ==> outcome == Acquired && State() == old(State())
      ensures capacity > 0 ==>
                (outcome == Acquired <==> old(tokens) < capacity && !(cancelled && preferCancel))
      ensures capacity > 0 && outcome == Acquired ==> State() == Tallied(Incremented(Sending(old(State()))))
      ensures outcome != Acquired ==> State() == old(State()) && (outcome == Cancelled <==> cancelled)
    {
      if capacity <= 0 { return Acquired; }
      if cancelled && (preferCancel || tokens >= capacity) { return Cancelled; }
      if tokens >= capacity { return Waiting; }
      tokens := tokens + 1;
      active := active + 1;
      if active > peak { peak := active; }
      totalAcq := totalAcq + 1;
      return Acquired;
    }

    method Release() returns (outcome: Outcome)
      modifies this
      ensures capacity <= 0 ==> outcome == Acquired && State() == old(State())
      ensures capacity > 0 ==> (outcome == Waiting <==> old(tokens) == 0)
      ensures capacity > 0 ==>
                State() == if old(tokens) == 0 then old(State()) else Decremented(Receiving(old(State())))
    {
      if capacity <= 0 { return Acquired; }
      if tokens == 0 { return Waiting; }
      tokens := tokens - 1;
      active := active - 1;
      return Acquired;
    }
  }
}
