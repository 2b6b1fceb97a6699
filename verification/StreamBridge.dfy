/** The stream bridge: a forwarding goroutine feeds a bounded channel, a throttle
    loop turns it into cumulative snapshots, and the executor rebroadcasts them.
    Every interleaving of forwarding, receiving, ticking and cancelling is a
    schedule of the machine below. */
module StreamBridge {
  import opened Option

  const CAPACITY: nat := 64

  // What the agent's iterator yields; the end of the sequence is its exhaustion.
  datatype Event =
    | Message(content: string)
    | Stream(chunks: seq<string>, broken: Option<string>)
    | ToolResult(content: string)
    | Failure(error: string)
    | Interrupted(question: string)

  datatype TextEvent = Text(text: string) | Done | Failed(error: string) | Interrupt(question: string)

  datatype Chunk = Content(text: string) | IsDone | Err(error: string)

  // --------------------------------------------------------------------
  // The forwarding goroutine
  // --------------------------------------------------------------------

  function Deltas(chunks: seq<string>): seq<TextEvent> {
    if chunks == [] then []
    else (if chunks[0] == "" then [] else [Text(chunks[0])]) + Deltas(chunks[1..])
  }

  // The goroutine of Bridge; an event that carries only an interrupt has no output for it.
  function Bridged(events: seq<Event>): seq<TextEvent>
    decreases |events|
  {
    if events == [] then [Done]
    else
      match events[0]
      case Message(content) => Deltas([content]) + Bridged(events[1..])
      case Stream(chunks, None) => Deltas(chunks) + Bridged(events[1..])
      case Stream(chunks, Some(error)) => Deltas(chunks) + [Failed(error)]
      case ToolResult(_) => Bridged(events[1..])
      case Failure(error) => [Failed(error)]
      case Interrupted(_) => Bridged(events[1..])
  }

  // The goroutine of BridgeWithInterrupt.
  function BridgedWithInterrupt(events: seq<Event>): seq<TextEvent>
    decreases |events|
  {
    if events == [] then [Done]
    else
      match events[0]
      case Failure(error) => [Failed(error)]
      case Interrupted(question) => [Interrupt(question)]
      case ToolResult(_) => BridgedWithInterrupt(events[1..])
      case Stream(chunks, None) => Deltas(chunks) + BridgedWithInterrupt(events[1..])
      case Stream(chunks, Some(error)) => Deltas(chunks) + [Failed(error)]
      case Message(content) => Deltas([content]) + BridgedWithInterrupt(events[1..])
  }

  // hitl says which of the two bridges runs.
  function Forward(events: seq<Event>, hitl: bool): seq<TextEvent> {
    if hitl then BridgedWithInterrupt(events) else Bridged(events)
  }

  function TextOf(es: seq<TextEvent>): string {
    if es == [] then "" else (if es[0].Text? then es[0].text else "") + TextOf(es[1..])
  }

  // Text deltas, none of them empty, and then one terminal event.
  ghost predicate WellFormed(es: seq<TextEvent>) {
    && |es| > 0 && !es[|es| - 1].Text?
    && forall i :: 0 <= i < |es| - 1 ==> es[i].Text? && es[i].text != ""
  }

  lemma {:induction false} DeltasAreText(chunks: seq<string>)
    ensures forall i :: 0 <= i < |Deltas(chunks)| ==> Deltas(chunks)[i].Text? && Deltas(chunks)[i].text != ""
    ensures TextOf(Deltas(chunks)) == Join(chunks)
  {
    if chunks != [] {
      DeltasAreText(chunks[1..]);
      var first := if chunks[0] == "" then [] else [Text(chunks[0])];
      TextOfAppend(first, Deltas(chunks[1..]));
    }
  }

  function Join(parts: seq<string>): string {
    if parts == [] then "" else parts[0] + Join(parts[1..])
  }

  // The visible text of a run: everything up to the first terminal event, tool results left out.
  function FullText(events: seq<Event>, hitl: bool): string
    decreases |events|
  {
    if events == [] then ""
    else
      match events[0]
      case Message(content) => content + FullText(events[1..], hitl)
      case Stream(chunks, None) => Join(chunks) + FullText(events[1..], hitl)
      case Stream(chunks, Some(_)) => Join(chunks)
      case ToolResult(_) => FullText(events[1..], hitl)
      case Failure(_) => ""
      case Interrupted(_) => if hitl then "" else FullText(events[1..], hitl)
  }

  lemma {:induction false} TextOfAppend(a: seq<TextEvent>, b: seq<TextEvent>)
    ensures TextOf(a + b) == TextOf(a) + TextOf(b)
  {
    if a == [] {
      assert a + b == b;
    } else {
      var head := if a[0].Text? then a[0].text else "";
      var x, y := TextOf(a[1..]), TextOf(b);
      assert TextOf(a + b) == head + (x + y) by {
        TextOfAppend(a[1..], b);
        assert (a + b)[0] == a[0] && (a + b)[1..] == a[1..] + b;
      }
      assert head + (x + y) == (head + x) + y;
    }
  }

  lemma DeltasFirst(chunks: seq<string>, rest: seq<TextEvent>)
    requires WellFormed(rest)
    ensures WellFormed(Deltas(chunks) + rest) && TextOf(Deltas(chunks) + rest) == Join(chunks) + TextOf(rest)
  {
    DeltasAreText(chunks);
    TextOfAppend(Deltas(chunks), rest);
  }

  lemma {:induction false} ForwardIsWellFormed(events: seq<Event>, hitl: bool)
    ensures WellFormed(Forward(events, hitl))
    ensures TextOf(Forward(events, hitl)) == FullText(events, hitl)
    decreases |events|
  {
    if events != [] {
      var rest := Forward(events[1..], hitl);
      ForwardIsWellFormed(events[1..], hitl);
      match events[0]
      case Message(content) =>
        DeltasFirst([content], rest);
        assert Join([content]) == content;
      case Stream(chunks, None) => DeltasFirst(chunks, rest);
      case Stream(chunks, Some(error)) => DeltasFirst(chunks, [Failed(error)]);
      case _ => assert [] + rest == rest;
    }
  }

  // The event after which nothing is forwarded any more.
  ghost predicate Stops(e: Event, hitl: bool) {
    || e.Failure? || (e.Stream? && e.broken != None) || (hitl && e.Interrupted?)
  }

  // What the receiver is told at the end.
  ghost predicate EndsWith(es: seq<TextEvent>, last: TextEvent) {
    es != [] && es[|es| - 1] == last
  }

  /** The terminal event is that of the first failure, or of the first interrupt where interrupts
      are forwarded, whichever comes first, and Done when there is neither. */
  lemma {:induction false} ForwardEndsWith(events: seq<Event>, hitl: bool, i: nat)
    requires i <= |events| && forall j :: 0 <= j < i ==> !Stops(events[j], hitl)
    ensures i == |events| ==> EndsWith(Forward(events, hitl), Done)
    ensures i < |events| && events[i].Failure? ==> EndsWith(Forward(events, hitl), Failed(events[i].error))
    ensures i < |events| && events[i].Stream? && events[i].broken != None ==>
              EndsWith(Forward(events, hitl), Failed(events[i].broken.value))
    ensures i < |events| && hitl && events[i].Interrupted? ==>
              EndsWith(Forward(events, hitl), Interrupt(events[i].question))
    decreases i
  {
    if i > 0 { ForwardEndsWith(events[1..], hitl, i - 1); }
  }

  predicate Fails(e: Event) {
    e.Failure? || (e.Stream? && e.broken.Some?)
  }

  // An interrupt comes before any failure.
  predicate Interrupts(events: seq<Event>)
    decreases |events|
  {
    events != [] && (events[0].Interrupted? || (!Fails(events[0]) && Interrupts(events[1..])))
  }

  lemma {:induction false} BridgeSendsNoInterrupt(events: seq<Event>)
    ensures forall e :: e in Bridged(events) ==> !e.Interrupt?
    decreases |events|
  {
    if events != [] {
      BridgeSendsNoInterrupt(events[1..]);
      if events[0].Message? { DeltasAreText([events[0].content]); }
      if events[0].Stream? { DeltasAreText(events[0].chunks); }
    }
  }

  lemma CancelPrefix(a: seq<TextEvent>, b: seq<TextEvent>, c: seq<TextEvent>)
    ensures a + b == a + c <==> b == c
  {
    if a + b == a + c { assert (a + b)[|a|..] == b && (a + c)[|a|..] == c; }
  }

  /** The two bridges forward, and hence emit, the same exactly when no interrupt is
      reached before a failure ends the stream. */
  lemma {:induction false} BridgesAgreeIff(events: seq<Event>)
    ensures Bridged(events) == BridgedWithInterrupt(events) <==> !Interrupts(events)
    decreases |events|
  {
    if events != [] {
      var plain, hitl := Bridged(events[1..]), BridgedWithInterrupt(events[1..]);
      BridgesAgreeIff(events[1..]);
      match events[0]
      case Message(content) => CancelPrefix(Deltas([content]), plain, hitl);
      case Stream(chunks, None) => CancelPrefix(Deltas(chunks), plain, hitl);
      case Interrupted(question) =>
        BridgeSendsNoInterrupt(events);
        assert BridgedWithInterrupt(events)[0].Interrupt?;
      case _ =>
    }
  }

  // --------------------------------------------------------------------
  // The throttle loop
  // --------------------------------------------------------------------

  datatype Signal = Tick | Received(event: TextEvent) | ChannelClosed | ContextDone

  datatype Loop = Loop(buffer: string, out: seq<Chunk>, interrupt: Option<string>, stopped: bool)

  const Fresh := Loop("", [], None, false)

  function Flushed(l: Loop): seq<Chunk> {
    if l.buffer == "" then l.out else l.out + [Content(l.buffer)]
  }

  function React(l: Loop, signal: Signal): Loop {
    if l.stopped then l
    else
      match signal
      case Tick => l.(out := Flushed(l))
      case Received(Text(text)) => l.(buffer := l.buffer + text)
      case Received(Done) => l.(out := Flushed(l) + [IsDone], stopped := true)
      case Received(Failed(error)) => l.(out := Flushed(l) + [Err(error)], stopped := true)
      case Received(Interrupt(question)) => l.(out := Flushed(l), interrupt := Some(question), stopped := true)
      case ChannelClosed => l.(out := Flushed(l) + [IsDone], stopped := true)
      case ContextDone => l.(out := Flushed(l), stopped := true)
  }

  /** Text is shown at ticks and at the end only: a tick shows all that was received so far,
      once more even when nothing is new, and an empty text never. */
  lemma OnlyTicksShow(l: Loop, signal: Signal)
    requires !l.stopped
    ensures var next := React(l, signal);
            && (signal == Tick ==> next == l.(out := if l.buffer == "" then l.out else l.out + [Content(l.buffer)]))
            && (signal.Received? && signal.event.Text? ==> next == l.(buffer := l.buffer + signal.event.text))
            && (next.stopped <==> signal == ChannelClosed || signal == ContextDone
                                  || (signal.Received? && !signal.event.Text?))
  {
  }

  function ReactAll(l: Loop, signals: seq<Signal>): Loop
    decreases |signals|
  {
    if signals == [] then l else ReactAll(React(l, signals[0]), signals[1..])
  }

  // --------------------------------------------------------------------
  // The machine
  // --------------------------------------------------------------------

  // todo: what the goroutine has still to forward; queue: the channel between the two.
  // committed: the goroutine has an event in hand and no longer looks at the context.
  datatype State = State(todo: seq<TextEvent>, queue: seq<TextEvent>, committed: bool, closed: bool, cancelled: bool,
                         loop: Loop)

  datatype Action =
    | Commit     // the goroutine chooses the iterator's event over the cancelled context
    | Produce    // it sends the event once the channel has room; after the terminal one it closes the channel
    | GiveUp     // the goroutine notices the cancelled context and closes the channel
    | Receive    // the loop takes an event, or finds the channel closed and empty
    | Throttle   // the ticker fires
    | Cancel     // the context is cancelled
    | Notice     // the loop notices it

  function Start(events: seq<Event>, hitl: bool): State {
    State(Forward(events, hitl), [], false, false, false, Fresh)
  }

  predicate Enabled(s: State, a: Action) {
    match a
    case Commit => s.todo != [] && !s.closed && !s.committed
    case Produce => s.committed && s.todo != [] && !s.closed && |s.queue| < CAPACITY
    case GiveUp => s.cancelled && !s.closed && !s.committed
    case Receive => !s.loop.stopped && (s.queue != [] || s.closed)
    case Throttle => !s.loop.stopped
    case Cancel => !s.cancelled
    case Notice => s.cancelled && !s.loop.stopped
  }

  function Step(s: State, a: Action): State {
    if !Enabled(s, a) then s
    else
      match a
      case Commit => s.(committed := true)
      case Produce =>
        s.(todo := s.todo[1..], queue := s.queue + [s.todo[0]], committed := false, closed := !s.todo[0].Text?)
      case GiveUp => s.(todo := [], closed := true)
      case Receive =>
        if s.queue != [] then s.(queue := s.queue[1..], loop := React(s.loop, Received(s.queue[0])))
        else s.(loop := React(s.loop, ChannelClosed))
      case Throttle => s.(loop := React(s.loop, Tick))
      case Cancel => s.(cancelled := true)
      case Notice => s.(loop := React(s.loop, ContextDone))
  }

  function Run(s: State, schedule: seq<Action>): State
    decreases |schedule|
  {
    if schedule == [] then s else Run(Step(s, schedule[0]), schedule[1..])
  }

  ghost predicate Prefix(a: string, b: string) {
    a <= b
  }

  // Snapshots grow, end inside the buffer, and are never empty.
  ghost predicate SnapshotsGrow(out: seq<Chunk>, buffer: string) {
    && (forall i :: 0 <= i < |out| && out[i].Content? ==> out[i].text != "" && Prefix(out[i].text, buffer))
    && (forall i, j :: 0 <= i < j < |out| && out[i].Content? && out[j].Content? ==> Prefix(out[i].text, out[j].text))
  }

  ghost predicate OnlySnapshots(out: seq<Chunk>) {
    forall i :: 0 <= i < |out| ==> out[i].Content?
  }

  // The loop ended on this event, having shown everything in its buffer first.
  ghost predicate EndedBy(l: Loop, last: TextEvent) {
    match last
    case Text(_) => false
    case Done => l.interrupt == None && EndsIn(l, [IsDone])
    case Failed(error) => l.interrupt == None && EndsIn(l, [Err(error)])
    case Interrupt(question) => l.interrupt == Some(question) && EndsIn(l, [])
  }

  // out is snapshots, the last one being the whole buffer, and then the given tail.
  ghost predicate EndsIn(l: Loop, tail: seq<Chunk>) {
    var n := |l.out| - |tail|;
    && n >= 0 && l.out[n..] == tail && OnlySnapshots(l.out[..n])
    && (l.buffer != "" ==> n > 0 && l.out[n - 1] == Content(l.buffer))
    && (l.buffer == "" ==> n == 0)
  }

  // What has been read, is in the channel and is still to come is the whole text.
  ghost predicate NothingLost(s: State, full: string) {
    s.loop.buffer + TextOf(s.queue) + TextOf(s.todo) == full
  }

  ghost predicate Pending(s: State) {
    && (s.closed <==> s.todo == [])
    && WellFormed(s.queue + s.todo)
  }

  ghost predicate LoopInv(l: Loop) {
    && SnapshotsGrow(l.out, l.buffer)
    && (!l.stopped ==> OnlySnapshots(l.out) && l.interrupt == None && (l.buffer == "" ==> l.out == []))
  }

  ghost predicate Inv(s: State, es: seq<TextEvent>) {
    && WellFormed(es)
    && LoopInv(s.loop)
    && Prefix(s.loop.buffer, TextOf(es))
    && (s.cancelled && !s.loop.stopped ==> Prefix(s.loop.buffer + TextOf(s.queue) + TextOf(s.todo), TextOf(es)))
    && (!s.cancelled ==> if s.loop.stopped then Complete(s.loop, es) && s.closed else Underway(s, es))
  }

  ghost predicate Underway(s: State, es: seq<TextEvent>) {
    && NothingLost(s, TextOf(es))
    && Pending(s)
    && Last(s.queue + s.todo) == Last(es)
  }

  ghost predicate Complete(l: Loop, es: seq<TextEvent>) {
    l.buffer == TextOf(es) && EndedBy(l, Last(es))
  }

  function Last(es: seq<TextEvent>): TextEvent {
    if es == [] then Done else es[|es| - 1]
  }

  lemma FlushKeepsGrowth(l: Loop)
    requires LoopInv(l) && !l.stopped
    ensures SnapshotsGrow(Flushed(l), l.buffer) && OnlySnapshots(Flushed(l))
    ensures l.buffer == "" ==> Flushed(l) == []
    ensures l.buffer != "" ==> |Flushed(l)| > 0 && Flushed(l)[|Flushed(l)| - 1] == Content(l.buffer)
  {
  }

  lemma StopShowsEverything(l: Loop, tail: seq<Chunk>, end: Loop)
    requires LoopInv(l) && !l.stopped && end.stopped && end.buffer == l.buffer && end.out == Flushed(l) + tail
    requires |tail| <= 1 && (|tail| == 1 ==> !tail[0].Content?)
    ensures LoopInv(end) && EndsIn(end, tail)
  {
    FlushKeepsGrowth(l);
    var n := |end.out| - |tail|;
    assert n == |Flushed(l)| && end.out[..n] == Flushed(l) && end.out[n..] == tail;
  }

  lemma TextKeepsLoopInv(l: Loop, text: string)
    requires LoopInv(l) && !l.stopped
    ensures LoopInv(React(l, Received(Text(text))))
  {
    var next := React(l, Received(Text(text)));
    forall i | 0 <= i < |l.out| && l.out[i].Content? ensures Prefix(l.out[i].text, next.buffer) {
      assert Prefix(l.out[i].text, l.buffer);
    }
  }

  lemma TerminalEnds(l: Loop, e: TextEvent)
    requires LoopInv(l) && !l.stopped && !e.Text?
    ensures LoopInv(React(l, Received(e))) && EndedBy(React(l, Received(e)), e)
  {
    var tail := match e case Failed(error) => [Err(error)] case Interrupt(_) => [] case _ => [IsDone];
    if tail == [] { assert Flushed(l) + [] == Flushed(l); }
    StopShowsEverything(l, tail, React(l, Received(e)));
  }

  /** Whatever the signal, snapshots keep growing, and a loop that stops has shown
      its whole buffer before at most one terminal chunk. */
  lemma ReactKeepsLoopInv(l: Loop, signal: Signal)
    requires LoopInv(l) && !l.stopped
    ensures LoopInv(React(l, signal))
    ensures signal == ChannelClosed ==> EndedBy(React(l, signal), Done)
    ensures signal == ContextDone ==> EndsIn(React(l, signal), [])
    ensures signal.Received? && !signal.event.Text? ==> EndedBy(React(l, signal), signal.event)
  {
    match signal
    case Tick => FlushKeepsGrowth(l);
    case ContextDone =>
      assert Flushed(l) + [] == Flushed(l);
      StopShowsEverything(l, [], React(l, signal));
    case ChannelClosed => TerminalEnds(l, Done);
    case Received(e) =>
      if e.Text? { TextKeepsLoopInv(l, e.text); } else { TerminalEnds(l, e); }
  }

  lemma ProduceKeepsInv(s: State, es: seq<TextEvent>)
    requires Inv(s, es) && Enabled(s, Produce)
    ensures Inv(Step(s, Produce), es)
  {
    var next := Step(s, Produce);
    assert next.queue + next.todo == s.queue + s.todo;
    TextOfAppend(s.queue, [s.todo[0]]);
    assert TextOf([s.todo[0]]) + TextOf(s.todo[1..]) == TextOf(s.todo);
    assert s.loop.buffer + TextOf(next.queue) + TextOf(next.todo) == s.loop.buffer + TextOf(s.queue) + TextOf(s.todo);
    if !s.cancelled {
      var all := s.queue + s.todo;
      assert all[|s.queue|] == s.todo[0];
      assert s.todo[1..] == [] <==> |s.queue| == |all| - 1;
    }
  }

  // Taking one event out of the channel moves its text to the buffer.
  lemma ReceiveMovesText(s: State)
    requires !s.loop.stopped && s.queue != []
    ensures var next := Step(s, Receive);
            next.loop.buffer + TextOf(next.queue) + TextOf(next.todo)
                == s.loop.buffer + TextOf(s.queue) + TextOf(s.todo)
  {
    var next, text := Step(s, Receive), if s.queue[0].Text? then s.queue[0].text else "";
    assert TextOf(s.queue) == text + TextOf(next.queue);
    assert next.loop.buffer == s.loop.buffer + text;
  }

  lemma TailKeepsWellFormed(all: seq<TextEvent>)
    requires WellFormed(all)
    ensures all[0].Text? ==> WellFormed(all[1..]) && Last(all[1..]) == Last(all)
    ensures !all[0].Text? ==> all == [all[0]]
  {
  }

  lemma ReceiveTextIsUnderway(s: State, es: seq<TextEvent>)
    requires Underway(s, es) && WellFormed(es) && !s.loop.stopped && s.queue != [] && s.queue[0].Text?
    ensures Underway(Step(s, Receive), es)
  {
    var next, all := Step(s, Receive), s.queue + s.todo;
    ReceiveMovesText(s);
    TailKeepsWellFormed(all);
    assert all[0] == s.queue[0] && all[1..] == next.queue + next.todo;
  }

  lemma ReceiveTextKeepsInv(s: State, es: seq<TextEvent>)
    requires Inv(s, es) && Enabled(s, Receive) && s.queue != [] && s.queue[0].Text?
    ensures Inv(Step(s, Receive), es)
  {
    ReactKeepsLoopInv(s.loop, Received(s.queue[0]));
    ReceiveMovesText(s);
    if !s.cancelled { ReceiveTextIsUnderway(s, es); }
  }

  lemma ReceiveTerminalKeepsInv(s: State, es: seq<TextEvent>)
    requires Inv(s, es) && Enabled(s, Receive) && s.queue != [] && !s.queue[0].Text?
    ensures Inv(Step(s, Receive), es)
  {
    ReactKeepsLoopInv(s.loop, Received(s.queue[0]));
    if !s.cancelled {
      var all := s.queue + s.todo;
      TailKeepsWellFormed(all);
      assert all[0] == s.queue[0] && |all| == |s.queue| + |s.todo|;
      assert s.todo == [] && s.queue == [s.queue[0]];
      assert TextOf(s.queue) == "" && s.loop.buffer + "" + "" == s.loop.buffer;
    }
  }

  lemma StepKeepsInv(s: State, es: seq<TextEvent>, a: Action)
    requires Inv(s, es)
    ensures Inv(Step(s, a), es)
  {
    if Enabled(s, a) {
      match a
      case Commit =>
      case Produce => ProduceKeepsInv(s, es);
      case GiveUp =>
        var read := s.loop.buffer + TextOf(s.queue);
        assert read + TextOf([]) <= read + TextOf(s.todo);
      case Receive =>
        if s.queue == [] {
          ReactKeepsLoopInv(s.loop, ChannelClosed);
        } else if s.queue[0].Text? {
          ReceiveTextKeepsInv(s, es);
        } else {
          ReceiveTerminalKeepsInv(s, es);
        }
      case Throttle => ReactKeepsLoopInv(s.loop, Tick);
      case Cancel =>
      case Notice => ReactKeepsLoopInv(s.loop, ContextDone);
    }
  }

  lemma {:induction false} RunKeepsInv(s: State, es: seq<TextEvent>, schedule: seq<Action>)
    requires Inv(s, es)
    ensures Inv(Run(s, schedule), es)
    decreases |schedule|
  {
    if schedule != [] {
      StepKeepsInv(s, es, schedule[0]);
      RunKeepsInv(Step(s, schedule[0]), es, schedule[1..]);
    }
  }

  lemma StartIsInv(events: seq<Event>, hitl: bool)
    ensures Inv(Start(events, hitl), Forward(events, hitl))
  {
    ForwardIsWellFormed(events, hitl);
    var es := Forward(events, hitl);
    assert [] + es == es && "" + "" + TextOf(es) == TextOf(es);
  }

  /** Under every schedule each snapshot is a non-empty prefix of the next and of
      the full text. */
  lemma SnapshotsAreCumulative(events: seq<Event>, hitl: bool, schedule: seq<Action>)
    ensures SnapshotsGrow(Run(Start(events, hitl), schedule).loop.out, FullText(events, hitl))
  {
    var es := Forward(events, hitl);
    ForwardIsWellFormed(events, hitl);
    StartIsInv(events, hitl);
    RunKeepsInv(Start(events, hitl), es, schedule);
    var l := Run(Start(events, hitl), schedule).loop;
    forall i | 0 <= i < |l.out| && l.out[i].Content? ensures Prefix(l.out[i].text, FullText(events, hitl)) {
      assert Prefix(l.out[i].text, l.buffer);
    }
  }

  // Neither process has seen a cancelled context.
  ghost predicate Unnoticed(schedule: seq<Action>) {
    GiveUp !in schedule && Notice !in schedule
  }

  function Quiet(s: State): State {
    s.(cancelled := false)
  }

  // A cancellation that nobody sees only sets the flag.
  lemma UnseenStepKeepsInv(s: State, es: seq<TextEvent>, a: Action)
    requires Inv(Quiet(s), es) && a != GiveUp && a != Notice
    ensures Inv(Quiet(Step(s, a)), es)
  {
    if a != Cancel {
      assert Quiet(Step(s, a)) == Step(Quiet(s), a);
      StepKeepsInv(Quiet(s), es, a);
    }
  }

  lemma {:induction false} UnnoticedRunKeepsInv(s: State, es: seq<TextEvent>, schedule: seq<Action>)
    requires Inv(Quiet(s), es) && Unnoticed(schedule)
    ensures Inv(Quiet(Run(s, schedule)), es)
    decreases |schedule|
  {
    if schedule != [] {
      UnseenStepKeepsInv(s, es, schedule[0]);
      UnnoticedRunKeepsInv(Step(s, schedule[0]), es, schedule[1..]);
    }
  }

  /** A run that has stopped without either process noticing a cancellation has
      emitted the full text and then exactly the one terminal signal of its last event. */
  lemma UnnoticedRunIsComplete(events: seq<Event>, hitl: bool, schedule: seq<Action>)
    requires Unnoticed(schedule) && Run(Start(events, hitl), schedule).loop.stopped
    ensures var l := Run(Start(events, hitl), schedule).loop;
            LoopInv(l) && l.buffer == FullText(events, hitl) && EndedBy(l, Last(Forward(events, hitl)))
  {
    ForwardIsWellFormed(events, hitl);
    StartIsInv(events, hitl);
    UnnoticedRunKeepsInv(Start(events, hitl), Forward(events, hitl), schedule);
  }

  /** A schedule without a cancellation cannot be noticed to have one: whatever the order of its
      steps, a loop that has stopped has shown the full text and the terminal signal. */
  lemma UncancelledRunIsComplete(events: seq<Event>, hitl: bool, schedule: seq<Action>)
    requires Cancel !in schedule && Run(Start(events, hitl), schedule).loop.stopped
    ensures var l := Run(Start(events, hitl), schedule).loop;
            l.buffer == FullText(events, hitl) && EndedBy(l, Last(Forward(events, hitl)))
  {
    ForwardIsWellFormed(events, hitl);
    StartIsInv(events, hitl);
    RunKeepsInv(Start(events, hitl), Forward(events, hitl), schedule);
    StaysUncancelled(Start(events, hitl), schedule);
  }

  lemma {:induction false} StaysUncancelled(s: State, schedule: seq<Action>)
    requires Cancel !in schedule && !s.cancelled
    ensures !Run(s, schedule).cancelled
    decreases |schedule|
  {
    if schedule != [] { StaysUncancelled(Step(s, schedule[0]), schedule[1..]); }
  }

  /** A cancellation can come at any time and does nothing by itself; while the loop runs, a tick
      shows everything received, and neither moves an event. */
  lemma FromOutside(s: State)
    ensures Step(s, Cancel) == s.(cancelled := true)
    ensures var t := Step(s, Throttle);
            && t == s.(loop := t.loop) && t.loop == s.loop.(out := t.loop.out)
            && t.loop.out == if s.loop.stopped || s.loop.buffer == "" then s.loop.out
                             else s.loop.out + [Content(s.loop.buffer)]
  {
  }

  // What the two processes have still to do; ticks and cancellations do not count.
  function Work(s: State): nat {
    3 * |s.todo| + |s.queue| + (if s.committed then 0 else 1) + (if s.loop.stopped then 0 else 1)
  }

  /** The two processes never block each other: until the loop has stopped one of
      them can move, and every move brings the end nearer. */
  lemma NeverStuck(s: State, es: seq<TextEvent>)
    requires Inv(s, es) && !s.loop.stopped && !s.cancelled
    ensures exists a :: (a == Commit || a == Produce || a == Receive) && Enabled(s, a)
    ensures forall a :: (a == Commit || a == Produce || a == Receive) && Enabled(s, a) ==> Work(Step(s, a)) < Work(s)
  {
    assert Enabled(s, Commit) || Enabled(s, Produce) || Enabled(s, Receive);
  }

  // --------------------------------------------------------------------
  // The goroutine after the loop has left
  // --------------------------------------------------------------------

  // The goroutine has an event in hand and no schedule lets it send it.
  ghost predicate BlockedForEver(s: State) {
    s.committed && s.todo != [] && !s.closed && forall schedule :: Run(s, schedule).todo == s.todo
  }

  lemma {:induction false} FullStaysFull(s: State, schedule: seq<Action>)
    requires s.loop.stopped && s.committed && !s.closed && |s.queue| >= CAPACITY
    ensures Run(s, schedule).todo == s.todo
    decreases |schedule|
  {
    if schedule != [] { FullStaysFull(Step(s, schedule[0]), schedule[1..]); }
  }

  lemma ProduceMoves(s: State)
    requires Enabled(s, Produce)
    ensures !BlockedForEver(s)
  {
    assert [Produce][1..] == [];
    assert Run(s, [Produce]) == Run(Step(s, Produce), []) == Step(s, Produce);
  }

  /** A goroutine about to send stays blocked for ever, and never closes its channel,
      exactly when the channel is full and the loop that reads it has left. */
  lemma BlockedForEverIff(s: State)
    requires s.committed && s.todo != [] && !s.closed && |s.queue| <= CAPACITY
    ensures BlockedForEver(s) <==> s.loop.stopped && |s.queue| == CAPACITY
  {
    if s.loop.stopped && |s.queue| == CAPACITY {
      forall schedule ensures Run(s, schedule).todo == s.todo { FullStaysFull(s, schedule); }
    } else if |s.queue| < CAPACITY {
      ProduceMoves(s);
    } else {
      var s1 := Step(s, Receive);
      assert [Receive, Produce][1..] == [Produce] && [Produce][1..] == [];
      assert Run(s, [Receive, Produce]) == Run(s1, [Produce]) == Run(Step(s1, Produce), []) == Step(s1, Produce);
      assert Run(s, [Receive, Produce]).todo == s.todo[1..];
    }
  }

  // The channel never holds more than its capacity, nor more than was to be forwarded.
  ghost predicate Bounded(s: State, n: nat) {
    |s.queue| <= CAPACITY && |s.queue| + |s.todo| <= n
  }

  lemma {:induction false} RunKeepsBounded(s: State, n: nat, schedule: seq<Action>)
    requires Bounded(s, n)
    ensures Bounded(Run(s, schedule), n)
    decreases |schedule|
  {
    if schedule != [] { RunKeepsBounded(Step(s, schedule[0]), n, schedule[1..]); }
  }

  // The loop has left after a cancellation while the goroutine is still sending.
  ghost predicate Abandoned(s: State) {
    s.loop.stopped && s.todo != [] && !s.closed && WellFormed(s.todo)
  }

  lemma SendOne(s: State)
    requires Abandoned(s) && !s.committed && |s.queue| < CAPACITY && |s.todo| > 1
    ensures var s' := Step(Step(s, Commit), Produce);
            Abandoned(s') && !s'.committed && |s'.queue| == |s.queue| + 1 && |s'.todo| == |s.todo| - 1
  {
    TailKeepsWellFormed(s.todo);
  }

  // With enough left to send, the abandoned goroutine can fill the channel and take one more event.
  lemma {:induction false} CanBlock(s: State) returns (schedule: seq<Action>)
    requires Abandoned(s) && !s.committed && |s.queue| <= CAPACITY && |s.queue| + |s.todo| > CAPACITY
    ensures BlockedForEver(Run(s, schedule))
    decreases CAPACITY - |s.queue|
  {
    var s1 := Step(s, Commit);
    if |s.queue| == CAPACITY {
      schedule := [Commit];
      assert Run(s, schedule) == Run(s1, []) by { assert schedule[1..] == []; }
      BlockedForEverIff(s1);
    } else {
      SendOne(s);
      var s2 := Step(s1, Produce);
      var rest := CanBlock(s2);
      schedule := [Commit, Produce] + rest;
      assert schedule[1..] == [Produce] + rest && schedule[1..][1..] == rest;
      assert Run(s, schedule) == Run(s1, schedule[1..]) == Run(s2, rest);
    }
  }

  lemma CanLeak(events: seq<Event>, hitl: bool) returns (schedule: seq<Action>)
    requires |Forward(events, hitl)| > CAPACITY
    ensures BlockedForEver(Run(Start(events, hitl), schedule))
  {
    var s := Start(events, hitl);
    var s1 := Step(s, Cancel);
    var s2 := Step(s1, Notice);
    ForwardIsWellFormed(events, hitl);
    var rest := CanBlock(s2);
    schedule := [Cancel, Notice] + rest;
    assert schedule[1..] == [Notice] + rest && schedule[1..][1..] == rest;
    assert Run(s, schedule) == Run(s1, schedule[1..]) == Run(s2, rest);
  }

  ghost predicate CanBlockForEver(s: State) {
    exists schedule :: BlockedForEver(Run(s, schedule))
  }

  /** A cancellation can leave the forwarding goroutine blocked on its channel for ever,
      exactly when there is more to forward than the channel holds. */
  lemma CanBlockForEverIff(events: seq<Event>, hitl: bool)
    ensures CanBlockForEver(Start(events, hitl)) <==> |Forward(events, hitl)| > 64
  {
    var start := Start(events, hitl);
    if |Forward(events, hitl)| > CAPACITY {
      var schedule := CanLeak(events, hitl);
      assert BlockedForEver(Run(start, schedule));
    } else {
      forall schedule ensures !BlockedForEver(Run(start, schedule)) {
        var s := Run(start, schedule);
        RunKeepsBounded(start, |Forward(events, hitl)|, schedule);
        if s.committed && s.todo != [] && !s.closed { BlockedForEverIff(s); }
      }
    }
  }

  // The loop reports a finished answer that is not the whole one, or that did not finish.
  ghost predicate LooksFinished(l: Loop, events: seq<Event>, hitl: bool) {
    && l.stopped && l.interrupt == None && l.out != [] && l.out[|l.out| - 1] == IsDone
    && (l.buffer != FullText(events, hitl) || Last(Forward(events, hitl)) != Done)
  }

  lemma CancelledAtOnce(events: seq<Event>, hitl: bool)
    ensures Run(Start(events, hitl), [Cancel] + [GiveUp] + [Receive]).loop == Loop("", [IsDone], None, true)
  {
    var s := Start(events, hitl);
    var s1 := Step(s, Cancel);
    var s2 := Step(s1, GiveUp);
    var schedule := [Cancel] + [GiveUp] + [Receive];
    assert schedule[1..] == [GiveUp, Receive] && [GiveUp, Receive][1..] == [Receive] && [Receive][1..] == [];
    assert Run(s, schedule) == Run(s1, [GiveUp, Receive]) == Run(s2, [Receive]) == Step(s2, Receive);
  }

  /** A cancellation can make a stream look like a finished answer, since the loop takes
      the channel that the goroutine closes for the end: some schedule does so
      exactly when there is text to lose or an end other than a finished one. */
  lemma CancelledRunCanLookFinishedIff(events: seq<Event>, hitl: bool)
    ensures (exists schedule :: LooksFinished(Run(Start(events, hitl), schedule).loop, events, hitl))
            <==> FullText(events, hitl) != "" || Last(Forward(events, hitl)) != Done
  {
    if FullText(events, hitl) != "" || Last(Forward(events, hitl)) != Done {
      CancelledAtOnce(events, hitl);
    } else {
      forall schedule ensures !LooksFinished(Run(Start(events, hitl), schedule).loop, events, hitl) {
        ForwardIsWellFormed(events, hitl);
        StartIsInv(events, hitl);
        RunKeepsInv(Start(events, hitl), Forward(events, hitl), schedule);
      }
    }
  }

  lemma {:induction false} StoppedLoopStays(s: State, schedule: seq<Action>)
    requires s.loop.stopped
    ensures Run(s, schedule).loop == s.loop
    decreases |schedule|
  {
    if schedule != [] { StoppedLoopStays(Step(s, schedule[0]), schedule[1..]); }
  }

  lemma {:induction false} WithoutGiveUp(s: State, es: seq<TextEvent>, schedule: seq<Action>)
    requires Inv(Quiet(s), es) && GiveUp !in schedule
    ensures var l := Run(s, schedule).loop; l.stopped ==> Complete(l, es) || OnlySnapshots(l.out)
    decreases |schedule|
  {
    if schedule != [] {
      if schedule[0] != Notice {
        UnseenStepKeepsInv(s, es, schedule[0]);
        WithoutGiveUp(Step(s, schedule[0]), es, schedule[1..]);
      } else if Enabled(s, Notice) {
        FlushKeepsGrowth(s.loop);
        StoppedLoopStays(Step(s, Notice), schedule[1..]);
      } else {
        WithoutGiveUp(s, es, schedule[1..]);
      }
    }
  }

  /** Only the goroutine's giving up does that: a cancellation that the loop notices
      itself ends the stream with the snapshots alone. */
  lemma LookingFinishedNeedsGiveUp(events: seq<Event>, hitl: bool, schedule: seq<Action>)
    ensures LooksFinished(Run(Start(events, hitl), schedule).loop, events, hitl) ==> GiveUp in schedule
  {
    ForwardIsWellFormed(events, hitl);
    StartIsInv(events, hitl);
    if GiveUp !in schedule {
      WithoutGiveUp(Start(events, hitl), Forward(events, hitl), schedule);
    }
  }

  // --------------------------------------------------------------------
  // The executor and the receiver
  // --------------------------------------------------------------------

  datatype Frame = Frame(text: string, isDone: bool)

  // The newest snapshot, and the frames broadcast for the snapshots.
  function Newest(chunks: seq<Chunk>): string {
    if chunks == [] then ""
    else
      var last := chunks[|chunks| - 1];
      if last.Content? && last.text != "" then last.text else Newest(chunks[..|chunks| - 1])
  }

  function Frames(chunks: seq<Chunk>): seq<Frame> {
    if chunks == [] then []
    else
      var rest, last := Frames(chunks[..|chunks| - 1]), chunks[|chunks| - 1];
      if last.Content? && last.text != "" then rest + [Frame(last.text, false)] else rest
  }

  /** No frame before the last is empty or marked done, and the newest text is that of the
      newest of them. */
  lemma {:induction false} FramesShowTheNewest(chunks: seq<Chunk>)
    ensures forall f :: f in Frames(chunks) ==> f.text != "" && !f.isDone
    ensures Newest(chunks) == if Frames(chunks) == [] then "" else Frames(chunks)[|Frames(chunks)| - 1].text
  {
    if chunks != [] { FramesShowTheNewest(chunks[..|chunks| - 1]); }
  }

  // The chunks the executor reads before it stops: up to the first terminal one.
  function Unread(chunks: seq<Chunk>): nat {
    if chunks == [] || !chunks[0].Content? then 0 else 1 + Unread(chunks[1..])
  }

  lemma {:induction false} UnreadIsFirstTerminal(chunks: seq<Chunk>, n: nat)
    requires n <= |chunks| && OnlySnapshots(chunks[..n]) && (n < |chunks| ==> !chunks[n].Content?)
    ensures Unread(chunks) == n
  {
    if n > 0 {
      assert chunks[..n][0] == chunks[0];
      assert chunks[1..][..n - 1] == chunks[..n][1..];
      UnreadIsFirstTerminal(chunks[1..], n - 1);
    }
  }

  // Every stream ends with one more frame that repeats the text so far, marked done.
  function Broadcasts(chunks: seq<Chunk>): seq<Frame> {
    var read := if Unread(chunks) <= |chunks| then chunks[..Unread(chunks)] else chunks;
    Frames(read) + [Frame(Newest(read), true)]
  }

  // The frames at these increasing positions arrive; the others are lost.
  ghost predicate Arrive(frames: seq<Frame>, kept: seq<nat>) {
    && (forall i :: 0 <= i < |kept| ==> kept[i] < |frames|)
    && (forall i, j :: 0 <= i < j < |kept| ==> kept[i] < kept[j])
  }

  ghost predicate FramesGrow(frames: seq<Frame>, text: string) {
    && (forall i :: 0 <= i < |frames| ==> Prefix(frames[i].text, text))
    && (forall i, j :: 0 <= i < j < |frames| ==> Prefix(frames[i].text, frames[j].text))
  }

  lemma {:induction false} FramesAreSnapshots(chunks: seq<Chunk>, buffer: string)
    requires SnapshotsGrow(chunks, buffer)
    ensures FramesGrow(Frames(chunks), buffer) && FramesGrow(Frames(chunks), Newest(chunks))
    ensures Frames(chunks) != [] ==> Frames(chunks)[|Frames(chunks)| - 1].text == Newest(chunks)
    ensures Frames(chunks) == [] ==> Newest(chunks) == ""
  {
    if chunks != [] {
      var n := |chunks| - 1;
      var front := chunks[..n];
      if chunks[n].Content? {
        forall i | 0 <= i < n && front[i].Content? ensures Prefix(front[i].text, chunks[n].text) {
          assert Prefix(chunks[i].text, chunks[n].text);
        }
        FramesAreSnapshots(front, chunks[n].text);
        forall f | f in Frames(front) ensures Prefix(f.text, buffer) {
          assert Prefix(f.text, chunks[n].text) && Prefix(chunks[n].text, buffer);
        }
      } else {
        FramesAreSnapshots(front, buffer);
      }
    }
  }

  lemma StoppedLoopIsRead(l: Loop, last: TextEvent)
    requires LoopInv(l) && EndedBy(l, last)
    ensures Unread(l.out) <= |l.out|
    ensures SnapshotsGrow(l.out[..Unread(l.out)], l.buffer) && Newest(l.out[..Unread(l.out)]) == l.buffer
  {
    var tail := if last.Interrupt? then 0 else 1;
    var n := |l.out| - tail;
    if tail == 1 { assert l.out[n] == l.out[n..][0]; }
    UnreadIsFirstTerminal(l.out, n);
  }

  lemma BroadcastsGrow(l: Loop, last: TextEvent)
    requires LoopInv(l) && EndedBy(l, last)
    ensures var frames := Broadcasts(l.out);
            && FramesGrow(frames, l.buffer)
            && frames[|frames| - 1] == Frame(l.buffer, true)
            && (|frames| > 1 ==> frames[|frames| - 2].text == l.buffer)
  {
    StoppedLoopIsRead(l, last);
    FramesAreSnapshots(l.out[..Unread(l.out)], l.buffer);
  }

  /** A receiver that keeps only the newest frame: whichever frames are lost on the
      way, what it shows only ever grows, and it ends with the full text once the
      final frame or the last snapshot has arrived. */
  lemma ReceiverEndsWithTheFullText(events: seq<Event>, hitl: bool, schedule: seq<Action>, kept: seq<nat>)
    requires Unnoticed(schedule) && Run(Start(events, hitl), schedule).loop.stopped
    requires Arrive(Broadcasts(Run(Start(events, hitl), schedule).loop.out), kept)
    ensures var frames := Broadcasts(Run(Start(events, hitl), schedule).loop.out);
            && frames[|frames| - 1] == Frame(FullText(events, hitl), true)
            && (forall i, j :: 0 <= i < j < |kept| ==> Prefix(frames[kept[i]].text, frames[kept[j]].text))
            && (|kept| > 0 && kept[|kept| - 1] >= |frames| - 2 ==>
                frames[kept[|kept| - 1]].text == FullText(events, hitl))
  {
    var l := Run(Start(events, hitl), schedule).loop;
    UnnoticedRunIsComplete(events, hitl, schedule);
    BroadcastsGrow(l, Last(Forward(events, hitl)));
  }

  // --------------------------------------------------------------------
  // The loops as written
  // --------------------------------------------------------------------

  lemma Associates(a: seq<TextEvent>, b: seq<TextEvent>, c: seq<TextEvent>)
    ensures a + (b + c) == a + b + c
  {
  }

  lemma NextChunk(texts: seq<TextEvent>, chunks: seq<string>, j: nat)
    requires j < |chunks|
    ensures var sent := if chunks[j] == "" then texts else texts + [Text(chunks[j])];
            texts + Deltas(chunks[j..]) == sent + Deltas(chunks[j + 1..])
  {
    var first, rest := if chunks[j] == "" then [] else [Text(chunks[j])], Deltas(chunks[j + 1..]);
    assert Deltas(chunks[j..]) == first + rest by { assert chunks[j..][1..] == chunks[j + 1..]; }
    Associates(texts, first, rest);
    assert texts + [] == texts;
  }

  method ForwardChunks(chunks: seq<string>) returns (texts: seq<TextEvent>)
    ensures texts == Deltas(chunks)
  {
    texts := [];
    for j := 0 to |chunks|
      invariant texts + Deltas(chunks[j..]) == Deltas(chunks)
    {
      NextChunk(texts, chunks, j);
      if chunks[j] != "" { texts := texts + [Text(chunks[j])]; }
    }
  }

  // The goroutine of Bridge.
  method ForwardEvents(events: seq<Event>) returns (textCh: seq<TextEvent>)
    ensures textCh == Bridged(events)
  {
    textCh := [];
    for i := 0 to |events|
      invariant textCh + Bridged(events[i..]) == Bridged(events)
    {
      ghost var rest := Bridged(events[i + 1..]);
      assert events[i..][1..] == events[i + 1..];
      match events[i] {
        case Failure(error) => return textCh + [Failed(error)];
        case ToolResult(_) => continue;
        case Interrupted(_) => continue;
        case Message(content) =>
          var texts := ForwardChunks([content]);
          Associates(textCh, texts, rest);
          textCh := textCh + texts;
        case Stream(chunks, broken) =>
          var texts := ForwardChunks(chunks);
          if broken.Some? {
            Associates(textCh, texts, [Failed(broken.value)]);
            return textCh + texts + [Failed(broken.value)];
          }
          Associates(textCh, texts, rest);
          textCh := textCh + texts;
      }
    }
    textCh := textCh + [Done];
  }

  // The goroutine of BridgeWithInterrupt.
  method ForwardEventsOrInterrupt(events: seq<Event>) returns (textCh: seq<TextEvent>)
    ensures textCh == BridgedWithInterrupt(events)
  {
    textCh := [];
    for i := 0 to |events|
      invariant textCh + BridgedWithInterrupt(events[i..]) == BridgedWithInterrupt(events)
    {
      ghost var rest := BridgedWithInterrupt(events[i + 1..]);
      assert events[i..][1..] == events[i + 1..];
      match events[i] {
        case Failure(error) => return textCh + [Failed(error)];
        case Interrupted(question) => return textCh + [Interrupt(question)];
        case ToolResult(_) => continue;
        case Message(content) =>
          var texts := ForwardChunks([content]);
          Associates(textCh, texts, rest);
          textCh := textCh + texts;
        case Stream(chunks, broken) =>
          var texts := ForwardChunks(chunks);
          if broken.Some? {
            Associates(textCh, texts, [Failed(broken.value)]);
            return textCh + texts + [Failed(broken.value)];
          }
          Associates(textCh, texts, rest);
          textCh := textCh + texts;
      }
    }
    textCh := textCh + [Done];
  }

  class Bridge {
    var buffer: string
    var out: seq<Chunk>
    var interrupt: Option<string>

    constructor ()
      ensures buffer == "" && out == [] && interrupt == None
    {
      buffer, out, interrupt := "", [], None;
    }

    method Flush()
      modifies this
      ensures buffer == old(buffer) && interrupt == old(interrupt)
      ensures out == Flushed(Loop(buffer, old(out), interrupt, false))
    {
      if |buffer| > 0 { out := out + [Content(buffer)]; }
    }

    // The select loop; it leaves at the first terminal signal.
    method Consume(signals: seq<Signal>) returns (stopped: bool)
      modifies this
      ensures Loop(buffer, out, interrupt, stopped) == ReactAll(old(Loop(buffer, out, interrupt, false)), signals)
    {
      ghost var start := Loop(buffer, out, interrupt, false);
      for i := 0 to |signals|
        invariant ReactAll(Loop(buffer, out, interrupt, false), signals[i..]) == ReactAll(start, signals)
      {
        assert signals[i..][1..] == signals[i + 1..];
        match signals[i] {
          case Tick => Flush();
          case ContextDone =>
            Flush();
            StoppedStays(Loop(buffer, out, interrupt, true), signals[i + 1..]);
            return true;
          case ChannelClosed =>
            Flush();
            out := out + [IsDone];
            StoppedStays(Loop(buffer, out, interrupt, true), signals[i + 1..]);
            return true;
          case Received(event) =>
            if event.Text? {
              buffer := buffer + event.text;
            } else {
              Flush();
              if event.Interrupt? { interrupt := Some(event.question); }
              else if event.Failed? { out := out + [Err(event.error)]; }
              else { out := out + [IsDone]; }
              StoppedStays(Loop(buffer, out, interrupt, true), signals[i + 1..]);
              return true;
            }
        }
      }
      return false;
    }
  }

  lemma {:induction false} StoppedStays(l: Loop, signals: seq<Signal>)
    requires l.stopped
    ensures ReactAll(l, signals) == l
    decreases |signals|
  {
    if signals != [] { StoppedStays(l, signals[1..]); }
  }

  lemma ReadUpTo(chunks: seq<Chunk>, n: nat)
    requires n <= |chunks| && OnlySnapshots(chunks[..n]) && (n < |chunks| ==> !chunks[n].Content?)
    ensures Unread(chunks) == n && Broadcasts(chunks) == Frames(chunks[..n]) + [Frame(Newest(chunks[..n]), true)]
  {
    UnreadIsFirstTerminal(chunks, n);
  }

  // The executor's loop over the chunks, with the final frame every exit sends.
  method ConsumeChunks(chunks: seq<Chunk>) returns (frames: seq<Frame>, fullResponse: string, error: Option<string>)
    ensures frames == Broadcasts(chunks)
    ensures Unread(chunks) <= |chunks| && fullResponse == Newest(chunks[..Unread(chunks)])
    ensures error == if Unread(chunks) < |chunks| && chunks[Unread(chunks)].Err?
                     then Some(chunks[Unread(chunks)].error) else None
  {
    frames, fullResponse, error := [], "", None;
    var i := 0;
    while i < |chunks| && chunks[i].Content?
      invariant 0 <= i <= |chunks| && OnlySnapshots(chunks[..i])
      invariant frames == Frames(chunks[..i]) && fullResponse == Newest(chunks[..i])
    {
      assert chunks[..i + 1][..i] == chunks[..i];
      if chunks[i].text != "" {
        frames := frames + [Frame(chunks[i].text, false)];
        fullResponse := chunks[i].text;
      }
      i := i + 1;
    }
    ReadUpTo(chunks, i);
    if i < |chunks| && chunks[i].Err? { error := Some(chunks[i].error); }
    frames := frames + [Frame(fullResponse, true)];
  }
}
