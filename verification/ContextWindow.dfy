/** The agent's context window: a bounded fetch of the newest messages, reversed
    in place, trimmed by tokens or by count, and cached per conversation. */
module ContextWindow {
  // Rows of one conversation in message_id order.
  datatype Message = Message(messageId: nat, content: seq<bv8>, kind: string, summarized: bool, deleted: bool)

  datatype Config = Config(maxTokens: int, maxMessages: int)

  type Counter = Message -> nat

  const STORE_LIMIT: nat := 500

  // The default counter: the byte length divided by four.
  function HeuristicTokens(m: Message): nat {
    |m.content| / 4
  }

  predicate Eligible(m: Message) {
    !m.deleted && (!m.summarized || m.kind == "summary")
  }

  function History(rows: seq<Message>): seq<Message> {
    if rows == [] then []
    else
      var rest, last := History(rows[..|rows| - 1]), rows[|rows| - 1];
      if Eligible(last) then rest + [last] else rest
  }

  function Recent(h: seq<Message>, n: nat): seq<Message> {
    if |h| <= n then h else h[|h| - n..]
  }

  function MaxInt(a: int, b: int): int {
    if a > b then a else b
  }

  function FetchLimit(c: Config): nat {
    var byMessages := if c.maxMessages > 0 then MaxInt(c.maxMessages * 2, 100) else 100;
    var byTokens := if c.maxTokens > 0 then MaxInt(c.maxTokens / 200 * 2, byMessages) else byMessages;
    if byTokens > STORE_LIMIT then STORE_LIMIT else byTokens
  }

  function Sum(count: Counter, ms: seq<Message>): nat {
    if ms == [] then 0 else count(ms[0]) + Sum(count, ms[1..])
  }

  // The least k for which ms[k..] fits.
  function Cutoff(count: Counter, ms: seq<Message>, max: nat): nat {
    if Sum(count, ms) <= max then 0 else 1 + Cutoff(count, ms[1..], max)
  }

  function TrimByTokens(count: Counter, ms: seq<Message>, max: nat): seq<Message> {
    var k := Cutoff(count, ms, max);
    if k < |ms| then ms[k..] else if ms == [] then [] else ms[|ms| - 1..]
  }

  function TrimByMessages(ms: seq<Message>, max: int): seq<Message> {
    if max <= 0 || |ms| <= max then ms else ms[|ms| - max..]
  }

  function Trim(count: Counter, ms: seq<Message>, c: Config): seq<Message> {
    if c.maxTokens > 0 then TrimByTokens(count, ms, c.maxTokens)
    else if c.maxMessages > 0 then TrimByMessages(ms, c.maxMessages)
    else ms
  }

  // What the context manager computes.
  function Window(count: Counter, h: seq<Message>, c: Config): seq<Message> {
    Trim(count, Recent(h, FetchLimit(c)), c)
  }

  // The undeleted messages that are not summarized, or are a summary, in order.
  ghost predicate TakenAt(h: seq<Message>, rows: seq<Message>, at: seq<nat>) {
    && |at| == |h| && (forall i, j :: 0 <= i < j < |at| ==> at[i] < at[j])
    && (forall i :: 0 <= i < |at| ==> at[i] < |rows| && h[i] == rows[at[i]])
    && forall i: nat :: i in at <==> IsTaken(rows, i)
  }

  ghost predicate IsTaken(rows: seq<Message>, i: nat) {
    i < |rows| && !rows[i].deleted && (!rows[i].summarized || rows[i].kind == "summary")
  }

  lemma LastIsTaken(front: seq<Message>, rows: seq<Message>, at: seq<nat>)
    requires rows != [] && TakenAt(front, rows[..|rows| - 1], at)
    ensures var n := |rows| - 1;
            if IsTaken(rows, n) then TakenAt(front + [rows[n]], rows, at + [n]) else TakenAt(front, rows, at)
  {
    var n := |rows| - 1;
    forall i: nat ensures IsTaken(rows, i) <==> IsTaken(rows[..n], i) || (i == n && IsTaken(rows, n)) {
    }
  }

  /** The history that a window is taken of: these messages, each once, oldest first. */
  lemma {:induction false} HistoryIs(rows: seq<Message>) returns (at: seq<nat>)
    ensures TakenAt(History(rows), rows, at)
  {
    if rows == [] {
      at := [];
    } else {
      var n := |rows| - 1;
      at := HistoryIs(rows[..n]);
      LastIsTaken(History(rows[..n]), rows, at);
      if Eligible(rows[n]) { at := at + [n]; }
    }
  }

  /** At most 500 messages are fetched, and otherwise at least 100, twice the message limit
      and two for every 200 tokens, and no more than one of these asks for. */
  lemma FetchLimitIs(c: Config)
    ensures var n := FetchLimit(c);
            && 100 <= n <= 500
            && (n == 500 || (n >= 2 * c.maxMessages && n >= 2 * (c.maxTokens / 200)))
            && (n == 100 || n <= 2 * c.maxMessages || n <= 2 * (c.maxTokens / 200))
  {
  }

  lemma {:induction false} SumDrops(count: Counter, ms: seq<Message>, i: nat, j: nat)
    requires i <= j <= |ms|
    ensures Sum(count, ms[j..]) <= Sum(count, ms[i..])
    decreases j - i
  {
    if i < j {
      SumDrops(count, ms, i + 1, j);
      assert ms[i..][1..] == ms[i + 1..];
    }
  }

  /** A suffix fits exactly when it starts at the cutoff or later: the cutoff
      suffix is the longest that fits. */
  lemma {:induction false} CutoffIsLongest(count: Counter, ms: seq<Message>, max: nat, k: nat)
    requires k <= |ms|
    ensures Cutoff(count, ms, max) <= |ms|
    ensures Sum(count, ms[k..]) <= max <==> Cutoff(count, ms, max) <= k
  {
    if Sum(count, ms) <= max {
      SumDrops(count, ms, 0, k);
      assert ms[0..] == ms;
    } else {
      CutoffIsLongest(count, ms[1..], max, if k == 0 then 0 else k - 1);
      if k == 0 { assert ms[0..] == ms; } else { assert ms[1..][k - 1..] == ms[k..]; }
    }
  }

  /** The answer of trimming by tokens: the longest suffix that fits, or the last
      message alone when even that one does not. */
  lemma TrimByTokensIsLongest(count: Counter, ms: seq<Message>, max: nat)
    requires ms != []
    ensures var r := TrimByTokens(count, ms, max);
            && r != [] && r == ms[|ms| - |r|..]
            && (Sum(count, r) <= max || |r| == 1)
            && forall k :: 0 <= k <= |ms| && Sum(count, ms[k..]) <= max ==> |ms| - k <= |r|
  {
    var r := TrimByTokens(count, ms, max);
    CutoffIsLongest(count, ms, max, Cutoff(count, ms, max)) by { CutoffIsLongest(count, ms, max, |ms|); }
    forall k | 0 <= k <= |ms| && Sum(count, ms[k..]) <= max ensures |ms| - k <= |r| {
      CutoffIsLongest(count, ms, max, k);
    }
  }

  function TotalBytes(ms: seq<Message>): nat {
    if ms == [] then 0 else |ms[0].content| + TotalBytes(ms[1..])
  }

  /** The default counter rounds every message down: a text of b bytes in n messages counts
      as at least (b - 3n) / 4 and at most b / 4 tokens. */
  lemma {:induction false} HeuristicBounds(ms: seq<Message>)
    ensures 4 * Sum(HeuristicTokens, ms) <= TotalBytes(ms) <= 4 * Sum(HeuristicTokens, ms) + 3 * |ms|
  {
    if ms != [] { HeuristicBounds(ms[1..]); }
  }

  /** So with the default counter the answer to a token limit is at most that many bytes. */
  lemma DefaultAnswerBytes(ms: seq<Message>, max: nat)
    requires ms != []
    ensures var r := TrimByTokens(HeuristicTokens, ms, max);
            |r| > 1 ==> TotalBytes(r) <= 4 * max + 3 * |r|
  {
    TrimByTokensIsLongest(HeuristicTokens, ms, max);
    HeuristicBounds(TrimByTokens(HeuristicTokens, ms, max));
  }

  // Trimming looks at the newest messages only.
  lemma {:induction false} CutoffOfSuffix(count: Counter, ms: seq<Message>, max: nat, i: nat)
    requires i <= |ms| && Sum(count, ms[i..]) > max
    ensures Cutoff(count, ms, max) == i + Cutoff(count, ms[i..], max)
    decreases i
  {
    if i == 0 {
      assert ms[0..] == ms;
    } else {
      SumDrops(count, ms, 0, i);
      assert ms[0..] == ms;
      assert ms[1..][i - 1..] == ms[i..];
      CutoffOfSuffix(count, ms[1..], max, i - 1);
    }
  }

  /** Token trimming of the fetched window gives the answer for the whole history
      exactly when the history fits in the fetch, or one message more than the
      fetch would no longer fit. */
  lemma TokenWindowIsExactIff(count: Counter, h: seq<Message>, c: Config)
    requires c.maxTokens > 0
    ensures Window(count, h, c) == Trim(count, h, c)
            <==> |h| <= FetchLimit(c) || Sum(count, Recent(h, FetchLimit(c) + 1)) > c.maxTokens
  {
    var n, max := FetchLimit(c), c.maxTokens;
    if |h| > n {
      var i := |h| - n;
      var window := h[i..];
      CutoffIsLongest(count, h, max, i - 1);
      CutoffIsLongest(count, h, max, i);
      if Sum(count, window) > max {
        CutoffOfSuffix(count, h, max, i);
        SumDrops(count, h, i - 1, i);
        CutoffIsLongest(count, window, max, |window|);
        TrimOfSuffix(count, h, max, i);
      } else {
        assert Cutoff(count, window, max) == 0 && window[0..] == window;
      }
    }
  }

  lemma TrimOfSuffix(count: Counter, h: seq<Message>, max: nat, i: nat)
    requires i < |h| && Sum(count, h[i..]) > max
    ensures TrimByTokens(count, h[i..], max) == TrimByTokens(count, h, max)
  {
    CutoffOfSuffix(count, h, max, i);
    var k := Cutoff(count, h[i..], max);
    if k < |h| - i { assert h[i..][k..] == h[i + k..]; }
  }

  /** Whenever trimming the window drops a message, nothing was lost by not
      fetching more. */
  lemma DroppingWindowIsExact(count: Counter, h: seq<Message>, c: Config)
    requires c.maxTokens > 0 && |Window(count, h, c)| < |Recent(h, FetchLimit(c))|
    ensures Window(count, h, c) == Trim(count, h, c)
  {
    var w := Recent(h, FetchLimit(c));
    CutoffIsLongest(count, w, c.maxTokens, 0);
    assert w[0..] == w;
    if |h| > FetchLimit(c) { TrimOfSuffix(count, h, c.maxTokens, |h| - FetchLimit(c)); }
  }

  /** Trimming by count is exact exactly when the limit or the history is at most 500. */
  lemma MessageWindowIsExactIff(count: Counter, h: seq<Message>, c: Config)
    requires c.maxTokens <= 0 && c.maxMessages > 0
    ensures Window(count, h, c) == Trim(count, h, c) <==> c.maxMessages <= 500 || |h| <= 500
  {
    var n, m := FetchLimit(c), c.maxMessages;
    if |h| > n && m <= n { assert h[|h| - n..][n - m..] == h[|h| - m..]; }
  }

  /** Without either limit the answer is still cut to 100 messages. */
  lemma UnlimitedWindowIsExactIff(count: Counter, h: seq<Message>, c: Config)
    requires c.maxTokens <= 0 && c.maxMessages <= 0
    ensures Window(count, h, c) == Trim(count, h, c) <==> |h| <= 100
  {
  }

  // --------------------------------------------------------------------
  // The cache
  // --------------------------------------------------------------------

  datatype Cached = Cached(messages: seq<Message>, fetchedAt: int)

  datatype Call = Call(conv: string, config: Config, now: int, history: seq<Message>)

  predicate Hit(cache: map<string, Cached>, conv: string, now: int, ttl: int) {
    conv in cache && now - cache[conv].fetchedAt < ttl
  }

  function Answer(count: Counter, cache: map<string, Cached>, call: Call, ttl: int): (seq<Message>, map<string, Cached>)
  {
    if Hit(cache, call.conv, call.now, ttl) then (cache[call.conv].messages, cache)
    else
      var ms := Window(count, call.history, call.config);
      (ms, cache[call.conv := Cached(ms, call.now)])
  }

  /** A call that computes its window shares it with the next call for the conversation, whatever that
      asks for, while less than the TTL has passed, and with no call for another one. */
  lemma NextAnswerIs(count: Counter, cache: map<string, Cached>, call: Call, again: Call, ttl: int)
    requires !(call.conv in cache && call.now - cache[call.conv].fetchedAt < ttl)
    ensures var (ms, next) := Answer(count, cache, call, ttl);
            && ms == Window(count, call.history, call.config)
            && (again.conv == call.conv ==>
                  Answer(count, next, again, ttl).0
                  == if again.now - call.now < ttl then ms else Window(count, again.history, again.config))
            && (again.conv != call.conv ==> Answer(count, next, again, ttl).0 == Answer(count, cache, again, ttl).0)
  {
  }

  datatype Event = Ask(call: Call) | Invalidate(conv: string)

  function CacheAfter(count: Counter, cache: map<string, Cached>, events: seq<Event>, ttl: int): map<string, Cached>
    decreases |events|
  {
    if events == [] then cache
    else
      match events[0]
      case Ask(call) => CacheAfter(count, Answer(count, cache, call, ttl).1, events[1..], ttl)
      case Invalidate(conv) => CacheAfter(count, cache - {conv}, events[1..], ttl)
  }

  function Calls(events: seq<Event>): seq<Call> {
    if events == [] then [] else (if events[0].Ask? then [events[0].call] else []) + Calls(events[1..])
  }

  ghost predicate Computes(count: Counter, call: Call, conv: string, entry: Cached) {
    call.conv == conv && call.now == entry.fetchedAt && entry.messages == Window(count, call.history, call.config)
  }

  // Some earlier call computed this entry from what it saw.
  ghost predicate ComputedBy(count: Counter, calls: seq<Call>, conv: string, entry: Cached) {
    exists i :: 0 <= i < |calls| && Computes(count, calls[i], conv, entry)
  }

  lemma ComputedByMore(count: Counter, calls: seq<Call>, call: Call, conv: string, entry: Cached)
    requires ComputedBy(count, calls, conv, entry) || Computes(count, call, conv, entry)
    ensures ComputedBy(count, calls + [call], conv, entry)
  {
    var longer := calls + [call];
    if ComputedBy(count, calls, conv, entry) {
      var i :| 0 <= i < |calls| && Computes(count, calls[i], conv, entry);
      assert longer[i] == calls[i];
    } else {
      assert longer[|calls|] == call;
    }
  }

  ghost predicate AllComputed(count: Counter, calls: seq<Call>, cache: map<string, Cached>) {
    forall conv :: conv in cache ==> ComputedBy(count, calls, conv, cache[conv])
  }

  lemma AnswerKeepsComputed(count: Counter, calls: seq<Call>, cache: map<string, Cached>, call: Call, ttl: int)
    requires AllComputed(count, calls, cache)
    ensures AllComputed(count, calls + [call], Answer(count, cache, call, ttl).1)
  {
    var next := Answer(count, cache, call, ttl).1;
    forall conv | conv in next ensures ComputedBy(count, calls + [call], conv, next[conv]) {
      ComputedByMore(count, calls, call, conv, next[conv]);
    }
  }

  lemma {:induction false} EntriesWereComputed(count: Counter, calls: seq<Call>, events: seq<Event>,
                                               cache: map<string, Cached>, ttl: int)
    requires AllComputed(count, calls, cache)
    ensures AllComputed(count, calls + Calls(events), CacheAfter(count, cache, events, ttl))
    decreases |events|
  {
    if events == [] {
      assert calls + Calls(events) == calls;
    } else {
      match events[0]
      case Ask(call) =>
        AnswerKeepsComputed(count, calls, cache, call, ttl);
        EntriesWereComputed(count, calls + [call], events[1..], Answer(count, cache, call, ttl).1, ttl);
        assert calls + [call] + Calls(events[1..]) == calls + Calls(events);
      case Invalidate(conv) =>
        EntriesWereComputed(count, calls, events[1..], cache - {conv}, ttl);
        assert Calls(events[1..]) == Calls(events);
    }
  }

  /** Every answer, over any run of calls and invalidations, is the window that some call
      for the same conversation saw less than the TTL ago: that call may be another
      agent's, with that agent's limits. */
  lemma AnswersAreRecentWindows(count: Counter, events: seq<Event>, call: Call, ttl: int)
    requires ttl > 0
    ensures exists at :: call.now - at < ttl
              && ComputedBy(count, Calls(events) + [call], call.conv,
                            Cached(Answer(count, CacheAfter(count, map[], events, ttl), call, ttl).0, at))
  {
    var cache := CacheAfter(count, map[], events, ttl);
    var ms := Answer(count, cache, call, ttl).0;
    EntriesWereComputed(count, [], events, map[], ttl);
    assert [] + Calls(events) == Calls(events);
    if Hit(cache, call.conv, call.now, ttl) {
      assert cache[call.conv] == Cached(ms, cache[call.conv].fetchedAt);
      ComputedByMore(count, Calls(events), call, call.conv, cache[call.conv]);
    } else {
      assert Computes(count, call, call.conv, Cached(ms, call.now));
      ComputedByMore(count, Calls(events), call, call.conv, Cached(ms, call.now));
    }
  }

  // --------------------------------------------------------------------
  // Concurrent calls
  // --------------------------------------------------------------------

  datatype Reading = Reading(conv: string, messages: seq<Message>)

  // reading holds the calls that missed the cache and have read their window, but not stored it.
  datatype Caches = Caches(cache: map<string, Cached>, reading: map<nat, Reading>)

  datatype Move = Read(id: nat, call: Call) | Store(id: nat, now: int) | Drop(conv: string)

  function MoveOn(count: Counter, s: Caches, m: Move, ttl: int): Caches {
    match m
    case Read(id, call) =>
      if id in s.reading || Hit(s.cache, call.conv, call.now, ttl) then s
      else s.(reading := s.reading[id := Reading(call.conv, Window(count, call.history, call.config))])
    case Store(id, now) =>
      if id !in s.reading then s
      else Caches(s.cache[s.reading[id].conv := Cached(s.reading[id].messages, now)], s.reading - {id})
    case Drop(conv) => s.(cache := s.cache - {conv})
  }

  function MoveAll(count: Counter, s: Caches, moves: seq<Move>, ttl: int): Caches
    decreases |moves|
  {
    if moves == [] then s else MoveAll(count, MoveOn(count, s, moves[0], ttl), moves[1..], ttl)
  }

  /** A call with nothing in between is its read and its store in a row: it leaves the cache
      that the uninterrupted call leaves, and nothing in flight. */
  lemma ReadThenStoreIsAnswer(count: Counter, s: Caches, id: nat, call: Call, ttl: int)
    requires id !in s.reading
    ensures MoveOn(count, MoveOn(count, s, Read(id, call), ttl), Store(id, call.now), ttl)
            == Caches(Answer(count, s.cache, call, ttl).1, s.reading)
  {
    var after := MoveOn(count, s, Read(id, call), ttl);
    if !Hit(s.cache, call.conv, call.now, ttl) { assert after.reading - {id} == s.reading; }
  }

  ghost predicate ReadHere(count: Counter, m: Move, conv: string, ms: seq<Message>) {
    m.Read? && m.call.conv == conv && ms == Window(count, m.call.history, m.call.config)
  }

  // One of these calls read the messages.
  ghost predicate ReadIn(count: Counter, moves: seq<Move>, conv: string, ms: seq<Message>) {
    exists m :: m in moves && ReadHere(count, m, conv, ms)
  }

  // Whatever is cached or about to be cached for conv was read by one of these calls.
  ghost predicate OnlyReadIn(count: Counter, s: Caches, conv: string, moves: seq<Move>) {
    && (conv in s.cache ==> ReadIn(count, moves, conv, s.cache[conv].messages))
    && (forall id :: id in s.reading && s.reading[id].conv == conv ==>
        ReadIn(count, moves, conv, s.reading[id].messages))
  }

  lemma ReadInMore(count: Counter, moves: seq<Move>, m: Move, conv: string, ms: seq<Message>)
    requires ReadIn(count, moves, conv, ms) || ReadHere(count, m, conv, ms)
    ensures ReadIn(count, moves + [m], conv, ms)
  {
    if ReadHere(count, m, conv, ms) {
      assert m in moves + [m];
    } else {
      var earlier :| earlier in moves && ReadHere(count, earlier, conv, ms);
      assert earlier in moves + [m];
    }
  }

  lemma MoveKeepsOnlyReadIn(count: Counter, s: Caches, conv: string, done: seq<Move>, m: Move, ttl: int)
    requires OnlyReadIn(count, s, conv, done)
    ensures OnlyReadIn(count, MoveOn(count, s, m, ttl), conv, done + [m])
  {
    var next := MoveOn(count, s, m, ttl);
    if conv in next.cache { ReadInMore(count, done, m, conv, next.cache[conv].messages); }
    forall id | id in next.reading && next.reading[id].conv == conv
      ensures ReadIn(count, done + [m], conv, next.reading[id].messages)
    {
      ReadInMore(count, done, m, conv, next.reading[id].messages);
    }
  }

  lemma {:induction false} MovesKeepOnlyReadIn(count: Counter, s: Caches, conv: string, done: seq<Move>,
                                               moves: seq<Move>, ttl: int)
    requires OnlyReadIn(count, s, conv, done)
    ensures OnlyReadIn(count, MoveAll(count, s, moves, ttl), conv, done + moves)
    decreases |moves|
  {
    if moves == [] {
      assert done + moves == done;
    } else {
      MoveKeepsOnlyReadIn(count, s, conv, done, moves[0], ttl);
      MovesKeepOnlyReadIn(count, MoveOn(count, s, moves[0], ttl), conv, done + [moves[0]], moves[1..], ttl);
      assert done + [moves[0]] + moves[1..] == done + moves;
    }
  }

  // After these moves the cached answer for conv, if there is one, was read during them.
  ghost predicate CacheIsLater(count: Counter, s: Caches, conv: string, moves: seq<Move>, ttl: int) {
    var cache := MoveAll(count, s, moves, ttl).cache;
    conv in cache ==> ReadIn(count, moves, conv, cache[conv].messages)
  }

  ghost predicate StaysLater(count: Counter, s: Caches, conv: string, ttl: int) {
    forall moves :: CacheIsLater(count, s, conv, moves, ttl)
  }

  /** An invalidation makes the next answers fresh, whatever calls run afterwards, exactly when
      no call for the conversation is between its read and its store at that moment. */
  lemma InvalidationHoldsIff(count: Counter, s: Caches, conv: string, ttl: int)
    ensures StaysLater(count, MoveOn(count, s, Drop(conv), ttl), conv, ttl)
            <==> forall id :: id in s.reading ==> s.reading[id].conv != conv
  {
    var dropped := MoveOn(count, s, Drop(conv), ttl);
    if id :| id in s.reading && s.reading[id].conv == conv {
      var moves := [Store(id, 0)];
      assert moves[1..] == [];
      assert MoveAll(count, dropped, moves, ttl) == MoveAll(count, MoveOn(count, dropped, moves[0], ttl), [], ttl);
      assert conv in MoveAll(count, dropped, moves, ttl).cache;
      assert !CacheIsLater(count, dropped, conv, moves, ttl);
    } else {
      forall moves ensures CacheIsLater(count, dropped, conv, moves, ttl) {
        MovesKeepOnlyReadIn(count, dropped, conv, [], moves, ttl);
        assert [] + moves == moves;
      }
    }
  }

  // --------------------------------------------------------------------
  // The context manager
  // --------------------------------------------------------------------

  function Reversed(ms: seq<Message>): seq<Message> {
    seq(|ms|, i requires 0 <= i < |ms| => ms[|ms| - 1 - i])
  }

  lemma ReversedTwice(ms: seq<Message>)
    ensures Reversed(Reversed(ms)) == ms
  {
  }

  lemma ReversedGrows(h: seq<Message>, k: nat, front: seq<Message>, last: Message)
    requires k <= |h| && h[..k] == front + [last]
    ensures k > 0 && front == h[..k - 1] && Reversed(h[k..]) + [last] == Reversed(h[k - 1..])
  {
    assert last == h[..k][k - 1] == h[k - 1];
    assert front == h[..k][..k - 1] == h[..k - 1];
  }

  lemma {:induction false} HistoryAppends(rows: seq<Message>, i: nat)
    requires i < |rows|
    ensures History(rows[..i + 1]) == if Eligible(rows[i]) then History(rows[..i]) + [rows[i]] else History(rows[..i])
  {
    assert rows[..i + 1][..i] == rows[..i];
  }

  method ReverseMessages(a: array<Message>)
    modifies a
    ensures a[..] == Reversed(old(a[..]))
  {
    var i, j := 0, a.Length - 1;
    while i < j
      invariant 0 <= i <= a.Length && j == a.Length - 1 - i && i <= j + 1
      invariant forall k :: 0 <= k < i ==> a[k] == old(a[a.Length - 1 - k]) && a[a.Length - 1 - k] == old(a[k])
      invariant forall k :: i <= k <= j ==> a[k] == old(a[k])
    {
      a[i], a[j] := a[j], a[i];
      i, j := i + 1, j - 1;
    }
  }

  method NewestEligible(all: seq<Message>, limit: nat) returns (found: seq<Message>)
    ensures found == Reversed(Recent(History(all), limit))
  {
    found := [];
    ghost var h := History(all);
    var i := |all|;
    assert all[..|all|] == all;
    while i > 0 && |found| < limit
      invariant 0 <= i <= |all| && |found| <= limit && |found| <= |h|
      invariant found == Reversed(h[|h| - |found|..])
      invariant History(all[..i]) == h[..|h| - |found|]
    {
      i := i - 1;
      HistoryAppends(all, i);
      if Eligible(all[i]) {
        ReversedGrows(h, |h| - |found|, History(all[..i]), all[i]);
        found := found + [all[i]];
      }
    }
    if i == 0 { assert |History(all[..0])| == 0; }
  }

  class DBContextManager {
    var rows: map<string, seq<Message>>
    var cache: map<string, Cached>
    const ttl: int
    const tokenizer: Counter

    constructor (ttl: int, tokenizer: Counter)
      ensures this.ttl == ttl && this.tokenizer == tokenizer && rows == map[] && cache == map[]
    {
      this.ttl, this.tokenizer, rows, cache := ttl, tokenizer, map[], map[];
    }

    function HistoryOf(conv: string): seq<Message>
      reads this
    {
      if conv in rows then History(rows[conv]) else []
    }

    // ORDER BY message_id DESC LIMIT ?
    method ListRecentByConversation(conv: string, wanted: int) returns (found: seq<Message>)
      ensures var limit := if wanted <= 0 || wanted > 500 then 50 else wanted;
              found == Reversed(Recent(HistoryOf(conv), limit))
    {
      var limit := if wanted <= 0 || wanted > STORE_LIMIT then 50 else wanted;
      if conv !in rows { return []; }
      found := NewestEligible(rows[conv], limit);
    }

    method TrimMessagesByTokens(ms: seq<Message>, max: nat) returns (kept: seq<Message>)
      ensures kept == TrimByTokens(tokenizer, ms, max)
    {
      if |ms| == 0 { return ms; }
      var total, cutoff, i := 0, |ms|, |ms| - 1;
      while i >= 0
        invariant -1 <= i < |ms| && cutoff == i + 1
        invariant total == Sum(tokenizer, ms[cutoff..]) && total <= max
      {
        var tokens := tokenizer(ms[i]);
        assert ms[i..][1..] == ms[i + 1..];
        if total + tokens > max { break; }
        total := total + tokens;
        cutoff := i;
        i := i - 1;
      }
      CutoffIsLongest(tokenizer, ms, max, cutoff);
      if cutoff > 0 { CutoffIsLongest(tokenizer, ms, max, cutoff - 1); }
      if cutoff == |ms| { return ms[|ms| - 1..]; }
      return ms[cutoff..];
    }

    // The newest messages, put in chronological order in place.
    method LoadRecent(conv: string, limit: nat) returns (ms: seq<Message>)
      requires 0 < limit <= STORE_LIMIT
      ensures ms == Recent(HistoryOf(conv), limit)
    {
      var found := ListRecentByConversation(conv, limit);
      var buffer := new Message[|found|](i requires 0 <= i < |found| => found[i]);
      assert buffer[..] == found;
      ReverseMessages(buffer);
      ms := buffer[..];
      ReversedTwice(Recent(HistoryOf(conv), limit));
    }

    method FetchWindow(conv: string, config: Config) returns (ms: seq<Message>)
      ensures ms == Window(tokenizer, HistoryOf(conv), config)
    {
      var fetchLimit := 100;
      if config.maxMessages > 0 { fetchLimit := MaxInt(config.maxMessages * 2, fetchLimit); }
      if config.maxTokens > 0 {
        var estimated := config.maxTokens / 200;
        fetchLimit := MaxInt(estimated * 2, fetchLimit);
      }
      if fetchLimit > 500 { fetchLimit := 500; }
      ms := LoadRecent(conv, fetchLimit);
      if config.maxTokens > 0 {
        ms := TrimMessagesByTokens(ms, config.maxTokens);
      } else if config.maxMessages > 0 {
        if |ms| > config.maxMessages { ms := ms[|ms| - config.maxMessages..]; }
      }
    }

    /** The cached answer while it is younger than the TTL; otherwise the trimmed window. */
    method GetContext(conv: string, config: Config, now: int) returns (ms: seq<Message>)
      modifies this
      ensures rows == old(rows)
      ensures (ms, cache) == Answer(tokenizer, old(cache), Call(conv, config, now, old(HistoryOf(conv))), ttl)
    {
      if conv in cache && now - cache[conv].fetchedAt < ttl { return cache[conv].messages; }
      ms := FetchWindow(conv, config);
      cache := cache[conv := Cached(ms, now)];
    }

    /** The Drop of the concurrent machine, whatever calls are between their read and their store. */
    method InvalidateCache(conv: string)
      modifies this
      ensures rows == old(rows) && conv !in cache
      ensures forall c :: c != conv ==> (c in cache <==> c in old(cache)) && (c in cache ==> cache[c] == old(cache)[c])
      ensures forall reading ::
                Caches(cache, reading) == MoveOn(tokenizer, Caches(old(cache), reading), Drop(conv), ttl)
    {
      cache := cache - {conv};
    }
  }
}
