/** The publisher client across any number of connections (client-publisher/client.go). */
module Publisher {
  import opened Sequences
  import opened Fragments
  import opened Floats
  import opened Texts
  import opened Messages
  import opened Wire

  /** `connected` says that there is a socket to write to; `interrupts` counts what is in the channel that ends
      the heartbeats, which has room for one. */
  datatype Client = Client(closed: bool, ready: bool, connected: bool, pending: seq<Fragment>, interrupts: nat)

  datatype Output = Output(client: Client, packets: seq<Packet>)

  function MaxPending(queueMaxLength: int): int {
    if queueMaxLength == 0 then 10 else queueMaxLength
  }

  function Enqueue(queueMaxLength: int, pending: seq<Fragment>, fragment: Fragment): seq<Fragment> {
    if |pending| >= MaxPending(queueMaxLength) && |pending| > 0 then pending[1..] + [fragment] else pending + [fragment]
  }

  function Connecting(c: Client): Output {
    Output(if c.closed then c else c.(connected := true), [])
  }

  function Readying(c: Client): Output {
    if c.closed then Output(c, []) else Output(c.(ready := true, pending := []), Flush(c.pending))
  }

  function Disconnecting(c: Client): Output {
    Output(if c.closed then c else c.(ready := false, connected := false), [])
  }

  function Submitting(queueMaxLength: int, c: Client, fragment: Fragment): Output {
    if fragment.data == [] || c.closed then Output(c, [])
    else if c.ready then Output(c, FragmentPackets(fragment))
    else Output(c.(pending := Enqueue(queueMaxLength, c.pending, fragment)), [])
  }

  function Beating(c: Client): Output {
    Output(c, if c.closed || !c.connected then [] else [Says(HeartbeatMessage())])
  }

  function Closing(c: Client): Output {
    if c.closed then Output(c, [])
    else Output(Client(true, false, false, [], c.interrupts + 1), if c.connected then [Says(CloseMessage())] else [])
  }

  class HlsWebSocketPublisher {
    const queueMaxLength: int
    var closed: bool
    var ready: bool
    var connected: bool
    var pendingQueue: seq<Fragment>
    var interrupts: nat
    var wire: seq<Packet>

    ghost function State(): Client
      reads this
    {
      Client(closed, ready, connected, pendingQueue, interrupts)
    }

    constructor (queueMaxLength: int)
      ensures State() == Client(false, false, false, [], 0) && wire == [] && this.queueMaxLength == queueMaxLength
    {
      this.queueMaxLength := queueMaxLength;
      closed, ready, connected, pendingQueue, interrupts, wire := false, false, false, [], 0, [];
    }

    method SendFragmentInternal(fragment: Fragment)
      modifies this`wire
      ensures wire == old(wire) + FragmentPackets(fragment)
    {
      wire := wire + [Says(MetadataMessage(fragment.duration))];
      wire := wire + [Data(fragment.data)];
    }

    method OnConnected()
      modifies this
      ensures State() == Connecting(old(State())).client && wire == old(wire)
    {
      if closed {
        return;
      }
      connected := true;
    }

    method OnReady()
      modifies this
      ensures State() == Readying(old(State())).client && wire == old(wire) + Readying(old(State())).packets
    {
      hide FragmentPackets;
      if closed {
        assert wire == old(wire) + [];
        return;
      }
      ready := true;
      var queue := pendingQueue;
      for i := 0 to |queue|
        invariant wire == old(wire) + Flush(queue[..i])
        invariant ready && !closed && connected == old(connected) && interrupts == old(interrupts)
      {
        SendFragmentInternal(queue[i]);
        assert queue[..i + 1][..i] == queue[..i];
      }
      assert queue[..|queue|] == queue;
      pendingQueue := [];
    }

    method OnDisconnected()
      modifies this
      ensures State() == Disconnecting(old(State())).client && wire == old(wire)
    {
      if closed {
        return;
      }
      ready, connected := false, false;
    }

    method SendFragment(fragment: Fragment)
      modifies this
      ensures var output := Submitting(queueMaxLength, old(State()), fragment);
              State() == output.client && wire == old(wire) + output.packets
    {
      assert wire == wire + [];
      if fragment.data == [] || closed {
        return;
      }
      if ready {
        SendFragmentInternal(fragment);
      } else {
        var max := queueMaxLength;
        if max == 0 {
          max := 10;
        }
        if |pendingQueue| >= max && |pendingQueue| > 0 {
          pendingQueue := pendingQueue[1..] + [fragment];
        } else {
          pendingQueue := pendingQueue + [fragment];
        }
      }
    }

    /** Only heartbeats are sent this way. */
    method SendMessage()
      modifies this
      ensures State() == old(State()) && wire == old(wire) + Beating(old(State())).packets
    {
      assert wire == wire + [];
      if closed || !connected {
        return;
      }
      wire := wire + [Says(HeartbeatMessage())];
    }

    method Close()
      modifies this
      ensures State() == Closing(old(State())).client && wire == old(wire) + Closing(old(State())).packets
    {
      assert wire == wire + [];
      if closed {
        return;
      }
      if connected {
        wire := wire + [Says(CloseMessage())];
        connected := false;
      }
      pendingQueue, closed, ready := [], true, false;
      interrupts := interrupts + 1;
    }
  }

  // All runs: the connection loop and any callers, one critical section at a time.

  /** Where the connection loop is: about to dial, dialed with PUSH sent, or reading. */
  datatype Loop = Dialing | Greeted | Reading

  datatype Item = Beat | Sent(fragment: Fragment)

  datatype Step =
    | Dial(streamId: Text, auth: Text)
    | Connect
    | ReceiveOk
    | Lose
    | Submit(fragment: Fragment)
    | Heartbeat
    | StopBeating
    | Close

  /** `wire` is what was written on the newest connection, told again by `greeting`, `items` and `closing`.
      History: fragments submitted while open, those since readiness was last lost, those written on any
      connection, and how many were given up. `beating` says that the heartbeat thread is running,
      `dialed` for which stream and with which token the newest connection was dialed, and `acknowledged` that an
      OK came on it since it was connected, with no loss and no close after that. */
  datatype System = System(
    client: Client, loop: Loop, wire: seq<Packet>, greeting: Message, items: seq<Item>, closing: bool,
    submitted: seq<Fragment>, sinceLost: seq<Fragment>, written: seq<Fragment>, dropped: nat, beating: bool,
    dialed: (Text, Text), acknowledged: bool)

  const START :=
    System(Client(false, false, false, [], 0), Dialing, [], HeartbeatMessage(), [], false, [], [], [], 0, true,
           ([], []), false)

  predicate Enabled(s: System, step: Step) {
    match step
    case Dial(_, _) => s.loop.Dialing?
    case Connect => s.loop.Greeted?
    case ReceiveOk => s.loop.Reading?
    case Lose => s.loop.Reading?
    case Heartbeat => s.beating
    case StopBeating => s.beating && s.client.interrupts > 0
    case _ => true
  }

  function SentAll(fragments: seq<Fragment>): seq<Item> {
    seq(|fragments|, i requires 0 <= i < |fragments| => Sent(fragments[i]))
  }

  function Put(s: System, output: Output): System {
    s.(client := output.client, wire := s.wire + output.packets)
  }

  function Apply(queueMaxLength: int, s: System, step: Step): System
    requires Enabled(s, step)
  {
    var c := s.client;
    match step
    case Dial(streamId, auth) =>
      var greeting := PushMessage(streamId, auth);
      s.(loop := Greeted, wire := [Says(greeting)], greeting := greeting, items := [], closing := false,
         dialed := (streamId, auth), acknowledged := false)
    case Connect => Put(s, Connecting(c)).(loop := Reading, acknowledged := false)
    case ReceiveOk =>
      var after := Put(s, Readying(c));
      if c.closed then after
      else after.(items := s.items + SentAll(c.pending), written := s.written + c.pending, sinceLost := [],
                      acknowledged := true)
    case Lose => Put(s, Disconnecting(c)).(loop := Dialing, acknowledged := false)
    case Submit(fragment) =>
      var after := Put(s, Submitting(queueMaxLength, c, fragment));
      if fragment.data == [] || c.closed then after
      else if c.ready then
        after.(items := s.items + [Sent(fragment)], written := s.written + [fragment],
               submitted := s.submitted + [fragment])
      else
        after.(submitted := s.submitted + [fragment], sinceLost := s.sinceLost + [fragment],
        dropped := s.dropped + if |after.client.pending| == |c.pending| then 1 else 0)
    case Heartbeat =>
      var after := Put(s, Beating(c));
      if c.closed || !c.connected then after else after.(items := s.items + [Beat])
    case StopBeating => s.(client := c.(interrupts := c.interrupts - 1), beating := false)
    case Close =>
      var after := Put(s, Closing(c));
      if c.closed then after
      else after.(closing := c.connected, dropped := s.dropped + |c.pending|, acknowledged := false)
  }

  function Run(queueMaxLength: int, steps: seq<Step>): System {
    if steps == [] then START
    else
      var s, step := Run(queueMaxLength, steps[..|steps| - 1]), steps[|steps| - 1];
      if Enabled(s, step) then Apply(queueMaxLength, s, step) else s
  }

  // The invariant.

  function Body(items: seq<Item>): seq<Packet> {
    if items == [] then []
    else
      Body(items[..|items| - 1]) +
      match items[|items| - 1]
      case Beat => [Says(HeartbeatMessage())]
      case Sent(fragment) => FragmentPackets(fragment)
  }

  function Sends(items: seq<Item>): seq<Fragment> {
    if items == [] then []
    else
      Sends(items[..|items| - 1]) +
      match items[|items| - 1]
      case Beat => []
      case Sent(fragment) => [fragment]
  }

  /** PUSH (H | F binary)* CLOSE? */
  function Trace(greeting: Message, items: seq<Item>, closing: bool): seq<Packet> {
    [Says(greeting)] + Body(items) + if closing then [Says(CloseMessage())] else []
  }

  function EffectiveLimit(queueMaxLength: int): nat {
    if queueMaxLength == 0 then 10 else if queueMaxLength < 1 then 1 else queueMaxLength
  }

  function Min(a: nat, b: nat): nat {
    if a < b then a else b
  }

  ghost predicate NonEmptyData(fragments: seq<Fragment>) {
    forall i :: 0 <= i < |fragments| ==> fragments[i].data != []
  }

  ghost predicate ClientOk(c: Client, loop: Loop) {
    && (c.connected <==> loop.Reading? && !c.closed)
    && (c.ready ==> c.connected && c.pending == [])
    && (c.closed ==> c.pending == [])
  }

  ghost predicate WireOk(wire: seq<Packet>, loop: Loop, greeting: Message, items: seq<Item>, closing: bool) {
    && (wire == [] ==> loop.Dialing? && items == [] && !closing)
    && (wire != [] ==> wire == Trace(greeting, items, closing) && greeting.kind == "PUSH")
    && NonEmptyData(Sends(items))
  }

  ghost predicate QueueOk(queueMaxLength: int, c: Client, sinceLost: seq<Fragment>) {
    && (c.ready ==> sinceLost == [])
    && (!c.closed && !c.ready ==>
        IsSuffix(c.pending, sinceLost) && |c.pending| == Min(|sinceLost|, EffectiveLimit(queueMaxLength)))
    && NonEmptyData(c.pending)
  }

  ghost predicate HistoryOk(pending: seq<Fragment>, submitted: seq<Fragment>, written: seq<Fragment>,
                            items: seq<Item>, dropped: nat) {
    && Subsequence(written + pending, submitted)
    && |submitted| == |written| + |pending| + dropped
    && IsSuffix(Sends(items), written)
  }

  /** The greeting names the stream and carries the token that the connection was dialed with. */
  ghost predicate GreetingOk(greeting: Message, dialed: (Text, Text)) {
    && greeting.kind == "PUSH"
    && greeting.GetParameter("stream") == dialed.0 && greeting.GetParameter("auth") == dialed.1
  }

  /** The one interrupt is sent by the one close. */
  predicate BeatOk(c: Client, beating: bool) {
    c.interrupts + (if beating then 0 else 1) == if c.closed then 1 else 0
  }

  ghost predicate Inv(queueMaxLength: int, s: System) {
    && ClientOk(s.client, s.loop)
    && BeatOk(s.client, s.beating)
    && (s.client.ready <==> s.acknowledged)
    && (s.wire != [] ==> GreetingOk(s.greeting, s.dialed))
    && WireOk(s.wire, s.loop, s.greeting, s.items, s.closing)
    && (s.closing ==> s.client.closed)
    && QueueOk(queueMaxLength, s.client, s.sinceLost)
    && HistoryOk(s.client.pending, s.submitted, s.written, s.items, s.dropped)
  }

  // Traces grow at the end.

  lemma {:induction false} BodyGrows(items: seq<Item>, item: Item)
    ensures Body(items + [item]) ==
              Body(items) + match item case Beat => [Says(HeartbeatMessage())] case Sent(f) => FragmentPackets(f)
    ensures Sends(items + [item]) == Sends(items) + match item case Beat => [] case Sent(f) => [f]
  {
    assert (items + [item])[..|items|] == items;
  }

  lemma {:induction false} BodyFlushes(items: seq<Item>, queue: seq<Fragment>)
    ensures Body(items + SentAll(queue)) == Body(items) + Flush(queue)
    ensures Sends(items + SentAll(queue)) == Sends(items) + queue
  {
    hide Body, Sends, FragmentPackets, SentAll;
    if queue == [] {
      NoneSent();
      assert items + SentAll(queue) == items;
    } else {
      var front, last := queue[..|queue| - 1], queue[|queue| - 1];
      BodyFlushes(items, front);
      BodyGrows(items + SentAll(front), Sent(last));
      SentOneMore(queue);
      assert items + (SentAll(front) + [Sent(last)]) == items + SentAll(front) + [Sent(last)];
      assert Sends(items) + front + [last] == Sends(items) + (front + [last]);
      assert Body(items) + Flush(front) + FragmentPackets(last) == Body(items) + (Flush(front) + FragmentPackets(last));
      assert front + [last] == queue;
    }
  }

  lemma {:induction false} NoneSent()
    ensures SentAll([]) == []
  {}

  lemma {:induction false} SentOneMore(queue: seq<Fragment>)
    requires queue != []
    ensures SentAll(queue) == SentAll(queue[..|queue| - 1]) + [Sent(queue[|queue| - 1])]
  {}

  lemma {:induction false} NothingSent()
    ensures Sends([]) == [] && Body([]) == []
  {}

  lemma {:induction false} TwoPackets(fragment: Fragment)
    ensures |FragmentPackets(fragment)| == 2
  {}

  lemma {:induction false} ClosingTrace(greeting: Message, items: seq<Item>)
    ensures Trace(greeting, items, true) == Trace(greeting, items, false) + [Says(CloseMessage())]
  {
    hide Body;
  }

  lemma {:induction false} TraceGrows(greeting: Message, items: seq<Item>, more: seq<Item>, packets: seq<Packet>)
    requires Body(items + more) == Body(items) + packets
    ensures Trace(greeting, items + more, false) == Trace(greeting, items, false) + packets
  {
    hide Body;
  }

  // What the steps keep, part by part.

  lemma {:induction false} EnqueueKeeps(queueMaxLength: int, pending: seq<Fragment>, sinceLost: seq<Fragment>,
                                        fragment: Fragment)
    requires IsSuffix(pending, sinceLost) && |pending| == Min(|sinceLost|, EffectiveLimit(queueMaxLength))
    ensures var after := Enqueue(queueMaxLength, pending, fragment);
            && IsSuffix(after, sinceLost + [fragment])
            && |after| == Min(|sinceLost| + 1, EffectiveLimit(queueMaxLength))
            && |pending| <= |after| <= |pending| + 1
            && after == (if |after| == |pending| then pending[1..] else pending) + [fragment]
  {}

  lemma {:induction false} DropFirst<T>(a: seq<T>, b: seq<T>, whole: seq<T>)
    requires Subsequence(a + b, whole) && b != []
    ensures Subsequence(a + b[1..], whole)
  {
    var positions := seq(|a| + |b| - 1, i requires 0 <= i < |a| + |b| - 1 => if i < |a| then i else i + 1);
    assert Embeds(a + b[1..], a + b, positions);
    SubsequenceTransitive(a + b[1..], a + b, whole);
  }

  lemma {:induction false} AppendBoth<T>(sub: seq<T>, whole: seq<T>, x: T)
    requires Subsequence(sub, whole)
    ensures Subsequence(sub + [x], whole + [x])
  {
    var positions :| Embeds(sub, whole, positions);
    EmbedsGrows(sub, whole, positions, x);
  }

  lemma {:induction false} KeepFront<T>(a: seq<T>, b: seq<T>, whole: seq<T>)
    requires Subsequence(a + b, whole)
    ensures Subsequence(a, whole)
  {
    PrefixIsBlock(a, a + b);
    BlockIsSubsequence(a, a + b);
    SubsequenceTransitive(a, a + b, whole);
  }

  lemma {:induction false} QueuedHistory(queueMaxLength: int, pending: seq<Fragment>, submitted: seq<Fragment>,
                                         written: seq<Fragment>,
                      items: seq<Item>, dropped: nat, fragment: Fragment)
    requires HistoryOk(pending, submitted, written, items, dropped)
    ensures var after := Enqueue(queueMaxLength, pending, fragment);
            HistoryOk(after, submitted + [fragment], written, items, dropped + if |after| == |pending| then 1 else 0)
  {
    hide Subsequence, Sends;
    if pending != [] {
      DropFirst(written, pending, submitted);
      AppendBoth(written + pending[1..], submitted, fragment);
      assert written + pending[1..] + [fragment] == written + (pending[1..] + [fragment]);
    }
    AppendBoth(written + pending, submitted, fragment);
    assert written + pending + [fragment] == written + (pending + [fragment]);
  }

  lemma {:induction false} WrittenHistory(submitted: seq<Fragment>, written: seq<Fragment>, items: seq<Item>,
                                          dropped: nat, fragment: Fragment)
    requires HistoryOk([], submitted, written, items, dropped)
    ensures HistoryOk([], submitted + [fragment], written + [fragment], items + [Sent(fragment)], dropped)
  {
    hide Subsequence, Sends;
    AppendBoth(written + [], submitted, fragment);
    assert written + [] + [fragment] == written + [fragment] + [];
    BodyGrows(items, Sent(fragment));
    SuffixGrows(Sends(items), written, fragment);
  }

  lemma {:induction false} FlushedHistory(pending: seq<Fragment>, submitted: seq<Fragment>, written: seq<Fragment>,
                                          items: seq<Item>, dropped: nat)
    requires HistoryOk(pending, submitted, written, items, dropped)
    ensures HistoryOk([], submitted, written + pending, items + SentAll(pending), dropped)
  {
    hide Subsequence, Sends, Body, SentAll, IsSuffix;
    assert written + pending + [] == written + pending;
    BodyFlushes(items, pending);
    SuffixJoins(Sends(items), written, pending);
  }

  lemma {:induction false} SuffixJoins<T>(part: seq<T>, whole: seq<T>, more: seq<T>)
    requires IsSuffix(part, whole)
    ensures IsSuffix(part + more, whole + more)
  {}

  lemma {:induction false} ClosedHistory(pending: seq<Fragment>, submitted: seq<Fragment>, written: seq<Fragment>,
                                         items: seq<Item>, dropped: nat)
    requires HistoryOk(pending, submitted, written, items, dropped)
    ensures HistoryOk([], submitted, written, items, dropped + |pending|)
  {
    hide Subsequence, Sends;
    KeepFront(written, pending, submitted);
    assert written + [] == written;
  }

  lemma {:induction false} DialKeeps(queueMaxLength: int, s: System, streamId: Text, auth: Text)
    requires Inv(queueMaxLength, s) && s.loop.Dialing?
    ensures Inv(queueMaxLength, Apply(queueMaxLength, s, Dial(streamId, auth)))
  {
    hide QueueOk, Subsequence;
    assert Trace(PushMessage(streamId, auth), [], false) == [Says(PushMessage(streamId, auth))];
  }

  lemma {:induction false} ReadyKeeps(queueMaxLength: int, s: System)
    requires Inv(queueMaxLength, s) && s.loop.Reading? && !s.client.closed
    ensures Inv(queueMaxLength, Apply(queueMaxLength, s, ReceiveOk))
  {
    hide HistoryOk, Body, Sends, Trace;
    BodyFlushes(s.items, s.client.pending);
    TraceGrows(s.greeting, s.items, SentAll(s.client.pending), Flush(s.client.pending));
    FlushedHistory(s.client.pending, s.submitted, s.written, s.items, s.dropped);
  }

  lemma {:induction false} WriteKeeps(queueMaxLength: int, s: System, fragment: Fragment)
    requires Inv(queueMaxLength, s) && s.client.ready && fragment.data != []
    ensures Inv(queueMaxLength, Apply(queueMaxLength, s, Submit(fragment)))
  {
    hide HistoryOk, Body, Sends, Trace, FragmentPackets, QueueOk;
    BodyGrows(s.items, Sent(fragment));
    TraceGrows(s.greeting, s.items, [Sent(fragment)], FragmentPackets(fragment));
    WrittenHistory(s.submitted, s.written, s.items, s.dropped, fragment);
  }

  lemma {:induction false} EnqueueKeepsQueue(queueMaxLength: int, c: Client, sinceLost: seq<Fragment>,
                                             fragment: Fragment)
    requires QueueOk(queueMaxLength, c, sinceLost) && !c.closed && !c.ready && fragment.data != []
    ensures QueueOk(queueMaxLength, c.(pending := Enqueue(queueMaxLength, c.pending, fragment)), sinceLost + [fragment])
    ensures |c.pending| <= |Enqueue(queueMaxLength, c.pending, fragment)| <= |c.pending| + 1
  {
    hide EffectiveLimit;
    EnqueueKeeps(queueMaxLength, c.pending, sinceLost, fragment);
  }

  lemma {:induction false} WaitKeeps(queueMaxLength: int, s: System, fragment: Fragment)
    requires Inv(queueMaxLength, s) && !s.client.closed && !s.client.ready && fragment.data != []
    ensures Inv(queueMaxLength, Apply(queueMaxLength, s, Submit(fragment)))
  {
    hide HistoryOk, WireOk, QueueOk, Enqueue;
    EnqueueKeepsQueue(queueMaxLength, s.client, s.sinceLost, fragment);
    QueuedHistory(queueMaxLength, s.client.pending, s.submitted, s.written, s.items, s.dropped, fragment);
    assert s.wire + [] == s.wire;
  }

  lemma {:induction false} StopBeatingKeeps(queueMaxLength: int, s: System)
    requires Inv(queueMaxLength, s) && Enabled(s, StopBeating)
    ensures Inv(queueMaxLength, Apply(queueMaxLength, s, StopBeating))
  {
    hide HistoryOk, WireOk;
  }

  lemma {:induction false} BeatKeeps(queueMaxLength: int, s: System)
    requires Inv(queueMaxLength, s) && s.client.connected && s.beating
    ensures Inv(queueMaxLength, Apply(queueMaxLength, s, Heartbeat))
  {
    hide Subsequence, Body, Sends, Trace, QueueOk;
    BodyGrows(s.items, Beat);
    TraceGrows(s.greeting, s.items, [Beat], [Says(HeartbeatMessage())]);
    assert Sends(s.items) + [] == Sends(s.items);
  }

  lemma {:induction false} CloseKeeps(queueMaxLength: int, s: System)
    requires Inv(queueMaxLength, s) && !s.client.closed
    ensures Inv(queueMaxLength, Apply(queueMaxLength, s, Close))
  {
    hide HistoryOk, Body, Sends, Trace;
    ClosingTrace(s.greeting, s.items);
    ClosedHistory(s.client.pending, s.submitted, s.written, s.items, s.dropped);
    assert s.wire + [] == s.wire;
  }

  lemma {:induction false} StepKeeps(queueMaxLength: int, s: System, step: Step)
    requires Inv(queueMaxLength, s) && Enabled(s, step)
    ensures Inv(queueMaxLength, Apply(queueMaxLength, s, step))
  {
    hide HistoryOk, WireOk, QueueOk;
    assert s.wire + [] == s.wire;
    match step {
      case Dial(streamId, auth) => DialKeeps(queueMaxLength, s, streamId, auth);
      case ReceiveOk => if !s.client.closed { ReadyKeeps(queueMaxLength, s); }
      case Submit(fragment) =>
        if !s.client.closed && fragment.data != [] {
          if s.client.ready {
            WriteKeeps(queueMaxLength, s, fragment);
          } else {
            WaitKeeps(queueMaxLength, s, fragment);
          }
        }
      case Heartbeat => if s.client.connected { BeatKeeps(queueMaxLength, s); }
      case Close => if !s.client.closed { CloseKeeps(queueMaxLength, s); }
      case StopBeating => StopBeatingKeeps(queueMaxLength, s);
      case Connect => LoopKeeps(queueMaxLength, s);
      case Lose => LoopKeeps(queueMaxLength, s);
    }
  }

  lemma {:induction false} LoopKeeps(queueMaxLength: int, s: System)
    requires Inv(queueMaxLength, s)
    ensures s.loop.Greeted? ==> Inv(queueMaxLength, Apply(queueMaxLength, s, Connect))
    ensures s.loop.Reading? ==> Inv(queueMaxLength, Apply(queueMaxLength, s, Lose))
  {
    hide HistoryOk, Trace, Sends;
    assert s.wire + [] == s.wire;
  }

  lemma {:induction false} RunKeeps(queueMaxLength: int, steps: seq<Step>)
    ensures Inv(queueMaxLength, Run(queueMaxLength, steps))
  {
    hide Inv, Apply;
    if steps == [] {
      StartOk(queueMaxLength);
    } else {
      RunKeeps(queueMaxLength, steps[..|steps| - 1]);
      var s, step := Run(queueMaxLength, steps[..|steps| - 1]), steps[|steps| - 1];
      if Enabled(s, step) {
        StepKeeps(queueMaxLength, s, step);
      }
    }
  }

  lemma {:induction false} StartOk(queueMaxLength: int)
    ensures Inv(queueMaxLength, START)
  {
    var none: seq<Fragment> := [];
    assert none + none == none;
    assert Embeds(none, none, []);
  }

  // Main results.

  /** Nothing is reordered or sent twice across reconnects, and what is missing was given up:
      pushed out of the queue, or still in it at the close. */
  lemma {:induction false} QueueKeepsOrder(queueMaxLength: int, steps: seq<Step>)
    ensures var s := Run(queueMaxLength, steps);
            && Subsequence(s.written + s.client.pending, s.submitted)
            && |s.submitted| == |s.written| + |s.client.pending| + s.dropped
            && (s.dropped == 0 ==> s.written + s.client.pending == s.submitted)
  {
    hide Subsequence, WireOk, QueueOk, ClientOk;
    RunKeeps(queueMaxLength, steps);
    var s := Run(queueMaxLength, steps);
    if s.dropped == 0 {
      FullSubsequence(s.written + s.client.pending, s.submitted);
    }
  }

  lemma {:induction false} PositionsFill(positions: seq<nat>, limit: nat, i: nat)
    requires Increasing(positions) && |positions| == limit && i < limit
    requires forall j :: 0 <= j < |positions| ==> positions[j] < limit
    ensures positions[i] == i
  {
    PositionsLow(positions, i);
    PositionsHigh(positions, limit, i);
  }

  lemma {:induction false} PositionsLow(positions: seq<nat>, i: nat)
    requires Increasing(positions) && i < |positions|
    ensures i <= positions[i]
  {
    if i > 0 {
      PositionsLow(positions, i - 1);
    }
  }

  lemma {:induction false} PositionsHigh(positions: seq<nat>, limit: nat, i: nat)
    requires Increasing(positions) && i < |positions| <= limit
    requires forall j :: 0 <= j < |positions| ==> positions[j] < limit
    ensures positions[i] <= limit - (|positions| - i)
    decreases |positions| - i
  {
    if i + 1 < |positions| {
      PositionsHigh(positions, limit, i + 1);
    }
  }

  lemma {:induction false} FullSubsequence<T>(sub: seq<T>, whole: seq<T>)
    requires Subsequence(sub, whole) && |sub| == |whole|
    ensures sub == whole
  {
    var positions :| Embeds(sub, whole, positions);
    forall i | 0 <= i < |sub| ensures sub[i] == whole[i] {
      PositionsFill(positions, |whole|, i);
    }
  }

  /** Being ready means that nothing waits and there is a socket. While open and not ready, what waits is
      exactly the newest of the fragments submitted since readiness was last lost, up to the limit. */
  lemma {:induction false} QueueIsRecent(queueMaxLength: int, steps: seq<Step>)
    ensures var s := Run(queueMaxLength, steps);
            && (s.client.ready ==> s.client.pending == [] && s.client.connected)
            && (s.client.closed ==> s.client.pending == [] && !s.client.connected)
            && (!s.client.closed && !s.client.ready ==>
                  && IsSuffix(s.client.pending, s.sinceLost)
                  && |s.client.pending| == Min(|s.sinceLost|, EffectiveLimit(queueMaxLength)))
  {
    hide HistoryOk, WireOk;
    RunKeeps(queueMaxLength, steps);
  }

  /** What any run writes on a connection is PUSH, then heartbeats and fragments with data, then at most
      one CLOSE, and those fragments are the newest of all that were written. */
  lemma {:induction false} WireIsTrace(queueMaxLength: int, steps: seq<Step>)
    ensures var s := Run(queueMaxLength, steps);
            && (s.wire != [] ==> s.wire == Trace(s.greeting, s.items, s.closing) && s.greeting.kind == "PUSH")
            && NonEmptyData(Sends(s.items)) && IsSuffix(Sends(s.items), s.written)
  {
    hide Subsequence, QueueOk, ClientOk, Trace;
    RunKeeps(queueMaxLength, steps);
  }

  /** Close, which sends the interrupt with the mutex held, finds room for it and never blocks; and once
      closed, the heartbeat thread has ended or finds the interrupt. */
  lemma {:induction false} CloseEndsHeartbeats(queueMaxLength: int, steps: seq<Step>)
    ensures var s := Run(queueMaxLength, steps);
            && (!s.client.closed ==> s.client.interrupts == 0)
            && s.client.interrupts <= 1
            && (s.client.closed && s.beating ==> Enabled(s, StopBeating))
  {
    hide HistoryOk, WireOk, QueueOk, ClientOk;
    RunKeeps(queueMaxLength, steps);
  }

  /** The publisher is ready exactly when an OK came on the newest connection since it was connected, with no loss
      and no close after it. */
  lemma {:induction false} ReadyExactlyWhen(queueMaxLength: int, steps: seq<Step>)
    ensures var s := Run(queueMaxLength, steps); s.client.ready <==> s.acknowledged
  {
    hide HistoryOk, WireOk, QueueOk, ClientOk;
    RunKeeps(queueMaxLength, steps);
  }

  /** Then a fragment with data is written at once, as the last of all, and otherwise while open it waits as the
      last in the queue; one without data, or after the close, changes nothing. */
  lemma {:induction false} SubmittedGoesLast(queueMaxLength: int, steps: seq<Step>, fragment: Fragment)
    ensures var s := Run(queueMaxLength, steps);
            var t := Run(queueMaxLength, steps + [Submit(fragment)]);
            if fragment.data == [] || s.client.closed then
              t == s
            else if s.acknowledged then
              && t.written == s.written + [fragment] && t.client.pending == []
              && t.wire == s.wire + [Says(Message("F", map["duration" := PrintFloat(fragment.duration)])),
                                      Data(fragment.data)]
            else
              t.written == s.written && t.client.pending != [] && t.client.pending[|t.client.pending| - 1] == fragment
  {
    hide HistoryOk, WireOk, QueueOk, PrintFloat;
    RunKeeps(queueMaxLength, steps);
    assert Run(queueMaxLength, steps).wire + [] == Run(queueMaxLength, steps).wire;
    assert (steps + [Submit(fragment)])[..|steps|] == steps;
  }

  /** After the close nothing more is written: the wire stays as it is until somebody still dials, and gets nothing
      then but the greeting. */
  lemma {:induction false} ClosedWritesNoMore(queueMaxLength: int, s: System, step: Step)
    requires Inv(queueMaxLength, s) && s.client.closed && Enabled(s, step)
    ensures var t := Apply(queueMaxLength, s, step);
            && t.client.closed && t.written == s.written
            && (step.Dial? ==> |t.wire| == 1) && (!step.Dial? ==> t.wire == s.wire)
  {
    hide HistoryOk, WireOk, QueueOk;
    assert s.wire + [] == s.wire;
  }

  lemma {:induction false} CloseCloses(queueMaxLength: int, s: System)
    ensures var t := Apply(queueMaxLength, s, Close);
            && t.client.closed
            && (s.client.connected && !s.client.closed ==> t.wire == s.wire + [Says(Message("CLOSE", map[]))])
  {}

  /** What the newest connection began with names the stream and carries the token it was dialed with. */
  lemma {:induction false} GreetingIsDialed(queueMaxLength: int, steps: seq<Step>)
    ensures var s := Run(queueMaxLength, steps); s.wire != [] ==> GreetingOk(s.greeting, s.dialed)
  {
    hide HistoryOk, WireOk, QueueOk, ClientOk;
    RunKeeps(queueMaxLength, steps);
  }

  /** The connection loop and the heartbeats: dialing begins with PUSH, a connection stands from then until it is lost
      or the client is closed, a loss keeps the queue, and a heartbeat is written exactly while the connection
      stands. */
  lemma {:induction false} LoopSteps(queueMaxLength: int, steps: seq<Step>, step: Step)
    requires Enabled(Run(queueMaxLength, steps), step)
    ensures var s := Run(queueMaxLength, steps);
            var t := Apply(queueMaxLength, s, step);
            match step
            case Dial(streamId, auth) =>
              t.wire == [Says(Message("PUSH", map["stream" := streamId, "auth" := auth]))] && t.client == s.client
            case Connect => t.wire == s.wire && t.client == s.client.(connected := !s.client.closed)
            case Lose =>
              && t.wire == s.wire && !t.client.connected && !t.client.ready && t.client.pending == s.client.pending
              && t.loop.Dialing?
            case Heartbeat =>
              && t.wire == s.wire + (if s.loop.Reading? && !s.client.closed then [Says(Message("H", map[]))] else [])
              && t.client == s.client
            case StopBeating => t.wire == s.wire && !t.beating && t.client == s.client.(interrupts := 0)
            case _ => t.loop == s.loop && t.beating == s.beating
  {
    hide HistoryOk, WireOk, QueueOk, Run, Flush, FragmentPackets;
    RunKeeps(queueMaxLength, steps);
    assert Run(queueMaxLength, steps).wire + [] == Run(queueMaxLength, steps).wire;
  }
}
