/** The fan-out half shared by HlsSource (server/source.go) and HlsRelay (server/relay.go):
    a bounded buffer of recent fragments, and one bounded channel per listener. */
module FanOut {
  import opened Sequences
  import opened Fragments
  import opened MemoryLimiter

  /** Can a send on a channel complete now? An unbuffered channel hands over to a parked receiver only. */
  predicate HasRoom(capacity: nat, queue: seq<Event>, parked: bool) {
    if capacity == 0 then parked && queue == [] else |queue| < capacity
  }

  /** A non-blocking send. */
  function Offer(capacity: nat, queue: seq<Event>, parked: bool, event: Event): seq<Event> {
    if HasRoom(capacity, queue, parked) then queue + [event] else queue
  }

  /** The buffer after a fragment was added, given the limiter's answer. The limiter's trimmed
      buffer is taken over only when the fragment was refused. */
  function Retain(maxLength: int, buffer: seq<Fragment>, fragment: Fragment, answer: Answer): seq<Fragment> {
    if answer.canAdd then
      if |buffer| >= maxLength && |buffer| > 0 then buffer[1..] + [fragment] else buffer + [fragment]
    else
      answer.buffer
  }

  class Channel {
    const capacity: nat
    var queue: seq<Event>

    constructor (capacity: nat)
      ensures this.capacity == capacity && queue == []
    {
      this.capacity := capacity;
      queue := [];
    }

    method TrySend(event: Event, parked: bool) returns (sent: bool)
      modifies this
      ensures queue == Offer(capacity, old(queue), parked, event)
      ensures sent <==> HasRoom(capacity, old(queue), parked)
    {
      sent := HasRoom(capacity, queue, parked);
      if sent {
        queue := queue + [event];
      }
    }

    method Receive() returns (event: Event)
      requires queue != []
      modifies this
      ensures [event] + queue == old(queue)
    {
      event := queue[0];
      queue := queue[1..];
    }
  }

  class Broadcaster {
    const fragmentBufferMaxLength: nat
    const limiter: Limiter
    var listeners: map<nat, Channel>
    var fragmentBuffer: seq<Fragment>
    var closed: bool

    ghost predicate Valid()
      reads this
    {
      && (forall id :: id in listeners ==> listeners[id].capacity == fragmentBufferMaxLength)
      && (forall a, b :: a in listeners && b in listeners && a != b ==> listeners[a] != listeners[b])
      && (closed ==> listeners == map[])
    }

    constructor (maxLength: nat, limiter: Limiter)
      ensures Valid() && !closed && listeners == map[] && fragmentBuffer == []
      ensures fragmentBufferMaxLength == maxLength && this.limiter == limiter
    {
      fragmentBufferMaxLength, this.limiter := maxLength, limiter;
      listeners, fragmentBuffer, closed := map[], [], false;
    }

    method AddListener(id: nat) returns (success: bool, channel: Channel?, initial: seq<Fragment>)
      requires Valid()
      modifies this
      ensures Valid() && closed == old(closed) && fragmentBuffer == old(fragmentBuffer)
      ensures success <==> !closed
      ensures success ==>
                channel != null && fresh(channel) && channel.queue == [] && listeners == old(listeners)[id := channel]
      ensures success ==> initial == fragmentBuffer
      ensures !success ==> channel == null && initial == [] && listeners == old(listeners)
    {
      var lis := new Channel(fragmentBufferMaxLength);
      if closed {
        return false, null, [];
      }
      listeners := listeners[id := lis];
      return true, lis, fragmentBuffer;
    }

    method RemoveListener(id: nat)
      requires Valid()
      modifies this
      ensures Valid() && closed == old(closed) && fragmentBuffer == old(fragmentBuffer)
      ensures listeners == old(listeners) - {id}
    {
      listeners := listeners - {id};
    }

    method AddFragment(fragment: Fragment, parked: set<nat>)
      requires Valid()
      modifies this, limiter, listeners.Values
      ensures Valid() && closed == old(closed) && listeners == old(listeners)
      ensures closed ==> fragmentBuffer == old(fragmentBuffer) && limiter.usage == old(limiter.usage)
      ensures !closed ==>
                var answer := Check(limiter.config, old(limiter.usage), old(fragmentBuffer), fragment);
                && fragmentBuffer == Retain(fragmentBufferMaxLength, old(fragmentBuffer), fragment, answer)
                && limiter.usage == answer.usage
      ensures forall id :: id in listeners ==>
                listeners[id].queue ==
                Offer(fragmentBufferMaxLength, old(listeners[id].queue), id in parked, FragmentEvent(fragment))
    {
      hide Check, Offer, HasRoom;
      if closed {
        return;
      }
      var newBuffer, canAdd := limiter.CheckBeforeAddingFragment(fragmentBuffer, fragment);
      if canAdd {
        if |fragmentBuffer| >= fragmentBufferMaxLength && |fragmentBuffer| > 0 {
          fragmentBuffer := fragmentBuffer[1..] + [fragment];
        } else {
          fragmentBuffer := fragmentBuffer + [fragment];
        }
      } else {
        fragmentBuffer := newBuffer;
      }
      var todo := listeners.Keys;
      while todo != {}
        modifies listeners.Values
        invariant todo <= listeners.Keys
        invariant forall id :: id in todo ==> listeners[id].queue == old(listeners[id].queue)
        invariant forall id :: id in listeners && id !in todo ==>
                    listeners[id].queue ==
                    Offer(fragmentBufferMaxLength, old(listeners[id].queue), id in parked, FragmentEvent(fragment))
        decreases todo
      {
        var id :| id in todo;
        todo := todo - {id};
        var _ := listeners[id].TrySend(FragmentEvent(fragment), id in parked);
      }
    }

    /** Tells the listeners not yet told. The send blocks when a channel has no room, with the mutex
        held: the call then reports whom it has told, and is resumed with that set. */
    method Close(told: set<nat>, parked: set<nat>) returns (nowTold: set<nat>, finished: bool)
      requires Valid() && told <= listeners.Keys
      modifies this, listeners.Values
      ensures Valid() && fragmentBuffer == old(fragmentBuffer)
      ensures told <= nowTold <= old(listeners.Keys)
      ensures forall id :: id in old(listeners) ==>
                old(listeners)[id].queue ==
                old(listeners[id].queue) + if id in nowTold - told then [CloseEvent] else []
      ensures forall id :: id in nowTold - told ==>
                HasRoom(fragmentBufferMaxLength, old(listeners[id].queue), id in parked)
      ensures finished ==> closed && listeners == map[] && nowTold == old(listeners.Keys)
      ensures !finished ==> closed == old(closed) && listeners == old(listeners)
      ensures !finished ==> exists id :: id in listeners.Keys - nowTold &&
                                         !HasRoom(fragmentBufferMaxLength, listeners[id].queue, id in parked)
    {
      nowTold := told;
      if closed {
        return nowTold, true;
      }
      var todo := listeners.Keys - told;
      while todo != {}
        modifies listeners.Values
        invariant todo <= listeners.Keys && nowTold == listeners.Keys - todo && told !! todo
        invariant forall id :: id in listeners ==>
                    listeners[id].queue == old(listeners[id].queue) + if id in nowTold - told then [CloseEvent] else []
        invariant forall id :: id in nowTold - told ==>
                    HasRoom(fragmentBufferMaxLength, old(listeners[id].queue), id in parked)
        decreases todo
      {
        var id :| id in todo;
        var sent := listeners[id].TrySend(CloseEvent, id in parked);
        if !sent {
          return nowTold, false;
        }
        nowTold, todo := nowTold + {id}, todo - {id};
      }
      listeners := map[];
      closed := true;
      finished := true;
    }
  }

  // How the limiter's books fare under AddFragment as it is written.

  ghost predicate HaveData(fragments: seq<Fragment>) {
    forall f :: f in fragments ==> f.data != []
  }

  predicate Full(maxLength: int, buffer: seq<Fragment>) {
    |buffer| >= maxLength && |buffer| > 0
  }

  /** The bytes of the fragment that a full buffer drops. */
  function Dropped(maxLength: int, buffer: seq<Fragment>): nat {
    if Full(maxLength, buffer) then |buffer[0].data| else 0
  }

  lemma {:induction false} FirstBytes(buffer: seq<Fragment>)
    requires buffer != []
    ensures Bytes(buffer) == |buffer[0].data| + Bytes(buffer[1..])
    ensures Bytes(buffer[..1]) == |buffer[0].data|
  {
    assert buffer[..1] == [buffer[0]] && [buffer[0]][1..] == [];
  }

  /** What the buffer holds after an addition. */
  lemma {:induction false} RetainedBytes(maxLength: int, buffer: seq<Fragment>, fragment: Fragment, answer: Answer)
    ensures Bytes(Retain(maxLength, buffer, fragment, answer))
         == if answer.canAdd then Bytes(buffer) - Dropped(maxLength, buffer) + |fragment.data| else Bytes(answer.buffer)
  {
    hide Bytes;
    OneFragment(fragment);
    BytesAppend(buffer, [fragment]);
    if buffer != [] {
      BytesAppend(buffer[1..], [fragment]);
      FirstBytes(buffer);
    }
  }

  lemma {:induction false} OneFragment(fragment: Fragment)
    ensures Bytes([fragment]) == |fragment.data|
    ensures Bytes([]) == 0
  {}

  /** More than one eviction frees more bytes than the oldest fragment has. */
  lemma {:induction false} EvictedBytes(buffer: seq<Fragment>, evicted: nat)
    requires evicted <= |buffer| && HaveData(buffer)
    ensures evicted == 0 <==> Bytes(buffer[..evicted]) == 0
    ensures evicted == 1 ==> Bytes(buffer[..evicted]) == |buffer[0].data|
    ensures evicted > 1 ==> Bytes(buffer[..evicted]) > |buffer[0].data|
  {
    if evicted > 0 {
      FirstBytes(buffer[..evicted]);
      assert buffer[..evicted][0] == buffer[0];
      if evicted > 1 {
        FirstBytes(buffer[..evicted][1..]);
        assert buffer[..evicted][1..][0] == buffer[1] && buffer[1] in buffer;
      } else {
        assert buffer[..evicted][1..] == [];
      }
    }
  }

  lemma {:induction false} BooksByEvictions(config: Config, usage: int, buffer: seq<Fragment>, fragment: Fragment,
                                            maxLength: int, elsewhere: int)
    requires config.enabled && usage == elsewhere + Bytes(buffer)
    requires fragment.data != [] && HaveData(buffer)
    ensures var answer := Check(config, usage, buffer, fragment);
            var evicted := Evictions(config.limit, usage, |fragment.data|, buffer);
            (answer.usage == elsewhere + Bytes(Retain(maxLength, buffer, fragment, answer))
             <==> !answer.canAdd || evicted == if Full(maxLength, buffer) then 1 else 0)
  {
    hide Bytes, Evictions;
    var answer := Check(config, usage, buffer, fragment);
    var evicted := Evictions(config.limit, usage, |fragment.data|, buffer);
    RetainedBytes(maxLength, buffer, fragment, answer);
    RefusalIsLastResort(config, usage, buffer, fragment);
    EvictedBytes(buffer, evicted);
    OneFragment(fragment);
    if buffer != [] {
      assert buffer[0] in buffer;
    }
  }

  /** How many fragments go, in bytes known before. */
  lemma {:induction false} FewEvictions(limit: int, usage: int, need: nat, buffer: seq<Fragment>)
    requires usage - Bytes(buffer) + need <= limit
    ensures Evictions(limit, usage, need, buffer) == 0 <==> usage + need <= limit
    ensures Evictions(limit, usage, need, buffer) == 1
       <==> buffer != [] && usage + need > limit && usage - |buffer[0].data| + need <= limit
  {
    hide Evictions;
    OneFragment(Fragment(Decimal(0, 0), []));
    var evicted := Evictions(limit, usage, need, buffer);
    assert buffer[..0] == [] && buffer[..|buffer|] == buffer;
    if buffer != [] {
      FirstBytes(buffer);
    }
    if evicted > 0 {
      assert usage - Bytes(buffer[..0]) + need > limit;
    }
    if evicted > 1 {
      assert usage - Bytes(buffer[..1]) + need > limit;
    }
  }

  /** With the books right before the call, they are right after it exactly when not even an empty buffer would
      make room, or the fragment fits as it is and nothing is dropped, or it fits once the oldest fragment has
      gone and that is the one which is dropped. */
  lemma {:induction false} BooksStayRightExactlyWhen(config: Config, usage: int, buffer: seq<Fragment>,
                                                     fragment: Fragment, maxLength: int, elsewhere: int)
    requires config.enabled && usage == elsewhere + Bytes(buffer)
    requires fragment.data != [] && HaveData(buffer)
    ensures var answer := Check(config, usage, buffer, fragment);
            var need := |fragment.data|;
            (answer.usage == elsewhere + Bytes(Retain(maxLength, buffer, fragment, answer))
             <==>
             || usage - Bytes(buffer) + need > config.limit
             || if Full(maxLength, buffer) then
                  usage + need > config.limit && usage - |buffer[0].data| + need <= config.limit
                else
                  usage + need <= config.limit)
  {
    hide Bytes, Evictions, Check, Retain;
    BooksByEvictions(config, usage, buffer, fragment, maxLength, elsewhere);
    RefusalIsLastResort(config, usage, buffer, fragment);
    if usage - Bytes(buffer) + |fragment.data| <= config.limit {
      FewEvictions(config.limit, usage, |fragment.data|, buffer);
    }
  }

  /** The bytes held stay within the limit exactly when, for a fragment that is refused, what is held elsewhere
      is within it, and for one that is accepted, there is room for it beside all that is not dropped. */
  lemma {:induction false} HeldStaysWithinExactlyWhen(config: Config, usage: int, buffer: seq<Fragment>,
                                                      fragment: Fragment, maxLength: int, elsewhere: int)
    requires config.enabled && usage == elsewhere + Bytes(buffer)
    ensures var answer := Check(config, usage, buffer, fragment);
            var need := |fragment.data|;
            (elsewhere + Bytes(Retain(maxLength, buffer, fragment, answer)) <= config.limit
             <==>
             if need > 0 && usage - Bytes(buffer) + need > config.limit then
               usage - Bytes(buffer) <= config.limit
             else
               usage - Dropped(maxLength, buffer) + need <= config.limit)
  {
    hide Bytes, Evictions, Check, Retain, Dropped;
    var answer := Check(config, usage, buffer, fragment);
    RetainedBytes(maxLength, buffer, fragment, answer);
    RefusalIsLastResort(config, usage, buffer, fragment);
    OneFragment(fragment);
  }

  lemma {:induction false} ThreeBytes(f: Fragment)
    requires |f.data| == 3
    ensures Bytes([f]) == 3 && Bytes([f, f]) == 6 && Bytes([f, f, f]) == 9
  {
    BytesAppend([f], [f]);
    BytesAppend([f, f], [f]);
    assert [f] + [f] == [f, f] && [f, f] + [f] == [f, f, f];
  }

  /** The books do go wrong, both ways. A full buffer drops its oldest fragment without telling the limiter,
      which then counts more than is held. And a buffer that is not full keeps what the limiter evicted: with
      right books at the limit, an accepted fragment takes the bytes held beyond it. */
  lemma {:induction false} BooksGoWrong()
    ensures var f := Fragment(Decimal(1, 0), [0, 0, 0]);
            var counted, kept := Check(Config(true, 100), 6, [f, f], f), Check(Config(true, 6), 6, [f, f], f);
            && Bytes([f, f]) == 6
            && counted.canAdd && counted.usage == 9 && Bytes(Retain(2, [f, f], f, counted)) == 6
            && kept.canAdd && kept.usage == 6 && Bytes(Retain(10, [f, f], f, kept)) == 9
  {
    var f := Fragment(Decimal(1, 0), [0, 0, 0]);
    ThreeBytes(f);
    RefusalIsLastResort(Config(true, 100), 6, [f, f], f);
    RefusalIsLastResort(Config(true, 6), 6, [f, f], f);
    FewEvictions(100, 6, 3, [f, f]);
    FewEvictions(6, 6, 3, [f, f]);
    assert [f, f][..0] == [] && [f, f][..1] == [f];
    RetainedBytes(2, [f, f], f, Check(Config(true, 100), 6, [f, f], f));
    RetainedBytes(10, [f, f], f, Check(Config(true, 6), 6, [f, f], f));
  }

  /** What the buffer keeps of an accepted fragment: the newest ones, the new one last, as many as there is room for
      and never fewer. */
  lemma {:induction false} RetainsTheNewest(maxLength: int, buffer: seq<Fragment>, fragment: Fragment, answer: Answer)
    requires answer.canAdd && |buffer| <= if maxLength < 1 then 1 else maxLength
    ensures var kept := Retain(maxLength, buffer, fragment, answer);
            && IsSuffix(kept, buffer + [fragment])
            && |kept| == if |buffer| + 1 <= maxLength || buffer == [] then |buffer| + 1 else |buffer|
  {
    assert buffer != [] ==> buffer == [buffer[0]] + buffer[1..];
  }

  /** A fragment is put in a channel exactly when there is room, or somebody takes it from the sender's hand. */
  lemma {:induction false} OfferedExactlyWhen(capacity: nat, queue: seq<Event>, parked: bool, event: Event)
    requires |queue| <= capacity || (capacity == 0 && |queue| == 1)
    ensures Offer(capacity, queue, parked, event) ==
            if |queue| < capacity || (capacity == 0 && queue == [] && parked) then queue + [event] else queue
  {}
}
