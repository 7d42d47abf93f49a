/** Any number of sources and relays, on any number of servers, with any number of pullers.
    Every step is one critical section, one send, or one receive; steps interleave freely. */
module RelayNetwork {
  import opened Sequences
  import opened Fragments
  import opened MemoryLimiter
  import opened FanOut
  import opened StreamPull

  type HubId = nat
  type PullId = nat

  /** A close holds the mutex while it tells the listeners one by one. */
  datatype Phase = Open | Closing(untold: set<PullId>) | Closed

  /** A source (`origin`) or a relay. A relay reads what the pull `feed` wrote on its socket:
      `read` fragments so far. `history` lists the fragments accepted by AddFragment. */
  datatype Hub = Hub(
    origin: bool, maxLength: nat, buffer: seq<Fragment>, listeners: set<PullId>, phase: Phase,
    feed: Option<PullId>, read: nat, history: seq<Fragment>)

  /** A puller: initial fragments still to send, its channel, what it wrote on its socket.
      The second line is history: where in the hub's history it joined, its share of the snapshot,
      every fragment offered to its channel, every event put in it, the history positions of
      what it was given, whether an offer was ever dropped, and whether it unregistered. */
  datatype Pull = Pull(
    hub: HubId, pending: seq<Fragment>, queue: seq<Event>, sent: seq<Fragment>, done: bool, closeSent: bool,
    base: nat, initial: seq<Fragment>, offered: seq<Fragment>, log: seq<Event>, trail: seq<nat>, dropped: bool,
      left: bool)

  datatype Network = Network(hubs: map<HubId, Hub>, pulls: map<PullId, Pull>)

  /** The limiter is shared with streams outside the picture, so the usage it starts from is arbitrary. */
  datatype Limits = Limits(config: Config, usage: int)

  datatype Step =
    | CreateHub(h: HubId, origin: bool, maxLength: nat)
    | AttachFeed(h: HubId, p: PullId)
    | Publish(h: HubId, fragment: Fragment, limits: Limits, parked: set<PullId>)
    | RelayRead(h: HubId, limits: Limits, parked: set<PullId>)
    | Join(h: HubId, p: PullId, maxInitial: int)
    | SendInitial(p: PullId)
    | Receive(p: PullId)
    | Interrupt(p: PullId)
    | Leave(p: PullId)
    | BeginClose(h: HubId)
    | Tell(h: HubId, p: PullId, receiving: bool)
    | EndClose(h: HubId)
    | CloseInactive(h: HubId)

  /** A puller waits at its channel only between its initial fragments and its end. */
  predicate CanPark(s: Network, parked: set<PullId>) {
    forall p :: p in parked && p in s.pulls ==> !s.pulls[p].done && s.pulls[p].pending == []
  }

  predicate Enabled(s: Network, step: Step) {
    match step
    case CreateHub(h, _, _) => h !in s.hubs
    case AttachFeed(h, p) => h in s.hubs && !s.hubs[h].origin && s.hubs[h].feed.None? && p in s.pulls
    case Publish(h, _, _, parked) => h in s.hubs && s.hubs[h].origin && !s.hubs[h].phase.Closing? && CanPark(s, parked)
    case RelayRead(h, _, parked) =>
      && CanPark(s, parked)
      && h in s.hubs && !s.hubs[h].phase.Closing?
      && s.hubs[h].feed.Some? && s.hubs[h].feed.value in s.pulls
      && s.hubs[h].read < |s.pulls[s.hubs[h].feed.value].sent|
    case Join(h, p, maxInitial) =>
      h in s.hubs && s.hubs[h].phase.Open? && p !in s.pulls && maxInitial <= |s.hubs[h].buffer|
    case SendInitial(p) => p in s.pulls && !s.pulls[p].done && s.pulls[p].pending != []
    case Receive(p) => p in s.pulls && !s.pulls[p].done && s.pulls[p].pending == [] && s.pulls[p].queue != []
    case Interrupt(p) => p in s.pulls && !s.pulls[p].done && s.pulls[p].pending == []
    case Leave(p) => p in s.pulls && s.pulls[p].done && s.pulls[p].hub in s.hubs && s.hubs[s.pulls[p].hub].phase.Open?
    case BeginClose(h) => h in s.hubs && s.hubs[h].phase.Open?
    case Tell(h, p, receiving) =>
      && h in s.hubs && s.hubs[h].phase.Closing? && p in s.hubs[h].phase.untold && p in s.pulls
      && HasRoom(s.hubs[h].maxLength, s.pulls[p].queue, receiving)
      && (receiving ==> CanPark(s, {p}))
    case EndClose(h) => h in s.hubs && s.hubs[h].phase == Closing({})
    case CloseInactive(h) => h in s.hubs && !s.hubs[h].origin && s.hubs[h].phase.Open? && s.hubs[h].listeners == {}
  }

  function OfferTo(pull: Pull, fragment: Fragment, position: nat, capacity: nat, parked: bool): (after: Pull)
    ensures after.hub == pull.hub && after.sent == pull.sent
  {
    var event := FragmentEvent(fragment);
    if HasRoom(capacity, pull.queue, parked) then
      pull.(queue := Offer(capacity, pull.queue, parked, event), offered := pull.offered + [fragment],
      log := pull.log + [event], trail := pull.trail + [position])
    else
      pull.(queue := Offer(capacity, pull.queue, parked, event), offered := pull.offered + [fragment], dropped := true)
  }

  /** AddFragment. */
  function AddFragment(s: Network, h: HubId, fragment: Fragment, limits: Limits, parked: set<PullId>): Network
    requires h in s.hubs
  {
    var hub := s.hubs[h];
    if hub.phase.Closed? then s
    else
      var answer := Check(limits.config, limits.usage, hub.buffer, fragment);
      var grown := hub.(buffer := Retain(hub.maxLength, hub.buffer, fragment, answer),
                        history := hub.history + [fragment]);
      Network(s.hubs[h := grown],
              map p | p in s.pulls ::
                if p in hub.listeners then OfferTo(s.pulls[p], fragment, |hub.history|, hub.maxLength, p in parked)
                else s.pulls[p])
  }

  function NewPull(h: HubId, initial: seq<Fragment>, now: nat): Pull {
    var base: nat := if now >= |initial| then now - |initial| else 0;
    Pull(h, initial, [], [], false, false,
         base, initial, [], [], seq(|initial|, i requires 0 <= i < |initial| => base + i), false, false)
  }

  function Apply(s: Network, step: Step): Network
    requires Enabled(s, step)
  {
    match step
    case CreateHub(h, origin, maxLength) =>
      s.(hubs := s.hubs[h := Hub(origin, maxLength, [], {}, Open, None, 0, [])])
    case AttachFeed(h, p) =>
      s.(hubs := s.hubs[h := s.hubs[h].(feed := Some(p))])
    case Publish(h, fragment, limits, parked) =>
      AddFragment(s, h, fragment, limits, parked)
    case RelayRead(h, limits, parked) =>
      var hub := s.hubs[h];
      var fragment := s.pulls[hub.feed.value].sent[hub.read];
      AddFragment(s.(hubs := s.hubs[h := hub.(read := hub.read + 1)]), h, fragment, limits, parked)
    case Join(h, p, maxInitial) =>
      var hub := s.hubs[h];
      InitialSendsExactlyWhen(hub.buffer, maxInitial);
      var initial := InitialSends(hub.buffer, maxInitial).value;
      Network(s.hubs[h := hub.(listeners := hub.listeners + {p})], s.pulls[p := NewPull(h, initial, |hub.history|)])
    case SendInitial(p) =>
      var pull := s.pulls[p];
      s.(pulls := s.pulls[p := pull.(pending := pull.pending[1..], sent := pull.sent + [pull.pending[0]])])
    case Receive(p) =>
      var pull := s.pulls[p];
      (match pull.queue[0]
       case CloseEvent =>
         s.(pulls := s.pulls[p := pull.(queue := pull.queue[1..], done := true, closeSent := true)])
       case FragmentEvent(fragment) =>
         s.(pulls := s.pulls[p := pull.(queue := pull.queue[1..], sent := pull.sent + [fragment])]))
    case Interrupt(p) =>
      s.(pulls := s.pulls[p := s.pulls[p].(done := true)])
    case Leave(p) =>
      var h := s.pulls[p].hub;
      Network(s.hubs[h := s.hubs[h].(listeners := s.hubs[h].listeners - {p})], s.pulls[p := s.pulls[p].(left := true)])
    case BeginClose(h) =>
      s.(hubs := s.hubs[h := s.hubs[h].(phase := Closing(s.hubs[h].listeners))])
    case Tell(h, p, receiving) =>
      var pull := s.pulls[p];
      Network(s.hubs[h := s.hubs[h].(phase := Closing(s.hubs[h].phase.untold - {p}))],
              s.pulls[p := pull.(queue := pull.queue + [CloseEvent], log := pull.log + [CloseEvent])])
    case EndClose(h) =>
      s.(hubs := s.hubs[h := s.hubs[h].(phase := Closed, listeners := {})])
    case CloseInactive(h) =>
      s.(hubs := s.hubs[h := s.hubs[h].(phase := Closed, listeners := {})])
  }

  /** A run: steps that cannot happen at their turn are skipped, so every list of steps is one. */
  function RunFrom(start: Network, steps: seq<Step>): Network {
    if steps == [] then start
    else
      var s := RunFrom(start, steps[..|steps| - 1]);
      var step := steps[|steps| - 1];
      if Enabled(s, step) then Apply(s, step) else s
  }

  function Run(steps: seq<Step>): Network {
    RunFrom(Network(map[], map[]), steps)
  }

  // The invariant.

  ghost predicate EndsClosed(log: seq<Event>) {
    log != [] && log[|log| - 1].CloseEvent?
  }

  /** Fragment* Close? */
  ghost predicate WellOrdered(log: seq<Event>) {
    forall i :: 0 <= i < |log| - 1 ==> log[i].FragmentEvent?
  }

  /** What the puller was given and has not lost: sent, or still on its way. */
  ghost function Given(pull: Pull): seq<Fragment> {
    Way(pull.sent, pull.pending, pull.queue)
  }

  ghost function Way(sent: seq<Fragment>, pending: seq<Fragment>, queue: seq<Event>): seq<Fragment> {
    sent + pending + Carried(queue)
  }

  /** One past the last history position this puller was offered. */
  ghost function Horizon(pull: Pull): nat {
    pull.base + |pull.initial| + |pull.offered|
  }

  ghost predicate OrderOk(pull: Pull, history: seq<Fragment>) {
    && Horizon(pull) <= |history|
    && pull.initial + pull.offered == history[pull.base..Horizon(pull)]
    && Embeds(Given(pull), history, pull.trail)
    && (forall i :: 0 <= i < |pull.trail| ==> pull.base <= pull.trail[i] < Horizon(pull))
    && (!pull.dropped ==> |pull.trail| == |pull.initial| + |pull.offered|)
  }

  ghost predicate LogOk(pull: Pull) {
    && Given(pull) == pull.initial + Carried(pull.log)
    && WellOrdered(pull.log)
    && IsSuffix(pull.queue, pull.log)
    && (pull.closeSent ==> EndsClosed(pull.log) && pull.queue == [] && pull.pending == [])
    && (pull.left ==> !EndsClosed(pull.log))
  }

  ghost predicate RegisteredOk(p: PullId, pull: Pull, hub: Hub) {
    && (p in hub.listeners <==> !hub.phase.Closed? && !pull.left)
    && (!pull.left ==> Horizon(pull) == |hub.history|)
    && match hub.phase
       case Open => !EndsClosed(pull.log)
       case Closing(untold) => EndsClosed(pull.log) <==> !pull.left && p !in untold
       case Closed => EndsClosed(pull.log) <==> !pull.left
  }

  ghost predicate PullOk(p: PullId, pull: Pull, hub: Hub) {
    OrderOk(pull, hub.history) && LogOk(pull) && RegisteredOk(p, pull, hub)
  }

  ghost predicate BufferOk(maxLength: nat, buffer: seq<Fragment>, history: seq<Fragment>) {
    |buffer| <= (if maxLength == 0 then 1 else maxLength) && IsSuffix(buffer, history)
  }

  ghost predicate FeedOk(hub: Hub, sent: seq<Fragment>) {
    && hub.history <= sent
    && |hub.history| <= hub.read <= |sent|
    && (hub.phase.Closed? || |hub.history| == hub.read)
  }

  ghost predicate HubOk(h: HubId, hub: Hub, pulls: map<PullId, Pull>) {
    && BufferOk(hub.maxLength, hub.buffer, hub.history)
    && (forall p :: p in hub.listeners ==> p in pulls && pulls[p].hub == h)
    && (hub.phase.Closing? ==> hub.phase.untold <= hub.listeners)
    && match hub.feed
       case None => hub.read == 0 && (hub.origin || hub.history == [])
       case Some(p) => !hub.origin && p in pulls && FeedOk(hub, pulls[p].sent)
  }

  ghost predicate HubsOk(s: Network) {
    forall h :: h in s.hubs ==> HubOk(h, s.hubs[h], s.pulls)
  }

  ghost predicate PullsOk(s: Network) {
    forall p :: p in s.pulls ==> s.pulls[p].hub in s.hubs && PullOk(p, s.pulls[p], s.hubs[s.pulls[p].hub])
  }

  ghost predicate Inv(s: Network) {
    HubsOk(s) && PullsOk(s)
  }

  // What single steps do to one puller.

  lemma {:induction false} WayGrows(sent: seq<Fragment>, pending: seq<Fragment>, queue: seq<Event>, fragment: Fragment)
    ensures Way(sent, pending, queue + [FragmentEvent(fragment)]) == Way(sent, pending, queue) + [fragment]
    ensures Way(sent, pending, queue + [CloseEvent]) == Way(sent, pending, queue)
  {
    CarriedAppend(queue, [FragmentEvent(fragment)]);
    CarriedAppend(queue, [CloseEvent]);
  }

  lemma {:induction false} OfferKeepsOrder(pull: Pull, history: seq<Fragment>, fragment: Fragment, capacity: nat,
                                           parked: bool)
    requires OrderOk(pull, history) && Horizon(pull) == |history|
    ensures var after := OfferTo(pull, fragment, |history|, capacity, parked);
            OrderOk(after, history + [fragment]) && Horizon(after) == |history| + 1
  {
    hide Embeds, Way;
    WayGrows(pull.sent, pull.pending, pull.queue, fragment);
    EmbedsGrows(Given(pull), history, pull.trail, fragment);
    assert pull.initial + (pull.offered + [fragment]) == pull.initial + pull.offered + [fragment];
  }

  lemma {:induction false} OrderGrows(log: seq<Event>, event: Event)
    requires WellOrdered(log) && !EndsClosed(log)
    ensures WellOrdered(log + [event])
  {}

  /** A fragment that fits goes to the end of the channel and of its log. */
  lemma {:induction false} SendKeepsLog(pull: Pull, after: Pull, fragment: Fragment)
    requires LogOk(pull) && !EndsClosed(pull.log)
    requires after == pull.(queue := pull.queue + [FragmentEvent(fragment)], offered := after.offered,
                            log := pull.log + [FragmentEvent(fragment)], trail := after.trail)
    ensures LogOk(after) && !EndsClosed(after.log)
  {
    hide Way, Carried, IsSuffix, WellOrdered;
    WayGrows(pull.sent, pull.pending, pull.queue, fragment);
    CarriedAppend(pull.log, [FragmentEvent(fragment)]);
    CarriedOne(fragment);
    assert Given(after) == Given(pull) + [fragment];
    assert pull.initial + Carried(pull.log) + [fragment] == pull.initial + (Carried(pull.log) + [fragment]);
    SuffixGrows(pull.queue, pull.log, FragmentEvent(fragment));
    OrderGrows(pull.log, FragmentEvent(fragment));
  }

  lemma {:induction false} OfferKeepsLog(pull: Pull, fragment: Fragment, position: nat, capacity: nat, parked: bool)
    requires LogOk(pull) && !EndsClosed(pull.log)
    ensures var after := OfferTo(pull, fragment, position, capacity, parked);
            LogOk(after) && !EndsClosed(after.log)
  {
    hide Way, Carried, IsSuffix, WellOrdered, LogOk, EndsClosed;
    if HasRoom(capacity, pull.queue, parked) {
      SendKeepsLog(pull, OfferTo(pull, fragment, position, capacity, parked), fragment);
    } else {
      DropKeepsLog(pull, OfferTo(pull, fragment, position, capacity, parked));
    }
  }

  lemma {:induction false} DropKeepsLog(pull: Pull, after: Pull)
    requires LogOk(pull) && after == pull.(offered := after.offered, dropped := true)
    ensures LogOk(after)
  {
    hide Way, Carried, IsSuffix, WellOrdered, EndsClosed;
  }

  lemma {:induction false} OfferKeeps(p: PullId, pull: Pull, hub: Hub, grown: Hub, fragment: Fragment, parked: bool)
    requires PullOk(p, pull, hub) && p in hub.listeners && hub.phase.Open?
    requires grown == hub.(buffer := grown.buffer, read := grown.read, history := hub.history + [fragment])
    ensures PullOk(p, OfferTo(pull, fragment, |hub.history|, hub.maxLength, parked), grown)
  {
    hide OrderOk, LogOk;
    OfferKeepsOrder(pull, hub.history, fragment, hub.maxLength, parked);
    OfferKeepsLog(pull, fragment, |hub.history|, hub.maxLength, parked);
  }

  lemma {:induction false} GrowthKeeps(p: PullId, pull: Pull, hub: Hub, grown: Hub, fragment: Fragment)
    requires PullOk(p, pull, hub) && p !in hub.listeners && hub.phase.Open?
    requires grown == hub.(buffer := grown.buffer, read := grown.read, history := hub.history + [fragment])
    ensures PullOk(p, pull, grown)
  {}

  lemma {:induction false} ReadKeeps(p: PullId, pull: Pull, hub: Hub)
    requires PullOk(p, pull, hub)
    ensures PullOk(p, pull, hub.(read := hub.read + 1))
  {
    hide OrderOk, LogOk;
  }

  lemma {:induction false} StopKeeps(p: PullId, pull: Pull, hub: Hub)
    requires PullOk(p, pull, hub)
    ensures PullOk(p, pull.(done := true), hub)
  {}

  lemma {:induction false} LeavingOk(pull: Pull, history: seq<Fragment>)
    requires OrderOk(pull, history) && LogOk(pull) && !EndsClosed(pull.log)
    ensures OrderOk(pull.(left := true), history) && LogOk(pull.(left := true))
  {}

  lemma {:induction false} JoinKeepsOther(q: PullId, pull: Pull, hub: Hub, p: PullId)
    requires PullOk(q, pull, hub) && q != p
    ensures PullOk(q, pull, hub.(listeners := hub.listeners + {p}))
  {
    hide OrderOk, LogOk;
  }

  /** What a step of a hub alone may do: get its feed, begin or end its close. */
  ghost predicate ChangesPhase(before: Hub, after: Hub) {
    && after == before.(listeners := after.listeners, phase := after.phase, feed := after.feed)
    && (|| (after.listeners == before.listeners && after.phase == before.phase)
        || (after.listeners == before.listeners && before.phase.Open? && after.phase == Closing(before.listeners))
        || (after.listeners == {} && before.phase == Closing({}) && after.phase.Closed?)
        || (after.listeners == {} == before.listeners && before.phase.Open? && after.phase.Closed?))
  }

  lemma {:induction false} PhaseKeeps(p: PullId, pull: Pull, before: Hub, after: Hub)
    requires PullOk(p, pull, before) && ChangesPhase(before, after)
    ensures PullOk(p, pull, after)
  {
    hide OrderOk, LogOk;
  }

  lemma {:induction false} SendInitialKeeps(p: PullId, pull: Pull, hub: Hub)
    requires PullOk(p, pull, hub) && pull.pending != []
    ensures PullOk(p, pull.(pending := pull.pending[1..], sent := pull.sent + [pull.pending[0]]), hub)
  {
    assert Given(pull.(pending := pull.pending[1..], sent := pull.sent + [pull.pending[0]])) == Given(pull);
  }

  lemma {:induction false} ReceiveKeeps(p: PullId, pull: Pull, hub: Hub, after: Pull)
    requires PullOk(p, pull, hub) && pull.pending == [] && pull.queue != []
    requires after == match pull.queue[0]
                      case CloseEvent => pull.(queue := pull.queue[1..], done := true, closeSent := true)
                      case FragmentEvent(fragment) => pull.(queue := pull.queue[1..], sent := pull.sent + [fragment])
    ensures PullOk(p, after, hub)
  {
    hide Way, IsSuffix, Embeds;
    SuffixGrows(pull.queue, pull.log, CloseEvent);
    WayMoves(pull.sent, pull.queue);
    assert pull.queue[0].CloseEvent? ==> |pull.queue| == 1 by {
      SuffixFits(pull.queue, pull.log);
    }
  }

  /** Receiving moves a fragment from the channel to the socket. */
  lemma {:induction false} WayMoves(sent: seq<Fragment>, queue: seq<Event>)
    requires queue != []
    ensures Way(sent, [], queue) ==
            Way(if queue[0].FragmentEvent? then sent + [queue[0].fragment] else sent, [], queue[1..])
  {}

  /** CLOSE goes to the end of the channel and of its log. */
  lemma {:induction false} CloseKeepsLog(pull: Pull)
    requires LogOk(pull) && !EndsClosed(pull.log) && !pull.left
    ensures var after := pull.(queue := pull.queue + [CloseEvent], log := pull.log + [CloseEvent]);
            LogOk(after) && EndsClosed(after.log) && Given(after) == Given(pull)
  {
    hide Way, IsSuffix, Carried, WellOrdered;
    WayGrows(pull.sent, pull.pending, pull.queue, Fragment(Decimal(0, 0), []));
    CarriedAppend(pull.log, [CloseEvent]);
    CarriedOne(Fragment(Decimal(0, 0), []));
    assert Carried(pull.log) + [] == Carried(pull.log);
    SuffixGrows(pull.queue, pull.log, CloseEvent);
    OrderGrows(pull.log, CloseEvent);
  }

  lemma {:induction false} TellKeeps(p: PullId, pull: Pull, hub: Hub)
    requires PullOk(p, pull, hub) && hub.phase.Closing? && p in hub.phase.untold && p in hub.listeners
    ensures PullOk(p, pull.(queue := pull.queue + [CloseEvent], log := pull.log + [CloseEvent]),
                   hub.(phase := Closing(hub.phase.untold - {p})))
  {
    hide Way, Given, LogOk, Embeds, EndsClosed;
    CloseKeepsLog(pull);
  }

  lemma {:induction false} NewPullOk(h: HubId, initial: seq<Fragment>, history: seq<Fragment>)
    requires IsSuffix(initial, history)
    ensures var pull := NewPull(h, initial, |history|);
            OrderOk(pull, history) && LogOk(pull) && Horizon(pull) == |history|
  {
    hide Embeds;
    var pull := NewPull(h, initial, |history|);
    assert initial + pull.offered == initial;
    assert Given(pull) == initial;
    SuffixEmbeds(initial, history);
    assert pull.trail == seq(|initial|, i requires 0 <= i < |initial| => |history| - |initial| + i);
  }

  lemma {:induction false} JoinedRegistered(p: PullId, h: HubId, hub: Hub, maxInitial: int)
    requires BufferOk(hub.maxLength, hub.buffer, hub.history) && maxInitial <= |hub.buffer| && hub.phase.Open?
    ensures InitialSends(hub.buffer, maxInitial).Some?
    ensures PullOk(p, NewPull(h, InitialSends(hub.buffer, maxInitial).value, |hub.history|),
              hub.(listeners := hub.listeners + {p}))
  {
    hide OrderOk, LogOk, InitialSends, IsSuffix;
    InitialSendsExactlyWhen(hub.buffer, maxInitial);
    var initial := InitialSends(hub.buffer, maxInitial).value;
    SuffixOfSuffix(initial, hub.buffer, hub.history);
    NewPullOk(h, initial, hub.history);
  }

  lemma {:induction false} RetainKeepsBuffer(maxLength: nat, buffer: seq<Fragment>, history: seq<Fragment>,
                                             fragment: Fragment, limits: Limits)
    requires BufferOk(maxLength, buffer, history)
    ensures var answer := Check(limits.config, limits.usage, buffer, fragment);
            BufferOk(maxLength, Retain(maxLength, buffer, fragment, answer), history + [fragment])
  {
    hide Check, Evictions, Bytes, IsSuffix;
    RefusalIsLastResort(limits.config, limits.usage, buffer, fragment);
    SuffixGrows(buffer, history, fragment);
    if buffer != [] {
      SuffixGrows(buffer[1..], history, fragment);
    }
    NothingIsSuffix(history + [fragment]);
  }

  lemma {:induction false} NothingIsSuffix<T>(whole: seq<T>)
    ensures IsSuffix([], whole)
  {}

  // Every step keeps the invariant.

  /** Pullers stay with their hub, and never take back what they wrote. */
  ghost predicate PullsGrow(before: map<PullId, Pull>, after: map<PullId, Pull>) {
    forall p :: p in before ==> p in after && after[p].hub == before[p].hub && before[p].sent <= after[p].sent
  }

  lemma {:induction false} HubStays(h: HubId, hub: Hub, before: map<PullId, Pull>, after: map<PullId, Pull>)
    requires HubOk(h, hub, before) && PullsGrow(before, after)
    ensures HubOk(h, hub, after)
  {
    hide BufferOk;
  }

  lemma {:induction false} HubsStay(s: Network, h: HubId, hub: Hub, pulls: map<PullId, Pull>)
    requires HubsOk(s) && PullsGrow(s.pulls, pulls) && HubOk(h, hub, pulls)
    ensures HubsOk(Network(s.hubs[h := hub], pulls))
  {
    hide HubOk, PullsGrow;
    forall g | g in s.hubs && g != h ensures HubOk(g, s.hubs[g], pulls) {
      HubStays(g, s.hubs[g], s.pulls, pulls);
    }
  }

  lemma {:induction false} PullsStay(s: Network, h: HubId, hub: Hub, pulls: map<PullId, Pull>)
    requires PullsOk(s)
    requires forall q :: q in pulls && pulls[q].hub == h ==> PullOk(q, pulls[q], hub)
    requires forall q :: q in pulls && pulls[q].hub != h ==> q in s.pulls && pulls[q] == s.pulls[q]
    ensures PullsOk(Network(s.hubs[h := hub], pulls))
  {
    hide PullOk;
  }

  lemma {:induction false} AddFragmentKeepsPulls(s: Network, h: HubId, fragment: Fragment, limits: Limits,
                                                 parked: set<PullId>)
    requires PullsOk(s) && h in s.hubs && s.hubs[h].phase.Open?
    requires forall p :: p in s.hubs[h].listeners && p in s.pulls ==> s.pulls[p].hub == h
    ensures PullsOk(AddFragment(s, h, fragment, limits, parked))
  {
    hide PullOk, OfferTo, Check, Retain;
    var hub := s.hubs[h];
    var t := AddFragment(s, h, fragment, limits, parked);
    forall p | p in t.pulls && t.pulls[p].hub == h ensures PullOk(p, t.pulls[p], t.hubs[h]) {
      if p in hub.listeners {
        OfferKeeps(p, s.pulls[p], hub, t.hubs[h], fragment, p in parked);
      } else {
        GrowthKeeps(p, s.pulls[p], hub, t.hubs[h], fragment);
      }
    }
    PullsStay(s, h, t.hubs[h], t.pulls);
  }

  lemma {:induction false} AddFragmentKeepsHub(s: Network, h: HubId, fragment: Fragment, limits: Limits,
                                               parked: set<PullId>)
    requires h in s.hubs && s.hubs[h].phase.Open? && BufferOk(s.hubs[h].maxLength, s.hubs[h].buffer, s.hubs[h].history)
    requires forall p :: p in s.hubs[h].listeners ==> p in s.pulls && s.pulls[p].hub == h
    requires match s.hubs[h].feed
             case None => s.hubs[h].read == 0 && s.hubs[h].origin
             case Some(p) => !s.hubs[h].origin && p in s.pulls && s.hubs[h].history + [fragment] <= s.pulls[p].sent
                             && s.hubs[h].read == |s.hubs[h].history| + 1
    ensures var t := AddFragment(s, h, fragment, limits, parked);
            HubOk(h, t.hubs[h], t.pulls) && PullsGrow(s.pulls, t.pulls)
  {
    hide BufferOk, OfferTo, Check, Retain;
    RetainKeepsBuffer(s.hubs[h].maxLength, s.hubs[h].buffer, s.hubs[h].history, fragment, limits);
  }

  lemma {:induction false} PublishKeeps(s: Network, h: HubId, fragment: Fragment, limits: Limits, parked: set<PullId>)
    requires Inv(s) && Enabled(s, Publish(h, fragment, limits, parked))
    ensures Inv(Apply(s, Publish(h, fragment, limits, parked)))
  {
    hide PullsOk, BufferOk, OfferTo, Check, Retain;
    var t := AddFragment(s, h, fragment, limits, parked);
    assert HubOk(h, s.hubs[h], s.pulls);
    if s.hubs[h].phase.Open? {
      AddFragmentKeepsPulls(s, h, fragment, limits, parked);
      AddFragmentKeepsHub(s, h, fragment, limits, parked);
      HubsStay(s, h, t.hubs[h], t.pulls);
    }
  }

  lemma {:induction false} ReadKeepsPulls(s: Network, h: HubId)
    requires PullsOk(s) && h in s.hubs
    ensures PullsOk(Network(s.hubs[h := s.hubs[h].(read := s.hubs[h].read + 1)], s.pulls))
  {
    hide PullOk;
    var hub := s.hubs[h].(read := s.hubs[h].read + 1);
    forall p | p in s.pulls && s.pulls[p].hub == h ensures PullOk(p, s.pulls[p], hub) {
      ReadKeeps(p, s.pulls[p], s.hubs[h]);
    }
    PullsStay(s, h, hub, s.pulls);
  }

  lemma {:induction false} RelayReadKeeps(s: Network, h: HubId, limits: Limits, parked: set<PullId>)
    requires Inv(s) && Enabled(s, RelayRead(h, limits, parked))
    ensures Inv(Apply(s, RelayRead(h, limits, parked)))
  {
    hide PullsOk, HubsOk, BufferOk, OfferTo, Check, Retain, AddFragment;
    var hub := s.hubs[h];
    var bumped := s.(hubs := s.hubs[h := hub.(read := hub.read + 1)]);
    var fragment := s.pulls[hub.feed.value].sent[hub.read];
    var t := AddFragment(bumped, h, fragment, limits, parked);
    HubIsOk(s, h);
    ReadKeepsPulls(s, h);
    if hub.phase.Open? {
      AddFragmentKeepsPulls(bumped, h, fragment, limits, parked);
      AddFragmentKeepsHub(bumped, h, fragment, limits, parked);
    } else {
      ClosedIgnoresFragments(bumped, h, fragment, limits, parked);
    }
    AddFragmentTouches(bumped, h, fragment, limits, parked);
    HubsStay(s, h, t.hubs[h], t.pulls);
    assert t == Network(s.hubs[h := t.hubs[h]], t.pulls);
  }

  lemma {:induction false} HubIsOk(s: Network, h: HubId)
    requires HubsOk(s) && h in s.hubs
    ensures HubOk(h, s.hubs[h], s.pulls)
  {
    hide HubOk;
  }

  lemma {:induction false} AddFragmentTouches(s: Network, h: HubId, fragment: Fragment, limits: Limits,
                                              parked: set<PullId>)
    requires h in s.hubs
    ensures var t := AddFragment(s, h, fragment, limits, parked);
            h in t.hubs && t.hubs == s.hubs[h := t.hubs[h]]
  {
    hide OfferTo, Check, Retain;
  }

  lemma {:induction false} ClosedIgnoresFragments(s: Network, h: HubId, fragment: Fragment, limits: Limits,
                                                  parked: set<PullId>)
    requires h in s.hubs && s.hubs[h].phase.Closed?
    ensures AddFragment(s, h, fragment, limits, parked) == s
  {
    hide OfferTo, Check, Retain;
  }

  /** What a step of one puller may do to its hub. */
  ghost predicate HubStep(before: Hub, after: Hub, p: PullId) {
    && after == before.(listeners := after.listeners, phase := after.phase)
    && before.listeners - {p} <= after.listeners <= before.listeners
    && match before.phase
       case Closing(untold) => after.phase.Closing? && untold - {p} <= after.phase.untold <= untold &&
         after.phase.untold <= after.listeners
       case _ => after.phase == before.phase
  }

  lemma {:induction false} OtherPullStays(q: PullId, pull: Pull, before: Hub, after: Hub, p: PullId)
    requires PullOk(q, pull, before) && q != p && HubStep(before, after, p)
    ensures PullOk(q, pull, after)
  {
    hide OrderOk, LogOk;
  }

  lemma {:induction false} HubStepKeepsHub(h: HubId, before: Hub, after: Hub, p: PullId, pulls: map<PullId, Pull>)
    requires HubOk(h, before, pulls) && HubStep(before, after, p)
    ensures HubOk(h, after, pulls)
  {}

  lemma {:induction false} OnePullKeepsPulls(s: Network, p: PullId, pull: Pull, hub: Hub)
    requires PullsOk(s) && p in s.pulls && s.pulls[p].hub == pull.hub && pull.hub in s.hubs
    requires PullOk(p, pull, hub) && HubStep(s.hubs[pull.hub], hub, p)
    ensures PullsOk(Network(s.hubs[pull.hub := hub], s.pulls[p := pull]))
  {
    hide PullOk, HubStep;
    forall q | q in s.pulls && q != p && s.pulls[q].hub == pull.hub ensures PullOk(q, s.pulls[q], hub) {
      OtherPullStays(q, s.pulls[q], s.hubs[pull.hub], hub, p);
    }
    PullsStay(s, pull.hub, hub, s.pulls[p := pull]);
  }

  lemma {:induction false} OnePullKeeps(s: Network, p: PullId, pull: Pull, hub: Hub)
    requires Inv(s) && p in s.pulls && s.pulls[p].hub == pull.hub && s.pulls[p].sent <= pull.sent
    requires pull.hub in s.hubs && PullOk(p, pull, hub) && HubStep(s.hubs[pull.hub], hub, p)
    ensures Inv(Network(s.hubs[pull.hub := hub], s.pulls[p := pull]))
  {
    hide PullOk, HubOk, HubStep, PullsOk;
    OnePullKeepsPulls(s, p, pull, hub);
    HubStepKeepsHub(pull.hub, s.hubs[pull.hub], hub, p, s.pulls);
    HubStays(pull.hub, hub, s.pulls, s.pulls[p := pull]);
    HubsStay(s, pull.hub, hub, s.pulls[p := pull]);
  }

  lemma {:induction false} PullIsOk(s: Network, p: PullId)
    requires PullsOk(s) && p in s.pulls
    ensures s.pulls[p].hub in s.hubs && PullOk(p, s.pulls[p], s.hubs[s.pulls[p].hub])
  {
    hide PullOk;
  }

  /** A step that touches one puller, and not its hub. */
  lemma {:induction false} PullStepKeeps(s: Network, p: PullId, pull: Pull)
    requires Inv(s) && p in s.pulls && s.pulls[p].hub == pull.hub && s.pulls[p].sent <= pull.sent
    requires pull.hub in s.hubs && PullOk(p, pull, s.hubs[pull.hub])
    ensures Inv(Network(s.hubs, s.pulls[p := pull]))
  {
    hide PullOk, PullsOk;
    HubIsOk(s, pull.hub);
    OnePullKeeps(s, p, pull, s.hubs[pull.hub]);
    assert s.hubs[pull.hub := s.hubs[pull.hub]] == s.hubs;
  }

  lemma {:induction false} PullerKeeps(s: Network, step: Step)
    requires Inv(s) && Enabled(s, step)
    requires step.SendInitial? || step.Receive? || step.Interrupt?
    ensures Inv(Apply(s, step))
  {
    hide OrderOk, LogOk, PullsOk, HubsOk, RegisteredOk;
    var p := step.p;
    PullIsOk(s, p);
    var pull, hub := s.pulls[p], s.hubs[s.pulls[p].hub];
    match step {
      case SendInitial(_) => SendInitialKeeps(p, pull, hub);
      case Receive(_) => ReceiveKeeps(p, pull, hub, Apply(s, Receive(p)).pulls[p]);
      case Interrupt(_) => StopKeeps(p, pull, hub);
    }
    PullStepKeeps(s, p, Apply(s, step).pulls[p]);
  }

  lemma {:induction false} LeaveKeeps(s: Network, p: PullId)
    requires Inv(s) && Enabled(s, Leave(p))
    ensures Inv(Apply(s, Leave(p)))
  {
    hide OrderOk, LogOk, PullsOk, HubsOk;
    PullIsOk(s, p);
    var pull, hub := s.pulls[p], s.hubs[s.pulls[p].hub];
    LeavingOk(pull, hub.history);
    OnePullKeeps(s, p, pull.(left := true), hub.(listeners := hub.listeners - {p}));
  }

  lemma {:induction false} TellStepKeeps(s: Network, h: HubId, p: PullId, receiving: bool)
    requires Inv(s) && Enabled(s, Tell(h, p, receiving))
    ensures Inv(Apply(s, Tell(h, p, receiving)))
  {
    hide OrderOk, LogOk, PullsOk, HubsOk, BufferOk;
    PullIsOk(s, p);
    HubIsOk(s, h);
    TellKeeps(p, s.pulls[p], s.hubs[h]);
    var t := Apply(s, Tell(h, p, receiving));
    OnePullKeeps(s, p, t.pulls[p], t.hubs[h]);
  }

  lemma {:induction false} JoinKeeps(s: Network, h: HubId, p: PullId, maxInitial: int)
    requires Inv(s) && Enabled(s, Join(h, p, maxInitial))
    ensures Inv(Apply(s, Join(h, p, maxInitial)))
  {
    hide PullOk, BufferOk, PullsOk, HubsOk;
    var t := Apply(s, Join(h, p, maxInitial));
    HubIsOk(s, h);
    JoinedRegistered(p, h, s.hubs[h], maxInitial);
    HubStays(h, s.hubs[h], s.pulls, t.pulls);
    HubsStay(s, h, t.hubs[h], t.pulls);
    forall q | q in t.pulls && t.pulls[q].hub == h && q != p ensures PullOk(q, t.pulls[q], t.hubs[h]) {
      PullIsOk(s, q);
      JoinKeepsOther(q, s.pulls[q], s.hubs[h], p);
    }
    PullsStay(s, h, t.hubs[h], t.pulls);
  }

  /** A step that touches one hub only, and not its history. */
  lemma {:induction false} HubStepKeeps(s: Network, h: HubId, hub: Hub)
    requires Inv(s) && HubOk(h, hub, s.pulls)
    requires h !in s.hubs || (h in s.hubs && ChangesPhase(s.hubs[h], hub))
    ensures Inv(s.(hubs := s.hubs[h := hub]))
  {
    hide PullOk, PullsOk, HubsOk, HubOk, ChangesPhase;
    HubsStay(s, h, hub, s.pulls);
    forall p | p in s.pulls && s.pulls[p].hub == h ensures PullOk(p, s.pulls[p], hub) {
      PullIsOk(s, p);
      PhaseKeeps(p, s.pulls[p], s.hubs[h], hub);
    }
    PullsStay(s, h, hub, s.pulls);
  }

  lemma {:induction false} EmptyBufferOk(maxLength: nat)
    ensures BufferOk(maxLength, [], [])
  {}

  lemma {:induction false} PhaseKeepsHub(s: Network, h: HubId, hub: Hub)
    requires Inv(s) && h in s.hubs && ChangesPhase(s.hubs[h], hub)
    requires hub.feed ==
              s.hubs[h].feed || (hub.feed.Some? && s.hubs[h].feed.None? && !hub.origin && hub.feed.value in s.pulls)
    ensures Inv(s.(hubs := s.hubs[h := hub]))
  {
    hide PullsOk, HubsOk, BufferOk;
    HubIsOk(s, h);
    HubStepKeeps(s, h, hub);
  }

  lemma {:induction false} HubberKeeps(s: Network, step: Step)
    requires Inv(s) && Enabled(s, step)
    requires step.CreateHub? || step.AttachFeed? || step.BeginClose? || step.EndClose? || step.CloseInactive?
    ensures Inv(Apply(s, step))
  {
    hide PullsOk, HubsOk, BufferOk;
    var h := step.h;
    if step.CreateHub? {
      EmptyBufferOk(step.maxLength);
      HubStepKeeps(s, h, Hub(step.origin, step.maxLength, [], {}, Open, None, 0, []));
    } else {
      HubIsOk(s, h);
      var hub := s.hubs[h];
      match step {
        case AttachFeed(_, p) => PhaseKeepsHub(s, h, hub.(feed := Some(p)));
        case BeginClose(_) => PhaseKeepsHub(s, h, hub.(phase := Closing(hub.listeners)));
        case _ => PhaseKeepsHub(s, h, hub.(phase := Closed, listeners := {}));
      }
    }
  }

  lemma {:induction false} StepKeeps(s: Network, step: Step)
    requires Inv(s) && Enabled(s, step)
    ensures Inv(Apply(s, step))
  {
    hide HubsOk, PullsOk, Enabled, Apply;
    match step
    case Publish(h, fragment, limits, parked) => PublishKeeps(s, h, fragment, limits, parked);
    case RelayRead(h, limits, parked) => RelayReadKeeps(s, h, limits, parked);
    case Join(h, p, maxInitial) => JoinKeeps(s, h, p, maxInitial);
    case SendInitial(_) => PullerKeeps(s, step);
    case Receive(_) => PullerKeeps(s, step);
    case Interrupt(_) => PullerKeeps(s, step);
    case Leave(p) => LeaveKeeps(s, p);
    case Tell(h, p, receiving) => TellStepKeeps(s, h, p, receiving);
    case _ => HubberKeeps(s, step);
  }

  lemma {:induction false} RunKeeps(start: Network, steps: seq<Step>)
    requires Inv(start)
    ensures Inv(RunFrom(start, steps))
  {
    hide Inv, Enabled, Apply;
    if steps != [] {
      RunKeeps(start, steps[..|steps| - 1]);
      if Enabled(RunFrom(start, steps[..|steps| - 1]), steps[|steps| - 1]) {
        StepKeeps(RunFrom(start, steps[..|steps| - 1]), steps[|steps| - 1]);
      }
    }
  }

  lemma {:induction false} Reachable(steps: seq<Step>)
    ensures Inv(Run(steps))
  {
    RunKeeps(Network(map[], map[]), steps);
  }

  // What every run guarantees.

  /** The buffer is the recent end of what was accepted, and bounded. */
  lemma {:induction false} BufferIsRecentHistory(steps: seq<Step>, h: HubId)
    requires h in Run(steps).hubs
    ensures var hub := Run(steps).hubs[h];
            && IsSuffix(hub.buffer, hub.history)
            && |hub.buffer| <= (if hub.maxLength == 0 then 1 else hub.maxLength)
  {
    Reachable(steps);
    assert HubOk(h, Run(steps).hubs[h], Run(steps).pulls);
  }

  /** Joining is seamless: the snapshot share, then everything offered since, is the history from the
      first position of that share on. It reaches the present unless the puller unregistered. */
  lemma {:induction false} JoinIsSeamless(steps: seq<Step>, p: PullId)
    requires p in Run(steps).pulls
    ensures var s := Run(steps);
            var pull := s.pulls[p];
            && pull.hub in s.hubs
            && BlockAt(pull.initial + pull.offered, s.hubs[pull.hub].history, pull.base)
            && (!pull.left ==> pull.initial + pull.offered == s.hubs[pull.hub].history[pull.base..])
  {
    hide HubsOk, PullsOk, LogOk, Embeds, Run;
    Reachable(steps);
    PullIsOk(Run(steps), p);
  }

  lemma {:induction false} TightlyPacked(positions: seq<nat>, base: nat, i: nat)
    requires Increasing(positions) && i < |positions|
    requires forall k :: 0 <= k < |positions| ==> base <= positions[k] < base + |positions|
    ensures positions[i] == base + i
  {
    AtLeast(positions, base, i);
    AtMost(positions, base, i);
  }

  lemma {:induction false} AtLeast(positions: seq<nat>, base: nat, i: nat)
    requires Increasing(positions) && i < |positions|
    requires forall k :: 0 <= k < |positions| ==> base <= positions[k]
    ensures positions[i] >= base + i
  {
    if i > 0 {
      AtLeast(positions, base, i - 1);
    }
  }

  lemma {:induction false} AtMost(positions: seq<nat>, base: nat, i: nat)
    requires Increasing(positions) && i < |positions|
    requires forall k :: 0 <= k < |positions| ==> positions[k] < base + |positions|
    ensures positions[i] <= base + i
    decreases |positions| - i
  {
    if i + 1 < |positions| {
      AtMost(positions, base, i + 1);
    }
  }

  /** One hop: in order and without repeats; without gaps if nothing was dropped. */
  lemma {:induction false} OneHop(pull: Pull, history: seq<Fragment>)
    requires OrderOk(pull, history)
    ensures Subsequence(pull.sent, history)
    ensures !pull.dropped ==> BlockAt(Given(pull), history, pull.base) && Block(pull.sent, history)
  {
    assert Embeds(pull.sent, history, pull.trail[..|pull.sent|]);
    if !pull.dropped {
      forall i | 0 <= i < |pull.trail| ensures pull.trail[i] == pull.base + i {
        TightlyPacked(pull.trail, pull.base, i);
      }
      assert BlockAt(pull.sent, history, pull.base);
    }
  }

  /** A chain of connections: each relay on it reads what the next puller wrote. */
  ghost predicate Path(s: Network, path: seq<PullId>) {
    && path != []
    && (forall i :: 0 <= i < |path| ==> path[i] in s.pulls && s.pulls[path[i]].hub in s.hubs)
    && (forall i :: 0 <= i < |path| - 1 ==> s.hubs[s.pulls[path[i]].hub].feed == Some(path[i + 1]))
  }

  lemma {:induction false} AlongPath(s: Network, path: seq<PullId>)
    requires Inv(s) && Path(s, path)
    ensures var sent, source := s.pulls[path[0]].sent, s.hubs[s.pulls[path[|path| - 1]].hub].history;
            && Subsequence(sent, source)
            && ((forall p :: p in path ==> !s.pulls[p].dropped) ==> Block(sent, source))
    decreases |path|
  {
    hide HubsOk, PullsOk, OrderOk, LogOk, RegisteredOk, BufferOk, Subsequence, Block;
    var pull := s.pulls[path[0]];
    var hub := s.hubs[pull.hub];
    PullIsOk(s, path[0]);
    OneHop(pull, hub.history);
    if |path| > 1 {
      var rest := path[1..];
      var feed := s.pulls[path[1]].sent;
      var source := s.hubs[s.pulls[path[|path| - 1]].hub].history;
      HubIsOk(s, pull.hub);
      AlongPath(s, rest);
      PrefixIsBlock(hub.history, feed);
      BlockIsSubsequence(hub.history, feed);
      SubsequenceTransitive(pull.sent, hub.history, feed);
      SubsequenceTransitive(pull.sent, feed, source);
      if forall p :: p in path ==> !s.pulls[p].dropped {
        assert path[0] in path && forall p :: p in rest ==> p in path;
        BlockTransitive(pull.sent, hub.history, feed);
        BlockTransitive(pull.sent, feed, source);
      }
    }
  }

  /** End to end, over any number of hops and any interleaving: what the last puller wrote is an in-order,
      duplicate-free subsequence of what the source accepted, and a gapless block of it if no channel
      on the way was ever full at a send. */
  lemma {:induction false} EndToEnd(steps: seq<Step>, path: seq<PullId>)
    requires Path(Run(steps), path)
    ensures var s := Run(steps);
            var sent, source := s.pulls[path[0]].sent, s.hubs[s.pulls[path[|path| - 1]].hub].history;
            && Subsequence(sent, source)
            && ((forall p :: p in path ==> !s.pulls[p].dropped) ==> Block(sent, source))
  {
    Reachable(steps);
    AlongPath(Run(steps), path);
  }

  /** Every channel sees fragments, then at most one CLOSE. Once a hub is closed, by whichever way, exactly
      the pullers that had not unregistered before have got theirs. */
  lemma {:induction false} CloseDiscipline(steps: seq<Step>, p: PullId)
    requires p in Run(steps).pulls
    ensures var s := Run(steps);
            var pull := s.pulls[p];
            && pull.hub in s.hubs
            && WellOrdered(pull.log)
            && (s.hubs[pull.hub].phase.Open? ==> !EndsClosed(pull.log))
            && (s.hubs[pull.hub].phase.Closed? ==> (EndsClosed(pull.log) <==> !pull.left))
  {
    Reachable(steps);
    PullIsOk(Run(steps), p);
  }

  lemma {:induction false} WholeBlock(pull: Pull, history: seq<Fragment>)
    requires OrderOk(pull, history) && Horizon(pull) == |history| && !pull.dropped
    ensures pull.base <= |history| && Given(pull) == history[pull.base..]
  {
    OneHop(pull, history);
  }

  /** A puller that has passed on CLOSE passed on everything it was given before; if nothing was dropped,
      that is the whole history from where it joined to the end of the stream. */
  lemma {:induction false} CloseComesLast(steps: seq<Step>, p: PullId)
    requires p in Run(steps).pulls && Run(steps).pulls[p].closeSent
    ensures var s := Run(steps);
            var pull := s.pulls[p];
            && pull.hub in s.hubs && !s.hubs[pull.hub].phase.Open?
            && pull.sent == pull.initial + Carried(pull.log)
            && (!pull.dropped ==>
              pull.base <= |s.hubs[pull.hub].history| && pull.sent == s.hubs[pull.hub].history[pull.base..])
  {
    hide HubsOk, PullsOk, OrderOk, Run;
    Reachable(steps);
    PullIsOk(Run(steps), p);
    var pull := Run(steps).pulls[p];
    assert Given(pull) == pull.sent;
    if !pull.dropped {
      WholeBlock(pull, Run(steps).hubs[pull.hub].history);
    }
  }
}
