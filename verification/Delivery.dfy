/** What can still be delivered: from every reachable state, whatever a puller was given it can send, and whatever
    reached a relay's socket it can pass on, without a loss. */
module Delivery {
  import opened Sequences
  import opened Fragments
  import MemoryLimiter
  import opened FanOut
  import opened RelayNetwork
  import opened CloseProgress

  // What the steps that move fragments do.

  lemma {:induction false} PublishAppends(s: Network, h: HubId, fragment: Fragment, limits: Limits,
                                          parked: set<PullId>)
    requires Enabled(s, Publish(h, fragment, limits, parked))
    ensures var t := Apply(s, Publish(h, fragment, limits, parked));
            h in t.hubs && t.hubs[h].history == s.hubs[h].history + if s.hubs[h].phase.Open? then [fragment] else []
  {
    hide MemoryLimiter.Check, Retain, OfferTo;
  }

  /** A relay takes the next fragment from its socket, and adds it while it is open. */
  lemma {:induction false} ReadTakesNext(s: Network, h: HubId, limits: Limits, parked: set<PullId>)
    requires Enabled(s, RelayRead(h, limits, parked))
    ensures var hub, t := s.hubs[h], Apply(s, RelayRead(h, limits, parked));
            && h in t.hubs && t.hubs[h].read == hub.read + 1 && t.hubs[h].feed == hub.feed
            && t.hubs[h].phase == hub.phase && t.hubs[h].listeners == hub.listeners
            && t.hubs[h].history ==
                 hub.history + (if hub.phase.Open? then [s.pulls[hub.feed.value].sent[hub.read]] else [])
            && t.pulls.Keys == s.pulls.Keys && forall q :: q in s.pulls ==> t.pulls[q].sent == s.pulls[q].sent
  {
    hide MemoryLimiter.Check, Retain, OfferTo;
  }

  lemma {:induction false} FeedIsAttached(s: Network, h: HubId, p: PullId)
    requires Enabled(s, AttachFeed(h, p))
    ensures var t := Apply(s, AttachFeed(h, p));
            t.pulls == s.pulls && t.hubs == s.hubs[h := s.hubs[h].(feed := Some(p))]
  {}

  /** A relay without listeners that stops is closed, and touches nobody. */
  lemma {:induction false} InactiveIsClosed(s: Network, h: HubId)
    requires Enabled(s, CloseInactive(h))
    ensures var t := Apply(s, CloseInactive(h));
            t.pulls == s.pulls && t.hubs == s.hubs[h := s.hubs[h].(phase := Closed)]
  {}

  /** The step adds a fragment for which the channel of `p` has no room. */
  ghost predicate Misses(s: Network, step: Step, p: PullId) {
    && (step.Publish? || step.RelayRead?) && step.h in s.hubs && p in s.pulls
    && !s.hubs[step.h].phase.Closed? && p in s.hubs[step.h].listeners
    && !HasRoom(s.hubs[step.h].maxLength, s.pulls[p].queue, p in step.parked)
  }

  /** What the theorems take for a lossless channel: nobody begins with a loss, and a loss is remembered exactly when
      a fragment finds no room. */
  lemma {:induction false} MissedExactlyWhen(s: Network, step: Step, p: PullId)
    requires Enabled(s, step) && p in Apply(s, step).pulls
    ensures Apply(s, step).pulls[p].dropped <==> (p in s.pulls && s.pulls[p].dropped) || Misses(s, step, p)
  {
    hide MemoryLimiter.Check, Retain, HasRoom;
  }

  // A puller that keeps reading sends everything it was given.

  ghost predicate OnlyPuller(s: Network, t: Network, p: PullId) {
    t.hubs == s.hubs && t.pulls.Keys == s.pulls.Keys && forall q :: q in s.pulls && q != p ==> t.pulls[q] == s.pulls[q]
  }

  lemma {:induction false} OneMoreSent(s: Network, p: PullId)
    requires Inv(s) && p in s.pulls && !s.pulls[p].done && (s.pulls[p].pending != [] || s.pulls[p].queue != [])
    ensures var step := if s.pulls[p].pending != [] then SendInitial(p) else Receive(p);
            && Enabled(s, step)
            && var t := Apply(s, step);
               && OnlyPuller(s, t, p) && Inv(t) && Given(t.pulls[p]) == Given(s.pulls[p])
               && |t.pulls[p].pending| + |t.pulls[p].queue| < |s.pulls[p].pending| + |s.pulls[p].queue|
               && (t.pulls[p].done ==> t.pulls[p].pending == [] && t.pulls[p].queue == [])
  {
    hide HubsOk, PullsOk, RegisteredOk, OrderOk, IsSuffix, WellOrdered, Way;
    var step := if s.pulls[p].pending != [] then SendInitial(p) else Receive(p);
    StepKeeps(s, step);
    PullIsOk(s, p);
    PullIsOk(Apply(s, step), p);
    GivenMoves(s.pulls[p]);
  }

  /** What was given stays the same while it moves to the socket. */
  lemma {:induction false} GivenMoves(pull: Pull)
    ensures pull.pending != [] ==>
              Way(pull.sent + [pull.pending[0]], pull.pending[1..], pull.queue) ==
              Way(pull.sent, pull.pending, pull.queue)
    ensures pull.pending == [] && pull.queue != [] ==>
              var head := if pull.queue[0].FragmentEvent? then [pull.queue[0].fragment] else [];
              Way(pull.sent + head, [], pull.queue[1..]) == Way(pull.sent, [], pull.queue)
  {
    if pull.pending != [] {
      assert pull.sent + [pull.pending[0]] + pull.pending[1..] == pull.sent + pull.pending;
    } else if pull.queue != [] {
      var head := if pull.queue[0].FragmentEvent? then [pull.queue[0].fragment] else [];
      assert pull.sent + head + [] + Carried(pull.queue[1..]) == pull.sent + [] + (head + Carried(pull.queue[1..]));
    }
  }

  lemma {:induction false} NothingOnTheWay(pull: Pull)
    requires pull.pending == [] && pull.queue == []
    ensures Given(pull) == pull.sent
  {}

  /** By steps of its own a puller that was not interrupted can send all it was given, and it alone is touched. */
  lemma {:induction false} CanSendAll(s: Network, p: PullId) returns (steps: seq<Step>)
    requires Inv(s) && p in s.pulls && !s.pulls[p].done
    ensures var t := RunFrom(s, steps);
            && Inv(t) && OnlyPuller(s, t, p) && t.pulls[p].sent == Given(s.pulls[p])
            && t.pulls[p].pending == [] && t.pulls[p].queue == []
    decreases |s.pulls[p].pending| + |s.pulls[p].queue|
  {
    hide Inv, Given, Apply;
    if s.pulls[p].pending == [] && s.pulls[p].queue == [] {
      steps := [];
      NothingOnTheWay(s.pulls[p]);
    } else {
      OneMoreSent(s, p);
      var step := if s.pulls[p].pending != [] then SendInitial(p) else Receive(p);
      var t := Apply(s, step);
      if t.pulls[p].done {
        NothingOnTheWay(t.pulls[p]);
        RunSplit(s, step, []);
        steps := [step];
      } else {
        var rest := CanSendAll(t, p);
        steps := [step] + rest;
        RunSplit(s, step, rest);
      }
    }
  }

  // A relay whose puller keeps reading passes everything on.

  /** The puller `p` of the open relay `h` waits at its channel, with nothing left to send. */
  ghost predicate Waits(s: Network, h: HubId, p: PullId) {
    && h in s.hubs && s.hubs[h].phase.Open? && s.hubs[h].feed.Some? && s.hubs[h].feed.value in s.pulls
    && s.hubs[h].feed.value != p && p in s.hubs[h].listeners && p in s.pulls
    && !s.pulls[p].done && s.pulls[p].pending == [] && s.pulls[p].queue == []
  }

  ghost function Unread(s: Network, h: HubId): seq<Fragment>
    requires h in s.hubs && s.hubs[h].feed.Some? && s.hubs[h].feed.value in s.pulls
  {
    var sent := s.pulls[s.hubs[h].feed.value].sent;
    if s.hubs[h].read <= |sent| then sent[s.hubs[h].read..] else []
  }

  ghost predicate Forwarded(s: Network, t: Network, h: HubId, p: PullId, fragments: seq<Fragment>) {
    && Waits(s, h, p) && Waits(t, h, p)
    && t.hubs[h].history == s.hubs[h].history + fragments
    && t.pulls[p].sent == s.pulls[p].sent + fragments && t.pulls[p].dropped == s.pulls[p].dropped
    && t.hubs[h].feed == s.hubs[h].feed && t.hubs[h].read == s.hubs[h].read + |fragments|
    && t.pulls[s.hubs[h].feed.value].sent == s.pulls[s.hubs[h].feed.value].sent
  }

  lemma {:induction false} OfferedInHand(s: Network, h: HubId, p: PullId, limits: Limits)
    requires Waits(s, h, p) && Enabled(s, RelayRead(h, limits, {p}))
    ensures var t := Apply(s, RelayRead(h, limits, {p}));
            var f := s.pulls[s.hubs[h].feed.value].sent[s.hubs[h].read];
            && p in t.pulls && t.pulls[p].queue == [FragmentEvent(f)] && t.pulls[p].pending == []
            && t.pulls[p].sent == s.pulls[p].sent && !t.pulls[p].done && t.pulls[p].dropped == s.pulls[p].dropped
  {
    hide MemoryLimiter.Check, Retain;
    var f := s.pulls[s.hubs[h].feed.value].sent[s.hubs[h].read];
    assert [] + [FragmentEvent(f)] == [FragmentEvent(f)];
  }

  lemma {:induction false} ForwardOne(s: Network, h: HubId, p: PullId, limits: Limits)
    requires Inv(s) && Waits(s, h, p) && Unread(s, h) != []
    ensures var read := RelayRead(h, limits, {p});
            && Enabled(s, read) && Enabled(Apply(s, read), Receive(p))
            && var t := Apply(Apply(s, read), Receive(p)); Inv(t) && Forwarded(s, t, h, p, Unread(s, h)[..1])
  {
    var read := RelayRead(h, limits, {p});
    hide Inv, Given, AddFragment;
    assert Enabled(s, read);
    ReadTakesNext(s, h, limits, {p});
    OfferedInHand(s, h, p, limits);
    StepKeeps(s, read);
    var m := Apply(s, read);
    StepKeeps(m, Receive(p));
  }

  lemma {:induction false} ForwardedMore(s: Network, t: Network, u: Network, h: HubId, p: PullId,
                                         fragments: seq<Fragment>)
    requires fragments != [] && Forwarded(s, t, h, p, fragments[..1]) && Forwarded(t, u, h, p, fragments[1..])
    ensures Forwarded(s, u, h, p, fragments)
  {
    assert fragments == fragments[..1] + fragments[1..];
    Regroup(s.hubs[h].history, fragments[..1], fragments[1..]);
    Regroup(s.pulls[p].sent, fragments[..1], fragments[1..]);
  }

  lemma {:induction false} NothingForwarded(s: Network, h: HubId, p: PullId)
    requires Waits(s, h, p)
    ensures Forwarded(s, s, h, p, [])
  {
    assert s.hubs[h].history + [] == s.hubs[h].history && s.pulls[p].sent + [] == s.pulls[p].sent;
  }

  /** While a puller of a relay keeps reading, there is a run in which all that has reached the relay's socket is
      accepted by the relay and passed on by that puller, in order and without a loss. */
  lemma {:induction false} CanForwardAll(s: Network, h: HubId, p: PullId, limits: Limits) returns (steps: seq<Step>)
    requires Inv(s) && Waits(s, h, p)
    ensures Forwarded(s, RunFrom(s, steps), h, p, Unread(s, h))
    decreases |Unread(s, h)|
  {
    hide Inv, Apply, Enabled, Forwarded;
    if Unread(s, h) == [] {
      steps := [];
      NothingForwarded(s, h, p);
    } else {
      var read := RelayRead(h, limits, {p});
      ForwardOne(s, h, p, limits);
      var m := Apply(s, read);
      var t := Apply(m, Receive(p));
      UnreadRest(s, t, h, p);
      var rest := CanForwardAll(t, h, p, limits);
      RunSplit(m, Receive(p), rest);
      RunSplit(s, read, [Receive(p)] + rest);
      steps := [read] + ([Receive(p)] + rest);
      ForwardedMore(s, t, RunFrom(t, rest), h, p, Unread(s, h));
    }
  }

  lemma {:induction false} UnreadRest(s: Network, t: Network, h: HubId, p: PullId)
    requires Waits(s, h, p) && Unread(s, h) != [] && Forwarded(s, t, h, p, Unread(s, h)[..1])
    ensures Waits(t, h, p) && Unread(t, h) == Unread(s, h)[1..]
  {}
}
