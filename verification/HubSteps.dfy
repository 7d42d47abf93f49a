/** The object and the state machine: what the methods of a Broadcaster do are steps of the network. */
module HubSteps {
  import opened Fragments
  import MemoryLimiter
  import opened FanOut
  import opened StreamPull
  import opened RelayNetwork
  import opened CloseProgress

  /** The object is the hub `h`: same buffer, and in the channels of its listeners what their pullers wait for. */
  ghost predicate Shows(b: Broadcaster, s: Network, h: HubId)
    reads b, b.listeners.Values
  {
    && b.Valid() && h in s.hubs
    && b.fragmentBuffer == s.hubs[h].buffer && b.fragmentBufferMaxLength == s.hubs[h].maxLength
    && b.listeners.Keys == s.hubs[h].listeners
    && (if b.closed then s.hubs[h].phase.Closed? else s.hubs[h].phase.Open?)
    && forall p :: p in b.listeners ==> p in s.pulls && b.listeners[p].queue == s.pulls[p].queue
  }

  /** AddListener is Join: the new channel is empty, and the snapshot gives the share the puller sends first. */
  method JoinStep(b: Broadcaster, ghost s: Network, h: HubId, p: PullId, maxInitial: int)
    returns (success: bool, initial: seq<Fragment>)
    requires Shows(b, s, h) && p !in s.pulls
    modifies b
    ensures success <==> s.hubs[h].phase.Open?
    ensures !success ==> Shows(b, s, h)
    ensures success && InitialSends(initial, maxInitial).Some? ==>
              && Enabled(s, Join(h, p, maxInitial))
              && Shows(b, Apply(s, Join(h, p, maxInitial)), h)
              && Apply(s, Join(h, p, maxInitial)).pulls[p].pending == InitialSends(initial, maxInitial).value
  {
    var channel;
    success, channel, initial := b.AddListener(p);
  }

  /** RemoveListener is Leave. */
  method LeaveStep(b: Broadcaster, ghost s: Network, h: HubId, p: PullId)
    requires Shows(b, s, h) && Enabled(s, Leave(p)) && s.pulls[p].hub == h
    modifies b
    ensures Shows(b, Apply(s, Leave(p)), h)
  {
    b.RemoveListener(p);
  }

  /** AddFragment is the step of that name, which Publish and RelayRead take. */
  method AddStep(b: Broadcaster, ghost s: Network, h: HubId, fragment: Fragment, parked: set<PullId>)
    requires Shows(b, s, h)
    modifies b, b.limiter, b.listeners.Values
    ensures Shows(b, AddFragment(s, h, fragment, Limits(b.limiter.config, old(b.limiter.usage)), parked), h)
  {
    hide MemoryLimiter.Check, Retain, HasRoom;
    b.AddFragment(fragment, parked);
  }

  // Close is BeginClose, a Tell for each listener, and EndClose.

  lemma {:induction false} RunAppend(s: Network, steps: seq<Step>, last: Step)
    ensures RunFrom(s, steps + [last]) ==
            if Enabled(RunFrom(s, steps), last) then Apply(RunFrom(s, steps), last) else RunFrom(s, steps)
  {
    assert (steps + [last])[..|steps|] == steps;
  }

  ghost predicate Tellable(s: Network, h: HubId, todo: set<PullId>, parked: set<PullId>) {
    && IsClosing(s, h) && s.hubs[h].phase.untold == todo && CanPark(s, parked)
    && forall p :: p in todo ==> p in s.pulls && HasRoom(s.hubs[h].maxLength, s.pulls[p].queue, p in parked)
  }

  ghost predicate Told(s: Network, t: Network, h: HubId, todo: set<PullId>)
    requires IsClosing(s, h)
  {
    && t.hubs == s.hubs[h := s.hubs[h].(phase := Closing({}))]
    && t.pulls.Keys == s.pulls.Keys
    && forall p :: p in s.pulls ==> t.pulls[p].queue == s.pulls[p].queue + if p in todo then [CloseEvent] else []
  }

  lemma {:induction false} TellOne(s: Network, h: HubId, todo: set<PullId>, parked: set<PullId>, p: PullId)
    requires Tellable(s, h, todo, parked) && p in todo
    ensures Enabled(s, Tell(h, p, p in parked))
    ensures Tellable(Apply(s, Tell(h, p, p in parked)), h, todo - {p}, parked)
    ensures var t := Apply(s, Tell(h, p, p in parked));
            && t.hubs == s.hubs[h := s.hubs[h].(phase := Closing(todo - {p}))] && t.pulls.Keys == s.pulls.Keys
            && forall q :: q in s.pulls ==> t.pulls[q].queue == s.pulls[q].queue + if q == p then [CloseEvent] else []
  {
    hide HasRoom;
    assert p in parked ==> CanPark(s, {p});
  }

  lemma {:induction false} ToldMore(s: Network, t: Network, u: Network, h: HubId, todo: set<PullId>, p: PullId)
    requires IsClosing(s, h) && p in todo && p in s.pulls
    requires t.hubs == s.hubs[h := s.hubs[h].(phase := Closing(todo - {p}))] && t.pulls.Keys == s.pulls.Keys
    requires forall q :: q in s.pulls ==> t.pulls[q].queue == s.pulls[q].queue + if q == p then [CloseEvent] else []
    requires Told(t, u, h, todo - {p})
    ensures Told(s, u, h, todo)
  {
    forall q | q in s.pulls ensures u.pulls[q].queue == s.pulls[q].queue + if q in todo then [CloseEvent] else [] {
      assert t.pulls[q].queue + [] == t.pulls[q].queue;
      assert s.pulls[q].queue + [] == s.pulls[q].queue;
    }
  }

  lemma {:induction false} NobodyTold(s: Network, h: HubId)
    requires IsClosing(s, h) && s.hubs[h].phase.untold == {}
    ensures Told(s, s, h, {})
  {
    assert s.hubs[h].phase == Closing({});
  }

  lemma {:induction false} TellAll(s: Network, h: HubId, todo: set<PullId>, parked: set<PullId>)
    returns (steps: seq<Step>)
    requires Tellable(s, h, todo, parked)
    ensures Told(s, RunFrom(s, steps), h, todo)
    decreases todo
  {
    if todo == {} {
      steps := [];
      NobodyTold(s, h);
    } else {
      hide Apply, Enabled, Told;
      var p :| p in todo;
      TellOne(s, h, todo, parked, p);
      var step := Tell(h, p, p in parked);
      var rest := TellAll(Apply(s, step), h, todo - {p}, parked);
      steps := [step] + rest;
      RunSplit(s, step, rest);
      ToldMore(s, Apply(s, step), RunFrom(Apply(s, step), rest), h, todo, p);
    }
  }

  /** The run of a close that is not held up. */
  lemma {:induction false} CloseRuns(s: Network, h: HubId, parked: set<PullId>) returns (steps: seq<Step>)
    requires h in s.hubs && s.hubs[h].phase.Open? && CanPark(s, parked)
    requires forall p :: p in s.hubs[h].listeners ==>
               p in s.pulls && HasRoom(s.hubs[h].maxLength, s.pulls[p].queue, p in parked)
    ensures var t := RunFrom(s, steps);
            && t.hubs == s.hubs[h := s.hubs[h].(phase := Closed, listeners := {})]
            && t.pulls.Keys == s.pulls.Keys
            && forall p :: p in s.pulls ==>
                 t.pulls[p].queue == s.pulls[p].queue + if p in s.hubs[h].listeners then [CloseEvent] else []
  {
    hide HasRoom, RunFrom;
    var todo := s.hubs[h].listeners;
    var begun := Apply(s, BeginClose(h));
    var tells := TellAll(begun, h, todo, parked);
    RunSplit(s, BeginClose(h), tells);
    RunAppend(s, [BeginClose(h)] + tells, EndClose(h));
    steps := [BeginClose(h)] + tells + [EndClose(h)];
  }

  /** A close that is not held up is such a run. */
  method CloseSteps(b: Broadcaster, ghost s: Network, h: HubId, parked: set<PullId>)
    returns (finished: bool, ghost steps: seq<Step>)
    requires Shows(b, s, h) && s.hubs[h].phase.Open? && CanPark(s, parked)
    modifies b, b.listeners.Values
    ensures finished ==> Shows(b, RunFrom(s, steps), h) && b.closed
    ensures finished ==> forall p :: p in old(b.listeners) ==>
              p in RunFrom(s, steps).pulls && old(b.listeners)[p].queue == RunFrom(s, steps).pulls[p].queue
  {
    hide HasRoom, RunFrom;
    var told;
    told, finished := b.Close({}, parked);
    steps := [];
    if finished {
      steps := CloseRuns(s, h, parked);
    }
  }
}
