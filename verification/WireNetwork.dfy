/** Where frames and network meet: the sending thread of a pulling connection is a puller of the network, and
    what the relay at the other end hands on is what the network's relay reads. */
module WireNetwork {
  import opened Sequences
  import opened Fragments
  import opened Texts
  import opened Messages
  import opened Wire
  import opened Reading
  import opened RelayNetwork
  import FanOut
  import MemoryLimiter
  import StreamPull
  import Connection
  import RelayReader
  import PullProtocol
  import S = PullSender

  /** The thread is where the network has the puller: same initial fragments to go, same fragments passed on. */
  ghost predicate Matches(t: S.System, pull: Pull) {
    match t.stage
    case Streaming(pending) => !pull.done && pull.pending == pending && t.taken == pull.sent + pending
    case Finished => pull.done && t.taken == pull.sent
    case _ => false
  }

  /** The step of the network that a step of the connection is, if it is one. */
  function NetworkStep(p: PullId, step: S.Step): Option<Step> {
    match step
    case SendInitial(_) => Some(SendInitial(p))
    case Receive(_, _) => Some(Receive(p))
    case Interrupt => Some(Interrupt(p))
    case _ => None
  }

  lemma {:induction false} JoinMatches(s: Network, h: HubId, p: PullId, maxInitial: int, t: S.System)
    requires Enabled(s, Join(h, p, maxInitial)) && t.stage.Joining?
    ensures StreamPull.InitialSends(s.hubs[h].buffer, maxInitial).Some?
    ensures var initial := StreamPull.InitialSends(s.hubs[h].buffer, maxInitial).value;
            && S.Enabled(t, S.Join(initial))
            && Matches(S.Apply(t, S.Join(initial)), Apply(s, Join(h, p, maxInitial)).pulls[p])
  {
    var initial := StreamPull.InitialSends(s.hubs[h].buffer, maxInitial).value;
    assert [] + initial == initial;
  }

  /** Every step of the connection is one of the network, or none of its business; the event that is received
      is the first in the channel. */
  lemma {:induction false} StepMatches(s: Network, p: PullId, t: S.System, step: S.Step)
    requires p in s.pulls && Matches(t, s.pulls[p]) && S.Enabled(t, step)
    requires step.Receive? ==> s.pulls[p].queue != [] && s.pulls[p].queue[0] == step.event
    ensures NetworkStep(p, step).Some? ==>
              && Enabled(s, NetworkStep(p, step).value)
              && p in Apply(s, NetworkStep(p, step).value).pulls
              && Matches(S.Apply(t, step), Apply(s, NetworkStep(p, step).value).pulls[p])
    ensures NetworkStep(p, step).None? ==> Matches(S.Apply(t, step), s.pulls[p])
  {
    var sent := s.pulls[p].sent;
    assert sent + [] == sent;
    if step.SendInitial? {
      var pending := s.pulls[p].pending;
      assert sent + pending == sent + [pending[0]] + pending[1..];
    } else if step.Receive? && step.event.FragmentEvent? {
      assert sent + [step.event.fragment] + [] == sent + [step.event.fragment];
    }
  }

  /** What anybody else does leaves the thread where it is. */
  lemma {:induction false} OthersMatch(s: Network, p: PullId, t: S.System, step: Step)
    requires p in s.pulls && Matches(t, s.pulls[p]) && Enabled(s, step)
    requires step != SendInitial(p) && step != Receive(p) && step != Interrupt(p)
    ensures p in Apply(s, step).pulls && Matches(t, Apply(s, step).pulls[p])
  {
    OthersKeepSent(s, p, step);
  }

  lemma {:induction false} OthersKeepSent(s: Network, p: PullId, step: Step)
    requires p in s.pulls && Enabled(s, step)
    requires step != SendInitial(p) && step != Receive(p) && step != Interrupt(p)
    ensures p in Apply(s, step).pulls
    ensures var before, after := s.pulls[p], Apply(s, step).pulls[p];
            after.sent == before.sent && after.pending == before.pending && after.done == before.done
  {
    hide MemoryLimiter.Check, FanOut.Retain, FanOut.HasRoom, FanOut.Offer, StreamPull.InitialSends, CanPark;
  }

  /** What got out whole is the beginning of what the puller passed on. */
  lemma {:induction false} WholesAreSent(steps: seq<S.Step>, pull: Pull)
    requires Matches(S.Run(steps), pull)
    ensures S.Wholes(S.Run(steps).log) <= pull.sent
  {
    hide S.Run, S.Wholes, S.LogOk, S.StageOk, S.Render;
    S.RunKeeps(steps);
  }

  /** The relay at the other end hands on what the network's relay reads. When the two are at the same point,
      its history is what was handed on; when one fragment more has been handed on, the network can take that
      step, and reads the same fragment. */
  lemma {:induction false} HandedIsRead(s: Network, h: HubId, p: PullId, steps: seq<S.Step>,
                                        limit: int, inputs: seq<Input<RelayReader.Elsewhere>>, n: nat, limits: Limits)
    requires Inv(s) && h in s.hubs && s.hubs[h].feed == Some(p) && p in s.pulls && Matches(S.Run(steps), s.pulls[p])
    requires Delivers(inputs, S.Run(steps).line.out) && PullProtocol.Readable(limit, S.Run(steps).log)
    requires n <= |inputs|
    ensures var hub, handed := s.hubs[h], Handed(RelayReader.ReadAll(limit, inputs[..n]).effects);
            && handed <= s.pulls[p].sent
            && (hub.read == |handed| ==> hub.history <= handed && (hub.phase.Open? ==> hub.history == handed))
            && (hub.read < |handed| && !hub.phase.Closing? ==>
                  && Enabled(s, RelayRead(h, limits, {}))
                  && s.pulls[p].sent[hub.read] == handed[hub.read])
  {
    hide S.Run, S.Wholes, RelayReader.ReadAll, Handed, PullProtocol.Readable, Delivers, Matches;
    hide BufferOk, PullsOk, HubsOk;
    PullProtocol.ServerAndRelayCompose(steps, limit, inputs, n);
    WholesAreSent(steps, s.pulls[p]);
    HubIsOk(s, h);
  }

  /** A PULL that asks for `max` initial fragments passes the number on as it is. The pulling thread then faults
      exactly when the snapshot has fewer, as that of a stream which has just begun. */
  lemma {:induction false} UnclampedStartIsReached(env: Connection.Surroundings, streamId: Text, auth: Text, max: int,
                                                   initial: seq<Fragment>)
    requires 0 < |streamId| <= 255 && (auth, streamId) in env.pullTokens && env.pushAllowed && streamId in env.sources
    ensures var pull := Message("PULL", map[STREAM := streamId, AUTH := auth, MAX_INITIAL_FRAGMENTS := Print(max)]);
            Connection.Heard(Connection.FRESH, pull, env).effects ==
            [Reply(OkMessage()), StartPull(streamId, Source, max)]
    ensures StreamPull.InitialSends(initial, max).None? <==> max > |initial|
    ensures StreamPull.InitialSends([], 1).None?
  {
    hide Print, Atoi;
    AtoiInvertsPrint(max);
    PrintsSomething(max);
  }

  /** What a relay asks for: with a valid token it pulls from a source there, or from a relay there unless it wants
      a source only; it takes the whole snapshot, whatever that is, and so never faults. */
  lemma {:induction false} RelayAsksForAll(env: Connection.Surroundings, streamId: Text, auth: Text, onlySource: bool,
                                           initial: seq<Fragment>)
    requires 0 < |streamId| <= 255
    ensures Connection.Heard(Connection.FRESH, PullMessage(streamId, auth, onlySource), env).effects ==
            if (auth, streamId) !in env.pullTokens then [Complain(AUTH_ERROR)]
            else if env.pushAllowed && streamId in env.sources then
              [Reply(OkMessage()), StartPull(streamId, Source, -1)]
            else if !onlySource && streamId in env.relays then [Reply(OkMessage()), StartPull(streamId, Relay, -1)]
            else [Reply(OkMessage()), Reply(CloseMessage())]
    ensures StreamPull.InitialSends(initial, -1) == Some(initial)
  {
    hide Atoi;
    var msg := PullMessage(streamId, auth, onlySource);
    assert msg.GetParameter(ONLY_SOURCE) == "true" <==> onlySource by {
      assert "true"[0] == 't' && "false"[0] == 'f';
    }
    assert msg.GetParameter(MAX_INITIAL_FRAGMENTS) == [];
  }

  lemma {:induction false} PrintsSomething(n: int)
    ensures Print(n) != []
  {}
}
