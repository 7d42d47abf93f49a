/** Which relay serves a stream, while lookups, creations, closes and late unregistrations interleave
    (server/relay_controller.go, and the end of a relay's life in server/relay.go). */
module RelayOwnership {
  import opened Fragments

  type StreamId = string
  type RelayId = nat

  /** What the controller needs to know of a relay; its fan-out half is FanOut.Broadcaster. */
  class HlsRelay {
    const id: RelayId
    const streamId: StreamId
    const url: string
    const onlySource: bool
    var closed: bool

    constructor (id: RelayId, url: string, streamId: StreamId, onlySource: bool)
      ensures this.id == id && this.streamId == streamId && this.url == url && this.onlySource == onlySource && !closed
    {
      this.id, this.url, this.streamId, this.onlySource, closed := id, url, streamId, onlySource, false;
    }
  }

  datatype Config = Config(relayFromUrl: string, relayFromEnabled: bool, hasPublishRegistry: bool)

  /** What the publish registry says about a stream: a failed lookup, or a URL, empty when it knows none. */
  datatype Lookup = Failed | Server(url: string)

  /** What other threads do to a new relay while RelayStream waits until it is ready. */
  datatype Meanwhile = StaysOpen | Closes | ClosesAndUnregisters

  /** A relay takes away its own entry only. Methods and interleavings below share this step. */
  function Unregister(current: map<StreamId, RelayId>, stream: StreamId, id: RelayId): map<StreamId, RelayId> {
    if stream in current && current[stream] == id then current - {stream} else current
  }

  /** A new relay takes the place of whatever was there. */
  function Register(current: map<StreamId, RelayId>, stream: StreamId, id: RelayId): map<StreamId, RelayId> {
    current[stream := id]
  }

  class RelayController {
    const config: Config
    var relays: map<StreamId, HlsRelay>
    var nextRelayId: RelayId

    constructor (config: Config)
      ensures this.config == config && relays == map[] && nextRelayId == 0
    {
      this.config := config;
      relays, nextRelayId := map[], 0;
    }

    ghost predicate Valid()
      reads this
    {
      forall s :: s in relays ==> relays[s].streamId == s && relays[s].id < nextRelayId
    }

    ghost function Current(): map<StreamId, RelayId>
      reads this
    {
      map stream | stream in relays :: relays[stream].id
    }

    method OnRelayClosed(relay: HlsRelay)
      requires Valid()
      modifies this
      ensures Valid() && nextRelayId == old(nextRelayId)
      ensures relays == if relay.streamId in old(relays) && old(relays)[relay.streamId].id == relay.id
                        then old(relays) - {relay.streamId} else old(relays)
      ensures Current() == Unregister(old(Current()), relay.streamId, relay.id)
    {
      if relay.streamId in relays && relays[relay.streamId].id == relay.id {
        relays := relays - {relay.streamId};
      }
    }

    method GetRelay(streamId: StreamId) returns (relay: HlsRelay?)
      ensures relay == if streamId in relays then relays[streamId] else null
    {
      relay := if streamId in relays then relays[streamId] else null;
    }

    method GetRelayOrCreate(streamId: StreamId, relayUrl: string, onlySource: bool) returns (relay: HlsRelay)
      requires Valid()
      modifies this
      ensures Valid() && !relay.closed && relay.streamId == streamId && streamId in relays && relays[streamId] == relay
      ensures streamId in old(relays) && !old(relays)[streamId].closed ==>
                relay == old(relays)[streamId] && relays == old(relays) && nextRelayId == old(nextRelayId)
      ensures streamId !in old(relays) || old(relays)[streamId].closed ==>
                && fresh(relay) && relay.url == relayUrl && relay.onlySource == onlySource
                && relay.id == old(nextRelayId) && nextRelayId == relay.id + 1
                && relays == old(relays)[streamId := relay]
                && Current() == Register(old(Current()), streamId, relay.id)
    {
      if streamId in relays && !relays[streamId].closed {
        return relays[streamId];
      }
      relay := new HlsRelay(nextRelayId, relayUrl, streamId, onlySource);
      nextRelayId := nextRelayId + 1;
      relays := relays[streamId := relay];
    }

    /** The registry's word comes first, then the fixed upstream; without either there is no relay.
        Only a registry hit restricts the upstream to streams it publishes itself. */
    /** A new relay may close, and go, before it is ready; it is returned all the same. */
    method RelayStream(streamId: StreamId, lookup: Lookup, meanwhile: Meanwhile) returns (relay: HlsRelay?)
      requires Valid()
      modifies this
      ensures Valid()
      ensures streamId in old(relays) && !old(relays)[streamId].closed ==>
                relay == old(relays)[streamId] && relays == old(relays)
      ensures streamId !in old(relays) || old(relays)[streamId].closed ==>
                var hit := config.hasPublishRegistry && lookup.Server? && lookup.url != "";
                if hit || (config.relayFromEnabled && config.relayFromUrl != "") then
                  && relay != null && fresh(relay) && relay.streamId == streamId
                  && relay.onlySource == hit && relay.url == (if hit then lookup.url else config.relayFromUrl)
                  && (relay.closed <==> !meanwhile.StaysOpen?)
                  && relays == if meanwhile.ClosesAndUnregisters? then old(relays) - {streamId}
                    else old(relays)[streamId := relay]
                else
                  relay == null && relays == old(relays)
    {
      var existing := GetRelay(streamId);
      if existing != null && !existing.closed {
        return existing;
      }
      var relayUrl, onlySource := "", false;
      if config.hasPublishRegistry {
        match lookup {
          case Failed =>
          case Server(url) =>
            if url != "" {
              relayUrl, onlySource := url, true;
            }
        }
      }
      if relayUrl == "" && config.relayFromEnabled {
        relayUrl := config.relayFromUrl;
      }
      if relayUrl == "" {
        return null;
      }
      relay := GetRelayOrCreate(streamId, relayUrl, onlySource);
      WaitUntilReady(relay, meanwhile);
    }

    /** Waits while others act. */
    method WaitUntilReady(relay: HlsRelay, meanwhile: Meanwhile)
      requires Valid()
      modifies this, relay
      ensures Valid() && nextRelayId == old(nextRelayId)
      ensures relay.closed <==> old(relay.closed) || !meanwhile.StaysOpen?
      ensures Current() == if meanwhile.ClosesAndUnregisters?
                           then Unregister(old(Current()), relay.streamId, relay.id) else old(Current())
      ensures relays == if meanwhile.ClosesAndUnregisters? && relay.streamId in old(relays)
                             && old(relays)[relay.streamId].id == relay.id
                        then old(relays) - {relay.streamId} else old(relays)
    {
      if !meanwhile.StaysOpen? {
        relay.closed := true;
      }
      if meanwhile.ClosesAndUnregisters? {
        OnRelayClosed(relay);
      }
    }
  }

  // The interleavings. A relay may close at any moment, also between the look at its closed flag and the
  // installation of its successor, which happen under the controller's mutex but not under the relay's.

  datatype Relay = Relay(stream: StreamId, closed: bool)

  /** `creating` is the stream for which the holder of the mutex has found no relay it can use. */
  datatype State = State(
    current: map<StreamId, RelayId>, nextId: RelayId, made: map<RelayId, Relay>, creating: Option<StreamId>)

  datatype Step =
    | Look(stream: StreamId)
    | Create
    | CloseRelay(id: RelayId)
    | OnRelayClosed(id: RelayId)

  ghost predicate IsOpen(s: State, id: RelayId) {
    id in s.made && !s.made[id].closed
  }

  function Apply(s: State, step: Step): State {
    match step
    case Look(stream) =>
      if s.creating.Some? then s
      else if stream in s.current && s.current[stream] in s.made && !s.made[s.current[stream]].closed then s
      else s.(creating := Some(stream))
    case Create =>
      if s.creating.None? then s
      else
        var stream := s.creating.value;
        State(Register(s.current, stream, s.nextId), s.nextId + 1, s.made[s.nextId := Relay(stream, false)], None)
    case CloseRelay(id) =>
      if id in s.made then s.(made := s.made[id := s.made[id].(closed := true)]) else s
    case OnRelayClosed(id) =>
      // Run calls Close before it unregisters.
      if s.creating.Some? || id !in s.made || !s.made[id].closed then s
      else
        s.(current := Unregister(s.current, s.made[id].stream, id))
  }

  function Run(steps: seq<Step>): State {
    if steps == [] then State(map[], 0, map[], None) else Apply(Run(steps[..|steps| - 1]), steps[|steps| - 1])
  }

  ghost predicate Inv(s: State) {
    && (forall id :: id in s.made ==> id < s.nextId)
    && (forall stream :: stream in s.current ==>
      s.current[stream] in s.made && s.made[s.current[stream]].stream == stream)
    && (forall id :: IsOpen(s, id) ==> s.made[id].stream in s.current && s.current[s.made[id].stream] == id)
    && (s.creating.Some? && s.creating.value in s.current ==> !IsOpen(s, s.current[s.creating.value]))
  }

  lemma {:induction false} Reachable(steps: seq<Step>)
    ensures Inv(Run(steps))
  {
    if steps != [] {
      Reachable(steps[..|steps| - 1]);
    }
  }

  /** Every open relay is the current one of its stream, so no stream ever has two. */
  lemma {:induction false} OneOpenRelayPerStream(steps: seq<Step>, a: RelayId, b: RelayId)
    requires var s := Run(steps); IsOpen(s, a)
    ensures var s := Run(steps);
            && s.made[a].stream in s.current && s.current[s.made[a].stream] == a
            && (IsOpen(s, b) && s.made[a].stream == s.made[b].stream ==> a == b)
  {
    Reachable(steps);
  }

  /** However late a relay unregisters, it only ever takes its own entry: no open relay loses its place. */
  lemma {:induction false} LateUnregisterIsHarmless(steps: seq<Step>, id: RelayId, other: RelayId)
    requires IsOpen(Run(steps), other)
    ensures var s := Run(steps);
            var t := Apply(s, OnRelayClosed(id));
            && IsOpen(t, other) && t.made[other].stream in t.current && t.current[t.made[other].stream] == other
            && (forall stream :: stream in s.current && s.current[stream] != id ==>
              stream in t.current && t.current[stream] == s.current[stream])
  {
    Reachable(steps);
    Reachable(steps + [OnRelayClosed(id)]);
    assert (steps + [OnRelayClosed(id)])[..|steps|] == steps;
  }

  /** A lookup finds the open relay of a stream and changes nothing, or a new one with an id of its own takes the place,
      whatever closes in between. */
  lemma {:induction false} LookupEndsOpen(steps: seq<Step>, stream: StreamId, closing: seq<RelayId>)
    requires Run(steps).creating.None?
    ensures var s := Run(steps);
            if stream in s.current && IsOpen(s, s.current[stream]) then
              Apply(s, Look(stream)) == s
            else
              var t := Apply(CloseEach(Apply(s, Look(stream)), closing), Create);
              && s.nextId !in s.made && t.creating.None? && t.nextId == s.nextId + 1
              && IsOpen(t, s.nextId) && t.made[s.nextId].stream == stream
              && t.current == s.current[stream := s.nextId]
  {
    Reachable(steps);
    var s := Run(steps);
    hide Run;
    ClosingKeeps(Apply(s, Look(stream)), closing);
  }

  function CloseEach(s: State, ids: seq<RelayId>): State {
    if ids == [] then s else Apply(CloseEach(s, ids[..|ids| - 1]), CloseRelay(ids[|ids| - 1]))
  }

  lemma {:induction false} ClosingKeeps(s: State, ids: seq<RelayId>)
    ensures var t := CloseEach(s, ids);
            && t.current == s.current && t.nextId == s.nextId && t.creating == s.creating && t.made.Keys == s.made.Keys
            && forall id :: id in s.made ==>
                 t.made[id] == if id in ids then s.made[id].(closed := true) else s.made[id]
  {
    if ids != [] {
      var n := |ids| - 1;
      ClosingKeeps(s, ids[..n]);
      assert ids == ids[..n] + [ids[n]];
    }
  }

  /** Once closed, a relay that unregisters while no lookup holds the mutex has no entry left. */
  lemma {:induction false} UnregisteredIsGone(steps: seq<Step>, id: RelayId)
    requires var s := Run(steps); s.creating.None? && id in s.made && s.made[id].closed
    ensures var t := Apply(Run(steps), OnRelayClosed(id));
            forall stream :: stream in t.current ==> t.current[stream] != id
  {
    Reachable(steps);
  }
}
