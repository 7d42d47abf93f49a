/** Which source is current for a stream, while creates, replacements, closes and removals interleave
    (server/sources_controller.go, and the publisher side of server/connection.go). */
module SourceOwnership {
  import opened Fragments

  type StreamId = string
  type SourceId = nat
  type ConnectionId = nat

  class HlsSource {
    const id: SourceId
    const streamId: StreamId
    var closed: bool

    constructor (id: SourceId, streamId: StreamId)
      ensures this.id == id && this.streamId == streamId && !closed
    {
      this.id, this.streamId, closed := id, streamId, false;
    }

    method Close()
      modifies this
      ensures closed
    {
      closed := true;
    }
  }

  /** A newcomer takes the place of whoever was there. Methods and interleavings below share these two steps. */
  function Replace(current: map<StreamId, SourceId>, stream: StreamId, id: SourceId): map<StreamId, SourceId> {
    current[stream := id]
  }

  /** A leaving source takes away its own entry only. */
  function Remove(current: map<StreamId, SourceId>, stream: StreamId, id: SourceId): map<StreamId, SourceId> {
    if stream in current && current[stream] == id then current - {stream} else current
  }

  /** What other connections do between two critical sections: the map they leave, and how many ids they took. */
  datatype Between = Nobody | Others(left: map<StreamId, HlsSource>, taken: nat)

  class SourcesController {
    var sources: map<StreamId, HlsSource>
    var nextSourceId: SourceId

    constructor ()
      ensures sources == map[] && nextSourceId == 0
    {
      sources, nextSourceId := map[], 0;
    }

    ghost function Current(): map<StreamId, SourceId>
      reads this
    {
      map stream | stream in sources :: sources[stream].id
    }

    method GetSource(streamId: StreamId) returns (source: HlsSource?)
      ensures source == if streamId in sources then sources[streamId] else null
    {
      source := if streamId in sources then sources[streamId] else null;
    }

    /** First critical section of CreateSource. */
    method AllocateId() returns (id: SourceId)
      modifies this
      ensures id == old(nextSourceId) && nextSourceId == id + 1 && sources == old(sources)
    {
      id := nextSourceId;
      nextSourceId := nextSourceId + 1;
    }

    /** Second critical section of CreateSource: the newcomer replaces whoever was there. */
    method Install(source: HlsSource) returns (existing: HlsSource?)
      modifies this
      ensures existing == if source.streamId in old(sources) then old(sources)[source.streamId] else null
      ensures sources == old(sources)[source.streamId := source] && nextSourceId == old(nextSourceId)
      ensures Current() == Replace(old(Current()), source.streamId, source.id)
    {
      existing := if source.streamId in sources then sources[source.streamId] else null;
      sources := sources[source.streamId := source];
    }

    /** The whole of CreateSource. Others may come between its two critical sections and leave any map behind
        them; after the second one it closes whom it replaced, and looks at the map no more. */
    method CreateSource(streamId: StreamId, between: Between) returns (source: HlsSource)
      modifies this, if between.Others? then between.left.Values else sources.Values
      ensures fresh(source) && source.streamId == streamId && source.id == old(nextSourceId) && !source.closed
      ensures var there := if between.Others? then between.left else old(sources);
              && sources == there[streamId := source]
              && (streamId in there ==> there[streamId].closed)
              && (forall stream :: stream in there && (streamId in there ==> there[stream] != there[streamId]) ==>
                    there[stream].closed == old(there[stream].closed))
      ensures nextSourceId == old(nextSourceId) + 1 + if between.Others? then between.taken else 0
    {
      var id := AllocateId();
      source := new HlsSource(id, streamId);
      if between.Others? {
        sources, nextSourceId := between.left, nextSourceId + between.taken;
      }
      var existing := Install(source);
      if existing != null {
        existing.Close();
      }
    }

    method RemoveSource(streamId: StreamId, source: HlsSource)
      modifies this
      ensures nextSourceId == old(nextSourceId)
      ensures sources == if streamId in old(sources) && old(sources)[streamId] == source then old(sources) - {streamId}
                         else old(sources)
      // Sources are compared as objects: with one object to an id, that is to compare ids.
      ensures (streamId in old(sources) && old(sources)[streamId].id == source.id ==>
                old(sources)[streamId] == source) ==>
                Current() == Remove(old(Current()), streamId, source.id)
    {
      if streamId !in sources || sources[streamId] != source {
        return;
      }
      sources := sources - {streamId};
    }
  }

  // The interleavings: each step is one critical section of one connection.

  /** Where a publisher's connection stands. */
  datatype Stage =
    | Allocated(id: SourceId, stream: StreamId)
    | Installed(id: SourceId, stream: StreamId, existing: Option<SourceId>)
    | Publishing(id: SourceId, stream: StreamId)
    | Leaving(id: SourceId, stream: StreamId)
    | Gone

  datatype Source = Source(stream: StreamId, closed: bool)

  /** `installed` holds every source that was ever put in the map. */
  datatype State = State(current: map<StreamId, SourceId>, nextId: SourceId, installed: map<SourceId, Source>,
                         connections: map<ConnectionId, Stage>)

  datatype Step =
    | Allocate(c: ConnectionId, stream: StreamId)
    | Install(c: ConnectionId)
    | CloseExisting(c: ConnectionId)
    | CloseOwn(c: ConnectionId)
    | RemoveOwn(c: ConnectionId)

  function Close(s: State, id: SourceId): State {
    if id in s.installed then s.(installed := s.installed[id := s.installed[id].(closed := true)]) else s
  }

  function CurrentOf(s: State, stream: StreamId): Option<SourceId> {
    if stream in s.current then Some(s.current[stream]) else None
  }

  /** A step of a connection that is not at that point is skipped. */
  function Apply(s: State, step: Step): State {
    match step
    case Allocate(c, stream) =>
      if c in s.connections then s
      else s.(nextId := s.nextId + 1, connections := s.connections[c := Allocated(s.nextId, stream)])
    case Install(c) =>
      if c !in s.connections || !s.connections[c].Allocated? then s
      else
        var Allocated(id, stream) := s.connections[c];
        State(Replace(s.current, stream, id), s.nextId, s.installed[id := Source(stream, false)],
              s.connections[c := Installed(id, stream, CurrentOf(s, stream))])
    case CloseExisting(c) =>
      if c !in s.connections || !s.connections[c].Installed? then s
      else
        var Installed(id, stream, existing) := s.connections[c];
        var t := if existing.Some? then Close(s, existing.value) else s;
        t.(connections := s.connections[c := Publishing(id, stream)])
    case CloseOwn(c) =>
      if c !in s.connections || !s.connections[c].Publishing? then s
      else
        var Publishing(id, stream) := s.connections[c];
        Close(s, id).(connections := s.connections[c := Leaving(id, stream)])
    case RemoveOwn(c) =>
      if c !in s.connections || !s.connections[c].Leaving? then s
      else
        var Leaving(id, stream) := s.connections[c];
        s.(current := Remove(s.current, stream, id), connections := s.connections[c := Gone])
  }

  function Run(steps: seq<Step>): State {
    if steps == [] then State(map[], 0, map[], map[]) else Apply(Run(steps[..|steps| - 1]), steps[|steps| - 1])
  }

  ghost predicate IsOpen(s: State, id: SourceId) {
    id in s.installed && !s.installed[id].closed
  }

  /** A create in flight that will close `id`. */
  ghost predicate Doomed(s: State, id: SourceId) {
    exists c :: c in s.connections && s.connections[c].Installed? && s.connections[c].existing == Some(id)
  }

  /** What a connection's stage says about its source. */
  ghost predicate StageOk(s: State, stage: Stage) {
    match stage
    case Allocated(id, stream) => id < s.nextId && id !in s.installed
    case Gone => true
    case _ => stage.id < s.nextId && stage.id in s.installed && s.installed[stage.id].stream == stage.stream
              && (stage.Leaving? ==> s.installed[stage.id].closed)
  }

  predicate Engaged(s: State, c: ConnectionId)
    requires c in s.connections
  {
    !s.connections[c].Gone?
  }

  ghost predicate EachStageOk(s: State) {
    forall c :: c in s.connections ==> StageOk(s, s.connections[c])
  }

  ghost predicate IdsDiffer(s: State) {
    forall c, d :: c in s.connections && d in s.connections && c != d && Engaged(s, c) && Engaged(s, d) ==>
      s.connections[c].id != s.connections[d].id
  }

  ghost predicate StagesOk(s: State) {
    EachStageOk(s) && IdsDiffer(s)
  }

  ghost predicate MapOk(s: State) {
    && (forall id :: id in s.installed ==> id < s.nextId)
    && (forall stream :: stream in s.current ==>
      s.current[stream] in s.installed && s.installed[s.current[stream]].stream == stream)
  }

  ghost predicate OpenOk(s: State) {
    forall id :: IsOpen(s, id) ==> CurrentOf(s, s.installed[id].stream) == Some(id) || Doomed(s, id)
  }

  ghost predicate Inv(s: State) {
    MapOk(s) && StagesOk(s) && OpenOk(s)
  }

  lemma {:induction false} BooksKeep(s: State, step: Step)
    requires MapOk(s) && StagesOk(s)
    ensures MapOk(Apply(s, step)) && StagesOk(Apply(s, step))
  {
    hide MapOk, EachStageOk, IdsDiffer, Apply;
    MapKeeps(s, step);
    EachStageKeeps(s, step);
    IdsKeep(s, step);
  }

  lemma {:induction false} EachStageKeeps(s: State, step: Step)
    requires MapOk(s) && StagesOk(s)
    ensures EachStageOk(Apply(s, step))
  {
    var t := Apply(s, step);
    assert step.c in s.connections ==> StageOk(s, s.connections[step.c]);
    forall c | c in t.connections ensures StageOk(t, t.connections[c]) {
      assert c in s.connections ==> StageOk(s, s.connections[c]);
      assert c in s.connections && c != step.c && step.c in s.connections && Engaged(s, c) && Engaged(s, step.c) ==>
          s.connections[c].id != s.connections[step.c].id;
    }
  }

  lemma {:induction false} IdsKeep(s: State, step: Step)
    requires StagesOk(s)
    ensures IdsDiffer(Apply(s, step))
  {
    var t := Apply(s, step);
    forall c | c in s.connections ensures Engaged(s, c) ==> s.connections[c].id < s.nextId {
      assert StageOk(s, s.connections[c]);
    }
  }

  lemma {:induction false} MapKeeps(s: State, step: Step)
    requires MapOk(s) && StagesOk(s)
    ensures MapOk(Apply(s, step))
  {
    assert step.c in s.connections ==> StageOk(s, s.connections[step.c]);
    hide StagesOk;
  }

  lemma {:induction false} OpenKeeps(s: State, step: Step)
    requires Inv(s)
    ensures OpenOk(Apply(s, step))
  {
    hide MapOk;
    var t := Apply(s, step);
    assert step.c in s.connections ==> StageOk(s, s.connections[step.c]);
    hide StagesOk;
    forall id | IsOpen(t, id) ensures CurrentOf(t, t.installed[id].stream) == Some(id) || Doomed(t, id) {
      if id in s.installed {
        assert IsOpen(s, id);
        if Doomed(s, id) {
          var c :| c in s.connections && s.connections[c].Installed? && s.connections[c].existing == Some(id);
          assert c in t.connections;
        } else if step.Install? && CurrentOf(t, t.installed[id].stream) != Some(id) {
          assert t.connections[step.c].existing == Some(id);
        }
      }
    }
  }

  lemma {:induction false} StepKeeps(s: State, step: Step)
    requires Inv(s)
    ensures Inv(Apply(s, step))
  {
    hide MapOk, StagesOk, OpenOk, Apply;
    BooksKeep(s, step);
    OpenKeeps(s, step);
  }

  lemma {:induction false} Reachable(steps: seq<Step>)
    ensures Inv(Run(steps))
  {
    if steps != [] {
      Reachable(steps[..|steps| - 1]);
      StepKeeps(Run(steps[..|steps| - 1]), steps[|steps| - 1]);
    }
  }

  /** Every open source is the current one of its stream, or a create in flight is about to close it. */
  lemma {:induction false} OpenIsCurrentOrDoomed(steps: seq<Step>, id: SourceId)
    requires IsOpen(Run(steps), id)
    ensures var s := Run(steps);
            CurrentOf(s, s.installed[id].stream) == Some(id) || Doomed(s, id)
  {
    Reachable(steps);
  }

  ghost predicate Quiet(s: State) {
    forall c :: c in s.connections ==> !s.connections[c].Installed?
  }

  /** With no create in flight, a stream has at most one open source. */
  lemma {:induction false} OneOpenSourcePerStream(steps: seq<Step>, a: SourceId, b: SourceId)
    requires var s := Run(steps);
             Quiet(s) && IsOpen(s, a) && IsOpen(s, b) && s.installed[a].stream == s.installed[b].stream
    ensures a == b
  {
    Reachable(steps);
  }

  /** Leaving never takes a successor away: only the own entry goes, and what stays current stays as open
      as it was. */
  lemma {:induction false} LeavingSparesSuccessors(steps: seq<Step>, c: ConnectionId)
    requires var s := Run(steps); c in s.connections && s.connections[c].Leaving?
    ensures var s := Run(steps);
            var t := Apply(s, RemoveOwn(c));
            && t.installed == s.installed
            && (forall stream :: stream in s.current ==>
                  if s.current[stream] == s.connections[c].id then stream !in t.current
                  else stream in t.current && t.current[stream] == s.current[stream])
            && (forall stream :: stream in t.current ==> stream in s.current)
            && (forall id :: IsOpen(t, id) && !Doomed(s, id) ==> CurrentOf(t, t.installed[id].stream) == Some(id))
  {
    Reachable(steps);
    Reachable(steps + [RemoveOwn(c)]);
    assert (steps + [RemoveOwn(c)])[..|steps|] == steps;
  }

  // A create is carried through, whatever others do in the meantime.

  lemma {:induction false} RunOn(steps: seq<Step>, step: Step)
    ensures Run(steps + [step]) == Apply(Run(steps), step)
  {
    assert (steps + [step])[..|steps|] == steps;
  }

  ghost predicate Others(steps: seq<Step>, c: ConnectionId) {
    forall i :: 0 <= i < |steps| ==> steps[i].c != c
  }

  lemma {:induction false} OthersLeaveStage(steps: seq<Step>, others: seq<Step>, c: ConnectionId)
    requires Others(others, c) && c in Run(steps).connections
    ensures c in Run(steps + others).connections
    ensures Run(steps + others).connections[c] == Run(steps).connections[c]
  {
    if others == [] {
      assert steps + others == steps;
    } else {
      hide Run;
      var n := |others| - 1;
      OthersLeaveStage(steps, others[..n], c);
      RunOn(steps + others[..n], others[n]);
      assert steps + others == steps + others[..n] + [others[n]];
    }
  }

  /** A newcomer's source has an id of its own, becomes the current one of its stream whatever happened between its
      two critical sections, and stands open; whoever was current is closed then, and nobody else is touched. */
  lemma {:induction false} CreateTakesOver(steps: seq<Step>, c: ConnectionId, stream: StreamId, others: seq<Step>)
    requires c !in Run(steps).connections && Others(others, c)
    ensures var s := Run(steps + [Allocate(c, stream)] + others);
            var t := Apply(Apply(s, Install(c)), CloseExisting(c));
            var id := Run(steps).nextId;
            && id !in s.installed && IsOpen(t, id) && t.installed[id].stream == stream
            && t.current == s.current[stream := id]
            && (stream in s.current ==> s.current[stream] in t.installed && !IsOpen(t, s.current[stream]))
            && (forall other :: other in s.installed && CurrentOf(s, stream) != Some(other) ==>
                  other in t.installed && t.installed[other] == s.installed[other])
            && c in t.connections && t.connections[c] == Publishing(id, stream)
  {
    hide Run;
    var begun := steps + [Allocate(c, stream)];
    RunOn(steps, Allocate(c, stream));
    OthersLeaveStage(begun, others, c);
    Reachable(begun + others);
    var s := Run(begun + others);
    assert StageOk(s, s.connections[c]);
  }

  /** A publisher that ends closes its source first, and then gives up its entry if it still has one. */
  lemma {:induction false} LeavingCloses(steps: seq<Step>, c: ConnectionId)
    requires var s := Run(steps); c in s.connections && s.connections[c].Publishing?
    ensures var s := Run(steps);
            var t := Apply(s, CloseOwn(c));
            var id := s.connections[c].id;
            && id in t.installed && !IsOpen(t, id) && t.current == s.current
            && CurrentOf(Apply(t, RemoveOwn(c)), s.connections[c].stream) != Some(id)
            && (forall other :: other in s.installed && other != id ==>
                  other in t.installed && t.installed[other] == s.installed[other])
  {
    hide Run;
    Reachable(steps);
    assert StageOk(Run(steps), Run(steps).connections[c]);
  }
}
