/** The tester's publisher: metadata and data of a fragment arrive separately, in any order
    (tester/publisher.go). */
module ReorderPublisher {
  import opened Fragments
  import opened Playlists

  const LIVE_PLAYLIST_SIZE := 10

  /** `sent` lists the calls to the publisher client, in order. */
  datatype State = State(segments: map<int, Segment>, ready: set<int>, data: map<int, seq<Byte>>, count: int,
                         sent: seq<Fragment>, playlist: Option<Playlist>)

  datatype Arrival = DataArrived(index: int, data: seq<Byte>) | PlaylistArrived(segments: seq<Segment>)

  const INITIAL := State(map[], {}, map[], 0, [], None)

  datatype Collected = Collected(complete: seq<Segment>, segments: map<int, Segment>, ready: set<int>, count: int)

  /** Takes the segments that are complete, without a gap, from `count` on. */
  function Collect(segments: map<int, Segment>, ready: set<int>, count: int): Collected
    decreases ready
  {
    if count in segments && count in ready then
      var rest := Collect(segments - {count}, ready - {count}, count + 1);
      rest.(complete := [segments[count]] + rest.complete)
    else
      Collected([], segments, ready, count)
  }

  function Window(live: seq<Segment>, segment: Segment): seq<Segment> {
    var longer := live + [segment];
    if |longer| > LIVE_PLAYLIST_SIZE then longer[1..] else longer
  }

  /** Sends one complete segment and appends it to the live playlist. */
  function Emit(data: map<int, seq<Byte>>, sent: seq<Fragment>, live: seq<Segment>, segment: Segment)
    : (map<int, seq<Byte>>, seq<Fragment>, seq<Segment>)
  {
    (data - {segment.index},
     if segment.index in data && data[segment.index] != []
     then sent + [Fragment(segment.duration, data[segment.index])] else sent,
     Window(live, segment))
  }

  function EmitAll(data: map<int, seq<Byte>>, sent: seq<Fragment>, live: seq<Segment>, segments: seq<Segment>)
    : (map<int, seq<Byte>>, seq<Fragment>, seq<Segment>)
  {
    if segments == [] then (data, sent, live)
    else
      var (d, s, l) := EmitAll(data, sent, live, segments[..|segments| - 1]);
      Emit(d, s, l, segments[|segments| - 1])
  }

  function Live(playlist: Option<Playlist>): Playlist {
    if playlist.Some? then playlist.value else Playlist(DEFAULT_VERSION, DEFAULT_SEGMENT_TIME, 0, false, false, [])
  }

  function Update(s: State): State {
    var c := Collect(s.segments, s.ready, s.count);
    if c.count == s.count then s
    else
      var (data, sent, live) := EmitAll(s.data, s.sent, Live(s.playlist).segments, c.complete);
      State(c.segments, c.ready, data, c.count, sent,
            Some(Live(s.playlist).(segments := live, mediaSequence := if live != [] then live[0].index else 0)))
  }

  function AddSegments(segments: map<int, Segment>, count: int, arrived: seq<Segment>): map<int, Segment> {
    if arrived == [] then segments
    else
      var before := AddSegments(segments, count, arrived[..|arrived| - 1]);
      var last := arrived[|arrived| - 1];
      if last.index < count then before else before[last.index := last]
  }

  function Arrive(s: State, arrival: Arrival): State {
    match arrival
    case DataArrived(index, data) =>
      if index < s.count then s
      else Update(s.(ready := s.ready + {index}, data := s.data[index := data]))
    case PlaylistArrived(segments) =>
      Update(s.(segments := AddSegments(s.segments, s.count, segments)))
  }

  function Run(arrivals: seq<Arrival>): State {
    if arrivals == [] then INITIAL else Arrive(Run(arrivals[..|arrivals| - 1]), arrivals[|arrivals| - 1])
  }

  class TesterPublisher {
    var fragmentCount: int
    var fragments: map<int, Segment>
    var fragmentsReady: map<int, bool>
    var fragmentsData: map<int, seq<Byte>>
    var playlist: Option<Playlist>
    var sent: seq<Fragment>

    constructor ()
      ensures Valid() && View() == INITIAL
    {
      fragmentCount, fragments, fragmentsReady, fragmentsData := 0, map[], map[], map[];
      playlist, sent := None, [];
    }

    /** The flags in the map are always true. */
    ghost predicate Valid()
      reads this
    {
      forall i :: i in fragmentsReady ==> fragmentsReady[i]
    }

    ghost function View(): State
      reads this
    {
      State(fragments, fragmentsReady.Keys, fragmentsData, fragmentCount, sent, playlist)
    }

    method OnFragmentReady(fragmentIndex: int, data: seq<Byte>)
      requires Valid()
      modifies this
      ensures Valid() && View() == Arrive(old(View()), DataArrived(fragmentIndex, data))
    {
      hide Update;
      if fragmentIndex < fragmentCount {
        return;
      }
      ghost var before := View();
      fragmentsReady := fragmentsReady[fragmentIndex := true];
      fragmentsData := fragmentsData[fragmentIndex := data];
      assert View() == before.(ready := before.ready + {fragmentIndex}, data := before.data[fragmentIndex := data]);
      UpdateHlsInternal();
    }

    method OnPlaylistUpdate(segments: seq<Segment>)
      requires Valid()
      modifies this
      ensures Valid() && View() == Arrive(old(View()), PlaylistArrived(segments))
    {
      hide Update;
      for i := 0 to |segments|
        invariant Valid() &&
                  View() == old(View()).(segments := AddSegments(old(fragments), fragmentCount, segments[..i]))
      {
        assert segments[..i + 1][..i] == segments[..i];
        if segments[i].index < fragmentCount {
          continue;
        }
        fragments := fragments[segments[i].index := segments[i]];
      }
      assert segments[..|segments|] == segments;
      UpdateHlsInternal();
    }

    method UpdateHlsInternal()
      requires Valid()
      modifies this
      ensures Valid() && View() == Update(old(View()))
    {
      hide Collect;
      var oldFragmentCount := fragmentCount;
      var newFragments := CountComplete();
      if fragmentCount == oldFragmentCount {
        return;
      }
      EmitFragments(newFragments);
    }

    /** The first loop of updateHLSInternal: moves the count past the complete fragments.
        Nothing changes when there are none. */
    method CountComplete() returns (newFragments: seq<Segment>)
      requires Valid()
      modifies this`fragments, this`fragmentsReady, this`fragmentCount
      ensures Valid()
      ensures Collected(newFragments, fragments, fragmentsReady.Keys, fragmentCount) ==
              Collect(old(fragments), old(fragmentsReady.Keys), old(fragmentCount))
      ensures fragmentCount == old(fragmentCount) ==> View() == old(View())
    {
      newFragments := [];
      while fragmentCount in fragments && fragmentCount in fragmentsReady && fragmentsReady[fragmentCount]
        invariant Valid() && fragmentCount >= old(fragmentCount)
        invariant fragmentCount == old(fragmentCount) ==> View() == old(View())
        invariant var rest := Collect(fragments, fragmentsReady.Keys, fragmentCount);
                  rest.(complete := newFragments + rest.complete) ==
                    Collect(old(fragments), old(fragmentsReady.Keys), old(fragmentCount))
        decreases fragmentsReady.Keys
      {
        newFragments := newFragments + [fragments[fragmentCount]];
        fragmentsReady := fragmentsReady - {fragmentCount};
        fragments := fragments - {fragmentCount};
        fragmentCount := fragmentCount + 1;
      }
    }

    /** The second loop: sends them and slides the live playlist. */
    method EmitFragments(newFragments: seq<Segment>)
      requires Valid()
      modifies this`fragmentsData, this`sent, this`playlist
      ensures Valid()
      ensures var (data, all, live) := EmitAll(old(fragmentsData), old(sent), Live(old(playlist)).segments,
                newFragments);
              && fragmentsData == data && sent == all
              && playlist == Some(Live(old(playlist)).(segments := live, mediaSequence := if live != []
                then live[0].index else 0))
    {
      var livePlaylist := Live(playlist);
      var live := livePlaylist.segments;
      for i := 0 to |newFragments|
        invariant Valid() && playlist == old(playlist)
        invariant (fragmentsData, sent, live) ==
                  EmitAll(old(fragmentsData), old(sent), Live(old(playlist)).segments, newFragments[..i])
      {
        assert newFragments[..i + 1][..i] == newFragments[..i];
        var index := newFragments[i].index;
        if index in fragmentsData {
          var data := fragmentsData[index];
          fragmentsData := fragmentsData - {index};
          if |data| > 0 {
            sent := sent + [Fragment(newFragments[i].duration, data)];
          }
        } else {
          assert fragmentsData - {index} == fragmentsData;
        }
        live := live + [newFragments[i]];
        if |live| > LIVE_PLAYLIST_SIZE {
          live := live[1..];
        }
      }
      assert newFragments[..|newFragments|] == newFragments;
      playlist := Some(livePlaylist.(segments := live, mediaSequence := if |live| > 0 then live[0].index else 0));
    }
  }

  // Arrival order does not matter. `meta` and `bytes` say what belongs to each index; arrivals agree with them.

  ghost predicate Agrees(arrival: Arrival, meta: int -> Segment, bytes: int -> seq<Byte>) {
    match arrival
    case DataArrived(index, data) => data == bytes(index)
    case PlaylistArrived(segments) => forall k :: 0 <= k < |segments| ==> segments[k] == meta(segments[k].index)
  }

  ghost predicate AllAgree(arrivals: seq<Arrival>, meta: int -> Segment, bytes: int -> seq<Byte>) {
    forall i :: 0 <= i < |arrivals| ==> Agrees(arrivals[i], meta, bytes)
  }

  ghost function DataSeen(arrivals: seq<Arrival>): set<int> {
    set i | 0 <= i < |arrivals| && arrivals[i].DataArrived? :: arrivals[i].index
  }

  ghost function Indices(segments: seq<Segment>): set<int> {
    set k | 0 <= k < |segments| :: segments[k].index
  }

  ghost function MetaSeen(arrivals: seq<Arrival>): set<int> {
    if arrivals == [] then {}
    else
      var last := arrivals[|arrivals| - 1];
      MetaSeen(arrivals[..|arrivals| - 1]) + if last.PlaylistArrived? then Indices(last.segments) else {}
  }

  /** What is to be sent for the indices below `n`. */
  ghost function Sent(meta: int -> Segment, bytes: int -> seq<Byte>, n: nat): seq<Fragment> {
    if n == 0 then []
    else Sent(meta, bytes, n - 1) + if bytes(n - 1) != [] then [Fragment(meta(n - 1).duration, bytes(n - 1))] else []
  }

  /** The last ten segments below `n`, or all when there are fewer. */
  ghost function LastTen(meta: int -> Segment, n: nat): seq<Segment> {
    var size: nat := if n > 10 then 10 else n;
    seq(size, k => meta(n - size + k))
  }

  /** The least index of which metadata or data is missing. */
  ghost predicate LeastMissing(n: int, metaSeen: set<int>, dataSeen: set<int>) {
    && n >= 0
    && (forall i :: 0 <= i < n ==> i in metaSeen && i in dataSeen)
    && !(n in metaSeen && n in dataSeen)
  }

  /** What is stored is what has arrived from `count` on. */
  ghost predicate Stored(s: State, meta: int -> Segment, bytes: int -> seq<Byte>, metaSeen: set<int>,
                         dataSeen: set<int>) {
    && (forall i :: i in s.segments <==> i in metaSeen && i >= s.count)
    && (forall i :: i in s.ready <==> i in dataSeen && i >= s.count)
    && s.data.Keys == s.ready
    && (forall i :: i in s.segments ==> s.segments[i] == meta(i))
    && (forall i :: i in metaSeen ==> meta(i).index == i)
    && (forall i :: i in s.data ==> s.data[i] == bytes(i))
  }

  /** The playlist once the count is `n`: version 3, target duration 3, neither on demand nor ended. */
  ghost function Playing(meta: int -> Segment, n: nat): Option<Playlist> {
    if n == 0 then None
    else Some(Playlist(3, 3, if n > 10 then n - 10 else 0, false, false, LastTen(meta, n)))
  }

  ghost predicate Output(s: State, meta: int -> Segment, bytes: int -> seq<Byte>) {
    && s.count >= 0
    && s.sent == Sent(meta, bytes, s.count)
    && s.playlist == Playing(meta, s.count)
  }

  lemma {:induction false} CollectTakesRun(segments: map<int, Segment>, ready: set<int>, count: int,
                                           meta: int -> Segment)
    requires forall i :: i in segments ==> segments[i] == meta(i)
    ensures var c := Collect(segments, ready, count);
            && c.count == count + |c.complete|
            && (forall k :: 0 <= k < |c.complete| ==> c.complete[k] == meta(count + k))
            && (forall i :: count <= i < c.count ==> i in segments && i in ready)
            && !(c.count in segments && c.count in ready)
            && (forall i :: i in c.segments <==> i in segments && !(count <= i < c.count))
            && (forall i :: i in c.segments ==> c.segments[i] == segments[i])
            && (forall i :: i in c.ready <==> i in ready && !(count <= i < c.count))
    decreases ready
  {
    if count in segments && count in ready {
      CollectTakesRun(segments - {count}, ready - {count}, count + 1, meta);
      forall i | count < i < Collect(segments, ready, count).count ensures i in segments && i in ready {
        assert i in segments - {count} && i in ready - {count};
      }
    }
  }

  lemma {:induction false} EmitTakesData(data: map<int, seq<Byte>>, sent: seq<Fragment>, live: seq<Segment>,
                                         segments: seq<Segment>, count: nat)
    requires forall k :: 0 <= k < |segments| ==> segments[k].index == count + k
    ensures var d := EmitAll(data, sent, live, segments).0;
            && (forall i :: i in d <==> i in data && !(count <= i < count + |segments|))
            && (forall i :: i in d ==> d[i] == data[i])
  {
    hide Window;
    if segments != [] {
      EmitTakesData(data, sent, live, segments[..|segments| - 1], count);
    }
  }

  lemma {:induction false} EmitSends(data: map<int, seq<Byte>>, segments: seq<Segment>, count: nat,
                                     meta: int -> Segment, bytes: int -> seq<Byte>)
    requires forall k :: 0 <= k < |segments| ==> segments[k] == meta(count + k) && segments[k].index == count + k
    requires forall i :: count <= i < count + |segments| ==> i in data
    requires forall i :: i in data ==> data[i] == bytes(i)
    ensures var (_, sent, live) := EmitAll(data, Sent(meta, bytes, count), LastTen(meta, count), segments);
            && sent == Sent(meta, bytes, count + |segments|)
            && live == LastTen(meta, count + |segments|)
  {
    hide LastTen, Window, Emit, Sent;
    if segments != [] {
      var n := |segments| - 1;
      EmitSends(data, segments[..n], count, meta, bytes);
      EmitTakesData(data, Sent(meta, bytes, count), LastTen(meta, count), segments[..n], count);
      var before := EmitAll(data, Sent(meta, bytes, count), LastTen(meta, count), segments[..n]);
      EmitSendsOne(before.0, segments[n], count + n, meta, bytes);
    }
  }

  lemma {:induction false} EmitSendsOne(data: map<int, seq<Byte>>, segment: Segment, n: nat, meta: int -> Segment,
                                        bytes: int -> seq<Byte>)
    requires segment == meta(n) && segment.index == n && n in data && data[n] == bytes(n)
    ensures var (_, sent, live) := Emit(data, Sent(meta, bytes, n), LastTen(meta, n), segment);
            sent == Sent(meta, bytes, n + 1) && live == LastTen(meta, n + 1)
  {
    hide LastTen, Window;
    WindowSlides(meta, n);
  }

  lemma {:induction false} WindowSlides(meta: int -> Segment, n: nat)
    ensures Window(LastTen(meta, n), meta(n)) == LastTen(meta, n + 1)
  {}

  /** The complete fragments, seen from the count and from what has arrived. */
  lemma {:induction false} CollectSettles(s: State, meta: int -> Segment, bytes: int -> seq<Byte>,
                                          metaSeen: set<int>, dataSeen: set<int>)
    requires Stored(s, meta, bytes, metaSeen, dataSeen) && s.count >= 0
    requires forall i :: 0 <= i < s.count ==> i in metaSeen && i in dataSeen
    ensures var c := Collect(s.segments, s.ready, s.count);
            && c.count == s.count + |c.complete|
            && LeastMissing(c.count, metaSeen, dataSeen)
            && (forall k :: 0 <= k < |c.complete| ==>
                  c.complete[k] == meta(s.count + k) && c.complete[k].index == s.count + k)
            && (forall i :: s.count <= i < c.count ==> i in s.data)
  {
    hide Collect;
    CollectTakesRun(s.segments, s.ready, s.count, meta);
    var c := Collect(s.segments, s.ready, s.count);
    forall k | 0 <= k < |c.complete| ensures c.complete[k].index == s.count + k {
      assert s.count + k in s.segments;
    }
    forall i | 0 <= i < c.count ensures i in metaSeen && i in dataSeen {
      assert i >= s.count ==> i in s.segments && i in s.ready;
    }
  }

  lemma {:induction false} UpdateStores(s: State, meta: int -> Segment, bytes: int -> seq<Byte>,
                                        metaSeen: set<int>, dataSeen: set<int>)
    requires Stored(s, meta, bytes, metaSeen, dataSeen) && s.count >= 0
    requires forall i :: 0 <= i < s.count ==> i in metaSeen && i in dataSeen
    ensures Stored(Update(s), meta, bytes, metaSeen, dataSeen)
  {
    hide Collect, EmitAll, Live;
    var c := Collect(s.segments, s.ready, s.count);
    CollectTakesRun(s.segments, s.ready, s.count, meta);
    CollectSettles(s, meta, bytes, metaSeen, dataSeen);
    EmitTakesData(s.data, s.sent, Live(s.playlist).segments, c.complete, s.count);
    var t := Update(s);
    if c.count != s.count {
      assert t.data.Keys == t.ready by {
        assert forall i :: i in t.data <==> i in t.ready;
      }
    }
  }

  lemma {:induction false} UpdateOutputs(s: State, meta: int -> Segment, bytes: int -> seq<Byte>,
                                         metaSeen: set<int>, dataSeen: set<int>)
    requires Stored(s, meta, bytes, metaSeen, dataSeen) && Output(s, meta, bytes)
    requires forall i :: 0 <= i < s.count ==> i in metaSeen && i in dataSeen
    ensures Output(Update(s), meta, bytes) && LeastMissing(Update(s).count, metaSeen, dataSeen)
  {
    hide Collect, EmitAll, Sent, LastTen, Stored, LeastMissing, Live;
    var c := Collect(s.segments, s.ready, s.count);
    CollectSettles(s, meta, bytes, metaSeen, dataSeen);
    FirstKnown(s, c.count, meta, bytes, metaSeen, dataSeen);
    LivePlays(meta, s.count);
    if c.count != s.count {
      EmitSends(s.data, c.complete, s.count, meta, bytes);
      FirstOfLastTen(meta, c.count);
    }
  }

  /** The data kept, and the index of the first segment played, are as they should be. */
  lemma {:induction false} FirstKnown(s: State, n: int, meta: int -> Segment, bytes: int -> seq<Byte>,
                                      metaSeen: set<int>, dataSeen: set<int>)
    requires Stored(s, meta, bytes, metaSeen, dataSeen) && LeastMissing(n, metaSeen, dataSeen)
    ensures forall i :: i in s.data ==> s.data[i] == bytes(i)
    ensures var first := if n > 10 then n - 10 else 0; n > 0 ==> meta(first).index == first
  {
    var first := if n > 10 then n - 10 else 0;
    assert n > 0 ==> first in metaSeen;
  }

  lemma {:induction false} LivePlays(meta: int -> Segment, n: nat)
    ensures var live := Live(Playing(meta, n));
            && live.segments == LastTen(meta, n)
            && (live.version, live.targetDuration, live.isVod, live.isEnded) == (3, 3, false, false)
  {
    assert n == 0 ==> LastTen(meta, n) == [];
  }

  lemma {:induction false} FirstOfLastTen(meta: int -> Segment, n: nat)
    ensures n > 0 ==>
              && LastTen(meta, n) != []
              && LastTen(meta, n)[0] == meta(if n > LIVE_PLAYLIST_SIZE then n - LIVE_PLAYLIST_SIZE else 0)
  {}

  lemma {:induction false} AddSegmentsStores(segments: map<int, Segment>, count: int, arrived: seq<Segment>,
                                             meta: int -> Segment)
    requires forall i :: i in segments ==> segments[i] == meta(i) && i >= count
    requires forall k :: 0 <= k < |arrived| ==> arrived[k] == meta(arrived[k].index)
    ensures var added := AddSegments(segments, count, arrived);
            && (forall i :: i in added <==> i in segments || (i in Indices(arrived) && i >= count))
            && (forall i :: i in added ==> added[i] == meta(i))
  {
    if arrived != [] {
      var n := |arrived| - 1;
      AddSegmentsStores(segments, count, arrived[..n], meta);
      assert Indices(arrived) == Indices(arrived[..n]) + {arrived[n].index} by {
        assert arrived == arrived[..n] + [arrived[n]];
      }
    }
  }

  /** The state after any arrivals that agree. */
  ghost predicate Settled(s: State, meta: int -> Segment, bytes: int -> seq<Byte>, metaSeen: set<int>,
                          dataSeen: set<int>) {
    && Stored(s, meta, bytes, metaSeen, dataSeen)
    && Output(s, meta, bytes)
    && LeastMissing(s.count, metaSeen, dataSeen)
  }

  lemma {:induction false} ArrivalSettles(s: State, arrival: Arrival, meta: int -> Segment,
                                          bytes: int -> seq<Byte>, metaSeen: set<int>, dataSeen: set<int>)
    requires Settled(s, meta, bytes, metaSeen, dataSeen) && Agrees(arrival, meta, bytes)
    ensures Settled(Arrive(s, arrival), meta, bytes,
                    metaSeen + (if arrival.PlaylistArrived? then Indices(arrival.segments) else {}),
                    dataSeen + (if arrival.DataArrived? then {arrival.index} else {}))
  {
    hide Collect, EmitAll, Update, Output;
    match arrival {
      case DataArrived(index, data) =>
        if index >= s.count {
          var t := s.(ready := s.ready + {index}, data := s.data[index := data]);
          SameOutput(s, t, meta, bytes);
          assert metaSeen + {} == metaSeen;
          UpdateStores(t, meta, bytes, metaSeen, dataSeen + {index});
          UpdateOutputs(t, meta, bytes, metaSeen, dataSeen + {index});
        }
      case PlaylistArrived(segments) =>
        AddSegmentsStores(s.segments, s.count, segments, meta);
        var t := s.(segments := AddSegments(s.segments, s.count, segments));
        SameOutput(s, t, meta, bytes);
        assert dataSeen + {} == dataSeen;
        UpdateStores(t, meta, bytes, metaSeen + Indices(segments), dataSeen);
        UpdateOutputs(t, meta, bytes, metaSeen + Indices(segments), dataSeen);
    }
  }

  lemma {:induction false} SameOutput(s: State, t: State, meta: int -> Segment, bytes: int -> seq<Byte>)
    requires Output(s, meta, bytes) && t.count == s.count && t.sent == s.sent && t.playlist == s.playlist
    ensures Output(t, meta, bytes)
  {}

  lemma {:induction false} ArrivalsSettle(arrivals: seq<Arrival>, meta: int -> Segment, bytes: int -> seq<Byte>)
    requires AllAgree(arrivals, meta, bytes)
    ensures Settled(Run(arrivals), meta, bytes, MetaSeen(arrivals), DataSeen(arrivals))
  {
    if arrivals != [] {
      hide Settled, Arrive;
      var n := |arrivals| - 1;
      ArrivalsSettle(arrivals[..n], meta, bytes);
      SeenMore(arrivals);
      ArrivalSettles(Run(arrivals[..n]), arrivals[n], meta, bytes, MetaSeen(arrivals[..n]), DataSeen(arrivals[..n]));
    }
  }

  lemma {:induction false} SeenMore(arrivals: seq<Arrival>)
    requires arrivals != []
    ensures var before, last := arrivals[..|arrivals| - 1], arrivals[|arrivals| - 1];
            && DataSeen(arrivals) == DataSeen(before) + (if last.DataArrived? then {last.index} else {})
            && MetaSeen(arrivals) == MetaSeen(before) + (if last.PlaylistArrived? then Indices(last.segments) else {})
  {
    var n := |arrivals| - 1;
    assert arrivals == arrivals[..n] + [arrivals[n]];
  }

  /** Whatever the order: the count is the least index that lacks something, what lies below it has been sent
      exactly once in index order, and the live playlist is the last ten segments below it. */
  lemma {:induction false} OrderDoesNotMatter(one: seq<Arrival>, other: seq<Arrival>, meta: int -> Segment,
                                              bytes: int -> seq<Byte>)
    requires AllAgree(one, meta, bytes) && AllAgree(other, meta, bytes)
    requires MetaSeen(one) == MetaSeen(other) && DataSeen(one) == DataSeen(other)
    ensures LeastMissing(Run(one).count, MetaSeen(one), DataSeen(one)) && Output(Run(one), meta, bytes)
    ensures Run(one).count == Run(other).count && Run(one).sent == Run(other).sent
    ensures Run(one).playlist == Run(other).playlist
  {
    ArrivalsSettle(one, meta, bytes);
    ArrivalsSettle(other, meta, bytes);
    var n, m := Run(one).count, Run(other).count;
    assert !(n < m) && !(m < n);
  }
}
