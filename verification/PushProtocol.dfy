/** The publisher client and the server's connection handler at the two ends of one websocket. */
module PushProtocol {
  import opened Sequences
  import opened Floats
  import opened Fragments
  import opened Texts
  import opened Messages
  import opened Wire
  import opened Reading
  import opened Connection
  import P = Publisher

  /** The server lets the publisher in. */
  ghost predicate Admitted(greeting: Message, env: Surroundings) {
    && greeting.kind == "PUSH"
    && 0 < |greeting.GetParameter(STREAM)| <= 255
    && (greeting.GetParameter(AUTH), greeting.GetParameter(STREAM)) in env.pushTokens && env.sourceCreated
  }

  predicate Readable(limit: int, fragments: seq<Fragment>) {
    forall i :: 0 <= i < |fragments| ==> !AtMostZero(fragments[i].duration) && !TooLong(|fragments[i].data|, limit)
  }

  function Ready(streamId: Text): Reader {
    Reader(Push, streamId, true, false, None)
  }

  // Single frames.

  lemma {:induction false} Heard1(frame: Frame, message: Message, r: Reader, env: Surroundings)
    requires Delivered(frame, Says(message)) && KindOk(message.kind)
    ensures ReadText(r, frame, env) == Heard(r, message, env)
  {
    hide Serialise, Heard;
    WireIsFaithful(frame, Says(message));
  }

  lemma {:induction false} GreetingTurn(limit: int, input: Input<Surroundings>, greeting: Message)
    requires Delivered(input.frame, Says(greeting)) && Admitted(greeting, input.meanwhile)
    ensures Read(limit, FRESH, input)
         == Turn(Ready(greeting.GetParameter(STREAM)), GoOn,
           [OpenSource(greeting.GetParameter(STREAM)), Reply(OkMessage())])
  {
    hide ReadText, Pulling, Announced, Closing, Carries, TooLong;
    Heard1(input.frame, greeting, FRESH, input.meanwhile);
  }

  lemma {:induction false} BeatTurn(limit: int, input: Input<Surroundings>, streamId: Text)
    requires Delivered(input.frame, Says(HeartbeatMessage()))
    ensures Read(limit, Ready(streamId), input) == Turn(Ready(streamId), GoOn, [])
  {
    hide ReadText;
    Heard1(input.frame, HeartbeatMessage(), Ready(streamId), input.meanwhile);
  }

  lemma {:induction false} CloseTurn(limit: int, input: Input<Surroundings>, streamId: Text)
    requires Delivered(input.frame, Says(CloseMessage()))
    ensures Read(limit, Ready(streamId), input) == Turn(FRESH, Ended, [ReleaseSource(streamId)])
  {
    hide ReadText;
    Heard1(input.frame, CloseMessage(), Ready(streamId), input.meanwhile);
  }

  lemma {:induction false} MetadataTurn(limit: int, input: Input<Surroundings>, streamId: Text, duration: Duration)
    requires Delivered(input.frame, Says(MetadataMessage(duration)))
    ensures Read(limit, Ready(streamId), input)
         == if !AtMostZero(duration)
           then Turn(Ready(streamId).(current := Some(duration), expectedBinary := true), GoOn, [])
            else Refuse(Ready(streamId), FRAGMENT_METADATA_ERROR)
  {
    hide ReadText, PrintFloat, ParseFloat;
    Heard1(input.frame, MetadataMessage(duration), Ready(streamId), input.meanwhile);
    ParseInvertsPrint(duration);
  }

  lemma {:induction false} DataTurn(limit: int, input: Input<Surroundings>, streamId: Text, duration: Duration,
                                    data: seq<Byte>)
    requires input.frame == BinaryFrame(data) && data != []
    ensures var r := Ready(streamId).(current := Some(duration), expectedBinary := true);
            Read(limit, r, input) ==
            if TooLong(|data|, limit) then Turn(r, Broken, [])
            else Turn(Ready(streamId), GoOn, [Hand(Fragment(duration, data))])
  {}

  // Whole traces.

  /** The reader after a trace that was not closed: everything handed on, or broken. */
  ghost predicate Followed(limit: int, turn: Turn<Reader>, streamId: Text, fragments: seq<Fragment>) {
    if Readable(limit, fragments) then
      && turn.reader == Ready(streamId) && turn.verdict.GoOn?
      && NoComplaints(turn.effects) && Handed(turn.effects) == fragments
    else
      turn.verdict.Broken?
  }

  lemma {:induction false} FollowedBeat(limit: int, before: Turn<Reader>, streamId: Text, fragments: seq<Fragment>,
                                        input: Input<Surroundings>)
    requires Followed(limit, before, streamId, fragments)
    requires Delivered(input.frame, Says(HeartbeatMessage()))
    ensures Followed(limit, After(limit, before, input), streamId, fragments)
  {
    hide Read, Handed, Delivered, Readable;
    BeatTurn(limit, input, streamId);
    assert before.effects + [] == before.effects;
  }

  lemma {:induction false} ReadableMore(limit: int, fragments: seq<Fragment>, f: Fragment)
    ensures Readable(limit, fragments + [f]) <==>
              Readable(limit, fragments) && !AtMostZero(f.duration) && !TooLong(|f.data|, limit)
  {
    if Readable(limit, fragments + [f]) {
      assert (fragments + [f])[|fragments|] == f;
      assert forall i :: 0 <= i < |fragments| ==> fragments[i] == (fragments + [f])[i];
    }
  }

  lemma {:induction false} FollowedFragment(limit: int, before: Turn<Reader>, streamId: Text,
                                            fragments: seq<Fragment>, f: Fragment, text: Input<Surroundings>,
                                            binary: Input<Surroundings>)
    requires Followed(limit, before, streamId, fragments) && f.data != []
    requires Delivered(text.frame, Says(MetadataMessage(f.duration))) && binary.frame == BinaryFrame(f.data)
    ensures Followed(limit, After(limit, After(limit, before, text), binary), streamId, fragments + [f])
  {
    hide Read, Handed, Delivered, Readable, TooLong, MetadataMessage;
    ReadableMore(limit, fragments, f);
    MetadataTurn(limit, text, streamId, f.duration);
    DataTurn(limit, binary, streamId, f.duration, f.data);
    assert before.effects + [] == before.effects;
    HandedMore(before.effects, [Hand(f)]);
  }

  lemma {:induction false} FirstIsFollowed(limit: int, inputs: seq<Input<Surroundings>>, greeting: Message)
    requires Delivers(inputs, P.Trace(greeting, [], false)) && Admitted(greeting, inputs[0].meanwhile)
    ensures Followed(limit, ReadAll(limit, inputs), greeting.GetParameter(STREAM), [])
  {
    hide Read, Delivered, Admitted, Handed;
    assert P.Trace(greeting, [], false) == [Says(greeting)];
    var id := greeting.GetParameter(STREAM);
    GreetingTurn(limit, inputs[0], greeting);
    assert inputs[..0] == [];
    var effects := [OpenSource(id), Reply(OkMessage())];
    assert ReadAll(limit, inputs).effects == [] + effects == effects;
    HandedMore([], [OpenSource(id)]);
    HandedMore([OpenSource(id)], [Reply(OkMessage())]);
    assert [] + [OpenSource(id)] == [OpenSource(id)] && [OpenSource(id)] + [Reply(OkMessage())] == effects;
    NothingHanded();
  }

  lemma {:induction false} FrontHasData(front: seq<Fragment>, more: seq<Fragment>)
    requires P.NonEmptyData(front + more)
    ensures P.NonEmptyData(front) && P.NonEmptyData(more)
  {
    assert forall i :: 0 <= i < |front| ==> front[i] == (front + more)[i];
    assert forall i :: 0 <= i < |more| ==> more[i] == (front + more)[|front| + i];
  }

  lemma {:induction false} ReadOneMore(limit: int, inputs: seq<Input<Surroundings>>)
    requires inputs != []
    ensures ReadAll(limit, inputs) == After(limit, ReadAll(limit, inputs[..|inputs| - 1]), inputs[|inputs| - 1])
  {}

  lemma {:induction false} BeatIsFollowed(limit: int, inputs: seq<Input<Surroundings>>, greeting: Message,
                                          front: seq<P.Item>)
    requires Delivers(inputs, P.Trace(greeting, front, false) + [Says(HeartbeatMessage())])
    requires Followed(limit, ReadAll(limit, inputs[..|inputs| - 1]), greeting.GetParameter(STREAM), P.Sends(front))
    ensures Followed(limit, ReadAll(limit, inputs), greeting.GetParameter(STREAM), P.Sends(front))
  {
    hide ReadAll, After, Followed, P.Trace, P.Sends, Delivered;
    var n := |inputs|;
    DeliversSplit(inputs, P.Trace(greeting, front, false), [Says(HeartbeatMessage())]);
    assert Delivered(inputs[n - 1].frame, Says(HeartbeatMessage()));
    FollowedBeat(limit, ReadAll(limit, inputs[..n - 1]), greeting.GetParameter(STREAM), P.Sends(front), inputs[n - 1]);
    ReadOneMore(limit, inputs);
  }

  lemma {:induction false} FragmentIsFollowed(limit: int, inputs: seq<Input<Surroundings>>, greeting: Message,
                                              front: seq<P.Item>, f: Fragment)
    requires |inputs| >= 2 && f.data != []
    requires Delivers(inputs, P.Trace(greeting, front, false) + FragmentPackets(f))
    requires Followed(limit, ReadAll(limit, inputs[..|inputs| - 2]), greeting.GetParameter(STREAM), P.Sends(front))
    ensures Followed(limit, ReadAll(limit, inputs), greeting.GetParameter(STREAM), P.Sends(front) + [f])
  {
    hide ReadAll, After, Followed, P.Trace, P.Sends, Delivered, MetadataMessage;
    var n := |inputs|;
    DeliversSplit(inputs, P.Trace(greeting, front, false), FragmentPackets(f));
    assert Delivered(inputs[n - 2].frame, FragmentPackets(f)[0]);
    assert Delivered(inputs[n - 1].frame, FragmentPackets(f)[1]);
    assert inputs[n - 1].frame == BinaryFrame(f.data) by { DataIsBinary(inputs[n - 1].frame, f.data); }
    FollowedFragment(limit, ReadAll(limit, inputs[..n - 2]), greeting.GetParameter(STREAM), P.Sends(front), f,
                     inputs[n - 2], inputs[n - 1]);
    ReadOneMore(limit, inputs);
    ReadOneMore(limit, inputs[..n - 1]);
    assert inputs[..n - 1][..n - 2] == inputs[..n - 2];
  }

  lemma {:induction false} DataIsBinary(frame: Frame, data: seq<Byte>)
    requires Delivered(frame, Data(data))
    ensures frame == BinaryFrame(data)
  {}

  lemma {:induction false} OpenTraceIsFollowed(limit: int, inputs: seq<Input<Surroundings>>, greeting: Message,
                                               items: seq<P.Item>)
    requires Delivers(inputs, P.Trace(greeting, items, false)) && Admitted(greeting, inputs[0].meanwhile)
    requires P.NonEmptyData(P.Sends(items))
    ensures Followed(limit, ReadAll(limit, inputs), greeting.GetParameter(STREAM), P.Sends(items))
    decreases |items|
  {
    hide ReadAll, Followed, Delivered, Admitted, P.Body, P.Sends, FragmentPackets;
    var n := |inputs|;
    if items == [] {
      P.NothingSent();
      FirstIsFollowed(limit, inputs, greeting);
    } else {
      var front, last := items[..|items| - 1], items[|items| - 1];
      assert items == front + [last];
      P.BodyGrows(front, last);
      var trace := P.Trace(greeting, front, false);
      match last {
        case Beat =>
          P.TraceGrows(greeting, front, [last], [Says(HeartbeatMessage())]);
          DeliversSplit(inputs, trace, [Says(HeartbeatMessage())]);
          assert P.Sends(front) + [] == P.Sends(front);
          OpenTraceIsFollowed(limit, inputs[..|trace|], greeting, front);
          BeatIsFollowed(limit, inputs, greeting, front);
        case Sent(f) =>
          P.TraceGrows(greeting, front, [last], FragmentPackets(f));
          DeliversSplit(inputs, trace, FragmentPackets(f));
          FrontHasData(P.Sends(front), [f]);
          assert [f][0].data != [];
          P.TwoPackets(f);
          OpenTraceIsFollowed(limit, inputs[..|trace|], greeting, front);
          FragmentIsFollowed(limit, inputs, greeting, front, f);
      }
    }
  }

  /** For everything the publisher can say on one connection: with PUSH admitted, the server follows without
      a complaint exactly when every duration is positive and all data within the limit. It then hands on
      exactly the fragments written, in order, and stops only at CLOSE. */
  lemma {:induction false} TraceIsFollowed(limit: int, inputs: seq<Input<Surroundings>>, greeting: Message,
                                           items: seq<P.Item>, closing: bool)
    requires Delivers(inputs, P.Trace(greeting, items, closing)) && Admitted(greeting, inputs[0].meanwhile)
    requires P.NonEmptyData(P.Sends(items))
    ensures var turn := ReadAll(limit, inputs);
            && (!turn.verdict.Broken? <==> Readable(limit, P.Sends(items)))
            && (Readable(limit, P.Sends(items)) ==>
                  && NoComplaints(turn.effects) && Handed(turn.effects) == P.Sends(items)
                  && turn.verdict == if closing then Ended else GoOn)
  {
    hide Read, Delivered, Admitted, P.Sends, P.Body, Readable, Handed;
    if closing {
      var n, trace := |inputs|, P.Trace(greeting, items, false);
      P.ClosingTrace(greeting, items);
      DeliversSplit(inputs, trace, [Says(CloseMessage())]);
      assert Delivered(inputs[n - 1].frame, Says(CloseMessage()));
      OpenTraceIsFollowed(limit, inputs[..n - 1], greeting, items);
      var streamId, before := greeting.GetParameter(STREAM), ReadAll(limit, inputs[..n - 1]);
      CloseTurn(limit, inputs[n - 1], streamId);
      HandedMore(before.effects, [ReleaseSource(streamId)]);
      assert Handed(before.effects) + [] == Handed(before.effects);
    } else {
      OpenTraceIsFollowed(limit, inputs, greeting, items);
    }
  }

  /** The publisher at one end, the server at the other, and a socket that may break off at any frame:
      no run of the publisher makes the server complain, and what is handed on is what was written so far. */
  lemma {:induction false} PublisherAndServerCompose(queueMaxLength: int, steps: seq<P.Step>, limit: int,
                                                     inputs: seq<Input<Surroundings>>, n: nat)
    requires var s := P.Run(queueMaxLength, steps);
             && s.wire != [] && Delivers(inputs, s.wire) && Admitted(s.greeting, inputs[0].meanwhile)
             && Readable(limit, s.written)
    requires n <= |inputs|
    ensures var s, turn := P.Run(queueMaxLength, steps), ReadAll(limit, inputs[..n]);
            && NoComplaints(turn.effects) && !turn.verdict.Broken?
            && Handed(turn.effects) <= P.Sends(s.items)
            && (n == |inputs| ==> Handed(turn.effects) == P.Sends(s.items))
  {
    hide P.Run, P.Trace, P.Sends, ReadAll, Handed, Readable, Delivers, Admitted;
    var s := P.Run(queueMaxLength, steps);
    P.WireIsTrace(queueMaxLength, steps);
    SuffixIsReadable(limit, P.Sends(s.items), s.written);
    TraceIsFollowed(limit, inputs, s.greeting, s.items, s.closing);
    ReadingStops(limit, inputs, n);
    HandedPrefix(ReadAll(limit, inputs[..n]).effects, ReadAll(limit, inputs).effects);
    assert inputs[..|inputs|] == inputs;
  }

  lemma {:induction false} SuffixIsReadable(limit: int, part: seq<Fragment>, whole: seq<Fragment>)
    requires IsSuffix(part, whole) && Readable(limit, whole)
    ensures Readable(limit, part)
  {
    assert forall i :: 0 <= i < |part| ==> part[i] == whole[|whole| - |part| + i];
  }

  /** The server checks the very token and opens the very stream the connection was dialed with: it opens a source
      exactly when that token is valid for that stream, whose id is neither empty nor too long, and one can be had. */
  lemma {:induction false} DialedStreamIsOpened(queueMaxLength: int, steps: seq<P.Step>, limit: int,
                                                inputs: seq<Input<Surroundings>>)
    requires var s := P.Run(queueMaxLength, steps); s.wire != [] && Delivers(inputs, s.wire)
    ensures var (streamId, auth) := P.Run(queueMaxLength, steps).dialed;
            var env := inputs[0].meanwhile;
            ReadAll(limit, inputs[..1]).effects ==
            if |streamId| < 1 || |streamId| > 255 then [Complain(PROTOCOL_ERROR)]
            else if (auth, streamId) !in env.pushTokens then [Complain(AUTH_ERROR)]
            else if !env.sourceCreated then [Complain(PUSH_ERROR)]
            else [OpenSource(streamId), Reply(Message("OK", map[]))]
  {
    hide P.Run, P.Sends, P.Body, Delivered, ReadText;
    var s := P.Run(queueMaxLength, steps);
    P.GreetingIsDialed(queueMaxLength, steps);
    P.WireIsTrace(queueMaxLength, steps);
    assert s.wire[0] == Says(s.greeting);
    assert Delivered(inputs[0].frame, s.wire[0]);
    Heard1(inputs[0].frame, s.greeting, FRESH, inputs[0].meanwhile);
    FirstRead(limit, inputs);
  }

  lemma {:induction false} FirstRead(limit: int, inputs: seq<Input<Surroundings>>)
    requires inputs != []
    ensures ReadAll(limit, inputs[..1]).effects == Read(limit, FRESH, inputs[0]).effects
  {
    hide Read;
    assert inputs[..1][..0] == [] && inputs[..1][0] == inputs[0];
    var effects := Read(limit, FRESH, inputs[0]).effects;
    assert [] + effects == effects;
  }
}
