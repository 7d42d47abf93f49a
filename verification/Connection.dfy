/** The reading side of a connection on the server (server/connection.go): the state machine that
    decides between publishing and pulling, and what it asks of the rest of the server. */
module Connection {
  import opened Floats
  import opened Fragments
  import opened Texts
  import opened Messages
  import opened Wire
  import opened Reading

  datatype Mode = Undecided | Push | Pull

  /** What the rest of the server answers while one message is handled: the tokens that are valid for a stream,
      whether a source is created, and for which streams there is a source or a relay. */
  datatype Surroundings = Surroundings(
    pushTokens: set<(Text, Text)>, pullTokens: set<(Text, Text)>,
    sourceCreated: bool, pushAllowed: bool, sources: set<Text>, relays: set<Text>)

  /** `pushing` says that there is a source to push to, `current` holds the duration announced last. */
  datatype Reader = Reader(mode: Mode, streamId: Text, pushing: bool, expectedBinary: bool, current: Option<Duration>)

  const FRESH := Reader(Undecided, [], false, false, None)

  function StartPulling(r: Reader, streamId: Text, provider: Provider, max: int): Turn<Reader> {
    Turn(r.(mode := Pull, streamId := streamId), GoOn, [Reply(OkMessage()), StartPull(streamId, provider, max)])
  }

  function Pulling(r: Reader, msg: Message, env: Surroundings): Turn<Reader> {
    var streamId, max := msg.GetParameter(STREAM), msg.GetParameter(MAX_INITIAL_FRAGMENTS);
    if r.mode != Undecided || streamId == [] || |streamId| > 255 then Refuse(r, PROTOCOL_ERROR)
    else if (msg.GetParameter(AUTH), streamId) !in env.pullTokens then Refuse(r, AUTH_ERROR)
    else if max != [] && Atoi(max).None? then Refuse(r, PROTOCOL_ERROR)
    else
      var maxInitial := if max == [] then -1 else Atoi(max).value;
      if env.pushAllowed && streamId in env.sources then StartPulling(r, streamId, Source, maxInitial)
      else if msg.GetParameter(ONLY_SOURCE) != "true" && streamId in env.relays then
        StartPulling(r, streamId, Relay, maxInitial)
      else Turn(r, Ended, [Reply(OkMessage()), Reply(CloseMessage())])
  }

  function Pushing(r: Reader, msg: Message, env: Surroundings): Turn<Reader> {
    var streamId := msg.GetParameter(STREAM);
    if r.mode != Undecided || streamId == [] || |streamId| > 255 then Refuse(r, PROTOCOL_ERROR)
    else if (msg.GetParameter(AUTH), streamId) !in env.pushTokens then Refuse(r, AUTH_ERROR)
    else if !env.sourceCreated then Refuse(r, PUSH_ERROR)
    else Turn(r.(mode := Push, streamId := streamId, pushing := true), GoOn, [OpenSource(streamId), Reply(OkMessage())])
  }

  function Announced(r: Reader, msg: Message): Turn<Reader> {
    var duration := msg.GetParameter(DURATION);
    if r.mode != Push then Refuse(r, PROTOCOL_ERROR)
    else if ParseFloat(duration).None? || AtMostZero(ParseFloat(duration).value) then Refuse(r, FRAGMENT_METADATA_ERROR)
    else Turn(r.(current := ParseFloat(duration), expectedBinary := true), GoOn, [])
  }

  function Closing(r: Reader): Turn<Reader> {
    if r.mode != Push || !r.pushing then Refuse(r, PROTOCOL_ERROR)
    else Turn(r.(pushing := false, streamId := [], mode := Undecided), Ended, [ReleaseSource(r.streamId)])
  }

  function Heard(r: Reader, msg: Message, env: Surroundings): Turn<Reader> {
    if msg.kind == "E" then Turn(r, Ended, [])
    else if msg.kind == "PULL" then Pulling(r, msg, env)
    else if msg.kind == "PUSH" then Pushing(r, msg, env)
    else if msg.kind == "F" then Announced(r, msg)
    else if msg.kind == "CLOSE" then Closing(r)
    else if r.mode == Undecided then Refuse(r, PROTOCOL_ERROR)
    else Turn(r, GoOn, [])
  }

  function ReadText(r: Reader, frame: Frame, env: Surroundings): Turn<Reader> {
    if TooLong(Size(frame), TEXT_MSG_READ_LIMIT) then Turn(r, Broken, [])
    else match Understood(frame)
      case Data(_) => Refuse(r, PROTOCOL_ERROR)
      case Says(message) => Heard(r, message, env)
  }

  function ReadBinary(limit: int, r: Reader, frame: Frame): Turn<Reader> {
    if r.current.None? || !r.pushing then Refuse(r, PROTOCOL_ERROR)
    else TakeData(limit, r, r.(expectedBinary := false, current := None), r.current.value, frame)
  }

  function Read(limit: int, r: Reader, input: Input<Surroundings>): Turn<Reader> {
    if r.expectedBinary then ReadBinary(limit, r, input.frame) else ReadText(r, input.frame, input.meanwhile)
  }

  /** Everything read until the input ends or the reader stops. */
  function ReadAll(limit: int, inputs: seq<Input<Surroundings>>): Turn<Reader> {
    if inputs == [] then Turn(FRESH, GoOn, [])
    else After(limit, ReadAll(limit, inputs[..|inputs| - 1]), inputs[|inputs| - 1])
  }

  function After(limit: int, before: Turn<Reader>, input: Input<Surroundings>): Turn<Reader> {
    Continue(before, Read(limit, before.reader, input))
  }

  function OnClose(r: Reader): seq<Effect> {
    match r.mode
    case Push => if r.pushing then [ReleaseSource(r.streamId)] else []
    case Pull => [StopPull]
    case Undecided => []
  }

  /** All that a connection ever does, given what arrives before it ends. */
  function Life(limit: int, inputs: seq<Input<Surroundings>>): seq<Effect> {
    var turn := ReadAll(limit, inputs);
    turn.effects + OnClose(turn.reader)
  }

  class ConnectionHandler {
    const maxBinaryMessageSize: int
    var mode: Mode
    var streamId: Text
    var pushing: bool
    var expectedBinary: bool
    var current: Option<Duration>
    var effects: seq<Effect>

    ghost function State(): Reader
      reads this
    {
      Reader(mode, streamId, pushing, expectedBinary, current)
    }

    constructor (maxBinaryMessageSize: int)
      ensures State() == FRESH && effects == [] && this.maxBinaryMessageSize == maxBinaryMessageSize
    {
      this.maxBinaryMessageSize := maxBinaryMessageSize;
      mode, streamId, pushing, expectedBinary, current, effects := Undecided, [], false, false, None, [];
    }

    method SendErrorMessage(code: ErrorCode)
      modifies this`effects
      ensures effects == old(effects) + [Complain(code)]
    {
      effects := effects + [Complain(code)];
    }

    method Send(message: Message)
      modifies this`effects
      ensures effects == old(effects) + [Reply(message)]
    {
      effects := effects + [Reply(message)];
    }

    method HandlePull(msg: Message, env: Surroundings) returns (ok: bool)
      modifies this
      ensures State() == Pulling(old(State()), msg, env).reader
      ensures effects == old(effects) + Pulling(old(State()), msg, env).effects
      ensures ok == Pulling(old(State()), msg, env).verdict.GoOn?
    {
      if mode != Undecided {
        SendErrorMessage(PROTOCOL_ERROR);
        return false;
      }
      var id := msg.GetParameter(STREAM);
      if id == [] || |id| > 255 {
        SendErrorMessage(PROTOCOL_ERROR);
        return false;
      }
      var authToken := msg.GetParameter(AUTH);
      if (authToken, id) !in env.pullTokens {
        SendErrorMessage(AUTH_ERROR);
        return false;
      }
      var onlySource := msg.GetParameter(ONLY_SOURCE) == "true";
      var maxInitialFragments := -1;
      var maxText := msg.GetParameter(MAX_INITIAL_FRAGMENTS);
      if maxText != [] {
        var n := Atoi(maxText);
        if n.None? {
          SendErrorMessage(PROTOCOL_ERROR);
          return false;
        }
        maxInitialFragments := n.value;
      }
      if env.pushAllowed && id in env.sources {
        effects := effects + [Reply(OkMessage()), StartPull(id, Source, maxInitialFragments)];
        streamId, mode := id, Pull;
        return true;
      }
      if !onlySource && id in env.relays {
        effects := effects + [Reply(OkMessage()), StartPull(id, Relay, maxInitialFragments)];
        streamId, mode := id, Pull;
        return true;
      }
      effects := effects + [Reply(OkMessage()), Reply(CloseMessage())];
      return false;
    }

    method HandlePush(msg: Message, env: Surroundings) returns (ok: bool)
      modifies this
      ensures State() == Pushing(old(State()), msg, env).reader
      ensures effects == old(effects) + Pushing(old(State()), msg, env).effects
      ensures ok == Pushing(old(State()), msg, env).verdict.GoOn?
    {
      if mode != Undecided {
        SendErrorMessage(PROTOCOL_ERROR);
        return false;
      }
      var id := msg.GetParameter(STREAM);
      if id == [] || |id| > 255 {
        SendErrorMessage(PROTOCOL_ERROR);
        return false;
      }
      var authToken := msg.GetParameter(AUTH);
      if (authToken, id) !in env.pushTokens {
        SendErrorMessage(AUTH_ERROR);
        return false;
      }
      if !env.sourceCreated {
        SendErrorMessage(PUSH_ERROR);
        return false;
      }
      pushing, streamId, mode := true, id, Push;
      effects := effects + [OpenSource(id), Reply(OkMessage())];
      return true;
    }

    method HandleFragmentMetadata(msg: Message) returns (ok: bool)
      modifies this
      ensures State() == Announced(old(State()), msg).reader
      ensures effects == old(effects) + Announced(old(State()), msg).effects
      ensures ok == Announced(old(State()), msg).verdict.GoOn?
    {
      hide ParseFloat, AtMostZero;
      if mode != Push {
        SendErrorMessage(PROTOCOL_ERROR);
        return false;
      }
      var durationStr := msg.GetParameter(DURATION);
      if durationStr == [] {
        NoNumber();
        SendErrorMessage(FRAGMENT_METADATA_ERROR);
        return false;
      }
      var duration := ParseFloat(durationStr);
      if duration.None? {
        SendErrorMessage(FRAGMENT_METADATA_ERROR);
        return false;
      }
      if AtMostZero(duration.value) {
        SendErrorMessage(FRAGMENT_METADATA_ERROR);
        return false;
      }
      current, expectedBinary := duration, true;
      assert effects == old(effects) + [];
      return true;
    }

    method HandleClose() returns (ok: bool)
      modifies this
      ensures State() == Closing(old(State())).reader && !ok
      ensures effects == old(effects) + Closing(old(State())).effects
    {
      if mode != Push || !pushing {
        SendErrorMessage(PROTOCOL_ERROR);
        return false;
      }
      effects := effects + [ReleaseSource(streamId)];
      pushing, streamId, mode := false, [], Undecided;
      return false;
    }

    method ReadTextMessage(frame: Frame, env: Surroundings) returns (ok: bool)
      modifies this
      ensures State() == ReadText(old(State()), frame, env).reader
      ensures effects == old(effects) + ReadText(old(State()), frame, env).effects
      ensures ok == ReadText(old(State()), frame, env).verdict.GoOn?
    {
      hide Pulling, Pushing, Announced, Closing, ParseGo;
      assert effects + [] == effects;
      if TooLong(Size(frame), TEXT_MSG_READ_LIMIT) {
        return false;
      }
      if frame.BinaryFrame? {
        SendErrorMessage(PROTOCOL_ERROR);
        return false;
      }
      var parsedMessage := ParseWebsocketProtocolMessage(frame.text);
      if parsedMessage.kind == "E" {
        return false;
      } else if parsedMessage.kind == "PULL" {
        ok := HandlePull(parsedMessage, env);
      } else if parsedMessage.kind == "PUSH" {
        ok := HandlePush(parsedMessage, env);
      } else if parsedMessage.kind == "F" {
        ok := HandleFragmentMetadata(parsedMessage);
      } else if parsedMessage.kind == "CLOSE" {
        ok := HandleClose();
        ClosingStops(old(State()));
      } else if mode == Undecided {
        SendErrorMessage(PROTOCOL_ERROR);
        return false;
      } else {
        return true;
      }
    }

    method ReadBinaryMessage(frame: Frame) returns (ok: bool)
      modifies this
      ensures State() == ReadBinary(maxBinaryMessageSize, old(State()), frame).reader
      ensures effects == old(effects) + ReadBinary(maxBinaryMessageSize, old(State()), frame).effects
      ensures ok == ReadBinary(maxBinaryMessageSize, old(State()), frame).verdict.GoOn?
    {
      if current.None? || !pushing {
        SendErrorMessage(PROTOCOL_ERROR);
        return false;
      }
      if TooLong(Size(frame), maxBinaryMessageSize) {
        assert effects + [] == effects;
        return false;
      }
      if frame.TextFrame? || frame.data == [] {
        SendErrorMessage(PROTOCOL_ERROR);
        return false;
      }
      effects := effects + [Hand(Fragment(current.value, frame.data))];
      expectedBinary, current := false, None;
      return true;
    }

    /** The read loop, and the release of resources after it. */
    method Run(inputs: seq<Input<Surroundings>>)
      requires State() == FRESH && effects == []
      modifies this
      ensures effects == Life(maxBinaryMessageSize, inputs)
    {
      hide ReadText, ReadBinary;
      var i, ok := 0, true;
      assert effects + [] == effects;
      while i < |inputs| && ok
        invariant i <= |inputs|
        invariant State() == ReadAll(maxBinaryMessageSize, inputs[..i]).reader
        invariant effects == ReadAll(maxBinaryMessageSize, inputs[..i]).effects
        invariant ok == ReadAll(maxBinaryMessageSize, inputs[..i]).verdict.GoOn?
      {
        assert inputs[..i + 1][..i] == inputs[..i];
        if expectedBinary {
          ok := ReadBinaryMessage(inputs[i].frame);
        } else {
          ok := ReadTextMessage(inputs[i].frame, inputs[i].meanwhile);
        }
        i := i + 1;
      }
      ReadingStops(maxBinaryMessageSize, inputs, i);
      if mode == Push {
        if pushing {
          effects := effects + [ReleaseSource(streamId)];
          pushing := false;
        } else {
          assert effects + [] == effects;
        }
      } else if mode == Pull {
        effects := effects + [StopPull];
      } else {
        assert effects + [] == effects;
      }
    }
  }

  lemma {:induction false} NoNumber()
    ensures ParseFloat([]).None?
  {}

  lemma {:induction false} ClosingStops(r: Reader)
    ensures !Closing(r).verdict.GoOn?
  {}

  /** A prefix of the input has a prefix of the effects, and a stop is final. */
  lemma {:induction false} ReadingStops(limit: int, inputs: seq<Input<Surroundings>>, n: nat)
    requires n <= |inputs|
    ensures ReadAll(limit, inputs[..n]).effects <= ReadAll(limit, inputs).effects
    ensures n == |inputs| || !ReadAll(limit, inputs[..n]).verdict.GoOn? ==>
              ReadAll(limit, inputs[..n]) == ReadAll(limit, inputs)
  {
    hide Read;
    if n == |inputs| {
      assert inputs[..n] == inputs;
    } else {
      var front := inputs[..|inputs| - 1];
      ReadingStops(limit, front, n);
      assert front[..n] == inputs[..n];
    }
  }

  // Whole lives.

  /** The effects that reach into other components, in order. */
  function Owned(effects: seq<Effect>): seq<Effect> {
    if effects == [] then []
    else
      var last := effects[|effects| - 1];
      Owned(effects[..|effects| - 1]) + if last.Reply? || last.Complain? then [] else [last]
  }

  ghost predicate HandsSound(limit: int, effects: seq<Effect>) {
    forall i :: 0 <= i < |effects| ==>
      effects[i].Hand? && Sound(effects[i].fragment) && !TooLong(|effects[i].fragment.data|, limit)
  }

  ghost predicate Publishing(limit: int, owned: seq<Effect>, streamId: Text) {
    owned != [] && owned[0] == OpenSource(streamId) && HandsSound(limit, owned[1..])
  }

  ghost predicate Published(limit: int, owned: seq<Effect>) {
    && |owned| >= 2 && owned[0].OpenSource?
    && owned[|owned| - 1] == ReleaseSource(owned[0].streamId)
    && HandsSound(limit, owned[1..|owned| - 1])
  }

  /** What a connection may have done so far, by the state of its reader. */
  ghost predicate SoFar(limit: int, r: Reader, verdict: Verdict, owned: seq<Effect>) {
    && r.expectedBinary == r.current.Some?
    && r.pushing == r.mode.Push?
    && (r.current.Some? ==> !AtMostZero(r.current.value) && r.mode.Push?)
    && match r.mode
       case Undecided => owned == [] || (verdict.Ended? && Published(limit, owned))
       case Push => Publishing(limit, owned, r.streamId)
       case Pull => |owned| == 1 && owned[0].StartPull?
  }

  lemma {:induction false} OwnedAppend(effects: seq<Effect>, one: Effect)
    ensures Owned(effects + [one]) == Owned(effects) + if one.Reply? || one.Complain? then [] else [one]
  {
    assert (effects + [one])[..|effects|] == effects;
  }

  lemma {:induction false} OwnedMore(effects: seq<Effect>, more: seq<Effect>)
    requires |more| <= 2
    ensures Owned(effects + more) == Owned(effects) + Owned(more)
  {
    hide Owned;
    if more == [] {
      assert effects + more == effects;
      OwnedNone();
    } else if |more| == 1 {
      OwnedAppend(effects, more[0]);
      OwnedAppend([], more[0]);
      OwnedNone();
      assert [] + [more[0]] == more;
      assert effects + [more[0]] == effects + more;
    } else {
      OwnedAppend(effects, more[0]);
      OwnedAppend(effects + [more[0]], more[1]);
      OwnedAppend([], more[0]);
      OwnedAppend([more[0]], more[1]);
      OwnedNone();
      assert [] + [more[0]] == [more[0]] && [more[0]] + [more[1]] == more;
      assert effects + [more[0]] + [more[1]] == effects + more;
    }
  }

  lemma {:induction false} OwnedNone()
    ensures Owned([]) == []
  {}

  ghost predicate TurnKeeps(limit: int, owned: seq<Effect>, turn: Turn<Reader>) {
    |turn.effects| <= 2 && SoFar(limit, turn.reader, turn.verdict, owned + Owned(turn.effects))
  }

  lemma {:induction false} OwnedPair(a: Effect, b: Effect)
    ensures Owned([a]) == if a.Reply? || a.Complain? then [] else [a]
    ensures Owned([a, b]) == Owned([a]) + if b.Reply? || b.Complain? then [] else [b]
  {
    hide Owned;
    OwnedNone();
    OwnedAppend([], a);
    OwnedAppend([a], b);
    assert [] + [a] == [a] && [a] + [b] == [a, b];
    assert [] + Owned([a]) == Owned([a]);
  }

  /** A turn that changes nothing and owns nothing. */
  lemma {:induction false} IdleTurnKeeps(limit: int, r: Reader, verdict: Verdict, owned: seq<Effect>,
                                         effects: seq<Effect>)
    requires SoFar(limit, r, GoOn, owned) && |effects| <= 2
    requires forall e :: e in effects ==> e.Reply? || e.Complain?
    ensures TurnKeeps(limit, owned, Turn(r, verdict, effects))
  {
    hide Owned;
    OwnedNone();
    if |effects| > 0 {
      OwnedPair(effects[0], effects[|effects| - 1]);
      assert effects == [effects[0]] || effects == [effects[0], effects[|effects| - 1]];
    }
    assert owned + [] == owned;
  }

  lemma {:induction false} PullingKeeps(limit: int, r: Reader, msg: Message, env: Surroundings, owned: seq<Effect>)
    requires SoFar(limit, r, GoOn, owned)
    ensures TurnKeeps(limit, owned, Pulling(r, msg, env))
  {
    hide Owned, Atoi;
    var turn := Pulling(r, msg, env);
    if turn.verdict.GoOn? {
      OwnedPair(turn.effects[0], turn.effects[1]);
      assert turn.effects == [turn.effects[0], turn.effects[1]] && owned == [];
      assert [] + [turn.effects[1]] == [turn.effects[1]];
      assert owned + Owned(turn.effects) == [turn.effects[1]];
    } else {
      IdleTurnKeeps(limit, r, turn.verdict, owned, turn.effects);
    }
  }

  lemma {:induction false} PushingKeeps(limit: int, r: Reader, msg: Message, env: Surroundings, owned: seq<Effect>)
    requires SoFar(limit, r, GoOn, owned)
    ensures TurnKeeps(limit, owned, Pushing(r, msg, env))
  {
    hide Owned;
    var turn := Pushing(r, msg, env);
    if turn.verdict.GoOn? {
      OwnedPair(turn.effects[0], turn.effects[1]);
      assert turn.effects == [turn.effects[0], turn.effects[1]] && owned == [];
      assert owned + Owned(turn.effects) == [turn.effects[0]];
    } else {
      IdleTurnKeeps(limit, r, turn.verdict, owned, turn.effects);
    }
  }

  lemma {:induction false} AnnouncedKeeps(limit: int, r: Reader, msg: Message, owned: seq<Effect>)
    requires SoFar(limit, r, GoOn, owned) && r.current.None?
    ensures TurnKeeps(limit, owned, Announced(r, msg))
  {
    hide Owned, ParseFloat;
    var turn := Announced(r, msg);
    if turn.verdict.GoOn? {
      OwnedNone();
      assert owned + [] == owned;
    } else {
      IdleTurnKeeps(limit, r, turn.verdict, owned, turn.effects);
    }
  }

  lemma {:induction false} ClosingKeeps(limit: int, r: Reader, owned: seq<Effect>)
    requires SoFar(limit, r, GoOn, owned) && r.current.None?
    ensures TurnKeeps(limit, owned, Closing(r))
  {
    hide Owned;
    var turn := Closing(r);
    if turn.verdict.Ended? {
      OwnedPair(turn.effects[0], turn.effects[0]);
      ReleaseEnds(limit, owned, r.streamId);
    } else {
      IdleTurnKeeps(limit, r, turn.verdict, owned, turn.effects);
    }
  }

  lemma {:induction false} ReleaseEnds(limit: int, owned: seq<Effect>, streamId: Text)
    requires Publishing(limit, owned, streamId)
    ensures Published(limit, owned + [ReleaseSource(streamId)])
  {
    assert (owned + [ReleaseSource(streamId)])[1..|owned|] == owned[1..];
  }

  lemma {:induction false} HandContinues(limit: int, owned: seq<Effect>, streamId: Text, fragment: Fragment)
    requires Publishing(limit, owned, streamId) && Sound(fragment) && !TooLong(|fragment.data|, limit)
    ensures Publishing(limit, owned + [Hand(fragment)], streamId)
  {
    assert (owned + [Hand(fragment)])[1..] == owned[1..] + [Hand(fragment)];
  }

  lemma {:induction false} BinaryKeeps(limit: int, r: Reader, frame: Frame, owned: seq<Effect>)
    requires SoFar(limit, r, GoOn, owned)
    ensures TurnKeeps(limit, owned, ReadBinary(limit, r, frame))
  {
    hide Owned, Publishing;
    var turn := ReadBinary(limit, r, frame);
    if turn.verdict.GoOn? {
      OwnedPair(turn.effects[0], turn.effects[0]);
      HandContinues(limit, owned, r.streamId, turn.effects[0].fragment);
    } else {
      IdleTurnKeeps(limit, r, turn.verdict, owned, turn.effects);
    }
  }

  lemma {:induction false} ReadKeeps(limit: int, r: Reader, input: Input<Surroundings>, owned: seq<Effect>)
    requires SoFar(limit, r, GoOn, owned)
    ensures TurnKeeps(limit, owned, Read(limit, r, input))
  {
    hide Owned, Pulling, Pushing, Announced, Closing, ReadBinary, TurnKeeps, Understood;
    BinaryKeeps(limit, r, input.frame, owned);
    var turn := Read(limit, r, input);
    if !r.expectedBinary {
      match Understood(input.frame) {
        case Data(_) =>
        case Says(msg) =>
          PullingKeeps(limit, r, msg, input.meanwhile, owned);
          PushingKeeps(limit, r, msg, input.meanwhile, owned);
          AnnouncedKeeps(limit, r, msg, owned);
          ClosingKeeps(limit, r, owned);
      }
      IdleTurnKeeps(limit, r, Broken, owned, [Complain(PROTOCOL_ERROR)]);
      IdleTurnKeeps(limit, r, Broken, owned, []);
      IdleTurnKeeps(limit, r, Ended, owned, []);
      IdleTurnKeeps(limit, r, GoOn, owned, []);
    }
  }

  lemma {:induction false} ReadAllKeeps(limit: int, inputs: seq<Input<Surroundings>>)
    ensures var turn := ReadAll(limit, inputs); SoFar(limit, turn.reader, turn.verdict, Owned(turn.effects))
  {
    if inputs == [] {
      OwnedNone();
    } else {
      hide Read, Owned, SoFar;
      var before, input := ReadAll(limit, inputs[..|inputs| - 1]), inputs[|inputs| - 1];
      ReadAllKeeps(limit, inputs[..|inputs| - 1]);
      if before.verdict.GoOn? {
        ReadKeeps(limit, before.reader, input, Owned(before.effects));
        OwnedMore(before.effects, Read(limit, before.reader, input).effects);
      }
    }
  }

  /** Whatever arrives, in whatever order, and whenever it breaks off: a connection either owns nothing,
      or pulls and stops pulling, or opens one source, hands it sound fragments, and releases that source
      once, after the last fragment. */
  lemma {:induction false} ConnectionCleansUp(limit: int, inputs: seq<Input<Surroundings>>)
    ensures var owned := Owned(Life(limit, inputs));
            || owned == []
            || (|owned| == 2 && owned[0].StartPull? && owned[1] == StopPull)
            || Published(limit, owned)
  {
    hide Owned, Publishing, Published;
    ReadAllKeeps(limit, inputs);
    var turn := ReadAll(limit, inputs);
    var before := Owned(turn.effects);
    OwnedMore(turn.effects, OnClose(turn.reader));
    match turn.reader.mode {
      case Push =>
        OwnedPair(ReleaseSource(turn.reader.streamId), StopPull);
        ReleaseEnds(limit, before, turn.reader.streamId);
      case Pull =>
        OwnedPair(StopPull, StopPull);
      case Undecided =>
        OwnedNone();
        assert before + [] == before;
    }
  }

  /** The reader never waits for data that has no fragment or no source to go to, so the complaint
      about an unexpected binary message is never sent by ReadBinaryMessage. */
  lemma {:induction false} BinaryIsNeverUnexpected(limit: int, inputs: seq<Input<Surroundings>>)
    ensures var r := ReadAll(limit, inputs).reader;
            r.expectedBinary ==> r.current.Some? && r.pushing && r.mode.Push? && !AtMostZero(r.current.value)
  {
    hide Owned;
    ReadAllKeeps(limit, inputs);
  }
}
