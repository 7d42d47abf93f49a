/** What a connection does, said effect by effect: when exactly each of them happens (server/connection.go). */
module ConnectionRules {
  import opened Floats
  import opened Fragments
  import opened Texts
  import opened Messages
  import opened Wire
  import opened Reading
  import opened Connection

  /** A reader that waits for text is given one that is not too long, with a message of this type. */
  ghost predicate Hears(r: Reader, input: Input<Surroundings>, kind: Text) {
    !r.expectedBinary && input.frame.TextFrame? && |input.frame.text| <= 1600 && ParseGo(input.frame.text).kind == kind
  }

  function Param(input: Input<Surroundings>, name: Text): Text {
    if input.frame.TextFrame? then ParseGo(input.frame.text).GetParameter(name) else []
  }

  /** A first request that names a stream as it should. */
  ghost predicate Asks(r: Reader, input: Input<Surroundings>, kind: Text) {
    Hears(r, input, kind) && r.mode.Undecided? && 1 <= |Param(input, "stream")| <= 255
  }

  ghost predicate ValidPull(input: Input<Surroundings>) {
    (Param(input, "auth"), Param(input, "stream")) in input.meanwhile.pullTokens
  }

  ghost predicate ValidPush(input: Input<Surroundings>) {
    (Param(input, "auth"), Param(input, "stream")) in input.meanwhile.pushTokens
  }

  /** The number of initial fragments asked for; all of them when none is given. */
  ghost predicate AsksFor(input: Input<Surroundings>, n: int) {
    if Param(input, "max_initial_fragments") == "" then n == -1
    else Atoi(Param(input, "max_initial_fragments")) == Some(n)
  }

  ghost predicate HasNumber(input: Input<Surroundings>) {
    Param(input, "max_initial_fragments") == "" || Atoi(Param(input, "max_initial_fragments")).Some?
  }

  /** A source on this server comes first; a relay only if the client takes one. */
  ghost predicate Serves(input: Input<Surroundings>, provider: Provider) {
    var id, env := Param(input, "stream"), input.meanwhile;
    var here := env.pushAllowed && id in env.sources;
    match provider
    case Source => here
    case Relay => !here && Param(input, "only_source") != "true" && id in env.relays
  }

  lemma {:induction false} Listening(limit: int, r: Reader, input: Input<Surroundings>)
    requires !r.expectedBinary && input.frame.TextFrame? && |input.frame.text| <= 1600
    ensures Read(limit, r, input) == Heard(r, ParseGo(input.frame.text), input.meanwhile)
  {}

  lemma {:induction false} NotListening(limit: int, r: Reader, input: Input<Surroundings>)
    requires !r.expectedBinary && !(input.frame.TextFrame? && |input.frame.text| <= 1600)
    ensures Read(limit, r, input) ==
            if input.frame.BinaryFrame? && |input.frame.data| <= 1600 then Refuse(r, PROTOCOL_ERROR)
            else Turn(r, Broken, [])
  {}

  // Each effect of one frame.

  /** A pull starts for a valid token only, from where the stream is found, with the number asked for. */
  lemma {:induction false} PullStartsExactlyWhen(limit: int, r: Reader, input: Input<Surroundings>, id: Text,
                                                 provider: Provider, n: int)
    ensures StartPull(id, provider, n) in Read(limit, r, input).effects
       <==> Asks(r, input, "PULL") && id == Param(input, "stream") && ValidPull(input) && AsksFor(input, n)
            && Serves(input, provider)
  {
    hide ParseGo, Atoi, ParseFloat;
    if !r.expectedBinary && input.frame.TextFrame? && |input.frame.text| <= 1600 {
      Listening(limit, r, input);
    }
  }

  lemma {:induction false} SourceOpensExactlyWhen(limit: int, r: Reader, input: Input<Surroundings>, id: Text)
    ensures OpenSource(id) in Read(limit, r, input).effects
       <==> Asks(r, input, "PUSH") && id == Param(input, "stream") && ValidPush(input) && input.meanwhile.sourceCreated
  {
    hide ParseGo, Atoi, ParseFloat;
  }

  /** Data goes to the source with the duration announced for it. */
  lemma {:induction false} HandsExactlyWhen(limit: int, r: Reader, input: Input<Surroundings>, f: Fragment)
    ensures Hand(f) in Read(limit, r, input).effects
       <==> && r.expectedBinary && r.pushing && r.current == Some(f.duration)
            && input.frame == BinaryFrame(f.data) && f.data != [] && (limit <= 0 || |f.data| <= limit)
  {
    hide ParseGo, Atoi, ParseFloat;
  }

  lemma {:induction false} ReleasesExactlyWhen(limit: int, r: Reader, input: Input<Surroundings>, id: Text)
    ensures ReleaseSource(id) in Read(limit, r, input).effects
       <==> Hears(r, input, "CLOSE") && r.mode.Push? && r.pushing && id == r.streamId
  {
    hide ParseGo, Atoi, ParseFloat;
  }

  /** A duration is taken when it is a number, or not a number, but not one that is at most zero. */
  ghost predicate Announces(r: Reader, input: Input<Surroundings>, d: Duration) {
    && Hears(r, input, "F") && r.mode.Push? && ParseFloat(Param(input, "duration")) == Some(d)
    && !(d.Decimal? && d.mantissa <= 0) && d != Infinite(true)
  }

  lemma {:induction false} AwaitsExactlyWhen(limit: int, r: Reader, input: Input<Surroundings>, d: Duration)
    requires !r.expectedBinary
    ensures var after := Read(limit, r, input).reader;
            after.expectedBinary && after.current == Some(d) <==> Announces(r, input, d)
  {
    hide ParseGo, Atoi, ParseFloat;
  }

  /** The whole list of what the reader complains of. */
  ghost predicate Faulty(limit: int, r: Reader, input: Input<Surroundings>, code: ErrorCode) {
    match code
    case PROTOCOL_ERROR =>
      if r.expectedBinary then
        || r.current.None? || !r.pushing
        || (input.frame.TextFrame? && (limit <= 0 || |input.frame.text| <= limit))
        || input.frame == BinaryFrame([])
      else
        || (input.frame.BinaryFrame? && |input.frame.data| <= 1600)
        || (Hears(r, input, "PULL") && !Asks(r, input, "PULL"))
        || (Hears(r, input, "PUSH") && !Asks(r, input, "PUSH"))
        || (Asks(r, input, "PULL") && ValidPull(input) && !HasNumber(input))
        || (Hears(r, input, "F") && !r.mode.Push?)
        || (Hears(r, input, "CLOSE") && !(r.mode.Push? && r.pushing))
        || (Chatter(r, input) && r.mode.Undecided?)
    case AUTH_ERROR =>
      (Asks(r, input, "PULL") && !ValidPull(input)) || (Asks(r, input, "PUSH") && !ValidPush(input))
    case PUSH_ERROR =>
      Asks(r, input, "PUSH") && ValidPush(input) && !input.meanwhile.sourceCreated
    case FRAGMENT_METADATA_ERROR =>
      Hears(r, input, "F") && r.mode.Push? && forall d :: !Announces(r, input, d)
  }

  /** A message of a type with no meaning here, such as a heartbeat. */
  ghost predicate Chatter(r: Reader, input: Input<Surroundings>) {
    && !r.expectedBinary && input.frame.TextFrame? && |input.frame.text| <= 1600
    && ParseGo(input.frame.text).kind !in ["E", "PULL", "PUSH", "F", "CLOSE"]
  }

  lemma {:induction false} ComplainsOfTextExactlyWhen(limit: int, r: Reader, input: Input<Surroundings>,
                                                      code: ErrorCode)
    requires !r.expectedBinary && input.frame.TextFrame? && |input.frame.text| <= 1600
    ensures Complain(code) in Read(limit, r, input).effects <==> Faulty(limit, r, input, code)
  {
    hide ParseGo, Atoi, ParseFloat, Read;
    Listening(limit, r, input);
    var d := ParseFloat(Param(input, "duration"));
    if d.Some? {
      assert Announces(r, input, d.value) || !Announces(r, input, d.value);
    }
  }

  lemma {:induction false} ComplainsExactlyWhen(limit: int, r: Reader, input: Input<Surroundings>, code: ErrorCode)
    ensures Complain(code) in Read(limit, r, input).effects <==> Faulty(limit, r, input, code)
  {
    if !r.expectedBinary && input.frame.TextFrame? && |input.frame.text| <= 1600 {
      hide *;
      ComplainsOfTextExactlyWhen(limit, r, input, code);
    } else {
      hide ParseGo, Atoi, ParseFloat;
      if !r.expectedBinary {
        NotListening(limit, r, input);
      }
    }
  }

  /** A stream that is found nowhere is answered as an empty one. */
  ghost predicate FoundNowhere(r: Reader, input: Input<Surroundings>) {
    && Asks(r, input, "PULL") && ValidPull(input) && HasNumber(input)
    && !Serves(input, Source) && !Serves(input, Relay)
  }

  ghost predicate Admits(r: Reader, input: Input<Surroundings>) {
    || (Asks(r, input, "PULL") && ValidPull(input) && HasNumber(input))
    || (Asks(r, input, "PUSH") && ValidPush(input) && input.meanwhile.sourceCreated)
  }

  lemma {:induction false} RepliesExactlyWhen(limit: int, r: Reader, input: Input<Surroundings>, message: Message)
    ensures Reply(message) in Read(limit, r, input).effects
       <==> || (message == Message("OK", map[]) && Admits(r, input))
            || (message == Message("CLOSE", map[]) && FoundNowhere(r, input))
  {
    hide ParseGo, Atoi, ParseFloat;
    if !r.expectedBinary && input.frame.TextFrame? && |input.frame.text| <= 1600 {
      hide Read;
      Listening(limit, r, input);
    }
  }

  /** Nothing is done twice, and in this order: the source stands before the publisher hears OK; a puller hears OK
      before its pull starts, or before the CLOSE of an empty stream. */
  lemma {:induction false} AnswersInOrder(limit: int, r: Reader, input: Input<Surroundings>)
    ensures var effects := Read(limit, r, input).effects;
            var ok, close := Reply(Message("OK", map[])), Reply(Message("CLOSE", map[]));
            || effects == []
            || (|effects| == 1 && (effects[0].Complain? || effects[0].Hand? || effects[0].ReleaseSource?))
            || (|effects| == 2 && effects[0].OpenSource? && effects[1] == ok)
            || (|effects| == 2 && effects[0] == ok && (effects[1].StartPull? || effects[1] == close))
  {
    hide ParseGo, Atoi, ParseFloat;
    if !r.expectedBinary && input.frame.TextFrame? && |input.frame.text| <= 1600 {
      hide Read;
      Listening(limit, r, input);
    }
  }

  predicate Settles(e: Effect) {
    e.StartPull? || e.OpenSource? || e.ReleaseSource?
  }

  /** A connection settles on pushing or pulling, and on a stream, with its one success; until its CLOSE nothing else
      changes that. */
  lemma {:induction false} SettlesWith(limit: int, r: Reader, input: Input<Surroundings>, e: Effect)
    requires e in Read(limit, r, input).effects && Settles(e)
    ensures var turn := Read(limit, r, input);
            match e
            case StartPull(id, _, _) => turn.reader == r.(mode := Pull, streamId := id)
            case OpenSource(id) => turn.reader == r.(mode := Push, streamId := id, pushing := true)
            case _ => !turn.reader.pushing && turn.verdict.Ended?
  {
    hide ParseGo, Atoi, ParseFloat;
    if !r.expectedBinary && input.frame.TextFrame? && |input.frame.text| <= 1600 {
      hide Read;
      Listening(limit, r, input);
    }
  }

  lemma {:induction false} StaysSettled(limit: int, r: Reader, input: Input<Surroundings>)
    requires forall e :: e in Read(limit, r, input).effects ==> !Settles(e)
    ensures var after := Read(limit, r, input).reader;
            (after.mode, after.streamId, after.pushing) == (r.mode, r.streamId, r.pushing)
  {
    hide ParseGo, Atoi, ParseFloat;
    var effects := Read(limit, r, input).effects;
    assert |effects| > 0 ==> effects[0] in effects;
    assert |effects| > 1 ==> effects[1] in effects;
    if !r.expectedBinary && input.frame.TextFrame? && |input.frame.text| <= 1600 {
      hide Read;
      Listening(limit, r, input);
    }
  }

  /** What keeps a connection going: being let in, fragments, and chatter once it is in. */
  lemma {:induction false} GoesOnExactlyWhen(limit: int, r: Reader, input: Input<Surroundings>)
    ensures Read(limit, r, input).verdict.GoOn?
       <==> || (Admits(r, input) && !FoundNowhere(r, input))
            || (exists d :: Announces(r, input, d))
            || (exists f :: Hand(f) in Read(limit, r, input).effects)
            || (Chatter(r, input) && !r.mode.Undecided?)
  {
    hide ParseGo, Atoi, ParseFloat;
    var turn := Read(limit, r, input);
    if r.expectedBinary {
      if turn.verdict.GoOn? {
        assert turn.effects[0].Hand? && Hand(turn.effects[0].fragment) in turn.effects;
      }
    } else if input.frame.TextFrame? && |input.frame.text| <= 1600 {
      hide Read;
      Listening(limit, r, input);
      var d := ParseFloat(Param(input, "duration"));
      if d.Some? {
        assert Announces(r, input, d.value) || !Announces(r, input, d.value);
      }
    } else {
      NotListening(limit, r, input);
    }
  }

  // Whole connections.

  /** The reader is still reading when it comes to input `i`, and this effect is due to that input. */
  ghost predicate Causes(limit: int, inputs: seq<Input<Surroundings>>, i: int, e: Effect) {
    && 0 <= i < |inputs| && ReadAll(limit, inputs[..i]).verdict.GoOn?
    && e in Read(limit, ReadAll(limit, inputs[..i]).reader, inputs[i]).effects
  }

  lemma {:induction false} CausesBefore(limit: int, inputs: seq<Input<Surroundings>>, n: nat, i: int, e: Effect)
    requires n <= |inputs|
    ensures Causes(limit, inputs[..n], i, e) <==> Causes(limit, inputs, i, e) && i < n
  {
    hide Read, ReadAll;
    if 0 <= i < n {
      assert inputs[..n][..i] == inputs[..i];
    }
  }

  lemma {:induction false} LastCauses(limit: int, inputs: seq<Input<Surroundings>>, e: Effect)
    requires inputs != []
    ensures var n := |inputs| - 1;
            e in ReadAll(limit, inputs).effects
            <==> e in ReadAll(limit, inputs[..n]).effects || Causes(limit, inputs, n, e)
  {
    hide Read;
  }

  lemma {:induction false} EffectsComeFromReads(limit: int, inputs: seq<Input<Surroundings>>, e: Effect)
    ensures e in ReadAll(limit, inputs).effects <==> exists i :: Causes(limit, inputs, i, e)
  {
    if inputs == [] {
      assert forall i :: !Causes(limit, inputs, i, e);
    } else {
      var n := |inputs| - 1;
      EffectsComeFromReads(limit, inputs[..n], e);
      LastCauses(limit, inputs, e);
      forall i ensures Causes(limit, inputs, i, e) ==> i <= n {
        CausesBefore(limit, inputs, n + 1, i, e);
        assert inputs[..n + 1] == inputs;
      }
      hide Causes, ReadAll;
      forall i ensures Causes(limit, inputs[..n], i, e) <==> Causes(limit, inputs, i, e) && i < n {
        CausesBefore(limit, inputs, n, i, e);
      }
    }
  }

  ghost predicate NeverValid(inputs: seq<Input<Surroundings>>) {
    forall i :: 0 <= i < |inputs| ==> !ValidPull(inputs[i]) && !ValidPush(inputs[i])
  }

  /** A connection that never had a valid token owns nothing, whatever it sent. */
  lemma {:induction false} NoTokenNothingOwned(limit: int, inputs: seq<Input<Surroundings>>)
    requires NeverValid(inputs)
    ensures Owned(Life(limit, inputs)) == []
  {
    hide Read, ReadAll, ValidPull, ValidPush, Owned, Published, SoFar;
    var owned := Owned(Life(limit, inputs));
    ConnectionCleansUp(limit, inputs);
    if owned != [] {
      OwnedStarts(limit, inputs);
      var e := owned[0];
      OwnedHas(Life(limit, inputs), e);
      NotFromClosing(limit, inputs, e);
      EffectsComeFromReads(limit, inputs, e);
      var i :| Causes(limit, inputs, i, e);
      var r := ReadAll(limit, inputs[..i]).reader;
      if e.OpenSource? {
        SourceOpensExactlyWhen(limit, r, inputs[i], e.streamId);
      } else {
        PullStartsExactlyWhen(limit, r, inputs[i], e.streamId, e.provider, e.maxInitialFragments);
      }
      assert false;
    }
  }

  lemma {:induction false} OwnedStarts(limit: int, inputs: seq<Input<Surroundings>>)
    requires Owned(Life(limit, inputs)) != []
    ensures Owned(Life(limit, inputs))[0].OpenSource? || Owned(Life(limit, inputs))[0].StartPull?
  {
    hide Owned;
    ConnectionCleansUp(limit, inputs);
  }

  lemma {:induction false} OwnedHas(effects: seq<Effect>, e: Effect)
    requires e in Owned(effects)
    ensures e in effects
  {
    if effects != [] && e != effects[|effects| - 1] {
      OwnedHas(effects[..|effects| - 1], e);
    }
  }

  lemma {:induction false} NotFromClosing(limit: int, inputs: seq<Input<Surroundings>>, e: Effect)
    requires e in Life(limit, inputs) && (e.OpenSource? || e.StartPull?)
    ensures e in ReadAll(limit, inputs).effects
  {
    hide ReadAll;
  }
}
