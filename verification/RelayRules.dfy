/** What a relay does with the frames it reads, said effect by effect: when exactly each of them happens
    (server/relay.go). */
module RelayRules {
  import opened Floats
  import opened Fragments
  import opened Texts
  import opened Messages
  import opened Wire
  import opened Reading
  import opened RelayReader
  import PullProtocol
  import S = PullSender

  /** A reader that waits for text is given one that is not too long, with a message of this type. */
  ghost predicate Hears(r: Reader, frame: Frame, kind: Text) {
    !r.expectedBinary && frame.TextFrame? && |frame.text| <= 1600 && ParseGo(frame.text).kind == kind
  }

  ghost predicate Announces(r: Reader, frame: Frame, d: Duration) {
    && Hears(r, frame, "F") && ParseFloat(ParseGo(frame.text).GetParameter("duration")) == Some(d)
    && !(d.Decimal? && d.mantissa <= 0) && d != Infinite(true)
  }

  /** A message of a type with no meaning here, such as a heartbeat. */
  ghost predicate Chatter(r: Reader, frame: Frame) {
    && !r.expectedBinary && frame.TextFrame? && |frame.text| <= 1600
    && ParseGo(frame.text).kind !in ["E", "OK", "F", "CLOSE"]
  }

  // Each effect of one frame.

  lemma {:induction false} WakesExactlyWhen(limit: int, r: Reader, frame: Frame)
    ensures WakeWaiters in Read(limit, r, frame).effects <==> Hears(r, frame, "OK") && !r.ready
    ensures Read(limit, r, frame).reader.ready <==> r.ready || Hears(r, frame, "OK")
  {
    hide ParseGo, ParseFloat;
  }

  lemma {:induction false} HandsExactlyWhen(limit: int, r: Reader, frame: Frame, f: Fragment)
    ensures Hand(f) in Read(limit, r, frame).effects
       <==> && r.expectedBinary && r.current == Some(f.duration)
            && frame == BinaryFrame(f.data) && f.data != [] && (limit <= 0 || |f.data| <= limit)
  {
    hide ParseGo, ParseFloat;
  }

  lemma {:induction false} ClosesExactlyWhen(limit: int, r: Reader, frame: Frame)
    ensures CloseRelay in Read(limit, r, frame).effects <==> Hears(r, frame, "CLOSE") && !r.closed
    ensures Read(limit, r, frame).reader.closed <==> r.closed || Hears(r, frame, "CLOSE")
  {
    hide ParseGo, ParseFloat;
  }

  lemma {:induction false} AwaitsExactlyWhen(limit: int, r: Reader, frame: Frame, d: Duration)
    requires !r.expectedBinary
    ensures var after := Read(limit, r, frame).reader;
            after.expectedBinary && after.current == Some(d) <==> Announces(r, frame, d)
  {
    hide ParseGo, ParseFloat;
  }

  ghost predicate Faulty(limit: int, r: Reader, frame: Frame, code: ErrorCode) {
    match code
    case PROTOCOL_ERROR =>
      if r.expectedBinary then
        r.current.None? || (frame.TextFrame? && (limit <= 0 || |frame.text| <= limit)) || frame == BinaryFrame([])
      else
        frame.BinaryFrame? && |frame.data| <= 1600
    case FRAGMENT_METADATA_ERROR => Hears(r, frame, "F") && forall d :: !Announces(r, frame, d)
    case _ => false
  }

  lemma {:induction false} ComplainsExactlyWhen(limit: int, r: Reader, frame: Frame, code: ErrorCode)
    ensures Complain(code) in Read(limit, r, frame).effects <==> Faulty(limit, r, frame, code)
  {
    hide ParseGo, ParseFloat;
    if frame.TextFrame? {
      var d := ParseFloat(ParseGo(frame.text).GetParameter("duration"));
      if d.Some? {
        assert Announces(r, frame, d.value) || !Announces(r, frame, d.value);
      }
    }
  }

  lemma {:induction false} GoesOnExactlyWhen(limit: int, r: Reader, frame: Frame)
    ensures Read(limit, r, frame).verdict.GoOn?
       <==> || Hears(r, frame, "OK") || Chatter(r, frame)
            || (exists d :: Announces(r, frame, d))
            || (exists f :: Hand(f) in Read(limit, r, frame).effects)
  {
    hide ParseGo, ParseFloat;
    var turn := Read(limit, r, frame);
    if r.expectedBinary {
      if turn.verdict.GoOn? {
        assert Hand(turn.effects[0].fragment) in turn.effects;
      }
    } else if frame.TextFrame? {
      var d := ParseFloat(ParseGo(frame.text).GetParameter("duration"));
      if d.Some? {
        assert Announces(r, frame, d.value) || !Announces(r, frame, d.value);
      }
    }
  }

  // Whole inputs.

  /** The reader comes to input `i`, and hears a message of this type. */
  ghost predicate HeardAt(limit: int, inputs: seq<Input<Elsewhere>>, i: int, kind: Text) {
    && 0 <= i < |inputs| && ReadAll(limit, inputs[..i]).verdict.GoOn?
    && Hears(ReadAll(limit, inputs[..i]).reader, inputs[i].frame, kind)
  }

  ghost predicate WasHeard(limit: int, inputs: seq<Input<Elsewhere>>, kind: Text) {
    exists i :: HeardAt(limit, inputs, i, kind)
  }

  lemma {:induction false} HeardMore(limit: int, inputs: seq<Input<Elsewhere>>, kind: Text)
    requires inputs != []
    ensures var n := |inputs| - 1;
            WasHeard(limit, inputs, kind) <==> WasHeard(limit, inputs[..n], kind) || HeardAt(limit, inputs, n, kind)
  {
    hide ReadAll, Hears;
    var n := |inputs| - 1;
    forall i ensures HeardAt(limit, inputs[..n], i, kind) <==> HeardAt(limit, inputs, i, kind) && i < n {
      if 0 <= i < n {
        assert inputs[..n][..i] == inputs[..i];
      }
    }
    if WasHeard(limit, inputs, kind) {
      var i :| HeardAt(limit, inputs, i, kind);
      assert i < n ==> HeardAt(limit, inputs[..n], i, kind);
    }
    if WasHeard(limit, inputs[..n], kind) {
      var i :| HeardAt(limit, inputs[..n], i, kind);
      assert HeardAt(limit, inputs, i, kind);
    }
  }

  /** The waiters are woken by the first OK that is read, and by nothing else before the relay ends. */
  lemma {:induction false} WokenExactlyWhen(limit: int, inputs: seq<Input<Elsewhere>>)
    ensures Count(ReadAll(limit, inputs).effects, WakeWaiters) == if WasHeard(limit, inputs, "OK") then 1 else 0
    ensures ReadAll(limit, inputs).reader.ready <==> WasHeard(limit, inputs, "OK")
  {
    ReadAllKeeps(limit, inputs);
    ReadyExactlyWhen(limit, inputs);
  }

  lemma {:induction false} ReadyExactlyWhen(limit: int, inputs: seq<Input<Elsewhere>>)
    ensures ReadAll(limit, inputs).reader.ready <==> WasHeard(limit, inputs, "OK")
  {
    if inputs == [] {
      assert forall i :: !HeardAt(limit, inputs, i, "OK");
    } else {
      hide Read, Hears, WasHeard;
      var n := |inputs| - 1;
      ReadyExactlyWhen(limit, inputs[..n]);
      HeardMore(limit, inputs, "OK");
      WakesExactlyWhen(limit, ReadAll(limit, inputs[..n]).reader, inputs[n].frame);
    }
  }

  lemma {:induction false} LastWasCalm(limit: int, inputs: seq<Input<Elsewhere>>)
    requires inputs != [] && ReadAll(limit, inputs).verdict.GoOn?
    ensures var n := |inputs| - 1; ReadAll(limit, inputs[..n]).verdict.GoOn? && inputs[n].meanwhile.Nothing?
  {
    hide Read;
  }

  /** A relay that was closed from elsewhere reads nothing more. */
  lemma {:induction false} ClosedReadsNoMore(limit: int, inputs: seq<Input<Elsewhere>>)
    requires ReadAll(limit, inputs).verdict.GoOn?
    ensures Undisturbed(inputs)
  {
    if inputs == [] {
    } else {
      hide ReadAll, Undisturbed;
      LastWasCalm(limit, inputs);
      ClosedReadsNoMore(limit, inputs[..|inputs| - 1]);
      UndisturbedMore(inputs);
    }
  }

  lemma {:induction false} UndisturbedMore(inputs: seq<Input<Elsewhere>>)
    requires inputs != [] && Undisturbed(inputs[..|inputs| - 1]) && inputs[|inputs| - 1].meanwhile.Nothing?
    ensures Undisturbed(inputs)
  {
    forall i | 0 <= i < |inputs| - 1 ensures inputs[i].meanwhile.Nothing? {
      assert inputs[..|inputs| - 1][i].meanwhile.Nothing?;
    }
  }

  /** After input `i` the reader would have gone on, but finds the relay closed. */
  ghost predicate DisturbedAt(limit: int, inputs: seq<Input<Elsewhere>>, i: int) {
    && 0 <= i < |inputs| && ReadAll(limit, inputs[..i]).verdict.GoOn?
    && Read(limit, ReadAll(limit, inputs[..i]).reader, inputs[i].frame).verdict.GoOn?
    && inputs[i].meanwhile.RelayClosed?
  }

  ghost predicate WasDisturbed(limit: int, inputs: seq<Input<Elsewhere>>) {
    exists i :: DisturbedAt(limit, inputs, i)
  }

  lemma {:induction false} DisturbedMore(limit: int, inputs: seq<Input<Elsewhere>>)
    requires inputs != []
    ensures var n := |inputs| - 1;
            WasDisturbed(limit, inputs) <==> WasDisturbed(limit, inputs[..n]) || DisturbedAt(limit, inputs, n)
  {
    hide ReadAll, Read;
    var n := |inputs| - 1;
    forall i ensures DisturbedAt(limit, inputs[..n], i) <==> DisturbedAt(limit, inputs, i) && i < n {
      if 0 <= i < n {
        assert inputs[..n][..i] == inputs[..i];
      }
    }
    if WasDisturbed(limit, inputs) {
      var i :| DisturbedAt(limit, inputs, i);
      assert i < n ==> DisturbedAt(limit, inputs[..n], i);
    }
    if WasDisturbed(limit, inputs[..n]) {
      var i :| DisturbedAt(limit, inputs[..n], i);
      assert DisturbedAt(limit, inputs, i);
    }
  }

  lemma {:induction false} ClosedFlagExactlyWhen(limit: int, inputs: seq<Input<Elsewhere>>)
    ensures ReadAll(limit, inputs).reader.closed <==> WasHeard(limit, inputs, "CLOSE") || WasDisturbed(limit, inputs)
  {
    if inputs == [] {
      assert forall i :: !HeardAt(limit, inputs, i, "CLOSE") && !DisturbedAt(limit, inputs, i);
    } else {
      hide Read, Hears, WasHeard, WasDisturbed;
      var n := |inputs| - 1;
      ClosedFlagExactlyWhen(limit, inputs[..n]);
      HeardMore(limit, inputs, "CLOSE");
      DisturbedMore(limit, inputs);
      ClosesExactlyWhen(limit, ReadAll(limit, inputs[..n]).reader, inputs[n].frame);
    }
  }

  /** Over its whole life a relay tells its listeners to close, but for one case: it was closed from elsewhere,
      while or after it read, without having read CLOSE. */
  lemma {:induction false} ListenersToldExactlyWhen(limit: int, inputs: seq<Input<Elsewhere>>, last: Elsewhere)
    ensures Count(Life(limit, inputs, last), CloseRelay)
         == if !WasHeard(limit, inputs, "CLOSE") && (WasDisturbed(limit, inputs) || last.RelayClosed?) then 0 else 1
  {
    hide Count, ReadAll, WasHeard, WasDisturbed;
    var turn := ReadAll(limit, inputs);
    ReadAllKeeps(limit, inputs);
    ToldExactlyWhen(limit, inputs);
    ClosedFlagExactlyWhen(limit, inputs);
    EndCounts(limit, turn.effects, Touched(turn.reader, last));
  }

  lemma {:induction false} ToldExactlyWhen(limit: int, inputs: seq<Input<Elsewhere>>)
    ensures Count(ReadAll(limit, inputs).effects, CloseRelay) == if WasHeard(limit, inputs, "CLOSE") then 1 else 0
  {
    if inputs == [] {
      assert forall i :: !HeardAt(limit, inputs, i, "CLOSE");
    } else {
      hide Read, Hears, WasHeard, Count;
      var n := |inputs| - 1;
      var before := ReadAll(limit, inputs[..n]);
      ToldExactlyWhen(limit, inputs[..n]);
      ReadAllKeeps(limit, inputs[..n]);
      HeardMore(limit, inputs, "CLOSE");
      if before.verdict.GoOn? {
        ClosesExactlyWhen(limit, before.reader, inputs[n].frame);
        AtMostOneEffect(limit, before.reader, inputs[n].frame);
        CountMore(before.effects, Read(limit, before.reader, inputs[n].frame).effects, CloseRelay);
        OnlyStopsOnce(limit, inputs, n);
      }
    }
  }

  lemma {:induction false} AtMostOneEffect(limit: int, r: Reader, frame: Frame)
    ensures var effects := Read(limit, r, frame).effects;
            Count(effects, CloseRelay) == if CloseRelay in effects then 1 else 0
  {
    hide ParseGo, ParseFloat;
  }

  /** A CLOSE that was heard ended the reading. */
  lemma {:induction false} OnlyStopsOnce(limit: int, inputs: seq<Input<Elsewhere>>, n: nat)
    requires n <= |inputs| && ReadAll(limit, inputs[..n]).verdict.GoOn?
    ensures !WasHeard(limit, inputs[..n], "CLOSE")
  {
    hide ReadAll;
    if i :| HeardAt(limit, inputs[..n], i, "CLOSE") {
      CloseStops(limit, inputs[..n], i);
    }
  }

  lemma {:induction false} CloseStops(limit: int, inputs: seq<Input<Elsewhere>>, i: int)
    requires HeardAt(limit, inputs, i, "CLOSE")
    ensures !ReadAll(limit, inputs).verdict.GoOn?
  {
    hide ReadAll, Read;
    assert inputs[..i + 1][..i] == inputs[..i];
    ReadOnce(limit, inputs[..i + 1]);
    GoesOnExactlyWhen(limit, ReadAll(limit, inputs[..i]).reader, inputs[i].frame);
    NoHandFromText(limit, ReadAll(limit, inputs[..i]).reader, inputs[i].frame);
    ReadingStops(limit, inputs, i + 1);
  }

  lemma {:induction false} NoHandFromText(limit: int, r: Reader, frame: Frame)
    requires !r.expectedBinary
    ensures forall f :: Hand(f) !in Read(limit, r, frame).effects
  {
    hide ParseGo, ParseFloat;
  }

  lemma {:induction false} ReadOnce(limit: int, inputs: seq<Input<Elsewhere>>)
    requires inputs != []
    ensures ReadAll(limit, inputs) == After(limit, ReadAll(limit, inputs[..|inputs| - 1]), inputs[|inputs| - 1])
  {}

  // With a pulling connection at the other end.

  lemma {:induction false} RenderFront(log: seq<S.Item>, k: nat)
    requires k < |log|
    ensures S.Render(log[..k]) + S.ItemPackets(log[k]) <= S.Render(log)
  {
    var n := |log| - 1;
    if k < n {
      RenderFront(log[..n], k);
      assert log[..n][..k] == log[..k] && log[..n][k] == log[k];
    } else {
      assert S.Render(log) == S.Render(log[..k]) + S.ItemPackets(log[k]);
    }
  }

  lemma {:induction false} LogFronts(log: seq<S.Item>, k: nat)
    requires S.LogOk(log) && k <= |log|
    ensures S.LogOk(log[..k])
    decreases |log|
  {
    hide S.LogOk;
    if k == |log| {
      assert log[..k] == log;
    } else {
      var n := |log| - 1;
      assert log == log[..n] + [log[n]];
      PullProtocol.LogFront(log[..n], log[n]);
      LogFronts(log[..n], k);
      assert log[..n][..k] == log[..k];
    }
  }

  lemma {:induction false} DeliversFront(inputs: seq<Input<Elsewhere>>, part: seq<Packet>, whole: seq<Packet>)
    requires Delivers(inputs, whole) && part <= whole
    ensures Delivers(inputs[..|part|], part)
  {
    hide Delivered;
    assert whole == part + whole[|part|..];
    DeliversSplit(inputs, part, whole[|part|..]);
  }

  /** Nothing but noise comes before the OK. */
  lemma {:induction false} QuietBeforeOk(log: seq<S.Item>)
    requires S.LogOk(log + [S.Ok])
    ensures !PullProtocol.SaidBye(log)
  {
    hide S.Quiet, S.LogOk;
    if PullProtocol.SaidBye(log) {
      PullProtocol.NothingAfterBye(log, S.Ok);
    }
  }

  lemma {:induction false} RunLogOk(steps: seq<S.Step>)
    ensures S.LogOk(S.Run(steps).log) && S.Run(steps).line.out == S.Render(S.Run(steps).log)
  {
    hide S.Run, S.LogOk;
    S.RunKeeps(steps);
  }

  lemma {:induction false} ReadableFront(limit: int, log: seq<S.Item>, k: nat)
    requires PullProtocol.Readable(limit, log) && k <= |log|
    ensures PullProtocol.Readable(limit, log[..k])
  {}

  /** Having kept up with the noise, the reader hears the OK. */
  lemma {:induction false} OkIsHeard(limit: int, inputs: seq<Input<Elsewhere>>, front: seq<S.Item>)
    requires S.LogOk(front + [S.Ok]) && PullProtocol.Readable(limit, front)
    requires |S.Render(front)| < |inputs|
    requires Delivers(inputs[..|S.Render(front)|], S.Render(front))
    requires Delivered(inputs[|S.Render(front)|].frame, Says(OkMessage()))
    requires PullProtocol.Calm(inputs[..|S.Render(front)|], front)
    ensures HeardAt(limit, inputs, |S.Render(front)|, "OK")
  {
    hide S.LogOk, S.Render, ReadAll, PullProtocol.SaidBye, PullProtocol.Readable, PullProtocol.Calm, Handed, Delivers;
    var m := |S.Render(front)|;
    PullProtocol.LogFront(front, S.Ok);
    QuietBeforeOk(front);
    PullProtocol.LogIsFollowed(limit, inputs[..m], front);
    hide ParseGo, Carries;
    WireIsFaithful(inputs[m].frame, Says(OkMessage()));
  }

  lemma {:induction false} HeardStays(limit: int, inputs: seq<Input<Elsewhere>>, m: nat, n: nat)
    requires m < n <= |inputs| && HeardAt(limit, inputs, m, "OK")
    ensures WasHeard(limit, inputs[..n], "OK")
  {
    hide ReadAll, Hears;
    assert inputs[..n][..m] == inputs[..m];
    assert HeardAt(limit, inputs[..n], m, "OK");
  }

  /** The OK is read, and the waiters are awake, once the frames up to the sender's OK have been read, unless
      an error was sent before it or the relay was closed from elsewhere. */
  lemma {:induction false} WaitersAwakeAfterOk(steps: seq<S.Step>, limit: int, inputs: seq<Input<Elsewhere>>,
                                               k: nat, n: nat)
    requires var log := S.Run(steps).log;
             && Delivers(inputs, S.Run(steps).line.out) && PullProtocol.Readable(limit, log)
             && k < |log| && log[k].Ok? && |S.Render(log[..k])| < n <= |inputs|
             && PullProtocol.Calm(inputs[..|S.Render(log[..k])|], log[..k])
    ensures Count(ReadAll(limit, inputs[..n]).effects, WakeWaiters) == 1 && ReadAll(limit, inputs[..n]).reader.ready
  {
    hide S.Run, S.LogOk, S.Render, ReadAll, PullProtocol.Readable, PullProtocol.Calm;
    hide Delivers, Delivered, HeardAt, Count;
    var log := S.Run(steps).log;
    var front := log[..k];
    var m := |S.Render(front)|;
    RunLogOk(steps);
    LogFronts(log, k + 1);
    assert log[..k + 1] == front + [S.Ok];
    RenderFront(log, k);
    var upTo := S.Render(front) + [Says(OkMessage())];
    DeliversFront(inputs, upTo, S.Render(log));
    DeliversSplit(inputs[..m + 1], S.Render(front), [Says(OkMessage())]);
    assert inputs[..m + 1][..m] == inputs[..m];
    assert Delivered(inputs[..m + 1][m + 0].frame, [Says(OkMessage())][0]);
    ReadableFront(limit, log, k);
    OkIsHeard(limit, inputs, front);
    HeardStays(limit, inputs, m, n);
    WokenExactlyWhen(limit, inputs[..n]);
  }
}
