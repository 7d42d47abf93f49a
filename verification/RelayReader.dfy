/** The reading side of a relay (server/relay.go): what it makes of the frames another server sends it. */
module RelayReader {
  import opened Floats
  import opened Fragments
  import opened Texts
  import opened Messages
  import opened Wire
  import opened Reading

  /** After each frame the loop looks whether the relay was closed from elsewhere in the meantime. */
  datatype Elsewhere = Nothing | RelayClosed

  datatype Reader = Reader(expectedBinary: bool, current: Option<Duration>, ready: bool, closed: bool)

  const FRESH := Reader(false, None, false, false)

  function WakeOnce(r: Reader): seq<Effect> {
    if r.ready then [] else [WakeWaiters]
  }

  function CloseOnce(r: Reader): seq<Effect> {
    if r.closed then [] else [CloseRelay]
  }

  function Announced(r: Reader, msg: Message): Turn<Reader> {
    var duration := ParseFloat(msg.GetParameter(DURATION));
    if duration.None? || AtMostZero(duration.value) then Refuse(r, FRAGMENT_METADATA_ERROR)
    else Turn(r.(current := duration, expectedBinary := true), GoOn, [])
  }

  function Heard(r: Reader, msg: Message): Turn<Reader> {
    if msg.kind == "E" then Turn(r, Ended, [])
    else if msg.kind == "OK" then Turn(r.(ready := true), GoOn, WakeOnce(r))
    else if msg.kind == "F" then Announced(r, msg)
    else if msg.kind == "CLOSE" then Turn(r.(closed := true), Ended, CloseOnce(r))
    else Turn(r, GoOn, [])
  }

  function ReadText(r: Reader, frame: Frame): Turn<Reader> {
    if TooLong(Size(frame), TEXT_MSG_READ_LIMIT) then Turn(r, Broken, [])
    else match Understood(frame)
      case Data(_) => Refuse(r, PROTOCOL_ERROR)
      case Says(message) => Heard(r, message)
  }

  function ReadBinary(limit: int, r: Reader, frame: Frame): Turn<Reader> {
    if r.current.None? then Refuse(r, PROTOCOL_ERROR)
    else TakeData(limit, r, r.(expectedBinary := false, current := None), r.current.value, frame)
  }

  function Read(limit: int, r: Reader, frame: Frame): Turn<Reader> {
    if r.expectedBinary then ReadBinary(limit, r, frame) else ReadText(r, frame)
  }

  function ReadAll(limit: int, inputs: seq<Input<Elsewhere>>): Turn<Reader> {
    if inputs == [] then Turn(FRESH, GoOn, [])
    else After(limit, ReadAll(limit, inputs[..|inputs| - 1]), inputs[|inputs| - 1])
  }

  function After(limit: int, before: Turn<Reader>, input: Input<Elsewhere>): Turn<Reader> {
    Continue(before, Checked(Read(limit, before.reader, input.frame), input.meanwhile))
  }

  /** The look at the closed flag after each frame. */
  function Checked(turn: Turn<Reader>, elsewhere: Elsewhere): Turn<Reader> {
    if turn.verdict.GoOn? && elsewhere.RelayClosed? then turn.(verdict := Ended, reader := turn.reader.(closed := true))
    else turn
  }

  /** When the loop is over: waiters are woken, the relay closed, unregistered, and its memory given back. */
  function OnClose(r: Reader): seq<Effect> {
    WakeOnce(r) + CloseOnce(r) + [Unregister, ReleaseMemory]
  }

  /** Everything a relay does. `last` tells what happens elsewhere after the last frame that it reads: it may be
      closed while it waits, or before it has read anything. */
  function Life(limit: int, inputs: seq<Input<Elsewhere>>, last: Elsewhere): seq<Effect> {
    var turn := ReadAll(limit, inputs);
    turn.effects + OnClose(Touched(turn.reader, last))
  }

  function Touched(r: Reader, elsewhere: Elsewhere): Reader {
    if elsewhere.RelayClosed? then r.(closed := true) else r
  }

  class HlsRelay {
    const maxBinaryMessageSize: int
    var expectedBinary: bool
    var currentFragment: Option<Duration>
    var ready: bool
    var closed: bool
    var inactivityWarning: bool
    var effects: seq<Effect>

    ghost function State(): Reader
      reads this
    {
      Reader(expectedBinary, currentFragment, ready, closed)
    }

    constructor (maxBinaryMessageSize: int)
      ensures State() == FRESH && effects == [] && !inactivityWarning
      ensures this.maxBinaryMessageSize == maxBinaryMessageSize
    {
      this.maxBinaryMessageSize := maxBinaryMessageSize;
      expectedBinary, currentFragment, ready, closed := false, None, false, false;
      inactivityWarning, effects := false, [];
    }

    method SetReady()
      modifies this`ready, this`effects
      ensures ready && effects == old(effects) + WakeOnce(old(State()))
    {
      var wasReady := ready;
      ready := true;
      if !wasReady {
        effects := effects + [WakeWaiters];
      } else {
        assert effects + [] == effects;
      }
    }

    method SendErrorMessage(code: ErrorCode)
      modifies this`effects
      ensures effects == old(effects) + [Complain(code)]
    {
      effects := effects + [Complain(code)];
    }

    method Close()
      modifies this`closed, this`effects
      ensures closed && effects == old(effects) + CloseOnce(old(State()))
    {
      if closed {
        assert effects + [] == effects;
        return;
      }
      closed := true;
      effects := effects + [CloseRelay];
    }

    method HandleFragmentMetadata(msg: Message) returns (ok: bool)
      modifies this`currentFragment, this`expectedBinary, this`effects
      ensures State() == Announced(old(State()), msg).reader
      ensures effects == old(effects) + Announced(old(State()), msg).effects
      ensures ok == Announced(old(State()), msg).verdict.GoOn?
    {
      var durationStr := msg.GetParameter(DURATION);
      if durationStr == [] {
        SendErrorMessage(FRAGMENT_METADATA_ERROR);
        return false;
      }
      var duration := ParseFloat(durationStr);
      if duration.None? {
        SendErrorMessage(FRAGMENT_METADATA_ERROR);
        return false;
      }
      if AtMostZero(duration.value) {
        SendErrorMessage(FRAGMENT_METADATA_ERROR);
        return false;
      }
      currentFragment, expectedBinary := duration, true;
      assert effects + [] == effects;
      return true;
    }

    method ReadTextMessage(frame: Frame) returns (ok: bool)
      modifies this
      ensures State() == ReadText(old(State()), frame).reader
      ensures effects == old(effects) + ReadText(old(State()), frame).effects
      ensures ok == ReadText(old(State()), frame).verdict.GoOn?
    {
      hide Announced, ParseGo;
      assert effects + [] == effects;
      if TooLong(Size(frame), TEXT_MSG_READ_LIMIT) {
        return false;
      }
      if frame.BinaryFrame? {
        SendErrorMessage(PROTOCOL_ERROR);
        return false;
      }
      var parsedMessage := ParseWebsocketProtocolMessage(frame.text);
      if parsedMessage.kind == "E" {
        return false;
      } else if parsedMessage.kind == "OK" {
        SetReady();
        return true;
      } else if parsedMessage.kind == "F" {
        ok := HandleFragmentMetadata(parsedMessage);
      } else if parsedMessage.kind == "CLOSE" {
        Close();
        return false;
      } else {
        return true;
      }
    }

    method ReadBinaryMessage(frame: Frame) returns (ok: bool)
      modifies this`currentFragment, this`expectedBinary, this`effects
      ensures State() == ReadBinary(maxBinaryMessageSize, old(State()), frame).reader
      ensures effects == old(effects) + ReadBinary(maxBinaryMessageSize, old(State()), frame).effects
      ensures ok == ReadBinary(maxBinaryMessageSize, old(State()), frame).verdict.GoOn?
    {
      if currentFragment.None? {
        SendErrorMessage(PROTOCOL_ERROR);
        return false;
      }
      if TooLong(Size(frame), maxBinaryMessageSize) {
        assert effects + [] == effects;
        return false;
      }
      if frame.TextFrame? || frame.data == [] {
        SendErrorMessage(PROTOCOL_ERROR);
        return false;
      }
      effects := effects + [Hand(Fragment(currentFragment.value, frame.data))];
      expectedBinary, currentFragment := false, None;
      return true;
    }

    /** The read loop after the socket was opened, and the clean-up after it. */
    method Run(inputs: seq<Input<Elsewhere>>, last: Elsewhere)
      requires State() == FRESH && effects == []
      modifies this
      ensures effects == Life(maxBinaryMessageSize, inputs, last)
    {
      hide ReadText, ReadBinary;
      var i, ok := 0, true;
      assert effects + [] == effects;
      while i < |inputs| && ok
        invariant i <= |inputs|
        invariant State() == ReadAll(maxBinaryMessageSize, inputs[..i]).reader
        invariant effects == ReadAll(maxBinaryMessageSize, inputs[..i]).effects
        invariant ok == ReadAll(maxBinaryMessageSize, inputs[..i]).verdict.GoOn?
      {
        assert inputs[..i + 1][..i] == inputs[..i];
        if expectedBinary {
          ok := ReadBinaryMessage(inputs[i].frame);
        } else {
          ok := ReadTextMessage(inputs[i].frame);
        }
        if ok && inputs[i].meanwhile.RelayClosed? {
          closed, ok := true, false;
        }
        i := i + 1;
      }
      ReadingStops(maxBinaryMessageSize, inputs, i);
      if last.RelayClosed? {
        closed := true;
      }
      FinishRun();
    }

    /** What is deferred to the end of the loop. */
    method FinishRun()
      modifies this
      ensures effects == old(effects) + OnClose(old(State()))
    {
      ghost var r := State();
      SetReady();
      Close();
      effects := effects + [Unregister, ReleaseMemory];
      assert effects == old(effects) + OnClose(r);
    }

    /** Closes at the second check that finds no listeners. The warning is never taken back. */
    method CheckInactivity(listeners: nat) returns (stop: bool)
      modifies this`inactivityWarning, this`closed
      ensures stop <==> listeners == 0 && old(inactivityWarning)
      ensures inactivityWarning <==> old(inactivityWarning) || listeners == 0
      ensures closed <==> old(closed) || stop
    {
      if listeners == 0 {
        if inactivityWarning {
          closed := true;
          return true;
        } else {
          inactivityWarning := true;
        }
      }
      return false;
    }

    /** The loop around the check; each check finds so many listeners. */
    method PeriodicallyCheckInactivity(checks: seq<nat>) returns (stopped: bool)
      modifies this`inactivityWarning, this`closed
      ensures stopped <==> Stops(old(inactivityWarning), checks)
      ensures closed <==> old(closed) || stopped
    {
      for i := 0 to |checks|
        invariant Stops(old(inactivityWarning), checks) <==> Stops(inactivityWarning, checks[i..])
        invariant closed <==> old(closed)
      {
        assert checks[i..][1..] == checks[i + 1..];
        var stop := CheckInactivity(checks[i]);
        if stop {
          return true;
        }
      }
      return false;
    }
  }

  /** A prefix of the input has a prefix of the effects, and a stop is final. */
  lemma {:induction false} ReadingStops(limit: int, inputs: seq<Input<Elsewhere>>, n: nat)
    requires n <= |inputs|
    ensures ReadAll(limit, inputs[..n]).effects <= ReadAll(limit, inputs).effects
    ensures n == |inputs| || !ReadAll(limit, inputs[..n]).verdict.GoOn? ==>
              ReadAll(limit, inputs[..n]) == ReadAll(limit, inputs)
  {
    hide Read;
    if n == |inputs| {
      assert inputs[..n] == inputs;
    } else {
      var front := inputs[..|inputs| - 1];
      ReadingStops(limit, front, n);
      assert front[..n] == inputs[..n];
    }
  }

  // Whole lives.

  function Count(effects: seq<Effect>, e: Effect): nat {
    if effects == [] then 0
    else Count(effects[..|effects| - 1], e) + if effects[|effects| - 1] == e then 1 else 0
  }

  lemma {:induction false} CountMore(effects: seq<Effect>, more: seq<Effect>, e: Effect)
    ensures Count(effects + more, e) == Count(effects, e) + Count(more, e)
  {
    if more == [] {
      assert effects + more == effects;
    } else {
      CountMore(effects, more[..|more| - 1], e);
      assert (effects + more)[..|effects + more| - 1] == effects + more[..|more| - 1];
    }
  }

  ghost predicate HandsSound(limit: int, effects: seq<Effect>) {
    forall i :: 0 <= i < |effects| && effects[i].Hand? ==>
      Sound(effects[i].fragment) && !TooLong(|effects[i].fragment.data|, limit)
  }

  predicate Final(e: Effect) {
    e.Unregister? || e.ReleaseMemory?
  }

  /** Waiters are woken when it gets ready; a relay closed without CloseRelay was closed from elsewhere. */
  ghost predicate SoFar(limit: int, r: Reader, effects: seq<Effect>) {
    && r.expectedBinary == r.current.Some?
    && (r.current.Some? ==> !AtMostZero(r.current.value))
    && Count(effects, WakeWaiters) == (if r.ready then 1 else 0)
    && (Count(effects, CloseRelay) == 1 ==> r.closed)
    && Count(effects, CloseRelay) <= 1
    && HandsSound(limit, effects)
    && forall e :: e in effects ==> !Final(e)
  }

  lemma {:induction false} CountOne(e: Effect, other: Effect)
    ensures Count([e], other) == if e == other then 1 else 0
    ensures Count([], other) == 0
  {}

  lemma {:induction false} MoreKeeps(limit: int, r: Reader, after: Reader, effects: seq<Effect>, e: Effect)
    requires SoFar(limit, r, effects) && !Final(e)
    requires after.expectedBinary == after.current.Some? && (after.current.Some? ==> !AtMostZero(after.current.value))
    requires e.WakeWaiters? ==> !r.ready
    requires after.ready <==> r.ready || e.WakeWaiters?
    requires e.CloseRelay? ==> Count(effects, CloseRelay) == 0 && after.closed
    requires r.closed ==> after.closed
    requires e.Hand? ==> Sound(e.fragment) && !TooLong(|e.fragment.data|, limit)
    ensures SoFar(limit, after, effects + [e])
  {
    hide Count, Sound, TooLong;
    CountMore(effects, [e], WakeWaiters);
    CountMore(effects, [e], CloseRelay);
    CountOne(e, WakeWaiters);
    CountOne(e, CloseRelay);
  }

  lemma {:induction false} ReadKeeps(limit: int, r: Reader, frame: Frame, effects: seq<Effect>)
    requires SoFar(limit, r, effects) && !r.closed
    ensures var turn := Read(limit, r, frame);
            SoFar(limit, turn.reader, effects + turn.effects) && (turn.verdict.GoOn? ==> !turn.reader.closed)
  {
    hide Count, ParseFloat, Understood, HandsSound;
    var turn := Read(limit, r, frame);
    assert |turn.effects| <= 1;
    if turn.effects == [] {
      assert effects + [] == effects;
    } else {
      MoreKeeps(limit, r, turn.reader, effects, turn.effects[0]);
      assert turn.effects == [turn.effects[0]];
    }
  }

  lemma {:induction false} ReadAllKeeps(limit: int, inputs: seq<Input<Elsewhere>>)
    ensures var turn := ReadAll(limit, inputs);
            SoFar(limit, turn.reader, turn.effects) && (turn.verdict.GoOn? ==> !turn.reader.closed)
  {
    if inputs != [] {
      hide Read, Count, HandsSound;
      ReadAllKeeps(limit, inputs[..|inputs| - 1]);
      var before, input := ReadAll(limit, inputs[..|inputs| - 1]), inputs[|inputs| - 1];
      if before.verdict.GoOn? {
        ReadKeeps(limit, before.reader, input.frame, before.effects);
      }
    }
  }

  predicate Undisturbed(inputs: seq<Input<Elsewhere>>) {
    forall i :: 0 <= i < |inputs| ==> inputs[i].meanwhile.Nothing?
  }

  /** A relay nobody closed from elsewhere is closed only by having told its listeners. */
  lemma {:induction false} ClosedByItself(limit: int, inputs: seq<Input<Elsewhere>>)
    requires Undisturbed(inputs)
    ensures var turn := ReadAll(limit, inputs); turn.reader.closed ==> Count(turn.effects, CloseRelay) == 1
  {
    if inputs != [] {
      hide Read, Count;
      ClosedByItself(limit, inputs[..|inputs| - 1]);
      ReadAllKeeps(limit, inputs[..|inputs| - 1]);
      var before, input := ReadAll(limit, inputs[..|inputs| - 1]), inputs[|inputs| - 1];
      if before.verdict.GoOn? {
        ReadCloses(limit, before.reader, input.frame, before.effects);
      }
    }
  }

  lemma {:induction false} ReadCloses(limit: int, r: Reader, frame: Frame, effects: seq<Effect>)
    requires !r.closed && Count(effects, CloseRelay) <= 1 && (Count(effects, CloseRelay) == 1 ==> r.closed)
    ensures var turn := Read(limit, r, frame); turn.reader.closed ==> Count(effects + turn.effects, CloseRelay) == 1
  {
    hide Count, ParseFloat, Understood;
    var turn := Read(limit, r, frame);
    CountMore(effects, turn.effects, CloseRelay);
    CountOne(CloseRelay, CloseRelay);
  }

  lemma {:induction false} EndCounts(limit: int, effects: seq<Effect>, r: Reader)
    requires SoFar(limit, r, effects)
    ensures var all := effects + OnClose(r);
            && Count(all, WakeWaiters) == 1
            && Count(all, CloseRelay) == Count(effects, CloseRelay) + |CloseOnce(r)|
            && all[|all| - 2..] == [Unregister, ReleaseMemory]
            && (forall e :: e in all[..|all| - 2] ==> !Final(e))
            && HandsSound(limit, all)
  {
    hide Count;
    forall e | e == WakeWaiters || e == CloseRelay
      ensures Count(effects + OnClose(r), e) == Count(effects, e) + |if e == WakeWaiters then WakeOnce(r)
                else CloseOnce(r)|
    {
      CountMore(effects, OnClose(r), e);
      EndCount(r, e);
    }
    var all := effects + OnClose(r);
    assert all[..|all| - 2] == effects + (WakeOnce(r) + CloseOnce(r));
  }

  lemma {:induction false} EndCount(r: Reader, e: Effect)
    requires e == WakeWaiters || e == CloseRelay
    ensures Count(OnClose(r), e) == |if e == WakeWaiters then WakeOnce(r) else CloseOnce(r)|
  {
    hide Count;
    CountMore(WakeOnce(r) + CloseOnce(r), [Unregister, ReleaseMemory], e);
    CountMore(WakeOnce(r), CloseOnce(r), e);
    CountMore([Unregister], [ReleaseMemory], e);
    assert [Unregister] + [ReleaseMemory] == [Unregister, ReleaseMemory];
    CountOne(Unregister, e);
    CountOne(ReleaseMemory, e);
    CountOne(WakeWaiters, e);
    CountOne(CloseRelay, e);
  }

  /** Whatever arrives, and however the loop ends: waiters are woken exactly once, listeners are told to
      close at most once, and exactly once unless the relay was closed from elsewhere; then the relay is
      unregistered and its memory given back, once, after everything else. Fragments handed on are sound. */
  lemma {:induction false} RelayCleansUp(limit: int, inputs: seq<Input<Elsewhere>>, last: Elsewhere)
    ensures var effects := Life(limit, inputs, last);
            && Count(effects, WakeWaiters) == 1
            && Count(effects, CloseRelay) <= 1
            && (Undisturbed(inputs) && last.Nothing? ==> Count(effects, CloseRelay) == 1)
            && |effects| >= 2 && effects[|effects| - 2..] == [Unregister, ReleaseMemory]
            && (forall e :: e in effects[..|effects| - 2] ==> !Final(e))
            && HandsSound(limit, effects)
  {
    hide Count, HandsSound, Final;
    ReadAllKeeps(limit, inputs);
    var turn := ReadAll(limit, inputs);
    if Undisturbed(inputs) {
      ClosedByItself(limit, inputs);
    }
    EndCounts(limit, turn.effects, Touched(turn.reader, last));
  }

  // The inactivity check.

  /** Does the relay stop, given the listeners found by each check, the first with the warning as it is? */
  predicate Stops(warned: bool, checks: seq<nat>)
    decreases |checks|
  {
    checks != [] && ((checks[0] == 0 && warned) || Stops(warned || checks[0] == 0, checks[1..]))
  }

  /** It stops when two checks found no listeners, even if there were some in between. */
  lemma {:induction false} StopsAtSecondIdleCheck(checks: seq<nat>)
    ensures Stops(false, checks) <==> exists i, j :: 0 <= i < j < |checks| && checks[i] == checks[j] == 0
    ensures Stops(true, checks) <==> exists j :: 0 <= j < |checks| && checks[j] == 0
    decreases |checks|
  {
    if checks != [] {
      var rest := checks[1..];
      StopsAtSecondIdleCheck(rest);
      assert forall j :: 0 <= j < |rest| ==> rest[j] == checks[j + 1];
      assert forall j :: 0 < j < |checks| ==> checks[j] == rest[j - 1];
    }
  }
}
