/** What every reader of frames has in common: its input, its verdict, and what it asks of the rest of
    its server (server/connection.go, server/relay.go). */
module Reading {
  import opened Fragments
  import opened Texts
  import opened Messages
  import opened Wire

  /** One frame, and what happens elsewhere while it is handled. */
  datatype Input<W> = Input(frame: Frame, meanwhile: W)

  datatype ErrorCode = PROTOCOL_ERROR | AUTH_ERROR | PUSH_ERROR | FRAGMENT_METADATA_ERROR

  datatype Provider = Source | Relay

  datatype Effect =
    | Reply(message: Message)
    | Complain(code: ErrorCode)
    | Hand(fragment: Fragment)
    | OpenSource(streamId: Text)
    | ReleaseSource(streamId: Text)
    | StartPull(streamId: Text, provider: Provider, maxInitialFragments: int)
    | StopPull
    | WakeWaiters
    | CloseRelay
    | Unregister
    | ReleaseMemory

  /** After Ended and Broken nothing more is read; Broken is an error the peer made, or a refusal. */
  datatype Verdict = GoOn | Ended | Broken

  datatype Turn<R> = Turn(reader: R, verdict: Verdict, effects: seq<Effect>)

  function Refuse<R>(r: R, code: ErrorCode): Turn<R> {
    Turn(r, Broken, [Complain(code)])
  }

  /** What a reader that waits for data makes of a frame, for a fragment of the duration announced: it refuses
      texts and empty data, and gives up on what is too long. `done` is its state when it has the data. */
  function TakeData<R>(limit: int, r: R, done: R, duration: Duration, frame: Frame): Turn<R> {
    if TooLong(Size(frame), limit) then Turn(r, Broken, [])
    else match frame
      case TextFrame(_) => Refuse(r, PROTOCOL_ERROR)
      case BinaryFrame(data) =>
        if data == [] then Refuse(r, PROTOCOL_ERROR) else Turn(done, GoOn, [Hand(Fragment(duration, data))])
  }

  /** A stop is final; otherwise effects add up. */
  function Continue<R>(before: Turn<R>, turn: Turn<R>): Turn<R> {
    if before.verdict.GoOn? then turn.(effects := before.effects + turn.effects) else before
  }

  /** The fragments given to AddFragment, in order. */
  function Handed(effects: seq<Effect>): seq<Fragment> {
    if effects == [] then []
    else
      var last := effects[|effects| - 1];
      Handed(effects[..|effects| - 1]) + if last.Hand? then [last.fragment] else []
  }

  predicate NoComplaints(effects: seq<Effect>) {
    forall e :: e in effects ==> !e.Complain?
  }

  lemma {:induction false} HandedMore(effects: seq<Effect>, more: seq<Effect>)
    requires |more| <= 1
    ensures Handed(effects + more) == Handed(effects) + if more != [] && more[0].Hand? then [more[0].fragment] else []
  {
    if more == [] {
      assert effects + more == effects;
    } else {
      assert (effects + more)[..|effects|] == effects;
    }
  }

  lemma {:induction false} NothingHanded()
    ensures Handed([]) == []
  {}

  lemma {:induction false} HandedPrefix(part: seq<Effect>, whole: seq<Effect>)
    requires part <= whole
    ensures Handed(part) <= Handed(whole)
    decreases |whole|
  {
    if |part| == |whole| {
      assert part == whole;
    } else {
      HandedPrefix(part, whole[..|whole| - 1]);
    }
  }

  /** The frames of `inputs` carry `packets`, in texts short enough to be read. */
  ghost predicate Delivers<W>(inputs: seq<Input<W>>, packets: seq<Packet>) {
    && |inputs| == |packets|
    && forall i :: 0 <= i < |packets| ==> Delivered(inputs[i].frame, packets[i])
  }

  lemma {:induction false} DeliversSplit<W>(inputs: seq<Input<W>>, a: seq<Packet>, b: seq<Packet>)
    requires Delivers(inputs, a + b)
    ensures Delivers(inputs[..|a|], a) && |inputs| == |a| + |b|
    ensures forall j :: 0 <= j < |b| ==> Delivered(inputs[|a| + j].frame, b[j])
  {
    hide Delivered;
    forall i | 0 <= i < |a| ensures Delivered(inputs[..|a|][i].frame, a[i]) {
      assert (a + b)[i] == a[i];
    }
    forall j | 0 <= j < |b| ensures Delivered(inputs[|a| + j].frame, b[j]) {
      assert (a + b)[|a| + j] == b[j];
    }
  }
}
