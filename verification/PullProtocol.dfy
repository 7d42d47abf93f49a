/** A pulling connection of one server and the relay of another at the two ends of one websocket. */
module PullProtocol {
  import opened Floats
  import opened Fragments
  import opened Texts
  import opened Messages
  import opened Wire
  import opened Reading
  import opened RelayReader
  import S = PullSender

  /** Sound, and within the reader's limit; a fragment cut off counts by its duration. */
  predicate Readable(limit: int, log: seq<S.Item>) {
    forall i :: 0 <= i < |log| ==> ItemReadable(limit, log[i])
  }

  predicate ItemReadable(limit: int, item: S.Item) {
    match item
    case Whole(f) => Sound(f) && !TooLong(|f.data|, limit)
    case Torn(f) => !AtMostZero(f.duration)
    case _ => true
  }

  predicate Errorless(log: seq<S.Item>) {
    forall i :: 0 <= i < |log| && log[i].Noise? ==> log[i].message.kind != "E"
  }

  // Single frames, to a reader that waits for text.

  lemma {:induction false} TextTurn(limit: int, frame: Frame, message: Message, r: Reader)
    requires Delivered(frame, Says(message)) && KindOk(message.kind) && !r.expectedBinary
    ensures Read(limit, r, frame) == Heard(r, message)
  {
    hide Serialise, Heard, KindOk;
    WireIsFaithful(frame, Says(message));
  }

  lemma {:induction false} AnnouncedTurn(r: Reader, duration: Duration)
    requires !AtMostZero(duration)
    ensures Heard(r, MetadataMessage(duration)) == Turn(r.(current := Some(duration), expectedBinary := true), GoOn, [])
  {
    hide PrintFloat, ParseFloat;
    ParseInvertsPrint(duration);
  }

  lemma {:induction false} DataTurn(limit: int, frame: Frame, r: Reader, data: seq<Byte>)
    requires Delivered(frame, Data(data)) && r.expectedBinary && r.current.Some?
    requires data != [] && !TooLong(|data|, limit)
    ensures Read(limit, r, frame)
         == Turn(r.(expectedBinary := false, current := None), GoOn, [Hand(Fragment(r.current.value, data))])
  {}

  // Whole logs.

  predicate SaidBye(log: seq<S.Item>) {
    exists i :: 0 <= i < |log| && log[i].Bye?
  }

  predicate CutOff(log: seq<S.Item>) {
    log != [] && log[|log| - 1].Torn?
  }

  /** No error was sent, and nobody closed the relay from elsewhere. */
  predicate Calm(inputs: seq<Input<Elsewhere>>, log: seq<S.Item>) {
    Errorless(log) && forall i :: 0 <= i < |inputs| ==> !inputs[i].meanwhile.RelayClosed?
  }

  /** The reader has kept up with the log, or has ended; when all was calm, it ends at CLOSE only. */
  ghost predicate Followed(turn: Turn<Reader>, log: seq<S.Item>, calm: bool) {
    && NoComplaints(turn.effects) && !turn.verdict.Broken?
    && Handed(turn.effects) <= S.Wholes(log)
    && (turn.verdict.GoOn? ==> KeptUp(turn, log) && !SaidBye(log))
    && (calm ==> Handed(turn.effects) == S.Wholes(log) && (turn.verdict.GoOn? <==> !SaidBye(log)))
  }

  ghost predicate KeptUp(turn: Turn<Reader>, log: seq<S.Item>) {
    Handed(turn.effects) == S.Wholes(log) && (turn.reader.expectedBinary ==> CutOff(log))
  }

  lemma {:induction false} ByeMore(log: seq<S.Item>, item: S.Item)
    ensures SaidBye(log + [item]) <==> SaidBye(log) || item.Bye?
    ensures CutOff(log + [item]) <==> item.Torn?
    ensures Errorless(log + [item]) <==> Errorless(log) && (item.Noise? ==> item.message.kind != "E")
  {
    var more := log + [item];
    assert more[|log|] == item && forall i :: 0 <= i < |log| ==> more[i] == log[i];
  }

  /** What one frame of an item makes of a reader that waits for text. */
  lemma {:induction false} OneTurn(limit: int, r: Reader, frame: Frame, item: S.Item)
    requires !r.expectedBinary && !item.Whole? && Delivered(frame, S.ItemPackets(item)[0])
    requires ItemReadable(limit, item)
    requires item.Noise? ==> item.message.kind == "H" || item.message.kind == "E"
    ensures var turn := Read(limit, r, frame);
            && (turn.effects == [] || turn.effects == [WakeWaiters] || turn.effects == [CloseRelay])
            && (turn.reader.expectedBinary <==> item.Torn?)
            && turn.verdict == if item.Bye? || (item.Noise? && item.message.kind == "E") then Ended else GoOn
  {
    hide Read, Delivered, MetadataMessage, Announced;
    KindsOk(item);
    TextTurn(limit, frame, S.ItemPackets(item)[0].message, r);
    if item.Torn? {
      AnnouncedTurn(r, item.fragment.duration);
    }
  }

  /** One frame of one item, read by a reader that kept up. */
  lemma {:induction false} OneFrame(limit: int, before: Turn<Reader>, input: Input<Elsewhere>, log: seq<S.Item>,
                                    item: S.Item, calm: bool)
    requires Followed(before, log, calm) && before.verdict.GoOn? && !CutOff(log)
    requires !item.Whole? && |S.ItemPackets(item)| == 1 && Delivered(input.frame, S.ItemPackets(item)[0])
    requires ItemReadable(limit, item)
    requires item.Noise? ==> item.message.kind == "H" || item.message.kind == "E"
    ensures Followed(After(limit, before, input), log + [item],
                     calm && !input.meanwhile.RelayClosed? && (item.Noise? ==> item.message.kind != "E"))
  {
    hide Read, Handed, Delivered, S.Wholes, SaidBye, CutOff, S.ItemPackets, ItemReadable;
    ByeMore(log, item);
    S.LogGrows(log, item);
    OneTurn(limit, before.reader, input.frame, item);
    var more := Read(limit, before.reader, input.frame).effects;
    HandedMore(before.effects, more);
    assert Handed(before.effects) + [] == Handed(before.effects) && S.Wholes(log) + [] == S.Wholes(log);
  }

  lemma {:induction false} KindsOk(item: S.Item)
    requires !item.Whole?
    requires item.Noise? ==> item.message.kind == "H" || item.message.kind == "E"
    ensures KindOk(S.ItemPackets(item)[0].message.kind)
    ensures item.Torn? ==> S.ItemPackets(item)[0].message == MetadataMessage(item.fragment.duration)
  {}

  /** The two frames of one fragment, read by a reader that kept up. */
  lemma {:induction false} TwoFrames(limit: int, before: Turn<Reader>, text: Input<Elsewhere>,
                                     binary: Input<Elsewhere>, log: seq<S.Item>, f: Fragment, calm: bool)
    requires Followed(before, log, calm) && before.verdict.GoOn? && !CutOff(log)
    requires Delivered(text.frame, Says(MetadataMessage(f.duration))) && Delivered(binary.frame, Data(f.data))
    requires ItemReadable(limit, S.Whole(f))
    ensures Followed(After(limit, After(limit, before, text), binary), log + [S.Whole(f)],
                     calm && !text.meanwhile.RelayClosed? && !binary.meanwhile.RelayClosed?)
  {
    hide Read, Handed, Delivered, S.Wholes, SaidBye, CutOff, MetadataMessage, Announced, TooLong;
    ByeMore(log, S.Whole(f));
    S.LogGrows(log, S.Whole(f));
    TextTurn(limit, text.frame, MetadataMessage(f.duration), before.reader) by { KindsOk(S.Torn(f)); }
    AnnouncedTurn(before.reader, f.duration);
    var expecting := before.reader.(current := Some(f.duration), expectedBinary := true);
    DataTurn(limit, binary.frame, expecting, f.data);
    assert before.effects + [] == before.effects;
    HandedMore(before.effects, [Hand(f)]);
  }

  /** Frames that a reader no longer reads. */
  lemma {:induction false} Unread(turn: Turn<Reader>, log: seq<S.Item>, item: S.Item, calm: bool, still: bool)
    requires Followed(turn, log, calm) && !turn.verdict.GoOn?
    requires S.LogOk(log + [item])
    requires still ==> calm
    ensures Followed(turn, log + [item], still)
  {
    hide Handed, S.Wholes, SaidBye, CutOff, S.LogOk;
    ByeMore(log, item);
    S.LogGrows(log, item);
    assert S.Wholes(log) + [] == S.Wholes(log);
    if still {
      NothingAfterBye(log, item);
    }
  }

  lemma {:induction false} QuietHas(log: seq<S.Item>, i: nat)
    requires i < |log| && !log[i].Noise?
    ensures log[i] in S.Quiet(log)
  {
    if i < |log| - 1 {
      QuietHas(log[..|log| - 1], i);
    }
  }

  lemma {:induction false} NothingAfterBye(log: seq<S.Item>, item: S.Item)
    requires S.LogOk(log + [item]) && SaidBye(log)
    ensures item.Noise?
  {
    hide S.Quiet;
    S.LogGrows(log, item);
    var i :| 0 <= i < |log| && log[i].Bye?;
    QuietHas(log, i);
    var k :| 0 <= k < |S.Quiet(log)| && S.Quiet(log)[k] == log[i];
    var quiet := S.Quiet(log + [item]);
    assert quiet[k] == log[i];
  }

  lemma {:induction false} LogFront(log: seq<S.Item>, item: S.Item)
    requires S.LogOk(log + [item])
    ensures S.LogOk(log) && !CutOff(log)
    ensures item.Noise? ==> item.message.kind == "H" || item.message.kind == "E"
  {
    hide S.Quiet;
    var more := log + [item];
    S.LogGrows(log, item);
    assert more[|log|] == item && forall i :: 0 <= i < |log| ==> more[i] == log[i];
    if item.Noise? {
      assert S.Quiet(log) + [] == S.Quiet(log);
    } else {
      RegularFront(S.Quiet(log), item);
    }
  }

  lemma {:induction false} RegularFront(quiet: seq<S.Item>, item: S.Item)
    requires S.Regular(quiet + [item])
    ensures S.Regular(quiet)
  {
    var more := quiet + [item];
    assert forall i :: 0 <= i < |quiet| ==> more[i] == quiet[i];
  }

  lemma {:induction false} ReadOneMore(limit: int, inputs: seq<Input<Elsewhere>>)
    requires inputs != []
    ensures ReadAll(limit, inputs) == After(limit, ReadAll(limit, inputs[..|inputs| - 1]), inputs[|inputs| - 1])
  {}

  lemma {:induction false} CalmMore(inputs: seq<Input<Elsewhere>>, k: nat, log: seq<S.Item>, item: S.Item)
    requires k <= |inputs|
    ensures Calm(inputs, log + [item]) <==>
              && Calm(inputs[..k], log) && (item.Noise? ==> item.message.kind != "E")
              && forall i :: k <= i < |inputs| ==> !inputs[i].meanwhile.RelayClosed?
  {
    hide Errorless;
    ByeMore(log, item);
    assert forall i :: 0 <= i < k ==> inputs[..k][i] == inputs[i];
  }

  /** The last item of a log, when the reader was still reading. */
  lemma {:induction false} LastIsFollowed(limit: int, inputs: seq<Input<Elsewhere>>, front: seq<S.Item>, last: S.Item)
    requires Delivers(inputs, S.Render(front) + S.ItemPackets(last))
    requires var before := ReadAll(limit, inputs[..|S.Render(front)|]);
             Followed(before, front, Calm(inputs[..|S.Render(front)|], front)) && before.verdict.GoOn?
    requires S.LogOk(front + [last]) && ItemReadable(limit, last)
    ensures Followed(ReadAll(limit, inputs), front + [last], Calm(inputs, front + [last]))
  {
    hide *;
    var m := |S.Render(front)|;
    DeliversSplit(inputs, S.Render(front), S.ItemPackets(last));
    LogFront(front, last);
    CalmMore(inputs, m, front, last);
    ItemSize(last);
    assert Delivered(inputs[m].frame, S.ItemPackets(last)[0]);
    if last.Whole? {
      assert Delivered(inputs[m + 1].frame, S.ItemPackets(last)[1]);
      FragmentFollows(limit, inputs, m, front, last.fragment);
    } else {
      OneFrame(limit, ReadAll(limit, inputs[..m]), inputs[m], front, last, Calm(inputs[..m], front));
      ReadOneMore(limit, inputs);
    }
  }

  lemma {:induction false} ItemSize(item: S.Item)
    ensures |S.ItemPackets(item)| == if item.Whole? then 2 else 1
    ensures item.Whole? ==>
              S.ItemPackets(item) == [Says(MetadataMessage(item.fragment.duration)), Data(item.fragment.data)]
  {}

  lemma {:induction false} FragmentFollows(limit: int, inputs: seq<Input<Elsewhere>>, m: nat, front: seq<S.Item>,
                                           f: Fragment)
    requires |inputs| == m + 2
    requires Followed(ReadAll(limit, inputs[..m]), front, Calm(inputs[..m], front)) &&
              ReadAll(limit, inputs[..m]).verdict.GoOn?
    requires Delivered(inputs[m].frame, Says(MetadataMessage(f.duration))) &&
              Delivered(inputs[m + 1].frame, Data(f.data))
    requires ItemReadable(limit, S.Whole(f)) && !CutOff(front)
    ensures Followed(ReadAll(limit, inputs), front + [S.Whole(f)],
                     Calm(inputs[..m], front) && !inputs[m].meanwhile.RelayClosed? &&
                       !inputs[m + 1].meanwhile.RelayClosed?)
  {
    hide *;
    TwoFrames(limit, ReadAll(limit, inputs[..m]), inputs[m], inputs[m + 1], front, f, Calm(inputs[..m], front));
    ReadOneMore(limit, inputs);
    ReadOneMore(limit, inputs[..m + 1]);
    assert inputs[..m + 1][..m] == inputs[..m];
  }

  lemma {:induction false} StopIsFinal(limit: int, inputs: seq<Input<Elsewhere>>, n: nat)
    requires n <= |inputs| && !ReadAll(limit, inputs[..n]).verdict.GoOn?
    ensures ReadAll(limit, inputs) == ReadAll(limit, inputs[..n])
  {
    ReadingStops(limit, inputs, n);
  }

  lemma {:induction false} NothingFollowed(limit: int)
    ensures Followed(ReadAll(limit, []), [], Calm([], []))
  {}

  lemma {:induction false} LogIsFollowed(limit: int, inputs: seq<Input<Elsewhere>>, log: seq<S.Item>)
    requires Delivers(inputs, S.Render(log)) && S.LogOk(log) && Readable(limit, log)
    ensures Followed(ReadAll(limit, inputs), log, Calm(inputs, log))
    decreases |log|
  {
    hide ReadAll, Followed, Delivered, S.LogOk, Calm, ItemReadable;
    if log == [] {
      NothingFollowed(limit);
      assert inputs == [];
    } else {
      var front, last := log[..|log| - 1], log[|log| - 1];
      assert log == front + [last];
      var m := |S.Render(front)|;
      LogFront(front, last);
      DeliversSplit(inputs, S.Render(front), S.ItemPackets(last));
      LogIsFollowed(limit, inputs[..m], front);
      if ReadAll(limit, inputs[..m]).verdict.GoOn? {
        LastIsFollowed(limit, inputs, front, last);
      } else {
        StopIsFinal(limit, inputs, m);
        CalmMore(inputs, m, front, last);
        Unread(ReadAll(limit, inputs[..m]), front, last, Calm(inputs[..m], front), Calm(inputs, log));
      }
    }
  }

  /** The pulling connection at one end, the relay at the other, and a socket that may break off at any
      frame: for sound fragments within the limit the relay never complains, and hands on a prefix of the
      fragments sent whole; all of them once it read everything, unless an error or a close came first. */
  lemma {:induction false} ServerAndRelayCompose(steps: seq<S.Step>, limit: int, inputs: seq<Input<Elsewhere>>, n: nat)
    requires var s := S.Run(steps); Delivers(inputs, s.line.out) && Readable(limit, s.log)
    requires n <= |inputs|
    ensures var s, turn := S.Run(steps), ReadAll(limit, inputs[..n]);
            && NoComplaints(turn.effects) && !turn.verdict.Broken?
            && Handed(turn.effects) <= S.Wholes(s.log)
            && (n == |inputs| && Calm(inputs, s.log) ==>
                  && Handed(turn.effects) == S.Wholes(s.log)
                  && (turn.verdict.Ended? <==> SaidBye(s.log)))
  {
    hide S.Run, S.Render, S.Wholes, S.LogOk, ReadAll, Handed, Readable, Delivers, Calm, SaidBye;
    S.RunKeeps(steps);
    var s := S.Run(steps);
    LogIsFollowed(limit, inputs, s.log);
    ReadingStops(limit, inputs, n);
    HandedPrefix(ReadAll(limit, inputs[..n]).effects, ReadAll(limit, inputs).effects);
    assert inputs[..|inputs|] == inputs;
  }
}
