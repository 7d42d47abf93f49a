/** The writing side of a pulling connection: its three threads share one socket
    (server/connection.go, server/stream_pull.go). */
module PullSender {
  import opened Sequences
  import opened Fragments
  import opened Texts
  import opened Messages
  import opened Wire
  import opened StreamPull

  /** Nothing is written once the connection is marked closed or its socket is gone. */
  datatype Line = Line(closed: bool, open: bool, out: seq<Packet>)

  predicate Dead(line: Line) {
    line.closed || !line.open
  }

  function Write(line: Line, packets: seq<Packet>): Line {
    if Dead(line) then line else line.(out := line.out + packets)
  }

  function WriteClose(line: Line): Line {
    if line.closed then line else Write(line, [Says(CloseMessage())]).(open := false)
  }

  function WriteFragments(line: Line, fragments: seq<Fragment>): Line {
    if fragments == [] then line
    else Write(WriteFragments(line, fragments[..|fragments| - 1]), FragmentPackets(fragments[|fragments| - 1]))
  }

  /** What the pulling loop finds at each select. */
  datatype Choice = Received(event: Event) | Interrupted

  /** The loop over the channel, until it is closed, interrupted, or left waiting. */
  function Pump(line: Line, choices: seq<Choice>): Line
    decreases |choices|
  {
    if choices == [] || choices[0].Interrupted? then line
    else match choices[0].event
      case CloseEvent => WriteClose(line)
      case FragmentEvent(fragment) => Pump(Write(line, FragmentPackets(fragment)), choices[1..])
  }

  class ConnectionHandler {
    var closed: bool
    var open: bool
    var out: seq<Packet>

    ghost function State(): Line
      reads this
    {
      Line(closed, open, out)
    }

    constructor ()
      ensures State() == Line(false, true, [])
    {
      closed, open, out := false, true, [];
    }

    method WriteMessage(packet: Packet)
      modifies this`out
      ensures out == if open then old(out) + [packet] else old(out)
    {
      if open {
        out := out + [packet];
      }
    }

    method Send(message: Message)
      modifies this
      ensures State() == Write(old(State()), [Says(message)])
    {
      if closed {
        return;
      }
      WriteMessage(Says(message));
    }

    method SendFragment(fragment: Fragment)
      modifies this
      ensures State() == Write(old(State()), FragmentPackets(fragment))
    {
      if closed {
        return;
      }
      WriteMessage(Says(MetadataMessage(fragment.duration)));
      WriteMessage(Data(fragment.data));
    }

    method SendClose()
      modifies this
      ensures State() == WriteClose(old(State()))
    {
      if closed {
        return;
      }
      WriteMessage(Says(CloseMessage()));
      open := false;
    }

    /** Faults when the start index is negative. */
    method PullStream(initialFragments: seq<Fragment>, maxInitialFragments: int,
                      choices: seq<Choice>) returns (fault: bool)
      modifies this
      ensures fault <==> InitialSends(initialFragments, maxInitialFragments).None?
      ensures State() ==
              if fault then old(State())
              else Pump(WriteFragments(old(State()), InitialSends(initialFragments, maxInitialFragments).value),
                choices)
    {
      hide FragmentPackets;
      var max := maxInitialFragments;
      if max < 0 {
        max := |initialFragments|;
      }
      var start := |initialFragments| - max;
      if start < 0 {
        return true;
      }
      ghost var before := State();
      for i := start to |initialFragments|
        invariant State() == WriteFragments(before, initialFragments[start..i])
      {
        SendFragment(initialFragments[i]);
        assert initialFragments[start..i + 1][..i - start] == initialFragments[start..i];
      }
      assert initialFragments[start..|initialFragments|] == initialFragments[start..];
      ghost var ready := State();
      for i := 0 to |choices|
        invariant Pump(State(), choices[i..]) == Pump(ready, choices)
      {
        assert choices[i..][1..] == choices[i + 1..];
        match choices[i] {
          case Interrupted =>
            return false;
          case Received(event) =>
            match event {
              case CloseEvent =>
                SendClose();
                return false;
              case FragmentEvent(fragment) =>
                SendFragment(fragment);
            }
        }
      }
      return false;
    }
  }

  // All runs: reader, heartbeat and pulling thread, one critical section at a time.

  /** Where the answer to PULL stands. */
  datatype Stage =
    | Unanswered
    | Joining
    | Streaming(pending: seq<Fragment>)
    | Empty
    | Finished

  /** What was written, told again. Errors and heartbeats are noise; a socket can go between the
      metadata of a fragment and its data. */
  datatype Item = Noise(message: Message) | Ok | Whole(fragment: Fragment) | Torn(fragment: Fragment) | Bye

  /** `taken` are the fragments of the snapshot share and of the events received. */
  datatype System = System(line: Line, stage: Stage, log: seq<Item>, taken: seq<Fragment>)

  const START := System(Line(false, true, []), Unanswered, [], [])

  datatype Step =
    | Answer
    | AnswerEmpty
    | FinishEmpty
    | Join(initial: seq<Fragment>)
    | JoinClosed
    | SendInitial(torn: bool)
    | Receive(event: Event, torn: bool)
    | Interrupt
    | Heartbeat
    | Complain(code: Text, message: Text)
    | LoseSocket
    | MarkClosed

  predicate Enabled(s: System, step: Step) {
    match step
    case Answer => s.stage.Unanswered?
    case AnswerEmpty => s.stage.Unanswered?
    case FinishEmpty => s.stage.Empty?
    case Join(_) => s.stage.Joining?
    case JoinClosed => s.stage.Joining?
    case SendInitial(_) => s.stage.Streaming? && s.stage.pending != []
    case Receive(_, _) => s.stage.Streaming? && s.stage.pending == []
    case Interrupt => s.stage.Streaming? && s.stage.pending == []
    case _ => true
  }

  /** Writes what `item` stands for, and remembers it if it got out. */
  function Emit(s: System, packets: seq<Packet>, item: Item): System {
    s.(line := Write(s.line, packets), log := if Dead(s.line) then s.log else s.log + [item])
  }

  function EmitFragment(s: System, fragment: Fragment, torn: bool): System {
    if !torn then Emit(s, FragmentPackets(fragment), Whole(fragment))
    else
      var after := Emit(s, [Says(MetadataMessage(fragment.duration))], Torn(fragment));
      after.(line := after.line.(open := false))
  }

  function EmitClose(s: System): System {
    var after := Emit(s, [Says(CloseMessage())], Bye);
    after.(line := WriteClose(s.line), stage := Finished)
  }

  function Apply(s: System, step: Step): System
    requires Enabled(s, step)
  {
    match step
    case Answer => Emit(s, [Says(OkMessage())], Ok).(stage := Joining)
    case AnswerEmpty => Emit(s, [Says(OkMessage())], Ok).(stage := Empty)
    case FinishEmpty => Emit(s, [Says(CloseMessage())], Bye).(stage := Finished)
    case Join(initial) => s.(stage := Streaming(initial), taken := initial)
    case JoinClosed => EmitClose(s)
    case SendInitial(torn) =>
      EmitFragment(s, s.stage.pending[0], torn).(stage := Streaming(s.stage.pending[1..]))
    case Receive(event, torn) =>
      (match event
       case CloseEvent => EmitClose(s)
       case FragmentEvent(fragment) => EmitFragment(s, fragment, torn).(taken := s.taken + [fragment]))
    case Interrupt => s.(stage := Finished)
    case Heartbeat => Emit(s, [Says(HeartbeatMessage())], Noise(HeartbeatMessage()))
    case Complain(code, message) => Emit(s, [Says(ErrorMessage(code, message))], Noise(ErrorMessage(code, message)))
    case LoseSocket => s.(line := s.line.(open := false))
    case MarkClosed => s.(line := s.line.(closed := true))
  }

  function Run(steps: seq<Step>): System {
    if steps == [] then START
    else
      var s, step := Run(steps[..|steps| - 1]), steps[|steps| - 1];
      if Enabled(s, step) then Apply(s, step) else s
  }

  // The invariant.

  function ItemPackets(item: Item): seq<Packet> {
    match item
    case Noise(message) => [Says(message)]
    case Ok => [Says(OkMessage())]
    case Whole(fragment) => FragmentPackets(fragment)
    case Torn(fragment) => [Says(MetadataMessage(fragment.duration))]
    case Bye => [Says(CloseMessage())]
  }

  function Render(log: seq<Item>): seq<Packet> {
    if log == [] then [] else Render(log[..|log| - 1]) + ItemPackets(log[|log| - 1])
  }

  /** The log without its noise. */
  function Quiet(log: seq<Item>): seq<Item> {
    if log == [] then []
    else Quiet(log[..|log| - 1]) + if log[|log| - 1].Noise? then [] else [log[|log| - 1]]
  }

  function Wholes(log: seq<Item>): seq<Fragment> {
    if log == [] then []
    else Wholes(log[..|log| - 1]) + if log[|log| - 1].Whole? then [log[|log| - 1].fragment] else []
  }

  /** OK (F binary)*, then at most one CLOSE or one fragment cut off. */
  ghost predicate Regular(quiet: seq<Item>) {
    quiet != [] ==>
      && quiet[0].Ok?
      && (forall i :: 1 <= i < |quiet| - 1 ==> quiet[i].Whole?)
      && (|quiet| > 1 ==> !quiet[|quiet| - 1].Ok?)
  }

  predicate NoiseIsNoise(log: seq<Item>) {
    forall i :: 0 <= i < |log| && log[i].Noise? ==> log[i].message.kind == "H" || log[i].message.kind == "E"
  }

  /** A fragment is cut off only at the very end. */
  ghost predicate TornLast(log: seq<Item>) {
    forall i :: 0 <= i < |log| - 1 ==> !log[i].Torn?
  }

  ghost predicate LogOk(log: seq<Item>) {
    Regular(Quiet(log)) && NoiseIsNoise(log) && TornLast(log)
  }

  predicate Unfinished(quiet: seq<Item>) {
    quiet == [] || quiet[|quiet| - 1].Ok? || quiet[|quiet| - 1].Whole?
  }

  predicate JustOk(quiet: seq<Item>) {
    quiet == [Ok]
  }

  /** While the line is up the log tells how far the answer has come. */
  ghost predicate StageOk(s: System) {
    match s.stage
    case Unanswered => Quiet(s.log) == [] && s.taken == []
    case Joining => JustOk(Quiet(s.log)) && s.taken == []
    case Empty => JustOk(Quiet(s.log)) && s.taken == []
    case Streaming(pending) =>
      Quiet(s.log) != [] && Unfinished(Quiet(s.log)) && Wholes(s.log) + pending == s.taken
    case Finished => Wholes(s.log) == s.taken
  }

  ghost predicate Inv(s: System) {
    && s.line.out == Render(s.log)
    && LogOk(s.log)
    && Wholes(s.log) <= s.taken
    && (s.stage.Streaming? ==> |Wholes(s.log)| + |s.stage.pending| <= |s.taken|)
    && (s.stage.Unanswered? || s.stage.Joining? || s.stage.Empty? ==> Wholes(s.log) == [])
    && (s.log != [] && s.log[|s.log| - 1].Torn? ==> Dead(s.line))
    && (!Dead(s.line) ==> StageOk(s))
  }

  lemma {:induction false} LogGrows(log: seq<Item>, item: Item)
    ensures Render(log + [item]) == Render(log) + ItemPackets(item)
    ensures Quiet(log + [item]) == Quiet(log) + if item.Noise? then [] else [item]
    ensures Wholes(log + [item]) == Wholes(log) + if item.Whole? then [item.fragment] else []
  {
    assert (log + [item])[..|log|] == log;
  }

  lemma {:induction false} RegularGrows(quiet: seq<Item>, item: Item)
    requires Regular(quiet) && !item.Noise?
    requires if quiet == [] then item.Ok? else !item.Ok? && Unfinished(quiet)
    ensures Regular(quiet + [item])
  {}

  lemma {:induction false} NoiseGrows(log: seq<Item>, item: Item)
    requires NoiseIsNoise(log) && (item.Noise? ==> item.message.kind == "H" || item.message.kind == "E")
    ensures NoiseIsNoise(log + [item])
  {}

  lemma {:induction false} TornGrows(log: seq<Item>, item: Item)
    requires TornLast(log) && (log == [] || !log[|log| - 1].Torn?)
    ensures TornLast(log + [item])
  {}

  lemma {:induction false} LogOkGrows(log: seq<Item>, item: Item)
    requires LogOk(log) && (log == [] || !log[|log| - 1].Torn?)
    requires item.Noise? ==> item.message.kind == "H" || item.message.kind == "E"
    requires !item.Noise? ==> if Quiet(log) == [] then item.Ok? else !item.Ok? && Unfinished(Quiet(log))
    ensures LogOk(log + [item])
  {
    hide Quiet, Regular, Unfinished, NoiseIsNoise, TornLast;
    LogGrows(log, item);
    NoiseGrows(log, item);
    TornGrows(log, item);
    if item.Noise? {
      assert Quiet(log) + [] == Quiet(log);
    } else {
      RegularGrows(Quiet(log), item);
    }
  }

  /** One item more on a live line; the stage is settled by the caller. */
  lemma {:induction false} EmitKeeps(s: System, item: Item)
    requires Inv(s) && !Dead(s.line)
    requires item.Noise? ==> item.message.kind == "H" || item.message.kind == "E"
    requires !item.Noise? ==> if Quiet(s.log) == [] then item.Ok? else !item.Ok? && Unfinished(Quiet(s.log))
    ensures var after := Emit(s, ItemPackets(item), item);
            after.line.out == Render(after.log) && LogOk(after.log) && !Dead(after.line)
  {
    hide Quiet, Regular, Unfinished, StageOk, Render, LogOk, ItemPackets, Wholes;
    LogGrows(s.log, item);
    LogOkGrows(s.log, item);
  }

  /** On a dead line nothing more is written, whatever the threads still do. */
  lemma {:induction false} DeadStepKeeps(s: System, step: Step)
    requires Inv(s) && Enabled(s, step) && Dead(s.line)
    ensures Inv(Apply(s, step))
  {
    hide Render, LogOk, Wholes, StageOk;
  }

  lemma {:induction false} AnswerKeeps(s: System, step: Step)
    requires Inv(s) && Enabled(s, step) && !Dead(s.line) && (step.Answer? || step.AnswerEmpty?)
    ensures Inv(Apply(s, step))
  {
    hide Render, LogOk, Wholes, Quiet;
    EmitKeeps(s, Ok);
    LogGrows(s.log, Ok);
    assert [] + [Ok] == [Ok];
    assert Wholes(s.log) + [] == Wholes(s.log);
  }

  /** One fragment on a live line, whole or cut off, and what is left of the stream after it. */
  lemma {:induction false} FragmentOut(s: System, fragment: Fragment, torn: bool, pending: seq<Fragment>,
                                       taken: seq<Fragment>)
    requires Inv(s) && !Dead(s.line) && s.stage.Streaming?
    requires taken == Wholes(s.log) + [fragment] + pending
    ensures Inv(EmitFragment(s, fragment, torn).(stage := Streaming(pending), taken := taken))
  {
    hide Render, LogOk, Wholes, Quiet, FragmentPackets;
    var item := if torn then Torn(fragment) else Whole(fragment);
    EmitKeeps(s, item);
    LogGrows(s.log, item);
    assert Wholes(s.log) + [] == Wholes(s.log);
    assert Wholes(s.log) <= taken && Wholes(s.log) + [fragment] <= taken;
  }

  lemma {:induction false} FragmentKeeps(s: System, step: Step)
    requires Inv(s) && Enabled(s, step) && !Dead(s.line)
    requires step.SendInitial? || (step.Receive? && step.event.FragmentEvent?)
    ensures Inv(Apply(s, step))
  {
    if step.SendInitial? {
      var pending := s.stage.pending;
      assert [pending[0]] + pending[1..] == pending;
      assert Wholes(s.log) + ([pending[0]] + pending[1..]) == Wholes(s.log) + [pending[0]] + pending[1..];
      FragmentOut(s, pending[0], step.torn, pending[1..], s.taken);
      hide Inv;
    } else {
      var fragment, none: seq<Fragment> := step.event.fragment, [];
      assert s.stage.pending == none && Wholes(s.log) + none == Wholes(s.log);
      assert s.taken + [fragment] == Wholes(s.log) + [fragment] + none;
      FragmentOut(s, fragment, step.torn, none, s.taken + [fragment]);
      hide Inv;
    }
  }

  lemma {:induction false} CloseKeeps(s: System, step: Step)
    requires Inv(s) && Enabled(s, step) && !Dead(s.line)
    requires step.JoinClosed? || step.FinishEmpty? || (step.Receive? && step.event.CloseEvent?)
    ensures Inv(Apply(s, step))
  {
    hide Render, LogOk, Wholes, Quiet;
    EmitKeeps(s, Bye);
    LogGrows(s.log, Bye);
    assert Wholes(s.log) + [] == Wholes(s.log);
  }

  lemma {:induction false} NoiseKeeps(s: System, step: Step)
    requires Inv(s) && Enabled(s, step) && !Dead(s.line) && (step.Heartbeat? || step.Complain?)
    ensures Inv(Apply(s, step))
  {
    hide Render, LogOk, Wholes, Quiet;
    var item := Noise(if step.Heartbeat? then HeartbeatMessage() else ErrorMessage(step.code, step.message));
    EmitKeeps(s, item);
    LogGrows(s.log, item);
    assert Wholes(s.log) + [] == Wholes(s.log);
    assert Quiet(s.log) + [] == Quiet(s.log);
  }

  lemma {:induction false} SilentKeeps(s: System, step: Step)
    requires Inv(s) && Enabled(s, step) && !Dead(s.line)
    requires step.Join? || step.Interrupt? || step.LoseSocket? || step.MarkClosed?
    ensures Inv(Apply(s, step))
  {
    hide Render, LogOk, Wholes, Quiet;
    assert Wholes(s.log) + [] == Wholes(s.log);
    if step.Join? {
      assert [] + step.initial == step.initial;
    }
  }

  lemma {:induction false} RunKeeps(steps: seq<Step>)
    ensures Inv(Run(steps))
  {
    if steps != [] {
      hide Inv, Apply;
      RunKeeps(steps[..|steps| - 1]);
      var s, step := Run(steps[..|steps| - 1]), steps[|steps| - 1];
      if Enabled(s, step) {
        if Dead(s.line) {
          DeadStepKeeps(s, step);
        } else {
          match step {
            case Answer => AnswerKeeps(s, step);
            case AnswerEmpty => AnswerKeeps(s, step);
            case FinishEmpty => CloseKeeps(s, step);
            case JoinClosed => CloseKeeps(s, step);
            case SendInitial(_) => FragmentKeeps(s, step);
            case Receive(event, _) => if event.CloseEvent? { CloseKeeps(s, step); } else { FragmentKeeps(s, step); }
            case Heartbeat => NoiseKeeps(s, step);
            case Complain(_, _) => NoiseKeeps(s, step);
            case Join(_) => SilentKeeps(s, step);
            case Interrupt => SilentKeeps(s, step);
            case LoseSocket => SilentKeeps(s, step);
            case MarkClosed => SilentKeeps(s, step);
          }
        }
      }
    }
  }

  /** Whatever the threads do, in whatever order, and wherever the socket breaks: without heartbeats and
      errors, a pulling connection writes OK (F binary)*, then at most one CLOSE or a fragment cut off.
      It writes what it takes, in order, and all of it as long as the line is up. */
  lemma {:induction false} OutputIsRegular(steps: seq<Step>)
    ensures var s := Run(steps);
            && s.line.out == Render(s.log) && Regular(Quiet(s.log)) && NoiseIsNoise(s.log)
            && Wholes(s.log) <= s.taken
            && (!Dead(s.line) && (s.stage.Finished? || s.stage == Streaming([])) ==> Wholes(s.log) == s.taken)
  {
    hide Run, Regular, Render, Quiet, Wholes, NoiseIsNoise;
    RunKeeps(steps);
    var s := Run(steps);
    assert Wholes(s.log) + [] == Wholes(s.log);
  }

  // What one call of PullStream writes, said without its loops.

  lemma {:induction false} SharesAreFlushed(line: Line, fragments: seq<Fragment>)
    requires !Dead(line)
    ensures WriteFragments(line, fragments) == line.(out := line.out + Flush(fragments))
  {
    if fragments == [] {
      assert line.out + [] == line.out;
    } else {
      hide FragmentPackets;
      SharesAreFlushed(line, fragments[..|fragments| - 1]);
      Regroup(line.out, Flush(fragments[..|fragments| - 1]), FragmentPackets(fragments[|fragments| - 1]));
    }
  }

  predicate IsStop(choice: Choice) {
    choice.Interrupted? || choice.event.CloseEvent?
  }

  /** The loop stops at choice `n`: the first that is an interrupt or a CLOSE, or the end of what is known. */
  ghost predicate StopsAt(choices: seq<Choice>, n: nat) {
    && n <= |choices|
    && (forall i :: 0 <= i < n ==> !IsStop(choices[i]))
    && (n < |choices| ==> IsStop(choices[n]))
  }

  function FragmentsOf(choices: seq<Choice>): seq<Fragment>
    requires forall i :: 0 <= i < |choices| ==> !IsStop(choices[i])
  {
    seq(|choices|, i requires 0 <= i < |choices| && !IsStop(choices[i]) => choices[i].event.fragment)
  }

  /** CLOSE, if that is what stops the loop at `n`. */
  function Ending(choices: seq<Choice>, n: nat): seq<Packet> {
    if n < |choices| && choices[n] == Received(CloseEvent) then [Says(Message("CLOSE", map[]))] else []
  }

  /** The loop over the channel writes every fragment received before it stops, in order, then CLOSE and shuts the
      socket if that is what stopped it. */
  lemma {:induction false} PumpWrites(line: Line, choices: seq<Choice>, n: nat)
    requires !Dead(line) && StopsAt(choices, n)
    ensures Pump(line, choices) ==
            Line(line.closed, Ending(choices, n) == [],
                 line.out + Flush(FragmentsOf(choices[..n])) + Ending(choices, n))
    decreases |choices|
  {
    if n == 0 {
      PumpStops(line, choices);
    } else {
      hide FragmentPackets, Flush, FragmentsOf, Ending;
      var f := choices[0].event.fragment;
      var next := Write(line, FragmentPackets(f));
      PumpWrites(next, choices[1..], n - 1);
      FragmentsFirst(choices, n);
      FlushFirst(f, FragmentsOf(choices[1..][..n - 1]));
      Regroup(line.out, FragmentPackets(f), Flush(FragmentsOf(choices[1..][..n - 1])));
    }
  }

  lemma {:induction false} PumpStops(line: Line, choices: seq<Choice>)
    requires !Dead(line) && StopsAt(choices, 0)
    ensures Pump(line, choices) ==
            Line(line.closed, Ending(choices, 0) == [],
                 line.out + Flush(FragmentsOf(choices[..0])) + Ending(choices, 0))
  {
    FlushNothing();
    assert FragmentsOf(choices[..0]) == [];
    hide Flush, FragmentsOf;
    assert line.out + [] == line.out;
  }

  lemma {:induction false} FragmentsFirst(choices: seq<Choice>, n: nat)
    requires StopsAt(choices, n) && n > 0
    ensures StopsAt(choices[1..], n - 1) && Ending(choices[1..], n - 1) == Ending(choices, n)
    ensures FragmentsOf(choices[..n]) == [choices[0].event.fragment] + FragmentsOf(choices[1..][..n - 1])
  {}

  lemma {:induction false} FlushNothing()
    ensures Flush([]) == []
  {}

  lemma {:induction false} FlushFirst(f: Fragment, rest: seq<Fragment>)
    ensures Flush([f] + rest) == FragmentPackets(f) + Flush(rest)
  {
    hide FragmentPackets;
    if rest == [] {
      assert [f] + rest == [f] && [f][..0] == [];
    } else {
      var n := |rest| - 1;
      FlushFirst(f, rest[..n]);
      assert ([f] + rest)[..n + 1] == [f] + rest[..n];
      Regroup(FragmentPackets(f), Flush(rest[..n]), FragmentPackets(rest[n]));
    }
  }

  /** On a live line, PullStream writes the newest fragments of the snapshot, as many as asked for, then every
      fragment received before the first CLOSE or interrupt, each announced and followed by its data, then CLOSE
      if that is what ended it, and then no more. */
  lemma {:induction false} PullStreamWrites(line: Line, initial: seq<Fragment>, max: int, choices: seq<Choice>, n: nat)
    requires !Dead(line) && max <= |initial| && StopsAt(choices, n)
    ensures InitialSends(initial, max).Some?
    ensures var share := initial[if max < 0 then 0 else |initial| - max..];
            Pump(WriteFragments(line, InitialSends(initial, max).value), choices) ==
            Line(line.closed, Ending(choices, n) == [],
                 line.out + Flush(share) + Flush(FragmentsOf(choices[..n])) + Ending(choices, n))
  {
    hide Flush, Pump, WriteFragments;
    var share := initial[if max < 0 then 0 else |initial| - max..];
    assert InitialSends(initial, max) == Some(share);
    SharesAreFlushed(line, share);
    PumpWrites(line.(out := line.out + Flush(share)), choices, n);
  }

  /** On a dead line it writes nothing. */
  lemma {:induction false} DeadLineStaysSilent(line: Line, fragments: seq<Fragment>, choices: seq<Choice>)
    requires Dead(line)
    ensures WriteFragments(line, fragments) == line
    ensures Pump(line, choices).out == line.out && Dead(Pump(line, choices))
    decreases |fragments|, |choices|
  {
    if fragments != [] {
      DeadLineStaysSilent(line, fragments[..|fragments| - 1], choices);
    } else if choices != [] {
      DeadLineStaysSilent(line, fragments, choices[1..]);
    }
  }

  /** What each step writes on a live line: the whole of it, or a fragment cut off after its announcement. */
  lemma {:induction false} StepsWrite(s: System, step: Step)
    requires Enabled(s, step) && !Dead(s.line)
    ensures Apply(s, step).line.out == s.line.out +
            match step
            case Answer => [Says(Message("OK", map[]))]
            case AnswerEmpty => [Says(Message("OK", map[]))]
            case FinishEmpty => [Says(Message("CLOSE", map[]))]
            case JoinClosed => [Says(Message("CLOSE", map[]))]
            case SendInitial(torn) => FragmentPackets(s.stage.pending[0])[..if torn then 1 else 2]
            case Receive(CloseEvent, _) => [Says(Message("CLOSE", map[]))]
            case Receive(FragmentEvent(fragment), torn) => FragmentPackets(fragment)[..if torn then 1 else 2]
            case Heartbeat => [Says(Message("H", map[]))]
            case Complain(code, message) => [Says(Message("E", map["code" := code, "message" := message]))]
            case _ => []
  {
    assert s.line.out + [] == s.line.out;
    match step {
      case SendInitial(_) => TornAfterOne(s.stage.pending[0]);
      case Receive(FragmentEvent(fragment), _) => TornAfterOne(fragment);
      case _ =>
    }
    hide FragmentPackets;
  }

  lemma {:induction false} TornAfterOne(fragment: Fragment)
    ensures FragmentPackets(fragment)[..1] == [Says(MetadataMessage(fragment.duration))]
    ensures FragmentPackets(fragment)[..2] == FragmentPackets(fragment)
  {}

  /** A lost socket, or a connection marked closed, ends the writing, and leaves what was written. */
  lemma {:induction false} BrokenLineIsDead(s: System, step: Step)
    requires step.LoseSocket? || step.MarkClosed?
    ensures Enabled(s, step)
    ensures var t := Apply(s, step);
            && Dead(t.line) && t.line.out == s.line.out && (t.stage, t.log, t.taken) == (s.stage, s.log, s.taken)
            && (Dead(s.line) ==> forall next :: Enabled(s, next) ==> Apply(s, next).line.out == s.line.out)
  {}

  /** A stream found nowhere is answered by OK and CLOSE, whatever noise comes between. */
  lemma {:induction false} EmptyStreamIsAnswered(s: System, noise: seq<Step>)
    requires s.stage.Unanswered? && !Dead(s.line)
    requires forall i :: 0 <= i < |noise| ==> noise[i].Heartbeat? || noise[i].Complain?
    ensures var t := Apply(s, AnswerEmpty);
            var u := NoiseRun(t, noise);
            && Quiet(t.log) == Quiet(s.log) + [Ok] && Quiet(u.log) == Quiet(t.log) && u.stage.Empty? && !Dead(u.line)
            && Quiet(Apply(u, FinishEmpty).log) == Quiet(s.log) + [Ok, Bye] && Apply(u, FinishEmpty).stage.Finished?
  {
    hide NoiseRun, Quiet, Render, Wholes;
    var t := Apply(s, AnswerEmpty);
    LogGrows(s.log, Ok);
    NoiseIsQuiet(t, noise);
    LogGrows(NoiseRun(t, noise).log, Bye);
  }

  function NoiseRun(s: System, noise: seq<Step>): System
    requires forall i :: 0 <= i < |noise| ==> noise[i].Heartbeat? || noise[i].Complain?
  {
    if noise == [] then s else Apply(NoiseRun(s, noise[..|noise| - 1]), noise[|noise| - 1])
  }

  lemma {:induction false} NoiseIsQuiet(s: System, noise: seq<Step>)
    requires forall i :: 0 <= i < |noise| ==> noise[i].Heartbeat? || noise[i].Complain?
    ensures var t := NoiseRun(s, noise);
            Quiet(t.log) == Quiet(s.log) && t.stage == s.stage && (Dead(t.line) <==> Dead(s.line))
  {
    if noise != [] {
      hide Quiet, Apply, Dead;
      var n := |noise| - 1;
      NoiseIsQuiet(s, noise[..n]);
      OneNoiseIsQuiet(NoiseRun(s, noise[..n]), noise[n]);
    }
  }

  lemma {:induction false} OneNoiseIsQuiet(s: System, step: Step)
    requires step.Heartbeat? || step.Complain?
    ensures var t := Apply(s, step);
            Quiet(t.log) == Quiet(s.log) && t.stage == s.stage && (Dead(t.line) <==> Dead(s.line))
  {
    hide Quiet, Render, Wholes;
    LogGrows(s.log, Noise(if step.Heartbeat? then HeartbeatMessage() else ErrorMessage(step.code, step.message)));
    assert Quiet(s.log) + [] == Quiet(s.log);
  }

  /** Once a close was passed on, or a joining that failed was answered, the socket takes nothing more. */
  lemma {:induction false} CloseShutsTheLine(s: System, step: Step)
    requires Enabled(s, step) && (step.JoinClosed? || (step.Receive? && step.event.CloseEvent?))
    ensures Dead(Apply(s, step).line)
  {}
}
