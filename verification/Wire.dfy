/** What travels on a websocket: text frames with messages, and binary frames. */
module Wire {
  import opened Fragments
  import opened Floats
  import opened Texts
  import opened Messages

  datatype Packet = Says(message: Message) | Data(data: seq<Byte>)

  datatype Frame = TextFrame(text: Text) | BinaryFrame(data: seq<Byte>)

  const TEXT_MSG_READ_LIMIT := 1600

  const STREAM: Text := "stream"
  const AUTH: Text := "auth"
  const DURATION: Text := "duration"
  const ONLY_SOURCE: Text := "only_source"
  const MAX_INITIAL_FRAGMENTS: Text := "max_initial_fragments"

  /** A read limit of zero or less is no limit. */
  predicate TooLong(size: nat, limit: int) {
    0 < limit < size
  }

  function HeartbeatMessage(): Message {
    Message("H", map[])
  }

  function OkMessage(): Message {
    Message("OK", map[])
  }

  function CloseMessage(): Message {
    Message("CLOSE", map[])
  }

  function MetadataMessage(duration: Duration): Message {
    Message("F", map[DURATION := PrintFloat(duration)])
  }

  function PushMessage(streamId: Text, auth: Text): Message {
    Message("PUSH", map[STREAM := streamId, AUTH := auth])
  }

  /** What a relay asks of the server it relays from. */
  function PullMessage(streamId: Text, auth: Text, onlySource: bool): Message {
    Message("PULL", map[STREAM := streamId, AUTH := auth, ONLY_SOURCE := if onlySource then "true" else "false"])
  }

  function Size(frame: Frame): nat {
    match frame
    case TextFrame(text) => |text|
    case BinaryFrame(data) => |data|
  }

  function ErrorMessage(code: Text, message: Text): Message {
    Message("E", map["code" := code, "message" := message])
  }

  /** A fragment is announced by its duration, then follows its data. */
  function FragmentPackets(fragment: Fragment): seq<Packet> {
    [Says(MetadataMessage(fragment.duration)), Data(fragment.data)]
  }

  function Flush(fragments: seq<Fragment>): seq<Packet> {
    if fragments == [] then []
    else Flush(fragments[..|fragments| - 1]) + FragmentPackets(fragments[|fragments| - 1])
  }

  /** Fragment by fragment: its announcement, then its data. */
  lemma {:induction false} FlushAt(fragments: seq<Fragment>, i: nat)
    requires i < |fragments|
    ensures |Flush(fragments)| == 2 * |fragments|
    ensures Flush(fragments)[2 * i] == Says(Message("F", map["duration" := PrintFloat(fragments[i].duration)]))
    ensures Flush(fragments)[2 * i + 1] == Data(fragments[i].data)
  {
    hide PrintFloat;
    var front := fragments[..|fragments| - 1];
    FlushLength(front);
    if i < |front| {
      FlushAt(front, i);
      assert Flush(fragments)[2 * i] == Flush(front)[2 * i] && Flush(fragments)[2 * i + 1] == Flush(front)[2 * i + 1];
    }
  }

  lemma {:induction false} FlushLength(fragments: seq<Fragment>)
    ensures |Flush(fragments)| == 2 * |fragments|
  {
    if fragments != [] {
      FlushLength(fragments[..|fragments| - 1]);
    }
  }

  /** How a packet may look on the wire: the parameters of a message come in any order. */
  ghost predicate Carries(frame: Frame, packet: Packet) {
    match packet
    case Says(message) =>
      && frame.TextFrame?
      && exists pairs ::
           Enumerates(pairs, message.parameters) && frame.text == Serialise(Go, message.kind, pairs)
    case Data(data) => frame == BinaryFrame(data)
  }

  /** ... and is short enough to be read. */
  ghost predicate Delivered(frame: Frame, packet: Packet) {
    Carries(frame, packet) && (packet.Says? ==> !TooLong(Size(frame), TEXT_MSG_READ_LIMIT))
  }

  function Understood(frame: Frame): Packet {
    match frame
    case TextFrame(text) => Says(ParseGo(text))
    case BinaryFrame(data) => Data(data)
  }

  ghost predicate Speakable(packet: Packet) {
    packet.Says? ==> KindOk(packet.message.kind)
  }

  /** Readers understand what writers said, whatever order the map was walked in. */
  lemma {:induction false} WireIsFaithful(frame: Frame, packet: Packet)
    requires Carries(frame, packet) && Speakable(packet)
    ensures Understood(frame) == packet
  {
    hide ParseGo, Serialise, Enumerates;
    if packet.Says? {
      var pairs :| Enumerates(pairs, packet.message.parameters) &&
        frame.text == Serialise(Go, packet.message.kind, pairs);
      GoRoundTrip(packet.message, pairs);
    }
  }
}
