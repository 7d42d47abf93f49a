/** M3U8 playlists as text (tester/hls.go; RFC 8216, section 4.3). */
module Playlists {
  import opened Floats
  import opened Fragments
  import opened Texts

  const DEFAULT_VERSION := 3
  const DEFAULT_SEGMENT_TIME := 3

  datatype Segment = Segment(index: int, duration: Duration, name: Text)

  datatype Playlist = Playlist(
    version: int, targetDuration: int, mediaSequence: int, isVod: bool, isEnded: bool, segments: seq<Segment>)

  const EMPTY := Playlist(DEFAULT_VERSION, DEFAULT_SEGMENT_TIME, 0, false, false, [])

  predicate IsSpace(c: Octet) {
    c == ' ' || 9 <= c as int <= 13
  }

  function TrimSpace(s: Text): Text {
    if s != [] && IsSpace(s[0]) then TrimSpace(s[1..])
    else if s != [] && IsSpace(s[|s| - 1]) then TrimSpace(s[..|s| - 1])
    else s
  }

  function TrimComma(s: Text): Text {
    if s != [] && s[|s| - 1] == ',' then s[..|s| - 1] else s
  }

  // Encoding.

  const M3U: Text := "#EXTM3U"
  const END_LIST: Text := "#EXT-X-ENDLIST"
  const PLAYLIST_TYPE: Text := "#EXT-X-PLAYLIST-TYPE"
  const VOD: Text := "VOD"
  const VERSION: Text := "#EXT-X-VERSION"
  const TARGET_DURATION: Text := "#EXT-X-TARGETDURATION"
  const MEDIA_SEQUENCE: Text := "#EXT-X-MEDIA-SEQUENCE"
  const EXT_INF: Text := "#EXTINF"

  function TagLine(tag: Text, value: Text): Text {
    tag + [':'] + value
  }

  function InfLine(duration: Duration): Text {
    TagLine(EXT_INF, PrintFixed(duration) + [','])
  }

  function SegmentLines(segments: seq<Segment>): seq<Text> {
    if segments == [] then [] else [InfLine(segments[0].duration), segments[0].name] + SegmentLines(segments[1..])
  }

  function TypeLines(isVod: bool): seq<Text> {
    if isVod then [TagLine(PLAYLIST_TYPE, VOD)] else []
  }

  function HeadLines(p: Playlist): seq<Text> {
    [M3U] + TypeLines(p.isVod)
    + [TagLine(VERSION, Print(p.version))]
    + [TagLine(TARGET_DURATION, Print(p.targetDuration))]
    + [TagLine(MEDIA_SEQUENCE, Print(p.mediaSequence))]
  }

  function EndLines(isEnded: bool): seq<Text> {
    if isEnded then [END_LIST] else []
  }

  /** Every line ends in a line feed. */
  function Unlines(lines: seq<Text>): Text {
    if lines == [] then [] else Unlines(lines[..|lines| - 1]) + lines[|lines| - 1] + ['\n']
  }

  function Encode(p: Playlist): Text {
    Unlines(HeadLines(p) + SegmentLines(p.segments) + EndLines(p.isEnded))
  }

  // Decoding.

  /** One tag with its value; `next` is the line after it. */
  function DecodeTag(p: Playlist, tag: Text, value: Text, next: Option<Text>): Playlist {
    if tag == PLAYLIST_TYPE then if ToUpper(value) == VOD then p.(isVod := true) else p
    else if tag == VERSION then
      var v := Atoi(value);
      if v.Some? && v.value >= 0 then p.(version := v.value) else p
    else if tag == TARGET_DURATION then
      var td := Atoi(value);
      if td.Some? && td.value > 0 then p.(targetDuration := td.value) else p
    else if tag == MEDIA_SEQUENCE then
      var ms := Atoi(value);
      if ms.Some? && ms.value >= 0 then p.(mediaSequence := ms.value) else p
    else if tag == EXT_INF then
      var d := ParseFloat(TrimComma(value));
      if d.Some? && Positive(d.value) && next.Some? then
        p.(segments := p.segments + [Segment(|p.segments| + p.mediaSequence, d.value, TrimSpace(next.value))])
      else p
    else p
  }

  function DecodeLine(p: Playlist, untrimmed: Text, next: Option<Text>): Playlist {
    var line := TrimSpace(untrimmed);
    if line == [] || line[0] != '#' then p
    else if line == END_LIST then p.(isEnded := true)
    else
      var parts := Split(line, ':');
      if |parts| != 2 then p else DecodeTag(p, ToUpper(parts[0]), parts[1], next)
  }

  function DecodeFrom(p: Playlist, lines: seq<Text>): Playlist
    decreases |lines|
  {
    if lines == [] then p
    else DecodeFrom(DecodeLine(p, lines[0], if |lines| > 1 then Some(lines[1]) else None), lines[1..])
  }

  function Decode(m3u8: Text): Playlist {
    DecodeFrom(EMPTY, Split(m3u8, '\n'))
  }

  method EncodePlaylist(playlist: Playlist) returns (result: Text)
    ensures result == Encode(playlist)
  {
    hide Unlines, Print, TagLine, SegmentLines;
    ghost var lines: seq<Text> := [M3U];
    result := M3U + ['\n'];
    OneLine(M3U);
    if playlist.isVod {
      OneMoreLine(lines, TagLine(PLAYLIST_TYPE, VOD));
      result := result + (TagLine(PLAYLIST_TYPE, VOD) + ['\n']);
    } else {
      assert lines + [] == lines;
    }
    lines := lines + TypeLines(playlist.isVod);
    var version := TagLine(VERSION, Print(playlist.version));
    OneMoreLine(lines, version);
    result := result + (version + ['\n']);
    lines := lines + [version];
    var target := TagLine(TARGET_DURATION, Print(playlist.targetDuration));
    OneMoreLine(lines, target);
    result := result + (target + ['\n']);
    lines := lines + [target];
    var first := TagLine(MEDIA_SEQUENCE, Print(playlist.mediaSequence));
    OneMoreLine(lines, first);
    result := result + (first + ['\n']);
    lines := lines + [first];
    assert lines == HeadLines(playlist);
    result := EncodeSegments(result, lines, playlist.segments);
    lines := lines + SegmentLines(playlist.segments);
    if playlist.isEnded {
      OneMoreLine(lines, END_LIST);
      result := result + (END_LIST + ['\n']);
    } else {
      assert lines + [] == lines;
    }
  }

  /** The loop of Encode. */
  method EncodeSegments(start: Text, ghost before: seq<Text>, segments: seq<Segment>) returns (result: Text)
    requires start == Unlines(before)
    ensures result == Unlines(before + SegmentLines(segments))
  {
    hide Unlines, InfLine;
    result := start;
    ghost var lines: seq<Text> := before;
    for i := 0 to |segments|
      invariant result == Unlines(lines)
      invariant lines + SegmentLines(segments[i..]) == before + SegmentLines(segments)
    {
      var head := InfLine(segments[i].duration);
      OneMoreLine(lines, head);
      OneMoreLine(lines + [head], segments[i].name);
      result := result + (head + ['\n']);
      result := result + (segments[i].name + ['\n']);
      assert segments[i..][1..] == segments[i + 1..];
      lines := lines + [head] + [segments[i].name];
    }
    assert lines + [] == lines;
  }

  lemma {:induction false} OneLine(line: Text)
    ensures Unlines([line]) == line + ['\n']
  {
    ghost var lines: seq<Text> := [line];
    assert lines[..0] == [];
  }

  lemma {:induction false} OneMoreLine(lines: seq<Text>, line: Text)
    ensures Unlines(lines + [line]) == Unlines(lines) + (line + ['\n'])
  {
    ghost var more: seq<Text> := lines + [line];
    assert more[..|lines|] == lines;
    assert Unlines(more) == Unlines(lines) + line + ['\n'];
  }

  method DecodePlaylist(m3u8: Text) returns (result: Playlist)
    ensures result == Decode(m3u8)
  {
    hide DecodeTag, Split, TrimSpace;
    result := EMPTY;
    var lines := Split(m3u8, '\n');
    assert lines[0..] == lines;
    for i := 0 to |lines|
      invariant DecodeFrom(result, lines[i..]) == DecodeFrom(EMPTY, lines)
    {
      assert lines[i..][1..] == lines[i + 1..];
      var line := TrimSpace(lines[i]);
      if line == [] || line[0] != '#' {
        continue;
      }
      if line == END_LIST {
        result := result.(isEnded := true);
        continue;
      }
      var parts := Split(line, ':');
      if |parts| != 2 {
        continue;
      }
      result := DecodeTag(result, ToUpper(parts[0]), parts[1], if i < |lines| - 1 then Some(lines[i + 1]) else None);
    }
  }

  // The round trip.

  predicate Solid(s: Text) {
    forall i :: 0 <= i < |s| ==> s[i] != ':' && !IsSpace(s[i])
  }

  lemma {:induction false} DigitsAreSolid(s: Text)
    requires AllDigits(s)
    ensures Solid(s) && Lacks(s, '.') && Lacks(s, ',') && Lacks(s, '-')
  {}

  lemma {:induction false} SplitUnlines(lines: seq<Text>, rest: Text)
    requires forall i :: 0 <= i < |lines| ==> Lacks(lines[i], '\n')
    ensures Split(Unlines(lines) + rest, '\n') == lines + Split(rest, '\n')
  {
    hide Split, Lacks;
    if lines == [] {
      assert Unlines(lines) + rest == rest;
    } else {
      var front, last := lines[..|lines| - 1], lines[|lines| - 1];
      SplitUnlines(front, last + ['\n'] + rest);
      SplitJoined(last, rest, '\n');
      SplitLacking(last, '\n');
      assert Unlines(lines) + rest == Unlines(front) + (last + ['\n'] + rest);
      assert lines + Split(rest, '\n') == front + ([last] + Split(rest, '\n'));
    }
  }

  lemma {:induction false} PrintIsSolid(n: int)
    ensures Print(n) != [] && Solid(Print(n))
  {
    DigitsAreSolid(PrintNat(if n < 0 then -n else n));
  }

  lemma {:induction false} NumericIsSolid(negative: bool, s: Text)
    requires AllNumeric(s)
    ensures Solid(Sign(negative) + s)
  {}

  lemma {:induction false} SpecialIsSolid(d: Float)
    requires !d.Decimal?
    ensures PrintSpecial(d) != [] && Solid(PrintSpecial(d))
  {}

  lemma {:induction false} FixedIsSolid(d: Duration)
    ensures PrintFixed(d) != [] && Solid(PrintFixed(d))
  {
    hide PrintPlaces, Millionths, ParseFloat, Reduce, AllNumeric, Solid, Sign, PrintSpecial;
    if d.Decimal? {
      var size := Millionths(Magnitude(d.mantissa), d.places);
      PlacesReadBack(d.mantissa < 0, size, 6);
      NumericIsSolid(d.mantissa < 0, PrintPlaces(size, 6));
    } else {
      SpecialIsSolid(d);
    }
  }

  lemma {:induction false} TrimmedStays(s: Text)
    requires s == [] || (!IsSpace(s[0]) && !IsSpace(s[|s| - 1]))
    ensures TrimSpace(s) == s
  {}

  lemma {:induction false} TagLineDecodes(p: Playlist, tag: Text, value: Text, next: Option<Text>)
    requires tag != [] && tag[0] == '#' && Solid(tag) && IsUpper(tag)
    requires value != [] && Solid(value)
    ensures DecodeLine(p, TagLine(tag, value), next) == DecodeTag(p, tag, value, next)
    ensures Lacks(TagLine(tag, value), '\n')
  {
    hide DecodeTag, Split, TrimSpace, ToUpper;
    var line := TagLine(tag, value);
    assert line[0] == '#' && line[|line| - 1] == value[|value| - 1];
    TrimmedStays(line);
    assert line[|tag|] == ':';
    assert Lacks(END_LIST, ':');
    SplitJoined(tag, value, ':');
    SplitLacking(tag, ':');
    SplitLacking(value, ':');
    UpperStays(tag);
  }

  /** Trimmed, on one line, and not read as a tag. */
  predicate PlainName(name: Text) {
    && TrimSpace(name) == name && Lacks(name, '\n')
    && (name == [] || name[0] != '#' || (name != END_LIST && |Split(name, ':')| != 2))
  }

  lemma {:induction false} VersionDecodes(p: Playlist, n: int, next: Option<Text>)
    requires n >= 0
    ensures DecodeLine(p, TagLine(VERSION, Print(n)), next) == p.(version := n)
    ensures Lacks(TagLine(VERSION, Print(n)), '\n')
  {
    hide DecodeLine, TagLine, Atoi, Print, ParseFloat, TrimComma, TrimSpace;
    AtoiInvertsPrint(n);
    PrintIsSolid(n);
    TagLineDecodes(p, VERSION, Print(n), next);
  }

  lemma {:induction false} TargetDurationDecodes(p: Playlist, n: int, next: Option<Text>)
    requires n > 0
    ensures DecodeLine(p, TagLine(TARGET_DURATION, Print(n)), next) == p.(targetDuration := n)
    ensures Lacks(TagLine(TARGET_DURATION, Print(n)), '\n')
  {
    hide DecodeLine, TagLine, Atoi, Print, ParseFloat, TrimComma, TrimSpace;
    AtoiInvertsPrint(n);
    PrintIsSolid(n);
    TagLineDecodes(p, TARGET_DURATION, Print(n), next);
  }

  lemma {:induction false} MediaSequenceDecodes(p: Playlist, n: int, next: Option<Text>)
    requires n >= 0
    ensures DecodeLine(p, TagLine(MEDIA_SEQUENCE, Print(n)), next) == p.(mediaSequence := n)
    ensures Lacks(TagLine(MEDIA_SEQUENCE, Print(n)), '\n')
  {
    hide DecodeLine, TagLine, Atoi, Print, ParseFloat, TrimComma, TrimSpace;
    AtoiInvertsPrint(n);
    PrintIsSolid(n);
    TagLineDecodes(p, MEDIA_SEQUENCE, Print(n), next);
    assert TARGET_DURATION[7] != MEDIA_SEQUENCE[7];
  }

  lemma {:induction false} TypeDecodes(p: Playlist, next: Option<Text>)
    ensures DecodeLine(p, TagLine(PLAYLIST_TYPE, VOD), next) == p.(isVod := true)
    ensures Lacks(TagLine(PLAYLIST_TYPE, VOD), '\n')
  {
    hide DecodeLine, TagLine, ParseFloat, TrimComma, TrimSpace, Atoi;
    TagLineDecodes(p, PLAYLIST_TYPE, VOD, next);
    UpperStays(VOD);
  }

  /** What becomes of a segment: its duration rounded, or nothing when that leaves nothing of it. */
  function Survivor(index: int, segment: Segment): (survivor: seq<Segment>)
    ensures |survivor| <= 1
  {
    if Positive(Rounded(segment.duration)) then [Segment(index, Rounded(segment.duration), segment.name)] else []
  }

  lemma {:induction false} InfDecodes(p: Playlist, segment: Segment)
    requires TrimSpace(segment.name) == segment.name
    ensures DecodeLine(p, InfLine(segment.duration), Some(segment.name))
         == p.(segments := p.segments + Survivor(|p.segments| + p.mediaSequence, segment))
    ensures Lacks(InfLine(segment.duration), '\n')
  {
    hide DecodeLine, TagLine, PrintFixed, ParseFloat, TrimSpace, Rounded;
    var text := PrintFixed(segment.duration);
    ParseRoundsFixed(segment.duration);
    FixedIsSolid(segment.duration);
    TagLineDecodes(p, EXT_INF, text + [','], Some(segment.name));
    assert (text + [','])[..|text|] == text;
    assert p.segments + [] == p.segments;
  }

  lemma {:induction false} NameDecodes(p: Playlist, name: Text, next: Option<Text>)
    requires PlainName(name)
    ensures DecodeLine(p, name, next) == p
  {
    hide DecodeTag, Split, TrimSpace;
  }

  lemma {:induction false} EndDecodes(p: Playlist, next: Option<Text>)
    ensures DecodeLine(p, END_LIST, next) == p.(isEnded := true)
    ensures Lacks(END_LIST, '\n')
  {
    TrimmedStays(END_LIST);
  }

  lemma {:induction false} DecodeOne(p: Playlist, line: Text, rest: seq<Text>)
    ensures DecodeFrom(p, [line] + rest)
         == DecodeFrom(DecodeLine(p, line, if rest == [] then None else Some(rest[0])), rest)
  {
    hide DecodeLine;
    ghost var lines: seq<Text> := [line] + rest;
    assert lines[1..] == rest;
  }

  /** Segments as the decoder keeps and numbers them. */
  function Kept(first: int, segments: seq<Segment>): (kept: seq<Segment>)
    ensures |kept| <= |segments|
    decreases |segments|
  {
    if segments == [] then []
    else
      var head := Survivor(first, segments[0]);
      head + Kept(first + |head|, segments[1..])
  }

  predicate PlainNames(segments: seq<Segment>) {
    forall i :: 0 <= i < |segments| ==> PlainName(segments[i].name)
  }

  lemma {:induction false} SegmentLinesAreLines(segments: seq<Segment>)
    requires PlainNames(segments)
    ensures forall i :: 0 <= i < |SegmentLines(segments)| ==> Lacks(SegmentLines(segments)[i], '\n')
  {
    hide InfLine, Lacks, Split, TrimSpace;
    if segments != [] {
      InfDecodes(EMPTY, segments[0]);
      SegmentLinesAreLines(segments[1..]);
    }
  }

  /** The two lines of one segment. */
  lemma {:induction false} SegmentDecodes(p: Playlist, segment: Segment, rest: seq<Text>)
    requires PlainName(segment.name)
    ensures DecodeFrom(p, [InfLine(segment.duration), segment.name] + rest)
         == DecodeFrom(p.(segments := p.segments + Survivor(|p.segments| + p.mediaSequence, segment)), rest)
  {
    hide DecodeLine, DecodeFrom, InfLine, Survivor;
    var named: seq<Text> := [segment.name] + rest;
    assert [InfLine(segment.duration), segment.name] + rest == [InfLine(segment.duration)] + named;
    DecodeOne(p, InfLine(segment.duration), named);
    InfDecodes(p, segment) by { hide Split, TrimSpace; }
    var q := p.(segments := p.segments + Survivor(|p.segments| + p.mediaSequence, segment));
    DecodeOne(q, segment.name, rest);
    NameDecodes(q, segment.name, if rest == [] then None else Some(rest[0]));
  }

  lemma {:induction false} KeptStep(first: int, segments: seq<Segment>)
    ensures Kept(first, segments) ==
            if segments == [] then []
            else Survivor(first, segments[0]) + Kept(first + |Survivor(first, segments[0])|, segments[1..])
  {}

  lemma {:induction false} SegmentsDecode(p: Playlist, segments: seq<Segment>, rest: seq<Text>)
    requires PlainNames(segments)
    ensures DecodeFrom(p, SegmentLines(segments) + rest)
         == DecodeFrom(p.(segments := p.segments + Kept(|p.segments| + p.mediaSequence, segments)), rest)
    decreases |segments|
  {
    hide DecodeFrom, InfLine, PlainName, Survivor, Kept;
    KeptStep(|p.segments| + p.mediaSequence, segments);
    var first := |p.segments| + p.mediaSequence;
    if segments == [] {
      assert p.segments + Kept(first, segments) == p.segments;
      assert SegmentLines(segments) + rest == rest;
    } else {
      var head, tail := segments[0], segments[1..];
      var more: seq<Text> := SegmentLines(tail) + rest;
      assert SegmentLines(segments) + rest == [InfLine(head.duration), head.name] + more;
      SegmentDecodes(p, head, more);
      var survivor := Survivor(first, head);
      var q := p.(segments := p.segments + survivor);
      SegmentsDecode(q, tail, rest);
      var kept := Kept(first + |survivor|, tail);
      assert p.segments + survivor + kept == p.segments + (survivor + kept);
    }
  }

  predicate SoundHead(p: Playlist) {
    p.version >= 0 && p.targetDuration > 0 && p.mediaSequence >= 0
  }

  function Head(p: Playlist): Playlist {
    p.(isEnded := false, segments := [])
  }

  lemma {:induction false} HeadDecodes(p: Playlist, rest: seq<Text>)
    requires SoundHead(p)
    ensures DecodeFrom(EMPTY, HeadLines(p) + rest) == DecodeFrom(Head(p), rest)
    ensures forall i :: 0 <= i < |HeadLines(p)| ==> Lacks(HeadLines(p)[i], '\n')
  {
    hide DecodeLine, DecodeFrom, TagLine, Print, Lacks;
    var version, target, first :=
      TagLine(VERSION, Print(p.version)), TagLine(TARGET_DURATION, Print(p.targetDuration)),
      TagLine(MEDIA_SEQUENCE, Print(p.mediaSequence));
    var rest1: seq<Text> := [first] + rest;
    var rest2: seq<Text> := [target] + rest1;
    var rest3: seq<Text> := [version] + rest2;
    var rest4: seq<Text> := TypeLines(p.isVod) + rest3;
    assert HeadLines(p) + rest == [M3U] + rest4;
    DecodeOne(EMPTY, M3U, rest4);
    MarkDecodes(EMPTY, Some(rest4[0]));
    var q := EMPTY.(isVod := p.isVod);
    if p.isVod {
      DecodeOne(EMPTY, TagLine(PLAYLIST_TYPE, VOD), rest3);
      TypeDecodes(EMPTY, Some(rest3[0]));
    } else {
      assert rest4 == rest3;
    }
    DecodeOne(q, version, rest2);
    VersionDecodes(q, p.version, Some(rest2[0]));
    q := q.(version := p.version);
    DecodeOne(q, target, rest1);
    TargetDurationDecodes(q, p.targetDuration, Some(rest1[0]));
    q := q.(targetDuration := p.targetDuration);
    var next := if rest == [] then None else Some(rest[0]);
    DecodeOne(q, first, rest);
    MediaSequenceDecodes(q, p.mediaSequence, next);
  }

  lemma {:induction false} MarkDecodes(p: Playlist, next: Option<Text>)
    ensures DecodeLine(p, M3U, next) == p
    ensures Lacks(M3U, '\n')
  {
    TrimmedStays(M3U);
    SplitLacking(M3U, ':');
  }

  lemma {:induction false} EndingDecodes(p: Playlist, isEnded: bool)
    requires !p.isEnded
    ensures DecodeFrom(p, EndLines(isEnded) + [[]]) == p.(isEnded := isEnded)
    ensures forall i :: 0 <= i < |EndLines(isEnded)| ==> Lacks(EndLines(isEnded)[i], '\n')
  {
    hide DecodeLine;
    var blank: Text, none: seq<Text> := [], [];
    var last: seq<Text> := [blank];
    EndDecodes(p, Some(blank));
    DecodeOne(p.(isEnded := isEnded), blank, none);
    NameDecodes(p.(isEnded := isEnded), blank, None);
    assert last + none == last;
    if isEnded {
      DecodeOne(p, END_LIST, last);
    } else {
      assert EndLines(isEnded) + last == last;
    }
  }

  lemma {:induction false} DecodeOfEncode(p: Playlist)
    requires SoundHead(p) && PlainNames(p.segments)
    ensures Decode(Encode(p)) == p.(segments := Kept(p.mediaSequence, p.segments))
  {
    hide DecodeFrom, HeadLines, SegmentLines, EndLines, Unlines, Lacks, Split;
    var head, middle, end := HeadLines(p), SegmentLines(p.segments), EndLines(p.isEnded);
    var blank: Text := [];
    var last: seq<Text> := [blank];
    HeadDecodes(p, middle + (end + last));
    SegmentsDecode(Head(p), p.segments, end + last);
    SegmentLinesAreLines(p.segments);
    var kept := Kept(p.mediaSequence, p.segments);
    assert Head(p).segments + kept == kept;
    EndingDecodes(Head(p).(segments := kept), p.isEnded);
    SplitUnlines(head + middle + end, blank);
    SplitLacking(blank, '\n') by { assert Lacks(blank, '\n') by { NoneLacks('\n'); } }
    assert Unlines(head + middle + end) + blank == Unlines(head + middle + end);
    assert head + middle + end + last == head + (middle + (end + last));
  }

  lemma {:induction false} NoneLacks(c: Octet)
    ensures Lacks([], c)
  {}

  /** What no text can make the decoder return. */
  predicate Decodable(p: Playlist) {
    SoundHead(p) && forall i :: 0 <= i < |p.segments| ==> Positive(p.segments[i].duration)
  }

  lemma {:induction false} DecodeLineKeeps(p: Playlist, line: Text, next: Option<Text>)
    requires Decodable(p)
    ensures Decodable(DecodeLine(p, line, next))
  {
    hide Split, TrimSpace, ToUpper, ParseFloat, Atoi;
  }

  lemma {:induction false} DecodeFromKeeps(p: Playlist, lines: seq<Text>)
    requires Decodable(p)
    ensures Decodable(DecodeFrom(p, lines))
    decreases |lines|
  {
    hide Decodable, DecodeLine;
    if lines != [] {
      var next := if |lines| > 1 then Some(lines[1]) else None;
      DecodeLineKeeps(p, lines[0], next);
      DecodeFromKeeps(DecodeLine(p, lines[0], next), lines[1..]);
    }
  }

  /** Any text decodes to a playlist with a possible head and positive durations. */
  lemma {:induction false} DecodedIsDecodable(m3u8: Text)
    ensures Decodable(Decode(m3u8))
  {
    DecodeFromKeeps(EMPTY, Split(m3u8, '\n'));
  }

  predicate Whole(first: int, segments: seq<Segment>) {
    forall i :: 0 <= i < |segments| ==>
      segments[i].index == first + i && Positive(segments[i].duration) && SixDecimals(segments[i].duration)
  }

  /** For trimmed, single-line names that are not tags, decoding returns the encoded playlist exactly when its
      head is possible, its indices are consecutive from the media sequence, and its durations are positive
      with six decimals at most. */
  lemma {:induction false} RoundTripExactlyWhen(p: Playlist)
    requires PlainNames(p.segments)
    ensures Decode(Encode(p)) == p <==> SoundHead(p) && Whole(p.mediaSequence, p.segments)
  {
    hide Decode, Encode, PlainName;
    DecodedIsDecodable(Encode(p));
    if SoundHead(p) {
      DecodeOfEncode(p);
      KeptExactlyWhen(p.mediaSequence, p.segments);
    }
  }

  lemma {:induction false} SurvivesExactlyWhen(first: int, segment: Segment)
    ensures Survivor(first, segment) == [segment]
       <==> segment.index == first && Positive(segment.duration) && SixDecimals(segment.duration)
  {
    hide Rounded;
    RoundedIsSameExactlyWhen(segment.duration);
  }

  lemma {:induction false} KeptExactlyWhen(first: int, segments: seq<Segment>)
    ensures Kept(first, segments) == segments <==> Whole(first, segments)
    decreases |segments|
  {
    if segments != [] {
      hide Survivor, Kept, Whole, Positive, SixDecimals;
      var head, tail := segments[0], segments[1..];
      var survivor := Survivor(first, head);
      KeptStep(first, segments);
      HeadAndTail(survivor, Kept(first + |survivor|, tail), segments);
      SurvivesExactlyWhen(first, head);
      WholeSplits(first, segments);
      WholeOne(first, head);
      if survivor == [head] {
        KeptExactlyWhen(first + 1, tail);
      }
    } else {
      assert Whole(first, segments);
    }
  }

  lemma {:induction false} HeadAndTail(head: seq<Segment>, tail: seq<Segment>, segments: seq<Segment>)
    requires segments != [] && |head| <= 1 && |tail| < |segments|
    ensures head + tail == segments <==> head == [segments[0]] && tail == segments[1..]
  {
    if head + tail == segments {
      assert |head| == 1 && head[0] == (head + tail)[0];
      assert (head + tail)[1..] == tail;
    }
  }

  lemma {:induction false} WholeOne(first: int, segment: Segment)
    ensures Whole(first, [segment])
       <==> segment.index == first && Positive(segment.duration) && SixDecimals(segment.duration)
  {
    assert [segment][0] == segment;
  }

  lemma {:induction false} WholeSplits(first: int, segments: seq<Segment>)
    requires segments != []
    ensures Whole(first, segments) <==> Whole(first, [segments[0]]) && Whole(first + 1, segments[1..])
  {
    var tail := segments[1..];
    assert forall i :: 0 <= i < |tail| ==> tail[i] == segments[i + 1];
    assert forall i :: 0 < i < |segments| ==> segments[i] == tail[i - 1];
    assert segments[0] == [segments[0]][0];
  }
}
