/** Protocol messages as text, on both sides of the wire: Go (server/message.go, the same in
    client-publisher/message.go) and JavaScript (client-js/src/message.ts).
    Percent-encoding is that of RFC 3986, section 2.1. */
module Messages {
  import opened Fragments
  import opened Texts

  /** A message without parameters and one with an empty map of them look the same to every reader. */
  datatype Message = Message(kind: Text, parameters: map<Text, Text>) {
    function GetParameter(name: Text): Text {
      if name in parameters then parameters[name] else ""
    }
  }

  datatype Dialect = Go | Js

  // Escaping: url.QueryEscape and encodeURIComponent. A JavaScript string stands for its UTF-8 octets.

  predicate Kept(d: Dialect, c: Octet) {
    || 'a' <= c <= 'z' || 'A' <= c <= 'Z' || '0' <= c <= '9'
    || c == '-' || c == '_' || c == '.' || c == '~'
    || (d.Js? && (c == '!' || c == '*' || c == '\'' || c == '(' || c == ')'))
  }

  function HexDigit(n: nat): Octet
    requires n < 16
  {
    if n < 10 then '0' + n as char else 'A' + (n - 10) as char
  }

  function HexValue(c: Octet): Option<nat> {
    if '0' <= c <= '9' then Some((c - '0') as nat)
    else if 'A' <= c <= 'F' then Some((c - 'A') as nat + 10)
    else if 'a' <= c <= 'f' then Some((c - 'a') as nat + 10)
    else None
  }

  function EscapeOctet(d: Dialect, c: Octet): Text {
    if Kept(d, c) then [c]
    else if d.Go? && c == ' ' then "+"
    else ['%', HexDigit(c as nat / 16), HexDigit(c as nat % 16)]
  }

  function Escape(d: Dialect, s: Text): Text {
    if s == [] then [] else EscapeOctet(d, s[0]) + Escape(d, s[1..])
  }

  /** Percent-decoding; Go also turns plus into space. None for a malformed escape. */
  function Unescape(d: Dialect, s: Text): Option<Text> {
    if s == [] then Some([])
    else if s[0] == '%' then
      if |s| < 3 || HexValue(s[1]).None? || HexValue(s[2]).None? then None
      else
        var rest := Unescape(d, s[3..]);
        var value := HexValue(s[1]).value * 16 + HexValue(s[2]).value;
        if rest.None? || value >= 0x100 then None else Some([value as char] + rest.value)
    else
      var rest := Unescape(d, s[1..]);
      if rest.None? then None else Some([if d.Go? && s[0] == '+' then ' ' else s[0]] + rest.value)
  }

  /** The length of the UTF-8 sequence at the front of a text, or 0 when there is none. */
  function Utf8Length(s: Text): (n: nat)
    ensures n <= |s|
  {
    if s == [] then 0
    else
      var c := s[0] as int;
      if c < 0x80 then 1
      else if 0xC2 <= c <= 0xDF then if |s| >= 2 && Continues(s[1], 0x80, 0xBF) then 2 else 0
      else if 0xE0 <= c <= 0xEF then
        var low := if c == 0xE0 then 0xA0 else 0x80;
        var high := if c == 0xED then 0x9F else 0xBF;
        if |s| >= 3 && Continues(s[1], low, high) && Continues(s[2], 0x80, 0xBF) then 3 else 0
      else if 0xF0 <= c <= 0xF4 then
        var low := if c == 0xF0 then 0x90 else 0x80;
        var high := if c == 0xF4 then 0x8F else 0xBF;
        if |s| >= 4 && Continues(s[1], low, high) && Continues(s[2], 0x80, 0xBF) && Continues(s[3], 0x80, 0xBF)
        then 4 else 0
      else 0
  }

  predicate Continues(c: Octet, low: int, high: int) {
    low <= c as int <= high
  }

  predicate ValidUtf8(s: Text) {
    s == [] || (Utf8Length(s) > 0 && ValidUtf8(s[Utf8Length(s)..]))
  }

  /** decodeURIComponent throws on malformed escapes and on malformed UTF-8. */
  function DecodeUriComponent(s: Text): Option<Text> {
    var decoded := Unescape(Js, s);
    if decoded.Some? && ValidUtf8(decoded.value) then decoded else None
  }

  // Serialising. `pairs` are the parameters in the order in which the map hands them out.

  type Pairs = seq<(Text, Text)>

  function PairText(d: Dialect, pair: (Text, Text)): Text {
    Escape(d, pair.0) + "=" + Escape(d, pair.1)
  }

  function ParamText(d: Dialect, pairs: Pairs): Text {
    if pairs == [] then []
    else if |pairs| == 1 then PairText(d, pairs[0])
    else ParamText(d, pairs[..|pairs| - 1]) + "&" + PairText(d, pairs[|pairs| - 1])
  }

  function Serialise(d: Dialect, kind: Text, pairs: Pairs): Text {
    if pairs == [] then kind else kind + ":" + ParamText(d, pairs)
  }

  /** The JavaScript side leaves empty values out. */
  function NonEmpty(pairs: Pairs): Pairs {
    if pairs == [] then []
    else NonEmpty(pairs[..|pairs| - 1]) + if pairs[|pairs| - 1].1 != [] then [pairs[|pairs| - 1]] else []
  }

  function MapOf(pairs: Pairs): map<Text, Text> {
    if pairs == [] then map[] else MapOf(pairs[..|pairs| - 1])[pairs[|pairs| - 1].0 := pairs[|pairs| - 1].1]
  }

  ghost predicate Distinct(pairs: Pairs) {
    forall i, j :: 0 <= i < j < |pairs| ==> pairs[i].0 != pairs[j].0
  }

  // Parsing.

  /** One `key=value` of a query, cut at the first equals sign. */
  function Cut(part: Text): (Text, Text) {
    var i := IndexOf(part, '=');
    (part[..i], if i < |part| then part[i + 1..] else [])
  }

  /** url.ParseQuery, with the values of a repeated key joined. Any error voids the whole query. */
  function GoQuery(parts: seq<Text>): Option<map<Text, Text>> {
    if parts == [] then Some(map[])
    else
      var before, part := GoQuery(parts[..|parts| - 1]), parts[|parts| - 1];
      if before.None? || !Lacks(part, ';') then None
      else if part == [] then before
      else
        var (k, v) := Cut(part);
        var key, value := Unescape(Go, k), Unescape(Go, v);
        if key.None? || value.None? then None
        else
          var old_ := if key.value in before.value then before.value[key.value] else [];
          Some(before.value[key.value := old_ + value.value])
  }

  /** The JavaScript reader skips what it cannot decode, and keeps the last of repeated keys. */
  function JsQuery(parts: seq<Text>): map<Text, Text> {
    if parts == [] then map[]
    else
      var before, part := JsQuery(parts[..|parts| - 1]), parts[|parts| - 1];
      if part == [] then before
      else
        var (k, v) := Cut(part);
        var key, value := DecodeUriComponent(k), DecodeUriComponent(v);
        if key.None? || value.None? then before else before[key.value := value.value]
  }

  function ParseGo(str: Text): Message {
    var colon := IndexOf(str, ':');
    if colon >= |str| - 1 then Message(ToUpper(str), map[])
    else
      var query := GoQuery(Split(str[colon + 1..], '&'));
      Message(ToUpper(str[..colon]), if query.Some? then query.value else map[])
  }

  function ParseJs(str: Text): Message {
    var colon := IndexOf(str, ':');
    if colon == |str| then Message(ToUpper(str), map[])
    else Message(ToUpper(str[..colon]), JsQuery(Split(str[colon + 1..], '&')))
  }

  // Escaped text has none of the characters with a meaning, and unescapes to what it was.

  ghost predicate Clean(s: Text) {
    Lacks(s, '&') && Lacks(s, '=') && Lacks(s, ':') && Lacks(s, ';')
  }

  lemma {:induction false} EscapeIsClean(d: Dialect, s: Text)
    ensures Clean(Escape(d, s))
  {
    if s != [] {
      EscapeIsClean(d, s[1..]);
      assert Clean(EscapeOctet(d, s[0]));
    }
  }

  /** What a reader sees: the JavaScript reader takes Go's plus signs for plus signs. */
  function Seen(writer: Dialect, reader: Dialect, s: Text): Text {
    if s == [] then []
    else [if writer.Go? && reader.Js? && s[0] == ' ' then '+' else s[0]] + Seen(writer, reader, s[1..])
  }

  lemma {:induction false} HexReads(n: nat)
    requires n < 16
    ensures HexValue(HexDigit(n)) == Some(n)
  {}

  lemma {:induction false} UnescapePercent(reader: Dialect, c: Octet, rest: Text)
    requires Unescape(reader, rest).Some?
    ensures Unescape(reader, ['%', HexDigit(c as nat / 16), HexDigit(c as nat % 16)] + rest) ==
              Some([c] + Unescape(reader, rest).value)
  {
    hide HexDigit, HexValue;
    HexReads(c as nat / 16);
    HexReads(c as nat % 16);
    var s := ['%', HexDigit(c as nat / 16), HexDigit(c as nat % 16)] + rest;
    assert s[3..] == rest;
    assert c as nat / 16 * 16 + c as nat % 16 == c as nat;
  }

  lemma {:induction false} UnescapeOne(writer: Dialect, reader: Dialect, c: Octet, rest: Text)
    requires Unescape(reader, rest).Some?
    ensures Unescape(reader, EscapeOctet(writer, c) + rest) ==
              Some(Seen(writer, reader, [c]) + Unescape(reader, rest).value)
  {
    hide HexDigit, HexValue;
    var s := EscapeOctet(writer, c) + rest;
    assert Seen(writer, reader, [c]) == [if writer.Go? && reader.Js? && c == ' ' then '+' else c];
    UnescapePercent(reader, c, rest);
    if |EscapeOctet(writer, c)| == 1 {
      assert s[1..] == rest;
    }
  }

  lemma {:induction false} UnescapeUndoes(writer: Dialect, reader: Dialect, s: Text)
    ensures Unescape(reader, Escape(writer, s)) == Some(Seen(writer, reader, s))
  {
    if s != [] {
      hide Unescape, EscapeOctet;
      UnescapeUndoes(writer, reader, s[1..]);
      UnescapeOne(writer, reader, s[0], Escape(writer, s[1..]));
      SeenOne(writer, reader, s);
    }
  }

  lemma {:induction false} SeenOne(writer: Dialect, reader: Dialect, s: Text)
    requires s != []
    ensures Seen(writer, reader, [s[0]]) + Seen(writer, reader, s[1..]) == Seen(writer, reader, s)
  {
    assert [s[0]][1..] == [];
  }

  lemma {:induction false} SeenAsIs(writer: Dialect, reader: Dialect, s: Text)
    ensures (writer.Js? || reader.Go? || Lacks(s, ' ')) ==> Seen(writer, reader, s) == s
    ensures writer.Go? && reader.Js? ==> Lacks(Seen(writer, reader, s), ' ')
  {
    if s != [] {
      SeenAsIs(writer, reader, s[1..]);
      assert [s[0]] + s[1..] == s;
    }
  }

  // A serialised query splits into its pairs.

  function Parts(d: Dialect, pairs: Pairs): seq<Text> {
    if pairs == [] then [] else Parts(d, pairs[..|pairs| - 1]) + [PairText(d, pairs[|pairs| - 1])]
  }

  lemma {:induction false} PairCuts(d: Dialect, pair: (Text, Text))
    ensures Cut(PairText(d, pair)) == (Escape(d, pair.0), Escape(d, pair.1))
    ensures Lacks(PairText(d, pair), '&') && Lacks(PairText(d, pair), ';') && PairText(d, pair) != []
  {
    EscapeIsClean(d, pair.0);
    EscapeIsClean(d, pair.1);
    var key, value := Escape(d, pair.0), Escape(d, pair.1);
    hide Escape;
    IndexAfter(key, '=', value);
    var part := key + ['='] + value;
    assert part[..|key|] == key && part[|key| + 1..] == value;
  }

  lemma {:induction false} ParamTextSplits(d: Dialect, pairs: Pairs)
    requires pairs != []
    ensures Split(ParamText(d, pairs), '&') == Parts(d, pairs) && ParamText(d, pairs) != []
  {
    hide Split, PairText;
    var n := |pairs| - 1;
    PairCuts(d, pairs[n]);
    SplitLacking(PairText(d, pairs[n]), '&');
    if n == 0 {
      assert Parts(d, pairs[..0]) == [];
    } else {
      ParamTextSplits(d, pairs[..n]);
      SplitJoined(ParamText(d, pairs[..n]), PairText(d, pairs[n]), '&');
    }
  }

  // Go's reader.

  lemma {:induction false} MapOfKeys(pairs: Pairs, key: Text)
    ensures key in MapOf(pairs) <==> exists i :: 0 <= i < |pairs| && pairs[i].0 == key
  {
    if pairs != [] {
      var n := |pairs| - 1;
      MapOfKeys(pairs[..n], key);
      if pairs[n].0 != key && key in MapOf(pairs) {
        var i :| 0 <= i < n && pairs[..n][i].0 == key;
        assert pairs[i].0 == key;
      }
      if exists i :: 0 <= i < |pairs| && pairs[i].0 == key {
        var i :| 0 <= i < |pairs| && pairs[i].0 == key;
        assert i < n ==> pairs[..n][i].0 == key;
      }
    }
  }

  /** One more pair for Go's reader, with a key it has not met before. */
  lemma {:induction false} GoQueryMore(d: Dialect, parts: seq<Text>, pair: (Text, Text))
    requires GoQuery(parts).Some? && pair.0 !in GoQuery(parts).value
    ensures GoQuery(parts + [PairText(d, pair)]) == Some(GoQuery(parts).value[pair.0 := pair.1])
  {
    hide Cut, PairText, Unescape, Escape;
    var all := parts + [PairText(d, pair)];
    assert all[..|all| - 1] == parts;
    PairCuts(d, pair);
    UnescapeUndoes(d, Go, pair.0);
    UnescapeUndoes(d, Go, pair.1);
    SeenAsIs(d, Go, pair.0);
    SeenAsIs(d, Go, pair.1);
    assert [] + pair.1 == pair.1;
  }

  lemma {:induction false} GoQueryReads(d: Dialect, pairs: Pairs)
    requires Distinct(pairs)
    ensures GoQuery(Parts(d, pairs)) == Some(MapOf(pairs))
  {
    if pairs != [] {
      hide GoQuery, PairText;
      var n := |pairs| - 1;
      GoQueryReads(d, pairs[..n]);
      LastKeyIsNew(pairs);
      GoQueryMore(d, Parts(d, pairs[..n]), pairs[n]);
    }
  }

  /** What the protocol uses for types: letters and digits, in upper case. */
  ghost predicate KindOk(kind: Text) {
    Lacks(kind, ':') && IsUpper(kind)
  }

  lemma {:induction false} GoReads(d: Dialect, kind: Text, pairs: Pairs)
    requires KindOk(kind) && Distinct(pairs)
    ensures ParseGo(Serialise(d, kind, pairs)) == Message(kind, MapOf(pairs))
  {
    hide Split, ParamText, GoQuery, MapOf;
    UpperStays(kind);
    if pairs == [] {
      IndexAfter(kind, ':', []);
      EmptyMap();
    } else {
      ParamTextSplits(d, pairs);
      GoQueryReads(d, pairs);
      var query := ParamText(d, pairs);
      IndexAfter(kind, ':', query);
      var text := kind + [':'] + query;
      assert text[|kind| + 1..] == query && text[..|kind|] == kind;
    }
  }

  lemma {:induction false} EmptyMap()
    ensures MapOf([]) == map[]
  {}

  /** `pairs` lists the parameters in some order. */
  ghost predicate Enumerates(pairs: Pairs, parameters: map<Text, Text>) {
    Distinct(pairs) && MapOf(pairs) == parameters
  }

  /** Go reads back what Go writes, whatever order the map is walked in. */
  lemma {:induction false} GoRoundTrip(message: Message, pairs: Pairs)
    requires KindOk(message.kind) && Enumerates(pairs, message.parameters)
    ensures ParseGo(Serialise(Go, message.kind, pairs)) == message
  {
    GoReads(Go, message.kind, pairs);
  }

  function WithoutEmpty(m: map<Text, Text>): map<Text, Text> {
    map k | k in m && m[k] != [] :: m[k]
  }

  lemma {:induction false} NonEmptyMembers(pairs: Pairs, i: nat)
    requires i < |NonEmpty(pairs)|
    ensures NonEmpty(pairs)[i] in pairs
  {
    var n := |pairs| - 1;
    if i < |NonEmpty(pairs[..n])| {
      NonEmptyMembers(pairs[..n], i);
    }
  }

  lemma {:induction false} NonEmptyDistinct(pairs: Pairs)
    requires Distinct(pairs)
    ensures Distinct(NonEmpty(pairs))
  {
    if pairs != [] {
      var n := |pairs| - 1;
      NonEmptyDistinct(pairs[..n]);
      forall i | 0 <= i < |NonEmpty(pairs[..n])| ensures NonEmpty(pairs[..n])[i].0 != pairs[n].0 {
        NonEmptyMembers(pairs[..n], i);
      }
    }
  }

  lemma {:induction false} LastKeyIsNew(pairs: Pairs)
    requires Distinct(pairs) && pairs != []
    ensures pairs[|pairs| - 1].0 !in MapOf(pairs[..|pairs| - 1])
  {
    var n := |pairs| - 1;
    MapOfKeys(pairs[..n], pairs[n].0);
    assert forall i :: 0 <= i < n ==> pairs[..n][i].0 == pairs[i].0 != pairs[n].0;
  }

  lemma {:induction false} WithoutEmptyMore(m: map<Text, Text>, k: Text, v: Text)
    ensures v != [] ==> WithoutEmpty(m[k := v]) == WithoutEmpty(m)[k := v]
    ensures v == [] && k !in m ==> WithoutEmpty(m[k := v]) == WithoutEmpty(m)
  {}

  lemma {:induction false} NonEmptyKeeps(pairs: Pairs)
    requires Distinct(pairs)
    ensures MapOf(NonEmpty(pairs)) == WithoutEmpty(MapOf(pairs))
  {
    if pairs != [] {
      hide WithoutEmpty;
      var n := |pairs| - 1;
      NonEmptyKeeps(pairs[..n]);
      LastKeyIsNew(pairs);
      WithoutEmptyMore(MapOf(pairs[..n]), pairs[n].0, pairs[n].1);
      MapOfMore(NonEmpty(pairs[..n]), pairs[n]);
      assert NonEmpty(pairs[..n]) + [] == NonEmpty(pairs[..n]);
    }
  }

  lemma {:induction false} MapOfMore(pairs: Pairs, pair: (Text, Text))
    ensures MapOf(pairs + [pair]) == MapOf(pairs)[pair.0 := pair.1]
  {
    assert (pairs + [pair])[..|pairs|] == pairs;
  }

  /** Go reads what JavaScript writes, less the empty values. */
  lemma {:induction false} GoReadsJs(message: Message, pairs: Pairs)
    requires KindOk(message.kind) && Enumerates(pairs, message.parameters)
    ensures var read := ParseGo(Serialise(Js, message.kind, NonEmpty(pairs)));
            && read.kind == message.kind
            && read.parameters == WithoutEmpty(message.parameters)
            && forall k :: read.GetParameter(k) == message.GetParameter(k)
  {
    NonEmptyKeeps(pairs);
    NonEmptyDistinct(pairs);
    GoReads(Js, message.kind, NonEmpty(pairs));
  }

  // The JavaScript reader.

  predicate Plain(s: Text) {
    Lacks(s, ' ') && ValidUtf8(s)
  }

  ghost predicate AllPlain(m: map<Text, Text>) {
    forall k :: k in m ==> Plain(k) && Plain(m[k])
  }

  /** What reaches JavaScript from Go has no spaces and is UTF-8, whatever was sent. */
  lemma {:induction false} JsQueryMore(parts: seq<Text>, writer: Dialect, pair: (Text, Text))
    ensures var key, value := Seen(writer, Js, pair.0), Seen(writer, Js, pair.1);
            JsQuery(parts + [PairText(writer, pair)]) ==
            if ValidUtf8(key) && ValidUtf8(value) then JsQuery(parts)[key := value] else JsQuery(parts)
  {
    hide Cut, PairText, Unescape, Escape, ValidUtf8;
    var all := parts + [PairText(writer, pair)];
    assert all[..|all| - 1] == parts;
    PairCuts(writer, pair);
    UnescapeUndoes(writer, Js, pair.0);
    UnescapeUndoes(writer, Js, pair.1);
  }

  lemma {:induction false} JsQueryIsPlain(pairs: Pairs)
    ensures AllPlain(JsQuery(Parts(Go, pairs)))
  {
    if pairs != [] {
      hide JsQuery, PairText, ValidUtf8;
      var n := |pairs| - 1;
      JsQueryIsPlain(pairs[..n]);
      JsQueryMore(Parts(Go, pairs[..n]), Go, pairs[n]);
      SeenAsIs(Go, Js, pairs[n].0);
      SeenAsIs(Go, Js, pairs[n].1);
    }
  }

  /** Every pair is one the reader sees as it is. */
  ghost predicate Legible(writer: Dialect, pairs: Pairs) {
    forall i :: 0 <= i < |pairs| ==>
      && ValidUtf8(pairs[i].0) && ValidUtf8(pairs[i].1)
      && (writer.Go? ==> Lacks(pairs[i].0, ' ') && Lacks(pairs[i].1, ' '))
  }

  lemma {:induction false} JsQueryReads(writer: Dialect, pairs: Pairs)
    requires Legible(writer, pairs)
    ensures JsQuery(Parts(writer, pairs)) == MapOf(pairs)
  {
    if pairs != [] {
      hide JsQuery, PairText, ValidUtf8;
      var n := |pairs| - 1;
      assert Legible(writer, pairs[..n]);
      JsQueryReads(writer, pairs[..n]);
      JsQueryMore(Parts(writer, pairs[..n]), writer, pairs[n]);
      SeenAsIs(writer, Js, pairs[n].0);
      SeenAsIs(writer, Js, pairs[n].1);
    }
  }

  lemma {:induction false} JsSplits(d: Dialect, kind: Text, pairs: Pairs)
    requires KindOk(kind)
    ensures ParseJs(Serialise(d, kind, pairs)) == Message(kind, JsQuery(Parts(d, pairs)))
  {
    hide Split, ParamText;
    UpperStays(kind);
    if pairs == [] {
      IndexAfter(kind, ':', []);
    } else {
      hide JsQuery;
      ParamTextSplits(d, pairs);
      var query := ParamText(d, pairs);
      IndexAfter(kind, ':', query);
      var text := kind + [':'] + query;
      assert text[|kind| + 1..] == query && text[..|kind|] == kind;
    }
  }

  lemma {:induction false} PairsLegible(pairs: Pairs, i: nat)
    requires Distinct(pairs) && i < |pairs|
    ensures pairs[i].0 in MapOf(pairs) && MapOf(pairs)[pairs[i].0] == pairs[i].1
  {
    if i < |pairs| - 1 {
      PairsLegible(pairs[..|pairs| - 1], i);
    }
  }

  /** JavaScript reads back what Go writes exactly when no key or value has a space, and all are UTF-8. */
  lemma {:induction false} JsReadsGoExactlyWhen(message: Message, pairs: Pairs)
    requires KindOk(message.kind) && Enumerates(pairs, message.parameters)
    ensures ParseJs(Serialise(Go, message.kind, pairs)) == message <==> AllPlain(message.parameters)
  {
    hide JsQuery, ValidUtf8, MapOf;
    JsSplits(Go, message.kind, pairs);
    JsQueryIsPlain(pairs);
    if AllPlain(message.parameters) {
      forall i | 0 <= i < |pairs| ensures Plain(pairs[i].0) && Plain(pairs[i].1) {
        PairsLegible(pairs, i);
      }
      JsQueryReads(Go, pairs);
    }
  }

  /** JavaScript reads back what JavaScript writes, less the empty values. */
  lemma {:induction false} JsRoundTrip(message: Message, pairs: Pairs)
    requires KindOk(message.kind) && Enumerates(pairs, message.parameters)
    requires forall k :: k in message.parameters ==> ValidUtf8(k) && ValidUtf8(message.parameters[k])
    ensures ParseJs(Serialise(Js, message.kind, NonEmpty(pairs))) ==
            message.(parameters := WithoutEmpty(message.parameters))
  {
    hide JsQuery, ValidUtf8;
    NonEmptyKeeps(pairs);
    NonEmptyDistinct(pairs);
    JsSplits(Js, message.kind, NonEmpty(pairs));
    forall i | 0 <= i < |NonEmpty(pairs)| ensures ValidUtf8(NonEmpty(pairs)[i].0) && ValidUtf8(NonEmpty(pairs)[i].1) {
      PairsLegible(NonEmpty(pairs), i);
    }
    JsQueryReads(Js, NonEmpty(pairs));
  }

  // The code itself, with its loops.

  lemma {:induction false} WalkNothing()
    ensures Distinct([]) && ParamText(Go, []) == [] && MapOf([]) == map[]
  {}

  /** The walk reaches one more parameter. */
  lemma {:induction false} WalkOn(pairs: Pairs, pair: (Text, Text))
    requires Distinct(pairs) && pair.0 !in MapOf(pairs)
    ensures Distinct(pairs + [pair])
    ensures MapOf(pairs + [pair]) == MapOf(pairs)[pair.0 := pair.1]
  {
    MapOfMore(pairs, pair);
    forall i | 0 <= i < |pairs| ensures pairs[i].0 != pair.0 {
      MapOfKeys(pairs, pairs[i].0);
    }
  }

  lemma {:induction false} TextGrows(pairs: Pairs, pair: (Text, Text))
    ensures ParamText(Go, pairs + [pair]) ==
            (if ParamText(Go, pairs) != [] then ParamText(Go, pairs) + "&" else []) + PairText(Go, pair)
  {
    hide PairText;
    assert (pairs + [pair])[..|pairs|] == pairs;
    if pairs != [] {
      ParamTextSplits(Go, pairs);
    } else {
      assert [] + PairText(Go, pair) == PairText(Go, pair);
    }
  }

  function Visited(m: map<Text, Text>, todo: set<Text>): map<Text, Text> {
    map k | k in m && k !in todo :: m[k]
  }

  lemma {:induction false} VisitOn(m: map<Text, Text>, todo: set<Text>, k: Text)
    requires k in todo && k in m
    ensures k !in Visited(m, todo)
    ensures Visited(m, todo - {k}) == Visited(m, todo)[k := m[k]]
  {}

  lemma {:induction false} VisitEnds(m: map<Text, Text>)
    ensures Visited(m, m.Keys) == map[] && Visited(m, {}) == m
    ensures |m| == 0 <==> m == map[]
  {}

  /** The map is walked in any order. */
  method SerialiseMessage(message: Message) returns (text: Text)
    ensures exists pairs :: Enumerates(pairs, message.parameters) && text == Serialise(Go, message.kind, pairs)
  {
    ghost var pairs: Pairs := [];
    hide ParamText, MapOf, Distinct, PairText, Visited;
    WalkNothing();
    VisitEnds(message.parameters);
    if |message.parameters| == 0 {
      assert Enumerates(pairs, message.parameters) && message.kind == Serialise(Go, message.kind, pairs);
      return message.kind;
    }
    var paramStr: Text := "";
    var todo := message.parameters.Keys;
    while todo != {}
      invariant todo <= message.parameters.Keys
      invariant Distinct(pairs) && paramStr == ParamText(Go, pairs)
      invariant MapOf(pairs) == Visited(message.parameters, todo)
      decreases todo
    {
      var k :| k in todo;
      var v := message.parameters[k];
      VisitOn(message.parameters, todo, k);
      todo := todo - {k};
      WalkOn(pairs, (k, v));
      TextGrows(pairs, (k, v));
      pairs := pairs + [(k, v)];
      if |paramStr| > 0 {
        paramStr := paramStr + "&";
      }
      paramStr := paramStr + PairText(Go, (k, v));
    }
    text := message.kind + ":" + paramStr;
    assert Enumerates(pairs, message.parameters) && text == Serialise(Go, message.kind, pairs);
  }

  method ParseWebsocketProtocolMessage(str: Text) returns (message: Message)
    ensures message == ParseGo(str)
  {
    hide GoQuery, Split, ToUpper;
    var colonIndex := IndexOf(str, ':');
    if colonIndex >= |str| - 1 {
      return Message(ToUpper(str), map[]);
    }
    var msgType := ToUpper(str[..colonIndex]);
    var q, failed := ParseQuery(Split(str[colonIndex + 1..], '&'));
    message := Message(msgType, if failed then map[] else q);
  }

  /** An error does not stop the scan, but makes the result void. */
  method ParseQuery(parts: seq<Text>) returns (q: map<Text, Text>, failed: bool)
    ensures GoQuery(parts) == if failed then None else Some(q)
  {
    hide Unescape, Cut;
    q, failed := map[], false;
    for i := 0 to |parts|
      invariant GoQuery(parts[..i]) == if failed then None else Some(q)
    {
      var part := parts[i];
      assert parts[..i + 1][..i] == parts[..i];
      if exists j :: 0 <= j < |part| && part[j] == ';' {
        failed := true;
        continue;
      }
      if part == [] {
        continue;
      }
      var (k, v) := Cut(part);
      var key, value := Unescape(Go, k), Unescape(Go, v);
      if key.None? || value.None? {
        failed := true;
        continue;
      }
      q := q[key.value := (if key.value in q then q[key.value] else []) + value.value];
    }
    assert parts[..|parts|] == parts;
  }

  function Join(parts: seq<Text>): Text {
    if parts == [] then []
    else if |parts| == 1 then parts[0]
    else Join(parts[..|parts| - 1]) + "&" + parts[|parts| - 1]
  }

  lemma {:induction false} JoinOfParts(d: Dialect, pairs: Pairs)
    ensures Join(Parts(d, pairs)) == ParamText(d, pairs) && |Parts(d, pairs)| == |pairs|
  {
    hide PairText;
    if pairs != [] {
      var n := |pairs| - 1;
      JoinOfParts(d, pairs[..n]);
      assert Parts(d, pairs)[..n] == Parts(d, pairs[..n]);
    }
  }

  lemma {:induction false} PartsMore(d: Dialect, pairs: Pairs, pair: (Text, Text))
    ensures Parts(d, pairs + [pair]) == Parts(d, pairs) + [PairText(d, pair)]
  {
    assert (pairs + [pair])[..|pairs|] == pairs;
  }

  /** A JavaScript map is walked in the order in which it was filled. */
  method SerializeCdnWebSocketMessage(kind: Text, parameters: Pairs) returns (text: Text)
    ensures text == Serialise(Js, kind, NonEmpty(parameters))
  {
    hide PairText, ParamText, Parts, Join;
    var paramArray: seq<Text> := [];
    JoinOfParts(Js, []);
    for i := 0 to |parameters|
      invariant paramArray == Parts(Js, NonEmpty(parameters[..i]))
    {
      var (k, v) := parameters[i];
      assert parameters[..i + 1][..i] == parameters[..i];
      if v == [] {
        assert NonEmpty(parameters[..i]) + [] == NonEmpty(parameters[..i]);
        continue;
      }
      PartsMore(Js, NonEmpty(parameters[..i]), (k, v));
      paramArray := paramArray + [PairText(Js, (k, v))];
    }
    assert parameters[..|parameters|] == parameters;
    var paramStr := Join(paramArray);
    JoinOfParts(Js, NonEmpty(parameters));
    if NonEmpty(parameters) != [] {
      ParamTextSplits(Js, NonEmpty(parameters));
    } else {
      NoParameters(Js);
    }
    text := kind + if paramStr != [] then ":" + paramStr else [];
    assert paramStr != [] ==> text == kind + ":" + paramStr;
    assert kind + [] == kind;
  }

  lemma {:induction false} NoParameters(d: Dialect)
    ensures ParamText(d, []) == []
  {}

  method ParseCdnWebSocketMessage(msg: Text) returns (message: Message)
    ensures message == ParseJs(msg)
  {
    hide DecodeUriComponent, Cut;
    var colon := IndexOf(msg, ':');
    var msgType := ToUpper(msg[..colon]);
    if colon == |msg| {
      assert msg[..colon] == msg;
      return Message(msgType, map[]);
    }
    var parts := Split(msg[colon + 1..], '&');
    var msgParams: map<Text, Text> := map[];
    for i := 0 to |parts|
      invariant msgParams == JsQuery(parts[..i])
    {
      var p := parts[i];
      assert parts[..i + 1][..i] == parts[..i];
      if p == [] {
        continue;
      }
      var (k, v) := Cut(p);
      var key, value := DecodeUriComponent(k), DecodeUriComponent(v);
      if key.Some? && value.Some? {
        msgParams := msgParams[key.value := value.value];
      }
    }
    assert parts[..|parts|] == parts;
    message := Message(msgType, msgParams);
  }
}
