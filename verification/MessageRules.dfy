/** What the parsers of Messages make of any text, well-formed or not, what the escaped text looks like,
    and which texts are UTF-8 (RFC 3629, section 3). */
module MessageRules {
  import opened Fragments
  import opened Texts
  import opened Messages

  // The type.

  lemma {:induction false} SplitAtColon(kind: Text, rest: Text)
    requires Lacks(kind, ':')
    ensures var str := kind + [':'] + rest;
            IndexOf(str, ':') == |kind| && str[..|kind|] == kind && str[|kind| + 1..] == rest
  {
    hide IndexOf;
    IndexAfter(kind, ':', rest);
  }

  /** The type comes out in upper case, so the case it is written in does not matter. */
  lemma {:induction false} CaseOfKindIsIgnored(kind: Text, rest: Text)
    requires Lacks(kind, ':')
    ensures var str, shouted := kind + [':'] + rest, ToUpper(kind) + [':'] + rest;
            && (rest != [] ==> ParseGo(shouted) == ParseGo(str) && ParseGo(str).kind == ToUpper(kind))
            && ParseJs(shouted) == ParseJs(str) && ParseJs(str).kind == ToUpper(kind)
    ensures ParseGo(kind) == ParseGo(ToUpper(kind)) == Message(ToUpper(kind), map[]) == ParseJs(kind)
  {
    hide GoQuery, JsQuery, Split, ToUpper, IndexOf;
    UpperTwice(kind);
    assert Lacks(ToUpper(kind), ':') by { UpperLacksColon(kind); }
    SplitAtColon(kind, rest);
    SplitAtColon(ToUpper(kind), rest);
    IndexAfter(kind, ':', []);
    IndexAfter(ToUpper(kind), ':', []);
  }

  lemma {:induction false} UpperLacksColon(s: Text)
    requires Lacks(s, ':')
    ensures Lacks(ToUpper(s), ':')
  {}

  /** A colon at the very end belongs to the type for Go, and is dropped by JavaScript. */
  lemma {:induction false} ColonAtTheEnd(kind: Text)
    requires Lacks(kind, ':')
    ensures ParseGo(kind + [':']) == Message(ToUpper(kind) + [':'], map[])
    ensures ParseJs(kind + [':']) == Message(ToUpper(kind), map[])
  {
    hide ToUpper, IndexOf, JsQuery, Split;
    SplitAtColon(kind, []);
    assert kind + [':'] + [] == kind + [':'];
    UpperOfColon(kind);
    NothingToRead();
  }

  lemma {:induction false} UpperOfColon(s: Text)
    ensures ToUpper(s + [':']) == ToUpper(s) + [':']
  {}

  lemma {:induction false} NothingToRead()
    ensures JsQuery(Split([], '&')) == map[]
  {
    var blank: Text := [];
    assert [blank][..0] == [];
  }

  // The query.

  predicate IsHex(c: Octet) {
    '0' <= c <= '9' || 'A' <= c <= 'F' || 'a' <= c <= 'f'
  }

  /** A percent sign without two hexadecimal digits after it. */
  predicate BadEscapeAt(s: Text, i: int) {
    0 <= i < |s| && s[i] == '%' && !(i + 2 < |s| && IsHex(s[i + 1]) && IsHex(s[i + 2]))
  }

  lemma {:induction false} HexExactlyWhen(c: Octet)
    ensures HexValue(c).Some? <==> IsHex(c)
    ensures HexValue(c).Some? ==> HexValue(c).value < 16 && c != '%'
  {}

  /** How many octets one step of the decoder takes. */
  function Stride(s: Text): nat
    requires s != []
  {
    if s[0] == '%' && |s| >= 3 then 3 else 1
  }

  lemma {:induction false} UnescapeStep(d: Dialect, s: Text)
    requires s != []
    ensures Unescape(d, s).None? <==> BadEscapeAt(s, 0) || Unescape(d, s[Stride(s)..]).None?
  {
    hide HexValue;
    if |s| >= 3 {
      HexExactlyWhen(s[1]);
      HexExactlyWhen(s[2]);
    }
  }

  /** A text cannot be unescaped exactly when some percent sign in it lacks its two digits. */
  lemma {:induction false} UnescapeFailsExactlyWhen(d: Dialect, s: Text)
    ensures Unescape(d, s).None? <==> exists i :: BadEscapeAt(s, i)
    decreases |s|
  {
    if s != [] {
      var rest := s[Stride(s)..];
      UnescapeStep(d, s);
      UnescapeFailsExactlyWhen(d, rest);
      hide Unescape;
      if i :| BadEscapeAt(rest, i) {
        assert BadEscapeAt(s, i + Stride(s));
      }
      if i :| BadEscapeAt(s, i) {
        assert i >= Stride(s) ==> BadEscapeAt(rest, i - Stride(s));
        assert 0 < i < Stride(s) ==> BadEscapeAt(s, 0);
      }
    }
  }

  /** A part of a query that Go does not take. */
  predicate Refused(part: Text) {
    || !Lacks(part, ';')
    || Unescape(Go, Cut(part).0).None? || Unescape(Go, Cut(part).1).None?
  }

  /** One part Go does not take makes the whole query void. */
  lemma {:induction false} GoQueryFailsExactlyWhen(parts: seq<Text>)
    ensures GoQuery(parts).None? <==> exists i :: 0 <= i < |parts| && Refused(parts[i])
  {
    if parts != [] {
      var n := |parts| - 1;
      GoQueryFailsExactlyWhen(parts[..n]);
      BlankIsTaken();
      assert GoQuery(parts).None? <==> GoQuery(parts[..n]).None? || Refused(parts[n]) by {
        hide Unescape, Cut;
      }
      hide GoQuery, Refused;
      assert parts == parts[..n] + [parts[n]];
      if i :| 0 <= i < |parts| && Refused(parts[i]) && i < n {
        assert Refused(parts[..n][i]);
      }
    }
  }

  lemma {:induction false} BadPartVoidsAll(kind: Text, rest: Text)
    requires Lacks(kind, ':') && rest != []
    requires exists i :: 0 <= i < |Split(rest, '&')| && Refused(Split(rest, '&')[i])
    ensures ParseGo(kind + [':'] + rest) == Message(ToUpper(kind), map[])
  {
    hide Split, ToUpper, IndexOf, Refused, GoQuery;
    SplitAtColon(kind, rest);
    GoQueryFailsExactlyWhen(Split(rest, '&'));
  }

  lemma {:induction false} BlankIsTaken()
    ensures !Refused([])
  {}

  /** What all pairs of one key hold, one after the other. */
  function ValuesOf(pairs: Pairs, key: Text): Text {
    if pairs == [] then []
    else
      var last := pairs[|pairs| - 1];
      ValuesOf(pairs[..|pairs| - 1], key) + if last.0 == key then last.1 else []
  }

  predicate Joined(read: map<Text, Text>, pairs: Pairs, key: Text) {
    && (key in read <==> exists i :: 0 <= i < |pairs| && pairs[i].0 == key)
    && (if key in read then read[key] else []) == ValuesOf(pairs, key)
  }

  lemma {:induction false} GoQueryAdds(d: Dialect, parts: seq<Text>, pair: (Text, Text))
    requires GoQuery(parts).Some?
    ensures var read := GoQuery(parts).value;
            GoQuery(parts + [PairText(d, pair)]) ==
              Some(read[pair.0 := (if pair.0 in read then read[pair.0] else []) + pair.1])
  {
    hide Cut, PairText, Unescape, Escape;
    var all := parts + [PairText(d, pair)];
    assert all[..|all| - 1] == parts;
    PairCuts(d, pair);
    UnescapeUndoes(d, Go, pair.0);
    UnescapeUndoes(d, Go, pair.1);
    SeenAsIs(d, Go, pair.0);
    SeenAsIs(d, Go, pair.1);
  }

  lemma {:induction false} ValuesMore(pairs: Pairs, pair: (Text, Text), key: Text)
    ensures ValuesOf(pairs + [pair], key) == ValuesOf(pairs, key) + if pair.0 == key then pair.1 else []
    ensures (exists i :: 0 <= i < |pairs + [pair]| && (pairs + [pair])[i].0 == key) <==>
            pair.0 == key || exists i :: 0 <= i < |pairs| && pairs[i].0 == key
  {
    var all := pairs + [pair];
    assert all[..|pairs|] == pairs && all[|pairs|] == pair;
    assert forall i :: 0 <= i < |pairs| ==> all[i] == pairs[i];
  }

  lemma {:induction false} JoinedMore(read: map<Text, Text>, pairs: Pairs, pair: (Text, Text), key: Text)
    requires Joined(read, pairs, key)
    ensures Joined(read[pair.0 := (if pair.0 in read then read[pair.0] else []) + pair.1], pairs + [pair], key)
  {
    ValuesMore(pairs, pair, key);
    hide ValuesOf;
    assert ValuesOf(pairs, key) + [] == ValuesOf(pairs, key);
  }

  lemma {:induction false} NothingIsJoined(d: Dialect, key: Text)
    ensures GoQuery(Parts(d, [])) == Some(map[]) && Joined(map[], [], key)
  {}

  lemma {:induction false} PairsAreJoined(d: Dialect, pairs: Pairs, key: Text)
    ensures GoQuery(Parts(d, pairs)).Some? && Joined(GoQuery(Parts(d, pairs)).value, pairs, key)
  {
    if pairs != [] {
      hide GoQuery, PairText, Joined, ValuesOf;
      var n := |pairs| - 1;
      PairsAreJoined(d, pairs[..n], key);
      GoQueryAdds(d, Parts(d, pairs[..n]), pairs[n]);
      JoinedMore(GoQuery(Parts(d, pairs[..n])).value, pairs[..n], pairs[n], key);
      assert pairs == pairs[..n] + [pairs[n]];
    } else {
      hide *;
      NothingIsJoined(d, key);
    }
  }

  /** Keys may repeat: Go joins their values in order. JavaScript keeps the last one. */
  lemma {:induction false} RepeatedKeys(d: Dialect, kind: Text, pairs: Pairs, key: Text)
    requires KindOk(kind)
    ensures Joined(ParseGo(Serialise(d, kind, pairs)).parameters, pairs, key)
    ensures Legible(d, pairs) ==> ParseJs(Serialise(d, kind, pairs)).parameters == MapOf(pairs)
  {
    hide JsQuery, GoQuery, Split, ParamText, MapOf, Joined, ValuesOf, Legible;
    JsSplits(d, kind, pairs);
    if Legible(d, pairs) {
      JsQueryReads(d, pairs);
    }
    PairsAreJoined(d, pairs, key);
    GoSplits(d, kind, pairs);
  }

  lemma {:induction false} GoSplits(d: Dialect, kind: Text, pairs: Pairs)
    requires KindOk(kind) && GoQuery(Parts(d, pairs)).Some?
    ensures ParseGo(Serialise(d, kind, pairs)).parameters == GoQuery(Parts(d, pairs)).value
  {
    hide Split, ParamText;
    if pairs == [] {
      IndexAfter(kind, ':', []);
    } else {
      hide GoQuery;
      ParamTextSplits(d, pairs);
      SplitAtColon(kind, ParamText(d, pairs));
    }
  }

  // The escaped text.

  /** The unreserved characters of RFC 3986, section 2.3. */
  predicate Unreserved(c: Octet) {
    'A' <= c <= 'Z' || 'a' <= c <= 'z' || '0' <= c <= '9' || c in "-._~"
  }

  /** Escaped text is unreserved but for percent signs, Go's plus signs, and five marks of JavaScript's. */
  lemma {:induction false} EscapeUses(d: Dialect, s: Text, i: nat)
    requires i < |Escape(d, s)|
    ensures var c := Escape(d, s)[i];
            Unreserved(c) || c == '%' || (d.Go? && c == '+') || (d.Js? && c in "!*'()")
  {
    if i >= |EscapeOctet(d, s[0])| {
      EscapeUses(d, s[1..], i - |EscapeOctet(d, s[0])|);
    }
  }

  predicate Stays(d: Dialect, c: Octet) {
    Unreserved(c) || (d.Js? && c in "!*'()")
  }

  lemma {:induction false} StaysExactlyWhen(d: Dialect, c: Octet)
    ensures |EscapeOctet(d, c)| >= 1
    ensures Stays(d, c) <==> EscapeOctet(d, c) == [c]
  {
    assert !Kept(d, c) && EscapeOctet(d, c) == [c] ==> c == '+' && c == ' ';
  }

  lemma {:induction false} FrontAndRest(front: Text, rest: Text, s: Text)
    requires s != [] && |front| >= 1 && |rest| >= |s| - 1
    ensures front + rest == s <==> front == [s[0]] && rest == s[1..]
  {
    if front + rest == s {
      assert |front| == 1 && front[0] == (front + rest)[0];
      assert (front + rest)[1..] == rest;
    }
  }

  /** Text is left as it is exactly when nothing in it needs escaping. */
  lemma {:induction false} EscapeKeepsExactlyWhen(d: Dialect, s: Text)
    ensures |Escape(d, s)| >= |s|
    ensures Escape(d, s) == s <==> forall i :: 0 <= i < |s| ==> Stays(d, s[i])
  {
    if s != [] {
      EscapeKeepsExactlyWhen(d, s[1..]);
      StaysExactlyWhen(d, s[0]);
      EscapeStep(d, s);
      hide Escape, EscapeOctet, Stays;
      FrontAndRest(EscapeOctet(d, s[0]), Escape(d, s[1..]), s);
      assert forall i :: 0 < i < |s| ==> s[i] == s[1..][i - 1];
    }
  }

  lemma {:induction false} EscapeStep(d: Dialect, s: Text)
    requires s != []
    ensures Escape(d, s) == EscapeOctet(d, s[0]) + Escape(d, s[1..])
  {}

  const HEX: Text := "0123456789ABCDEF"

  lemma {:induction false} HexDigitIsUpper(n: nat)
    requires n < 16
    ensures HexDigit(n) == HEX[n]
  {}

  /** What needs escaping becomes a percent sign and two upper-case digits; a space becomes a plus sign for Go. */
  lemma {:induction false} EscapeWrites(d: Dialect, c: Octet)
    requires !Unreserved(c) && (d.Go? || c !in "!*'()")
    ensures Escape(d, [c]) == if d.Go? && c == ' ' then ['+'] else ['%', HEX[c as nat / 16], HEX[c as nat % 16]]
  {
    EscapeStep(d, [c]);
    EscapeNothing(d);
    HexDigitIsUpper(c as nat / 16);
    HexDigitIsUpper(c as nat % 16);
    hide HexDigit, Escape;
    assert EscapeOctet(d, c) + [] == EscapeOctet(d, c);
  }

  lemma {:induction false} EscapeNothing(d: Dialect)
    ensures Escape(d, []) == []
  {}

  // UTF-8.

  /** Code points but surrogates. */
  predicate Scalar(c: int) {
    0 <= c < 0xD800 || 0xE000 <= c < 0x11_0000
  }

  function Tail(c: nat): Octet {
    (0x80 + c % 0x40) as char
  }

  function Octets(c: int): (s: Text)
    requires Scalar(c)
    ensures s != []
  {
    if c < 0x80 then [c as char]
    else if c < 0x800 then [(0xC0 + c / 0x40) as char, Tail(c)]
    else if c < 0x1_0000 then [(0xE0 + c / 0x1000) as char, Tail(c / 0x40), Tail(c)]
    else [(0xF0 + c / 0x4_0000) as char, Tail(c / 0x1000), Tail(c / 0x40), Tail(c)]
  }

  lemma {:induction false} ShortLength(c: int, rest: Text)
    requires 0 <= c < 0x800
    ensures Utf8Length(Octets(c) + rest) == |Octets(c)|
  {
    var octets := Octets(c);
    var s := octets + rest;
    assert s[0] == octets[0] && (|octets| > 1 ==> s[1] == octets[1]);
  }

  lemma {:induction false} LengthOfThree(c: int, rest: Text)
    requires Scalar(c) && 0x800 <= c < 0x1_0000
    ensures Utf8Length(Octets(c) + rest) == 3
  {
    var a, t, u: Octet := (0xE0 + c / 0x1000) as char, Tail(c / 0x40), Tail(c);
    assert a as int == 0xE0 ==> t as int >= 0xA0;
    assert a as int == 0xED ==> t as int <= 0x9F;
    assert Continues(t, 0x80, 0xBF) && Continues(u, 0x80, 0xBF);
    assert Octets(c) == [a, t, u];
    hide Tail, Octets;
    var s := [a, t, u] + rest;
    assert s[0] == a && s[1] == t && s[2] == u;
  }

  lemma {:induction false} LengthOfFour(c: int, rest: Text)
    requires Scalar(c) && 0x1_0000 <= c
    ensures Utf8Length(Octets(c) + rest) == 4
  {
    var a, t, u, v: Octet := (0xF0 + c / 0x4_0000) as char, Tail(c / 0x1000), Tail(c / 0x40), Tail(c);
    assert a as int == 0xF0 ==> t as int >= 0x90;
    assert a as int == 0xF4 ==> t as int <= 0x8F;
    assert Continues(t, 0x80, 0xBF) && Continues(u, 0x80, 0xBF) && Continues(v, 0x80, 0xBF);
    assert Octets(c) == [a, t, u, v];
    hide Tail, Octets;
    var s := [a, t, u, v] + rest;
    assert s[0] == a && s[1] == t && s[2] == u && s[3] == v;
  }

  lemma {:induction false} LengthOfOctets(c: int, rest: Text)
    requires Scalar(c)
    ensures Utf8Length(Octets(c) + rest) == |Octets(c)|
  {
    hide Utf8Length;
    if c < 0x800 {
      ShortLength(c, rest);
    } else if c < 0x1_0000 {
      LengthOfThree(c, rest);
    } else {
      LengthOfFour(c, rest);
    }
  }

  /** What a leading octet brings, and then each octet that continues. */
  function Grow(c: int, t: Octet): int {
    c * 0x40 + (t as int - 0x80)
  }

  lemma {:induction false} GrowBack(c: nat, t: Octet)
    requires Continues(t, 0x80, 0xBF)
    ensures Grow(c, t) >= 0 && Grow(c, t) / 0x40 == c && Tail(Grow(c, t)) == t
  {}

  lemma {:induction false} TwoOctets(a: Octet, t: Octet)
    requires 0xC2 <= a as int <= 0xDF && Continues(t, 0x80, 0xBF)
    ensures var c := Grow(a as int - 0xC0, t); Scalar(c) && Octets(c) == [a, t]
  {
    GrowBack(a as int - 0xC0, t);
    hide Tail;
  }

  lemma {:induction false} ThreeOctets(a: Octet, t: Octet, u: Octet)
    requires 0xE0 <= a as int <= 0xEF && Continues(u, 0x80, 0xBF)
    requires Continues(t, if a as int == 0xE0 then 0xA0 else 0x80, if a as int == 0xED then 0x9F else 0xBF)
    ensures var c := Grow(Grow(a as int - 0xE0, t), u); Scalar(c) && Octets(c) == [a, t, u]
  {
    GrowBack(a as int - 0xE0, t);
    GrowBack(Grow(a as int - 0xE0, t), u);
    hide Tail;
  }

  lemma {:induction false} FourOctets(a: Octet, t: Octet, u: Octet, v: Octet)
    requires 0xF0 <= a as int <= 0xF4 && Continues(u, 0x80, 0xBF) && Continues(v, 0x80, 0xBF)
    requires Continues(t, if a as int == 0xF0 then 0x90 else 0x80, if a as int == 0xF4 then 0x8F else 0xBF)
    ensures var c := Grow(Grow(Grow(a as int - 0xF0, t), u), v); Scalar(c) && Octets(c) == [a, t, u, v]
  {
    GrowBack(a as int - 0xF0, t);
    GrowBack(Grow(a as int - 0xF0, t), u);
    GrowBack(Grow(Grow(a as int - 0xF0, t), u), v);
    hide Tail;
  }

  /** The octets at the front of a text that has a length are those of a code point. */
  lemma {:induction false} FrontIsScalar(s: Text) returns (c: int)
    requires Utf8Length(s) > 0
    ensures Scalar(c) && Octets(c) == s[..Utf8Length(s)]
  {
    hide Grow, Tail;
    var n := Utf8Length(s);
    if n == 1 {
      c := s[0] as int;
    } else {
      hide Octets, Scalar;
      if n == 2 {
        c := Grow(s[0] as int - 0xC0, s[1]);
        TwoOctets(s[0], s[1]);
      } else if n == 3 {
        c := Grow(Grow(s[0] as int - 0xE0, s[1]), s[2]);
        ThreeOctets(s[0], s[1], s[2]);
      } else {
        c := Grow(Grow(Grow(s[0] as int - 0xF0, s[1]), s[2]), s[3]);
        FourOctets(s[0], s[1], s[2], s[3]);
      }
    }
  }

  predicate AllScalar(points: seq<int>) {
    forall i :: 0 <= i < |points| ==> Scalar(points[i])
  }

  function Encoding(points: seq<int>): Text
    requires AllScalar(points)
  {
    if points == [] then [] else Octets(points[0]) + Encoding(points[1..])
  }

  ghost predicate Encodes(points: seq<int>, s: Text) {
    AllScalar(points) && Encoding(points) == s
  }

  lemma {:induction false} EncodingIsValid(points: seq<int>)
    requires AllScalar(points)
    ensures ValidUtf8(Encoding(points))
  {
    if points != [] {
      hide Utf8Length, Octets;
      EncodingIsValid(points[1..]);
      LengthOfOctets(points[0], Encoding(points[1..]));
      assert Encoding(points)[|Octets(points[0])|..] == Encoding(points[1..]);
    }
  }

  lemma {:induction false} ValidIsEncoding(s: Text) returns (points: seq<int>)
    requires ValidUtf8(s)
    ensures Encodes(points, s)
  {
    if s == [] {
      points := [];
    } else {
      hide Utf8Length, Octets, Scalar, ValidUtf8, Encoding, AllScalar;
      ValidRest(s);
      var c := FrontIsScalar(s);
      var rest := ValidIsEncoding(s[Utf8Length(s)..]);
      points := [c] + rest;
      EncodingMore(c, rest);
      FrontAndBack(s, Utf8Length(s));
    }
  }

  lemma {:induction false} ValidRest(s: Text)
    requires ValidUtf8(s) && s != []
    ensures Utf8Length(s) > 0 && ValidUtf8(s[Utf8Length(s)..])
  {
    hide Utf8Length;
  }

  lemma {:induction false} FrontAndBack(s: Text, n: nat)
    requires n <= |s|
    ensures s[..n] + s[n..] == s
  {}

  lemma {:induction false} EncodingMore(c: int, rest: seq<int>)
    requires Scalar(c) && AllScalar(rest)
    ensures AllScalar([c] + rest) && Encoding([c] + rest) == Octets(c) + Encoding(rest)
  {
    hide Octets, Scalar;
    assert ([c] + rest)[1..] == rest;
  }

  /** The texts decodeURIComponent takes are the encodings of code points: no overlong forms, no surrogates, nothing
      beyond U+10FFFF. */
  lemma {:induction false} ValidUtf8ExactlyWhen(s: Text)
    ensures ValidUtf8(s) <==> exists points :: Encodes(points, s)
  {
    hide ValidUtf8, Encoding;
    if ValidUtf8(s) {
      var points := ValidIsEncoding(s);
      assert Encodes(points, s);
    }
    if points :| Encodes(points, s) {
      EncodingIsValid(points);
    }
  }
}
