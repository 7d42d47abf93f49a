/** What decoding a playlist makes of spaces, letter case and missing ends, and how the encoded lines look. */
module PlaylistRules {
  import opened Floats
  import opened Fragments
  import opened Playlists
  import opened Texts

  // Trimming.

  /** What is left begins and ends with no space, and only spaces are gone. */
  lemma {:induction false} TrimSpaceTakesSpaces(s: Text) returns (i: nat, j: nat)
    ensures i <= j <= |s| && TrimSpace(s) == s[i..j]
    ensures forall k :: 0 <= k < |s| && !(i <= k < j) ==> IsSpace(s[k])
    ensures i < j ==> !IsSpace(s[i]) && !IsSpace(s[j - 1])
    decreases |s|
  {
    if s != [] && IsSpace(s[0]) {
      var i', j' := TrimSpaceTakesSpaces(s[1..]);
      i, j := i' + 1, j' + 1;
      TrimSpaceFront(s);
      hide TrimSpace, IsSpace;
      SliceBehind(s, i', j');
      assert forall k :: 0 < k < |s| ==> s[k] == s[1..][k - 1];
    } else if s != [] && IsSpace(s[|s| - 1]) {
      i, j := TrimSpaceTakesSpaces(s[..|s| - 1]);
      hide IsSpace;
    } else {
      i, j := 0, |s|;
    }
  }

  lemma {:induction false} SliceBehind(s: Text, i: nat, j: nat)
    requires s != [] && i <= j < |s|
    ensures s[1..][i..j] == s[i + 1..j + 1]
  {}

  lemma {:induction false} TrimSpaceFront(s: Text)
    requires s != [] && IsSpace(s[0])
    ensures TrimSpace(s) == TrimSpace(s[1..])
  {}

  lemma {:induction false} SpaceBehind(s: Text, c: Octet)
    requires IsSpace(c)
    ensures TrimSpace(s + [c]) == TrimSpace(s)
  {
    if s != [] && IsSpace(s[0]) {
      SpaceBehind(s[1..], c);
      assert (s + [c])[1..] == s[1..] + [c];
    } else {
      assert (s + [c])[..|s|] == s;
      assert s == [] ==> (s + [c])[1..] == [];
    }
  }

  ghost predicate SameButForSpaces(one: seq<Text>, other: seq<Text>) {
    |one| == |other| && forall i :: 0 <= i < |one| ==> TrimSpace(one[i]) == TrimSpace(other[i])
  }

  /** Spaces around a line never matter: not around a tag, and not around a name. */
  lemma {:induction false} SpacesDoNotMatter(p: Playlist, one: seq<Text>, other: seq<Text>)
    requires SameButForSpaces(one, other)
    ensures DecodeFrom(p, one) == DecodeFrom(p, other)
    decreases |one|
  {
    if one != [] {
      var next, next' := if |one| > 1 then Some(one[1]) else None, if |one| > 1 then Some(other[1]) else None;
      assert SameButForSpaces(one[1..], other[1..]);
      SameLine(p, one[0], other[0], next, next');
      hide TrimSpace, DecodeLine;
      SpacesDoNotMatter(DecodeLine(p, one[0], next), one[1..], other[1..]);
    }
  }

  lemma {:induction false} SameLine(p: Playlist, one: Text, other: Text, next: Option<Text>, next': Option<Text>)
    requires TrimSpace(one) == TrimSpace(other) && (next.Some? <==> next'.Some?)
    requires next.Some? ==> TrimSpace(next.value) == TrimSpace(next'.value)
    ensures DecodeLine(p, one, next) == DecodeLine(p, other, next')
  {
    hide TrimSpace, Split, ToUpper, Atoi, ParseFloat, TrimComma;
  }

  const CR: Octet := 13 as char

  function WithReturns(lines: seq<Text>): seq<Text> {
    seq(|lines|, i requires 0 <= i < |lines| => lines[i] + [CR])
  }

  /** Lines may end in CR LF as well. */
  lemma {:induction false} ReturnsDoNotMatter(lines: seq<Text>)
    requires forall i :: 0 <= i < |lines| ==> Lacks(lines[i], '\n')
    ensures Decode(Unlines(WithReturns(lines))) == Decode(Unlines(lines))
  {
    hide Split, TrimSpace, Unlines, DecodeFrom;
    var returned := WithReturns(lines);
    var blank: Text := [];
    SplitUnlines(lines, blank);
    SplitUnlines(returned, blank);
    assert Unlines(lines) + blank == Unlines(lines) && Unlines(returned) + blank == Unlines(returned);
    forall i | 0 <= i < |lines| ensures TrimSpace(returned[i]) == TrimSpace(lines[i]) {
      SpaceBehind(lines[i], CR);
    }
    SpacesDoNotMatter(EMPTY, returned + Split(blank, '\n'), lines + Split(blank, '\n'));
  }

  // Letter case.

  /** A tag may be written in any case, and so may VOD. */
  lemma {:induction false} CaseDoesNotMatter(p: Playlist, tag: Text, value: Text, next: Option<Text>)
    requires tag != [] && tag[0] == '#' && Solid(tag) && value != [] && Solid(value)
    ensures DecodeLine(p, TagLine(tag, value), next) == DecodeTag(p, ToUpper(tag), value, next)
    ensures DecodeTag(p, PLAYLIST_TYPE, ToUpper(value), next) == DecodeTag(p, PLAYLIST_TYPE, value, next)
  {
    hide DecodeTag, Split, TrimSpace, ToUpper;
    var line := TagLine(tag, value);
    assert line[0] == '#' && line[|line| - 1] == value[|value| - 1];
    TrimmedStays(line);
    assert line[|tag|] == ':';
    assert Lacks(END_LIST, ':');
    SplitJoined(tag, value, ':');
    SplitLacking(tag, ':');
    SplitLacking(value, ':');
    TypeOfAnyCase(p, value, next);
  }

  lemma {:induction false} TypeOfAnyCase(p: Playlist, value: Text, next: Option<Text>)
    ensures DecodeTag(p, PLAYLIST_TYPE, ToUpper(value), next) == DecodeTag(p, PLAYLIST_TYPE, value, next)
  {
    UpperTwice(value);
    hide ToUpper;
  }

  /** A duration may lack its comma; one on the last line, with no name to follow, is dropped. */
  lemma {:induction false} DurationLines(p: Playlist, value: Text, name: Text)
    requires value != [] && value[|value| - 1] != ','
    ensures DecodeTag(p, EXT_INF, value + [','], Some(name)) == DecodeTag(p, EXT_INF, value, Some(name))
    ensures DecodeTag(p, EXT_INF, value, None) == p
  {
    hide ParseFloat, TrimSpace, Atoi, ToUpper;
    assert (value + [','])[..|value|] == value;
    assert EXT_INF[1] == 'E' && EXT_INF[4] == 'I';
  }

  // The encoded text.

  lemma {:induction false} SegmentLinesAlternate(segments: seq<Segment>, i: nat)
    requires i < |segments|
    ensures |SegmentLines(segments)| == 2 * |segments|
    ensures SegmentLines(segments)[2 * i] == "#EXTINF:" + PrintFixed(segments[i].duration) + ","
    ensures SegmentLines(segments)[2 * i + 1] == segments[i].name
  {
    hide PrintFixed;
    if i > 0 {
      SegmentLinesAlternate(segments[1..], i - 1);
    } else {
      SegmentLinesCount(segments);
      assert "#EXTINF" + [':'] + (PrintFixed(segments[0].duration) + [',']) ==
             "#EXTINF:" + PrintFixed(segments[0].duration) + ",";
    }
  }

  lemma {:induction false} SegmentLinesCount(segments: seq<Segment>)
    ensures |SegmentLines(segments)| == 2 * |segments|
  {
    if segments != [] {
      SegmentLinesCount(segments[1..]);
    }
  }

  /** The lines of an encoded playlist: where each of them is, and that there are no others. */
  predicate LinesOf(p: Playlist, lines: seq<Text>) {
    var first := if p.isVod then 5 else 4;
    var end := first + 2 * |p.segments|;
    && |lines| == end + (if p.isEnded then 2 else 1)
    && lines[0] == "#EXTM3U" && (p.isVod ==> lines[1] == "#EXT-X-PLAYLIST-TYPE:VOD")
    && lines[first - 3] == "#EXT-X-VERSION:" + Print(p.version)
    && lines[first - 2] == "#EXT-X-TARGETDURATION:" + Print(p.targetDuration)
    && lines[first - 1] == "#EXT-X-MEDIA-SEQUENCE:" + Print(p.mediaSequence)
    && (forall i {:trigger p.segments[i]} :: 0 <= i < |p.segments| ==>
          && lines[first + 2 * i] == "#EXTINF:" + PrintFixed(p.segments[i].duration) + ","
          && lines[first + 2 * i + 1] == p.segments[i].name)
    && (p.isEnded ==> lines[end] == "#EXT-X-ENDLIST")
    && lines[|lines| - 1] == []
  }

  lemma {:induction false} EncodedLines(p: Playlist)
    requires forall k :: 0 <= k < |p.segments| ==> Lacks(p.segments[k].name, '\n')
    ensures LinesOf(p, Split(Encode(p), '\n'))
  {
    hide Split, Unlines, Print, PrintFixed, Lacks, SegmentLines, TagLine, HeadLines;
    var head, middle, end := HeadLines(p), SegmentLines(p.segments), EndLines(p.isEnded);
    var blank: Text := [];
    var all := head + middle + end;
    LinesLack(p);
    SegmentLinesCount(p.segments);
    SplitUnlines(all, blank);
    BlankSplits();
    assert Unlines(all) + blank == Unlines(all);
    assert all + [blank] == Split(Encode(p), '\n');
    HeadIs(p);
    forall i | 0 <= i < |p.segments|
      ensures middle[2 * i] == "#EXTINF:" + PrintFixed(p.segments[i].duration) + ","
      ensures middle[2 * i + 1] == p.segments[i].name
    {
      SegmentLinesAlternate(p.segments, i);
    }
  }

  lemma {:induction false} BlankSplits()
    ensures Split([], '\n') == [[]]
  {}

  lemma {:induction false} HeadIs(p: Playlist)
    ensures var first := if p.isVod then 5 else 4;
            var lines := HeadLines(p);
            && |lines| == first && lines[0] == "#EXTM3U" && (p.isVod ==> lines[1] == "#EXT-X-PLAYLIST-TYPE:VOD")
            && lines[first - 3] == "#EXT-X-VERSION:" + Print(p.version)
            && lines[first - 2] == "#EXT-X-TARGETDURATION:" + Print(p.targetDuration)
            && lines[first - 1] == "#EXT-X-MEDIA-SEQUENCE:" + Print(p.mediaSequence)
  {
    hide Print;
    assert "#EXT-X-PLAYLIST-TYPE" + [':'] + "VOD" == "#EXT-X-PLAYLIST-TYPE:VOD";
    assert "#EXT-X-VERSION" + [':'] + Print(p.version) == "#EXT-X-VERSION:" + Print(p.version);
    assert "#EXT-X-TARGETDURATION" + [':'] + Print(p.targetDuration) ==
           "#EXT-X-TARGETDURATION:" + Print(p.targetDuration);
    assert "#EXT-X-MEDIA-SEQUENCE" + [':'] + Print(p.mediaSequence) ==
           "#EXT-X-MEDIA-SEQUENCE:" + Print(p.mediaSequence);
  }

  lemma {:induction false} SolidLacksFeed(s: Text)
    requires Solid(s)
    ensures Lacks(s, '\n')
  {}

  lemma {:induction false} TagLineLacksFeed(tag: Text, value: Text)
    requires Solid(tag) && Solid(value)
    ensures Lacks(TagLine(tag, value), '\n')
  {}

  lemma {:induction false} InfLineLacksFeed(duration: Duration)
    ensures Lacks(InfLine(duration), '\n')
  {
    hide PrintFixed;
    FixedIsSolid(duration);
    TagLineLacksFeed(EXT_INF, PrintFixed(duration) + [',']);
  }

  lemma {:induction false} SegmentLinesLack(segments: seq<Segment>)
    requires forall k :: 0 <= k < |segments| ==> Lacks(segments[k].name, '\n')
    ensures forall i :: 0 <= i < |SegmentLines(segments)| ==> Lacks(SegmentLines(segments)[i], '\n')
  {
    hide InfLine, Lacks;
    if segments != [] {
      InfLineLacksFeed(segments[0].duration);
      SegmentLinesLack(segments[1..]);
    }
  }

  lemma {:induction false} TagsAreSolid()
    ensures Solid(M3U) && Solid(PLAYLIST_TYPE) && Solid(VOD) && Solid(VERSION) && Solid(TARGET_DURATION)
    ensures Solid(MEDIA_SEQUENCE)
  {}

  lemma {:induction false} HeadLinesLack(p: Playlist)
    ensures forall i :: 0 <= i < |HeadLines(p)| ==> Lacks(HeadLines(p)[i], '\n')
  {
    PrintIsSolid(p.version);
    PrintIsSolid(p.targetDuration);
    PrintIsSolid(p.mediaSequence);
    TagsAreSolid();
    hide TagLine, Print, Lacks, Solid;
    SolidLacksFeed(M3U);
    TagLineLacksFeed(PLAYLIST_TYPE, VOD);
    TagLineLacksFeed(VERSION, Print(p.version));
    TagLineLacksFeed(TARGET_DURATION, Print(p.targetDuration));
    TagLineLacksFeed(MEDIA_SEQUENCE, Print(p.mediaSequence));
  }

  lemma {:induction false} LinesLack(p: Playlist)
    requires forall k :: 0 <= k < |p.segments| ==> Lacks(p.segments[k].name, '\n')
    ensures var lines := HeadLines(p) + SegmentLines(p.segments) + EndLines(p.isEnded);
            forall i :: 0 <= i < |lines| ==> Lacks(lines[i], '\n')
  {
    SolidLacksFeed(END_LIST);
    hide HeadLines, SegmentLines, Lacks;
    HeadLinesLack(p);
    SegmentLinesLack(p.segments);
  }

  // Numbers.

  /** Decimal digits without leading zeros: with the value they read back as, that leaves one text for each number. */
  lemma {:induction false} NoLeadingZero(n: nat)
    ensures PrintNat(n)[0] == '0' <==> n == 0
    ensures n == 0 ==> PrintNat(n) == "0"
  {
    if n >= 10 {
      NoLeadingZero(n / 10);
    }
  }

  /** Six decimals behind the point, and a sign for negative numbers only. */
  lemma {:induction false} FixedShape(d: Duration)
    requires d.Decimal?
    ensures var s := PrintFixed(d);
            && |s| >= 8 && s[|s| - 7] == '.' && AllDigits(s[|s| - 6..])
            && (s[0] == '-' <==> d.mantissa < 0)
            && AllDigits(s[if d.mantissa < 0 then 1 else 0..|s| - 7])
  {
    hide Millionths, PowerOfTen, Quotient, Remainder;
    var size := Millionths(Magnitude(d.mantissa), d.places);
    var whole := PrintNat(Quotient(size, PowerOfTen(6)));
    var decimals := PrintPadded(Remainder(size, PowerOfTen(6)), 6);
    hide PrintNat, PrintPadded;
    var s := PrintFixed(d);
    assert s == Sign(d.mantissa < 0) + whole + (['.'] + decimals) by {
      assert Sign(d.mantissa < 0) + (whole + (['.'] + decimals)) == Sign(d.mantissa < 0) + whole + (['.'] + decimals);
    }
    assert s[|s| - 6..] == decimals;
    assert s[if d.mantissa < 0 then 1 else 0..|s| - 7] == whole;
  }

  /** Rounding goes to the nearest whole number, and to the even one when two are as near. */
  lemma {:induction false} RoundsToNearestEven(n: nat, divisor: nat)
    requires divisor > 0
    ensures var q := DivideRounding(n, divisor);
            var off: int := n - Times(q, divisor);
            && 0 <= 2 * off + divisor <= 2 * divisor
            && (2 * off == divisor || 2 * off + divisor == 0 ==> q % 2 == 0)
  {
    DivideBack(n, divisor);
    hide Quotient, Remainder, Times;
    TimesMore(Quotient(n, divisor), divisor);
  }

  lemma {:induction false} TimesMore(q: int, divisor: int)
    ensures Times(q + 1, divisor) == Times(q, divisor) + divisor
  {}

  /** Lowest terms, and the same number: mantissas compare at the other's power of ten. */
  lemma {:induction false} ReduceKeepsValue(mantissa: int, places: nat)
    ensures var d := Reduce(mantissa, places);
            && d.Decimal? && LowestTerms(d) && d.places <= places
            && Times(d.mantissa, PowerOfTen(places - d.places)) == mantissa
    decreases places
  {
    var d := Reduce(mantissa, places);
    if places > 0 && mantissa % 10 == 0 {
      ReduceKeepsValue(mantissa / 10, places - 1);
      RegroupTimes(d.mantissa, PowerOfTen(places - 1 - d.places));
    } else {
      RegroupTimes(mantissa, 1);
    }
  }

  /** An exponent moves the point: digits with a point among them, then `e`, then a signed number. */
  lemma {:induction false} ExponentMovesPoint(negative: bool, whole: Text, decimals: Text, e: Octet, exponent: int)
    requires whole != [] && AllDigits(whole) && AllDigits(decimals) && (e == 'e' || e == 'E')
    ensures var mantissa := Signed(negative, NatValue(whole + decimals));
            ParseDecimal(negative, whole + ['.'] + decimals + [e] + Print(exponent)) ==
            Some(if exponent <= |decimals| then Reduce(mantissa, |decimals| - exponent)
                 else Decimal(Times(mantissa, PowerOfTen(exponent - |decimals|)), 0))
  {
    hide NatValue, Reduce, Print, Atoi, Times, PowerOfTen, IndexOf;
    var number := whole + ['.'] + decimals;
    var s := number + [e] + Print(exponent);
    AtoiInvertsPrint(exponent);
    assert s[..|number|] == number && s[|number| + 1..] == Print(exponent);
    assert ToUpper(s) == ToUpper(number) + ['E'] + ToUpper(Print(exponent));
    NoExponent(number);
    hide ToUpper, AllNumeric;
    IndexAfter(number, 'E', ToUpper(Print(exponent)));
    IndexAfter(whole, '.', decimals);
    assert number[..|whole|] == whole && number[|whole| + 1..] == decimals;
  }

  /** Infinity in either spelling and any case, with either sign; and what is not a number, without one. */
  lemma {:induction false} SpecialsRead(s: Text)
    requires ToUpper(s) == "INF" || ToUpper(s) == "INFINITY" || ToUpper(s) == "NAN"
    ensures ToUpper(s) == "NAN" ==> ParseFloat(s) == Some(NotANumber) && ParseFloat("-" + s).None?
    ensures ToUpper(s) != "NAN" ==>
              && ParseFloat(s) == Some(Infinite(false)) == ParseFloat("+" + s)
              && ParseFloat("-" + s) == Some(Infinite(true))
  {
    assert ToUpper(s)[0] == Upper(s[0]);
    assert ("-" + s)[1..] == s && ("+" + s)[1..] == s;
    assert ToUpper("-" + s)[0] == '-' && ToUpper("+" + s)[0] == '+';
    if ToUpper(s) == "NAN" {
      NotDecimal(true, s);
    }
    hide ToUpper, ParseDecimal;
  }

  lemma {:induction false} NotDecimal(negative: bool, s: Text)
    requires ToUpper(s) == "NAN"
    ensures ParseDecimal(negative, s).None?
  {
    assert Lacks(ToUpper(s), 'E');
    IndexAfter(ToUpper(s), 'E', []);
    assert s[..|s|] == s;
    assert Upper(s[0]) == ToUpper(s)[0] && Upper(s[1]) == ToUpper(s)[1] && Upper(s[2]) == ToUpper(s)[2];
    assert !IsDigit(s[0]) && Lacks(s, '.');
    IndexAfter(s, '.', []);
    var blank: Text := [];
    assert s + blank == s;
  }

  /** Atoi takes digits with either sign or none, and leading zeros count for nothing. */
  lemma {:induction false} AtoiReads(digits: Text)
    requires digits != [] && AllDigits(digits)
    ensures Atoi(digits) == Some(NatValue(digits)) == Atoi("+" + digits)
    ensures Atoi("-" + digits) == Some(Signed(true, NatValue(digits)))
    ensures NatValue("0" + digits) == NatValue(digits)
  {
    ZeroInFront(digits);
    hide NatValue;
    assert ("-" + digits)[1..] == digits && ("+" + digits)[1..] == digits;
    assert IsDigit(digits[0]);
  }

  lemma {:induction false} ZeroInFront(digits: Text)
    requires AllDigits(digits)
    ensures AllDigits("0" + digits) && NatValue("0" + digits) == NatValue(digits)
  {
    var zero: Text := "0";
    assert NatValue(zero) == 0 by {
      assert zero[..0] == [];
    }
    hide NatValue;
    ValueAppend(zero, digits);
    assert Times(0, PowerOfTen(|digits|)) == 0;
  }

  lemma {:induction false} AtoiFailsExactlyWhen(s: Text)
    ensures Atoi(s).None? <==>
            s == [] || s == "-" || s == "+" || exists i :: 0 <= i < |s| && !IsDigit(s[i]) && (i > 0 || s[i] !in "+-")
  {
    hide NatValue;
    var digits := if s != [] && (s[0] == '-' || s[0] == '+') then s[1..] else s;
    if !AllDigits(digits) {
      var k :| 0 <= k < |digits| && !IsDigit(digits[k]);
      var i := k + |s| - |digits|;
      assert s[i] == digits[k];
    }
    if i :| 0 <= i < |s| && !IsDigit(s[i]) && (i > 0 || s[i] !in "+-") {
      assert digits[i - (|s| - |digits|)] == s[i];
    }
  }
}
