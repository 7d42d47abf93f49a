/** Searching MP4 boxes by path (client-js/src/mp4-tools.ts; ISO/IEC 14496-12, section 4.2). */
module Mp4Boxes {
  import opened Fragments
  import opened Int32
  import opened Sequences

  /** A read past the end of a typed array is undefined, and counts as zero in bit operations. */
  function At(data: seq<Byte>, i: nat): (value: nat)
    ensures value < 0x100
  {
    if i < |data| then data[i] as int else 0
  }

  function ReadSint32(data: seq<Byte>, offset: nat): int {
    BitOr(
      BitOr(
        BitOr(
          ShiftLeft(At(data, offset), 24),
          ShiftLeft(At(data, offset + 1), 16)),
        ShiftLeft(At(data, offset + 2), 8)),
      At(data, offset + 3))
  }

  function ReadUint32(data: seq<Byte>, offset: nat): (value: nat)
    ensures value < TWO_32
  {
    var val := ReadSint32(data, offset);
    if val < 0 then TWO_32 + val else val
  }

  /** Uint8Array.subarray clamps both ends. */
  function Subarray(data: seq<Byte>, begin: nat, end: nat): seq<Byte> {
    var e := if end > |data| then |data| else end;
    if begin >= e then [] else data[begin..e]
  }

  function BinToStr(data: seq<Byte>): string {
    seq(|data|, i requires 0 <= i < |data| => data[i] as int as char)
  }

  /** Where the box at `i` ends. Sizes 0 and 1 reach to the end of the data; sizes 2 to 7 are taken at their word.
      The offset always grows, so the search ends on any bytes. */
  function EndOfBox(data: seq<Byte>, i: nat): (end: nat)
    requires i < |data|
    ensures end > i
  {
    var size := ReadUint32(data, i);
    if size > 1 then i + size else |data|
  }

  function FindFrom(data: seq<Byte>, path: seq<string>, i: nat): seq<seq<Byte>>
    decreases |path|, |data| - i
  {
    if path == [] || i >= |data| then []
    else
      var end := EndOfBox(data, i);
      var here :=
        if BinToStr(Subarray(data, i + 4, i + 8)) != path[0] then []
        else if |path| == 1 then [Subarray(data, i + 8, end)]
        else FindFrom(Subarray(data, i + 8, end), path[1..], 0);
      here + FindFrom(data, path, end)
  }

  lemma {:induction false} FindStep(data: seq<Byte>, path: seq<string>, i: nat, end: nat, name: string, body: seq<Byte>)
    requires path != [] && i < |data| && EndOfBox(data, i) == end
    requires BinToStr(Subarray(data, i + 4, i + 8)) == name && Subarray(data, i + 8, end) == body
    ensures FindFrom(data, path, i) ==
            (if name != path[0] then [] else if |path| == 1 then [body] else FindFrom(body, path[1..], 0)) +
              FindFrom(data, path, end)
  {
    hide EndOfBox, BinToStr, Subarray;
  }

  method FindBox(data: seq<Byte>, path: seq<string>) returns (results: seq<seq<Byte>>)
    ensures results == FindFrom(data, path, 0)
    decreases |path|
  {
    hide EndOfBox, BinToStr, Subarray;
    results := [];
    if |path| == 0 {
      return;
    }
    var end := |data|;
    var i := 0;
    Regroup(FindFrom(data, path, 0), [], []);
    while i < end
      invariant results + FindFrom(data, path, i) == FindFrom(data, path, 0)
      decreases end - i
    {
      hide FindFrom;
      ghost var before := results;
      var type_ := BinToStr(Subarray(data, i + 4, i + 8));
      var endbox := EndOfBox(data, i);
      ghost var here := [];
      if type_ == path[0] {
        if |path| == 1 {
          here := [Subarray(data, i + 8, endbox)];
          results := results + [Subarray(data, i + 8, endbox)];
        } else {
          var subresults := FindBox(Subarray(data, i + 8, endbox), path[1..]);
          here := subresults;
          if |subresults| > 0 {
            results := results + subresults;
          }
        }
      }
      FindStep(data, path, i, endbox, type_, Subarray(data, i + 8, endbox));
      Regroup(before, here, FindFrom(data, path, endbox));
      i := endbox;
    }
    Regroup(results, [], []);
  }

  // What the search inverts: the serialisation of a forest of boxes.

  datatype Box = Leaf(name: string, payload: seq<Byte>) | Container(name: string, children: seq<Box>)

  function NameBytes(name: string): seq<Byte> {
    seq(|name|, i requires 0 <= i < |name| => (name[i] as int % 0x100) as Byte)
  }

  /** Big-endian, 32 bits. */
  function SizeBytes(n: nat): seq<Byte> {
    var high := n / 0x100 / 0x100;
    [(high / 0x100 % 0x100) as Byte, (high % 0x100) as Byte, (n / 0x100 % 0x100) as Byte, (n % 0x100) as Byte]
  }

  function Serialise(boxes: seq<Box>): seq<Byte> {
    if boxes == [] then []
    else
      var body := if boxes[0].Leaf? then boxes[0].payload else Serialise(boxes[0].children);
      SizeBytes(8 + |body|) + NameBytes(boxes[0].name) + body + Serialise(boxes[1..])
  }

  function Body(box: Box): seq<Byte> {
    if box.Leaf? then box.payload else Serialise(box.children)
  }

  predicate NameOk(name: string) {
    |name| == 4 && forall i :: 0 <= i < 4 ==> name[i] as int < 0x100
  }

  /** Names of four bytes, and sizes that fit the size field. */
  predicate WellFormed(boxes: seq<Box>) {
    boxes == [] ||
    (&& NameOk(boxes[0].name)
     && 8 + |Body(boxes[0])| < TWO_32
     && (boxes[0].Container? ==> WellFormed(boxes[0].children))
     && WellFormed(boxes[1..]))
  }

  /** The payloads on a path, in document order. A leaf in the interior of the path is searched as it is. */
  function Select(boxes: seq<Box>, path: seq<string>): seq<seq<Byte>>
    decreases |path|, |boxes|
  {
    if path == [] || boxes == [] then []
    else
      var here :=
        if boxes[0].name != path[0] then []
        else if |path| == 1 then [Body(boxes[0])]
        else if boxes[0].Container? then Select(boxes[0].children, path[1..])
        else FindFrom(boxes[0].payload, path[1..], 0);
      here + Select(boxes[1..], path)
  }

  lemma {:induction false} BigEndian(n: nat)
    requires n < TWO_32
    ensures var high := n / 0x100 / 0x100;
            n == high / 0x100 % 0x100 * 0x100_0000 + high % 0x100 * 0x1_0000 + n / 0x100 % 0x100 * 0x100 + n % 0x100
  {}

  /** The detour through signed shifts and ors is harmless: the value read is the big-endian one. */
  lemma {:induction false} ReadIsBigEndian(data: seq<Byte>, i: nat)
    ensures ReadUint32(data, i) ==
            At(data, i) * 0x100_0000 + At(data, i + 1) * 0x1_0000 + At(data, i + 2) * 0x100 + At(data, i + 3)
  {
    hide At, BitOr, ShiftLeft;
    FourBytes(At(data, i), At(data, i + 1), At(data, i + 2), At(data, i + 3));
  }

  lemma {:induction false} SizeReadsBack(n: nat, before: seq<Byte>, after: seq<Byte>)
    requires n < TWO_32
    ensures ReadUint32(before + SizeBytes(n) + after, |before|) == n
  {
    hide ReadUint32;
    var data := before + SizeBytes(n) + after;
    assert forall k :: 0 <= k < 4 ==> data[|before| + k] == SizeBytes(n)[k];
    ReadIsBigEndian(data, |before|);
    BigEndian(n);
  }

  lemma {:induction false} NameReadsBack(name: string)
    requires NameOk(name)
    ensures BinToStr(NameBytes(name)) == name
  {}

  /** What the search finds at the start of a box. */
  lemma {:induction false} BoxReadsBack(before: seq<Byte>, name: string, body: seq<Byte>, after: seq<Byte>)
    requires NameOk(name) && 8 + |body| < TWO_32
    ensures var data := before + (SizeBytes(8 + |body|) + NameBytes(name) + body + after);
            var i := |before|;
            && i < |data|
            && EndOfBox(data, i) == i + 8 + |body|
            && BinToStr(Subarray(data, i + 4, i + 8)) == name
            && Subarray(data, i + 8, i + 8 + |body|) == body
  {
    var size := SizeBytes(8 + |body|);
    var data := before + (size + NameBytes(name) + body + after);
    assert data == before + size + (NameBytes(name) + body + after);
    SizeReadsBack(8 + |body|, before, NameBytes(name) + body + after);
    NameReadsBack(name);
    hide SizeBytes, NameBytes, ReadUint32, BinToStr;
    HeaderLength(8 + |body|, name);
    assert Subarray(data, |before| + 4, |before| + 8) == NameBytes(name);
  }

  /** The first box of a forest, and where it lies. */
  lemma {:induction false} FirstBox(before: seq<Byte>, boxes: seq<Box>, tail: seq<Byte>)
    requires WellFormed(boxes) && boxes != []
    ensures var data := before + Serialise(boxes) + tail;
            var i, body := |before|, Body(boxes[0]);
            && i < |data|
            && EndOfBox(data, i) == i + 8 + |body|
            && BinToStr(Subarray(data, i + 4, i + 8)) == boxes[0].name
            && Subarray(data, i + 8, i + 8 + |body|) == body
  {
    var body := Body(boxes[0]);
    var rest := Serialise(boxes[1..]);
    BoxReadsBack(before, boxes[0].name, body, rest + tail);
    AroundBox(before, boxes, tail);
    hide *;
  }

  ghost function Upto(before: seq<Byte>, box: Box): seq<Byte> {
    before + (SizeBytes(8 + |Body(box)|) + NameBytes(box.name) + Body(box))
  }

  lemma {:induction false} AroundBox(before: seq<Byte>, boxes: seq<Box>, tail: seq<Byte>)
    requires boxes != [] && NameOk(boxes[0].name)
    ensures var data, head, body := before + Serialise(boxes) + tail, Upto(before, boxes[0]), Body(boxes[0]);
            && data == head + Serialise(boxes[1..]) + tail
            && |head| == |before| + 8 + |body| && |head| + |Serialise(boxes[1..])| == |before| + |Serialise(boxes)|
            && data == before + (SizeBytes(8 + |body|) + NameBytes(boxes[0].name) + body +
                                  (Serialise(boxes[1..]) + tail))
  {
    var body := Body(boxes[0]);
    var size, name, rest := SizeBytes(8 + |body|), NameBytes(boxes[0].name), Serialise(boxes[1..]);
    HeaderLength(8 + |body|, boxes[0].name);
    assert Serialise(boxes) == size + name + body + rest;
    assert Upto(before, boxes[0]) == before + (size + name + body);
    hide *;
    Reassociate(before, size + name + body, rest, tail);
  }

  lemma {:induction false} Reassociate(a: seq<Byte>, b: seq<Byte>, c: seq<Byte>, d: seq<Byte>)
    ensures a + (b + c) + d == a + b + c + d == a + (b + (c + d))
  {}

  /** What the search takes from one box. */
  function Taken(box: Box, path: seq<string>): seq<seq<Byte>>
    requires path != []
  {
    if box.name != path[0] then []
    else if |path| == 1 then [Body(box)]
    else if box.Container? then Select(box.children, path[1..])
    else FindFrom(box.payload, path[1..], 0)
  }

  lemma {:induction false} BodyIs(box: Box)
    ensures box.Leaf? ==> Body(box) == box.payload
  {}

  /** The step over the first box, given what a search in its contents finds. */
  lemma {:induction false} FindOverBox(before: seq<Byte>, boxes: seq<Box>, tail: seq<Byte>, path: seq<string>)
    requires WellFormed(boxes) && boxes != [] && path != []
    requires boxes[0].Container? && |path| > 1 ==>
               FindFrom(Body(boxes[0]), path[1..], 0) == Select(boxes[0].children, path[1..])
    ensures var data := before + Serialise(boxes) + tail;
            FindFrom(data, path, |before|) ==
              Taken(boxes[0], path) + FindFrom(data, path, |before| + 8 + |Body(boxes[0])|)
  {
    hide EndOfBox, BinToStr, Subarray, Serialise, NameOk, FindFrom, WellFormed, Select;
    FirstBox(before, boxes, tail);
    var data, i, body := before + Serialise(boxes) + tail, |before|, Body(boxes[0]);
    BodyIs(boxes[0]);
    hide Body;
    FindStep(data, path, i, i + 8 + |body|, boxes[0].name, body);
  }

  lemma {:induction false} FindInvertsFrom(before: seq<Byte>, boxes: seq<Box>, tail: seq<Byte>, path: seq<string>)
    requires WellFormed(boxes)
    ensures var data := before + Serialise(boxes) + tail;
            FindFrom(data, path, |before|) == Select(boxes, path) + FindFrom(data, path, |before| + |Serialise(boxes)|)
    decreases |path|, |boxes|, 0
  {
    hide EndOfBox, BinToStr, Subarray, Serialise, NameOk, FindFrom, NameBytes, SizeBytes;
    var data := before + Serialise(boxes) + tail;
    if path == [] {
      FindNoPath(data, path, |before|);
      FindNoPath(data, path, |before| + |Serialise(boxes)|);
    } else if boxes == [] {
      SerialiseNothing();
    } else {
      var head := Upto(before, boxes[0]);
      AroundBox(before, boxes, tail);
      if boxes[0].Container? && |path| > 1 {
        FindInvertsSerialise(boxes[0].children, path[1..]);
      }
      FindOverBox(before, boxes, tail, path);
      FindInvertsFrom(head, boxes[1..], tail, path);
      assert Select(boxes, path) == Taken(boxes[0], path) + Select(boxes[1..], path);
      hide *;
      Regroup(Taken(boxes[0], path), Select(boxes[1..], path), FindFrom(data, path, |before| + |Serialise(boxes)|));
    }
  }

  /** On the bytes of any well-formed forest the search returns exactly what lies on the path. */
  lemma {:induction false} FindInvertsSerialise(boxes: seq<Box>, path: seq<string>)
    requires WellFormed(boxes)
    ensures FindFrom(Serialise(boxes), path, 0) == Select(boxes, path)
    decreases |path|, |boxes|, 1
  {
    hide WellFormed, FindFrom, Serialise, Select;
    FindInvertsFrom([], boxes, [], path);
    assert [] + Serialise(boxes) + [] == Serialise(boxes);
    FindPastEnd(Serialise(boxes), path, |Serialise(boxes)|);
    Regroup(Select(boxes, path), [], []);
  }

  lemma {:induction false} FindNoPath(data: seq<Byte>, path: seq<string>, i: nat)
    requires path == []
    ensures FindFrom(data, path, i) == []
  {}

  lemma {:induction false} FindPastEnd(data: seq<Byte>, path: seq<string>, i: nat)
    requires i >= |data|
    ensures FindFrom(data, path, i) == []
  {}

  lemma {:induction false} SerialiseNothing()
    ensures Serialise([]) == []
  {}

  lemma {:induction false} HeaderLength(n: nat, name: string)
    requires NameOk(name)
    ensures |SizeBytes(n)| == 4 && |NameBytes(name)| == 4
  {}

  /** Interior matches of the path are containers. */
  predicate Navigable(boxes: seq<Box>, path: seq<string>)
    decreases |path|, |boxes|
  {
    |path| <= 1 || boxes == [] ||
    (&& (boxes[0].name == path[0] ==> boxes[0].Container? && Navigable(boxes[0].children, path[1..]))
     && Navigable(boxes[1..], path))
  }

  /** The payloads on a path whose interior matches are containers. */
  function OnPath(boxes: seq<Box>, path: seq<string>): seq<seq<Byte>>
    decreases |path|, |boxes|
  {
    if path == [] || boxes == [] then []
    else
      (if boxes[0].name != path[0] then []
       else if |path| == 1 then [Body(boxes[0])]
       else if boxes[0].Container? then OnPath(boxes[0].children, path[1..])
       else [])
      + OnPath(boxes[1..], path)
  }

  lemma {:induction false} SelectIsOnPath(boxes: seq<Box>, path: seq<string>)
    requires Navigable(boxes, path)
    ensures Select(boxes, path) == OnPath(boxes, path)
    decreases |path|, |boxes|
  {
    if path != [] && boxes != [] {
      SelectIsOnPath(boxes[1..], path);
      if |path| > 1 && boxes[0].name == path[0] {
        SelectIsOnPath(boxes[0].children, path[1..]);
      }
    }
  }

  lemma {:induction false} FindBoxFollowsPath(boxes: seq<Box>, path: seq<string>)
    requires WellFormed(boxes) && Navigable(boxes, path)
    ensures FindFrom(Serialise(boxes), path, 0) == OnPath(boxes, path)
  {
    FindInvertsSerialise(boxes, path);
    SelectIsOnPath(boxes, path);
  }

  // Boxes that are not well-formed.

  /** A size of 0 or 1, or one that goes past the end of the data. */
  predicate OpenSize(n: nat, body: seq<Byte>) {
    n < TWO_32 && (n <= 1 || n >= 8 + |body|)
  }

  /** Such a box reaches to the end of the data. */
  lemma {:induction false} OpenBoxReadsBack(before: seq<Byte>, n: nat, name: string, body: seq<Byte>)
    requires OpenSize(n, body) && NameOk(name)
    ensures var data := before + (SizeBytes(n) + NameBytes(name) + body);
            && |before| < |data| && EndOfBox(data, |before|) >= |data|
            && BinToStr(Subarray(data, |before| + 4, |before| + 8)) == name
            && Subarray(data, |before| + 8, EndOfBox(data, |before|)) == body
  {
    var data := before + (SizeBytes(n) + NameBytes(name) + body);
    assert data == before + SizeBytes(n) + (NameBytes(name) + body);
    SizeReadsBack(n, before, NameBytes(name) + body);
    NameReadsBack(name);
    HeaderLength(n, name);
    hide SizeBytes, NameBytes, ReadUint32, BinToStr;
    assert Subarray(data, |before| + 4, |before| + 8) == NameBytes(name);
  }

  /** Behind any well-formed forest such a box is found with everything that is left, and ends the search. */
  lemma {:induction false} OpenBoxEndsTheSearch(boxes: seq<Box>, n: nat, name: string, body: seq<Byte>,
                                                path: seq<string>)
    requires WellFormed(boxes) && OpenSize(n, body) && NameOk(name) && path != []
    ensures FindFrom(Serialise(boxes) + (SizeBytes(n) + NameBytes(name) + body), path, 0) ==
            Select(boxes, path) +
            if name != path[0] then [] else if |path| == 1 then [body] else FindFrom(body, path[1..], 0)
  {
    hide EndOfBox, BinToStr, Subarray, Serialise, NameOk, FindFrom, SizeBytes, NameBytes;
    var before := Serialise(boxes);
    var tail := SizeBytes(n) + NameBytes(name) + body;
    FindInvertsFrom([], boxes, tail, path);
    assert [] + before + tail == before + tail;
    OpenBoxReadsBack(before, n, name, body);
    var data := before + tail;
    var end := EndOfBox(data, |before|);
    FindStep(data, path, |before|, end, name, body);
    FindPastEnd(data, path, end);
    Regroup(if name != path[0] then [] else if |path| == 1 then [body] else FindFrom(body, path[1..], 0), [], []);
  }

  /** A size of 2 to 7 is taken at its word: the box has no contents, and the search goes on inside its header. */
  lemma {:induction false} ShortBoxHasNothing(before: seq<Byte>, n: nat, rest: seq<Byte>, path: seq<string>)
    requires 2 <= n <= 7 && path != []
    ensures var data := before + SizeBytes(n) + rest;
            FindFrom(data, path, |before|) ==
            (if BinToStr(Subarray(data, |before| + 4, |before| + 8)) == path[0] && |path| == 1 then [[]] else []) +
              FindFrom(data, path, |before| + n)
  {
    var data := before + SizeBytes(n) + rest;
    SizeReadsBack(n, before, rest);
    assert EndOfBox(data, |before|) == |before| + n;
    assert Subarray(data, |before| + 8, |before| + n) == [];
    var name := BinToStr(Subarray(data, |before| + 4, |before| + 8));
    hide EndOfBox, BinToStr, Subarray, FindFrom, SizeBytes;
    FindStep(data, path, |before|, |before| + n, name, []);
    FindPastEnd([], path[1..], 0);
  }

  /** Bytes past the end read as zeros. */
  lemma {:induction false} ShortReadIsPadded(data: seq<Byte>, i: nat)
    ensures ReadUint32(data, i) == ReadUint32(data + [0, 0, 0, 0], i)
    ensures i >= |data| ==> ReadUint32(data, i) == 0
  {
    ReadIsBigEndian(data, i);
    ReadIsBigEndian(data + [0, 0, 0, 0], i);
    hide ReadUint32;
  }
}
