/** Strings as Go sees them: sequences of octets. Each character stands for one octet. */
module Texts {
  import opened Fragments

  type Octet = c: char | c as int < 0x100 witness 'a'
  type Text = seq<Octet>

  predicate Lacks(s: Text, c: Octet) {
    forall i :: 0 <= i < |s| ==> s[i] != c
  }

  /** strings.Split, for a separator of one octet. */
  function Split(s: Text, separator: Octet): (parts: seq<Text>)
    ensures parts != []
  {
    if s == [] then [[]] else Prepend(s[0], separator, Split(s[1..], separator))
  }

  function Prepend(c: Octet, separator: Octet, parts: seq<Text>): (more: seq<Text>)
    requires parts != []
    ensures more != []
  {
    if c == separator then [[]] + parts else [[c] + parts[0]] + parts[1..]
  }

  lemma {:induction false} PrependToFront(c: Octet, separator: Octet, front: seq<Text>, back: seq<Text>)
    requires front != []
    ensures Prepend(c, separator, front + back) == Prepend(c, separator, front) + back
  {
    assert (front + back)[1..] == front[1..] + back;
  }

  lemma {:induction false} PrependSeparator(separator: Octet, parts: seq<Text>)
    requires parts != []
    ensures Prepend(separator, separator, parts) == [[]] + parts
  {}

  lemma {:induction false} SplitLacking(s: Text, separator: Octet)
    requires Lacks(s, separator)
    ensures Split(s, separator) == [s]
  {
    if s != [] {
      SplitLacking(s[1..], separator);
      assert [s[0]] + s[1..] == s;
    }
  }

  lemma {:induction false} SplitJoined(a: Text, b: Text, separator: Octet)
    ensures Split(a + [separator] + b, separator) == Split(a, separator) + Split(b, separator)
  {
    hide Prepend;
    var s := a + [separator] + b;
    if a == [] {
      PrependSeparator(separator, Split(b, separator));
      assert s[1..] == b;
    } else {
      SplitJoined(a[1..], b, separator);
      assert s[1..] == a[1..] + [separator] + b;
      PrependToFront(a[0], separator, Split(a[1..], separator), Split(b, separator));
    }
  }

  /** The first position of `c`, or the length of the text when there is none. */
  function IndexOf(s: Text, c: Octet): (i: nat)
    ensures i <= |s|
    ensures Lacks(s[..i], c)
    ensures i < |s| ==> s[i] == c
  {
    if s == [] || s[0] == c then 0 else 1 + IndexOf(s[1..], c)
  }

  lemma {:induction false} IndexAfter(a: Text, c: Octet, b: Text)
    requires Lacks(a, c)
    ensures IndexOf(a + [c] + b, c) == |a|
    ensures IndexOf(a, c) == |a|
  {
    if a != [] {
      IndexAfter(a[1..], c, b);
      assert (a + [c] + b)[1..] == a[1..] + [c] + b;
    }
  }

  /** ASCII case mapping. */
  function Upper(c: Octet): Octet {
    if 'a' <= c <= 'z' then c - 'a' + 'A' else c
  }

  function ToUpper(s: Text): Text {
    seq(|s|, i requires 0 <= i < |s| => Upper(s[i]))
  }

  predicate IsUpper(s: Text) {
    forall i :: 0 <= i < |s| ==> !('a' <= s[i] <= 'z')
  }

  lemma {:induction false} UpperStays(s: Text)
    requires IsUpper(s)
    ensures ToUpper(s) == s
  {}

  lemma {:induction false} UpperTwice(s: Text)
    ensures IsUpper(ToUpper(s)) && ToUpper(ToUpper(s)) == ToUpper(s)
  {}

  // Decimal numbers.

  function Digit(d: nat): Octet
    requires d < 10
  {
    '0' + d as char
  }

  predicate IsDigit(c: Octet) {
    '0' <= c <= '9'
  }

  function DigitValue(c: Octet): nat
    requires IsDigit(c)
  {
    (c - '0') as nat
  }

  /** fmt.Sprint of a natural number. */
  function PrintNat(n: nat): (s: Text)
    ensures s != [] && forall i :: 0 <= i < |s| ==> IsDigit(s[i])
  {
    if n < 10 then [Digit(n)] else PrintNat(n / 10) + [Digit(n % 10)]
  }

  function Print(n: int): Text {
    if n < 0 then "-" + PrintNat(-n) else PrintNat(n)
  }

  predicate AllDigits(s: Text) {
    forall i :: 0 <= i < |s| ==> IsDigit(s[i])
  }

  function NatValue(s: Text): nat
    requires AllDigits(s)
  {
    if s == [] then 0 else NatValue(s[..|s| - 1]) * 10 + DigitValue(s[|s| - 1])
  }

  lemma {:induction false} NatRoundTrip(n: nat)
    ensures NatValue(PrintNat(n)) == n
  {
    var s := PrintNat(n);
    if n >= 10 {
      NatRoundTrip(n / 10);
      assert s[..|s| - 1] == PrintNat(n / 10);
    } else {
      assert s[..0] == [];
    }
  }

  function Signed(negative: bool, size: int): int {
    if negative then -size else size
  }

  /** strconv.Atoi. */
  function Atoi(s: Text): Option<int> {
    var digits := if s != [] && (s[0] == '-' || s[0] == '+') then s[1..] else s;
    if digits == [] || !AllDigits(digits) then None
    else Some(Signed(s[0] == '-', NatValue(digits)))
  }

  lemma {:induction false} AtoiInvertsPrint(n: int)
    ensures Atoi(Print(n)) == Some(n)
  {
    hide PrintNat, NatValue;
    var size: nat := if n < 0 then -n else n;
    var digits := PrintNat(size);
    NatRoundTrip(size);
    assert IsDigit(digits[0]);
    assert ("-" + digits)[1..] == digits;
  }
}
