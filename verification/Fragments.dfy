/** Video fragments and the events that carry them (server/source.go). */
module Fragments {
  import opened Sequences

  newtype Byte = b: int | 0 <= b < 256

  /** A floating-point number as texts show it: a decimal fraction in lowest terms, or a special value.
      Rounding to the width of a machine number is left out. */
  datatype Float = Decimal(mantissa: int, places: nat) | Infinite(negative: bool) | NotANumber

  predicate LowestTerms(f: Float) {
    f.Decimal? ==> f.places == 0 || f.mantissa % 10 != 0
  }

  type Duration = f: Float | LowestTerms(f) witness Decimal(1, 0)

  /** d > 0 */
  predicate Positive(d: Duration) {
    match d
    case Decimal(mantissa, _) => mantissa > 0
    case Infinite(negative) => !negative
    case NotANumber => false
  }

  /** d <= 0. For what is not a number both comparisons fail. */
  predicate AtMostZero(d: Duration) {
    !d.NotANumber? && !Positive(d)
  }

  datatype Fragment = Fragment(duration: Duration, data: seq<Byte>)

  datatype Event = CloseEvent | FragmentEvent(fragment: Fragment)

  datatype Option<+T> = None | Some(value: T)

  /** What every server accepts and every reader demands of a fragment. They refuse a duration that is at
      most zero, which lets through what is not a number. */
  predicate Sound(fragment: Fragment) {
    !AtMostZero(fragment.duration) && fragment.data != []
  }

  /** Bytes of video held by a buffer. */
  function Bytes(buffer: seq<Fragment>): (total: nat) {
    if buffer == [] then 0 else |buffer[0].data| + Bytes(buffer[1..])
  }

  lemma {:induction false} BytesAppend(a: seq<Fragment>, b: seq<Fragment>)
    ensures Bytes(a + b) == Bytes(a) + Bytes(b)
  {
    if a == [] {
      assert a + b == b;
    } else {
      BytesAppend(a[1..], b);
      assert (a + b)[1..] == a[1..] + b;
    }
  }

  lemma {:induction false} BytesSplit(a: seq<Fragment>, k: nat)
    requires k <= |a|
    ensures Bytes(a) == Bytes(a[..k]) + Bytes(a[k..])
  {
    BytesAppend(a[..k], a[k..]);
    assert a == a[..k] + a[k..];
  }

  /** The fragments among some events, in order. */
  function Carried(events: seq<Event>): (fragments: seq<Fragment>) {
    if events == [] then []
    else (if events[0].FragmentEvent? then [events[0].fragment] else []) + Carried(events[1..])
  }

  lemma {:induction false} CarriedFirst(event: Event, rest: seq<Event>)
    ensures Carried([event] + rest) == (if event.FragmentEvent? then [event.fragment] else []) + Carried(rest)
  {
    assert ([event] + rest)[1..] == rest;
  }

  lemma {:induction false} CarriedAppend(a: seq<Event>, b: seq<Event>)
    ensures Carried(a + b) == Carried(a) + Carried(b)
  {
    if a == [] {
      assert a + b == b;
    } else {
      hide Carried;
      CarriedAppend(a[1..], b);
      CarriedFirst(a[0], a[1..]);
      CarriedFirst(a[0], a[1..] + b);
      Unhead(a, b);
      Regroup(if a[0].FragmentEvent? then [a[0].fragment] else [], Carried(a[1..]), Carried(b));
    }
  }

  lemma {:induction false} CarriedOne(fragment: Fragment)
    ensures Carried([FragmentEvent(fragment)]) == [fragment]
    ensures Carried([CloseEvent]) == []
  {}
}
