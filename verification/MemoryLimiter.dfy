/** The byte limit shared by all fragment buffers of a server (server/memory_limiter.go). */
module MemoryLimiter {
  import opened Fragments
  import opened Sequences

  datatype Config = Config(enabled: bool, limit: int)

  /** What the limiter returns, and the usage it leaves behind. */
  datatype Answer = Answer(buffer: seq<Fragment>, canAdd: bool, usage: int)

  /** How many of the oldest fragments are let go: the shortest prefix that makes room,
      or everything when nothing shorter does. */
  function Evictions(limit: int, usage: int, need: nat, buffer: seq<Fragment>): (k: nat)
    ensures k <= |buffer|
    ensures forall j :: 0 <= j < k ==> usage - Bytes(buffer[..j]) + need > limit
    ensures k < |buffer| ==> usage - Bytes(buffer[..k]) + need <= limit
    decreases |buffer|
  {
    if usage + need > limit && buffer != [] then
      var rest := Evictions(limit, usage - |buffer[0].data|, need, buffer[1..]);
      assert forall j :: 0 < j <= |buffer| ==> buffer[..j][1..] == buffer[1..][..j - 1];
      rest + 1
    else
      0
  }

  function Check(config: Config, usage: int, buffer: seq<Fragment>, fragment: Fragment): Answer {
    var need := |fragment.data|;
    if !config.enabled || need == 0 then
      Answer(buffer, true, usage)
    else
      var k := Evictions(config.limit, usage, need, buffer);
      var left := usage - Bytes(buffer[..k]);
      if left + need <= config.limit then Answer(buffer[k..], true, left + need) else Answer([], false, left)
  }

  /** A fragment is refused only when giving up the whole buffer would still leave it no room,
      and a refusal always empties the buffer. */
  lemma {:induction false} RefusalIsLastResort(config: Config, usage: int, buffer: seq<Fragment>, fragment: Fragment)
    ensures var a := Check(config, usage, buffer, fragment);
            && (a.canAdd <==>
                  || !config.enabled
                  || fragment.data == []
                  || usage - Bytes(buffer) + |fragment.data| <= config.limit)
            && (!a.canAdd ==> a.buffer == [] && a.usage == usage - Bytes(buffer))
  {
    var k := Evictions(config.limit, usage, |fragment.data|, buffer);
    BytesSplit(buffer, k);
    assert buffer[..|buffer|] == buffer;
  }

  /** The answer keeps as much as it can: a suffix of the buffer, and every fragment that is gone had to go, since
      with any shorter prefix evicted the newcomer would not have fitted. The usage follows what went and came. A
      limiter that is not enabled, or a fragment without data, changes nothing. */
  lemma {:induction false} CheckEvictsLeast(config: Config, usage: int, buffer: seq<Fragment>, fragment: Fragment)
    ensures var a, need := Check(config, usage, buffer, fragment), |fragment.data|;
            && IsSuffix(a.buffer, buffer)
            && (config.enabled && need > 0 ==>
                  && (forall j :: 0 <= j < |buffer| - |a.buffer| ==> usage - Bytes(buffer[..j]) + need > config.limit)
                  && a.usage == usage - Bytes(buffer) + Bytes(a.buffer) + if a.canAdd then need else 0)
            && (!config.enabled || need == 0 ==> a == Answer(buffer, true, usage))
  {
    var k := Evictions(config.limit, usage, |fragment.data|, buffer);
    BytesSplit(buffer, k);
    assert buffer[..|buffer|] == buffer;
    hide Evictions;
  }

  class Limiter {
    const config: Config
    var usage: int

    constructor (config: Config)
      ensures this.config == config && usage == 0
    {
      this.config := config;
      usage := 0;
    }

    method OnBufferRelease(buffer: seq<Fragment>)
      modifies this
      ensures usage == old(usage) - if config.enabled then Bytes(buffer) else 0
    {
      if !config.enabled || |buffer| == 0 {
        return;
      }
      var total := 0;
      for i := 0 to |buffer|
        invariant total == Bytes(buffer[..i]) && usage == old(usage)
      {
        BytesAppend(buffer[..i], [buffer[i]]);
        assert buffer[..i + 1] == buffer[..i] + [buffer[i]];
        total := total + |buffer[i].data|;
      }
      assert buffer[..|buffer|] == buffer;
      usage := usage - total;
    }

    method CheckBeforeAddingFragment(buffer: seq<Fragment>, fragment: Fragment)
      returns (newBuffer: seq<Fragment>, canBeAdded: bool)
      modifies this
      ensures Answer(newBuffer, canBeAdded, usage) == Check(config, old(usage), buffer, fragment)
    {
      var need := |fragment.data|;
      if !config.enabled || need == 0 {
        return buffer, true;
      }
      var k := 0;
      ghost var all := Evictions(config.limit, usage, need, buffer);
      while usage + need > config.limit && k < |buffer|
        invariant k <= |buffer|
        invariant usage == old(usage) - Bytes(buffer[..k])
        invariant all == k + Evictions(config.limit, usage, need, buffer[k..])
        decreases |buffer| - k
      {
        assert buffer[k..][1..] == buffer[k + 1..];
        BytesAppend(buffer[..k], [buffer[k]]);
        assert buffer[..k + 1] == buffer[..k] + [buffer[k]];
        usage := usage - |buffer[k].data|;
        k := k + 1;
      }
      assert k == all;
      canBeAdded := usage + need <= config.limit;
      if canBeAdded {
        usage := usage + need;
      }
      if k == 0 {
        newBuffer := buffer;
      } else if k >= |buffer| {
        newBuffer := [];
      } else {
        newBuffer := buffer[k..];
      }
    }
  }

  // Conservation: many buffers share one limiter, each adding a fragment to the buffer
  // the limiter returned.

  datatype Store = Store(buffers: map<nat, seq<Fragment>>, usage: int)

  datatype Step = Add(buffer: nat, fragment: Fragment) | Release(buffer: nat)

  function BufferOf(s: Store, id: nat): seq<Fragment> {
    if id in s.buffers then s.buffers[id] else []
  }

  function Apply(config: Config, s: Store, step: Step): Store {
    match step
    case Add(id, fragment) =>
      var a := Check(config, s.usage, BufferOf(s, id), fragment);
      Store(s.buffers[id := if a.canAdd then a.buffer + [fragment] else a.buffer], a.usage)
    case Release(id) =>
      Store(s.buffers - {id}, s.usage - Bytes(BufferOf(s, id)))
  }

  function Run(config: Config, steps: seq<Step>): Store {
    if steps == [] then Store(map[], 0)
    else Apply(config, Run(config, steps[..|steps| - 1]), steps[|steps| - 1])
  }

  ghost function Sizes(s: Store): map<nat, int> {
    map id | id in s.buffers :: Bytes(s.buffers[id])
  }

  /** Bytes held by all buffers together. */
  ghost function Held(s: Store): int {
    Total(Sizes(s))
  }

  /** One addition changes the usage by as much as it changes the buffer. */
  lemma {:induction false} AddBalances(config: Config, usage: int, buffer: seq<Fragment>, fragment: Fragment)
    requires config.enabled
    ensures var a := Check(config, usage, buffer, fragment);
            && a.usage - usage == Bytes(if a.canAdd then a.buffer + [fragment] else a.buffer) - Bytes(buffer)
            && a.usage <= Max(config.limit, usage)
  {
    var a := Check(config, usage, buffer, fragment);
    var k := Evictions(config.limit, usage, |fragment.data|, buffer);
    BytesAppend(a.buffer, [fragment]);
    BytesSplit(buffer, k);
    assert buffer[..|buffer|] == buffer;
  }

  lemma {:induction false} AddConserves(config: Config, s: Store, id: nat, fragment: Fragment)
    requires config.enabled && s.usage == Held(s) && s.usage <= Max(config.limit, 0)
    ensures var t := Apply(config, s, Add(id, fragment));
            t.usage == Held(t) && t.usage <= Max(config.limit, 0)
  {
    hide Check;
    var t := Apply(config, s, Add(id, fragment));
    AddBalances(config, s.usage, BufferOf(s, id), fragment);
    assert Sizes(t) == Sizes(s)[id := Bytes(t.buffers[id])];
    TotalUpdate(Sizes(s), id, Bytes(t.buffers[id]));
  }

  lemma {:induction false} ReleaseConserves(config: Config, s: Store, id: nat)
    requires s.usage == Held(s)
    ensures var t := Apply(config, s, Release(id));
            t.usage == Held(t) <= Held(s)
  {
    var t := Apply(config, s, Release(id));
    assert Sizes(t) == Sizes(s) - {id};
    if id in s.buffers {
      TotalTakeOut(Sizes(s), id);
    } else {
      assert Sizes(t) == Sizes(s);
    }
  }

  function Max(a: int, b: int): int { if a < b then b else a }

  /** Over any run and any number of buffers, the usage counter is exactly the bytes held,
      and it never passes the limit. */
  lemma {:induction false} MemoryConserved(config: Config, steps: seq<Step>)
    requires config.enabled
    ensures var s := Run(config, steps);
            s.usage == Held(s) && 0 <= s.usage <= Max(config.limit, 0)
  {
    if steps == [] {
      assert Sizes(Run(config, steps)) == map[];
    } else {
      var before := steps[..|steps| - 1];
      MemoryConserved(config, before);
      match steps[|steps| - 1]
      case Add(id, fragment) => AddConserves(config, Run(config, before), id, fragment);
      case Release(id) => ReleaseConserves(config, Run(config, before), id);
    }
    TotalNonNegative(Sizes(Run(config, steps)));
  }
}
