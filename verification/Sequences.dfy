/** Subsequences by position, and totals over maps. */
module Sequences {

  lemma {:induction false} Unhead<T>(a: seq<T>, b: seq<T>)
    requires a != []
    ensures [a[0]] + a[1..] == a && [a[0]] + (a[1..] + b) == a + b
  {}

  lemma {:induction false} Regroup<T>(a: seq<T>, b: seq<T>, c: seq<T>)
    ensures a + b + c == a + (b + c)
    ensures [] + a == a == a + []
  {}

  ghost predicate Increasing(positions: seq<nat>) {
    forall i, j :: 0 <= i < j < |positions| ==> positions[i] < positions[j]
  }

  /** `sub` is read off `whole` at the strictly increasing `positions`. */
  ghost predicate Embeds<T>(sub: seq<T>, whole: seq<T>, positions: seq<nat>) {
    && |positions| == |sub|
    && Increasing(positions)
    && forall i :: 0 <= i < |sub| ==> positions[i] < |whole| && whole[positions[i]] == sub[i]
  }

  /** `sub` keeps the order of `whole` and takes each position of it at most once. */
  ghost predicate Subsequence<T>(sub: seq<T>, whole: seq<T>) {
    exists positions :: Embeds(sub, whole, positions)
  }

  /** `sub` is the stretch of `whole` that begins at `start`. */
  ghost predicate BlockAt<T>(sub: seq<T>, whole: seq<T>, start: nat) {
    start + |sub| <= |whole| && sub == whole[start..start + |sub|]
  }

  ghost predicate Block<T>(sub: seq<T>, whole: seq<T>) {
    exists start: nat :: BlockAt(sub, whole, start)
  }

  ghost predicate IsSuffix<T>(sub: seq<T>, whole: seq<T>) {
    |sub| <= |whole| && sub == whole[|whole| - |sub|..]
  }

  lemma {:induction false} SuffixGrows<T>(sub: seq<T>, whole: seq<T>, x: T)
    requires IsSuffix(sub, whole)
    ensures IsSuffix(sub + [x], whole + [x])
    ensures sub != [] ==> IsSuffix(sub[1..], whole) && whole[|whole| - |sub|] == sub[0]
  {}

  lemma {:induction false} SuffixOfSuffix<T>(a: seq<T>, b: seq<T>, c: seq<T>)
    requires IsSuffix(a, b) && IsSuffix(b, c)
    ensures IsSuffix(a, c)
  {}

  lemma {:induction false} SuffixFits<T>(sub: seq<T>, whole: seq<T>)
    requires IsSuffix(sub, whole)
    ensures |sub| <= |whole|
  {}

  lemma {:induction false} SuffixEmbeds<T>(sub: seq<T>, whole: seq<T>)
    requires IsSuffix(sub, whole)
    ensures Embeds(sub, whole, seq(|sub|, i requires 0 <= i < |sub| => |whole| - |sub| + i))
  {}

  lemma {:induction false} EmbedsGrows<T>(sub: seq<T>, whole: seq<T>, positions: seq<nat>, x: T)
    requires Embeds(sub, whole, positions)
    ensures Embeds(sub, whole + [x], positions)
    ensures Embeds(sub + [x], whole + [x], positions + [|whole|])
  {}

  lemma {:induction false} SubsequenceTransitive<T>(a: seq<T>, b: seq<T>, c: seq<T>)
    requires Subsequence(a, b) && Subsequence(b, c)
    ensures Subsequence(a, c)
  {
    var p :| Embeds(a, b, p);
    var q :| Embeds(b, c, q);
    var r := seq(|p|, i requires 0 <= i < |p| => q[p[i]]);
    assert Embeds(a, c, r);
  }

  lemma {:induction false} BlockTransitive<T>(a: seq<T>, b: seq<T>, c: seq<T>)
    requires Block(a, b) && Block(b, c)
    ensures Block(a, c)
  {
    var i: nat :| BlockAt(a, b, i);
    var j: nat :| BlockAt(b, c, j);
    forall k | 0 <= k < |a| ensures a[k] == c[i + j..i + j + |a|][k] {
      assert a[k] == b[i + k] == c[j + (i + k)];
    }
    assert BlockAt(a, c, i + j);
  }

  lemma {:induction false} BlockIsSubsequence<T>(a: seq<T>, b: seq<T>)
    requires Block(a, b)
    ensures Subsequence(a, b)
  {
    var i: nat :| BlockAt(a, b, i);
    assert Embeds(a, b, seq(|a|, k requires 0 <= k < |a| => i + k));
  }

  lemma {:induction false} PrefixIsBlock<T>(a: seq<T>, b: seq<T>)
    requires a <= b
    ensures Block(a, b)
  {
    assert BlockAt(a, b, 0);
  }

  /** The sum of all values of a map. */
  ghost function Total<K(!new)>(m: map<K, int>): int {
    if m == map[] then 0
    else
      var k :| k in m;
      m[k] + Total(m - {k})
  }

  /** The order in which keys are picked does not matter. */
  lemma {:induction false} TotalTakeOut<K(!new)>(m: map<K, int>, k: K)
    requires k in m
    ensures Total(m) == m[k] + Total(m - {k})
    decreases |m|
  {
    var first :| first in m && Total(m) == m[first] + Total(m - {first});
    if first != k {
      var rest := m - {first};
      TotalTakeOut(rest, k);
      TotalTakeOut(m - {k}, first);
      assert rest - {k} == m - {k} - {first};
    }
  }

  lemma {:induction false} TotalUpdate<K(!new)>(m: map<K, int>, k: K, v: int)
    ensures Total(m[k := v]) == Total(m - {k}) + v
    ensures k in m ==> Total(m[k := v]) == Total(m) - m[k] + v
    ensures k !in m ==> Total(m[k := v]) == Total(m) + v
  {
    TotalTakeOut(m[k := v], k);
    assert m[k := v] - {k} == m - {k};
    if k in m {
      TotalTakeOut(m, k);
    } else {
      assert m - {k} == m;
    }
  }

  lemma {:induction false} TotalNonNegative<K(!new)>(m: map<K, int>)
    requires forall k :: k in m ==> 0 <= m[k]
    ensures 0 <= Total(m)
    ensures forall k :: k in m ==> m[k] <= Total(m)
    decreases |m|
  {
    forall k | k in m ensures 0 <= m[k] <= Total(m) {
      TotalTakeOut(m, k);
      TotalNonNegative(m - {k});
    }
  }
}
