/** What a puller takes from the snapshot before it turns to its channel (server/stream_pull.go). */
module StreamPull {
  import opened Fragments
  import opened Sequences

  /** The initial fragments that are sent, or None when the loop would index out of range. */
  function InitialSends(initial: seq<Fragment>, maxInitialFragments: int): Option<seq<Fragment>> {
    var max := if maxInitialFragments < 0 then |initial| else maxInitialFragments;
    if max > |initial| then None else Some(initial[|initial| - max..])
  }

  /** The start index is not clamped: asking for more fragments than are buffered faults. Otherwise the
      newest ones are sent, as many as asked for, or all when the number is negative. */
  lemma {:induction false} InitialSendsExactlyWhen(initial: seq<Fragment>, max: int)
    ensures InitialSends(initial, max).Some? <==> max <= |initial|
    ensures InitialSends(initial, max).Some? ==>
              var sent := InitialSends(initial, max).value;
              IsSuffix(sent, initial) && |sent| == if max < 0 then |initial| else max
  {}
}
