/** When does Close come to an end? Its sends block while the mutex is held, and a puller that has stopped
    reading cannot even unregister, since that needs the same mutex (server/source.go, server/stream_pull.go). */
module CloseProgress {
  import opened Sequences
  import opened Fragments
  import MemoryLimiter
  import opened FanOut
  import opened StreamPull
  import opened RelayNetwork

  ghost predicate IsClosing(s: Network, h: HubId) {
    h in s.hubs && s.hubs[h].phase.Closing?
  }

  /** A listener that Close can never tell: it reads no more, and its channel has no room. */
  ghost predicate Deaf(s: Network, h: HubId, p: PullId)
    requires h in s.hubs
  {
    p in s.pulls && s.pulls[p].done && |s.pulls[p].queue| >= s.hubs[h].maxLength
  }

  /** The listeners of a closing hub are cut off from fragments: only its own Tell adds to their channels. */
  ghost predicate Kept(s: Network, t: Network, h: HubId) {
    && h in s.hubs && h in t.hubs
    && t.hubs[h].listeners == s.hubs[h].listeners && t.hubs[h].maxLength == s.hubs[h].maxLength
    && t.hubs[h].phase == s.hubs[h].phase
    && forall p :: p in s.hubs[h].listeners && p in s.pulls ==> p in t.pulls && t.pulls[p] == s.pulls[p]
  }

  lemma {:induction false} HubsShareNoListener(s: Network, h: HubId, g: HubId)
    requires Inv(s) && h in s.hubs && g in s.hubs && g != h
    ensures s.hubs[h].listeners !! s.hubs[g].listeners
  {
    hide PullsOk, BufferOk, HubsOk;
    HubIsOk(s, h);
    HubIsOk(s, g);
  }

  /** A fragment reaches the listeners of its own hub only. */
  lemma {:induction false} AddingKeeps(s: Network, h: HubId, g: HubId, fragment: Fragment, limits: Limits,
                                       parked: set<PullId>)
    requires h in s.hubs && g in s.hubs && g != h && s.hubs[h].listeners !! s.hubs[g].listeners
    ensures Kept(s, AddFragment(s, g, fragment, limits, parked), h)
  {
    hide MemoryLimiter.Check, Retain, OfferTo;
  }

  lemma {:induction false} OthersKeep(s: Network, h: HubId, step: Step)
    requires Inv(s) && IsClosing(s, h) && Enabled(s, step)
    requires step != EndClose(h) && !(step.Tell? && step.h == h)
    requires !((step.SendInitial? || step.Receive? || step.Interrupt?) && step.p in s.hubs[h].listeners)
    ensures Kept(s, Apply(s, step), h)
  {
    hide Inv, AddFragment, Kept;
    match step
    case Publish(g, fragment, limits, parked) =>
      HubsShareNoListener(s, h, g);
      AddingKeeps(s, h, g, fragment, limits, parked);
    case RelayRead(g, limits, parked) =>
      HubsShareNoListener(s, h, g);
      var hub := s.hubs[g];
      var t := s.(hubs := s.hubs[g := hub.(read := hub.read + 1)]);
      AddingKeeps(t, h, g, s.pulls[hub.feed.value].sent[hub.read], limits, parked);
      ReadingKeeps(s, t, Apply(s, step), h, g);
    case Tell(g, p, _) =>
      HubsShareNoListener(s, h, g);
      UntoldListens(s, g, p);
      TellingKeeps(s, h, step);
    case Join(_, _, _) =>
      HubListenersKnown(s, h);
      PullStepKeepsOthers(s, h, step);
    case Leave(_) =>
      HubListenersKnown(s, h);
      PullStepKeepsOthers(s, h, step);
    case SendInitial(_) => PullStepKeepsOthers(s, h, step);
    case Receive(_) => PullStepKeepsOthers(s, h, step);
    case Interrupt(_) => PullStepKeepsOthers(s, h, step);
    case _ => HubStepKeepsOthers(s, h, step);
  }

  lemma {:induction false} ReadingKeeps(s: Network, t: Network, u: Network, h: HubId, g: HubId)
    requires Kept(t, u, h) && g != h && h in s.hubs && g in s.hubs && g in t.hubs
    requires t.hubs == s.hubs[g := t.hubs[g]] && t.pulls == s.pulls
    ensures Kept(s, u, h)
  {}

  lemma {:induction false} TellingKeeps(s: Network, h: HubId, step: Step)
    requires IsClosing(s, h) && step.Tell? && Enabled(s, step) && step.h != h && step.p !in s.hubs[h].listeners
    ensures Kept(s, Apply(s, step), h)
  {}

  lemma {:induction false} PullStepKeepsOthers(s: Network, h: HubId, step: Step)
    requires IsClosing(s, h) && Enabled(s, step)
    requires step.Join? || step.Leave? || step.SendInitial? || step.Receive? || step.Interrupt?
    requires step.Join? || step.Leave? ==> forall p :: p in s.hubs[h].listeners ==> p in s.pulls && s.pulls[p].hub == h
    requires step.SendInitial? || step.Receive? || step.Interrupt? ==> step.p !in s.hubs[h].listeners
    ensures Kept(s, Apply(s, step), h)
  {}

  lemma {:induction false} HubStepKeepsOthers(s: Network, h: HubId, step: Step)
    requires IsClosing(s, h) && Enabled(s, step) && step != EndClose(h)
    requires step.CreateHub? || step.AttachFeed? || step.BeginClose? || step.EndClose? || step.CloseInactive?
    ensures Kept(s, Apply(s, step), h)
  {}

  lemma {:induction false} UntoldListens(s: Network, h: HubId, p: PullId)
    requires Inv(s) && IsClosing(s, h) && p in s.hubs[h].phase.untold
    ensures p in s.hubs[h].listeners
  {
    hide PullsOk, BufferOk, HubsOk;
    HubIsOk(s, h);
  }

  // The load of a close: what it has to do, and what its listeners have to read.

  ghost function Loads(s: Network, h: HubId): map<PullId, int>
    requires h in s.hubs
  {
    map p | p in s.hubs[h].listeners && p in s.pulls :: |s.pulls[p].queue| + |s.pulls[p].pending|
  }

  ghost function Load(s: Network, h: HubId): int
    requires IsClosing(s, h)
  {
    2 * |s.hubs[h].phase.untold| + Total(Loads(s, h))
  }

  ghost predicate Working(s: Network, h: HubId, step: Step)
    requires h in s.hubs
  {
    || (step.Tell? && step.h == h)
    || ((step.SendInitial? || step.Receive?) && step.p in s.hubs[h].listeners)
  }

  /** Telling takes a listener off the list and puts one event in its channel;
      a puller at work takes one fragment off its way. */
  lemma {:induction false} LoadChanges(s: Network, h: HubId, p: PullId, pull: Pull, hub: Hub)
    requires IsClosing(s, h) && p in s.hubs[h].listeners && p in s.pulls
    requires hub == s.hubs[h].(phase := hub.phase) && hub.phase.Closing? && hub.phase.untold <= s.hubs[h].phase.untold
    requires var before := |s.pulls[p].queue| + |s.pulls[p].pending|;
             |pull.queue| + |pull.pending| == if p in s.hubs[h].phase.untold - hub.phase.untold then before + 1
               else before - 1
    requires s.hubs[h].phase.untold <= hub.phase.untold + {p}
    ensures Load(Network(s.hubs[h := hub], s.pulls[p := pull]), h) == Load(s, h) - 1
  {
    var t := Network(s.hubs[h := hub], s.pulls[p := pull]);
    assert Loads(t, h) == Loads(s, h)[p := |pull.queue| + |pull.pending|];
    TotalUpdate(Loads(s, h), p, |pull.queue| + |pull.pending|);
    if p in s.hubs[h].phase.untold && p !in hub.phase.untold {
      assert s.hubs[h].phase.untold == hub.phase.untold + {p};
    } else {
      assert s.hubs[h].phase.untold == hub.phase.untold;
    }
  }

  /** Work for a close changes its list of the untold and one of its listeners, and nothing else. */
  ghost predicate Worked(s: Network, t: Network, h: HubId, step: Step)
    requires step.Tell? || step.SendInitial? || step.Receive?
  {
    && IsClosing(s, h) && IsClosing(t, h) && step.p in s.hubs[h].listeners && step.p in s.pulls && step.p in t.pulls
    && t.hubs == s.hubs[h := s.hubs[h].(phase := t.hubs[h].phase)]
    && t.hubs[h].phase.untold == s.hubs[h].phase.untold - (if step.Tell? then {step.p} else {})
    && t.pulls == s.pulls[step.p := t.pulls[step.p]]
  }

  ghost function Waiting(s: Network, p: PullId): nat
    requires p in s.pulls
  {
    |s.pulls[p].queue| + |s.pulls[p].pending|
  }

  lemma {:induction false} WorkShape(s: Network, h: HubId, step: Step)
    requires Inv(s) && IsClosing(s, h) && Enabled(s, step) && Working(s, h, step)
    ensures Worked(s, Apply(s, step), h, step)
    ensures Waiting(Apply(s, step), step.p) == if step.Tell? then Waiting(s, step.p) + 1 else Waiting(s, step.p) - 1
    ensures step.Tell? ==> step.p in s.hubs[h].phase.untold
  {
    hide Inv;
    HubListenersKnown(s, h);
    if step.Tell? {
      UntoldListens(s, h, step.p);
    }
    assert s.hubs[h := s.hubs[h]] == s.hubs;
  }

  lemma {:induction false} WorkLightens(s: Network, h: HubId, step: Step)
    requires Inv(s) && IsClosing(s, h) && Enabled(s, step) && Working(s, h, step)
    ensures Worked(s, Apply(s, step), h, step)
    ensures Load(Apply(s, step), h) < Load(s, h)
  {
    hide Inv, Apply, Load;
    WorkShape(s, h, step);
    var t := Apply(s, step);
    LoadChanges(s, h, step.p, t.pulls[step.p], t.hubs[h]);
  }

  /** Every step leaves a close its load, or lightens it. The load is finite, so a close at which work
      goes on comes to its end. */
  lemma {:induction false} LoadNeverGrows(s: Network, h: HubId, step: Step)
    requires Inv(s) && IsClosing(s, h) && Enabled(s, step) && step != EndClose(h)
    ensures IsClosing(Apply(s, step), h) && 0 <= Load(Apply(s, step), h) <= Load(s, h)
    ensures Working(s, h, step) ==> Load(Apply(s, step), h) < Load(s, h)
  {
    hide Inv, Apply, Enabled;
    var t := Apply(s, step);
    if Working(s, h, step) {
      WorkLightens(s, h, step);
    } else if step.Interrupt? {
      InterruptKeepsLoad(s, h, step.p);
    } else {
      OthersKeep(s, h, step);
      HubListenersKnown(s, h);
      assert Loads(t, h) == Loads(s, h);
    }
    TotalNonNegative(Loads(t, h));
  }

  lemma {:induction false} HubListenersKnown(s: Network, h: HubId)
    requires Inv(s) && h in s.hubs
    ensures forall p :: p in s.hubs[h].listeners ==> p in s.pulls && s.pulls[p].hub == h
  {
    hide PullsOk, BufferOk;
  }

  lemma {:induction false} InterruptKeepsLoad(s: Network, h: HubId, p: PullId)
    requires Inv(s) && IsClosing(s, h) && Enabled(s, Interrupt(p))
    ensures var t := Apply(s, Interrupt(p)); IsClosing(t, h) && Load(t, h) == Load(s, h)
  {
    hide PullsOk, HubsOk;
    assert Loads(Apply(s, Interrupt(p)), h) == Loads(s, h);
  }

  // Who can be told, will be.

  lemma {:induction false} UntoldHearsFragments(s: Network, h: HubId, p: PullId)
    requires Inv(s) && IsClosing(s, h) && p in s.hubs[h].phase.untold
    ensures p in s.pulls && p in s.hubs[h].listeners
    ensures s.pulls[p].queue != [] ==> s.pulls[p].queue[0].FragmentEvent?
  {
    hide OrderOk, BufferOk, HubsOk, PullsOk;
    HubIsOk(s, h);
    PullIsOk(s, p);
    var pull := s.pulls[p];
    if pull.queue != [] {
      SuffixGrows(pull.queue, pull.log, CloseEvent);
    }
  }

  /** A step towards telling `p`. */
  ghost function Towards(s: Network, h: HubId, p: PullId): Step
    requires h in s.hubs && p in s.pulls
  {
    var pull := s.pulls[p];
    if |pull.queue| < s.hubs[h].maxLength then Tell(h, p, false)
    else if pull.pending != [] then SendInitial(p)
    else if pull.queue == [] then Tell(h, p, true)
    else Receive(p)
  }

  lemma {:induction false} TowardsWorks(s: Network, h: HubId, p: PullId)
    requires Inv(s) && IsClosing(s, h) && p in s.hubs[h].phase.untold
    requires forall q :: q in s.hubs[h].phase.untold ==> !Deaf(s, h, q)
    ensures p in s.pulls
    ensures var step := Towards(s, h, p);
            && Enabled(s, step) && Working(s, h, step)
            && IsClosing(Apply(s, step), h)
            && forall q :: q in Apply(s, step).hubs[h].phase.untold ==> !Deaf(Apply(s, step), h, q)
  {
    hide PullsOk, HubsOk, PullOk, BufferOk;
    UntoldHearsFragments(s, h, p);
    WorkLightens(s, h, Towards(s, h, p));
  }

  lemma {:induction false} RunSplit(s: Network, first: Step, rest: seq<Step>)
    ensures RunFrom(s, [first] + rest) == RunFrom(if Enabled(s, first) then Apply(s, first) else s, rest)
  {
    hide Enabled, Apply;
    var all := [first] + rest;
    if rest == [] {
      assert all[..0] == [];
    } else {
      RunSplit(s, first, rest[..|rest| - 1]);
      assert all[..|all| - 1] == [first] + rest[..|rest| - 1];
    }
  }

  lemma {:induction false} CanFinish(s: Network, h: HubId) returns (steps: seq<Step>)
    requires Inv(s) && IsClosing(s, h)
    requires forall q :: q in s.hubs[h].phase.untold ==> !Deaf(s, h, q)
    ensures h in RunFrom(s, steps).hubs && RunFrom(s, steps).hubs[h].phase.Closed?
    decreases Load(s, h)
  {
    hide Inv, Deaf;
    if s.hubs[h].phase.untold == {} {
      steps := [EndClose(h)];
      RunSplit(s, EndClose(h), []);
    } else {
      var p :| p in s.hubs[h].phase.untold;
      TowardsWorks(s, h, p);
      var step := Towards(s, h, p);
      StepKeeps(s, step);
      LoadNeverGrows(s, h, step);
      var rest := CanFinish(Apply(s, step), h);
      steps := [step] + rest;
      RunSplit(s, step, rest);
    }
  }

  // A deaf listener not yet told keeps Close from ever finishing.

  lemma {:induction false} DeafStaysDeaf(s: Network, h: HubId, p: PullId, step: Step)
    requires Inv(s) && IsClosing(s, h) && p in s.hubs[h].phase.untold && Deaf(s, h, p) && Enabled(s, step)
    ensures var t := Apply(s, step);
            IsClosing(t, h) && p in t.hubs[h].phase.untold && Deaf(t, h, p)
  {
    hide Inv;
    UntoldHearsFragments(s, h, p);
    if Working(s, h, step) {
      DeafIsNotWorkedOn(s, h, p, step);
      hide Apply, Enabled;
      WorkLightens(s, h, step);
    } else if step.Interrupt? {
    } else {
      hide Apply, Enabled;
      OthersKeep(s, h, step);
    }
  }

  lemma {:induction false} DeafIsNotWorkedOn(s: Network, h: HubId, p: PullId, step: Step)
    requires h in s.hubs && Deaf(s, h, p) && Enabled(s, step) && Working(s, h, step)
    ensures step.p != p
  {}

  lemma {:induction false} DeafBlocksForever(s: Network, h: HubId, p: PullId, steps: seq<Step>)
    requires Inv(s) && IsClosing(s, h) && p in s.hubs[h].phase.untold && Deaf(s, h, p)
    ensures var t := RunFrom(s, steps);
            IsClosing(t, h) && p in t.hubs[h].phase.untold && Deaf(t, h, p)
  {
    hide Inv, Enabled, Apply, Deaf;
    if steps != [] {
      DeafBlocksForever(s, h, p, steps[..|steps| - 1]);
      RunKeeps(s, steps[..|steps| - 1]);
      if Enabled(RunFrom(s, steps[..|steps| - 1]), steps[|steps| - 1]) {
        DeafStaysDeaf(RunFrom(s, steps[..|steps| - 1]), h, p, steps[|steps| - 1]);
      }
    }
  }

  /** A close can still finish exactly when no listener it has yet to tell has stopped reading with its
      channel full. */
  lemma {:induction false} CloseCanFinishExactlyWhen(s: Network, h: HubId)
    requires Inv(s) && IsClosing(s, h)
    ensures (exists steps :: h in RunFrom(s, steps).hubs && RunFrom(s, steps).hubs[h].phase.Closed?)
            <==> (forall p :: p in s.hubs[h].phase.untold ==> !Deaf(s, h, p))
  {
    hide Inv, RunFrom, Deaf;
    if forall p :: p in s.hubs[h].phase.untold ==> !Deaf(s, h, p) {
      var steps := CanFinish(s, h);
    } else {
      var p :| p in s.hubs[h].phase.untold && Deaf(s, h, p);
      forall steps ensures !(h in RunFrom(s, steps).hubs && RunFrom(s, steps).hubs[h].phase.Closed?) {
        DeafBlocksForever(s, h, p, steps);
      }
    }
  }

  // Every close at which work goes on comes to its end.

  /** How often `steps` do work for the close of `h`. */
  ghost function Work(s: Network, h: HubId, steps: seq<Step>): nat {
    if steps == [] then 0
    else
      var t, step := RunFrom(s, steps[..|steps| - 1]), steps[|steps| - 1];
      Work(s, h, steps[..|steps| - 1]) + if IsClosing(t, h) && Enabled(t, step) && Working(t, h, step) then 1 else 0
  }

  lemma {:induction false} ClosedStays(s: Network, h: HubId, step: Step)
    requires h in s.hubs && s.hubs[h].phase.Closed? && Enabled(s, step)
    ensures h in Apply(s, step).hubs && Apply(s, step).hubs[h].phase.Closed?
  {
    hide MemoryLimiter.Check, Retain, OfferTo;
  }

  lemma {:induction false} EndCloses(s: Network, h: HubId)
    requires Enabled(s, EndClose(h))
    ensures h in Apply(s, EndClose(h)).hubs && Apply(s, EndClose(h)).hubs[h].phase.Closed?
  {}

  ghost predicate Spent(s: Network, t: Network, h: HubId, work: nat)
    requires IsClosing(s, h)
  {
    if IsClosing(t, h) then work + Load(t, h) <= Load(s, h)
    else h in t.hubs && t.hubs[h].phase.Closed? && work <= Load(s, h)
  }

  lemma {:induction false} StepSpends(s: Network, t: Network, h: HubId, work: nat, step: Step)
    requires IsClosing(s, h) && Spent(s, t, h, work) && Inv(t) && Enabled(t, step)
    ensures Spent(s, Apply(t, step), h, work + if IsClosing(t, h) && Working(t, h, step) then 1 else 0)
  {
    hide Inv, Apply, Enabled, Load;
    if !IsClosing(t, h) {
      ClosedStays(t, h, step);
    } else if step == EndClose(h) {
      EndCloses(t, h);
      LoadIsNat(t, h);
    } else {
      LoadNeverGrows(t, h, step);
    }
  }

  lemma {:induction false} LoadIsNat(s: Network, h: HubId)
    requires IsClosing(s, h)
    ensures Load(s, h) >= 0
  {
    TotalNonNegative(Loads(s, h));
  }

  /** However a run goes on, no more is done for a close than its load. */
  lemma {:induction false} WorkIsBounded(s: Network, h: HubId, steps: seq<Step>)
    requires Inv(s) && IsClosing(s, h)
    ensures Work(s, h, steps) <= Load(s, h)
    ensures Spent(s, RunFrom(s, steps), h, Work(s, h, steps))
  {
    hide Inv, Load, Apply, Enabled, Spent;
    LoadIsNat(s, h);
    if steps == [] {
      NothingSpent(s, h);
    } else {
      var t, step := RunFrom(s, steps[..|steps| - 1]), steps[|steps| - 1];
      WorkIsBounded(s, h, steps[..|steps| - 1]);
      RunKeeps(s, steps[..|steps| - 1]);
      if Enabled(t, step) {
        StepSpends(s, t, h, Work(s, h, steps[..|steps| - 1]), step);
      }
    }
    SpentIsBounded(s, RunFrom(s, steps), h, Work(s, h, steps));
  }

  lemma {:induction false} NothingSpent(s: Network, h: HubId)
    requires IsClosing(s, h)
    ensures Spent(s, s, h, 0)
  {}

  lemma {:induction false} SpentIsBounded(s: Network, t: Network, h: HubId, work: nat)
    requires IsClosing(s, h) && Spent(s, t, h, work)
    ensures work <= Load(s, h)
  {
    if IsClosing(t, h) {
      LoadIsNat(t, h);
    }
  }

  ghost predicate NoneDeaf(s: Network, h: HubId)
    requires IsClosing(s, h)
  {
    forall q :: q in s.hubs[h].phase.untold ==> !Deaf(s, h, q)
  }

  /** While no listener is deaf there is work to do, or the close can end. */
  lemma {:induction false} WorkIsThere(s: Network, h: HubId) returns (step: Step)
    requires Inv(s) && IsClosing(s, h) && NoneDeaf(s, h)
    ensures Enabled(s, step) && (Working(s, h, step) || step == EndClose(h))
  {
    hide Inv, Deaf, Working, Apply;
    if s.hubs[h].phase.untold == {} {
      step := EndClose(h);
    } else {
      var p :| p in s.hubs[h].phase.untold;
      TowardsWorks(s, h, p);
      step := Towards(s, h, p);
    }
  }

  lemma {:induction false} WorkDeafensNobody(s: Network, h: HubId, step: Step, q: PullId)
    requires IsClosing(s, h) && Enabled(s, step) && Working(s, h, step) && q in s.pulls && !Deaf(s, h, q)
    requires step.Receive? && step.p == q ==> s.pulls[q].queue[0].FragmentEvent?
    requires step.Tell? ==> step.p != q
    ensures h in Apply(s, step).hubs && !Deaf(Apply(s, step), h, q)
  {}

  /** Listeners that are not interrupted keep reading: none of them becomes deaf. */
  lemma {:induction false} ReadersStay(s: Network, h: HubId, step: Step)
    requires Inv(s) && IsClosing(s, h) && NoneDeaf(s, h) && Enabled(s, step)
    requires step != EndClose(h) && !(step.Interrupt? && step.p in s.hubs[h].listeners)
    ensures IsClosing(Apply(s, step), h) && NoneDeaf(Apply(s, step), h)
  {
    hide Inv, Apply, Enabled;
    forall q | q in s.hubs[h].phase.untold
      ensures q in s.hubs[h].listeners && q in s.pulls
      ensures s.pulls[q].queue != [] ==> s.pulls[q].queue[0].FragmentEvent?
    {
      UntoldHearsFragments(s, h, q);
    }
    if Working(s, h, step) {
      WorkShape(s, h, step);
      hide Deaf, Working;
      forall q | q in Apply(s, step).hubs[h].phase.untold ensures !Deaf(Apply(s, step), h, q) {
        if step.Receive? {
          ReceiveNeedsEvent(s, step);
        }
        WorkDeafensNobody(s, h, step, q);
      }
    } else {
      OthersKeep(s, h, step);
    }
  }

  lemma {:induction false} ReceiveNeedsEvent(s: Network, step: Step)
    requires step.Receive? && Enabled(s, step)
    ensures step.p in s.pulls && s.pulls[step.p].queue != []
  {}

  // A close that blocks for ever is reached: one fragment in a channel of one, and its puller interrupted.

  ghost function BlockingRun(fragment: Fragment, limits: Limits): seq<Step> {
    [CreateHub(0, true, 1), Join(0, 0, 0), Publish(0, fragment, limits, {}), Interrupt(0), BeginClose(0)]
  }

  ghost function Do(s: Network, step: Step): Network {
    if Enabled(s, step) then Apply(s, step) else s
  }

  lemma {:induction false} LastStep(steps: seq<Step>, step: Step)
    ensures Run(steps + [step]) == Do(Run(steps), step)
  {
    assert (steps + [step])[..|steps|] == steps;
  }

  lemma {:induction false} RunOfNothing()
    ensures Run([]) == Network(map[], map[])
  {}

  lemma {:induction false} RunOfFive(a: Step, b: Step, c: Step, d: Step, e: Step)
    ensures Run([a, b, c, d, e]) == Do(Do(Do(Do(Do(Network(map[], map[]), a), b), c), d), e)
  {
    hide Do, Run;
    RunOfNothing();
    LastStep([], a);
    LastStep([a], b);
    LastStep([a, b], c);
    LastStep([a, b, c], d);
    LastStep([a, b, c, d], e);
    assert [] + [a] == [a] && [a] + [b] == [a, b] && [a, b] + [c] == [a, b, c];
    assert [a, b, c] + [d] == [a, b, c, d] && [a, b, c, d] + [e] == [a, b, c, d, e];
  }

  ghost function Joined(): Network {
    Network(map[0 := Hub(true, 1, [], {0}, Open, None, 0, [])], map[0 := NewPull(0, [], 0)])
  }

  lemma {:induction false} JoinedIsReached()
    ensures Do(Do(Network(map[], map[]), CreateHub(0, true, 1)), Join(0, 0, 0)) == Joined()
  {
    var s := Do(Network(map[], map[]), CreateHub(0, true, 1));
    assert s == Network(map[0 := Hub(true, 1, [], {}, Open, None, 0, [])], map[]);
    var none: seq<Fragment> := [];
    assert InitialSends(none, 0) == Some(none);
    var initial: set<PullId> := {};
    assert initial + {0} == {0};
    var t := Do(s, Join(0, 0, 0));
    assert t.hubs == s.hubs[0 := s.hubs[0].(listeners := {0})] == Joined().hubs;
    assert t.pulls == s.pulls[0 := NewPull(0, none, 0)] == Joined().pulls;
  }

  lemma {:induction false} OneFragmentFills(fragment: Fragment, limits: Limits)
    ensures var s := Do(Joined(), Publish(0, fragment, limits, {}));
            && s.hubs.Keys == {0} && s.hubs[0].phase.Open? && s.hubs[0].listeners == {0} && s.hubs[0].maxLength == 1
            && s.pulls.Keys == {0} && |s.pulls[0].queue| == 1 && s.pulls[0].pending == [] && !s.pulls[0].done
  {
    hide MemoryLimiter.Check, Retain;
    assert NewPull(0, [], 0).pending == [] && NewPull(0, [], 0).queue == [];
  }

  lemma {:induction false} InterruptDeafens(s: Network)
    requires s.hubs.Keys == {0} && s.hubs[0].phase.Open? && s.hubs[0].listeners == {0} && s.hubs[0].maxLength == 1
    requires s.pulls.Keys == {0} && |s.pulls[0].queue| == 1 && s.pulls[0].pending == [] && !s.pulls[0].done
    ensures var t := Do(Do(s, Interrupt(0)), BeginClose(0));
            IsClosing(t, 0) && 0 in t.hubs[0].phase.untold && Deaf(t, 0, 0)
  {
    var t := Do(s, Interrupt(0));
    assert t == s.(pulls := s.pulls[0 := s.pulls[0].(done := true)]);
    assert Do(t, BeginClose(0)).pulls == t.pulls;
  }

  /** The puller was interrupted with its channel full and has not unregistered when the source closes:
      the close is never finished, however the run goes on. */
  lemma {:induction false} CloseDoesBlock(fragment: Fragment, limits: Limits, more: seq<Step>)
    ensures var s := Run(BlockingRun(fragment, limits));
            && Inv(s) && IsClosing(s, 0) && 0 in s.hubs[0].phase.untold && Deaf(s, 0, 0)
            && IsClosing(RunFrom(s, more), 0)
  {
    hide Inv, Run, RunFrom, Do, Deaf, Joined;
    RunOfFive(CreateHub(0, true, 1), Join(0, 0, 0), Publish(0, fragment, limits, {}), Interrupt(0), BeginClose(0));
    JoinedIsReached();
    OneFragmentFills(fragment, limits);
    InterruptDeafens(Do(Joined(), Publish(0, fragment, limits, {})));
    Reachable(BlockingRun(fragment, limits));
    DeafBlocksForever(Run(BlockingRun(fragment, limits)), 0, 0, more);
  }
}
