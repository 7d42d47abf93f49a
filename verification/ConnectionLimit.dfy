/** Open connections per IP (the other half of server/rate_limit.go). */
module ConnectionLimit {

  /** An address, as a number: only equality matters here. */
  type Ip = nat

  /** `exempt` stands for the whitelist check. */
  datatype Config = Config(enabled: bool, maxConnections: int, exempt: set<Ip>) {
    predicate Limits(ip: Ip) {
      enabled && maxConnections > 0 && ip !in exempt
    }
  }

  function CountOf(counts: map<Ip, int>, ip: Ip): int {
    if ip in counts then counts[ip] else 0
  }

  function Start(config: Config, counts: map<Ip, int>, ip: Ip): (map<Ip, int>, bool) {
    if !config.Limits(ip) then (counts, true)
    else if CountOf(counts, ip) >= config.maxConnections then (counts, false)
    else (counts[ip := CountOf(counts, ip) + 1], true)
  }

  function End(config: Config, counts: map<Ip, int>, ip: Ip): map<Ip, int> {
    if !config.Limits(ip) then counts
    else if CountOf(counts, ip) <= 1 then counts - {ip}
    else counts[ip := CountOf(counts, ip) - 1]
  }

  class RateLimiter {
    const config: Config
    var connectionsCount: map<Ip, int>

    constructor (config: Config)
      ensures this.config == config && connectionsCount == map[]
    {
      this.config := config;
      connectionsCount := map[];
    }

    method StartConnection(ip: Ip) returns (accepted: bool)
      modifies this
      ensures (connectionsCount, accepted) == Start(config, old(connectionsCount), ip)
    {
      if !config.enabled || config.maxConnections <= 0 || ip in config.exempt {
        return true;
      }
      var oldCount := if ip in connectionsCount then connectionsCount[ip] else 0;
      if oldCount >= config.maxConnections {
        return false;
      }
      connectionsCount := connectionsCount[ip := oldCount + 1];
      return true;
    }

    method EndConnection(ip: Ip)
      modifies this
      ensures connectionsCount == End(config, old(connectionsCount), ip)
    {
      if !config.enabled || config.maxConnections <= 0 || ip in config.exempt {
        return;
      }
      var oldCount := if ip in connectionsCount then connectionsCount[ip] else 0;
      if oldCount <= 1 {
        connectionsCount := connectionsCount - {ip};
      } else {
        connectionsCount := connectionsCount[ip := oldCount - 1];
      }
    }
  }

  // All runs. A connection that was accepted ends once, at its failed upgrade or its close.

  datatype Step = Arrive(ip: Ip) | Leave(ip: Ip)

  /** `open` holds the accepted connections that have not ended. */
  datatype System = System(counts: map<Ip, int>, open: multiset<Ip>)

  function Apply(config: Config, s: System, step: Step): System {
    match step
    case Arrive(ip) =>
      var (counts, accepted) := Start(config, s.counts, ip);
      System(counts, if accepted then s.open + multiset{ip} else s.open)
    case Leave(ip) =>
      if ip !in s.open then s else System(End(config, s.counts, ip), s.open - multiset{ip})
  }

  function Run(config: Config, steps: seq<Step>): System {
    if steps == [] then System(map[], multiset{})
    else Apply(config, Run(config, steps[..|steps| - 1]), steps[|steps| - 1])
  }

  ghost predicate Right(config: Config, s: System, ip: Ip) {
    if config.Limits(ip) then
      && (ip in s.counts <==> s.open[ip] > 0)
      && CountOf(s.counts, ip) == s.open[ip] <= config.maxConnections
    else
      ip !in s.counts
  }

  ghost predicate Inv(config: Config, s: System) {
    forall ip :: Right(config, s, ip)
  }

  lemma {:induction false} OthersStay(config: Config, s: System, step: Step, ip: Ip)
    requires Right(config, s, ip) && ip != step.ip
    ensures Right(config, Apply(config, s, step), ip)
  {}

  lemma {:induction false} OwnStays(config: Config, s: System, step: Step)
    requires Right(config, s, step.ip)
    ensures Right(config, Apply(config, s, step), step.ip)
  {}

  lemma {:induction false} StepKeeps(config: Config, s: System, step: Step)
    requires Inv(config, s)
    ensures Inv(config, Apply(config, s, step))
  {
    hide Right, Apply;
    forall ip ensures Right(config, Apply(config, s, step), ip) {
      if ip == step.ip {
        OwnStays(config, s, step);
      } else {
        OthersStay(config, s, step, ip);
      }
    }
  }

  lemma {:induction false} RunKeeps(config: Config, steps: seq<Step>)
    ensures Inv(config, Run(config, steps))
  {
    hide Inv, Apply;
    if steps == [] {
      NothingOpen(config);
    } else {
      RunKeeps(config, steps[..|steps| - 1]);
      StepKeeps(config, Run(config, steps[..|steps| - 1]), steps[|steps| - 1]);
    }
  }

  lemma {:induction false} NothingOpen(config: Config)
    ensures Inv(config, System(map[], multiset{}))
  {}

  /** In every run the counts are those of the open connections, addresses without one take no memory, no
      limited address has more than its share, and a connection is turned away exactly at the limit. */
  lemma {:induction false} ConnectionsAreCounted(config: Config, steps: seq<Step>, ip: Ip)
    requires config.Limits(ip)
    ensures var s := Run(config, steps);
            && CountOf(s.counts, ip) == s.open[ip] <= config.maxConnections
            && (ip in s.counts <==> ip in s.open)
            && (Start(config, s.counts, ip).1 <==> s.open[ip] < config.maxConnections)
  {
    RunKeeps(config, steps);
    var s := Run(config, steps);
    assert Right(config, s, ip);
  }

  /** The whole answer in every run: a connection is let in exactly when the limiter is off, or has no maximum, or
      the address is exempt, or has fewer connections open than the maximum. Who is not limited is not counted. */
  lemma {:induction false} LetInExactlyWhen(config: Config, steps: seq<Step>, ip: Ip)
    ensures var s := Run(config, steps);
            var free := !config.enabled || config.maxConnections <= 0 || ip in config.exempt;
            && (Start(config, s.counts, ip).1 <==> free || s.open[ip] < config.maxConnections)
            && (free ==> Start(config, s.counts, ip).0 == s.counts == End(config, s.counts, ip))
  {
    hide Run;
    if config.Limits(ip) {
      ConnectionsAreCounted(config, steps, ip);
    }
  }

  /** An arrival that is let in is one more connection, and one that ends is one less and leaves room for another. */
  lemma {:induction false} ArrivalsAndEnds(config: Config, steps: seq<Step>, ip: Ip)
    ensures var s := Run(config, steps);
            var arrived, left := Apply(config, s, Arrive(ip)), Apply(config, s, Leave(ip));
            && arrived.open == (if Start(config, s.counts, ip).1 then s.open + multiset{ip} else s.open)
            && (ip in s.open ==> left.open == s.open - multiset{ip} && Start(config, left.counts, ip).1)
            && (ip !in s.open ==> left == s)
  {
    RunKeeps(config, steps);
    assert Right(config, Run(config, steps), ip);
  }
}
