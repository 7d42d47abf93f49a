/** Requests per IP, counted lazily: counters drain only when looked at, and drained ones are deleted
    now and then (server/rate_limit.go). */
module RateLimiter {

  /** An address, as a number: only equality matters here. */
  type Ip = nat

  /** `exempt` stands for the whitelist check, `now` for the clock in Unix seconds. */
  datatype Config = Config(
    enabled: bool, maxRequestsPerSecond: int, requestBurst: int, cleanupIntervalSeconds: int, exempt: set<Ip>) {
    function RequestLimit(): int {
      if requestBurst < maxRequestsPerSecond then maxRequestsPerSecond else requestBurst
    }

    predicate Counts(ip: Ip) {
      enabled && maxRequestsPerSecond > 0 && ip !in exempt
    }
  }

  datatype Counter = Counter(count: int, timestamp: int)

  function Drain(c: Counter, now: int, rate: int): Counter {
    var secondsPassed := now - c.timestamp;
    if secondsPassed <= 0 then c
    else if rate * secondsPassed > c.count then Counter(0, now)
    else Counter(c.count - rate * secondsPassed, now)
  }

  datatype State = State(counters: map<Ip, Counter>, lastCleanup: int)

  function Cleaned(config: Config, s: State, now: int): State {
    if now - s.lastCleanup >= config.cleanupIntervalSeconds then
      State(map ip | ip in s.counters && Drain(s.counters[ip], now, config.maxRequestsPerSecond).count > 0 ::
              Drain(s.counters[ip], now, config.maxRequestsPerSecond), now)
    else s
  }

  /** One request: the new state, and whether it is accepted. */
  function Count(config: Config, s: State, ip: Ip, now: int): (State, bool) {
    if !config.Counts(ip) then (s, true)
    else
      var t := Cleaned(config, s, now);
      if ip !in t.counters then (t.(counters := t.counters[ip := Counter(1, now)]), true)
      else
        var c := Drain(t.counters[ip], now, config.maxRequestsPerSecond);
        if c.count >= config.RequestLimit() then (t.(counters := t.counters[ip := c]), false)
        else (t.(counters := t.counters[ip := c.(count := c.count + 1)]), true)
  }

  /** The counters while a cleanup still has `todo` to visit. */
  ghost function PartlyCleaned(config: Config, counters: map<Ip, Counter>, todo: set<Ip>, now: int): map<Ip, Counter> {
    map ip | ip in counters && (ip in todo || Drain(counters[ip], now, config.maxRequestsPerSecond).count > 0) ::
      if ip in todo then counters[ip] else Drain(counters[ip], now, config.maxRequestsPerSecond)
  }

  lemma {:induction false} OneMoreCleaned(config: Config, counters: map<Ip, Counter>, todo: set<Ip>, ip: Ip, now: int)
    requires ip in PartlyCleaned(config, counters, todo + {ip}, now) && ip !in todo
    ensures ip in counters && ip in PartlyCleaned(config, counters, todo + {ip}, now) &&
              PartlyCleaned(config, counters, todo + {ip}, now)[ip] == counters[ip]
    ensures var c := Drain(counters[ip], now, config.maxRequestsPerSecond);
            PartlyCleaned(config, counters, todo, now) ==
            if c.count > 0 then PartlyCleaned(config, counters, todo + {ip}, now)[ip := c]
            else PartlyCleaned(config, counters, todo + {ip}, now) - {ip}
  {
    hide Drain;
  }

  lemma {:induction false} NoneCleaned(config: Config, counters: map<Ip, Counter>, now: int)
    ensures PartlyCleaned(config, counters, counters.Keys, now) == counters
  {
    hide Drain;
  }

  lemma {:induction false} AllCleaned(config: Config, s: State, now: int)
    requires now - s.lastCleanup >= config.cleanupIntervalSeconds
    ensures Cleaned(config, s, now) == State(PartlyCleaned(config, s.counters, {}, now), now)
  {
    hide Drain;
  }

  class RequestCount {
    var count: int
    var timestamp: int

    constructor (count: int, timestamp: int)
      ensures this.count == count && this.timestamp == timestamp
    {
      this.count, this.timestamp := count, timestamp;
    }

    method Update(now: int, maxRequestsPerSecond: int)
      modifies this
      ensures Counter(count, timestamp) == Drain(Counter(old(count), old(timestamp)), now, maxRequestsPerSecond)
    {
      var secondsPassed := now - timestamp;
      if secondsPassed <= 0 {
        return;
      }
      var allowedRequests := maxRequestsPerSecond * secondsPassed;
      if allowedRequests > count {
        count := 0;
      } else {
        count := count - allowedRequests;
      }
      timestamp := now;
    }
  }

  class RateLimiter {
    const config: Config
    var requestCount: map<Ip, RequestCount>
    var lastCleanup: int
    ghost var counters: map<Ip, Counter>  // what the counters show

    constructor (config: Config, now: int)
      ensures Valid() && this.config == config && View() == State(map[], now)
    {
      this.config := config;
      requestCount, lastCleanup, counters := map[], now, map[];
    }

    ghost predicate Valid()
      reads this, requestCount.Values
    {
      && (forall a, b :: a in requestCount && b in requestCount && a != b ==> requestCount[a] != requestCount[b])
      && counters.Keys == requestCount.Keys
      && (forall ip :: ip in requestCount ==>
        counters[ip] == Counter(requestCount[ip].count, requestCount[ip].timestamp))
    }

    ghost function View(): State
      reads this
    {
      State(counters, lastCleanup)
    }

    lemma KeysMatch()
      requires Valid()
      ensures counters.Keys == requestCount.Keys
    {}

    method Update(ip: Ip, now: int) returns (count: int)
      requires Valid() && ip in requestCount
      modifies this`counters, requestCount[ip]
      ensures Valid() && counters == old(counters)[ip := Drain(old(counters)[ip], now, config.maxRequestsPerSecond)]
      ensures count == counters[ip].count
    {
      requestCount[ip].Update(now, config.maxRequestsPerSecond);
      counters := counters[ip := Drain(counters[ip], now, config.maxRequestsPerSecond)];
      count := requestCount[ip].count;
    }

    method Delete(ip: Ip)
      requires Valid()
      modifies this`counters, this`requestCount
      ensures Valid() && counters == old(counters) - {ip}
      ensures requestCount == old(requestCount) - {ip} && requestCount.Values <= old(requestCount.Values)
    {
      requestCount, counters := requestCount - {ip}, counters - {ip};
    }

    method Add(ip: Ip, now: int)
      requires Valid() && ip !in requestCount
      modifies this`counters, this`requestCount
      ensures Valid() && counters == old(counters)[ip := Counter(1, now)]
    {
      var first := new RequestCount(1, now);
      requestCount, counters := requestCount[ip := first], counters[ip := Counter(1, now)];
    }

    method Increment(ip: Ip)
      requires Valid() && ip in requestCount
      modifies this`counters, requestCount[ip]
      ensures Valid() && counters == old(counters)[ip := old(counters)[ip].(count := old(counters)[ip].count + 1)]
    {
      requestCount[ip].count := requestCount[ip].count + 1;
      counters := counters[ip := counters[ip].(count := counters[ip].count + 1)];
    }

    method CountRequest(ip: Ip, now: int) returns (accepted: bool)
      requires Valid()
      modifies this, requestCount.Values
      ensures Valid() && (View(), accepted) == Count(config, old(View()), ip, now)
    {
      hide Valid, Drain, Cleaned;
      if !config.Counts(ip) {
        return true;
      }
      Cleanup(now);
      ghost var cleaned := counters;
      KeysMatch();
      if ip !in requestCount {
        Add(ip, now);
        return true;
      }
      var count := Update(ip, now);
      if count >= config.RequestLimit() {
        return false;
      }
      KeysMatch();
      Increment(ip);
      assert counters == cleaned[ip := counters[ip]];
      return true;
    }

    method Cleanup(now: int)
      requires Valid()
      modifies this, requestCount.Values
      ensures Valid() && View() == Cleaned(config, old(View()), now)
      ensures requestCount.Values <= old(requestCount.Values)
    {
      hide Drain;
      if now - lastCleanup < config.cleanupIntervalSeconds {
        return;
      }
      AllCleaned(config, View(), now);
      Sweep(now);
      lastCleanup := now;
    }

    /** The counters are visited in any order, and deleted while the map is being walked. */
    method Sweep(now: int)
      requires Valid()
      modifies this`counters, this`requestCount, requestCount.Values
      ensures Valid() && counters == PartlyCleaned(config, old(counters), {}, now)
      ensures requestCount.Values <= old(requestCount.Values)
    {
      hide Valid, Drain, PartlyCleaned;
      KeysMatch();
      NoneCleaned(config, counters, now);
      var todo := requestCount.Keys;
      while todo != {}
        modifies this`counters, this`requestCount, requestCount.Values
        invariant Valid() && requestCount.Values <= old(requestCount.Values)
        invariant todo <= requestCount.Keys
        invariant counters == PartlyCleaned(config, old(counters), todo, now)
        decreases todo
      {
        var ip :| ip in todo;
        assert todo == todo - {ip} + {ip};
        todo := todo - {ip};
        assert todo <= (requestCount - {ip}).Keys;
        UpdateOrDelete(ip, now);
        OneMoreCleaned(config, old(counters), todo, ip, now);
      }
    }

    method UpdateOrDelete(ip: Ip, now: int)
      requires Valid() && ip in requestCount
      modifies this`counters, this`requestCount, requestCount[ip]
      ensures ip in old(counters)
      ensures var c := Drain(old(counters)[ip], now, config.maxRequestsPerSecond);
              Valid() && counters == if c.count > 0 then old(counters)[ip := c] else old(counters) - {ip}
      ensures old(requestCount) - {ip} == requestCount - {ip}
      ensures requestCount.Values <= old(requestCount.Values)
    {
      hide Drain;
      ghost var before := counters;
      var count := Update(ip, now);
      if count <= 0 {
        Delete(ip);
        assert counters == before - {ip};
      }
    }
  }

  // The reference: a leaky bucket per IP that is never deleted. It starts out empty.

  datatype Request = Request(ip: Ip, now: int)

  ghost function Level(counters: map<Ip, Counter>, ip: Ip, now: int, rate: int): int {
    if ip in counters then Drain(counters[ip], now, rate).count else 0
  }

  function Bucket(config: Config, buckets: map<Ip, Counter>, request: Request): (map<Ip, Counter>, bool) {
    if !config.Counts(request.ip) then (buckets, true)
    else
      var before := if request.ip in buckets then buckets[request.ip] else Counter(0, request.now);
      var c := Drain(before, request.now, config.maxRequestsPerSecond);
      var accepted := c.count < config.RequestLimit();
      (buckets[request.ip := if accepted then c.(count := c.count + 1) else c], accepted)
  }

  function Buckets(config: Config, requests: seq<Request>): map<Ip, Counter> {
    if requests == [] then map[]
    else Bucket(config, Buckets(config, requests[..|requests| - 1]), requests[|requests| - 1]).0
  }

  function States(config: Config, lastCleanup: int, requests: seq<Request>): State {
    if requests == [] then State(map[], lastCleanup)
    else
      var request := requests[|requests| - 1];
      Count(config, States(config, lastCleanup, requests[..|requests| - 1]), request.ip, request.now).0
  }

  /** What the limiter answers to request `i`. */
  function Accepts(config: Config, lastCleanup: int, requests: seq<Request>, i: nat): bool
    requires i < |requests|
  {
    Count(config, States(config, lastCleanup, requests[..i]), requests[i].ip, requests[i].now).1
  }

  ghost predicate Monotone(requests: seq<Request>) {
    forall i, j :: 0 <= i < j < |requests| ==> requests[i].now <= requests[j].now
  }

  function Drop(level: int, amount: int): int {
    if amount > level then 0 else level - amount
  }

  ghost predicate Sane(c: Counter, now: int) {
    c.count >= 0 && c.timestamp <= now
  }

  ghost predicate AllSane(counters: map<Ip, Counter>, now: int) {
    forall ip :: ip in counters ==> Sane(counters[ip], now)
  }

  /** Draining in two goes is draining in one. */
  lemma {:induction false} DrainTwice(c: Counter, t1: int, t2: int, rate: int)
    requires rate > 0 && Sane(c, t1) && t1 <= t2
    ensures Sane(Drain(c, t1, rate), t1)
    ensures Drain(c, t1, rate).count == Drop(c.count, rate * (t1 - c.timestamp))
    ensures Drain(Drain(c, t1, rate), t2, rate).count == Drain(c, t2, rate).count ==
              Drop(Drain(c, t1, rate).count, rate * (t2 - t1))
  {
    assert rate * (t2 - c.timestamp) == rate * (t1 - c.timestamp) + rate * (t2 - t1);
    assert rate * (t1 - c.timestamp) >= 0 && rate * (t2 - t1) >= 0;
  }

  lemma {:induction false} LevelLater(counters: map<Ip, Counter>, ip: Ip, t1: int, t2: int, rate: int)
    requires rate > 0 && AllSane(counters, t1) && t1 <= t2
    ensures Level(counters, ip, t1, rate) >= 0
    ensures Level(counters, ip, t2, rate) == Drop(Level(counters, ip, t1, rate), rate * (t2 - t1))
  {
    assert rate * (t2 - t1) >= 0;
    if ip in counters {
      DrainTwice(counters[ip], t1, t2, rate);
    }
  }

  // The limiter decides like the reference.

  /** At `now` both know the same level of every IP. */
  ghost predicate Agree(config: Config, counters: map<Ip, Counter>, buckets: map<Ip, Counter>, now: int) {
    && AllSane(counters, now) && AllSane(buckets, now)
    && (forall ip ::
          Level(counters, ip, now, config.maxRequestsPerSecond) == Level(buckets, ip, now, config.maxRequestsPerSecond))
  }

  lemma {:induction false} AgreeLater(config: Config, counters: map<Ip, Counter>, buckets: map<Ip, Counter>,
                                      t1: int, t2: int)
    requires Agree(config, counters, buckets, t1) && t1 <= t2 && config.maxRequestsPerSecond > 0
    ensures Agree(config, counters, buckets, t2)
  {
    hide Level;
    var rate := config.maxRequestsPerSecond;
    forall ip ensures Level(counters, ip, t2, rate) == Level(buckets, ip, t2, rate) {
      LevelLater(counters, ip, t1, t2, rate);
      LevelLater(buckets, ip, t1, t2, rate);
    }
  }

  lemma {:induction false} CleanedAgrees(config: Config, s: State, buckets: map<Ip, Counter>, now: int)
    requires Agree(config, s.counters, buckets, now) && config.maxRequestsPerSecond > 0
    ensures Agree(config, Cleaned(config, s, now).counters, buckets, now)
  {
    hide Drain;
    var rate := config.maxRequestsPerSecond;
    forall ip ensures Level(Cleaned(config, s, now).counters, ip, now, rate) == Level(s.counters, ip, now, rate) {
      if ip in s.counters {
        DrainTwice(s.counters[ip], now, now, rate);
      }
    }
    forall ip | ip in s.counters ensures Sane(Drain(s.counters[ip], now, rate), now) {
      DrainTwice(s.counters[ip], now, now, rate);
    }
  }

  /** A drained counter shows its level, as of now. */
  lemma {:induction false} DrainedNow(counters: map<Ip, Counter>, ip: Ip, now: int, rate: int)
    requires AllSane(counters, now) && rate > 0
    ensures Drain(if ip in counters then counters[ip] else Counter(0, now), now, rate) ==
              Counter(Level(counters, ip, now, rate), now)
    ensures Level(counters, ip, now, rate) >= 0
  {
    LevelLater(counters, ip, now, now, rate);
  }

  lemma {:induction false} SetAgrees(config: Config, counters: map<Ip, Counter>, buckets: map<Ip, Counter>, ip: Ip,
                                     level: nat, now: int)
    requires Agree(config, counters, buckets, now)
    ensures Agree(config, counters[ip := Counter(level, now)], buckets[ip := Counter(level, now)], now)
  {
    var rate := config.maxRequestsPerSecond;
    var c := Counter(level, now);
    var counters', buckets' := counters[ip := c], buckets[ip := c];
    forall other ensures Level(counters', other, now, rate) == Level(buckets', other, now, rate) {
      assert Level(counters, other, now, rate) == Level(buckets, other, now, rate);
    }
  }

  lemma {:induction false} RequestAgrees(config: Config, s: State, buckets: map<Ip, Counter>, request: Request)
    requires Agree(config, s.counters, buckets, request.now) && config.Counts(request.ip)
    ensures var (t, accepted) := Count(config, s, request.ip, request.now);
            var (after, reference) := Bucket(config, buckets, request);
            accepted == reference && Agree(config, t.counters, after, request.now)
  {
    hide Drain, Cleaned, AllSane;
    var now, rate, ip := request.now, config.maxRequestsPerSecond, request.ip;
    CleanedAgrees(config, s, buckets, now);
    var cleaned := Cleaned(config, s, now).counters;
    DrainedNow(cleaned, ip, now, rate);
    DrainedNow(buckets, ip, now, rate);
    var level := Level(buckets, ip, now, rate);
    SetAgrees(config, cleaned, buckets, ip, level, now);
    SetAgrees(config, cleaned, buckets, ip, level + 1, now);
  }

  lemma {:induction false} RunsAgree(config: Config, lastCleanup: int, requests: seq<Request>, now: int)
    requires Monotone(requests) && config.enabled && config.maxRequestsPerSecond > 0
    requires requests != [] ==> requests[|requests| - 1].now <= now
    ensures Agree(config, States(config, lastCleanup, requests).counters, Buckets(config, requests), now)
  {
    if requests != [] {
      hide Agree, Count, Bucket;
      var before, request := requests[..|requests| - 1], requests[|requests| - 1];
      RunsAgree(config, lastCleanup, before, request.now);
      var s, buckets := States(config, lastCleanup, before), Buckets(config, before);
      if config.Counts(request.ip) {
        RequestAgrees(config, s, buckets, request);
      } else {
        NotCounted(config, s, buckets, request);
      }
      AgreeLater(config, States(config, lastCleanup, requests).counters, Buckets(config, requests), request.now, now);
    }
  }

  lemma {:induction false} NotCounted(config: Config, s: State, buckets: map<Ip, Counter>, request: Request)
    requires !config.Counts(request.ip)
    ensures Count(config, s, request.ip, request.now) == (s, true) &&
              Bucket(config, buckets, request) == (buckets, true)
  {}

  /** Whatever the cleanup interval, the time of the last cleanup and the order in which counters are visited,
      every request gets the answer that the buckets which are never deleted would give. */
  lemma {:induction false} LazyCountersRefineBuckets(config: Config, lastCleanup: int, requests: seq<Request>, i: nat)
    requires Monotone(requests) && i < |requests|
    ensures Accepts(config, lastCleanup, requests, i) == Bucket(config, Buckets(config, requests[..i]), requests[i]).1
  {
    if config.Counts(requests[i].ip) {
      RunsAgree(config, lastCleanup, requests[..i], requests[i].now);
      RequestAgrees(config, States(config, lastCleanup, requests[..i]), Buckets(config, requests[..i]), requests[i]);
    }
  }

  // What the reference, and so the limiter, guarantees.

  /** Requests of `ip` accepted at times in [start, end]. */
  ghost function AcceptedIn(config: Config, lastCleanup: int, requests: seq<Request>, ip: Ip, start: int,
                            end: int): nat {
    if requests == [] then 0
    else
      var last := |requests| - 1;
      AcceptedIn(config, lastCleanup, requests[..last], ip, start, end)
      + if requests[last].ip == ip && start <= requests[last].now <= end
           && Accepts(config, lastCleanup, requests, last) then 1 else 0
  }

  ghost function LevelAfter(config: Config, requests: seq<Request>, ip: Ip, now: int): int {
    Level(Buckets(config, requests), ip, now, config.maxRequestsPerSecond)
  }

  /** What one request does to the level of an IP. */
  lemma {:induction false} LevelStep(config: Config, lastCleanup: int, requests: seq<Request>, ip: Ip)
    requires Monotone(requests) && requests != [] && config.Counts(ip)
    ensures var last := |requests| - 1;
            var level := LevelAfter(config, requests[..last], ip, requests[last].now);
            var accepted := requests[last].ip == ip && Accepts(config, lastCleanup, requests, last);
            && level >= 0
            && LevelAfter(config, requests, ip, requests[last].now) == (if accepted then level + 1 else level)
            && (requests[last].ip == ip ==> (accepted <==> level < config.RequestLimit()))
  {
    var last := |requests| - 1;
    var request, before := requests[last], Buckets(config, requests[..last]);
    var rate := config.maxRequestsPerSecond;
    LazyCountersRefineBuckets(config, lastCleanup, requests, last);
    RunsAgree(config, lastCleanup, requests[..last], request.now);
    DrainedNow(before, ip, request.now, rate);
  }

  lemma {:induction false} LevelDrains(config: Config, lastCleanup: int, requests: seq<Request>, ip: Ip, t1: int,
                                       t2: int)
    requires Monotone(requests) && config.Counts(ip) && t1 <= t2
    requires requests != [] ==> requests[|requests| - 1].now <= t1
    ensures LevelAfter(config, requests, ip, t2) ==
              Drop(LevelAfter(config, requests, ip, t1), config.maxRequestsPerSecond * (t2 - t1))
  {
    RunsAgree(config, lastCleanup, requests, t1);
    LevelLater(Buckets(config, requests), ip, t1, t2, config.maxRequestsPerSecond);
  }

  /** Within a window, acceptances are paid for by the level and by what drained meanwhile. */
  lemma {:induction false} WindowPays(config: Config, lastCleanup: int, requests: seq<Request>, ip: Ip, start: int,
                                      end: int, now: int)
    requires Monotone(requests) && config.Counts(ip) && start <= now <= end
    requires requests != [] ==> requests[|requests| - 1].now <= now
    ensures AcceptedIn(config, lastCleanup, requests, ip, start, end)
            <= LevelAfter(config, requests, ip, now) + config.maxRequestsPerSecond * (now - start)
  {
    hide LevelAfter, Accepts;
    var rate := config.maxRequestsPerSecond;
    FlowSplits(rate, start, now, now);
    if requests == [] {
      LevelDrains(config, lastCleanup, requests, ip, now, now);
    } else {
      var last := |requests| - 1;
      var t := requests[last].now;
      LevelStep(config, lastCleanup, requests, ip);
      LevelDrains(config, lastCleanup, requests, ip, t, now);
      if start <= t {
        WindowPays(config, lastCleanup, requests[..last], ip, start, end, t);
        FlowSplits(rate, start, t, now);
      } else {
        NothingYet(config, lastCleanup, requests, ip, start, end);
      }
    }
  }

  lemma {:induction false} FlowSplits(rate: int, start: int, t: int, now: int)
    requires rate >= 0 && start <= t <= now
    ensures rate * (now - start) == rate * (t - start) + rate * (now - t)
    ensures rate * (t - start) >= 0 && rate * (now - t) >= 0
  {}

  lemma {:induction false} NothingYet(config: Config, lastCleanup: int, requests: seq<Request>, ip: Ip, start: int,
                                      end: int)
    requires Monotone(requests) && (requests != [] ==> requests[|requests| - 1].now < start)
    ensures AcceptedIn(config, lastCleanup, requests, ip, start, end) == 0
  {
    hide Accepts;
    if requests != [] {
      NothingYet(config, lastCleanup, requests[..|requests| - 1], ip, start, end);
    }
  }

  lemma {:induction false} LevelBounded(config: Config, lastCleanup: int, requests: seq<Request>, ip: Ip, now: int)
    requires Monotone(requests) && config.Counts(ip)
    requires requests != [] ==> requests[|requests| - 1].now <= now
    ensures 0 <= LevelAfter(config, requests, ip, now) <= config.RequestLimit()
  {
    hide LevelAfter, Accepts;
    assert requests != [] ==> config.maxRequestsPerSecond * (now - requests[|requests| - 1].now) >= 0;
    if requests == [] {
      assert LevelAfter(config, requests, ip, now) == 0 by {
        EmptyLevel(config, ip, now);
      }
    } else {
      var last := |requests| - 1;
      LevelBounded(config, lastCleanup, requests[..last], ip, requests[last].now);
      LevelStep(config, lastCleanup, requests, ip);
      LevelDrains(config, lastCleanup, requests, ip, requests[last].now, now);
    }
  }

  lemma {:induction false} EmptyLevel(config: Config, ip: Ip, now: int)
    ensures LevelAfter(config, [], ip, now) == 0
  {}

  /** The rate bound: in any window, at most the limit plus the rate times the length of the window. */
  lemma {:induction false} RateBound(config: Config, lastCleanup: int, requests: seq<Request>, ip: Ip, start: int,
                                     end: int)
    requires Monotone(requests) && config.Counts(ip) && start <= end
    ensures AcceptedIn(config, lastCleanup, requests, ip, start, end)
            <= config.RequestLimit() + config.maxRequestsPerSecond * (end - start)
  {
    hide LevelAfter, Accepts;
    if requests == [] {
      assert config.maxRequestsPerSecond * (end - start) >= 0;
    } else if requests[|requests| - 1].now > end {
      RateBound(config, lastCleanup, requests[..|requests| - 1], ip, start, end);
    } else {
      WindowPays(config, lastCleanup, requests, ip, start, end, end);
      LevelBounded(config, lastCleanup, requests, ip, end);
    }
  }

  /** Requests of `ip` at exactly time `t`. */
  ghost function SentAt(requests: seq<Request>, ip: Ip, t: int): nat {
    if requests == [] then 0
    else
      var last := requests[|requests| - 1];
      SentAt(requests[..|requests| - 1], ip, t) + if last.ip == ip && last.now == t then 1 else 0
  }

  lemma {:induction false} SentAtGrows(requests: seq<Request>, k: nat, ip: Ip, t: int)
    requires k <= |requests|
    ensures SentAt(requests[..k], ip, t) <= SentAt(requests, ip, t)
  {
    if k == |requests| {
      assert requests[..k] == requests;
    } else {
      SentAtGrows(requests[..|requests| - 1], k, ip, t);
      assert requests[..|requests| - 1][..k] == requests[..k];
    }
  }

  ghost predicate Modest(config: Config, requests: seq<Request>, ip: Ip) {
    forall t :: SentAt(requests, ip, t) <= config.maxRequestsPerSecond
  }

  lemma {:induction false} ModestBefore(config: Config, requests: seq<Request>, ip: Ip, k: nat, t: int)
    requires Modest(config, requests, ip) && k <= |requests|
    ensures Modest(config, requests[..k], ip) && SentAt(requests, ip, t) <= config.maxRequestsPerSecond
  {
    forall u ensures SentAt(requests[..k], ip, u) <= config.maxRequestsPerSecond {
      SentAtGrows(requests, k, ip, u);
    }
  }

  lemma {:induction false} SecondEmpties(config: Config, lastCleanup: int, requests: seq<Request>, ip: Ip, t1: int,
                                         t2: int)
    requires Monotone(requests) && config.Counts(ip) && t1 < t2
    requires requests != [] ==> requests[|requests| - 1].now <= t1
    requires LevelAfter(config, requests, ip, t1) <= config.maxRequestsPerSecond
    ensures LevelAfter(config, requests, ip, t2) == 0
  {
    hide LevelAfter;
    LevelDrains(config, lastCleanup, requests, ip, t1, t2);
    AtLeastOnce(config.maxRequestsPerSecond, t2 - t1);
  }

  lemma {:induction false} AtLeastOnce(rate: int, seconds: int)
    requires rate > 0 && seconds >= 1
    ensures rate * seconds >= rate
  {}

  /** The level never passes the requests of the current second. */
  lemma {:induction false} LevelOfModestClient(config: Config, lastCleanup: int, requests: seq<Request>, ip: Ip,
                                               now: int)
    requires Monotone(requests) && config.Counts(ip) && Modest(config, requests, ip)
    requires requests != [] ==> requests[|requests| - 1].now <= now
    ensures LevelAfter(config, requests, ip, now) <= SentAt(requests, ip, now)
  {
    hide LevelAfter, Accepts, Modest;
    if requests == [] {
      EmptyLevel(config, ip, now);
    } else {
      var last := |requests| - 1;
      var t := requests[last].now;
      ModestBefore(config, requests, ip, last, t);
      LevelOfModestClient(config, lastCleanup, requests[..last], ip, t);
      LevelStep(config, lastCleanup, requests, ip);
      if t < now {
        SecondEmpties(config, lastCleanup, requests, ip, t, now);
      }
    }
  }

  /** Who sends no more than the rate in any second is never rejected. */
  lemma {:induction false} ModestClientNeverRejected(config: Config, lastCleanup: int, requests: seq<Request>, i: nat)
    requires Monotone(requests) && i < |requests| && Modest(config, requests, requests[i].ip)
    ensures Accepts(config, lastCleanup, requests, i)
  {
    var ip, now := requests[i].ip, requests[i].now;
    if config.Counts(ip) {
      hide LevelAfter, Accepts, Modest;
      var upto := requests[..i + 1];
      assert upto[..i] == requests[..i];
      ModestBefore(config, requests, ip, i, now);
      ModestBefore(config, requests, ip, i + 1, now);
      ModestBefore(config, upto, ip, i, now);
      LevelOfModestClient(config, lastCleanup, requests[..i], ip, now);
      LevelStep(config, lastCleanup, upto, ip);
      SameAnswer(config, lastCleanup, requests, i);
    }
  }

  lemma {:induction false} SameAnswer(config: Config, lastCleanup: int, requests: seq<Request>, i: nat)
    requires i < |requests|
    ensures Accepts(config, lastCleanup, requests[..i + 1], i) == Accepts(config, lastCleanup, requests, i)
  {
    assert requests[..i + 1][..i] == requests[..i];
  }

  /** The whole answer: a request is accepted exactly when the limiter is off, or has no rate, or the address is
      exempt, or the level of its bucket is below the greater of burst and rate. */
  lemma {:induction false} AcceptedExactlyWhen(config: Config, lastCleanup: int, requests: seq<Request>, i: nat)
    requires Monotone(requests) && i < |requests|
    ensures var ip, rate, burst := requests[i].ip, config.maxRequestsPerSecond, config.requestBurst;
            Accepts(config, lastCleanup, requests, i)
            <==>
            || !config.enabled || rate <= 0 || ip in config.exempt
            || LevelAfter(config, requests[..i], ip, requests[i].now) < if burst > rate then burst else rate
  {
    if config.Counts(requests[i].ip) {
      hide LevelAfter, Accepts;
      var upto := requests[..i + 1];
      assert upto[..i] == requests[..i] && upto[i] == requests[i];
      LevelStep(config, lastCleanup, upto, requests[i].ip);
      SameAnswer(config, lastCleanup, requests, i);
    }
  }

  ghost predicate AllAt(requests: seq<Request>, ip: Ip, t: int) {
    forall i :: 0 <= i < |requests| ==> requests[i] == Request(ip, t)
  }

  lemma {:induction false} LevelOfBurst(config: Config, lastCleanup: int, requests: seq<Request>, ip: Ip, t: int)
    requires AllAt(requests, ip, t) && config.Counts(ip)
    ensures LevelAfter(config, requests, ip, t) ==
              if |requests| < config.RequestLimit() then |requests| else config.RequestLimit()
  {
    hide LevelAfter, Accepts;
    if requests == [] {
      EmptyLevel(config, ip, t);
    } else {
      LevelOfBurst(config, lastCleanup, requests[..|requests| - 1], ip, t);
      LevelStep(config, lastCleanup, requests, ip);
    }
  }

  /** Of requests that all come from one address in one second, the first ones are accepted, as many as the greater
      of burst and rate, and no more. */
  lemma {:induction false} BurstIsGranted(config: Config, lastCleanup: int, requests: seq<Request>, ip: Ip, t: int,
                                          i: nat)
    requires AllAt(requests, ip, t) && i < |requests|
    requires config.enabled && config.maxRequestsPerSecond > 0 && ip !in config.exempt
    ensures Accepts(config, lastCleanup, requests, i)
       <==> i < if config.requestBurst > config.maxRequestsPerSecond then config.requestBurst
                else config.maxRequestsPerSecond
  {
    hide LevelAfter, Accepts;
    LevelOfBurst(config, lastCleanup, requests[..i], ip, t);
    AcceptedExactlyWhen(config, lastCleanup, requests, i);
  }

  /** When a cleanup is due, a counted request leaves just those other counters that have not drained, and notes the
      time; else it leaves them all. */
  lemma {:induction false} CleanupForgetsDrained(config: Config, s: State, ip: Ip, now: int, other: Ip)
    requires config.Counts(ip) && other != ip
    ensures var t := Count(config, s, ip, now).0;
            var due := now - s.lastCleanup >= config.cleanupIntervalSeconds;
            && (other in t.counters <==>
                  other in s.counters && (due ==> Level(s.counters, other, now, config.maxRequestsPerSecond) > 0))
            && t.lastCleanup == if due then now else s.lastCleanup
  {
    hide Drain;
  }
}
