/**
 The token-bucket rate limiter.  Clock readings are parameters, in seconds; token counts are
 reals, so rounding is not modelled.
 */
module RateLimiter {
  import opened Common

  datatype Config = Config(rate: real, burst: real)

  datatype Bucket = Bucket(tokens: real, lastSeen: real)

  type Buckets = map<string, Bucket>

  const EVICT_AFTER := 300.0
  const EVICT_CHECK_INTERVAL: nat := 100

  /** Tokens gained in d seconds. */
  function Gain(c: Config, d: real): real {
    d * c.rate
  }

  function Refill(c: Config, b: Bucket, now: real): Bucket {
    var tokens := b.tokens + Gain(c, now - b.lastSeen);
    Bucket(if tokens < c.burst then tokens else c.burst, now)
  }

  /** The bucket of a client at the moment of a request: new ones start full. */
  function Touched(c: Config, m: Buckets, ip: string, now: real): (b: Bucket)
    ensures b.lastSeen == now
  {
    if ip in m then Refill(c, m[ip], now) else Bucket(c.burst, now)
  }

  function Spent(b: Bucket): Bucket {
    if b.tokens >= 1.0 then b.(tokens := b.tokens - 1.0) else b
  }

  /** The buckets eviction keeps. */
  function Kept(m: Buckets, now: real): Buckets {
    map ip | ip in m && now - m[ip].lastSeen <= EVICT_AFTER :: m[ip]
  }

  // ------------------------------------------------------------ the limiter

  datatype State = State(buckets: Buckets, count: nat)

  datatype Request = Request(ip: string, now: real)

  function Next(c: Config, s: State, r: Request): State {
    var b := Touched(c, s.buckets, r.ip, r.now);
    if s.count + 1 >= EVICT_CHECK_INTERVAL
    then State(Kept(s.buckets[r.ip := b], r.now)[r.ip := Spent(b)], 0)
    else State(s.buckets[r.ip := Spent(b)], s.count + 1)
  }

  predicate Grants(c: Config, m: Buckets, r: Request) {
    Touched(c, m, r.ip, r.now).tokens >= 1.0
  }

  /** How long until a token is there; Never if none will come. */
  datatype Wait = Seconds(s: real) | Never

  function WaitFor(c: Config, m: Buckets, ip: string, now: real): Wait {
    if ip !in m then Seconds(0.0)
    else
      var b := Refill(c, m[ip], now);
      if b.tokens >= 1.0 then Seconds(0.0)
      else if c.rate == 0.0 then Never
      else Seconds((1.0 - b.tokens) / c.rate)
  }

  class Limiter {
    const config: Config
    var buckets: Buckets
    var requestCount: nat

    constructor (tokensPerSecond: real, burstCapacity: real)
      ensures config == Config(tokensPerSecond, burstCapacity)
      ensures buckets == map[] && requestCount == 0
    {
      config := Config(tokensPerSecond, burstCapacity);
      buckets := map[];
      requestCount := 0;
    }

    ghost function Snapshot(): State
      reads this
    {
      State(buckets, requestCount)
    }

    method EvictStale(now: real)
      modifies this`buckets
      ensures buckets == Kept(old(buckets), now)
    {
      var todo := buckets.Keys;
      while todo != {}
        invariant todo <= old(buckets).Keys
        invariant forall ip :: ip in buckets <==>
          ip in old(buckets) && (ip in todo || now - old(buckets)[ip].lastSeen <= EVICT_AFTER)
        invariant forall ip :: ip in buckets ==> buckets[ip] == old(buckets)[ip]
        decreases |todo|
      {
        var ip :| ip in todo;
        todo := todo - {ip};
        if now - buckets[ip].lastSeen > EVICT_AFTER {
          buckets := buckets - {ip};
        }
      }
    }

    method Allow(clientIp: string, now: real) returns (ok: bool)
      modifies this`buckets, this`requestCount
      ensures ok == Grants(config, old(buckets), Request(clientIp, now))
      ensures Snapshot() == Next(config, old(Snapshot()), Request(clientIp, now))
    {
      if clientIp !in buckets {
        buckets := buckets[clientIp := Bucket(config.burst, now)];
      } else {
        buckets := buckets[clientIp := Refill(config, buckets[clientIp], now)];
      }
      requestCount := requestCount + 1;
      if requestCount >= EVICT_CHECK_INTERVAL {
        requestCount := 0;
        EvictStale(now);
      }
      var bucket := buckets[clientIp];
      ok := bucket.tokens >= 1.0;
      if ok {
        buckets := buckets[clientIp := bucket.(tokens := bucket.tokens - 1.0)];
      } else {
        assert buckets == buckets[clientIp := bucket];
      }
      assert buckets == Next(config, old(Snapshot()), Request(clientIp, now)).buckets;
    }

    method RetryAfterSeconds(clientIp: string, now: real) returns (wait: Wait)
      ensures wait == WaitFor(config, buckets, clientIp, now)
    {
      if clientIp !in buckets {
        return Seconds(0.0);
      }
      var bucket := Refill(config, buckets[clientIp], now);
      if bucket.tokens >= 1.0 {
        return Seconds(0.0);
      }
      var needed := 1.0 - bucket.tokens;
      if config.rate == 0.0 {
        return Never;
      }
      return Seconds(needed / config.rate);
    }
  }

  // -------------------------------------------------- a limiter that never evicts

  function Plain(c: Config, m: Buckets, r: Request): Buckets {
    m[r.ip := Spent(Touched(c, m, r.ip, r.now))]
  }

  function Run(c: Config, s: State, rs: seq<Request>): State
    decreases |rs|
  {
    if rs == [] then s else Run(c, Next(c, s, rs[0]), rs[1..])
  }

  function PlainRun(c: Config, m: Buckets, rs: seq<Request>): Buckets
    decreases |rs|
  {
    if rs == [] then m else PlainRun(c, Plain(c, m, rs[0]), rs[1..])
  }

  /** Clock readings never go back. */
  predicate OrderedFrom(rs: seq<Request>, t: real) {
    rs == [] || (t <= rs[0].now && OrderedFrom(rs[1..], rs[0].now))
  }

  function EndTime(rs: seq<Request>, t: real): real {
    if rs == [] then t else EndTime(rs[1..], rs[0].now)
  }

  /** Evicting and never evicting give the same answers to all requests. */
  predicate Agree(c: Config, s: State, m: Buckets, rs: seq<Request>)
    decreases |rs|
  {
    rs == [] ||
    (Grants(c, s.buckets, rs[0]) == Grants(c, m, rs[0]) && Agree(c, Next(c, s, rs[0]), Plain(c, m, rs[0]), rs[1..]))
  }

  const START := State(map[], 0)

  lemma GainGrows(c: Config, a: real, b: real)
    requires c.rate >= 0.0 && a <= b
    ensures Gain(c, a) <= Gain(c, b)
    ensures c.rate > 0.0 && a < b ==> Gain(c, a) < Gain(c, b)
  {
  }

  lemma GainNothing(c: Config, d: real)
    requires c.rate >= 0.0
    ensures Gain(c, 0.0) == 0.0
    ensures d >= 0.0 ==> Gain(c, d) >= 0.0
    ensures c.rate == 0.0 ==> Gain(c, d) == 0.0
  {
  }

  lemma GainSplit(c: Config, a: real, b: real)
    ensures Gain(c, a + b) == Gain(c, a) + Gain(c, b)
  {
  }

  /** The time it takes to gain x tokens. */
  lemma GainOf(c: Config, x: real)
    requires c.rate > 0.0
    ensures Gain(c, x / c.rate) == x && (x >= 0.0 ==> x / c.rate >= 0.0) && (x > 0.0 ==> x / c.rate > 0.0)
  {
  }

  // ------------------------------------------- enough rate: eviction is invisible

  ghost predicate Sane(c: Config, m: Buckets, t: real) {
    forall ip :: ip in m ==> 0.0 <= m[ip].tokens <= c.burst && m[ip].lastSeen <= t
  }

  /** The bucket is full again at time t. */
  predicate FullBy(c: Config, b: Bucket, t: real) {
    b.tokens + Gain(c, t - b.lastSeen) >= c.burst
  }

  /** The evicting limiter only lacks buckets that are full again. */
  ghost predicate Related(c: Config, some: Buckets, all: Buckets, t: real) {
    && Sane(c, all, t)
    && (forall ip :: ip in some ==> ip in all && some[ip] == all[ip])
    && (forall ip :: ip in all && ip !in some ==> FullBy(c, all[ip], t))
  }

  lemma FullStays(c: Config, b: Bucket, t: real, later: real)
    requires c.rate >= 0.0 && t <= later && FullBy(c, b, t)
    ensures FullBy(c, b, later)
  {
    hide Gain;
    GainGrows(c, t - b.lastSeen, later - b.lastSeen);
  }

  lemma TouchedSame(c: Config, some: Buckets, all: Buckets, t: real, r: Request)
    requires c.rate >= 0.0 && Related(c, some, all, t) && t <= r.now
    ensures Touched(c, some, r.ip, r.now) == Touched(c, all, r.ip, r.now)
  {
    if r.ip in all && r.ip !in some {
      FullStays(c, all[r.ip], t, r.now);
    }
  }

  lemma TouchedSane(c: Config, m: Buckets, t: real, r: Request)
    requires c.rate >= 0.0 && c.burst >= 0.0 && Sane(c, m, t) && t <= r.now
    ensures 0.0 <= Touched(c, m, r.ip, r.now).tokens <= c.burst
  {
    hide Gain;
    if r.ip in m {
      GainNothing(c, r.now - m[r.ip].lastSeen);
    }
  }

  lemma PlainSane(c: Config, m: Buckets, t: real, r: Request)
    requires c.rate >= 0.0 && c.burst >= 0.0 && Sane(c, m, t) && t <= r.now
    ensures Sane(c, Plain(c, m, r), r.now)
  {
    TouchedSane(c, m, t, r);
  }

  /** A bucket unseen for longer than the eviction period is full again. */
  lemma StaleIsFull(c: Config, b: Bucket, now: real)
    requires c.rate >= 0.0 && b.tokens >= 0.0 && Gain(c, EVICT_AFTER) >= c.burst
    requires now - b.lastSeen > EVICT_AFTER
    ensures FullBy(c, b, now)
  {
    hide Gain;
    GainGrows(c, EVICT_AFTER, now - b.lastSeen);
  }

  lemma StepRelated(c: Config, s: State, all: Buckets, t: real, r: Request)
    requires c.rate >= 0.0 && c.burst >= 0.0 && Gain(c, EVICT_AFTER) >= c.burst
    requires Related(c, s.buckets, all, t) && t <= r.now
    ensures Grants(c, s.buckets, r) == Grants(c, all, r)
    ensures Related(c, Next(c, s, r).buckets, Plain(c, all, r), r.now)
  {
    hide FullBy, Touched, Spent, Gain;
    TouchedSame(c, s.buckets, all, t, r);
    PlainSane(c, all, t, r);
    var some', all' := Next(c, s, r).buckets, Plain(c, all, r);
    forall ip | ip in all' && ip !in some' ensures FullBy(c, all'[ip], r.now) {
      if ip in s.buckets {
        StaleIsFull(c, all[ip], r.now);
      } else {
        FullStays(c, all[ip], t, r.now);
      }
    }
  }

  lemma {:induction false} EvictionInvisible(c: Config, s: State, all: Buckets, t: real, rs: seq<Request>)
    requires c.rate >= 0.0 && c.burst >= 0.0 && 300.0 * c.rate >= c.burst
    requires Related(c, s.buckets, all, t) && OrderedFrom(rs, t)
    ensures Agree(c, s, all, rs)
    ensures Related(c, Run(c, s, rs).buckets, PlainRun(c, all, rs), EndTime(rs, t))
    decreases |rs|
  {
    assert Gain(c, EVICT_AFTER) == 300.0 * c.rate;
    hide Related, Grants, Next, Plain, Gain;
    if rs != [] {
      StepRelated(c, s, all, t, rs[0]);
      EvictionInvisible(c, Next(c, s, rs[0]), Plain(c, all, rs[0]), rs[0].now, rs[1..]);
    }
  }

  // ----------------------------------------------- too little rate: it shows

  lemma Ahead(c: Config, s: State, m: Buckets, r: Request, rest: seq<Request>)
    requires !Agree(c, Next(c, s, r), Plain(c, m, r), rest)
    ensures !Agree(c, s, m, [r] + rest)
    ensures forall t :: t <= r.now && OrderedFrom(rest, r.now) ==> OrderedFrom([r] + rest, t)
  {
    assert ([r] + rest)[1..] == rest;
  }

  /** The bucket a request leaves behind, in both limiters. */
  lemma Left(c: Config, s: State, m: Buckets, r: Request)
    ensures r.ip in Next(c, s, r).buckets && Next(c, s, r).buckets[r.ip] == Spent(Touched(c, s.buckets, r.ip, r.now))
    ensures r.ip in Plain(c, m, r) && Plain(c, m, r)[r.ip] == Spent(Touched(c, m, r.ip, r.now))
    ensures s.count < EVICT_CHECK_INTERVAL ==> Next(c, s, r).count < EVICT_CHECK_INTERVAL
  {
  }

  /** Tokens of a bucket last touched d seconds ago. */
  lemma Waited(c: Config, m: Buckets, ip: string, b: Bucket, d: real)
    requires ip in m && m[ip] == b
    ensures
      var tokens := b.tokens + Gain(c, d);
      Touched(c, m, ip, b.lastSeen + d).tokens == if tokens < c.burst then tokens else c.burst
  {
    hide Gain;
    assert b.lastSeen + d - m[ip].lastSeen == d;
  }

  lemma NotWaited(c: Config, m: Buckets, ip: string, b: Bucket)
    requires c.rate >= 0.0 && ip in m && m[ip] == b && b.tokens <= c.burst
    ensures Touched(c, m, ip, b.lastSeen) == b
  {
    hide Gain;
    assert b.lastSeen - m[ip].lastSeen == 0.0;
    GainNothing(c, 0.0);
  }

  /** A client whose bucket is fuller with eviction than without can make the difference show. */
  lemma {:induction false} Diverge(c: Config, s: State, m: Buckets, ip: string, now: real) returns (rs: seq<Request>)
    requires c.rate >= 0.0 && c.burst >= 1.0
    requires 0.0 <= Touched(c, m, ip, now).tokens < Touched(c, s.buckets, ip, now).tokens <= c.burst
    requires c.rate > 0.0 || Touched(c, m, ip, now).tokens < 1.0 <= Touched(c, s.buckets, ip, now).tokens
    ensures OrderedFrom(rs, now) && !Agree(c, s, m, rs)
    decreases Touched(c, m, ip, now).tokens.Floor
  {
    hide Next, Plain, Touched, Gain;
    var r := Request(ip, now);
    var big, small := Touched(c, s.buckets, ip, now).tokens, Touched(c, m, ip, now).tokens;
    var s', m' := Next(c, s, r), Plain(c, m, r);
    Left(c, s, m, r);
    if small >= 1.0 {
      NotWaited(c, s'.buckets, ip, Bucket(big - 1.0, now));
      NotWaited(c, m', ip, Bucket(small - 1.0, now));
      var rest := Diverge(c, s', m', ip, now);
      Ahead(c, s, m, r, rest);
      rs := [r] + rest;
    } else if big >= 1.0 {
      rs := [r];
      assert OrderedFrom(rs, now);
    } else {
      GainOf(c, 1.0 - big);
      var d := (1.0 - big) / c.rate;
      Waited(c, s'.buckets, ip, Bucket(big, now), d);
      Waited(c, m', ip, Bucket(small, now), d);
      var late := [Request(ip, now + d)];
      assert OrderedFrom(late, now) && !Agree(c, s', m', late);
      Ahead(c, s, m, r, late);
      rs := [r] + late;
    }
  }

  /** Requests of another client bring about the eviction of a bucket that is not full again. */
  lemma {:induction false} FillThenDiverge(c: Config, s: State, m: Buckets, ip: string, other: string, now: real)
    returns (rs: seq<Request>)
    requires c.rate >= 0.0 && c.burst >= 1.0 && other != ip && s.count < EVICT_CHECK_INTERVAL
    requires ip in s.buckets && ip in m && now - s.buckets[ip].lastSeen > EVICT_AFTER
    requires 0.0 <= Touched(c, m, ip, now).tokens < c.burst
    requires c.rate > 0.0 || Touched(c, m, ip, now).tokens < 1.0
    ensures OrderedFrom(rs, now) && !Agree(c, s, m, rs)
    decreases EVICT_CHECK_INTERVAL - s.count
  {
    var r := Request(other, now);
    var s', m' := Next(c, s, r), Plain(c, m, r);
    assert m'[ip] == m[ip];
    var rest;
    if s.count + 1 >= EVICT_CHECK_INTERVAL {
      assert ip !in s'.buckets;
      rest := Diverge(c, s', m', ip, now);
    } else {
      assert s'.buckets[ip] == s.buckets[ip];
      rest := FillThenDiverge(c, s', m', ip, other, now);
    }
    Ahead(c, s, m, r, rest);
    rs := [r] + rest;
  }

  /** A client with x tokens left empties its bucket, waits to be evicted, and comes back. */
  lemma {:induction false} DrainThenDiverge(c: Config, s: State, m: Buckets, ip: string, other: string, now: real, x: real)
    returns (rs: seq<Request>)
    requires c.rate >= 0.0 && c.burst >= 1.0 && Gain(c, EVICT_AFTER) < c.burst
    requires other != ip && s.count < EVICT_CHECK_INTERVAL
    requires ip in s.buckets && ip in m && s.buckets[ip] == m[ip] == Bucket(x, now) && 0.0 <= x <= c.burst
    ensures OrderedFrom(rs, now) && !Agree(c, s, m, rs)
    decreases x.Floor
  {
    hide Next, Plain, Touched, Agree, Gain;
    var b := Bucket(x, now);
    NotWaited(c, s.buckets, ip, b);
    NotWaited(c, m, ip, b);
    if x >= 1.0 {
      var r := Request(ip, now);
      Left(c, s, m, r);
      var rest := DrainThenDiverge(c, Next(c, s, r), Plain(c, m, r), ip, other, now, x - 1.0);
      Ahead(c, s, m, r, rest);
      rs := [r] + rest;
    } else if c.rate == 0.0 {
      Waited(c, m, ip, b, 301.0);
      GainNothing(c, 301.0);
      rs := FillThenDiverge(c, s, m, ip, other, now + 301.0);
      OrderedEarlier(rs, now, now + 301.0);
    } else {
      GainOf(c, 1.0 - x);
      var r := Request(ip, now + (1.0 - x) / c.rate);
      Waited(c, s.buckets, ip, b, (1.0 - x) / c.rate);
      Waited(c, m, ip, b, (1.0 - x) / c.rate);
      Left(c, s, m, r);
      var rest := ReturnLate(c, Next(c, s, r), Plain(c, m, r), ip, other, r.now);
      Ahead(c, s, m, r, rest);
      rs := [r] + rest;
    }
  }

  /** A client with an empty bucket comes back just after the eviction period. */
  lemma ReturnLate(c: Config, s: State, m: Buckets, ip: string, other: string, now: real) returns (rs: seq<Request>)
    requires c.rate > 0.0 && c.burst >= 1.0 && Gain(c, EVICT_AFTER) < c.burst
    requires other != ip && s.count < EVICT_CHECK_INTERVAL
    requires ip in s.buckets && ip in m && s.buckets[ip] == m[ip] == Bucket(0.0, now)
    ensures OrderedFrom(rs, now) && !Agree(c, s, m, rs)
  {
    hide Touched, Agree, Gain;
    var spare := (c.burst - Gain(c, EVICT_AFTER)) / 2.0;
    GainOf(c, spare);
    var d := EVICT_AFTER + spare / c.rate;
    GainSplit(c, EVICT_AFTER, spare / c.rate);
    GainNothing(c, d);
    Waited(c, m, ip, Bucket(0.0, now), d);
    rs := FillThenDiverge(c, s, m, ip, other, now + d);
    OrderedEarlier(rs, now, now + d);
  }

  lemma OrderedEarlier(rs: seq<Request>, t: real, later: real)
    requires OrderedFrom(rs, later) && t <= later
    ensures OrderedFrom(rs, t)
  {
  }

  lemma EvictionShows(c: Config) returns (rs: seq<Request>)
    requires c.rate >= 0.0 && c.burst >= 1.0 && 300.0 * c.rate < c.burst
    ensures OrderedFrom(rs, 0.0) && !Agree(c, START, map[], rs)
  {
    var r := Request("a", 0.0);
    var s', m' := Next(c, START, r), Plain(c, map[], r);
    assert s'.buckets["a"] == m'["a"] == Bucket(c.burst - 1.0, 0.0);
    var rest := DrainThenDiverge(c, s', m', "a", "b", 0.0, c.burst - 1.0);
    Ahead(c, START, map[], r, rest);
    rs := [r] + rest;
  }

  /** Forgetting idle clients changes no answer exactly when a bucket refills within the eviction period. */
  lemma EvictionInvisibleIff(c: Config)
    requires c.rate >= 0.0 && c.burst >= 1.0
    ensures (forall rs :: OrderedFrom(rs, 0.0) ==> Agree(c, START, map[], rs)) <==> 300.0 * c.rate >= c.burst
  {
    if 300.0 * c.rate >= c.burst {
      forall rs | OrderedFrom(rs, 0.0) ensures Agree(c, START, map[], rs) {
        EvictionInvisible(c, START, map[], 0.0, rs);
      }
    } else {
      var rs := EvictionShows(c);
    }
  }

  // -------------------------------------------------------------- the bound

  function Granted(c: Config, s: State, ip: string, rs: seq<Request>): nat
    decreases |rs|
  {
    if rs == [] then 0
    else (if rs[0].ip == ip && Grants(c, s.buckets, rs[0]) then 1 else 0) + Granted(c, Next(c, s, rs[0]), ip, rs[1..])
  }

  function PlainGranted(c: Config, m: Buckets, ip: string, rs: seq<Request>): nat
    decreases |rs|
  {
    if rs == [] then 0
    else (if rs[0].ip == ip && Grants(c, m, rs[0]) then 1 else 0) + PlainGranted(c, Plain(c, m, rs[0]), ip, rs[1..])
  }

  lemma {:induction false} GrantedSame(c: Config, s: State, m: Buckets, ip: string, rs: seq<Request>)
    requires Agree(c, s, m, rs)
    ensures Granted(c, s, ip, rs) == PlainGranted(c, m, ip, rs)
    decreases |rs|
  {
    if rs != [] {
      GrantedSame(c, Next(c, s, rs[0]), Plain(c, m, rs[0]), ip, rs[1..]);
    }
  }

  function Level(c: Config, m: Buckets, ip: string, now: real): real {
    Touched(c, m, ip, now).tokens
  }

  lemma LevelRises(c: Config, m: Buckets, ip: string, t: real, later: real)
    requires c.rate >= 0.0 && t <= later
    ensures Level(c, m, ip, later) <= Level(c, m, ip, t) + Gain(c, later - t)
  {
    hide Gain;
    GainNothing(c, later - t);
    if ip in m {
      GainSplit(c, t - m[ip].lastSeen, later - t);
      assert t - m[ip].lastSeen + (later - t) == later - m[ip].lastSeen;
    }
  }

  lemma LevelAfter(c: Config, m: Buckets, ip: string, r: Request)
    requires c.rate >= 0.0
    ensures Level(c, Plain(c, m, r), ip, r.now)
         <= Level(c, m, ip, r.now) - (if r.ip == ip && Grants(c, m, r) then 1.0 else 0.0)
  {
    hide Gain;
    if r.ip == ip {
      assert r.now - Plain(c, m, r)[ip].lastSeen == 0.0;
      GainNothing(c, 0.0);
    }
  }

  /** What a client is granted is paid for by its tokens now and by the refill until t. */
  lemma {:induction false} GrantsArePaid(c: Config, m: Buckets, ip: string, rs: seq<Request>, s: real, t: real)
    requires c.rate >= 0.0 && c.burst >= 0.0 && Sane(c, m, s) && OrderedFrom(rs, s) && EndTime(rs, s) <= t
    ensures s <= t
    ensures PlainGranted(c, m, ip, rs) as real <= Level(c, m, ip, s) + Gain(c, t - s)
    decreases |rs|
  {
    hide Grants, Level, Plain, Gain;
    OrderedEnds(rs, s);
    if rs == [] {
      LevelSane(c, m, ip, s);
      GainNothing(c, t - s);
    } else {
      var r := rs[0];
      PlainSane(c, m, s, r);
      GrantsArePaid(c, Plain(c, m, r), ip, rs[1..], r.now, t);
      LevelRises(c, m, ip, s, r.now);
      LevelAfter(c, m, ip, r);
      GainSplit(c, t - r.now, r.now - s);
      assert t - r.now + (r.now - s) == t - s;
    }
  }

  lemma {:induction false} OrderedEnds(rs: seq<Request>, s: real)
    requires OrderedFrom(rs, s)
    ensures s <= EndTime(rs, s)
    decreases |rs|
  {
    if rs != [] {
      OrderedEnds(rs[1..], rs[0].now);
    }
  }

  lemma LevelSane(c: Config, m: Buckets, ip: string, s: real)
    requires c.rate >= 0.0 && c.burst >= 0.0 && Sane(c, m, s)
    ensures 0.0 <= Level(c, m, ip, s) <= c.burst
  {
    TouchedSane(c, m, s, Request(ip, s));
  }

  /** In any window [s, t] of any run a client is granted at most burst + rate * (t - s) requests. */
  lemma WindowBound(c: Config, before: seq<Request>, window: seq<Request>, ip: string, s: real, t: real)
    requires c.rate >= 0.0 && c.burst >= 0.0 && 300.0 * c.rate >= c.burst
    requires OrderedFrom(before, 0.0) && EndTime(before, 0.0) <= s && OrderedFrom(window, s) && EndTime(window, s) <= t
    ensures Granted(c, Run(c, START, before), ip, window) as real <= c.burst + c.rate * (t - s)
  {
    assert Gain(c, t - s) == c.rate * (t - s);
    hide Agree, Granted, PlainGranted, Run, PlainRun, FullBy, Gain;
    EvictionInvisible(c, START, map[], 0.0, before);
    var st, m := Run(c, START, before), PlainRun(c, map[], before);
    RelatedLater(c, st.buckets, m, EndTime(before, 0.0), s);
    EvictionInvisible(c, st, m, s, window);
    GrantedSame(c, st, m, ip, window);
    GrantsArePaid(c, m, ip, window, s, t);
    LevelSane(c, m, ip, s);
  }

  lemma RelatedLater(c: Config, some: Buckets, all: Buckets, t: real, later: real)
    requires c.rate >= 0.0 && t <= later && Related(c, some, all, t)
    ensures Related(c, some, all, later)
  {
    hide FullBy, Gain;
    forall ip | ip in all && ip !in some ensures FullBy(c, all[ip], later) {
      FullStays(c, all[ip], t, later);
    }
  }

  // ------------------------------------------------------------- the burst

  function Volley(ip: string, now: real, n: nat): seq<Request> {
    seq(n, i => Request(ip, now))
  }

  /** Of n requests at one moment a client with x tokens is granted n, but no more than x rounded down. */
  lemma {:induction false} VolleyGranted(c: Config, s: State, ip: string, now: real, x: real, n: nat)
    requires c.rate >= 0.0 && 0.0 <= x <= c.burst && Touched(c, s.buckets, ip, now) == Bucket(x, now)
    ensures Granted(c, s, ip, Volley(ip, now, n)) == if n <= x.Floor then n else x.Floor
    decreases n
  {
    hide Next, Touched, Gain;
    if n > 0 {
      var r, rs := Request(ip, now), Volley(ip, now, n);
      assert rs[0] == r && rs[1..] == Volley(ip, now, n - 1);
      Left(c, s, s.buckets, r);
      var y := if x >= 1.0 then x - 1.0 else x;
      NotWaited(c, Next(c, s, r).buckets, ip, Bucket(y, now));
      VolleyGranted(c, Next(c, s, r), ip, now, y, n - 1);
    }
  }

  /** A client not seen before may spend a whole burst at once, and no more. */
  lemma BurstAtOnce(c: Config, s: State, ip: string, now: real, n: nat)
    requires c.rate >= 0.0 && c.burst >= 0.0 && ip !in s.buckets
    ensures Granted(c, s, ip, Volley(ip, now, n)) == if n <= c.burst.Floor then n else c.burst.Floor
  {
    VolleyGranted(c, s, ip, now, c.burst, n);
  }

  // ------------------------------------------------------ what is forgotten

  /** Requests of other clients. */
  predicate Others(ip: string, rs: seq<Request>) {
    forall k :: 0 <= k < |rs| ==> rs[k].ip != ip
  }

  /** One hundred requests later no client is remembered that was unseen for 300 seconds all that time. */
  lemma {:induction false} IdleForgotten(c: Config, s: State, ip: string, rs: seq<Request>)
    requires Others(ip, rs) && (ip in s.buckets ==> s.count < 100 && s.count + |rs| >= 100)
    requires ip in s.buckets ==> forall k :: 0 <= k < |rs| ==> rs[k].now - s.buckets[ip].lastSeen > 300.0
    ensures ip !in Run(c, s, rs).buckets
    decreases |rs|
  {
    hide Touched, Spent;
    if rs != [] {
      assert rs[0].ip != ip;
      IdleForgotten(c, Next(c, s, rs[0]), ip, rs[1..]);
    }
  }

  /** A client seen within 300 seconds is remembered as it is, and any client until the hundredth request. */
  lemma {:induction false} RecentKept(c: Config, s: State, ip: string, rs: seq<Request>)
    requires Others(ip, rs) && ip in s.buckets
    requires s.count + |rs| < 100 || forall k :: 0 <= k < |rs| ==> rs[k].now - s.buckets[ip].lastSeen <= 300.0
    ensures ip in Run(c, s, rs).buckets && Run(c, s, rs).buckets[ip] == s.buckets[ip]
    decreases |rs|
  {
    hide Touched, Spent;
    if rs != [] {
      assert rs[0].ip != ip;
      RecentKept(c, Next(c, s, rs[0]), ip, rs[1..]);
    }
  }

  // ------------------------------------------------------------ retry-after

  /** The announced wait is exact: a request d seconds later is granted if and only if d is at least that. */
  lemma WaitIsExact(c: Config, m: Buckets, ip: string, now: real, d: real)
    requires c.rate >= 0.0 && c.burst >= 1.0 && d >= 0.0
    ensures
      var w := WaitFor(c, m, ip, now);
      Grants(c, m, Request(ip, now + d)) <==> w.Seconds? && d >= w.s
  {
    hide Gain;
    GainNothing(c, d);
    if ip in m {
      var b := Refill(c, m[ip], now);
      GainSplit(c, now - m[ip].lastSeen, d);
      assert now - m[ip].lastSeen + d == now + d - m[ip].lastSeen;
      if b.tokens < 1.0 && c.rate > 0.0 {
        var w := (1.0 - b.tokens) / c.rate;
        GainOf(c, 1.0 - b.tokens);
        if d >= w {
          GainGrows(c, w, d);
        } else {
          GainGrows(c, d, w);
        }
      }
    }
  }
}
