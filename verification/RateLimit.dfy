/** The per-IP token bucket of internal/httplog/ratelimit.go. Times are seconds and token counts are
    real numbers; the source uses float64, so its rounding is not captured. */
module RateLimit {

  datatype Limits = Limits(capacity: real, refill: real)

  /** NewRateLimiter's sizing: perMinute tokens, refilled over one minute. */
  function PerMinute(n: int): Limits { Limits(n as real, n as real / 60.0) }

  datatype Level = Level(tokens: real, at: real)

  type Levels = map<string, Level>

  function RealMin(a: real, b: real): real { if a <= b then a else b }

  /** The tokens refilled between two times. */
  function Gain(l: Limits, from: real, to: real): real { (to - from) * l.refill }

  /** The tokens that ip has at time t; an unseen ip has a full bucket. */
  function Available(l: Limits, levels: Levels, ip: string, t: real): real {
    if ip in levels then RealMin(l.capacity, levels[ip].tokens + Gain(l, levels[ip].at, t)) else l.capacity
  }

  predicate Grants(l: Limits, levels: Levels, ip: string, now: real) {
    ip !in levels || Available(l, levels, ip, now) >= 1.0
  }

  function AfterCall(l: Limits, levels: Levels, ip: string, now: real): Levels {
    levels[ip := Level(Available(l, levels, ip, now) - (if Grants(l, levels, ip, now) then 1.0 else 0.0), now)]
  }

  class Bucket {
    var tokens: real
    var lastSeen: real

    constructor (tokens: real, lastSeen: real)
      ensures this.tokens == tokens && this.lastSeen == lastSeen
    {
      this.tokens := tokens;
      this.lastSeen := lastSeen;
    }
  }

  class RateLimiter {
    var buckets: map<string, Bucket>
    const limits: Limits

    constructor (perMinute: int)
      ensures Valid() && limits == PerMinute(perMinute) && Contents() == map[]
    {
      limits := PerMinute(perMinute);
      buckets := map[];
    }

    /** No two addresses share a bucket. */
    ghost predicate Valid()
      reads this
    {
      forall a, b :: a in buckets && b in buckets && a != b ==> buckets[a] != buckets[b]
    }

    ghost function Contents(): Levels
      reads this, buckets.Values
    {
      map ip | ip in buckets :: Level(buckets[ip].tokens, buckets[ip].lastSeen)
    }

    /** `now` is the clock as read under the mutex. */
    method Allow(ip: string, now: real) returns (ok: bool)
      requires Valid()
      modifies this, buckets.Values
      ensures Valid()
      ensures ok == Grants(limits, old(Contents()), ip, now)
      ensures Contents() == AfterCall(limits, old(Contents()), ip, now)
    {
      if ip !in buckets {
        var bucket := new Bucket(limits.capacity - 1.0, now);
        buckets := buckets[ip := bucket];
        return true;
      }
      var b := buckets[ip];
      assert Contents()[ip] == Level(b.tokens, b.lastSeen);
      hide Gain;
      b.tokens := RealMin(limits.capacity, b.tokens + Gain(limits, b.lastSeen, now));
      b.lastSeen := now;
      if b.tokens < 1.0 {
        return false;
      }
      b.tokens := b.tokens - 1.0;
      ok := true;
    }
  }

  // Runs

  datatype Call = Call(ip: string, now: real)

  function Outcomes(l: Limits, levels: Levels, calls: seq<Call>): seq<bool>
    decreases |calls|
  {
    if calls == [] then []
    else
      [Grants(l, levels, calls[0].ip, calls[0].now)]
      + Outcomes(l, AfterCall(l, levels, calls[0].ip, calls[0].now), calls[1..])
  }

  /** The clock never runs backwards. */
  predicate Ordered(clock: real, calls: seq<Call>) {
    && (forall i :: 0 <= i < |calls| ==> clock <= calls[i].now)
    && (forall i, j :: 0 <= i < j < |calls| ==> calls[i].now <= calls[j].now)
  }

  predicate LevelsOk(l: Limits, clock: real, levels: Levels) {
    forall ip :: ip in levels ==> 0.0 <= levels[ip].tokens <= l.capacity && levels[ip].at <= clock
  }

  predicate Sized(l: Limits) { l.capacity >= 1.0 && l.refill >= 0.0 }

  /** Allowed calls of ip in the window from `from` to `to`, both ends included. */
  function AllowedIn(l: Limits, levels: Levels, calls: seq<Call>, ip: string, from: real, to: real): nat
    decreases |calls|
  {
    if calls == [] then 0
    else
      var c := calls[0];
      (if c.ip == ip && from <= c.now <= to && Grants(l, levels, c.ip, c.now) then 1 else 0)
      + AllowedIn(l, AfterCall(l, levels, c.ip, c.now), calls[1..], ip, from, to)
  }

  lemma GainFacts(l: Limits, a: real, b: real, c: real)
    ensures Gain(l, a, c) == Gain(l, a, b) + Gain(l, b, c)
    ensures l.refill >= 0.0 && a <= b ==> 0.0 <= Gain(l, a, b)
    ensures Gain(l, a, a) == 0.0
  {
  }

  lemma GainIs(l: Limits, from: real, to: real)
    ensures Gain(l, from, to) == (to - from) * l.refill
  {
  }

  lemma TailOrdered(clock: real, calls: seq<Call>)
    requires calls != [] && Ordered(clock, calls)
    ensures Ordered(calls[0].now, calls[1..])
  {
    assert forall i :: 0 <= i < |calls[1..]| ==> calls[1..][i] == calls[i + 1];
  }

  lemma StepOk(l: Limits, clock: real, levels: Levels, ip: string, now: real)
    requires Sized(l) && LevelsOk(l, clock, levels) && clock <= now
    ensures LevelsOk(l, now, AfterCall(l, levels, ip, now))
    ensures 0.0 <= Available(l, levels, ip, now) <= l.capacity
  {
    hide Gain;
    if ip in levels { GainFacts(l, levels[ip].at, now, now); }
  }

  /** Between two times the level grows by the refill, until the bucket is full. */
  lemma Grows(l: Limits, levels: Levels, ip: string, s: real, t: real)
    requires Sized(l) && s <= t
    ensures Available(l, levels, ip, t) == RealMin(l.capacity, Available(l, levels, ip, s) + Gain(l, s, t))
  {
    hide Gain;
    GainFacts(l, s, t, t);
    if ip in levels { GainFacts(l, levels[ip].at, s, t); }
  }

  /** What a call leaves to every address at the time of the call. */
  lemma LeftBy(l: Limits, levels: Levels, c: Call, ip: string)
    requires Sized(l)
    ensures Available(l, AfterCall(l, levels, c.ip, c.now), ip, c.now)
         == Available(l, levels, ip, c.now) - (if c.ip == ip && Grants(l, levels, ip, c.now) then 1.0 else 0.0)
  {
    hide Gain;
    GainFacts(l, c.now, c.now, c.now);
  }

  /** Once the window has begun, what it can still allow is what is available plus what is refilled. */
  lemma {:induction false} WindowRest(
    l: Limits, clock: real, levels: Levels, calls: seq<Call>, ip: string, from: real, to: real)
    requires Sized(l) && LevelsOk(l, clock, levels) && Ordered(clock, calls) && from <= clock <= to
    ensures AllowedIn(l, levels, calls, ip, from, to) as real <= Available(l, levels, ip, clock) + Gain(l, clock, to)
    decreases |calls|
  {
    hide Gain, Available, LevelsOk, AfterCall, Grants;
    StepOk(l, clock, levels, ip, clock);
    GainFacts(l, clock, to, to);
    if calls != [] {
      var c := calls[0];
      var levels' := AfterCall(l, levels, c.ip, c.now);
      StepOk(l, clock, levels, c.ip, c.now);
      TailOrdered(clock, calls);
      if c.now <= to {
        WindowRest(l, c.now, levels', calls[1..], ip, from, to);
        GainFacts(l, clock, c.now, to);
        Grows(l, levels, ip, clock, c.now);
        LeftBy(l, levels, c, ip);
      } else {
        NoneAfter(l, levels', calls[1..], ip, from, to);
      }
    }
  }

  lemma {:induction false} NoneAfter(l: Limits, levels: Levels, calls: seq<Call>, ip: string, from: real, to: real)
    requires forall i :: 0 <= i < |calls| ==> calls[i].now > to
    ensures AllowedIn(l, levels, calls, ip, from, to) == 0
    decreases |calls|
  {
    if calls != [] {
      NoneAfter(l, AfterCall(l, levels, calls[0].ip, calls[0].now), calls[1..], ip, from, to);
    }
  }

  lemma {:induction false} WindowByGain(
    l: Limits, clock: real, levels: Levels, calls: seq<Call>, ip: string, from: real, to: real)
    requires Sized(l) && LevelsOk(l, clock, levels) && Ordered(clock, calls) && from <= to
    ensures AllowedIn(l, levels, calls, ip, from, to) as real <= l.capacity + Gain(l, from, to)
    decreases |calls|
  {
    hide Gain, Available, LevelsOk, AfterCall, Grants;
    GainFacts(l, from, to, to);
    if calls != [] {
      var c := calls[0];
      if c.now < from {
        StepOk(l, clock, levels, c.ip, c.now);
        TailOrdered(clock, calls);
        WindowByGain(l, c.now, AfterCall(l, levels, c.ip, c.now), calls[1..], ip, from, to);
      } else if c.now <= to {
        var start := if clock <= from then from else clock;
        OrderedFrom(clock, start, calls);
        LevelsLater(l, clock, start, levels);
        WindowRest(l, start, levels, calls, ip, from, to);
        StepOk(l, clock, levels, ip, start);
        GainFacts(l, from, start, to);
      } else {
        NoneAfter(l, levels, calls, ip, from, to);
      }
    }
  }

  /** Any address, any window, any state that a run can be in: at most one full bucket plus what is
      refilled during the window. */
  lemma WindowBound(l: Limits, clock: real, levels: Levels, calls: seq<Call>, ip: string, from: real, to: real)
    requires Sized(l) && LevelsOk(l, clock, levels) && Ordered(clock, calls) && from <= to
    ensures AllowedIn(l, levels, calls, ip, from, to) as real <= l.capacity + (to - from) * l.refill
  {
    WindowByGain(l, clock, levels, calls, ip, from, to);
    GainIs(l, from, to);
  }

  lemma OrderedFrom(clock: real, start: real, calls: seq<Call>)
    requires Ordered(clock, calls) && (calls != [] ==> start <= calls[0].now)
    ensures Ordered(start, calls)
  {
  }

  lemma LevelsLater(l: Limits, clock: real, start: real, levels: Levels)
    requires LevelsOk(l, clock, levels) && clock <= start
    ensures LevelsOk(l, start, levels)
  {
  }

  /** The limiter keeps its promise for every run exactly when it is sized for at least one request
      per minute: with a smaller setting the first request of an address still passes. */
  lemma BoundHoldsIff(perMinute: int)
    ensures perMinute >= 1 <==>
      forall clock, calls, ip, from, to :: Ordered(clock, calls) && from <= to ==>
        AllowedIn(PerMinute(perMinute), map[], calls, ip, from, to) as real
          <= perMinute as real + (to - from) * (perMinute as real / 60.0)
  {
    var l := PerMinute(perMinute);
    if perMinute >= 1 {
      forall clock, calls, ip, from, to | Ordered(clock, calls) && from <= to
        ensures AllowedIn(l, map[], calls, ip, from, to) as real
          <= perMinute as real + (to - from) * (perMinute as real / 60.0)
      {
        WindowBound(l, clock, map[], calls, ip, from, to);
      }
    } else {
      var calls := [Call("a", 0.0)];
      assert Ordered(0.0, calls);
      assert AllowedIn(l, map[], calls, "a", 0.0, 0.0) == 1;
    }
  }

  /** Calls of ip are at least one refill interval apart, counted also from the bucket's last use. */
  predicate Spaced(l: Limits, levels: Levels, calls: seq<Call>, ip: string) {
    && (ip in levels ==> forall j :: 0 <= j < |calls| && calls[j].ip == ip ==>
         (calls[j].now - levels[ip].at) * l.refill >= 1.0)
    && (forall i, j :: 0 <= i < j < |calls| && calls[i].ip == ip && calls[j].ip == ip ==>
         (calls[j].now - calls[i].now) * l.refill >= 1.0)
  }

  lemma {:induction false} SpacedNeverDenied(l: Limits, clock: real, levels: Levels, calls: seq<Call>, ip: string)
    requires Sized(l) && LevelsOk(l, clock, levels) && Ordered(clock, calls) && Spaced(l, levels, calls, ip)
    ensures |Outcomes(l, levels, calls)| == |calls|
    ensures forall k :: 0 <= k < |calls| && calls[k].ip == ip ==> Outcomes(l, levels, calls)[k]
    decreases |calls|
  {
    if calls != [] {
      var c, rest := calls[0], calls[1..];
      FirstGranted(l, clock, levels, calls, ip);
      StepOk(l, clock, levels, c.ip, c.now);
      TailOrdered(clock, calls);
      TailSpaced(l, levels, calls, ip);
      hide Gain, Available, LevelsOk, Ordered, Spaced, Grants, AfterCall;
      SpacedNeverDenied(l, c.now, AfterCall(l, levels, c.ip, c.now), rest, ip);
    }
  }

  lemma FirstGranted(l: Limits, clock: real, levels: Levels, calls: seq<Call>, ip: string)
    requires Sized(l) && LevelsOk(l, clock, levels) && Spaced(l, levels, calls, ip) && calls != []
    ensures calls[0].ip == ip ==> Grants(l, levels, ip, calls[0].now)
  {
    if calls[0].ip == ip && ip in levels { GainIs(l, levels[ip].at, calls[0].now); }
    hide Gain;
  }

  lemma TailSpaced(l: Limits, levels: Levels, calls: seq<Call>, ip: string)
    requires calls != [] && Spaced(l, levels, calls, ip)
    ensures Spaced(l, AfterCall(l, levels, calls[0].ip, calls[0].now), calls[1..], ip)
  {
    hide Gain;
    assert forall i :: 0 <= i < |calls[1..]| ==> calls[1..][i] == calls[i + 1];
  }

  /** As the limiter is set up: calls of an address that are 60 / n seconds apart or more all pass. */
  lemma SpacedPerMinute(n: int, clock: real, calls: seq<Call>, ip: string)
    requires n >= 1 && Ordered(clock, calls)
    requires forall i, j :: 0 <= i < j < |calls| && calls[i].ip == ip && calls[j].ip == ip ==>
      calls[j].now - calls[i].now >= 60.0 / n as real
    ensures |Outcomes(PerMinute(n), map[], calls)| == |calls|
    ensures forall k :: 0 <= k < |calls| && calls[k].ip == ip ==> Outcomes(PerMinute(n), map[], calls)[k]
  {
    var l := PerMinute(n);
    forall i, j | 0 <= i < j < |calls| && calls[i].ip == ip && calls[j].ip == ip
      ensures (calls[j].now - calls[i].now) * l.refill >= 1.0
    {
      OneToken(n as real, calls[j].now - calls[i].now);
    }
    SpacedNeverDenied(l, clock, map[], calls, ip);
  }

  lemma OneToken(n: real, d: real)
    requires n > 0.0 && d >= 60.0 / n
    ensures d * (n / 60.0) >= 1.0
  {
    assert d * n >= 60.0 / n * n == 60.0;
    assert d * (n / 60.0) == d * n / 60.0;
  }

  /** How many of the calls are ip's. */
  function Count(calls: seq<Call>, ip: string): nat {
    if calls == [] then 0 else (if calls[0].ip == ip then 1 else 0) + Count(calls[1..], ip)
  }

  lemma {:induction false} FullBucketPasses(
    l: Limits, clock: real, levels: Levels, calls: seq<Call>, ip: string, m: int)
    requires Sized(l) && LevelsOk(l, clock, levels) && Ordered(clock, calls)
    requires Available(l, levels, ip, clock) >= m as real
    ensures |Outcomes(l, levels, calls)| == |calls|
    ensures forall k :: 0 <= k < |calls| && calls[k].ip == ip && Count(calls[..k], ip) < m ==>
      Outcomes(l, levels, calls)[k]
    decreases |calls|
  {
    if calls != [] {
      var c, rest := calls[0], calls[1..];
      hide Gain, LevelsOk, Ordered;
      StepOk(l, clock, levels, c.ip, c.now);
      TailOrdered(clock, calls);
      assert clock <= c.now by { FirstCall(clock, calls); }
      Grows(l, levels, ip, clock, c.now);
      LeftBy(l, levels, c, ip);
      GainFacts(l, clock, c.now, c.now);
      CapacityHolds(l, clock, levels, ip);
      assert c.ip == ip && m >= 1 ==> Grants(l, levels, ip, c.now);
      var left := if c.ip == ip then m - 1 else m;
      hide Available, AfterCall, Grants;
      FullBucketPasses(l, c.now, AfterCall(l, levels, c.ip, c.now), rest, ip, left);
      forall k | 0 <= k < |calls| && calls[k].ip == ip && Count(calls[..k], ip) < m
        ensures Outcomes(l, levels, calls)[k]
      {
        if k > 0 {
          assert calls[..k][1..] == rest[..k - 1];
          assert rest[k - 1] == calls[k];
        } else {
          assert calls[..0] == [];
        }
      }
    }
  }

  lemma FirstCall(clock: real, calls: seq<Call>)
    requires calls != [] && Ordered(clock, calls)
    ensures clock <= calls[0].now
  {
  }

  lemma CapacityHolds(l: Limits, clock: real, levels: Levels, ip: string)
    requires Sized(l) && LevelsOk(l, clock, levels)
    ensures Available(l, levels, ip, clock) <= l.capacity
  {
  }

  /** The first n calls of every address pass, however fast they come. */
  lemma FirstCallsPass(n: int, clock: real, calls: seq<Call>, ip: string)
    requires n >= 1 && Ordered(clock, calls)
    ensures |Outcomes(PerMinute(n), map[], calls)| == |calls|
    ensures forall k :: 0 <= k < |calls| && calls[k].ip == ip && Count(calls[..k], ip) < n ==>
      Outcomes(PerMinute(n), map[], calls)[k]
  {
    FullBucketPasses(PerMinute(n), clock, map[], calls, ip, n);
  }
}
