/** The token buckets: one per client address with idle eviction and a hard cap, and one per connection. */
module RateLimits {
  import opened RealArithmetic

  type Ip = string

  datatype Bucket = Bucket(tokens: real, last: real)

  datatype Limits = Limits(capacity: real, rate: real, maxTracked: nat)
  {
    /** What the constructor of the limiter enforces. */
    predicate Valid() {
      capacity >= 1.0 && rate >= 0.0 && maxTracked >= 1
    }
  }

  datatype Outcome = Allowed | Throttled | CapDenied

  datatype Call = Call(ip: Ip, now: real)

  // ---- one bucket ----

  /** Elapsed time, zero when the clock has not advanced. */
  function Elapsed(last: real, now: real): (d: real)
    ensures d >= 0.0
  {
    if now > last then now - last else 0.0
  }

  /** The tokens that refill a bucket in time `d`. */
  function Earned(l: Limits, d: real): real {
    d * l.rate
  }

  lemma EarnedAddsUp(l: Limits, a: real, b: real)
    ensures Earned(l, a + b) == Earned(l, a) + Earned(l, b)
  {
  }

  lemma EarnedGrows(l: Limits, a: real, b: real)
    requires l.rate >= 0.0 && 0.0 <= a <= b
    ensures 0.0 <= Earned(l, a) <= Earned(l, b)
  {
  }

  /** The tokens in a bucket at time `now`. */
  function Level(l: Limits, b: Bucket, now: real): real {
    var refilled := b.tokens + Earned(l, Elapsed(b.last, now));
    if refilled <= l.capacity then refilled else l.capacity
  }

  function Draw(l: Limits, b: Bucket, now: real): (Bucket, bool) {
    var tokens := Level(l, b, now);
    if tokens >= 1.0 then (Bucket(tokens - 1.0, now), true) else (Bucket(tokens, now), false)
  }

  predicate ValidBucket(l: Limits, b: Bucket, now: real) {
    0.0 <= b.tokens <= l.capacity && b.last <= now
  }

  lemma LevelGrows(l: Limits, b: Bucket, s: real, t: real)
    requires l.rate >= 0.0 && b.last <= s <= t
    ensures Level(l, b, s) <= Level(l, b, t) <= Level(l, b, s) + Earned(l, t - s)
  {
    hide Earned;
    EarnedAddsUp(l, s - b.last, t - s);
    EarnedGrows(l, s - b.last, t - b.last);
    EarnedGrows(l, 0.0, t - s);
  }

  lemma DrawKeepsBucket(l: Limits, b: Bucket, now: real)
    requires l.rate >= 0.0 && l.capacity >= 0.0 && b.tokens >= 0.0
    ensures ValidBucket(l, Draw(l, b, now).0, now)
    ensures Level(l, Draw(l, b, now).0, now) == Level(l, b, now) - (if Draw(l, b, now).1 then 1.0 else 0.0)
  {
  }

  // ---- the limiter: a bounded map that evicts idle buckets ----

  type Buckets = map<Ip, Bucket>

  function Retained(l: Limits, m: Buckets, now: real): Buckets {
    map ip | ip in m && Level(l, m[ip], now) < l.capacity :: m[ip]
  }

  function Check(l: Limits, m: Buckets, ip: Ip, now: real): (Buckets, Outcome) {
    var kept := if |m| >= l.maxTracked && ip !in m then Retained(l, m, now) else m;
    if ip !in m && |kept| >= l.maxTracked then (kept, CapDenied)
    else
      var d := Draw(l, if ip in kept then kept[ip] else Bucket(l.capacity, now), now);
      (kept[ip := d.0], if d.1 then Allowed else Throttled)
  }

  class IpRateLimiter {
    const limits: Limits
    var buckets: Buckets

    ghost predicate Valid()
      reads this
    {
      limits.Valid() && |buckets| <= limits.maxTracked
    }

    /** Out-of-range settings are raised to the smallest usable ones. */
    constructor (capacity: nat, refillPerSec: real, maxTracked: nat)
      ensures Valid() && buckets == map[]
      ensures limits.capacity == (if capacity == 0 then 1.0 else capacity as real)
      ensures limits.rate == (if refillPerSec < 0.0 then 0.0 else refillPerSec)
      ensures limits.maxTracked == (if maxTracked == 0 then 1 else maxTracked)
    {
      limits := Limits(
        if capacity == 0 then 1.0 else capacity as real,
        if refillPerSec < 0.0 then 0.0 else refillPerSec,
        if maxTracked == 0 then 1 else maxTracked);
      buckets := map[];
    }

    method RetainBusy(now: real)
      modifies this`buckets
      ensures buckets == Retained(limits, old(buckets), now)
    {
      var todo := buckets.Keys;
      var kept: Buckets := map[];
      while todo != {}
        invariant todo <= buckets.Keys && buckets == old(buckets)
        invariant kept == map ip | ip in buckets && ip !in todo && Level(limits, buckets[ip], now) < limits.capacity
                          :: buckets[ip]
        decreases todo
      {
        var ip :| ip in todo;
        if Level(limits, buckets[ip], now) < limits.capacity {
          kept := kept[ip := buckets[ip]];
        }
        todo := todo - {ip};
      }
      buckets := kept;
    }

    /** Consume one token of `ip`; the map never holds more than `maxTracked` buckets. */
    method CheckAt(ip: Ip, now: real) returns (allowed: bool)
      requires Valid()
      modifies this`buckets
      ensures Valid()
      ensures buckets == Check(limits, old(buckets), ip, now).0
      ensures allowed <==> Check(limits, old(buckets), ip, now).1 == Allowed
    {
      CheckKeepsCap(limits, buckets, ip, now);
      if |buckets| >= limits.maxTracked && ip !in buckets {
        RetainBusy(now);
        if |buckets| >= limits.maxTracked {
          return false;
        }
      }
      var b := if ip in buckets then buckets[ip] else Bucket(limits.capacity, now);
      var tokens := Level(limits, b, now);
      if tokens >= 1.0 {
        buckets := buckets[ip := Bucket(tokens - 1.0, now)];
        return true;
      } else {
        buckets := buckets[ip := Bucket(tokens, now)];
        return false;
      }
    }
  }

  lemma CheckKeepsCap(l: Limits, m: Buckets, ip: Ip, now: real)
    requires |m| <= l.maxTracked
    ensures |Check(l, m, ip, now).0| <= l.maxTracked
  {
    var kept := Retained(l, m, now);
    Subset(kept.Keys, m.Keys);
    if ip in m {
      assert m[ip := Draw(l, m[ip], now).0].Keys == m.Keys;
    }
  }

  lemma Subset<T>(a: set<T>, b: set<T>)
    requires a <= b
    ensures |a| <= |b|
  {
    assert b == a + (b - a);
  }

  // ---- the reference: one bucket per address that ever called, never evicted ----

  function LevelOf(l: Limits, ref: Buckets, ip: Ip, now: real): real {
    if ip in ref then Level(l, ref[ip], now) else l.capacity
  }

  /** The addresses that are spending tokens at time `now`. */
  function Busy(l: Limits, ref: Buckets, now: real): set<Ip> {
    set ip | ip in ref && Level(l, ref[ip], now) < l.capacity
  }

  /** Deny an address at rest while `maxTracked` others are busy; otherwise let it draw from its own bucket. */
  function Reference(l: Limits, ref: Buckets, ip: Ip, now: real): (Buckets, Outcome) {
    if ip !in Busy(l, ref, now) && |Busy(l, ref, now)| >= l.maxTracked then (ref, CapDenied)
    else
      var d := Draw(l, if ip in ref then ref[ip] else Bucket(l.capacity, now), now);
      (ref[ip := d.0], if d.1 then Allowed else Throttled)
  }

  predicate ValidRef(l: Limits, ref: Buckets, now: real) {
    forall ip | ip in ref :: ValidBucket(l, ref[ip], now)
  }

  /** The bounded map is the reference less some buckets that are full. */
  predicate Agrees(l: Limits, m: Buckets, ref: Buckets, now: real) {
    && ValidRef(l, ref, now)
    && m.Keys <= ref.Keys
    && (forall ip | ip in m :: m[ip] == ref[ip])
    && (forall ip | ip in ref && ip !in m :: Level(l, ref[ip], now) >= l.capacity)
  }

  lemma AgreesLater(l: Limits, m: Buckets, ref: Buckets, s: real, t: real)
    requires l.Valid() && Agrees(l, m, ref, s) && s <= t
    ensures Agrees(l, m, ref, t)
  {
    forall ip | ip in ref && ip !in m
      ensures Level(l, ref[ip], t) >= l.capacity
    {
      LevelGrows(l, ref[ip], s, t);
    }
  }

  lemma SameBusy(l: Limits, m: Buckets, ref: Buckets, now: real)
    requires Agrees(l, m, ref, now)
    ensures Busy(l, m, now) == Busy(l, ref, now) == Retained(l, m, now).Keys
  {
  }

  /** The limiter denies at its cap exactly when the reference does, however its map came about. */
  lemma SameDenial(l: Limits, m: Buckets, ref: Buckets, ip: Ip, now: real)
    requires Agrees(l, m, ref, now) && |m| <= l.maxTracked
    ensures Check(l, m, ip, now).1 == CapDenied <==> Reference(l, ref, ip, now).1 == CapDenied
  {
    SameBusy(l, m, ref, now);
    var busy := Busy(l, m, now);
    Subset(busy, m.Keys);
    if ip in m && ip !in busy {
      Subset(busy, m.Keys - {ip});
    }
  }

  /** One check against the bounded map gives the reference's answer and keeps the two in step. */
  lemma CheckRefinesReference(l: Limits, m: Buckets, ref: Buckets, ip: Ip, now: real)
    requires l.Valid() && Agrees(l, m, ref, now) && |m| <= l.maxTracked
    ensures Check(l, m, ip, now).1 == Reference(l, ref, ip, now).1
    ensures Agrees(l, Check(l, m, ip, now).0, Reference(l, ref, ip, now).0, now)
  {
    SameDenial(l, m, ref, ip, now);
    if Check(l, m, ip, now).1 != CapDenied {
      SameDraw(l, m, ref, ip, now);
    }
  }

  lemma SameDraw(l: Limits, m: Buckets, ref: Buckets, ip: Ip, now: real)
    requires l.Valid() && Agrees(l, m, ref, now)
    requires Check(l, m, ip, now).1 != CapDenied && Reference(l, ref, ip, now).1 != CapDenied
    ensures Check(l, m, ip, now).1 == Reference(l, ref, ip, now).1
    ensures Agrees(l, Check(l, m, ip, now).0, Reference(l, ref, ip, now).0, now)
  {
    var b := if ip in ref then ref[ip] else Bucket(l.capacity, now);
    DrawKeepsBucket(l, b, now);
    if ip !in m {
      assert Draw(l, b, now) == Draw(l, Bucket(l.capacity, now), now);
    }
  }

  // ---- whole runs ----

  predicate Sorted(calls: seq<Call>) {
    forall i, j | 0 <= i < j < |calls| :: calls[i].now <= calls[j].now
  }

  function Outcomes(l: Limits, m: Buckets, calls: seq<Call>): (o: seq<Outcome>)
    ensures |o| == |calls|
    decreases |calls|
  {
    if calls == [] then []
    else
      var (next, outcome) := Check(l, m, calls[0].ip, calls[0].now);
      [outcome] + Outcomes(l, next, calls[1..])
  }

  function Expected(l: Limits, ref: Buckets, calls: seq<Call>): (o: seq<Outcome>)
    ensures |o| == |calls|
    decreases |calls|
  {
    if calls == [] then []
    else
      var (next, outcome) := Reference(l, ref, calls[0].ip, calls[0].now);
      [outcome] + Expected(l, next, calls[1..])
  }

  /** Eviction is invisible: over any run with nondecreasing times the limiter answers as the reference does. */
  lemma {:induction false} EvictionIsInvisible(l: Limits, m: Buckets, ref: Buckets, calls: seq<Call>)
    requires l.Valid() && |m| <= l.maxTracked && Sorted(calls)
    requires calls != [] ==> Agrees(l, m, ref, calls[0].now)
    ensures Outcomes(l, m, calls) == Expected(l, ref, calls)
    decreases |calls|
  {
    if calls != [] {
      var c, rest := calls[0], calls[1..];
      CheckRefinesReference(l, m, ref, c.ip, c.now);
      CheckKeepsCap(l, m, c.ip, c.now);
      var m', ref' := Check(l, m, c.ip, c.now).0, Reference(l, ref, c.ip, c.now).0;
      if rest != [] {
        AgreesLater(l, m', ref', c.now, rest[0].now);
      }
      EvictionIsInvisible(l, m', ref', rest);
    }
  }

  function ReferenceAfter(l: Limits, ref: Buckets, calls: seq<Call>): Buckets
    decreases |calls|
  {
    if calls == [] then ref else ReferenceAfter(l, Reference(l, ref, calls[0].ip, calls[0].now).0, calls[1..])
  }

  lemma {:induction false} ExpectedSplits(l: Limits, ref: Buckets, before: seq<Call>, window: seq<Call>)
    ensures Expected(l, ref, before + window)
         == Expected(l, ref, before) + Expected(l, ReferenceAfter(l, ref, before), window)
    decreases |before|
  {
    if before == [] {
      assert before + window == window;
    } else {
      var c := before[0];
      assert (before + window)[1..] == before[1..] + window;
      ExpectedSplits(l, Reference(l, ref, c.ip, c.now).0, before[1..], window);
    }
  }

  lemma ReferenceKeepsValid(l: Limits, ref: Buckets, c: Call)
    requires l.Valid() && ValidRef(l, ref, c.now)
    ensures ValidRef(l, Reference(l, ref, c.ip, c.now).0, c.now)
  {
  }

  lemma {:induction false} ReferenceStaysValid(l: Limits, ref: Buckets, calls: seq<Call>, now: real)
    requires l.Valid() && Sorted(calls) && (forall i | 0 <= i < |calls| :: calls[i].now <= now)
    requires ValidRef(l, ref, if calls == [] then now else calls[0].now)
    ensures ValidRef(l, ReferenceAfter(l, ref, calls), now)
    decreases |calls|
  {
    if calls != [] {
      ReferenceKeepsValid(l, ref, calls[0]);
      ReferenceStaysValid(l, Reference(l, ref, calls[0].ip, calls[0].now).0, calls[1..], now);
    }
  }

  // ---- throughput ----

  function Granted(ip: Ip, calls: seq<Call>, outcomes: seq<Outcome>): nat
    requires |outcomes| == |calls|
  {
    if calls == [] then 0
    else (if calls[0].ip == ip && outcomes[0] == Allowed then 1 else 0) + Granted(ip, calls[1..], outcomes[1..])
  }

  /** One reference call takes exactly what it grants from the level of each address. */
  lemma ReferenceStepLevel(l: Limits, ref: Buckets, ip: Ip, c: Call)
    requires l.Valid() && ValidRef(l, ref, c.now)
    ensures LevelOf(l, Reference(l, ref, c.ip, c.now).0, ip, c.now) == LevelOf(l, ref, ip, c.now)
              - (if c.ip == ip && Reference(l, ref, c.ip, c.now).1 == Allowed then 1.0 else 0.0)
  {
  }

  lemma LevelOfGrows(l: Limits, ref: Buckets, ip: Ip, s: real, t: real)
    requires l.Valid() && ValidRef(l, ref, s) && s <= t
    ensures 0.0 <= LevelOf(l, ref, ip, t) <= LevelOf(l, ref, ip, s) + Earned(l, t - s)
  {
  }

  /** From `s` to the end of one call, an address earns `rate` per second and pays one token if the call is granted. */
  lemma GrantIsPaidFor(l: Limits, ref: Buckets, ip: Ip, c: Call, s: real)
    requires l.Valid() && ValidRef(l, ref, s) && s <= c.now
    ensures LevelOf(l, Reference(l, ref, c.ip, c.now).0, ip, c.now)
              + (if c.ip == ip && Reference(l, ref, c.ip, c.now).1 == Allowed then 1.0 else 0.0)
         <= LevelOf(l, ref, ip, s) + Earned(l, c.now - s)
  {
    hide LevelOf, Reference, Earned;
    LevelOfGrows(l, ref, ip, s, c.now);
    ReferenceStepLevel(l, ref, ip, c);
  }

  lemma {:induction false} ReferenceThroughput(l: Limits, ref: Buckets, calls: seq<Call>, ip: Ip, s: real, t: real)
    requires l.Valid() && Sorted(calls) && ValidRef(l, ref, s) && s <= t
    requires forall i | 0 <= i < |calls| :: s <= calls[i].now <= t
    ensures Granted(ip, calls, Expected(l, ref, calls)) as real <= LevelOf(l, ref, ip, s) + Earned(l, t - s)
    decreases |calls|
  {
    hide LevelOf, Reference, Earned;
    if calls == [] {
      LevelOfGrows(l, ref, ip, s, t);
    } else {
      var c := calls[0];
      GrantIsPaidFor(l, ref, ip, c, s);
      ReferenceKeepsValid(l, ref, c);
      ReferenceThroughput(l, Reference(l, ref, c.ip, c.now).0, calls[1..], ip, c.now, t);
      EarnedAddsUp(l, c.now - s, t - c.now);
    }
  }

  /**
   In any window of any run of the limiter, whatever was evicted and re-admitted before or
   within it, one address is allowed at most `capacity + rate * (t - s)` calls.
   */
  lemma ThroughputBound(l: Limits, before: seq<Call>, window: seq<Call>, ip: Ip, s: real, t: real)
    requires l.Valid() && Sorted(before + window) && s <= t
    requires forall i | 0 <= i < |window| :: s <= window[i].now <= t
    ensures Granted(ip, window, Outcomes(l, map[], before + window)[|before|..]) as real
         <= l.capacity + Earned(l, t - s)
  {
    hide LevelOf, Reference, Check, Earned;
    EarnedGrows(l, 0.0, t - s);
    EvictionIsInvisible(l, map[], map[], before + window);
    ExpectedSplits(l, map[], before, window);
    if window != [] {
      var first := window[0].now;
      SortedParts(before, window);
      ReferenceStaysValid(l, map[], before, first);
      var ref := ReferenceAfter(l, map[], before);
      assert Outcomes(l, map[], before + window)[|before|..] == Expected(l, ref, window);
      ReferenceThroughput(l, ref, window, ip, first, t);
      LevelAtMostCapacity(l, ref, ip, first);
      EarnedGrows(l, t - first, t - s);
    }
  }

  lemma LevelAtMostCapacity(l: Limits, ref: Buckets, ip: Ip, now: real)
    ensures LevelOf(l, ref, ip, now) <= l.capacity
  {
  }

  lemma SortedParts(before: seq<Call>, window: seq<Call>)
    requires Sorted(before + window)
    ensures Sorted(before) && Sorted(window)
    ensures forall i | 0 <= i < |before| :: window != [] ==> before[i].now <= window[0].now
  {
    var all := before + window;
    forall i, j | 0 <= i < j < |window|
      ensures window[i].now <= window[j].now
    {
      assert all[|before| + i] == window[i] && all[|before| + j] == window[j];
    }
    forall i, j | 0 <= i < j < |before|
      ensures before[i].now <= before[j].now
    {
      assert all[i] == before[i] && all[j] == before[j];
    }
    forall i | 0 <= i < |before| && window != []
      ensures before[i].now <= window[0].now
    {
      assert all[i] == before[i] && all[|before|] == window[0];
    }
  }

  // ---- the bucket of one connection ----

  /** Time is in milliseconds here; a capacity that is not positive means no limit. */
  function Allow(l: Limits, b: Bucket, now: real): (Bucket, bool) {
    if l.capacity <= 0.0 then (b, true) else Draw(l, b, now)
  }

  class TokenBucket {
    const limits: Limits
    var bucket: Bucket

    constructor (ratePerSec: real, burst: real, nowMs: real)
      ensures limits.capacity == burst && limits.rate * 1000.0 == ratePerSec
      ensures bucket == Bucket(burst, nowMs)
    {
      limits := Limits(burst, ratePerSec / 1000.0, 1);
      bucket := Bucket(burst, nowMs);
    }

    method TryAllow(nowMs: real) returns (allowed: bool)
      modifies this`bucket
      ensures bucket == Allow(limits, old(bucket), nowMs).0
      ensures allowed <==> Allow(limits, old(bucket), nowMs).1
    {
      if limits.capacity <= 0.0 {
        return true;
      }
      var refilled := bucket.tokens + Earned(limits, Elapsed(bucket.last, nowMs));
      var tokens := if refilled <= limits.capacity then refilled else limits.capacity;
      if tokens >= 1.0 {
        bucket := Bucket(tokens - 1.0, nowMs);
        return true;
      } else {
        bucket := Bucket(tokens, nowMs);
        return false;
      }
    }
  }

  /** How many of the calls at these times the connection's bucket allows. */
  function AllowedCalls(l: Limits, b: Bucket, times: seq<real>): nat
    decreases |times|
  {
    if times == [] then 0
    else
      var (next, allowed) := Allow(l, b, times[0]);
      (if allowed then 1 else 0) + AllowedCalls(l, next, times[1..])
  }

  /** How far the clock moved forward, adding up the advances only. */
  function Forward(from: real, times: seq<real>): (d: real)
    ensures d >= 0.0
    decreases |times|
  {
    if times == [] then 0.0 else Elapsed(from, times[0]) + Forward(times[0], times[1..])
  }

  lemma {:induction false} ForwardOfSorted(from: real, times: seq<real>, t: real)
    requires forall i, j | 0 <= i < j < |times| :: times[i] <= times[j]
    requires forall i | 0 <= i < |times| :: from <= times[i] <= t
    requires from <= t
    ensures Forward(from, times) <= t - from
    decreases |times|
  {
    if times != [] {
      ForwardOfSorted(times[0], times[1..], t);
    }
  }

  /** A draw pays one token for a granted call out of what the bucket held and what it earned since. */
  lemma DrawIsPaidFor(l: Limits, b: Bucket, now: real)
    requires l.capacity > 0.0 && l.rate >= 0.0 && 0.0 <= b.tokens <= l.capacity
    ensures 0.0 <= Draw(l, b, now).0.tokens <= l.capacity && Draw(l, b, now).0.last == now
    ensures Draw(l, b, now).0.tokens + (if Draw(l, b, now).1 then 1.0 else 0.0) <= l.capacity
    ensures Draw(l, b, now).0.tokens + (if Draw(l, b, now).1 then 1.0 else 0.0)
         <= b.tokens + Earned(l, Elapsed(b.last, now))
  {
  }

  lemma {:induction false} ConnectionDraws(l: Limits, b: Bucket, times: seq<real>)
    requires l.capacity > 0.0 && l.rate >= 0.0 && 0.0 <= b.tokens <= l.capacity
    ensures AllowedCalls(l, b, times) as real <= b.tokens + Earned(l, Forward(b.last, times))
    decreases |times|
  {
    hide Draw, Elapsed, Earned;
    if times == [] {
      EarnedGrows(l, 0.0, 0.0);
    } else {
      DrawIsPaidFor(l, b, times[0]);
      ConnectionDraws(l, Draw(l, b, times[0]).0, times[1..]);
      EarnedAddsUp(l, Elapsed(b.last, times[0]), Forward(times[0], times[1..]));
    }
  }

  /**
   A connection whose bucket has a positive capacity is allowed at most
   `capacity + rate * (t - s)` calls in [s, t] on a clock that does not run backwards.
   */
  lemma ConnectionThroughput(l: Limits, b: Bucket, times: seq<real>, s: real, t: real)
    requires l.capacity > 0.0 && l.rate >= 0.0 && 0.0 <= b.tokens <= l.capacity
    requires s <= t && (forall i | 0 <= i < |times| :: s <= times[i] <= t)
    requires forall i, j | 0 <= i < j < |times| :: times[i] <= times[j]
    ensures AllowedCalls(l, b, times) as real <= l.capacity + Earned(l, t - s)
  {
    hide AllowedCalls, Earned;
    if times == [] {
      EarnedGrows(l, 0.0, t - s);
      NoCalls(l, b);
    } else {
      WindowOpens(l, b, times);
      ForwardOfSorted(times[0], times[1..], t);
      EarnedGrows(l, Forward(times[0], times[1..]), t - s);
    }
  }

  lemma NoCalls(l: Limits, b: Bucket)
    ensures AllowedCalls(l, b, []) == 0
  {
  }

  /** Whatever the bucket held before, a window starts with no more than its capacity. */
  lemma WindowOpens(l: Limits, b: Bucket, times: seq<real>)
    requires l.capacity > 0.0 && l.rate >= 0.0 && 0.0 <= b.tokens <= l.capacity && times != []
    ensures AllowedCalls(l, b, times) as real <= l.capacity + Earned(l, Forward(times[0], times[1..]))
  {
    hide Draw, Elapsed, Earned;
    DrawIsPaidFor(l, b, times[0]);
    ConnectionDraws(l, Draw(l, b, times[0]).0, times[1..]);
  }

  function SameTime(now: real, n: nat): (times: seq<real>)
    ensures |times| == n
  {
    if n == 0 then [] else [now] + SameTime(now, n - 1)
  }

  /** The bound is met by a burst: of `n` calls at one instant, as many are allowed as there are whole tokens. */
  lemma {:induction false} BurstIsExact(l: Limits, b: Bucket, now: real, n: nat)
    requires l.capacity > 0.0 && 0.0 <= b.tokens <= l.capacity && b.last == now
    ensures AllowedCalls(l, b, SameTime(now, n)) == (if n <= b.tokens.Floor then n else b.tokens.Floor)
    decreases n
  {
    if n > 0 {
      assert Earned(l, 0.0) == 0.0;
      hide Earned;
      BurstIsExact(l, Draw(l, b, now).0, now, n - 1);
      AllowedOne(l, b, now, SameTime(now, n - 1));
    }
  }

  // ---- exactly which calls are allowed ----

  /**
   The refill is exact: of `n` calls at `now`, as many are allowed as there are whole tokens in the
   lesser of the capacity and what the bucket held plus what it earned; a clock that stepped back earns nothing.
   */
  lemma RefillIsExact(l: Limits, b: Bucket, now: real, n: nat)
    requires ValidFor(l, b)
    ensures var earned := if now >= b.last then (now - b.last) * l.rate else 0.0;
            var tokens := if b.tokens + earned <= l.capacity then b.tokens + earned else l.capacity;
            AllowedCalls(l, b, SameTime(now, n)) == if n <= tokens.Floor then n else tokens.Floor
  {
    LevelInFull(l, b, now);
    SameFromNowOn(l, b, now, n);
    hide Level, AllowedCalls;
    BurstIsExact(l, Bucket(Level(l, b, now), now), now, n);
  }

  lemma LevelInFull(l: Limits, b: Bucket, now: real)
    requires ValidFor(l, b)
    ensures var earned := if now >= b.last then (now - b.last) * l.rate else 0.0;
            Level(l, b, now) == if b.tokens + earned <= l.capacity then b.tokens + earned else l.capacity
    ensures 0.0 <= Level(l, b, now) <= l.capacity
  {
    EarnedNothing(l);
    if now >= b.last {
      EarnedGrows(l, 0.0, now - b.last);
      assert Earned(l, now - b.last) == (now - b.last) * l.rate;
    }
    hide Earned;
  }

  lemma SameFromNowOn(l: Limits, b: Bucket, now: real, n: nat)
    requires ValidFor(l, b)
    ensures AllowedCalls(l, b, SameTime(now, n)) == AllowedCalls(l, Bucket(Level(l, b, now), now), SameTime(now, n))
  {
    EarnedNothing(l);
    if n > 0 {
      AllowedOne(l, b, now, SameTime(now, n - 1));
      AllowedOne(l, Bucket(Level(l, b, now), now), now, SameTime(now, n - 1));
    }
  }

  /** The bucket after these calls, and the calls among them that were allowed from the `i`-th on. */
  function BucketAfter(l: Limits, b: Bucket, times: seq<real>): Bucket
    decreases |times|
  {
    if times == [] then b else BucketAfter(l, Allow(l, b, times[0]).0, times[1..])
  }

  function AllowedFrom(l: Limits, b: Bucket, times: seq<real>, i: nat): nat
    requires i <= |times|
    decreases i
  {
    if i == 0 then AllowedCalls(l, b, times) else AllowedFrom(l, Allow(l, b, times[0]).0, times[1..], i - 1)
  }

  predicate Forwards(from: real, times: seq<real>, now: real) {
    && from <= (if times == [] then now else times[0])
    && (forall i | 0 <= i < |times| :: times[i] <= now)
    && (forall i, j | 0 <= i < j < |times| :: times[i] <= times[j])
  }

  /** In the window from the `i`-th call to `now` there is room for `x` more tokens. */
  predicate RoomSince(l: Limits, b: Bucket, times: seq<real>, now: real, i: nat, x: real)
    requires i < |times|
  {
    x + AllowedFrom(l, b, times, i) as real <= l.capacity + Earned(l, now - times[i])
  }

  ghost predicate RoomFor(l: Limits, b: Bucket, times: seq<real>, now: real, x: real) {
    && x <= l.capacity
    && x + AllowedCalls(l, b, times) as real <= b.tokens + Earned(l, now - b.last)
    && forall i: nat | i < |times| :: RoomSince(l, b, times, now, i, x)
  }

  /** The level of a bucket is exactly what the tightest window has left. */
  lemma {:induction false} LevelIsTightestWindow(l: Limits, b: Bucket, times: seq<real>, now: real, x: real)
    requires ValidFor(l, b) && Forwards(b.last, times, now)
    ensures x <= Level(l, BucketAfter(l, b, times), now) <==> RoomFor(l, b, times, now, x)
    decreases |times|
  {
    if times != [] {
      var next, rest := Draw(l, b, times[0]).0, times[1..];
      DrawIsPaidFor(l, b, times[0]);
      LevelIsTightestWindow(l, next, rest, now, x);
      TightestOfRest(l, b, times, now, x);
    }
  }

  lemma TightestOfRest(l: Limits, b: Bucket, times: seq<real>, now: real, x: real)
    requires ValidFor(l, b) && times != [] && Forwards(b.last, times, now)
    ensures RoomFor(l, b, times, now, x) <==> RoomFor(l, Draw(l, b, times[0]).0, times[1..], now, x)
  {
    var next, rest := Draw(l, b, times[0]).0, times[1..];
    EarnedAddsUp(l, times[0] - b.last, now - times[0]);
    hide Earned;
    forall i: nat | i < |rest| ensures RoomSince(l, next, rest, now, i, x) <==> RoomSince(l, b, times, now, i + 1, x) {
    }
    assert RoomSince(l, b, times, now, 0, x) <==>
        x + AllowedCalls(l, b, times) as real <= l.capacity + Earned(l, now - times[0]);
    if RoomFor(l, next, rest, now, x) {
      forall i: nat | i < |times| ensures RoomSince(l, b, times, now, i, x) {
        if i > 0 {
          assert RoomSince(l, next, rest, now, i - 1, x);
        }
      }
    }
    if RoomFor(l, b, times, now, x) {
      assert RoomSince(l, b, times, now, 0, x);
    }
  }

  /** After `allowed` calls one more fits a window of length `d` that began with `tokens`. */
  predicate OneMoreFits(allowed: nat, tokens: real, rate: real, d: real) {
    allowed as real + 1.0 <= tokens + d * rate
  }

  lemma OneMoreIsEarned(l: Limits, allowed: nat, tokens: real, d: real)
    ensures OneMoreFits(allowed, tokens, l.rate, d) <==> 1.0 + allowed as real <= tokens + Earned(l, d)
  {
  }

  /**
   A call is allowed exactly when it breaks the bound of no window that ends with it: neither the one
   from the start, in which the bucket has what it held, nor one from any call, in which it has its capacity.
   */
  lemma CallIsAllowedIff(l: Limits, b: Bucket, times: seq<real>, now: real)
    requires ValidFor(l, b) && Forwards(b.last, times, now)
    ensures Allow(l, BucketAfter(l, b, times), now).1 <==>
              && l.capacity >= 1.0
              && OneMoreFits(AllowedCalls(l, b, times), b.tokens, l.rate, now - b.last)
              && forall i: nat | i < |times| ::
                   OneMoreFits(AllowedFrom(l, b, times, i), l.capacity, l.rate, now - times[i])
  {
    hide Level, Earned, AllowedCalls, AllowedFrom, BucketAfter, OneMoreFits;
    LevelIsTightestWindow(l, b, times, now, 1.0);
    OneMoreIsEarned(l, AllowedCalls(l, b, times), b.tokens, now - b.last);
    forall i: nat | i < |times|
      ensures RoomSince(l, b, times, now, i, 1.0) <==>
                OneMoreFits(AllowedFrom(l, b, times, i), l.capacity, l.rate, now - times[i])
    {
      OneMoreIsEarned(l, AllowedFrom(l, b, times, i), l.capacity, now - times[i]);
    }
  }

  /** Each call comes a whole token's worth of time after the one before. */
  predicate Paced(l: Limits, last: real, times: seq<real>)
    decreases |times|
  {
    times == [] || ((times[0] - last) * l.rate >= 1.0 && times[0] >= last && Paced(l, times[0], times[1..]))
  }

  /** A client that keeps to the rate is never refused. */
  lemma {:induction false} PacedCallsAreAllowed(l: Limits, b: Bucket, times: seq<real>)
    requires ValidFor(l, b) && l.capacity >= 1.0 && Paced(l, b.last, times)
    ensures AllowedCalls(l, b, times) == |times|
    decreases |times|
  {
    if times != [] {
      LevelInFull(l, b, times[0]);
      hide Level;
      PacedCallsAreAllowed(l, Draw(l, b, times[0]).0, times[1..]);
    }
  }

  // ---- and exactly which calls of an address ----

  /** The calls of one address that were granted, from the `i`-th call on. */
  function GrantedFrom(ip: Ip, calls: seq<Call>, outcomes: seq<Outcome>, i: nat): nat
    requires i <= |calls| == |outcomes|
  {
    Granted(ip, calls[i..], outcomes[i..])
  }

  /** The `i`-th call is one of this address that drew from its bucket, and its window has room for `x` more. */
  predicate AddressRoomSince(l: Limits, ip: Ip, calls: seq<Call>, outcomes: seq<Outcome>, now: real, i: nat, x: real)
    requires i < |calls| == |outcomes|
  {
    calls[i].ip == ip && outcomes[i] != CapDenied ==>
      x + GrantedFrom(ip, calls, outcomes, i) as real <= l.capacity + Earned(l, now - calls[i].now)
  }

  ghost predicate AddressRoomFor(l: Limits, ref: Buckets, ip: Ip, calls: seq<Call>, now: real, x: real) {
    var outcomes := Expected(l, ref, calls);
    && x <= l.capacity
    && (ip in ref ==>
          x + Granted(ip, calls, outcomes) as real <= ref[ip].tokens + Earned(l, now - ref[ip].last))
    && forall i: nat | i < |calls| :: AddressRoomSince(l, ip, calls, outcomes, now, i, x)
  }

  /** The level of an address is exactly what the tightest window of its calls has left. */
  lemma {:induction false} AddressLevelIsTightest(l: Limits, ref: Buckets, ip: Ip, calls: seq<Call>, now: real, x: real)
    requires l.Valid() && Sorted(calls) && (forall i | 0 <= i < |calls| :: calls[i].now <= now)
    requires ValidRef(l, ref, if calls == [] then now else calls[0].now)
    ensures x <= LevelOf(l, ReferenceAfter(l, ref, calls), ip, now) <==> AddressRoomFor(l, ref, ip, calls, now, x)
    decreases |calls|
  {
    if calls != [] {
      var next, rest := Reference(l, ref, calls[0].ip, calls[0].now).0, calls[1..];
      ReferenceKeepsValid(l, ref, calls[0]);
      AddressLevelIsTightest(l, next, ip, rest, now, x);
      AddressTightestOfRest(l, ref, ip, calls, now, x);
    }
  }

  lemma AddressTightestOfRest(l: Limits, ref: Buckets, ip: Ip, calls: seq<Call>, now: real, x: real)
    requires l.Valid() && calls != [] && calls[0].now <= now && ValidRef(l, ref, calls[0].now)
    ensures AddressRoomFor(l, ref, ip, calls, now, x)
       <==> AddressRoomFor(l, Reference(l, ref, calls[0].ip, calls[0].now).0, ip, calls[1..], now, x)
  {
    var c, rest := calls[0], calls[1..];
    var next, outcomes := Reference(l, ref, c.ip, c.now).0, Expected(l, ref, calls);
    var later := Expected(l, next, rest);
    assert outcomes[1..] == later && calls[0..] == calls && outcomes[0..] == outcomes;
    if ip in ref {
      EarnedAddsUp(l, c.now - ref[ip].last, now - c.now);
    }
    forall i: nat | i < |rest|
      ensures AddressRoomSince(l, ip, rest, later, now, i, x)
         <==> AddressRoomSince(l, ip, calls, outcomes, now, i + 1, x)
    {
      assert calls[i + 1..] == rest[i..] && outcomes[i + 1..] == later[i..];
    }
    hide Earned, GrantedFrom;
    if AddressRoomFor(l, next, ip, rest, now, x) {
      forall i: nat | i < |calls| ensures AddressRoomSince(l, ip, calls, outcomes, now, i, x) {
        if i > 0 {
          assert AddressRoomSince(l, ip, rest, later, now, i - 1, x);
        }
      }
    }
    if AddressRoomFor(l, ref, ip, calls, now, x) {
      assert AddressRoomSince(l, ip, calls, outcomes, now, 0, x);
    }
  }

  /** No window that starts at a call of this address which drew from its bucket is used up. */
  predicate EveryWindowHasRoom(l: Limits, ip: Ip, calls: seq<Call>, outcomes: seq<Outcome>, now: real)
    requires |outcomes| == |calls|
  {
    forall i: nat | i < |calls| && calls[i].ip == ip && outcomes[i] != CapDenied ::
      OneMoreFits(GrantedFrom(ip, calls, outcomes, i), l.capacity, l.rate, now - calls[i].now)
  }

  lemma WindowsHaveRoom(l: Limits, ip: Ip, calls: seq<Call>, now: real)
    requires l.Valid()
    ensures AddressRoomFor(l, map[], ip, calls, now, 1.0)
       <==> EveryWindowHasRoom(l, ip, calls, Expected(l, map[], calls), now)
  {
    hide Earned, Granted, GrantedFrom, Expected, OneMoreFits;
    var outcomes := Expected(l, map[], calls);
    forall i: nat | i < |calls|
      ensures AddressRoomSince(l, ip, calls, outcomes, now, i, 1.0) <==>
                (calls[i].ip == ip && outcomes[i] != CapDenied ==>
                   OneMoreFits(GrantedFrom(ip, calls, outcomes, i), l.capacity, l.rate, now - calls[i].now))
    {
      OneMoreIsEarned(l, GrantedFrom(ip, calls, outcomes, i), l.capacity, now - calls[i].now);
    }
  }

  /**
   An address that the cap lets in is allowed a call exactly when it breaks the bound of no window that
   starts at one of its earlier such calls, whatever was evicted in between; so the first one always is.
   */
  lemma AddressIsAllowedIff(l: Limits, calls: seq<Call>, c: Call)
    requires l.Valid() && Sorted(calls + [c])
    ensures var before, outcome := Outcomes(l, map[], calls), Outcomes(l, map[], calls + [c])[|calls|];
            outcome == Allowed <==> outcome != CapDenied && EveryWindowHasRoom(l, c.ip, calls, before, c.now)
  {
    SortedParts(calls, [c]);
    LastOutcome(l, calls, c);
    hide Outcomes, Expected, ReferenceAfter, LevelOf, AddressRoomFor, EveryWindowHasRoom;
    AddressLevelIsTightest(l, map[], c.ip, calls, c.now, 1.0);
    LastIsAllowedByLevel(l, ReferenceAfter(l, map[], calls), c);
    WindowsHaveRoom(l, c.ip, calls, c.now);
  }

  lemma LastOutcome(l: Limits, calls: seq<Call>, c: Call)
    requires l.Valid() && Sorted(calls + [c])
    ensures Outcomes(l, map[], calls) == Expected(l, map[], calls)
    ensures Outcomes(l, map[], calls + [c])[|calls|] == Expected(l, ReferenceAfter(l, map[], calls), [c])[0]
  {
    hide Outcomes, Expected, ReferenceAfter;
    SortedParts(calls, [c]);
    EvictionIsInvisible(l, map[], map[], calls);
    EvictionIsInvisible(l, map[], map[], calls + [c]);
    ExpectedSplits(l, map[], calls, [c]);
  }

  lemma LastIsAllowedByLevel(l: Limits, ref: Buckets, c: Call)
    requires l.Valid()
    ensures |Expected(l, ref, [c])| == 1
    ensures Expected(l, ref, [c])[0] == Allowed <==>
              Expected(l, ref, [c])[0] != CapDenied && 1.0 <= LevelOf(l, ref, c.ip, c.now)
  {
  }

  /** A capacity that is not positive disables the limit. */
  lemma {:induction false} NoCapacityMeansNoLimit(l: Limits, b: Bucket, times: seq<real>)
    requires l.capacity <= 0.0
    ensures AllowedCalls(l, b, times) == |times|
    decreases |times|
  {
    if times != [] {
      NoCapacityMeansNoLimit(l, b, times[1..]);
    }
  }

  // ---- a clock that may step back ----

  predicate ValidFor(l: Limits, b: Bucket) {
    l.capacity > 0.0 && l.rate >= 0.0 && 0.0 <= b.tokens <= l.capacity
  }

  /** Whatever the limits and the bucket, calls at these times keep the bound of a window of length `t - s`. */
  ghost predicate KeepsBound(times: seq<real>, s: real, t: real) {
    forall l, b | ValidFor(l, b) :: AllowedCalls(l, b, times) as real <= l.capacity + Earned(l, t - s)
  }

  /** A bucket is never refused if it starts with a token for each call but one half, and earns that half in time. */
  lemma {:induction false} EveryCallAllowed(l: Limits, b: Bucket, times: seq<real>)
    requires ValidFor(l, b) && b.tokens >= |times| as real - 0.5
    requires |times| as real <= b.tokens + Earned(l, Forward(b.last, times)) <= l.capacity
    ensures AllowedCalls(l, b, times) == |times|
    decreases |times|
  {
    hide Earned, Elapsed;
    if times != [] {
      var rest, d := times[1..], Elapsed(b.last, times[0]);
      EarnedAddsUp(l, d, Forward(times[0], rest));
      EarnedGrows(l, 0.0, d);
      EarnedGrows(l, 0.0, Forward(times[0], rest));
      if rest == [] {
        assert Earned(l, Forward(times[0], rest)) == 0.0 by { EarnedNothing(l); }
      }
      EveryCallAllowed(l, Bucket(b.tokens + Earned(l, d) - 1.0, times[0]), rest);
    }
  }

  lemma EarnedNothing(l: Limits)
    ensures Earned(l, 0.0) == 0.0
  {
  }

  lemma EarnedAtRate(d: real, part: real, l: Limits)
    requires d > 0.0 && l.rate == part / d
    ensures Earned(l, d) == part
  {
  }

  lemma EarnsLessSooner(l: Limits, a: real, b: real)
    requires l.rate > 0.0 && a < b
    ensures Earned(l, a) < Earned(l, b)
  {
    PositiveProduct(b - a, l.rate, Earned(l, b) - Earned(l, a));
  }

  /** If the clock moved forward by more than the window is long, some bucket allows one call too many. */
  lemma LongClockBreaksBound(times: seq<real>, s: real, t: real)
    requires times != [] && s <= t && Forward(times[0], times[1..]) > t - s
    ensures !KeepsBound(times, s, t)
  {
    var n, d := |times| as real, Forward(times[0], times[1..]);
    var l := Limits(n - 0.5, 0.5 / d, 1);
    var b := Bucket(n - 0.5, times[0]);
    EarnedAtRate(d, 0.5, l);
    PositiveProduct(0.5, 1.0 / d, l.rate);
    EarnsLessSooner(l, t - s, d);
    EarnedNothing(l);
    hide Earned;
    EveryCallAllowed(l, Bucket(n - 1.5, times[0]), times[1..]);
    assert Level(l, b, times[0]) == n - 0.5;
    assert AllowedCalls(l, b, times) == |times|;
    assert ValidFor(l, b);
  }

  /**
   The throughput bound holds for every bucket exactly when the clock, adding up its
   advances between the calls, moved forward by no more than the length of the window.
   */
  lemma BoundHoldsIffClockFits(times: seq<real>, s: real, t: real)
    requires times != [] && s <= t
    ensures KeepsBound(times, s, t) <==> Forward(times[0], times[1..]) <= t - s
  {
    if Forward(times[0], times[1..]) <= t - s {
      forall l, b | ValidFor(l, b)
        ensures AllowedCalls(l, b, times) as real <= l.capacity + Earned(l, t - s)
      {
        hide AllowedCalls, Earned;
        WindowOpens(l, b, times);
        EarnedGrows(l, Forward(times[0], times[1..]), t - s);
      }
    } else {
      LongClockBreaksBound(times, s, t);
    }
  }

  /** A clock that steps back is counted twice: three calls in one second at one per second after a burst of one. */
  lemma BackwardClockRefillsTwice()
    ensures !KeepsBound([0.0, 1000.0, 0.0, 1000.0], 0.0, 1000.0)
    ensures var l := Limits(1.0, 0.001, 1);
            AllowedCalls(l, Bucket(1.0, 0.0), [0.0, 1000.0, 0.0, 1000.0]) as real > l.capacity + Earned(l, 1000.0)
  {
    BackwardRun();
    ForwardTwice();
    BoundHoldsIffClockFits([0.0, 1000.0, 0.0, 1000.0], 0.0, 1000.0);
    hide AllowedCalls, Earned, KeepsBound;
  }

  lemma ForwardTwice()
    ensures Forward(0.0, [0.0, 1000.0, 0.0, 1000.0][1..]) == 2000.0
  {
    assert [0.0, 1000.0, 0.0, 1000.0][1..] == [1000.0, 0.0, 1000.0];
    assert [1000.0, 0.0, 1000.0][1..] == [0.0, 1000.0] && [0.0, 1000.0][1..] == [1000.0];
    assert Forward(0.0, [1000.0]) == 1000.0;
    assert Forward(1000.0, [0.0, 1000.0]) == 1000.0;
  }

  lemma BackwardRun()
    ensures var l := Limits(1.0, 0.001, 1);
            AllowedCalls(l, Bucket(1.0, 0.0), [0.0, 1000.0, 0.0, 1000.0]) as real > l.capacity + Earned(l, 1000.0)
  {
  }

  lemma AllowedOne(l: Limits, b: Bucket, now: real, rest: seq<real>)
    ensures AllowedCalls(l, b, [now] + rest)
         == (if Allow(l, b, now).1 then 1 else 0) + AllowedCalls(l, Allow(l, b, now).0, rest)
  {
  }
}
