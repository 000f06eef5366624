/**
 Leaky bucket rate limiting (internal/filters/rate_limiter/leaky_bucket.go).

 The leaky bucket is the token bucket seen from the other side: water is capacity minus tokens.
 `LeakyIsMirroredToken` proves the two Lua scripts give mirrored replies on every run of every
 request sequence, each with its own key TTL, so every token bucket result carries over.
 */
module LeakyBucket {
  import opened Basics
  import RateUnits
  import Token = TokenBucket

  /** The limits of one descriptor; `leakRate` is per `unit`. */
  datatype Policy = Policy(capacity: nat, leakRate: real, unit: string)

  /** The Redis hash of one key: fields `w` and `l`, and the moment the key expires. */
  datatype Bucket = Bucket(water: real, lastUpdated: real, expiresAt: real)

  datatype Reply = Reply(allowed: bool, water: real, reset: int)

  const FALLBACK_TTL := 60

  function LeakPerSecond(p: Policy): real {
    Over(p.leakRate, RateUnits.Divider(p.unit) as real)
  }

  predicate ValidPolicy(p: Policy) {
    LeakPerSecond(p) > 0.0
  }

  function Ttl(p: Policy): (ttl: int)
    ensures ttl >= 1
    ensures LeakPerSecond(p) > 0.0 ==> p.capacity as real <= Times(ttl as real, LeakPerSecond(p))
    ensures if LeakPerSecond(p) > 0.0 && p.capacity > 0
            then Times((ttl - 1) as real, LeakPerSecond(p)) < p.capacity as real
            else ttl == 60
  {
    var rate := LeakPerSecond(p);
    var t := if rate > 0.0 then Ceil(Over(p.capacity as real, rate)) else 0;
    var ttl := if t <= 0 then FALLBACK_TTL else t;
    if rate > 0.0 then
      OverIsInverse(p.capacity as real, ttl as real, rate);
      OverIsInverse(p.capacity as real, (ttl - 1) as real, rate);
      OverIsInverse(p.capacity as real, 0.0, rate);
      ttl
    else
      ttl
  }

  function Leak(water: real, lastUpdated: real, rate: real, now: real): real {
    Max(0.0, water - Times(Max(0.0, now - lastUpdated), rate))
  }

  /** Water the script sees at `now`. */
  function Level(b: Option<Bucket>, rate: real, now: real): real {
    match b
    case None => Leak(0.0, now, rate, now)
    case Some(b) => Leak(b.water, b.lastUpdated, rate, now)
  }

  function ResetSeconds(amount: real, rate: real): int {
    if rate > 0.0 then Ceil(Over(amount, rate)) else 0
  }

  /** Without a leak rate there is no time to wait for. */
  lemma NoRateNoReset(amount: real, rate: real)
    requires rate <= 0.0
    ensures ResetSeconds(amount, rate) == 0
  {
  }

  function Answer(water: real, capacity: nat, rate: real, cost: nat): Reply {
    var filled := water + cost as real;
    if filled <= capacity as real then
      Reply(true, filled, ResetSeconds(filled, rate))
    else
      Reply(false, water, ResetSeconds(filled - capacity as real, rate))
  }

  /** The bucket and reply after the script ran on a live bucket (or on a missing key). */
  function Script(b: Option<Bucket>, capacity: nat, rate: real, cost: nat, now: real, ttl: int): (Option<Bucket>,
    Reply) {
    var reply := Answer(Level(b, rate, now), capacity, rate, cost);
    (if reply.allowed then Some(Bucket(reply.water, now, now + ttl as real)) else b, reply)
  }

  function Live(b: Option<Bucket>, now: real): Option<Bucket> {
    if b.Some? && b.value.expiresAt <= now then None else b
  }

  /** The Redis keys the leaky bucket script works on. */
  class LeakyBucketStore<K(==)> {
    var buckets: map<K, Bucket>

    constructor ()
      ensures buckets == map[]
    {
      buckets := map[];
    }

    /** The Lua script; Redis drops the key first when it has expired. */
    method Eval(key: K, capacity: nat, rate: real, cost: nat, now: real, ttl: int) returns (reply: Reply)
      modifies this
      ensures (Find(buckets, key), reply) == Script(Live(old(Find(buckets, key)), now), capacity, rate, cost, now, ttl)
      ensures buckets - {key} == old(buckets) - {key}
    {
      hide Times, Over;
      if key in buckets && buckets[key].expiresAt <= now {
        buckets := buckets - {key};
      }
      var water, lastUpdated := 0.0, now;
      if key in buckets {
        water, lastUpdated := buckets[key].water, buckets[key].lastUpdated;
      }
      var elapsed := Max(0.0, now - lastUpdated);
      var leaked := Times(elapsed, rate);
      water := Max(0.0, water - leaked);

      var allowed := false;
      if water + cost as real <= capacity as real {
        water := water + cost as real;
        allowed := true;
        buckets := buckets[key := Bucket(water, now, now + ttl as real)];
      }
      var reset := 0.0;
      if rate > 0.0 {
        if allowed {
          reset := Over(water, rate);
        } else {
          var missing := (water + cost as real) - capacity as real;
          reset := Over(missing, rate);
        }
      }
      reply := Reply(allowed, water, Ceil(reset));
    }
  }

  /*** Runs, and the mirrored token bucket ***/

  function Evaluate(p: Policy, b: Option<Bucket>, r: Token.Request): (Option<Bucket>, Reply) {
    Script(Live(b, r.now), p.capacity, LeakPerSecond(p), r.cost, r.now, Ttl(p))
  }

  /** The stored bucket after the first `n` requests, on a store with expiring keys. */
  function After(p: Policy, reqs: seq<Token.Request>, n: nat): Option<Bucket>
    requires n <= |reqs|
  {
    if n == 0 then None else Evaluate(p, After(p, reqs, n - 1), reqs[n - 1]).0
  }

  function ReplyAt(p: Policy, reqs: seq<Token.Request>, k: nat): Reply
    requires k < |reqs|
  {
    Evaluate(p, After(p, reqs, k), reqs[k]).1
  }

  /** The token bucket with the same capacity and the same rate. */
  function Mirror(p: Policy): Token.Policy {
    Token.Policy(p.capacity as real, LeakPerSecond(p))
  }

  /** The token bucket reply a leaky bucket reply corresponds to. */
  function MirrorReply(p: Policy, r: Reply): Token.Reply {
    Token.Reply(r.allowed, p.capacity as real - r.water, r.reset)
  }

  /** Stored buckets correspond; the leaky side may already have expired a bucket that ran dry. */
  ghost predicate Related(p: Policy, leaky: Option<Bucket>, token: Option<Token.Bucket>, now: real) {
    match token
    case None => leaky.None?
    case Some(t) =>
      && 0.0 <= t.tokens <= p.capacity as real
      && t.lastUpdated <= now
      && match leaky
         case Some(b) =>
           && b.water == p.capacity as real - t.tokens
           && b.lastUpdated == t.lastUpdated
           && b.expiresAt == b.lastUpdated + Ttl(p) as real
         case None => t.lastUpdated + Ttl(p) as real <= now
  }

  lemma RelatedLevels(p: Policy, leaky: Option<Bucket>, token: Option<Token.Bucket>, now: real)
    requires ValidPolicy(p) && Related(p, leaky, token, now)
    ensures Token.Available(token, Mirror(p), now)
            == p.capacity as real - Level(Live(leaky, now), LeakPerSecond(p), now)
  {
    hide Times, Over;
    var rate := LeakPerSecond(p);
    TimesDistributes(0.0, 0.0, rate);
    if token.Some? {
      var elapsed := now - token.value.lastUpdated;
      TimesMonotone(0.0, elapsed, rate);
      TimesMonotone(Ttl(p) as real, elapsed, rate);
    }
  }

  lemma RelatedStep(p: Policy, leaky: Option<Bucket>, token: Option<Token.Bucket>, r: Token.Request)
    requires ValidPolicy(p) && Related(p, leaky, token, r.now) && r.cost >= 1
    ensures Token.Evaluate(Mirror(p), false, token, r).1 == MirrorReply(p, Evaluate(p, leaky, r).1)
    ensures Related(p, Evaluate(p, leaky, r).0, Token.Evaluate(Mirror(p), false, token, r).0, r.now)
  {
    hide Times, Over;
    RelatedLevels(p, leaky, token, r.now);
    var level := Level(Live(leaky, r.now), LeakPerSecond(p), r.now);
    RelatedAnswers(p, level, r.cost);
  }

  lemma RelatedAnswers(p: Policy, level: real, cost: nat)
    requires ValidPolicy(p) && level >= 0.0
    ensures Token.Answer(p.capacity as real - level, Mirror(p), cost) ==
            MirrorReply(p, Answer(level, p.capacity, LeakPerSecond(p), cost))
  {
    hide Times, Over;
    var rate := LeakPerSecond(p);
    var missing := if level + cost as real <= p.capacity as real
    then level + cost as real
    else level + cost as real - p.capacity as real;
    OverIsNonNegative(missing, rate);
  }

  lemma OverIsNonNegative(a: real, r: real)
    requires a >= 0.0 && r > 0.0
    ensures Over(a, r) >= 0.0
  {
    OverIsInverse(a, -1.0, r);
    TimesDistributes(0.0, 1.0, r);
  }

  lemma {:induction false} RunsStayRelated(p: Policy, reqs: seq<Token.Request>, n: nat, now: real)
    requires ValidPolicy(p) && Token.ValidRun(reqs) && n <= |reqs|
    requires n > 0 ==> reqs[n - 1].now <= now
    ensures Related(p, After(p, reqs, n), Token.After(Mirror(p), false, reqs, n), now)
  {
    hide Times, Over;
    if n > 0 {
      RunsStayRelated(p, reqs, n - 1, reqs[n - 1].now);
      RelatedStep(p, After(p, reqs, n - 1), Token.After(Mirror(p), false, reqs, n - 1), reqs[n - 1]);
    }
  }

  /**
   Bisimulation: on every run both scripts admit the same requests, report the same reset duration
   and leave `tokens == capacity - water`, although denials write nothing and the TTLs differ.
   */
  lemma LeakyIsMirroredToken(p: Policy, reqs: seq<Token.Request>, k: nat)
    requires ValidPolicy(p) && Token.ValidRun(reqs) && k < |reqs|
    ensures Token.ReplyAt(Mirror(p), true, reqs, k) == MirrorReply(p, ReplyAt(p, reqs, k))
  {
    hide Times, Over;
    RunsStayRelated(p, reqs, k, reqs[k].now);
    RelatedStep(p, After(p, reqs, k), Token.After(Mirror(p), false, reqs, k), reqs[k]);
    Token.ExpiryIsUnobservable(Mirror(p), reqs, k);
  }

  /** Total cost the leaky bucket admits by requests `i` up to but not including `n`. */
  function Poured(p: Policy, reqs: seq<Token.Request>, i: nat, n: nat): real
    requires n <= |reqs|
    decreases n
  {
    if n <= i then 0.0
    else Poured(p, reqs, i, n - 1) + if ReplyAt(p, reqs, n - 1).allowed then reqs[n - 1].cost as real else 0.0
  }

  /** The token bucket bound, carried over: any span admits at most capacity plus what leaked. */
  lemma PouredCostIsBounded(p: Policy, reqs: seq<Token.Request>, i: nat, j: nat)
    requires ValidPolicy(p) && Token.ValidRun(reqs) && i <= j < |reqs|
    ensures Poured(p, reqs, i, j + 1) <= p.capacity as real + Times(reqs[j].now - reqs[i].now, LeakPerSecond(p))
  {
    hide Times, Over;
    PouredIsSpent(p, reqs, i, j + 1);
    Token.AdmittedCostIsBounded(Mirror(p), reqs, i, j);
  }

  lemma {:induction false} PouredIsSpent(p: Policy, reqs: seq<Token.Request>, i: nat, n: nat)
    requires ValidPolicy(p) && Token.ValidRun(reqs) && n <= |reqs|
    ensures Poured(p, reqs, i, n) == Token.Spent(Mirror(p), reqs, i, n)
    decreases n
  {
    hide Times, Over;
    if n > i {
      PouredIsSpent(p, reqs, i, n - 1);
      LeakyIsMirroredToken(p, reqs, n - 1);
    }
  }
}
