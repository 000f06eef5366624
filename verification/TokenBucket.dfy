/**
 Token bucket rate limiting (internal/filters/rate_limiter/token_bucket.go).

 `TokenBucketStore.Eval` follows the Lua script statement by statement; `Script` is the function
 it is proved to compute. The lemmas say what a whole run of requests on one key does: the script
 admits a request exactly when the arrival curve `maxTokens + fillRate * elapsed` has room for it,
 and the EXPIRE it sets can never be noticed.
 */
module TokenBucket {
  import opened Basics
  import Credit = CreditBucket

  /** The limits of one descriptor; `fillRate` is in tokens per second. */
  datatype Policy = Policy(maxTokens: real, fillRate: real)

  /** The Redis hash of one key: fields `t` and `l`, and the moment the key expires. */
  datatype Bucket = Bucket(tokens: real, lastUpdated: real, expiresAt: real)

  /** What the script returns: admitted or not, tokens left, seconds until reset. */
  datatype Reply = Reply(allowed: bool, tokens: real, reset: int)

  datatype Request = Request(cost: nat, now: real)

  predicate ValidPolicy(p: Policy) {
    p.maxTokens >= 0.0 && p.fillRate > 0.0
  }

  const DEFAULT_TTL := 3600
  const MIN_TTL := 60

  /** The TTL in seconds that `Evaluate` passes to the script. */
  function Ttl(p: Policy): (ttl: int)
    ensures ttl >= MIN_TTL
    ensures p.fillRate > 0.0 ==> p.maxTokens <= Times(ttl as real, p.fillRate)
    ensures p.fillRate > 0.0 ==> ttl == 60 || Times((ttl - 1) as real, p.fillRate) < p.maxTokens
    ensures p.fillRate <= 0.0 ==> ttl == 3600
  {
    if p.fillRate > 0.0 then
      var t := Ceil(Over(p.maxTokens, p.fillRate));
      var ttl := if t < MIN_TTL then MIN_TTL else t;
      OverIsInverse(p.maxTokens, ttl as real, p.fillRate);
      OverIsInverse(p.maxTokens, (ttl - 1) as real, p.fillRate);
      ttl
    else
      DEFAULT_TTL
  }

  function Replenish(tokens: real, lastUpdated: real, p: Policy, now: real): real {
    Max(0.0, Min(p.maxTokens, tokens + Times(Max(0.0, now - lastUpdated), p.fillRate)))
  }

  function ResetSeconds(amount: real, p: Policy): int {
    if p.fillRate > 0.0 then Ceil(Max(0.0, Over(amount, p.fillRate))) else 0
  }

  /** Without a fill rate there is no time to wait for. */
  lemma NoRateNoReset(amount: real, p: Policy)
    requires p.fillRate <= 0.0
    ensures ResetSeconds(amount, p) == 0
  {
  }

  /** Tokens the script sees at `now`: the stored tokens, replenished and clamped. */
  function Available(b: Option<Bucket>, p: Policy, now: real): real {
    match b
    case None => Replenish(p.maxTokens, now, p, now)
    case Some(b) => Replenish(b.tokens, b.lastUpdated, p, now)
  }

  function Answer(tokens: real, p: Policy, cost: nat): Reply {
    if tokens >= cost as real then
      Reply(true, tokens - cost as real, ResetSeconds(p.maxTokens - (tokens - cost as real), p))
    else
      Reply(false, tokens, ResetSeconds(cost as real - tokens, p))
  }

  /** The bucket and reply after the script ran on a live bucket (or on a missing key). */
  function Script(b: Option<Bucket>, p: Policy, cost: nat, now: real, ttl: int): (Option<Bucket>, Reply) {
    var reply := Answer(Available(b, p, now), p, cost);
    (if reply.allowed then Some(Bucket(reply.tokens, now, now + ttl as real)) else b, reply)
  }

  /** What Redis still holds of a bucket at `now`. */
  function Live(b: Option<Bucket>, now: real): Option<Bucket> {
    if b.Some? && b.value.expiresAt <= now then None else b
  }

  /** The Redis keys the token bucket script works on. */
  class TokenBucketStore<K(==)> {
    var buckets: map<K, Bucket>

    constructor ()
      ensures buckets == map[]
    {
      buckets := map[];
    }

    /** The Lua script; Redis drops the key first when it has expired. */
    method Eval(key: K, p: Policy, cost: nat, now: real, ttl: int) returns (reply: Reply)
      modifies this
      ensures (Find(buckets, key), reply) == Script(Live(old(Find(buckets, key)), now), p, cost, now, ttl)
      ensures buckets - {key} == old(buckets) - {key}
    {
      hide Times, Over;
      if key in buckets && buckets[key].expiresAt <= now {
        buckets := buckets - {key};
      }
      var tokens, lastUpdated := p.maxTokens, now;
      if key in buckets {
        tokens, lastUpdated := buckets[key].tokens, buckets[key].lastUpdated;
      }
      var elapsed := Max(0.0, now - lastUpdated);
      var replenished := tokens + Times(elapsed, p.fillRate);
      tokens := Max(0.0, Min(p.maxTokens, replenished));

      var allowed := false;
      if tokens >= cost as real {
        tokens := tokens - cost as real;
        allowed := true;
        buckets := buckets[key := Bucket(tokens, now, now + ttl as real)];
      }
      var reset := 0.0;
      if p.fillRate > 0.0 {
        if allowed {
          reset := Over(p.maxTokens - tokens, p.fillRate);
        } else {
          var missing := cost as real - tokens;
          reset := Over(missing, p.fillRate);
        }
      }
      reset := Max(0.0, reset);
      reply := Reply(allowed, tokens, Ceil(reset));
    }
  }

  /*** Runs of requests on one key ***/

  /** Times never go backwards and every request costs at least one unit. */
  ghost predicate ValidRun(reqs: seq<Request>) {
    && (forall i | 0 <= i < |reqs| :: reqs[i].cost >= 1)
    && (forall i, j | 0 <= i <= j < |reqs| :: reqs[i].now <= reqs[j].now)
  }

  /** One request of a run, with or without key expiry. */
  function Evaluate(p: Policy, expiry: bool, b: Option<Bucket>, r: Request): (Option<Bucket>, Reply) {
    Script(if expiry then Live(b, r.now) else b, p, r.cost, r.now, Ttl(p))
  }

  /** The stored bucket after the first `n` requests. */
  function After(p: Policy, expiry: bool, reqs: seq<Request>, n: nat): Option<Bucket>
    requires n <= |reqs|
  {
    if n == 0 then None else Evaluate(p, expiry, After(p, expiry, reqs, n - 1), reqs[n - 1]).0
  }

  function ReplyAt(p: Policy, expiry: bool, reqs: seq<Request>, k: nat): Reply
    requires k < |reqs|
  {
    Evaluate(p, expiry, After(p, expiry, reqs, k), reqs[k]).1
  }

  /** Total cost admitted by requests `i` up to but not including `n`. */
  function Spent(p: Policy, reqs: seq<Request>, i: nat, n: nat): real
    requires n <= |reqs|
    decreases n
  {
    if n <= i then 0.0
    else Spent(p, reqs, i, n - 1) +
         if ReplyAt(p, true, reqs, n - 1).allowed then reqs[n - 1].cost as real else 0.0
  }

  /*** Expiry ***/

  ghost predicate WrittenByScript(b: Bucket, p: Policy) {
    b.tokens >= 0.0 && b.expiresAt == b.lastUpdated + Ttl(p) as real
  }

  /** A bucket that outlived its TTL is full again, just like a missing key. */
  lemma ExpiredIsFull(b: Bucket, p: Policy, now: real)
    requires ValidPolicy(p) && WrittenByScript(b, p) && b.expiresAt <= now
    ensures Available(Some(b), p, now) == p.maxTokens
  {
    hide Times, Over;
    TimesMonotone(Ttl(p) as real, now - b.lastUpdated, p.fillRate);
  }

  lemma MissingIsFull(p: Policy, now: real)
    requires ValidPolicy(p)
    ensures Available(None, p, now) == p.maxTokens
  {
    hide Times, Over;
    TimesDistributes(0.0, 0.0, p.fillRate);
  }

  /** Either both runs store the same bucket, or the expiring run dropped one that is full again. */
  ghost predicate SameUpToExpiry(expiring: Option<Bucket>, kept: Option<Bucket>, now: real) {
    || expiring == kept
    || (expiring.None? && kept.Some? && kept.value.expiresAt <= now)
  }

  lemma {:induction false} ExpiringRunTracksKeptRun(p: Policy, reqs: seq<Request>, n: nat, now: real)
    requires ValidPolicy(p) && ValidRun(reqs) && n <= |reqs|
    requires n > 0 ==> reqs[n - 1].now <= now
    ensures SameUpToExpiry(After(p, true, reqs, n), After(p, false, reqs, n), now)
    ensures var kept := After(p, false, reqs, n); kept.Some? ==> WrittenByScript(kept.value, p)
  {
    hide Times, Over;
    if n > 0 {
      var r := reqs[n - 1];
      ExpiringRunTracksKeptRun(p, reqs, n - 1, r.now);
      ExpiryStep(p, After(p, true, reqs, n - 1), After(p, false, reqs, n - 1), r);
    }
  }

  /** One request leaves the two runs related and answers both alike. */
  lemma ExpiryStep(p: Policy, expiring: Option<Bucket>, kept: Option<Bucket>, r: Request)
    requires ValidPolicy(p) && SameUpToExpiry(expiring, kept, r.now)
    requires kept.Some? ==> WrittenByScript(kept.value, p)
    ensures Evaluate(p, true, expiring, r).1 == Evaluate(p, false, kept, r).1
    ensures SameUpToExpiry(Evaluate(p, true, expiring, r).0, Evaluate(p, false, kept, r).0, r.now)
    ensures var b := Evaluate(p, false, kept, r).0; b.Some? ==> WrittenByScript(b.value, p)
  {
    hide Times, Over;
    if kept.Some? && kept.value.expiresAt <= r.now {
      ExpiredIsFull(kept.value, p, r.now);
      MissingIsFull(p, r.now);
    }
  }

  /** Every reply of every run is the same as if keys never expired. */
  lemma ExpiryIsUnobservable(p: Policy, reqs: seq<Request>, k: nat)
    requires ValidPolicy(p) && ValidRun(reqs) && k < |reqs|
    ensures ReplyAt(p, true, reqs, k) == ReplyAt(p, false, reqs, k)
  {
    hide Times, Over;
    ExpiringRunTracksKeptRun(p, reqs, k, reqs[k].now);
    ExpiryStep(p, After(p, true, reqs, k), After(p, false, reqs, k), reqs[k]);
  }

  /*** From time to credit ***/

  function InCredit(p: Policy, b: Option<Bucket>): Option<Credit.Bucket> {
    match b
    case None => None
    case Some(b) => Some(Credit.Bucket(b.tokens, Times(b.lastUpdated, p.fillRate)))
  }

  function RunInCredit(p: Policy, reqs: seq<Request>): (c: seq<Credit.Request>)
    ensures |c| == |reqs|
    ensures forall i | 0 <= i < |reqs| :: c[i] == Credit.Request(reqs[i].cost as real, Times(reqs[i].now, p.fillRate))
  {
    seq(|reqs|, i requires 0 <= i < |reqs| => Credit.Request(reqs[i].cost as real, Times(reqs[i].now, p.fillRate)))
  }

  lemma RunInCreditIsValid(p: Policy, reqs: seq<Request>)
    requires ValidPolicy(p) && ValidRun(reqs)
    ensures Credit.ValidRun(RunInCredit(p, reqs))
  {
    hide Times, Over;
    forall i, j | 0 <= i <= j < |reqs| ensures Times(reqs[i].now, p.fillRate) <= Times(reqs[j].now, p.fillRate) {
      TimesMonotone(reqs[i].now, reqs[j].now, p.fillRate);
    }
  }

  /** Refilling by time and refilling by credit give the same level. */
  lemma LevelInCredit(p: Policy, b: Option<Bucket>, now: real)
    requires ValidPolicy(p)
    ensures Available(b, p, now) == Credit.Level(InCredit(p, b), p.maxTokens, Times(now, p.fillRate))
  {
    hide Times, Over;
    match b
    case None => MissingIsFull(p, now);
    case Some(b) =>
      var l := b.lastUpdated;
      TimesDistributes(now, l, p.fillRate);
      TimesMonotone(l, now, p.fillRate);
      TimesMonotone(now, l, p.fillRate);
  }

  lemma {:induction false} StateInCredit(p: Policy, reqs: seq<Request>, n: nat)
    requires ValidPolicy(p) && n <= |reqs|
    ensures InCredit(p, After(p, false, reqs, n)) == Credit.After(p.maxTokens, RunInCredit(p, reqs), n)
  {
    hide Times, Over;
    if n > 0 {
      StateInCredit(p, reqs, n - 1);
      LevelInCredit(p, After(p, false, reqs, n - 1), reqs[n - 1].now);
    }
  }

  lemma AdmittedInCredit(p: Policy, reqs: seq<Request>, k: nat)
    requires ValidPolicy(p) && ValidRun(reqs) && k < |reqs|
    ensures ReplyAt(p, true, reqs, k).allowed == Credit.AdmittedAt(p.maxTokens, RunInCredit(p, reqs), k)
  {
    hide Times, Over;
    ExpiryIsUnobservable(p, reqs, k);
    StateInCredit(p, reqs, k);
    LevelInCredit(p, After(p, false, reqs, k), reqs[k].now);
  }

  lemma {:induction false} SpentInCredit(p: Policy, reqs: seq<Request>, i: nat, n: nat)
    requires ValidPolicy(p) && ValidRun(reqs) && n <= |reqs|
    ensures Spent(p, reqs, i, n) == Credit.Spent(p.maxTokens, RunInCredit(p, reqs), i, n)
    decreases n
  {
    hide Times, Over;
    if n > i {
      SpentInCredit(p, reqs, i, n - 1);
      AdmittedInCredit(p, reqs, n - 1);
    }
  }

  /*** Main results ***/

  /** Room under the arrival curve that starts with request `i`, for one more cost at `now`. */
  ghost predicate CurveHasRoom(p: Policy, reqs: seq<Request>, i: nat, k: nat)
    requires i < k < |reqs|
  {
    Spent(p, reqs, i, k) + reqs[k].cost as real <= p.maxTokens + Times(reqs[k].now - reqs[i].now, p.fillRate)
  }

  /**
   Exact admission: on a store with expiring keys, request `k` of any run is admitted if and only if
   it fits the bucket and the arrival curve that starts at every earlier request.
   */
  lemma AdmittedIffCurveHasRoom(p: Policy, reqs: seq<Request>, k: nat)
    requires ValidPolicy(p) && ValidRun(reqs) && k < |reqs|
    ensures ReplyAt(p, true, reqs, k).allowed <==>
            && reqs[k].cost as real <= p.maxTokens
            && forall i | 0 <= i < k :: CurveHasRoom(p, reqs, i, k)
  {
    hide Times, Over;
    var c := RunInCredit(p, reqs);
    RunInCreditIsValid(p, reqs);
    AdmittedInCredit(p, reqs, k);
    Credit.AdmittedIffCurveHasRoom(p.maxTokens, c, k);
    forall i | 0 <= i < k
      ensures CurveHasRoom(p, reqs, i, k) <==>
              Credit.Spent(p.maxTokens, c, i, k) + c[k].cost <= p.maxTokens + (c[k].at - c[i].at)
    {
      SpentInCredit(p, reqs, i, k);
      TimesDistributes(reqs[k].now, reqs[i].now, p.fillRate);
    }
  }

  /** Between any two requests of any run at most `maxTokens + fillRate * elapsed` is admitted. */
  lemma {:induction false} AdmittedCostIsBounded(p: Policy, reqs: seq<Request>, i: nat, j: nat)
    requires ValidPolicy(p) && ValidRun(reqs) && i <= j < |reqs|
    ensures Spent(p, reqs, i, j + 1) <= p.maxTokens + Times(reqs[j].now - reqs[i].now, p.fillRate)
    decreases j
  {
    hide Times, Over;
    AdmittedIffCurveHasRoom(p, reqs, j);
    if i < j {
      AdmittedCostIsBounded(p, reqs, i, j - 1);
      TimesMonotone(reqs[j - 1].now - reqs[i].now, reqs[j].now - reqs[i].now, p.fillRate);
      assert ReplyAt(p, true, reqs, j).allowed ==> CurveHasRoom(p, reqs, i, j);
    } else {
      TimesDistributes(reqs[j].now, reqs[j].now, p.fillRate);
      assert Spent(p, reqs, i, j) == 0.0;
    }
  }

  /** After every prefix of every run the stored level stays within the bucket, and so does every level reported. */
  lemma {:induction false} TokensStayInBucket(p: Policy, reqs: seq<Request>, n: nat)
    requires ValidPolicy(p) && ValidRun(reqs) && n <= |reqs|
    ensures var b := After(p, true, reqs, n); b.Some? ==> 0.0 <= b.value.tokens <= p.maxTokens
    ensures n < |reqs| ==> 0.0 <= ReplyAt(p, true, reqs, n).tokens <= p.maxTokens
  {
    hide Times, Over;
    if n > 0 {
      TokensStayInBucket(p, reqs, n - 1);
    }
  }

  /**
   The reset duration of a denial is exact: repeating a request that fits the bucket after waiting
   `d` whole seconds succeeds if and only if `d` has reached the advertised number.
   */
  lemma DeniedResetIsExact(b: Bucket, p: Policy, cost: nat, now: real, d: nat, ttl: int)
    requires ValidPolicy(p) && cost as real <= p.maxTokens
    requires b.tokens >= 0.0 && b.lastUpdated <= now
    requires !Script(Some(b), p, cost, now, ttl).1.allowed
    ensures Script(Some(b), p, cost, now + d as real, ttl).1.allowed <==>
            d >= Script(Some(b), p, cost, now, ttl).1.reset
  {
    hide Times, Over;
    var tokens := Available(Some(b), p, now);
    WaitingAddsCredit(b, p, now, d);
    OverIsInverse(cost as real - tokens, d as real, p.fillRate);
  }

  lemma WaitingAddsCredit(b: Bucket, p: Policy, now: real, d: nat)
    requires ValidPolicy(p) && b.tokens >= 0.0 && b.lastUpdated <= now
    ensures var level := Available(Some(b), p, now);
            Available(Some(b), p, now + d as real) == Min(p.maxTokens, level + Times(d as real, p.fillRate))
  {
    hide Times, Over;
    var e := now - b.lastUpdated;
    TimesDistributes(e, d as real, p.fillRate);
    TimesMonotone(0.0, e, p.fillRate);
    TimesMonotone(0.0, d as real, p.fillRate);
  }
}
