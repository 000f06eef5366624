/**
 Fixed window rate limiting with an L1 block cache (internal/filters/rate_limiter/fixed_window.go).

 `FixedWindowExecutor.Evaluate` follows the policy loop of the source. `Evaluated` is the function it
 computes, with the cache as a switch; the main result is that the switch cannot be observed.
 Redis is reachable throughout; times are Unix seconds.
 */
module FixedWindow {
  import opened Basics
  import RateUnits

  const MAX_UINT32: nat := 0xFFFF_FFFF

  /** One condition of a descriptor; an empty value matches anything. */
  datatype Entry = Entry(key: string, value: string)

  datatype Policy = Policy(entries: seq<Entry>, limit: nat, unit: string, shadowMode: bool)

  /** A Redis key: the extracted values of a policy's entries, and the start of the window. */
  datatype Key = Key(values: seq<(string, string)>, window: int)

  datatype Counter = Counter(count: nat, expiresAt: int)

  datatype Decision = Decision(blocked: bool, limit: nat, remaining: nat, reset: int)

  /** Counters in Redis and the local cache of blocked keys, with expiry times. */
  datatype State = State(counters: map<Key, Counter>, cache: map<Key, int>)

  /** One call: extracted descriptor values, cost and time. */
  datatype Request = Request(extracted: map<string, string>, cost: nat, now: nat)

  function Dimension(p: Policy): seq<string> {
    seq(|p.entries|, i requires 0 <= i < |p.entries| => p.entries[i].key)
  }

  predicate Matches(p: Policy, extracted: map<string, string>) {
    forall i | 0 <= i < |p.entries| ::
      p.entries[i].key in extracted && (p.entries[i].value != "" ==> p.entries[i].value == extracted[p.entries[i].key])
  }

  function WindowStart(p: Policy, now: nat): int {
    now / RateUnits.Divider(p.unit) * RateUnits.Divider(p.unit)
  }

  function ResetSeconds(p: Policy, now: nat): int {
    RateUnits.Divider(p.unit) - now % RateUnits.Divider(p.unit)
  }

  function KeyOf(p: Policy, extracted: map<string, string>, now: nat): Key
    requires Matches(p, extracted)
  {
    Key(seq(|p.entries|, i requires 0 <= i < |p.entries| => (p.entries[i].key, extracted[p.entries[i].key])),
        WindowStart(p, now))
  }

  /** The more restrictive of the running decision and a policy's remaining quota. */
  function Tighten(acc: Decision, p: Policy, remaining: nat, now: nat): Decision {
    if remaining < acc.remaining then Decision(acc.blocked, p.limit, remaining, ResetSeconds(p, now)) else acc
  }

  function Blocked(p: Policy, now: nat): Decision {
    Decision(true, p.limit, 0, ResetSeconds(p, now))
  }

  const START := Decision(false, 0, MAX_UINT32, 0)

  function Finish(acc: Decision): Decision {
    if acc.remaining == MAX_UINT32 then acc.(blocked := false, remaining := 0, limit := 0) else acc.(blocked := false)
  }

  /** Keys whose TTL has passed are gone. */
  function Sweep(st: State, now: nat): State {
    State(map k | k in st.counters && now < st.counters[k].expiresAt :: st.counters[k],
          map k | k in st.cache && now < st.cache[k] :: st.cache[k])
  }

  function Count(st: State, k: Key): nat {
    if k in st.counters then st.counters[k].count else 0
  }

  datatype Charged = Charged(st: State, acc: Decision, stop: bool)

  /** Charging one matched policy: cache lookup, INCRBY and EXPIRE, decision. */
  function Charge(p: Policy, caching: bool, st: State, r: Request, jitter: nat, acc: Decision): Charged
    requires Matches(p, r.extracted)
  {
    var k := KeyOf(p, r.extracted, r.now);
    if caching && k in st.cache then
      Charged(st, Blocked(p, r.now), true)
    else
      var count := Count(st, k) + r.cost;
      var charged := st.(counters := st.counters[k := Counter(count, r.now + ResetSeconds(p, r.now) + jitter)]);
      if count <= p.limit then
        Charged(charged, Tighten(acc, p, p.limit - count, r.now), false)
      else if p.shadowMode then
        Charged(charged, Tighten(acc, p, 0, r.now), false)
      else if caching && (r.cost == 1 || count - r.cost >= p.limit) then
        Charged(charged.(cache := charged.cache[k := r.now + ResetSeconds(p, r.now)]), Blocked(p, r.now), true)
      else
        Charged(charged, Blocked(p, r.now), true)
  }

  function JitterAt(jitter: seq<nat>, i: nat): nat {
    if i < |jitter| then jitter[i] else 0
  }

  /** The policy loop from index `i` on. */
  function EvaluatedFrom(policies: seq<Policy>, caching: bool, st: State, r: Request, jitter: seq<nat>,
                         i: nat, seen: set<seq<string>>, acc: Decision): (State, Decision)
    requires i <= |policies|
    decreases |policies| - i
  {
    if i == |policies| then
      (st, Finish(acc))
    else if Dimension(policies[i]) in seen || !Matches(policies[i], r.extracted) then
      EvaluatedFrom(policies, caching, st, r, jitter, i + 1, seen, acc)
    else
      var c := Charge(policies[i], caching, st, r, JitterAt(jitter, i), acc);
      if c.stop then (c.st, c.acc)
      else EvaluatedFrom(policies, caching, c.st, r, jitter, i + 1, seen + {Dimension(policies[i])}, c.acc)
  }

  function Evaluated(policies: seq<Policy>, caching: bool, st: State, r: Request, jitter: seq<nat>): (State, Decision) {
    EvaluatedFrom(policies, caching, Sweep(st, r.now), r, jitter, 0, {}, START)
  }

  /** The executor of one rate limit filter; `policies` are its descriptors in evaluation order. */
  class FixedWindowExecutor {
    const policies: seq<Policy>
    const caching: bool
    var st: State

    constructor (policies: seq<Policy>, caching: bool)
      ensures this.policies == policies && this.caching == caching && st == State(map[], map[])
    {
      this.policies := policies;
      this.caching := caching;
      st := State(map[], map[]);
    }

    method Evaluate(r: Request, jitter: seq<nat>) returns (decision: Decision)
      modifies this
      ensures (st, decision) == Evaluated(policies, caching, old(st), r, jitter)
    {
      st := Sweep(st, r.now);
      var acc, seen: set<seq<string>> := START, {};
      for i := 0 to |policies|
        invariant EvaluatedFrom(policies, caching, st, r, jitter, i, seen, acc)
                == Evaluated(policies, caching, old(st), r, jitter)
      {
        var p := policies[i];
        if Dimension(p) in seen || !Matches(p, r.extracted) {
          continue;
        }
        seen := seen + {Dimension(p)};
        var resetSeconds := ResetSeconds(p, r.now);
        var key := KeyOf(p, r.extracted, r.now);
        if caching && key in st.cache {
          return Decision(true, p.limit, 0, resetSeconds);
        }
        var count := Count(st, key) + r.cost;
        var ttl := resetSeconds + JitterAt(jitter, i);
        st := st.(counters := st.counters[key := Counter(count, r.now + ttl)]);
        if count > p.limit {
          if p.shadowMode {
            if 0 < acc.remaining {
              acc := Decision(acc.blocked, p.limit, 0, resetSeconds);
            }
            continue;
          }
          if caching && (r.cost == 1 || count - r.cost >= p.limit) {
            st := st.(cache := st.cache[key := r.now + resetSeconds]);
          }
          return Decision(true, p.limit, 0, resetSeconds);
        }
        var remain := p.limit - count;
        if remain < acc.remaining {
          acc := Decision(acc.blocked, p.limit, remain, resetSeconds);
        }
      }
      decision := Finish(acc);
    }
  }

  /*** The policy that owns a key ***/

  predicate MatchesKey(p: Policy, values: seq<(string, string)>) {
    && |values| == |p.entries|
    && forall i | 0 <= i < |values| ::
         values[i].0 == p.entries[i].key && (p.entries[i].value != "" ==> p.entries[i].value == values[i].1)
  }

  /** The first policy, from index `i` on, that the values of a key match. */
  function Owner(policies: seq<Policy>, values: seq<(string, string)>, i: nat): Option<Policy>
    requires i <= |policies|
    decreases |policies| - i
  {
    if i == |policies| then None
    else if MatchesKey(policies[i], values) then Some(policies[i])
    else Owner(policies, values, i + 1)
  }

  /** Policies before `i` were either evaluated, and are remembered by dimension, or did not match. */
  ghost predicate Passed(policies: seq<Policy>, r: Request, i: nat, seen: set<seq<string>>) {
    i <= |policies| && forall j | 0 <= j < i :: Dimension(policies[j]) in seen || !Matches(policies[j], r.extracted)
  }

  lemma KeyMatchesOnlyItsDimension(p: Policy, q: Policy, r: Request)
    requires Matches(p, r.extracted)
    ensures MatchesKey(q, KeyOf(p, r.extracted, r.now).values) <==>
            Dimension(q) == Dimension(p) && Matches(q, r.extracted)
  {
    var values := KeyOf(p, r.extracted, r.now).values;
    if MatchesKey(q, values) {
      forall i | 0 <= i < |q.entries| ensures q.entries[i].key == p.entries[i].key {
        assert values[i].0 == q.entries[i].key;
      }
    } else if Dimension(q) == Dimension(p) && Matches(q, r.extracted) {
      assert |q.entries| == |Dimension(q)| == |p.entries|;
      forall i | 0 <= i < |q.entries| ensures q.entries[i].key == p.entries[i].key {
        assert Dimension(q)[i] == Dimension(p)[i];
      }
    }
  }

  /** The policy the loop charges a key to is the key's owner, whatever request asks. */
  lemma {:induction false} ChargedByOwner(policies: seq<Policy>, r: Request, i: nat, seen: set<seq<string>>, from: nat)
    requires Passed(policies, r, i, seen) && i < |policies| && from <= i
    requires Dimension(policies[i]) !in seen && Matches(policies[i], r.extracted)
    ensures Owner(policies, KeyOf(policies[i], r.extracted, r.now).values, from) == Some(policies[i])
    decreases i - from
  {
    hide KeyOf, MatchesKey, Dimension, Matches;
    KeyMatchesOnlyItsDimension(policies[i], policies[from], r);
    if from < i {
      ChargedByOwner(policies, r, i, seen, from + 1);
    }
  }

  /*** Refinement: with and without the cache ***/

  function WindowEnd(p: Policy, k: Key): int {
    k.window + RateUnits.Divider(p.unit)
  }

  lemma WindowArithmetic(p: Policy, extracted: map<string, string>, now: nat)
    requires Matches(p, extracted)
    ensures now < now + ResetSeconds(p, now) == WindowEnd(p, KeyOf(p, extracted, now))
  {
    var d := RateUnits.Divider(p.unit);
    assert now == d * (now / d) + now % d;
  }

  /** A key's counters agree, or the block it caused can no longer be told from the counter. */
  ghost predicate KeyAgrees(p: Policy, c: State, u: State, k: Key) {
    && (Count(c, k) == Count(u, k) || (!p.shadowMode && Count(c, k) >= p.limit && Count(u, k) >= p.limit))
    && (k in c.cache ==> !p.shadowMode && Count(u, k) >= p.limit)
    && (k in c.counters ==> c.counters[k].expiresAt >= WindowEnd(p, k))
    && (k in u.counters ==> u.counters[k].expiresAt >= WindowEnd(p, k))
  }

  ghost predicate Current(policies: seq<Policy>, k: Key, now: nat) {
    var owner := Owner(policies, k.values, 0);
    owner.Some? && now < WindowEnd(owner.value, k)
  }

  /** The cached and the uncached limiter agree on every key whose window is still open. */
  ghost predicate Agrees(policies: seq<Policy>, c: State, u: State, now: nat) {
    forall k | Current(policies, k, now) :: KeyAgrees(Owner(policies, k.values, 0).value, c, u, k)
  }

  lemma SweepAgrees(policies: seq<Policy>, c: State, u: State, before: nat, now: nat)
    requires Agrees(policies, c, u, before) && before <= now
    ensures Agrees(policies, Sweep(c, now), Sweep(u, now), now)
  {
    forall k | Current(policies, k, now)
      ensures KeyAgrees(Owner(policies, k.values, 0).value, Sweep(c, now), Sweep(u, now), k)
    {
      assert Current(policies, k, before);
    }
  }

  lemma ChargeAgrees(policies: seq<Policy>, p: Policy, c: State, u: State, r: Request, jc: nat, ju: nat, acc: Decision)
    requires Matches(p, r.extracted) && r.cost >= 1
    requires Owner(policies, KeyOf(p, r.extracted, r.now).values, 0) == Some(p)
    requires Agrees(policies, c, u, r.now)
    ensures var cached, uncached := Charge(p, true, c, r, jc, acc), Charge(p, false, u, r, ju, acc);
            && cached.acc == uncached.acc && cached.stop == uncached.stop
            && Agrees(policies, cached.st, uncached.st, r.now)
  {
    hide ResetSeconds, WindowEnd, KeyOf, Matches, Owner;
    var k := KeyOf(p, r.extracted, r.now);
    WindowArithmetic(p, r.extracted, r.now);
    assert Current(policies, k, r.now);
    var cached, uncached := Charge(p, true, c, r, jc, acc), Charge(p, false, u, r, ju, acc);
    assert KeyAgrees(p, c, u, k);
    assert KeyAgrees(p, cached.st, uncached.st, k);
    forall k' | Current(policies, k', r.now)
      ensures KeyAgrees(Owner(policies, k'.values, 0).value, cached.st, uncached.st, k')
    {
      assert KeyAgrees(Owner(policies, k'.values, 0).value, c, u, k');
    }
  }

  lemma {:induction false} LoopAgrees(policies: seq<Policy>, c: State, u: State, r: Request, jc: seq<nat>, ju: seq<nat>,
                                      i: nat, seen: set<seq<string>>, acc: Decision)
    requires Passed(policies, r, i, seen) && r.cost >= 1
    requires Agrees(policies, c, u, r.now)
    ensures var cached := EvaluatedFrom(policies, true, c, r, jc, i, seen, acc);
            var uncached := EvaluatedFrom(policies, false, u, r, ju, i, seen, acc);
            cached.1 == uncached.1 && Agrees(policies, cached.0, uncached.0, r.now)
    decreases |policies| - i
  {
    hide Agrees, Charge, Dimension, Matches, KeyOf, Finish, Owner, JitterAt;
    if i < |policies| {
      var p := policies[i];
      if Dimension(p) in seen || !Matches(p, r.extracted) {
        LoopAgrees(policies, c, u, r, jc, ju, i + 1, seen, acc);
      } else {
        ChargedByOwner(policies, r, i, seen, 0);
        ChargeAgrees(policies, p, c, u, r, JitterAt(jc, i), JitterAt(ju, i), acc);
        var cc, uu := Charge(p, true, c, r, JitterAt(jc, i), acc), Charge(p, false, u, r, JitterAt(ju, i), acc);
        if !cc.stop {
          LoopAgrees(policies, cc.st, uu.st, r, jc, ju, i + 1, seen + {Dimension(p)}, cc.acc);
        }
      }
    }
  }

  /*** Runs ***/

  /** A request, with the jitter each of the two limiters happens to draw, or a cache eviction. */
  datatype Event =
    | Ask(r: Request, cachedJitter: seq<nat>, uncachedJitter: seq<nat>)
    | Evict(keys: set<Key>)

  ghost predicate ValidRun(events: seq<Event>) {
    && (forall i | 0 <= i < |events| && events[i].Ask? :: events[i].r.cost >= 1)
    && (forall i, j | 0 <= i <= j < |events| && events[i].Ask? && events[j].Ask? :: events[i].r.now <= events[j].r.now)
  }

  function Jitter(e: Event, caching: bool): seq<nat>
    requires e.Ask?
  {
    if caching then e.cachedJitter else e.uncachedJitter
  }

  function After(policies: seq<Policy>, caching: bool, events: seq<Event>, n: nat): State
    requires n <= |events|
  {
    if n == 0 then State(map[], map[])
    else
      var st := After(policies, caching, events, n - 1);
      match events[n - 1]
      case Evict(keys) => st.(cache := st.cache - keys)
      case Ask(r, _, _) => Evaluated(policies, caching, st, r, Jitter(events[n - 1], caching)).0
  }

  function DecisionAt(policies: seq<Policy>, caching: bool, events: seq<Event>, k: nat): Decision
    requires k < |events| && events[k].Ask?
  {
    Evaluated(policies, caching, After(policies, caching, events, k), events[k].r, Jitter(events[k], caching)).1
  }

  lemma EvaluatedAgrees(policies: seq<Policy>, c: State, u: State, e: Event, before: nat)
    requires e.Ask? && e.r.cost >= 1 && before <= e.r.now && Agrees(policies, c, u, before)
    ensures var cached := Evaluated(policies, true, c, e.r, Jitter(e, true));
            var uncached := Evaluated(policies, false, u, e.r, Jitter(e, false));
            cached.1 == uncached.1 && Agrees(policies, cached.0, uncached.0, e.r.now)
  {
    hide Agrees, Sweep, EvaluatedFrom;
    SweepAgrees(policies, c, u, before, e.r.now);
    LoopAgrees(policies, Sweep(c, e.r.now), Sweep(u, e.r.now), e.r, Jitter(e, true), Jitter(e, false), 0, {}, START);
  }

  lemma {:induction false} RunsAgree(policies: seq<Policy>, events: seq<Event>, n: nat) returns (now: nat)
    requires ValidRun(events) && n <= |events|
    ensures Agrees(policies, After(policies, true, events, n), After(policies, false, events, n), now)
    ensures forall i | n <= i < |events| && events[i].Ask? :: now <= events[i].r.now
  {
    hide Agrees, Evaluated;
    if n == 0 {
      now := 0;
      EmptyAgrees(policies);
    } else {
      var before := RunsAgree(policies, events, n - 1);
      var c, u := After(policies, true, events, n - 1), After(policies, false, events, n - 1);
      match events[n - 1]
      case Evict(keys) =>
        now := before;
        EvictionAgrees(policies, c, u, keys, now);
      case Ask(r, _, _) =>
        now := r.now;
        EvaluatedAgrees(policies, c, u, events[n - 1], before);
    }
  }

  lemma EmptyAgrees(policies: seq<Policy>)
    ensures Agrees(policies, State(map[], map[]), State(map[], map[]), 0)
  {
  }

  lemma EvictionAgrees(policies: seq<Policy>, c: State, u: State, keys: set<Key>, now: nat)
    requires Agrees(policies, c, u, now)
    ensures Agrees(policies, c.(cache := c.cache - keys), u.(cache := u.cache - keys), now)
  {
    forall k | Current(policies, k, now)
      ensures KeyAgrees(Owner(policies, k.values, 0).value, c.(cache := c.cache - keys), u.(cache := u.cache - keys), k)
    {
      assert KeyAgrees(Owner(policies, k.values, 0).value, c, u, k);
    }
  }

  /**
   The cache is invisible: over every run, with any evictions and any jitter, every decision equals
   the one of the limiter without a cache.
   */
  lemma CacheIsInvisible(policies: seq<Policy>, events: seq<Event>, k: nat)
    requires ValidRun(events) && k < |events| && events[k].Ask?
    ensures DecisionAt(policies, true, events, k) == DecisionAt(policies, false, events, k)
  {
    hide Agrees, Evaluated, After;
    var before := RunsAgree(policies, events, k);
    EvaluatedAgrees(policies, After(policies, true, events, k), After(policies, false, events, k), events[k], before);
  }
}
