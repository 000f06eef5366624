/**
 What the fixed window limiter enforces, for any list of policies
 (internal/filters/rate_limiter/fixed_window.go).

 A request charges the first matching policy of every dimension, in order, until one blocks. The counter of a key is
 the total cost of the requests that got as far as its policy, and a request is blocked if and only if such a total,
 with its own cost, exceeds the limit of one of its enforced policies.
 */
module FixedWindowTotals {
  import opened Basics
  import opened FixedWindow

  /*** The policies a request charges ***/

  /** Policy `i` matches, and none before it of the same dimension does. */
  predicate Charges(policies: seq<Policy>, r: Request, i: nat) {
    && i < |policies| && Matches(policies[i], r.extracted)
    && forall j | 0 <= j < i :: Dimension(policies[j]) == Dimension(policies[i]) ==> !Matches(policies[j], r.extracted)
  }

  function KeyAt(policies: seq<Policy>, r: Request, i: nat): Key
    requires Charges(policies, r, i)
  {
    KeyOf(policies[i], r.extracted, r.now)
  }

  /** Some policy before `i` matches and has this dimension. */
  ghost predicate SomeMatch(policies: seq<Policy>, r: Request, i: nat, d: seq<string>)
    requires i <= |policies|
  {
    exists j | 0 <= j < i :: Dimension(policies[j]) == d && Matches(policies[j], r.extracted)
  }

  /** The dimensions remembered before policy `i` are those of earlier matching policies. */
  ghost predicate Remembers(policies: seq<Policy>, r: Request, i: nat, seen: set<seq<string>>) {
    && i <= |policies|
    && forall d :: d in seen <==> SomeMatch(policies, r, i, d)
  }

  lemma ChargesUnlessSeen(policies: seq<Policy>, r: Request, i: nat, seen: set<seq<string>>)
    requires Remembers(policies, r, i, seen) && i < |policies|
    ensures Charges(policies, r, i) <==> Dimension(policies[i]) !in seen && Matches(policies[i], r.extracted)
    ensures Remembers(policies, r, i + 1, if Charges(policies, r, i) then seen + {Dimension(policies[i])} else seen)
  {
    hide Dimension, Matches;
    var next := if Charges(policies, r, i) then seen + {Dimension(policies[i])} else seen;
    assert Dimension(policies[i]) in seen <==> SomeMatch(policies, r, i, Dimension(policies[i]));
    forall d ensures d in next <==> SomeMatch(policies, r, i + 1, d) {
      assert d in seen <==> SomeMatch(policies, r, i, d);
      if j :| 0 <= j < i && Dimension(policies[j]) == d && Matches(policies[j], r.extracted) {
        assert 0 <= j < i + 1;
      }
      if Matches(policies[i], r.extracted) && Dimension(policies[i]) == d {
        assert 0 <= i < i + 1;
      }
    }
  }

  /** Different policies are charged under different keys. */
  lemma KeysDiffer(policies: seq<Policy>, r: Request, i: nat, j: nat)
    requires Charges(policies, r, i) && Charges(policies, r, j) && i < j
    ensures KeyAt(policies, r, i) != KeyAt(policies, r, j)
  {
    DimensionOfKey(policies[i], r);
    DimensionOfKey(policies[j], r);
    assert Dimension(policies[i]) != Dimension(policies[j]);
  }

  function KeyDimension(k: Key): seq<string> {
    seq(|k.values|, i requires 0 <= i < |k.values| => k.values[i].0)
  }

  lemma DimensionOfKey(p: Policy, r: Request)
    requires Matches(p, r.extracted)
    ensures KeyDimension(KeyOf(p, r.extracted, r.now)) == Dimension(p)
  {
  }

  /** The owner of a charged key is the policy that charges it, and its window is open. */
  lemma ChargedKeyIsCurrent(policies: seq<Policy>, r: Request, i: nat)
    requires Charges(policies, r, i)
    ensures Owner(policies, KeyAt(policies, r, i).values, 0) == Some(policies[i])
    ensures Current(policies, KeyAt(policies, r, i), r.now)
    ensures r.now + ResetSeconds(policies[i], r.now) == WindowEnd(policies[i], KeyAt(policies, r, i))
  {
    hide Matches, Owner, KeyOf, WindowEnd, ResetSeconds;
    var seen := set j | 0 <= j < i && Matches(policies[j], r.extracted) :: Dimension(policies[j]);
    assert Passed(policies, r, i, seen);
    assert Dimension(policies[i]) !in seen;
    ChargedByOwner(policies, r, i, seen, 0);
    WindowArithmetic(policies[i], r.extracted, r.now);
  }

  /*** One request ***/

  /** With these counters, the enforced policy `i` blocks the request. */
  ghost predicate Exceeds(policies: seq<Policy>, st: State, r: Request, i: nat) {
    && Charges(policies, r, i) && !policies[i].shadowMode
    && Count(st, KeyAt(policies, r, i)) + r.cost > policies[i].limit
  }

  /** The request gets as far as policy `i`. */
  ghost predicate Reaches(policies: seq<Policy>, st: State, r: Request, i: nat) {
    Charges(policies, r, i) && forall j | 0 <= j < i :: !Exceeds(policies, st, r, j)
  }

  /** The request is counted under key `k` by some policy from `i` on. */
  ghost predicate Counted(policies: seq<Policy>, st: State, r: Request, i: nat, k: Key) {
    exists j | i <= j < |policies| && Reaches(policies, st, r, j) :: KeyAt(policies, r, j) == k
  }

  ghost predicate Blocks(policies: seq<Policy>, st: State, r: Request, i: nat) {
    exists j | i <= j < |policies| :: Exceeds(policies, st, r, j)
  }

  /** Keys from policy `i` on have not been charged yet. */
  ghost predicate Untouched(policies: seq<Policy>, st0: State, st: State, r: Request, i: nat) {
    forall j | i <= j < |policies| && Charges(policies, r, j) ::
      Count(st, KeyAt(policies, r, j)) == Count(st0, KeyAt(policies, r, j))
  }

  lemma ChargeCounts(p: Policy, st: State, r: Request, jitter: nat, acc: Decision)
    requires Matches(p, r.extracted)
    ensures var c, k := Charge(p, false, st, r, jitter, acc), KeyOf(p, r.extracted, r.now);
            var written := Counter(Count(st, k) + r.cost, r.now + ResetSeconds(p, r.now) + jitter);
            && c.st.counters == st.counters[k := written]
            && (c.stop <==> !p.shadowMode && Count(st, k) + r.cost > p.limit)
            && (c.stop ==> c.acc.blocked) && (!c.stop && !acc.blocked ==> !c.acc.blocked)
  {
    hide ResetSeconds, KeyOf;
  }

  /** How a key's counter lives on: unchanged, or written until at least the end of its window. */
  ghost predicate Lives(policies: seq<Policy>, before: State, after: State, k: Key) {
    var owner := Owner(policies, k.values, 0);
    k in after.counters ==>
      || (k in before.counters && after.counters[k] == before.counters[k])
      || (owner.Some? && after.counters[k].expiresAt >= WindowEnd(owner.value, k))
  }

  /** The loop from policy `i` on, seen through one key. */
  ghost predicate LoopTallies(policies: seq<Policy>, st0: State, st: State, r: Request, jitter: seq<nat>, i: nat,
                              seen: set<seq<string>>, acc: Decision, k: Key)
    requires i <= |policies|
  {
    var (end, decision) := EvaluatedFrom(policies, false, st, r, jitter, i, seen, acc);
    && (decision.blocked <==> Blocks(policies, st0, r, i))
    && Count(end, k) == Count(st, k) + (if Counted(policies, st0, r, i, k) then r.cost else 0)
    && Lives(policies, st, end, k)
  }

  lemma {:induction false} LoopCountsReached(policies: seq<Policy>, st0: State, st: State, r: Request, jitter: seq<nat>,
                                             i: nat, seen: set<seq<string>>, acc: Decision, k: Key)
    requires Remembers(policies, r, i, seen) && !acc.blocked && Untouched(policies, st0, st, r, i)
    requires forall j | 0 <= j < i :: !Exceeds(policies, st0, r, j)
    ensures LoopTallies(policies, st0, st, r, jitter, i, seen, acc, k)
    decreases |policies| - i
  {
    assert i <= |policies|;
    hide Charges, Charge, Dimension, Matches, Remembers, Owner, WindowEnd, KeyAt;
    if i < |policies| {
      ChargesUnlessSeen(policies, r, i, seen);
      if Charges(policies, r, i) {
        hide LoopTallies, Untouched, Exceeds, JitterAt;
        var c := Charge(policies[i], false, st, r, JitterAt(jitter, i), acc);
        ChargedHere(policies, st0, st, r, JitterAt(jitter, i), i, acc);
        if c.stop {
          StopsHere(policies, st0, st, r, jitter, i, seen, acc, k);
        } else {
          LoopCountsReached(policies, st0, c.st, r, jitter, i + 1, seen + {Dimension(policies[i])}, c.acc, k);
          GoesOn(policies, st0, st, r, jitter, i, seen, acc, k);
        }
      } else {
        hide LoopTallies, Untouched, Exceeds;
        NotExceeded(policies, st0, st, r, i);
        LoopCountsReached(policies, st0, st, r, jitter, i + 1, seen, acc, k);
        SkipsHere(policies, st0, st, r, jitter, i, seen, acc, k);
      }
    }
  }

  lemma NotExceeded(policies: seq<Policy>, st0: State, st: State, r: Request, i: nat)
    requires !Charges(policies, r, i) && Untouched(policies, st0, st, r, i)
    ensures !Exceeds(policies, st0, r, i) && Untouched(policies, st0, st, r, i + 1)
  {
    hide Charges, KeyAt;
  }

  lemma SkipsHere(policies: seq<Policy>, st0: State, st: State, r: Request, jitter: seq<nat>, i: nat,
                  seen: set<seq<string>>, acc: Decision, k: Key)
    requires i < |policies| && !Charges(policies, r, i)
    requires Dimension(policies[i]) in seen || !Matches(policies[i], r.extracted)
    requires LoopTallies(policies, st0, st, r, jitter, i + 1, seen, acc, k)
    ensures LoopTallies(policies, st0, st, r, jitter, i, seen, acc, k)
  {
    hide Charges, KeyAt, Charge, Dimension, Matches, Lives;
    assert Blocks(policies, st0, r, i) <==> Blocks(policies, st0, r, i + 1);
    assert Counted(policies, st0, r, i, k) <==> Counted(policies, st0, r, i + 1, k);
    hide Blocks, Counted;
  }

  /** Charging policy `i` blocks exactly if it is exceeded, and leaves later keys alone. */
  lemma ChargedHere(policies: seq<Policy>, st0: State, st: State, r: Request, jitter: nat, i: nat, acc: Decision)
    requires Charges(policies, r, i) && Untouched(policies, st0, st, r, i) && !acc.blocked
    ensures var c := Charge(policies[i], false, st, r, jitter, acc);
            && (c.stop <==> Exceeds(policies, st0, r, i))
            && (c.acc.blocked <==> c.stop)
            && Untouched(policies, st0, c.st, r, i + 1)
  {
    hide Charge, ResetSeconds;
    ChargeCounts(policies[i], st, r, jitter, acc);
    var c := Charge(policies[i], false, st, r, jitter, acc);
    forall j | i + 1 <= j < |policies| && Charges(policies, r, j)
      ensures Count(c.st, KeyAt(policies, r, j)) == Count(st0, KeyAt(policies, r, j))
    {
      KeysDiffer(policies, r, i, j);
    }
  }

  /** What charging policy `i` does to one key. */
  lemma ChargedKey(policies: seq<Policy>, st: State, r: Request, jitter: nat, i: nat, acc: Decision, k: Key)
    requires Charges(policies, r, i)
    ensures var c := Charge(policies[i], false, st, r, jitter, acc);
            && Count(c.st, k) == Count(st, k) + (if KeyAt(policies, r, i) == k then r.cost else 0)
            && Lives(policies, st, c.st, k)
  {
    hide Charge, ResetSeconds, WindowEnd, Owner;
    ChargeCounts(policies[i], st, r, jitter, acc);
    ChargedKeyIsCurrent(policies, r, i);
  }

  lemma StopsHere(policies: seq<Policy>, st0: State, st: State, r: Request, jitter: seq<nat>, i: nat,
                  seen: set<seq<string>>, acc: Decision, k: Key)
    requires Charges(policies, r, i) && Exceeds(policies, st0, r, i) && Dimension(policies[i]) !in seen
    requires Matches(policies[i], r.extracted) && forall j | 0 <= j < i :: !Exceeds(policies, st0, r, j)
    requires var c := Charge(policies[i], false, st, r, JitterAt(jitter, i), acc); c.stop && c.acc.blocked
    ensures LoopTallies(policies, st0, st, r, jitter, i, seen, acc, k)
  {
    ChargedKey(policies, st, r, JitterAt(jitter, i), i, acc, k);
    hide Charge, Charges, Exceeds, KeyAt, Dimension, Matches, Lives;
    assert Reaches(policies, st0, r, i);
    assert Counted(policies, st0, r, i, k) <==> KeyAt(policies, r, i) == k by {
      assert forall j | i < j < |policies| :: !Reaches(policies, st0, r, j);
    }
  }

  lemma GoesOn(policies: seq<Policy>, st0: State, st: State, r: Request, jitter: seq<nat>, i: nat,
               seen: set<seq<string>>, acc: Decision, k: Key)
    requires Charges(policies, r, i) && !Exceeds(policies, st0, r, i) && Dimension(policies[i]) !in seen
    requires Matches(policies[i], r.extracted) && forall j | 0 <= j < i :: !Exceeds(policies, st0, r, j)
    requires var c := Charge(policies[i], false, st, r, JitterAt(jitter, i), acc);
             && !c.stop
             && LoopTallies(policies, st0, c.st, r, jitter, i + 1, seen + {Dimension(policies[i])}, c.acc, k)
    ensures LoopTallies(policies, st0, st, r, jitter, i, seen, acc, k)
  {
    ChargedKey(policies, st, r, JitterAt(jitter, i), i, acc, k);
    var c := Charge(policies[i], false, st, r, JitterAt(jitter, i), acc);
    var end := EvaluatedFrom(policies, false, c.st, r, jitter, i + 1, seen + {Dimension(policies[i])}, c.acc).0;
    assert Lives(policies, st, end, k);
    CountedHereOrLater(policies, st0, r, i, k);
    hide Charge, Charges, Exceeds, KeyAt, Dimension, Matches, Lives, Counted;
    assert Reaches(policies, st0, r, i);
    assert Blocks(policies, st0, r, i) <==> Blocks(policies, st0, r, i + 1);
  }

  /** A key is counted by this policy or by a later one, never by both. */
  lemma CountedHereOrLater(policies: seq<Policy>, st0: State, r: Request, i: nat, k: Key)
    requires Reaches(policies, st0, r, i)
    ensures Counted(policies, st0, r, i, k) <==> KeyAt(policies, r, i) == k || Counted(policies, st0, r, i + 1, k)
    ensures !(KeyAt(policies, r, i) == k && Counted(policies, st0, r, i + 1, k))
  {
    hide KeyAt;
    if j :| i + 1 <= j < |policies| && Reaches(policies, st0, r, j) && KeyAt(policies, r, j) == k {
      KeysDiffer(policies, r, i, j);
    }
  }

  /*** Histories ***/

  /** The total cost, in the first `n` events, of the requests counted under key `k`; no limiter is mentioned. */
  ghost function Total(policies: seq<Policy>, events: seq<Event>, k: Key, n: nat): nat
    requires n <= |events|
    decreases n, 1
  {
    if n == 0 then 0
    else Total(policies, events, k, n - 1) + (if CountedAt(policies, events, n - 1, k) then events[n - 1].r.cost else 0)
  }

  /** By the totals so far, the enforced policy `i` blocks request `n`. */
  ghost predicate TotalExceeds(policies: seq<Policy>, events: seq<Event>, n: nat, i: nat)
    requires n < |events| && events[n].Ask?
    decreases n, 2
  {
    && Charges(policies, events[n].r, i) && !policies[i].shadowMode
    && Total(policies, events, KeyAt(policies, events[n].r, i), n) + events[n].r.cost > policies[i].limit
  }

  /** Request `n` gets as far as the policy that owns `k`. */
  ghost predicate CountedAt(policies: seq<Policy>, events: seq<Event>, n: nat, k: Key)
    requires n < |events|
    decreases n, 3
  {
    events[n].Ask? && exists j | 0 <= j < |policies| && Charges(policies, events[n].r, j) ::
      && KeyAt(policies, events[n].r, j) == k
      && forall i | 0 <= i < j :: !TotalExceeds(policies, events, n, i)
  }

  /** The counters of open windows are the totals. */
  ghost predicate Tallies(policies: seq<Policy>, events: seq<Event>, n: nat, st: State, now: nat)
    requires n <= |events|
  {
    forall k | Current(policies, k, now) ::
      && Count(st, k) == Total(policies, events, k, n)
      && (k in st.counters ==> st.counters[k].expiresAt >= WindowEnd(Owner(policies, k.values, 0).value, k))
  }

  lemma SweepTallies(policies: seq<Policy>, events: seq<Event>, n: nat, st: State, before: nat, now: nat)
    requires n <= |events| && Tallies(policies, events, n, st, before) && before <= now
    ensures Tallies(policies, events, n, Sweep(st, now), now)
  {
    forall k | Current(policies, k, now)
      ensures Count(Sweep(st, now), k) == Total(policies, events, k, n)
      ensures k in Sweep(st, now).counters ==>
                Sweep(st, now).counters[k].expiresAt >= WindowEnd(Owner(policies, k.values, 0).value, k)
    {
      assert Current(policies, k, before);
    }
  }

  /** By the totals so far, some enforced policy blocks request `n`. */
  ghost predicate SomeTotalExceeds(policies: seq<Policy>, events: seq<Event>, n: nat)
    requires n < |events| && events[n].Ask?
  {
    exists i | 0 <= i < |policies| :: TotalExceeds(policies, events, n, i)
  }

  lemma ExceedsAlike(policies: seq<Policy>, events: seq<Event>, n: nat, st: State, i: nat)
    requires n < |events| && events[n].Ask? && Tallies(policies, events, n, st, events[n].r.now)
    ensures Exceeds(policies, st, events[n].r, i) <==> TotalExceeds(policies, events, n, i)
  {
    hide Charges, KeyAt, Total, Current, Owner, WindowEnd;
    var r := events[n].r;
    if Charges(policies, r, i) {
      ChargedKeyIsCurrent(policies, r, i);
      assert Count(st, KeyAt(policies, r, i)) == Total(policies, events, KeyAt(policies, r, i), n);
    }
  }

  /** Where counters are totals, a request is blocked and counted as the totals say. */
  lemma TotalsDecide(policies: seq<Policy>, events: seq<Event>, n: nat, st: State, k: Key)
    requires n < |events| && events[n].Ask? && Tallies(policies, events, n, st, events[n].r.now)
    ensures Blocks(policies, st, events[n].r, 0) <==> SomeTotalExceeds(policies, events, n)
    ensures Counted(policies, st, events[n].r, 0, k) <==> CountedAt(policies, events, n, k)
  {
    hide Charges, KeyAt, Tallies, Exceeds;
    var r := events[n].r;
    forall i: nat ensures Exceeds(policies, st, r, i) <==> TotalExceeds(policies, events, n, i) {
      ExceedsAlike(policies, events, n, st, i);
    }
    if Blocks(policies, st, r, 0) {
      var j :| 0 <= j < |policies| && Exceeds(policies, st, r, j);
      assert TotalExceeds(policies, events, n, j);
    }
    if SomeTotalExceeds(policies, events, n) {
      var j :| 0 <= j < |policies| && TotalExceeds(policies, events, n, j);
      assert Exceeds(policies, st, r, j);
    }
  }

  /** One request keeps the counters equal to the totals. */
  lemma RequestTallies(policies: seq<Policy>, events: seq<Event>, n: nat, st: State, before: nat)
    requires n < |events| && events[n].Ask? && Tallies(policies, events, n, st, before) && before <= events[n].r.now
    ensures var (end, decision) := Evaluated(policies, false, st, events[n].r, Jitter(events[n], false));
            && Tallies(policies, events, n + 1, end, events[n].r.now)
            && (decision.blocked <==> SomeTotalExceeds(policies, events, n))
  {
    hide EvaluatedFrom, Total, SomeTotalExceeds, CountedAt, Owner, WindowEnd, Sweep, Blocks, Counted;
    var r, swept, jitter := events[n].r, Sweep(st, events[n].r.now), Jitter(events[n], false);
    SweepTallies(policies, events, n, st, before, r.now);
    var (end, decision) := Evaluated(policies, false, st, r, jitter);
    assert Remembers(policies, r, 0, {}) && Untouched(policies, swept, swept, r, 0);
    forall k | Current(policies, k, r.now)
      ensures Count(end, k) == Total(policies, events, k, n + 1)
      ensures k in end.counters ==> end.counters[k].expiresAt >= WindowEnd(Owner(policies, k.values, 0).value, k)
    {
      LoopCountsReached(policies, swept, swept, r, jitter, 0, {}, START, k);
      TotalsDecide(policies, events, n, swept, k);
      TotalNext(policies, events, k, n);
    }
    var k := Key([], 0);
    LoopCountsReached(policies, swept, swept, r, jitter, 0, {}, START, k);
    TotalsDecide(policies, events, n, swept, k);
  }

  lemma TotalNext(policies: seq<Policy>, events: seq<Event>, k: Key, n: nat)
    requires n < |events|
    ensures Total(policies, events, k, n + 1) ==
            Total(policies, events, k, n) + (if CountedAt(policies, events, n, k) then events[n].r.cost else 0)
  {
  }

  /** Along every run, with any jitter, the counter of every open window is its total. */
  lemma {:induction false} CounterIsTotal(policies: seq<Policy>, events: seq<Event>, n: nat) returns (now: nat)
    requires ValidRun(events) && n <= |events|
    ensures Tallies(policies, events, n, After(policies, false, events, n), now)
    ensures forall i | n <= i < |events| && events[i].Ask? :: now <= events[i].r.now
  {
    hide Evaluated, Current, Owner, WindowEnd;
    if n == 0 {
      now := 0;
    } else {
      var before := CounterIsTotal(policies, events, n - 1);
      var st := After(policies, false, events, n - 1);
      match events[n - 1]
      case Evict(keys) =>
        now := before;
        EvictionTallies(policies, events, n - 1, st, keys, now);
      case Ask(r, _, _) =>
        now := r.now;
        RequestTallies(policies, events, n - 1, st, before);
    }
  }

  lemma EvictionTallies(policies: seq<Policy>, events: seq<Event>, n: nat, st: State, keys: set<Key>, now: nat)
    requires n < |events| && events[n].Evict? && Tallies(policies, events, n, st, now)
    ensures Tallies(policies, events, n + 1, st.(cache := st.cache - keys), now)
  {
    hide Current, Owner, WindowEnd;
    forall k | Current(policies, k, now) ensures Total(policies, events, k, n + 1) == Total(policies, events, k, n) {
      TotalNext(policies, events, k, n);
    }
    hide Total;
  }

  /**
   For any list of policies, with or without the cache, a request is blocked if and only if for one of the enforced
   policies it charges the total of the window, with its own cost, exceeds the limit.
   */
  lemma BlockedIffSomeTotalExceedsLimit(policies: seq<Policy>, caching: bool, events: seq<Event>, n: nat)
    requires ValidRun(events) && n < |events| && events[n].Ask?
    ensures DecisionAt(policies, caching, events, n).blocked <==> SomeTotalExceeds(policies, events, n)
  {
    hide Evaluated, Tallies, SomeTotalExceeds, After;
    CacheIsInvisible(policies, events, n);
    var before := CounterIsTotal(policies, events, n);
    RequestTallies(policies, events, n, After(policies, false, events, n), before);
  }
}
