/**
 What the fixed window limiter reports (internal/filters/rate_limiter/fixed_window.go): the limit, the remaining quota
 and the time to the end of the window, of the policy that blocks or that has the least left.
 */
module FixedWindowReports {
  import opened Basics
  import opened FixedWindow
  import opened FixedWindowTotals
  import RateUnits

  /*** One request ***/

  /** What is left of a quota after these costs. */
  function Left(p: Policy, spent: nat): nat {
    if spent <= p.limit then p.limit - spent else 0
  }

  function LeftAt(policies: seq<Policy>, st: State, r: Request, i: nat): nat
    requires Charges(policies, r, i)
  {
    Left(policies[i], Count(st, KeyAt(policies, r, i)) + r.cost)
  }

  /** The decision reports policy `i`. */
  ghost predicate Reports(policies: seq<Policy>, r: Request, i: nat, d: Decision)
    requires i < |policies|
  {
    d.limit == policies[i].limit && d.reset == ResetSeconds(policies[i], r.now)
  }

  /** The running decision has the least left of the policies charged before `i`. */
  ghost predicate HasLeast(policies: seq<Policy>, st: State, r: Request, i: nat, d: Decision) {
    && !d.blocked && i <= |policies|
    && (forall j: nat | j < i && Charges(policies, r, j) :: d.remaining <= LeftAt(policies, st, r, j))
    && (|| (d.remaining == MAX_UINT32 && d.limit == 0 && d.reset == 0)
        || exists j: nat | j < i && Charges(policies, r, j) ::
             d.remaining == LeftAt(policies, st, r, j) < MAX_UINT32 && Reports(policies, r, j, d))
  }

  /** Policy `j` is the first that blocks, and the decision reports it with nothing left. */
  ghost predicate ReportsBlock(policies: seq<Policy>, st: State, r: Request, i: nat, d: Decision) {
    d.blocked && d.remaining == 0 && exists j: nat | i <= j < |policies| && Exceeds(policies, st, r, j) ::
      Reports(policies, r, j, d) && forall k | i <= k < j :: !Exceeds(policies, st, r, k)
  }

  lemma ChargeReports(policies: seq<Policy>, st0: State, st: State, r: Request, jitter: nat, i: nat, acc: Decision)
    requires Charges(policies, r, i) && Untouched(policies, st0, st, r, i) && HasLeast(policies, st0, r, i, acc)
    ensures var c := Charge(policies[i], false, st, r, jitter, acc);
            if c.stop then c.acc.blocked && c.acc.remaining == 0 && Reports(policies, r, i, c.acc)
            else HasLeast(policies, st0, r, i + 1, c.acc)
  {
    hide ResetSeconds, Charges, KeyOf, Exceeds;
    ChargesMatches(policies, r, i);
    var c := Charge(policies[i], false, st, r, jitter, acc);
    var left := LeftAt(policies, st0, r, i);
    assert Count(st, KeyAt(policies, r, i)) == Count(st0, KeyAt(policies, r, i));
    if !c.stop {
      assert c.acc == Tighten(acc, policies[i], left, r.now);
      hide Charge, LeftAt;
      if left < acc.remaining {
        assert c.acc.remaining == LeftAt(policies, st0, r, i) < MAX_UINT32 && Reports(policies, r, i, c.acc);
      } else if j: nat :| j < i && Charges(policies, r, j)
                          && acc.remaining == LeftAt(policies, st0, r, j) < MAX_UINT32 && Reports(policies, r, j, acc) {
        assert j < i + 1;
      }
    }
  }

  lemma ChargesMatches(policies: seq<Policy>, r: Request, i: nat)
    requires Charges(policies, r, i)
    ensures i < |policies| && Matches(policies[i], r.extracted)
    ensures KeyAt(policies, r, i) == KeyOf(policies[i], r.extracted, r.now)
  {
  }

  /** What the loop reports in the end. */
  ghost predicate LoopReports(policies: seq<Policy>, st: State, r: Request, i: nat, d: Decision) {
    if Blocks(policies, st, r, i) then ReportsBlock(policies, st, r, i, d)
    else
      || (HasLeast(policies, st, r, |policies|, d) && d.remaining < MAX_UINT32)
      || (d == Decision(false, 0, 0, 0) && HasLeast(policies, st, r, |policies|, START))
  }

  lemma {:induction false} LoopReportsLeast(policies: seq<Policy>, st0: State, st: State, r: Request, jitter: seq<nat>,
                                            i: nat, seen: set<seq<string>>, acc: Decision)
    requires Remembers(policies, r, i, seen) && Untouched(policies, st0, st, r, i)
    requires HasLeast(policies, st0, r, i, acc)
    ensures LoopReports(policies, st0, r, i, EvaluatedFrom(policies, false, st, r, jitter, i, seen, acc).1)
    decreases |policies| - i
  {
    hide Charges, Charge, Dimension, Matches, Remembers, KeyAt, HasLeast, JitterAt, Exceeds, Untouched, Reports;
    HasLeastBounds(policies, st0, r, i, acc);
    if i == |policies| {
      FinishReports(policies, st0, r, acc);
    } else {
      ChargesUnlessSeen(policies, r, i, seen);
      if Charges(policies, r, i) {
        var c := Charge(policies[i], false, st, r, JitterAt(jitter, i), acc);
        ChargedHere(policies, st0, st, r, JitterAt(jitter, i), i, acc);
        ChargeReports(policies, st0, st, r, JitterAt(jitter, i), i, acc);
        if c.stop {
          assert Exceeds(policies, st0, r, i);
        } else {
          LoopReportsLeast(policies, st0, c.st, r, jitter, i + 1, seen + {Dimension(policies[i])}, c.acc);
          FromNext(policies, st0, r, i, EvaluatedFrom(policies, false, st, r, jitter, i, seen, acc).1);
        }
      } else {
        NotExceeded(policies, st0, st, r, i);
        SkipKeepsLeast(policies, st0, r, i, acc);
        LoopReportsLeast(policies, st0, st, r, jitter, i + 1, seen, acc);
        FromNext(policies, st0, r, i, EvaluatedFrom(policies, false, st, r, jitter, i, seen, acc).1);
      }
    }
  }

  lemma HasLeastBounds(policies: seq<Policy>, st: State, r: Request, i: nat, d: Decision)
    requires HasLeast(policies, st, r, i, d)
    ensures !d.blocked && i <= |policies|
  {
  }

  lemma SkipKeepsLeast(policies: seq<Policy>, st: State, r: Request, i: nat, d: Decision)
    requires HasLeast(policies, st, r, i, d) && i < |policies| && !Charges(policies, r, i)
    ensures HasLeast(policies, st, r, i + 1, d)
  {
    hide Charges, LeftAt, Reports;
    if j: nat :| j < i && Charges(policies, r, j)
                 && d.remaining == LeftAt(policies, st, r, j) < MAX_UINT32 && Reports(policies, r, j, d) {
      assert j < i + 1;
    }
  }

  /** A policy that does not block changes nothing about what is reported later. */
  lemma FromNext(policies: seq<Policy>, st: State, r: Request, i: nat, d: Decision)
    requires i < |policies| && !Exceeds(policies, st, r, i) && LoopReports(policies, st, r, i + 1, d)
    ensures LoopReports(policies, st, r, i, d)
  {
    hide Exceeds, Reports, HasLeast;
    assert Blocks(policies, st, r, i) <==> Blocks(policies, st, r, i + 1);
    if Blocks(policies, st, r, i + 1) {
      var j: nat :| i + 1 <= j < |policies| && Exceeds(policies, st, r, j) && Reports(policies, r, j, d)
                    && forall k | i + 1 <= k < j :: !Exceeds(policies, st, r, k);
      assert i <= j && forall k | i <= k < j :: !Exceeds(policies, st, r, k);
    }
  }

  lemma FinishReports(policies: seq<Policy>, st: State, r: Request, acc: Decision)
    requires HasLeast(policies, st, r, |policies|, acc)
    ensures LoopReports(policies, st, r, |policies|, Finish(acc))
  {
    hide Charges, LeftAt, Reports;
    assert !Blocks(policies, st, r, |policies|);
    if acc.remaining == MAX_UINT32 {
      assert HasLeast(policies, st, r, |policies|, START);
    }
  }

  /*** What is kept ***/

  /** Nothing is kept past its time. */
  ghost predicate AllLive(st: State, now: nat) {
    (forall k | k in st.counters :: now < st.counters[k].expiresAt) && forall k | k in st.cache :: now < st.cache[k]
  }

  lemma ResetIsAhead(p: Policy, now: nat)
    ensures ResetSeconds(p, now) >= 1
  {
  }

  lemma {:induction false} LoopKeepsLive(policies: seq<Policy>, caching: bool, st: State, r: Request, jitter: seq<nat>,
                                         i: nat, seen: set<seq<string>>, acc: Decision)
    requires i <= |policies| && AllLive(st, r.now)
    ensures AllLive(EvaluatedFrom(policies, caching, st, r, jitter, i, seen, acc).0, r.now)
    decreases |policies| - i
  {
    hide Dimension, Matches, KeyOf, ResetSeconds, Finish;
    if i < |policies| {
      ResetIsAhead(policies[i], r.now);
      if Dimension(policies[i]) in seen || !Matches(policies[i], r.extracted) {
        LoopKeepsLive(policies, caching, st, r, jitter, i + 1, seen, acc);
      } else {
        var c := Charge(policies[i], caching, st, r, JitterAt(jitter, i), acc);
        assert AllLive(c.st, r.now);
        hide Charge;
        if !c.stop {
          LoopKeepsLive(policies, caching, c.st, r, jitter, i + 1, seen + {Dimension(policies[i])}, c.acc);
        }
      }
    }
  }

  /** After a request neither Redis nor the cache holds a key past its time. */
  lemma NothingStaleIsKept(policies: seq<Policy>, caching: bool, st: State, r: Request, jitter: seq<nat>)
    ensures AllLive(Evaluated(policies, caching, st, r, jitter).0, r.now)
  {
    LoopKeepsLive(policies, caching, Sweep(st, r.now), r, jitter, 0, {}, START);
  }

  /**
   A block is cached exactly when an enforced policy is exceeded by a request of cost one or was exhausted before it. A
   cached key blocks to the end of its window and is not charged.
   */
  lemma CachedIffExhausted(p: Policy, st: State, r: Request, jitter: nat, acc: Decision)
    requires Matches(p, r.extracted)
    ensures var k, c := KeyOf(p, r.extracted, r.now), Charge(p, true, st, r, jitter, acc);
            && (k !in st.cache ==>
                  (k in c.st.cache <==>
                   && !p.shadowMode && Count(st, k) + r.cost > p.limit
                   && (r.cost == 1 || Count(st, k) >= p.limit)))
            && (k !in st.cache && k in c.st.cache ==> c.st.cache[k] == r.now + ResetSeconds(p, r.now))
            && (k in st.cache ==> c.st == st && c.stop && c.acc.blocked)
            && c.st.cache - {k} == st.cache - {k}
  {
    hide KeyOf, ResetSeconds;
  }

  /*** Histories ***/

  /** So many seconds from now, and not before, the policy's window ends. */
  ghost predicate EndsWindow(p: Policy, now: nat, reset: int) {
    var d := RateUnits.Divider(p.unit);
    1 <= reset <= d && StartsWindow(now + reset, d)
  }

  ghost predicate StartsWindow(time: int, d: int) {
    exists q :: IsMultiple(time, d, q)
  }

  ghost predicate IsMultiple(x: int, d: int, q: int) {
    x == d * q
  }

  lemma ResetEndsWindow(p: Policy, now: nat)
    ensures EndsWindow(p, now, ResetSeconds(p, now))
  {
    var d := RateUnits.Divider(p.unit);
    assert now == d * (now / d) + now % d;
    assert IsMultiple(now + ResetSeconds(p, now), d, now / d + 1);
  }

  /** What is left of policy `i` once request `n` is counted, by the totals so far. */
  ghost function TotalLeft(policies: seq<Policy>, events: seq<Event>, n: nat, i: nat): nat
    requires n < |events| && events[n].Ask? && Charges(policies, events[n].r, i)
  {
    Left(policies[i], Total(policies, events, KeyAt(policies, events[n].r, i), n) + events[n].r.cost)
  }

  /** The decision names policy `j`: its limit, and the end of its window. */
  ghost predicate Tells(policies: seq<Policy>, now: nat, j: nat, d: Decision)
    requires j < |policies|
  {
    d.limit == policies[j].limit && EndsWindow(policies[j], now, d.reset)
  }

  /** The request is let through, and the report is of the policy with the least left, if any is charged. */
  ghost predicate TellsLeast(policies: seq<Policy>, events: seq<Event>, n: nat, d: Decision)
    requires n < |events| && events[n].Ask?
  {
    var r := events[n].r;
    && !d.blocked
    && (|| (d == Decision(false, 0, 0, 0) && forall j: nat | Charges(policies, r, j) ::
              TotalLeft(policies, events, n, j) >= MAX_UINT32)
        || (&& (forall j: nat | Charges(policies, r, j) :: d.remaining <= TotalLeft(policies, events, n, j))
            && exists j: nat | Charges(policies, r, j) ::
                 d.remaining == TotalLeft(policies, events, n, j) && Tells(policies, r.now, j, d)))
  }

  /** The request is blocked by the first policy it exceeds, and the report is of that one. */
  ghost predicate TellsBlock(policies: seq<Policy>, events: seq<Event>, n: nat, d: Decision)
    requires n < |events| && events[n].Ask?
  {
    d.blocked && d.remaining == 0 && exists j: nat | j < |policies| && TotalExceeds(policies, events, n, j) ::
      Tells(policies, events[n].r.now, j, d) && forall k | 0 <= k < j :: !TotalExceeds(policies, events, n, k)
  }

  lemma LeftIsTotal(policies: seq<Policy>, events: seq<Event>, n: nat, st: State, i: nat)
    requires n < |events| && events[n].Ask? && Tallies(policies, events, n, st, events[n].r.now)
    requires Charges(policies, events[n].r, i)
    ensures LeftAt(policies, st, events[n].r, i) == TotalLeft(policies, events, n, i)
  {
    hide Charges, KeyAt, Total, Current, Owner, WindowEnd;
    ChargedKeyIsCurrent(policies, events[n].r, i);
  }

  lemma ReportsAreTold(policies: seq<Policy>, events: seq<Event>, n: nat, st: State, d: Decision)
    requires n < |events| && events[n].Ask? && Tallies(policies, events, n, st, events[n].r.now)
    requires LoopReports(policies, st, events[n].r, 0, d)
    ensures if SomeTotalExceeds(policies, events, n) then TellsBlock(policies, events, n, d)
            else TellsLeast(policies, events, n, d)
  {
    hide Charges, LeftAt, TotalLeft, Tallies, Exceeds, TotalExceeds, ResetSeconds, EndsWindow;
    var r := events[n].r;
    TotalsDecide(policies, events, n, st, Key([], 0));
    forall i: nat ensures Exceeds(policies, st, r, i) <==> TotalExceeds(policies, events, n, i) {
      ExceedsAlike(policies, events, n, st, i);
    }
    forall i: nat | i < |policies| ensures EndsWindow(policies[i], r.now, ResetSeconds(policies[i], r.now)) {
      ResetEndsWindow(policies[i], r.now);
    }
    forall i: nat | Charges(policies, r, i)
      ensures i < |policies| && LeftAt(policies, st, r, i) == TotalLeft(policies, events, n, i)
    {
      ChargesMatches(policies, r, i);
      LeftIsTotal(policies, events, n, st, i);
    }
  }

  /**
   Over every run, for any list of policies, with or without the cache: a block reports the first policy exceeded, with
   nothing left; any other decision reports the charged policy with the least left. Both say when its window ends.
   */
  lemma DecisionsTellTheTruth(policies: seq<Policy>, caching: bool, events: seq<Event>, n: nat)
    requires ValidRun(events) && n < |events| && events[n].Ask?
    ensures var d := DecisionAt(policies, caching, events, n);
            if SomeTotalExceeds(policies, events, n) then TellsBlock(policies, events, n, d)
            else TellsLeast(policies, events, n, d)
  {
    hide EvaluatedFrom, Tallies, SomeTotalExceeds, After, TellsBlock, TellsLeast, LoopReports;
    CacheIsInvisible(policies, events, n);
    var before := CounterIsTotal(policies, events, n);
    var r, st := events[n].r, After(policies, false, events, n);
    SweepTallies(policies, events, n, st, before, r.now);
    var swept := Sweep(st, r.now);
    hide Sweep;
    assert Remembers(policies, r, 0, {}) && Untouched(policies, swept, swept, r, 0);
    assert HasLeast(policies, swept, r, 0, START);
    LoopReportsLeast(policies, swept, swept, r, Jitter(events[n], false), 0, {}, START);
    ReportsAreTold(policies, events, n, swept, DecisionAt(policies, false, events, n));
  }
}
