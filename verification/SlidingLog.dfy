/**
 Sliding window log rate limiting (internal/filters/rate_limiter/sliding_window_log.go).

 The script keeps a sorted set of members, one per admitted request unless two requests bring the same member.
 `SlidingLogStore.Eval` follows the Lua body; the lemmas prove that, whatever was trimmed or expired on the way, a
 request is admitted exactly when fewer than `limit` members were admitted in the window before it, and so no window
 anywhere holds more. Requests with members of their own are counted one by one. Times are Unix milliseconds.
 */
module SlidingLog {
  import opened Basics

  /** A member id: the request's microsecond timestamp joined with its request id or a counter. */
  datatype Member = Member(micros: int, tag: string)

  /** A sorted set (member to score) and the moment its key expires. */
  datatype Log = Log(entries: map<Member, int>, expiresAt: int)

  datatype Reply = Admitted(remaining: int) | Denied(reset: int)

  datatype Request = Request(now: nat, member: Member)

  /** EXPIRE argument: whole seconds covering the window. */
  function ExpireSeconds(window: nat): (s: nat)
    ensures window <= s * 1000 < window + 1000
  {
    (window + 999) / 1000
  }

  /** ZREMRANGEBYSCORE key 0 (now - window). */
  function Trim(entries: map<Member, int>, now: int, window: nat): map<Member, int> {
    map m | m in entries && !(0 <= entries[m] <= now - window) :: entries[m]
  }

  ghost predicate IsOldest(entries: map<Member, int>, s: int) {
    && (exists m | m in entries :: entries[m] == s)
    && (forall m | m in entries :: s <= entries[m])
  }

  /** ZRANGE key 0 0 WITHSCORES: the least score, found by scanning the members. */
  method Oldest(entries: map<Member, int>) returns (score: Option<int>)
    ensures score.None? <==> entries == map[]
    ensures score.Some? ==> IsOldest(entries, score.value)
  {
    score := None;
    var todo := entries.Keys;
    while todo != {}
      invariant todo <= entries.Keys
      invariant score.None? <==> todo == entries.Keys
      invariant score.Some? ==>
                  && (exists m | m in entries :: entries[m] == score.value)
                  && (forall m | m in entries && m !in todo :: score.value <= entries[m])
      decreases todo
    {
      var m :| m in todo;
      if score.None? || entries[m] < score.value {
        score := Some(entries[m]);
      }
      todo := todo - {m};
    }
  }

  /** What Redis still holds at `now`. */
  function Live(log: Log, now: int): map<Member, int> {
    if log.expiresAt <= now then map[] else log.entries
  }

  /** The entries the script counts. */
  function Counted(log: Log, now: int, window: nat): map<Member, int> {
    Trim(Live(log, now), now, window)
  }

  predicate Admits(log: Log, now: int, window: nat, limit: nat) {
    |Counted(log, now, window)| < limit
  }

  /** The sorted set after the script; a denial only trims. */
  function Script(log: Log, now: int, window: nat, limit: nat, member: Member): Log {
    var counted := Counted(log, now, window);
    if Admits(log, now, window, limit) then
      Log(counted[member := now], now + ExpireSeconds(window) * 1000)
    else
      Log(counted, if log.expiresAt <= now then now else log.expiresAt)
  }

  ghost predicate Replies(log: Log, now: int, window: nat, limit: nat, reply: Reply) {
    var counted := Counted(log, now, window);
    if Admits(log, now, window, limit) then
      reply == Admitted(limit - |counted| - 1)
    else if counted == map[] then
      reply == Denied(window)
    else
      exists s | IsOldest(counted, s) :: reply == Denied(if s + window <= now then 0 else s + window - now)
  }

  function LogOf<K>(logs: map<K, Log>, key: K): Log {
    if key in logs then logs[key] else Log(map[], 0)
  }

  /** The Redis keys the sliding log script works on. */
  class SlidingLogStore<K(==)> {
    var logs: map<K, Log>

    constructor ()
      ensures logs == map[]
    {
      logs := map[];
    }

    method Eval(key: K, limit: nat, now: nat, window: nat, member: Member) returns (reply: Reply)
      modifies this
      ensures LogOf(logs, key) == Script(old(LogOf(logs, key)), now, window, limit, member)
      ensures Replies(old(LogOf(logs, key)), now, window, limit, reply)
      ensures logs - {key} == old(logs) - {key}
    {
      var entries, expiresAt := map[], now;
      if key in logs && now < logs[key].expiresAt {
        entries, expiresAt := logs[key].entries, logs[key].expiresAt;
      }
      entries := Trim(entries, now, window);
      var count := |entries|;
      if count < limit {
        logs := logs[key := Log(entries[member := now], now + ExpireSeconds(window) * 1000)];
        reply := Admitted(limit - count - 1);
      } else {
        logs := logs[key := Log(entries, expiresAt)];
        var oldest := Oldest(entries);
        var reset: int := window;
        if oldest.Some? {
          reset := window - (now - oldest.value);
          if reset < 0 {
            reset := 0;
          }
        }
        reply := Denied(reset);
      }
    }
  }

  /*** Runs on one key ***/

  /** Times never go backwards. */
  ghost predicate Ordered(reqs: seq<Request>) {
    forall i, j | 0 <= i <= j < |reqs| :: reqs[i].now <= reqs[j].now
  }

  /** Every request has its own member. */
  ghost predicate DistinctMembers(reqs: seq<Request>) {
    forall i, j | 0 <= i < |reqs| && 0 <= j < |reqs| && reqs[i].member == reqs[j].member :: i == j
  }

  function After(reqs: seq<Request>, window: nat, limit: nat, n: nat): Log
    requires n <= |reqs|
  {
    if n == 0 then Log(map[], 0)
    else Script(After(reqs, window, limit, n - 1), reqs[n - 1].now, window, limit, reqs[n - 1].member)
  }

  predicate AdmittedAt(reqs: seq<Request>, window: nat, limit: nat, k: nat)
    requires k < |reqs|
  {
    Admits(After(reqs, window, limit, k), reqs[k].now, window, limit)
  }

  /** Admissions among the first `n` requests with `from < now`: the reference the script must agree with. */
  ghost function AdmittedSince(reqs: seq<Request>, window: nat, limit: nat, n: nat, from: int): set<nat>
    requires n <= |reqs|
  {
    set i: nat | i < n && AdmittedAt(reqs, window, limit, i) && from < reqs[i].now
  }

  /** `entries` is the sorted set of the requests with these indices: each member with its latest time. */
  ghost predicate Represents(entries: map<Member, int>, reqs: seq<Request>, idxs: set<nat>) {
    && (forall i | i in idxs :: i < |reqs| && reqs[i].member in entries && reqs[i].now <= entries[reqs[i].member])
    && (forall m | m in entries ::
          exists i | i in idxs :: i < |reqs| && reqs[i].member == m && reqs[i].now == entries[m])
  }

  ghost function MembersOf(reqs: seq<Request>, idxs: set<nat>): set<Member> {
    set i | i in idxs && i < |reqs| :: reqs[i].member
  }

  ghost predicate AllBelow(idxs: set<nat>, n: nat) {
    forall i | i in idxs :: i < n
  }

  lemma NoMembers(reqs: seq<Request>)
    ensures MembersOf(reqs, {}) == {}
  {
  }

  lemma MembersGrow(reqs: seq<Request>, idxs: set<nat>, more: set<nat>)
    requires idxs <= more
    ensures MembersOf(reqs, idxs) <= MembersOf(reqs, more)
  {
  }

  lemma MembersOneMore(reqs: seq<Request>, idxs: set<nat>, k: nat)
    requires k < |reqs|
    ensures MembersOf(reqs, idxs + {k}) == MembersOf(reqs, idxs) + {reqs[k].member}
  {
  }

  lemma RepresentedKeys(entries: map<Member, int>, reqs: seq<Request>, idxs: set<nat>)
    requires Represents(entries, reqs, idxs)
    ensures entries.Keys == MembersOf(reqs, idxs)
  {
  }

  /** After `n` requests the key holds the admissions of the current window, none expiring too early. */
  ghost predicate Faithful(log: Log, reqs: seq<Request>, window: nat, limit: nat, n: nat, now: nat)
    requires n <= |reqs|
  {
    var current := AdmittedSince(reqs, window, limit, n, now - window);
    Represents(log.entries, reqs, current) && Outlives(log.expiresAt, reqs, current, window)
  }

  ghost predicate Outlives(expiresAt: int, reqs: seq<Request>, idxs: set<nat>, window: nat) {
    forall i | i in idxs :: i < |reqs| && reqs[i].now + window <= expiresAt
  }

  /** Expiry and trimming at a later time leave exactly the later window. */
  lemma CountedIsWindow(log: Log, reqs: seq<Request>, window: nat, limit: nat, n: nat, now: nat, later: nat)
    requires n <= |reqs| && now <= later && Faithful(log, reqs, window, limit, n, now)
    ensures Represents(Counted(log, later, window), reqs, AdmittedSince(reqs, window, limit, n, later - window))
  {
    var current := AdmittedSince(reqs, window, limit, n, now - window);
    var window' := AdmittedSince(reqs, window, limit, n, later - window);
    assert window' <= current;
    var counted := Counted(log, later, window);
    forall m | m in counted
      ensures exists i | i in window' :: i < |reqs| && reqs[i].member == m && reqs[i].now == counted[m]
    {
      var i :| i in current && i < |reqs| && reqs[i].member == m && reqs[i].now == log.entries[m];
      assert i in window';
    }
  }

  lemma {:induction false} RunIsFaithful(reqs: seq<Request>, window: nat, limit: nat, n: nat)
    requires Ordered(reqs) && window > 0 && n <= |reqs|
    ensures Faithful(After(reqs, window, limit, n), reqs, window, limit, n, LastTime(reqs, n))
  {
    hide *;
    if n == 0 {
      EmptyIsFaithful(reqs, window, limit);
    } else {
      RunIsFaithful(reqs, window, limit, n - 1);
      FaithfulStep(reqs, window, limit, n);
    }
  }

  lemma EmptyIsFaithful(reqs: seq<Request>, window: nat, limit: nat)
    ensures Faithful(After(reqs, window, limit, 0), reqs, window, limit, 0, LastTime(reqs, 0))
  {
    assert AdmittedSince(reqs, window, limit, 0, 0 - window as int) == {};
  }

  /** The time of the latest of the first `n` requests. */
  function LastTime(reqs: seq<Request>, n: nat): nat
    requires n <= |reqs|
  {
    if n == 0 then 0 else reqs[n - 1].now
  }

  lemma FaithfulStep(reqs: seq<Request>, window: nat, limit: nat, n: nat)
    requires Ordered(reqs) && window > 0 && 0 < n <= |reqs|
    requires Faithful(After(reqs, window, limit, n - 1), reqs, window, limit, n - 1, LastTime(reqs, n - 1))
    ensures Faithful(After(reqs, window, limit, n), reqs, window, limit, n, LastTime(reqs, n))
  {
    hide Counted, Represents, AdmittedSince, Outlives;
    var before, now := After(reqs, window, limit, n - 1), reqs[n - 1].now;
    assert LastTime(reqs, n - 1) <= now;
    CountedIsWindow(before, reqs, window, limit, n - 1, LastTime(reqs, n - 1), now);
    OutlivesStep(reqs, window, limit, n);
    WindowGrows(reqs, window, limit, n);
    if AdmittedAt(reqs, window, limit, n - 1) {
      assert AllBelow(AdmittedSince(reqs, window, limit, n - 1, now - window), n - 1) by {
        hide *;
        AdmittedEarlier(reqs, window, limit, n - 1, now - window);
      }
      RepresentsOneMore(Counted(before, now, window), reqs, AdmittedSince(reqs, window, limit, n - 1, now - window),
                        n - 1);
    }
  }

  lemma AdmittedEarlier(reqs: seq<Request>, window: nat, limit: nat, n: nat, from: int)
    requires n <= |reqs|
    ensures AllBelow(AdmittedSince(reqs, window, limit, n, from), n)
  {
  }

  lemma OutlivesStep(reqs: seq<Request>, window: nat, limit: nat, n: nat)
    requires Ordered(reqs) && 0 < n <= |reqs|
    requires Outlives(After(reqs, window, limit, n - 1).expiresAt, reqs,
                      AdmittedSince(reqs, window, limit, n - 1, LastTime(reqs, n - 1) - window), window)
    ensures Outlives(After(reqs, window, limit, n).expiresAt, reqs,
                     AdmittedSince(reqs, window, limit, n, reqs[n - 1].now - window), window)
  {
    hide AdmittedSince, After, Ordered;
    var current := AdmittedSince(reqs, window, limit, n, reqs[n - 1].now - window);
    forall i | i in current ensures i < |reqs| && reqs[i].now + window <= After(reqs, window, limit, n).expiresAt {
      OutlivesOne(reqs, window, limit, n, i);
    }
  }

  lemma OutlivesOne(reqs: seq<Request>, window: nat, limit: nat, n: nat, i: nat)
    requires Ordered(reqs) && 0 < n <= |reqs|
    requires Outlives(After(reqs, window, limit, n - 1).expiresAt, reqs,
                      AdmittedSince(reqs, window, limit, n - 1, LastTime(reqs, n - 1) - window), window)
    requires i in AdmittedSince(reqs, window, limit, n, reqs[n - 1].now - window)
    ensures i < |reqs| && reqs[i].now + window <= After(reqs, window, limit, n).expiresAt
  {
    hide Script, Admits, Ordered;
    var now, before := reqs[n - 1].now, After(reqs, window, limit, n - 1);
    ExpiryStep(before, now, window, limit, reqs[n - 1].member);
    InOrder(reqs, i, n - 1);
    if i < n - 1 {
      hide AdmittedAt;
      InOrder(reqs, i, n - 2);
      InOrder(reqs, n - 2, n - 1);
      assert i in AdmittedSince(reqs, window, limit, n - 1, LastTime(reqs, n - 1) - window);
    }
  }

  lemma InOrder(reqs: seq<Request>, i: nat, j: nat)
    requires Ordered(reqs) && i <= j < |reqs|
    ensures reqs[i].now <= reqs[j].now
  {
  }

  /** An admission makes the key outlive its window; a denial does not shorten its life. */
  lemma ExpiryStep(log: Log, now: nat, window: nat, limit: nat, member: Member)
    ensures var next := Script(log, now, window, limit, member);
            if Admits(log, now, window, limit) then now + window <= next.expiresAt else log.expiresAt <= next.expiresAt
  {
    hide Counted;
  }

  lemma WindowGrows(reqs: seq<Request>, window: nat, limit: nat, n: nat)
    requires window > 0 && 0 < n <= |reqs|
    ensures var from := reqs[n - 1].now - window;
            if AdmittedAt(reqs, window, limit, n - 1)
            then AdmittedSince(reqs, window, limit, n, from) == AdmittedSince(reqs, window, limit, n - 1, from)
                + {n - 1}
            else AdmittedSince(reqs, window, limit, n, from) == AdmittedSince(reqs, window, limit, n - 1, from)
  {
    hide AdmittedAt;
  }

  lemma RepresentsOneMore(entries: map<Member, int>, reqs: seq<Request>, idxs: set<nat>, k: nat)
    requires Ordered(reqs) && Represents(entries, reqs, idxs) && k < |reqs| && AllBelow(idxs, k)
    ensures Represents(entries[reqs[k].member := reqs[k].now], reqs, idxs + {k})
  {
    var bigger, all := entries[reqs[k].member := reqs[k].now], idxs + {k};
    forall m | m in bigger
      ensures exists i | i in all :: i < |reqs| && reqs[i].member == m && reqs[i].now == bigger[m]
    {
      if m == reqs[k].member {
        assert k in all;
      } else {
        var i :| i in idxs && i < |reqs| && reqs[i].member == m && reqs[i].now == entries[m];
        assert i in all;
      }
    }
  }

  /*** Main results ***/

  /** What the script counts is the members admitted in the window. */
  lemma CountedMembers(reqs: seq<Request>, window: nat, limit: nat, k: nat)
    requires Ordered(reqs) && window > 0 && k < |reqs|
    ensures |Counted(After(reqs, window, limit, k), reqs[k].now, window)| ==
            |MembersOf(reqs, AdmittedSince(reqs, window, limit, k, reqs[k].now - window))|
  {
    hide Faithful, Represents, AdmittedSince, Counted, After, MembersOf;
    var log, now := After(reqs, window, limit, k), reqs[k].now;
    RunIsFaithful(reqs, window, limit, k);
    assert LastTime(reqs, k) <= now;
    CountedIsWindow(log, reqs, window, limit, k, LastTime(reqs, k), now);
    var counted := Counted(log, now, window);
    RepresentedKeys(counted, reqs, AdmittedSince(reqs, window, limit, k, now - window));
    assert |counted| == |counted.Keys|;
  }

  /** A request is admitted if and only if fewer than `limit` members were admitted in the window ending with it. */
  lemma AdmittedIffWindowHasRoom(reqs: seq<Request>, window: nat, limit: nat, k: nat)
    requires Ordered(reqs) && window > 0 && k < |reqs|
    ensures AdmittedAt(reqs, window, limit, k) <==>
            |MembersOf(reqs, AdmittedSince(reqs, window, limit, k, reqs[k].now - window))| < limit
  {
    hide AdmittedSince, Counted, After, MembersOf;
    CountedMembers(reqs, window, limit, k);
  }

  ghost function AdmittedIn(reqs: seq<Request>, window: nat, limit: nat, n: nat, from: int, to: int): set<nat>
    requires n <= |reqs|
  {
    set i: nat | i < n && AdmittedAt(reqs, window, limit, i) && from <= reqs[i].now < to
  }

  /** Every half-open interval of one window length, wherever it starts, holds at most `limit` admitted members. */
  lemma {:induction false} EveryWindowIsBounded(reqs: seq<Request>, window: nat, limit: nat, n: nat, from: int)
    requires Ordered(reqs) && window > 0 && n <= |reqs|
    ensures |MembersOf(reqs, AdmittedIn(reqs, window, limit, n, from, from + window))| <= limit
  {
    hide AdmittedAt, MembersOf;
    var all := AdmittedIn(reqs, window, limit, n, from, from + window);
    if n == 0 {
      assert all == {};
      NoMembers(reqs);
    } else {
      EveryWindowIsBounded(reqs, window, limit, n - 1, from);
      var before := AdmittedIn(reqs, window, limit, n - 1, from, from + window);
      if n - 1 in all {
        var now := reqs[n - 1].now;
        var recent := AdmittedSince(reqs, window, limit, n - 1, now - window);
        AdmittedIffWindowHasRoom(reqs, window, limit, n - 1);
        assert all == before + {n - 1} && before <= recent;
        MembersOneMore(reqs, before, n - 1);
        MembersGrow(reqs, before, recent);
        SubsetSize(MembersOf(reqs, before), MembersOf(reqs, recent));
      } else {
        assert all == before;
      }
    }
  }

  /** No two of these requests bring the same member. */
  ghost predicate DistinctAmong(reqs: seq<Request>, idxs: set<nat>) {
    AllBelow(idxs, |reqs|) && forall i, j | i in idxs && j in idxs && reqs[i].member == reqs[j].member :: i == j
  }

  lemma {:induction false} MembersAtMost(reqs: seq<Request>, idxs: set<nat>)
    requires AllBelow(idxs, |reqs|)
    ensures |MembersOf(reqs, idxs)| <= |idxs|
    ensures DistinctAmong(reqs, idxs) ==> |MembersOf(reqs, idxs)| == |idxs|
    decreases |idxs|
  {
    if idxs == {} {
      NoMembers(reqs);
    } else {
      var i :| i in idxs;
      MembersAtMost(reqs, idxs - {i});
      MembersOneMore(reqs, idxs - {i}, i);
      assert idxs - {i} + {i} == idxs;
    }
  }

  /** Requests are as many as their members exactly if no two bring the same. */
  lemma SizeIffDistinct(reqs: seq<Request>, idxs: set<nat>)
    requires AllBelow(idxs, |reqs|)
    ensures |MembersOf(reqs, idxs)| == |idxs| <==> DistinctAmong(reqs, idxs)
  {
    MembersAtMost(reqs, idxs);
    if i, j :| i in idxs && j in idxs && i != j && reqs[i].member == reqs[j].member {
      var rest := idxs - {i};
      MembersAtMost(reqs, rest);
      MembersOneMore(reqs, rest, i);
      assert rest + {i} == idxs && reqs[i].member in MembersOf(reqs, rest);
      assert MembersOf(reqs, rest) + {reqs[i].member} == MembersOf(reqs, rest);
    }
  }

  /**
   Exactly when the script counts requests: what it counts is the number of requests admitted in the window if and
   only if no two of those brought the same member.
   */
  lemma CountsRequestsIffDistinct(reqs: seq<Request>, window: nat, limit: nat, k: nat)
    requires Ordered(reqs) && window > 0 && k < |reqs|
    ensures var recent := AdmittedSince(reqs, window, limit, k, reqs[k].now - window);
            |Counted(After(reqs, window, limit, k), reqs[k].now, window)| == |recent| <==> DistinctAmong(reqs, recent)
  {
    hide Counted, MembersOf, AdmittedSince, DistinctAmong;
    var recent := AdmittedSince(reqs, window, limit, k, reqs[k].now - window);
    CountedMembers(reqs, window, limit, k);
    AdmittedEarlier(reqs, window, limit, k, reqs[k].now - window);
    SizeIffDistinct(reqs, recent);
  }

  /** With members of their own, requests are counted one by one and no window holds more than `limit` of them. */
  lemma DistinctAreCounted(reqs: seq<Request>, window: nat, limit: nat, k: nat, from: int)
    requires Ordered(reqs) && DistinctMembers(reqs) && window > 0 && k < |reqs|
    ensures AdmittedAt(reqs, window, limit, k) <==>
            |AdmittedSince(reqs, window, limit, k, reqs[k].now - window)| < limit
    ensures |AdmittedIn(reqs, window, limit, k + 1, from, from + window)| <= limit
  {
    hide AdmittedAt, MembersOf;
    AdmittedIffWindowHasRoom(reqs, window, limit, k);
    MembersAtMost(reqs, AdmittedSince(reqs, window, limit, k, reqs[k].now - window));
    EveryWindowIsBounded(reqs, window, limit, k + 1, from);
    MembersAtMost(reqs, AdmittedIn(reqs, window, limit, k + 1, from, from + window));
  }

  /** Requests that bring the same member at the same time share one place: all are admitted if two places are free. */
  lemma {:induction false} SharedMemberSharesPlace(reqs: seq<Request>, window: nat, limit: nat, k: nat)
    requires window > 0 && limit > 1 && k < |reqs| && forall i | 0 <= i < |reqs| :: reqs[i] == reqs[0]
    ensures AdmittedAt(reqs, window, limit, k)
  {
    assert Ordered(reqs);
    hide AdmittedAt, AdmittedSince;
    AdmittedIffWindowHasRoom(reqs, window, limit, k);
    var members := MembersOf(reqs, AdmittedSince(reqs, window, limit, k, reqs[k].now - window));
    SubsetSize(members, {reqs[0].member});
  }

  /**
   The reset duration of a denial is exact: with a full window, a request `d` milliseconds later is
   admitted if and only if `d` has reached the advertised duration.
   */
  lemma DeniedResetIsExact(log: Log, now: nat, window: nat, limit: nat, reset: int, d: nat)
    requires |Counted(log, now, window)| == limit > 0
    requires Replies(log, now, window, limit, Denied(reset))
    requires forall m | m in log.entries :: 0 <= log.entries[m] <= now && log.entries[m] + window <= log.expiresAt
    ensures Admits(log, now + d, window, limit) <==> d >= reset
  {
    var counted, later := Counted(log, now, window), Counted(log, now + d, window);
    var s :| IsOldest(counted, s) && Denied(reset) == Denied(if s + window <= now then 0 else s + window - now);
    var m :| m in counted && counted[m] == s;
    assert later.Keys <= counted.Keys;
    if d >= reset {
      assert m !in later;
      KeysShrink(later.Keys, counted.Keys, m);
    } else {
      assert later == counted;
    }
  }

  lemma KeysShrink(a: set<Member>, b: set<Member>, m: Member)
    requires a <= b && m in b && m !in a
    ensures |a| < |b|
  {
    var rest := b - a;
    assert m in rest;
    assert b == a + rest;
  }
}
