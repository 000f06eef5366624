/**
 The per-chain concurrency limit (internal/grpc/handlers.go).

 Requests share one atomic counter per chain name: a request adds one, and takes it back if the sum is over its
 limit. Streams of different snapshots share the counter, so each request `r` brings its own limit `max(r)`. Each step
 below is one atomic instruction of one request, in any interleaving.
 */
module ChainLimiter {
  import opened Basics

  /** A request that has added itself: still holding the sum it saw, or running the filters. */
  datatype Entry = Counted(seen: nat) | Running

  /** The counter and the requests that are counted in it. */
  datatype State = State(counter: nat, entries: map<nat, Entry>)

  const INITIAL := State(0, map[])

  ghost predicate Enters(s: State, t: State, r: nat) {
    r !in s.entries && t == State(s.counter + 1, s.entries[r := Counted(s.counter + 1)])
  }

  ghost predicate Admits(s: State, t: State, r: nat, max: nat -> nat) {
    && r in s.entries && s.entries[r].Counted? && s.entries[r].seen <= max(r)
    && t == s.(entries := s.entries[r := Running])
  }

  ghost predicate Refuses(s: State, t: State, r: nat, max: nat -> nat) {
    && r in s.entries && s.entries[r].Counted? && s.entries[r].seen > max(r)
    && s.counter > 0 && t == State(s.counter - 1, s.entries - {r})
  }

  ghost predicate Leaves(s: State, t: State, r: nat) {
    r in s.entries && s.entries[r].Running? && s.counter > 0 && t == State(s.counter - 1, s.entries - {r})
  }

  ghost predicate Next(s: State, t: State, r: nat, max: nat -> nat) {
    Enters(s, t, r) || Admits(s, t, r, max) || Refuses(s, t, r, max) || Leaves(s, t, r)
  }

  function RunningIn(s: State): set<nat> {
    set r | r in s.entries && s.entries[r].Running?
  }

  /** Running, or about to. */
  function Winners(s: State, max: nat -> nat): set<nat> {
    set r | r in s.entries && (s.entries[r].Running? || s.entries[r].seen <= max(r))
  }

  /** No request brings a limit above `top`. */
  ghost predicate Capped(max: nat -> nat, top: nat) {
    forall r :: max(r) <= top
  }

  ghost predicate Inv(s: State, max: nat -> nat, top: nat) {
    s.counter == |s.entries| && |Winners(s, max)| <= top
  }

  lemma NextCounts(s: State, t: State, r: nat, max: nat -> nat)
    requires s.counter == |s.entries| && Next(s, t, r, max)
    ensures t.counter == |t.entries|
  {
    assert |t.entries| == |t.entries.Keys| && |s.entries| == |s.entries.Keys|;
    if Admits(s, t, r, max) {
      assert t.entries.Keys == s.entries.Keys;
    } else if !Enters(s, t, r) {
      assert t.entries.Keys == s.entries.Keys - {r};
    }
  }

  /** Only a request that enters under its limit joins the winners. */
  lemma NextWinners(s: State, t: State, r: nat, max: nat -> nat)
    requires Next(s, t, r, max)
    ensures if Enters(s, t, r) && s.counter + 1 <= max(r) then Winners(t, max) == Winners(s, max) + {r}
            else Winners(t, max) <= Winners(s, max)
  {
  }

  lemma NextKeepsInv(s: State, t: State, r: nat, max: nat -> nat, top: nat)
    requires Capped(max, top) && Inv(s, max, top) && Next(s, t, r, max)
    ensures Inv(t, max, top)
  {
    NextCounts(s, t, r, max);
    NextWinners(s, t, r, max);
    SubsetSize(Winners(s, max), s.entries.Keys);
    hide Next;
    if !(Enters(s, t, r) && s.counter + 1 <= max(r)) {
      hide Winners;
      SubsetSize(Winners(t, max), Winners(s, max));
    }
  }

  ghost predicate Moves(s: State, t: State, max: nat -> nat) {
    exists r :: Next(s, t, r, max)
  }

  /** A run: each state follows from the one before by a step of some request. */
  ghost predicate IsRun(run: seq<State>, max: nat -> nat) {
    run != [] && run[0] == INITIAL && forall i | 0 < i < |run| :: Moves(run[i - 1], run[i], max)
  }

  lemma {:induction false} RunKeepsInv(run: seq<State>, max: nat -> nat, top: nat)
    requires IsRun(run, max) && Capped(max, top)
    ensures Inv(run[|run| - 1], max, top)
  {
    hide Next, Inv, Winners, Capped;
    if |run| > 1 {
      var init := run[..|run| - 1];
      assert IsRun(init, max);
      RunKeepsInv(init, max, top);
      assert Moves(run[|run| - 2], run[|run| - 1], max);
      var r :| Next(run[|run| - 2], run[|run| - 1], r, max);
      NextKeepsInv(run[|run| - 2], run[|run| - 1], r, max, top);
    } else {
      InvStarts(max, top);
    }
  }

  lemma InvStarts(max: nat -> nat, top: nat)
    ensures Inv(INITIAL, max, top)
  {
    assert Winners(INITIAL, max) == {};
  }

  /** Whatever the interleaving, no more requests run a chain's filters at once than the greatest limit allows. */
  lemma LimitHolds(run: seq<State>, max: nat -> nat, top: nat)
    requires IsRun(run, max) && Capped(max, top)
    ensures |RunningIn(run[|run| - 1])| <= top
  {
    RunKeepsInv(run, max, top);
    SubsetSize(RunningIn(run[|run| - 1]), Winners(run[|run| - 1], max));
  }

  lemma {:induction false} RunCounts(run: seq<State>, max: nat -> nat)
    requires IsRun(run, max)
    ensures run[|run| - 1].counter == |run[|run| - 1].entries|
  {
    if |run| > 1 {
      var init := run[..|run| - 1];
      assert IsRun(init, max);
      RunCounts(init, max);
      var s, t := run[|run| - 2], run[|run| - 1];
      assert Moves(s, t, max);
      var r :| Next(s, t, r, max);
      NextCounts(s, t, r, max);
    }
  }

  /**
   A request will be refused exactly when as many requests as its limit allows are counted as it enters, running or
   not. So one that is let in found fewer than its own limit running.
   */
  lemma RefusedIffFull(run: seq<State>, max: nat -> nat, t: State, r: nat)
    requires IsRun(run, max) && Enters(run[|run| - 1], t, r)
    ensures t.entries[r].seen > max(r) <==> |run[|run| - 1].entries| >= max(r)
    ensures t.entries[r].seen <= max(r) ==> |RunningIn(run[|run| - 1])| < max(r)
  {
    RunCounts(run, max);
    SubsetSize(RunningIn(run[|run| - 1]), run[|run| - 1].entries.Keys);
  }

  /** So a request can be refused while none runs: one that is itself being refused still counts. */
  lemma RefusedWhileIdle(max: nat -> nat) returns (run: seq<State>)
    requires forall r :: max(r) == 1
    ensures IsRun(run, max) && RunningIn(run[|run| - 1]) == {}
    ensures 2 in run[|run| - 1].entries && run[|run| - 1].entries[2] == Counted(2)
  {
    var a := State(1, map[0 := Counted(1)]);
    var b := State(1, map[0 := Running]);
    var c := State(2, map[0 := Running, 1 := Counted(2)]);
    var d := State(1, map[1 := Counted(2)]);
    var e := State(2, map[1 := Counted(2), 2 := Counted(2)]);
    run := [INITIAL, a, b, c, d, e];
    assert Next(INITIAL, a, 0, max) by {
      assert INITIAL.entries[0 := Counted(1)] == a.entries;
    }
    assert Next(a, b, 0, max);
    assert Next(b, c, 1, max) by {
      assert b.entries[1 := Counted(2)] == c.entries;
    }
    assert Next(c, d, 0, max) by {
      assert c.entries - {0} == d.entries;
    }
    assert Next(d, e, 2, max) by {
      assert d.entries[2 := Counted(2)] == e.entries;
    }
    assert Moves(INITIAL, a, max) && Moves(a, b, max) && Moves(b, c, max) && Moves(c, d, max) && Moves(d, e, max);
  }
}
