/**
 Policy snapshots and their reference counts (internal/engine/registry.go).

 Here every method is one atomic step; the SnapshotProtocol module takes them apart into single
 instructions. A snapshot's cleanup is the list of resources it closes.
 */
module ChainRegistry {
  import opened Basics

  /** Something a policy owns and that is closed once. */
  datatype Resource = Client(id: nat) | Filter(id: nat)

  /** The `redis_service` option: missing, a YAML string, or a scalar of another type. */
  datatype ServiceOption = Absent | Text(text: string) | Scalar(decoded: string)

  /** A compiled filter: what its factory was given, and the Redis client it was bound to then. */
  datatype Instance = Instance(id: nat, kind: string, options: string, service: ServiceOption, client: Option<nat>)

  /** A chain position; `audit` records denials instead of enforcing them. */
  datatype Link = Link(filter: Instance, audit: bool)

  /** A published policy: its compiled chains and every resource it owns. */
  datatype Policy = Policy(chains: map<string, seq<Link>>, owned: set<Resource>)

  datatype Snapshot = Snapshot(policy: Policy, refs: nat, retired: bool, cleanup: seq<Resource>, cleaned: bool)

  /** All snapshots published so far, the last one being current, and everything closed so far. */
  datatype Registry = Registry(snaps: seq<Snapshot>, closed: seq<Resource>)

  const EMPTY_POLICY := Policy(map[], {})

  function NewSnapshot(policy: Policy): Snapshot {
    Snapshot(policy, 0, false, [], false)
  }

  /** The cleanup runs at most once (`cleanOnce`). */
  function RunCleanup(r: Registry, s: nat): Registry
    requires s < |r.snaps|
  {
    if r.snaps[s].cleaned then r
    else Registry(r.snaps[s := r.snaps[s].(cleaned := true)], r.closed + r.snaps[s].cleanup)
  }

  function Acquire(r: Registry): Registry
    requires r.snaps != []
  {
    var s := |r.snaps| - 1;
    r.(snaps := r.snaps[s := r.snaps[s].(refs := r.snaps[s].refs + 1)])
  }

  function Release(r: Registry, s: nat): Registry
    requires s < |r.snaps| && r.snaps[s].refs > 0
  {
    var dropped := r.(snaps := r.snaps[s := r.snaps[s].(refs := r.snaps[s].refs - 1)]);
    if dropped.snaps[s].refs == 0 && dropped.snaps[s].retired then RunCleanup(dropped, s) else dropped
  }

  function Retire(r: Registry, s: nat, cleanup: seq<Resource>): Registry
    requires s < |r.snaps|
  {
    var marked := r.(snaps := r.snaps[s := r.snaps[s].(cleanup := cleanup, retired := true)]);
    if marked.snaps[s].refs == 0 then RunCleanup(marked, s) else marked
  }

  function Swap(r: Registry, next: Snapshot, cleanup: seq<Resource>): Registry
    requires r.snaps != []
  {
    Retire(r.(snaps := r.snaps + [next]), |r.snaps| - 1, cleanup)
  }

  /** The registry object; `state` stands for the snapshots its streams can reach. */
  class SnapshotRegistry {
    var state: Registry

    ghost predicate Valid()
      reads this
    {
      state.snaps != []
    }

    constructor ()
      ensures Valid() && state == Registry([NewSnapshot(EMPTY_POLICY)], [])
    {
      state := Registry([NewSnapshot(EMPTY_POLICY)], []);
    }

    method AcquireCurrent() returns (s: nat)
      requires Valid()
      modifies this
      ensures Valid() && state == Acquire(old(state)) && s == |old(state).snaps| - 1
    {
      s := |state.snaps| - 1;
      var snap := state.snaps[s];
      state := state.(snaps := state.snaps[s := snap.(refs := snap.refs + 1)]);
    }

    method ReleaseSnapshot(s: nat)
      requires Valid() && s < |state.snaps| && state.snaps[s].refs > 0
      modifies this
      ensures Valid() && state == Release(old(state), s)
    {
      var refs := state.snaps[s].refs - 1;
      state := state.(snaps := state.snaps[s := state.snaps[s].(refs := refs)]);
      if refs == 0 && state.snaps[s].retired {
        CleanUp(s);
      }
    }

    method CleanUp(s: nat)
      requires Valid() && s < |state.snaps|
      modifies this
      ensures Valid() && state == RunCleanup(old(state), s)
    {
      if !state.snaps[s].cleaned {
        var cleanup := state.snaps[s].cleanup;
        state := Registry(state.snaps[s := state.snaps[s].(cleaned := true)], state.closed + cleanup);
      }
    }

    method RetireSnapshot(s: nat, cleanup: seq<Resource>)
      requires Valid() && s < |state.snaps|
      modifies this
      ensures Valid() && state == Retire(old(state), s, cleanup)
    {
      state := state.(snaps := state.snaps[s := state.snaps[s].(cleanup := cleanup)]);
      state := state.(snaps := state.snaps[s := state.snaps[s].(retired := true)]);
      if state.snaps[s].refs == 0 {
        CleanUp(s);
      }
    }

    method SwapIn(next: Snapshot, cleanup: seq<Resource>)
      requires Valid()
      modifies this
      ensures Valid() && state == Swap(old(state), next, cleanup)
    {
      var prev := |state.snaps| - 1;
      state := state.(snaps := state.snaps + [next]);
      RetireSnapshot(prev, cleanup);
    }

    /** Closes resources outside any snapshot: an aborted reload, or shutdown. */
    method Close(resources: seq<Resource>)
      requires Valid()
      modifies this
      ensures Valid() && state == old(state).(closed := old(state).closed + resources)
    {
      state := state.(closed := state.closed + resources);
    }
  }

  /*** Conservation ***/

  function PendingOf(s: Snapshot, x: Resource): nat {
    if s.retired && !s.cleaned then multiset(s.cleanup)[x] else 0
  }

  /** How often `x` waits for a retired snapshot to drain. */
  function Pending(snaps: seq<Snapshot>, x: Resource): nat {
    if snaps == [] then 0 else Pending(snaps[..|snaps| - 1], x) + PendingOf(snaps[|snaps| - 1], x)
  }

  /** How often `x` was handed to the registry: closed, or waiting to be. */
  function Entrusted(r: Registry, x: Resource): nat {
    Pending(r.snaps, x) + multiset(r.closed)[x]
  }

  /**
   Every snapshot but the current one is retired; a retired snapshot without holders has been
   cleaned, and no other has.
   */
  ghost predicate Valid(r: Registry) {
    && r.snaps != []
    && (forall s | 0 <= s < |r.snaps| :: r.snaps[s].retired <==> s < |r.snaps| - 1)
    && (forall s | 0 <= s < |r.snaps| :: r.snaps[s].cleaned <==> r.snaps[s].retired && r.snaps[s].refs == 0)
  }

  lemma {:induction false} PendingUpdate(snaps: seq<Snapshot>, s: nat, y: Snapshot, x: Resource)
    requires s < |snaps|
    ensures Pending(snaps[s := y], x) + PendingOf(snaps[s], x) == Pending(snaps, x) + PendingOf(y, x)
  {
    hide PendingOf;
    var n := |snaps| - 1;
    if s == n {
      assert snaps[s := y][..n] == snaps[..n];
    } else {
      PendingUpdate(snaps[..n], s, y, x);
      assert snaps[s := y][..n] == snaps[..n][s := y];
    }
  }

  lemma {:induction false} PendingDrained(snaps: seq<Snapshot>, x: Resource)
    requires forall s | 0 <= s < |snaps| :: snaps[s].retired ==> snaps[s].cleaned
    ensures Pending(snaps, x) == 0
  {
    if snaps != [] {
      PendingDrained(snaps[..|snaps| - 1], x);
    }
  }

  lemma AcquireKeeps(r: Registry, x: Resource)
    requires Valid(r)
    ensures Valid(Acquire(r)) && Entrusted(Acquire(r), x) == Entrusted(r, x)
  {
    PendingUpdate(r.snaps, |r.snaps| - 1, Acquire(r).snaps[|r.snaps| - 1], x);
  }

  lemma ReleaseKeeps(r: Registry, s: nat, x: Resource)
    requires Valid(r) && s < |r.snaps| && r.snaps[s].refs > 0
    ensures Valid(Release(r, s)) && Entrusted(Release(r, s), x) == Entrusted(r, x)
  {
    hide Pending;
    var y := Release(r, s).snaps[s];
    assert Release(r, s).snaps == r.snaps[s := y];
    PendingUpdate(r.snaps, s, y, x);
  }

  /** Swapping in a policy entrusts exactly the given resources to the registry. */
  lemma SwapKeeps(r: Registry, next: Snapshot, cleanup: seq<Resource>, x: Resource)
    requires Valid(r) && next == NewSnapshot(next.policy)
    ensures Valid(Swap(r, next, cleanup))
    ensures Entrusted(Swap(r, next, cleanup), x) == Entrusted(r, x) + multiset(cleanup)[x]
  {
    var n := |r.snaps|;
    var extended, y := r.snaps + [next], Swap(r, next, cleanup).snaps[n - 1];
    assert extended[..n] == r.snaps;
    assert Pending(extended, x) == Pending(r.snaps, x);
    assert Swap(r, next, cleanup).snaps == extended[n - 1 := y];
    PendingUpdate(extended, n - 1, y, x);
  }
}
