/**
 The reference count protocol of snapshots, one atomic instruction per step (internal/engine/registry.go).

 Any number of threads acquire, release and swap. `refs.Add`, `refs.Load`, `retired.Store`, `retired.Load`,
 the mutex operations, the plain accesses to `current` and `cleanup`, and `cleanOnce.Do` are separate steps,
 interleaved in every possible way.
 */
module SnapshotProtocol {

  datatype Snap = Snap(refs: int, retired: bool, cleanupSet: bool, cleanOnce: bool, runs: nat)

  /** Where a thread is: the instruction it has just finished, with the snapshot it works on. */
  datatype PC =
    | Idle
    | AcqLocked                  // read lock held
    | AcqLoaded(s: nat)          // current loaded
    | AcqCounted(s: nat)         // refs incremented, read lock still held
    | Holding(s: nat)            // Acquire has returned
    | RelZero(s: nat)            // refs decremented to zero, retired not yet loaded
    | Cleaning(s: nat)           // about to enter cleanOnce.Do
    | SwapLocked                 // write lock held
    | SwapLoaded(s: nat)         // previous snapshot loaded
    | SwapStored(s: nat)         // next snapshot stored, write lock still held
    | RetBegin(s: nat)           // write lock released
    | RetCleanup(s: nat)         // cleanup stored
    | RetMarked(s: nat)          // retired stored, refs not yet loaded

  /** Snapshots in order of publication, the last one being current, and one PC per thread. */
  datatype State = State(snaps: seq<Snap>, threads: seq<PC>)

  datatype Action = Acquire(t: nat) | Release(t: nat) | Swap(t: nat) | Go(t: nat)

  const FRESH := Snap(0, false, false, false, 0)

  /** A new snapshot is held by no one, not retired, and has no cleanup yet. */
  lemma FreshHasNothing()
    ensures FRESH.refs == 0 && !FRESH.retired && !FRESH.cleanupSet && !FRESH.cleanOnce && FRESH.runs == 0
  {
  }

  predicate Reading(pc: PC) {
    pc.AcqLocked? || pc.AcqLoaded? || pc.AcqCounted?
  }

  predicate Writing(pc: PC) {
    pc.SwapLocked? || pc.SwapLoaded? || pc.SwapStored?
  }

  ghost predicate NoWriter(st: State) {
    forall t | 0 <= t < |st.threads| :: !Writing(st.threads[t])
  }

  ghost predicate LockFree(st: State) {
    forall t | 0 <= t < |st.threads| :: !Writing(st.threads[t]) && !Reading(st.threads[t])
  }

  ghost predicate Enabled(st: State, a: Action) {
    && a.t < |st.threads|
    && match a
       case Acquire(t) => st.threads[t].Idle? && NoWriter(st)
       case Swap(t) => st.threads[t].Idle? && LockFree(st)
       case Release(t) => st.threads[t].Holding?
       case Go(t) => !st.threads[t].Idle? && !st.threads[t].Holding?
  }

  /** Every PC names an existing snapshot. */
  ghost predicate WellFormed(st: State) {
    st.snaps != [] && forall t | 0 <= t < |st.threads| :: Names(st.threads[t]) ==> st.threads[t].s < |st.snaps|
  }

  predicate Names(pc: PC) {
    !pc.Idle? && !pc.AcqLocked? && !pc.SwapLocked?
  }

  function At(st: State, t: nat, pc: PC): State
    requires t < |st.threads|
  {
    st.(threads := st.threads[t := pc])
  }

  function Put(st: State, s: nat, snap: Snap): State
    requires s < |st.snaps|
  {
    st.(snaps := st.snaps[s := snap])
  }

  /** One instruction of one thread. */
  ghost function Step(st: State, a: Action): State
    requires WellFormed(st) && Enabled(st, a)
  {
    var t := a.t;
    match a
    case Acquire(_) => At(st, t, AcqLocked)
    case Swap(_) => At(st, t, SwapLocked)
    case Release(_) =>
      var s := st.threads[t].s;
      var snap := st.snaps[s].(refs := st.snaps[s].refs - 1);
      At(Put(st, s, snap), t, if snap.refs == 0 then RelZero(s) else Idle)
    case Go(_) =>
      match st.threads[t]
      case AcqLocked => At(st, t, AcqLoaded(|st.snaps| - 1))
      case AcqLoaded(s) => At(Put(st, s, st.snaps[s].(refs := st.snaps[s].refs + 1)), t, AcqCounted(s))
      case AcqCounted(s) => At(st, t, Holding(s))
      case RelZero(s) => At(st, t, if st.snaps[s].retired then Cleaning(s) else Idle)
      case Cleaning(s) =>
        At(if st.snaps[s].cleanOnce then st
           else Put(st, s, st.snaps[s].(cleanOnce := true, runs := st.snaps[s].runs + 1)), t, Idle)
      case SwapLocked => At(st, t, SwapLoaded(|st.snaps| - 1))
      case SwapLoaded(s) => At(st.(snaps := st.snaps + [FRESH]), t, SwapStored(s))
      case SwapStored(s) => At(st, t, RetBegin(s))
      case RetBegin(s) => At(Put(st, s, st.snaps[s].(cleanupSet := true)), t, RetCleanup(s))
      case RetCleanup(s) => At(Put(st, s, st.snaps[s].(retired := true)), t, RetMarked(s))
      case RetMarked(s) => At(st, t, if st.snaps[s].refs == 0 then Cleaning(s) else Idle)
  }

  /*** Invariant ***/

  predicate Counts(pc: PC, s: nat) {
    pc == AcqCounted(s) || pc == Holding(s)
  }

  /** How many threads hold a counted reference to snapshot `s`. */
  function Holders(threads: seq<PC>, s: nat): nat {
    if threads == [] then 0
    else Holders(threads[..|threads| - 1], s) + if Counts(threads[|threads| - 1], s) then 1 else 0
  }

  /** A thread that has replaced `s` and has not yet marked it retired. */
  predicate Replacing(pc: PC, s: nat) {
    pc == SwapStored(s) || pc == RetBegin(s) || pc == RetCleanup(s)
  }

  /** A thread that is bound to notice that `s` is retired and unreferenced. */
  predicate WillNotice(pc: PC, s: nat) {
    pc == RetMarked(s) || pc == RelZero(s) || pc == Cleaning(s)
  }

  /** What the position of one thread implies. */
  ghost predicate ThreadOk(snaps: seq<Snap>, pc: PC) {
    var last := |snaps| - 1;
    match pc
    case AcqLoaded(s) => s == last
    case AcqCounted(s) => s == last
    case SwapLoaded(s) => s == last
    case SwapStored(s) => s < last && !snaps[s].retired
    case RetBegin(s) => s < last && !snaps[s].retired
    case RetCleanup(s) => s < last && !snaps[s].retired && snaps[s].cleanupSet
    case RetMarked(s) => s < last && snaps[s].retired
    case Cleaning(s) => s <= last && snaps[s].retired
    case Holding(s) => s <= last
    case RelZero(s) => s <= last
    case _ => true
  }

  /** The count is the number of holders, and the cleanup ran once, if at all, with everything in place. */
  ghost predicate SnapBase(x: Snap, holders: nat, replaced: bool) {
    && x.refs == holders
    && x.runs == (if x.cleanOnce then 1 else 0)
    && (x.cleanOnce ==> x.retired)
    && (x.retired ==> x.cleanupSet && replaced)
  }

  /** What holds of one snapshot. */
  ghost predicate SnapOk(st: State, s: nat)
    requires s < |st.snaps|
  {
    var x := st.snaps[s];
    && SnapBase(x, Holders(st.threads, s), s < |st.snaps| - 1)
    && (s < |st.snaps| - 1 && !x.retired ==> exists t | 0 <= t < |st.threads| :: Replacing(st.threads[t], s))
    && (x.retired && x.refs == 0 && !x.cleanOnce ==> exists t | 0 <= t < |st.threads| :: WillNotice(st.threads[t], s))
  }

  /** Readers exclude the writer, and there is one writer. */
  ghost predicate LockOk(threads: seq<PC>) {
    forall t, u | 0 <= t < |threads| && 0 <= u < |threads| && t != u && Writing(threads[t]) ::
      !Writing(threads[u]) && !Reading(threads[u])
  }

  /** Each replaced snapshot is retired by one thread. */
  ghost predicate OneReplacer(threads: seq<PC>) {
    forall t, u | 0 <= t < |threads| && 0 <= u < |threads| && t != u && IsReplacing(threads[t]) ::
      !Replacing(threads[u], threads[t].s)
  }

  predicate IsReplacing(pc: PC) {
    pc.SwapStored? || pc.RetBegin? || pc.RetCleanup?
  }

  ghost predicate Inv(st: State) {
    && WellFormed(st)
    && LockOk(st.threads) && OneReplacer(st.threads)
    && (forall t | 0 <= t < |st.threads| :: ThreadOk(st.snaps, st.threads[t]))
    && (forall s | 0 <= s < |st.snaps| :: SnapOk(st, s))
  }

  lemma {:induction false} HoldersUpdate(threads: seq<PC>, t: nat, pc: PC, s: nat)
    requires t < |threads|
    ensures Holders(threads[t := pc], s) + (if Counts(threads[t], s) then 1 else 0) ==
            Holders(threads, s) + (if Counts(pc, s) then 1 else 0)
  {
    hide Counts;
    var n := |threads| - 1;
    if t == n {
      assert threads[t := pc][..n] == threads[..n];
    } else {
      HoldersUpdate(threads[..n], t, pc, s);
      assert threads[t := pc][..n] == threads[..n][t := pc];
    }
  }

  lemma {:induction false} NoHolders(threads: seq<PC>, s: nat)
    requires forall t | 0 <= t < |threads| :: !Counts(threads[t], s)
    ensures Holders(threads, s) == 0
  {
    if threads != [] {
      NoHolders(threads[..|threads| - 1], s);
    }
  }

  /*** Every step keeps the invariant ***/

  /** Going on never takes the lock. */
  lemma GoTakesNoLock(st: State, a: Action)
    requires WellFormed(st) && Enabled(st, a) && a.Go?
    ensures Writing(Step(st, a).threads[a.t]) ==> Writing(st.threads[a.t])
    ensures Reading(Step(st, a).threads[a.t]) ==> Reading(st.threads[a.t])
  {
  }

  lemma StepKeepsLock(st: State, a: Action)
    requires Inv(st) && Enabled(st, a)
    ensures LockOk(Step(st, a).threads)
  {
    hide OneReplacer, SnapOk, ThreadOk;
    var st' := Step(st, a);
    if a.Go? {
      GoTakesNoLock(st, a);
    }
  }

  lemma StepKeepsReplacer(st: State, a: Action)
    requires Inv(st) && Enabled(st, a)
    ensures OneReplacer(Step(st, a).threads)
  {
    hide Step, SnapOk, ThreadOk, LockOk;
    var st' := Step(st, a);
    forall t, u | 0 <= t < |st'.threads| && 0 <= u < |st'.threads| && t != u && IsReplacing(st'.threads[t])
      ensures !Replacing(st'.threads[u], st'.threads[t].s)
    {
      StepKeepsReplacerPair(st, a, t, u);
    }
  }

  lemma StepKeepsReplacerPair(st: State, a: Action, t: nat, u: nat)
    requires Inv(st) && Enabled(st, a) && t < |Step(st, a).threads| && u < |Step(st, a).threads| && t != u
    requires IsReplacing(Step(st, a).threads[t])
    ensures !Replacing(Step(st, a).threads[u], Step(st, a).threads[t].s)
  {
    hide Inv, NoWriter, LockFree;
    InvParts(st, t, u);
    InvParts(st, u, t);
    var st' := Step(st, a);
    if t == a.t {
      assert st'.threads[u] == st.threads[u];
      assert a.Go? && (IsReplacing(st.threads[t]) || st.threads[t].SwapLoaded?);
    } else if u == a.t {
      assert st'.threads[t] == st.threads[t];
      assert IsReplacing(st'.threads[u]) ==> a.Go? && (IsReplacing(st.threads[u]) || st.threads[u].SwapLoaded?);
    }
  }

  lemma StepKeepsThread(st: State, a: Action, t: nat)
    requires Inv(st) && Enabled(st, a) && t < |st.threads|
    ensures ThreadOk(Step(st, a).snaps, Step(st, a).threads[t])
  {
    hide SnapOk, LockOk, OneReplacer;
    assert ThreadOk(st.snaps, st.threads[t]);
    if t == a.t {
      CurrentIsNotRetired(st);
      MovedThreadOk(st, a);
    } else {
      OtherThreadOk(st, a, t);
    }
  }

  lemma MovedThreadOk(st: State, a: Action)
    requires WellFormed(st) && Enabled(st, a) && ThreadOk(st.snaps, st.threads[a.t])
             && !st.snaps[|st.snaps| - 1].retired
    ensures ThreadOk(Step(st, a).snaps, Step(st, a).threads[a.t])
  {
  }

  lemma CurrentIsNotRetired(st: State)
    requires Inv(st)
    ensures !st.snaps[|st.snaps| - 1].retired
  {
    assert SnapOk(st, |st.snaps| - 1);
  }

  lemma OtherThreadOk(st: State, a: Action, t: nat)
    requires Inv(st) && Enabled(st, a) && t < |st.threads| && t != a.t
    ensures ThreadOk(Step(st, a).snaps, Step(st, a).threads[t])
  {
    hide SnapOk, Inv;
    InvParts(st, t, a.t);
    var st' := Step(st, a);
    if a.Go? && st.threads[a.t].SwapLoaded? {
      assert !Reading(st.threads[t]) && !Writing(st.threads[t]);
    } else if a.Go? && st.threads[a.t].RetCleanup? {
      assert !Replacing(st.threads[t], st.threads[a.t].s);
    }
  }

  lemma InvParts(st: State, t: nat, u: nat)
    requires Inv(st) && t < |st.threads| && u < |st.threads| && t != u
    ensures WellFormed(st) && ThreadOk(st.snaps, st.threads[t]) && ThreadOk(st.snaps, st.threads[u])
    ensures Writing(st.threads[u]) ==> !Writing(st.threads[t]) && !Reading(st.threads[t])
    ensures IsReplacing(st.threads[u]) ==> !Replacing(st.threads[t], st.threads[u].s)
  {
    hide SnapOk;
  }

  lemma StepKeepsBase(st: State, a: Action, s: nat)
    requires WellFormed(st) && Enabled(st, a) && s < |st.snaps| && ThreadOk(st.snaps, st.threads[a.t])
    requires SnapBase(st.snaps[s], Holders(st.threads, s), s < |st.snaps| - 1)
    ensures SnapBase(Step(st, a).snaps[s], Holders(Step(st, a).threads, s), s < |Step(st, a).snaps| - 1)
  {
    hide Holders, NoWriter, LockFree;
    HoldersUpdate(st.threads, a.t, Step(st, a).threads[a.t], s);
  }

  lemma StepKeepsSnap(st: State, a: Action, s: nat)
    requires Inv(st) && Enabled(st, a) && s < |Step(st, a).snaps|
    ensures SnapOk(Step(st, a), s)
  {
    hide LockOk, OneReplacer, Holders, SnapBase, ThreadOk, Step, Enabled;
    var st' := Step(st, a);
    SameThreads(st, a);
    assert ThreadOk(st.snaps, st.threads[a.t]);
    if s >= |st.snaps| {
      NewSnapOk(st, a);
    } else {
      assert SnapOk(st, s);
      StepKeepsBase(st, a, s);
      if s < |st'.snaps| - 1 && !st'.snaps[s].retired {
        ReplacerStays(st, a, s);
      }
      if st'.snaps[s].retired && st'.snaps[s].refs == 0 && !st'.snaps[s].cleanOnce {
        NoticerStays(st, a, s);
      }
    }
  }

  lemma SameThreads(st: State, a: Action)
    requires WellFormed(st) && Enabled(st, a)
    ensures a.t < |st.threads| == |Step(st, a).threads|
    ensures |st.snaps| <= |Step(st, a).snaps| <= |st.snaps| + 1
  {
  }

  lemma NewSnapOk(st: State, a: Action)
    requires Inv(st) && Enabled(st, a) && |Step(st, a).snaps| == |st.snaps| + 1
    ensures SnapOk(Step(st, a), |st.snaps|)
  {
    hide LockOk, OneReplacer, SnapOk;
    var n := |st.snaps|;
    forall t | 0 <= t < |st.threads| ensures !Counts(Step(st, a).threads[t], n) {
      assert ThreadOk(st.snaps, st.threads[t]);
    }
    NoHolders(Step(st, a).threads, n);
    assert SnapOk(Step(st, a), n) by {
      assert Step(st, a).snaps[n] == FRESH;
      NewSnapFacts(Step(st, a), n);
    }
  }

  lemma NewSnapFacts(st: State, s: nat)
    requires s == |st.snaps| - 1 && st.snaps[s] == FRESH && Holders(st.threads, s) == 0
    ensures SnapOk(st, s)
  {
  }

  lemma ReplacerStays(st: State, a: Action, s: nat)
    requires Inv(st) && Enabled(st, a) && s < |st.snaps| && s < |Step(st, a).snaps| - 1 && !Step(st, a).snaps[s].retired
    ensures exists t | 0 <= t < |st.threads| :: Replacing(Step(st, a).threads[t], s)
  {
    hide LockOk, OneReplacer, Holders;
    var st' := Step(st, a);
    assert SnapOk(st, s) && ThreadOk(st.snaps, st.threads[a.t]);
    if s == |st.snaps| - 1 {
      assert Replacing(st'.threads[a.t], s);
    } else {
      var t :| 0 <= t < |st.threads| && Replacing(st.threads[t], s);
      assert Replacing(st'.threads[t], s);
    }
  }

  lemma NoticerStays(st: State, a: Action, s: nat)
    requires Inv(st) && Enabled(st, a) && s < |st.snaps|
    requires var x := Step(st, a).snaps[s]; x.retired && x.refs == 0 && !x.cleanOnce
    ensures exists t | 0 <= t < |st.threads| :: WillNotice(Step(st, a).threads[t], s)
  {
    hide LockOk, OneReplacer, Holders;
    var st' := Step(st, a);
    assert SnapOk(st, s) && ThreadOk(st.snaps, st.threads[a.t]);
    if !st.snaps[s].retired || st.snaps[s].refs != 0 {
      assert WillNotice(st'.threads[a.t], s);
    } else {
      var t :| 0 <= t < |st.threads| && WillNotice(st.threads[t], s);
      assert WillNotice(st'.threads[t], s);
    }
  }

  lemma StepKeepsInv(st: State, a: Action)
    requires Inv(st) && Enabled(st, a)
    ensures Inv(Step(st, a))
  {
    StepKeepsLock(st, a);
    StepKeepsReplacer(st, a);
    var st' := Step(st, a);
    forall t | 0 <= t < |st'.threads| ensures ThreadOk(st'.snaps, st'.threads[t]) {
      StepKeepsThread(st, a, t);
    }
    forall s | 0 <= s < |st'.snaps| ensures SnapOk(st', s) {
      StepKeepsSnap(st, a, s);
    }
    StaysWellFormed(st, a);
  }

  lemma StaysWellFormed(st: State, a: Action)
    requires WellFormed(st) && Enabled(st, a)
    ensures WellFormed(Step(st, a))
  {
  }

  /*** Runs ***/

  function Init(threads: nat): State {
    State([FRESH], seq(threads, _ => Idle))
  }

  ghost predicate CanRun(st: State, acts: seq<Action>)
    decreases |acts|
  {
    acts == [] || (WellFormed(st) && Enabled(st, acts[0]) && CanRun(Step(st, acts[0]), acts[1..]))
  }

  ghost function After(st: State, acts: seq<Action>): State
    requires CanRun(st, acts)
    decreases |acts|
  {
    if acts == [] then st else After(Step(st, acts[0]), acts[1..])
  }

  lemma InitInv(threads: nat)
    ensures Inv(Init(threads))
  {
    NoHolders(Init(threads).threads, 0);
  }

  lemma {:induction false} RunKeepsInv(st: State, acts: seq<Action>)
    requires Inv(st) && CanRun(st, acts)
    ensures Inv(After(st, acts))
    decreases |acts|
  {
    hide Inv, Step, Enabled;
    if acts != [] {
      StepKeepsInv(st, acts[0]);
      RunKeepsInv(Step(st, acts[0]), acts[1..]);
    }
  }

  /*** Never lost, at most once ***/

  /** A cleanup runs at most once, only after its snapshot was retired, and never before it was set. */
  lemma CleanupAtMostOnce(threads: nat, acts: seq<Action>, s: nat)
    requires CanRun(Init(threads), acts) && s < |After(Init(threads), acts).snaps|
    ensures var x := After(Init(threads), acts).snaps[s];
            x.runs <= 1 && (x.runs == 1 ==> x.retired && x.cleanupSet)
  {
    hide CanRun, After;
    InitInv(threads);
    RunKeepsInv(Init(threads), acts);
    assert SnapOk(After(Init(threads), acts), s);
  }

  ghost predicate QuietFor(st: State, s: nat) {
    forall t | 0 <= t < |st.threads| :: Names(st.threads[t]) ==> st.threads[t].s != s
  }

  /** Once no thread works on a replaced snapshot any more, its cleanup has run. */
  lemma CleanupIsNeverLost(threads: nat, acts: seq<Action>, s: nat)
    requires CanRun(Init(threads), acts)
    requires var st := After(Init(threads), acts); s < |st.snaps| - 1 && QuietFor(st, s)
    ensures After(Init(threads), acts).snaps[s].runs == 1
  {
    hide CanRun, After;
    InitInv(threads);
    RunKeepsInv(Init(threads), acts);
    var st := After(Init(threads), acts);
    assert SnapOk(st, s);
    NoHolders(st.threads, s);
  }

  /** Retired, unreferenced and not cleaned: the retirer or the last releaser is about to notice. */
  lemma SomeoneWillNotice(threads: nat, acts: seq<Action>, s: nat)
    requires CanRun(Init(threads), acts) && s < |After(Init(threads), acts).snaps|
    requires var x := After(Init(threads), acts).snaps[s]; x.retired && x.refs == 0 && x.runs == 0
    ensures exists t | 0 <= t < |After(Init(threads), acts).threads| ::
            WillNotice(After(Init(threads), acts).threads[t], s)
  {
    hide CanRun, After;
    InitInv(threads);
    RunKeepsInv(Init(threads), acts);
    assert SnapOk(After(Init(threads), acts), s);
  }

  /*** Cleanups and holders ***/

  /** No Acquire counts a snapshot between a releaser's decrement to zero and its load of `retired`. */
  ghost predicate OutsideWindow(st: State, a: Action)
    requires WellFormed(st) && Enabled(st, a)
  {
    a.Go? && st.threads[a.t].AcqLoaded? ==>
      forall t | 0 <= t < |st.threads| :: st.threads[t] != RelZero(st.threads[a.t].s)
  }

  ghost predicate CarefulRun(st: State, acts: seq<Action>)
    decreases |acts|
  {
    acts == [] || (WellFormed(st) && Enabled(st, acts[0]) && OutsideWindow(st, acts[0])
        && CarefulRun(Step(st, acts[0]), acts[1..]))
  }

  /** Whoever is about to clean a snapshot does so with nobody holding it. */
  ghost predicate NoHolderWhenCleaning(st: State) {
    forall t | 0 <= t < |st.threads| && (st.threads[t].Cleaning? || st.threads[t].RelZero?) ::
      Holders(st.threads, st.threads[t].s) == 0
  }

  lemma CarefulStep(st: State, a: Action)
    requires Inv(st) && Enabled(st, a) && OutsideWindow(st, a) && NoHolderWhenCleaning(st)
    ensures NoHolderWhenCleaning(Step(st, a))
  {
    var st' := Step(st, a);
    forall t | 0 <= t < |st'.threads| && (st'.threads[t].Cleaning? || st'.threads[t].RelZero?)
      ensures Holders(st'.threads, st'.threads[t].s) == 0
    {
      CarefulStepAt(st, a, t);
    }
  }

  lemma CarefulStepAt(st: State, a: Action, t: nat)
    requires Inv(st) && Enabled(st, a) && OutsideWindow(st, a) && NoHolderWhenCleaning(st)
    requires t < |Step(st, a).threads| && (Step(st, a).threads[t].Cleaning? || Step(st, a).threads[t].RelZero?)
    ensures Holders(Step(st, a).threads, Step(st, a).threads[t].s) == 0
  {
    hide LockOk, OneReplacer, Holders, NoWriter, LockFree;
    var st' := Step(st, a);
    var s := st'.threads[t].s;
    HoldersUpdate(st.threads, a.t, st'.threads[a.t], s);
    assert ThreadOk(st.snaps, st.threads[a.t]) && ThreadOk(st.snaps, st.threads[t]);
    CurrentIsNotRetired(st);
    assert SnapOk(st, s);
    assert t != a.t ==> st'.threads[t] == st.threads[t];
  }

  lemma {:induction false} CarefulRunIsClean(st: State, acts: seq<Action>)
    requires Inv(st) && NoHolderWhenCleaning(st) && CarefulRun(st, acts)
    ensures CanRun(st, acts) && Inv(After(st, acts)) && NoHolderWhenCleaning(After(st, acts))
    decreases |acts|
  {
    hide Inv, NoHolderWhenCleaning, Step, Enabled, OutsideWindow;
    if acts != [] {
      StepKeepsInv(st, acts[0]);
      CarefulStep(st, acts[0]);
      CarefulRunIsClean(Step(st, acts[0]), acts[1..]);
    }
  }

  lemma {:induction false} HolderCounts(threads: seq<PC>, t: nat, s: nat)
    requires t < |threads| && Counts(threads[t], s)
    ensures Holders(threads, s) >= 1
  {
    if t < |threads| - 1 {
      HolderCounts(threads[..|threads| - 1], t, s);
    }
  }

  /** In every run outside the window, a thread that cleans a snapshot finds no holder of it. */
  lemma CleansWithoutHolders(threads: nat, acts: seq<Action>, t: nat, u: nat)
    requires CarefulRun(Init(threads), acts) && CanRun(Init(threads), acts)
    requires var st := After(Init(threads), acts); t < |st.threads| && u < |st.threads| && st.threads[t].Cleaning?
    ensures var st := After(Init(threads), acts); st.threads[u] != Holding(st.threads[t].s)
  {
    hide CarefulRun, CanRun, After, Inv;
    InitInv(threads);
    CarefulRunIsClean(Init(threads), acts);
    var st := After(Init(threads), acts);
    if st.threads[u] == Holding(st.threads[t].s) {
      HolderCounts(st.threads, u, st.threads[t].s);
    }
  }

  /**
   The window is the only way: from every state in which a holder has slipped into it, a swap by an idle
   thread leads to the cleanup running under that holder.
   */
  lemma WindowLetsCleanupRunEarly(st: State, s: nat, releaser: nat, holder: nat,
                                  swapper: nat) returns (acts: seq<Action>)
    requires Inv(st) && LockFree(st) && s == |st.snaps| - 1
    requires releaser < |st.threads| && st.threads[releaser] == RelZero(s)
    requires holder < |st.threads| && st.threads[holder] == Holding(s)
    requires swapper < |st.threads| && st.threads[swapper] == Idle
    ensures CanRun(st, acts)
    ensures var st' := After(st, acts);
            && s < |st'.snaps| && st'.snaps[s].runs == 1
            && holder < |st'.threads| && st'.threads[holder] == Holding(s)
  {
    assert SnapOk(st, s);
    hide SnapOk, Holders, LockOk, OneReplacer;
    var swap := [Swap(swapper), Go(swapper), Go(swapper), Go(swapper), Go(swapper), Go(swapper)];
    var clean := [Go(releaser), Go(releaser)];
    acts := swap + clean;
    var marked := SwapMarks(st, s, swapper);
    var cleaned := CleanRuns(marked, s, releaser);
    RunsJoin(st, swap, clean);
  }

  /** The six instructions of a swap, run without interruption. */
  lemma SwapMarks(st: State, s: nat, v: nat) returns (st': State)
    requires WellFormed(st) && LockFree(st) && s == |st.snaps| - 1 && v < |st.threads| && st.threads[v] == Idle
    ensures var acts := [Swap(v), Go(v), Go(v), Go(v), Go(v), Go(v)]; CanRun(st, acts) && st' == After(st, acts)
    ensures WellFormed(st') && |st'.snaps| == |st.snaps| + 1 && st'.threads == st.threads[v := RetMarked(s)]
    ensures st'.snaps[s] == st.snaps[s].(cleanupSet := true, retired := true)
  {
    hide CanRun, After, LockFree;
    var stored := SwapStores(st, s, v);
    st' := RetireMarks(stored, s, v);
    RunsJoin(st, [Swap(v), Go(v), Go(v)], [Go(v), Go(v), Go(v)]);
    assert [Swap(v), Go(v), Go(v)] + [Go(v), Go(v), Go(v)] == [Swap(v), Go(v), Go(v), Go(v), Go(v), Go(v)];
  }

  lemma SwapStores(st: State, s: nat, v: nat) returns (st': State)
    requires WellFormed(st) && LockFree(st) && s == |st.snaps| - 1 && v < |st.threads| && st.threads[v] == Idle
    ensures CanRun(st, [Swap(v), Go(v), Go(v)]) && st' == After(st, [Swap(v), Go(v), Go(v)])
    ensures WellFormed(st') && st' == At(st.(snaps := st.snaps + [FRESH]), v, SwapStored(s))
  {
    var a1 := At(st, v, SwapLocked);
    var a2 := At(st, v, SwapLoaded(s));
    st' := At(st.(snaps := st.snaps + [FRESH]), v, SwapStored(s));
    RunOne(a2, Go(v), [], st');
    RunOne(a1, Go(v), [Go(v)], a2);
    RunOne(st, Swap(v), [Go(v), Go(v)], a1);
  }

  lemma RetireMarks(st: State, s: nat, v: nat) returns (st': State)
    requires WellFormed(st) && s < |st.snaps| && v < |st.threads| && st.threads[v] == SwapStored(s)
    ensures CanRun(st, [Go(v), Go(v), Go(v)]) && st' == After(st, [Go(v), Go(v), Go(v)])
    ensures WellFormed(st') && st' == At(Put(st, s, st.snaps[s].(cleanupSet := true, retired := true)), v, RetMarked(s))
  {
    var a1 := At(st, v, RetBegin(s));
    var a2 := At(Put(st, s, st.snaps[s].(cleanupSet := true)), v, RetCleanup(s));
    st' := At(Put(st, s, st.snaps[s].(cleanupSet := true, retired := true)), v, RetMarked(s));
    RunOne(a2, Go(v), [], st');
    RunOne(a1, Go(v), [Go(v)], a2);
    RunOne(st, Go(v), [Go(v), Go(v)], a1);
  }

  /** A releaser that finds its snapshot retired runs the cleanup. */
  lemma CleanRuns(st: State, s: nat, t: nat) returns (st': State)
    requires WellFormed(st) && s < |st.snaps| && t < |st.threads| && st.threads[t] == RelZero(s)
    requires st.snaps[s].retired && !st.snaps[s].cleanOnce
    ensures CanRun(st, [Go(t), Go(t)]) && st' == After(st, [Go(t), Go(t)])
    ensures st'.threads == st.threads[t := Idle] && |st'.snaps| == |st.snaps|
            && st'.snaps[s].runs == st.snaps[s].runs + 1
  {
    var a1 := At(st, t, Cleaning(s));
    st' := At(Put(a1, s, st.snaps[s].(cleanOnce := true, runs := st.snaps[s].runs + 1)), t, Idle);
    RunOne(a1, Go(t), [], st');
    RunOne(st, Go(t), [Go(t)], a1);
  }

  lemma RunOne(st: State, a: Action, rest: seq<Action>, st': State)
    requires WellFormed(st) && Enabled(st, a) && Step(st, a) == st' && CanRun(st', rest)
    ensures CanRun(st, [a] + rest) && After(st, [a] + rest) == After(st', rest)
  {
    hide Step, Enabled, WellFormed;
    assert ([a] + rest)[1..] == rest;
  }

  lemma {:induction false} RunsJoin(st: State, a: seq<Action>, b: seq<Action>)
    requires CanRun(st, a) && CanRun(After(st, a), b)
    ensures CanRun(st, a + b) && After(st, a + b) == After(After(st, a), b)
    decreases |a|
  {
    hide Step, Enabled, WellFormed;
    if a == [] {
      assert a + b == b;
    } else {
      RunsJoin(Step(st, a[0]), a[1..], b);
      assert (a + b)[1..] == a[1..] + b;
    }
  }

  lemma AcquireHolds(st: State, v: nat) returns (st': State)
    requires WellFormed(st) && LockFree(st) && v < |st.threads| && st.threads[v] == Idle
    ensures var acts := [Acquire(v), Go(v), Go(v), Go(v)]; CanRun(st, acts) && st' == After(st, acts)
    ensures var s := |st.snaps| - 1;
            && WellFormed(st') && LockFree(st')
            && st' == At(Put(st, s, st.snaps[s].(refs := st.snaps[s].refs + 1)), v, Holding(s))
  {
    var s := |st.snaps| - 1;
    var a1 := At(st, v, AcqLocked);
    var a2 := At(st, v, AcqLoaded(s));
    st' := CountHolds(a2, s, v);
    RunOne(a1, Go(v), [Go(v), Go(v)], a2);
    RunOne(st, Acquire(v), [Go(v), Go(v), Go(v)], a1);
  }

  lemma CountHolds(st: State, s: nat, v: nat) returns (st': State)
    requires WellFormed(st) && s < |st.snaps| && v < |st.threads| && st.threads[v] == AcqLoaded(s)
    ensures CanRun(st, [Go(v), Go(v)]) && st' == After(st, [Go(v), Go(v)])
    ensures WellFormed(st') && st' == At(Put(st, s, st.snaps[s].(refs := st.snaps[s].refs + 1)), v, Holding(s))
  {
    var a1 := At(Put(st, s, st.snaps[s].(refs := st.snaps[s].refs + 1)), v, AcqCounted(s));
    st' := At(a1, v, Holding(s));
    RunOne(a1, Go(v), [], st');
    RunOne(st, Go(v), [Go(v)], a1);
  }

  /** A run of three threads in which a cleanup runs under a live holder. */
  lemma EarlyCleanupHappens() returns (acts: seq<Action>)
    ensures CanRun(Init(3), acts)
    ensures var st := After(Init(3), acts);
            && 0 < |st.snaps| && st.snaps[0].runs == 1
            && 1 < |st.threads| && st.threads[1] == Holding(0)
  {
    hide CanRun, After, Inv;
    var first, release := [Acquire(0), Go(0), Go(0), Go(0)], [Release(0)];
    var second := [Acquire(1), Go(1), Go(1), Go(1)];
    var st := Init(3);
    var a := AcquireHolds(st, 0);
    var b := At(Put(a, 0, FRESH), 0, RelZero(0));
    assert CanRun(b, []) && After(b, []) == b by { NoActions(b); }
    RunOne(a, Release(0), [], b);
    assert release + [] == release;
    var c := AcquireHolds(b, 1);
    RunsJoin(st, first, release);
    RunsJoin(st, first + release, second);
    InitInv(3);
    RunKeepsInv(st, first + release + second);
    var rest := WindowLetsCleanupRunEarly(c, 0, 0, 1, 2);
    RunsJoin(st, first + release + second, rest);
    acts := first + release + second + rest;
  }

  lemma NoActions(st: State)
    ensures CanRun(st, []) && After(st, []) == st
  {
  }
}
