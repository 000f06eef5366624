/**
 A bucket measured in refill credit instead of time.

 Multiplying every timestamp of a token bucket run by the fill rate turns it into a run of this
 machine, whose arithmetic is linear. The arrival-curve results are proved here once, for every
 non-decreasing sequence of credits, and carried back to time by the TokenBucket module.
 */
module CreditBucket {
  import opened Basics

  datatype Bucket = Bucket(tokens: real, at: real)

  datatype Request = Request(cost: real, at: real)

  /** Tokens available at credit `at`; a missing bucket is full. */
  function Level(b: Option<Bucket>, capacity: real, at: real): real {
    match b
    case None => capacity
    case Some(b) => Max(0.0, Min(capacity, b.tokens + Max(0.0, at - b.at)))
  }

  predicate Admits(b: Option<Bucket>, capacity: real, r: Request) {
    Level(b, capacity, r.at) >= r.cost
  }

  function Step(b: Option<Bucket>, capacity: real, r: Request): Option<Bucket> {
    if Admits(b, capacity, r) then Some(Bucket(Level(b, capacity, r.at) - r.cost, r.at)) else b
  }

  ghost predicate ValidRun(reqs: seq<Request>) {
    && (forall i | 0 <= i < |reqs| :: reqs[i].cost >= 0.0)
    && (forall i, j | 0 <= i <= j < |reqs| :: reqs[i].at <= reqs[j].at)
  }

  function After(capacity: real, reqs: seq<Request>, n: nat): Option<Bucket>
    requires n <= |reqs|
  {
    if n == 0 then None else Step(After(capacity, reqs, n - 1), capacity, reqs[n - 1])
  }

  predicate AdmittedAt(capacity: real, reqs: seq<Request>, k: nat)
    requires k < |reqs|
  {
    Admits(After(capacity, reqs, k), capacity, reqs[k])
  }

  /** Total cost admitted by requests `i` up to but not including `n`. */
  function Spent(capacity: real, reqs: seq<Request>, i: nat, n: nat): real
    requires n <= |reqs|
    decreases n
  {
    if n <= i then 0.0
    else Spent(capacity, reqs, i, n - 1) + if AdmittedAt(capacity, reqs, n - 1) then reqs[n - 1].cost else 0.0
  }

  /** What the arrival curve anchored at request `i` leaves at credit `at`, after `n` requests. */
  function Budget(capacity: real, reqs: seq<Request>, i: nat, n: nat, at: real): real
    requires i < n <= |reqs|
  {
    capacity + at - reqs[i].at - Spent(capacity, reqs, i, n)
  }

  ghost predicate LeastBudget(level: real, capacity: real, reqs: seq<Request>, n: nat, at: real)
    requires n <= |reqs|
  {
    && 0.0 <= level <= capacity
    && (forall i | 0 <= i < n :: level <= Budget(capacity, reqs, i, n, at))
    && (level == capacity || exists i | 0 <= i < n :: level == Budget(capacity, reqs, i, n, at))
  }

  /** After an admission every budget is down by its cost, and there is a new one. */
  lemma AdmittedStep(capacity: real, reqs: seq<Request>, n: nat, at: real)
    requires capacity >= 0.0 && ValidRun(reqs) && 0 < n <= |reqs| && reqs[n - 1].at <= at
    requires AdmittedAt(capacity, reqs, n - 1)
    requires LeastBudget(Level(After(capacity, reqs, n - 1), capacity, reqs[n - 1].at), capacity, reqs, n - 1,
                         reqs[n - 1].at)
    ensures LeastBudget(Level(After(capacity, reqs, n), capacity, at), capacity, reqs, n, at)
  {
    var r := reqs[n - 1];
    var before := Level(After(capacity, reqs, n - 1), capacity, r.at);
    var level := Level(After(capacity, reqs, n), capacity, at);
    assert level == Min(capacity, before - r.cost + at - r.at);
    forall i | 0 <= i < n - 1
      ensures Budget(capacity, reqs, i, n, at) == Budget(capacity, reqs, i, n - 1, r.at) - r.cost + at - r.at
    {
    }
    assert Spent(capacity, reqs, n - 1, n - 1) == 0.0;
    assert Budget(capacity, reqs, n - 1, n, at) == capacity - r.cost + at - r.at;
    if before < capacity {
      var i :| 0 <= i < n - 1 && before == Budget(capacity, reqs, i, n - 1, r.at);
      assert level == capacity || level == Budget(capacity, reqs, i, n, at);
    }
  }

  /** A denial changes no budget. */
  lemma DeniedStep(capacity: real, reqs: seq<Request>, n: nat, at: real)
    requires capacity >= 0.0 && ValidRun(reqs) && 0 < n <= |reqs| && reqs[n - 1].at <= at
    requires !AdmittedAt(capacity, reqs, n - 1)
    requires LeastBudget(Level(After(capacity, reqs, n - 1), capacity, at), capacity, reqs, n - 1, at)
    ensures LeastBudget(Level(After(capacity, reqs, n), capacity, at), capacity, reqs, n, at)
  {
    var level := Level(After(capacity, reqs, n), capacity, at);
    assert Spent(capacity, reqs, n - 1, n - 1) == 0.0;
    forall i | 0 <= i < n - 1
      ensures Budget(capacity, reqs, i, n, at) == Budget(capacity, reqs, i, n - 1, at)
    {
    }
    if level < capacity {
      var i :| 0 <= i < n - 1 && level == Budget(capacity, reqs, i, n - 1, at);
      assert level == Budget(capacity, reqs, i, n, at);
    }
  }

  /** The level is the least of all budgets, capped by the capacity. */
  lemma {:induction false} LevelIsLeastBudget(capacity: real, reqs: seq<Request>, n: nat, at: real)
    requires capacity >= 0.0 && ValidRun(reqs) && n <= |reqs|
    requires n > 0 ==> reqs[n - 1].at <= at
    ensures LeastBudget(Level(After(capacity, reqs, n), capacity, at), capacity, reqs, n, at)
  {
    if n > 0 {
      hide LeastBudget, Level, After, AdmittedAt;
      if AdmittedAt(capacity, reqs, n - 1) {
        LevelIsLeastBudget(capacity, reqs, n - 1, reqs[n - 1].at);
        AdmittedStep(capacity, reqs, n, at);
      } else {
        LevelIsLeastBudget(capacity, reqs, n - 1, at);
        DeniedStep(capacity, reqs, n, at);
      }
    }
  }

  /** A request is admitted exactly when every arrival curve it lies under has room for it. */
  lemma AdmittedIffCurveHasRoom(capacity: real, reqs: seq<Request>, k: nat)
    requires capacity >= 0.0 && ValidRun(reqs) && k < |reqs|
    ensures AdmittedAt(capacity, reqs, k) <==>
            && reqs[k].cost <= capacity
            && forall i | 0 <= i < k ::
                 Spent(capacity, reqs, i, k) + reqs[k].cost <= capacity + (reqs[k].at - reqs[i].at)
  {
    LevelIsLeastBudget(capacity, reqs, k, reqs[k].at);
    forall i | 0 <= i < k
      ensures Budget(capacity, reqs, i, k, reqs[k].at) ==
              capacity + (reqs[k].at - reqs[i].at) - Spent(capacity, reqs, i, k)
    {
    }
  }
}
