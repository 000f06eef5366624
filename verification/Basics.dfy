/** Small shared vocabulary: an optional value, and the real arithmetic the Lua scripts use. */
module Basics {

  datatype Option<+T> = None | Some(value: T)

  function Find<K, V>(m: map<K, V>, k: K): Option<V> {
    if k in m then Some(m[k]) else None
  }

  function Max(a: real, b: real): (m: real)
    ensures m >= a && m >= b && (m == a || m == b)
  {
    if a >= b then a else b
  }

  function Min(a: real, b: real): (m: real)
    ensures m <= a && m <= b && (m == a || m == b)
  {
    if a <= b then a else b
  }

  /** Least integer not below `x` (Lua's `math.ceil`, Go's `math.Ceil`). */
  function Ceil(x: real): (c: int)
    ensures x <= c as real < x + 1.0
  {
    -((-x).Floor)
  }

  /** Product and quotient as named functions, so that proofs can hide the non-linear terms. */
  function Times(a: real, b: real): real {
    a * b
  }

  function Over(a: real, b: real): real
    requires b != 0.0
  {
    a / b
  }

  lemma TimesMonotone(a: real, b: real, r: real)
    requires r >= 0.0
    ensures a <= b ==> Times(a, r) <= Times(b, r)
  {
    if a <= b {
      assert (b - a) * r >= 0.0;
    }
  }

  lemma TimesDistributes(a: real, b: real, r: real)
    ensures Times(a - b, r) == Times(a, r) - Times(b, r)
    ensures Times(a + b, r) == Times(a, r) + Times(b, r)
    ensures Times(0.0, r) == 0.0
  {
  }

  lemma OverIsInverse(a: real, x: real, r: real)
    requires r > 0.0
    ensures Times(Over(a, r), r) == a
    ensures Over(a, r) <= x <==> a <= Times(x, r)
  {
    var q := a / r;
    assert q * r == a;
    if q <= x {
      assert (x - q) * r >= 0.0;
    } else {
      assert (q - x) * r > 0.0;
    }
  }

  lemma {:induction false} SubsetSize<T>(a: set<T>, b: set<T>)
    requires a <= b
    ensures |a| <= |b|
  {
    if a != {} {
      var x :| x in a;
      SubsetSize(a - {x}, b - {x});
    }
  }

  lemma SameMap<K(!new), V>(a: map<K, V>, b: map<K, V>)
    requires forall k :: Find(a, k) == Find(b, k)
    ensures a == b
  {
    forall k | k in a ensures k in b && b[k] == a[k] {
      assert Find(a, k) == Find(b, k);
    }
    forall k | k in b ensures k in a {
      assert Find(a, k) == Find(b, k);
    }
  }
}
