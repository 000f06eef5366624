/**
 Reference-counted Service membership (hyper-operator/internal/identity/index.go).

 Several EndpointSlices can put the same pod or address into the same Service; `addRef` and `dropRef`
 count them. Here the counts are tied to the slices they come from.
 */
module RefCounts {

  datatype ServiceRef = ServiceRef(namespace: string, name: string)

  datatype SliceKey = SliceKey(namespace: string, name: string)

  ghost function Elems<T>(s: seq<T>): set<T> {
    set x | x in s
  }

  /** What one slice contributes: its Service, and the members it lists. */
  datatype Part<K> = Part(svc: ServiceRef, members: seq<K>)

  type Refs<K> = map<K, map<ServiceRef, nat>>

  function Count<K>(m: Refs<K>, k: K, ref: ServiceRef): nat {
    if k in m && ref in m[k] then m[k][ref] else 0
  }

  /** No zero counts and no empty inner maps: presence means a positive count. */
  ghost predicate NoZeros<K(!new)>(m: Refs<K>) {
    && (forall k | k in m :: m[k] != map[])
    && (forall k, ref | k in m && ref in m[k] :: m[k][ref] > 0)
  }

  function AddRef<K>(m: Refs<K>, k: K, ref: ServiceRef): Refs<K> {
    var refs := if k in m then m[k] else map[];
    m[k := refs[ref := (if ref in refs then refs[ref] else 0) + 1]]
  }

  /** Only called for a counted member; on any other the source would write to a nil map. */
  function DropRef<K>(m: Refs<K>, k: K, ref: ServiceRef): Refs<K>
    requires k in m && ref in m[k]
  {
    var refs := if m[k][ref] <= 1 then m[k] - {ref} else m[k][ref := m[k][ref] - 1];
    if refs == map[] then m - {k} else m[k := refs]
  }

  /** The Services a member belongs to. */
  function ServicesOf<K>(m: Refs<K>, k: K): set<ServiceRef> {
    if k in m then m[k].Keys else {}
  }

  lemma AddRefCounts<K(!new)>(m: Refs<K>, k: K, ref: ServiceRef)
    requires NoZeros(m)
    ensures NoZeros(AddRef(m, k, ref))
    ensures forall k', ref' :: Count(AddRef(m, k, ref), k', ref') == Count(m, k', ref') + if k' == k
            && ref' == ref then 1 else 0
  {
    var m' := AddRef(m, k, ref);
    assert ref in m'[k];
  }

  lemma DropRefCounts<K(!new)>(m: Refs<K>, k: K, ref: ServiceRef)
    requires NoZeros(m) && Count(m, k, ref) > 0
    ensures NoZeros(DropRef(m, k, ref))
    ensures forall k', ref' :: Count(DropRef(m, k, ref), k', ref') == Count(m, k', ref') - if k' == k
            && ref' == ref then 1 else 0
  {
    var refs := if m[k][ref] <= 1 then m[k] - {ref} else m[k][ref := m[k][ref] - 1];
    forall r | r in m[k] && r != ref ensures r in refs && refs[r] == m[k][r] {
    }
  }

  /*** The slices behind the counts ***/

  ghost function Contributors<K>(parts: map<SliceKey, Part<K>>, k: K, ref: ServiceRef): set<SliceKey> {
    set key | key in parts && parts[key].svc == ref && k in parts[key].members
  }

  /**
   Each count is the number of slices that contribute the member, plus one for a member of `pending`
   that the slice being added or removed right now contributes to `svc`.
   */
  ghost predicate Tracks<K(!new)>(m: Refs<K>, parts: map<SliceKey, Part<K>>, svc: ServiceRef, pending: set<K>) {
    && NoZeros(m)
    && forall k, ref :: Count(m, k, ref) == |Contributors(parts, k, ref)| + if ref == svc && k in pending then 1 else 0
  }

  /** Between operations nothing is pending. */
  ghost predicate Matches<K(!new)>(m: Refs<K>, parts: map<SliceKey, Part<K>>) {
    NoZeros(m) && forall k, ref :: Count(m, k, ref) == |Contributors(parts, k, ref)|
  }

  lemma AddRefTracks<K(!new)>(m: Refs<K>, parts: map<SliceKey, Part<K>>, svc: ServiceRef, pending: set<K>, k: K)
    requires Tracks(m, parts, svc, pending) && k !in pending
    ensures Tracks(AddRef(m, k, svc), parts, svc, pending + {k})
  {
    hide AddRef, Count, NoZeros, Contributors;
    AddRefCounts(m, k, svc);
  }

  lemma DropRefTracks<K(!new)>(m: Refs<K>, parts: map<SliceKey, Part<K>>, svc: ServiceRef, pending: set<K>, k: K)
    requires Tracks(m, parts, svc, pending) && k in pending
    ensures k in m && svc in m[k]
    ensures Tracks(DropRef(m, k, svc), parts, svc, pending - {k})
  {
    hide NoZeros, Contributors;
    assert Count(m, k, svc) > 0;
    DropRefCounts(m, k, svc);
    hide DropRef;
  }

  lemma ContributorsAdd<K>(parts: map<SliceKey, Part<K>>, key: SliceKey, p: Part<K>, k: K, ref: ServiceRef)
    requires key !in parts
    ensures |Contributors(parts[key := p], k, ref)| ==
            |Contributors(parts, k, ref)| + if p.svc == ref && k in p.members then 1 else 0
  {
    var before, after := Contributors(parts, k, ref), Contributors(parts[key := p], k, ref);
    if p.svc == ref && k in p.members {
      assert after == before + {key};
    } else {
      assert after == before;
    }
  }

  /** Once every member of the new slice is counted, the counts match the slices with it. */
  lemma StoreSlice<K(!new)>(m: Refs<K>, parts: map<SliceKey, Part<K>>, key: SliceKey, p: Part<K>)
    requires key !in parts && Tracks(m, parts, p.svc, Elems(p.members))
    ensures Matches(m, parts[key := p])
  {
    hide NoZeros;
    forall k, ref ensures Count(m, k, ref) == |Contributors(parts[key := p], k, ref)| {
      ContributorsAdd(parts, key, p, k, ref);
    }
  }

  /** A stored slice, seen as one whose members are all still to be dropped. */
  lemma UnstoreSlice<K(!new)>(m: Refs<K>, parts: map<SliceKey, Part<K>>, key: SliceKey)
    requires key in parts && Matches(m, parts)
    ensures Tracks(m, parts - {key}, parts[key].svc, Elems(parts[key].members))
  {
    hide NoZeros;
    var rest, p := parts - {key}, parts[key];
    assert rest[key := p] == parts;
    forall k, ref
      ensures Count(m, k, ref) == |Contributors(rest, k, ref)| + if ref == p.svc && k in p.members then 1 else 0
    {
      ContributorsAdd(rest, key, p, k, ref);
    }
  }

  lemma NothingPending<K(!new)>(m: Refs<K>, parts: map<SliceKey, Part<K>>, svc: ServiceRef)
    ensures Tracks(m, parts, svc, {}) <==> Matches(m, parts)
  {
    hide NoZeros, Count, Contributors;
  }

  /** A member's Services are exactly those some slice contributes it to. */
  lemma ServicesAreContributed<K(!new)>(m: Refs<K>, parts: map<SliceKey, Part<K>>, k: K, ref: ServiceRef)
    requires Matches(m, parts)
    ensures ref in ServicesOf(m, k) <==> exists key | key in parts :: parts[key].svc == ref && k in parts[key].members
  {
    assert ref in ServicesOf(m, k) <==> Count(m, k, ref) > 0;
    if key :| key in parts && parts[key].svc == ref && k in parts[key].members {
      assert key in Contributors(parts, k, ref);
    } else {
      assert Contributors(parts, k, ref) == {};
    }
  }
}
