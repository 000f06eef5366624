/**
 Header changes of one request (internal/engine/context.go, internal/grpc/mutators.go).

 The context keeps, per direction, a list of headers to set, a list of names to remove and a shadow map for
 reads. The lists are edited in place by linear search and swap-with-last. `Overlay` is what they mean: a
 map of values and a set of removed names. Every phase sends the whole mutation again.
 */
module HeaderOverlay {
  import opened Text

  datatype Header<K, V> = Header(key: K, value: V)

  /*** The lists ***/

  /** The list holds exactly the pairs of `m`, each name once. */
  ghost predicate Lists<K(!new), V>(headers: seq<Header<K, V>>, m: map<K, V>) {
    && (forall i, j | 0 <= i < j < |headers| :: headers[i].key != headers[j].key)
    && (forall h | h in headers :: h.key in m && m[h.key] == h.value)
    && (forall k | k in m :: Header(k, m[k]) in headers)
  }

  /** The list holds exactly the names of `s`, each once. */
  ghost predicate ListsNames<K(!new)>(keys: seq<K>, s: set<K>) {
    && (forall i, j | 0 <= i < j < |keys| :: keys[i] != keys[j])
    && (forall k :: k in keys <==> k in s)
  }

  /** Where a name first occurs; the length if it does not. */
  function HeaderAt<K(==), V>(headers: seq<Header<K, V>>, key: K): (i: nat)
    ensures i <= |headers| && (forall j | 0 <= j < i :: headers[j].key != key)
            && (i < |headers| ==> headers[i].key == key)
  {
    if headers == [] || headers[0].key == key then 0 else 1 + HeaderAt(headers[1..], key)
  }

  function NameAt<K(==)>(keys: seq<K>, key: K): (i: nat)
    ensures i <= |keys| && (forall j | 0 <= j < i :: keys[j] != key) && (i < |keys| ==> keys[i] == key)
  {
    if keys == [] || keys[0] == key then 0 else 1 + NameAt(keys[1..], key)
  }

  function Upserted<K(==), V>(headers: seq<Header<K, V>>, key: K, value: V): seq<Header<K, V>> {
    var i := HeaderAt(headers, key);
    if i < |headers| then headers[i := Header(key, value)] else headers + [Header(key, value)]
  }

  /** Moves the last element into the place of the removed one. */
  function SwapOut<T>(s: seq<T>, i: nat): seq<T>
    requires i < |s|
  {
    s[i := s[|s| - 1]][..|s| - 1]
  }

  function WithoutHeader<K(==), V>(headers: seq<Header<K, V>>, key: K): seq<Header<K, V>> {
    var i := HeaderAt(headers, key);
    if i < |headers| then SwapOut(headers, i) else headers
  }

  function WithName<K(==)>(keys: seq<K>, key: K): seq<K> {
    if key in keys then keys else keys + [key]
  }

  function WithoutName<K(==)>(keys: seq<K>, key: K): seq<K> {
    var i := NameAt(keys, key);
    if i < |keys| then SwapOut(keys, i) else keys
  }

  method UpsertHeader<K(==), V>(headers: seq<Header<K, V>>, key: K, value: V) returns (out: seq<Header<K, V>>)
    ensures out == Upserted(headers, key, value)
  {
    for i := 0 to |headers|
      invariant forall j | 0 <= j < i :: headers[j].key != key
    {
      if headers[i].key == key {
        return headers[i := Header(key, value)];
      }
    }
    return headers + [Header(key, value)];
  }

  method RemoveHeader<K(==), V>(headers: seq<Header<K, V>>, key: K) returns (out: seq<Header<K, V>>)
    ensures out == WithoutHeader(headers, key)
  {
    for i := 0 to |headers|
      invariant forall j | 0 <= j < i :: headers[j].key != key
    {
      if headers[i].key == key {
        return headers[i := headers[|headers| - 1]][..|headers| - 1];
      }
    }
    return headers;
  }

  method ContainsKey<K(==)>(keys: seq<K>, key: K) returns (found: bool)
    ensures found <==> key in keys
  {
    for i := 0 to |keys|
      invariant key !in keys[..i]
    {
      if keys[i] == key {
        return true;
      }
    }
    return false;
  }

  method AppendKey<K(==)>(keys: seq<K>, key: K) returns (out: seq<K>)
    ensures out == WithName(keys, key)
  {
    var found := ContainsKey(keys, key);
    out := if found then keys else keys + [key];
  }

  method RemoveKey<K(==)>(keys: seq<K>, key: K) returns (out: seq<K>)
    ensures out == WithoutName(keys, key)
  {
    for i := 0 to |keys|
      invariant forall j | 0 <= j < i :: keys[j] != key
    {
      if keys[i] == key {
        return keys[i := keys[|keys| - 1]][..|keys| - 1];
      }
    }
    return keys;
  }

  /** On a duplicate-free list, overwriting or appending is a map update. */
  lemma UpsertedLists<K(!new), V>(headers: seq<Header<K, V>>, key: K, value: V, m: map<K, V>)
    requires Lists(headers, m)
    ensures Lists(Upserted(headers, key, value), m[key := value])
  {
    hide Lists;
    var i := HeaderAt(headers, key);
    if i < |headers| {
      Overwritten(headers, i, value, m);
    } else {
      Appended(headers, key, value, m);
    }
  }

  lemma WithoutHeaderLists<K(!new), V>(headers: seq<Header<K, V>>, key: K, m: map<K, V>)
    requires Lists(headers, m)
    ensures Lists(WithoutHeader(headers, key), m - {key})
  {
    hide Lists;
    var i := HeaderAt(headers, key);
    if i < |headers| {
      SwappedOut(headers, i, m);
    } else {
      Absent(headers, key, m);
    }
  }

  lemma WithNameLists<K(!new)>(keys: seq<K>, key: K, s: set<K>)
    requires ListsNames(keys, s)
    ensures ListsNames(WithName(keys, key), s + {key})
  {
  }

  lemma WithoutNameLists<K(!new)>(keys: seq<K>, key: K, s: set<K>)
    requires ListsNames(keys, s)
    ensures ListsNames(WithoutName(keys, key), s - {key})
  {
    var i := NameAt(keys, key);
    if i < |keys| {
      NameSwappedOut(keys, i, s);
    }
  }

  lemma Overwritten<K(!new), V>(headers: seq<Header<K, V>>, i: nat, value: V, m: map<K, V>)
    requires Lists(headers, m) && i < |headers|
    ensures var k := headers[i].key; Lists(headers[i := Header(k, value)], m[k := value])
  {
    var k := headers[i].key;
    var out, m' := headers[i := Header(k, value)], m[k := value];
    forall h | h in out ensures h.key in m' && m'[h.key] == h.value {
      var j :| 0 <= j < |out| && out[j] == h;
      if j != i {
        assert headers[j] in headers;
      }
    }
    forall x | x in m' ensures Header(x, m'[x]) in out {
      if x == k {
        assert out[i] == Header(k, value);
      } else {
        var j :| 0 <= j < |headers| && headers[j] == Header(x, m[x]);
        assert out[j] == headers[j];
      }
    }
  }

  lemma Appended<K(!new), V>(headers: seq<Header<K, V>>, key: K, value: V, m: map<K, V>)
    requires Lists(headers, m) && forall j | 0 <= j < |headers| :: headers[j].key != key
    ensures Lists(headers + [Header(key, value)], m[key := value])
  {
    var out, m' := headers + [Header(key, value)], m[key := value];
    forall x | x in m' ensures Header(x, m'[x]) in out {
      if x == key {
        assert out[|headers|] == Header(key, value);
      } else {
        var j :| 0 <= j < |headers| && headers[j] == Header(x, m[x]);
        assert out[j] == headers[j];
      }
    }
  }

  lemma SwappedOut<K(!new), V>(headers: seq<Header<K, V>>, i: nat, m: map<K, V>)
    requires Lists(headers, m) && i < |headers|
    ensures Lists(SwapOut(headers, i), m - {headers[i].key})
  {
    var last := |headers| - 1;
    var out, m' := SwapOut(headers, i), m - {headers[i].key};
    SwapOutAt(headers, i);
    hide SwapOut;
    forall h | h in out ensures h.key in m' && m'[h.key] == h.value {
      var j :| 0 <= j < |out| && out[j] == h;
      assert headers[if j == i then last else j] in headers;
    }
    forall x | x in m' ensures Header(x, m'[x]) in out {
      var j :| 0 <= j < |headers| && headers[j] == Header(x, m[x]);
      assert out[if j == last then i else j] == headers[j];
    }
  }

  lemma SwapOutAt<T>(s: seq<T>, i: nat)
    requires i < |s|
    ensures |SwapOut(s, i)| == |s| - 1
    ensures forall j | 0 <= j < |s| - 1 :: SwapOut(s, i)[j] == s[if j == i then |s| - 1 else j]
  {
  }

  lemma Absent<K(!new), V>(headers: seq<Header<K, V>>, key: K, m: map<K, V>)
    requires Lists(headers, m) && forall j | 0 <= j < |headers| :: headers[j].key != key
    ensures Lists(headers, m - {key})
  {
    forall k | k in m ensures k != key {
      var i :| 0 <= i < |headers| && headers[i] == Header(k, m[k]);
    }
    assert m - {key} == m;
  }

  lemma NameSwappedOut<K(!new)>(keys: seq<K>, i: nat, s: set<K>)
    requires ListsNames(keys, s) && i < |keys|
    ensures ListsNames(SwapOut(keys, i), s - {keys[i]})
  {
    var last := |keys| - 1;
    var out := SwapOut(keys, i);
    forall k ensures k in out <==> k in s - {keys[i]} {
      if k in out {
        var j :| 0 <= j < |out| && out[j] == k;
        assert out[j] == keys[if j == i then last else j];
      }
      if k in s - {keys[i]} {
        var j :| 0 <= j < |keys| && keys[j] == k;
        assert out[if j == last then i else j] == k;
      }
    }
  }

  /*** What the lists mean ***/

  datatype Overlay = Overlay(sets: map<string, string>, removes: set<string>)

  const UNCHANGED := Overlay(map[], {})

  function SetIn(o: Overlay, key: string, value: string): Overlay {
    Overlay(o.sets[key := value], o.removes - {key})
  }

  function RemoveIn(o: Overlay, key: string): Overlay {
    Overlay(o.sets - {key}, o.removes + {key})
  }

  /** Headers as they go on, given the ones that came in. */
  function Effective(headers: map<string, string>, o: Overlay): map<string, string> {
    (headers - o.removes) + o.sets
  }

  /** A missing header reads as empty. */
  function Read(headers: map<string, string>, key: string): string {
    if key in headers then headers[key] else ""
  }

  ghost predicate AllLower(names: set<string>) {
    forall k | k in names :: IsLower(k)
  }

  /** The three structures of one direction agree: duplicate-free lists, disjoint, in lower case. */
  ghost predicate Represents(add: seq<Header<string, string>>, remove: seq<string>, shadow: map<string, string>,
                             o: Overlay) {
    && Lists(add, o.sets) && ListsNames(remove, o.removes) && shadow == o.sets
    && o.sets.Keys !! o.removes && AllLower(o.sets.Keys + o.removes)
  }

  lemma SetKeepsLower(o: Overlay, key: string, value: string)
    requires o.sets.Keys !! o.removes && AllLower(o.sets.Keys + o.removes)
    ensures var n := SetIn(o, Lower(key), value); n.sets.Keys !! n.removes && AllLower(n.sets.Keys + n.removes)
    ensures var n := RemoveIn(o, Lower(key)); n.sets.Keys !! n.removes && AllLower(n.sets.Keys + n.removes)
  {
    LowerIsLower(key);
    hide Lower;
  }

  /** The header part of a request context, for the request and for the response. */
  class RequestContext {
    var path: string
    var headers: map<string, string>
    var headersToAdd: seq<Header<string, string>>
    var headersToRemove: seq<string>
    var upstreamShadow: map<string, string>
    var responseHeaders: map<string, string>
    var responseHeadersToAdd: seq<Header<string, string>>
    var responseHeadersToRemove: seq<string>
    var downstreamShadow: map<string, string>

    ghost function Upstream(): Overlay
      reads this
    {
      Overlay(upstreamShadow, set k | k in headersToRemove)
    }

    ghost function Downstream(): Overlay
      reads this
    {
      Overlay(downstreamShadow, set k | k in responseHeadersToRemove)
    }

    ghost predicate Valid()
      reads this
    {
      && Represents(headersToAdd, headersToRemove, upstreamShadow, Upstream())
      && Represents(responseHeadersToAdd, responseHeadersToRemove, downstreamShadow, Downstream())
    }

    constructor ()
      ensures Valid() && Upstream() == UNCHANGED && Downstream() == UNCHANGED
      ensures path == "" && headers == map[] && responseHeaders == map[]
    {
      path, headers, responseHeaders := "", map[], map[];
      headersToAdd, headersToRemove, upstreamShadow := [], [], map[];
      responseHeadersToAdd, responseHeadersToRemove, downstreamShadow := [], [], map[];
    }

    /** Reads the request header as it will be sent upstream. */
    method GetHeader(key: string) returns (value: string)
      requires Valid()
      ensures value == Read(Effective(headers, Upstream()), key)
    {
      hide Lower, Lists, AllLower;
      if key in upstreamShadow {
        return upstreamShadow[key];
      }
      var removed := ContainsKey(headersToRemove, key);
      if removed {
        return "";
      }
      return Read(headers, key);
    }

    /** Reads the response header as it will be sent to the client, whatever the case of the name. */
    method GetResponseHeader(key: string) returns (value: string)
      requires Valid()
      ensures value == Read(Effective(responseHeaders, Downstream()), Lower(key))
    {
      hide Lists, AllLower;
      var k := Lower(key);
      hide Lower;
      if k in downstreamShadow {
        return downstreamShadow[k];
      }
      var removed := ContainsKey(responseHeadersToRemove, k);
      if removed {
        return "";
      }
      return Read(responseHeaders, k);
    }

    method SetHeaderUpstream(key: string, value: string)
      requires Valid()
      modifies `headersToAdd, `headersToRemove, `upstreamShadow
      ensures Valid() && Upstream() == SetIn(old(Upstream()), Lower(key), value)
    {
      SetKeepsLower(Upstream(), key, value);
      hide Lists, AllLower, Lower, Upserted, WithoutHeader, WithName, WithoutName;
      var k := Lower(key);
      ghost var o := Upstream();
      WithoutNameLists(headersToRemove, k, o.removes);
      UpsertedLists(headersToAdd, k, value, o.sets);
      upstreamShadow := upstreamShadow[k := value];
      headersToRemove := RemoveKey(headersToRemove, k);
      headersToAdd := UpsertHeader(headersToAdd, k, value);
      assert Upstream() == SetIn(o, k, value);
    }

    method RemoveHeaderUpstream(key: string)
      requires Valid()
      modifies `headersToAdd, `headersToRemove, `upstreamShadow
      ensures Valid() && Upstream() == RemoveIn(old(Upstream()), Lower(key))
    {
      SetKeepsLower(Upstream(), key, "");
      hide Lists, AllLower, Lower, Upserted, WithoutHeader, WithName, WithoutName;
      var k := Lower(key);
      ghost var o := Upstream();
      WithoutHeaderLists(headersToAdd, k, o.sets);
      WithNameLists(headersToRemove, k, o.removes);
      upstreamShadow := upstreamShadow - {k};
      headersToAdd := RemoveHeader(headersToAdd, k);
      headersToRemove := AppendKey(headersToRemove, k);
      assert Upstream() == RemoveIn(o, k);
    }

    method SetHeaderDownstream(key: string, value: string)
      requires Valid()
      modifies `responseHeadersToAdd, `responseHeadersToRemove, `downstreamShadow
      ensures Valid() && Downstream() == SetIn(old(Downstream()), Lower(key), value)
    {
      SetKeepsLower(Downstream(), key, value);
      hide Lists, AllLower, Lower, Upserted, WithoutHeader, WithName, WithoutName;
      var k := Lower(key);
      ghost var o := Downstream();
      WithoutNameLists(responseHeadersToRemove, k, o.removes);
      UpsertedLists(responseHeadersToAdd, k, value, o.sets);
      downstreamShadow := downstreamShadow[k := value];
      responseHeadersToRemove := RemoveKey(responseHeadersToRemove, k);
      responseHeadersToAdd := UpsertHeader(responseHeadersToAdd, k, value);
      assert Downstream() == SetIn(o, k, value);
    }

    method RemoveHeaderDownstream(key: string)
      requires Valid()
      modifies `responseHeadersToAdd, `responseHeadersToRemove, `downstreamShadow
      ensures Valid() && Downstream() == RemoveIn(old(Downstream()), Lower(key))
    {
      SetKeepsLower(Downstream(), key, "");
      hide Lists, AllLower, Lower, Upserted, WithoutHeader, WithName, WithoutName;
      var k := Lower(key);
      ghost var o := Downstream();
      WithoutHeaderLists(responseHeadersToAdd, k, o.sets);
      WithNameLists(responseHeadersToRemove, k, o.removes);
      downstreamShadow := downstreamShadow - {k};
      responseHeadersToAdd := RemoveHeader(responseHeadersToAdd, k);
      responseHeadersToRemove := AppendKey(responseHeadersToRemove, k);
      assert Downstream() == RemoveIn(o, k);
    }

    /** Rewrites the path, for later filters and for the upstream. */
    method SetPath(p: string)
      requires Valid()
      modifies `path, `headersToAdd, `headersToRemove, `upstreamShadow
      ensures Valid() && path == p && Upstream() == SetIn(old(Upstream()), ":path", p)
    {
      assert Lower(":path") == ":path";
      path := p;
      SetHeaderUpstream(":path", p);
    }
  }

  /*** The mutation sent to the proxy ***/

  datatype Mutation = NoMutation | Mutation(setHeaders: seq<Header<string, string>>, removeHeaders: seq<string>)

  function Built(headers: seq<Header<string, string>>, removes: seq<string>): Mutation {
    if headers == [] && removes == [] then NoMutation else Mutation(headers, removes)
  }

  method BuildHeaderMutation(headers: seq<Header<string, string>>, removes: seq<string>) returns (m: Mutation)
    ensures m == Built(headers, removes)
  {
    if |headers| == 0 && |removes| == 0 {
      return NoMutation;
    }
    var setHeaders := [];
    for i := 0 to |headers|
      invariant setHeaders == headers[..i]
    {
      setHeaders := setHeaders + [headers[i]];
    }
    return Mutation(setHeaders, removes);
  }

  function SetAll<K, V>(headers: map<K, V>, sets: seq<Header<K, V>>): map<K, V> {
    if sets == [] then headers
    else var last := sets[|sets| - 1]; SetAll(headers, sets[..|sets| - 1])[last.key := last.value]
  }

  ghost function RemoveAll<K, V>(headers: map<K, V>, names: seq<K>): map<K, V> {
    headers - (set k | k in names)
  }

  /** What the proxy does with a mutation. */
  ghost function Applied(headers: map<string, string>, m: Mutation): map<string, string> {
    match m
    case NoMutation => headers
    case Mutation(sets, removes) => SetAll(RemoveAll(headers, removes), sets)
  }

  /** Setting a duplicate-free list one by one is adding the map it holds. */
  lemma {:induction false} SetAllAddsMap<K(!new), V>(headers: map<K, V>, list: seq<Header<K, V>>, m: map<K, V>)
    requires Lists(list, m)
    ensures SetAll(headers, list) == headers + m
  {
    if list == [] {
      assert m.Keys == {};
    } else {
      var i := |list| - 1;
      SwappedOut(list, i, m);
      assert SwapOut(list, i) == list[..i];
      SetAllAddsMap(headers, list[..i], m - {list[i].key});
      assert list[i] in list;
      hide Lists;
      AddLast(headers, m, list[i].key);
    }
  }

  lemma AddLast<K, V>(headers: map<K, V>, m: map<K, V>, k: K)
    requires k in m
    ensures headers + m == (headers + (m - {k}))[k := m[k]]
  {
  }

  /** The proxy ends up with exactly what filters read, whichever part of the mutation it applies first. */
  lemma MutationMeansOverlay(
    headers: map<string, string>, add: seq<Header<string, string>>, remove: seq<string>, shadow: map<string, string>,
    o: Overlay)
    requires Represents(add, remove, shadow, o)
    ensures Applied(headers, Built(add, remove)) == Effective(headers, o)
    ensures RemoveAll(SetAll(headers, add), remove) == Effective(headers, o)
  {
    hide AllLower;
    assert (set k | k in remove) == o.removes;
    SetAllAddsMap(headers, add, o.sets);
    SetAllAddsMap(RemoveAll(headers, remove), add, o.sets);
    OrderIsIrrelevant(headers, o);
    if add == [] && remove == [] {
      assert o.sets == map[];
    }
  }

  lemma OrderIsIrrelevant(headers: map<string, string>, o: Overlay)
    requires o.sets.Keys !! o.removes
    ensures (headers + o.sets) - o.removes == Effective(headers, o)
  {
  }

  /** Request reads do not fold case: they see the sent value exactly for lower-case names, or if it is empty. */
  lemma ReadsAreCaseSensitive(headers: map<string, string>, o: Overlay, key: string)
    requires AllLower(headers.Keys) && AllLower(o.sets.Keys + o.removes)
    ensures Read(Effective(headers, o), key) == Read(Effective(headers, o), Lower(key))
       <==> IsLower(key) || Read(Effective(headers, o), Lower(key)) == ""
  {
    if !IsLower(key) {
      assert key !in headers && key !in o.sets.Keys + o.removes;
    }
  }

  /** A header that was set is read and sent with its value, one that was removed is not there; others stay. */
  lemma WritesAreRead(headers: map<string, string>, o: Overlay, key: string, value: string, other: string)
    requires other != key
    ensures var sent := Effective(headers, SetIn(o, key, value));
            && key in sent && sent[key] == value
            && (other in sent <==> other in Effective(headers, o))
            && Read(sent, other) == Read(Effective(headers, o), other)
    ensures var sent := Effective(headers, RemoveIn(o, key));
            && key !in sent
            && (other in sent <==> other in Effective(headers, o))
            && Read(sent, other) == Read(Effective(headers, o), other)
    ensures Effective(headers, UNCHANGED) == headers
  {
  }

  /*** Runs ***/

  datatype Op = Put(key: string, value: string) | Drop(key: string)

  function Step(o: Overlay, op: Op): Overlay {
    match op
    case Put(k, v) => SetIn(o, Lower(k), v)
    case Drop(k) => RemoveIn(o, Lower(k))
  }

  /** What the operations of a filter do to the headers it reads afterwards. */
  lemma StepsAreRead(headers: map<string, string>, o: Overlay, key: string, value: string)
    ensures Read(Effective(headers, Step(o, Put(key, value))), Lower(key)) == value
    ensures Lower(key) !in Effective(headers, Step(o, Drop(key)))
  {
    hide Lower;
  }

  function Run(o: Overlay, ops: seq<Op>): Overlay {
    if ops == [] then o else Step(Run(o, ops[..|ops| - 1]), ops[|ops| - 1])
  }

  /** Names the mutation decides about. */
  function Touched(o: Overlay): set<string> {
    o.sets.Keys + o.removes
  }

  lemma {:induction false} TouchedGrows(o: Overlay, ops: seq<Op>)
    ensures Touched(o) <= Touched(Run(o, ops))
  {
    hide Lower;
    if ops != [] {
      TouchedGrows(o, ops[..|ops| - 1]);
    }
  }

  /** A mutation that touches all an earlier one touched hides the earlier one. */
  lemma LaterHidesEarlier(headers: map<string, string>, earlier: Overlay, later: Overlay)
    requires Touched(earlier) <= Touched(later)
    ensures Effective(Effective(headers, earlier), later) == Effective(headers, later)
  {
  }

  /** The overlay after some phases. */
  function After(phases: seq<seq<Op>>): Overlay {
    if phases == [] then UNCHANGED else Run(After(phases[..|phases| - 1]), phases[|phases| - 1])
  }

  /** The proxy's headers when the whole mutation is sent again at the end of every phase. */
  function Resent(headers: map<string, string>, phases: seq<seq<Op>>): map<string, string> {
    if phases == [] then headers else Effective(Resent(headers, phases[..|phases| - 1]), After(phases))
  }

  /** Sending the growing mutation in every phase gives what sending the last one alone would. */
  lemma {:induction false} ResendingIsHarmless(headers: map<string, string>, phases: seq<seq<Op>>)
    requires phases != []
    ensures Resent(headers, phases) == Effective(headers, After(phases))
  {
    var init := phases[..|phases| - 1];
    if init != [] {
      ResendingIsHarmless(headers, init);
      TouchedGrows(After(init), phases[|phases| - 1]);
      hide Effective, Touched;
      LaterHidesEarlier(headers, After(init), After(phases));
    }
  }
}
