/** Python's `OrderedDict` (and the insertion-ordered `dict`): a map together
    with the order in which its keys were first inserted. */
module OrderedMaps {

  datatype OMap<K, V> = OMap(keys: seq<K>, values: map<K, V>)

  /** The keys are listed once each, and exactly the keys of the map are listed. */
  ghost predicate Valid<K, V>(m: OMap<K, V>)
  {
    && (forall i, j :: 0 <= i < j < |m.keys| ==> m.keys[i] != m.keys[j])
    && (forall k :: k in m.values ==> k in m.keys)
    && (forall i :: 0 <= i < |m.keys| ==> m.keys[i] in m.values)
  }

  function Empty<K, V>(): (r: OMap<K, V>)
    ensures Valid(r) && r.keys == [] && r.values == map[]
  {
    OMap([], map[])
  }

  /** `d[k] = v`: a new key goes to the end, an existing key keeps its
      position and takes the new value. */
  function Put<K, V>(m: OMap<K, V>, k: K, v: V): (r: OMap<K, V>)
    ensures r.values == m.values[k := v]
    ensures k in m.values ==> r.keys == m.keys
    ensures k !in m.values ==> r.keys == m.keys + [k]
  {
    if k in m.values then OMap(m.keys, m.values[k := v])
    else OMap(m.keys + [k], m.values[k := v])
  }

  /** Writing a key keeps each key listed once. */
  lemma PutValid<K, V>(m: OMap<K, V>, k: K, v: V)
    requires Valid(m)
    ensures Valid(Put(m, k, v))
  {
  }

  /** `d.update(other)`: the entries of `other`, in `other`'s order, each
      written with `Put`. */
  function Update<K, V>(m: OMap<K, V>, other: OMap<K, V>): (r: OMap<K, V>)
    requires Valid(m) && Valid(other)
    ensures Valid(r)
    ensures r.values == m.values + other.values
    ensures |m.keys| <= |r.keys| && r.keys[..|m.keys|] == m.keys
  {
    var r := PutAll(m, other.keys, other.values);
    PutAllValid(m, other.keys, other.values);
    PutAllValues(m, other.keys, other.values);
    assert r.values.Keys == (m.values + other.values).Keys;
    r
  }

  /** `Put` of the entries `ks[i] := vs[ks[i]]`, one after the other. */
  function PutAll<K, V>(m: OMap<K, V>, ks: seq<K>, vs: map<K, V>): (r: OMap<K, V>)
    requires forall i :: 0 <= i < |ks| ==> ks[i] in vs
    ensures |m.keys| <= |r.keys| && r.keys[..|m.keys|] == m.keys
    decreases |ks|
  {
    if ks == [] then m
    else
      var m' := Put(m, ks[0], vs[ks[0]]);
      var r := PutAll(m', ks[1..], vs);
      assert r.keys[..|m.keys|] == r.keys[..|m'.keys|][..|m.keys|];
      r
  }

  /** Writing entries one by one keeps each key listed once. */
  lemma {:induction false} PutAllValid<K, V>(m: OMap<K, V>, ks: seq<K>, vs: map<K, V>)
    requires Valid(m)
    requires forall i :: 0 <= i < |ks| ==> ks[i] in vs
    ensures Valid(PutAll(m, ks, vs))
    decreases |ks|
  {
    if ks != [] {
      var m' := Put(m, ks[0], vs[ks[0]]);
      PutValid(m, ks[0], vs[ks[0]]);
      PutAllValid(m', ks[1..], vs);
    }
  }

  /** The keys written are exactly those of `m` and `ks`; each `ks[i]` holds
      `vs[ks[i]]` and the other keys of `m` keep their values. */
  lemma {:induction false} PutAllValues<K, V>(m: OMap<K, V>, ks: seq<K>, vs: map<K, V>)
    requires forall i :: 0 <= i < |ks| ==> ks[i] in vs
    ensures forall k :: k in PutAll(m, ks, vs).values ==> k in m.values || k in ks
    ensures forall k :: k in m.values ==> k in PutAll(m, ks, vs).values
    ensures forall i :: 0 <= i < |ks| ==>
      ks[i] in PutAll(m, ks, vs).values && PutAll(m, ks, vs).values[ks[i]] == vs[ks[i]]
    ensures forall k :: k in m.values && k !in ks ==> PutAll(m, ks, vs).values[k] == m.values[k]
    decreases |ks|
  {
    if ks != [] {
      var m' := Put(m, ks[0], vs[ks[0]]);
      var r := PutAll(m', ks[1..], vs);
      assert PutAll(m, ks, vs) == r;
      PutAllValues(m', ks[1..], vs);
      forall i | 0 <= i < |ks|
        ensures ks[i] in r.values && r.values[ks[i]] == vs[ks[i]]
      {
        if i > 0 {
          assert ks[i] == ks[1..][i - 1];
        } else if ks[0] !in ks[1..] {
          assert ks[0] in m'.values;
        }
      }
    }
  }
}
