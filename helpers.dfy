/** Object helpers of the backend (backend/utils/helpers.js): `pick` and
    `omit`, each a `reduce` over keys that builds a fresh object. */
module Helpers {

  /** A plain JavaScript object: its own keys in insertion order (what
      `Object.keys` lists) and the value of each. */
  datatype Obj<V> = Obj(keys: seq<string>, fields: map<string, V>) {
    ghost predicate Valid() {
      && (forall i, j :: 0 <= i < j < |keys| ==> keys[i] != keys[j])
      && (forall k :: k in fields <==> k in keys)
    }
  }

  /** `acc[k] = v`: a new key is added last, an existing key keeps its place. */
  function Put<V>(o: Obj<V>, k: string, v: V): (r: Obj<V>)
    requires o.Valid()
    ensures r.Valid()
    ensures r.fields == o.fields[k := v]
  {
    if k in o.fields then Obj(o.keys, o.fields[k := v]) else Obj(o.keys + [k], o.fields[k := v])
  }

  /** `pick(obj, keys)`: for each listed key, in order, that `obj` owns, copy
      its value into the accumulator. */
  function Pick<V>(obj: Obj<V>, ks: seq<string>): (r: Obj<V>)
    requires obj.Valid()
    ensures r.Valid()
    ensures forall k :: k in r.fields <==> k in obj.fields && k in ks
    ensures forall k :: k in r.fields ==> r.fields[k] == obj.fields[k]
    decreases |ks|
  {
    if ks == [] then Obj([], map[])
    else
      var acc := Pick(obj, ks[..|ks| - 1]);
      var k := ks[|ks| - 1];
      if k in obj.fields then Put(acc, k, obj.fields[k]) else acc
  }

  /** The `reduce` of `omit` after it has visited the keys `visited`. */
  function OmitFrom<V>(obj: Obj<V>, ks: seq<string>, visited: seq<string>): (r: Obj<V>)
    requires obj.Valid()
    requires forall k :: k in visited ==> k in obj.fields
    ensures r.Valid()
    ensures forall k :: k in r.fields <==> k in visited && k !in ks
    ensures forall k :: k in r.fields ==> r.fields[k] == obj.fields[k]
    decreases |visited|
  {
    if visited == [] then Obj([], map[])
    else
      var acc := OmitFrom(obj, ks, visited[..|visited| - 1]);
      var k := visited[|visited| - 1];
      if k !in ks then Put(acc, k, obj.fields[k]) else acc
  }

  /** `omit(obj, keys)`: every own key of `obj`, in `Object.keys` order, that
      is not listed. */
  function Omit<V>(obj: Obj<V>, ks: seq<string>): (r: Obj<V>)
    requires obj.Valid()
    ensures r.Valid()
    ensures forall k :: k in r.fields <==> k in obj.fields && k !in ks
    ensures forall k :: k in r.fields ==> r.fields[k] == obj.fields[k]
  {
    OmitFrom(obj, ks, obj.keys)
  }

  /** Every key of `obj` lands in exactly one of `pick(obj, ks)` and
      `omit(obj, ks)`, and together they give back `obj`'s fields. */
  lemma PickOmitPartition<V>(obj: Obj<V>, ks: seq<string>)
    requires obj.Valid()
    ensures Pick(obj, ks).fields.Keys !! Omit(obj, ks).fields.Keys
    ensures Pick(obj, ks).fields + Omit(obj, ks).fields == obj.fields
  {
    SplitFields(obj.fields, Pick(obj, ks).fields, Omit(obj, ks).fields, ks);
  }

  /** Two restrictions of `m`, to the listed keys and to the others, are
      disjoint and together give back `m`. */
  lemma SplitFields<V>(m: map<string, V>, inside: map<string, V>, outside: map<string, V>, ks: seq<string>)
    requires forall k :: k in inside <==> k in m && k in ks
    requires forall k :: k in outside <==> k in m && k !in ks
    requires forall k :: k in inside ==> inside[k] == m[k]
    requires forall k :: k in outside ==> outside[k] == m[k]
    ensures inside.Keys !! outside.Keys
    ensures inside + outside == m
  {
    assert (inside + outside).Keys == m.Keys;
  }

  /** Picking no keys gives the empty object. */
  lemma PickNothing<V>(obj: Obj<V>)
    requires obj.Valid()
    ensures Pick(obj, []) == Obj([], map[])
  {
  }

  /** One step of `omit` with nothing to leave out appends the visited key
      when it is new. */
  lemma OmitStep<V>(obj: Obj<V>, prefix: seq<string>, k: string)
    requires obj.Valid()
    requires forall x :: x in prefix + [k] ==> x in obj.fields
    requires k !in prefix
    ensures OmitFrom(obj, [], prefix + [k]).keys == OmitFrom(obj, [], prefix).keys + [k]
  {
    var visited := prefix + [k];
    assert visited[..|visited| - 1] == prefix;
    assert k !in OmitFrom(obj, [], prefix).fields;
  }

  lemma {:induction false} OmitNothingFrom<V>(obj: Obj<V>, visited: seq<string>)
    requires obj.Valid()
    requires forall k :: k in visited ==> k in obj.fields
    requires forall i, j :: 0 <= i < j < |visited| ==> visited[i] != visited[j]
    ensures OmitFrom(obj, [], visited).keys == visited
    decreases |visited|
  {
    if visited != [] {
      var prefix, k := visited[..|visited| - 1], visited[|visited| - 1];
      assert visited == prefix + [k];
      OmitNothingFrom(obj, prefix);
      OmitStep(obj, prefix, k);
    }
  }

  /** Omitting no keys copies the object, key order included. */
  lemma OmitNothing<V>(obj: Obj<V>)
    requires obj.Valid()
    ensures Omit(obj, []) == obj
  {
    OmitNothingFrom(obj, obj.keys);
    SameFields(Omit(obj, []).fields, obj.fields);
  }

  lemma SameFields<V>(a: map<string, V>, b: map<string, V>)
    requires forall k :: k in a <==> k in b
    requires forall k :: k in a ==> a[k] == b[k]
    ensures a == b
  {
  }
}
