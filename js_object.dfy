/**
  A JavaScript object whose properties are all strings, as an insertion-ordered
  list of properties. Assigning to a property that exists replaces its value in
  place; assigning to a new property appends it. This is the shape of the
  header object the script hands to the HTTP request.
 */
module JsObject {
  import opened JsValues

  datatype Property = Property(key: string, value: string)

  type Object = seq<Property>

  /** `Object.keys(o)`, in insertion order. */
  function Keys(o: Object): (ks: seq<string>)
    ensures |ks| == |o|
    ensures forall k :: 0 <= k < |o| ==> ks[k] == o[k].key
  {
    if o == [] then [] else [o[0].key] + Keys(o[1..])
  }

  predicate DistinctKeys(o: Object)
  {
    forall j, k :: 0 <= j < k < |o| ==> o[j].key != o[k].key
  }

  /** `o[key]`, with None for a missing property. */
  function Get(o: Object, key: string): Option<string>
  {
    if o == [] then None
    else if o[0].key == key then Some(o[0].value)
    else Get(o[1..], key)
  }

  /** `o[key] = value`. */
  function Put(o: Object, key: string, value: string): (r: Object)
    ensures Get(r, key) == Some(value)
    ensures Keys(r) == if key in Keys(o) then Keys(o) else Keys(o) + [key]
  {
    if o == [] then [Property(key, value)]
    else if o[0].key == key then [Property(key, value)] + o[1..]
    else [o[0]] + Put(o[1..], key, value)
  }

  /** Assigning to `key` leaves every other property as it was. */
  lemma {:induction false} PutOther(o: Object, key: string, value: string, other: string)
    requires other != key
    ensures Get(Put(o, key, value), other) == Get(o, other)
  {
    if o != [] && o[0].key != key {
      PutOther(o[1..], key, value, other);
    }
  }

  /** A property that `Keys` lists can be read back. */
  lemma {:induction false} GetListedKey(o: Object, k: nat)
    requires k < |o| && DistinctKeys(o)
    ensures Get(o, o[k].key) == Some(o[k].value)
  {
    if k > 0 {
      GetListedKey(o[1..], k - 1);
    }
  }

  /** A key that `Keys` does not list reads as missing. */
  lemma {:induction false} GetUnlistedKey(o: Object, key: string)
    requires key !in Keys(o)
    ensures Get(o, key) == None
  {
    if o != [] {
      assert Keys(o)[0] == o[0].key;
      assert Keys(o[1..]) == Keys(o)[1..];
      GetUnlistedKey(o[1..], key);
    }
  }
}
