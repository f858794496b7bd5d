/** JSON-like values as `JSON.parse` produces them. An object is a
    sequence of members, so that the order in which keys are written and
    what happens when two writes use the same key can both be stated. */
module JsonValue {
  import opened Wrappers

  datatype Json =
    | JNull
    | JBool(b: bool)
    | JNumber(n: int)
    | JString(s: string)
    | JArray(items: seq<Json>)
    | JObject(members: seq<Member>)

  datatype Member = Member(key: string, value: Json)

  function Keys(ms: seq<Member>): (ks: seq<string>)
    ensures |ks| == |ms|
    ensures forall i :: 0 <= i < |ms| ==> ks[i] == ms[i].key
  {
    seq(|ms|, i requires 0 <= i < |ms| => ms[i].key)
  }

  predicate UniqueKeys(ms: seq<Member>)
  {
    forall i, j :: 0 <= i < j < |ms| ==> ms[i].key != ms[j].key
  }

  /** The position of the member with key `key`, if there is one. */
  function KeyIndex(ms: seq<Member>, key: string): (r: Option<nat>)
    ensures r.Some? ==> r.value < |ms| && ms[r.value].key == key
    ensures r.None? <==> key !in Keys(ms)
  {
    if ms == [] then None
    else if ms[|ms| - 1].key == key then Some(|ms| - 1)
    else
      var r := KeyIndex(ms[..|ms| - 1], key);
      assert Keys(ms) == Keys(ms[..|ms| - 1]) + [ms[|ms| - 1].key];
      r
  }

  /** The property assignment `obj[key] = value` on an object whose own
      members are `ms`: an existing key keeps its place and takes the new
      value; a new key is added at the end. The keys of a JavaScript
      object are distinct, hence the precondition. */
  function Put(ms: seq<Member>, key: string, value: Json): (r: seq<Member>)
    requires UniqueKeys(ms)
    ensures |ms| <= |r| <= |ms| + 1
    ensures forall i :: 0 <= i < |ms| ==> r[i].key == ms[i].key
    ensures key in Keys(ms) ==> Keys(r) == Keys(ms)
    ensures key !in Keys(ms) ==> r == ms + [Member(key, value)]
    ensures forall i :: 0 <= i < |ms| && ms[i].key != key ==> r[i] == ms[i]
    ensures forall i :: 0 <= i < |r| && r[i].key == key ==> r[i].value == value
    ensures UniqueKeys(r)
  {
    match KeyIndex(ms, key)
    case None => ms + [Member(key, value)]
    case Some(k) =>
      var r := ms[k := Member(key, value)];
      assert Keys(r) == Keys(ms);
      r
  }

  /** Reading property `key` of an object: the value of its last member
      with that key, as `JSON.parse` keeps the last of duplicate keys. */
  function Get(ms: seq<Member>, key: string): (r: Option<Json>)
    ensures r.None? <==> key !in Keys(ms)
    ensures r.Some? ==> exists i :: 0 <= i < |ms| && ms[i] == Member(key, r.value)
  {
    if ms == [] then None
    else if ms[|ms| - 1].key == key then Some(ms[|ms| - 1].value)
    else
      var r := Get(ms[..|ms| - 1], key);
      assert Keys(ms) == Keys(ms[..|ms| - 1]) + [ms[|ms| - 1].key];
      r
  }

  /** The member `Get` reads is the last one with that key: any member
      with the key that no later member repeats gives the result. */
  lemma {:induction false} GetIsLast(ms: seq<Member>, key: string, i: nat)
    requires i < |ms| && ms[i].key == key
    requires forall j :: i < j < |ms| ==> ms[j].key != key
    ensures Get(ms, key) == Some(ms[i].value)
  {
    if i < |ms| - 1 {
      var init := ms[..|ms| - 1];
      assert ms[|ms| - 1].key != key;
      assert init[i] == ms[i];
      assert forall j :: i < j < |init| ==> init[j].key != key by {
        forall j | i < j < |init| ensures init[j].key != key {
          assert init[j] == ms[j];
        }
      }
      GetIsLast(init, key, i);
    }
  }

  /** JavaScript truthiness of a value read out of parsed JSON. */
  predicate Truthy(j: Json)
  {
    match j
    case JNull => false
    case JBool(b) => b
    case JNumber(n) => n != 0
    case JString(s) => s != ""
    case JArray(_) => true
    case JObject(_) => true
  }
}
