/** `transformKeys` of the API client (frontend/src/lib/api/client.ts):
    arrays are converted element by element, objects are rebuilt key by
    key into a fresh object, and every other value is returned as it is. */
module Normalize {
  import opened Wrappers
  import opened JsonValue
  import opened KeyCase

  /** The two transformers the client passes to `transformKeys`. */
  datatype Convention = ToWire | ToCaller

  function Rename(c: Convention, key: string): string
  {
    match c
    case ToWire => CamelToSnake(key)
    case ToCaller => SnakeToCamel(key)
  }

  /** The members of `ms` with renamed keys and converted values, in the
      order `Object.entries` lists them, before any two are merged. */
  function Renamed(ms: seq<Member>, c: Convention): (r: seq<Member>)
    ensures |r| == |ms|
    ensures forall i :: 0 <= i < |ms| ==>
      r[i] == Member(Rename(c, ms[i].key), Transform(ms[i].value, c))
    decreases ms, 0
  {
    seq(|ms|, i requires 0 <= i < |ms| => Member(Rename(c, ms[i].key), Transform(ms[i].value, c)))
  }

  /** The object that assigning `result[key] = value` for each member of
      `ps` in turn builds, starting from `{}`. */
  function Assign(ps: seq<Member>): (r: seq<Member>)
    ensures UniqueKeys(r)
  {
    if ps == [] then []
    else Put(Assign(ps[..|ps| - 1]), ps[|ps| - 1].key, ps[|ps| - 1].value)
  }

  /** The value `transformKeys(v, transformer)` returns. */
  function Transform(v: Json, c: Convention): (r: Json)
    ensures v.JArray? <==> r.JArray?
    ensures v.JArray? ==> |r.items| == |v.items|
    ensures v.JObject? <==> r.JObject?
    ensures !v.JArray? && !v.JObject? ==> r == v
    decreases v, 1
  {
    match v
    case JArray(items) =>
      JArray(seq(|items|, i requires 0 <= i < |items| => Transform(items[i], c)))
    case JObject(ms) => JObject(Assign(Renamed(ms, c)))
    case _ => v
  }

  /** `transformKeys`: the recursion of the source, with the `for` loop
      that fills the fresh `result` object one entry at a time. */
  method TransformKeys(v: Json, c: Convention) returns (r: Json)
    ensures r == Transform(v, c)
    decreases v, 3
  {
    match v {
      case JArray(items) =>
        var out := TransformItems(items, c);
        r := JArray(out);
      case JObject(ms) =>
        var result := TransformMembers(ms, c);
        r := JObject(result);
      case _ =>
        r := v;
    }
  }

  /** The array branch: each element converted, in order. */
  method TransformItems(items: seq<Json>, c: Convention) returns (out: seq<Json>)
    ensures |out| == |items|
    ensures forall j :: 0 <= j < |items| ==> out[j] == Transform(items[j], c)
    decreases items, 2
  {
    out := [];
    for i := 0 to |items|
      invariant |out| == i
      invariant forall j :: 0 <= j < i ==> out[j] == Transform(items[j], c)
    {
      var t := TransformKeys(items[i], c);
      out := out + [t];
    }
  }

  /** The object branch: the `for` loop that fills the fresh `result`
      object one entry at a time. */
  method TransformMembers(ms: seq<Member>, c: Convention) returns (result: seq<Member>)
    ensures result == Assign(Renamed(ms, c))
    decreases ms, 2
  {
    result := [];
    for i := 0 to |ms|
      invariant result == Assign(Renamed(ms, c)[..i])
    {
      var t := TransformKeys(ms[i].value, c);
      ghost var ps := Renamed(ms, c);
      AssignSnoc(ps, i);
      assert ps[i] == Member(Rename(c, ms[i].key), t);
      result := Put(result, Rename(c, ms[i].key), t);
    }
    assert Renamed(ms, c)[..|ms|] == Renamed(ms, c);
  }

  /** Assigning one more entry is one more `Put`. */
  lemma AssignSnoc(ps: seq<Member>, i: nat)
    requires i < |ps|
    ensures Assign(ps[..i + 1]) == Put(Assign(ps[..i]), ps[i].key, ps[i].value)
  {
    assert ps[..i + 1][..i] == ps[..i];
  }

  /** When two entries are renamed to the same key, the later one wins:
      reading any key of the rebuilt object gives the value of the last
      entry that was assigned to it, and the keys are exactly the
      assigned ones. */
  lemma {:induction false} AssignLaterWins(ps: seq<Member>, key: string)
    ensures Get(Assign(ps), key) == Get(ps, key)
  {
    if ps != [] {
      var init := ps[..|ps| - 1];
      AssignLaterWins(init, key);
      var a := Assign(init);
      var last := ps[|ps| - 1];
      var r := Put(a, last.key, last.value);
      if last.key == key {
        PutThenGet(a, key, last.value);
      } else {
        PutOtherKey(a, last.key, last.value, key);
      }
    }
  }

  lemma PutThenGet(ms: seq<Member>, key: string, value: Json)
    requires UniqueKeys(ms)
    ensures Get(Put(ms, key, value), key) == Some(value)
  {
    var r := Put(ms, key, value);
    if key !in Keys(ms) {
      assert Keys(r)[|ms|] == key;
    }
    var g := Get(r, key);
    var i :| 0 <= i < |r| && r[i] == Member(key, g.value);
  }

  lemma PutOtherKey(ms: seq<Member>, key: string, value: Json, other: string)
    requires UniqueKeys(ms) && other != key
    ensures Get(Put(ms, key, value), other) == Get(ms, other)
  {
    var r := Put(ms, key, value);
    if key in Keys(ms) {
      GetOnSameKeys(ms, r, other);
    } else {
      assert r == ms + [Member(key, value)];
      assert r[..|r| - 1] == ms;
    }
  }

  lemma GetOnSameKeys(ms: seq<Member>, r: seq<Member>, other: string)
    requires UniqueKeys(ms) && UniqueKeys(r) && Keys(r) == Keys(ms)
    requires forall i :: 0 <= i < |ms| && ms[i].key == other ==> r[i] == ms[i]
    ensures Get(r, other) == Get(ms, other)
  {
    var g, h := Get(r, other), Get(ms, other);
    if g.Some? {
      var i :| 0 <= i < |r| && r[i] == Member(other, g.value);
      var j :| 0 <= j < |ms| && ms[j] == Member(other, h.value);
      assert Keys(r)[i] == other && Keys(ms)[j] == other;
      assert i == j;
    }
  }

  /** Members that already have distinct keys are rebuilt unchanged. */
  lemma {:induction false} AssignUnique(ps: seq<Member>)
    requires UniqueKeys(ps)
    ensures Assign(ps) == ps
  {
    if ps != [] {
      var init := ps[..|ps| - 1];
      AssignUnique(init);
      assert ps[|ps| - 1].key !in Keys(init);
      assert init + [ps[|ps| - 1]] == ps;
    }
  }

  /** Every object key of `v`, at any depth, is one that `c` leaves as it
      is, and no object repeats a key. */
  predicate InConvention(v: Json, c: Convention)
    decreases v
  {
    match v
    case JArray(items) => forall i :: 0 <= i < |items| ==> InConvention(items[i], c)
    case JObject(ms) =>
      && UniqueKeys(ms)
      && forall i :: 0 <= i < |ms| ==> Rename(c, ms[i].key) == ms[i].key && InConvention(ms[i].value, c)
    case _ => true
  }

  lemma RenameIdempotent(c: Convention, key: string)
    ensures Rename(c, Rename(c, key)) == Rename(c, key)
  {
    match c
    case ToWire => CamelToSnakeIdempotent(key);
    case ToCaller => SnakeToCamelIdempotent(key);
  }

  /** The result of a conversion is in the target convention. */
  lemma {:induction false} TransformReachesConvention(v: Json, c: Convention)
    ensures InConvention(Transform(v, c), c)
    decreases v
  {
    match v
    case JArray(items) =>
      forall i | 0 <= i < |items| ensures InConvention(Transform(v, c).items[i], c) {
        TransformReachesConvention(items[i], c);
      }
    case JObject(ms) =>
      var ps := Renamed(ms, c);
      var r := Assign(ps);
      forall i | 0 <= i < |r| ensures Rename(c, r[i].key) == r[i].key && InConvention(r[i].value, c) {
        AssignMemberFrom(ps, i);
        var j :| 0 <= j < |ps| && ps[j] == r[i];
        RenameIdempotent(c, ms[j].key);
        TransformReachesConvention(ms[j].value, c);
      }
    case _ =>
  }

  /** Every member of a rebuilt object is one of the assigned entries. */
  lemma {:induction false} AssignMemberFrom(ps: seq<Member>, i: nat)
    requires i < |Assign(ps)|
    ensures exists j :: 0 <= j < |ps| && ps[j] == Assign(ps)[i]
  {
    var init := ps[..|ps| - 1];
    var a := Assign(init);
    var last := ps[|ps| - 1];
    var r := Assign(ps);
    if i < |a| && a[i].key != last.key {
      AssignMemberFrom(init, i);
      var j :| 0 <= j < |init| && init[j] == a[i];
      assert ps[j] == r[i];
    } else {
      if last.key in Keys(a) {
        assert Keys(r) == Keys(a);
        assert r[i].key == last.key;
      } else {
        assert r == a + [Member(last.key, last.value)];
      }
      assert ps[|ps| - 1] == r[i];
    }
  }

  /** A value already in convention `c` is returned unchanged. */
  lemma {:induction false} TransformKeepsConvention(v: Json, c: Convention)
    requires InConvention(v, c)
    ensures Transform(v, c) == v
    decreases v
  {
    match v
    case JArray(items) =>
      forall i | 0 <= i < |items| ensures Transform(items[i], c) == items[i] {
        TransformKeepsConvention(items[i], c);
      }
      assert Transform(v, c).items == items;
    case JObject(ms) =>
      var ps := Renamed(ms, c);
      forall i | 0 <= i < |ms| ensures ps[i] == ms[i] {
        TransformKeepsConvention(ms[i].value, c);
      }
      assert ps == ms;
      AssignUnique(ms);
    case _ =>
  }

  /** Converting a second time to the same convention changes nothing. */
  lemma TransformIdempotent(v: Json, c: Convention)
    ensures Transform(Transform(v, c), c) == Transform(v, c)
  {
    TransformReachesConvention(v, c);
    TransformKeepsConvention(Transform(v, c), c);
  }

  /** Every object key `k` of `v` comes back from renaming by `there`
      and then by `back`, and no object repeats a key. */
  predicate KeysRoundTrip(v: Json, there: Convention, back: Convention)
    decreases v
  {
    match v
    case JArray(items) => forall i :: 0 <= i < |items| ==> KeysRoundTrip(items[i], there, back)
    case JObject(ms) =>
      && UniqueKeys(ms)
      && forall i :: 0 <= i < |ms| ==>
           Rename(back, Rename(there, ms[i].key)) == ms[i].key && KeysRoundTrip(ms[i].value, there, back)
    case _ => true
  }

  lemma {:induction false} TransformRoundTrip(v: Json, there: Convention, back: Convention)
    requires KeysRoundTrip(v, there, back)
    ensures Transform(Transform(v, there), back) == v
    decreases v
  {
    match v
    case JArray(items) =>
      var t := Transform(v, there);
      forall i | 0 <= i < |items| ensures Transform(t.items[i], back) == items[i] {
        TransformRoundTrip(items[i], there, back);
      }
      assert Transform(t, back).items == items;
    case JObject(ms) =>
      var ps := Renamed(ms, there);
      assert UniqueKeys(ps);
      AssignUnique(ps);
      var qs := Renamed(ps, back);
      forall i | 0 <= i < |ms| ensures qs[i] == ms[i] {
        TransformRoundTrip(ms[i].value, there, back);
      }
      assert qs == ms;
      AssignUnique(ms);
    case _ =>
  }

  /** A request body whose keys are all in caller spelling (no `_`
      directly before a lower-case letter, no repeated key) survives
      conversion to the wire and back. */
  lemma {:induction false} CallerKeysSurviveWire(v: Json)
    requires CallerShaped(v)
    ensures Transform(Transform(v, ToWire), ToCaller) == v
  {
    CallerShapedRoundTrips(v);
    TransformRoundTrip(v, ToWire, ToCaller);
  }

  /** A response body whose keys are all in wire spelling (no capital, no
      repeated key) survives conversion to caller spelling and back. */
  lemma {:induction false} WireKeysSurviveCaller(v: Json)
    requires InConvention(v, ToWire)
    ensures Transform(Transform(v, ToCaller), ToWire) == v
  {
    WireShapedRoundTrips(v);
    TransformRoundTrip(v, ToCaller, ToWire);
  }

  predicate CallerShaped(v: Json)
    decreases v
  {
    match v
    case JArray(items) => forall i :: 0 <= i < |items| ==> CallerShaped(items[i])
    case JObject(ms) =>
      && UniqueKeys(ms)
      && forall i :: 0 <= i < |ms| ==> NoSnakeBoundary(ms[i].key) && CallerShaped(ms[i].value)
    case _ => true
  }

  lemma {:induction false} CallerShapedRoundTrips(v: Json)
    requires CallerShaped(v)
    ensures KeysRoundTrip(v, ToWire, ToCaller)
    decreases v
  {
    match v
    case JArray(items) =>
      forall i | 0 <= i < |items| ensures KeysRoundTrip(items[i], ToWire, ToCaller) {
        CallerShapedRoundTrips(items[i]);
      }
    case JObject(ms) =>
      forall i | 0 <= i < |ms|
        ensures Rename(ToCaller, Rename(ToWire, ms[i].key)) == ms[i].key
        ensures KeysRoundTrip(ms[i].value, ToWire, ToCaller)
      {
        CallerKeyRoundTrip(ms[i].key);
        CallerShapedRoundTrips(ms[i].value);
      }
    case _ =>
  }

  lemma {:induction false} WireShapedRoundTrips(v: Json)
    requires InConvention(v, ToWire)
    ensures KeysRoundTrip(v, ToCaller, ToWire)
    decreases v
  {
    match v
    case JArray(items) =>
      forall i | 0 <= i < |items| ensures KeysRoundTrip(items[i], ToCaller, ToWire) {
        WireShapedRoundTrips(items[i]);
      }
    case JObject(ms) =>
      forall i | 0 <= i < |ms|
        ensures Rename(ToWire, Rename(ToCaller, ms[i].key)) == ms[i].key
        ensures KeysRoundTrip(ms[i].value, ToCaller, ToWire)
      {
        assert NoUpper(CamelToSnake(ms[i].key));
        assert NoUpper(ms[i].key);
        WireKeyRoundTrip(ms[i].key);
        WireShapedRoundTrips(ms[i].value);
      }
    case _ =>
  }
}
