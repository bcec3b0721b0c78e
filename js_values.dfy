/** JSON request bodies as the handlers see them after `express.json()`, and the JavaScript
    conversions the handlers apply to them: property access, `String(v)` and truthiness. */
module JsValues {
  import opened JsText

  /** A parsed JSON value. Numbers are integers; an object keeps its members in order. */
  datatype Json =
    | JNull
    | JBool(b: bool)
    | JNumber(n: int)
    | JString(s: string)
    | JArray(items: seq<Json>)
    | JObject(members: seq<(string, Json)>)

  /** `v[key]` for a value that is not `null`: the member's value, or `None` for `undefined`.
      `JSON.parse` keeps the last of repeated members; arrays, strings, numbers and booleans have
      none of the keys the backend reads. */
  function Get(v: Json, key: string): (r: Option<Json>)
    ensures r.Some? ==> v.JObject?
    ensures v.JObject? ==> (r.Some? <==> exists i :: 0 <= i < |v.members| && v.members[i].0 == key)
  {
    if v.JObject? then Lookup(v.members, key) else None
  }

  /** The value of the last member named `key`. */
  function Lookup(members: seq<(string, Json)>, key: string): (r: Option<Json>)
    ensures r.Some? <==> exists i :: 0 <= i < |members| && members[i].0 == key
    ensures r.Some? ==> exists i :: 0 <= i < |members| && members[i] == (key, r.value) &&
                          forall j :: i < j < |members| ==> members[j].0 != key
  {
    if members == [] then None
    else
      var init, last := members[..|members| - 1], members[|members| - 1];
      if last.0 == key then Some(last.1)
      else
        var r := Lookup(init, key);
        assert forall i :: 0 <= i < |init| ==> init[i] == members[i];
        assert r.Some? ==> exists i :: 0 <= i < |init| && init[i] == (key, r.value) &&
                             forall j :: i < j < |members| ==> members[j].0 != key;
        r
  }

  /** How a piece of JavaScript ends: normally with a value, or by throwing an error with a
      message. */
  datatype Completion<T> = Normal(value: T) | Throw(message: string)

  /** The message of the `TypeError` a value raises when it cannot be made a primitive. */
  const ConvertMessage := "Cannot convert object to primitive value"

  /** `String(v)` for a value, `undefined` included. */
  function ToStringOf(v: Option<Json>): Completion<string>
  {
    if v.None? then Normal("undefined") else ToString(v.value)
  }

  /** `String(v)`: arrays are joined with commas, their `null` elements written as nothing. An
      object converts through its `toString`: the inherited one gives `[object Object]`, but a
      member of that name is never a function, and then the inherited `valueOf` gives the object
      back, so the conversion throws. An array holding such an object throws as well. */
  function ToString(v: Json): (r: Completion<string>)
    ensures r.Throw? ==> r.message == ConvertMessage
    ensures v.JObject? ==> (r.Throw? <==> Get(v, "toString").Some?)
    ensures !v.JObject? && !v.JArray? ==> r.Normal?
  {
    match v
    case JNull => Normal("null")
    case JBool(b) => Normal(if b then "true" else "false")
    case JNumber(n) => Normal(IntToString(n))
    case JString(s) => Normal(s)
    case JArray(items) =>
      var parts := seq(|items|, i requires 0 <= i < |items| =>
                         if items[i].JNull? then Normal("") else ToString(items[i]));
      if forall i :: 0 <= i < |parts| ==> parts[i].Normal? then
        Normal(Join(seq(|parts|, i requires 0 <= i < |parts| && parts[i].Normal? => parts[i].value), ","))
      else Throw(ConvertMessage)
    case JObject(members) =>
      if Lookup(members, "toString").Some? then Throw(ConvertMessage) else Normal("[object Object]")
  }

  /** Whether `v` counts as true in a condition or before `||`. */
  predicate Truthy(v: Option<Json>)
  {
    match v
    case None => false
    case Some(JNull) => false
    case Some(JBool(b)) => b
    case Some(JNumber(n)) => n != 0
    case Some(JString(s)) => s != ""
    case Some(_) => true
  }

  /** The names of an object's properties, in order. */
  function Keys(props: seq<(string, Json)>): (keys: seq<string>)
    ensures |keys| == |props| && forall i :: 0 <= i < |props| ==> keys[i] == props[i].0
  {
    seq(|props|, i requires 0 <= i < |props| => props[i].0)
  }

  /** The values of an object's properties, in order. */
  function Values(props: seq<(string, Json)>): (values: seq<Json>)
    ensures |values| == |props| && forall i :: 0 <= i < |props| ==> values[i] == props[i].1
  {
    seq(|props|, i requires 0 <= i < |props| => props[i].1)
  }

  /** The names of two property lists, one after the other. */
  lemma KeysAppend(a: seq<(string, Json)>, b: seq<(string, Json)>)
    ensures Keys(a + b) == Keys(a) + Keys(b)
  {
  }

  /** The own properties of a JavaScript object: no name twice. */
  predicate DistinctKeys(props: seq<(string, Json)>)
  {
    forall i, j :: 0 <= i < j < |props| ==> props[i].0 != props[j].0
  }

  /** In an object, a property is found under its own name. */
  lemma LookupDistinct(props: seq<(string, Json)>, i: nat)
    requires DistinctKeys(props) && i < |props|
    ensures Lookup(props, props[i].0) == Some(props[i].1)
  {
  }

  /** `props` with the value of the property named `key` replaced. */
  function Replace(props: seq<(string, Json)>, key: string, value: Json): (r: seq<(string, Json)>)
    ensures |r| == |props|
    ensures forall i :: 0 <= i < |props| ==> r[i] == if props[i].0 == key then (key, value) else props[i]
  {
    seq(|props|, i requires 0 <= i < |props| => if props[i].0 == key then (key, value) else props[i])
  }

  /** Replacing a value in place keeps the names and gives the new value under its name. */
  lemma LookupReplace(props: seq<(string, Json)>, key: string, value: Json, k: string)
    requires DistinctKeys(props)
    ensures Keys(Replace(props, key, value)) == Keys(props)
    ensures DistinctKeys(Replace(props, key, value))
    ensures key in Keys(props) && k == key ==> Lookup(Replace(props, key, value), k) == Some(value)
    ensures k != key ==> Lookup(Replace(props, key, value), k) == Lookup(props, k)
  {
    var r := Replace(props, key, value);
    assert Keys(r) == Keys(props);
    if i :| 0 <= i < |props| && props[i].0 == k {
      LookupDistinct(props, i);
      LookupDistinct(r, i);
    }
  }

  /** A name the object does not have, added last, is found with its value; others are unchanged. */
  lemma LookupAppend(props: seq<(string, Json)>, key: string, value: Json, k: string)
    ensures Lookup(props + [(key, value)], k) == if k == key then Some(value) else Lookup(props, k)
  {
    assert (props + [(key, value)])[..|props|] == props;
  }

  /** `obj[key] = value`: an existing property takes the new value where it stands, a new one
      is added last. */
  function Assign(props: seq<(string, Json)>, key: string, value: Json): (r: seq<(string, Json)>)
    requires DistinctKeys(props)
    ensures DistinctKeys(r)
    ensures Keys(r) == if key in Keys(props) then Keys(props) else Keys(props) + [key]
    ensures Lookup(r, key) == Some(value)
    ensures forall k :: k != key ==> Lookup(r, k) == Lookup(props, k)
  {
    if key in Keys(props) then
      var r := Replace(props, key, value);
      assert forall k :: k == key || Lookup(r, k) == Lookup(props, k) by {
        forall k {
          LookupReplace(props, key, value, k);
        }
      }
      r
    else
      var r := props + [(key, value)];
      assert Keys(r) == Keys(props) + [key];
      assert forall k :: Lookup(r, k) == if k == key then Some(value) else Lookup(props, k) by {
        forall k {
          LookupAppend(props, key, value, k);
        }
      }
      r
  }

  /** The members not named `key`, in order: what `delete obj[key]` leaves of an object. */
  function Without(members: seq<(string, Json)>, key: string): (r: seq<(string, Json)>)
    ensures forall e :: e in r <==> e in members && e.0 != key
    ensures DistinctKeys(members) ==> DistinctKeys(r)
    ensures forall k :: k != key ==> Lookup(r, k) == Lookup(members, k)
  {
    if members == [] then []
    else
      var init, last := members[..|members| - 1], members[|members| - 1];
      var w := Without(init, key);
      assert forall e :: e in init ==> e in members;
      if last.0 == key then w
      else
        assert (w + [last])[..|w|] == w;
        assert DistinctKeys(members) ==> DistinctKeys(w + [last]) by {
          if DistinctKeys(members) {
            assert DistinctKeys(init) by {
              forall i, j | 0 <= i < j < |init| ensures init[i].0 != init[j].0 {
                assert init[i] == members[i] && init[j] == members[j];
              }
            }
            forall i | 0 <= i < |w| ensures w[i].0 != last.0 {
              assert w[i] in init;
              var m :| 0 <= m < |init| && init[m] == w[i];
              assert members[m] == w[i];
            }
          }
        }
        w + [last]
  }

  /** The name an ordinary object's assignment treats apart: `obj.__proto__ = v` runs the setter
      `Object.prototype` provides. */
  const ProtoKey := "__proto__"

  /** `obj[key] = value` on an object made by `{}` whose prototype holds no setter but the one
      for `__proto__`: that name sets the prototype (or, for a primitive value, nothing) and adds
      no property; any other name is assigned. */
  function Put(props: seq<(string, Json)>, key: string, value: Json): (r: seq<(string, Json)>)
    requires DistinctKeys(props)
    ensures DistinctKeys(r)
    ensures key == ProtoKey ==> r == props
    ensures key != ProtoKey ==> Keys(r) == if key in Keys(props) then Keys(props) else Keys(props) + [key]
    ensures key != ProtoKey ==> Lookup(r, key) == Some(value)
    ensures forall k :: k != key ==> Lookup(r, k) == Lookup(props, k)
  {
    if key == ProtoKey then props else Assign(props, key, value)
  }

  /** Assigning a name the object does not have adds it last. */
  lemma AssignNew(props: seq<(string, Json)>, key: string, value: Json)
    requires DistinctKeys(props) && key !in Keys(props)
    ensures Assign(props, key, value) == props + [(key, value)]
  {
  }

  /** The object `JSON.parse` builds from the members of an object text, in order: a repeated
      name keeps the place of its first occurrence and the value of its last. */
  function Properties(members: seq<(string, Json)>): (props: seq<(string, Json)>)
    ensures DistinctKeys(props)
    ensures forall k :: Lookup(props, k) == Lookup(members, k)
  {
    if members == [] then []
    else
      var last := members[|members| - 1];
      Assign(Properties(members[..|members| - 1]), last.0, last.1)
  }

  /** The names and values `Object.keys` and `Object.values` list for a request body. The JSON
      body parser yields only objects and arrays; an array's properties are its indexes. */
  function OwnProperties(body: Json): (props: seq<(string, Json)>)
    ensures DistinctKeys(props)
  {
    match body
    case JObject(members) => Properties(members)
    case JArray(items) =>
      var props := seq(|items|, i requires 0 <= i < |items| => (Decimal(i), items[i]));
      assert DistinctKeys(props) by {
        forall i, j | 0 <= i < j < |props| ensures props[i].0 != props[j].0 {
          DecimalInjective(i, j);
        }
      }
      props
    case _ => []
  }
}
