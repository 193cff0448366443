/** The JavaScript value semantics the SDK leans on: truthiness of optional
    strings, how `undefined` prints inside `+` and template literals, and JSON
    values as plain objects with ordered keys. */
module Js {
  import opened Wrappers

  /** A string-valued property that may be `undefined`. Where the SDK only
      tests such a property for truthiness or prints it, JavaScript's `null`
      is also `None`; when printed, `null` gives `null` while `None` prints
      as `undefined`. A default parameter replaces `undefined` but not
      `null`, so parameters with defaults are not `OptString`s. */
  type OptString = Option<string>

  /** `!!x` for an optional string: set and not the empty string. */
  predicate Truthy(x: OptString) {
    x.Some? && x.value != ""
  }

  /** What `'' + x` and `${x}` produce: `undefined` prints as the word itself. */
  function Show(x: OptString): (r: string)
    ensures Truthy(x) ==> r == x.value
    ensures x.None? ==> r == "undefined"
  {
    match x
    case Some(s) => s
    case None => "undefined"
  }

  /** JSON values. Numbers are integers: the SDK never does arithmetic on them. */
  datatype Json =
    | JNull
    | JBool(b: bool)
    | JNum(n: int)
    | JStr(s: string)
    | JArr(items: seq<Json>)
    | JObj(fields: seq<Member>)

  /** One own property of a plain object, in insertion order. */
  datatype Member = Member(key: string, value: Json)

  /** `!!v` for a JSON value that may be `undefined`. Objects and arrays are
      always truthy, even when empty. */
  predicate JsonTruthy(v: Option<Json>) {
    match v
    case None => false
    case Some(JNull) => false
    case Some(JBool(b)) => b
    case Some(JNum(n)) => n != 0
    case Some(JStr(s)) => s != ""
    case Some(_) => true
  }

  /** `JSON.stringify`, a foreign call: the model takes it as a parameter. */
  type Stringifier = Json -> string

  /** `JSON.parse`, a foreign call: `None` when it throws. */
  type Parser = string -> Option<Json>

  /** `obj[key]`: the value of the first member named `key`, or `undefined`. */
  function Lookup(fields: seq<Member>, key: string): (r: Option<Json>)
    ensures r.Some? <==> exists i :: 0 <= i < |fields| && fields[i].key == key
  {
    if |fields| == 0 then None
    else if fields[0].key == key then Some(fields[0].value)
    else Lookup(fields[1..], key)
  }

  /** `delete obj[key]`: every member named `key` goes, the rest keep their order. */
  function Remove(fields: seq<Member>, key: string): (r: seq<Member>)
    ensures forall i :: 0 <= i < |r| ==> r[i].key != key && r[i] in fields
    ensures Lookup(r, key).None?
    ensures forall k :: k != key ==> Lookup(r, k) == Lookup(fields, k)
    ensures Lookup(fields, key).None? ==> r == fields
  {
    if |fields| == 0 then []
    else if fields[0].key == key then Remove(fields[1..], key)
    else [fields[0]] + Remove(fields[1..], key)
  }

  /** `delete` works member by member: removing from a concatenation removes
      from each part and keeps the parts in order. */
  lemma {:induction false} RemoveAppend(a: seq<Member>, b: seq<Member>, key: string)
    ensures Remove(a + b, key) == Remove(a, key) + Remove(b, key)
  {
    if a == [] {
      assert a + b == b;
    } else {
      assert (a + b)[0] == a[0];
      assert (a + b)[1..] == a[1..] + b;
      RemoveAppend(a[1..], b, key);
    }
  }

  /** A single member is dropped when it has the key and kept otherwise. */
  lemma RemoveOne(m: Member, key: string)
    ensures Remove([m], key) == if m.key == key then [] else [m]
  {
    assert [m][1..] == [];
  }
}
