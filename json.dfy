/** JSON values as the setup script sees them after `JSON.parse`, with the JavaScript
    operations it applies to them: property reads, truthiness, property assignment, object
    spread and conversion to text in a template literal.

    An object is its list of members in property order. `JSON.parse` never yields two members
    with the same key, and property assignment keeps that so; reads take the first match.
    Numbers are integers. */
module JsonValue {
  import opened Common

  datatype Json =
    | Null
    | Bool(b: bool)
    | Num(n: int)
    | Str(s: string)
    | Arr(items: seq<Json>)
    | Obj(members: seq<(string, Json)>)

  /** The keys of an object, in property order. */
  function Keys(ms: seq<(string, Json)>): (ks: seq<string>)
    ensures |ks| == |ms|
    ensures forall i :: 0 <= i < |ms| ==> ks[i] == ms[i].0
  {
    if ms == [] then [] else [ms[0].0] + Keys(ms[1..])
  }

  /** `o[k]` on an object's members; `None` is `undefined`. */
  function Lookup(ms: seq<(string, Json)>, k: string): (r: Option<Json>)
    ensures r.Some? <==> k in Keys(ms)
    ensures r.Some? ==> exists i :: 0 <= i < |ms| && ms[i] == (k, r.value)
  {
    if ms == [] then None
    else if ms[0].0 == k then Some(ms[0].1)
    else
      var r := Lookup(ms[1..], k);
      assert Keys(ms) == [ms[0].0] + Keys(ms[1..]);
      assert r.Some? ==> exists i :: 1 <= i < |ms| && ms[i] == (k, r.value) by {
        if r.Some? {
          var i :| 0 <= i < |ms[1..]| && ms[1..][i] == (k, r.value);
          assert ms[i + 1] == (k, r.value);
        }
      }
      r
  }

  /** `v[k]`, where `v` may itself be `undefined`: only objects have properties here. */
  function Prop(v: Option<Json>, k: string): Option<Json> {
    if v.Some? && v.value.Obj? then Lookup(v.value.members, k) else None
  }

  /** JavaScript truthiness of a possibly `undefined` value. */
  predicate Truthy(v: Option<Json>) {
    match v
    case None => false
    case Some(Null) => false
    case Some(Bool(b)) => b
    case Some(Num(n)) => n != 0
    case Some(Str(s)) => s != ""
    case Some(Arr(_)) => true
    case Some(Obj(_)) => true
  }

  /** `o[k] = v`: an existing key keeps its place, a new key goes last. */
  function Put(ms: seq<(string, Json)>, k: string, v: Json): seq<(string, Json)> {
    if ms == [] then [(k, v)]
    else if ms[0].0 == k then [(k, v)] + ms[1..]
    else [ms[0]] + Put(ms[1..], k, v)
  }

  /** Assignment sets the one key. */
  lemma {:induction false} PutSets(ms: seq<(string, Json)>, k: string, v: Json)
    ensures Lookup(Put(ms, k, v), k) == Some(v)
  {
    if ms != [] && ms[0].0 != k {
      PutSets(ms[1..], k, v);
      assert Put(ms, k, v)[1..] == Put(ms[1..], k, v);
    }
  }

  /** Assignment leaves every other key's value alone. */
  lemma {:induction false} PutKeepsOthers(ms: seq<(string, Json)>, k: string, v: Json, k2: string)
    requires k2 != k
    ensures Lookup(Put(ms, k, v), k2) == Lookup(ms, k2)
  {
    var r := Put(ms, k, v);
    if ms == [] {
      assert r[1..] == [];
    } else if ms[0].0 == k {
      assert r[1..] == ms[1..];
    } else {
      assert r[1..] == Put(ms[1..], k, v);
      if ms[0].0 != k2 {
        PutKeepsOthers(ms[1..], k, v, k2);
      }
    }
  }

  /** Assignment changes the key order only by appending a new key. */
  lemma {:induction false} PutKeys(ms: seq<(string, Json)>, k: string, v: Json)
    ensures Keys(Put(ms, k, v)) == if k in Keys(ms) then Keys(ms) else Keys(ms) + [k]
  {
    var r := Put(ms, k, v);
    if ms == [] {
    } else {
      assert Keys(ms) == [ms[0].0] + Keys(ms[1..]);
      assert Keys(r) == [r[0].0] + Keys(r[1..]);
      if ms[0].0 == k {
        assert r[1..] == ms[1..];
      } else {
        assert r[1..] == Put(ms[1..], k, v);
        PutKeys(ms[1..], k, v);
      }
    }
  }

  /** `{ ...(v || {}) }`: the own enumerable properties of `v`: an object's members, an
      array's elements or a string's characters under the keys "0", "1", ...; nothing for
      other values. */
  function Spread(v: Option<Json>): (ms: seq<(string, Json)>)
    ensures !Truthy(v) ==> ms == []
    ensures v.Some? && v.value.Obj? ==> ms == v.value.members
  {
    match v
    case Some(Obj(members)) => members
    case Some(Arr(items)) => seq(|items|, i requires 0 <= i < |items| => (Decimal(i), items[i]))
    case Some(Str(s)) => seq(|s|, i requires 0 <= i < |s| => (Decimal(i), Str([s[i]])))
    case _ => []
  }

  /** The text `${v}` produces for a JSON value. */
  function ToText(j: Json): string
    decreases j, 1, 0
  {
    match j
    case Null => "null"
    case Bool(b) => if b then "true" else "false"
    case Num(n) => if n < 0 then "-" + Decimal(-n) else Decimal(n)
    case Str(s) => s
    case Arr(_) => ItemsText(j, 0)
    case Obj(_) => "[object Object]"
  }

  /** `Array.prototype.join(",")` over the items from `from` on; `null` items become empty. */
  function ItemsText(j: Json, from: nat): string
    requires j.Arr? && from <= |j.items|
    decreases j, 0, |j.items| - from
  {
    if from == |j.items| then ""
    else
      var item := if j.items[from].Null? then "" else ToText(j.items[from]);
      if from + 1 == |j.items| then item else item + "," + ItemsText(j, from + 1)
  }
}
