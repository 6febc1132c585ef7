/**
 * Parsed JSON values and the JavaScript object operations the back end applies
 * to them: property lookup, property assignment and object spread ({...a, ...b}).
 * Objects keep their properties in insertion order, as JavaScript does.
 */
module Json {
  import opened Wrappers

  datatype Json =
    | JNull
    | JBool(b: bool)
    | JNumber(n: real)
    | JString(s: string)
    | JArray(items: seq<Json>)
    | JObject(members: seq<(string, Json)>)

  type Members = seq<(string, Json)>

  function KeysOf(obj: Members): set<string> {
    if obj == [] then {} else KeysOf(obj[..|obj| - 1]) + {obj[|obj| - 1].0}
  }

  /** obj[k]: the value of the last property named k (JSON.parse keeps the last duplicate). */
  function Lookup(obj: Members, k: string): (r: Option<Json>)
    ensures r.Some? <==> k in KeysOf(obj)
  {
    if obj == [] then None
    else if obj[|obj| - 1].0 == k then Some(obj[|obj| - 1].1)
    else
      Lookup(obj[..|obj| - 1], k)
  }

  /** Gives every property named k the value v. */
  function Replace(obj: Members, k: string, v: Json): (r: Members)
    ensures |r| == |obj|
    ensures forall i :: 0 <= i < |r| ==> r[i].0 == obj[i].0
    ensures forall i :: 0 <= i < |r| ==> r[i].1 == if obj[i].0 == k then v else obj[i].1
  {
    if obj == [] then []
    else
      var last := obj[|obj| - 1];
      Replace(obj[..|obj| - 1], k, v) + [(last.0, if last.0 == k then v else last.1)]
  }

  /** obj[k] = v: an existing property keeps its position, a new one is appended. */
  function Assign(obj: Members, k: string, v: Json): Members {
    if k in KeysOf(obj) then Replace(obj, k, v) else obj + [(k, v)]
  }

  /** {...target, ...src}: the properties of src assigned onto target in order. */
  function Spread(target: Members, src: Members): Members
    decreases |src|
  {
    if src == [] then target
    else Spread(Assign(target, src[0].0, src[0].1), src[1..])
  }

  lemma {:induction false} LookupReplace(obj: Members, k: string, v: Json, k': string)
    ensures Lookup(Replace(obj, k, v), k') == if k' == k && k in KeysOf(obj) then Some(v) else Lookup(obj, k')
  {
    if obj != [] {
      var r := Replace(obj, k, v);
      assert r[..|r| - 1] == Replace(obj[..|obj| - 1], k, v);
      LookupReplace(obj[..|obj| - 1], k, v, k');
    }
  }

  /** After obj[k] = v, reading k gives v and every other property is unchanged. */
  lemma LookupAssign(obj: Members, k: string, v: Json, k': string)
    ensures Lookup(Assign(obj, k, v), k') == if k' == k then Some(v) else Lookup(obj, k')
  {
    if k in KeysOf(obj) {
      LookupReplace(obj, k, v, k');
    } else {
      var r := obj + [(k, v)];
      assert r[..|r| - 1] == obj;
    }
  }

  /** Spread semantics: a property of src wins, any other property comes from target. */
  lemma {:induction false} LookupSpread(target: Members, src: Members, k: string)
    ensures Lookup(Spread(target, src), k) == if k in KeysOf(src) then Lookup(src, k) else Lookup(target, k)
    decreases |src|
  {
    if src != [] {
      var t := Assign(target, src[0].0, src[0].1);
      LookupSpread(t, src[1..], k);
      LookupAssign(target, src[0].0, src[0].1, k);
      KeysOfFront(src);
      if k in KeysOf(src[1..]) {
        LookupTail(src, k);
      } else if k == src[0].0 {
        LookupFirstOnly(src, k);
      }
    }
  }

  lemma {:induction false} KeysOfFront(obj: Members)
    requires obj != []
    ensures KeysOf(obj) == {obj[0].0} + KeysOf(obj[1..])
  {
    if |obj| > 1 {
      var init := obj[..|obj| - 1];
      assert init[1..] == obj[1..][..|obj[1..]| - 1];
      KeysOfFront(init);
    }
  }

  /** A property that also occurs later is read from the later occurrence. */
  lemma {:induction false} LookupTail(src: Members, k: string)
    requires src != [] && k in KeysOf(src[1..])
    ensures Lookup(src, k) == Lookup(src[1..], k)
  {
    if src[|src| - 1].0 != k {
      var init := src[..|src| - 1];
      assert init[1..] == src[1..][..|src[1..]| - 1];
      assert KeysOf(src[1..]) == KeysOf(src[1..][..|src[1..]| - 1]) + {src[|src| - 1].0};
      LookupTail(init, k);
    }
  }

  /** A property that occurs only first is read from there. */
  lemma {:induction false} LookupFirstOnly(src: Members, k: string)
    requires src != [] && src[0].0 == k && k !in KeysOf(src[1..])
    ensures Lookup(src, k) == Some(src[0].1)
  {
    if |src| > 1 {
      var init := src[..|src| - 1];
      assert init[1..] == src[1..][..|src[1..]| - 1];
      assert src[|src| - 1] == src[1..][|src[1..]| - 1];
      assert KeysOf(src[1..]) == KeysOf(init[1..]) + {src[|src| - 1].0};
      LookupFirstOnly(init, k);
    }
  }

  /** Drops every property named k (what JSON.stringify does to a property set to undefined). */
  function Remove(obj: Members, k: string): Members {
    if obj == [] then []
    else
      var last := obj[|obj| - 1];
      Remove(obj[..|obj| - 1], k) + (if last.0 == k then [] else [last])
  }

  /** After removing k, k reads as missing and every other property is unchanged. */
  lemma {:induction false} LookupRemove(obj: Members, k: string, k': string)
    ensures Lookup(Remove(obj, k), k') == if k' == k then None else Lookup(obj, k')
  {
    if obj != [] {
      var init := obj[..|obj| - 1];
      var last := obj[|obj| - 1];
      LookupRemove(init, k, k');
      var r := Remove(obj, k);
      if last.0 != k {
        assert r[..|r| - 1] == Remove(init, k);
      } else {
        assert r == Remove(init, k);
      }
    }
  }

  /** Every lookup after a spread, at once. */
  lemma SpreadLookups(target: Members, src: Members)
    ensures forall k ::
      Lookup(Spread(target, src), k) == if k in KeysOf(src) then Lookup(src, k) else Lookup(target, k)
  {
    forall k {
      LookupSpread(target, src, k);
    }
  }

  /** Every lookup after an assignment, at once. */
  lemma AssignLookups(obj: Members, k: string, v: Json)
    ensures forall k' ::
      Lookup(Assign(obj, k, v), k') == if k' == k then Some(v) else Lookup(obj, k')
  {
    forall k' {
      LookupAssign(obj, k, v, k');
    }
  }

  /** Property read on a non-null value: only objects have own properties here. */
  function Get(j: Json, k: string): Option<Json> {
    if j.JObject? then Lookup(j.members, k) else None
  }

  /** The own enumerable properties that {...j} copies (objects only; see the README for strings and arrays). */
  function Fields(j: Json): Members {
    if j.JObject? then j.members else []
  }

  /** JavaScript truthiness of a present value. */
  predicate Truthy(j: Json) {
    match j
    case JNull => false
    case JBool(b) => b
    case JNumber(n) => n != 0.0
    case JString(s) => s != ""
    case _ => true
  }

  /** Truthiness of a possibly missing (undefined) value. */
  predicate TruthyOpt(j: Option<Json>) {
    j.Some? && Truthy(j.value)
  }
}
