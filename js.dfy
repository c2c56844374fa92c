/** The JavaScript values yodel.js validates and serializes: the data a
    response decodes to, the rule trees (which are ordinary JavaScript values
    too) and the query parameters. Only the parts of the language the
    validation engine observes are modelled: `typeof`, `Array.isArray`,
    truthiness, `Object.keys`, property reads `v[key]` and conversion to a
    string. */
module Js {
  import opened Text

  datatype Value =
    | Undefined
    | Null
    | Bool(b: bool)
    | Num(n: int)                          // integral numbers only
    | Str(s: string)
    | Arr(elems: seq<Value>)
    | Obj(fields: seq<Field>)              // own enumerable properties, in order
    | Func(id: nat)                        // a function, known by identity
    | RegExp(source: string, flags: string)

  datatype Field = Field(key: string, val: Value)

  /** The TypeErrors the engine can raise. */
  datatype Fault =
    | UnknownEnforcer(name: string)        // enforcers[name] is not a function
    | PropertyOfNullish(name: string)      // reading `name` of null or undefined
    | NotAFunction(name: string)           // calling `name`, which is no function
    | KeysOfNullish                        // Object.keys(null) or Object.keys(undefined)

  datatype Result<T> = Ok(value: T) | Err(fault: Fault)

  /** What the host environment supplies and the model does not interpret. */
  datatype Host = Host(
    matches: (string, Value) -> bool,      // text.match(pattern) is not null
    dateNonNegative: string -> bool,       // Date.parse(text) >= 0
    call: (nat, Value) -> Value,           // the result of calling function `id` on a value
    source: nat -> string)                 // the source text of function `id`

  // ----- typeof, Array.isArray, truthiness -----

  /** `typeof v`: "object" for null, arrays, objects and RegExps alike. */
  function TypeOf(v: Value): (r: string)
    ensures r in {"undefined", "object", "boolean", "number", "string", "function"}
    ensures r == "object" <==> v.Null? || v.Arr? || v.Obj? || v.RegExp?
    ensures r == "undefined" <==> v.Undefined?
  {
    match v
    case Undefined => "undefined"
    case Null => "object"
    case Bool(_) => "boolean"
    case Num(_) => "number"
    case Str(_) => "string"
    case Arr(_) => "object"
    case Obj(_) => "object"
    case Func(_) => "function"
    case RegExp(_, _) => "object"
  }

  predicate IsNullish(v: Value) {
    v.Undefined? || v.Null?
  }

  /** `typeof v === 'object' && !Array.isArray(v)`: objects, RegExps and null. */
  predicate IsPlainObjectLike(v: Value) {
    TypeOf(v) == "object" && !v.Arr?
  }

  predicate Truthy(v: Value) {
    match v
    case Undefined => false
    case Null => false
    case Bool(b) => b
    case Num(n) => n != 0
    case Str(s) => s != ""
    case _ => true
  }

  /** The falsy values are exactly undefined, null, false, 0 and the empty
      string. */
  lemma FalsyValues(v: Value)
    ensures !Truthy(v) <==> v in {Undefined, Null, Bool(false), Num(0), Str("")}
  {
  }

  // ----- sizes, for termination of the walks over rule trees -----

  function Size(v: Value): nat
    decreases v, 1
  {
    match v
    case Arr(es) => 1 + ElemsSize(es)
    case Obj(fs) => 1 + FieldsSize(fs)
    case _ => 0
  }

  function ElemsSize(es: seq<Value>): nat
    decreases es, 0
  {
    if es == [] then 0 else 1 + Size(es[0]) + ElemsSize(es[1..])
  }

  function FieldsSize(fs: seq<Field>): nat
    decreases fs, 0
  {
    if fs == [] then 0 else 1 + Size(fs[0].val) + FieldsSize(fs[1..])
  }

  lemma {:induction false} FieldSmaller(fs: seq<Field>, i: nat)
    requires i < |fs|
    ensures Size(fs[i].val) < FieldsSize(fs)
  {
    if i > 0 {
      FieldSmaller(fs[1..], i - 1);
    }
  }

  // ----- own properties -----

  /** The first value stored under `key`. */
  function Lookup(fs: seq<Field>, key: string): Option<Value> {
    if fs == [] then None
    else if fs[0].key == key then Some(fs[0].val)
    else Lookup(fs[1..], key)
  }

  /** `Lookup` finds nothing exactly when no field has the key, and what it
      finds is a field listed under the key. */
  lemma {:induction false} LookupFound(fs: seq<Field>, key: string)
    ensures Lookup(fs, key).None? <==> forall i :: 0 <= i < |fs| ==> fs[i].key != key
    ensures Lookup(fs, key).Some? ==>
      exists i :: 0 <= i < |fs| && fs[i] == Field(key, Lookup(fs, key).value)
  {
    if fs != [] && fs[0].key != key {
      LookupFound(fs[1..], key);
      assert forall i :: 1 <= i < |fs| ==> fs[i] == fs[1..][i - 1];
      if Lookup(fs, key).Some? {
        var j :| 0 <= j < |fs[1..]| && fs[1..][j] == Field(key, Lookup(fs, key).value);
        assert fs[j + 1] == fs[1..][j];
      }
    }
  }

  /** The fields whose key is not `key`. */
  function Drop(fs: seq<Field>, key: string): (r: seq<Field>)
    ensures |r| <= |fs|
    ensures FieldsSize(r) <= FieldsSize(fs)
    ensures forall i :: 0 <= i < |r| ==> r[i] in fs && r[i].key != key
  {
    if fs == [] then []
    else if fs[0].key == key then Drop(fs[1..], key)
    else
      var rest := Drop(fs[1..], key);
      assert ([fs[0]] + rest)[1..] == rest;
      [fs[0]] + rest
  }

  lemma {:induction false} LookupDrop(fs: seq<Field>, drop: string, key: string)
    requires key != drop
    ensures Lookup(Drop(fs, drop), key) == Lookup(fs, key)
  {
    if fs != [] {
      LookupDrop(fs[1..], drop, key);
      if fs[0].key != drop {
        assert ([fs[0]] + Drop(fs[1..], drop))[1..] == Drop(fs[1..], drop);
      }
    }
  }

  /** A field list read as an object: each key once, at its first position,
      with the first value listed for it. */
  function Own(fs: seq<Field>): (ps: seq<Field>)
    ensures FieldsSize(ps) <= FieldsSize(fs)
    ensures forall i :: 0 <= i < |ps| ==> ps[i] in fs
    decreases |fs|
  {
    if fs == [] then []
    else
      var rest := Own(Drop(fs[1..], fs[0].key));
      assert ([fs[0]] + rest)[1..] == rest;
      [fs[0]] + rest
  }

  lemma {:induction false} OwnDistinct(fs: seq<Field>)
    ensures forall i, j :: 0 <= i < j < |Own(fs)| ==> Own(fs)[i].key != Own(fs)[j].key
    decreases |fs|
  {
    if fs != [] {
      var d := Drop(fs[1..], fs[0].key);
      OwnDistinct(d);
      var ps := Own(fs);
      assert ps == [fs[0]] + Own(d);
      forall j | 0 < j < |ps|
        ensures ps[j].key != fs[0].key
      {
        assert ps[j] == Own(d)[j - 1];
        assert ps[j] in d;
      }
    }
  }

  lemma {:induction false} OwnLookup(fs: seq<Field>, i: nat)
    requires i < |Own(fs)|
    ensures Lookup(fs, Own(fs)[i].key) == Some(Own(fs)[i].val)
    decreases |fs|
  {
    var d := Drop(fs[1..], fs[0].key);
    var ps := Own(fs);
    assert ps == [fs[0]] + Own(d);
    if i > 0 {
      var q := ps[i];
      assert q == Own(d)[i - 1];
      OwnLookup(d, i - 1);
      assert q in d;
      LookupDrop(fs[1..], fs[0].key, q.key);
    }
  }

  function Indexed(es: seq<Value>): (ps: seq<Field>)
    ensures |ps| == |es|
    ensures forall i :: 0 <= i < |es| ==> ps[i] == Field(NatToString(i), es[i])
  {
    seq(|es|, i requires 0 <= i < |es| => Field(NatToString(i), es[i]))
  }

  function Chars(s: string): seq<Value> {
    seq(|s|, i requires 0 <= i < |s| => Str([s[i]]))
  }

  /** The own enumerable properties of `v`, as `Object.entries(v)` lists them;
      `Object.keys` throws on null and undefined. */
  function OwnProps(v: Value): Result<seq<Field>> {
    match v
    case Undefined => Err(KeysOfNullish)
    case Null => Err(KeysOfNullish)
    case Obj(fs) => Ok(Own(fs))
    case Arr(es) => Ok(Indexed(es))
    case Str(s) => Ok(Indexed(Chars(s)))
    case _ => Ok([])
  }

  /** `Object.keys(v)`. */
  function Keys(v: Value): (r: Result<seq<string>>)
    ensures r.Err? <==> IsNullish(v)
    ensures r.Ok? ==> OwnProps(v).Ok? && |r.value| == |OwnProps(v).value|
    ensures r.Ok? ==> forall i :: 0 <= i < |r.value| ==> r.value[i] == OwnProps(v).value[i].key
  {
    match OwnProps(v)
    case Err(e) => Err(e)
    case Ok(ps) => Ok(seq(|ps|, i requires 0 <= i < |ps| => ps[i].key))
  }

  /** The property read `v[key]`, for own properties and the `length` of
      arrays and strings; reading from null or undefined throws. */
  function Get(v: Value, key: string): Result<Value> {
    match v
    case Undefined => Err(PropertyOfNullish(key))
    case Null => Err(PropertyOfNullish(key))
    case Obj(fs) =>
      (match Lookup(fs, key) case Some(x) => Ok(x) case None => Ok(Undefined))
    case Arr(es) =>
      if key == "length" then Ok(Num(|es|))
      else (match ParseIndex(key)
            case Some(i) => if i < |es| then Ok(es[i]) else Ok(Undefined)
            case None => Ok(Undefined))
    case Str(s) =>
      if key == "length" then Ok(Num(|s|))
      else (match ParseIndex(key)
            case Some(i) => if i < |s| then Ok(Str([s[i]])) else Ok(Undefined)
            case None => Ok(Undefined))
    case _ => Ok(Undefined)
  }

  /** What a property read gives: a TypeError exactly on null and undefined,
      the length of an array or a string under `length`, undefined for a
      key an object does not list, and otherwise a value listed under the
      key. */
  lemma GetReads(v: Value, key: string)
    ensures Get(v, key).Err? <==> IsNullish(v)
    ensures Get(v, key).Err? ==> Get(v, key).fault == PropertyOfNullish(key)
    ensures v.Arr? && key == "length" ==> Get(v, key) == Ok(Num(|v.elems|))
    ensures v.Str? && key == "length" ==> Get(v, key) == Ok(Num(|v.s|))
    ensures v.Obj? && (forall i :: 0 <= i < |v.fields| ==> v.fields[i].key != key) ==>
      Get(v, key) == Ok(Undefined)
    ensures v.Obj? && Get(v, key).Ok? && Get(v, key).value != Undefined ==>
      exists i :: 0 <= i < |v.fields| && v.fields[i] == Field(key, Get(v, key).value)
  {
    if v.Obj? {
      LookupFound(v.fields, key);
    }
  }

  /** Reading a key `Object.keys` listed gives the value enumerated with it:
      `v[k]` for `k` in `Object.keys(v)` is the property itself. */
  lemma OwnPropsAgree(v: Value, i: nat)
    requires OwnProps(v).Ok? && i < |OwnProps(v).value|
    ensures Get(v, OwnProps(v).value[i].key) == Ok(OwnProps(v).value[i].val)
  {
    match v
    case Obj(fs) => OwnLookup(fs, i);
    case Arr(es) =>
      ParseIndexRoundTrip(i);
      assert NatToString(i)[0] != 'l';
    case Str(s) =>
      ParseIndexRoundTrip(i);
      assert NatToString(i)[0] != 'l';
    case _ =>
  }

  /** Every entry `Object.keys` lists reads back as its own value. */
  lemma EntriesAgree(v: Value)
    requires OwnProps(v).Ok?
    ensures forall i :: 0 <= i < |OwnProps(v).value| ==>
      Get(v, OwnProps(v).value[i].key) == Ok(OwnProps(v).value[i].val)
  {
    forall i | 0 <= i < |OwnProps(v).value|
      ensures Get(v, OwnProps(v).value[i].key) == Ok(OwnProps(v).value[i].val)
    {
      OwnPropsAgree(v, i);
    }
  }

  /** For an object-like rule, every property is smaller than the rule. */
  lemma PropsSmaller(v: Value)
    requires IsPlainObjectLike(v) && OwnProps(v).Ok?
    ensures FieldsSize(OwnProps(v).value) <= Size(v)
    ensures forall i :: 0 <= i < |OwnProps(v).value| ==> Size(OwnProps(v).value[i].val) < Size(v)
  {
    var ps := OwnProps(v).value;
    forall i | 0 <= i < |ps|
      ensures Size(ps[i].val) < Size(v)
    {
      FieldSmaller(ps, i);
    }
  }

  // ----- conversion to a string -----

  /** `${v}`, the template-literal conversion (also what `v.toString()`
      gives for every value but null and undefined). */
  function Render(h: Host, v: Value): string
    decreases Size(v), 1
  {
    match v
    case Undefined => "undefined"
    case Null => "null"
    case Bool(b) => if b then "true" else "false"
    case Num(n) => IntToString(n)
    case Str(s) => s
    case Arr(es) => RenderElems(h, es)
    case Obj(_) => "[object Object]"
    case Func(id) => h.source(id)
    case RegExp(src, flags) => "/" + src + "/" + flags
  }

  /** `es.join(',')`, where null and undefined elements join as "". */
  function RenderElems(h: Host, es: seq<Value>): string
    decreases ElemsSize(es), 0
  {
    if es == [] then ""
    else
      var first := if IsNullish(es[0]) then "" else Render(h, es[0]);
      if |es| == 1 then first else first + "," + RenderElems(h, es[1..])
  }

  /** An array renders as `es.join(',')` of its elements' string forms,
      with null and undefined elements contributing the empty string. */
  lemma {:induction false} RenderArray(h: Host, es: seq<Value>)
    ensures Render(h, Arr(es)) ==
      Join(seq(|es|, i requires 0 <= i < |es| => if IsNullish(es[i]) then "" else Render(h, es[i])), ',')
  {
    if |es| > 1 {
      RenderArray(h, es[1..]);
      var texts := seq(|es|, i requires 0 <= i < |es| => if IsNullish(es[i]) then "" else Render(h, es[i]));
      assert texts[1..] == seq(|es[1..]|, i requires 0 <= i < |es[1..]| =>
        if IsNullish(es[1..][i]) then "" else Render(h, es[1..][i]));
    }
  }
}
