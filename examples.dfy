/** Concrete runs of the validation walk on small rule trees: ordinary
    failures, and the edge cases of this revision of yodel.js (no skipping
    of optional fields, array rules under a key, null field values, unknown
    rule names). */
module Scenarios {
  import opened Text
  import opened Js
  import opened Enforcers
  import opened Validation

  function Leaf(name: string, expected: Value): Value {
    Obj([Field(name, expected)])
  }

  lemma OwnSingle(f: Field)
    ensures Own([f]) == [f]
  {
    assert [f][1..] == [];
    assert Drop([], f.key) == [];
    assert Own([]) == [];
  }

  /** A rule object with one key walks just that key. */
  lemma OneKey(h: Host, data: Value, key: string, rule: Value)
    ensures Failures(h, data, Obj([Field(key, rule)])) == FieldFailures(h, data, key, rule)
  {
    var props := [Field(key, rule)];
    OwnSingle(Field(key, rule));
    assert OwnProps(Obj(props)) == Ok(props);
    assert Failures(h, data, Obj(props)) == FieldsFailures(h, data, props);
    assert props[1..] == [];
    var f := FieldFailures(h, data, key, rule);
    assert FieldsFailures(h, data, props) == Concat(f, FieldsFailures(h, data, []));
    assert f.Ok? ==> f.value + [] == f.value;
  }

  /** A leaf with one enforcer runs just that enforcer. */
  lemma OneCheck(h: Host, key: string, value: Value, name: string, expected: Value)
    ensures LeafFailures(h, key, value, Leaf(name, expected)) == Verdict(h, name, key, expected, value)
  {
    var checks := [Field(name, expected)];
    OwnSingle(Field(name, expected));
    assert OwnProps(Obj(checks)) == Ok(checks);
    assert checks[1..] == [];
    var f := Verdict(h, name, key, expected, value);
    assert ChecksFailures(h, key, value, checks) == Concat(f, ChecksFailures(h, key, value, []));
    assert f.Ok? ==> f.value + [] == f.value;
  }

  /** A key whose value is a non-array object is walked as a nested rule. */
  lemma NestedKey(h: Host, key: string, value: Value, rule: Value)
    requires IsPlainObjectLike(value)
    ensures FieldFailures(h, Obj([Field(key, value)]), key, rule) == Failures(h, value, rule)
  {
    assert Lookup([Field(key, value)], key) == Some(value);
  }

  /** A key whose value is not a non-array object has its leaf's checks run. */
  lemma LeafKey(h: Host, key: string, value: Value, rule: Value)
    requires !IsPlainObjectLike(value)
    ensures FieldFailures(h, Obj([Field(key, value)]), key, rule) == LeafFailures(h, key, value, rule)
  {
    assert Lookup([Field(key, value)], key) == Some(value);
  }

  function NumberRule(): Value {
    Obj([Field("n", Leaf("type", Str("number")))])
  }

  lemma NumberRecord(h: Host, v: Value)
    requires !IsPlainObjectLike(v)
    ensures Failures(h, Obj([Field("n", v)]), NumberRule())
         == if v.Num? then Ok([]) else Ok([Failure("n", "type", Str("number"), v)])
  {
    FlatLeaf(h, "n", v, "type", Str("number"));
    assert Lower("number") == "number";
  }

  /** Rules `[{n: {type: "number"}}]` over `[{n: 1}, {n: "x"}]`: exactly one
      failure, for the second element's `n`. */
  lemma ArrayOfRecords(h: Host)
    ensures Failures(h, Arr([Obj([Field("n", Num(1))]), Obj([Field("n", Str("x"))])]), Arr([NumberRule()]))
         == Ok([Failure("n", "type", Str("number"), Str("x"))])
  {
    TwoRecords(h, Num(1), Str("x"));
    NumberRecord(h, Num(1));
    NumberRecord(h, Str("x"));
    var f := Failure("n", "type", Str("number"), Str("x"));
    assert Concat(Ok([]), Ok([f])) == Ok([f]) by { assert [] + [f] == [f]; }
  }

  lemma TwoRecords(h: Host, u: Value, v: Value)
    requires !IsPlainObjectLike(u) && !IsPlainObjectLike(v)
    ensures Failures(h, Arr([Obj([Field("n", u)]), Obj([Field("n", v)])]), Arr([NumberRule()]))
         == Concat(Failures(h, Obj([Field("n", u)]), NumberRule()), Failures(h, Obj([Field("n", v)]), NumberRule()))
  {
    var first := Obj([Field("n", u)]);
    var second := Obj([Field("n", v)]);
    NumberRecord(h, u);
    NumberRecord(h, v);
    ElemsSingle(h, first, NumberRule());
    ArrayRuleOnArray(h, [first], [NumberRule()], second);
    assert [first] + [second] == [first, second];
  }

  /** Rules `{addr: {city: {type: "string"}}}` over `{addr: {city: 5}}`:
      exactly one failure, for key "city". */
  lemma NestedObject(h: Host)
    ensures Failures(h, Obj([Field("addr", Obj([Field("city", Num(5))]))]),
                        Obj([Field("addr", Obj([Field("city", Leaf("type", Str("string")))]))]))
         == Ok([Failure("city", "type", Str("string"), Num(5))])
  {
    NestedLeaf(h, "addr", "city", Num(5), "type", Str("string"));
    assert Verdict(h, "type", "city", Str("string"), Num(5))
        == Ok([Failure("city", "type", Str("string"), Num(5))]) by {
      assert Lower("string") == "string";
    }
  }

  /** One key holding an object with one key, checked by a leaf with one
      enforcer: the walk is that one enforcer on the inner value. */
  lemma NestedLeaf(h: Host, outer: string, inner: string, v: Value, name: string, expected: Value)
    requires !IsPlainObjectLike(v)
    ensures Failures(h, Obj([Field(outer, Obj([Field(inner, v)]))]),
                        Obj([Field(outer, Obj([Field(inner, Leaf(name, expected))]))]))
         == Verdict(h, name, inner, expected, v)
  {
    var data := Obj([Field(inner, v)]);
    var rule := Obj([Field(inner, Leaf(name, expected))]);
    FlatLeaf(h, inner, v, name, expected);
    OneKey(h, Obj([Field(outer, data)]), outer, rule);
    NestedKey(h, outer, data, rule);
  }

  /** One key, checked by a leaf with one enforcer: the walk is that one
      enforcer on the key's value. */
  lemma FlatLeaf(h: Host, key: string, v: Value, name: string, expected: Value)
    requires !IsPlainObjectLike(v)
    ensures Failures(h, Obj([Field(key, v)]), Obj([Field(key, Leaf(name, expected))]))
         == Verdict(h, name, key, expected, v)
  {
    OneKey(h, Obj([Field(key, v)]), key, Leaf(name, expected));
    LeafKey(h, key, v, Leaf(name, expected));
    OneCheck(h, key, v, name, expected);
  }

  /** The same over an object that lacks the key: the enforcer runs on
      `undefined`. */
  lemma MissingLeaf(h: Host, key: string, name: string, expected: Value)
    ensures Failures(h, Obj([]), Obj([Field(key, Leaf(name, expected))]))
         == Verdict(h, name, key, expected, Undefined)
  {
    OneKey(h, Obj([]), key, Leaf(name, expected));
    assert Get(Obj([]), key) == Ok(Undefined);
    OneCheck(h, key, Undefined, name, expected);
  }

  /** Rules `{x: {required: false}}` over `{x: "present"}`: a failure, since
      the value is truthy and `required` is false. */
  lemma RequiredFalse(h: Host)
    ensures Failures(h, Obj([Field("x", Str("present"))]), Obj([Field("x", Leaf("required", Bool(false)))]))
         == Ok([Failure("x", "required", Bool(false), Str("present"))])
  {
    FlatLeaf(h, "x", Str("present"), "required", Bool(false));
  }

  /** Rules `{age: {type: "number"}}` over `{}`: this revision does not skip
      a missing field that is not required; `type` runs on `undefined` and
      fails. */
  lemma MissingFieldIsChecked(h: Host)
    ensures Failures(h, Obj([]), Obj([Field("age", Leaf("type", Str("number")))]))
         == Ok([Failure("age", "type", Str("number"), Undefined)])
  {
    MissingLeaf(h, "age", "type", Str("number"));
    assert Lower("number") == "number";
  }

  /** Rules `{tags: [{type: "string"}]}` over `{tags: ["a"]}`: an array rule
      under a key is only walked as an array rule when the data value is a
      non-array object; over an array value its keys ("0") are taken as
      enforcer names, and `enforcers["0"]` is not a function. */
  lemma NestedArrayRuleThrows(h: Host)
    ensures Failures(h, Obj([Field("tags", Arr([Str("a")]))]), Obj([Field("tags", Arr([Leaf("type", Str("string"))]))]))
         == Err(UnknownEnforcer("0"))
  {
    var rule := Arr([Leaf("type", Str("string"))]);
    OneKey(h, Obj([Field("tags", Arr([Str("a")]))]), "tags", rule);
    assert NatToString(0) == "0";
    assert Indexed([Leaf("type", Str("string"))]) == [Field("0", Leaf("type", Str("string")))];
    var checks := [Field("0", Leaf("type", Str("string")))];
    assert ChecksFailures(h, "tags", Arr([Str("a")]), checks)
        == Concat(Verdict(h, "0", "tags", Leaf("type", Str("string")), Arr([Str("a")])),
                  ChecksFailures(h, "tags", Arr([Str("a")]), []));
  }

  /** Rules `{a: {type: "string"}}` over `{a: null}`: null passes the
      `typeof value === 'object'` test, so the leaf is walked as a nested
      rule and reading `null.type` throws. */
  lemma NullFieldThrows(h: Host)
    ensures Failures(h, Obj([Field("a", Null)]), Obj([Field("a", Leaf("type", Str("string")))]))
         == Err(PropertyOfNullish("type"))
  {
    OneKey(h, Obj([Field("a", Null)]), "a", Leaf("type", Str("string")));
    OneKey(h, Null, "type", Str("string"));
  }

  /** A null rule under a key whose value is null: the walk descends into
      the null value and throws in `Object.keys(null)`. */
  lemma NullRuleThrows(h: Host)
    ensures Failures(h, Obj([Field("a", Null)]), Obj([Field("a", Null)])) == Err(KeysOfNullish)
  {
    OneKey(h, Obj([Field("a", Null)]), "a", Null);
    NestedKey(h, "a", Null, Null);
  }

  /** A leaf naming an enforcer this revision lacks (`min`) throws. */
  lemma UnknownRuleThrows(h: Host)
    ensures Failures(h, Obj([Field("age", Num(3))]), Obj([Field("age", Leaf("min", Num(0)))]))
         == Err(UnknownEnforcer("min"))
  {
    FlatLeaf(h, "age", Num(3), "min", Num(0));
  }
}
