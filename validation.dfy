/** `validate(data, rules)` of yodel.js: the recursive walk of a value
    against a rule tree that concatenates every failure paragraph.

    `Failures` is the specification: the structured list of failed checks in
    the order the walk meets them, or the TypeError that stops it. `Validate`
    is the walk as the source writes it: loops over array elements, rule
    keys and rule names that append to an `error` string, calling itself on
    nested rules. `Conforms` is an independent, quantified description of
    "every check the walk makes passes". */
module Validation {
  import opened Text
  import opened Js
  import opened Enforcers

  /** The results of two parts of the walk, one after the other: the first
      TypeError wins, otherwise the failures concatenate. */
  function Concat(a: Result<seq<Failure>>, b: Result<seq<Failure>>): Result<seq<Failure>> {
    if a.Err? then a else if b.Err? then b else Ok(a.value + b.value)
  }

  /** `rules[0]` of an array rule. */
  function Head(es: seq<Value>): (r: Value)
    ensures Size(r) < Size(Arr(es))
  {
    if es == [] then Undefined else es[0]
  }

  /** The failures `validate(data, rules)` reports. */
  function Failures(h: Host, data: Value, rules: Value): Result<seq<Failure>>
    decreases Size(rules), 1, 0
  {
    if rules.Arr? then
      if !data.Arr? then Ok([Failure("data", "type", Str("array"), data)])
      else ElemsFailures(h, data.elems, Head(rules.elems))
    else if TypeOf(rules) == "object" then
      match OwnProps(rules)
      case Err(e) => Err(e)
      case Ok(props) => PropsSmaller(rules); FieldsFailures(h, data, props)
    else Ok([])
  }

  /** Each element against the element rule, in element order. */
  function ElemsFailures(h: Host, items: seq<Value>, rule: Value): Result<seq<Failure>>
    decreases Size(rule), 2, |items|
  {
    if items == [] then Ok([])
    else Concat(Failures(h, items[0], rule), ElemsFailures(h, items[1..], rule))
  }

  /** Each property of an object rule, in key order. */
  function FieldsFailures(h: Host, data: Value, props: seq<Field>): Result<seq<Failure>>
    decreases FieldsSize(props), 0, 0
  {
    if props == [] then Ok([])
    else Concat(FieldFailures(h, data, props[0].key, props[0].val), FieldsFailures(h, data, props[1..]))
  }

  /** One key of an object rule: a nested walk when the data value is an
      object (or null), otherwise the rule's enforcers on that value. */
  function FieldFailures(h: Host, data: Value, key: string, rule: Value): Result<seq<Failure>>
    decreases Size(rule), 2, 0
  {
    match Get(data, key)
    case Err(e) => Err(e)
    case Ok(value) =>
      if IsPlainObjectLike(value) then Failures(h, value, rule) else LeafFailures(h, key, value, rule)
  }

  /** Every enforcer named by a key of `rule`, in key order. */
  function LeafFailures(h: Host, key: string, value: Value, rule: Value): Result<seq<Failure>> {
    match OwnProps(rule)
    case Err(e) => Err(e)
    case Ok(checks) => ChecksFailures(h, key, value, checks)
  }

  function ChecksFailures(h: Host, key: string, value: Value, checks: seq<Field>): Result<seq<Failure>> {
    if checks == [] then Ok([])
    else Concat(Verdict(h, checks[0].key, key, checks[0].val, value), ChecksFailures(h, key, value, checks[1..]))
  }

  /** The string `validate` returns, or the TypeError it throws. */
  function Errors(h: Host, data: Value, rules: Value): Result<string> {
    Rendered(h, Failures(h, data, rules))
  }

  // ----- the walk as the source writes it -----

  /** `error + rest`, unless the rest of the walk throws. */
  function Prepend(error: string, rest: Result<string>): Result<string> {
    match rest
    case Err(e) => Err(e)
    case Ok(t) => Ok(error + t)
  }

  lemma RenderedConcat(h: Host, a: Result<seq<Failure>>, b: Result<seq<Failure>>)
    ensures Rendered(h, Concat(a, b)) ==
      match Rendered(h, a)
      case Err(e) => Err(e)
      case Ok(s) => Prepend(s, Rendered(h, b))
  {
    if a.Ok? && b.Ok? {
      ReportAppend(h, a.value, b.value);
    }
  }

  /** One more part of the walk: an error stops it, otherwise its text is
      appended to what was accumulated. */
  lemma PrependStep(error: string, h: Host, a: Result<seq<Failure>>, b: Result<seq<Failure>>)
    ensures Rendered(h, a).Err? ==> Prepend(error, Rendered(h, Concat(a, b))) == Rendered(h, a)
    ensures Rendered(h, a).Ok? ==>
      Prepend(error, Rendered(h, Concat(a, b))) == Prepend(error + Rendered(h, a).value, Rendered(h, b))
  {
    RenderedConcat(h, a, b);
    if a.Ok? && b.Ok? {
      assert error + (Report(h, a.value) + Report(h, b.value)) == (error + Report(h, a.value)) + Report(h, b.value);
    }
  }

  lemma PrependNothing(r: Result<string>)
    ensures Prepend("", r) == r
  {
    if r.Ok? {
      assert "" + r.value == r.value;
    }
  }

  /** One pass of the loop over a rule's keys: visiting key `i` either
      throws, or appends that field's text `x` to what was accumulated. */
  lemma FieldsStep(error: string, x: Result<string>, h: Host, data: Value, props: seq<Field>, i: nat)
    requires i < |props|
    requires x == Rendered(h, FieldFailures(h, data, props[i].key, props[i].val))
    ensures x.Err? ==> Prepend(error, Rendered(h, FieldsFailures(h, data, props[i..]))) == x
    ensures x.Ok? ==>
      Prepend(error, Rendered(h, FieldsFailures(h, data, props[i..]))) ==
      Prepend(error + x.value, Rendered(h, FieldsFailures(h, data, props[i + 1..])))
  {
    assert props[i..][1..] == props[i + 1..];
    assert FieldsFailures(h, data, props[i..]) ==
      Concat(FieldFailures(h, data, props[i].key, props[i].val), FieldsFailures(h, data, props[i + 1..]));
    PrependStep(error, h, FieldFailures(h, data, props[i].key, props[i].val), FieldsFailures(h, data, props[i + 1..]));
  }

  /** One pass of the loop over a leaf's rule names: running check `j`
      either throws, or appends its text `m` to what was accumulated. */
  lemma ChecksStep(error: string, m: Result<string>, h: Host, key: string, value: Value, checks: seq<Field>, j: nat)
    requires j < |checks|
    requires m == Rendered(h, Verdict(h, checks[j].key, key, checks[j].val, value))
    ensures m.Err? ==> Prepend(error, Rendered(h, ChecksFailures(h, key, value, checks[j..]))) == m
    ensures m.Ok? ==>
      Prepend(error, Rendered(h, ChecksFailures(h, key, value, checks[j..]))) ==
      Prepend(error + m.value, Rendered(h, ChecksFailures(h, key, value, checks[j + 1..])))
  {
    assert checks[j..][1..] == checks[j + 1..];
    assert ChecksFailures(h, key, value, checks[j..]) ==
      Concat(Verdict(h, checks[j].key, key, checks[j].val, value), ChecksFailures(h, key, value, checks[j + 1..]));
    PrependStep(error, h, Verdict(h, checks[j].key, key, checks[j].val, value), ChecksFailures(h, key, value, checks[j + 1..]));
  }

  /** The object branch of `Errors`: the key pass over the rule's own
      properties. */
  lemma ObjectRuleErrors(h: Host, data: Value, rules: Value)
    requires !rules.Arr? && TypeOf(rules) == "object" && OwnProps(rules).Ok?
    ensures Errors(h, data, rules) == Rendered(h, FieldsFailures(h, data, OwnProps(rules).value))
  {
  }

  /** The `i`-th key `Object.keys(v)` lists names the `i`-th property, and
      reading it gives that property's value. */
  lemma KeyAgrees(v: Value, i: nat)
    requires Keys(v).Ok? && i < |Keys(v).value|
    ensures OwnProps(v).Ok? && |Keys(v).value| == |OwnProps(v).value|
    ensures Keys(v).value[i] == OwnProps(v).value[i].key
    ensures Get(v, Keys(v).value[i]) == Ok(OwnProps(v).value[i].val)
  {
    OwnPropsAgree(v, i);
  }

  /** The same for an object rule, whose property values are smaller rules. */
  lemma RuleKeyAgrees(rules: Value, i: nat)
    requires IsPlainObjectLike(rules) && Keys(rules).Ok? && i < |Keys(rules).value|
    ensures OwnProps(rules).Ok? && |Keys(rules).value| == |OwnProps(rules).value|
    ensures Keys(rules).value[i] == OwnProps(rules).value[i].key
    ensures Get(rules, Keys(rules).value[i]) == Ok(OwnProps(rules).value[i].val)
    ensures Size(OwnProps(rules).value[i].val) < Size(rules)
  {
    KeyAgrees(rules, i);
    PropsSmaller(rules);
  }

  /** The array branch of `Errors` over array data: the element pass. */
  lemma ArrayRuleErrors(h: Host, data: Value, rules: Value)
    requires rules.Arr? && data.Arr?
    ensures Errors(h, data, rules) == Rendered(h, ElemsFailures(h, data.elems, Head(rules.elems)))
  {
  }

  // Before and after each loop of the walk: nothing accumulated yet covers
  // the whole pass, and once every item is visited the accumulated text is
  // the pass's result.

  lemma ElemsStart(h: Host, items: seq<Value>, rule: Value)
    ensures Rendered(h, ElemsFailures(h, items, rule)) ==
      Prepend("", Rendered(h, ElemsFailures(h, items[0..], rule)))
  {
    assert items[0..] == items;
    PrependNothing(Rendered(h, ElemsFailures(h, items, rule)));
  }

  lemma ElemsEnd(h: Host, items: seq<Value>, rule: Value, error: string)
    requires Rendered(h, ElemsFailures(h, items, rule)) ==
      Prepend(error, Rendered(h, ElemsFailures(h, items[|items|..], rule)))
    ensures Rendered(h, ElemsFailures(h, items, rule)) == Ok(error)
  {
    assert items[|items|..] == [];
    assert error + "" == error;
  }

  lemma FieldsStart(h: Host, data: Value, props: seq<Field>)
    ensures Rendered(h, FieldsFailures(h, data, props)) ==
      Prepend("", Rendered(h, FieldsFailures(h, data, props[0..])))
  {
    assert props[0..] == props;
    PrependNothing(Rendered(h, FieldsFailures(h, data, props)));
  }

  lemma FieldsEnd(h: Host, data: Value, props: seq<Field>, error: string)
    requires Rendered(h, FieldsFailures(h, data, props)) ==
      Prepend(error, Rendered(h, FieldsFailures(h, data, props[|props|..])))
    ensures Rendered(h, FieldsFailures(h, data, props)) == Ok(error)
  {
    assert props[|props|..] == [];
    assert error + "" == error;
  }

  /** The leaf pass is the enforcer pass over the rule's own properties. */
  lemma LeafChecks(h: Host, key: string, value: Value, rule: Value)
    requires OwnProps(rule).Ok?
    ensures LeafFailures(h, key, value, rule) == ChecksFailures(h, key, value, OwnProps(rule).value)
  {
  }

  lemma ChecksStart(h: Host, key: string, value: Value, checks: seq<Field>)
    ensures Rendered(h, ChecksFailures(h, key, value, checks)) ==
      Prepend("", Rendered(h, ChecksFailures(h, key, value, checks[0..])))
  {
    assert checks[0..] == checks;
    PrependNothing(Rendered(h, ChecksFailures(h, key, value, checks)));
  }

  lemma ChecksEnd(h: Host, key: string, value: Value, checks: seq<Field>, error: string)
    requires Rendered(h, ChecksFailures(h, key, value, checks)) ==
      Prepend(error, Rendered(h, ChecksFailures(h, key, value, checks[|checks|..])))
    ensures Rendered(h, ChecksFailures(h, key, value, checks)) == Ok(error)
  {
    assert checks[|checks|..] == [];
    assert error + "" == error;
  }

  /** One pass of the loop over the elements: validating element `i`
      either throws, or appends its text `x` to what was accumulated. */
  lemma ElemsStep(error: string, x: Result<string>, h: Host, items: seq<Value>, rule: Value, i: nat)
    requires i < |items|
    requires x == Rendered(h, Failures(h, items[i], rule))
    ensures x.Err? ==> Prepend(error, Rendered(h, ElemsFailures(h, items[i..], rule))) == x
    ensures x.Ok? ==>
      Prepend(error, Rendered(h, ElemsFailures(h, items[i..], rule))) ==
      Prepend(error + x.value, Rendered(h, ElemsFailures(h, items[i + 1..], rule)))
  {
    assert items[i..][1..] == items[i + 1..];
    assert ElemsFailures(h, items[i..], rule) ==
      Concat(Failures(h, items[i], rule), ElemsFailures(h, items[i + 1..], rule));
    PrependStep(error, h, Failures(h, items[i], rule), ElemsFailures(h, items[i + 1..], rule));
  }

  /** `validate(data, rules)`. */
  method Validate(h: Host, data: Value, rules: Value) returns (r: Result<string>)
    ensures r == Errors(h, data, rules)
    decreases Size(rules), 2
  {
    if rules.Arr? {
      r := ValidateArray(h, data, rules);
    } else if TypeOf(rules) == "object" {
      r := ValidateObject(h, data, rules);
    } else {
      r := Ok("");
    }
  }

  /** The array branch of `validate`: the `type: 'array'` check on the whole
      value, then each element against `rules[0]`. */
  method ValidateArray(h: Host, data: Value, rules: Value) returns (r: Result<string>)
    requires rules.Arr?
    ensures r == Errors(h, data, rules)
    decreases Size(rules), 1
  {
    var error := "";
    var check := Run(h, "type", "data", Str("array"), data);
    TypeArray(h, "data", data);
    error := error + check.value;
    if error == "" {
      var rule := Head(rules.elems);
      var items := data.elems;
      ArrayRuleErrors(h, data, rules);
      ElemsStart(h, items, rule);
      var i := 0;
      while i < |items|
        invariant 0 <= i <= |items|
        invariant Rendered(h, ElemsFailures(h, items, rule)) ==
          Prepend(error, Rendered(h, ElemsFailures(h, items[i..], rule)))
      {
        var x := Validate(h, items[i], rule);
        ElemsStep(error, x, h, items, rule, i);
        if x.Err? {
          return x;
        }
        error := error + x.value;
        i := i + 1;
      }
      ElemsEnd(h, items, rule, error);
    } else {
      ArrayRuleOnNonArray(h, data, rules);
      assert error == check.value;
    }
    r := Ok(error);
  }

  /** The object branch of `validate`: `Object.keys(rules)`, then each key
      of the rule, in order. */
  method ValidateObject(h: Host, data: Value, rules: Value) returns (r: Result<string>)
    requires !rules.Arr? && TypeOf(rules) == "object"
    ensures r == Errors(h, data, rules)
    decreases Size(rules), 1
  {
    var listed := Keys(rules);
    if listed.Err? {
      return Err(listed.fault);
    }
    ObjectRuleErrors(h, data, rules);
    r := ValidateKeys(h, data, rules, listed.value);
  }

  /** The `forEach` over the rule's keys, appending each field's text to
      `error`. */
  method ValidateKeys(h: Host, data: Value, rules: Value, keys: seq<string>) returns (r: Result<string>)
    requires IsPlainObjectLike(rules) && Keys(rules) == Ok(keys)
    ensures OwnProps(rules).Ok? && r == Rendered(h, FieldsFailures(h, data, OwnProps(rules).value))
    decreases Size(rules), 0
  {
    ghost var props := OwnProps(rules).value;
    var error := "";
    FieldsStart(h, data, props);
    var i := 0;
    while i < |keys|
      invariant 0 <= i <= |keys| == |props|
      invariant Rendered(h, FieldsFailures(h, data, props)) ==
        Prepend(error, Rendered(h, FieldsFailures(h, data, props[i..])))
    {
      var key := keys[i];
      RuleKeyAgrees(rules, i);
      var rule := Get(rules, key).value;
      var x := ValidateField(h, data, key, rule);
      FieldsStep(error, x, h, data, props, i);
      if x.Err? {
        return x;
      }
      error := error + x.value;
      i := i + 1;
    }
    FieldsEnd(h, data, props, error);
    r := Ok(error);
  }

  /** The body of the loop over the rule's keys: read `data[key]`, then
      recurse into an object value or apply the leaf's enforcers. */
  method ValidateField(h: Host, data: Value, key: string, rule: Value) returns (r: Result<string>)
    ensures r == Rendered(h, FieldFailures(h, data, key, rule))
    decreases Size(rule), 3
  {
    var read := Get(data, key);
    if read.Err? {
      return Err(read.fault);
    }
    var value := read.value;
    if !value.Arr? && TypeOf(value) == "object" {
      r := Validate(h, value, rule);
    } else {
      r := ApplyEnforcers(h, key, value, rule);
    }
  }

  /** `Object.keys(ruleName => error += enforcers[ruleName]({...}))`. */
  method ApplyEnforcers(h: Host, key: string, value: Value, rule: Value) returns (r: Result<string>)
    ensures r == Rendered(h, LeafFailures(h, key, value, rule))
  {
    var listed := Keys(rule);
    if listed.Err? {
      return Err(listed.fault);
    }
    var names := listed.value;
    ghost var checks := OwnProps(rule).value;
    LeafChecks(h, key, value, rule);
    ChecksStart(h, key, value, checks);
    var error := "";
    var j := 0;
    while j < |names|
      invariant 0 <= j <= |names| == |checks|
      invariant Rendered(h, ChecksFailures(h, key, value, checks)) ==
        Prepend(error, Rendered(h, ChecksFailures(h, key, value, checks[j..])))
    {
      var ruleName := names[j];
      KeyAgrees(rule, j);
      var expected := Get(rule, ruleName).value;
      var m := Run(h, ruleName, key, expected, value);
      ChecksStep(error, m, h, key, value, checks, j);
      if m.Err? {
        return m;
      }
      error := error + m.value;
      j := j + 1;
    }
    ChecksEnd(h, key, value, checks, error);
    r := Ok(error);
  }

  // ----- an independent description of a passing walk -----

  /** Every check the walk makes passes and nothing throws. */
  ghost predicate Conforms(h: Host, data: Value, rules: Value)
    decreases Size(rules), 1, 0
  {
    if rules.Arr? then
      data.Arr? && forall i :: 0 <= i < |data.elems| ==> Conforms(h, data.elems[i], Head(rules.elems))
    else if TypeOf(rules) == "object" then
      OwnProps(rules).Ok? &&
      (PropsSmaller(rules);
       var props := OwnProps(rules).value;
       forall i :: 0 <= i < |props| ==> FieldConforms(h, data, props[i].key, props[i].val))
    else true
  }

  ghost predicate FieldConforms(h: Host, data: Value, key: string, rule: Value)
    decreases Size(rule), 2, 0
  {
    Get(data, key).Ok? &&
    var value := Get(data, key).value;
    if IsPlainObjectLike(value) then Conforms(h, value, rule)
    else OwnProps(rule).Ok? && ChecksPass(h, key, value, OwnProps(rule).value)
  }

  ghost predicate ChecksPass(h: Host, key: string, value: Value, checks: seq<Field>) {
    forall j :: 0 <= j < |checks| ==> Verdict(h, checks[j].key, key, checks[j].val, value) == Ok([])
  }

  lemma ConcatNone(a: Result<seq<Failure>>, b: Result<seq<Failure>>)
    ensures Concat(a, b) == Ok([]) <==> a == Ok([]) && b == Ok([])
  {
    if a.Ok? && b.Ok? && a.value + b.value == [] {
      assert |a.value + b.value| == 0;
    }
  }

  lemma {:induction false} FailuresNone(h: Host, data: Value, rules: Value)
    ensures Failures(h, data, rules) == Ok([]) <==> Conforms(h, data, rules)
    decreases Size(rules), 1, 0
  {
    if rules.Arr? {
      if data.Arr? {
        assert Failures(h, data, rules) == ElemsFailures(h, data.elems, Head(rules.elems));
        ElemsNone(h, data.elems, Head(rules.elems));
      }
    } else if TypeOf(rules) == "object" {
      ObjectNone(h, data, rules);
    }
  }

  /** The object case of `FailuresNone`. */
  lemma {:induction false} ObjectNone(h: Host, data: Value, rules: Value)
    requires !rules.Arr? && TypeOf(rules) == "object"
    ensures Failures(h, data, rules) == Ok([]) <==> Conforms(h, data, rules)
    decreases Size(rules), 0, 1
  {
    var props := OwnProps(rules);
    if props.Ok? {
      PropsSmaller(rules);
      assert Failures(h, data, rules) == FieldsFailures(h, data, props.value);
      FieldsNone(h, data, props.value);
    }
  }

  lemma {:induction false} ElemsNone(h: Host, items: seq<Value>, rule: Value)
    ensures ElemsFailures(h, items, rule) == Ok([]) <==>
      forall i :: 0 <= i < |items| ==> Conforms(h, items[i], rule)
    decreases Size(rule), 2, |items|
  {
    if items != [] {
      FailuresNone(h, items[0], rule);
      ElemsNone(h, items[1..], rule);
      ConcatNone(Failures(h, items[0], rule), ElemsFailures(h, items[1..], rule));
      ElemsConformCons(h, items, rule);
    }
  }

  /** Every element conforms exactly when the first does and every later
      one does. */
  lemma ElemsConformCons(h: Host, items: seq<Value>, rule: Value)
    requires items != []
    ensures (forall i :: 0 <= i < |items| ==> Conforms(h, items[i], rule)) <==>
      Conforms(h, items[0], rule) && forall i :: 0 <= i < |items[1..]| ==> Conforms(h, items[1..][i], rule)
  {
    if Conforms(h, items[0], rule) && forall i :: 0 <= i < |items[1..]| ==> Conforms(h, items[1..][i], rule) {
      forall i | 0 <= i < |items|
        ensures Conforms(h, items[i], rule)
      {
        if i > 0 {
          assert items[i] == items[1..][i - 1];
        }
      }
    }
  }

  lemma {:induction false} FieldsNone(h: Host, data: Value, props: seq<Field>)
    ensures FieldsFailures(h, data, props) == Ok([]) <==>
      forall i :: 0 <= i < |props| ==> FieldConforms(h, data, props[i].key, props[i].val)
    decreases FieldsSize(props), 0, 0
  {
    if props != [] {
      FieldNone(h, data, props[0].key, props[0].val);
      FieldsNone(h, data, props[1..]);
      ConcatNone(FieldFailures(h, data, props[0].key, props[0].val), FieldsFailures(h, data, props[1..]));
      FieldsConformCons(h, data, props);
    }
  }

  /** Every field conforms exactly when the first does and every later one
      does. */
  lemma FieldsConformCons(h: Host, data: Value, props: seq<Field>)
    requires props != []
    ensures (forall i :: 0 <= i < |props| ==> FieldConforms(h, data, props[i].key, props[i].val)) <==>
      FieldConforms(h, data, props[0].key, props[0].val) &&
      forall i :: 0 <= i < |props[1..]| ==> FieldConforms(h, data, props[1..][i].key, props[1..][i].val)
  {
    if FieldConforms(h, data, props[0].key, props[0].val) &&
       forall i :: 0 <= i < |props[1..]| ==> FieldConforms(h, data, props[1..][i].key, props[1..][i].val)
    {
      forall i | 0 <= i < |props|
        ensures FieldConforms(h, data, props[i].key, props[i].val)
      {
        if i > 0 {
          assert props[i] == props[1..][i - 1];
        }
      }
    }
  }

  lemma {:induction false} FieldNone(h: Host, data: Value, key: string, rule: Value)
    ensures FieldFailures(h, data, key, rule) == Ok([]) <==> FieldConforms(h, data, key, rule)
    decreases Size(rule), 2, 0
  {
    if Get(data, key).Ok? {
      var value := Get(data, key).value;
      if IsPlainObjectLike(value) {
        FailuresNone(h, value, rule);
      } else if OwnProps(rule).Ok? {
        ChecksNone(h, key, value, OwnProps(rule).value);
      }
    }
  }

  lemma {:induction false} ChecksNone(h: Host, key: string, value: Value, checks: seq<Field>)
    ensures ChecksFailures(h, key, value, checks) == Ok([]) <==> ChecksPass(h, key, value, checks)
  {
    if checks != [] {
      ChecksNone(h, key, value, checks[1..]);
      ConcatNone(Verdict(h, checks[0].key, key, checks[0].val, value), ChecksFailures(h, key, value, checks[1..]));
      if ChecksPass(h, key, value, checks[1..]) && Verdict(h, checks[0].key, key, checks[0].val, value) == Ok([]) {
        forall j | 0 <= j < |checks|
          ensures Verdict(h, checks[j].key, key, checks[j].val, value) == Ok([])
        {
          if j > 0 {
            assert checks[j] == checks[1..][j - 1];
          }
        }
      }
    }
  }

  // ----- what validate returns -----

  /** `validate` returns '' exactly when every enforcer it invokes is okay
      (and nothing throws). */
  lemma ValidateEmptyIff(h: Host, data: Value, rules: Value)
    ensures Errors(h, data, rules) == Ok("") <==> Conforms(h, data, rules)
  {
    FailuresNone(h, data, rules);
    if Failures(h, data, rules).Ok? {
      ReportEmpty(h, Failures(h, data, rules).value);
    }
  }

  /** An array rule over non-array data returns exactly the `type` failure
      for key "data" with expected "array", visiting no element. */
  lemma ArrayRuleOnNonArray(h: Host, data: Value, rules: Value)
    requires rules.Arr? && !data.Arr?
    ensures Errors(h, data, rules) == Ok(Paragraph(h, Failure("data", "type", Str("array"), data)))
    ensures Errors(h, data, rules) == Rendered(h, Verdict(h, "type", "data", Str("array"), data))
  {
    ReportSingle(h, Failure("data", "type", Str("array"), data));
    TypeArray(h, "data", data);
  }

  /** A non-empty array rule under a key never passes: over an object-like
      value (null included) it reports the `type: array` paragraph for
      "data", and over any other value its index keys are read as enforcer
      names and `enforcers["0"]` is not a function. */
  lemma NestedArrayRule(h: Host, data: Value, key: string, rs: seq<Value>)
    requires rs != []
    ensures Get(data, key).Ok? && IsPlainObjectLike(Get(data, key).value) ==>
      FieldFailures(h, data, key, Arr(rs)) == Ok([Failure("data", "type", Str("array"), Get(data, key).value)])
    ensures Get(data, key).Ok? && !IsPlainObjectLike(Get(data, key).value) ==>
      FieldFailures(h, data, key, Arr(rs)) == Err(UnknownEnforcer("0"))
    ensures FieldFailures(h, data, key, Arr(rs)) != Ok([])
  {
    var checks := Indexed(rs);
    assert checks[0] == Field("0", rs[0]);
    if Get(data, key).Ok? && !IsPlainObjectLike(Get(data, key).value) {
      var v := Get(data, key).value;
      assert LeafFailures(h, key, v, Arr(rs)) == ChecksFailures(h, key, v, checks);
      assert Verdict(h, "0", key, rs[0], v) == Err(UnknownEnforcer("0"));
    }
  }

  lemma ConcatAssoc(a: Result<seq<Failure>>, b: Result<seq<Failure>>, c: Result<seq<Failure>>)
    ensures Concat(Concat(a, b), c) == Concat(a, Concat(b, c))
  {
    if a.Ok? && b.Ok? && c.Ok? {
      assert (a.value + b.value) + c.value == a.value + (b.value + c.value);
    }
  }

  /** Over array data, the result is the concatenation, in element order, of
      the results for the elements: splitting the array splits the result. */
  lemma {:induction false} ElemsAppend(h: Host, xs: seq<Value>, ys: seq<Value>, rule: Value)
    ensures ElemsFailures(h, xs + ys, rule) == Concat(ElemsFailures(h, xs, rule), ElemsFailures(h, ys, rule))
  {
    if xs == [] {
      assert xs + ys == ys;
      if ElemsFailures(h, ys, rule).Ok? {
        assert [] + ElemsFailures(h, ys, rule).value == ElemsFailures(h, ys, rule).value;
      }
    } else {
      assert (xs + ys)[1..] == xs[1..] + ys;
      ElemsAppend(h, xs[1..], ys, rule);
      ConcatAssoc(Failures(h, xs[0], rule), ElemsFailures(h, xs[1..], rule), ElemsFailures(h, ys, rule));
    }
  }

  /** A one-element array contributes exactly what its element does. */
  lemma ElemsSingle(h: Host, x: Value, rule: Value)
    ensures ElemsFailures(h, [x], rule) == Failures(h, x, rule)
  {
    assert [x][1..] == [];
    if Failures(h, x, rule).Ok? {
      assert Failures(h, x, rule).value + [] == Failures(h, x, rule).value;
    }
  }

  /** Over array data, the array rule is `validate` of each element against
      `rules[0]`, in order. */
  lemma ArrayRuleOnArray(h: Host, items: seq<Value>, rules: seq<Value>, x: Value)
    ensures Failures(h, Arr(items), Arr(rules)) == ElemsFailures(h, items, Head(rules))
    ensures Failures(h, Arr(items + [x]), Arr(rules)) ==
      Concat(Failures(h, Arr(items), Arr(rules)), Failures(h, x, Head(rules)))
  {
    ElemsAppend(h, items, [x], Head(rules));
    ElemsSingle(h, x, Head(rules));
  }

  /** The keys of an object rule are visited in key order: splitting the
      property list splits the result. */
  lemma {:induction false} FieldsAppend(h: Host, data: Value, ps: seq<Field>, qs: seq<Field>)
    ensures FieldsFailures(h, data, ps + qs) == Concat(FieldsFailures(h, data, ps), FieldsFailures(h, data, qs))
  {
    if ps == [] {
      assert ps + qs == qs;
      if FieldsFailures(h, data, qs).Ok? {
        assert [] + FieldsFailures(h, data, qs).value == FieldsFailures(h, data, qs).value;
      }
    } else {
      assert (ps + qs)[1..] == ps[1..] + qs;
      FieldsAppend(h, data, ps[1..], qs);
      ConcatAssoc(FieldFailures(h, data, ps[0].key, ps[0].val), FieldsFailures(h, data, ps[1..]), FieldsFailures(h, data, qs));
    }
  }

  /** The enforcers of one leaf are applied in key order: splitting the
      rule's property list splits the result. */
  lemma {:induction false} ChecksAppend(h: Host, key: string, value: Value, ps: seq<Field>, qs: seq<Field>)
    ensures ChecksFailures(h, key, value, ps + qs) ==
      Concat(ChecksFailures(h, key, value, ps), ChecksFailures(h, key, value, qs))
  {
    if ps == [] {
      assert ps + qs == qs;
      if ChecksFailures(h, key, value, qs).Ok? {
        assert [] + ChecksFailures(h, key, value, qs).value == ChecksFailures(h, key, value, qs).value;
      }
    } else {
      assert (ps + qs)[1..] == ps[1..] + qs;
      ChecksAppend(h, key, value, ps[1..], qs);
      ConcatAssoc(Verdict(h, ps[0].key, key, ps[0].val, value), ChecksFailures(h, key, value, ps[1..]),
                  ChecksFailures(h, key, value, qs));
    }
  }

  /** Every failure found at a leaf is the whole verdict of one of the
      leaf's own checks: it carries that check's rule name, the field's key
      and the field's value. */
  lemma {:induction false} FailureFromEnforcer(h: Host, key: string, value: Value, checks: seq<Field>)
    requires ChecksFailures(h, key, value, checks).Ok?
    ensures forall f :: f in ChecksFailures(h, key, value, checks).value ==>
      f.key == key && f.value == value && f.rule in Names &&
      exists j :: 0 <= j < |checks| && checks[j].key == f.rule &&
        Verdict(h, checks[j].key, key, checks[j].val, value) == Ok([f])
  {
    if checks != [] {
      var name := checks[0].key;
      var v := Verdict(h, name, key, checks[0].val, value);
      if name !in Names {
        UnknownNameFaults(h, name, key, checks[0].val, value);
      } else {
        VerdictShape(h, name, key, checks[0].val, value);
        FailureFromEnforcer(h, key, value, checks[1..]);
        var rest := ChecksFailures(h, key, value, checks[1..]).value;
        forall f | f in ChecksFailures(h, key, value, checks).value
          ensures f.key == key && f.value == value && f.rule in Names &&
            exists j :: 0 <= j < |checks| && checks[j].key == f.rule &&
              Verdict(h, checks[j].key, key, checks[j].val, value) == Ok([f])
        {
          if f in v.value {
            assert v.value == [f];
            assert checks[0].key == f.rule;
          } else {
            assert f in rest;
            var j :| 0 <= j < |checks[1..]| && checks[1..][j].key == f.rule &&
              Verdict(h, checks[1..][j].key, key, checks[1..][j].val, value) == Ok([f]);
            assert checks[j + 1] == checks[1..][j];
          }
        }
      }
    }
  }

  /** A leaf whose checks all pass except one yields exactly that check's
      verdict. */
  lemma OneFailingCheck(h: Host, key: string, value: Value, checks: seq<Field>, j: nat)
    requires j < |checks|
    requires forall i :: 0 <= i < |checks| && i != j ==>
      Verdict(h, checks[i].key, key, checks[i].val, value) == Ok([])
    ensures ChecksFailures(h, key, value, checks) == Verdict(h, checks[j].key, key, checks[j].val, value)
  {
    var before, at, after := checks[..j], [checks[j]], checks[j + 1..];
    assert checks == before + at + after;
    ChecksAppend(h, key, value, before + at, after);
    ChecksAppend(h, key, value, before, at);
    ChecksNone(h, key, value, before);
    ChecksNone(h, key, value, after);
    assert ChecksPass(h, key, value, before) by {
      forall i | 0 <= i < |before|
        ensures Verdict(h, before[i].key, key, before[i].val, value) == Ok([])
      {
        assert before[i] == checks[i];
      }
    }
    assert ChecksPass(h, key, value, after) by {
      forall i | 0 <= i < |after|
        ensures Verdict(h, after[i].key, key, after[i].val, value) == Ok([])
      {
        assert after[i] == checks[j + 1 + i];
      }
    }
    var v := Verdict(h, checks[j].key, key, checks[j].val, value);
    assert at[1..] == [];
    assert ChecksFailures(h, key, value, at) == Concat(v, ChecksFailures(h, key, value, []));
    if v.Ok? {
      assert v.value + [] == v.value && [] + v.value == v.value;
      assert ChecksFailures(h, key, value, at) == v;
      assert ChecksFailures(h, key, value, before + at) == v;
    } else {
      assert ChecksFailures(h, key, value, at) == v;
      assert ChecksFailures(h, key, value, before + at) == v;
    }
  }

  /** A field read as a leaf value whose checks all pass except one, which
      fails, yields exactly one paragraph, and that paragraph names the
      field's key and the failing check's rule. */
  lemma OneFailingField(h: Host, data: Value, key: string, rule: Value, j: nat)
    requires Get(data, key).Ok? && !IsPlainObjectLike(Get(data, key).value)
    requires OwnProps(rule).Ok? && j < |OwnProps(rule).value|
    requires forall i :: 0 <= i < |OwnProps(rule).value| && i != j ==>
      Verdict(h, OwnProps(rule).value[i].key, key, OwnProps(rule).value[i].val, Get(data, key).value) == Ok([])
    requires
      var c := OwnProps(rule).value[j];
      Verdict(h, c.key, key, c.val, Get(data, key).value).Ok? &&
      Verdict(h, c.key, key, c.val, Get(data, key).value) != Ok([])
    ensures
      var c := OwnProps(rule).value[j];
      exists f: Failure :: FieldFailures(h, data, key, rule) == Ok([f]) &&
        f.key == key && f.rule == c.key && f.value == Get(data, key).value &&
        Rendered(h, FieldFailures(h, data, key, rule)) == Ok(Paragraph(h, f))
  {
    var value := Get(data, key).value;
    var checks := OwnProps(rule).value;
    var c := checks[j];
    OneFailingCheck(h, key, value, checks, j);
    var v := Verdict(h, c.key, key, c.val, value);
    VerdictShape(h, c.key, key, c.val, value);
    assert |v.value| == 1;
    var f := v.value[0];
    assert v.value == [f];
    assert f in v.value;
    ReportSingle(h, f);
    assert LeafFailures(h, key, value, rule) == v;
    assert FieldFailures(h, data, key, rule) == Ok([f]);
    assert f.key == key && f.rule == c.key && f.value == value;
    assert Rendered(h, FieldFailures(h, data, key, rule)) == Ok(Paragraph(h, f));
  }

  /** A property list whose fields all conform but one, which yields exactly
      one failure, yields exactly that failure. */
  lemma OneFailingProp(h: Host, data: Value, props: seq<Field>, j: nat, f: Failure)
    requires j < |props|
    requires forall i :: 0 <= i < |props| && i != j ==> FieldConforms(h, data, props[i].key, props[i].val)
    requires FieldFailures(h, data, props[j].key, props[j].val) == Ok([f])
    ensures FieldsFailures(h, data, props) == Ok([f])
  {
    ConformingSlice(h, data, props, 0, j, j);
    ConformingSlice(h, data, props, j + 1, |props|, j);
    SplitAround(h, data, props, j);
    ConcatAround(FieldsFailures(h, data, props[0..j]), FieldFailures(h, data, props[j].key, props[j].val),
                 FieldsFailures(h, data, props[j + 1..|props|]), f);
  }

  lemma ConcatAround(a: Result<seq<Failure>>, b: Result<seq<Failure>>, c: Result<seq<Failure>>, f: Failure)
    requires a == Ok([]) && b == Ok([f]) && c == Ok([])
    ensures Concat(Concat(a, b), c) == Ok([f])
  {
    assert [] + [f] + [] == [f];
  }

  /** A slice of conforming fields of a property list passes. */
  lemma ConformingSlice(h: Host, data: Value, props: seq<Field>, lo: nat, hi: nat, j: nat)
    requires lo <= hi <= |props| && (j < lo || hi <= j)
    requires forall i :: 0 <= i < |props| && i != j ==> FieldConforms(h, data, props[i].key, props[i].val)
    ensures FieldsFailures(h, data, props[lo..hi]) == Ok([])
  {
    var part := props[lo..hi];
    FieldsNone(h, data, part);
    forall i | 0 <= i < |part|
      ensures FieldConforms(h, data, part[i].key, part[i].val)
    {
      assert part[i] == props[lo + i];
    }
  }

  /** The key pass over a property list is the pass before field `j`, then
      field `j`, then the pass after it. */
  lemma SplitAround(h: Host, data: Value, props: seq<Field>, j: nat)
    requires j < |props|
    ensures FieldsFailures(h, data, props) ==
      Concat(Concat(FieldsFailures(h, data, props[0..j]), FieldFailures(h, data, props[j].key, props[j].val)),
             FieldsFailures(h, data, props[j + 1..|props|]))
  {
    var before, after := props[0..j], props[j + 1..|props|];
    assert props == before + [props[j]] + after;
    FieldsSingle(h, data, props[j]);
    FieldsAppend(h, data, before + [props[j]], after);
    FieldsAppend(h, data, before, [props[j]]);
  }

  /** A property list of one field is that field's pass. */
  lemma FieldsSingle(h: Host, data: Value, p: Field)
    ensures FieldsFailures(h, data, [p]) == FieldFailures(h, data, p.key, p.val)
  {
    var x := FieldFailures(h, data, p.key, p.val);
    assert [p][1..] == [];
    assert FieldsFailures(h, data, [p]) == Concat(x, Ok([]));
    assert x.Ok? ==> x.value + [] == x.value;
  }

  /** An object rule whose fields all conform but one, which yields exactly
      one failure, yields exactly that failure, rendered as one paragraph. */
  lemma OneFailingFieldOfObject(h: Host, data: Value, fs: seq<Field>, j: nat, f: Failure)
    requires j < |Own(fs)|
    requires forall i :: 0 <= i < |Own(fs)| && i != j ==> FieldConforms(h, data, Own(fs)[i].key, Own(fs)[i].val)
    requires FieldFailures(h, data, Own(fs)[j].key, Own(fs)[j].val) == Ok([f])
    ensures Failures(h, data, Obj(fs)) == Ok([f])
    ensures Errors(h, data, Obj(fs)) == Ok(Paragraph(h, f))
  {
    OneFailingProp(h, data, Own(fs), j, f);
    ObjectRuleFailures(h, data, fs);
    ReportSingle(h, f);
  }

  /** An object rule's failures are the key pass over its own properties. */
  lemma ObjectRuleFailures(h: Host, data: Value, fs: seq<Field>)
    ensures Failures(h, data, Obj(fs)) == FieldsFailures(h, data, Own(fs))
  {
    assert OwnProps(Obj(fs)) == Ok(Own(fs));
  }

  /** Data failing exactly one leaf check of an object rule, every other
      field conforming, is reported in exactly one paragraph, which names
      that field's key and that check's rule. */
  lemma OneFailingCheckOfObject(h: Host, data: Value, fs: seq<Field>, j: nat, k: nat)
    requires j < |Own(fs)|
    requires forall i :: 0 <= i < |Own(fs)| && i != j ==> FieldConforms(h, data, Own(fs)[i].key, Own(fs)[i].val)
    requires Get(data, Own(fs)[j].key).Ok? && !IsPlainObjectLike(Get(data, Own(fs)[j].key).value)
    requires OwnProps(Own(fs)[j].val).Ok? && k < |OwnProps(Own(fs)[j].val).value|
    requires forall i :: 0 <= i < |OwnProps(Own(fs)[j].val).value| && i != k ==>
      Verdict(h, OwnProps(Own(fs)[j].val).value[i].key, Own(fs)[j].key,
              OwnProps(Own(fs)[j].val).value[i].val, Get(data, Own(fs)[j].key).value) == Ok([])
    requires
      var c := OwnProps(Own(fs)[j].val).value[k];
      var v := Verdict(h, c.key, Own(fs)[j].key, c.val, Get(data, Own(fs)[j].key).value);
      v.Ok? && v != Ok([])
    ensures
      exists f: Failure :: Errors(h, data, Obj(fs)) == Ok(Paragraph(h, f)) &&
        f.key == Own(fs)[j].key && f.rule == OwnProps(Own(fs)[j].val).value[k].key
  {
    var key, rule := Own(fs)[j].key, Own(fs)[j].val;
    OneFailingField(h, data, key, rule, k);
    var f: Failure :| FieldFailures(h, data, key, rule) == Ok([f]) &&
      f.key == key && f.rule == OwnProps(rule).value[k].key;
    OneFailingFieldOfObject(h, data, fs, j, f);
  }

  /** A rule that is neither an array nor of type object does nothing. */
  lemma NonObjectRuleIsNoOp(h: Host, data: Value, rules: Value)
    requires !rules.Arr? && TypeOf(rules) != "object"
    ensures Errors(h, data, rules) == Ok("")
  {
  }

  /** An object rule with at least one key throws on null or undefined data,
      when `data[key]` is read for its first key. */
  lemma NullishDataFaults(h: Host, data: Value, fs: seq<Field>)
    requires IsNullish(data) && fs != []
    ensures Failures(h, data, Obj(fs)) == Err(PropertyOfNullish(fs[0].key))
  {
    var ps := Own(fs);
    assert ps[0] == fs[0];
    assert Failures(h, data, Obj(fs)) == FieldsFailures(h, data, ps);
    assert FieldFailures(h, data, ps[0].key, ps[0].val) == Err(PropertyOfNullish(fs[0].key));
  }
}
