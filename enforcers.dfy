/** The failure message (`enforce`) and the five enforcers of yodel.js:
    `type`, `required`, `regex`, `date` and `custom`. Each enforcer fills in
    the `rule` and `okay` fields of the context record it is given (and
    `type` lower-cases `expected` in place) and then formats that record.

    `Verdict` states what an enforcer finds as a value, a list of at most one
    structured failure; the `Context` class runs the enforcers on a mutable
    record as the source does, and `Run` ties the two together. */
module Enforcers {
  import opened Text
  import opened Js

  /** One failed check: the fields of the context record `enforce` prints. */
  datatype Failure = Failure(key: string, rule: string, expected: Value, value: Value)

  const Names: seq<string> := ["type", "required", "regex", "date", "custom"]

  /** The paragraph `enforce` returns for a failed check. */
  function Paragraph(h: Host, f: Failure): (p: string)
    ensures |p| > |f.key| + 2 && p[..|f.key|] == f.key
    ensures p[|p| - 2..] == "\n\n"
  {
    f.key + " did not pass the validation \"" + f.rule + ": " + Render(h, f.expected)
      + "\". Actual value was " + Render(h, f.value) + ".\n\n"
  }

  /** The failures, formatted one paragraph after the other. */
  function Report(h: Host, fs: seq<Failure>): string {
    if fs == [] then "" else Paragraph(h, fs[0]) + Report(h, fs[1..])
  }

  /** A list of failures reports as nothing exactly when it is empty. */
  lemma {:induction false} ReportEmpty(h: Host, fs: seq<Failure>)
    ensures Report(h, fs) == "" <==> fs == []
  {
    if fs != [] {
      assert |Paragraph(h, fs[0])| > 0;
    }
  }

  /** Reporting two lists one after the other is reporting their concatenation. */
  lemma {:induction false} ReportAppend(h: Host, a: seq<Failure>, b: seq<Failure>)
    ensures Report(h, a + b) == Report(h, a) + Report(h, b)
  {
    if a != [] {
      var p := Paragraph(h, a[0]);
      assert (a + b)[0] == a[0];
      assert (a + b)[1..] == a[1..] + b;
      assert Report(h, a + b) == p + Report(h, a[1..] + b);
      ReportAppend(h, a[1..], b);
      assert Report(h, a) == p + Report(h, a[1..]);
      assert p + (Report(h, a[1..]) + Report(h, b)) == (p + Report(h, a[1..])) + Report(h, b);
    } else {
      assert a + b == b;
    }
  }

  /** One failure reports as its own paragraph. */
  lemma ReportSingle(h: Host, f: Failure)
    ensures Report(h, [f]) == Paragraph(h, f)
  {
    assert [f][1..] == [];
    assert Paragraph(h, f) + "" == Paragraph(h, f);
  }

  /** A failure list, or the fault that stopped the walk, as the string the
      engine concatenates. */
  function Rendered(h: Host, r: Result<seq<Failure>>): Result<string> {
    match r
    case Err(e) => Err(e)
    case Ok(fs) => Ok(Report(h, fs))
  }

  function Check(ok: bool, f: Failure): seq<Failure> {
    if ok then [] else [f]
  }

  /** What the `type` enforcer accepts, given the lower-cased expected name. */
  predicate TypeOkay(expected: string, value: Value) {
    if expected == "array" then value.Arr? else TypeOf(value) == expected
  }

  /** What the enforcer `name` finds when a context record with this key,
      expected value and actual value is handed to it. */
  function Verdict(h: Host, name: string, key: string, expected: Value, value: Value): Result<seq<Failure>> {
    if name == "type" then
      if IsNullish(expected) then Err(PropertyOfNullish("toLowerCase"))
      else if !expected.Str? then Err(NotAFunction("toLowerCase"))
      else
        var t := Lower(expected.s);
        Ok(Check(TypeOkay(t, value), Failure(key, "type", Str(t), value)))
    else if name == "required" then
      Ok(Check(Truthy(expected) == Truthy(value), Failure(key, "required", expected, value)))
    else if name == "regex" then
      if IsNullish(value) then Err(PropertyOfNullish("toString"))
      else Ok(Check(h.matches(Render(h, value), expected), Failure(key, "regex", expected, value)))
    else if name == "date" then
      var valid := h.dateNonNegative(Render(h, value));
      Ok(Check(Truthy(expected) == valid, Failure(key, "date", expected, value)))
    else if name == "custom" then
      if !expected.Func? then Err(NotAFunction("expected"))
      else Ok(Check(Truthy(h.call(expected.id, value)), Failure(key, "custom", expected, value)))
    else Err(UnknownEnforcer(name))
  }

  /** The validation context record `v`. */
  class Context {
    var key: string
    var value: Value
    var expected: Value
    var rule: string    // "" until an enforcer names itself
    var okay: bool      // the truthiness of what the enforcer stored

    constructor (key: string, expected: Value, value: Value)
      ensures this.key == key && this.expected == expected && this.value == value
      ensures rule == "" && !okay
    {
      this.key := key;
      this.expected := expected;
      this.value := value;
      rule := "";
      okay := false;
    }

    /** The `type` enforcer. */
    method Type(h: Host) returns (m: Result<string>)
      modifies this
      ensures rule == "type" && key == old(key) && value == old(value)
      ensures old(expected).Str? ==>
        && expected == Str(Lower(old(expected).s))
        && okay == TypeOkay(expected.s, value)
        && m == Ok(Enforce(h, this))
      ensures !old(expected).Str? ==>
        expected == old(expected) && okay == old(okay) && m.Err?
      ensures m == Rendered(h, Verdict(h, "type", key, old(expected), value))
    {
      rule := "type";
      if IsNullish(expected) {
        return Err(PropertyOfNullish("toLowerCase"));
      }
      if !expected.Str? {
        return Err(NotAFunction("toLowerCase"));
      }
      expected := Str(Lower(expected.s));
      okay := if expected.s == "array" then value.Arr? else TypeOf(value) == expected.s;
      m := Ok(Enforce(h, this));
    }

    /** The `required` enforcer. */
    method Required(h: Host) returns (m: Result<string>)
      modifies this
      ensures rule == "required" && key == old(key) && value == old(value) && expected == old(expected)
      ensures okay == (Truthy(expected) == Truthy(value))
      ensures m == Ok(Enforce(h, this))
      ensures m == Rendered(h, Verdict(h, "required", key, expected, value))
    {
      rule := "required";
      okay := if Truthy(expected) then Truthy(value) else !Truthy(value);
      m := Ok(Enforce(h, this));
    }

    /** The `regex` enforcer. */
    method Regex(h: Host) returns (m: Result<string>)
      modifies this
      ensures rule == "regex" && key == old(key) && value == old(value) && expected == old(expected)
      ensures IsNullish(value) ==> okay == old(okay) && m.Err?
      ensures !IsNullish(value) ==>
        okay == h.matches(Render(h, value), expected) && m == Ok(Enforce(h, this))
      ensures m == Rendered(h, Verdict(h, "regex", key, expected, value))
    {
      rule := "regex";
      if IsNullish(value) {
        return Err(PropertyOfNullish("toString"));
      }
      okay := h.matches(Render(h, value), expected);
      m := Ok(Enforce(h, this));
    }

    /** The `date` enforcer. */
    method Date(h: Host) returns (m: Result<string>)
      modifies this
      ensures rule == "date" && key == old(key) && value == old(value) && expected == old(expected)
      ensures okay == (Truthy(expected) == h.dateNonNegative(Render(h, value)))
      ensures m == Ok(Enforce(h, this))
      ensures m == Rendered(h, Verdict(h, "date", key, expected, value))
    {
      var validDate := h.dateNonNegative(Render(h, value));
      rule := "date";
      okay := if Truthy(expected) then validDate else !validDate;
      m := Ok(Enforce(h, this));
    }

    /** The `custom` enforcer. */
    method Custom(h: Host) returns (m: Result<string>)
      modifies this
      ensures rule == "custom" && key == old(key) && value == old(value) && expected == old(expected)
      ensures !expected.Func? ==> okay == old(okay) && m.Err?
      ensures expected.Func? ==>
        okay == Truthy(h.call(expected.id, value)) && m == Ok(Enforce(h, this))
      ensures m == Rendered(h, Verdict(h, "custom", key, expected, value))
    {
      rule := "custom";
      if !expected.Func? {
        return Err(NotAFunction("expected"));
      }
      okay := Truthy(h.call(expected.id, value));
      m := Ok(Enforce(h, this));
    }
  }

  /** `enforce(v)`: nothing when the record is okay, otherwise the paragraph
      naming its key, rule, expected value and actual value. */
  function Enforce(h: Host, v: Context): (m: string)
    reads v
    ensures m == "" <==> v.okay
    ensures !v.okay ==> m == Report(h, [Failure(v.key, v.rule, v.expected, v.value)])
  {
    if v.okay then "" else Paragraph(h, Failure(v.key, v.rule, v.expected, v.value))
  }

  /** `enforcers[name]({expected, key, value})`: a fresh record handed to the
      enforcer of that name, or the TypeError of calling an undefined entry. */
  method Run(h: Host, name: string, key: string, expected: Value, value: Value) returns (m: Result<string>)
    ensures m == Rendered(h, Verdict(h, name, key, expected, value))
  {
    var v := new Context(key, expected, value);
    if name == "type" {
      m := v.Type(h);
    } else if name == "required" {
      m := v.Required(h);
    } else if name == "regex" {
      m := v.Regex(h);
    } else if name == "date" {
      m := v.Date(h);
    } else if name == "custom" {
      m := v.Custom(h);
    } else {
      m := Err(UnknownEnforcer(name));
    }
  }

  // ----- what each enforcer decides -----

  /** Only the five names are enforcers: any other name is the TypeError of
      calling an undefined table entry. */
  lemma UnknownNameFaults(h: Host, name: string, key: string, expected: Value, value: Value)
    requires name !in Names
    ensures Verdict(h, name, key, expected, value) == Err(UnknownEnforcer(name))
  {
    assert name != "type" && name != "required" && name != "regex" && name != "date" && name != "custom";
  }

  /** Every enforcer reports at most one failure, under its own name, for
      the key and value it was given. */
  lemma VerdictShape(h: Host, name: string, key: string, expected: Value, value: Value)
    requires Verdict(h, name, key, expected, value).Ok?
    ensures |Verdict(h, name, key, expected, value).value| <= 1
    ensures forall f :: f in Verdict(h, name, key, expected, value).value ==>
      f.key == key && f.rule == name && f.value == value
  {
    var r := Verdict(h, name, key, expected, value).value;
    if name == "type" {
      var t := Lower(expected.s);
      assert r == Check(TypeOkay(t, value), Failure(key, "type", Str(t), value));
    } else if name == "required" {
      assert r == Check(Truthy(expected) == Truthy(value), Failure(key, "required", expected, value));
    } else if name == "regex" {
      assert r == Check(h.matches(Render(h, value), expected), Failure(key, "regex", expected, value));
    } else if name == "date" {
      var valid := h.dateNonNegative(Render(h, value));
      assert r == Check(Truthy(expected) == valid, Failure(key, "date", expected, value));
    } else {
      assert name == "custom";
      assert r == Check(Truthy(h.call(expected.id, value)), Failure(key, "custom", expected, value));
    }
  }

  /** `type` compares against the lower-cased name, and the failure shows it
      lower-cased: the check does not depend on the case of `expected`. */
  lemma TypeIgnoresCase(h: Host, key: string, s: string, value: Value)
    ensures Verdict(h, "type", key, Str(s), value) == Verdict(h, "type", key, Str(Lower(s)), value)
    ensures Verdict(h, "type", key, Str(s), value) == Ok([]) <==>
      (if Lower(s) == "array" then value.Arr? else TypeOf(value) == Lower(s))
  {
    LowerIdempotent(s);
  }

  /** With expected "array" (in any case) `type` is okay exactly on arrays;
      arrays still pass `type: "object"`. */
  lemma TypeArray(h: Host, key: string, value: Value)
    ensures Verdict(h, "type", key, Str("Array"), value) == Ok([]) <==> value.Arr?
    ensures value.Arr? ==> Verdict(h, "type", key, Str("array"), value) == Ok([])
    ensures value.Arr? ==> Verdict(h, "type", key, Str("object"), value) == Ok([])
    ensures !value.Arr? ==>
      Verdict(h, "type", key, Str("array"), value) == Ok([Failure(key, "type", Str("array"), value)])
  {
    assert Lower("Array") == "array";
    assert Lower("array") == "array";
    assert Lower("object") == "object";
  }

  /** `required` and `date` match truthiness: okay exactly when the
      truthiness of the actual value (or of its being a date) equals that of
      `expected`; they never throw. */
  lemma TruthinessMatching(h: Host, key: string, expected: Value, value: Value)
    ensures Verdict(h, "required", key, expected, value) == Ok([]) <==> Truthy(expected) == Truthy(value)
    ensures Verdict(h, "date", key, expected, value) == Ok([]) <==>
      Truthy(expected) == h.dateNonNegative(Render(h, value))
    ensures Verdict(h, "required", key, expected, value).Ok?
    ensures Verdict(h, "date", key, expected, value).Ok?
  {
  }

  /** `required: false` rejects a present, truthy value. */
  lemma RequiredFalseRejectsPresent(h: Host, key: string, value: Value)
    requires Truthy(value)
    ensures Verdict(h, "required", key, Bool(false), value) ==
      Ok([Failure(key, "required", Bool(false), value)])
  {
  }

  /** `regex` throws on null and undefined; `custom` throws unless
      `expected` is a function. */
  lemma EnforcerFaults(h: Host, key: string, expected: Value, value: Value)
    ensures Verdict(h, "regex", key, expected, value).Err? <==> IsNullish(value)
    ensures Verdict(h, "custom", key, expected, value).Err? <==> !expected.Func?
    ensures Verdict(h, "type", key, expected, value).Err? <==> !expected.Str?
  {
  }
}
