# yodel validation core in Dafny

yodel is a small browser HTTP client. A client built from a configuration
(`url`, `request`, `validation`, `transform`) decodes each JSON response.
It then checks the body against the `validation` rule tree. If the body
fails, the promise is rejected with human-readable paragraphs, one per
failed check. Otherwise `transform` runs on the body and the body resolves.
Query parameters are turned into a `key=value&…` string appended to the URL.

This project models that core of `yodel.js`:

- `enforce`, the failure paragraph.
- The five enforcers of the `enforcers` table: `type`, `required`, `regex`,
  `date` and `custom`. Each one fills in a mutable context record
  `{key, expected, value, rule, okay}`.
- The recursive walk `validate(data, rules)`.
- The decision `process` makes once a body is decoded.
- `serialize(url, data)`.

## Structure

- `text.dfy` (`Text`): ASCII lower-casing (`toLowerCase`), decimal
  numerals for array indices and numbers, `indexOf`, and `join`/`split`
  on one separator character.
- `js.dfy` (`Js`): the JavaScript values the code handles, as one
  datatype `Value`. The same type holds both data and rule trees, because
  the code dispatches on the runtime shape of a rule.
  - Also here: `typeof`, truthiness, `Object.keys` and property reads
    (`OwnProps`, `Keys`, `Get`), and string conversion (`Render`).
  - It also holds the TypeErrors the code can throw (`Fault`), carried in
    a `Result`.
  - Behaviour that belongs to the JavaScript engine is a parameter `Host`:
    regular-expression matching, `Date.parse(s) >= 0`, calling a user
    function, and a function's source text.
- `enforcers.dfy` (`Enforcers`):
  - `Verdict` is the specification of what each enforcer decides: at most
    one structured `Failure`, or a fault.
  - `Report` formats failures as `enforce` does.
  - The class `Context` is the mutable context record. Its methods `Type`,
    `Required`, `Regex`, `Date` and `Custom` update it in place and return
    `enforce`'s text.
  - `Run` is one `enforcers[name]({…})` call.
- `validation.dfy` (`Validation`):
  - `Failures` is the specification of `validate` as a list of structured
    failures. `Errors` renders that list to the concatenated string.
  - `Validate` and its helpers are the loops of the source (the
    `forEach` passes, and the `+=` onto `error`). Each one is proved to
    compute `Errors`.
  - `Conforms` is an independent statement of when data passes the rules.
- `process.dfy` (`Process`): `Decide`, the outcome of `process(config)(data)`.
- `query.dfy` (`Query`): `Serialize`.
- `examples.dfy` (`Scenarios`): concrete rule trees worked through the
  specification.

## Behaviours of this revision worth knowing

- **No optional-field skipping.** A reader might expect a missing field
  that is not `required` to be skipped. In this code, a missing key is read
  as `undefined` and every check of its leaf runs on it. `{age: {type: "number"}}` over `{}`
  fails (`Scenarios.MissingFieldIsChecked`).
- **Array rules under a key.** A nested array rule is walked as a rule for
  arrays only when the data value is an object that is not an array. Over
  an array value, its keys are read as enforcer names, and
  `enforcers["0"]` is not a function (`Scenarios.NestedArrayRuleThrows`).
  Over an object or null, the value is not an array, so the `type: array`
  paragraph for "data" is reported. A non-empty array rule under a key
  therefore never passes: array rules work only at the root in this
  revision (`Validation.NestedArrayRule`).
- **Null values.** `typeof null === 'object'`, so a null field value is
  walked as nested data: `validate(null, rule)` runs on the rule under that
  key. When that rule is an object rule (of type "object" and not an
  array) with at least one own key, reading that key from null throws
  (`Scenarios.NullFieldThrows`, `Validation.NullishDataFaults`). When it
  is an array rule (`{a: []}` or `{a: [x]}`), null is not an array, and
  the result is the `type: array` paragraph for key "data"
  (`Validation.ArrayRuleOnNonArray`). A null rule (`{a: null}`) throws
  in `Object.keys(null)` (`Scenarios.NullRuleThrows`). When it is a
  non-null object rule with no own keys (`{a: {}}`, or a RegExp), or a rule that is neither an array nor of type
  "object" (a number as in `{a: 5}`, or a string as in `{a: "ab"}`), the
  walk yields nothing for that field (`Validation.NonObjectRuleIsNoOp`).
- **Dates.** `date` counts a value as a date when `Date.parse` of its
  string form is `>= 0`. Dates before 1970 and unparsable text therefore
  both count as "not a date" (the `Host.dateNonNegative` parameter).
- **Unknown rule names.** A rule name that is neither one of the five
  enforcers nor a member `enforcers` inherits from `Object.prototype` throws
  (`Enforcers.UnknownNameFaults`). Inherited names such as `toString` or
  `hasOwnProperty` are functions in JavaScript. Calling one appends its
  result to the error text instead of throwing; the model does not cover
  this (see "Left out").

## Model

| member | source | states |
|---|---|---|
| Enforcers.Enforce | yodel.js:3-7 | the text is empty exactly when the record is okay; otherwise it is the paragraph for the record's key, rule, expected value and actual value |
| Enforcers.Paragraph | yodel.js:5 | the paragraph starts with the key and ends with a blank line |
| Enforcers.ReportEmpty | yodel.js:5 | a list of failures renders to the empty string exactly when the list is empty |
| Enforcers.ReportAppend | yodel.js:5 | rendering two lists one after the other is rendering their concatenation |
| Enforcers.Context.Type | yodel.js:11-23 | sets rule to "type"; lower-cases `expected` in place; okay means "is an array" for "array" and 'typeof equals the name' otherwise; throws when `expected` has no `toLowerCase`; returns the enforce text |
| Enforcers.Context.Required | yodel.js:25-33 | sets rule to "required"; okay exactly when the truthiness of the value equals that of `expected`; returns the enforce text |
| Enforcers.Context.Regex | yodel.js:35-43 | sets rule to "regex"; throws on a null or undefined value; otherwise okay is whether the value's string form matches `expected` |
| Enforcers.Context.Date | yodel.js:45-55 | sets rule to "date"; okay exactly when `Date.parse(value) >= 0` has the truthiness of `expected` |
| Enforcers.Context.Custom | yodel.js:57-65 | sets rule to "custom"; throws unless `expected` is a function; otherwise okay is the truthiness of `expected(value)` |
| Enforcers.Run | yodel.js:9-66 | looking up the name in the table and calling it on a fresh record yields exactly the rendered `Verdict` |
| Enforcers.UnknownNameFaults | yodel.js:9-66 | a name outside the five enforcers is the TypeError of calling an undefined entry |
| Enforcers.VerdictShape | yodel.js:3-66 | an enforcer reports at most one failure, under its own rule name, for the key and value it was given |
| Enforcers.TypeIgnoresCase | yodel.js:15-19 | `type` decides the same for `expected` and its lower-cased form; it passes exactly on arrays for "array" and on a matching `typeof` otherwise |
| Enforcers.TypeArray | yodel.js:17-19 | "Array" passes exactly the arrays; arrays also pass "object"; a non-array fails "array" with the lower-cased expected value in the failure |
| Enforcers.TruthinessMatching | yodel.js:25-55 | `required` and `date` never throw, and pass exactly when the truthiness matches `expected` |
| Enforcers.RequiredFalseRejectsPresent | yodel.js:29 | `required: false` fails a truthy value |
| Enforcers.EnforcerFaults | yodel.js:11-65 | `regex` throws exactly on null and undefined; `custom` throws exactly when `expected` is not a function; `type` throws exactly when `expected` is not a string |
| Validation.Validate | yodel.js:68-119 | the string built by the walk equals the rendered failure list `Errors`, faults included |
| Validation.ValidateArray | yodel.js:72-86 | an array rule checks that the data is an array, then checks every element against the first rule element, in order |
| Validation.ValidateObject | yodel.js:88-113 | an object rule lists its own keys, throwing on null, and yields exactly the rendered key pass of `Errors` |
| Validation.ValidateKeys | yodel.js:90-113 | the `forEach` over the keys checks each key in key order and concatenates the results; the first fault stops the walk |
| Validation.ValidateField | yodel.js:92-111 | reads `data[key]`, faulting on null or undefined data; recurses on a non-array object value, otherwise applies the leaf's enforcers |
| Validation.ApplyEnforcers | yodel.js:101-109 | runs the enforcer named by each own key of the leaf on the value, concatenating their texts |
| Validation.ValidateEmptyIff | yodel.js:68-119 | the walk yields the empty string exactly when the data conforms to the rules (the independent predicate `Conforms`) |
| Validation.FailuresNone | yodel.js:68-119 | the failure list is empty exactly when `Conforms` holds |
| Validation.ArrayRuleOnNonArray | yodel.js:72-80 | an array rule over non-array data yields the single `type: array` paragraph for key "data" and checks nothing else |
| Validation.ArrayRuleOnArray | yodel.js:82-84 | over an array, the failures are those of the elements against the first rule element; appending an element appends its failures |
| Validation.ElemsAppend | yodel.js:82-84 | the element pass distributes over concatenation of the data |
| Validation.FieldsAppend | yodel.js:90-113 | the key pass distributes over concatenation of the rule's keys |
| Validation.ChecksAppend | yodel.js:101-109 | the enforcer pass distributes over concatenation of the leaf's rule names |
| Validation.FailureFromEnforcer | yodel.js:101-109 | every failure found at a leaf is the whole verdict of one of that leaf's own checks, under that check's rule name, for the field's key and value |
| Validation.OneFailingCheck | yodel.js:101-109 | when every check of a leaf passes but one, the leaf's result is exactly that check's verdict |
| Validation.OneFailingField | yodel.js:92-109 | a field read as a leaf value, with exactly one failing check, yields exactly one paragraph, which names the field's key and that check's rule |
| Validation.OneFailingProp | yodel.js:90-113 | when every key of a rule's property list conforms but one, which yields exactly one failure, the key pass yields exactly that failure |
| Validation.OneFailingFieldOfObject | yodel.js:88-117 | an object rule whose fields all conform but one, which yields exactly one failure, reports exactly that failure as one paragraph |
| Validation.OneFailingCheckOfObject | yodel.js:88-117 | data failing exactly one leaf check of an object rule, every other field conforming, is reported in exactly one paragraph naming that field's key and that check's rule |
| Validation.NestedArrayRule | yodel.js:92-109 | a non-empty array rule under a key never passes: over an object-like value (null included) the result is the single `type: array` failure for "data", and over any other value the walk throws at `enforcers["0"]` |
| Validation.NonObjectRuleIsNoOp | yodel.js:88-117 | rules that are neither arrays nor `typeof` "object" (undefined, strings, numbers, functions) accept everything |
| Validation.NullishDataFaults | yodel.js:93 | an object rule with a key, over null or undefined data, throws reading the first key |
| Process.Decide | yodel.js:121-145 | resolves exactly when the data conforms, and then with the data itself, calling the transform exactly when it is a function; rejects exactly when there are failures, with their non-empty report; raises exactly when validation throws, with the very fault it threw |
| Process.TransformOnlyAfterValidation | yodel.js:129-139 | the transform never runs on data that fails validation |
| Process.NoValidationResolves | yodel.js:125 | a configuration without `validation` resolves every body |
| Query.PairsAreEntries | yodel.js:151-153 | one pair per own property, in key order: the key, '=', and the string form of the value listed under that key |
| Query.Serialize | yodel.js:147-165 | computes `Serialized`: falsy data leaves the URL unchanged; otherwise the URL is kept, followed by '&' if it already has a '?' and '?' otherwise, followed by the `key=value` pairs joined by '&' |
| Query.QueryStringSplits | yodel.js:151-155 | when no pair contains '&', splitting the query string at '&' gives back one pair per key |
| Query.NoKeysStillSeparates | yodel.js:149-159 | truthy data without own keys serializes to the URL plus the separator alone ('&' if the URL has a '?', '?' otherwise) |
| Query.PairKeyRecovered | yodel.js:151-155 | for each key of the data without '=', its pair in the query string has its first '=' right after the key, and the text before it is the key |
| Text.SplitJoin | yodel.js:155 | joining parts that do not contain the separator and splitting again gives back the parts |
| Text.IndexOf | yodel.js:157 | `indexOf` is -1 exactly when the character is absent, and otherwise is its first position |
| Text.LowerIdempotent | yodel.js:15 | lower-casing twice is lower-casing once |
| Text.Lower | yodel.js:15 | lower-casing keeps the length, leaves no ASCII capital letter, and leaves every other character as it was |
| Text.JoinAppend | yodel.js:155 | joining one more part appends the separator and that part to the join of the others |
| Text.ParseIndexRoundTrip | yodel.js:101 | the index keys `Object.keys` gives an array or string read back as their positions |
| Js.Keys | yodel.js:90 | `Object.keys` throws exactly on null and undefined, and otherwise lists the own property keys |
| Js.OwnDistinct | yodel.js:90 | the own keys of an object are distinct |
| Js.OwnPropsAgree | yodel.js:90-93 | reading each key `Object.keys` lists gives the value listed with it |
| Js.TypeOf | yodel.js:19 | `typeof` gives one of six type names; it is "object" exactly for null, arrays, objects and RegExps, and "undefined" exactly for undefined |
| Js.FalsyValues | yodel.js:29 | a value is falsy exactly when it is undefined, null, false, 0 or the empty string |
| Js.GetReads | yodel.js:92-93 | a property read throws exactly on null and undefined, naming the key; `length` of an array or a string is its length; a key an object does not list reads as undefined, and any other value read is one the object lists under that key |
| Js.RenderArray | yodel.js:153 | an array's string form is its elements' string forms joined by ',', with null and undefined elements contributing the empty string |
| Scenarios.ArrayOfRecords | yodel.js:72-86 | `[{n: {type: "number"}}]` over `[{n: 1}, {n: "x"}]` fails exactly once, for the second `n` |
| Scenarios.NestedObject | yodel.js:95-97 | `{addr: {city: {type: "string"}}}` over `{addr: {city: 5}}` fails once, for key "city" |
| Scenarios.RequiredFalse | yodel.js:29 | `{x: {required: false}}` over `{x: "present"}` fails |
| Scenarios.MissingFieldIsChecked | yodel.js:93-109 | a missing, non-required field is still checked, on `undefined` |
| Scenarios.FlatLeaf | yodel.js:90-109 | a rule with one key, whose leaf names one enforcer, over a non-object value under that key yields exactly that enforcer's verdict |
| Scenarios.MissingLeaf | yodel.js:93-109 | the same rule over an object lacking the key runs the enforcer on `undefined` |
| Scenarios.NestedLeaf | yodel.js:95-109 | a rule nesting such a one-key rule under an outer key, over data nesting the value the same way, yields exactly the inner enforcer's verdict |
| Scenarios.NestedArrayRuleThrows | yodel.js:95-103 | an array rule under a key over an array value throws at `enforcers["0"]` |
| Scenarios.NullFieldThrows | yodel.js:93-97 | a null field value under a leaf rule throws reading the rule name from null |
| Scenarios.NullRuleThrows | yodel.js:88-97 | `{a: null}` over `{a: null}` descends into the null value and throws in `Object.keys(null)` |
| Scenarios.UnknownRuleThrows | yodel.js:103 | a leaf naming `min` throws |

## Left out

- `http`, `fetch`, `res.json()` and `window.yodel` (yodel.js:167-211) are
  not modelled: they are browser networking and assembly. `transform` and
  `validation` reach `Process.Decide` as parameters.
- Promises are not modelled. `Process.Decide` states how the promise
  settles. A TypeError from `validate` is `Raise`, which rejects the chain.
- Process.Decide: the transform's in-place changes to the data are not
  modelled, because the transform is foreign code. `Resolve` records that
  it ran and carries the data value as passed in.
- Exceptions thrown by a `custom` function or by `transform` are not
  modelled. A `custom` function is a foreign call, modelled as the total
  function `Host.call`. `transform` is not called in the model at all:
  `Process.Decide` records only whether it is a function.
- Regular-expression matching, `Date.parse` and the source text of
  functions are `Host` parameters, not definitions. An invalid pattern
  string passed to `match` is therefore not modelled.
- Numbers are integers. Fractions, `NaN`, `Infinity` and `-0` are not
  modelled, so their string forms are not either.
- Js.Value: `Num` stands for integers of magnitude below 2^53, the range a
  JavaScript number holds exactly. The datatype does not bound them, and
  larger integers are not rounded as a double would round them.
- Text.IntToString: exponent notation in JavaScript's number-to-string
  (`String(1e21)` is `"1e+21"`, used from 10^21 up) is not modelled.
  `Render` in the failure paragraph and in the query pairs always writes
  plain digits.
- Js.Value: cyclic (self-referencing) rule objects cannot be expressed,
  because a datatype value is a finite tree. The walk in yodel.js accepts
  such rules and stops, since the data it follows is finite.
- Text.Lower lower-cases ASCII only. Unicode case mapping is not modelled.
- Js.GetReads: strings are sequences of Unicode scalar values, not UTF-16 code
  units. For a character outside the Basic Multilingual Plane, JavaScript
  counts two units in `length`, indices and `Object.keys`, while the model
  counts one. This affects `Js.Chars`, `Js.OwnProps` and `Js.Keys` of
  strings, and therefore `Query.Serialize` over string data.
- Js.OwnProps lists object keys in insertion order. JavaScript puts
  integer-like keys first in ascending order; that is not modelled.
- Inherited properties are not modelled. That covers `Object.prototype`
  members reached through `rules[key]`, `data[key]`, or `enforcers[name]`
  for a name such as `toString`, which the model treats as an unknown
  enforcer.
- Objects with their own `toString`, `toLowerCase` or `Symbol.toPrimitive`
  are not modelled. Every object renders as `[object Object]`.
- Js.GetReads: `Js.Get` reads only own data properties, `length`, and numeric indices of
  arrays and strings. Getters and Proxies are not modelled. Every read
  from a boolean, a number, a function or a RegExp gives undefined, so
  properties such as a function's `length` or `name` and a RegExp's
  `source` or `lastIndex` are not modelled.
