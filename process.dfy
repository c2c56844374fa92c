/** The decision `process(config)` makes once a response body is decoded:
    reject with the validation text, or run the transform and resolve. */
module Process {
  import opened Js
  import opened Enforcers
  import opened Validation

  /** How the promise returned for one response settles. `transformCalled`
      records whether `config.transform(data)` ran before resolving; `Raise`
      is a TypeError thrown by `validate`, which rejects the promise chain
      with that exception. */
  datatype Outcome =
    | Reject(reason: string)
    | Resolve(data: Value, transformCalled: bool)
    | Raise(fault: Fault)

  /** `process({validation, transform})(data)`. */
  function Decide(h: Host, data: Value, validation: Value, transform: Value): (o: Outcome)
    ensures o.Resolve? <==> Conforms(h, data, validation)
    ensures o.Resolve? ==> o.data == data && o.transformCalled == transform.Func?
    ensures o.Reject? <==> Failures(h, data, validation).Ok? && Failures(h, data, validation).value != []
    ensures o.Reject? ==> o.reason == Report(h, Failures(h, data, validation).value) && o.reason != ""
    ensures o.Raise? <==> Failures(h, data, validation).Err?
    ensures o.Raise? ==> o.fault == Failures(h, data, validation).fault
  {
    ValidateEmptyIff(h, data, validation);
    ReportEmptyWhenOk(h, data, validation);
    match Errors(h, data, validation)
    case Err(f) => Raise(f)
    case Ok(error) =>
      if error != "" then Reject(error)
      else Resolve(data, transform.Func?)
  }

  lemma ReportEmptyWhenOk(h: Host, data: Value, validation: Value)
    ensures Failures(h, data, validation).Ok? ==>
      (Report(h, Failures(h, data, validation).value) == "" <==> Failures(h, data, validation).value == [])
  {
    if Failures(h, data, validation).Ok? {
      ReportEmpty(h, Failures(h, data, validation).value);
    }
  }

  /** The transform never runs on data that fails validation, and data that
      passes always resolves, untouched by the decision itself. */
  lemma TransformOnlyAfterValidation(h: Host, data: Value, validation: Value, transform: Value)
    ensures !Conforms(h, data, validation) ==> !Decide(h, data, validation, transform).Resolve?
    ensures Conforms(h, data, validation) ==>
      Decide(h, data, validation, transform) == Resolve(data, transform.Func?)
  {
  }

  /** A configuration without validation rules accepts every response. */
  lemma NoValidationResolves(h: Host, data: Value, transform: Value)
    ensures Decide(h, data, Undefined, transform) == Resolve(data, transform.Func?)
  {
    assert Conforms(h, data, Undefined);
  }
}
