/** BaseHandlerStd.java: what every handler shares — the callback-context
    default, the describe call and its error handling, the unauthorized
    check — together with the remote outcomes a handler invocation consumes
    and the way an exception ends a call chain. */
module BaseHandler {
  import opened Results
  import opened Strings
  import opened Resource
  import opened Ec2
  import opened Progress
  import opened Translator

  /** The outcomes of the remote calls one invocation may make, in the order
      it makes them: the existence check of update and delete, the mutating
      call, the describes of successive stabilize callbacks, the describe of
      the read that ends create and update (and of a read or list on its
      own), and the delay the framework sets if it hands control back before
      the fleet stabilizes. */
  datatype Remote = Remote(
    precheck: DescribeOutcome,
    create: CreateOutcome,
    update: ModifyOutcome,
    cancel: CancelOutcome,
    polls: seq<DescribeOutcome>,
    read: DescribeOutcome,
    delay: Delay)

  /** The context a handler runs with: a null one is replaced by a fresh
      context, any other is passed through. */
  function EffectiveContext(context: Option<CallbackContext>): (c: CallbackContext)
    ensures context.Some? ==> c == context.value
    ensures context.None? ==> c == FreshContext
  {
    if context.Some? then context.value else FreshContext
  }

  /** `isUnauthorizedException`: only a service failure whose details carry
      the code `UnauthorizedOperation`, in any case, is unauthorized. */
  function IsUnauthorized(e: Exception): (b: bool)
    ensures !(e.Sdk? && e.failure.ServiceFailure?) ==> !b
    ensures e.Sdk? && e.failure.ServiceFailure? && e.failure.details.None? ==> !b
    ensures b <==> e.Sdk? && e.failure.ServiceFailure? && HasErrorCode(e.failure.details, UnauthorizedCode)
  {
    if !(e.Sdk? && e.failure.ServiceFailure?) then false
    else if e.failure.details.None? then false
    else
      var code := e.failure.details.value.errorCode;
      var b := code.Some? && EqualsIgnoreCase(UnauthorizedCode, code.value);
      assert code.Some? ==> (EqualsIgnoreCase(UnauthorizedCode, code.value) <==> EqualsIgnoreCase(code.value, UnauthorizedCode)) by {
        if code.Some? {
          EqualsIgnoreCaseEquivalence(UnauthorizedCode, code.value, UnauthorizedCode);
          EqualsIgnoreCaseEquivalence(code.value, UnauthorizedCode, code.value);
        }
      }
      b
  }

  /** Recognising a failure as unauthorized only adds a log line: below
      status 500 and unthrottled it still translates to InvalidRequest. */
  lemma UnauthorizedTranslatesToInvalidRequest(e: Exception)
    requires IsUnauthorized(e)
    requires !e.failure.throttling && e.failure.statusCode < 500
    ensures TranslateToFailure(e).errorCode == Some(InvalidRequest)
  {
    var c := e.failure.details.value.errorCode.value;
    EqualsIgnoreCaseEquivalence(c, UnauthorizedCode, c);
    assert |c| == |UnauthorizedCode|;
  }

  /** `describeCapacityReservationFleets`: the describe's answer, or its
      failure rethrown unchanged. */
  function DescribeFleets(outcome: DescribeOutcome): (r: Result<DescribeResponse, Exception>)
    ensures outcome.DescribeFailed? ==> r == Err(Sdk(outcome.failure))
    ensures outcome.Described? ==> r == Ok(outcome.response)
  {
    match outcome
    case Described(resp) => Ok(resp)
    case DescribeFailed(f) => Err(Sdk(f))
  }

  /** `handleDescribeCapacityReservationFleetsError`: a failed describe is
      translated by `translateToFailure` and nothing else. */
  function HandleDescribeError(e: Exception): (ev: ProgressEvent)
    ensures ev == TranslateToFailure(e)
  {
    TranslateToFailure(e)
  }

  /** How an exception thrown inside a call chain ends the handler: a
      CloudFormation exception escapes with its own error code; any other
      reaches the chain's error handler, which in every handler of this
      resource is `translateToFailure`. */
  function ChainError(e: Exception): (r: HandlerResult)
    ensures e.Cfn? ==> r == Raised(e.code)
    ensures !e.Cfn? ==> r == Returned(TranslateToFailure(e))
    ensures ObservedStatus(r) == Failure
  {
    if e.Cfn? then Raised(e.code) else Returned(TranslateToFailure(e))
  }

  /** Where the existence check leaves a handler: free to go on, having made
      the calls listed, or ended with the run given. */
  datatype Checked = Proceed(calls: seq<Call>) | Stop(run: Run)

  /** The first stage of update and delete: describe the fleet named by the
      model and let `translateToResourceFoundProgress` decide whether the
      chain goes on. A model without an id throws NotFound before any call;
      a failed describe is translated; a describe that fails validation ends
      the handler with a FAILED event carrying the validator's code. */
  function CheckExists(model: ResourceModel, context: CallbackContext, outcome: DescribeOutcome): (c: Checked)
    ensures c.Proceed? <==>
              model.fleetId.Some? && outcome.Described? && ValidateReadResponse(outcome.response.fleets).Valid?
    ensures c.Proceed? ==> c.calls == [DescribeCall(DescribeRequest([model.fleetId.value], None))]
    ensures model.fleetId.None? ==> c == Stop(Run(Raised(NotFound), []))
    ensures model.fleetId.Some? && c.Stop? ==>
              && c.run.calls == [DescribeCall(DescribeRequest([model.fleetId.value], None))]
              && c.run.result.Returned?
              && c.run.result.event.status == Failure
    ensures model.fleetId.Some? && outcome.DescribeFailed? ==>
              c.run.result.event == TranslateToFailure(Sdk(outcome.failure))
    ensures model.fleetId.Some? && outcome.Described? && c.Stop? ==>
              c.run.result.event == FailureEvent(ValidateReadResponse(outcome.response.fleets).code)
  {
    match TranslateToReadRequest(model)
    case Err(code) => Stop(Run(Raised(code), []))
    case Ok(req) =>
      var calls := [DescribeCall(req)];
      match DescribeFleets(outcome)
      case Err(e) => Stop(Run(Returned(HandleDescribeError(e)), calls))
      case Ok(resp) =>
        var ev := TranslateToResourceFoundProgress(resp, context, model);
        if Continues(ev) then Proceed(calls) else Stop(Run(Returned(ev), calls))
  }
}
