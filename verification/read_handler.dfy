/** ReadHandler.java: describe the fleet the desired model names and
    translate the answer into a model. */
module ReadHandler {
  import opened Results
  import opened Resource
  import opened Ec2
  import opened Progress
  import opened Translator
  import opened BaseHandler

  /** A read never answers IN_PROGRESS. Without an id it throws NotFound
      before any call; otherwise it makes exactly one describe of that id,
      and succeeds exactly when the describe answers and passes validation,
      with the translated model and no context. A failed describe is
      translated; a rejected one throws the validator's code. */
  function HandleRead(request: HandlerRequest, read: DescribeOutcome): (run: Run)
    ensures ObservedStatus(run.result) != InProgress
    ensures request.desired.fleetId.None? <==> run.calls == []
    ensures request.desired.fleetId.None? ==> run.result == Raised(NotFound)
    ensures request.desired.fleetId.Some? ==>
              run.calls == [DescribeCall(DescribeRequest([request.desired.fleetId.value], None))]
    ensures ObservedStatus(run.result) == Success <==>
              request.desired.fleetId.Some? && read.Described? && ValidateReadResponse(read.response.fleets).Valid?
    ensures ObservedStatus(run.result) == Success ==>
              run.result.event == SuccessEvent(Some(TranslateFromReadResponse(read.response, Some(request.desired)).value), None)
    ensures request.desired.fleetId.Some? && read.DescribeFailed? ==>
              run.result == Returned(TranslateToFailure(Sdk(read.failure)))
    ensures request.desired.fleetId.Some? && read.Described? && !ValidateReadResponse(read.response.fleets).Valid? ==>
              run.result == Raised(ValidateReadResponse(read.response.fleets).code)
  {
    match TranslateToReadRequest(request.desired)
    case Err(code) => Run(Raised(code), [])
    case Ok(req) =>
      var calls := [DescribeCall(req)];
      match DescribeFleets(read)
      case Err(e) => Run(Returned(HandleDescribeError(e)), calls)
      case Ok(resp) =>
        match TranslateFromReadResponse(resp, Some(request.desired))
        case Err(code) => Run(Raised(code), calls)
        case Ok(model) => Run(Returned(SuccessEvent(Some(model), None)), calls)
  }

  /** The fleet a describe reports for a model in state `s`: every described
      property copied from the model, no tags. */
  function DescribedFleet(m: ResourceModel, s: FleetState): (f: Fleet)
    requires m.instanceMatchCriteria.Some? && m.instanceTypeSpecifications.Some?
    ensures f.fleetId == m.fleetId && f.state == Some(s) && f.tags == []
    ensures Some(f.instanceMatchCriteria) == m.instanceMatchCriteria
    ensures Some(f.instanceTypeSpecifications) == m.instanceTypeSpecifications
  {
    Fleet(m.fleetId, Some(s), m.allocationStrategy, m.tenancy, m.instanceMatchCriteria.value,
          m.totalTargetCapacity, m.endDate, m.instanceTypeSpecifications.value, [])
  }

  /** Reading a fleet that is provisioned as a model describes gives that
      model back, provided the model holds no update-only flag and no empty
      tag list (a read reports those as null). */
  lemma ReadRoundTrip(m: ResourceModel, s: FleetState)
    requires m.fleetId.Some? && m.instanceMatchCriteria.Some? && m.instanceTypeSpecifications.Some?
    requires m.removeEndDate.None? && m.noRemoveEndDate.None?
    requires m.tagSpecifications != Some([])
    requires s == Active || s == PartiallyFulfilled
    ensures HandleRead(HandlerRequest(m, None, None, None), Described(DescribeResponse(Some([DescribedFleet(m, s)]), None))) ==
              Run(Returned(SuccessEvent(Some(m), None)), [DescribeCall(DescribeRequest([m.fleetId.value], None))])
  {
    ValidateSingleFleet(DescribedFleet(m, s));
  }
}
