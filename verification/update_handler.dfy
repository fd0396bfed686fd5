/** UpdateHandler.java: check the fleet exists, modify it, wait until it is
    provisioned again, then read it back. */
module UpdateHandler {
  import opened Results
  import opened Resource
  import opened Ec2
  import opened Progress
  import opened Translator
  import opened BaseHandler
  import opened Stabilize
  import ReadHandler

  /** The exception the modify call's wrapper throws for a response whose
      return value is false: a service failure with status 500 and details
      carrying only a message. */
  const ModifyRejected := Sdk(ServiceFailure(false, 500, Some(ErrorDetails(None))))

  /** The modify call's result as the chain sees it: a null return value
      throws a null dereference on unboxing, false throws `ModifyRejected`. */
  function ModifyAccepted(outcome: ModifyOutcome): (r: Result<ModifyResponse, Exception>)
    ensures r.Ok? <==> outcome.Modified? && outcome.response.returnValue == Some(true)
    ensures outcome.ModifyFailed? ==> r == Err(Sdk(outcome.failure))
    ensures outcome.Modified? && outcome.response.returnValue == Some(false) ==> r == Err(ModifyRejected)
    ensures outcome.Modified? && outcome.response.returnValue.None? ==> r == Err(Runtime)
  {
    match outcome
    case ModifyFailed(f) => Err(Sdk(f))
    case Modified(resp) =>
      if resp.returnValue.None? then Err(Runtime)
      else if !resp.returnValue.value then Err(ModifyRejected)
      else Ok(resp)
  }

  /** Whether a call log holds a modify call. */
  predicate Modifies(calls: seq<Call>) {
    exists i :: 0 <= i < |calls| && calls[i].ModifyCall?
  }

  /** After the existence check, the modify request is built (conflicting
      end-date flags throw InvalidRequest before the call), the modify call
      is made, the callbacks wait for ACTIVE or PARTIALLY_FULFILLED, and the
      read handler finishes the request. Without an id nothing is called;
      otherwise every call but the modify is a describe of the model's id,
      and the modify, made exactly when the fleet was found and the request
      could be built, is the second call. */
  function HandleUpdate(request: HandlerRequest, context: CallbackContext, remote: Remote): (run: Run)
    ensures request.desired.fleetId.None? ==> run == Run(Raised(NotFound), [])
    ensures request.desired.fleetId.Some? ==>
              && |run.calls| >= 1
              && forall i :: 0 <= i < |run.calls| && !run.calls[i].ModifyCall? ==>
                   run.calls[i] == DescribeCall(DescribeRequest([request.desired.fleetId.value], None))
    ensures Modifies(run.calls) <==>
              CheckExists(request.desired, context, remote.precheck).Proceed? && TranslateToUpdateRequest(request.desired).Ok?
    ensures forall i :: 0 <= i < |run.calls| && run.calls[i].ModifyCall? ==>
              i == 1 && TranslateToUpdateRequest(request.desired) == Ok(run.calls[i].modifyRequest)
    ensures ObservedStatus(run.result) == InProgress ==>
              run.result == Returned(InProgressEvent(context, remote.delay, request.desired))
    ensures ObservedStatus(run.result) == Success ==>
              run.result.Returned? && run.result.event.model.Some? && run.result.event.context.None?
  {
    match CheckExists(request.desired, context, remote.precheck)
    case Stop(stopped) => stopped
    case Proceed(checkCalls) =>
      match TranslateToUpdateRequest(request.desired)
      case Err(code) => Run(Raised(code), checkCalls)
      case Ok(modifyRequest) =>
        var tail := AfterModify(request, context, remote);
        var run := Run(tail.result, checkCalls + [ModifyCall(modifyRequest)] + tail.calls);
        assert run.calls[1] == ModifyCall(modifyRequest);
        run
  }

  /** What follows the modify request: the modify call's result, then the
      callbacks waiting for ACTIVE or PARTIALLY_FULFILLED, then the read
      handler. Every call made here is a describe of the model's id. */
  function AfterModify(request: HandlerRequest, context: CallbackContext, remote: Remote): (tail: Run)
    requires request.desired.fleetId.Some?
    ensures forall i :: 0 <= i < |tail.calls| ==>
              tail.calls[i] == DescribeCall(DescribeRequest([request.desired.fleetId.value], None))
    ensures ObservedStatus(tail.result) == InProgress ==>
              tail.result == Returned(InProgressEvent(context, remote.delay, request.desired))
    ensures ObservedStatus(tail.result) == Success ==>
              tail.result.Returned? && tail.result.event.model.Some? && tail.result.event.context.None?
  {
    match ModifyAccepted(remote.update)
    case Err(e) => Run(ChainError(e), [])
    case Ok(_) =>
      var p := RunPolls(Provisioned, None, TranslateToReadRequest(request.desired), remote.polls);
      match p.end
      case Exhausted => Run(Returned(InProgressEvent(context, remote.delay, request.desired)), p.calls)
      case Aborted(e) => Run(ChainError(e), p.calls)
      case Converged =>
        var read := ReadHandler.HandleRead(request, remote.read);
        Run(read.result, p.calls + read.calls)
  }

  /** Giving both end-date flags is rejected as InvalidRequest without any
      modify call, once the fleet is found. */
  lemma ConflictingEndDateFlagsNeverModify(request: HandlerRequest, context: CallbackContext, remote: Remote)
    requires request.desired.removeEndDate.Some? && request.desired.noRemoveEndDate.Some?
    ensures !Modifies(HandleUpdate(request, context, remote).calls)
    ensures CheckExists(request.desired, context, remote.precheck).Proceed? ==>
              HandleUpdate(request, context, remote).result == Raised(InvalidRequest)
  {
    var run := HandleUpdate(request, context, remote);
    var c := CheckExists(request.desired, context, remote.precheck);
    if c.Proceed? {
      assert run.calls == c.calls;
    }
  }

  /** SUCCESS only after the fleet was found, a modify the service accepted,
      a describe that saw the fleet provisioned, and a read that passed
      validation. */
  lemma UpdateSucceedsOnlyWhenProvisioned(request: HandlerRequest, context: CallbackContext, remote: Remote)
    requires ObservedStatus(HandleUpdate(request, context, remote).result) == Success
    ensures CheckExists(request.desired, context, remote.precheck).Proceed?
    ensures TranslateToUpdateRequest(request.desired).Ok?
    ensures remote.update.Modified? && remote.update.response.returnValue == Some(true)
    ensures exists k :: 0 <= k < |remote.polls| && Observe(Provisioned, remote.polls[k]) == Stable
    ensures remote.read.Described? && ValidateReadResponse(remote.read.response.fleets).Valid?
  {
    var c := CheckExists(request.desired, context, remote.precheck);
    var rr := TranslateToReadRequest(request.desired);
    var p := RunPolls(Provisioned, None, rr, remote.polls);
    assert p.end.Converged?;
    assert Poll(Provisioned, None, rr, remote.polls[p.used - 1]) == Stable;
    var read := ReadHandler.HandleRead(request, remote.read);
  }

  /** IN_PROGRESS exactly when the fleet was found, the modify request could
      be built and was accepted, and every callback found the fleet not yet
      provisioned. */
  lemma UpdateWaitsWhileNotProvisioned(request: HandlerRequest, context: CallbackContext, remote: Remote)
    ensures ObservedStatus(HandleUpdate(request, context, remote).result) == InProgress <==>
              && CheckExists(request.desired, context, remote.precheck).Proceed?
              && TranslateToUpdateRequest(request.desired).Ok?
              && ModifyAccepted(remote.update).Ok?
              && forall i :: 0 <= i < |remote.polls| ==>
                   Poll(Provisioned, None, TranslateToReadRequest(request.desired), remote.polls[i]) == NotYet
  {
    var c := CheckExists(request.desired, context, remote.precheck);
    if c.Proceed? && TranslateToUpdateRequest(request.desired).Ok? && ModifyAccepted(remote.update).Ok? {
      var p := RunPolls(Provisioned, None, TranslateToReadRequest(request.desired), remote.polls);
      if p.end.Converged? {
        var read := ReadHandler.HandleRead(request, remote.read);
      }
    }
  }

  /** A modify the service rejects ends the update as ServiceInternalError,
      and a modify with no return value does too. */
  lemma RejectedModifyIsServiceInternalError(request: HandlerRequest, context: CallbackContext, remote: Remote)
    requires CheckExists(request.desired, context, remote.precheck).Proceed?
    requires TranslateToUpdateRequest(request.desired).Ok?
    requires remote.update.Modified? && remote.update.response.returnValue != Some(true)
    ensures ObservedError(HandleUpdate(request, context, remote).result) == Some(ServiceInternalError)
    ensures DescribeCount(HandleUpdate(request, context, remote).calls) == 1
  {
    var c := CheckExists(request.desired, context, remote.precheck);
    var prefix := c.calls + [ModifyCall(TranslateToUpdateRequest(request.desired).value)];
    DescribeCountAppend(c.calls, [ModifyCall(TranslateToUpdateRequest(request.desired).value)]);
  }
}
