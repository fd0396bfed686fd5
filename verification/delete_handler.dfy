/** DeleteHandler.java: check the fleet exists, cancel it, and wait until it
    is CANCELLED. */
module DeleteHandler {
  import opened Results
  import opened Resource
  import opened Ec2
  import opened Progress
  import opened Translator
  import opened BaseHandler
  import opened Stabilize

  /** The exception the callback throws when the cancel response lists
      failed cancellations: a service failure with status 500 and details
      carrying only a message. */
  const CancellationFailed := Sdk(ServiceFailure(false, 500, Some(ErrorDetails(None))))

  /** What every delete callback checks before it describes: a null cancel
      response throws NotStabilized, a response listing at least one failed
      cancellation throws `CancellationFailed`. */
  function CancelGuard(response: Option<CancelResponse>): (g: Option<Exception>)
    ensures response.None? ==> g == Some(Cfn(NotStabilized))
    ensures response.Some? ==>
              (g.Some? <==> response.value.failedCancellations.Some? && |response.value.failedCancellations.value| > 0)
    ensures response.Some? && g.Some? ==> g.value == CancellationFailed
  {
    if response.None? then Some(Cfn(NotStabilized))
    else if |OrEmpty(response.value.failedCancellations)| > 0 then Some(CancellationFailed)
    else None
  }

  /** Whether a call log holds a cancel call. */
  predicate Cancels(calls: seq<Call>) {
    exists i :: 0 <= i < |calls| && calls[i].CancelCall?
  }

  /** After the existence check, the cancel call is made for the model's id;
      its failure is translated. The callbacks then wait for CANCELLED, and
      the request ends with SUCCESS, no model and the handler's context.
      Without an id nothing is called; otherwise every call but the cancel
      is a describe of the model's id, and the cancel, made exactly when the
      fleet was found, is the second call. */
  function HandleDelete(request: HandlerRequest, context: CallbackContext, remote: Remote): (run: Run)
    ensures request.desired.fleetId.None? ==> run == Run(Raised(NotFound), [])
    ensures request.desired.fleetId.Some? ==>
              && |run.calls| >= 1
              && forall i :: 0 <= i < |run.calls| && !run.calls[i].CancelCall? ==>
                   run.calls[i] == DescribeCall(DescribeRequest([request.desired.fleetId.value], None))
    ensures Cancels(run.calls) <==> CheckExists(request.desired, context, remote.precheck).Proceed?
    ensures forall i :: 0 <= i < |run.calls| && run.calls[i].CancelCall? ==>
              i == 1 && run.calls[i] == CancelCall(TranslateToDeleteRequest(request.desired))
    ensures ObservedStatus(run.result) == InProgress ==>
              run.result == Returned(InProgressEvent(context, remote.delay, request.desired))
    ensures ObservedStatus(run.result) == Success ==>
              run.result == Returned(SuccessEvent(None, Some(context)))
  {
    match CheckExists(request.desired, context, remote.precheck)
    case Stop(stopped) => stopped
    case Proceed(checkCalls) =>
      var prefix := checkCalls + [CancelCall(TranslateToDeleteRequest(request.desired))];
      var run :=
        match remote.cancel
        case CancelFailed(f) => Run(ChainError(Sdk(f)), prefix)
        case CancelAnswered(response) =>
          var p := RunPolls(Cancellation, CancelGuard(response), TranslateToReadRequest(request.desired), remote.polls);
          match p.end
          case Exhausted => Run(Returned(InProgressEvent(context, remote.delay, request.desired)), prefix + p.calls)
          case Aborted(e) => Run(ChainError(e), prefix + p.calls)
          case Converged => Run(Returned(SuccessEvent(None, Some(context))), prefix + p.calls);
      assert run.calls[1].CancelCall?;
      run
  }

  /** SUCCESS only after the fleet was found, the cancel call answered with
      no failed cancellation, and a describe saw the fleet CANCELLED; the
      event carries no model and the handler's context. */
  lemma DeleteSucceedsOnlyWhenCancelled(request: HandlerRequest, context: CallbackContext, remote: Remote)
    requires ObservedStatus(HandleDelete(request, context, remote).result) == Success
    ensures CheckExists(request.desired, context, remote.precheck).Proceed?
    ensures remote.cancel.CancelAnswered? && remote.cancel.response.Some?
    ensures |OrEmpty(remote.cancel.response.value.failedCancellations)| == 0
    ensures exists k :: 0 <= k < |remote.polls| &&
              remote.polls[k].Described? && remote.polls[k].response.fleets.Some? &&
              |remote.polls[k].response.fleets.value| > 0 &&
              remote.polls[k].response.fleets.value[0].state == Some(Cancelled)
    ensures HandleDelete(request, context, remote).result == Returned(SuccessEvent(None, Some(context)))
  {
    var guard := CancelGuard(remote.cancel.response);
    var rr := TranslateToReadRequest(request.desired);
    var p := RunPolls(Cancellation, guard, rr, remote.polls);
    assert p.end.Converged?;
    ConvergedMeansGoalReached(Cancellation, guard, rr, remote.polls);
  }

  /** IN_PROGRESS exactly when the fleet was found, the cancel call answered,
      and every callback passed the cancel-response check and found the
      fleet not yet CANCELLED. */
  lemma DeleteWaitsWhileNotCancelled(request: HandlerRequest, context: CallbackContext, remote: Remote)
    ensures ObservedStatus(HandleDelete(request, context, remote).result) == InProgress <==>
              && CheckExists(request.desired, context, remote.precheck).Proceed?
              && remote.cancel.CancelAnswered?
              && forall i :: 0 <= i < |remote.polls| ==>
                   Poll(Cancellation, CancelGuard(remote.cancel.response), TranslateToReadRequest(request.desired), remote.polls[i]) == NotYet
  {
  }

  /** A null cancel response can never lead to SUCCESS: the first callback
      throws NotStabilized before any describe. */
  lemma NullCancelResponseRaisesNotStabilized(request: HandlerRequest, context: CallbackContext, remote: Remote)
    requires CheckExists(request.desired, context, remote.precheck).Proceed?
    requires remote.cancel == CancelAnswered(None)
    requires |remote.polls| > 0
    ensures HandleDelete(request, context, remote) ==
              Run(Raised(NotStabilized),
                  CheckExists(request.desired, context, remote.precheck).calls +
                  [CancelCall(TranslateToDeleteRequest(request.desired))])
  {
    ThrowBeforeDescribeStopsAtOnce(Cancellation, Some(Cfn(NotStabilized)), TranslateToReadRequest(request.desired), remote.polls);
  }

  /** A cancel response listing a failed cancellation ends the delete as
      ServiceInternalError with no describe after the existence check. */
  lemma FailedCancellationIsServiceInternalError(request: HandlerRequest, context: CallbackContext, remote: Remote)
    requires CheckExists(request.desired, context, remote.precheck).Proceed?
    requires remote.cancel.CancelAnswered? && remote.cancel.response.Some?
    requires |OrEmpty(remote.cancel.response.value.failedCancellations)| > 0
    requires |remote.polls| > 0
    ensures ObservedError(HandleDelete(request, context, remote).result) == Some(ServiceInternalError)
    ensures DescribeCount(HandleDelete(request, context, remote).calls) == 1
  {
    var c := CheckExists(request.desired, context, remote.precheck);
    var cancel := [CancelCall(TranslateToDeleteRequest(request.desired))];
    ThrowBeforeDescribeStopsAtOnce(Cancellation, Some(CancellationFailed), TranslateToReadRequest(request.desired), remote.polls);
    DescribeCountAppend(c.calls, cancel);
    assert c.calls + cancel + [] == c.calls + cancel;
  }
}
