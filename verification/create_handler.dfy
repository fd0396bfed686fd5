/** CreateHandler.java: create the fleet, wait until it is provisioned, then
    read it back. */
module CreateHandler {
  import opened Results
  import opened Resource
  import opened Ec2
  import opened Progress
  import opened Translator
  import opened BaseHandler
  import opened Stabilize
  import ReadHandler

  /** The model the stabilize callbacks and the final read see: the chain
      shares one model object with the request, and the callback writes the
      id the create call returned into it. */
  function BoundModel(desired: ResourceModel, created: CreateResponse): (m: ResourceModel)
    ensures m.fleetId == created.fleetId
    ensures m.(fleetId := desired.fleetId) == desired
  {
    desired.(fleetId := created.fleetId)
  }

  /** The create call comes first. Its failure is translated; after it the
      callbacks wait for ACTIVE or PARTIALLY_FULFILLED on the bound model,
      and once that is seen the read handler finishes the request. The log
      holds the one create call and then only describes of the id the
      create returned; IN_PROGRESS hands back the bound model, and SUCCESS
      is the read's event: a model and no context. */
  function HandleCreate(request: HandlerRequest, context: CallbackContext, remote: Remote): (run: Run)
    requires request.desired.instanceTypeSpecifications.Some?
    ensures |run.calls| >= 1 && run.calls[0] == CreateCall(TranslateToCreateRequest(request.desired, request))
    ensures |run.calls| > 1 ==>
              && remote.create.Created? && remote.create.response.fleetId.Some?
              && forall i :: 1 <= i < |run.calls| ==>
                   run.calls[i] == DescribeCall(DescribeRequest([remote.create.response.fleetId.value], None))
    ensures ObservedStatus(run.result) == InProgress ==>
              && remote.create.Created?
              && run.result == Returned(InProgressEvent(context, remote.delay, BoundModel(request.desired, remote.create.response)))
    ensures ObservedStatus(run.result) == Success ==>
              run.result.Returned? && run.result.event.model.Some? && run.result.event.context.None?
  {
    var createCall := CreateCall(TranslateToCreateRequest(request.desired, request));
    match remote.create
    case CreateFailed(f) => Run(ChainError(Sdk(f)), [createCall])
    case Created(resp) =>
      var bound := BoundModel(request.desired, resp);
      var p := RunPolls(Provisioned, None, TranslateToReadRequest(bound), remote.polls);
      match p.end
      case Exhausted => Run(Returned(InProgressEvent(context, remote.delay, bound)), [createCall] + p.calls)
      case Aborted(e) => Run(ChainError(e), [createCall] + p.calls)
      case Converged =>
        var read := ReadHandler.HandleRead(request.(desired := bound), remote.read);
        Run(read.result, [createCall] + p.calls + read.calls)
  }

  /** SUCCESS only after a create that returned an id, a describe that saw
      the fleet provisioned, and a read that passed validation; at least two
      describes were made. */
  lemma CreateSucceedsOnlyWhenProvisioned(request: HandlerRequest, context: CallbackContext, remote: Remote)
    requires request.desired.instanceTypeSpecifications.Some?
    ensures var run := HandleCreate(request, context, remote);
            ObservedStatus(run.result) == Success ==>
              && remote.create.Created? && remote.create.response.fleetId.Some?
              && (exists k :: 0 <= k < |remote.polls| && Observe(Provisioned, remote.polls[k]) == Stable)
              && remote.read.Described? && ValidateReadResponse(remote.read.response.fleets).Valid?
              && DescribeCount(run.calls) >= 2
  {
    var run := HandleCreate(request, context, remote);
    if ObservedStatus(run.result) == Success {
      assert remote.create.CreateFailed? ==> ObservedStatus(run.result) == Failure;
      assert remote.create.Created?;
      var bound := BoundModel(request.desired, remote.create.response);
      var rr := TranslateToReadRequest(bound);
      var p := RunPolls(Provisioned, None, rr, remote.polls);
      assert p.end.Exhausted? ==> ObservedStatus(run.result) == InProgress;
      assert p.end.Aborted? ==> ObservedStatus(run.result) == Failure;
      assert p.end.Converged?;
      var read := ReadHandler.HandleRead(request.(desired := bound), remote.read);
      assert run == Run(read.result, [run.calls[0]] + p.calls + read.calls);
      assert rr.Ok?;
      var k := p.used - 1;
      assert Observe(Provisioned, remote.polls[k]) == Stable;
      RunPollsDescribeCount(Provisioned, None, rr, remote.polls);
      DescribeCountAppend([run.calls[0]], p.calls);
      DescribeCountAppend([run.calls[0]] + p.calls, read.calls);
    }
  }

  /** IN_PROGRESS exactly when the create answered and every describe the
      callbacks made found the fleet not yet provisioned; the event then
      carries the bound model, the context and a positive delay. */
  lemma CreateWaitsWhileNotProvisioned(request: HandlerRequest, context: CallbackContext, remote: Remote)
    requires request.desired.instanceTypeSpecifications.Some?
    ensures var r := HandleCreate(request, context, remote).result;
            ObservedStatus(r) == InProgress <==>
              remote.create.Created? &&
              forall i :: 0 <= i < |remote.polls| ==>
                Poll(Provisioned, None, TranslateToReadRequest(BoundModel(request.desired, remote.create.response)), remote.polls[i]) == NotYet
    ensures var r := HandleCreate(request, context, remote).result;
            ObservedStatus(r) == InProgress ==>
              && r.event.callbackDelaySeconds > 0
              && r.event.model == Some(BoundModel(request.desired, remote.create.response))
              && r.event.context == Some(context)
  {
    if remote.create.Created? {
      var bound := BoundModel(request.desired, remote.create.response);
      var p := RunPolls(Provisioned, None, TranslateToReadRequest(bound), remote.polls);
      if p.end.Converged? {
        var read := ReadHandler.HandleRead(request.(desired := bound), remote.read);
      }
    }
  }

  /** A failed create makes no describe and reports the failure's code. */
  lemma CreateFailureMakesNoDescribe(request: HandlerRequest, context: CallbackContext, remote: Remote)
    requires request.desired.instanceTypeSpecifications.Some?
    requires remote.create.CreateFailed?
    ensures DescribeCount(HandleCreate(request, context, remote).calls) == 0
    ensures ObservedError(HandleCreate(request, context, remote).result) == Some(ClassifySdkFailure(remote.create.failure))
  {
  }

  /** A create response without an id makes the first callback throw
      NotFound before it describes anything. */
  lemma CreateWithoutIdRaisesNotFound(request: HandlerRequest, context: CallbackContext, remote: Remote)
    requires request.desired.instanceTypeSpecifications.Some?
    requires remote.create.Created? && remote.create.response.fleetId.None?
    requires |remote.polls| > 0
    ensures HandleCreate(request, context, remote) ==
              Run(Raised(NotFound), [CreateCall(TranslateToCreateRequest(request.desired, request))])
  {
    var bound := BoundModel(request.desired, remote.create.response);
    ThrowBeforeDescribeStopsAtOnce(Provisioned, None, TranslateToReadRequest(bound), remote.polls);
  }
}
