/** The CloudFormation handler contract: error codes, the progress event a
    handler returns, and how a handler invocation ends. */
module Progress {
  import opened Results
  import opened Resource
  import opened Ec2

  /** The `HandlerErrorCode` values this resource uses. */
  datatype ErrorCode =
    | NotFound | NotStabilized | Throttling | InvalidRequest
    | ServiceInternalError | GeneralServiceException

  /** Anything a step of a handler can throw: an SDK failure, one of the
      CloudFormation exceptions (`CfnNotFoundException`, ...) with the error
      code it carries, or an unchecked Java exception (a null dereference, an
      index out of range). */
  datatype Exception = Sdk(failure: SdkFailure) | Cfn(code: ErrorCode) | Runtime

  /** `OperationStatus`. */
  datatype Status = InProgress | Success | Failure

  datatype ProgressEvent = ProgressEvent(
    status: Status,
    model: Option<ResourceModel>,
    models: Option<seq<ResourceModel>>,
    errorCode: Option<ErrorCode>,
    context: Option<CallbackContext>,
    callbackDelaySeconds: nat,
    nextToken: Option<string>)

  /** `ProgressEvent.defaultFailureHandler(e, code)`. */
  function FailureEvent(code: ErrorCode): (ev: ProgressEvent)
    ensures ev.status == Failure && ev.errorCode == Some(code)
    ensures ev.model.None? && ev.models.None? && ev.context.None?
  {
    ProgressEvent(Failure, None, None, Some(code), None, 0, None)
  }

  /** `ProgressEvent.defaultInProgressHandler(context, delay, model)`. */
  function InProgressEvent(context: CallbackContext, delay: nat, model: ResourceModel): (ev: ProgressEvent)
    ensures ev.status == InProgress && ev.errorCode.None?
    ensures ev.model == Some(model) && ev.context == Some(context)
    ensures ev.callbackDelaySeconds == delay
  {
    ProgressEvent(InProgress, Some(model), None, None, Some(context), delay, None)
  }

  /** `ProgressEvent.success(model, context)`; `defaultSuccessHandler(model)`
      is the same with no context. */
  function SuccessEvent(model: Option<ResourceModel>, context: Option<CallbackContext>): (ev: ProgressEvent)
    ensures ev.status == Success && ev.errorCode.None?
    ensures ev.model == model && ev.context == context && ev.models.None?
  {
    ProgressEvent(Success, model, None, None, context, 0, None)
  }

  /** `ProgressEvent.then` runs the next stage only for an event that is in
      progress with no callback delay; any other event ends the chain. */
  predicate Continues(ev: ProgressEvent) {
    ev.status == InProgress && ev.callbackDelaySeconds == 0
  }

  /** How one handler invocation ends: with a returned event, or with a
      CloudFormation exception escaping to the wrapper, which reports it as
      FAILED with the exception's own error code. */
  datatype HandlerResult = Returned(event: ProgressEvent) | Raised(code: ErrorCode)

  /** A handler invocation: how it ended and the remote calls it made, in order. */
  datatype Run = Run(result: HandlerResult, calls: seq<Call>)

  /** The status the orchestrator observes. */
  function ObservedStatus(r: HandlerResult): Status {
    if r.Raised? then Failure else r.event.status
  }

  /** The error code the orchestrator observes, if any. */
  function ObservedError(r: HandlerResult): Option<ErrorCode> {
    if r.Raised? then Some(r.code) else r.event.errorCode
  }

  /** A positive callback delay, as the framework sets when it hands control
      back before stabilization is reached. */
  type Delay = d: nat | d > 0 witness 1
}
