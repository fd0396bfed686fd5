/** The handler entry point of BaseHandlerStd.java: a null callback context is
    replaced by a fresh one, then the handler for the action runs. */
module Entry {
  import opened Results
  import opened Resource
  import opened Ec2
  import opened Progress
  import opened BaseHandler
  import ReadHandler
  import ListHandler
  import CreateHandler
  import UpdateHandler
  import DeleteHandler

  datatype Action = Create | Read | Update | Delete | List

  /** Read and list never answer IN_PROGRESS. The others answer it only when
      the framework hands control back during stabilization, with a positive
      delay and the context the handler ran with; a null context has become
      a fresh one by then. */
  function HandleRequest(action: Action, request: HandlerRequest, context: Option<CallbackContext>, remote: Remote): (run: Run)
    requires action == Create ==> request.desired.instanceTypeSpecifications.Some?
    ensures action == Read || action == List ==> ObservedStatus(run.result) != InProgress
    ensures ObservedStatus(run.result) == InProgress ==>
              && run.result.event.callbackDelaySeconds == remote.delay
              && run.result.event.context == Some(EffectiveContext(context))
    ensures action == Delete && ObservedStatus(run.result) == Success ==>
              run.result.event == SuccessEvent(None, Some(EffectiveContext(context)))
    ensures action == Read ==> run == ReadHandler.HandleRead(request, remote.read)
    ensures action == List ==> run == ListHandler.HandleList(request, remote.read)
  {
    var ctx := EffectiveContext(context);
    match action
    case Create => CreateHandler.HandleCreate(request, ctx, remote)
    case Read => ReadHandler.HandleRead(request, remote.read)
    case Update => UpdateHandler.HandleUpdate(request, ctx, remote)
    case Delete => DeleteHandler.HandleDelete(request, ctx, remote)
    case List => ListHandler.HandleList(request, remote.read)
  }
}
