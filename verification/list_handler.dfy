/** ListHandler.java: one page of fleets, as id-only models. */
module ListHandler {
  import opened Results
  import opened Resource
  import opened Ec2
  import opened Progress
  import opened Translator

  /** A list makes exactly one describe, from the caller's token, and always
      returns an event: SUCCESS with the listed models and the page's next
      token when the describe answers, the translated failure otherwise. */
  function HandleList(request: HandlerRequest, page: DescribeOutcome): (run: Run)
    ensures run.calls == [DescribeCall(DescribeRequest([], request.nextToken))]
    ensures run.result.Returned?
    ensures run.result.event.status == Success <==> page.Described?
    ensures page.Described? ==>
              && run.result.event.models == Some(TranslateFromListResponse(page.response))
              && run.result.event.nextToken == page.response.nextToken
              && run.result.event.model.None? && run.result.event.context.None?
              && run.result.event.errorCode.None?
    ensures page.DescribeFailed? ==> run.result.event == TranslateToFailure(Sdk(page.failure))
  {
    var calls := [DescribeCall(TranslateToListRequest(request.nextToken))];
    match page
    case DescribeFailed(f) => Run(Returned(TranslateToFailure(Sdk(f))), calls)
    case Described(resp) =>
      var models := TranslateFromListResponse(resp);
      Run(Returned(ProgressEvent(Success, None, Some(models), None, None, 0, resp.nextToken)), calls)
  }
}
