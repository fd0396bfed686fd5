/** The behaviours the handler tests of the repository exercise, stated over
    the tests' own fixtures. */
module Scenarios {
  import opened Results
  import opened Strings
  import opened Resource
  import opened Ec2
  import opened Progress
  import opened Translator
  import opened BaseHandler
  import opened Stabilize
  import opened ReadHandler
  import opened ListHandler
  import opened CreateHandler
  import opened UpdateHandler
  import opened DeleteHandler

  const Id := "crf-1234"

  /** The instance type specification of the tests' fixtures. */
  const Spec := InstanceTypeSpec(Some("m4.xlarge"), Some("linux"), Some("us-east-1"), None, Some(true), None, None)

  /** The create tests' desired model: id, capacity 1, prioritized, open,
      and two tag groups. */
  const CreateModel := ResourceModel(
    Some(Id), Some("prioritized"), None, Some("open"), Some(1), None, None, None, Some([Spec]),
    Some([TagSpecification(Some("capacity-reservation-fleet"), [Tag("test key", "Test")]),
          TagSpecification(Some("ec2-instance"), [Tag("TestKey2", "TestValue2")])]))

  /** The update and delete tests' model holds the id alone. */
  const IdModel := IdOnly(Some(Id))

  /** `createDescribeResponse(state, id)` of the tests' base class. */
  function DescribedIn(s: FleetState): (d: DescribeOutcome)
    ensures d.Described? && d.response.fleets.Some? && |d.response.fleets.value| == 1
    ensures d.response.fleets.value[0].state == Some(s)
  {
    Described(DescribeResponse(Some([Fleet(Some(Id), Some(s), Some("prioritized"), None, "open", Some(1), None, [Spec], [])]), None))
  }

  /** A response built with no fleet list at all. */
  const EmptyDescribe := Described(DescribeResponse(None, None))

  /** An `AwsServiceException` built with a message only. */
  const PlainServiceFailure := ServiceFailure(false, 0, None)

  /** An `AwsServiceException` whose details carry `UnauthorizedOperation`. */
  const UnauthorizedFailure := ServiceFailure(false, 0, Some(ErrorDetails(Some("UnauthorizedOperation"))))

  function Request(m: ResourceModel): HandlerRequest {
    HandlerRequest(m, None, None, None)
  }

  /** The outcomes of one invocation; the fields a handler does not use are
      filled with failures it never sees. */
  function Outcomes(precheck: DescribeOutcome, create: CreateOutcome, update: ModifyOutcome, cancel: CancelOutcome,
                    polls: seq<DescribeOutcome>, read: DescribeOutcome): (r: Remote)
    ensures r.polls == polls && r.read == read && r.precheck == precheck
  {
    Remote(precheck, create, update, cancel, polls, read, 1)
  }

  const Submitted := Created(CreateResponse(Some(Id), Some(FleetState.Submitted)))
  const NoCreate := CreateFailed(ClientFailure)
  const NoModify := ModifyFailed(ClientFailure)
  const NoCancel := CancelFailed(ClientFailure)
  const Cancelled := CancelAnswered(Some(CancelResponse(None, Some([Id]))))

  lemma UnauthorizedFailureIsUnauthorized()
    ensures IsUnauthorized(Sdk(UnauthorizedFailure))
  {
    EqualsIgnoreCaseEquivalence(UnauthorizedCode, UnauthorizedCode, UnauthorizedCode);
  }

  // ---------------------------------------------------------------------
  // Create
  // ---------------------------------------------------------------------

  /** SUBMITTED then ACTIVE: SUCCESS with the desired model after three
      describes (two callbacks and the read). */
  lemma CreateSucceedsAfterSubmitted()
    ensures var run := HandleCreate(Request(CreateModel), FreshContext,
                                    Outcomes(EmptyDescribe, Submitted, NoModify, NoCancel,
                                             [DescribedIn(FleetState.Submitted), DescribedIn(Active)], DescribedIn(Active)));
            && run.result == Returned(SuccessEvent(Some(CreateModel), None))
            && DescribeCount(run.calls) == 3
  {
    var polls := [DescribedIn(FleetState.Submitted), DescribedIn(Active)];
    var remote := Outcomes(EmptyDescribe, Submitted, NoModify, NoCancel, polls, DescribedIn(Active));
    var rr := TranslateToReadRequest(CreateModel);
    assert polls[1..] == [DescribedIn(Active)];
    var p := RunPolls(Provisioned, None, rr, polls);
    assert p.end == Converged && p.used == 2;
    ValidateSingleFleet(DescribedIn(Active).response.fleets.value[0]);
    CreateSucceedsOnlyWhenProvisioned(Request(CreateModel), FreshContext, remote);
    RunPollsDescribeCount(Provisioned, None, rr, polls);
    var run := HandleCreate(Request(CreateModel), FreshContext, remote);
    var read := HandleRead(Request(CreateModel), DescribedIn(Active));
    DescribeCountAppend([run.calls[0]], p.calls);
    DescribeCountAppend([run.calls[0]] + p.calls, read.calls);
  }

  /** A first describe with no fleet list is polled past, not failed on. */
  lemma CreateSucceedsAfterEmptyDescribe()
    ensures var run := HandleCreate(Request(CreateModel), FreshContext,
                                    Outcomes(EmptyDescribe, Submitted, NoModify, NoCancel,
                                             [EmptyDescribe, DescribedIn(Active)], DescribedIn(Active)));
            && run.result == Returned(SuccessEvent(Some(CreateModel), None))
            && DescribeCount(run.calls) == 3
  {
    var polls := [EmptyDescribe, DescribedIn(Active)];
    var remote := Outcomes(EmptyDescribe, Submitted, NoModify, NoCancel, polls, DescribedIn(Active));
    var rr := TranslateToReadRequest(CreateModel);
    assert polls[1..] == [DescribedIn(Active)];
    var p := RunPolls(Provisioned, None, rr, polls);
    assert p.end == Converged && p.used == 2;
    ValidateSingleFleet(DescribedIn(Active).response.fleets.value[0]);
    RunPollsDescribeCount(Provisioned, None, rr, polls);
    var run := HandleCreate(Request(CreateModel), FreshContext, remote);
    var read := HandleRead(Request(CreateModel), DescribedIn(Active));
    DescribeCountAppend([run.calls[0]], p.calls);
    DescribeCountAppend([run.calls[0]] + p.calls, read.calls);
  }

  /** A create call refused with a plain service exception is a
      GeneralServiceException, with no describe. */
  lemma CreateFailureIsGeneral()
    ensures var run := HandleCreate(Request(CreateModel), FreshContext,
                                    Outcomes(EmptyDescribe, CreateFailed(PlainServiceFailure), NoModify, NoCancel, [], EmptyDescribe));
            && ObservedError(run.result) == Some(GeneralServiceException)
            && DescribeCount(run.calls) == 0
  {
    var remote := Outcomes(EmptyDescribe, CreateFailed(PlainServiceFailure), NoModify, NoCancel, [], EmptyDescribe);
    CreateFailureMakesNoDescribe(Request(CreateModel), FreshContext, remote);
  }

  /** A describe refused as unauthorized during stabilization ends the
      create with InvalidRequest after one describe. */
  lemma CreateUnauthorizedIsInvalidRequest()
    ensures var run := HandleCreate(Request(CreateModel), FreshContext,
                                    Outcomes(EmptyDescribe, Submitted, NoModify, NoCancel,
                                             [DescribeFailed(UnauthorizedFailure)], EmptyDescribe));
            && ObservedError(run.result) == Some(InvalidRequest)
            && DescribeCount(run.calls) == 1
  {
    var polls := [DescribeFailed(UnauthorizedFailure)];
    var rr := TranslateToReadRequest(CreateModel);
    UnauthorizedFailureIsUnauthorized();
    UnauthorizedDescribeIsInvalidRequest(Provisioned, rr, polls);
    var run := HandleCreate(Request(CreateModel), FreshContext,
                            Outcomes(EmptyDescribe, Submitted, NoModify, NoCancel, polls, EmptyDescribe));
    DescribeCountAppend([run.calls[0]], [DescribeCall(rr.value)]);
  }

  // ---------------------------------------------------------------------
  // Update
  // ---------------------------------------------------------------------

  /** A modify the service answers with false is a ServiceInternalError. */
  lemma UpdateRejectedIsServiceInternalError()
    ensures ObservedError(HandleUpdate(Request(IdModel), FreshContext,
                                       Outcomes(DescribedIn(Active), NoCreate, Modified(ModifyResponse(Some(false))), NoCancel, [], EmptyDescribe)).result)
            == Some(ServiceInternalError)
  {
    ValidateSingleFleet(DescribedIn(Active).response.fleets.value[0]);
    RejectedModifyIsServiceInternalError(Request(IdModel), FreshContext,
      Outcomes(DescribedIn(Active), NoCreate, Modified(ModifyResponse(Some(false))), NoCancel, [], EmptyDescribe));
  }

  /** A modify call refused with a plain service exception is a
      GeneralServiceException. */
  lemma UpdateFailureIsGeneral()
    ensures ObservedError(HandleUpdate(Request(IdModel), FreshContext,
                                       Outcomes(DescribedIn(Active), NoCreate, ModifyFailed(PlainServiceFailure), NoCancel, [], EmptyDescribe)).result)
            == Some(GeneralServiceException)
  {
    ValidateSingleFleet(DescribedIn(Active).response.fleets.value[0]);
  }

  /** A describe refused as unauthorized during stabilization ends the
      update with InvalidRequest. */
  lemma UpdateUnauthorizedIsInvalidRequest()
    ensures ObservedError(HandleUpdate(Request(IdModel), FreshContext,
                                       Outcomes(DescribedIn(Active), NoCreate, Modified(ModifyResponse(Some(true))), NoCancel,
                                                [DescribeFailed(UnauthorizedFailure)], EmptyDescribe)).result)
            == Some(InvalidRequest)
  {
    ValidateSingleFleet(DescribedIn(Active).response.fleets.value[0]);
    UnauthorizedFailureIsUnauthorized();
    UnauthorizedDescribeIsInvalidRequest(Provisioned, TranslateToReadRequest(IdModel), [DescribeFailed(UnauthorizedFailure)]);
  }

  // ---------------------------------------------------------------------
  // Delete
  // ---------------------------------------------------------------------

  /** ACTIVE at the check, then CANCELLING, then CANCELLED: SUCCESS with no
      model after three describes. */
  lemma DeleteSucceedsAfterCancelling()
    ensures var run := HandleDelete(Request(IdModel), FreshContext,
                                    Outcomes(DescribedIn(Active), NoCreate, NoModify, Cancelled,
                                             [DescribedIn(Cancelling), DescribedIn(FleetState.Cancelled)], EmptyDescribe));
            && run.result == Returned(SuccessEvent(None, Some(FreshContext)))
            && DescribeCount(run.calls) == 3
  {
    var polls := [DescribedIn(Cancelling), DescribedIn(FleetState.Cancelled)];
    var rr := TranslateToReadRequest(IdModel);
    var guard := CancelGuard(Cancelled.response);
    assert guard.None?;
    ValidateSingleFleet(DescribedIn(Active).response.fleets.value[0]);
    assert polls[1..] == [DescribedIn(FleetState.Cancelled)];
    var p := RunPolls(Cancellation, guard, rr, polls);
    assert p.end == Converged && p.used == 2;
    RunPollsDescribeCount(Cancellation, guard, rr, polls);
    var c := CheckExists(IdModel, FreshContext, DescribedIn(Active));
    var cancel := [CancelCall(TranslateToDeleteRequest(IdModel))];
    DescribeCountAppend(c.calls, cancel);
    DescribeCountAppend(c.calls + cancel, p.calls);
  }

  /** ACTIVE at the check, then a describe with no fleet list, then
      CANCELLED: the empty answer is polled past and the delete succeeds
      after three describes. */
  lemma DeleteSucceedsAfterEmptyDescribe()
    ensures var run := HandleDelete(Request(IdModel), FreshContext,
                                    Outcomes(DescribedIn(Active), NoCreate, NoModify, Cancelled,
                                             [EmptyDescribe, DescribedIn(FleetState.Cancelled)], EmptyDescribe));
            && run.result == Returned(SuccessEvent(None, Some(FreshContext)))
            && DescribeCount(run.calls) == 3
  {
    var polls := [EmptyDescribe, DescribedIn(FleetState.Cancelled)];
    var rr := TranslateToReadRequest(IdModel);
    var guard := CancelGuard(Cancelled.response);
    assert guard.None?;
    ValidateSingleFleet(DescribedIn(Active).response.fleets.value[0]);
    assert polls[1..] == [DescribedIn(FleetState.Cancelled)];
    var p := RunPolls(Cancellation, guard, rr, polls);
    assert p.end == Converged && p.used == 2;
    RunPollsDescribeCount(Cancellation, guard, rr, polls);
    var c := CheckExists(IdModel, FreshContext, DescribedIn(Active));
    var cancel := [CancelCall(TranslateToDeleteRequest(IdModel))];
    DescribeCountAppend(c.calls, cancel);
    DescribeCountAppend(c.calls + cancel, p.calls);
  }

  /** A cancel response that lists a failed cancellation is a
      ServiceInternalError. */
  lemma DeleteFailedCancellationIsServiceInternalError()
    ensures ObservedError(HandleDelete(Request(IdModel), FreshContext,
                                       Outcomes(DescribedIn(Active), NoCreate, NoModify,
                                                CancelAnswered(Some(CancelResponse(Some([Id]), Some([Id])))),
                                                [EmptyDescribe], EmptyDescribe)).result)
            == Some(ServiceInternalError)
  {
    ValidateSingleFleet(DescribedIn(Active).response.fleets.value[0]);
    FailedCancellationIsServiceInternalError(Request(IdModel), FreshContext,
      Outcomes(DescribedIn(Active), NoCreate, NoModify, CancelAnswered(Some(CancelResponse(Some([Id]), Some([Id])))),
               [EmptyDescribe], EmptyDescribe));
  }

  /** A null cancel response throws NotStabilized. */
  lemma DeleteNullResponseRaisesNotStabilized()
    ensures HandleDelete(Request(IdModel), FreshContext,
                         Outcomes(DescribedIn(Active), NoCreate, NoModify, CancelAnswered(None),
                                  [EmptyDescribe], EmptyDescribe)).result
            == Raised(NotStabilized)
  {
    ValidateSingleFleet(DescribedIn(Active).response.fleets.value[0]);
    NullCancelResponseRaisesNotStabilized(Request(IdModel), FreshContext,
      Outcomes(DescribedIn(Active), NoCreate, NoModify, CancelAnswered(None), [EmptyDescribe], EmptyDescribe));
  }

  /** A describe refused as unauthorized during stabilization ends the
      delete with InvalidRequest after two describes. */
  lemma DeleteUnauthorizedIsInvalidRequest()
    ensures var run := HandleDelete(Request(IdModel), FreshContext,
                                    Outcomes(DescribedIn(Active), NoCreate, NoModify, Cancelled,
                                             [DescribeFailed(UnauthorizedFailure)], EmptyDescribe));
            && ObservedError(run.result) == Some(InvalidRequest)
            && DescribeCount(run.calls) == 2
  {
    var rr := TranslateToReadRequest(IdModel);
    ValidateSingleFleet(DescribedIn(Active).response.fleets.value[0]);
    UnauthorizedFailureIsUnauthorized();
    UnauthorizedDescribeIsInvalidRequest(Cancellation, rr, [DescribeFailed(UnauthorizedFailure)]);
    var c := CheckExists(IdModel, FreshContext, DescribedIn(Active));
    var cancel := [CancelCall(TranslateToDeleteRequest(IdModel))];
    DescribeCountAppend(c.calls, cancel);
    DescribeCountAppend(c.calls + cancel, [DescribeCall(rr.value)]);
  }

  // ---------------------------------------------------------------------
  // Read and list
  // ---------------------------------------------------------------------

  /** A describe refused with the missing-fleet code reads as NotFound; one
      refused with any other code as GeneralServiceException. */
  lemma ReadFailureCodes()
    ensures ObservedError(HandleRead(Request(IdModel),
              DescribeFailed(ServiceFailure(false, 0, Some(ErrorDetails(Some(InvalidFleetIdNotFound)))))).result) == Some(NotFound)
    ensures ObservedError(HandleRead(Request(IdModel),
              DescribeFailed(ServiceFailure(false, 0, Some(ErrorDetails(Some("GeneralServiceException")))))).result) == Some(GeneralServiceException)
  {
    EqualsIgnoreCaseEquivalence(InvalidFleetIdNotFound, InvalidFleetIdNotFound, InvalidFleetIdNotFound);
  }

  /** Two ACTIVE fleets list as their two ids, in order. */
  lemma ListTwoActiveFleets()
    ensures var f1 := Fleet(Some("crf-1"), Some(Active), None, None, "", None, None, [], []);
            var f2 := Fleet(Some("crf-2"), Some(Active), None, None, "", None, None, [], []);
            HandleList(Request(IdOnly(None)), Described(DescribeResponse(Some([f1, f2]), None))).result.event.models ==
              Some([IdOnly(Some("crf-1")), IdOnly(Some("crf-2"))])
  {
    var f1 := Fleet(Some("crf-1"), Some(Active), None, None, "", None, None, [], []);
    var f2 := Fleet(Some("crf-2"), Some(Active), None, None, "", None, None, [], []);
    ListedModelsAppend([f1], [f2]);
    assert [f1] + [f2] == [f1, f2];
    ListedModelsSingleton(f1);
    ListedModelsSingleton(f2);
    var resp := DescribeResponse(Some([f1, f2]), None);
    assert TranslateFromListResponse(resp) == [IdOnly(Some("crf-1")), IdOnly(Some("crf-2"))];
  }

  /** Validation looks at the first fleet that does not pass: SUBMITTED
      before FAILED is NotStabilized, FAILED before SUBMITTED is NotFound. */
  lemma ValidationOrderMatters()
    ensures var a := DescribedIn(FleetState.Submitted).response.fleets.value[0];
            var b := DescribedIn(Failed).response.fleets.value[0];
            && ValidateReadResponse(Some([a, b])) == Invalid(NotStabilized)
            && ValidateReadResponse(Some([b, a])) == Invalid(NotFound)
  {
  }
}
