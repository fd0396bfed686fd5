/** Translator.java: request construction, translation of describe and list
    responses into resource models, the describe validator, and the
    classification of failures into handler error codes. */
module Translator {
  import opened Results
  import opened Strings
  import opened Resource
  import opened Ec2
  import opened Progress

  const CrFleetTagResourceType := "capacity-reservation-fleet"
  const InvalidFleetIdNotFound := "InvalidCapacityReservationFleetId.NotFound"
  const InvalidFleetIdMalformed := "InvalidCapacityReservationFleetId.Malformed"
  const InvalidFleetStateTransition := "InvalidCapacityReservationFleetStateTransition"
  const UnauthorizedCode := "UnauthorizedOperation"

  // ---------------------------------------------------------------------
  // Failure classification
  // ---------------------------------------------------------------------

  /** The error details carry a non-null error code equal to `code`, ignoring case. */
  predicate HasErrorCode(details: Option<ErrorDetails>, code: string) {
    details.Some? && details.value.errorCode.Some? && EqualsIgnoreCase(details.value.errorCode.value, code)
  }

  /** The error code says the fleet id is malformed or unknown. */
  predicate HasMissingFleetCode(details: Option<ErrorDetails>) {
    HasErrorCode(details, InvalidFleetIdMalformed) || HasErrorCode(details, InvalidFleetIdNotFound)
  }

  /** `translateServiceExceptionToFailure`, with a null error code read as
      matching none of the known codes. The checks run in a fixed order and
      the first that holds decides. */
  function ClassifyServiceFailure(throttling: bool, statusCode: int, details: Option<ErrorDetails>): (code: ErrorCode)
    ensures code == Throttling <==> throttling
    ensures code == ServiceInternalError <==> !throttling && 500 <= statusCode
    ensures code == NotFound <==> !throttling && statusCode < 500 && HasMissingFleetCode(details)
    ensures code == NotStabilized <==>
              && !throttling && statusCode < 500 && !HasMissingFleetCode(details)
              && HasErrorCode(details, InvalidFleetStateTransition)
    ensures code == InvalidRequest <==>
              && !throttling && statusCode < 500 && !HasMissingFleetCode(details)
              && !HasErrorCode(details, InvalidFleetStateTransition)
              && HasErrorCode(details, UnauthorizedCode)
    ensures details.None? ==> code in {Throttling, ServiceInternalError, GeneralServiceException}
  {
    if throttling then Throttling
    else if 500 <= statusCode then ServiceInternalError
    else if HasMissingFleetCode(details) then NotFound
    else if HasErrorCode(details, InvalidFleetStateTransition) then NotStabilized
    else if HasErrorCode(details, UnauthorizedCode) then InvalidRequest
    else GeneralServiceException
  }

  /** `translateServiceExceptionToFailure` exactly as written: it calls
      `equalsIgnoreCase` on the error code without checking it for null, so
      a failure with error details but no error code (below status 500, not
      throttled) throws a NullPointerException, modelled as `None`. */
  function ClassifyServiceFailureAsWritten(throttling: bool, statusCode: int, details: Option<ErrorDetails>): Option<ErrorCode>
  {
    if throttling then Some(Throttling)
    else if 500 <= statusCode then Some(ServiceInternalError)
    else if details.Some? then
      if details.value.errorCode.None? then None
      else
        var c := details.value.errorCode.value;
        if EqualsIgnoreCase(c, InvalidFleetIdMalformed) || EqualsIgnoreCase(c, InvalidFleetIdNotFound) then Some(NotFound)
        else if EqualsIgnoreCase(c, InvalidFleetStateTransition) then Some(NotStabilized)
        else if EqualsIgnoreCase(c, UnauthorizedCode) then Some(InvalidRequest)
        else Some(GeneralServiceException)
    else Some(GeneralServiceException)
  }

  /** The as-written classifier fails on a 400 failure whose details carry
      no error code; the corrected one reports GeneralServiceException. */
  lemma AsWrittenDereferencesNullErrorCode()
    ensures ClassifyServiceFailureAsWritten(false, 400, Some(ErrorDetails(None))).None?
    ensures ClassifyServiceFailure(false, 400, Some(ErrorDetails(None))) == GeneralServiceException
  {
  }

  /** The correction changes nothing but the null-code case: wherever the
      as-written classifier returns, both agree, and it fails exactly when
      the details are present without a code. */
  lemma CorrectedClassifierExtendsAsWritten(throttling: bool, statusCode: int, details: Option<ErrorDetails>)
    ensures ClassifyServiceFailureAsWritten(throttling, statusCode, details).Some? ==>
              ClassifyServiceFailureAsWritten(throttling, statusCode, details).value
              == ClassifyServiceFailure(throttling, statusCode, details)
    ensures ClassifyServiceFailureAsWritten(throttling, statusCode, details).None? <==>
              !throttling && statusCode < 500 && details.Some? && details.value.errorCode.None?
  {
  }

  /** The classification depends on the error code only up to case. */
  lemma ClassificationIgnoresCase(throttling: bool, statusCode: int, c1: string, c2: string)
    requires EqualsIgnoreCase(c1, c2)
    ensures ClassifyServiceFailure(throttling, statusCode, Some(ErrorDetails(Some(c1))))
         == ClassifyServiceFailure(throttling, statusCode, Some(ErrorDetails(Some(c2))))
  {
    EqualsIgnoreCaseEquivalence(c1, c2, InvalidFleetIdMalformed);
    EqualsIgnoreCaseEquivalence(c2, c1, InvalidFleetIdMalformed);
    EqualsIgnoreCaseEquivalence(c1, c2, InvalidFleetIdNotFound);
    EqualsIgnoreCaseEquivalence(c2, c1, InvalidFleetIdNotFound);
    EqualsIgnoreCaseEquivalence(c1, c2, InvalidFleetStateTransition);
    EqualsIgnoreCaseEquivalence(c2, c1, InvalidFleetStateTransition);
    EqualsIgnoreCaseEquivalence(c1, c2, UnauthorizedCode);
    EqualsIgnoreCaseEquivalence(c2, c1, UnauthorizedCode);
  }

  /** `translateSdkExceptionToFailure`: service failures go through the
      table above, any other SDK failure is a GeneralServiceException. */
  function ClassifySdkFailure(f: SdkFailure): (code: ErrorCode)
    ensures f.ServiceFailure? ==> code == ClassifyServiceFailure(f.throttling, f.statusCode, f.details)
    ensures f.ClientFailure? ==> code == GeneralServiceException
  {
    match f
    case ServiceFailure(t, s, d) => ClassifyServiceFailure(t, s, d)
    case ClientFailure => GeneralServiceException
  }

  /** `translateToFailure`: every exception becomes a FAILED event with no
      model; an exception that is not an SDK failure is a ServiceInternalError. */
  function TranslateToFailure(e: Exception): (ev: ProgressEvent)
    ensures ev.status == Failure && ev.model.None? && ev.models.None?
    ensures e.Sdk? ==> ev.errorCode == Some(ClassifySdkFailure(e.failure))
    ensures !e.Sdk? ==> ev.errorCode == Some(ServiceInternalError)
  {
    match e
    case Sdk(f) => FailureEvent(ClassifySdkFailure(f))
    case _ => FailureEvent(ServiceInternalError)
  }

  // ---------------------------------------------------------------------
  // Describe validation
  // ---------------------------------------------------------------------

  /** FAILED, CANCELLED and EXPIRED: the fleet is gone and reads as not found. */
  predicate IsGone(s: Option<FleetState>) {
    s == Some(Failed) || s == Some(Cancelled) || s == Some(Expired)
  }

  /** SUBMITTED, CANCELLING, EXPIRING and MODIFYING: the fleet is moving
      between states and is not yet stable. */
  predicate IsTransitioning(s: Option<FleetState>) {
    s == Some(Submitted) || s == Some(Cancelling) || s == Some(Expiring) || s == Some(Modifying)
  }

  /** Any other state (ACTIVE, PARTIALLY_FULFILLED, a state newer than the
      SDK, or none) passes validation. */
  predicate IsUsable(f: Fleet) {
    !IsGone(f.state) && !IsTransitioning(f.state)
  }

  /** Index `i` holds the first fleet in list order that does not pass. */
  predicate FirstUnusableAt(fleets: seq<Fleet>, i: int) {
    0 <= i < |fleets| && !IsUsable(fleets[i]) && forall j :: 0 <= j < i ==> IsUsable(fleets[j])
  }

  /** What `validateReadResponse` decides: return normally, or throw the
      exception carrying `code`. */
  datatype Validation = Valid | Invalid(code: ErrorCode)

  /** The per-fleet loop of `validateReadResponse`: the first fleet that does
      not pass throws. */
  function ScanFleets(fleets: seq<Fleet>): (v: Validation)
    ensures v.Valid? <==> forall i :: 0 <= i < |fleets| ==> IsUsable(fleets[i])
    ensures v.Valid? || v == Invalid(NotFound) || v == Invalid(NotStabilized)
  {
    if |fleets| == 0 then Valid
    else if IsGone(fleets[0].state) then Invalid(NotFound)
    else if IsTransitioning(fleets[0].state) then Invalid(NotStabilized)
    else ScanFleets(fleets[1..])
  }

  /** Once index `i` holds the first fleet that does not pass, the scan
      rejects with NotFound when that fleet is gone and with NotStabilized
      when it is transitioning: later fleets never matter. */
  lemma {:induction false} ScanFleetsRejection(fleets: seq<Fleet>, i: int)
    requires FirstUnusableAt(fleets, i)
    ensures IsGone(fleets[i].state) ==> ScanFleets(fleets) == Invalid(NotFound)
    ensures IsTransitioning(fleets[i].state) ==> ScanFleets(fleets) == Invalid(NotStabilized)
  {
    if i > 0 {
      var rest := fleets[1..];
      forall j | 0 <= j < i - 1 ensures IsUsable(rest[j]) {
        assert rest[j] == fleets[j + 1];
      }
      assert rest[i - 1] == fleets[i];
      ScanFleetsRejection(rest, i - 1);
    }
  }

  /** `validateReadResponse` over the fleet list of a response; `None` covers
      both a null response and a response without a list. */
  function ValidateReadResponse(fleets: Option<seq<Fleet>>): (v: Validation)
    ensures fleets.None? || |fleets.value| == 0 ==> v == Invalid(ServiceInternalError)
    ensures v.Valid? <==>
              fleets.Some? && |fleets.value| > 0 && forall i :: 0 <= i < |fleets.value| ==> IsUsable(fleets.value[i])
    ensures v.Invalid? ==> v.code in {ServiceInternalError, NotFound, NotStabilized}
  {
    if fleets.None? || |fleets.value| == 0 then Invalid(ServiceInternalError)
    else ScanFleets(fleets.value)
  }

  /** For a single fleet, validation is the state classifier: gone states
      read as not found, transitional ones as not stabilized, the rest pass. */
  lemma ValidateSingleFleet(f: Fleet)
    ensures IsGone(f.state) ==> ValidateReadResponse(Some([f])) == Invalid(NotFound)
    ensures IsTransitioning(f.state) ==> ValidateReadResponse(Some([f])) == Invalid(NotStabilized)
    ensures IsUsable(f) ==> ValidateReadResponse(Some([f])) == Valid
  {
  }

  /** `translateToResourceFoundProgress`: a response that passes validation
      continues the chain with the same model and context; any other yields
      FAILED with exactly the validator's error code. */
  function TranslateToResourceFoundProgress(response: DescribeResponse, context: CallbackContext, model: ResourceModel): (ev: ProgressEvent)
    ensures Continues(ev) <==> ValidateReadResponse(response.fleets).Valid?
    ensures Continues(ev) ==> ev.model == Some(model) && ev.context == Some(context) && ev.errorCode.None?
    ensures !Continues(ev) ==>
              ev.status == Failure && ev.model.None? &&
              ev.errorCode == Some(ValidateReadResponse(response.fleets).code)
  {
    match ValidateReadResponse(response.fleets)
    case Valid => InProgressEvent(context, 0, model)
    case Invalid(code) => FailureEvent(code)
  }

  // ---------------------------------------------------------------------
  // Requests
  // ---------------------------------------------------------------------

  /** `translateToReadRequest`: a model without a fleet id throws
      `CfnNotFoundException`; otherwise the request names exactly that id. */
  function TranslateToReadRequest(model: ResourceModel): (r: Result<DescribeRequest, ErrorCode>)
    ensures r.Err? <==> model.fleetId.None?
    ensures r.Err? ==> r.error == NotFound
    ensures r.Ok? ==> r.value.fleetIds == [model.fleetId.value] && r.value.nextToken.None?
  {
    if model.fleetId.None? then Err(NotFound)
    else Ok(DescribeRequest([model.fleetId.value], None))
  }

  /** `translateToDeleteRequest`: cancel exactly the model's fleet id. */
  function TranslateToDeleteRequest(model: ResourceModel): (r: CancelRequest)
    ensures |r.fleetIds| == 1 && r.fleetIds[0] == model.fleetId
  {
    CancelRequest([model.fleetId])
  }

  /** `translateToListRequest`: one page of all fleets from the caller's token. */
  function TranslateToListRequest(nextToken: Option<string>): (r: DescribeRequest)
    ensures r.nextToken == nextToken && r.fleetIds == []
  {
    DescribeRequest([], nextToken)
  }

  /** `translateToUpdateRequest`. NoRemoveEndDate and RemoveEndDate count as
      given when non-null, whatever their value: giving both throws
      `CfnInvalidRequestException`; otherwise RemoveEndDate is copied, and
      only without it a non-blank EndDate is sent, and then only when
      NoRemoveEndDate is given. */
  function TranslateToUpdateRequest(model: ResourceModel): (r: Result<ModifyRequest, ErrorCode>)
    ensures r.Err? <==> model.noRemoveEndDate.Some? && model.removeEndDate.Some?
    ensures r.Err? ==> r.error == InvalidRequest
    ensures r.Ok? ==> r.value.fleetId == model.fleetId
    ensures r.Ok? ==> r.value.totalTargetCapacity == model.totalTargetCapacity
    ensures r.Ok? ==> r.value.removeEndDate == model.removeEndDate
    ensures r.Ok? ==>
              (r.value.endDate.Some? <==>
                 model.removeEndDate.None? && model.noRemoveEndDate.Some? && !IsBlank(model.endDate))
    ensures r.Ok? && r.value.endDate.Some? ==> r.value.endDate == model.endDate
  {
    var base := ModifyRequest(model.fleetId, model.totalTargetCapacity, None, None);
    if model.noRemoveEndDate.Some? && model.removeEndDate.Some? then Err(InvalidRequest)
    else if model.removeEndDate.Some? then Ok(base.(removeEndDate := model.removeEndDate))
    else if model.noRemoveEndDate.Some? && !IsBlank(model.endDate) then Ok(base.(endDate := model.endDate))
    else Ok(base)
  }

  /** A modify request never both removes the end date and sets a new one. */
  lemma UpdateRequestEndDateExclusive(model: ResourceModel)
    ensures TranslateToUpdateRequest(model).Ok? ==>
              !(TranslateToUpdateRequest(model).value.removeEndDate.Some? &&
                TranslateToUpdateRequest(model).value.endDate.Some?)
  {
  }

  // ---------------------------------------------------------------------
  // Tags
  // ---------------------------------------------------------------------

  /** The stack-level tags followed by the system tags. */
  function EnvironmentTags(request: HandlerRequest): seq<Tag> {
    OrEmpty(request.stackTags) + OrEmpty(request.systemTags)
  }

  /** `getTags`: one leading `capacity-reservation-fleet` group holding the
      stack and system tags, present only when there are any, then the
      model's own tag groups in their order. */
  function GetTags(request: HandlerRequest, model: ResourceModel): (specs: seq<TagSpecification>)
    ensures |EnvironmentTags(request)| > 0 ==>
              |specs| >= 1 &&
              specs[0] == TagSpecification(Some(CrFleetTagResourceType), EnvironmentTags(request)) &&
              specs[1..] == OrEmpty(model.tagSpecifications)
    ensures |EnvironmentTags(request)| == 0 ==> specs == OrEmpty(model.tagSpecifications)
  {
    var env := EnvironmentTags(request);
    var lead := if |env| == 0 then [] else [TagSpecification(Some(CrFleetTagResourceType), env)];
    lead + OrEmpty(model.tagSpecifications)
  }

  /** Every tag of a list of tag groups, group by group. */
  function AllTags(specs: seq<TagSpecification>): seq<Tag> {
    if |specs| == 0 then [] else specs[0].tags + AllTags(specs[1..])
  }

  lemma {:induction false} AllTagsAppend(a: seq<TagSpecification>, b: seq<TagSpecification>)
    ensures AllTags(a + b) == AllTags(a) + AllTags(b)
  {
    if |a| == 0 {
      assert a + b == b;
    } else {
      assert (a + b)[1..] == a[1..] + b;
      AllTagsAppend(a[1..], b);
    }
  }

  /** No tag is lost or reordered: the tags of the create request are the
      stack tags, then the system tags, then the model's tags group by group. */
  lemma GetTagsKeepsEveryTag(request: HandlerRequest, model: ResourceModel)
    ensures AllTags(GetTags(request, model)) ==
              EnvironmentTags(request) + AllTags(OrEmpty(model.tagSpecifications))
  {
    var env := EnvironmentTags(request);
    var user := OrEmpty(model.tagSpecifications);
    if |env| == 0 {
      assert GetTags(request, model) == user;
    } else {
      var lead := [TagSpecification(Some(CrFleetTagResourceType), env)];
      assert GetTags(request, model) == lead + user;
      AllTagsAppend(lead, user);
      assert AllTags(lead) == env + AllTags([]);
    }
  }

  /** `translateToCreateRequest`. The instance-type specifications are a
      required property: a model without them makes the source dereference null. */
  function TranslateToCreateRequest(model: ResourceModel, request: HandlerRequest): (r: CreateRequest)
    requires model.instanceTypeSpecifications.Some?
    ensures r.tagSpecifications.None? <==> |GetTags(request, model)| == 0
    ensures r.tagSpecifications.Some? ==> r.tagSpecifications.value == GetTags(request, model)
    ensures r.endDate.None? <==> IsBlank(model.endDate)
    ensures r.endDate.Some? ==> r.endDate == model.endDate
    ensures r.instanceTypeSpecifications == model.instanceTypeSpecifications.value
    ensures r.allocationStrategy == model.allocationStrategy && r.tenancy == model.tenancy
    ensures r.instanceMatchCriteria == model.instanceMatchCriteria
    ensures r.totalTargetCapacity == model.totalTargetCapacity
  {
    var tags := GetTags(request, model);
    CreateRequest(
      model.allocationStrategy,
      if IsBlank(model.endDate) then None else model.endDate,
      model.instanceMatchCriteria,
      model.tenancy,
      model.totalTargetCapacity,
      model.instanceTypeSpecifications.value,
      if |tags| > 0 then Some(tags) else None)
  }

  /** The create request carries no tag groups exactly when there are no
      stack or system tags and the model has no tag group. */
  lemma CreateRequestOmitsOnlyEmptyTags(model: ResourceModel, request: HandlerRequest)
    requires model.instanceTypeSpecifications.Some?
    ensures TranslateToCreateRequest(model, request).tagSpecifications.None? <==>
              |EnvironmentTags(request)| == 0 &&
              (model.tagSpecifications.None? || |model.tagSpecifications.value| == 0)
  {
  }

  // ---------------------------------------------------------------------
  // Read and list translation
  // ---------------------------------------------------------------------

  /** The tag groups of a read result: the desired state's groups when it has
      any list at all, else one `capacity-reservation-fleet` group of the
      described tags when there are some; an empty list is reported as null. */
  function ReadTagSpecifications(desired: Option<seq<TagSpecification>>, fleetTags: seq<Tag>): (r: Option<seq<TagSpecification>>)
    ensures r.Some? ==> |r.value| > 0
    ensures desired.Some? ==> r == (if |desired.value| == 0 then None else desired)
    ensures desired.None? && |fleetTags| > 0 ==>
              r == Some([TagSpecification(Some(CrFleetTagResourceType), fleetTags)])
    ensures desired.None? && |fleetTags| == 0 ==> r.None?
  {
    var chosen :=
      if desired.Some? then desired.value
      else if |fleetTags| > 0 then [TagSpecification(Some(CrFleetTagResourceType), fleetTags)]
      else [];
    if |chosen| == 0 then None else Some(chosen)
  }

  /** `translateFromReadResponse`: with no desired state, ServiceInternalError;
      otherwise the describe result must pass validation, and the model is
      built from its first fleet. The update-only end-date flags are not
      part of a read. */
  function TranslateFromReadResponse(response: DescribeResponse, desired: Option<ResourceModel>): (r: Result<ResourceModel, ErrorCode>)
    ensures desired.None? ==> r == Err(ServiceInternalError)
    ensures desired.Some? ==> (r.Ok? <==> ValidateReadResponse(response.fleets).Valid?)
    ensures desired.Some? && r.Err? ==> r.error == ValidateReadResponse(response.fleets).code
    ensures r.Ok? ==>
              var f := response.fleets.value[0];
              && r.value.fleetId == f.fleetId
              && r.value.allocationStrategy == f.allocationStrategy
              && r.value.tenancy == f.tenancy
              && r.value.instanceMatchCriteria == Some(f.instanceMatchCriteria)
              && r.value.totalTargetCapacity == f.totalTargetCapacity
              && r.value.endDate == f.endDate
              && r.value.instanceTypeSpecifications == Some(f.instanceTypeSpecifications)
              && r.value.tagSpecifications == ReadTagSpecifications(desired.value.tagSpecifications, f.tags)
              && r.value.removeEndDate.None? && r.value.noRemoveEndDate.None?
  {
    if desired.None? then Err(ServiceInternalError)
    else
      match ValidateReadResponse(response.fleets)
      case Invalid(code) => Err(code)
      case Valid =>
        var f := response.fleets.value[0];
        Ok(ResourceModel(
          f.fleetId, f.allocationStrategy, f.tenancy, Some(f.instanceMatchCriteria),
          f.totalTargetCapacity, f.endDate, None, None,
          Some(f.instanceTypeSpecifications),
          ReadTagSpecifications(desired.value.tagSpecifications, f.tags)))
  }

  /** A desired state with tag groups decides the read result's tags,
      whatever tags the fleet reports. */
  lemma ReadPrefersDesiredTags(response: DescribeResponse, desired: ResourceModel)
    requires desired.tagSpecifications.Some? && |desired.tagSpecifications.value| > 0
    ensures TranslateFromReadResponse(response, Some(desired)).Ok? ==>
              TranslateFromReadResponse(response, Some(desired)).value.tagSpecifications == desired.tagSpecifications
  {
  }

  /** ACTIVE, PARTIALLY_FULFILLED and FAILED fleets are listed; a fleet with
      no state is not. */
  predicate IsListable(f: Fleet) {
    f.state == Some(Active) || f.state == Some(PartiallyFulfilled) || f.state == Some(Failed)
  }

  /** The filter and map of `translateFromListRequest`. */
  function ListedModels(fleets: seq<Fleet>): (models: seq<ResourceModel>)
    ensures |models| <= |fleets|
    ensures forall i :: 0 <= i < |models| ==> IsIdOnly(models[i])
    ensures forall m :: m in models <==> exists f :: f in fleets && IsListable(f) && m == IdOnly(f.fleetId)
  {
    if |fleets| == 0 then []
    else
      var rest := ListedModels(fleets[1..]);
      assert forall f :: f in fleets[1..] ==> f in fleets;
      assert forall f :: f in fleets ==> f == fleets[0] || f in fleets[1..];
      if IsListable(fleets[0]) then [IdOnly(fleets[0].fleetId)] + rest else rest
  }

  /** `translateFromListRequest`: a response without a fleet list yields no models. */
  function TranslateFromListResponse(response: DescribeResponse): (models: seq<ResourceModel>)
    ensures response.fleets.None? ==> models == []
    ensures response.fleets.Some? ==> models == ListedModels(response.fleets.value)
  {
    ListedModels(OrEmpty(response.fleets))
  }

  /** Listing distributes over concatenation: the output keeps the input order. */
  lemma {:induction false} ListedModelsAppend(a: seq<Fleet>, b: seq<Fleet>)
    ensures ListedModels(a + b) == ListedModels(a) + ListedModels(b)
  {
    if |a| == 0 {
      assert a + b == b;
    } else {
      assert (a + b)[0] == a[0];
      assert (a + b)[1..] == a[1..] + b;
      ListedModelsAppend(a[1..], b);
    }
  }

  /** A single fleet is listed as its id alone exactly when its state is listable. */
  lemma ListedModelsSingleton(f: Fleet)
    ensures ListedModels([f]) == (if IsListable(f) then [IdOnly(f.fleetId)] else [])
  {
  }
}
