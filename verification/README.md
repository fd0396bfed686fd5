# AWS::EC2::CapacityReservationFleet resource handler, modelled in Dafny

This project models the CloudFormation resource provider for
`AWS::EC2::CapacityReservationFleet`. The provider turns CloudFormation's
create, read, update, delete and list requests into EC2 calls:
CreateCapacityReservationFleet, DescribeCapacityReservationFleets,
ModifyCapacityReservationFleet and CancelCapacityReservationFleets. It
answers each request with a progress event: SUCCESS, FAILED with a
handler error code, or IN_PROGRESS with a callback delay.

The model is pure functions over immutable data. A handler invocation is a
function from the request, the callback context and the outcomes of the
remote calls (`BaseHandler.Remote`) to a `Progress.Run`. A run is the
way the invocation ended plus the log of calls it made, in order.

- `Returned(event)` is an event the handler returned.
- `Raised(code)` is a CloudFormation exception that escaped the handler.
  The wrapper reports it as FAILED with that code.

Modules, in dependency order:

- `Results` holds `Option`, `Result` and the null-as-empty helper.
- `Strings` holds Java's `equalsIgnoreCase` and `StringUtils.isBlank`.
- `Resource` holds the resource model, tags, the callback context and the handler request.
- `Ec2` holds the EC2 requests, responses and fleet states, SDK failures, and the call log.
- `Progress` holds error codes, progress events, and how an invocation ends.
- `Translator` covers Translator.java: failure classification, describe validation, request builders, read and list translation, tags.
- `BaseHandler` covers BaseHandlerStd.java, plus the existence check that update and delete share.
- `Stabilize` holds the stabilize callbacks and their repetition by the framework.
- `ReadHandler`, `ListHandler`, `CreateHandler`, `UpdateHandler`, `DeleteHandler` and `Entry` model the handlers and the dispatch to them.
- `Scenarios` states the behaviours that the repository's handler tests check, over the tests' fixtures.

Framework behaviour the handlers rely on is modelled as follows. The
framework's source is not part of this model.

- `ProgressEvent.then` runs the next stage only for an event that is
  IN_PROGRESS with callback delay 0.
- An exception thrown inside a call chain ends the handler. A
  CloudFormation exception (`CfnNotFoundException` and the like)
  escapes with its own code. Any other exception reaches the chain's
  `handleError`, which here is always `translateToFailure`.
- The stabilize callback is called again while it answers false. Each
  call consumes one describe outcome from `Remote.polls`. When the
  outcomes run out, the framework hands control back with an IN_PROGRESS
  event carrying the model, the context and a positive delay. An empty
  `polls` means the time budget ran out before the first callback.

Behaviour of the code that the model keeps, although the handlers'
comments or a reader might expect otherwise:

- During stabilization, a describe response with no fleet list means
  "not yet": the callback polls again. A response with an empty list
  makes `get(0)` throw. That is a runtime exception, reported as
  ServiceInternalError.
- The existence check of update and delete fails the request whatever
  validation rejects. A fleet that is FAILED, CANCELLED or EXPIRED gives
  NotFound, and delete does not treat that as already done.
- A model without a fleet id makes `translateToReadRequest` throw
  `CfnNotFoundException`. In create this happens in the first
  stabilize callback, when the create response carried no id.
- Validation walks the fleet list in order. The first fleet that is gone
  or transitioning decides between NotFound and NotStabilized.
- The handlers call `translateToResourceFoundProgress` with a fifth
  argument and `translateFromReadResponse` with a fourth, but
  Translator.java defines only the four- and three-argument versions.
  CreateHandler.java (line 53) calls `translateToReadRequest` with the
  model alone, but Translator.java (line 95) defines only the version
  that also takes a logger. The model uses the versions that are defined.

## Model

| member | source | states |
|---|---|---|
| Results.OrEmpty | aws-ec2-capacityreservationfleet/src/main/java/software/amazon/ec2/capacityreservationfleet/Translator.java:346-350 | A null collection reads as empty; a present one is kept unchanged |
| Strings.EqualsIgnoreCaseIffLowered | aws-ec2-capacityreservationfleet/src/main/java/software/amazon/ec2/capacityreservationfleet/Translator.java:318-322 | Two codes compare equal ignoring case exactly when their lower-cased forms are equal |
| Strings.EqualsIgnoreCaseEquivalence | aws-ec2-capacityreservationfleet/src/main/java/software/amazon/ec2/capacityreservationfleet/Translator.java:318-322 | Comparing codes ignoring case is reflexive, symmetric and transitive |
| Strings.IsBlank | aws-ec2-capacityreservationfleet/src/main/java/software/amazon/ec2/capacityreservationfleet/Translator.java:217 | `StringUtils.isBlank`: null and empty are blank; a string starting or ending with a non-whitespace character is not (whitespace as Java's `Character.isWhitespace`) |
| Strings.BlankConcat | aws-ec2-capacityreservationfleet/src/main/java/software/amazon/ec2/capacityreservationfleet/Translator.java:217 | A concatenation is blank exactly when both parts are |
| Resource.IdOnly | aws-ec2-capacityreservationfleet/src/main/java/software/amazon/ec2/capacityreservationfleet/Translator.java:248-250 | A listed model carries the fleet id and no other property |
| Translator.ClassifyServiceFailure | aws-ec2-capacityreservationfleet/src/main/java/software/amazon/ec2/capacityreservationfleet/Translator.java:311-328 | Throttling first, then status 500 or above is ServiceInternalError, then a malformed or unknown fleet id code is NotFound, a bad state transition is NotStabilized, an unauthorized code is InvalidRequest, and anything else is GeneralServiceException; each code holds exactly under its condition |
| Translator.AsWrittenDereferencesNullErrorCode | aws-ec2-capacityreservationfleet/src/main/java/software/amazon/ec2/capacityreservationfleet/Translator.java:316-318 | A status-400 failure whose details have no error code makes the classifier as written throw; the corrected classifier gives GeneralServiceException |
| Translator.CorrectedClassifierExtendsAsWritten | aws-ec2-capacityreservationfleet/src/main/java/software/amazon/ec2/capacityreservationfleet/Translator.java:311-328 | Wherever the classifier as written returns, the corrected one agrees; it throws exactly on details without a code, unthrottled, below status 500 |
| Translator.ClassificationIgnoresCase | aws-ec2-capacityreservationfleet/src/main/java/software/amazon/ec2/capacityreservationfleet/Translator.java:318-322 | Error codes that differ only in case classify alike |
| Translator.ClassifySdkFailure | aws-ec2-capacityreservationfleet/src/main/java/software/amazon/ec2/capacityreservationfleet/Translator.java:330-336 | Service failures go through the classifier; other SDK failures are GeneralServiceException |
| Translator.TranslateToFailure | aws-ec2-capacityreservationfleet/src/main/java/software/amazon/ec2/capacityreservationfleet/Translator.java:338-344 | Every exception gives FAILED with no model; SDK failures take their classified code, anything else ServiceInternalError |
| Translator.ScanFleets | aws-ec2-capacityreservationfleet/src/main/java/software/amazon/ec2/capacityreservationfleet/Translator.java:375-391 | The scan passes exactly when every fleet is usable, and rejects only with NotFound or NotStabilized |
| Translator.ScanFleetsRejection | aws-ec2-capacityreservationfleet/src/main/java/software/amazon/ec2/capacityreservationfleet/Translator.java:375-391 | Given the index of the first fleet that does not pass, the rejection is NotFound when that fleet is FAILED, CANCELLED or EXPIRED and NotStabilized when it is SUBMITTED, CANCELLING, EXPIRING or MODIFYING, whatever follows it; with `ScanFleets` (valid exactly when every fleet passes) this decides the outcome for every list |
| Translator.ValidateReadResponse | aws-ec2-capacityreservationfleet/src/main/java/software/amazon/ec2/capacityreservationfleet/Translator.java:361-394 | A missing or empty fleet list is ServiceInternalError; otherwise the response is valid exactly when all fleets are usable |
| Translator.ValidateSingleFleet | aws-ec2-capacityreservationfleet/src/main/java/software/amazon/ec2/capacityreservationfleet/Translator.java:377-390 | For one fleet, gone states give NotFound, transitional states give NotStabilized, the rest pass |
| Translator.TranslateToResourceFoundProgress | aws-ec2-capacityreservationfleet/src/main/java/software/amazon/ec2/capacityreservationfleet/Translator.java:168-179 | The chain continues, with the same model and context, exactly when validation passes; otherwise FAILED with the validator's code |
| Translator.TranslateToReadRequest | aws-ec2-capacityreservationfleet/src/main/java/software/amazon/ec2/capacityreservationfleet/Translator.java:95-105 | No fleet id means NotFound; otherwise the request names exactly that id |
| Translator.TranslateToDeleteRequest | aws-ec2-capacityreservationfleet/src/main/java/software/amazon/ec2/capacityreservationfleet/Translator.java:187-190 | The cancel request names exactly the model's id, null included |
| Translator.TranslateToListRequest | aws-ec2-capacityreservationfleet/src/main/java/software/amazon/ec2/capacityreservationfleet/Translator.java:230-232 | The list request names no ids and carries the caller's token |
| Translator.TranslateToUpdateRequest | aws-ec2-capacityreservationfleet/src/main/java/software/amazon/ec2/capacityreservationfleet/Translator.java:203-222 | Both end-date flags present is InvalidRequest; otherwise id and capacity are copied, RemoveEndDate is copied, and an end date is sent exactly when RemoveEndDate is absent, NoRemoveEndDate present and EndDate not blank |
| Translator.UpdateRequestEndDateExclusive | aws-ec2-capacityreservationfleet/src/main/java/software/amazon/ec2/capacityreservationfleet/Translator.java:212-219 | A modify request never both removes the end date and sets one |
| Translator.GetTags | aws-ec2-capacityreservationfleet/src/main/java/software/amazon/ec2/capacityreservationfleet/Translator.java:261-309 | A leading capacity-reservation-fleet group holds the stack and system tags, only when there are any; the model's groups follow, in order |
| Translator.GetTagsKeepsEveryTag | aws-ec2-capacityreservationfleet/src/main/java/software/amazon/ec2/capacityreservationfleet/Translator.java:261-309 | No tag is lost or reordered: stack tags, then system tags, then the model's tags group by group |
| Translator.TranslateToCreateRequest | aws-ec2-capacityreservationfleet/src/main/java/software/amazon/ec2/capacityreservationfleet/Translator.java:54-87 | Properties are copied from the model; the end date is dropped exactly when blank; tag groups are attached exactly when there are any |
| Translator.CreateRequestOmitsOnlyEmptyTags | aws-ec2-capacityreservationfleet/src/main/java/software/amazon/ec2/capacityreservationfleet/Translator.java:79-83 | The request has no tag groups exactly when there are no stack or system tags and the model has no tag group |
| Translator.ReadTagSpecifications | aws-ec2-capacityreservationfleet/src/main/java/software/amazon/ec2/capacityreservationfleet/Translator.java:127-157 | The desired state's tag groups win whenever that list is non-null; otherwise the fleet's tags form one group; an empty result reads as null |
| Translator.TranslateFromReadResponse | aws-ec2-capacityreservationfleet/src/main/java/software/amazon/ec2/capacityreservationfleet/Translator.java:116-166 | A null desired state is ServiceInternalError; otherwise the read succeeds exactly when validation passes, and the model is the first fleet's properties with the update-only flags absent |
| Translator.ReadPrefersDesiredTags | aws-ec2-capacityreservationfleet/src/main/java/software/amazon/ec2/capacityreservationfleet/Translator.java:130-131 | Desired tag groups are reported whatever tags the fleet has |
| Translator.ListedModels | aws-ec2-capacityreservationfleet/src/main/java/software/amazon/ec2/capacityreservationfleet/Translator.java:241-252 | Only ACTIVE, PARTIALLY_FULFILLED and FAILED fleets are listed, each as its id alone; a model is listed exactly when some listable fleet has its id |
| Translator.TranslateFromListResponse | aws-ec2-capacityreservationfleet/src/main/java/software/amazon/ec2/capacityreservationfleet/Translator.java:241-252 | A response without a fleet list lists nothing |
| Translator.ListedModelsAppend | aws-ec2-capacityreservationfleet/src/main/java/software/amazon/ec2/capacityreservationfleet/Translator.java:241-252 | Listing keeps the order of the fleets |
| Translator.ListedModelsSingleton | aws-ec2-capacityreservationfleet/src/main/java/software/amazon/ec2/capacityreservationfleet/Translator.java:243-250 | One fleet is listed as its id exactly when its state is listable |
| BaseHandler.EffectiveContext | aws-ec2-capacityreservationfleet/src/main/java/software/amazon/ec2/capacityreservationfleet/BaseHandlerStd.java:24-30 | A null callback context becomes a fresh one; any other passes through |
| BaseHandler.IsUnauthorized | aws-ec2-capacityreservationfleet/src/main/java/software/amazon/ec2/capacityreservationfleet/BaseHandlerStd.java:78-92 | Unauthorized exactly for a service failure whose details carry UnauthorizedOperation in any case; a null code or null details is not unauthorized |
| BaseHandler.UnauthorizedTranslatesToInvalidRequest | aws-ec2-capacityreservationfleet/src/main/java/software/amazon/ec2/capacityreservationfleet/BaseHandlerStd.java:78-92 | An unauthorized failure below status 500 and not throttled translates to InvalidRequest |
| BaseHandler.DescribeFleets | aws-ec2-capacityreservationfleet/src/main/java/software/amazon/ec2/capacityreservationfleet/BaseHandlerStd.java:48-66 | The describe's answer is passed on and its failure rethrown unchanged |
| BaseHandler.HandleDescribeError | aws-ec2-capacityreservationfleet/src/main/java/software/amazon/ec2/capacityreservationfleet/BaseHandlerStd.java:68-76 | A failed describe is translated by the general failure translation and nothing else |
| BaseHandler.ChainError | aws-ec2-capacityreservationfleet/src/main/java/software/amazon/ec2/capacityreservationfleet/UpdateHandler.java:81 | An exception ending a chain is FAILED: CloudFormation exceptions keep their code, others are translated |
| BaseHandler.CheckExists | aws-ec2-capacityreservationfleet/src/main/java/software/amazon/ec2/capacityreservationfleet/UpdateHandler.java:28-35 | The chain goes on exactly when the model has an id, the describe answers and validation passes, after exactly one describe; otherwise the handler ends FAILED |
| Stabilize.Observe | aws-ec2-capacity-reservation-fleet/src/main/java/software/amazon/ec2/capacityreservationfleet/CreateHandler.java:53-62 | Stable exactly when the first fleet of the describe is in the goal state; not yet for a response without a list or a first fleet elsewhere; an empty list throws; a failed describe rethrows |
| Stabilize.Poll | aws-ec2-capacityreservationfleet/src/main/java/software/amazon/ec2/capacityreservationfleet/DeleteHandler.java:60-75 | One callback: the cancel-response check comes first and wins even over a missing id; then a model without an id throws NotFound; only when neither throws is the describe made, and then the callback is stable exactly when the first fleet described is in the goal state |
| Stabilize.PollIgnoresOutcomeWithoutDescribe | aws-ec2-capacityreservationfleet/src/main/java/software/amazon/ec2/capacityreservationfleet/DeleteHandler.java:60-68 | A callback that throws before its describe answers the same whatever the describe would have returned |
| Stabilize.RunPolls | aws-ec2-capacity-reservation-fleet/src/main/java/software/amazon/ec2/capacityreservationfleet/CreateHandler.java:48-72 | The callbacks stop at the first stable or throwing answer, after only not-yet answers, or run out exactly when every answer is not yet; one describe per callback that describes, none otherwise |
| Stabilize.ConvergedMeansGoalReached | aws-ec2-capacity-reservation-fleet/src/main/java/software/amazon/ec2/capacityreservationfleet/CreateHandler.java:56-58 | Convergence means some describe showed the first fleet in the goal state |
| Stabilize.ThrowBeforeDescribeStopsAtOnce | aws-ec2-capacityreservationfleet/src/main/java/software/amazon/ec2/capacityreservationfleet/DeleteHandler.java:60-66 | A callback that throws before describing stops the repetition at once, with no describe |
| Stabilize.RunPollsDescribeCount | aws-ec2-capacity-reservation-fleet/src/main/java/software/amazon/ec2/capacityreservationfleet/CreateHandler.java:48-72 | The callbacks make exactly as many describes as callbacks ran, when they get as far as describing |
| Stabilize.UnauthorizedDescribeIsInvalidRequest | aws-ec2-capacity-reservation-fleet/src/main/java/software/amazon/ec2/capacityreservationfleet/CreateHandler.java:63-71 | An unauthorized describe during stabilization stops at once and ends with InvalidRequest |
| ReadHandler.HandleRead | aws-ec2-capacityreservationfleet/src/main/java/software/amazon/ec2/capacityreservationfleet/ReadHandler.java:22-26 | Never IN_PROGRESS; no id is NotFound with no call; otherwise one describe of that id, and SUCCESS exactly when it answers and passes validation |
| ReadHandler.ReadRoundTrip | aws-ec2-capacityreservationfleet/src/main/java/software/amazon/ec2/capacityreservationfleet/Translator.java:152-160 | Reading a provisioned fleet that a model describes gives that model back |
| ListHandler.HandleList | aws-ec2-capacityreservationfleet/src/main/java/software/amazon/ec2/capacityreservationfleet/ListHandler.java:26-44 | One describe from the caller's token; SUCCESS exactly when it answers, with the listed models and the page's next token; otherwise the translated failure |
| CreateHandler.BoundModel | aws-ec2-capacity-reservation-fleet/src/main/java/software/amazon/ec2/capacityreservationfleet/CreateHandler.java:52 | The callbacks' model is the desired model with the create response's id and nothing else changed |
| CreateHandler.HandleCreate | aws-ec2-capacity-reservation-fleet/src/main/java/software/amazon/ec2/capacityreservationfleet/CreateHandler.java:30-76 | Exactly one create call, first, built from the desired model; every later call is a describe of the id the create returned (so no describe without a created id); IN_PROGRESS only after a create that answered, handing back the model with that id bound; SUCCESS carries a model and no context |
| CreateHandler.CreateSucceedsOnlyWhenProvisioned | aws-ec2-capacity-reservation-fleet/src/main/java/software/amazon/ec2/capacityreservationfleet/CreateHandler.java:48-76 | SUCCESS needs a create with an id, a describe showing ACTIVE or PARTIALLY_FULFILLED, a valid read, and at least two describes |
| CreateHandler.CreateWaitsWhileNotProvisioned | aws-ec2-capacity-reservation-fleet/src/main/java/software/amazon/ec2/capacityreservationfleet/CreateHandler.java:48-72 | IN_PROGRESS exactly when the create answered and every callback found the fleet not yet provisioned; the event carries the bound model, the context and a positive delay |
| CreateHandler.CreateFailureMakesNoDescribe | aws-ec2-capacity-reservation-fleet/src/main/java/software/amazon/ec2/capacityreservationfleet/CreateHandler.java:34-47 | A failed create makes no describe and reports the failure's classified code |
| CreateHandler.CreateWithoutIdRaisesNotFound | aws-ec2-capacity-reservation-fleet/src/main/java/software/amazon/ec2/capacityreservationfleet/CreateHandler.java:52-53 | A create response without an id ends with NotFound before any describe |
| UpdateHandler.ModifyAccepted | aws-ec2-capacityreservationfleet/src/main/java/software/amazon/ec2/capacityreservationfleet/UpdateHandler.java:39-57 | The modify succeeds exactly when it returns true; false throws a status-500 failure, a null return value a runtime exception, a failure is rethrown |
| UpdateHandler.HandleUpdate | aws-ec2-capacityreservationfleet/src/main/java/software/amazon/ec2/capacityreservationfleet/UpdateHandler.java:28-83 | Without an id nothing is called and NotFound is raised; otherwise every call except the modify is a describe of the model's id; a modify is made exactly when the fleet was found and the modify request could be built, only as the second call and with that request; IN_PROGRESS hands back the desired model with the context and delay; SUCCESS carries a model and no context |
| UpdateHandler.ConflictingEndDateFlagsNeverModify | aws-ec2-capacityreservationfleet/src/main/java/software/amazon/ec2/capacityreservationfleet/UpdateHandler.java:36-39 | Both end-date flags present means no modify call, and InvalidRequest once the fleet is found |
| UpdateHandler.UpdateSucceedsOnlyWhenProvisioned | aws-ec2-capacityreservationfleet/src/main/java/software/amazon/ec2/capacityreservationfleet/UpdateHandler.java:28-83 | SUCCESS needs the fleet found, an accepted modify, a describe showing it provisioned, and a valid read |
| UpdateHandler.UpdateWaitsWhileNotProvisioned | aws-ec2-capacityreservationfleet/src/main/java/software/amazon/ec2/capacityreservationfleet/UpdateHandler.java:58-82 | IN_PROGRESS exactly when the fleet was found, the modify request could be built and was accepted, and every callback found the fleet not yet ACTIVE or PARTIALLY_FULFILLED |
| UpdateHandler.RejectedModifyIsServiceInternalError | aws-ec2-capacityreservationfleet/src/main/java/software/amazon/ec2/capacityreservationfleet/UpdateHandler.java:46-50 | A modify returning false or null is ServiceInternalError, with only the existence check's describe |
| DeleteHandler.CancelGuard | aws-ec2-capacityreservationfleet/src/main/java/software/amazon/ec2/capacityreservationfleet/DeleteHandler.java:60-66 | A null cancel response throws NotStabilized; a response listing failed cancellations throws a status-500 failure; otherwise the callback describes |
| DeleteHandler.HandleDelete | aws-ec2-capacityreservationfleet/src/main/java/software/amazon/ec2/capacityreservationfleet/DeleteHandler.java:30-89 | Without an id nothing is called and NotFound is raised; otherwise every call except the cancel is a describe of the model's id; a cancel of the model's id is made exactly when the fleet was found, only as the second call; IN_PROGRESS hands back the desired model with the context and delay; SUCCESS carries no model and the handler's context |
| DeleteHandler.DeleteSucceedsOnlyWhenCancelled | aws-ec2-capacityreservationfleet/src/main/java/software/amazon/ec2/capacityreservationfleet/DeleteHandler.java:57-89 | SUCCESS needs the fleet found, a non-null cancel response with no failed cancellation, and a describe showing it CANCELLED |
| DeleteHandler.DeleteWaitsWhileNotCancelled | aws-ec2-capacityreservationfleet/src/main/java/software/amazon/ec2/capacityreservationfleet/DeleteHandler.java:57-89 | IN_PROGRESS exactly when the fleet was found, the cancel call answered, and every callback passed the cancel-response check and found the fleet not yet CANCELLED |
| DeleteHandler.NullCancelResponseRaisesNotStabilized | aws-ec2-capacityreservationfleet/src/main/java/software/amazon/ec2/capacityreservationfleet/DeleteHandler.java:60-61 | A null cancel response ends with NotStabilized before any further describe |
| DeleteHandler.FailedCancellationIsServiceInternalError | aws-ec2-capacityreservationfleet/src/main/java/software/amazon/ec2/capacityreservationfleet/DeleteHandler.java:62-66 | A failed cancellation is ServiceInternalError with only the existence check's describe |
| Entry.HandleRequest | aws-ec2-capacityreservationfleet/src/main/java/software/amazon/ec2/capacityreservationfleet/BaseHandlerStd.java:18-31 | Read and list never answer IN_PROGRESS; IN_PROGRESS carries the framework's delay and the effective context; delete's SUCCESS carries that context and no model |
| Scenarios.CreateSucceedsAfterSubmitted | aws-ec2-capacityreservationfleet/src/test/java/software/amazon/ec2/capacityreservationfleet/CreateHandlerTest.java:246-273 | SUBMITTED then ACTIVE: SUCCESS with the desired model after three describes |
| Scenarios.CreateSucceedsAfterEmptyDescribe | aws-ec2-capacityreservationfleet/src/test/java/software/amazon/ec2/capacityreservationfleet/CreateHandlerTest.java:218-243 | A first describe without a fleet list is polled past: SUCCESS after three describes |
| Scenarios.CreateFailureIsGeneral | aws-ec2-capacityreservationfleet/src/test/java/software/amazon/ec2/capacityreservationfleet/CreateHandlerTest.java:150-169 | A plain service exception from create is GeneralServiceException with no describe |
| Scenarios.CreateUnauthorizedIsInvalidRequest | aws-ec2-capacityreservationfleet/src/test/java/software/amazon/ec2/capacityreservationfleet/CreateHandlerTest.java:276-297 | An unauthorized describe during stabilization is InvalidRequest after one describe |
| Scenarios.UpdateRejectedIsServiceInternalError | aws-ec2-capacityreservationfleet/src/test/java/software/amazon/ec2/capacityreservationfleet/UpdateHandlerTest.java:129-151 | A modify returning false is ServiceInternalError |
| Scenarios.UpdateFailureIsGeneral | aws-ec2-capacityreservationfleet/src/test/java/software/amazon/ec2/capacityreservationfleet/UpdateHandlerTest.java:102-126 | A plain service exception from modify is GeneralServiceException |
| Scenarios.UpdateUnauthorizedIsInvalidRequest | aws-ec2-capacityreservationfleet/src/test/java/software/amazon/ec2/capacityreservationfleet/UpdateHandlerTest.java:179-199 | An unauthorized describe during stabilization is InvalidRequest |
| Scenarios.DeleteSucceedsAfterCancelling | aws-ec2-capacityreservationfleet/src/test/java/software/amazon/ec2/capacityreservationfleet/DeleteHandlerTest.java:154-192 | ACTIVE, then CANCELLING, then CANCELLED: SUCCESS with no model after three describes |
| Scenarios.DeleteSucceedsAfterEmptyDescribe | aws-ec2-capacityreservationfleet/src/test/java/software/amazon/ec2/capacityreservationfleet/DeleteHandlerTest.java:221-245 | ACTIVE, then a describe without a fleet list, then CANCELLED: the empty answer is polled past, SUCCESS with no model after three describes |
| Scenarios.DeleteFailedCancellationIsServiceInternalError | aws-ec2-capacityreservationfleet/src/test/java/software/amazon/ec2/capacityreservationfleet/DeleteHandlerTest.java:249-274 | A listed failed cancellation is ServiceInternalError |
| Scenarios.DeleteNullResponseRaisesNotStabilized | aws-ec2-capacityreservationfleet/src/test/java/software/amazon/ec2/capacityreservationfleet/DeleteHandlerTest.java:133-151 | A null cancel response raises NotStabilized |
| Scenarios.DeleteUnauthorizedIsInvalidRequest | aws-ec2-capacityreservationfleet/src/test/java/software/amazon/ec2/capacityreservationfleet/DeleteHandlerTest.java:277-299 | An unauthorized describe during stabilization is InvalidRequest after two describes |
| Scenarios.ReadFailureCodes | aws-ec2-capacityreservationfleet/src/test/java/software/amazon/ec2/capacityreservationfleet/ReadHandlerTest.java:95-134 | The unknown-fleet code reads as NotFound; another code as GeneralServiceException |
| Scenarios.ListTwoActiveFleets | aws-ec2-capacityreservationfleet/src/test/java/software/amazon/ec2/capacityreservationfleet/ListHandlerTest.java:45-73 | Two ACTIVE fleets list as their two ids, in order |
| Scenarios.ValidationOrderMatters | aws-ec2-capacityreservationfleet/src/main/java/software/amazon/ec2/capacityreservationfleet/Translator.java:375-391 | SUBMITTED before FAILED is NotStabilized; FAILED before SUBMITTED is NotFound |

## Left out

- Logging, progress-event messages and exception messages are not modelled.
- The response metadata and request ids are not modelled.
- The credential-injecting proxy and the client builder are not modelled.
- Re-invocation of an IN_PROGRESS handler is not modelled. On re-invocation the framework replays completed calls from its call graph; here each invocation is modelled on its own.
- The framework's wait strategy is replaced by the finite `polls` list and a positive `delay`.
- End dates are opaque strings. The conversion with `Integer.parseInt` and `Date` on the way in, its NumberFormatException, and the epoch-second rendering on the way out are not modelled.
- A described fleet with a null instance match criteria throws a null dereference in the read translation. It is not modelled: `Ec2.Fleet.instanceMatchCriteria` is never null.
- A null desired resource state reaching a handler is not modelled. `Translator.TranslateFromReadResponse` does model it at the translator level.
- The stack-level tags arrive as a Java map with no defined order. The model takes them as a sequence in a given order.
- The instance-type specifications are a set in some callers. The model keeps them as a sequence.
- CallbackContext.java is not part of this model. The context is carried unchanged and never inspected.
- Strings.EqualsIgnoreCase: folds ASCII letters only. Java also folds non-ASCII letters, such as the Kelvin sign. All codes compared here are ASCII.
- Translator.TranslateToCreateRequest: requires the instance-type specifications to be present. The source dereferences them unconditionally, and the schema makes them required.
- CreateHandler.HandleCreate: inherits that requirement.
- Entry.HandleRequest: inherits that requirement for create.
- Translator.TranslateToFailure: the handlers are modelled with the corrected classifier of the Findings table. A service failure below status 500, not throttled, whose error details carry no code ends the handlers here with a FAILED GeneralServiceException event. In the source (Translator.java, lines 316-318) the error handler itself throws a NullPointerException, which escapes the handler instead. `Translator.ClassifyServiceFailureAsWritten` models that behaviour; no handler is built on it.
- Ec2.SdkFailure: the throttling flag stands for `isThrottlingException()` and is taken as given. It is not derived from status 429 or a throttling code, so combinations the SDK never builds are admitted.

## Findings

| source | as written | input that shows it | evidently intended | confidence | as-written member | corrected member |
|---|---|---|---|---|---|---|
| aws-ec2-capacityreservationfleet/src/main/java/software/amazon/ec2/capacityreservationfleet/Translator.java:316-318 | The error code from the error details is compared with equalsIgnoreCase without a null check. Details present with a null code make the classifier throw a NullPointerException inside the error handler. | An AwsServiceException with status 400, not throttled, whose error details carry only an error message | GeneralServiceException, the fallback for unrecognised codes, as the null-safe unauthorized check in BaseHandlerStd.java already treats a null code | not executed | Translator.ClassifyServiceFailureAsWritten (counterexample: Translator.AsWrittenDereferencesNullErrorCode) | Translator.ClassifyServiceFailure (agreement: Translator.CorrectedClassifierExtendsAsWritten) |
