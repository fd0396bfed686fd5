/** The EC2 API as the handlers see it: fleet states, the describe, create,
    modify and cancel requests and responses, and the failures the SDK
    throws. Every remote call is an input to the model: a handler receives
    the outcome of each call it may make and records the requests it issues. */
module Ec2 {
  import opened Results
  import opened Resource

  /** `CapacityReservationFleetState`; `UnknownToSdk` stands for a state
      newer than the SDK. */
  datatype FleetState =
    | Submitted | Modifying | Active | PartiallyFulfilled | Expiring
    | Expired | Cancelling | Cancelled | Failed | UnknownToSdk

  /** One fleet of a describe response. The end date is already rendered as
      the epoch-second string the read handler stores. */
  datatype Fleet = Fleet(
    fleetId: Option<string>,
    state: Option<FleetState>,
    allocationStrategy: Option<string>,
    tenancy: Option<string>,
    instanceMatchCriteria: string,
    totalTargetCapacity: Option<int>,
    endDate: Option<string>,
    instanceTypeSpecifications: seq<InstanceTypeSpec>,
    tags: seq<Tag>)

  /** `DescribeCapacityReservationFleetsRequest`: by id, or one page of all fleets. */
  datatype DescribeRequest = DescribeRequest(fleetIds: seq<string>, nextToken: Option<string>)

  /** `DescribeCapacityReservationFleetsResponse`. `fleets` is `None` when the
      response carries no fleet list at all (`hasCapacityReservationFleets()`
      is false) and `Some([])` when it carries an empty one. */
  datatype DescribeResponse = DescribeResponse(fleets: Option<seq<Fleet>>, nextToken: Option<string>)

  datatype CreateRequest = CreateRequest(
    allocationStrategy: Option<string>,
    endDate: Option<string>,
    instanceMatchCriteria: Option<string>,
    tenancy: Option<string>,
    totalTargetCapacity: Option<int>,
    instanceTypeSpecifications: seq<InstanceTypeSpec>,
    tagSpecifications: Option<seq<TagSpecification>>)

  datatype CreateResponse = CreateResponse(fleetId: Option<string>, state: Option<FleetState>)

  datatype ModifyRequest = ModifyRequest(
    fleetId: Option<string>,
    totalTargetCapacity: Option<int>,
    removeEndDate: Option<bool>,
    endDate: Option<string>)

  /** `returnValue` is a boxed Boolean and may be null. */
  datatype ModifyResponse = ModifyResponse(returnValue: Option<bool>)

  /** The ids to cancel; Java's varargs builder wraps a null id into a
      one-element list holding null. */
  datatype CancelRequest = CancelRequest(fleetIds: seq<Option<string>>)

  /** The ids whose cancellation failed and those whose cancellation succeeded. */
  datatype CancelResponse = CancelResponse(
    failedCancellations: Option<seq<string>>,
    successfulCancellations: Option<seq<string>>)

  /** `AwsErrorDetails`; the error code may be null. */
  datatype ErrorDetails = ErrorDetails(errorCode: Option<string>)

  /** A failure thrown by the SDK: an `AwsServiceException` (the service
      answered with an error) or any other `SdkException` (the client failed).
      `throttling` stands for `isThrottlingException()` and is taken as given:
      the SDK derives it from status 429 or a throttling error code, and the
      model does not tie it to `statusCode` or `details`, so it also admits
      combinations the SDK never builds (status 429 with the flag false). */
  datatype SdkFailure =
    | ServiceFailure(throttling: bool, statusCode: int, details: Option<ErrorDetails>)
    | ClientFailure

  /** A request a handler issued, in order. */
  datatype Call =
    | DescribeCall(describeRequest: DescribeRequest)
    | CreateCall(createRequest: CreateRequest)
    | ModifyCall(modifyRequest: ModifyRequest)
    | CancelCall(cancelRequest: CancelRequest)

  datatype DescribeOutcome = Described(response: DescribeResponse) | DescribeFailed(failure: SdkFailure)
  datatype CreateOutcome = Created(response: CreateResponse) | CreateFailed(failure: SdkFailure)
  datatype ModifyOutcome = Modified(response: ModifyResponse) | ModifyFailed(failure: SdkFailure)
  /** A cancel call may also answer null. */
  datatype CancelOutcome = CancelAnswered(response: Option<CancelResponse>) | CancelFailed(failure: SdkFailure)

  /** The number of describe calls in a call log. */
  function DescribeCount(calls: seq<Call>): (n: nat)
    ensures n <= |calls|
    ensures n == 0 <==> forall i :: 0 <= i < |calls| ==> !calls[i].DescribeCall?
  {
    if |calls| == 0 then 0
    else (if calls[0].DescribeCall? then 1 else 0) + DescribeCount(calls[1..])
  }

  lemma {:induction false} DescribeCountAppend(a: seq<Call>, b: seq<Call>)
    ensures DescribeCount(a + b) == DescribeCount(a) + DescribeCount(b)
  {
    if |a| == 0 {
      assert a + b == b;
    } else {
      assert (a + b)[1..] == a[1..] + b;
      DescribeCountAppend(a[1..], b);
    }
  }
}
