/** The stabilize callbacks of the create, update and delete handlers, and
    the framework's repetition of them. Each callback makes at most one
    describe and answers stable, not yet, or throws; the framework calls it
    again while it answers not yet, consuming one describe outcome per call,
    and hands control back when the outcomes run out. */
module Stabilize {
  import opened Results
  import opened Resource
  import opened Ec2
  import opened Progress
  import opened BaseHandler

  /** What a stabilize callback waits for: create and update wait for the
      fleet to be ACTIVE or PARTIALLY_FULFILLED, delete for it to be CANCELLED. */
  datatype Goal = Provisioned | Cancellation

  predicate Reached(goal: Goal, s: Option<FleetState>) {
    match goal
    case Provisioned => s == Some(Active) || s == Some(PartiallyFulfilled)
    case Cancellation => s == Some(Cancelled)
  }

  /** The answer of one stabilize callback. */
  datatype Step = Stable | NotYet | Throws(e: Exception)

  /** The verdict on one describe: only the first fleet is looked at. A
      response without a fleet list means not yet; a response with an empty
      list makes `get(0)` throw IndexOutOfBoundsException. */
  function Observe(goal: Goal, d: DescribeOutcome): (s: Step)
    ensures s == Stable <==>
              d.Described? && d.response.fleets.Some? && |d.response.fleets.value| > 0 &&
              Reached(goal, d.response.fleets.value[0].state)
    ensures s == NotYet <==>
              d.Described? &&
              (d.response.fleets.None? ||
               (|d.response.fleets.value| > 0 && !Reached(goal, d.response.fleets.value[0].state)))
    ensures d.DescribeFailed? ==> s == Throws(Sdk(d.failure))
    ensures d.Described? && d.response.fleets == Some([]) ==> s == Throws(Runtime)
  {
    match DescribeFleets(d)
    case Err(e) => Throws(e)
    case Ok(resp) =>
      if resp.fleets.None? then NotYet
      else if |resp.fleets.value| == 0 then Throws(Runtime)
      else if Reached(goal, resp.fleets.value[0].state) then Stable
      else NotYet
  }

  /** One stabilize callback. An exception the callback raises before
      describing (`guard`, delete's check of the cancel response) comes
      first; then the read request is built, which throws NotFound when the
      model has no id; then one describe is made. */
  function Poll(goal: Goal, guard: Option<Exception>, readRequest: Result<DescribeRequest, ErrorCode>, d: DescribeOutcome): (s: Step)
    ensures !Describes(guard, readRequest) ==> s.Throws?
    ensures guard.Some? ==> s == Throws(guard.value)
    ensures guard.None? && readRequest.Err? ==> s == Throws(Cfn(readRequest.error))
    ensures Describes(guard, readRequest) ==>
              (s == Stable <==>
                 d.Described? && d.response.fleets.Some? && |d.response.fleets.value| > 0 &&
                 Reached(goal, d.response.fleets.value[0].state))
  {
    if guard.Some? then Throws(guard.value)
    else if readRequest.Err? then Throws(Cfn(readRequest.error))
    else Observe(goal, d)
  }

  /** The callback makes its describe only when nothing throws before it. */
  predicate Describes(guard: Option<Exception>, readRequest: Result<DescribeRequest, ErrorCode>) {
    guard.None? && readRequest.Ok?
  }

  /** A callback that throws before describing answers the same whatever the
      describe would have returned. */
  lemma PollIgnoresOutcomeWithoutDescribe(goal: Goal, guard: Option<Exception>, readRequest: Result<DescribeRequest, ErrorCode>,
                                          d1: DescribeOutcome, d2: DescribeOutcome)
    requires !Describes(guard, readRequest)
    ensures Poll(goal, guard, readRequest, d1) == Poll(goal, guard, readRequest, d2)
  {
  }

  /** How the repetition of the callback ends. */
  datatype PollEnd = Converged | Aborted(e: Exception) | Exhausted

  /** The end, the describes made, and the number of callbacks run. */
  datatype PollRun = PollRun(end: PollEnd, calls: seq<Call>, used: nat)

  /** Repeat the callback over the successive describe outcomes until it
      answers stable or throws, or the outcomes run out. */
  function RunPolls(goal: Goal, guard: Option<Exception>, readRequest: Result<DescribeRequest, ErrorCode>, polls: seq<DescribeOutcome>): (r: PollRun)
    ensures r.used <= |polls|
    ensures r.end.Exhausted? <==> forall i :: 0 <= i < |polls| ==> Poll(goal, guard, readRequest, polls[i]) == NotYet
    ensures r.end.Exhausted? ==> r.used == |polls|
    ensures !r.end.Exhausted? ==>
              1 <= r.used && forall i :: 0 <= i < r.used - 1 ==> Poll(goal, guard, readRequest, polls[i]) == NotYet
    ensures r.end.Converged? ==> Poll(goal, guard, readRequest, polls[r.used - 1]) == Stable
    ensures r.end.Aborted? ==> Poll(goal, guard, readRequest, polls[r.used - 1]) == Throws(r.end.e)
    ensures Describes(guard, readRequest) ==>
              |r.calls| == r.used && forall i :: 0 <= i < |r.calls| ==> r.calls[i] == DescribeCall(readRequest.value)
    ensures !Describes(guard, readRequest) ==> r.calls == []
    decreases |polls|
  {
    if |polls| == 0 then PollRun(Exhausted, [], 0)
    else
      var step := Poll(goal, guard, readRequest, polls[0]);
      var calls := if Describes(guard, readRequest) then [DescribeCall(readRequest.value)] else [];
      match step
      case Stable => PollRun(Converged, calls, 1)
      case Throws(e) => PollRun(Aborted(e), calls, 1)
      case NotYet =>
        var rest := RunPolls(goal, guard, readRequest, polls[1..]);
        assert forall i :: 1 <= i < |polls| ==> polls[i] == polls[1..][i - 1];
        PollRun(rest.end, calls + rest.calls, rest.used + 1)
  }

  /** Convergence needs a callback that saw the goal state in the first fleet
      of a describe, after callbacks that all answered not yet. */
  lemma ConvergedMeansGoalReached(goal: Goal, guard: Option<Exception>, readRequest: Result<DescribeRequest, ErrorCode>, polls: seq<DescribeOutcome>)
    requires RunPolls(goal, guard, readRequest, polls).end.Converged?
    ensures Describes(guard, readRequest)
    ensures var k := RunPolls(goal, guard, readRequest, polls).used - 1;
            && polls[k].Described? && polls[k].response.fleets.Some?
            && |polls[k].response.fleets.value| > 0
            && Reached(goal, polls[k].response.fleets.value[0].state)
  {
  }

  /** A callback that throws before describing ends the repetition at once,
      with no describe made, provided there is a callback to run at all. */
  lemma ThrowBeforeDescribeStopsAtOnce(goal: Goal, guard: Option<Exception>, readRequest: Result<DescribeRequest, ErrorCode>, polls: seq<DescribeOutcome>)
    requires !Describes(guard, readRequest) && |polls| > 0
    ensures RunPolls(goal, guard, readRequest, polls).used == 1
    ensures RunPolls(goal, guard, readRequest, polls).calls == []
    ensures RunPolls(goal, guard, readRequest, polls).end ==
              Aborted(if guard.Some? then guard.value else Cfn(readRequest.error))
  {
  }

  /** The repetition makes one describe per callback when the callback gets
      as far as describing, and none otherwise. */
  lemma RunPollsDescribeCount(goal: Goal, guard: Option<Exception>, readRequest: Result<DescribeRequest, ErrorCode>, polls: seq<DescribeOutcome>)
    ensures var r := RunPolls(goal, guard, readRequest, polls);
            DescribeCount(r.calls) == if Describes(guard, readRequest) then r.used else 0
  {
    var r := RunPolls(goal, guard, readRequest, polls);
    if Describes(guard, readRequest) {
      AllDescribes(r.calls);
    }
  }

  lemma {:induction false} AllDescribes(calls: seq<Call>)
    requires forall i :: 0 <= i < |calls| ==> calls[i].DescribeCall?
    ensures DescribeCount(calls) == |calls|
  {
    if |calls| > 0 {
      AllDescribes(calls[1..]);
    }
  }

  /** A describe refused as unauthorized (status below 500, not throttled)
      aborts the callbacks at once, and the chain ends with InvalidRequest. */
  lemma UnauthorizedDescribeIsInvalidRequest(goal: Goal, readRequest: Result<DescribeRequest, ErrorCode>, polls: seq<DescribeOutcome>)
    requires readRequest.Ok? && |polls| > 0 && polls[0].DescribeFailed?
    requires IsUnauthorized(Sdk(polls[0].failure))
    requires !polls[0].failure.throttling && polls[0].failure.statusCode < 500
    ensures RunPolls(goal, None, readRequest, polls) == PollRun(Aborted(Sdk(polls[0].failure)), [DescribeCall(readRequest.value)], 1)
    ensures ObservedError(ChainError(Sdk(polls[0].failure))) == Some(InvalidRequest)
  {
    UnauthorizedTranslatesToInvalidRequest(Sdk(polls[0].failure));
  }
}
