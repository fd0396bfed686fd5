/** The CloudFormation side of the fleet: the resource model a template
    declares, its tag groups and instance-type specifications, the request
    the handlers receive, and the callback context they carry between
    invocations. The EC2 SDK classes of the same shape (tags, tag
    specifications, instance-type specifications) are represented by these
    same records: the source copies them field by field. */
module Resource {
  import opened Results

  datatype Tag = Tag(key: string, value: string)

  /** A group of tags for one kind of resource (`capacity-reservation-fleet`,
      `instance`, ...). */
  datatype TagSpecification = TagSpecification(resourceType: Option<string>, tags: seq<Tag>)

  datatype InstanceTypeSpec = InstanceTypeSpec(
    instanceType: Option<string>,
    instancePlatform: Option<string>,
    availabilityZone: Option<string>,
    availabilityZoneId: Option<string>,
    ebsOptimized: Option<bool>,
    priority: Option<int>,
    weight: Option<real>)

  /** `AWS::EC2::CapacityReservationFleet`. Every property is nullable, as in
      the generated Java class; the end date is kept as the string the
      template carries. */
  datatype ResourceModel = ResourceModel(
    fleetId: Option<string>,
    allocationStrategy: Option<string>,
    tenancy: Option<string>,
    instanceMatchCriteria: Option<string>,
    totalTargetCapacity: Option<int>,
    endDate: Option<string>,
    removeEndDate: Option<bool>,
    noRemoveEndDate: Option<bool>,
    instanceTypeSpecifications: Option<seq<InstanceTypeSpec>>,
    tagSpecifications: Option<seq<TagSpecification>>)

  /** A model that carries nothing but the fleet id, as the list handler builds. */
  function IdOnly(id: Option<string>): (m: ResourceModel)
    ensures m.fleetId == id
    ensures IsIdOnly(m)
  {
    ResourceModel(id, None, None, None, None, None, None, None, None, None)
  }

  predicate IsIdOnly(m: ResourceModel) {
    && m.allocationStrategy.None? && m.tenancy.None? && m.instanceMatchCriteria.None?
    && m.totalTargetCapacity.None? && m.endDate.None? && m.removeEndDate.None?
    && m.noRemoveEndDate.None? && m.instanceTypeSpecifications.None?
    && m.tagSpecifications.None?
  }

  /** The callback context the orchestrator hands back on re-invocation. The
      handlers pass it along without looking inside, so its contents are an
      opaque list of saved entries. */
  datatype CallbackContext = CallbackContext(saved: seq<string>)

  /** `new CallbackContext()`. */
  const FreshContext := CallbackContext([])

  /** What CloudFormation passes to a handler: the desired model, the stack's
      tags and the system tags (each a map, given here in its iteration
      order), and the list continuation token. */
  datatype HandlerRequest = HandlerRequest(
    desired: ResourceModel,
    stackTags: Option<seq<Tag>>,
    systemTags: Option<seq<Tag>>,
    nextToken: Option<string>)
}
