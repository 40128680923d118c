/** The records the event tracer captures, with the field shapes of their
    schema declarations (beyond-black-box-benchmarking/core/elements.py,
    core/src/agent_analytics_core/data/{iunits,workflows,agents,issues,
    recommendations,service}.py, core/organizations.py, core/annotations.py,
    otel_genai_agentic_taxonomies/events.py), and `dict()` of each record as
    its list of fields in declaration order, base classes first.

    The Resource and Task schemas are not part of this model: their records
    carry the fields the tracer reads, and `others` stands for whatever else
    their schemas declare. */
module TracerEntities {
  import opened Common
  import opened TracerValues

  /** The items of a dictionary, in insertion order. */
  type Fields = seq<(string, Value)>

  function StrValue(s: string): Value {
    Str(Chars(s))
  }

  function OptStr(o: Option<string>): Value {
    if o.Some? then StrValue(o.value) else Null
  }

  function StrList(xs: seq<string>): Value {
    List(seq(|xs|, i requires 0 <= i < |xs| => StrValue(xs[i])))
  }

  function OptStrList(o: Option<seq<string>>): Value {
    if o.Some? then StrList(o.value) else Null
  }

  function OptInt(o: Option<int>): Value {
    if o.Some? then Int(o.value) else Null
  }

  function OptBool(o: Option<bool>): Value {
    if o.Some? then Bool(o.value) else Null
  }

  function OptList(o: Option<seq<Value>>): Value {
    if o.Some? then List(o.value) else Null
  }

  /** `Element`. Tags are text or members of the `str`-based `Tag`. */
  datatype Element = Element(
    id: string,
    elementType: string,
    ownerId: Option<string>,
    name: Option<string>,
    description: Option<string>,
    tags: Option<seq<Value>>,
    attributes: Fields)

  function ElementFields(e: Element): Fields {
    [("id", StrValue(e.id)), ("type", StrValue(e.elementType)), ("owner_id", OptStr(e.ownerId)),
     ("name", OptStr(e.name)), ("description", OptStr(e.description)),
     ("tags", OptList(e.tags)), ("attributes", Dict(e.attributes))]
  }

  /** The fields `IUnit` adds to `Element`. */
  datatype IUnit = IUnit(codeId: Option<string>, isGenerated: Option<bool>, consumedResources: Option<seq<string>>)

  function IUnitFields(u: IUnit): Fields {
    [("code_id", OptStr(u.codeId)), ("is_generated", OptBool(u.isGenerated)),
     ("consumed_resources", OptStrList(u.consumedResources))]
  }

  /** The fields `Relation` adds to `Element`. */
  datatype Relation = Relation(sourceIds: Option<seq<string>>, destinationIds: Option<seq<string>>, weight: Option<int>)

  function RelationFields(r: Relation): Fields {
    [("source_ids", OptStrList(r.sourceIds)), ("destination_ids", OptStrList(r.destinationIds)),
     ("weight", OptInt(r.weight))]
  }

  /** The fields `Agent` adds to `IUnit`. */
  datatype Holdings = Holdings(resourceIds: Option<seq<string>>, toolIds: Option<seq<string>>, skillIds: Option<seq<string>>)

  function HoldingsFields(h: Holdings): Fields {
    [("resource_ids", OptStrList(h.resourceIds)), ("tool_ids", OptStrList(h.toolIds)),
     ("skill_ids", OptStrList(h.skillIds))]
  }

  /** A resource: a category (a `ResourceCategory` member or text), a format
      and a payload. */
  datatype Resource = Resource(element: Element, category: Value, format: Option<string>, payload: Value, others: Fields)

  function ResourceFields(r: Resource): Fields {
    ElementFields(r.element) + [("category", r.category), ("format", OptStr(r.format)), ("payload", r.payload)] + r.others
  }

  datatype Role = Role(element: Element, relation: Relation, instructions: Option<seq<string>>)

  function RoleFields(r: Role): Fields {
    ElementFields(r.element) + RelationFields(r.relation) + [("instructions", OptStrList(r.instructions))]
  }

  datatype Agent = Agent(element: Element, iunit: IUnit, holdings: Holdings)

  function AgentFields(a: Agent): Fields {
    ElementFields(a.element) + IUnitFields(a.iunit) + HoldingsFields(a.holdings)
  }

  /** An organization: an agent with roles. */
  datatype Organization = Organization(element: Element, iunit: IUnit, holdings: Holdings, roles: Option<seq<Role>>)

  /** `organization.dict(exclude={"roles"})`. */
  function OrganizationFields(o: Organization): Fields {
    ElementFields(o.element) + IUnitFields(o.iunit) + HoldingsFields(o.holdings)
  }

  datatype Workflow = Workflow(element: Element)

  function WorkflowFields(w: Workflow): Fields {
    ElementFields(w.element)
  }

  datatype WorkflowNode = WorkflowNode(element: Element, iunit: IUnit, taskCounter: Option<int>, runnableId: string)

  function WorkflowNodeFields(n: WorkflowNode): Fields {
    ElementFields(n.element) + IUnitFields(n.iunit) + [("task_counter", OptInt(n.taskCounter)), ("runnable_id", StrValue(n.runnableId))]
  }

  /** An edge; its category is a `WorkflowEdgeCategory` member. */
  datatype WorkflowEdge = WorkflowEdge(element: Element, relation: Relation, isConditional: bool, category: Value)

  function WorkflowEdgeFields(e: WorkflowEdge): Fields {
    ElementFields(e.element) + RelationFields(e.relation) + [("is_conditional", Bool(e.isConditional)), ("category", e.category)]
  }

  datatype Runable = Runable(
    element: Element, iunit: IUnit,
    inputSchema: Option<string>, outputSchema: Option<string>, workflowId: Option<string>, taskCounter: Option<int>)

  function RunableFields(r: Runable): Fields {
    ElementFields(r.element) + IUnitFields(r.iunit)
    + [("input_schema", OptStr(r.inputSchema)), ("output_schema", OptStr(r.outputSchema)),
       ("workflow_id", OptStr(r.workflowId)), ("task_counter", OptInt(r.taskCounter))]
  }

  /** A task, with the fields the tracer reads. */
  datatype Task = Task(
    element: Element,
    inputResourceIds: Value, inputData: Value, outputData: Value, outputDataRanking: Value,
    createdResourceIds: Value, dependenciesIds: Value, runnableId: Value,
    expectedStartTime: Value, expectedEndTime: Value, priority: Value, isGenerated: Value,
    others: Fields)

  function TaskFields(t: Task): Fields {
    ElementFields(t.element)
    + [("input_resource_ids", t.inputResourceIds), ("input_data", t.inputData), ("output_data", t.outputData),
       ("output_data_ranking", t.outputDataRanking), ("created_resource_ids", t.createdResourceIds),
       ("dependencies_ids", t.dependenciesIds), ("runnable_id", t.runnableId),
       ("expected_start_time", t.expectedStartTime), ("expected_end_time", t.expectedEndTime),
       ("priority", t.priority), ("is_generated", t.isGenerated)]
    + t.others
  }

  /** A service. Its required `name` replaces the element's optional one. */
  datatype Service = Service(
    element: Element, name: string,
    namespace: Option<string>, instanceId: Option<string>, version: Option<string>, environment: Option<string>)

  function ServiceElement(s: Service): Element {
    s.element.(name := Some(s.name))
  }

  /** `service.dict(by_alias=False)`: field names, not their aliases. */
  function ServiceFields(s: Service): Fields {
    ElementFields(ServiceElement(s))
    + [("namespace", OptStr(s.namespace)), ("instance_id", OptStr(s.instanceId)),
       ("version", OptStr(s.version)), ("environment", OptStr(s.environment))]
  }

  /** A recommendation; its level is a `RecommendationLevel` member. */
  datatype Recommendation = Recommendation(
    element: Element, generatedTime: Option<string>,
    affectedElementIds: seq<string>, effect: seq<string>, level: Value)

  function RecommendationFields(r: Recommendation): Fields {
    ElementFields(r.element)
    + [("generated_time", OptStr(r.generatedTime)), ("affected_element_ids", StrList(r.affectedElementIds)),
       ("effect", StrList(r.effect)), ("level", r.level)]
  }

  datatype DataAnnotation = DataAnnotation(element: Element, elementId: string, segmentStart: Option<int>, segmentEnd: Option<int>)

  function DataAnnotationFields(a: DataAnnotation): Fields {
    ElementFields(a.element)
    + [("element_id", StrValue(a.elementId)), ("segment_start", OptInt(a.segmentStart)), ("segment_end", OptInt(a.segmentEnd))]
  }

  /** An issue; its level is an `IssueLevel` member. */
  datatype Issue = Issue(element: Element, time: Option<string>, affectedElementIds: seq<string>, effect: seq<string>, level: Value)

  function IssueFields(i: Issue): Fields {
    ElementFields(i.element)
    + [("time", OptStr(i.time)), ("affected_element_ids", StrList(i.affectedElementIds)),
       ("effect", StrList(i.effect)), ("level", i.level)]
  }

  /** An AI event: an element that is also an event with a timestamp (by its
      ISO text) and an optional `Status` member. */
  datatype AIEvent = AIEvent(element: Element, timestamp: string, status: Option<Value>)

  function AIEventFields(a: AIEvent): Fields {
    ElementFields(a.element)
    + [("timestamp", DateTime(a.timestamp)), ("status", if a.status.Some? then a.status.value else Null)]
  }
}
