/** The attributes each `capture_*` of the event tracer records
    (beyond-black-box-benchmarking/sdk/src/agent_analytics/instrumentation/utils/ai_event_tracer.py):
    the base attributes of the element, the type's own additions, the
    remaining-fields pass with the type's prefix and exclusion list, and the
    removal of None values. For every type whose schema is known the pass
    turns out to add nothing; for the one that adds the timestamp again, it
    adds it with the value it already has. */
module TracerCaptures {
  import opened Common
  import opened TracerValues
  import opened TracerEntities
  import opened TracerAttributes

  /** `str(v) if v else None`. */
  function StrIfTruthy(v: Value): Value {
    if Truthy(v) then Str(Show(v)) else Null
  }

  /** `json.dumps(v)`, or `str(v)` when that fails; None stays None. */
  function Dumps(v: Value): Value {
    if v.Null? then Null else if Serialisable(v) then Str([Dumped(v)]) else Str(Show(v))
  }

  /** `value or now`, for an optional ISO time. */
  function OrNow(time: Option<string>, now: string): string {
    if time.Some? && time.value != "" then time.value else now
  }

  /** One conditional `attributes[key] = v`. */
  function When(cond: bool, key: string, v: Value): Attributes {
    if cond then map[key := v] else map[]
  }

  /** The attributes of the event: base, additions, remaining fields, and no
      None. */
  function Flatten(e: Element, additions: Attributes, fields: Fields, prefix: string, excluded: seq<string>): Attributes {
    DropNone(Remaining(BaseAttributes(e) + additions, fields, prefix, excluded))
  }

  /** The pass adds nothing when the additions leave the base keys in place
      and every non-base field is present or excluded. */
  lemma FlattenDirect(e: Element, additions: Attributes, fields: Fields, prefix: string, excluded: seq<string>)
    requires "tags" in excluded && "attributes" in excluded
    requires Covered(BaseAttributes(e) + additions, fields, excluded)
    ensures Flatten(e, additions, ElementFields(e) + fields, prefix, excluded) == DropNone(BaseAttributes(e) + additions)
  {
    var a := BaseAttributes(e) + additions;
    BaseCore(e);
    ElementCovered(e, a, excluded);
    CoveredAppend(a, ElementFields(e), fields, excluded);
    RemainingIdle(a, ElementFields(e) + fields, prefix, excluded);
  }

  /** Whatever the additions, an event keeps the element's id and type when
      the additions do not write those keys and the prefix is empty or ends
      with `_`, as every prefix of the tracer does. */
  lemma FlattenIdentity(e: Element, additions: Attributes, fields: Fields, prefix: string, excluded: seq<string>)
    requires "id" !in additions && "type" !in additions
    requires prefix == "" || prefix[|prefix| - 1] == '_'
    ensures var r := Flatten(e, additions, fields, prefix, excluded);
            && "id" in r && r["id"] == StrValue(e.id)
            && "type" in r && r["type"] == StrValue(e.elementType)
  {
    var a := BaseAttributes(e) + additions;
    BaseCore(e);
    IdentityUnwritten(a, fields, prefix, excluded, "id");
    IdentityUnwritten(a, fields, prefix, excluded, "type");
  }

  lemma IdentityUnwritten(a: Attributes, fields: Fields, prefix: string, excluded: seq<string>, key: string)
    requires key in a && '_' !in key
    requires prefix == "" || prefix[|prefix| - 1] == '_'
    ensures key in Remaining(a, fields, prefix, excluded)
    ensures Remaining(a, fields, prefix, excluded)[key] == a[key]
  {
    forall i | 0 <= i < |fields|
      ensures key == prefix + fields[i].0 ==> fields[i].0 in a
    {
      if prefix == "" {
        assert prefix + fields[i].0 == fields[i].0;
      } else {
        assert (prefix + fields[i].0)[|prefix| - 1] == '_';
      }
    }
    RemainingFrame(a, fields, prefix, excluded, key);
  }

  // ---------------------------------------------------------------------------
  // capture_resource

  const ResourceExcluded := ["attributes", "tags", "payload"]

  function ResourceAdditions(r: Resource): Attributes {
    map["category" := StrIfTruthy(r.category), "format" := OptStr(r.format), "payload" := Dumps(r.payload)]
  }

  /** The other fields are written without a prefix. */
  function ResourceAttributes(r: Resource): Attributes {
    Flatten(r.element, ResourceAdditions(r),  ResourceFields(r), "", ResourceExcluded)
  }

  /** Without other fields the pass adds nothing. */
  lemma ResourceDirect(r: Resource)
    requires r.others == []
    ensures ResourceAttributes(r) == DropNone(BaseAttributes(r.element) + ResourceAdditions(r))
  {
    var rest := [("category", r.category), ("format", OptStr(r.format)), ("payload", r.payload)];
    assert ResourceFields(r) == ElementFields(r.element) + rest;
    FlattenDirect(r.element, ResourceAdditions(r), rest, "", ResourceExcluded);
  }

  /** Another field of the resource whose key is new and not excluded is
      recorded under its own key with its prepared value, unless that is
      None. */
  lemma ResourceOther(r: Resource, i: nat)
    requires i < |r.others| && DistinctKeys(ResourceFields(r))
    requires r.others[i].0 !in BaseAttributes(r.element) + ResourceAdditions(r)
    requires r.others[i].0 !in ResourceExcluded && !r.others[i].1.Null?
    ensures r.others[i].0 in ResourceAttributes(r)
    ensures ResourceAttributes(r)[r.others[i].0] == Prepare(r.others[i].1)
  {
    var fields := ResourceFields(r);
    var j := |fields| - |r.others| + i;
    assert fields[j] == r.others[i];
    assert Unblocked(fields, "") by {
      forall p, q | 0 <= p < q < |fields| ensures fields[q].0 != "" + fields[p].0 {
        assert "" + fields[p].0 == fields[p].0;
      }
    }
    RemainingWrites(BaseAttributes(r.element) + ResourceAdditions(r), fields, "", ResourceExcluded, j);
    assert "" + r.others[i].0 == r.others[i].0;
  }

  // ---------------------------------------------------------------------------
  // capture_role

  const RoleExcluded := ["attributes", "tags", "source_ids", "destination_ids", "weight", "instructions"]

  function RoleAdditions(r: Role): Attributes {
    RelationAttributes(r.relation)
    + When(Truthy(OptStrList(r.instructions)), "instructions", Prepare(OptStrList(r.instructions)))
  }

  function RoleAttributes(r: Role): Attributes {
    Flatten(r.element, RoleAdditions(r), RoleFields(r), "role_", RoleExcluded)
  }

  lemma RoleDirect(r: Role)
    ensures RoleAttributes(r) == DropNone(BaseAttributes(r.element) + RoleAdditions(r))
  {
    assert RoleFields(r) == ElementFields(r.element) + (RelationFields(r.relation) + [("instructions", OptStrList(r.instructions))]);
    FlattenDirect(r.element, RoleAdditions(r), RelationFields(r.relation) + [("instructions", OptStrList(r.instructions))], "role_", RoleExcluded);
  }

  // ---------------------------------------------------------------------------
  // capture_organization

  /** The roles `capture_organization` captures: all of them, when there are
      any. */
  function RolesOf(o: Organization): seq<Role> {
    if o.roles.Some? then o.roles.value else []
  }

  function RoleIds(roles: seq<Role>): seq<string> {
    seq(|roles|, i requires 0 <= i < |roles| => roles[i].element.id)
  }

  const OrganizationExcluded := ["attributes", "tags", "resource_ids", "tool_ids", "skill_ids", "code_id", "is_generated", "consumed_resources", "roles"]

  function OrganizationAdditions(o: Organization): Attributes {
    IUnitAttributes(o.iunit) + HoldingsAttributes(o.holdings)
    + When(RolesOf(o) != [], "role_ids", Prepare(StrList(RoleIds(RolesOf(o)))))
  }

  function OrganizationAttributes(o: Organization): Attributes {
    Flatten(o.element, OrganizationAdditions(o), OrganizationFields(o), "organization_", OrganizationExcluded)
  }

  lemma OrganizationDirect(o: Organization)
    ensures OrganizationAttributes(o) == DropNone(BaseAttributes(o.element) + OrganizationAdditions(o))
  {
    assert OrganizationFields(o) == ElementFields(o.element) + (IUnitFields(o.iunit) + HoldingsFields(o.holdings));
    FlattenDirect(o.element, OrganizationAdditions(o), IUnitFields(o.iunit) + HoldingsFields(o.holdings), "organization_", OrganizationExcluded);
  }

  /** `role_ids` lists the ids of the roles in their order, and is there
      exactly when there are roles. */
  lemma OrganizationRoleIds(o: Organization)
    ensures var r := OrganizationAttributes(o);
            && ("role_ids" in r <==> RolesOf(o) != [])
            && (RolesOf(o) != [] ==> r["role_ids"] == Prepare(StrList(RoleIds(RolesOf(o)))))
  {
    OrganizationDirect(o);
    var a := BaseAttributes(o.element) + OrganizationAdditions(o);
    assert "role_ids"[..5] == "role_";
    BaseAbsent(o.element, "role_ids");
    AdditionsRoleIds(o);
    assert ("role_ids" in a) == ("role_ids" in OrganizationAdditions(o));
    if RolesOf(o) != [] {
      assert a["role_ids"] == Prepare(StrList(RoleIds(RolesOf(o))));
    }
  }

  lemma AdditionsRoleIds(o: Organization)
    ensures var a := OrganizationAdditions(o);
            && ("role_ids" in a <==> RolesOf(o) != [])
            && (RolesOf(o) != [] ==> a["role_ids"] == Prepare(StrList(RoleIds(RolesOf(o)))))
  {
    var plain := IUnitAttributes(o.iunit) + HoldingsAttributes(o.holdings);
    assert "role_ids" !in plain;
  }

  // ---------------------------------------------------------------------------
  // capture_workflow

  const WorkflowExcluded := ["attributes", "tags"]

  function WorkflowAttributes(w: Workflow): Attributes {
    Flatten(w.element, map[], WorkflowFields(w), "workflow_", WorkflowExcluded)
  }

  lemma WorkflowDirect(w: Workflow)
    ensures WorkflowAttributes(w) == DropNone(BaseAttributes(w.element))
  {
    assert WorkflowFields(w) == ElementFields(w.element) + [];
    assert BaseAttributes(w.element) + map[] == BaseAttributes(w.element);
    FlattenDirect(w.element, map[], [], "workflow_", WorkflowExcluded);
  }

  // ---------------------------------------------------------------------------
  // capture_workflow_node

  const WorkflowNodeExcluded := ["attributes", "tags", "code_id", "is_generated", "consumed_resources", "task_counter", "runnable_id"]

  function WorkflowNodeAdditions(n: WorkflowNode): Attributes {
    IUnitAttributes(n.iunit) + map["task_counter" := OptInt(n.taskCounter), "runnable_id" := StrValue(n.runnableId)]
  }

  function WorkflowNodeAttributes(n: WorkflowNode): Attributes {
    Flatten(n.element, WorkflowNodeAdditions(n), WorkflowNodeFields(n), "node_", WorkflowNodeExcluded)
  }

  lemma WorkflowNodeDirect(n: WorkflowNode)
    ensures WorkflowNodeAttributes(n) == DropNone(BaseAttributes(n.element) + WorkflowNodeAdditions(n))
  {
    var rest := IUnitFields(n.iunit) + [("task_counter", OptInt(n.taskCounter)), ("runnable_id", StrValue(n.runnableId))];
    assert WorkflowNodeFields(n) == ElementFields(n.element) + rest;
    FlattenDirect(n.element, WorkflowNodeAdditions(n), rest, "node_", WorkflowNodeExcluded);
  }

  // ---------------------------------------------------------------------------
  // capture_workflow_edge

  const WorkflowEdgeExcluded := ["attributes", "tags", "source_ids", "destination_ids", "weight", "is_conditional", "category"]

  function WorkflowEdgeAdditions(e: WorkflowEdge): Attributes {
    RelationAttributes(e.relation) + map["is_conditional" := Bool(e.isConditional), "category" := Str(Show(e.category))]
  }

  function WorkflowEdgeAttributes(e: WorkflowEdge): Attributes {
    Flatten(e.element, WorkflowEdgeAdditions(e), WorkflowEdgeFields(e), "edge_", WorkflowEdgeExcluded)
  }

  lemma WorkflowEdgeDirect(e: WorkflowEdge)
    ensures WorkflowEdgeAttributes(e) == DropNone(BaseAttributes(e.element) + WorkflowEdgeAdditions(e))
  {
    var rest := RelationFields(e.relation) + [("is_conditional", Bool(e.isConditional)), ("category", e.category)];
    assert WorkflowEdgeFields(e) == ElementFields(e.element) + rest;
    FlattenDirect(e.element, WorkflowEdgeAdditions(e), rest, "edge_", WorkflowEdgeExcluded);
  }

  // ---------------------------------------------------------------------------
  // capture_runable

  const RunableExcluded := ["attributes", "tags", "code_id", "is_generated", "consumed_resources", "input_schema", "output_schema", "workflow_id", "task_counter"]

  function RunableAdditions(r: Runable): Attributes {
    IUnitAttributes(r.iunit)
    + When(Truthy(OptStr(r.inputSchema)), "input_schema", OptStr(r.inputSchema))
    + When(Truthy(OptStr(r.outputSchema)), "output_schema", OptStr(r.outputSchema))
    + When(Truthy(OptStr(r.workflowId)), "workflow_id", OptStr(r.workflowId))
    + When(r.taskCounter.Some?, "task_counter", OptInt(r.taskCounter))
  }

  function RunableAttributes(r: Runable): Attributes {
    Flatten(r.element, RunableAdditions(r), RunableFields(r), "runable_", RunableExcluded)
  }

  lemma RunableDirect(r: Runable)
    ensures RunableAttributes(r) == DropNone(BaseAttributes(r.element) + RunableAdditions(r))
  {
    var rest := IUnitFields(r.iunit)
      + [("input_schema", OptStr(r.inputSchema)), ("output_schema", OptStr(r.outputSchema)),
         ("workflow_id", OptStr(r.workflowId)), ("task_counter", OptInt(r.taskCounter))];
    assert RunableFields(r) == ElementFields(r.element) + rest;
    FlattenDirect(r.element, RunableAdditions(r), rest, "runable_", RunableExcluded);
  }

  // ---------------------------------------------------------------------------
  // capture_task

  const TaskExcluded := ["attributes", "tags", "input_resource_ids", "input_data", "output_data", "output_data_ranking",
                         "created_resource_ids", "dependencies_ids", "runnable_id", "expected_start_time",
                         "expected_end_time", "priority", "is_generated"]

  function TaskAdditions(t: Task): Attributes {
    When(Truthy(t.inputResourceIds), "input_resource_ids", Prepare(t.inputResourceIds))
    + When(Truthy(t.inputData), "input_data", t.inputData)
    + When(Truthy(t.outputData), "output_data", Prepare(t.outputData))
    + When(Truthy(t.outputDataRanking), "output_data_ranking", Prepare(t.outputDataRanking))
    + When(Truthy(t.createdResourceIds), "created_resource_ids", Prepare(t.createdResourceIds))
    + When(Truthy(t.dependenciesIds), "dependencies_ids", Prepare(t.dependenciesIds))
    + When(Truthy(t.runnableId), "runnable_id", t.runnableId)
    + When(Truthy(t.expectedStartTime), "expected_start_time", t.expectedStartTime)
    + When(Truthy(t.expectedEndTime), "expected_end_time", t.expectedEndTime)
    + When(!t.priority.Null?, "priority", t.priority)
    + When(!t.isGenerated.Null?, "is_generated", t.isGenerated)
  }

  function TaskAttributes(t: Task): Attributes {
    Flatten(t.element, TaskAdditions(t), TaskFields(t), "task_", TaskExcluded)
  }

  lemma TaskDirect(t: Task)
    requires t.others == []
    ensures TaskAttributes(t) == DropNone(BaseAttributes(t.element) + TaskAdditions(t))
  {
    var rest := [("input_resource_ids", t.inputResourceIds), ("input_data", t.inputData), ("output_data", t.outputData),
       ("output_data_ranking", t.outputDataRanking), ("created_resource_ids", t.createdResourceIds),
       ("dependencies_ids", t.dependenciesIds), ("runnable_id", t.runnableId),
       ("expected_start_time", t.expectedStartTime), ("expected_end_time", t.expectedEndTime),
       ("priority", t.priority), ("is_generated", t.isGenerated)];
    assert TaskFields(t) == ElementFields(t.element) + rest;
    forall i | 0 <= i < |rest|
      ensures rest[i].0 in TaskExcluded
    {
      assert rest[i].0 == TaskExcluded[i + 2];
    }
    FlattenDirect(t.element, TaskAdditions(t), rest, "task_", TaskExcluded);
  }

  /** Another field of the task whose key is new and not excluded is
      recorded as `task_<key>` with its prepared value, unless that is None. */
  lemma TaskOther(t: Task, i: nat)
    requires i < |t.others| && DistinctKeys(TaskFields(t)) && Unblocked(TaskFields(t), "task_")
    requires t.others[i].0 !in BaseAttributes(t.element) + TaskAdditions(t)
    requires t.others[i].0 !in TaskExcluded && !t.others[i].1.Null?
    ensures "task_" + t.others[i].0 in TaskAttributes(t)
    ensures TaskAttributes(t)["task_" + t.others[i].0] == Prepare(t.others[i].1)
  {
    var fields := TaskFields(t);
    var j := |fields| - |t.others| + i;
    assert fields[j] == t.others[i];
    RemainingWrites(BaseAttributes(t.element) + TaskAdditions(t), fields, "task_", TaskExcluded, j);
  }

  // ---------------------------------------------------------------------------
  // capture_service

  const ServiceExcluded := ["attributes", "tags", "name", "namespace", "instance_id", "version", "environment"]

  function ServiceAdditions(s: Service): Attributes {
    map["service.name" := StrValue(s.name)]
    + When(s.namespace.Some?, "service.namespace", OptStr(s.namespace))
    + When(s.instanceId.Some?, "service.instance.id", OptStr(s.instanceId))
    + When(s.version.Some?, "service.version", OptStr(s.version))
    + When(s.environment.Some?, "service.environment", OptStr(s.environment))
  }

  function ServiceAttributes(s: Service): Attributes {
    Flatten(ServiceElement(s), ServiceAdditions(s), ServiceFields(s), "service_", ServiceExcluded)
  }

  lemma ServiceDirect(s: Service)
    ensures ServiceAttributes(s) == DropNone(BaseAttributes(ServiceElement(s)) + ServiceAdditions(s))
  {
    var rest := [("namespace", OptStr(s.namespace)), ("instance_id", OptStr(s.instanceId)),
                 ("version", OptStr(s.version)), ("environment", OptStr(s.environment))];
    assert ServiceFields(s) == ElementFields(ServiceElement(s)) + rest;
    FlattenDirect(ServiceElement(s), ServiceAdditions(s), rest, "service_", ServiceExcluded);
  }

  /** The service event names the service. */
  function ServiceEventName(s: Service): string {
    s.name + ".service"
  }

  // ---------------------------------------------------------------------------
  // capture_recommendation

  const RecommendationExcluded := ["attributes", "tags", "affected_element_ids", "effect", "level", "generated_time"]

  function RecommendationAdditions(r: Recommendation, now: string): Attributes {
    map["level" := Str(Show(r.level)), "generated_time" := StrValue(OrNow(r.generatedTime, now)),
        "affected_element_ids" := Prepare(StrList(r.affectedElementIds)), "effect" := Prepare(StrList(r.effect))]
  }

  function RecommendationAttributes(r: Recommendation, now: string): Attributes {
    Flatten(r.element, RecommendationAdditions(r, now), RecommendationFields(r), "recommendation_", RecommendationExcluded)
  }

  lemma RecommendationDirect(r: Recommendation, now: string)
    ensures RecommendationAttributes(r, now) == DropNone(BaseAttributes(r.element) + RecommendationAdditions(r, now))
  {
    var rest := [("generated_time", OptStr(r.generatedTime)), ("affected_element_ids", StrList(r.affectedElementIds)),
                 ("effect", StrList(r.effect)), ("level", r.level)];
    assert RecommendationFields(r) == ElementFields(r.element) + rest;
    FlattenDirect(r.element, RecommendationAdditions(r, now), rest, "recommendation_", RecommendationExcluded);
  }

  // ---------------------------------------------------------------------------
  // capture_data_annotation

  const DataAnnotationExcluded := ["attributes", "tags", "element_id", "segment_start", "segment_end", "type"]

  /** `annotation.type` is the element's own `type` text, which is never
      None, so `annotation_type` always repeats it. */
  function DataAnnotationAdditions(a: DataAnnotation): Attributes {
    map["element_id" := StrValue(a.elementId)]
    + When(a.segmentStart.Some?, "segment_start", OptInt(a.segmentStart))
    + When(a.segmentEnd.Some?, "segment_end", OptInt(a.segmentEnd))
    + map["annotation_type" := StrValue(a.element.elementType)]
  }

  function DataAnnotationAttributes(a: DataAnnotation): Attributes {
    Flatten(a.element, DataAnnotationAdditions(a), DataAnnotationFields(a), "annotation_", DataAnnotationExcluded)
  }

  lemma DataAnnotationDirect(a: DataAnnotation)
    ensures DataAnnotationAttributes(a) == DropNone(BaseAttributes(a.element) + DataAnnotationAdditions(a))
  {
    var rest := [("element_id", StrValue(a.elementId)), ("segment_start", OptInt(a.segmentStart)), ("segment_end", OptInt(a.segmentEnd))];
    assert DataAnnotationFields(a) == ElementFields(a.element) + rest;
    FlattenDirect(a.element, DataAnnotationAdditions(a), rest, "annotation_", DataAnnotationExcluded);
  }

  // ---------------------------------------------------------------------------
  // capture_issue

  const IssueExcluded := ["attributes", "tags", "affected_element_ids", "effect", "level", "time"]

  function IssueAdditions(i: Issue, now: string): Attributes {
    map["level" := Str(Show(i.level)), "time" := StrValue(OrNow(i.time, now)),
        "affected_element_ids" := Prepare(StrList(i.affectedElementIds)), "effect" := Prepare(StrList(i.effect))]
  }

  /** The remaining fields are written without a prefix. */
  function IssueAttributes(i: Issue, now: string): Attributes {
    Flatten(i.element, IssueAdditions(i, now), IssueFields(i), "", IssueExcluded)
  }

  lemma IssueDirect(i: Issue, now: string)
    ensures IssueAttributes(i, now) == DropNone(BaseAttributes(i.element) + IssueAdditions(i, now))
  {
    var rest := [("time", OptStr(i.time)), ("affected_element_ids", StrList(i.affectedElementIds)),
                 ("effect", StrList(i.effect)), ("level", i.level)];
    assert IssueFields(i) == ElementFields(i.element) + rest;
    FlattenDirect(i.element, IssueAdditions(i, now), rest, "", IssueExcluded);
  }

  // ---------------------------------------------------------------------------
  // capture_ai_event

  const AIEventExcluded := ["attributes", "tags", "status"]

  function AIEventAdditions(a: AIEvent): Attributes {
    map["status" := if a.status.Some? then StrIfTruthy(a.status.value) else Null,
        "event_timestamp" := Prepare(DateTime(a.timestamp))]
  }

  function AIEventAttributes(a: AIEvent): Attributes {
    Flatten(a.element, AIEventAdditions(a), AIEventFields(a), "event_", AIEventExcluded)
  }

  /** The pass writes `event_timestamp` a second time, with the value it
      already has, and nothing else. */
  lemma AIEventDirect(a: AIEvent)
    ensures AIEventAttributes(a) == DropNone(BaseAttributes(a.element) + AIEventAdditions(a))
  {
    var attributes := BaseAttributes(a.element) + AIEventAdditions(a);
    var status := if a.status.Some? then a.status.value else Null;
    var rest := [("timestamp", DateTime(a.timestamp)), ("status", status)];
    assert AIEventFields(a) == ElementFields(a.element) + rest;
    BaseCore(a.element);
    ElementCovered(a.element, attributes, AIEventExcluded);
    RemainingIdle(attributes, ElementFields(a.element), "event_", AIEventExcluded);
    RemainingAppend(attributes, ElementFields(a.element), rest, "event_", AIEventExcluded);
    assert "timestamp"[..5] == "times";
    BaseAbsent(a.element, "timestamp");
    assert "timestamp" !in attributes;
    AIEventPass(attributes, rest, a.timestamp);
    assert Remaining(attributes, AIEventFields(a), "event_", AIEventExcluded) == attributes;
  }

  /** The two event fields: the timestamp is rewritten with the same value
      and the status is already present. */
  lemma AIEventPass(attributes: Attributes, rest: Fields, timestamp: string)
    requires |rest| == 2 && rest[0] == ("timestamp", DateTime(timestamp)) && rest[1].0 == "status"
    requires "timestamp" !in attributes && "status" in attributes
    requires "event_timestamp" in attributes && attributes["event_timestamp"] == Prepare(DateTime(timestamp))
    ensures Remaining(attributes, rest, "event_", AIEventExcluded) == attributes
  {
    assert "event_" + "timestamp" == "event_timestamp";
    assert attributes["event_timestamp" := Prepare(DateTime(timestamp))] == attributes;
    assert Remaining(attributes, rest, "event_", AIEventExcluded)
        == Remaining(attributes, rest[1..], "event_", AIEventExcluded);
    assert rest[1..][1..] == [];
  }

  // ---------------------------------------------------------------------------
  // capture_agent

  const AgentExcluded := ["attributes", "tags", "resource_ids", "tool_ids", "skill_ids", "code_id", "is_generated", "consumed_resources"]

  function AgentAdditions(a: Agent): Attributes {
    IUnitAttributes(a.iunit) + HoldingsAttributes(a.holdings)
  }

  function AgentAttributes(a: Agent): Attributes {
    Flatten(a.element, AgentAdditions(a), AgentFields(a), "agent_", AgentExcluded)
  }

  lemma AgentDirect(a: Agent)
    ensures AgentAttributes(a) == DropNone(BaseAttributes(a.element) + AgentAdditions(a))
  {
    assert AgentFields(a) == ElementFields(a.element) + (IUnitFields(a.iunit) + HoldingsFields(a.holdings));
    FlattenDirect(a.element, AgentAdditions(a), IUnitFields(a.iunit) + HoldingsFields(a.holdings), "agent_", AgentExcluded);
  }
}
