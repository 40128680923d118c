/** `AIEventTracer`
    (beyond-black-box-benchmarking/sdk/src/agent_analytics/instrumentation/utils/ai_event_tracer.py)
    as a class over the span log it writes to. `spans` is every span the
    process has started, in order; `current` is the span the context marks as
    current, which no capture changes.

    Each `capture_*` records into the current span when that span is
    recording, and otherwise into a new span named after its caller that it
    ends itself. `caller` is the name of the function that called the
    capture, which the source reads from the interpreter stack. */
module EventTracer {
  import opened Common
  import opened TracerValues
  import opened TracerEntities
  import opened TracerAttributes
  import opened SpanLog
  import opened TracerCaptures

  /** The role events of an organization, one per role, in order. */
  function RoleEvents(roles: seq<Role>): (r: seq<Event>)
    ensures |r| == |roles|
    ensures forall i :: 0 <= i < |roles| ==> r[i] == Event(EventName(roles[i].element, "role"), RoleAttributes(roles[i]))
  {
    seq(|roles|, i requires 0 <= i < |roles| => Event(EventName(roles[i].element, "role"), RoleAttributes(roles[i])))
  }

  function OrganizationEvent(o: Organization): Event {
    Event(EventName(o.element, "organization"), OrganizationAttributes(o))
  }

  /** The fallback name of the spans of the roles an organization captures:
      their caller is `capture_organization` itself. */
  const OrganizationCaller := "capture_organization"

  const RoleFallback := OrganizationCaller + ".role"

  lemma {:induction false} EmitAllLength(spans: seq<Span>, current: Option<nat>, fallback: string, events: seq<Event>)
    ensures |spans| <= |EmitAll(spans, current, fallback, events)| <= |spans| + |events|
    decreases |events|
  {
    if events != [] {
      EmitAllLength(spans, current, fallback, events[..|events| - 1]);
    }
  }

  /** `capture_organization`: the organization's span is opened first, each
      role is captured (into the current span, or into a span of its own),
      and then the organization's event is added and its span ended if new. */
  function OrganizationLog(spans: seq<Span>, current: Option<nat>, caller: string, o: Organization): seq<Span> {
    var (log, index, isNew) := Open(spans, current, caller + ".organization");
    var withRoles := EmitAll(log, current, RoleFallback, RoleEvents(RolesOf(o)));
    EmitAllLength(log, current, RoleFallback, RoleEvents(RolesOf(o)));
    var added := AddEvent(withRoles, index, OrganizationEvent(o));
    if isNew then End(added, index) else added
  }

  predicate InRange(spans: seq<Span>, current: Option<nat>) {
    current.Some? ==> current.value < |spans|
  }

  /** With a recording current span, the role events and then the
      organization's event are appended to it, and nothing else changes. */
  lemma OrganizationRecording(spans: seq<Span>, current: Option<nat>, caller: string, o: Organization)
    requires Recording(spans, current)
    ensures var r := OrganizationLog(spans, current, caller, o);
            var c := current.value;
            && |r| == |spans|
            && Recording(r, current)
            && r[c].events == spans[c].events + RoleEvents(RolesOf(o)) + [OrganizationEvent(o)]
            && forall i :: 0 <= i < |r| && i != c ==> r[i] == spans[i]
  {
    EmitAllRecording(spans, current, RoleFallback, RoleEvents(RolesOf(o)));
  }

  /** Otherwise the organization gets an ended span of its own holding just
      its event, followed by one ended span per role, in order. */
  lemma OrganizationFallback(spans: seq<Span>, current: Option<nat>, caller: string, o: Organization)
    requires !Recording(spans, current) && InRange(spans, current)
    ensures var r := OrganizationLog(spans, current, caller, o);
            var events := RoleEvents(RolesOf(o));
            && |r| == |spans| + 1 + |events|
            && !Recording(r, current)
            && r[..|spans|] == spans
            && r[|spans|] == Span(caller + ".organization", [OrganizationEvent(o)], true)
            && forall i :: 0 <= i < |events| ==> r[|spans| + 1 + i] == Span(RoleFallback, [events[i]], true)
  {
    var log := spans + [Span(caller + ".organization", [], false)];
    var events := RoleEvents(RolesOf(o));
    var withRoles := EmitAll(log, current, RoleFallback, events);
    OrganizationLogNew(spans, current, caller, o);
    assert !Recording(log, current);
    EmitAllFallback(log, current, RoleFallback, events);
    assert withRoles[|spans|] == log[|spans|] by {
      assert withRoles[..|log|][|spans|] == log[|spans|];
    }
    FinishNew(withRoles, |spans|, OrganizationEvent(o));
    var r := End(AddEvent(withRoles, |spans|, OrganizationEvent(o)), |spans|);
    assert r[..|spans|] == spans by {
      assert r[..|spans|] == withRoles[..|spans|];
      assert withRoles[..|spans|] == withRoles[..|log|][..|spans|];
    }
    forall i | 0 <= i < |events|
      ensures r[|spans| + 1 + i] == Span(RoleFallback, [events[i]], true)
    {
      assert r[|log| + i] == withRoles[|log| + i];
    }
  }

  /** Without a recording span the organization's span is the new last one. */
  lemma OrganizationLogNew(spans: seq<Span>, current: Option<nat>, caller: string, o: Organization)
    requires !Recording(spans, current)
    ensures var log := spans + [Span(caller + ".organization", [], false)];
            var withRoles := EmitAll(log, current, RoleFallback, RoleEvents(RolesOf(o)));
            && |spans| < |withRoles|
            && OrganizationLog(spans, current, caller, o) == End(AddEvent(withRoles, |spans|, OrganizationEvent(o)), |spans|)
  {
    var log := spans + [Span(caller + ".organization", [], false)];
    EmitAllLength(log, current, RoleFallback, RoleEvents(RolesOf(o)));
  }

  /** Adding the event to a fresh span and ending it. */
  lemma FinishNew(spans: seq<Span>, index: nat, event: Event)
    requires index < |spans| && spans[index].events == [] && !spans[index].ended
    ensures var r := End(AddEvent(spans, index, event), index);
            && |r| == |spans|
            && r[index] == spans[index].(events := [event], ended := true)
            && forall i :: 0 <= i < |r| && i != index ==> r[i] == spans[i]
  {
    assert [] + [event] == [event];
  }

  /** Every role and the organization record exactly one event each. */
  lemma OrganizationCount(spans: seq<Span>, current: Option<nat>, caller: string, o: Organization)
    requires InRange(spans, current)
    ensures EventCount(OrganizationLog(spans, current, caller, o)) == EventCount(spans) + |RolesOf(o)| + 1
  {
    var (log, index, isNew) := Open(spans, current, caller + ".organization");
    var events := RoleEvents(RolesOf(o));
    if isNew {
      EventCountAppend(spans, [Span(caller + ".organization", [], false)]);
      assert EventCount([Span(caller + ".organization", [], false)]) == 0 by {
        assert [Span(caller + ".organization", [], false)][..0] == [];
      }
    }
    EmitAllCount(log, current, RoleFallback, events);
    var withRoles := EmitAll(log, current, RoleFallback, events);
    EmitAllLength(log, current, RoleFallback, events);
    if Recording(spans, current) {
      EmitAllRecording(log, current, RoleFallback, events);
    } else {
      EmitAllFallback(log, current, RoleFallback, events);
      assert withRoles[index] == log[..|log|][index];
    }
    assert !withRoles[index].ended;
    var s := withRoles[index];
    EventCountUpdate(withRoles, index, s.(events := s.events + [OrganizationEvent(o)]));
    var added := AddEvent(withRoles, index, OrganizationEvent(o));
    if isNew {
      EventCountUpdate(added, index, added[index].(ended := true));
    }
  }

  /** `OrganizationLog` in the terms of the steps that produce it. */
  lemma OrganizationLogIs(spans: seq<Span>, current: Option<nat>, caller: string, o: Organization,
                          log: seq<Span>, index: nat, isNew: bool, withRoles: seq<Span>)
    requires (log, index, isNew) == Open(spans, current, caller + ".organization")
    requires withRoles == EmitAll(log, current, RoleFallback, RoleEvents(RolesOf(o)))
    requires index < |withRoles|
    ensures var added := AddEvent(withRoles, index, OrganizationEvent(o));
            OrganizationLog(spans, current, caller, o) == if isNew then End(added, index) else added
  {
  }

  /** The attributes of one event: base attributes, additions, the
      remaining-fields pass, and no None values. */
  method FlattenAttributes(e: Element, additions: Attributes, fields: Fields, prefix: string, excluded: seq<string>)
    returns (attributes: Attributes)
    ensures attributes == Flatten(e, additions, fields, prefix, excluded)
  {
    attributes := ElementBaseAttributes(e);
    attributes := attributes + additions;
    attributes := GenericPass(attributes, fields, prefix, excluded);
    attributes := DropNone(attributes);
  }

  /** The organization's additions, as `capture_organization` builds them. */
  lemma OrganizationAdditionsSteps(o: Organization)
    ensures var plain := IUnitAttributes(o.iunit) + HoldingsAttributes(o.holdings);
            && (RolesOf(o) != [] ==> OrganizationAdditions(o) == plain + map["role_ids" := Prepare(StrList(RoleIds(RolesOf(o))))])
            && (RolesOf(o) == [] ==> OrganizationAdditions(o) == plain)
  {
    var plain := IUnitAttributes(o.iunit) + HoldingsAttributes(o.holdings);
    assert plain + map[] == plain;
  }

  class Tracer {
    var spans: seq<Span>
    var current: Option<nat>

    /** The current span, when there is one, is a span of the log. */
    predicate Valid()
      reads this
    {
      InRange(spans, current)
    }

    constructor(spans: seq<Span>, current: Option<nat>)
      requires InRange(spans, current)
      ensures Valid()
      ensures this.spans == spans && this.current == current
    {
      this.spans := spans;
      this.current := current;
    }

    /** The recording current span, or a new span started under the
        fallback name. */
    method OpenRecordSpan(fallback: string) returns (index: nat, isNew: bool)
      requires Valid()
      modifies this
      ensures Valid() && current == old(current)
      ensures (spans, index, isNew) == Open(old(spans), current, fallback)
      ensures index < |spans|
    {
      if Recording(spans, current) {
        index, isNew := current.value, false;
      } else {
        index, isNew := |spans|, true;
        spans := spans + [Span(fallback, [], false)];
      }
    }

    method AddEventTo(index: nat, event: Event)
      requires Valid() && index < |spans|
      modifies this
      ensures Valid() && current == old(current)
      ensures spans == AddEvent(old(spans), index, event)
    {
      if !spans[index].ended {
        spans := spans[index := spans[index].(events := spans[index].events + [event])];
      }
    }

    method EndSpan(index: nat)
      requires Valid() && index < |spans|
      modifies this
      ensures Valid() && current == old(current)
      ensures spans == End(old(spans), index)
    {
      spans := spans[index := spans[index].(ended := true)];
    }

    /** The steps every capture takes: open the record span, build the
        attributes, add the event, end the span if it is new. */
    method Capture(fallback: string, e: Element, additions: Attributes, fields: Fields, prefix: string,
                   excluded: seq<string>, name: string)
      requires Valid()
      modifies this
      ensures Valid() && current == old(current)
      ensures spans == Emit(old(spans), current, fallback, Event(name, Flatten(e, additions, fields, prefix, excluded)))
    {
      var index, isNew := OpenRecordSpan(fallback);
      var attributes := FlattenAttributes(e, additions, fields, prefix, excluded);
      var event := Event(name, attributes);
      AddEventTo(index, event);
      if isNew {
        EndSpan(index);
      }
      OpenAddEnd(old(spans), current, fallback, event);
    }

    method CaptureResource(r: Resource, caller: string)
      requires Valid()
      modifies this
      ensures Valid() && current == old(current)
      ensures spans == Emit(old(spans), current, caller + ".resource", Event(EventName(r.element, "resource"), ResourceAttributes(r)))
    {
      Capture(caller + ".resource", r.element, ResourceAdditions(r), ResourceFields(r), "", ResourceExcluded,
              EventName(r.element, "resource"));
    }

    method CaptureRole(r: Role, caller: string)
      requires Valid()
      modifies this
      ensures Valid() && current == old(current)
      ensures spans == Emit(old(spans), current, caller + ".role", Event(EventName(r.element, "role"), RoleAttributes(r)))
    {
      Capture(caller + ".role", r.element, RoleAdditions(r), RoleFields(r), "role_", RoleExcluded,
              EventName(r.element, "role"));
    }

    /** The role loop of `capture_organization`. */
    method CaptureRoles(roles: seq<Role>)
      requires Valid()
      modifies this
      ensures Valid() && current == old(current)
      ensures spans == EmitAll(old(spans), current, RoleFallback, RoleEvents(roles))
    {
      ghost var events := RoleEvents(roles);
      for i := 0 to |roles|
        invariant Valid() && current == old(current)
        invariant spans == EmitAll(old(spans), current, RoleFallback, events[..i])
      {
        CaptureRole(roles[i], OrganizationCaller);
        assert events[..i + 1][..i] == events[..i];
      }
      assert events[..|roles|] == events;
    }

    method CaptureOrganization(o: Organization, caller: string)
      requires Valid()
      modifies this
      ensures Valid() && current == old(current)
      ensures spans == OrganizationLog(old(spans), current, caller, o)
    {
      var index, isNew := OpenRecordSpan(caller + ".organization");
      ghost var start := spans;
      var additions := IUnitAttributes(o.iunit) + HoldingsAttributes(o.holdings);
      var roles := RolesOf(o);
      if roles != [] {
        additions := additions + map["role_ids" := Prepare(StrList(RoleIds(roles)))];
        CaptureRoles(roles);
      } else {
        assert RoleEvents(roles) == [];
      }
      OrganizationAdditionsSteps(o);
      var attributes := FlattenAttributes(o.element, additions, OrganizationFields(o), "organization_", OrganizationExcluded);
      var event := Event(EventName(o.element, "organization"), attributes);
      ghost var withRoles := spans;
      EmitAllLength(start, current, RoleFallback, RoleEvents(roles));
      AddEventTo(index, event);
      if isNew {
        EndSpan(index);
      }
      OrganizationLogIs(old(spans), current, caller, o, start, index, isNew, withRoles);
    }

    method CaptureWorkflow(w: Workflow, caller: string)
      requires Valid()
      modifies this
      ensures Valid() && current == old(current)
      ensures spans == Emit(old(spans), current, caller + ".workflow", Event(EventName(w.element, "workflow"), WorkflowAttributes(w)))
    {
      Capture(caller + ".workflow", w.element, map[], WorkflowFields(w), "workflow_", WorkflowExcluded,
              EventName(w.element, "workflow"));
    }

    method CaptureWorkflowNode(n: WorkflowNode, caller: string)
      requires Valid()
      modifies this
      ensures Valid() && current == old(current)
      ensures spans == Emit(old(spans), current, caller + ".workflow_node",
                            Event(EventName(n.element, "workflow_node"), WorkflowNodeAttributes(n)))
    {
      Capture(caller + ".workflow_node", n.element, WorkflowNodeAdditions(n), WorkflowNodeFields(n), "node_",
              WorkflowNodeExcluded, EventName(n.element, "workflow_node"));
    }

    method CaptureWorkflowEdge(e: WorkflowEdge, caller: string)
      requires Valid()
      modifies this
      ensures Valid() && current == old(current)
      ensures spans == Emit(old(spans), current, caller + ".workflow_edge",
                            Event(EventName(e.element, "workflow_edge"), WorkflowEdgeAttributes(e)))
    {
      Capture(caller + ".workflow_edge", e.element, WorkflowEdgeAdditions(e), WorkflowEdgeFields(e), "edge_",
              WorkflowEdgeExcluded, EventName(e.element, "workflow_edge"));
    }

    method CaptureRunable(r: Runable, caller: string)
      requires Valid()
      modifies this
      ensures Valid() && current == old(current)
      ensures spans == Emit(old(spans), current, caller + ".runable", Event(EventName(r.element, "runable"), RunableAttributes(r)))
    {
      Capture(caller + ".runable", r.element, RunableAdditions(r), RunableFields(r), "runable_", RunableExcluded,
              EventName(r.element, "runable"));
    }

    method CaptureTask(t: Task, caller: string)
      requires Valid()
      modifies this
      ensures Valid() && current == old(current)
      ensures spans == Emit(old(spans), current, caller + ".task", Event(EventName(t.element, "task"), TaskAttributes(t)))
    {
      Capture(caller + ".task", t.element, TaskAdditions(t), TaskFields(t), "task_", TaskExcluded,
              EventName(t.element, "task"));
    }

    method CaptureService(s: Service, caller: string)
      requires Valid()
      modifies this
      ensures Valid() && current == old(current)
      ensures spans == Emit(old(spans), current, caller + ".service", Event(ServiceEventName(s), ServiceAttributes(s)))
    {
      Capture(caller + ".service", ServiceElement(s), ServiceAdditions(s), ServiceFields(s), "service_",
              ServiceExcluded, ServiceEventName(s));
    }

    /** `now` is the clock's reading, used when the recommendation has no
        generation time. */
    method CaptureRecommendation(r: Recommendation, caller: string, now: string)
      requires Valid()
      modifies this
      ensures Valid() && current == old(current)
      ensures spans == Emit(old(spans), current, caller + ".recommendation",
                            Event(EventName(r.element, "recommendation"), RecommendationAttributes(r, now)))
    {
      Capture(caller + ".recommendation", r.element, RecommendationAdditions(r, now), RecommendationFields(r),
              "recommendation_", RecommendationExcluded, EventName(r.element, "recommendation"));
    }

    method CaptureDataAnnotation(a: DataAnnotation, caller: string)
      requires Valid()
      modifies this
      ensures Valid() && current == old(current)
      ensures spans == Emit(old(spans), current, caller + ".data_annotation",
                            Event(EventName(a.element, "data_annotation"), DataAnnotationAttributes(a)))
    {
      Capture(caller + ".data_annotation", a.element, DataAnnotationAdditions(a), DataAnnotationFields(a),
              "annotation_", DataAnnotationExcluded, EventName(a.element, "data_annotation"));
    }

    /** `now` is the clock's reading, used when the issue has no time. */
    method CaptureIssue(i: Issue, caller: string, now: string)
      requires Valid()
      modifies this
      ensures Valid() && current == old(current)
      ensures spans == Emit(old(spans), current, caller + ".issue", Event(EventName(i.element, "issue"), IssueAttributes(i, now)))
    {
      Capture(caller + ".issue", i.element, IssueAdditions(i, now), IssueFields(i), "", IssueExcluded,
              EventName(i.element, "issue"));
    }

    method CaptureAIEvent(a: AIEvent, caller: string)
      requires Valid()
      modifies this
      ensures Valid() && current == old(current)
      ensures spans == Emit(old(spans), current, caller + ".ai_event", Event(EventName(a.element, "ai_event"), AIEventAttributes(a)))
    {
      Capture(caller + ".ai_event", a.element, AIEventAdditions(a), AIEventFields(a), "event_", AIEventExcluded,
              EventName(a.element, "ai_event"));
    }

    method CaptureAgent(a: Agent, caller: string)
      requires Valid()
      modifies this
      ensures Valid() && current == old(current)
      ensures spans == Emit(old(spans), current, caller + ".agent", Event(EventName(a.element, "agent"), AgentAttributes(a)))
    {
      Capture(caller + ".agent", a.element, AgentAdditions(a), AgentFields(a), "agent_", AgentExcluded,
              EventName(a.element, "agent"));
    }
  }
}
