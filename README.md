# Agent analytics: event tracer, calculator examples and in-memory data manager

This project models five sequential parts of the `beyond-black-box-benchmarking`
repository in Dafny and proves their properties.

1. **The AI event tracer** (`AIEventTracer` in the SDK).
   - Every `capture_*` method turns a record into one span event.
   - The attribute map is built in four steps:
     - the element's base attributes;
     - the type's own additions;
     - a generic pass that copies the remaining `dict()` fields, with a prefix and guarded by an exclusion list;
     - removal of `None` values.
   - Values are normalised by `_prepare_attribute_for_otel`.
   - Span policy: the event goes to the current span when that span is recording; otherwise a fallback span is opened, receives the event and is ended.
   - Modules:
     - `TracerValues` (values and their normalisation);
     - `TracerEntities` (records and their `dict()`);
     - `TracerAttributes` (base attributes, the generic pass, dropping `None`);
     - `SpanLog` (an abstract log of spans);
     - `TracerCaptures` (the attributes of each capture);
     - `EventTracer` (a `Tracer` class whose methods update the span log in place).
2. **Expression decomposition** of the evaluating calculator.
   - Module `BracketExtraction`: the bracket matcher with its stack and its splice loop with `delta`.
   - Module `Arithmetic`: the in-place two-pass reduction of the split token list.
   - Module `EvalWorkflow`: `should_finish` and the plan/execute/validate rounds it drives.
3. **Helpers of the LLM calculator** (module `LlmCalculator`):
   - the simple-expression recogniser;
   - brace escaping in `add_bad_examples`;
   - the operation-name check;
   - the curly-group scanner of `is_valid_result`.
4. **The calculator chain** (modules `Calculators` and `EvalCalculator`):
   - base, predefined and delegating calculators over an abstract value type, where a delegate's calculation and its validators may each raise;
   - the bracket-to-parenthesis rewriting.
5. **The in-memory data manager** (module `DataManager`).
   - A map from class name to a bucket of artifacts. A bucket is kept in dictionary insertion order.
   - Pure functions for every operation.
   - An `InMemoryDataManager` class whose `Store` and `Delete` update the map in place.

`Common` holds the shared helpers:
- `Option`;
- character classes (ASCII digits for `\d`; the `str.isspace()` whitespace for `\s` and `str.strip()`);
- single-character `str.replace`;
- decimal rendering of a counter;
- `str.strip`.

## Model

| member | source | states |
|---|---|---|
| TracerValues.Prepare | beyond-black-box-benchmarking/sdk/src/agent_analytics/instrumentation/utils/ai_event_tracer.py:38-70 | the result is always an attribute value (None, a primitive or a text); it is None exactly when the input is None; primitives, str- and int-mixin enum members included (they are checked first), pass through unchanged; other enum members become their `str()` label, datetimes their ISO text |
| TracerValues.PrepareIdempotent | beyond-black-box-benchmarking/sdk/src/agent_analytics/instrumentation/utils/ai_event_tracer.py:38-70 | preparing a prepared value changes nothing |
| TracerValues.AttributeSerialisable | beyond-black-box-benchmarking/sdk/src/agent_analytics/instrumentation/utils/ai_event_tracer.py:52-62 | every prepared value is JSON-serialisable, so dumping prepared items never hits the `str()` fallback |
| TracerValues.PreparePrimitiveList | beyond-black-box-benchmarking/sdk/src/agent_analytics/instrumentation/utils/ai_event_tracer.py:49-51 | an all-primitive list becomes a text; the empty list becomes the empty text (not None); a one-item list becomes that item's text |
| TracerValues.PreparePrimitiveListSnoc | beyond-black-box-benchmarking/sdk/src/agent_analytics/instrumentation/utils/ai_event_tracer.py:49-51 | appending an item appends `", "` and the item's text, so items keep their order |
| TracerValues.JoinCommaSnoc | beyond-black-box-benchmarking/sdk/src/agent_analytics/instrumentation/utils/ai_event_tracer.py:51 | `", ".join` of a list grown by one part is the old join, the separator and the part |
| TracerValues.PrepareMixedList | beyond-black-box-benchmarking/sdk/src/agent_analytics/instrumentation/utils/ai_event_tracer.py:52-56 | a list with a non-primitive item becomes the JSON text of its element-wise prepared items |
| TracerValues.PrepareDict | beyond-black-box-benchmarking/sdk/src/agent_analytics/instrumentation/utils/ai_event_tracer.py:57-61 | a dict becomes the JSON text of its keys with prepared values |
| TracerValues.PrepareModel | beyond-black-box-benchmarking/sdk/src/agent_analytics/instrumentation/utils/ai_event_tracer.py:62-70 | a model becomes the JSON text of its `dict()` when that is serialisable, and its `str()` otherwise |
| TracerAttributes.ElementBaseAttributes | beyond-black-box-benchmarking/sdk/src/agent_analytics/instrumentation/utils/ai_event_tracer.py:72-92 | the step-by-step build of the base map yields the base attributes of the element |
| TracerAttributes.BaseCore | beyond-black-box-benchmarking/sdk/src/agent_analytics/instrumentation/utils/ai_event_tracer.py:75-81 | `id`, `type`, `owner_id`, `name` and `description` are always present, with the element's values |
| TracerAttributes.BaseTags | beyond-black-box-benchmarking/sdk/src/agent_analytics/instrumentation/utils/ai_event_tracer.py:84-86 | `tags` is present exactly when the tags are truthy, with their prepared value |
| TracerAttributes.BaseEntry | beyond-black-box-benchmarking/sdk/src/agent_analytics/instrumentation/utils/ai_event_tracer.py:88-90 | `attr_k` is present exactly when `k` is a key of the element's attributes, with the prepared value of its last occurrence |
| TracerAttributes.BaseOnly | beyond-black-box-benchmarking/sdk/src/agent_analytics/instrumentation/utils/ai_event_tracer.py:72-92 | no other key is present in the base map |
| TracerAttributes.BaseAbsent | beyond-black-box-benchmarking/sdk/src/agent_analytics/instrumentation/utils/ai_event_tracer.py:72-92 | a key that is neither a core key nor an `attr_` key is absent from the base map |
| TracerAttributes.AttrKeyInjective | beyond-black-box-benchmarking/sdk/src/agent_analytics/instrumentation/utils/ai_event_tracer.py:90 | distinct attribute keys give distinct `attr_` keys |
| TracerAttributes.GenericPass | beyond-black-box-benchmarking/sdk/src/agent_analytics/instrumentation/utils/ai_event_tracer.py:161-166 | the loop over the `dict()` items computes the remaining-fields function |
| TracerAttributes.RemainingFrame | beyond-black-box-benchmarking/sdk/src/agent_analytics/instrumentation/utils/ai_event_tracer.py:164-166 | a key the pass cannot write (every field it could come from is already a key or excluded) keeps its presence and value |
| TracerAttributes.RemainingGrows | beyond-black-box-benchmarking/sdk/src/agent_analytics/instrumentation/utils/ai_event_tracer.py:164-166 | the pass never removes a key, None-valued keys included |
| TracerAttributes.RemainingWrites | beyond-black-box-benchmarking/sdk/src/agent_analytics/instrumentation/utils/ai_event_tracer.py:164-166 | a field that is neither a key nor excluded is written under prefix + field name with its prepared value (field names distinct, prefixed names not shadowed) |
| TracerAttributes.RemainingIdle | beyond-black-box-benchmarking/sdk/src/agent_analytics/instrumentation/utils/ai_event_tracer.py:164-166 | when every field is already a key or excluded, the pass changes nothing |
| TracerAttributes.RemainingAppend | beyond-black-box-benchmarking/sdk/src/agent_analytics/instrumentation/utils/ai_event_tracer.py:164-166 | the pass over a concatenation of fields is the pass over the first part followed by the pass over the second |
| TracerAttributes.DropNone | beyond-black-box-benchmarking/sdk/src/agent_analytics/instrumentation/utils/ai_event_tracer.py:168-169 | a key is kept iff its value is not None, with its value unchanged; a map with no None is left as it is |
| TracerAttributes.DropNoneClean | beyond-black-box-benchmarking/sdk/src/agent_analytics/instrumentation/utils/ai_event_tracer.py:168-169 | the event never carries None, and filtering again changes nothing |
| TracerCaptures.FlattenDirect | beyond-black-box-benchmarking/sdk/src/agent_analytics/instrumentation/utils/ai_event_tracer.py:146-169 | when every field is already a key or excluded, the event attributes are just the base map and the additions without None |
| TracerCaptures.FlattenIdentity | beyond-black-box-benchmarking/sdk/src/agent_analytics/instrumentation/utils/ai_event_tracer.py:146-169 | every event keeps the element's `id` and `type` when the additions leave them alone and the prefix is empty or ends with `_` |
| TracerCaptures.ResourceDirect | beyond-black-box-benchmarking/sdk/src/agent_analytics/instrumentation/utils/ai_event_tracer.py:146-169 | a resource without further schema fields gets the base map plus `category` (`str` if truthy), `format` and `payload` (JSON or `str`), minus None |
| TracerCaptures.ResourceOther | beyond-black-box-benchmarking/sdk/src/agent_analytics/instrumentation/utils/ai_event_tracer.py:161-166 | any other non-None resource field that is not excluded is written UNPREFIXED with its prepared value |
| TracerCaptures.RoleDirect | beyond-black-box-benchmarking/sdk/src/agent_analytics/instrumentation/utils/ai_event_tracer.py:181-219 | a role's event is base, relation attributes and the prepared `instructions` when truthy, minus None; the `role_` pass adds nothing |
| TracerCaptures.OrganizationDirect | beyond-black-box-benchmarking/sdk/src/agent_analytics/instrumentation/utils/ai_event_tracer.py:230-280 | an organization's event is base, IUnit attributes, holdings and `role_ids`, minus None; the `organization_` pass adds nothing |
| TracerCaptures.OrganizationRoleIds | beyond-black-box-benchmarking/sdk/src/agent_analytics/instrumentation/utils/ai_event_tracer.py:264-266 | `role_ids` is present in the event iff the roles are non-empty, and then holds the prepared list of the role ids in list order |
| TracerCaptures.AdditionsRoleIds | beyond-black-box-benchmarking/sdk/src/agent_analytics/instrumentation/utils/ai_event_tracer.py:264-266 | the organization's additions hold `role_ids` iff there are roles, with the prepared id list |
| TracerCaptures.WorkflowDirect | beyond-black-box-benchmarking/sdk/src/agent_analytics/instrumentation/utils/ai_event_tracer.py:292-326 | a workflow's event is its base map minus None |
| TracerCaptures.WorkflowNodeDirect | beyond-black-box-benchmarking/sdk/src/agent_analytics/instrumentation/utils/ai_event_tracer.py:334-375 | a node's event is base, IUnit attributes, `task_counter` and `runnable_id`, minus None |
| TracerCaptures.WorkflowEdgeDirect | beyond-black-box-benchmarking/sdk/src/agent_analytics/instrumentation/utils/ai_event_tracer.py:383-424 | an edge's event is base, relation attributes, `is_conditional` and the prepared `category`, minus None |
| TracerCaptures.RunableDirect | beyond-black-box-benchmarking/sdk/src/agent_analytics/instrumentation/utils/ai_event_tracer.py:432-479 | a runable's event is base, IUnit attributes, and `input_schema`, `output_schema`, `workflow_id` when truthy and `task_counter` when set, minus None; the `runable_` pass adds nothing |
| TracerCaptures.TaskDirect | beyond-black-box-benchmarking/sdk/src/agent_analytics/instrumentation/utils/ai_event_tracer.py:487-559 | a task without further schema fields gets base plus each of its eleven own fields when truthy (`priority` and `is_generated` when not None), the id lists and outputs prepared and the rest as they are, minus None |
| TracerCaptures.TaskOther | beyond-black-box-benchmarking/sdk/src/agent_analytics/instrumentation/utils/ai_event_tracer.py:544-549 | any other non-None task field that is not excluded is written as `task_<key>` with its prepared value |
| TracerCaptures.ServiceDirect | beyond-black-box-benchmarking/sdk/src/agent_analytics/instrumentation/utils/ai_event_tracer.py:567-616 | a service's event is base (with the service's own name), `service.name`, and `service.namespace`, `service.instance.id`, `service.version`, `service.environment` when set, minus None; the `service_` pass adds nothing |
| TracerCaptures.RecommendationDirect | beyond-black-box-benchmarking/sdk/src/agent_analytics/instrumentation/utils/ai_event_tracer.py:628-671 | a recommendation's event carries `generated_time` (or now), the affected ids, the effect and the level, minus None |
| TracerCaptures.DataAnnotationDirect | beyond-black-box-benchmarking/sdk/src/agent_analytics/instrumentation/utils/ai_event_tracer.py:678-728 | an annotation's event is base, `element_id`, the segment bounds when set and `annotation_type`, which always repeats the element type, minus None |
| TracerCaptures.IssueDirect | beyond-black-box-benchmarking/sdk/src/agent_analytics/instrumentation/utils/ai_event_tracer.py:735-778 | an issue's event carries `time` (or now), the affected ids, the effect and the level, minus None; the unprefixed pass adds nothing |
| TracerCaptures.AIEventDirect | beyond-black-box-benchmarking/sdk/src/agent_analytics/instrumentation/utils/ai_event_tracer.py:785-829 | an AI event's event is base, `status` (`str` if truthy) and the ISO `event_timestamp`, minus None; the `event_` pass rewrites `event_timestamp` with the value it already holds and adds nothing else |
| TracerCaptures.AgentDirect | beyond-black-box-benchmarking/sdk/src/agent_analytics/instrumentation/utils/ai_event_tracer.py:836-881 | an agent's event is base, IUnit attributes and holdings, minus None |
| SpanLog.OpenAddEnd | beyond-black-box-benchmarking/sdk/src/agent_analytics/instrumentation/utils/ai_event_tracer.py:132-144 | opening (reuse or fallback), adding the event and ending only a new span is the capture policy |
| SpanLog.EmitRecording | beyond-black-box-benchmarking/sdk/src/agent_analytics/instrumentation/utils/ai_event_tracer.py:135-137 | a recording current span receives exactly this event, stays recording, and no other span changes |
| SpanLog.EmitFallback | beyond-black-box-benchmarking/sdk/src/agent_analytics/instrumentation/utils/ai_event_tracer.py:138-144 | otherwise one new span under the fallback name holds just this event and is ended; earlier spans are untouched |
| SpanLog.EmitOneEvent | beyond-black-box-benchmarking/sdk/src/agent_analytics/instrumentation/utils/ai_event_tracer.py:171-178 | every capture adds exactly one event to the log |
| SpanLog.EventCountAppend | beyond-black-box-benchmarking/sdk/src/agent_analytics/instrumentation/utils/ai_event_tracer.py:143 | the event count of a log with spans appended is the sum of the counts |
| SpanLog.EventCountUpdate | beyond-black-box-benchmarking/sdk/src/agent_analytics/instrumentation/utils/ai_event_tracer.py:171 | replacing one span changes the count by the difference in its events |
| SpanLog.EmitAllRecording | beyond-black-box-benchmarking/sdk/src/agent_analytics/instrumentation/utils/ai_event_tracer.py:269-270 | a run of captures on a recording span appends their events to it, in order, and leaves the rest alone |
| SpanLog.EmitAllFallback | beyond-black-box-benchmarking/sdk/src/agent_analytics/instrumentation/utils/ai_event_tracer.py:269-270 | without a recording span each capture adds its own ended span, in order, after the existing ones |
| SpanLog.EmitAllCount | beyond-black-box-benchmarking/sdk/src/agent_analytics/instrumentation/utils/ai_event_tracer.py:269-270 | a run of captures adds exactly one event per capture |
| EventTracer.RoleEvents | beyond-black-box-benchmarking/sdk/src/agent_analytics/instrumentation/utils/ai_event_tracer.py:269-270 | one event per role, in order, each named and attributed as `capture_role` does |
| EventTracer.EmitAllLength | beyond-black-box-benchmarking/sdk/src/agent_analytics/instrumentation/utils/ai_event_tracer.py:269-270 | a run of captures never removes spans and adds at most one per capture |
| EventTracer.OrganizationRecording | beyond-black-box-benchmarking/sdk/src/agent_analytics/instrumentation/utils/ai_event_tracer.py:230-289 | on a recording span, the role events and then the organization event are appended to it; no other span changes |
| EventTracer.OrganizationFallback | beyond-black-box-benchmarking/sdk/src/agent_analytics/instrumentation/utils/ai_event_tracer.py:230-289 | without one, the ended organization span holding its one event comes first, then one ended `capture_organization.role` span per role, in order |
| EventTracer.OrganizationCount | beyond-black-box-benchmarking/sdk/src/agent_analytics/instrumentation/utils/ai_event_tracer.py:230-289 | `capture_organization` adds one event per role plus one |
| EventTracer.OrganizationAdditionsSteps | beyond-black-box-benchmarking/sdk/src/agent_analytics/instrumentation/utils/ai_event_tracer.py:250-266 | adding `role_ids` after the holdings gives the organization's additions, with and without roles |
| EventTracer.FlattenAttributes | beyond-black-box-benchmarking/sdk/src/agent_analytics/instrumentation/utils/ai_event_tracer.py:146-169 | the step-by-step build (base, additions, pass, filter) computes the event attributes |
| EventTracer.Tracer.OpenRecordSpan | beyond-black-box-benchmarking/sdk/src/agent_analytics/instrumentation/utils/ai_event_tracer.py:130-144 | the span log and the chosen span follow the reuse-or-fallback policy |
| EventTracer.Tracer.AddEventTo | beyond-black-box-benchmarking/sdk/src/agent_analytics/instrumentation/utils/ai_event_tracer.py:171-174 | the event is appended to the chosen span unless it has ended |
| EventTracer.Tracer.EndSpan | beyond-black-box-benchmarking/sdk/src/agent_analytics/instrumentation/utils/ai_event_tracer.py:176-178 | the chosen span is marked ended |
| EventTracer.Tracer.Capture | beyond-black-box-benchmarking/sdk/src/agent_analytics/instrumentation/utils/ai_event_tracer.py:127-178 | the shared body of a capture leaves the log as the one-event policy says |
| EventTracer.Tracer.CaptureResource | beyond-black-box-benchmarking/sdk/src/agent_analytics/instrumentation/utils/ai_event_tracer.py:127-178 | the log gets one `<name or id>.resource` event with the resource attributes, under the span policy |
| EventTracer.Tracer.CaptureRole | beyond-black-box-benchmarking/sdk/src/agent_analytics/instrumentation/utils/ai_event_tracer.py:181-228 | likewise for `.role` |
| EventTracer.Tracer.CaptureRoles | beyond-black-box-benchmarking/sdk/src/agent_analytics/instrumentation/utils/ai_event_tracer.py:269-270 | the loop over the roles is the run of their captures, in order |
| EventTracer.Tracer.CaptureOrganization | beyond-black-box-benchmarking/sdk/src/agent_analytics/instrumentation/utils/ai_event_tracer.py:230-289 | the log is the organization log: span opened, roles captured, organization event added, span ended only if new |
| EventTracer.Tracer.CaptureWorkflow | beyond-black-box-benchmarking/sdk/src/agent_analytics/instrumentation/utils/ai_event_tracer.py:292-332 | one `.workflow` event under the span policy |
| EventTracer.Tracer.CaptureWorkflowNode | beyond-black-box-benchmarking/sdk/src/agent_analytics/instrumentation/utils/ai_event_tracer.py:334-381 | one `.workflow_node` event under the span policy |
| EventTracer.Tracer.CaptureWorkflowEdge | beyond-black-box-benchmarking/sdk/src/agent_analytics/instrumentation/utils/ai_event_tracer.py:383-430 | one `.workflow_edge` event under the span policy |
| EventTracer.Tracer.CaptureRunable | beyond-black-box-benchmarking/sdk/src/agent_analytics/instrumentation/utils/ai_event_tracer.py:432-485 | one `.runable` event under the span policy |
| EventTracer.Tracer.CaptureTask | beyond-black-box-benchmarking/sdk/src/agent_analytics/instrumentation/utils/ai_event_tracer.py:487-565 | one `.task` event under the span policy |
| EventTracer.Tracer.CaptureService | beyond-black-box-benchmarking/sdk/src/agent_analytics/instrumentation/utils/ai_event_tracer.py:567-626 | one `<service name>.service` event under the span policy |
| EventTracer.Tracer.CaptureRecommendation | beyond-black-box-benchmarking/sdk/src/agent_analytics/instrumentation/utils/ai_event_tracer.py:628-676 | one `.recommendation` event under the span policy, with the given clock value as default time |
| EventTracer.Tracer.CaptureDataAnnotation | beyond-black-box-benchmarking/sdk/src/agent_analytics/instrumentation/utils/ai_event_tracer.py:678-733 | one `.data_annotation` event under the span policy |
| EventTracer.Tracer.CaptureIssue | beyond-black-box-benchmarking/sdk/src/agent_analytics/instrumentation/utils/ai_event_tracer.py:735-783 | one `.issue` event under the span policy, with the given clock value as default time |
| EventTracer.Tracer.CaptureAIEvent | beyond-black-box-benchmarking/sdk/src/agent_analytics/instrumentation/utils/ai_event_tracer.py:785-834 | one `.ai_event` event under the span policy |
| EventTracer.Tracer.CaptureAgent | beyond-black-box-benchmarking/sdk/src/agent_analytics/instrumentation/utils/ai_event_tracer.py:836-886 | one `.agent` event under the span policy |
| BracketExtraction.StepEmpties | beyond-black-box-benchmarking/examples/langgraph_eval_calculator.py:107-113 | the stack empties only when a single entry is popped by its own closer |
| BracketExtraction.AlwaysWellStacked | beyond-black-box-benchmarking/examples/langgraph_eval_calculator.py:103-121 | at every step the stack holds openers of the expression at increasing positions; only the bottom entry can be top-level, and only when its type is enabled |
| BracketExtraction.GroupClosed | beyond-black-box-benchmarking/examples/langgraph_eval_calculator.py:107-119 | when the stack empties, the popped opener starts the unique top-level group ending here, and it is marked extractable iff its type is enabled |
| BracketExtraction.TopLevelGroupIsMatched | beyond-black-box-benchmarking/examples/langgraph_eval_calculator.py:110-114 | a top-level group ends with its opener's own closer |
| BracketExtraction.NestedNeverExtracted | beyond-black-box-benchmarking/examples/langgraph_eval_calculator.py:105 | no group that opens inside a top-level group (enabled or not) is top-level |
| BracketExtraction.AlwaysRecorded | beyond-black-box-benchmarking/examples/langgraph_eval_calculator.py:103-121 | the extractions so far are exactly the closed enabled top-level groups, in order, with their inner text |
| BracketExtraction.ScanStep | beyond-black-box-benchmarking/examples/langgraph_eval_calculator.py:103-121 | one character moves the stack one step; an extraction is recorded exactly when a top-level enabled opener is closed; a stray or mismatched closer changes nothing |
| BracketExtraction.ScanTopLevelGroups | beyond-black-box-benchmarking/examples/langgraph_eval_calculator.py:99-121 | the loop returns the extraction list: each entry is an enabled top-level group with its label and inner text, in order and non-overlapping, and every such group is in it |
| BracketExtraction.SplicedLength | beyond-black-box-benchmarking/examples/langgraph_eval_calculator.py:139-146 | the updated expression is shorter by exactly the total that `delta` accumulates |
| BracketExtraction.ReplaceGroups | beyond-black-box-benchmarking/examples/langgraph_eval_calculator.py:123-148 | the splice loop with `delta` yields the original with each group replaced by its name, and one operation per group |
| BracketExtraction.OperationsForDescribed | beyond-black-box-benchmarking/examples/langgraph_eval_calculator.py:128-138 | the k-th operation is named by the k-th name, with the group's label, its exact inner text as `op1` and `""` as `op2` |
| BracketExtraction.ExtractionsOrdered | beyond-black-box-benchmarking/examples/langgraph_eval_calculator.py:99-121 | the groups the scan finds are in order, each ending before the next one starts, so the splice is well defined |
| BracketExtraction.ExtractSpecificUpperLevelBrackets | beyond-black-box-benchmarking/examples/langgraph_eval_calculator.py:59-148 | with no type enabled the expression comes back unchanged with no operations; otherwise the two results are exactly what the scan and the splice define: the enabled top-level groups replaced, left to right, by `E0, E1, …`, each operation describing its group |
| BracketExtraction.ExtractUpperLevelBrackets | beyond-black-box-benchmarking/examples/langgraph_eval_calculator.py:150-156 | the same with all three bracket types enabled: every top-level group is extracted, and the results are what the scan and the splice define |
| BracketExtraction.ExtractedNamesValid | beyond-black-box-benchmarking/examples/langgraph_eval_calculator.py:129-130 | the names the extraction gives pass the LLM calculator's name check |
| Arithmetic.Tokenize | beyond-black-box-benchmarking/examples/langgraph_eval_calculator.py:160 | the split alternates operator-free texts and one-character operators, and concatenates back to the expression |
| Arithmetic.TokenizeUnique | beyond-black-box-benchmarking/examples/langgraph_eval_calculator.py:160 | that is the only such split |
| Arithmetic.LastOperator | beyond-black-box-benchmarking/examples/langgraph_eval_calculator.py:160 | the position found is an operator and no operator follows it, or there is none |
| Arithmetic.TokenizeLast | beyond-black-box-benchmarking/examples/langgraph_eval_calculator.py:160 | the split of an expression ends with its last operator and the text after it |
| Arithmetic.TokenizeCounts | beyond-black-box-benchmarking/examples/langgraph_eval_calculator.py:160 | the operator tokens are exactly the operator characters of the expression |
| Arithmetic.OperatorInOnePass | beyond-black-box-benchmarking/examples/langgraph_eval_calculator.py:163-206 | every operator token is reduced by exactly one of the two passes |
| Arithmetic.RecordedCount | beyond-black-box-benchmarking/examples/langgraph_eval_calculator.py:163-183 | one pass records one operation per operator token of its level |
| Arithmetic.RecordedNames | beyond-black-box-benchmarking/examples/langgraph_eval_calculator.py:169-177 | the operations of a pass are named from the counter on, consecutively, and are of the pass's level |
| Arithmetic.PassCount | beyond-black-box-benchmarking/examples/langgraph_eval_calculator.py:163-183 | a pass records as many operations as there are operators of its level |
| Arithmetic.PassLength | beyond-black-box-benchmarking/examples/langgraph_eval_calculator.py:180-181 | each reduction shrinks the token list by two |
| Arithmetic.PassKeeps | beyond-black-box-benchmarking/examples/langgraph_eval_calculator.py:163-183 | a pass keeps the operators of the other level |
| Arithmetic.PassClears | beyond-black-box-benchmarking/examples/langgraph_eval_calculator.py:163-183 | after a pass no operator of its level is left |
| Arithmetic.PassNames | beyond-black-box-benchmarking/examples/langgraph_eval_calculator.py:169-170 | a pass names its operations consecutively from the counter, all of its level |
| Arithmetic.ReducePass | beyond-black-box-benchmarking/examples/langgraph_eval_calculator.py:163-183 | the in-place while loop computes the pass: the token list, the operations appended and the counter |
| Arithmetic.PassesCount | beyond-black-box-benchmarking/examples/langgraph_eval_calculator.py:163-206 | both passes record one operation per operator token |
| Arithmetic.PassesSingleToken | beyond-black-box-benchmarking/examples/langgraph_eval_calculator.py:163-206 | after both passes one token remains |
| Arithmetic.PassesClear | beyond-black-box-benchmarking/examples/langgraph_eval_calculator.py:163-206 | after both passes no operator is left |
| Arithmetic.PassesNames | beyond-black-box-benchmarking/examples/langgraph_eval_calculator.py:161-193 | the new operations are named consecutively from the first counter value |
| Arithmetic.PassesOrder | beyond-black-box-benchmarking/examples/langgraph_eval_calculator.py:163-206 | every multiplication or division comes before every addition or subtraction |
| Arithmetic.DecompositionCount | beyond-black-box-benchmarking/examples/langgraph_eval_calculator.py:158-206 | the number of new operations equals the number of operator characters |
| Arithmetic.DecompositionNoOperator | beyond-black-box-benchmarking/examples/langgraph_eval_calculator.py:158-206 | an expression with no operator gives no operation |
| Arithmetic.ExtractArithmeticOperations | beyond-black-box-benchmarking/examples/langgraph_eval_calculator.py:158-210 | the result is the given operations, unchanged, followed by the decomposition's operations named from `len(operations)` |
| EvalWorkflow.ShouldFinish | beyond-black-box-benchmarking/examples/langgraph_eval_calculator.py:374-381 | finish iff the result is correct; raise iff incorrect and iteration > 2; continue otherwise |
| EvalWorkflow.RoundsFrom | beyond-black-box-benchmarking/examples/langgraph_eval_calculator.py:358-381 | from any iteration up to 2 the graph stops within three executions, at the first correct validation, raising only at the third |
| EvalWorkflow.Workflow | beyond-black-box-benchmarking/examples/langgraph_eval_calculator.py:392-406 | started at iteration 0 the graph raises iff the first three validations fail, and otherwise finishes after the first correct one |
| LlmCalculator.MatchesPiecesIff | beyond-black-box-benchmarking/examples/langgraph_LLM_calculator.py:139 | a text is a concatenation of pieces iff it is non-empty, uses only digits, `.`, `E`, operators and whitespace, and every `.` and `E` is followed by a digit |
| LlmCalculator.SimpleArithmeticCharacterised | beyond-black-box-benchmarking/examples/langgraph_LLM_calculator.py:126-141 | the recogniser holds iff the stripped text is non-empty and well formed |
| LlmCalculator.ForeignCharRejected | beyond-black-box-benchmarking/examples/langgraph_LLM_calculator.py:128-133 | any other character (brackets, letters other than a reference's `E`) makes it false |
| LlmCalculator.AcceptedWhenWellFormed | beyond-black-box-benchmarking/examples/langgraph_LLM_calculator.py:139-141 | an already stripped well-formed text is accepted |
| LlmCalculator.NumbersAccepted | beyond-black-box-benchmarking/examples/langgraph_LLM_calculator.py:129-139 | `d+`, `d+.d+` and `.d+` numbers are accepted for any non-empty digit strings, the documented `123`, `0.34`, `.2`, `5.0` and `.56` among them |
| LlmCalculator.ReferencesAccepted | beyond-black-box-benchmarking/examples/langgraph_LLM_calculator.py:130 | references mixed with operators and numbers are accepted |
| LlmCalculator.BlankRejected | beyond-black-box-benchmarking/examples/langgraph_LLM_calculator.py:141 | a blank text is rejected |
| LlmCalculator.BracketsRejected | beyond-black-box-benchmarking/examples/langgraph_LLM_calculator.py:133 | a bracketed expression is rejected |
| LlmCalculator.NoDigitAfterPointRejected | beyond-black-box-benchmarking/examples/langgraph_LLM_calculator.py:139 | a `.` or `E` not followed by a digit makes it false |
| LlmCalculator.DanglingPointRejected | beyond-black-box-benchmarking/examples/langgraph_LLM_calculator.py:139 | `1.+2` is rejected |
| LlmCalculator.UnescapeEscape | beyond-black-box-benchmarking/examples/langgraph_LLM_calculator.py:155 | doubling every brace is undone by halving them: the escape loses nothing |
| LlmCalculator.EscapeAppend | beyond-black-box-benchmarking/examples/langgraph_LLM_calculator.py:155 | the two replacements work character by character, so escaping distributes over concatenation |
| LlmCalculator.EscapePointwise | beyond-black-box-benchmarking/examples/langgraph_LLM_calculator.py:155 | the escaped text is each character's escape in order: every `{` becomes `{{`, every `}` becomes `}}`, and every other character is kept |
| LlmCalculator.AddBadExamplesSpec | beyond-black-box-benchmarking/examples/langgraph_LLM_calculator.py:143-155 | no bad examples gives the base prompt unchanged; otherwise the base prompt, unaltered, followed by exactly the bad-examples text with its braces escaped, which reads back under template escaping as the text |
| LlmCalculator.AreOperationsNamesValid | beyond-black-box-benchmarking/examples/langgraph_LLM_calculator.py:426-438 | the loop with its seen-set returns true iff every name is present, matches `E<digits>` and no name repeats (true on an empty list) |
| LlmCalculator.CounterNamesValid | beyond-black-box-benchmarking/examples/langgraph_LLM_calculator.py:426-438 | consecutive counter names `E<k>` always pass the check |
| LlmCalculator.Close | beyond-black-box-benchmarking/examples/langgraph_LLM_calculator.py:589-599 | the closing position found is a `}` inside the text |
| LlmCalculator.IsValidResult | beyond-black-box-benchmarking/examples/langgraph_LLM_calculator.py:578-612 | the scanner loop hands the parent check the expression the recursive rewriting defines (or the original when that fails) |
| LlmCalculator.RewriteText | beyond-black-box-benchmarking/examples/langgraph_LLM_calculator.py:589-611 | brace-free text is copied through in order |
| LlmCalculator.NoBracesPassedUnchanged | beyond-black-box-benchmarking/examples/langgraph_LLM_calculator.py:589-612 | an expression without braces reaches the parent check unchanged |
| LlmCalculator.RewriteGroup | beyond-black-box-benchmarking/examples/langgraph_LLM_calculator.py:590-605 | a top-level group, inner braces included, is replaced by `str` of its value; a None value makes the rewriting fail |
| LlmCalculator.RewriteUnclosed | beyond-black-box-benchmarking/examples/langgraph_LLM_calculator.py:607-608 | a group that never closes makes the rewriting fail |
| LlmCalculator.RewriteStrayClose | beyond-black-box-benchmarking/examples/langgraph_LLM_calculator.py:595-597 | a `}` at level 0 makes the rewriting fail |
| EvalCalculator.ConvertIsPointwise | beyond-black-box-benchmarking/examples/eval_calculator.py:19-26 | the conversion keeps the length and maps each character on its own |
| EvalCalculator.ConvertRemovesBrackets | beyond-black-box-benchmarking/examples/eval_calculator.py:20-25 | no square or curly bracket is left; `[`/`{` become `(`, `]`/`}` become `)`, every other character is kept |
| EvalCalculator.ConvertIdempotent | beyond-black-box-benchmarking/examples/eval_calculator.py:19-26 | converting twice equals converting once |
| Calculators.NewPredefined | beyond-black-box-benchmarking/examples/predefined_calculator.py:12-17 | a missing argument gives an empty table, otherwise the table given |
| Calculators.Lookup | beyond-black-box-benchmarking/examples/predefined_calculator.py:45 | `dict.get`: a value exactly for a present key, the stored one |
| Calculators.Calculate | beyond-black-box-benchmarking/examples/predefined_calculator.py:19-33 | the base calculator returns None; a predefined one returns the stored value for a present key and None through the base otherwise |
| Calculators.IsValidExpression | beyond-black-box-benchmarking/examples/predefined_calculator.py:35-39 | the base calculator answers False; a predefined one answers, without raising, True exactly for its keys |
| Calculators.IsValidResult | beyond-black-box-benchmarking/examples/predefined_calculator.py:41-45 | the base calculator answers False; a predefined one answers, without raising, True iff the stored value equals the result, an absent key comparing as None |
| Calculators.FirstSuccessIsFirst | beyond-black-box-benchmarking/examples/delegating_calculator.py:20-27 | the chain's answer comes from the first delegate that returns a value without raising, and it is None iff none does |
| Calculators.CalculateExpression | beyond-black-box-benchmarking/examples/delegating_calculator.py:18-36 | the loop returns the first success, invokes no delegate after it, and skips delegates that raise or return None |
| Calculators.AnyOf | beyond-black-box-benchmarking/examples/delegating_calculator.py:42-45 | `any` over a lazy sequence of calls: False iff every call answers False, else the outcome of the first call that does not |
| Calculators.AnyOfFirstDecides | beyond-black-box-benchmarking/examples/delegating_calculator.py:42-45 | the first call not answering False decides `any`: it raises iff that call raises and is True iff that call answers True |
| Calculators.AnyValidExpression | beyond-black-box-benchmarking/examples/delegating_calculator.py:38-45 | False iff every delegate answers False; otherwise what the first delegate not answering False did: True, or an exception that propagates |
| Calculators.AnyValidResult | beyond-black-box-benchmarking/examples/delegating_calculator.py:47-54 | False iff every delegate answers False for the pair; otherwise what the first delegate not answering False did: True, or an exception that propagates |
| DataManager.GetAttr | beyond-black-box-benchmarking/core/src/example.py:79 | `getattr(artifact, key, None)`: the id, the parent id, a field, or None when absent |
| DataManager.Get | beyond-black-box-benchmarking/core/src/example.py:32 | a bucket lookup finds an artifact iff the id is present, and it has that id |
| DataManager.Put | beyond-black-box-benchmarking/core/src/example.py:24 | assigning into a bucket replaces in place an artifact with the same id, or appends |
| DataManager.PutGet | beyond-black-box-benchmarking/core/src/example.py:24 | after the assignment the id finds the new artifact and every other id finds what it found before |
| DataManager.PutIds | beyond-black-box-benchmarking/core/src/example.py:24 | the ids keep their order; a new id goes last |
| DataManager.PutKeepsDistinct | beyond-black-box-benchmarking/core/src/example.py:24 | a bucket's ids stay distinct |
| DataManager.Pop | beyond-black-box-benchmarking/core/src/example.py:58 | `pop(id, None)` removes exactly the artifacts with that id; an absent id leaves the bucket as it is |
| DataManager.PopGet | beyond-black-box-benchmarking/core/src/example.py:58 | after the pop the id finds nothing and every other id finds what it found before |
| DataManager.PopKeepsDistinct | beyond-black-box-benchmarking/core/src/example.py:58 | a bucket's ids stay distinct |
| DataManager.StoreInto | beyond-black-box-benchmarking/core/src/example.py:17-24 | storing adds the artifact's class to the known classes and nothing else |
| DataManager.DeleteFrom | beyond-black-box-benchmarking/core/src/example.py:52-58 | deleting never adds or removes a class |
| DataManager.ById | beyond-black-box-benchmarking/core/src/example.py:26-34 | None for an unknown class, otherwise the bucket lookup |
| DataManager.All | beyond-black-box-benchmarking/core/src/example.py:60-67 | exactly the artifacts of the class, `[]` for an unknown class |
| DataManager.WithParent | beyond-black-box-benchmarking/core/src/example.py:45-49 | exactly the bucket's artifacts whose parent is the given id |
| DataManager.Children | beyond-black-box-benchmarking/core/src/example.py:36-50 | exactly the stored artifacts of the class whose parent is the given id |
| DataManager.Matching | beyond-black-box-benchmarking/core/src/example.py:77-87 | exactly the bucket's artifacts on which every query key is `==` (with `True == 1`, `False == 0`) to the attribute, absent ones reading as None |
| DataManager.Search | beyond-black-box-benchmarking/core/src/example.py:69-88 | exactly the stored artifacts of the class matching the query under Python `==`, `[]` for an unknown class |
| DataManager.PyEqIsEquivalence | beyond-black-box-benchmarking/core/src/example.py:79-80 | the `==` a query uses is an equivalence that is equality of values except that `True` is 1 and `False` is 0 |
| DataManager.MatchingAppend | beyond-black-box-benchmarking/core/src/example.py:83-87 | the comprehension keeps bucket order: matching a concatenation is the concatenation of the matches |
| DataManager.SearchAfterNewStore | beyond-black-box-benchmarking/core/src/example.py:20-88 | after storing an artifact under a new id, every search on its class returns the old results followed by the artifact iff it matches |
| DataManager.StoreThenGet | beyond-black-box-benchmarking/core/src/example.py:17-33 | after storing, lookup by the artifact's id and class returns it |
| DataManager.StoreChangesNothingElse | beyond-black-box-benchmarking/core/src/example.py:21-24 | every other (class, id) finds what it found before, and other classes list what they listed |
| DataManager.StoreReplacesInPlace | beyond-black-box-benchmarking/core/src/example.py:24 | storing an existing (class, id) keeps the class's size and id order |
| DataManager.StoreKeepsValid | beyond-black-box-benchmarking/core/src/example.py:17-24 | each bucket keeps distinct ids and only artifacts of its own class |
| DataManager.DeleteRemovesOnly | beyond-black-box-benchmarking/core/src/example.py:52-58 | after deleting, the (class, id) finds nothing and every other one finds what it found before |
| DataManager.DeleteAbsentIsNoOp | beyond-black-box-benchmarking/core/src/example.py:56-58 | deleting an absent id or class changes nothing |
| DataManager.DeleteKeepsValid | beyond-black-box-benchmarking/core/src/example.py:52-58 | the store stays well formed |
| DataManager.UnknownClassIsEmpty | beyond-black-box-benchmarking/core/src/example.py:26-75 | for a class never stored, get-by-id is None and the three listings are empty |
| DataManager.SearchEmptyIsAll | beyond-black-box-benchmarking/core/src/example.py:69-88 | an empty query returns the same as get-all |
| DataManager.SearchByParentIsChildren | beyond-black-box-benchmarking/core/src/example.py:36-88 | searching for `{"parent_id": p}` returns the same as get-children of `p` |
| DataManager.InMemoryDataManager.constructor | beyond-black-box-benchmarking/core/src/example.py:13-15 | a new manager starts empty |
| DataManager.InMemoryDataManager.Store | beyond-black-box-benchmarking/core/src/example.py:17-24 | the storage becomes the stored map, and stays well formed |
| DataManager.InMemoryDataManager.Delete | beyond-black-box-benchmarking/core/src/example.py:52-58 | the storage becomes the map with the (class, id) deleted, and stays well formed |
| Common.Strip | beyond-black-box-benchmarking/examples/langgraph_eval_calculator.py:167-168 | `str.strip`: the result is empty or starts and ends with a character that is not `isspace()` |
| Common.StripBounds | beyond-black-box-benchmarking/examples/langgraph_eval_calculator.py:167-168 | the result is a slice of the text, and all that was cut off either end is `isspace()` whitespace, Unicode spaces and `\x1c`-`\x1f` included |
| Common.StripKeepsNonWhitespace | beyond-black-box-benchmarking/examples/langgraph_LLM_calculator.py:141 | every character that is not `isspace()` survives stripping |
| Common.NatToStringRoundTrip | beyond-black-box-benchmarking/examples/langgraph_eval_calculator.py:129 | the decimal text of a counter is all digits and reads back as the counter |
| Common.NatToStringInjective | beyond-black-box-benchmarking/examples/langgraph_eval_calculator.py:129 | distinct counters give distinct texts, so the `E<k>` names are distinct |
| Common.ReplaceChar | beyond-black-box-benchmarking/examples/eval_calculator.py:21-24 | `str.replace` of one character removes every occurrence when the replacement lacks it, keeps the length for a one-character replacement and introduces no new character |
| Common.ReplaceCharAt | beyond-black-box-benchmarking/examples/eval_calculator.py:21-24 | a one-character replacement maps each position on its own |

## Left out

- I/O:
  - logging and `print` output;
  - the JSON printing of operations at the end of `extract_arithmetic_operations`.
- OpenTelemetry internals:
  - `get_current_span`, `start_span`, `add_event` and `end` are modelled only as an abstract span log (name, events, ended flag);
  - the tracer provider, span contexts, `set_status` and `tracing_utils.py` are not part of this model.
- Caller inspection: the caller function name read from the call stack is a parameter. The per-role captures made by `capture_organization` fall back to spans named `capture_organization.role`, because that is their caller.
- The clock: `datetime.now()` in `capture_recommendation` and `capture_issue` is a `now` parameter.
- Rendering a datetime gives ISO text, which the model carries as given.
- Serialisation text:
  - `json.dumps` and `str()` of containers and models are symbolic pieces (`Dumped`, `Shown`) with no exact characters;
  - enum labels are abstract texts;
  - a float is carried as its `repr` text.
- DataManager.Matching: attribute and query values are None, strings, integers and booleans, compared with Python's `==` (`True == 1`, `False == 0`); floats, datetimes, enums and nested objects are not represented, so their `==` (such as `1.0 == 1`) is not modelled.
- DataManager.Search: compares through Matching, so it leaves out the same value kinds.
- TracerValues.PrepareDict: dictionary keys are strings only. `json.dumps` turns int, float, bool and None keys into strings (`1` gives `"1"`, `True` gives `"true"`, `None` gives `"null"`), so a key `1` and a key `"1"` come out as the same JSON key; it raises `TypeError` on any other key, which sends the value to the `str()` fallback. None of this is modelled.
- Insertion order: an attribute `dict` is a Dafny `map`, so the order of event attributes is not modelled. Data-manager buckets and `dict()` field lists do keep their order.
- Schemas not available here: the Resource and Task schemas are not part of this model. Their records carry the fields the tracer reads, and `others` stands for anything else they declare.
- TracerCaptures.ResourceOther and TracerCaptures.TaskOther: stated only for fields whose names are distinct and not shadowed by a key the tracer writes itself.
- Python `eval`, float arithmetic and operand conversion in the calculators: nothing of them is modelled.
  - A calculator outcome is an abstract value, None, or a raised exception.
  - The LLM validation calculator is an abstract function `string -> Option<V>`; its `str()` rendering is an abstract function too.
- Randomness and sleeps in the LLM and evaluating calculators.
- LLM-driven code: `langchain_LLM_calculator.py` and the LLM overrides of bracket and arithmetic extraction.
- LangGraph: the graph building and the operation agents (`create_operation_function`, `create_claculation_agent`, `plan`, `execute`, `decompose`) are foreign `StateGraph` code. `EvalWorkflow` models only the decision and the iteration count it sees.
- `langgraph_distributed_calculator.py` and SDK initialisation: threads, servers and configuration.
- Arithmetic.ExtractArithmeticOperations: the Python function extends the caller's list in place and returns it. The model returns the extended sequence, so aliasing is not modelled.
- Unicode digits: `\d` is the ASCII digit class, whereas in a Python `str` pattern it also matches every other Unicode decimal digit (Arabic-Indic, Devanagari and so on); there is no Unicode normalisation. Whitespace, for `\s` and for `str.strip()` alike, is the full `str.isspace()` set.
