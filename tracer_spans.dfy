/** The span policy shared by every `capture_*` of the event tracer
    (beyond-black-box-benchmarking/sdk/src/agent_analytics/instrumentation/utils/ai_event_tracer.py),
    over an abstract log of spans: each span has a name, its events in
    order, and whether it has ended. The current context names one span of
    the log, or none. */
module SpanLog {
  import opened Common
  import opened TracerAttributes

  datatype Event = Event(name: string, attributes: Attributes)

  datatype Span = Span(name: string, events: seq<Event>, ended: bool)

  /** `current_span.get_span_context().is_valid and current_span.is_recording()`:
      the context holds a span, and that span has not ended. */
  predicate Recording(spans: seq<Span>, current: Option<nat>) {
    current.Some? && current.value < |spans| && !spans[current.value].ended
  }

  /** The span a capture records into: the current one when it is recording,
      otherwise a new span under the fallback name. The flag says whether
      the span is new. */
  function Open(spans: seq<Span>, current: Option<nat>, fallback: string): (seq<Span>, nat, bool) {
    if Recording(spans, current) then (spans, current.value, false)
    else (spans + [Span(fallback, [], false)], |spans|, true)
  }

  /** `add_event`, which an ended span ignores. */
  function AddEvent(spans: seq<Span>, index: nat, event: Event): seq<Span>
    requires index < |spans|
  {
    if spans[index].ended then spans
    else spans[index := spans[index].(events := spans[index].events + [event])]
  }

  /** `end`, which changes nothing on an ended span. */
  function End(spans: seq<Span>, index: nat): seq<Span>
    requires index < |spans|
  {
    spans[index := spans[index].(ended := true)]
  }

  /** The whole policy of one capture that records one event: on the
      recording current span, or on a fallback span that is then ended. */
  function Emit(spans: seq<Span>, current: Option<nat>, fallback: string, event: Event): seq<Span> {
    if Recording(spans, current) then AddEvent(spans, current.value, event)
    else spans + [Span(fallback, [event], true)]
  }

  /** Opening, adding the event and ending a new span is the policy. */
  lemma OpenAddEnd(spans: seq<Span>, current: Option<nat>, fallback: string, event: Event)
    ensures var (log, index, isNew) := Open(spans, current, fallback);
            && index < |log|
            && var added := AddEvent(log, index, event);
               (if isNew then End(added, index) else added) == Emit(spans, current, fallback, event)
  {
    var (log, index, isNew) := Open(spans, current, fallback);
    if isNew {
      assert log == spans + [Span(fallback, [], false)] && index == |spans|;
      assert [] + [event] == [event];
      var added := AddEvent(log, index, event);
      assert added == spans + [Span(fallback, [event], false)];
      assert End(added, index) == spans + [Span(fallback, [event], true)];
    }
  }

  function EventCount(spans: seq<Span>): nat {
    if spans == [] then 0 else EventCount(spans[..|spans| - 1]) + |spans[|spans| - 1].events|
  }

  lemma {:induction false} EventCountAppend(spans: seq<Span>, more: seq<Span>)
    ensures EventCount(spans + more) == EventCount(spans) + EventCount(more)
    decreases |more|
  {
    if more == [] {
      assert spans + more == spans;
    } else {
      assert (spans + more)[..|spans + more| - 1] == spans + more[..|more| - 1];
      EventCountAppend(spans, more[..|more| - 1]);
    }
  }

  /** Changing the events of one span changes the count by their difference. */
  lemma {:induction false} EventCountUpdate(spans: seq<Span>, i: nat, s: Span)
    requires i < |spans|
    ensures EventCount(spans[i := s]) + |spans[i].events| == EventCount(spans) + |s.events|
    decreases |spans|
  {
    var n := |spans| - 1;
    if i < n {
      assert spans[i := s][..n] == spans[..n][i := s];
      EventCountUpdate(spans[..n], i, s);
    } else {
      assert spans[i := s][..n] == spans[..n];
    }
  }

  /** Each capture records exactly one event. */
  lemma EmitOneEvent(spans: seq<Span>, current: Option<nat>, fallback: string, event: Event)
    ensures EventCount(Emit(spans, current, fallback, event)) == EventCount(spans) + 1
  {
    if Recording(spans, current) {
      var c := current.value;
      EventCountUpdate(spans, c, spans[c].(events := spans[c].events + [event]));
    } else {
      EventCountAppend(spans, [Span(fallback, [event], true)]);
      assert EventCount([Span(fallback, [event], true)]) == 1 by {
        assert [Span(fallback, [event], true)][..0] == [];
      }
    }
  }

  /** When the current span records, it receives the event, stays
      recording, and no other span changes. */
  lemma EmitRecording(spans: seq<Span>, current: Option<nat>, fallback: string, event: Event)
    requires Recording(spans, current)
    ensures var r := Emit(spans, current, fallback, event);
            var c := current.value;
            && |r| == |spans|
            && r[c] == spans[c].(events := spans[c].events + [event])
            && Recording(r, current)
            && forall i :: 0 <= i < |r| && i != c ==> r[i] == spans[i]
  {
  }

  /** Otherwise the log grows by one ended span under the fallback name that
      holds just this event, and the context is still not recording. */
  lemma EmitFallback(spans: seq<Span>, current: Option<nat>, fallback: string, event: Event)
    requires !Recording(spans, current)
    ensures var r := Emit(spans, current, fallback, event);
            && |r| == |spans| + 1
            && r[..|spans|] == spans
            && r[|spans|].name == fallback && r[|spans|].events == [event] && r[|spans|].ended
            && !Recording(r, current)
  {
    var r := Emit(spans, current, fallback, event);
    assert r[..|spans|] == spans;
  }

  /** Several captures in a row against the same context, as
      `capture_organization` makes one per role. */
  function EmitAll(spans: seq<Span>, current: Option<nat>, fallback: string, events: seq<Event>): seq<Span>
    decreases |events|
  {
    if events == [] then spans
    else Emit(EmitAll(spans, current, fallback, events[..|events| - 1]), current, fallback, events[|events| - 1])
  }

  /** Recording is kept by every capture. */
  lemma {:induction false} EmitAllRecording(spans: seq<Span>, current: Option<nat>, fallback: string, events: seq<Event>)
    requires Recording(spans, current)
    ensures var r := EmitAll(spans, current, fallback, events);
            && |r| == |spans|
            && Recording(r, current)
            && r[current.value].events == spans[current.value].events + events
            && r[current.value].name == spans[current.value].name
            && forall i :: 0 <= i < |r| && i != current.value ==> r[i] == spans[i]
    decreases |events|
  {
    if events != [] {
      var init := events[..|events| - 1];
      EmitAllRecording(spans, current, fallback, init);
      assert init + [events[|events| - 1]] == events;
    }
  }

  /** Without a recording span every capture adds its own ended span, in
      order, and the spans already there are left alone. */
  lemma {:induction false} EmitAllFallback(spans: seq<Span>, current: Option<nat>, fallback: string, events: seq<Event>)
    requires !Recording(spans, current)
    ensures var r := EmitAll(spans, current, fallback, events);
            && |r| == |spans| + |events|
            && !Recording(r, current)
            && r[..|spans|] == spans
            && forall i :: 0 <= i < |events| ==> r[|spans| + i] == Span(fallback, [events[i]], true)
    decreases |events|
  {
    if events != [] {
      var init := events[..|events| - 1];
      EmitAllFallback(spans, current, fallback, init);
      var before := EmitAll(spans, current, fallback, init);
      EmitFallback(before, current, fallback, events[|events| - 1]);
      var r := EmitAll(spans, current, fallback, events);
      assert r[..|spans|] == before[..|before|][..|spans|];
      forall i | 0 <= i < |events|
        ensures r[|spans| + i] == Span(fallback, [events[i]], true)
      {
        if i < |init| {
          assert r[|spans| + i] == before[|spans| + i];
        }
      }
    }
  }

  /** Each of the captures records exactly one event. */
  lemma {:induction false} EmitAllCount(spans: seq<Span>, current: Option<nat>, fallback: string, events: seq<Event>)
    ensures EventCount(EmitAll(spans, current, fallback, events)) == EventCount(spans) + |events|
    decreases |events|
  {
    if events != [] {
      var init := events[..|events| - 1];
      EmitAllCount(spans, current, fallback, init);
      EmitOneEvent(EmitAll(spans, current, fallback, init), current, fallback, events[|events| - 1]);
    }
  }
}
