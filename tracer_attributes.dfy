/** The attribute maps the event tracer builds
    (beyond-black-box-benchmarking/sdk/src/agent_analytics/instrumentation/utils/ai_event_tracer.py):
    the base attributes of every element, those of intelligent units and
    relations, the pass that adds a record's remaining fields under a
    prefix, the removal of None values, and the event name. */
module TracerAttributes {
  import opened Common
  import opened TracerValues
  import opened TracerEntities

  type Attributes = map<string, Value>

  // ---------------------------------------------------------------------------
  // _get_element_base_attributes

  function CoreAttributes(e: Element): Attributes {
    map["id" := StrValue(e.id), "type" := StrValue(e.elementType), "owner_id" := OptStr(e.ownerId),
        "name" := OptStr(e.name), "description" := OptStr(e.description)]
  }

  /** `tags` only when the element has a non-empty list of them. */
  function WithTags(a: Attributes, e: Element): Attributes {
    if Truthy(OptList(e.tags)) then a["tags" := Prepare(OptList(e.tags))] else a
  }

  function AttrKey(key: string): string {
    "attr_" + key
  }

  predicate IsAttrKey(key: string) {
    |key| >= 5 && key[..5] == "attr_"
  }

  /** Each dictionary entry `k: v` written as `attr_k`, in order. */
  function WithEntries(a: Attributes, entries: Fields): Attributes
    decreases |entries|
  {
    if entries == [] then a
    else
      var last := entries[|entries| - 1];
      WithEntries(a, entries[..|entries| - 1])[AttrKey(last.0) := Prepare(last.1)]
  }

  function BaseAttributes(e: Element): Attributes {
    WithEntries(WithTags(CoreAttributes(e), e), e.attributes)
  }

  /** `_get_element_base_attributes`. */
  method ElementBaseAttributes(e: Element) returns (attributes: Attributes)
    ensures attributes == BaseAttributes(e)
  {
    attributes := map["id" := StrValue(e.id), "type" := StrValue(e.elementType), "owner_id" := OptStr(e.ownerId),
                      "name" := OptStr(e.name), "description" := OptStr(e.description)];
    if Truthy(OptList(e.tags)) {
      attributes := attributes["tags" := Prepare(OptList(e.tags))];
    }
    if e.attributes != [] {
      for i := 0 to |e.attributes|
        invariant attributes == WithEntries(WithTags(CoreAttributes(e), e), e.attributes[..i])
      {
        var (key, value) := e.attributes[i];
        assert e.attributes[..i + 1][..i] == e.attributes[..i];
        attributes := attributes[AttrKey(key) := Prepare(value)];
      }
      assert e.attributes[..|e.attributes|] == e.attributes;
    }
  }

  /** The value of the last entry with key `k`, which is the one a Python
      dictionary keeps. */
  function LastValue(entries: Fields, k: string): Option<Value>
    decreases |entries|
  {
    if entries == [] then None
    else if entries[|entries| - 1].0 == k then Some(entries[|entries| - 1].1)
    else LastValue(entries[..|entries| - 1], k)
  }

  lemma AttrKeyInjective(k: string, j: string)
    requires AttrKey(k) == AttrKey(j)
    ensures k == j
  {
    assert k == AttrKey(k)[5..];
    assert j == AttrKey(j)[5..];
  }

  lemma AttrKeyIs(k: string)
    ensures IsAttrKey(AttrKey(k))
  {
    assert AttrKey(k)[..5] == "attr_";
  }

  /** Writing the entries changes exactly the `attr_` key of each entry key,
      to the prepared last value of that key. */
  lemma {:induction false} WithEntriesAttr(a: Attributes, entries: Fields, k: string)
    ensures LastValue(entries, k).Some? ==>
              AttrKey(k) in WithEntries(a, entries)
              && WithEntries(a, entries)[AttrKey(k)] == Prepare(LastValue(entries, k).value)
    ensures LastValue(entries, k).None? ==>
              (AttrKey(k) in WithEntries(a, entries) <==> AttrKey(k) in a)
              && (AttrKey(k) in a ==> WithEntries(a, entries)[AttrKey(k)] == a[AttrKey(k)])
    decreases |entries|
  {
    if entries != [] {
      var last := entries[|entries| - 1];
      WithEntriesAttr(a, entries[..|entries| - 1], k);
      if last.0 != k {
        if AttrKey(last.0) == AttrKey(k) {
          AttrKeyInjective(last.0, k);
        }
      }
    }
  }

  /** Keys without the `attr_` prefix are left alone. */
  lemma {:induction false} WithEntriesOther(a: Attributes, entries: Fields, key: string)
    requires !IsAttrKey(key)
    ensures key in WithEntries(a, entries) <==> key in a
    ensures key in a ==> WithEntries(a, entries)[key] == a[key]
    decreases |entries|
  {
    if entries != [] {
      AttrKeyIs(entries[|entries| - 1].0);
      WithEntriesOther(a, entries[..|entries| - 1], key);
    }
  }

  lemma CoreKeysPlain()
    ensures !IsAttrKey("id") && !IsAttrKey("type") && !IsAttrKey("owner_id")
    ensures !IsAttrKey("name") && !IsAttrKey("description") && !IsAttrKey("tags")
  {
    assert "owner_id"[..5] == "owner";
    assert "description"[..5] == "descr";
  }

  /** The five base keys are always present, with the element's values. */
  lemma BaseCore(e: Element)
    ensures var r := BaseAttributes(e);
            && "id" in r && r["id"] == StrValue(e.id)
            && "type" in r && r["type"] == StrValue(e.elementType)
            && "owner_id" in r && r["owner_id"] == OptStr(e.ownerId)
            && "name" in r && r["name"] == OptStr(e.name)
            && "description" in r && r["description"] == OptStr(e.description)
  {
    var a := WithTags(CoreAttributes(e), e);
    CoreKeysPlain();
    WithEntriesOther(a, e.attributes, "id");
    WithEntriesOther(a, e.attributes, "type");
    WithEntriesOther(a, e.attributes, "owner_id");
    WithEntriesOther(a, e.attributes, "name");
    WithEntriesOther(a, e.attributes, "description");
  }

  /** `tags` is present exactly when the element has tags, prepared. */
  lemma BaseTags(e: Element)
    ensures var r := BaseAttributes(e);
            && ("tags" in r <==> Truthy(OptList(e.tags)))
            && ("tags" in r ==> r["tags"] == Prepare(OptList(e.tags)))
  {
    CoreKeysPlain();
    WithEntriesOther(WithTags(CoreAttributes(e), e), e.attributes, "tags");
  }

  /** `attr_k` is present exactly when `k` is a key of the element's
      attributes, with its prepared value. */
  lemma BaseEntry(e: Element, k: string)
    ensures var r := BaseAttributes(e);
            && (AttrKey(k) in r <==> LastValue(e.attributes, k).Some?)
            && (AttrKey(k) in r ==> r[AttrKey(k)] == Prepare(LastValue(e.attributes, k).value))
  {
    var a := WithTags(CoreAttributes(e), e);
    AttrKeyIs(k);
    CoreKeysPlain();
    WithEntriesAttr(a, e.attributes, k);
  }

  /** Nothing else is there. */
  lemma BaseOnly(e: Element, key: string)
    requires key in BaseAttributes(e)
    ensures key in {"id", "type", "owner_id", "name", "description", "tags"}
            || (IsAttrKey(key) && LastValue(e.attributes, key[5..]).Some?)
  {
    var a := WithTags(CoreAttributes(e), e);
    if !IsAttrKey(key) {
      WithEntriesOther(a, e.attributes, key);
    } else {
      assert key == AttrKey(key[5..]);
      WithEntriesAttr(a, e.attributes, key[5..]);
    }
  }

  /** A key that is none of those is absent. */
  lemma BaseAbsent(e: Element, key: string)
    requires key !in {"id", "type", "owner_id", "name", "description", "tags"} && !IsAttrKey(key)
    ensures key !in BaseAttributes(e)
  {
    WithEntriesOther(WithTags(CoreAttributes(e), e), e.attributes, key);
  }

  // ---------------------------------------------------------------------------
  // _get_iunit_attributes, _get_relation_attributes and the agent's holdings

  function IUnitAttributes(u: IUnit): Attributes {
    map["code_id" := OptStr(u.codeId), "is_generated" := OptBool(u.isGenerated),
        "consumed_resources" := Prepare(OptStrList(u.consumedResources))]
  }

  function RelationAttributes(r: Relation): Attributes {
    map["source_ids" := Prepare(OptStrList(r.sourceIds)), "destination_ids" := Prepare(OptStrList(r.destinationIds)),
        "weight" := OptInt(r.weight)]
  }

  function HoldingsAttributes(h: Holdings): Attributes {
    map["resource_ids" := Prepare(OptStrList(h.resourceIds)), "tool_ids" := Prepare(OptStrList(h.toolIds)),
        "skill_ids" := Prepare(OptStrList(h.skillIds))]
  }

  // ---------------------------------------------------------------------------
  // The remaining-fields pass

  /** Each field, in order, whose key is neither a key of the attributes at
      that moment (None-valued keys included) nor excluded, is written under
      `prefix + key` with its prepared value. */
  function Remaining(a: Attributes, fields: Fields, prefix: string, excluded: seq<string>): Attributes
    decreases |fields|
  {
    if fields == [] then a
    else
      var key := fields[0].0;
      var next := if key !in a && key !in excluded then a[prefix + key := Prepare(fields[0].1)] else a;
      Remaining(next, fields[1..], prefix, excluded)
  }

  /** The loop over `model.dict().items()` of every `capture_*`. */
  method GenericPass(attributes: Attributes, fields: Fields, prefix: string, excluded: seq<string>)
    returns (result: Attributes)
    ensures result == Remaining(attributes, fields, prefix, excluded)
  {
    result := attributes;
    for i := 0 to |fields|
      invariant Remaining(result, fields[i..], prefix, excluded) == Remaining(attributes, fields, prefix, excluded)
    {
      var (key, value) := fields[i];
      assert fields[i..][1..] == fields[i + 1..];
      if key !in result && key !in excluded {
        result := result[prefix + key := Prepare(value)];
      }
    }
  }

  predicate DistinctKeys(fields: Fields) {
    forall i, j :: 0 <= i < j < |fields| ==> fields[i].0 != fields[j].0
  }

  /** No field is hidden by the write of an earlier one. */
  predicate Unblocked(fields: Fields, prefix: string) {
    forall i, j :: 0 <= i < j < |fields| ==> fields[j].0 != prefix + fields[i].0
  }

  /** Every field is present or excluded. */
  predicate Covered(a: Attributes, fields: Fields, excluded: seq<string>) {
    forall i :: 0 <= i < |fields| ==> fields[i].0 in a || fields[i].0 in excluded
  }

  lemma CoveredAppend(a: Attributes, f: Fields, g: Fields, excluded: seq<string>)
    requires Covered(a, f, excluded) && Covered(a, g, excluded)
    ensures Covered(a, f + g, excluded)
  {
    forall i | 0 <= i < |f + g|
      ensures (f + g)[i].0 in a || (f + g)[i].0 in excluded
    {
      if i >= |f| {
        assert (f + g)[i] == g[i - |f|];
      }
    }
  }

  /** When every field is present or excluded, the pass adds nothing. */
  lemma {:induction false} RemainingIdle(a: Attributes, fields: Fields, prefix: string, excluded: seq<string>)
    requires Covered(a, fields, excluded)
    ensures Remaining(a, fields, prefix, excluded) == a
    decreases |fields|
  {
    if fields != [] {
      assert Covered(a, fields[1..], excluded) by {
        forall i | 0 <= i < |fields[1..]|
          ensures fields[1..][i].0 in a || fields[1..][i].0 in excluded
        {
          assert fields[1..][i] == fields[i + 1];
        }
      }
      RemainingIdle(a, fields[1..], prefix, excluded);
    }
  }

  /** The pass over two lists of fields is the pass over the first, then the
      pass over the second. */
  lemma {:induction false} RemainingAppend(a: Attributes, f: Fields, g: Fields, prefix: string, excluded: seq<string>)
    ensures Remaining(a, f + g, prefix, excluded) == Remaining(Remaining(a, f, prefix, excluded), g, prefix, excluded)
    decreases |f|
  {
    if f == [] {
      assert f + g == g;
    } else {
      assert (f + g)[0] == f[0];
      assert (f + g)[1..] == f[1..] + g;
      var k := f[0].0;
      var next := if k !in a && k !in excluded then a[prefix + k := Prepare(f[0].1)] else a;
      RemainingAppend(next, f[1..], g, prefix, excluded);
    }
  }

  /** The base fields of an element are covered once its base keys are
      present and `tags` and `attributes` are excluded. */
  lemma ElementCovered(e: Element, a: Attributes, excluded: seq<string>)
    requires "id" in a && "type" in a && "owner_id" in a && "name" in a && "description" in a
    requires "tags" in excluded && "attributes" in excluded
    ensures Covered(a, ElementFields(e), excluded)
  {
  }

  /** A key changes only through a field whose key was neither present nor
      excluded: every other key keeps its value, and no other key appears. */
  lemma {:induction false} RemainingFrame(a: Attributes, fields: Fields, prefix: string, excluded: seq<string>, key: string)
    requires forall i :: 0 <= i < |fields| && key == prefix + fields[i].0 ==> fields[i].0 in a || fields[i].0 in excluded
    ensures key in Remaining(a, fields, prefix, excluded) <==> key in a
    ensures key in a ==> Remaining(a, fields, prefix, excluded)[key] == a[key]
    decreases |fields|
  {
    if fields != [] {
      var k := fields[0].0;
      var next := if k !in a && k !in excluded then a[prefix + k := Prepare(fields[0].1)] else a;
      forall i | 0 <= i < |fields[1..]| && key == prefix + fields[1..][i].0
        ensures fields[1..][i].0 in next || fields[1..][i].0 in excluded
      {
        assert fields[1..][i] == fields[i + 1];
      }
      RemainingFrame(next, fields[1..], prefix, excluded, key);
    }
  }

  /** The keys only grow. */
  lemma {:induction false} RemainingGrows(a: Attributes, fields: Fields, prefix: string, excluded: seq<string>, key: string)
    requires key in a
    ensures key in Remaining(a, fields, prefix, excluded)
    decreases |fields|
  {
    if fields != [] {
      var k := fields[0].0;
      var next := if k !in a && k !in excluded then a[prefix + k := Prepare(fields[0].1)] else a;
      RemainingGrows(next, fields[1..], prefix, excluded, key);
    }
  }

  lemma PrefixCancel(prefix: string, k: string, j: string)
    requires prefix + k == prefix + j
    ensures k == j
  {
    assert k == (prefix + k)[|prefix|..];
    assert j == (prefix + j)[|prefix|..];
  }

  /** With distinct keys and no field hidden by an earlier one, a field that
      was neither present nor excluded ends up under its prefixed key. */
  lemma {:induction false} RemainingWrites(a: Attributes, fields: Fields, prefix: string, excluded: seq<string>, i: nat)
    requires i < |fields| && DistinctKeys(fields) && Unblocked(fields, prefix)
    requires fields[i].0 !in a && fields[i].0 !in excluded
    ensures prefix + fields[i].0 in Remaining(a, fields, prefix, excluded)
    ensures Remaining(a, fields, prefix, excluded)[prefix + fields[i].0] == Prepare(fields[i].1)
    decreases |fields|
  {
    var k := fields[0].0;
    var next := if k !in a && k !in excluded then a[prefix + k := Prepare(fields[0].1)] else a;
    var rest := fields[1..];
    if i == 0 {
      var key := prefix + k;
      forall j | 0 <= j < |rest|
        ensures key != prefix + rest[j].0
      {
        assert rest[j] == fields[j + 1];
        if key == prefix + rest[j].0 {
          PrefixCancel(prefix, k, rest[j].0);
        }
      }
      RemainingFrame(next, rest, prefix, excluded, key);
    } else {
      assert rest[i - 1] == fields[i];
      assert fields[i].0 != prefix + k;
      assert DistinctKeys(rest) by {
        forall p, q | 0 <= p < q < |rest| ensures rest[p].0 != rest[q].0 {
          assert rest[p] == fields[p + 1] && rest[q] == fields[q + 1];
        }
      }
      assert Unblocked(rest, prefix) by {
        forall p, q | 0 <= p < q < |rest| ensures rest[q].0 != prefix + rest[p].0 {
          assert rest[p] == fields[p + 1] && rest[q] == fields[q + 1];
        }
      }
      RemainingWrites(next, rest, prefix, excluded, i - 1);
    }
  }

  // ---------------------------------------------------------------------------
  // Dropping None values and naming the event

  /** `{k: v for k, v in attributes.items() if v is not None}`. */
  function DropNone(a: Attributes): (r: Attributes)
    ensures forall key :: key in r <==> key in a && !a[key].Null?
    ensures forall key :: key in r ==> r[key] == a[key]
    ensures NoNull(a) ==> r == a
  {
    map key | key in a && !a[key].Null? :: a[key]
  }

  predicate NoNull(a: Attributes) {
    forall key :: key in a ==> !a[key].Null?
  }

  /** The filtered map carries no None, and filtering it again changes
      nothing. */
  lemma DropNoneClean(a: Attributes)
    ensures NoNull(DropNone(a))
    ensures DropNone(DropNone(a)) == DropNone(a)
  {
  }

  /** `f"{element.name or element.id}.{tag}"`. */
  function EventName(e: Element, tag: string): string {
    (if e.name.Some? && e.name.value != "" then e.name.value else e.id) + "." + tag
  }
}
