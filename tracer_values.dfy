/** Python values as the event tracer sees them, and
    `_prepare_attribute_for_otel`
    (beyond-black-box-benchmarking/sdk/src/agent_analytics/instrumentation/utils/ai_event_tracer.py),
    which turns any value into one OpenTelemetry accepts as an attribute.

    Texts are sequences of pieces. A piece is a character, or the whole output
    of `json.dumps(v)` or of `str(v)` for a value `v` whose text the tracer
    does not build itself. These outputs are kept symbolic: two texts that are
    equal here are equal in Python, but not conversely. */
module TracerValues {
  import Common

  /** The type an enumeration mixes in: none, `str` or `int`. Members of a
      mixed-in enumeration are instances of that type. */
  datatype EnumBase = PlainEnum | StrEnum(value: string) | IntEnum(number: int)

  datatype Value =
    | Null                                   // None
    | Str(text: Text)
    | Bool(b: bool)
    | Int(i: int)
    | Float(repr: string)                    // a float, by its repr
    | Enum(name: string, base: EnumBase)     // a member; `name` is its str()
    | DateTime(iso: string)                  // a datetime, by its isoformat()
    | List(items: seq<Value>)
    | Dict(entries: seq<(string, Value)>)
    | Model(fields: seq<(string, Value)>)    // a model with a `dict()` method
    | Object(id: nat, serialisable: bool)    // anything else

  datatype Piece = Ch(c: char) | Dumped(doc: Value) | Shown(shown: Value)

  type Text = seq<Piece>

  function Chars(s: string): (t: Text)
    ensures |t| == |s|
    ensures forall i :: 0 <= i < |s| ==> t[i] == Ch(s[i])
  {
    seq(|s|, i requires 0 <= i < |s| => Ch(s[i]))
  }

  lemma {:induction false} CharsAppend(s: string, u: string)
    ensures Chars(s + u) == Chars(s) + Chars(u)
  {
  }

  /** The values that need no conversion: instances of str, bool, int and
      float, mixed-in enumeration members included. */
  predicate IsPrimitive(v: Value) {
    v.Str? || v.Bool? || v.Int? || v.Float? || (v.Enum? && !v.base.PlainEnum?)
  }

  /** Python's truth value. Symbolic pieces stand for non-empty texts; a float
      is false exactly when it is zero. */
  predicate Truthy(v: Value) {
    match v
    case Null => false
    case Str(t) => t != []
    case Bool(b) => b
    case Int(i) => i != 0
    case Float(r) => r != "0.0" && r != "-0.0"
    case Enum(_, base) =>
      (match base
       case PlainEnum => true
       case StrEnum(s) => s != ""
       case IntEnum(n) => n != 0)
    case DateTime(_) => true
    case List(items) => items != []
    case Dict(entries) => entries != []
    case Model(_) => true
    case Object(_, _) => true
  }

  /** `str(v)` of a primitive value. */
  function ShowPrimitive(v: Value): Text
    requires IsPrimitive(v)
  {
    match v
    case Str(t) => t
    case Bool(b) => if b then Chars("True") else Chars("False")
    case Int(i) => Chars(Common.IntToString(i))
    case Float(r) => Chars(r)
    case Enum(name, _) => Chars(name)
  }

  /** `str(v)` of any value: the text itself for the values whose text the
      tracer relies on, a symbolic piece for the rest. */
  function Show(v: Value): Text {
    if IsPrimitive(v) then ShowPrimitive(v)
    else if v.Null? then Chars("None")
    else if v.Enum? then Chars(v.name)
    else [Shown(v)]
  }

  /** `", ".join(parts)`. */
  function JoinComma(parts: seq<Text>): (r: Text)
    ensures parts == [] ==> r == []
    ensures |parts| == 1 ==> r == parts[0]
  {
    if parts == [] then []
    else if |parts| == 1 then parts[0]
    else JoinComma(parts[..|parts| - 1]) + Chars(", ") + parts[|parts| - 1]
  }

  /** The parts appear in their own order, one separator between neighbours. */
  lemma JoinCommaSnoc(parts: seq<Text>, last: Text)
    requires parts != []
    ensures JoinComma(parts + [last]) == JoinComma(parts) + Chars(", ") + last
  {
    assert (parts + [last])[..|parts|] == parts;
  }

  /** Whether `json.dumps(v)` succeeds: None, text, numbers, booleans,
      mixed-in enumeration members and lists and dictionaries of those. */
  predicate Serialisable(v: Value) {
    match v
    case Null => true
    case Str(_) => true
    case Bool(_) => true
    case Int(_) => true
    case Float(_) => true
    case Enum(_, base) => !base.PlainEnum?
    case DateTime(_) => false
    case List(items) => forall i :: 0 <= i < |items| ==> Serialisable(items[i])
    case Dict(entries) => forall i :: 0 <= i < |entries| ==> Serialisable(entries[i].1)
    case Model(_) => false
    case Object(_, s) => s
  }

  /** `v.dict()`: models become dictionaries of their fields, at any depth. */
  function AsDict(v: Value): Value {
    match v
    case Model(fields) => Dict(seq(|fields|, i requires 0 <= i < |fields| => (fields[i].0, AsDict(fields[i].1))))
    case List(items) => List(seq(|items|, i requires 0 <= i < |items| => AsDict(items[i])))
    case Dict(entries) => Dict(seq(|entries|, i requires 0 <= i < |entries| => (entries[i].0, AsDict(entries[i].1))))
    case _ => v
  }

  /** The results `_prepare_attribute_for_otel` can have: None, or an instance
      of str, bool, int or float. */
  predicate IsAttribute(v: Value) {
    v.Null? || IsPrimitive(v)
  }

  predicate AllPrimitive(items: seq<Value>) {
    forall i :: 0 <= i < |items| ==> IsPrimitive(items[i])
  }

  /** `_prepare_attribute_for_otel`. */
  function Prepare(v: Value): (r: Value)
    ensures IsAttribute(r)
    ensures r.Null? <==> v.Null?
    ensures IsPrimitive(v) ==> r == v
    ensures v.Enum? && v.base.PlainEnum? ==> r == Str(Chars(v.name))
    ensures v.DateTime? ==> r == Str(Chars(v.iso))
  {
    match v
    case Null => Null
    case Str(_) => v
    case Bool(_) => v
    case Int(_) => v
    case Float(_) => v
    case Enum(name, base) => if base.PlainEnum? then Str(Chars(name)) else v
    case DateTime(iso) => Str(Chars(iso))
    case List(items) =>
      if AllPrimitive(items) then
        Str(JoinComma(seq(|items|, i requires 0 <= i < |items| => ShowPrimitive(items[i]))))
      else
        var prepared := List(seq(|items|, i requires 0 <= i < |items| => Prepare(items[i])));
        if Serialisable(prepared) then Str([Dumped(prepared)]) else Str(Show(v))
    case Dict(entries) =>
      var prepared := Dict(seq(|entries|, i requires 0 <= i < |entries| => (entries[i].0, Prepare(entries[i].1))));
      if Serialisable(prepared) then Str([Dumped(prepared)]) else Str(Show(v))
    case Model(_) =>
      if Serialisable(AsDict(v)) then Str([Dumped(AsDict(v))]) else Str(Show(v))
    case Object(_, s) =>
      if s then Str([Dumped(v)]) else Str(Show(v))
  }

  /** Everything `_prepare_attribute_for_otel` returns is serialisable. */
  lemma AttributeSerialisable(v: Value)
    requires IsAttribute(v)
    ensures Serialisable(v)
  {
  }

  /** Preparing a prepared value changes nothing. */
  lemma PrepareIdempotent(v: Value)
    ensures Prepare(Prepare(v)) == Prepare(v)
  {
  }

  /** A list of primitive values becomes their texts joined with ", ", in
      order; the empty list becomes the empty text and not None. */
  lemma PreparePrimitiveList(items: seq<Value>)
    requires AllPrimitive(items)
    ensures var r := Prepare(List(items));
            && r.Str?
            && (items == [] ==> r.text == [])
            && (|items| == 1 ==> r.text == ShowPrimitive(items[0]))
  {
  }

  /** A primitive list that grows by one item grows by a separator and that
      item's text. */
  lemma PreparePrimitiveListSnoc(items: seq<Value>, last: Value)
    requires AllPrimitive(items) && IsPrimitive(last) && items != []
    ensures Prepare(List(items + [last])).text
         == Prepare(List(items)).text + Chars(", ") + ShowPrimitive(last)
  {
    var parts := seq(|items|, i requires 0 <= i < |items| => ShowPrimitive(items[i]));
    var all := items + [last];
    assert AllPrimitive(all);
    assert seq(|all|, i requires 0 <= i < |all| => ShowPrimitive(all[i])) == parts + [ShowPrimitive(last)];
    JoinCommaSnoc(parts, ShowPrimitive(last));
  }

  /** A list with an item that is not primitive becomes the JSON text of its
      prepared items: `json.dumps` of prepared items never fails, so the
      `str(value)` fallback is never taken. */
  lemma PrepareMixedList(items: seq<Value>)
    requires !AllPrimitive(items)
    ensures Prepare(List(items))
         == Str([Dumped(List(seq(|items|, i requires 0 <= i < |items| => Prepare(items[i]))))])
  {
    var prepared := seq(|items|, i requires 0 <= i < |items| => Prepare(items[i]));
    forall i | 0 <= i < |prepared|
      ensures Serialisable(prepared[i])
    {
      AttributeSerialisable(prepared[i]);
    }
  }

  /** A dictionary becomes the JSON text of its keys with their prepared
      values; here too the fallback is never taken. */
  lemma PrepareDict(entries: seq<(string, Value)>)
    ensures Prepare(Dict(entries))
         == Str([Dumped(Dict(seq(|entries|, i requires 0 <= i < |entries| => (entries[i].0, Prepare(entries[i].1)))))])
  {
    var prepared := seq(|entries|, i requires 0 <= i < |entries| => (entries[i].0, Prepare(entries[i].1)));
    forall i | 0 <= i < |prepared|
      ensures Serialisable(prepared[i].1)
    {
      AttributeSerialisable(prepared[i].1);
    }
  }

  /** A model becomes the JSON text of its `dict()` when that is serialisable
      and its `str()` otherwise, e.g. when a field holds a datetime. */
  lemma PrepareModel(fields: seq<(string, Value)>)
    ensures var v := Model(fields);
            && (Serialisable(AsDict(v)) ==> Prepare(v) == Str([Dumped(AsDict(v))]))
            && (!Serialisable(AsDict(v)) ==> Prepare(v) == Str([Shown(v)]))
  {
  }
}
