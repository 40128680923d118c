/** The calculator chain of responsibility
    (beyond-black-box-benchmarking/examples/base_calculator.py,
    beyond-black-box-benchmarking/examples/predefined_calculator.py,
    beyond-black-box-benchmarking/examples/delegating_calculator.py).

    Results are values of an abstract type `V` (the source's floats), so no
    arithmetic is involved. A calculator is one of
    - `Base`: the terminal fallback, which calculates nothing (`None`) and
      validates nothing (`False`);
    - `Predefined(table)`: a fixed expression-to-result table;
    - `Other(...)`: any other calculator, given by its three entry points as
      abstract functions; its `calculate_expression` may return a value, return
      `None`, or raise, and each of its validators may answer or raise. */
module Calculators {
  import opened Common

  /** What one call of `calculate_expression` does. */
  datatype Outcome<V> = Returned(result: Option<V>) | Raised

  /** What one call of `is_valid_expression` or `is_valid_result` does: answer
      a truth value, or raise. */
  datatype Check = Answered(holds: bool) | Threw

  datatype Calculator<!V(==)> =
    | Base
    | Predefined(table: map<string, V>)
    | Other(calculate: string -> Outcome<V>,
            validExpression: string -> Check,
            validResult: (string, Option<V>) -> Check)

  // ---------------------------------------------------------------------------
  // PredefinedCalculator

  /** The constructor: `predefined_results if predefined_results else {}`, so a
      missing (`None`) or empty argument gives an empty table. */
  function NewPredefined<V(==)>(predefinedResults: Option<map<string, V>>): (c: Calculator<V>)
    ensures c.Predefined?
    ensures predefinedResults.None? ==> c.table == map[]
    ensures predefinedResults.Some? ==> c.table == predefinedResults.value
  {
    Predefined(if predefinedResults.Some? && |predefinedResults.value| > 0
               then predefinedResults.value else map[])
  }

  /** `dict.get(expression)`: the stored value, or `None` for an absent key. */
  function Lookup<V>(table: map<string, V>, expression: string): (r: Option<V>)
    ensures r.Some? <==> expression in table
    ensures r.Some? ==> r.value == table[expression]
  {
    if expression in table then Some(table[expression]) else None
  }

  // ---------------------------------------------------------------------------
  // The three entry points of every calculator

  /** `calculate_expression`. `Predefined` consults the table and falls back to
      `Base` (which gives `None`) for an absent key; neither raises. */
  function Calculate<V(==)>(c: Calculator<V>, expression: string): (r: Outcome<V>)
    ensures c.Base? ==> r == Returned(None)
    ensures c.Predefined? ==> r == Returned(Lookup(c.table, expression))
  {
    match c
    case Base => Returned(None)
    case Predefined(table) =>
      if expression in table then Returned(Some(table[expression]))
      else Returned(None)  // the fallback: what `Base` returns
    case Other(calculate, _, _) => calculate(expression)
  }

  /** `is_valid_expression`. For `Predefined`: the expression is a key of the table. */
  function IsValidExpression<V(==)>(c: Calculator<V>, expression: string): (b: Check)
    ensures c.Base? ==> b == Answered(false)
    ensures c.Predefined? ==> b.Answered? && (b.holds <==> expression in c.table)
  {
    match c
    case Base => Answered(false)
    case Predefined(table) => Answered(expression in table)
    case Other(_, valid, _) => valid(expression)
  }

  /** `is_valid_result`. For `Predefined`: `table.get(expression) == result`, so
      an absent key compares as `None` and validates exactly a `None` result. */
  function IsValidResult<V(==)>(c: Calculator<V>, expression: string, result: Option<V>): (b: Check)
    ensures c.Base? ==> b == Answered(false)
    ensures c.Predefined? ==> b.Answered?
    ensures c.Predefined? && expression in c.table ==>
              (b.holds <==> result == Some(c.table[expression]))
    ensures c.Predefined? && expression !in c.table ==> (b.holds <==> result.None?)
  {
    match c
    case Base => Answered(false)
    case Predefined(table) => Answered(Lookup(table, expression) == result)
    case Other(_, _, valid) => valid(expression, result)
  }

  // ---------------------------------------------------------------------------
  // DelegatingCalculator

  /** A call that produced a value: it neither raised nor returned `None`. */
  predicate Succeeds<V(==)>(c: Calculator<V>, expression: string) {
    Calculate(c, expression).Returned? && Calculate(c, expression).result.Some?
  }

  /** Reference definition: the value of the first delegate, in list order, that
      succeeds, with `Base`'s `None` when there is none. */
  function FirstSuccess<V(==)>(delegates: seq<Calculator<V>>, expression: string): Option<V>
  {
    if delegates == [] then Calculate(Base, expression).result
    else if Succeeds(delegates[0], expression) then Calculate(delegates[0], expression).result
    else FirstSuccess(delegates[1..], expression)
  }

  /** `FirstSuccess` picks the first succeeding delegate: a value comes from a
      delegate at some index `k` all of whose predecessors failed (returned
      `None` or raised); `None` means that every delegate failed, which is the
      case for an empty list. */
  lemma {:induction false} FirstSuccessIsFirst<V>(delegates: seq<Calculator<V>>, expression: string)
    ensures FirstSuccess(delegates, expression).Some? ==>
              exists k :: 0 <= k < |delegates| && Succeeds(delegates[k], expression)
                && Calculate(delegates[k], expression).result == FirstSuccess(delegates, expression)
                && forall j :: 0 <= j < k ==> !Succeeds(delegates[j], expression)
    ensures FirstSuccess(delegates, expression).None? <==>
              forall j :: 0 <= j < |delegates| ==> !Succeeds(delegates[j], expression)
  {
    if delegates != [] {
      FirstSuccessIsFirst(delegates[1..], expression);
      if !Succeeds(delegates[0], expression) && FirstSuccess(delegates, expression).Some? {
        var k :| 0 <= k < |delegates[1..]| && Succeeds(delegates[1..][k], expression)
                 && Calculate(delegates[1..][k], expression).result == FirstSuccess(delegates[1..], expression)
                 && forall j :: 0 <= j < k ==> !Succeeds(delegates[1..][j], expression);
        assert Succeeds(delegates[k + 1], expression);
        forall j | 0 <= j < k + 1 ensures !Succeeds(delegates[j], expression) {
          if j > 0 { assert delegates[j] == delegates[1..][j - 1]; }
        }
      }
      if !Succeeds(delegates[0], expression) {
        forall j | 1 <= j < |delegates| ensures delegates[j] == delegates[1..][j - 1] { }
      }
    }
  }

  /** `DelegatingCalculator.calculate_expression`: try the delegates in order,
      skip one that raises or returns `None`, and return the first value; with
      no success, fall back to `Base`. `invoked` is the number of delegates
      called: delegates after the first success are never called. */
  method CalculateExpression<V(==)>(delegates: seq<Calculator<V>>, expression: string)
      returns (result: Option<V>, invoked: nat)
    ensures result == FirstSuccess(delegates, expression)
    ensures invoked <= |delegates|
    ensures result.Some? ==> 1 <= invoked && Succeeds(delegates[invoked - 1], expression)
    ensures result.Some? ==> forall j :: 0 <= j < invoked - 1 ==> !Succeeds(delegates[j], expression)
    ensures result.None? ==> invoked == |delegates|
  {
    var i := 0;
    while i < |delegates|
      invariant 0 <= i <= |delegates|
      invariant forall j :: 0 <= j < i ==> !Succeeds(delegates[j], expression)
      invariant FirstSuccess(delegates, expression) == FirstSuccess(delegates[i..], expression)
    {
      var outcome := Calculate(delegates[i], expression);
      assert delegates[i..][1..] == delegates[i + 1..];
      match outcome {
        case Raised =>
        case Returned(r) =>
          if r.Some? {
            return r, i + 1;
          }
      }
      i := i + 1;
    }
    result := Calculate(Base, expression).result;
    invoked := |delegates|;
  }

  /** Python's `any` over a generator of calls: the calls are made in order
      until one answers true or raises, and that one decides. The result is
      `False` exactly when every call answers false; otherwise it is what the
      first call that did not answer false did. */
  function AnyOf(checks: seq<Check>): (r: Check)
    ensures r == Answered(false) <==> forall k :: 0 <= k < |checks| ==> checks[k] == Answered(false)
    ensures r != Answered(false) ==>
              exists k :: 0 <= k < |checks| && checks[k] == r
                && forall j :: 0 <= j < k ==> checks[j] == Answered(false)
  {
    if checks == [] then Answered(false)
    else if checks[0] == Answered(false) then
      var r := AnyOf(checks[1..]);
      assert forall k :: 1 <= k < |checks| ==> checks[k] == checks[1..][k - 1];
      if r != Answered(false) then
        var k :| 0 <= k < |checks[1..]| && checks[1..][k] == r
                 && forall j :: 0 <= j < k ==> checks[1..][j] == Answered(false);
        assert checks[k + 1] == r;
        r
      else r
    else checks[0]
  }

  /** The first call that does not answer false decides `any`: it raises
      exactly when that call raises, and is true exactly when that call
      answers true. */
  lemma AnyOfFirstDecides(checks: seq<Check>, k: nat)
    requires k < |checks| && checks[k] != Answered(false)
    requires forall j :: 0 <= j < k ==> checks[j] == Answered(false)
    ensures AnyOf(checks) == checks[k]
  {
    var r := AnyOf(checks);
    var k' :| 0 <= k' < |checks| && checks[k'] == r
              && forall j :: 0 <= j < k' ==> checks[j] == Answered(false);
    assert !(k' < k) && !(k < k');
  }

  /** `DelegatingCalculator.is_valid_expression`: `any` over the delegates'
      answers, so an exception from a delegate asked before any says true
      propagates. */
  function AnyValidExpression<V(==)>(delegates: seq<Calculator<V>>, expression: string): (r: Check)
    ensures r == Answered(false) <==>
              forall k :: 0 <= k < |delegates| ==> IsValidExpression(delegates[k], expression) == Answered(false)
    ensures r != Answered(false) ==>
              exists k :: 0 <= k < |delegates| && IsValidExpression(delegates[k], expression) == r
                && forall j :: 0 <= j < k ==> IsValidExpression(delegates[j], expression) == Answered(false)
  {
    var checks := seq(|delegates|, k requires 0 <= k < |delegates| => IsValidExpression(delegates[k], expression));
    assert forall k :: 0 <= k < |delegates| ==> checks[k] == IsValidExpression(delegates[k], expression);
    AnyOf(checks)
  }

  /** `DelegatingCalculator.is_valid_result`: `any` over the delegates' answers. */
  function AnyValidResult<V(==)>(delegates: seq<Calculator<V>>, expression: string, result: Option<V>): (r: Check)
    ensures r == Answered(false) <==>
              forall k :: 0 <= k < |delegates| ==> IsValidResult(delegates[k], expression, result) == Answered(false)
    ensures r != Answered(false) ==>
              exists k :: 0 <= k < |delegates| && IsValidResult(delegates[k], expression, result) == r
                && forall j :: 0 <= j < k ==> IsValidResult(delegates[j], expression, result) == Answered(false)
  {
    var checks := seq(|delegates|, k requires 0 <= k < |delegates| => IsValidResult(delegates[k], expression, result));
    assert forall k :: 0 <= k < |delegates| ==> checks[k] == IsValidResult(delegates[k], expression, result);
    AnyOf(checks)
  }
}
