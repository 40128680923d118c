/** `should_finish` of the evaluating calculator
    (beyond-black-box-benchmarking/examples/langgraph_eval_calculator.py) and
    the rounds of its graph that the decision allows.

    The graph runs decompose, plan, execute and validate in turn; `execute`
    adds one to `iteration`, which starts at 0, and after `validate` the
    decision either ends the graph, sends it back to decompose, or raises. */
module EvalWorkflow {
  /** `"finish"`, `"continue"`, or the exception "Unable to calculate
      expression". */
  datatype Decision = Finish | Continue | Raise

  /** `should_finish`: a correct result finishes; otherwise more than two
      iterations raise and fewer continue. */
  function ShouldFinish(isResultCorrect: bool, iteration: int): (d: Decision)
    ensures d == Finish <==> isResultCorrect
    ensures d == Raise <==> !isResultCorrect && iteration > 2
    ensures d == Continue <==> !isResultCorrect && iteration <= 2
  {
    if isResultCorrect then Finish
    else if iteration > 2 then Raise
    else Continue
  }

  /** The graph from a state after `iteration` executions: one more
      execution, then validation with outcome `correct(iteration)`, then
      `should_finish` on the new count. The result is the final decision and
      the number of executions. */
  function Rounds(correct: nat -> bool, iteration: nat): (Decision, nat)
    requires iteration <= 2
    decreases 2 - iteration
  {
    var executed := iteration + 1;
    var d := ShouldFinish(correct(iteration), executed);
    if d == Continue then Rounds(correct, executed) else (d, executed)
  }

  /** From any state the graph ends, after at most three executions in all,
      with a decision other than `Continue`: it finishes at the first correct
      validation, and raises only after three incorrect ones. */
  lemma {:induction false} RoundsFrom(correct: nat -> bool, iteration: nat)
    requires iteration <= 2
    ensures var (d, n) := Rounds(correct, iteration);
            && iteration < n <= 3
            && d != Continue
            && (forall k: nat :: iteration <= k < n - 1 ==> !correct(k))
            && (d == Finish <==> correct(n - 1))
            && (d == Raise ==> n == 3)
    decreases 2 - iteration
  {
    var executed := iteration + 1;
    if !correct(iteration) && executed <= 2 {
      RoundsFrom(correct, executed);
    }
  }

  /** The whole graph, started with iteration 0: it raises exactly when the
      first three validations all fail, and otherwise finishes after the
      execution whose validation is the first correct one. */
  lemma Workflow(correct: nat -> bool)
    ensures var (d, n) := Rounds(correct, 0);
            && 1 <= n <= 3
            && (d == Raise <==> forall k: nat :: k < 3 ==> !correct(k))
            && (d == Finish <==> !(forall k: nat :: k < 3 ==> !correct(k)))
            && (d == Finish ==> correct(n - 1) && forall k: nat :: k < n - 1 ==> !correct(k))
  {
    RoundsFrom(correct, 0);
  }
}
