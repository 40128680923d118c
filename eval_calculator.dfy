/** `EvalCalculator.covert_brackets_to_parentheses`
    (beyond-black-box-benchmarking/examples/eval_calculator.py):
    four chained single-character `str.replace` calls that turn square and curly
    brackets into parentheses before the expression is handed to `eval`. The
    evaluation itself is not part of this model. */
module EvalCalculator {
  import opened Common

  /** The per-character view of the conversion. */
  function ConvertChar(c: char): char {
    if c == '[' || c == '{' then '('
    else if c == ']' || c == '}' then ')'
    else c
  }

  /** As written: `.replace("[", "(").replace("]", ")").replace("{", "(").replace("}", ")")`. */
  function CovertBracketsToParentheses(expression: string): (converted: string)
  {
    ReplaceChar(ReplaceChar(ReplaceChar(ReplaceChar(expression, '[', "("), ']', ")"), '{', "("), '}', ")")
  }

  /** The chain of replaces maps every character on its own: same length, and
      position `i` of the result is `ConvertChar` of position `i` of the input. */
  lemma ConvertIsPointwise(expression: string)
    ensures |CovertBracketsToParentheses(expression)| == |expression|
    ensures forall i :: 0 <= i < |expression| ==>
              CovertBracketsToParentheses(expression)[i] == ConvertChar(expression[i])
  {
    var s1 := ReplaceChar(expression, '[', "(");
    var s2 := ReplaceChar(s1, ']', ")");
    var s3 := ReplaceChar(s2, '{', "(");
    forall i | 0 <= i < |expression|
      ensures CovertBracketsToParentheses(expression)[i] == ConvertChar(expression[i])
    {
      ReplaceCharAt(expression, '[', '(', i);
      ReplaceCharAt(s1, ']', ')', i);
      ReplaceCharAt(s2, '{', '(', i);
      ReplaceCharAt(s3, '}', ')', i);
    }
  }

  /** The result holds no square or curly bracket, and every character that
      is not one of them is kept where it was. */
  lemma ConvertRemovesBrackets(expression: string)
    ensures var r := CovertBracketsToParentheses(expression);
            '[' !in r && ']' !in r && '{' !in r && '}' !in r
    ensures forall i :: 0 <= i < |expression| && expression[i] !in "[]{}" ==>
              CovertBracketsToParentheses(expression)[i] == expression[i]
    ensures forall i :: 0 <= i < |expression| && expression[i] in "[{" ==>
              CovertBracketsToParentheses(expression)[i] == '('
    ensures forall i :: 0 <= i < |expression| && expression[i] in "]}" ==>
              CovertBracketsToParentheses(expression)[i] == ')'
  {
    ConvertIsPointwise(expression);
  }

  /** Converting twice is the same as converting once. */
  lemma ConvertIdempotent(expression: string)
    ensures CovertBracketsToParentheses(CovertBracketsToParentheses(expression))
         == CovertBracketsToParentheses(expression)
  {
    var r := CovertBracketsToParentheses(expression);
    ConvertIsPointwise(expression);
    ConvertIsPointwise(r);
  }
}
