/** `extract_arithmetic_operations` of the evaluating calculator
    (beyond-black-box-benchmarking/examples/langgraph_eval_calculator.py).

    The expression is split on the four operators, keeping them, into
    `t0 o1 t1 o2 t2 … on tn`. Two passes then reduce the list in place left to
    right: the first replaces every `t o t'` with `o` a `*` or `/` by a fresh
    name `E<counter>` and records an operation, the second does the same for
    `+` and `-`. */
module Arithmetic {
  import opened Common

  // ---------------------------------------------------------------------------
  // re.split(r"(\+|-|\*|/)", expression)

  predicate NoOperator(token: string) {
    forall j :: 0 <= j < |token| ==> !IsOperatorChar(token[j])
  }

  predicate IsOperatorToken(token: string) {
    |token| == 1 && IsOperatorChar(token[0])
  }

  /** What position `i` of a split holds: an operator-free text at an even
      position, a one-character operator at an odd one. */
  predicate Slot(tokens: seq<string>, i: nat)
    requires i < |tokens|
  {
    if i % 2 == 0 then NoOperator(tokens[i]) else IsOperatorToken(tokens[i])
  }

  /** The shape `re.split` with one capture group gives: an odd number of
      tokens, texts and operators taking turns. */
  predicate Alternating(tokens: seq<string>) {
    |tokens| % 2 == 1 && forall i: nat :: i < |tokens| ==> Slot(tokens, i)
  }

  /** The position of the last operator of `s`, or -1 when there is none. */
  function LastOperator(s: string): (k: int)
    ensures -1 <= k < |s|
    ensures k >= 0 ==> IsOperatorChar(s[k])
    ensures forall j :: k < j < |s| ==> !IsOperatorChar(s[j])
  {
    if s == [] then -1
    else if IsOperatorChar(s[|s| - 1]) then |s| - 1
    else LastOperator(s[..|s| - 1])
  }

  /** `re.split(r"(\+|-|\*|/)", s)`: the texts between the operators and the
      operators themselves, in order; joined back together they give `s`. */
  function Tokenize(s: string): (tokens: seq<string>)
    ensures Alternating(tokens)
    ensures Concat(tokens) == s
    decreases |s|
  {
    var k := LastOperator(s);
    if k < 0 then [s]
    else
      var init := Tokenize(s[..k]);
      TokenizeStep(s, k, init);
      init + [[s[k]], s[k + 1..]]
  }

  /** Splitting at the last operator `s[k]`, given the split of `s[..k]`. */
  lemma TokenizeStep(s: string, k: int, init: seq<string>)
    requires k == LastOperator(s) && k >= 0
    requires Alternating(init) && Concat(init) == s[..k]
    ensures Alternating(init + [[s[k]], s[k + 1..]])
    ensures Concat(init + [[s[k]], s[k + 1..]]) == s
  {
    AfterLastOperator(s, k);
    AlternatingSnoc(init, [s[k]], s[k + 1..]);
    ConcatSnoc(init, [s[k]], s[k + 1..]);
    SplitAt(s, k);
  }

  /** What follows the last operator holds none. */
  lemma AfterLastOperator(s: string, k: int)
    requires k == LastOperator(s) && k >= 0
    ensures NoOperator(s[k + 1..])
  {
    var last := s[k + 1..];
    forall j | 0 <= j < |last| ensures !IsOperatorChar(last[j]) {
      assert last[j] == s[k + 1 + j];
    }
  }

  /** `s` is what comes before `s[k]`, `s[k]` and what comes after. */
  lemma SplitAt(s: string, k: nat)
    requires k < |s|
    ensures s == s[..k] + [s[k]] + s[k + 1..]
  {
  }

  /** An operator and a text after an alternating list keep the shape. */
  lemma AlternatingSnoc(init: seq<string>, operator: string, last: string)
    requires Alternating(init) && IsOperatorToken(operator) && NoOperator(last)
    ensures Alternating(init + [operator, last])
  {
    var t := init + [operator, last];
    forall i: nat | i < |t| ensures Slot(t, i) {
      if i < |init| {
        assert t[i] == init[i] && Slot(init, i);
      }
    }
  }

  lemma ConcatSnoc(init: seq<string>, operator: string, last: string)
    ensures Concat(init + [operator, last]) == Concat(init) + operator + last
  {
    assert init + [operator, last] == init + [operator] + [last];
    ConcatAppend(init + [operator], last);
    ConcatAppend(init, operator);
  }

  /** The last operator of `prefix + [c] + last`, when `c` is one and `last`
      holds none, is `c`. */
  lemma LastOperatorAfter(prefix: string, c: char, last: string)
    requires IsOperatorChar(c) && NoOperator(last)
    ensures var s := prefix + [c] + last;
            && LastOperator(s) == |prefix|
            && s[..|prefix|] == prefix && s[|prefix| + 1..] == last
  {
    var s, k := prefix + [c] + last, |prefix|;
    assert s[k] == c;
    assert forall j :: k < j < |s| ==> s[j] == last[j - k - 1];
    assert s[..k] == prefix && s[k + 1..] == last;
  }

  /** Dropping the last operator and text of an alternating list keeps the
      shape. */
  lemma AlternatingInit(tokens: seq<string>)
    requires Alternating(tokens) && |tokens| > 1
    ensures Alternating(tokens[..|tokens| - 2])
    ensures IsOperatorToken(tokens[|tokens| - 2]) && NoOperator(tokens[|tokens| - 1])
  {
    var n := |tokens|;
    assert Slot(tokens, n - 2) && Slot(tokens, n - 1);
    var init := tokens[..n - 2];
    forall i: nat | i < |init| ensures Slot(init, i) {
      assert init[i] == tokens[i] && Slot(tokens, i);
    }
  }

  /** The split is the only alternating list of tokens that joins to `s`. */
  lemma {:induction false} TokenizeUnique(tokens: seq<string>, s: string)
    requires Alternating(tokens) && Concat(tokens) == s
    ensures tokens == Tokenize(s)
    decreases |tokens|
  {
    var n := |tokens|;
    if n == 1 {
      assert Concat(tokens) == tokens[0] && Slot(tokens, 0);
      assert LastOperator(s) == -1;
    } else {
      var init, op, last := tokens[..n - 2], tokens[n - 2], tokens[n - 1];
      AlternatingInit(tokens);
      assert tokens == init + [op] + [last];
      ConcatAppend(init + [op], last);
      ConcatAppend(init, op);
      var prefix := Concat(init);
      assert op == [op[0]];
      LastOperatorAfter(prefix, op[0], last);
      TokenizeUnique(init, prefix);
    }
  }

  // ---------------------------------------------------------------------------
  // The two passes

  /** The first pass reduces `*` and `/`, the second `+` and `-`. */
  datatype Level = Multiplicative | Additive

  /** `tokens[i] in ("*", "/")`, respectively `tokens[i] in ("+", "-")`. */
  predicate Reduces(level: Level, token: string) {
    && |token| == 1
    && match level
       case Multiplicative => token[0] == '*' || token[0] == '/'
       case Additive => token[0] == '+' || token[0] == '-'
  }

  /** The `operation` recorded for a reduced operator. */
  function KindName(level: Level, operator: char): string {
    match level
    case Multiplicative => if operator == '*' then "multiplication" else "division"
    case Additive => if operator == '+' then "addition" else "subtraction"
  }

  predicate IsKind(level: Level, operation: string) {
    match level
    case Multiplicative => operation == "multiplication" || operation == "division"
    case Additive => operation == "addition" || operation == "subtraction"
  }

  /** The operations are named `E<counter>`, `E<counter + 1>`, … in order. */
  predicate NamedFrom(ops: seq<Operation>, counter: nat) {
    forall j :: 0 <= j < |ops| ==> ops[j].name == OperationName(counter + j)
  }

  /** Every operation is of a kind of `level`. */
  predicate OfLevel(level: Level, ops: seq<Operation>) {
    forall j :: 0 <= j < |ops| ==> IsKind(level, ops[j].operation)
  }

  /** How many tokens of `tokens` a pass at `level` reduces. */
  function Count(level: Level, tokens: seq<string>): nat {
    if tokens == [] then 0
    else Count(level, tokens[..|tokens| - 1]) + (if Reduces(level, tokens[|tokens| - 1]) then 1 else 0)
  }

  /** How many operator characters `s` holds. */
  function OperatorsIn(s: string): nat {
    if s == [] then 0
    else OperatorsIn(s[..|s| - 1]) + (if IsOperatorChar(s[|s| - 1]) then 1 else 0)
  }

  /** Reference definition of the tokens one pass over `acc o1 t1 o2 t2 …`
      leaves (`rest` holds `o1 t1 o2 t2 …`): reading left to right, an
      operator of the level folds the accumulated operand and the next one into
      a fresh name, which becomes the accumulated operand; any other operator
      closes the accumulated operand and starts a new one. */
  function Remaining(level: Level, acc: string, rest: seq<string>, counter: nat): seq<string>
    requires |rest| % 2 == 0
    decreases |rest|
  {
    if rest == [] then [acc]
    else if Reduces(level, rest[0]) then Remaining(level, OperationName(counter), rest[2..], counter + 1)
    else [acc, rest[0]] + Remaining(level, rest[1], rest[2..], counter)
  }

  /** The operations the same pass records, in the order it records them: the
      fresh name, the kind of the operator and both operands stripped. */
  function Recorded(level: Level, acc: string, rest: seq<string>, counter: nat): seq<Operation>
    requires |rest| % 2 == 0
    decreases |rest|
  {
    if rest == [] then []
    else if Reduces(level, rest[0]) then
      var name := OperationName(counter);
      [Operation(name, KindName(level, rest[0][0]), Strip(acc), Strip(rest[1]))]
        + Recorded(level, name, rest[2..], counter + 1)
    else Recorded(level, rest[1], rest[2..], counter)
  }

  /** One pass over an alternating token list, naming from `counter`: the
      tokens it leaves and the operations it records. */
  function Pass(level: Level, tokens: seq<string>, counter: nat): (seq<string>, seq<Operation>)
    requires |tokens| % 2 == 1
  {
    (Remaining(level, tokens[0], tokens[1..], counter), Recorded(level, tokens[0], tokens[1..], counter))
  }

  // ---------------------------------------------------------------------------
  // Facts about counting

  lemma {:induction false} CountAppend(level: Level, a: seq<string>, b: seq<string>)
    ensures Count(level, a + b) == Count(level, a) + Count(level, b)
    decreases |b|
  {
    if b != [] {
      assert (a + b)[..|a + b| - 1] == a + b[..|b| - 1];
      CountAppend(level, a, b[..|b| - 1]);
    } else {
      assert a + b == a;
    }
  }

  lemma {:induction false} OperatorsInAppend(a: string, b: string)
    ensures OperatorsIn(a + b) == OperatorsIn(a) + OperatorsIn(b)
    decreases |b|
  {
    if b != [] {
      assert (a + b)[..|a + b| - 1] == a + b[..|b| - 1];
      OperatorsInAppend(a, b[..|b| - 1]);
    } else {
      assert a + b == a;
    }
  }

  lemma {:induction false} OperatorsInNone(s: string)
    requires NoOperator(s)
    ensures OperatorsIn(s) == 0
    decreases |s|
  {
    if s != [] {
      OperatorsInNone(s[..|s| - 1]);
    }
  }

  /** A text token is never reduced. */
  lemma TextNotReduced(level: Level, token: string)
    requires NoOperator(token)
    ensures !Reduces(level, token)
  {
  }

  /** Every operator token belongs to exactly one of the two passes. */
  lemma OperatorInOnePass(token: string)
    requires IsOperatorToken(token)
    ensures Reduces(Multiplicative, token) != Reduces(Additive, token)
  {
    assert token == [token[0]];
  }

  /** The split of `s` when its last operator is `s[k]`. */
  lemma TokenizeLast(s: string, k: int)
    requires k == LastOperator(s) && k >= 0
    ensures Tokenize(s) == Tokenize(s[..k]) + [[s[k]], s[k + 1..]]
  {
  }

  /** Together, the two passes reduce as many tokens as `s` has operators. */
  lemma {:induction false} TokenizeCounts(s: string)
    ensures Count(Multiplicative, Tokenize(s)) + Count(Additive, Tokenize(s)) == OperatorsIn(s)
    decreases |s|
  {
    var k := LastOperator(s);
    if k < 0 {
      assert NoOperator(s);
      OperatorsInNone(s);
      assert Tokenize(s) == [] + [s];
      TextNotReduced(Multiplicative, s);
      TextNotReduced(Additive, s);
    } else {
      TokenizeLast(s, k);
      AfterLastOperator(s, k);
      SplitAt(s, k);
      TokenizeCounts(s[..k]);
      var init, op, last := Tokenize(s[..k]), [s[k]], s[k + 1..];
      assert init + [op, last] == init + [op] + [last];
      OperatorInOnePass(op);
      TextNotReduced(Multiplicative, last);
      TextNotReduced(Additive, last);
      forall level: Level
        ensures Count(level, init + [op] + [last]) == Count(level, init) + (if Reduces(level, op) then 1 else 0)
      {
        CountAppend(level, init + [op], [last]);
        CountAppend(level, init, [op]);
        assert Count(level, [op]) == (if Reduces(level, op) then 1 else 0);
        assert Count(level, [last]) == 0;
      }
      OperatorsInAppend(s[..k] + op, last);
      OperatorsInAppend(s[..k], op);
      OperatorsInNone(last);
    }
  }

  // ---------------------------------------------------------------------------
  // Facts about one pass

  /** Dropping the first operator and its operand keeps the shape, whatever
      operator-free token takes the first place. */
  lemma AlternatingShift(acc: string, rest: seq<string>, x: string)
    requires Alternating([acc] + rest) && |rest| >= 2 && NoOperator(x)
    ensures Alternating([x] + rest[2..])
  {
    var t, u := [acc] + rest, [x] + rest[2..];
    forall i: nat | i < |u| ensures Slot(u, i) {
      if i > 0 {
        assert u[i] == t[i + 2] && Slot(t, i + 2);
      }
    }
  }

  /** The first three tokens of an alternating `acc o1 t1 …`. */
  lemma Front(acc: string, rest: seq<string>)
    requires Alternating([acc] + rest)
    ensures NoOperator(acc)
    ensures |rest| >= 2 ==> IsOperatorToken(rest[0]) && NoOperator(rest[1])
  {
    var t := [acc] + rest;
    assert t[0] == acc && Slot(t, 0);
    if |rest| >= 2 {
      assert t[1] == rest[0] && Slot(t, 1);
      assert t[2] == rest[1] && Slot(t, 2);
    }
  }

  /** A text and an operator in front of an alternating list keep the
      shape. */
  lemma AlternatingCons(acc: string, operator: string, tail: seq<string>)
    requires NoOperator(acc) && IsOperatorToken(operator) && Alternating(tail)
    ensures Alternating([acc, operator] + tail)
  {
    var t := [acc, operator] + tail;
    forall i: nat | i < |t| ensures Slot(t, i) {
      if i >= 2 {
        assert t[i] == tail[i - 2] && Slot(tail, i - 2);
      }
    }
  }

  /** Counting `o1 t1 o2 t2 …` from the front. */
  lemma CountFront(level: Level, rest: seq<string>)
    requires |rest| >= 2 && NoOperator(rest[1])
    ensures Count(level, rest) == (if Reduces(level, rest[0]) then 1 else 0) + Count(level, rest[2..])
  {
    assert rest == [rest[0]] + [rest[1]] + rest[2..];
    CountAppend(level, [rest[0]] + [rest[1]], rest[2..]);
    CountAppend(level, [rest[0]], [rest[1]]);
    assert Count(level, [rest[0]]) == (if Reduces(level, rest[0]) then 1 else 0);
    TextNotReduced(level, rest[1]);
    assert Count(level, [rest[1]]) == 0;
  }

  lemma NamedFromCons(x: Operation, tail: seq<Operation>, counter: nat)
    requires x.name == OperationName(counter) && NamedFrom(tail, counter + 1)
    ensures NamedFrom([x] + tail, counter)
  {
    var ops := [x] + tail;
    forall j | 0 < j < |ops| ensures ops[j].name == OperationName(counter + j) {
      assert ops[j] == tail[j - 1];
      assert counter + 1 + (j - 1) == counter + j;
    }
  }

  lemma OfLevelCons(level: Level, x: Operation, tail: seq<Operation>)
    requires IsKind(level, x.operation) && OfLevel(level, tail)
    ensures OfLevel(level, [x] + tail)
  {
    var ops := [x] + tail;
    forall j | 0 < j < |ops| ensures IsKind(level, ops[j].operation) {
      assert ops[j] == tail[j - 1];
    }
  }

  /** A pass records one operation per operator of its level. */
  lemma {:induction false} RecordedCount(level: Level, acc: string, rest: seq<string>, counter: nat)
    requires Alternating([acc] + rest)
    ensures |Recorded(level, acc, rest, counter)| == Count(level, rest)
    decreases |rest|
  {
    if rest != [] {
      Front(acc, rest);
      CountFront(level, rest);
      if Reduces(level, rest[0]) {
        var name := OperationName(counter);
        NameHasNoOperator(counter);
        AlternatingShift(acc, rest, name);
        FoldReduce(level, acc, rest, counter);
        RecordedCount(level, name, rest[2..], counter + 1);
      } else {
        FoldSkip(level, acc, rest, counter);
        AlternatingShift(acc, rest, rest[1]);
        RecordedCount(level, rest[1], rest[2..], counter);
      }
    }
  }

  /** The operations a pass records are named consecutively from `counter`,
      each of a kind of its level. */
  lemma {:induction false} RecordedNames(level: Level, acc: string, rest: seq<string>, counter: nat)
    requires |rest| % 2 == 0
    ensures NamedFrom(Recorded(level, acc, rest, counter), counter)
    ensures OfLevel(level, Recorded(level, acc, rest, counter))
    decreases |rest|
  {
    if rest != [] {
      if Reduces(level, rest[0]) {
        var name := OperationName(counter);
        FoldReduce(level, acc, rest, counter);
        RecordedNames(level, name, rest[2..], counter + 1);
        var x := Operation(name, KindName(level, rest[0][0]), Strip(acc), Strip(rest[1]));
        var tail := Recorded(level, name, rest[2..], counter + 1);
        NamedFromCons(x, tail, counter);
        OfLevelCons(level, x, tail);
      } else {
        FoldSkip(level, acc, rest, counter);
        RecordedNames(level, rest[1], rest[2..], counter);
      }
    }
  }

  /** The tokens a pass leaves still alternate, two fewer per operator of its
      level. */
  lemma {:induction false} RemainingShape(level: Level, acc: string, rest: seq<string>, counter: nat)
    requires Alternating([acc] + rest)
    ensures var r := Remaining(level, acc, rest, counter);
            Alternating(r) && |r| == |rest| + 1 - 2 * Count(level, rest)
    decreases |rest|
  {
    var r := Remaining(level, acc, rest, counter);
    Front(acc, rest);
    if rest == [] {
      assert Slot(r, 0);
    } else {
      CountFront(level, rest);
      if Reduces(level, rest[0]) {
        FoldReduce(level, acc, rest, counter);
        NameHasNoOperator(counter);
        AlternatingShift(acc, rest, OperationName(counter));
        RemainingShape(level, OperationName(counter), rest[2..], counter + 1);
      } else {
        FoldSkip(level, acc, rest, counter);
        AlternatingShift(acc, rest, rest[1]);
        RemainingShape(level, rest[1], rest[2..], counter);
        AlternatingCons(acc, rest[0], Remaining(level, rest[1], rest[2..], counter));
      }
    }
  }

  /** Counting `t o …` from the front, `t` a text. */
  lemma CountTextOperator(level: Level, acc: string, operator: string, tail: seq<string>)
    requires NoOperator(acc)
    ensures Count(level, [acc, operator] + tail) == (if Reduces(level, operator) then 1 else 0) + Count(level, tail)
  {
    assert [acc, operator] + tail == [acc] + [operator] + tail;
    CountAppend(level, [acc] + [operator], tail);
    CountAppend(level, [acc], [operator]);
    TextNotReduced(level, acc);
    assert Count(level, [acc]) == 0;
    assert Count(level, [operator]) == (if Reduces(level, operator) then 1 else 0);
  }

  /** The tokens a pass leaves hold no operator of its level. */
  lemma {:induction false} RemainingClears(level: Level, acc: string, rest: seq<string>, counter: nat)
    requires Alternating([acc] + rest)
    ensures Count(level, Remaining(level, acc, rest, counter)) == 0
    decreases |rest|
  {
    Front(acc, rest);
    if rest == [] {
      TextNotReduced(level, acc);
      assert Remaining(level, acc, rest, counter) == [] + [acc];
    } else if Reduces(level, rest[0]) {
      NameHasNoOperator(counter);
      AlternatingShift(acc, rest, OperationName(counter));
      FoldReduce(level, acc, rest, counter);
      RemainingClears(level, OperationName(counter), rest[2..], counter + 1);
    } else {
      AlternatingShift(acc, rest, rest[1]);
      FoldSkip(level, acc, rest, counter);
      RemainingClears(level, rest[1], rest[2..], counter);
      CountTextOperator(level, acc, rest[0], Remaining(level, rest[1], rest[2..], counter));
    }
  }

  /** The tokens a pass leaves hold every operator of the other level. */
  lemma {:induction false} RemainingKeeps(level: Level, other: Level, acc: string, rest: seq<string>, counter: nat)
    requires Alternating([acc] + rest) && other != level
    ensures Count(other, Remaining(level, acc, rest, counter)) == Count(other, rest)
    decreases |rest|
  {
    Front(acc, rest);
    if rest == [] {
      TextNotReduced(other, acc);
      assert Remaining(level, acc, rest, counter) == [] + [acc];
    } else {
      CountFront(other, rest);
      if Reduces(level, rest[0]) {
        NameHasNoOperator(counter);
        AlternatingShift(acc, rest, OperationName(counter));
        FoldReduce(level, acc, rest, counter);
        RemainingKeeps(level, other, OperationName(counter), rest[2..], counter + 1);
        OperatorInOnePass(rest[0]);
      } else {
        AlternatingShift(acc, rest, rest[1]);
        FoldSkip(level, acc, rest, counter);
        RemainingKeeps(level, other, rest[1], rest[2..], counter);
        CountTextOperator(other, acc, rest[0], Remaining(level, rest[1], rest[2..], counter));
      }
    }
  }

  /** A text in front of `o1 t1 …` adds nothing to the count. */
  lemma CountAfterText(level: Level, tokens: seq<string>)
    requires |tokens| >= 1 && NoOperator(tokens[0])
    ensures Count(level, tokens) == Count(level, tokens[1..])
  {
    assert tokens == [tokens[0]] + tokens[1..];
    CountAppend(level, [tokens[0]], tokens[1..]);
    TextNotReduced(level, tokens[0]);
    assert Count(level, [tokens[0]]) == 0;
  }

  /** The tokens a whole pass leaves alternate. */
  lemma PassAlternating(level: Level, tokens: seq<string>, counter: nat)
    requires Alternating(tokens)
    ensures Alternating(Pass(level, tokens, counter).0)
  {
    assert tokens == [tokens[0]] + tokens[1..];
    RemainingShape(level, tokens[0], tokens[1..], counter);
  }

  /** A whole pass records one operation per operator of its level. */
  lemma PassCount(level: Level, tokens: seq<string>, counter: nat)
    requires Alternating(tokens)
    ensures |Pass(level, tokens, counter).1| == Count(level, tokens)
  {
    assert tokens == [tokens[0]] + tokens[1..];
    Front(tokens[0], tokens[1..]);
    RecordedCount(level, tokens[0], tokens[1..], counter);
    CountAfterText(level, tokens);
  }

  /** A whole pass removes two tokens per operator of its level. */
  lemma PassLength(level: Level, tokens: seq<string>, counter: nat)
    requires Alternating(tokens)
    ensures |Pass(level, tokens, counter).0| == |tokens| - 2 * Count(level, tokens)
  {
    assert tokens == [tokens[0]] + tokens[1..];
    Front(tokens[0], tokens[1..]);
    RemainingShape(level, tokens[0], tokens[1..], counter);
    CountAfterText(level, tokens);
  }

  /** A whole pass leaves every operator of the other level. */
  lemma PassKeeps(level: Level, other: Level, tokens: seq<string>, counter: nat)
    requires Alternating(tokens) && other != level
    ensures Count(other, Pass(level, tokens, counter).0) == Count(other, tokens)
  {
    assert tokens == [tokens[0]] + tokens[1..];
    Front(tokens[0], tokens[1..]);
    RemainingKeeps(level, other, tokens[0], tokens[1..], counter);
    CountAfterText(other, tokens);
  }

  /** A whole pass leaves no operator of its own level. */
  lemma PassClears(level: Level, tokens: seq<string>, counter: nat)
    requires Alternating(tokens)
    ensures Count(level, Pass(level, tokens, counter).0) == 0
  {
    assert tokens == [tokens[0]] + tokens[1..];
    RemainingClears(level, tokens[0], tokens[1..], counter);
  }

  /** A whole pass names its operations from `counter` on, all of its level. */
  lemma PassNames(level: Level, tokens: seq<string>, counter: nat)
    requires |tokens| % 2 == 1
    ensures NamedFrom(Pass(level, tokens, counter).1, counter)
    ensures OfLevel(level, Pass(level, tokens, counter).1)
  {
    RecordedNames(level, tokens[0], tokens[1..], counter);
  }

  /** `f"E{k}"` holds no operator character. */
  lemma NameHasNoOperator(k: nat)
    ensures NoOperator(OperationName(k))
  {
    NatToStringRoundTrip(k);
  }

  // ---------------------------------------------------------------------------
  // The loop of one pass

  /** The result of the pass from a state of its loop: the tokens before
      `j` (`i` rounded down to even) are final, and the pass continues with
      `tokens[j]` as the accumulated operand. */
  function Resumed(level: Level, tokens: seq<string>, i: nat, counter: nat): (seq<string>, seq<Operation>)
    requires |tokens| % 2 == 1 && i <= |tokens|
  {
    var j := i - i % 2;
    (tokens[..j] + Remaining(level, tokens[j], tokens[j + 1..], counter),
     Recorded(level, tokens[j], tokens[j + 1..], counter))
  }

  /** What the loop keeps: the pass over the original tokens is what has been
      recorded so far followed by the result of the pass from here. */
  predicate PassState(level: Level, tokens0: seq<string>, counter0: nat,
                      tokens: seq<string>, i: nat, counter: nat, recorded: seq<Operation>)
    requires |tokens0| % 2 == 1
  {
    && Alternating(tokens)
    && i <= |tokens|
    && counter == counter0 + |recorded|
    && Pass(level, tokens0, counter0).0 == Resumed(level, tokens, i, counter).0
    && Pass(level, tokens0, counter0).1 == recorded + Resumed(level, tokens, i, counter).1
  }

  /** One step of the pass at an operator it does not reduce. */
  lemma FoldSkip(level: Level, acc: string, rest: seq<string>, counter: nat)
    requires |rest| >= 2 && |rest| % 2 == 0 && !Reduces(level, rest[0])
    ensures Remaining(level, acc, rest, counter) == [acc, rest[0]] + Remaining(level, rest[1], rest[2..], counter)
    ensures Recorded(level, acc, rest, counter) == Recorded(level, rest[1], rest[2..], counter)
  {
  }

  /** One step of the pass at an operator it reduces. */
  lemma FoldReduce(level: Level, acc: string, rest: seq<string>, counter: nat)
    requires |rest| >= 2 && |rest| % 2 == 0 && Reduces(level, rest[0])
    ensures Remaining(level, acc, rest, counter) == Remaining(level, OperationName(counter), rest[2..], counter + 1)
    ensures Recorded(level, acc, rest, counter)
         == [Operation(OperationName(counter), KindName(level, rest[0][0]), Strip(acc), Strip(rest[1]))]
            + Recorded(level, OperationName(counter), rest[2..], counter + 1)
  {
  }

  /** Stepping over a token the pass does not reduce leaves the result of the
      pass from there unchanged. */
  lemma SkipResumed(level: Level, tokens: seq<string>, i: nat, counter: nat)
    requires |tokens| % 2 == 1 && i < |tokens| && !Reduces(level, tokens[i])
    ensures Resumed(level, tokens, i + 1, counter) == Resumed(level, tokens, i, counter)
  {
    if i % 2 == 1 {
      var j, rest := i - 1, tokens[i..];
      FoldSkip(level, tokens[j], rest, counter);
      assert rest[0] == tokens[i] && rest[1] == tokens[i + 1] && rest[2..] == tokens[i + 2..];
      var r := Remaining(level, tokens[i + 1], tokens[i + 2..], counter);
      assert tokens[..j] + ([tokens[j], tokens[i]] + r) == tokens[..i + 1] + r;
    }
  }

  /** A token the pass does not reduce is stepped over. */
  lemma SkipStep(level: Level, tokens0: seq<string>, counter0: nat,
                 tokens: seq<string>, i: nat, counter: nat, recorded: seq<Operation>)
    requires |tokens0| % 2 == 1
    requires PassState(level, tokens0, counter0, tokens, i, counter, recorded)
    requires i < |tokens| && !Reduces(level, tokens[i])
    ensures PassState(level, tokens0, counter0, tokens, i + 1, counter, recorded)
  {
    SkipResumed(level, tokens, i, counter);
  }

  /** Where an operator of the pass stands: between two operands. */
  lemma ReduceBounds(level: Level, tokens: seq<string>, i: nat)
    requires Alternating(tokens) && i < |tokens| && Reduces(level, tokens[i])
    ensures i % 2 == 1 && 1 <= i && i + 2 <= |tokens|
  {
    assert Slot(tokens, i);
    if i % 2 == 0 {
      TextNotReduced(level, tokens[i]);
    }
  }

  /** Reducing at `i` records one operation and leaves the rest of the pass
      from the same position. */
  lemma ReduceResumed(level: Level, tokens: seq<string>, i: nat, counter: nat, next: seq<string>)
    requires |tokens| % 2 == 1 && i % 2 == 1 && i + 2 <= |tokens| && Reduces(level, tokens[i])
    requires next == tokens[i - 1 := OperationName(counter)][..i] + tokens[i + 2..]
    ensures |next| % 2 == 1 && i <= |next|
    ensures Resumed(level, next, i, counter + 1).0 == Resumed(level, tokens, i, counter).0
    ensures Resumed(level, tokens, i, counter).1
         == [Operation(OperationName(counter), KindName(level, tokens[i][0]), Strip(tokens[i - 1]), Strip(tokens[i + 1]))]
            + Resumed(level, next, i, counter + 1).1
  {
    var j, rest := i - 1, tokens[i..];
    FoldReduce(level, tokens[j], rest, counter);
    assert rest[0] == tokens[i] && rest[1] == tokens[i + 1] && rest[2..] == tokens[i + 2..];
    assert next[..j] == tokens[..j] && next[j] == OperationName(counter) && next[i..] == tokens[i + 2..];
  }

  /** Replacing an operand by an operator-free name and deleting the operator
      after it and its right operand keeps the shape. */
  lemma ReduceAlternating(tokens: seq<string>, i: nat, name: string, next: seq<string>)
    requires Alternating(tokens) && i % 2 == 1 && i + 2 <= |tokens| && NoOperator(name)
    requires next == tokens[i - 1 := name][..i] + tokens[i + 2..]
    ensures Alternating(next)
  {
    forall k: nat | k < |next| ensures Slot(next, k) {
      if k >= i {
        assert next[k] == tokens[k + 2] && Slot(tokens, k + 2);
      } else if k < i - 1 {
        assert next[k] == tokens[k] && Slot(tokens, k);
      } else {
        assert next[k] == name;
      }
    }
  }

  /** Replacing `tokens[i - 1]` by the fresh name and deleting `tokens[i]` and
      `tokens[i + 1]` records the operation the pass records there. */
  lemma ReduceStep(level: Level, tokens0: seq<string>, counter0: nat,
                   tokens: seq<string>, i: nat, counter: nat, recorded: seq<Operation>,
                   next: seq<string>, nextRecorded: seq<Operation>)
    requires |tokens0| % 2 == 1
    requires PassState(level, tokens0, counter0, tokens, i, counter, recorded)
    requires i < |tokens| && Reduces(level, tokens[i])
    requires i % 2 == 1 && 1 <= i && i + 2 <= |tokens|
    requires next == tokens[i - 1 := OperationName(counter)][..i] + tokens[i + 2..]
    requires nextRecorded == recorded + [Operation(OperationName(counter), KindName(level, tokens[i][0]),
                                                   Strip(tokens[i - 1]), Strip(tokens[i + 1]))]
    ensures PassState(level, tokens0, counter0, next, i, counter + 1, nextRecorded)
  {
    ReduceResumed(level, tokens, i, counter, next);
    NameHasNoOperator(counter);
    ReduceAlternating(tokens, i, OperationName(counter), next);
    var x := nextRecorded[|recorded|];
    AppendAssociates(recorded, [x], Resumed(level, next, i, counter + 1).1);
  }

  /** One of the two `while` loops: `i` walks the token list and every
      operator of `level` is reduced in place, `tokens[i - 1] = variable_name`
      then `del tokens[i : i + 2]`, with the operation appended to
      `operations`. */
  method ReducePass(level: Level, tokens0: seq<string>, operations0: seq<Operation>, counter0: nat)
      returns (tokens: seq<string>, operations: seq<Operation>, variableCounter: nat)
    requires Alternating(tokens0)
    ensures tokens == Pass(level, tokens0, counter0).0
    ensures operations == operations0 + Pass(level, tokens0, counter0).1
    ensures variableCounter == counter0 + |Pass(level, tokens0, counter0).1|
  {
    tokens, operations, variableCounter := tokens0, operations0, counter0;
    ghost var recorded: seq<Operation> := [];
    var i := 0;
    assert tokens0 == [] + [tokens0[0]] + tokens0[1..];
    while i < |tokens|
      invariant operations == operations0 + recorded
      invariant PassState(level, tokens0, counter0, tokens, i, variableCounter, recorded)
      decreases |tokens| - i
    {
      if Reduces(level, tokens[i]) {
        ReduceBounds(level, tokens, i);
        var op := tokens[i];
        var op1 := Strip(tokens[i - 1]);
        var op2 := Strip(tokens[i + 1]);
        var variableName := OperationName(variableCounter);
        var operation := Operation(variableName, KindName(level, op[0]), op1, op2);
        var previous, previousCounter := tokens, variableCounter;
        ghost var previousRecorded := recorded;
        variableCounter := variableCounter + 1;
        operations := operations + [operation];
        recorded := recorded + [operation];
        tokens := tokens[i - 1 := variableName];
        tokens := tokens[..i] + tokens[i + 2..];
        ReduceStep(level, tokens0, counter0, previous, i, previousCounter, previousRecorded, tokens, recorded);
      } else {
        SkipStep(level, tokens0, counter0, tokens, i, variableCounter, recorded);
        i := i + 1;
      }
    }
    assert tokens[..|tokens| - 1] + [tokens[|tokens| - 1]] == tokens;
  }

  // ---------------------------------------------------------------------------
  // extract_arithmetic_operations

  /** Both passes over an alternating token list, naming from `first`: the
      tokens that remain and the operations recorded, those of the first pass
      before those of the second. */
  function Passes(tokens: seq<string>, first: nat): (seq<string>, seq<Operation>)
    requires Alternating(tokens)
  {
    var p1 := Pass(Multiplicative, tokens, first);
    PassAlternating(Multiplicative, tokens, first);
    var p2 := Pass(Additive, p1.0, first + |p1.1|);
    (p2.0, p1.1 + p2.1)
  }

  /** Both passes over the split of `expression`. */
  function Decomposition(expression: string, first: nat): (seq<string>, seq<Operation>)
  {
    Passes(Tokenize(expression), first)
  }

  lemma AppendAssociates(a: seq<Operation>, b: seq<Operation>, c: seq<Operation>)
    ensures (a + b) + c == a + (b + c)
  {
  }

  lemma NamedFromAppend(a: seq<Operation>, b: seq<Operation>, counter: nat)
    requires NamedFrom(a, counter) && NamedFrom(b, counter + |a|)
    ensures NamedFrom(a + b, counter)
  {
    forall j | |a| <= j < |a + b| ensures (a + b)[j].name == OperationName(counter + j) {
      assert (a + b)[j] == b[j - |a|];
    }
  }

  /** Counting an alternating list that ends in `o t`. */
  lemma CountSnoc(level: Level, init: seq<string>, operator: string, last: string)
    requires NoOperator(last)
    ensures Count(level, init + [operator, last]) == Count(level, init) + (if Reduces(level, operator) then 1 else 0)
  {
    assert (init + [operator, last])[..|init| + 1] == init + [operator];
    assert (init + [operator])[..|init|] == init;
    TextNotReduced(level, last);
  }

  /** Every operator of an alternating list is reduced by exactly one of the
      two passes. */
  lemma {:induction false} AlternatingCount(tokens: seq<string>)
    requires Alternating(tokens)
    ensures Count(Multiplicative, tokens) + Count(Additive, tokens) == |tokens| / 2
    decreases |tokens|
  {
    var n := |tokens|;
    if n == 1 {
      assert Slot(tokens, 0);
      TextNotReduced(Multiplicative, tokens[0]);
      TextNotReduced(Additive, tokens[0]);
      assert tokens[..0] == [];
    } else {
      AlternatingInit(tokens);
      var init := tokens[..n - 2];
      assert tokens == init + [tokens[n - 2], tokens[n - 1]];
      CountSnoc(Multiplicative, init, tokens[n - 2], tokens[n - 1]);
      CountSnoc(Additive, init, tokens[n - 2], tokens[n - 1]);
      OperatorInOnePass(tokens[n - 2]);
      AlternatingCount(init);
    }
  }

  /** Both passes record one operation per operator token. */
  lemma PassesCount(tokens: seq<string>, first: nat)
    requires Alternating(tokens)
    ensures |Passes(tokens, first).1| == Count(Multiplicative, tokens) + Count(Additive, tokens)
  {
    PassAlternating(Multiplicative, tokens, first);
    PassCount(Multiplicative, tokens, first);
    var p1 := Pass(Multiplicative, tokens, first);
    PassKeeps(Multiplicative, Additive, tokens, first);
    PassCount(Additive, p1.0, first + |p1.1|);
  }

  /** One operation per operator of the expression. */
  lemma DecompositionCount(expression: string, first: nat)
    ensures |Decomposition(expression, first).1| == OperatorsIn(expression)
  {
    PassesCount(Tokenize(expression), first);
    TokenizeCounts(expression);
  }

  /** A single token remains: the whole list is reduced to one name, or is the
      one text when it holds no operator. */
  lemma PassesSingleToken(tokens: seq<string>, first: nat)
    requires Alternating(tokens)
    ensures |Passes(tokens, first).0| == 1
  {
    PassAlternating(Multiplicative, tokens, first);
    PassLength(Multiplicative, tokens, first);
    var p1 := Pass(Multiplicative, tokens, first);
    PassKeeps(Multiplicative, Additive, tokens, first);
    PassLength(Additive, p1.0, first + |p1.1|);
    AlternatingCount(tokens);
  }

  /** After both passes no operator is left. */
  lemma PassesClear(tokens: seq<string>, first: nat)
    requires Alternating(tokens)
    ensures var rest := Passes(tokens, first).0;
            Count(Multiplicative, rest) == 0 && Count(Additive, rest) == 0
  {
    PassAlternating(Multiplicative, tokens, first);
    PassClears(Multiplicative, tokens, first);
    var p1 := Pass(Multiplicative, tokens, first);
    PassClears(Additive, p1.0, first + |p1.1|);
    PassKeeps(Additive, Multiplicative, p1.0, first + |p1.1|);
  }

  /** The new operations are named `E<first>`, `E<first + 1>`, … in the order
      they are recorded. */
  lemma PassesNames(tokens: seq<string>, first: nat)
    requires Alternating(tokens)
    ensures NamedFrom(Passes(tokens, first).1, first)
  {
    PassAlternating(Multiplicative, tokens, first);
    PassNames(Multiplicative, tokens, first);
    var p1 := Pass(Multiplicative, tokens, first);
    PassNames(Additive, p1.0, first + |p1.1|);
    NamedFromAppend(p1.1, Pass(Additive, p1.0, first + |p1.1|).1, first);
  }

  /** Every multiplication and division comes before every addition and
      subtraction: the first `m` operations, `m` the number of `*` and `/`
      tokens, are of the first kind and the others of the second. */
  lemma PassesOrder(tokens: seq<string>, first: nat)
    requires Alternating(tokens)
    ensures var ops, m := Passes(tokens, first).1, Count(Multiplicative, tokens);
            && m <= |ops|
            && OfLevel(Multiplicative, ops[..m])
            && OfLevel(Additive, ops[m..])
  {
    PassAlternating(Multiplicative, tokens, first);
    PassCount(Multiplicative, tokens, first);
    PassNames(Multiplicative, tokens, first);
    var p1 := Pass(Multiplicative, tokens, first);
    PassNames(Additive, p1.0, first + |p1.1|);
    var p2 := Pass(Additive, p1.0, first + |p1.1|);
    assert (p1.1 + p2.1)[..|p1.1|] == p1.1 && (p1.1 + p2.1)[|p1.1|..] == p2.1;
  }

  /** An expression without an operator records nothing and is left as the
      one token. */
  lemma DecompositionNoOperator(expression: string, first: nat)
    requires NoOperator(expression)
    ensures Decomposition(expression, first) == ([expression], [])
  {
    assert LastOperator(expression) == -1;
    assert Tokenize(expression) == [expression];
    assert [expression][1..] == [];
    var p1 := Pass(Multiplicative, [expression], first);
    assert p1 == ([expression], []);
    assert Pass(Additive, p1.0, first + |p1.1|) == ([expression], []);
    assert p1.1 + Pass(Additive, p1.0, first + |p1.1|).1 == [];
  }

  /** `extract_arithmetic_operations(operations, expression)`: the caller's
      list is extended, naming from `len(operations)`. */
  method ExtractArithmeticOperations(operations: seq<Operation>, expression: string)
      returns (result: seq<Operation>)
    ensures result == operations + Decomposition(expression, |operations|).1
  {
    var tokens := Tokenize(expression);
    var variableCounter := |operations|;
    result := operations;
    tokens, result, variableCounter := ReducePass(Multiplicative, tokens, result, variableCounter);
    ghost var first := Pass(Multiplicative, Tokenize(expression), |operations|);
    PassAlternating(Multiplicative, Tokenize(expression), |operations|);
    tokens, result, variableCounter := ReducePass(Additive, tokens, result, variableCounter);
    ghost var second := Pass(Additive, first.0, |operations| + |first.1|);
    AppendAssociates(operations, first.1, second.1);
  }
}
