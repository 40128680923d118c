/** The string helpers of `LanggraphLLMCalculator`
    (beyond-black-box-benchmarking/examples/langgraph_LLM_calculator.py):
    the simple-arithmetic recogniser, the prompt builder that escapes braces,
    the check on operation names, and the scanner of `is_valid_result` that
    replaces each top-level curly group by the value a validating calculator
    gives for it. The LLM calls are abstract functions. */
module LlmCalculator {
  import opened Common

  // ---------------------------------------------------------------------------
  // is_simple_arithmetic_expression:
  //   re.match(r"^(?:(?:\d+(?:\.\d+)?|\.\d+)|E\d+|[+\-*/]|\s)+$", e.strip())

  predicate IsDigits(p: string) {
    |p| >= 1 && AllDigits(p)
  }

  /** `\d+(?:\.\d+)?|\.\d+` */
  predicate IsNumber(p: string) {
    || IsDigits(p)
    || (exists j :: 0 <= j < |p| && p[j] == '.' && IsDigits(p[..j]) && IsDigits(p[j + 1..]))
    || (|p| >= 1 && p[0] == '.' && IsDigits(p[1..]))
  }

  /** `E\d+` */
  predicate IsReference(p: string) {
    |p| >= 1 && p[0] == 'E' && IsDigits(p[1..])
  }

  /** One repetition of the group: a number, a reference, an operator or one
      whitespace character. */
  predicate IsPiece(p: string) {
    IsNumber(p) || IsReference(p) || (|p| == 1 && (IsOperatorChar(p[0]) || IsWhitespace(p[0])))
  }

  /** `^(?:piece)+$`: the whole text splits into one or more pieces. */
  predicate MatchesPieces(s: string)
    decreases |s|
  {
    exists k :: 1 <= k <= |s| && IsPiece(s[..k]) && (k == |s| || MatchesPieces(s[k..]))
  }

  predicate IsSimpleArithmeticExpression(expression: string) {
    MatchesPieces(Strip(expression))
  }

  /** The characters the pattern can consume at all. */
  predicate SimpleChar(c: char) {
    IsDigit(c) || c == '.' || c == 'E' || IsOperatorChar(c) || IsWhitespace(c)
  }

  predicate DigitNext(s: string, i: nat) {
    i + 1 < |s| && IsDigit(s[i + 1])
  }

  /** Allowed characters only, and every `.` and `E` directly followed by a digit. */
  predicate WellFormed(s: string) {
    forall i :: 0 <= i < |s| ==> SimpleChar(s[i]) && (s[i] == '.' || s[i] == 'E' ==> DigitNext(s, i))
  }

  /** A piece is well formed on its own and does not end in `.` or `E`. */
  lemma PieceWellFormed(p: string)
    requires IsPiece(p)
    ensures p != [] && WellFormed(p) && p[|p| - 1] != '.' && p[|p| - 1] != 'E'
  {
    if IsDigits(p) {
    } else if j :| 0 <= j < |p| && p[j] == '.' && IsDigits(p[..j]) && IsDigits(p[j + 1..]) {
      forall i | 0 <= i < |p| ensures SimpleChar(p[i]) && p[i] != 'E'
        && (p[i] == '.' ==> i + 1 < |p| && IsDigit(p[i + 1]))
      {
        if i < j { assert p[i] == p[..j][i]; }
        else if i > j { assert p[i] == p[j + 1..][i - j - 1]; }
        else { assert p[i + 1] == p[j + 1..][0]; }
      }
      assert p[|p| - 1] == p[j + 1..][|p| - j - 2];
    } else if IsReference(p) || (|p| >= 1 && p[0] == '.' && IsDigits(p[1..])) {
      forall i | 0 <= i < |p| ensures SimpleChar(p[i])
        && (p[i] == '.' || p[i] == 'E' ==> i + 1 < |p| && IsDigit(p[i + 1]))
      {
        if i > 0 { assert p[i] == p[1..][i - 1]; }
        else { assert p[1] == p[1..][0]; }
      }
      assert p[|p| - 1] == p[1..][|p| - 2];
    }
  }

  /** The recogniser, character by character: the text matches iff it is
      non-empty and well formed. */
  lemma {:induction false} MatchesPiecesIff(s: string)
    ensures MatchesPieces(s) <==> s != [] && WellFormed(s)
    decreases |s|
  {
    if MatchesPieces(s) {
      var k :| 1 <= k <= |s| && IsPiece(s[..k]) && (k == |s| || MatchesPieces(s[k..]));
      PieceWellFormed(s[..k]);
      if k < |s| {
        MatchesPiecesIff(s[k..]);
        forall i | 0 <= i < |s| ensures SimpleChar(s[i])
          && (s[i] == '.' || s[i] == 'E' ==> i + 1 < |s| && IsDigit(s[i + 1]))
        {
          if i < k { assert s[i] == s[..k][i]; if i + 1 < k { assert s[i + 1] == s[..k][i + 1]; } }
          else { assert s[i] == s[k..][i - k]; if i + 1 < |s| { assert s[i + 1] == s[k..][i + 1 - k]; } }
        }
      } else {
        assert s[..k] == s;
      }
    }
    if s != [] && WellFormed(s) {
      assert SimpleChar(s[0]) && (s[0] == '.' || s[0] == 'E' ==> 1 < |s| && IsDigit(s[1]));
      var k := if s[0] == '.' || s[0] == 'E' then 2 else 1;
      var p := s[..k];
      if s[0] == '.' {
        assert p[1..] == [s[1]];
        assert IsPiece(p);
      } else if s[0] == 'E' {
        assert p[1..] == [s[1]];
        assert IsReference(p);
      } else if IsDigit(s[0]) {
        assert IsDigits(p);
      }
      assert IsPiece(p);
      if k < |s| {
        var t := s[k..];
        assert WellFormed(t) by {
          forall i | 0 <= i < |t| ensures SimpleChar(t[i])
            && (t[i] == '.' || t[i] == 'E' ==> i + 1 < |t| && IsDigit(t[i + 1]))
          {
            var m := i + k;
            assert t[i] == s[m];
            assert SimpleChar(s[m]) && (s[m] == '.' || s[m] == 'E' ==> m + 1 < |s| && IsDigit(s[m + 1]));
            if i + 1 < |t| { assert t[i + 1] == s[m + 1]; }
          }
        }
        MatchesPiecesIff(t);
      } else {
        assert p == s;
      }
    }
  }

  /** `is_simple_arithmetic_expression` holds iff the stripped text is
      non-empty, uses only digits, `.`, `E`, `+ - * /` and whitespace, and has
      a digit right after every `.` and every `E`. */
  lemma SimpleArithmeticCharacterised(expression: string)
    ensures IsSimpleArithmeticExpression(expression) <==>
              Strip(expression) != [] && WellFormed(Strip(expression))
  {
    MatchesPiecesIff(Strip(expression));
  }

  /** Any character outside that alphabet, a bracket or a letter other than
      `E` say, makes the expression not simple, wherever it stands. */
  lemma ForeignCharRejected(expression: string, i: nat)
    requires i < |expression| && !SimpleChar(expression[i])
    ensures !IsSimpleArithmeticExpression(expression)
  {
    StripKeepsNonWhitespace(expression, i);
    SimpleArithmeticCharacterised(expression);
  }

  /** A well-formed text with no blank at either end is accepted as it is. */
  lemma AcceptedWhenWellFormed(s: string)
    requires s != [] && !IsWhitespace(s[0]) && !IsWhitespace(s[|s| - 1]) && WellFormed(s)
    ensures IsSimpleArithmeticExpression(s)
  {
    StripUnchanged(s);
    SimpleArithmeticCharacterised(s);
  }

  /** Every number form of the pattern is accepted, among them the documented
      `123`, `0.34`, `.2`, `5.0` and `.56`. */
  lemma NumbersAccepted(whole: string, fraction: string)
    requires IsDigits(whole) && IsDigits(fraction)
    ensures IsSimpleArithmeticExpression(whole)
    ensures IsSimpleArithmeticExpression(whole + "." + fraction)
    ensures IsSimpleArithmeticExpression("." + fraction)
  {
    var decimal := whole + "." + fraction;
    var bare := "." + fraction;
    assert decimal[..|whole|] == whole && decimal[|whole| + 1..] == fraction;
    assert bare[1..] == fraction;
    assert IsNumber(whole) && IsNumber(decimal) && IsNumber(bare);
    assert whole[..|whole|] == whole && decimal[..|decimal|] == decimal && bare[..|bare|] == bare;
    assert MatchesPieces(whole) && MatchesPieces(decimal) && MatchesPieces(bare);
    StripUnchanged(whole);
    StripUnchanged(decimal);
    StripUnchanged(bare);
  }

  /** References and operators are accepted. */
  lemma ReferencesAccepted()
    ensures IsSimpleArithmeticExpression("E0 + E12*3")
  {
    AcceptedWhenWellFormed("E0 + E12*3");
  }

  /** Blank text is rejected. */
  lemma BlankRejected()
    ensures !IsSimpleArithmeticExpression("  ")
  {
    assert StripLeft("  ") == [] by {
      assert "  "[1..] == " " && " "[1..] == "";
    }
    SimpleArithmeticCharacterised("  ");
  }

  /** Brackets are rejected. */
  lemma BracketsRejected()
    ensures !IsSimpleArithmeticExpression("(1 + 2)")
  {
    assert !SimpleChar("(1 + 2)"[0]);
    ForeignCharRejected("(1 + 2)", 0);
  }

  /** A `.` or an `E` with no digit right after it makes the expression not
      simple, wherever it stands. */
  lemma NoDigitAfterPointRejected(expression: string, i: nat)
    requires i < |expression| && (expression[i] == '.' || expression[i] == 'E')
    requires i + 1 < |expression| ==> !IsDigit(expression[i + 1])
    ensures !IsSimpleArithmeticExpression(expression)
  {
    var lo, hi := StripBounds(expression);
    var t := Strip(expression);
    assert lo <= i < hi;
    assert t[i - lo] == expression[i];
    if i + 1 < hi {
      assert t[i + 1 - lo] == expression[i + 1];
    }
    assert !DigitNext(t, i - lo);
    SimpleArithmeticCharacterised(expression);
  }

  /** A `.` with no digit after it is rejected. */
  lemma DanglingPointRejected()
    ensures !IsSimpleArithmeticExpression("1.+2")
  {
    NoDigitAfterPointRejected("1.+2", 1);
  }

  // ---------------------------------------------------------------------------
  // add_bad_examples

  /** The message the bad examples are framed in; `rendered` is `str()` of
      the list. */
  function BadExamplesText(inputExpression: string, rendered: string): string {
    "\nBelow is a list of INCORRECT new_expressions for the input expression: "
      + inputExpression + ".\nBAD EXAMPLES are:\n" + rendered + "\n"
  }

  /** `.replace("{", "{{").replace("}", "}}")` */
  function EscapeBraces(s: string): string {
    ReplaceChar(ReplaceChar(s, '{', "{{"), '}', "}}")
  }

  /** How a prompt template reads literal text: `{{` is `{` and `}}` is `}`. */
  function UnescapeBraces(s: string): string {
    if |s| >= 2 && s[0] == '{' && s[1] == '{' then "{" + UnescapeBraces(s[2..])
    else if |s| >= 2 && s[0] == '}' && s[1] == '}' then "}" + UnescapeBraces(s[2..])
    else if s == [] then []
    else [s[0]] + UnescapeBraces(s[1..])
  }

  function EscapeChar(c: char): string {
    if c == '{' then "{{" else if c == '}' then "}}" else [c]
  }

  lemma EscapeCons(c: char, t: string)
    ensures EscapeBraces([c] + t) == EscapeChar(c) + EscapeBraces(t)
  {
    assert ([c] + t)[1..] == t;
    var inner := ReplaceChar([c] + t, '{', "{{");
    assert inner == (if c == '{' then "{{" else [c]) + ReplaceChar(t, '{', "{{");
    ReplaceCharAppend(if c == '{' then "{{" else [c], ReplaceChar(t, '{', "{{"), '}', "}}");
    if c == '{' {
      assert ReplaceChar("{{", '}', "}}") == "{{" by {
        assert "{{"[1..] == "{";
        assert "{"[1..] == "";
      }
    } else {
      assert ReplaceChar([c], '}', "}}") == EscapeChar(c) by {
        assert [c][1..] == [];
      }
    }
  }

  /** Escaping is done character by character, so it distributes over `+`. */
  lemma EscapeAppend(a: string, b: string)
    ensures EscapeBraces(a + b) == EscapeBraces(a) + EscapeBraces(b)
  {
    ReplaceCharAppend(a, b, '{', "{{");
    ReplaceCharAppend(ReplaceChar(a, '{', "{{"), ReplaceChar(b, '{', "{{"), '}', "}}");
  }

  /** The escaped text is every character's escape, in order: each brace is
      doubled and every other character is kept. */
  lemma {:induction false} EscapePointwise(s: string)
    ensures EscapeBraces(s) == Concat(seq(|s|, i requires 0 <= i < |s| => EscapeChar(s[i])))
  {
    var parts := seq(|s|, i requires 0 <= i < |s| => EscapeChar(s[i]));
    if s != [] {
      var t := s[..|s| - 1];
      var c := s[|s| - 1];
      EscapePointwise(t);
      assert parts[..|s| - 1] == seq(|t|, i requires 0 <= i < |t| => EscapeChar(t[i]));
      assert s == t + [c];
      EscapeAppend(t, [c]);
      EscapeCons(c, []);
      assert [c] + [] == [c];
    }
  }

  /** Reading the escaped text back gives the text: the escape loses nothing. */
  lemma {:induction false} UnescapeEscape(s: string)
    ensures UnescapeBraces(EscapeBraces(s)) == s
  {
    if s != [] {
      EscapeCons(s[0], s[1..]);
      assert [s[0]] + s[1..] == s;
      UnescapeEscape(s[1..]);
      var rest := EscapeBraces(s[1..]);
      var e := EscapeChar(s[0]) + rest;
      if s[0] == '{' || s[0] == '}' {
        assert e[2..] == rest;
      } else {
        assert e[1..] == rest;
      }
    }
  }

  function AddBadExamples(basePrompt: string, inputExpression: string,
                          badExamples: seq<string>, render: seq<string> -> string): (prompt: string)
  {
    if badExamples == [] then basePrompt
    else basePrompt + EscapeBraces(BadExamplesText(inputExpression, render(badExamples)))
  }

  /** With no bad examples the prompt is returned as it is; otherwise it is
      extended, never altered, what follows it is the bad-examples message
      with every brace doubled, and that reads back (under prompt-template
      escaping) as exactly the message. */
  lemma AddBadExamplesSpec(basePrompt: string, inputExpression: string,
                           badExamples: seq<string>, render: seq<string> -> string)
    ensures badExamples == [] ==> AddBadExamples(basePrompt, inputExpression, badExamples, render) == basePrompt
    ensures var prompt := AddBadExamples(basePrompt, inputExpression, badExamples, render);
            badExamples != [] ==>
              && |prompt| >= |basePrompt| && prompt[..|basePrompt|] == basePrompt
              && prompt[|basePrompt|..] == EscapeBraces(BadExamplesText(inputExpression, render(badExamples)))
              && UnescapeBraces(prompt[|basePrompt|..]) == BadExamplesText(inputExpression, render(badExamples))
  {
    if badExamples != [] {
      var text := BadExamplesText(inputExpression, render(badExamples));
      var prompt := AddBadExamples(basePrompt, inputExpression, badExamples, render);
      assert prompt[|basePrompt|..] == EscapeBraces(text);
      UnescapeEscape(text);
    }
  }

  // ---------------------------------------------------------------------------
  // are_operations_names_valid

  /** Every operation has a name (`operation.get("name")` is not `None`) that
      fully matches `^E\d+$`, and no name occurs twice. */
  predicate NamesValid(names: seq<Option<string>>) {
    && (forall i :: 0 <= i < |names| ==> names[i].Some? && IsReference(names[i].value))
    && (forall i, j :: 0 <= i < j < |names| ==> names[i] != names[j])
  }

  /** `names[i]` is `operations[i].get("name")`. */
  method AreOperationsNamesValid(names: seq<Option<string>>) returns (valid: bool)
    ensures valid <==> NamesValid(names)
  {
    var seenNames: set<string> := {};
    for k := 0 to |names|
      invariant forall i :: 0 <= i < k ==> names[i].Some? && IsReference(names[i].value)
      invariant forall i, j :: 0 <= i < j < k ==> names[i] != names[j]
      invariant forall x :: x in seenNames <==> exists i :: 0 <= i < k && names[i] == Some(x)
    {
      var name := names[k];
      if name.None? || !IsReference(name.value) || name.value in seenNames {
        return false;
      }
      seenNames := seenNames + {name.value};
    }
    return true;
  }

  /** The names the programmatic decomposition hands out, `E<start>`,
      `E<start+1>`, ..., always pass the check. */
  lemma CounterNamesValid(start: nat, n: nat)
    ensures NamesValid(seq(n, i requires 0 <= i => Some(OperationName(start + i))))
  {
    var names := seq(n, i requires 0 <= i => Some(OperationName(start + i)));
    forall i | 0 <= i < n ensures IsReference(names[i].value) {
      assert names[i] == Some(OperationName(start + i));
      NatToStringRoundTrip(start + i);
      assert names[i].value[1..] == NatToString(start + i);
    }
    forall i, j | 0 <= i < j < n ensures names[i] != names[j] {
      assert names[i] == Some(OperationName(start + i));
      assert names[j] == Some(OperationName(start + j));
      if names[i] == names[j] {
        assert NatToString(start + i) == names[i].value[1..] == names[j].value[1..] == NatToString(start + j);
        NatToStringInjective(start + i, start + j);
      }
    }
  }

  // ---------------------------------------------------------------------------
  // The curly-group scanner of is_valid_result

  /** `Some(t + r)` for `Some(r)`; a failure stays a failure. */
  function Prepend(t: string, o: Option<string>): Option<string> {
    match o
    case Some(r) => Some(t + r)
    case None => None
  }

  function BraceDelta(c: char): int {
    if c == '{' then 1 else if c == '}' then -1 else 0
  }

  /** Opening minus closing curly braces. */
  function Depth(g: string): int {
    if g == [] then 0 else BraceDelta(g[0]) + Depth(g[1..])
  }

  /** Braces that close as they open: total depth zero, never below zero. */
  predicate Balanced(g: string) {
    Depth(g) == 0 && forall k :: 0 <= k <= |g| ==> Depth(g[..k]) >= 0
  }

  predicate NoBraces(t: string) {
    '{' !in t && '}' !in t
  }

  /** Scanning from `i` at nesting `level >= 1`: the index of the `}` that
      brings the level to zero, if there is one. */
  function Close(s: string, i: nat, level: nat): (r: Option<nat>)
    requires i <= |s|
    ensures r.Some? ==> i <= r.value < |s| && s[r.value] == '}'
    decreases |s| - i
  {
    if i == |s| then None
    else if s[i] == '{' then Close(s, i + 1, level + 1)
    else if s[i] == '}' then (if level <= 1 then Some(i) else Close(s, i + 1, level - 1))
    else Close(s, i + 1, level)
  }

  /** The text handed on from position `i` at nesting level zero: each group
      replaced by `show` of the value `calculate` gives for its content, or
      `None` when the scanner gives up (a `}` at level zero, a group that never
      closes, a group with no value). */
  function Rewrite<V>(s: string, i: nat, calculate: string -> Option<V>, show: V -> string): Option<string>
    requires i <= |s|
    decreases |s| - i
  {
    if i == |s| then Some([])
    else if s[i] == '}' then None
    else if s[i] == '{' then
      match Close(s, i + 1, 1)
      case None => None
      case Some(j) =>
        match calculate(s[i + 1..j])
        case None => None
        case Some(v) => Prepend(show(v), Rewrite(s, j + 1, calculate, show))
    else Prepend([s[i]], Rewrite(s, i + 1, calculate, show))
  }

  /** The expression `is_valid_result` passes to the parent check: the
      rewritten text, or the original expression when the scanner gives up. */
  function PassedExpression<V>(expression: string, calculate: string -> Option<V>, show: V -> string): string {
    match Rewrite(expression, 0, calculate, show)
    case Some(r) => r
    case None => expression
  }

  /** `is_valid_result`: `calculate` is the validating LLM calculator,
      `show` is `str()` of its value and `parentIsValid` is the parent class's
      `is_valid_result`. */
  method IsValidResult<V, R>(expression: string, result: R, calculate: string -> Option<V>,
                             show: V -> string, parentIsValid: (string, R) -> bool)
      returns (valid: bool)
    ensures valid == parentIsValid(PassedExpression(expression, calculate, show), result)
  {
    var resultParts: seq<string> := [];
    var lastIndex: nat := 0;
    var level: nat := 0;
    var groupStart: nat := 0;  // `None` until the first group opens; only read inside a group
    ghost var whole := Rewrite(expression, 0, calculate, show);
    PrependEmpty(whole);
    assert expression[0..0] == [];
    for i := 0 to |expression|
      invariant level == 0 ==> (lastIndex <= i &&
        whole == Prepend(Concat(resultParts) + expression[lastIndex..i], Rewrite(expression, i, calculate, show)))
      invariant level > 0 ==> (groupStart < i && expression[groupStart] == '{' &&
        Close(expression, groupStart + 1, 1) == Close(expression, i, level) &&
        whole == Prepend(Concat(resultParts), Rewrite(expression, groupStart, calculate, show)))
    {
      var ch := expression[i];
      if ch == '{' {
        if level == 0 {
          ConcatAppend(resultParts, expression[lastIndex..i]);
          resultParts := resultParts + [expression[lastIndex..i]];
          groupStart := i;
        }
        level := level + 1;
      } else if ch == '}' {
        if level == 0 {
          assert whole == None;
          valid := parentIsValid(expression, result);
          return;
        }
        level := level - 1;
        if level == 0 {
          assert Close(expression, groupStart + 1, 1) == Some(i);
          var groupContent := expression[groupStart + 1..i];
          var calcVal := calculate(groupContent);
          if calcVal.None? {
            assert whole == None;
            valid := parentIsValid(expression, result);
            return;
          }
          assert Rewrite(expression, groupStart, calculate, show)
              == Prepend(show(calcVal.value), Rewrite(expression, i + 1, calculate, show));
          PrependPrepend(Concat(resultParts), show(calcVal.value), Rewrite(expression, i + 1, calculate, show));
          ConcatAppend(resultParts, show(calcVal.value));
          resultParts := resultParts + [show(calcVal.value)];
          lastIndex := i + 1;
          assert expression[lastIndex..i + 1] == [];
          assert Concat(resultParts) + expression[lastIndex..i + 1] == Concat(resultParts);
        }
      } else if level == 0 {
        assert Rewrite(expression, i, calculate, show) == Prepend([ch], Rewrite(expression, i + 1, calculate, show));
        PrependPrepend(Concat(resultParts) + expression[lastIndex..i], [ch], Rewrite(expression, i + 1, calculate, show));
        assert expression[lastIndex..i + 1] == expression[lastIndex..i] + [ch];
        assert Concat(resultParts) + expression[lastIndex..i + 1]
            == (Concat(resultParts) + expression[lastIndex..i]) + [ch];
      }
    }
    if level != 0 {
      assert whole == None;
      valid := parentIsValid(expression, result);
      return;
    }
    assert expression[lastIndex..|expression|] == expression[lastIndex..];
    assert Rewrite(expression, |expression|, calculate, show) == Some([]);
    assert (Concat(resultParts) + expression[lastIndex..]) + [] == Concat(resultParts) + expression[lastIndex..];
    ConcatAppend(resultParts, expression[lastIndex..]);
    resultParts := resultParts + [expression[lastIndex..]];
    var newExpression := Concat(resultParts);
    assert whole == Some(newExpression);
    valid := parentIsValid(newExpression, result);
  }

  lemma PrependEmpty(o: Option<string>)
    ensures Prepend([], o) == o
  {
    if o.Some? { assert [] + o.value == o.value; }
  }

  lemma PrependPrepend(a: string, b: string, o: Option<string>)
    ensures Prepend(a, Prepend(b, o)) == Prepend(a + b, o)
  {
    if o.Some? { assert a + (b + o.value) == (a + b) + o.value; }
  }

  /** Text without braces is copied as it is. */
  lemma {:induction false} RewriteText<V>(s: string, i: nat, j: nat, calculate: string -> Option<V>, show: V -> string)
    requires i <= j <= |s| && NoBraces(s[i..j])
    ensures Rewrite(s, i, calculate, show) == Prepend(s[i..j], Rewrite(s, j, calculate, show))
    decreases j - i
  {
    if i < j {
      assert s[i] == s[i..j][0];
      assert s[i + 1..j] == s[i..j][1..];
      RewriteText(s, i + 1, j, calculate, show);
      assert s[i..j] == [s[i]] + s[i + 1..j];
      PrependPrepend([s[i]], s[i + 1..j], Rewrite(s, j, calculate, show));
    } else {
      assert s[i..j] == [];
      match Rewrite(s, j, calculate, show) {
        case Some(r) => assert [] + r == r;
        case None =>
      }
    }
  }

  /** An expression with no curly braces goes to the parent check unchanged. */
  lemma NoBracesPassedUnchanged<V>(expression: string, calculate: string -> Option<V>, show: V -> string)
    requires NoBraces(expression)
    ensures PassedExpression(expression, calculate, show) == expression
  {
    assert expression[0..|expression|] == expression;
    RewriteText(expression, 0, |expression|, calculate, show);
    assert expression + [] == expression;
  }

  /** Scanning over text that keeps the level positive only moves the level. */
  lemma {:induction false} CloseOver(s: string, i: nat, j: nat, level: nat)
    requires i <= j <= |s| && level >= 1
    requires forall k :: i <= k <= j ==> level + Depth(s[i..k]) >= 1
    ensures level + Depth(s[i..j]) >= 1
    ensures Close(s, i, level) == Close(s, j, level + Depth(s[i..j]))
    decreases j - i
  {
    assert s[i..i] == [];
    if i < j {
      assert s[i..j][1..] == s[i + 1..j] && s[i..j][0] == s[i];
      var i1 := i + 1;
      forall k | i1 <= k <= j ensures level + BraceDelta(s[i]) + Depth(s[i1..k]) >= 1 {
        assert s[i..k][1..] == s[i1..k] && s[i..k][0] == s[i];
      }
      assert s[i..i + 1][1..] == s[i + 1..i + 1];
      assert level + BraceDelta(s[i]) >= 1;
      CloseOver(s, i + 1, j, level + BraceDelta(s[i]));
    }
  }

  /** A top-level group `{g}` with `g` balanced is replaced by `show` of the
      value of `g`; with no value the scanner gives up. */
  lemma RewriteGroup<V>(s: string, i: nat, j: nat, calculate: string -> Option<V>, show: V -> string)
    requires i < j < |s| && s[i] == '{' && s[j] == '}' && Balanced(s[i + 1..j])
    ensures calculate(s[i + 1..j]).None? ==> Rewrite(s, i, calculate, show) == None
    ensures calculate(s[i + 1..j]).Some? ==>
              Rewrite(s, i, calculate, show)
                == Prepend(show(calculate(s[i + 1..j]).value), Rewrite(s, j + 1, calculate, show))
  {
    var i1 := i + 1;
    var g := s[i1..j];
    forall k | i1 <= k <= j ensures 1 + Depth(s[i1..k]) >= 1 {
      assert g[..k - i1] == s[i1..k];
    }
    CloseOver(s, i + 1, j, 1);
    assert Close(s, i + 1, 1) == Some(j);
  }

  /** From `from` on, the depth never drops below the level it starts at. */
  predicate NeverCloses(s: string, from: nat)
    requires from <= |s|
  {
    forall k :: from <= k <= |s| ==> Depth(s[from..k]) >= 0
  }

  /** A group that never closes makes the scanner give up. */
  lemma RewriteUnclosed<V>(s: string, i: nat, calculate: string -> Option<V>, show: V -> string)
    requires i < |s| && s[i] == '{' && NeverCloses(s, i + 1)
    ensures Rewrite(s, i, calculate, show) == None
  {
    CloseOver(s, i + 1, |s|, 1);
  }

  /** A `}` reached at level zero makes the scanner give up. */
  lemma RewriteStrayClose<V>(s: string, i: nat, j: nat, calculate: string -> Option<V>, show: V -> string)
    requires i <= j < |s| && NoBraces(s[i..j]) && s[j] == '}'
    ensures Rewrite(s, i, calculate, show) == None
  {
    RewriteText(s, i, j, calculate, show);
  }
}
