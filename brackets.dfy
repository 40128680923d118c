/** `LanggraphEvalCalculator.extract_specific_upper_level_brackets` and
    `extract_upper_level_brackets`
    (beyond-black-box-benchmarking/examples/langgraph_eval_calculator.py).

    The first loop matches brackets of all three kinds with a stack and records
    every top-level group whose kind is enabled; the second loop replaces those
    groups, left to right, by the names `E0, E1, ...`, keeping track of the
    shift `delta` between positions in the original and in the updated text.

    The meaning of the stack is given once, by `StackAfter`: the stack after
    the first `i` characters. A closer that finds the stack empty, or whose
    kind differs from the top of the stack, is skipped and pops nothing. */
module BracketExtraction {
  import opened Common
  import LlmCalculator

  predicate IsOpener(c: char) {
    c == '(' || c == '[' || c == '{'
  }

  predicate IsCloser(c: char) {
    c == ')' || c == ']' || c == '}'
  }

  /** `full_map[c]` for an opener `c`. */
  function CloserOf(c: char): char {
    if c == '(' then ')' else if c == '[' then ']' else '}'
  }

  /** The three flags `extract_parentheses`, `extract_square_brackets` and
      `extract_curly_brackets`. */
  datatype Allowed = Allowed(parentheses: bool, squareBrackets: bool, curlyBrackets: bool)

  /** `c in allowed_extraction`. */
  predicate Enabled(c: char, allowed: Allowed) {
    (c == '(' && allowed.parentheses) || (c == '[' && allowed.squareBrackets) || (c == '{' && allowed.curlyBrackets)
  }

  /** `allowed_extraction[c][1]`. */
  function Label(c: char): string {
    if c == '(' then "parentheses" else if c == '[' then "square_brackets" else "curly_brackets"
  }

  /** A stack entry: `(char, i, is_top_level)`. */
  datatype Entry = Entry(ch: char, index: nat, isTopLevel: bool)

  /** What one character does to the stack: an opener is pushed, top level
      when the stack is empty and its kind enabled; a closer of the kind on
      top pops; anything else changes nothing. */
  function StepStack(stack: seq<Entry>, c: char, i: nat, allowed: Allowed): seq<Entry> {
    if IsOpener(c) then stack + [Entry(c, i, |stack| == 0 && Enabled(c, allowed))]
    else if Closes(stack, c) then stack[..|stack| - 1]
    else stack
  }

  /** `c` is the closer of the opener on top of the stack. */
  predicate Closes(stack: seq<Entry>, c: char) {
    IsCloser(c) && |stack| > 0 && c == CloserOf(stack[|stack| - 1].ch)
  }

  /** The stack after the first `i` characters of `e`. */
  function StackAfter(e: string, allowed: Allowed, i: nat): seq<Entry>
    requires i <= |e|
  {
    if i == 0 then [] else StepStack(StackAfter(e, allowed, i - 1), e[i - 1], i - 1, allowed)
  }

  /** The stack only ever empties by popping its last entry with the closer
      that matches it. */
  lemma StepEmpties(stack: seq<Entry>, c: char, i: nat, allowed: Allowed)
    requires |stack| > 0 && |StepStack(stack, c, i, allowed)| == 0
    ensures |stack| == 1 && Closes(stack, c) && c == CloserOf(stack[0].ch)
  {
  }

  /** A top-level group `e[start..end]` (both brackets included): its opener
      is pushed onto an empty stack, the stack stays non-empty up to `end`, and
      the closer at `end` empties it. */
  predicate TopLevelGroup(e: string, allowed: Allowed, start: nat, end: nat) {
    && start < end < |e|
    && IsOpener(e[start]) && |StackAfter(e, allowed, start)| == 0
    && |StackAfter(e, allowed, end + 1)| == 0
    && forall m :: start < m <= end ==> |StackAfter(e, allowed, m)| > 0
  }

  /** One recorded group: `(start_index, i, label, inner_expr)`. */
  datatype Extraction = Extraction(start: nat, end: nat, kind: string, inner: string)

  /** `x` is an extraction the first loop must record. */
  predicate Extracted(e: string, allowed: Allowed, x: Extraction) {
    && TopLevelGroup(e, allowed, x.start, x.end)
    && Enabled(e[x.start], allowed)
    && x.kind == Label(e[x.start])
    && x.inner == e[x.start + 1..x.end]
  }

  /** Groups in order, each one ending before the next one starts. */
  predicate Ordered(e: string, extractions: seq<Extraction>) {
    && (forall k :: 0 <= k < |extractions| ==> extractions[k].start < extractions[k].end < |e|)
    && (forall k, l :: 0 <= k < l < |extractions| ==> extractions[k].end < extractions[l].start)
  }

  // ---------------------------------------------------------------------------
  // What every stack holds

  /** Every entry is an opener, recorded at its own position before `i`. */
  predicate EntriesValid(e: string, stack: seq<Entry>, i: nat)
    requires i <= |e|
  {
    forall j :: 0 <= j < |stack| ==>
      stack[j].index < i && stack[j].ch == e[stack[j].index] && IsOpener(stack[j].ch)
  }

  /** Only a bottom entry of an enabled kind is top level. */
  predicate FlagsValid(stack: seq<Entry>, allowed: Allowed) {
    forall j :: 0 <= j < |stack| ==> (stack[j].isTopLevel <==> j == 0 && Enabled(stack[j].ch, allowed))
  }

  /** The bottom entry was pushed onto an empty stack, which has not been
      empty since. */
  ghost predicate BottomOpen(e: string, allowed: Allowed, stack: seq<Entry>, i: nat)
    requires i <= |e| && EntriesValid(e, stack, i)
  {
    |stack| > 0 ==>
      && |StackAfter(e, allowed, stack[0].index)| == 0
      && forall m :: stack[0].index < m <= i ==> |StackAfter(e, allowed, m)| > 0
  }

  ghost predicate WellStacked(e: string, allowed: Allowed, i: nat)
    requires i <= |e|
  {
    var stack := StackAfter(e, allowed, i);
    EntriesValid(e, stack, i) && FlagsValid(stack, allowed) && BottomOpen(e, allowed, stack, i)
  }

  lemma PushValid(e: string, allowed: Allowed, stack: seq<Entry>, i: nat)
    requires i < |e| && IsOpener(e[i]) && EntriesValid(e, stack, i) && FlagsValid(stack, allowed)
    ensures var after := stack + [Entry(e[i], i, |stack| == 0 && Enabled(e[i], allowed))];
            EntriesValid(e, after, i + 1) && FlagsValid(after, allowed)
  {
  }

  lemma PopValid(e: string, allowed: Allowed, stack: seq<Entry>, i: nat)
    requires i < |e| && |stack| > 0 && EntriesValid(e, stack, i) && FlagsValid(stack, allowed)
    ensures var after := stack[..|stack| - 1];
            EntriesValid(e, after, i + 1) && FlagsValid(after, allowed)
  {
  }

  lemma {:induction false} AlwaysWellStacked(e: string, allowed: Allowed, i: nat)
    requires i <= |e|
    ensures WellStacked(e, allowed, i)
  {
    if i > 0 {
      AlwaysWellStacked(e, allowed, i - 1);
      var c := e[i - 1];
      var stack := StackAfter(e, allowed, i - 1);
      var after := StackAfter(e, allowed, i);
      if IsOpener(c) {
        PushValid(e, allowed, stack, i - 1);
        if |stack| > 0 {
          assert after[0] == stack[0];
        }
      } else if Closes(stack, c) {
        PopValid(e, allowed, stack, i - 1);
        if |after| > 0 {
          assert after[0] == stack[0];
        }
      } else {
        assert after == stack;
      }
    }
  }

  /** Two positions, each pushing onto an empty stack that then stays
      non-empty up to `i`, are the same position. */
  lemma SameGroupStart(e: string, allowed: Allowed, s1: nat, s2: nat, i: nat)
    requires s1 < i && s2 < i <= |e|
    requires |StackAfter(e, allowed, s1)| == 0 && |StackAfter(e, allowed, s2)| == 0
    requires forall m :: s1 < m <= i ==> |StackAfter(e, allowed, m)| > 0
    requires forall m :: s2 < m <= i ==> |StackAfter(e, allowed, m)| > 0
    ensures s1 == s2
  {
  }

  /** The closer that empties the stack ends the group its bottom entry
      opened, and no other group ends there. */
  lemma GroupClosed(e: string, allowed: Allowed, i: nat)
    requires i < |e| && |StackAfter(e, allowed, i)| > 0 && |StackAfter(e, allowed, i + 1)| == 0
    ensures var bottom := StackAfter(e, allowed, i)[0];
            && |StackAfter(e, allowed, i)| == 1
            && bottom.index < i && bottom.ch == e[bottom.index]
            && TopLevelGroup(e, allowed, bottom.index, i)
            && (bottom.isTopLevel <==> Enabled(e[bottom.index], allowed))
            && forall start: nat :: TopLevelGroup(e, allowed, start, i) ==> start == bottom.index
  {
    AlwaysWellStacked(e, allowed, i);
    var stack := StackAfter(e, allowed, i);
    StepEmpties(stack, e[i], i, allowed);
    forall start: nat | TopLevelGroup(e, allowed, start, i) ensures start == stack[0].index {
      SameGroupStart(e, allowed, start, stack[0].index, i);
    }
  }

  // ---------------------------------------------------------------------------
  // The first loop

  /** What the first loop records at the character at `j`, given the stack
      before it: the group the closer at `j` ends, when it empties a stack
      whose bottom entry is top level. */
  ghost function RecordStep(e: string, allowed: Allowed, j: nat, previous: seq<Extraction>): seq<Extraction>
    requires j < |e|
  {
    var stack := StackAfter(e, allowed, j);
    if Closes(stack, e[j]) && |stack| == 1 && stack[0].isTopLevel then
      AlwaysWellStacked(e, allowed, j);
      var start := stack[0].index;
      previous + [Extraction(start, j, Label(stack[0].ch), e[start + 1..j])]
    else previous
  }

  /** The extractions the first loop holds after the first `i` characters. */
  ghost function ExtractionsAfter(e: string, allowed: Allowed, i: nat): seq<Extraction>
    requires i <= |e|
  {
    if i == 0 then [] else RecordStep(e, allowed, i - 1, ExtractionsAfter(e, allowed, i - 1))
  }

  /** What the extractions after `i` characters are: in order, exactly the
      enabled groups that ended before `i`. */
  ghost predicate Recorded(e: string, allowed: Allowed, i: nat, extractions: seq<Extraction>)
    requires i <= |e|
  {
    && (forall k :: 0 <= k < |extractions| ==>
          Extracted(e, allowed, extractions[k]) && extractions[k].end < i)
    && Ordered(e, extractions)
    && (forall start: nat, end: nat ::
          (end < i && TopLevelGroup(e, allowed, start, end) && Enabled(e[start], allowed)) ==>
          exists k :: 0 <= k < |extractions| && extractions[k].start == start && extractions[k].end == end)
  }

  /** Every recorded group ends before `index`. */
  predicate EndsBefore(extractions: seq<Extraction>, index: nat) {
    forall k :: 0 <= k < |extractions| ==> extractions[k].end < index
  }

  /** While no group ends at `i`, the record stays complete. */
  lemma RecordKeep(e: string, allowed: Allowed, i: nat, extractions: seq<Extraction>)
    requires i < |e| && |StackAfter(e, allowed, i + 1)| > 0
    requires Recorded(e, allowed, i, extractions)
    ensures Recorded(e, allowed, i + 1, extractions)
  {
  }

  /** The only group ending at `i` is disabled: nothing is recorded. */
  lemma RecordSkipGroup(e: string, allowed: Allowed, i: nat, start: nat, extractions: seq<Extraction>)
    requires start < i < |e| && !Enabled(e[start], allowed)
    requires forall s: nat :: TopLevelGroup(e, allowed, s, i) ==> s == start
    requires Recorded(e, allowed, i, extractions)
    ensures Recorded(e, allowed, i + 1, extractions)
  {
  }

  /** The only group ending at `i` is enabled: it is recorded after all the
      earlier ones. */
  lemma RecordGroup(e: string, allowed: Allowed, i: nat, start: nat, opener: char, extractions: seq<Extraction>)
    requires i < |e| && TopLevelGroup(e, allowed, start, i) && opener == e[start] && Enabled(opener, allowed)
    requires forall s: nat :: TopLevelGroup(e, allowed, s, i) ==> s == start
    requires EndsBefore(extractions, start)
    requires Recorded(e, allowed, i, extractions)
    ensures Recorded(e, allowed, i + 1, extractions + [Extraction(start, i, Label(opener), e[start + 1..i])])
  {
    var x := Extraction(start, i, Label(opener), e[start + 1..i]);
    var ex := extractions + [x];
    assert Extracted(e, allowed, x);
    forall start': nat, end: nat |
        end < i + 1 && TopLevelGroup(e, allowed, start', end) && Enabled(e[start'], allowed)
      ensures exists k :: 0 <= k < |ex| && ex[k].start == start' && ex[k].end == end
    {
      if end == i {
        assert ex[|ex| - 1].start == start';
      } else {
        var k :| 0 <= k < |extractions| && extractions[k].start == start' && extractions[k].end == end;
        assert ex[k] == extractions[k];
      }
    }
  }

  /** What `AlwaysRecorded` states after `i` characters. */
  ghost predicate RecordedAfter(e: string, allowed: Allowed, i: nat)
    requires i <= |e|
  {
    var stack := StackAfter(e, allowed, i);
    && Recorded(e, allowed, i, ExtractionsAfter(e, allowed, i))
    && (|stack| > 0 ==> EndsBefore(ExtractionsAfter(e, allowed, i), stack[0].index))
  }

  /** A step after which a group is still open records nothing. */
  lemma RecordStepOpen(e: string, allowed: Allowed, j: nat)
    requires j < |e| && |StackAfter(e, allowed, j + 1)| > 0 && RecordedAfter(e, allowed, j)
    ensures RecordedAfter(e, allowed, j + 1)
  {
    var previous := ExtractionsAfter(e, allowed, j);
    var stack := StackAfter(e, allowed, j);
    var after := StackAfter(e, allowed, j + 1);
    assert ExtractionsAfter(e, allowed, j + 1) == previous;
    RecordKeep(e, allowed, j, previous);
    if |stack| > 0 {
      assert after[0] == stack[0];
    } else {
      assert after[0].index == j;
    }
  }

  /** A step on an empty stack that leaves it empty closes no group. */
  lemma RecordStepIdle(e: string, allowed: Allowed, j: nat)
    requires j < |e| && |StackAfter(e, allowed, j)| == 0 && |StackAfter(e, allowed, j + 1)| == 0
    requires RecordedAfter(e, allowed, j)
    ensures RecordedAfter(e, allowed, j + 1)
  {
    assert ExtractionsAfter(e, allowed, j + 1) == ExtractionsAfter(e, allowed, j);
    assert forall s: nat :: !TopLevelGroup(e, allowed, s, j);
  }

  /** A step that empties the stack closes one group, which is recorded when
      its kind is enabled. */
  lemma RecordStepClose(e: string, allowed: Allowed, j: nat)
    requires j < |e| && |StackAfter(e, allowed, j)| > 0 && |StackAfter(e, allowed, j + 1)| == 0
    requires RecordedAfter(e, allowed, j)
    ensures RecordedAfter(e, allowed, j + 1)
  {
    var previous := ExtractionsAfter(e, allowed, j);
    var stack := StackAfter(e, allowed, j);
    StepEmpties(stack, e[j], j, allowed);
    GroupClosed(e, allowed, j);
    var bottom := stack[0];
    if bottom.isTopLevel {
      var x := Extraction(bottom.index, j, Label(bottom.ch), e[bottom.index + 1..j]);
      assert ExtractionsAfter(e, allowed, j + 1) == previous + [x];
      RecordGroup(e, allowed, j, bottom.index, bottom.ch, previous);
    } else {
      assert ExtractionsAfter(e, allowed, j + 1) == previous;
      RecordSkipGroup(e, allowed, j, bottom.index, previous);
    }
  }

  /** The extractions after `i` characters are the enabled groups that ended
      before `i`, in order, all of them ending before the group still open. */
  lemma {:induction false} AlwaysRecorded(e: string, allowed: Allowed, i: nat)
    requires i <= |e|
    ensures RecordedAfter(e, allowed, i)
  {
    if i > 0 {
      var j := i - 1;
      AlwaysRecorded(e, allowed, j);
      if |StackAfter(e, allowed, i)| > 0 {
        RecordStepOpen(e, allowed, j);
      } else if |StackAfter(e, allowed, j)| == 0 {
        RecordStepIdle(e, allowed, j);
      } else {
        RecordStepClose(e, allowed, j);
      }
    }
  }

  /** One character of the first loop: how the stack and the extractions
      after `i + 1` characters follow from those after `i`. */
  lemma ScanStep(e: string, allowed: Allowed, i: nat)
    requires i < |e|
    ensures var stack := StackAfter(e, allowed, i);
            && StackAfter(e, allowed, i + 1) == StepStack(stack, e[i], i, allowed)
            && (Closes(stack, e[i]) && |stack| == 1 && stack[0].isTopLevel ==>
                  && stack[0].index < i
                  && ExtractionsAfter(e, allowed, i + 1)
                     == ExtractionsAfter(e, allowed, i)
                        + [Extraction(stack[0].index, i, Label(stack[0].ch), e[stack[0].index + 1..i])])
            && (!(Closes(stack, e[i]) && |stack| == 1 && stack[0].isTopLevel) ==>
                  ExtractionsAfter(e, allowed, i + 1) == ExtractionsAfter(e, allowed, i))
  {
    AlwaysWellStacked(e, allowed, i);
  }

  /** The first loop: every enabled top-level group, in order, and nothing else. */
  method ScanTopLevelGroups(expression: string, allowed: Allowed) returns (extractions: seq<Extraction>)
    ensures extractions == ExtractionsAfter(expression, allowed, |expression|)
    ensures forall k :: 0 <= k < |extractions| ==> Extracted(expression, allowed, extractions[k])
    ensures Ordered(expression, extractions)
    ensures forall start: nat, end: nat ::
              (TopLevelGroup(expression, allowed, start, end) && Enabled(expression[start], allowed)) ==>
              exists k :: 0 <= k < |extractions| && extractions[k].start == start && extractions[k].end == end
  {
    extractions := [];
    var stack: seq<Entry> := [];
    for i := 0 to |expression|
      invariant stack == StackAfter(expression, allowed, i)
      invariant extractions == ExtractionsAfter(expression, allowed, i)
    {
      var c := expression[i];
      ScanStep(expression, allowed, i);
      if IsOpener(c) {
        var isTopLevel := |stack| == 0 && Enabled(c, allowed);
        stack := stack + [Entry(c, i, isTopLevel)];
      } else if IsCloser(c) && |stack| > 0 && c == CloserOf(stack[|stack| - 1].ch) {
        var top := stack[|stack| - 1];
        stack := stack[..|stack| - 1];
        if top.isTopLevel && |stack| == 0 {
          assert top == StackAfter(expression, allowed, i)[0];
          extractions := extractions + [Extraction(top.index, i, Label(top.ch), expression[top.index + 1..i])];
        }
      }
    }
    AlwaysRecorded(expression, allowed, |expression|);
  }

  // ---------------------------------------------------------------------------
  // The second loop
  //
  // The splice does not depend on how names are spelled, so the definitions
  // below take the naming scheme `name` as a parameter; the source's scheme,
  // `f"E{variable_counter}"`, is `OperationName`.

  /** The total length the first `k` replacements remove: each group of
      `end - start + 1` characters becomes a name. */
  function Removed(extractions: seq<Extraction>, name: nat -> string, k: nat): int
    requires k <= |extractions|
  {
    if k == 0 then 0
    else Removed(extractions, name, k - 1)
         + (extractions[k - 1].end - extractions[k - 1].start + 1) - |name(k - 1)|
  }

  /** Where the original text resumes after the first `k` groups. */
  function Resume(extractions: seq<Extraction>, k: nat): nat
    requires k <= |extractions|
  {
    if k == 0 then 0 else extractions[k - 1].end + 1
  }

  /** The text up to the end of group `k - 1`, with the first `k` groups
      replaced by their names. */
  function SplicedPrefix(e: string, extractions: seq<Extraction>, name: nat -> string, k: nat): string
    requires Ordered(e, extractions) && k <= |extractions|
  {
    if k == 0 then []
    else SplicedPrefix(e, extractions, name, k - 1) + e[Resume(extractions, k - 1)..extractions[k - 1].start]
         + name(k - 1)
  }

  /** The text after the first `k` replacements. */
  function SplicedUpTo(e: string, extractions: seq<Extraction>, name: nat -> string, k: nat): string
    requires Ordered(e, extractions) && k <= |extractions|
  {
    SplicedPrefix(e, extractions, name, k) + e[Resume(extractions, k)..]
  }

  /** The whole text with every group replaced by its name. */
  function Spliced(e: string, extractions: seq<Extraction>, name: nat -> string): string
    requires Ordered(e, extractions)
  {
    SplicedUpTo(e, extractions, name, |extractions|)
  }

  /** The prefix is shorter than the text it replaces by what its groups
      remove. */
  lemma {:induction false} SplicedPrefixLength(e: string, extractions: seq<Extraction>, name: nat -> string, k: nat)
    requires Ordered(e, extractions) && k <= |extractions|
    ensures |SplicedPrefix(e, extractions, name, k)| == Resume(extractions, k) - Removed(extractions, name, k)
  {
    if k > 0 {
      SplicedPrefixLength(e, extractions, name, k - 1);
    }
  }

  /** The updated text is shorter than the original by exactly what the
      replacements remove. */
  lemma SplicedLength(e: string, extractions: seq<Extraction>, name: nat -> string)
    requires Ordered(e, extractions)
    ensures |Spliced(e, extractions, name)| == |e| - Removed(extractions, name, |extractions|)
  {
    SplicedPrefixLength(e, extractions, name, |extractions|);
  }

  /** Cutting `u == p + e[r..]` between `cut1` and `cut2`, the positions of
      `s` and `t` shifted by `|p| - r`, and putting `inserted` in the gap. */
  lemma CutAfterPrefix(u: string, p: string, e: string, r: nat, s: nat, t: nat, cut1: int, cut2: int, inserted: string)
    requires r <= s <= t <= |e| && u == p + e[r..]
    requires cut1 == |p| + (s - r) && cut2 == |p| + (t - r)
    ensures 0 <= cut1 <= cut2 <= |u|
    ensures u[..cut1] + inserted + u[cut2..] == p + e[r..s] + inserted + e[t..]
  {
    assert u[..cut1] == p + e[r..s] by {
      assert forall j :: 0 <= j < cut1 ==> u[j] == (p + e[r..s])[j];
    }
    assert u[cut2..] == e[t..];
  }

  /** What the loop of `ReplaceGroups` knows before replacing the `k`-th group.
      `prefix` is the part of the updated text already processed. */
  predicate Replaced(e: string, extractions: seq<Extraction>, name: nat -> string, k: nat,
                     updated: string, prefix: string, delta: int)
    requires Ordered(e, extractions) && k <= |extractions|
  {
    && prefix == SplicedPrefix(e, extractions, name, k)
    && updated == prefix + e[Resume(extractions, k)..]
    && delta == Removed(extractions, name, k)
    && |prefix| == Resume(extractions, k) - delta
  }

  /** The `k`-th group lies, shifted by `delta`, inside the updated text. */
  lemma ReplaceBounds(e: string, extractions: seq<Extraction>, name: nat -> string, k: nat,
                      updated: string, prefix: string, delta: int)
    requires Ordered(e, extractions) && k < |extractions|
    requires Replaced(e, extractions, name, k, updated, prefix, delta)
    ensures 0 <= extractions[k].start - delta <= extractions[k].end - delta + 1 <= |updated|
    ensures Resume(extractions, k) <= extractions[k].start
  {
    if k > 0 {
      assert extractions[k - 1].end < extractions[k].start;
    }
  }

  /** Replacing the `k`-th group by `name(k)` and shifting `delta` gives
      what is known before the next group. */
  lemma ReplaceStep(e: string, extractions: seq<Extraction>, name: nat -> string, k: nat,
                    updated: string, prefix: string, delta: int,
                    nextUpdated: string, nextPrefix: string, nextDelta: int)
    requires Ordered(e, extractions) && k < |extractions|
    requires Replaced(e, extractions, name, k, updated, prefix, delta)
    requires 0 <= extractions[k].start - delta <= extractions[k].end - delta + 1 <= |updated|
    requires Resume(extractions, k) <= extractions[k].start
    requires nextUpdated == updated[..extractions[k].start - delta] + name(k)
                            + updated[extractions[k].end - delta + 1..]
    requires nextPrefix == prefix + e[Resume(extractions, k)..extractions[k].start] + name(k)
    requires nextDelta == delta + (extractions[k].end - extractions[k].start + 1) - |name(k)|
    ensures Replaced(e, extractions, name, k + 1, nextUpdated, nextPrefix, nextDelta)
  {
    var x := extractions[k];
    assert Resume(extractions, k + 1) == x.end + 1;
    assert SplicedPrefix(e, extractions, name, k + 1)
           == SplicedPrefix(e, extractions, name, k) + e[Resume(extractions, k)..x.start] + name(k);
    CutAfterPrefix(updated, prefix, e, Resume(extractions, k), x.start, x.end + 1,
                   x.start - delta, x.end - delta + 1, name(k));
  }

  /** The operations after `k + 1` groups follow from those after `k`. */
  lemma OperationsStep(extractions: seq<Extraction>, name: nat -> string, k: nat)
    requires k < |extractions|
    ensures OperationsFor(extractions, name, k + 1)
            == OperationsFor(extractions, name, k)
               + [Operation(name(k), extractions[k].kind, extractions[k].inner, "")]
  {
  }

  /** The operations the first `k` replacements hand out, in order. */
  function OperationsFor(extractions: seq<Extraction>, name: nat -> string, k: nat): seq<Operation>
    requires k <= |extractions|
  {
    if k == 0 then []
    else
      var x := extractions[k - 1];
      OperationsFor(extractions, name, k - 1) + [Operation(name(k - 1), x.kind, x.inner, "")]
  }

  /** The `j`-th operation is named `name(j)` and carries the kind and the
      inner text of the `j`-th group, with no second operand. */
  lemma {:induction false} OperationsForDescribed(extractions: seq<Extraction>, name: nat -> string, k: nat)
    requires k <= |extractions|
    ensures |OperationsFor(extractions, name, k)| == k
    ensures forall j :: 0 <= j < k ==>
              OperationsFor(extractions, name, k)[j]
              == Operation(name(j), extractions[j].kind, extractions[j].inner, "")
  {
    if k > 0 {
      OperationsForDescribed(extractions, name, k - 1);
    }
  }

  /** The second loop, on the recorded groups, naming the `k`-th one `name(k)`.
      `prefix` is the part of the updated text already processed. */
  method ReplaceGroups(expression: string, extractions: seq<Extraction>, name: nat -> string)
      returns (updatedExpression: string, operations: seq<Operation>)
    requires Ordered(expression, extractions)
    ensures updatedExpression == Spliced(expression, extractions, name)
    ensures operations == OperationsFor(extractions, name, |extractions|)
  {
    operations := [];
    updatedExpression := expression;
    var delta: int := 0;
    var variableCounter: nat := 0;
    ghost var prefix: string := [];
    assert updatedExpression == prefix + expression[Resume(extractions, 0)..];
    for k := 0 to |extractions|
      invariant variableCounter == k
      invariant operations == OperationsFor(extractions, name, k)
      invariant Replaced(expression, extractions, name, k, updatedExpression, prefix, delta)
    {
      var x := extractions[k];
      var variableName := name(variableCounter);
      ReplaceBounds(expression, extractions, name, k, updatedExpression, prefix, delta);
      OperationsStep(extractions, name, k);
      var previous, previousDelta := updatedExpression, delta;
      ghost var previousPrefix := prefix;
      variableCounter := variableCounter + 1;
      operations := operations + [Operation(variableName, x.kind, x.inner, "")];
      updatedExpression := updatedExpression[..x.start - delta] + variableName
                           + updatedExpression[x.end - delta + 1..];
      delta := delta + (x.end - x.start + 1) - |variableName|;
      prefix := prefix + expression[Resume(extractions, k)..x.start] + variableName;
      ReplaceStep(expression, extractions, name, k, previous, previousPrefix, previousDelta,
                  updatedExpression, prefix, delta);
    }
  }

  /** The scan finds groups in order, each ending before the next starts. */
  lemma ExtractionsOrdered(e: string, allowed: Allowed)
    ensures Ordered(e, ExtractionsAfter(e, allowed, |e|))
  {
    AlwaysRecorded(e, allowed, |e|);
  }

  /** What the two loops compute together: the expression with every group
      the scan finds replaced by `E0, E1, …`, and one operation per group. */
  ghost function TopLevelReplacement(e: string, allowed: Allowed): (string, seq<Operation>) {
    var found := ExtractionsAfter(e, allowed, |e|);
    ExtractionsOrdered(e, allowed);
    (Spliced(e, found, OperationName), OperationsFor(found, OperationName, |found|))
  }

  /** `extract_specific_upper_level_brackets`. `extractions` is the list the
      first loop builds; it is not part of the returned dict. */
  method ExtractSpecificUpperLevelBrackets(expression: string, extractParentheses: bool,
                                           extractSquareBrackets: bool, extractCurlyBrackets: bool)
      returns (updatedExpression: string, operations: seq<Operation>, ghost extractions: seq<Extraction>)
    ensures !extractParentheses && !extractSquareBrackets && !extractCurlyBrackets ==>
              updatedExpression == expression && operations == [] && extractions == []
    ensures var allowed := Allowed(extractParentheses, extractSquareBrackets, extractCurlyBrackets);
            forall k :: 0 <= k < |extractions| ==> Extracted(expression, allowed, extractions[k])
    ensures Ordered(expression, extractions)
    ensures var allowed := Allowed(extractParentheses, extractSquareBrackets, extractCurlyBrackets);
            forall start: nat, end: nat ::
              (TopLevelGroup(expression, allowed, start, end) && Enabled(expression[start], allowed)) ==>
              exists k :: 0 <= k < |extractions| && extractions[k].start == start && extractions[k].end == end
    ensures updatedExpression == Spliced(expression, extractions, OperationName)
    ensures |operations| == |extractions|
    ensures forall k :: 0 <= k < |extractions| ==>
              operations[k] == Operation(OperationName(k), extractions[k].kind, extractions[k].inner, "")
    ensures extractParentheses || extractSquareBrackets || extractCurlyBrackets ==>
              (updatedExpression, operations)
              == TopLevelReplacement(expression, Allowed(extractParentheses, extractSquareBrackets, extractCurlyBrackets))
  {
    if !extractParentheses && !extractSquareBrackets && !extractCurlyBrackets {
      assert forall c :: !Enabled(c, Allowed(false, false, false));
      return expression, [], [];
    }
    var allowed := Allowed(extractParentheses, extractSquareBrackets, extractCurlyBrackets);
    var extracted := ScanTopLevelGroups(expression, allowed);
    updatedExpression, operations := ReplaceGroups(expression, extracted, OperationName);
    OperationsForDescribed(extracted, OperationName, |extracted|);
    extractions := extracted;
  }

  /** `extract_upper_level_brackets`: all three kinds enabled. */
  method ExtractUpperLevelBrackets(expression: string)
      returns (updatedExpression: string, operations: seq<Operation>, ghost extractions: seq<Extraction>)
    ensures forall k :: 0 <= k < |extractions| ==> Extracted(expression, Allowed(true, true, true), extractions[k])
    ensures Ordered(expression, extractions)
    ensures forall start: nat, end: nat :: TopLevelGroup(expression, Allowed(true, true, true), start, end) ==>
              exists k :: 0 <= k < |extractions| && extractions[k].start == start && extractions[k].end == end
    ensures updatedExpression == Spliced(expression, extractions, OperationName)
    ensures |operations| == |extractions|
    ensures forall k :: 0 <= k < |extractions| ==>
              operations[k] == Operation(OperationName(k), extractions[k].kind, extractions[k].inner, "")
    ensures (updatedExpression, operations) == TopLevelReplacement(expression, Allowed(true, true, true))
  {
    updatedExpression, operations, extractions := ExtractSpecificUpperLevelBrackets(expression, true, true, true);
  }

  /** Every top-level group ends with the closer of its opener, and the
      opener's entry is the only one on the stack just before that closer. */
  lemma TopLevelGroupIsMatched(e: string, allowed: Allowed, start: nat, end: nat)
    requires TopLevelGroup(e, allowed, start, end)
    ensures e[end] == CloserOf(e[start])
    ensures |StackAfter(e, allowed, end)| == 1 && StackAfter(e, allowed, end)[0].index == start
  {
    GroupClosed(e, allowed, end);
  }

  /** Brackets nested inside another group, whether its kind is enabled or
      not, are never extracted: the stack is not empty where they open. */
  lemma NestedNeverExtracted(e: string, allowed: Allowed, outerStart: nat, outerEnd: nat, start: nat, end: nat)
    requires TopLevelGroup(e, allowed, outerStart, outerEnd) && outerStart < start <= outerEnd
    ensures !TopLevelGroup(e, allowed, start, end)
  {
  }

  /** The operations the decomposition hands out always pass
      `are_operations_names_valid`. */
  lemma ExtractedNamesValid(operations: seq<Operation>)
    requires forall k :: 0 <= k < |operations| ==> operations[k].name == OperationName(k)
    ensures LlmCalculator.NamesValid(seq(|operations|, k requires 0 <= k < |operations| => Some(operations[k].name)))
  {
    LlmCalculator.CounterNamesValid(0, |operations|);
    var names := seq(|operations|, k requires 0 <= k < |operations| => Some(operations[k].name));
    var counter := seq(|operations|, i requires 0 <= i => Some(OperationName(0 + i)));
    assert names == counter;
  }
}
