/** Small vocabulary shared by the other modules: an optional value,
    character classes, Python's single-character `str.replace`, `str.strip()`
    and the decimal rendering of integers that `str(n)` and f-strings give. */
module Common {

  datatype Option<+T> = None | Some(value: T) {
    function GetOr(default: T): T {
      match this
      case Some(v) => v
      case None => default
    }
  }

  /** The ASCII digits, the class `\d` stands for in the patterns modelled here. */
  predicate IsDigit(c: char) {
    '0' <= c <= '9'
  }

  predicate AllDigits(s: string) {
    forall i :: 0 <= i < |s| ==> IsDigit(s[i])
  }

  /** The characters for which Python's `str.isspace()` holds: the ones
      `str.strip()` cuts and `\s` matches in a `str` pattern.  In ASCII these
      are tab, line feed, vertical tab, form feed, carriage return, the four
      separators U+001C..U+001F and the space; beyond ASCII, the next line
      U+0085, the no-break space U+00A0, the Ogham space mark U+1680, the
      spaces U+2000..U+200A, the line and paragraph separators U+2028 and
      U+2029, and the spaces U+202F, U+205F and U+3000. */
  predicate IsWhitespace(c: char) {
    ('\U{9}' <= c <= '\U{D}') || ('\U{1C}' <= c <= '\U{20}')
    || c == '\U{85}' || c == '\U{A0}' || c == '\U{1680}'
    || ('\U{2000}' <= c <= '\U{200A}') || c == '\U{2028}' || c == '\U{2029}'
    || c == '\U{202F}' || c == '\U{205F}' || c == '\U{3000}'
  }

  /** The four arithmetic operators: plus, minus, times and slash. */
  predicate IsOperatorChar(c: char) {
    c == '+' || c == '-' || c == '*' || c == '/'
  }

  /** One entry of the `operations` list the calculators pass around: a dict
      with the keys `name`, `operation`, `op1` and `op2`. */
  datatype Operation = Operation(name: string, operation: string, op1: string, op2: string)

  // ---------------------------------------------------------------------------
  // str.replace with a one-character pattern

  /** `s.replace(c, rep)`: every occurrence of `c` is replaced by `rep`. */
  function ReplaceChar(s: string, c: char, rep: string): (r: string)
    ensures c !in rep ==> c !in r
    ensures |rep| == 1 ==> |r| == |s|
    ensures forall x :: x !in s && x !in rep ==> x !in r
  {
    if s == [] then []
    else (if s[0] == c then rep else [s[0]]) + ReplaceChar(s[1..], c, rep)
  }

  lemma {:induction false} ReplaceCharAt(s: string, c: char, d: char, i: nat)
    requires i < |s|
    ensures |ReplaceChar(s, c, [d])| == |s|
    ensures ReplaceChar(s, c, [d])[i] == if s[i] == c then d else s[i]
  {
    if i > 0 {
      ReplaceCharAt(s[1..], c, d, i - 1);
    }
  }

  lemma {:induction false} ReplaceCharAppend(s: string, t: string, c: char, rep: string)
    ensures ReplaceChar(s + t, c, rep) == ReplaceChar(s, c, rep) + ReplaceChar(t, c, rep)
  {
    if s != [] {
      assert (s + t)[1..] == s[1..] + t;
      ReplaceCharAppend(s[1..], t, c, rep);
    } else {
      assert s + t == t;
    }
  }

  /** `"".join(parts)`. */
  function Concat(parts: seq<string>): (r: string)
    ensures parts == [] ==> r == []
  {
    if parts == [] then [] else Concat(parts[..|parts| - 1]) + parts[|parts| - 1]
  }

  lemma ConcatAppend(parts: seq<string>, last: string)
    ensures Concat(parts + [last]) == Concat(parts) + last
  {
    assert (parts + [last])[..|parts|] == parts;
  }

  // ---------------------------------------------------------------------------
  // Decimal rendering: str(n)

  function DigitChar(d: nat): char
    requires d < 10
  {
    ('0' as int + d) as char
  }

  function DigitValue(c: char): nat
    requires IsDigit(c)
  {
    (c as int - '0' as int) as nat
  }

  lemma DigitRoundTrip(d: nat)
    requires d < 10
    ensures IsDigit(DigitChar(d)) && DigitValue(DigitChar(d)) == d
  {
  }

  /** `str(n)` for a natural number: its decimal digits, most significant first. */
  function NatToString(n: nat): (r: string)
    decreases n
  {
    if n < 10 then [DigitChar(n)] else NatToString(n / 10) + [DigitChar(n % 10)]
  }

  /** The number a string of decimal digits denotes (Python's `int(s)`). */
  function ParseNat(s: string): nat
    requires AllDigits(s)
  {
    if s == [] then 0 else 10 * ParseNat(s[..|s| - 1]) + DigitValue(s[|s| - 1])
  }

  /** `str(n)` is a non-empty string of digits, and reading it back gives `n`. */
  lemma {:induction false} NatToStringRoundTrip(n: nat)
    ensures |NatToString(n)| >= 1 && AllDigits(NatToString(n))
    ensures ParseNat(NatToString(n)) == n
    decreases n
  {
    DigitRoundTrip(n % 10);
    if n >= 10 {
      NatToStringRoundTrip(n / 10);
      var r := NatToString(n);
      assert r[..|r| - 1] == NatToString(n / 10);
    }
  }

  /** Distinct numbers have distinct renderings. */
  lemma NatToStringInjective(m: nat, n: nat)
    requires NatToString(m) == NatToString(n)
    ensures m == n
  {
    NatToStringRoundTrip(m);
    NatToStringRoundTrip(n);
  }

  /** The name `f"E{k}"` under which the k-th extracted operation is known. */
  function OperationName(k: nat): string {
    "E" + NatToString(k)
  }

  /** `str(i)` for an integer: a minus sign before the digits of a negative number. */
  function IntToString(i: int): (r: string)
  {
    if i < 0 then "-" + NatToString(-i) else NatToString(i)
  }

  // ---------------------------------------------------------------------------
  // str.strip()

  function StripLeft(s: string): (r: string)
    ensures |r| <= |s|
    ensures r != [] ==> !IsWhitespace(r[0])
  {
    if s != [] && IsWhitespace(s[0]) then StripLeft(s[1..]) else s
  }

  /** What `StripLeft` keeps is a suffix of its argument, and what it drops
      is whitespace. */
  lemma {:induction false} StripLeftSuffix(s: string)
    ensures StripLeft(s) == s[|s| - |StripLeft(s)|..]
    ensures forall i :: 0 <= i < |s| - |StripLeft(s)| ==> IsWhitespace(s[i])
  {
    if s != [] && IsWhitespace(s[0]) {
      StripLeftSuffix(s[1..]);
      assert s[1..][|s| - 1 - |StripLeft(s)|..] == s[|s| - |StripLeft(s)|..];
      forall i | 0 < i < |s| - |StripLeft(s)| ensures IsWhitespace(s[i]) {
        assert s[i] == s[1..][i - 1];
      }
    }
  }

  function StripRight(s: string): (r: string)
    ensures |r| <= |s|
    ensures r != [] ==> !IsWhitespace(r[|r| - 1])
  {
    if s != [] && IsWhitespace(s[|s| - 1]) then StripRight(s[..|s| - 1]) else s
  }

  /** What `StripRight` keeps is a prefix of its argument, and what it drops
      is whitespace. */
  lemma {:induction false} StripRightPrefix(s: string)
    ensures StripRight(s) == s[..|StripRight(s)|]
    ensures forall i :: |StripRight(s)| <= i < |s| ==> IsWhitespace(s[i])
  {
    if s != [] && IsWhitespace(s[|s| - 1]) {
      StripRightPrefix(s[..|s| - 1]);
      assert s[..|s| - 1][..|StripRight(s)|] == s[..|StripRight(s)|];
      forall i | |StripRight(s)| <= i < |s| - 1 ensures IsWhitespace(s[i]) {
        assert s[i] == s[..|s| - 1][i];
      }
    }
  }

  /** `s.strip()`: `s` without its leading and trailing whitespace. */
  function Strip(s: string): (r: string)
    ensures r != [] ==> !IsWhitespace(r[0]) && !IsWhitespace(r[|r| - 1])
  {
    StripRightPrefix(StripLeft(s));
    StripRight(StripLeft(s))
  }

  /** `strip()` keeps the slice `s[lo..hi]` and drops whitespace on both sides. */
  lemma StripBounds(s: string) returns (lo: nat, hi: nat)
    ensures lo <= hi <= |s| && Strip(s) == s[lo..hi]
    ensures forall i :: 0 <= i < lo ==> IsWhitespace(s[i])
    ensures forall i :: hi <= i < |s| ==> IsWhitespace(s[i])
  {
    var l := StripLeft(s);
    lo := |s| - |l|;
    var r := StripRight(l);
    hi := lo + |r|;
    StripLeftSuffix(s);
    StripRightPrefix(l);
    forall i | hi <= i < |s| ensures IsWhitespace(s[i]) {
      assert s[i] == l[i - lo];
    }
  }

  /** What `strip()` keeps is a contiguous slice of the input. */
  lemma StripIsSlice(s: string)
    ensures exists i, j :: 0 <= i <= j <= |s| && Strip(s) == s[i..j]
  {
    var lo, hi := StripBounds(s);
    assert Strip(s) == s[lo..hi];
  }

  /** `strip()` drops only whitespace: every other character survives. */
  lemma StripKeepsNonWhitespace(s: string, i: nat)
    requires i < |s| && !IsWhitespace(s[i])
    ensures s[i] in Strip(s)
  {
    var l := StripLeft(s);
    var d := |s| - |l|;
    StripLeftSuffix(s);
    assert i >= d && l[i - d] == s[i];
    var r := StripRight(l);
    StripRightPrefix(l);
    assert i - d < |r| && r[i - d] == s[i];
  }

  /** A string with no whitespace at either end is left as it is. */
  lemma {:induction false} StripUnchanged(s: string)
    requires s != [] ==> !IsWhitespace(s[0]) && !IsWhitespace(s[|s| - 1])
    ensures Strip(s) == s
  {
  }
}
