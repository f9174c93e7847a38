/**
 * The parts of Go's `strings` and `strconv` packages whose exact behaviour
 * decides how the gateway's plain-text replies are read: white-space trimming,
 * base-10 64-bit integer parsing, boolean parsing, decimal formatting and
 * substring search.
 */
module Text {
  import opened Errors

  const MinInt64: int := -0x8000_0000_0000_0000
  const MaxInt64: int := 0x7FFF_FFFF_FFFF_FFFF

  /** unicode.IsSpace: the Latin-1 spaces plus the other White_Space code points. */
  predicate IsSpace(c: char) {
    || c == '\t' || c == '\n' || c == '\U{000B}' || c == '\U{000C}' || c == '\r' || c == ' '
    || c == '\U{0085}' || c == '\U{00A0}' || c == '\U{1680}'
    || ('\U{2000}' <= c <= '\U{200A}')
    || c == '\U{2028}' || c == '\U{2029}' || c == '\U{202F}' || c == '\U{205F}' || c == '\U{3000}'
  }

  /** Drops the leading white space of `s`. */
  function TrimLeading(s: string): (r: string)
    ensures |r| <= |s| && r == s[|s| - |r|..]
    ensures r == [] || !IsSpace(r[0])
    ensures forall i :: 0 <= i < |s| - |r| ==> IsSpace(s[i])
  {
    if s != [] && IsSpace(s[0]) then TrimLeading(s[1..]) else s
  }

  /** Drops the trailing white space of `s`. */
  function TrimTrailing(s: string): (r: string)
    ensures |r| <= |s| && r == s[..|r|]
    ensures r == [] || !IsSpace(r[|r| - 1])
    ensures forall i :: |r| <= i < |s| ==> IsSpace(s[i])
  {
    if s != [] && IsSpace(s[|s| - 1]) then TrimTrailing(s[..|s| - 1]) else s
  }

  /** `r` is `s` with `lo` characters cut off in front and the rest after `r`, all of them white space. */
  ghost predicate CutAt(s: string, r: string, lo: nat) {
    && lo + |r| <= |s|
    && r == s[lo..lo + |r|]
    && (forall k :: 0 <= k < lo ==> IsSpace(s[k]))
    && (forall k :: lo + |r| <= k < |s| ==> IsSpace(s[k]))
  }

  /** strings.TrimSpace: `s` without its leading and trailing white space. */
  function TrimSpace(s: string): (r: string)
    ensures r == [] || (!IsSpace(r[0]) && !IsSpace(r[|r| - 1]))
    ensures exists lo :: CutAt(s, r, lo)
  {
    var left := TrimLeading(s);
    var r := TrimTrailing(left);
    CutBothEnds(s, left, r);
    r
  }

  /** Cutting white space off the front and then off the back of what is left is one cut of `s`. */
  lemma CutBothEnds(s: string, left: string, r: string)
    requires |left| <= |s| && left == s[|s| - |left|..]
    requires forall i :: 0 <= i < |s| - |left| ==> IsSpace(s[i])
    requires |r| <= |left| && r == left[..|r|]
    requires forall i :: |r| <= i < |left| ==> IsSpace(left[i])
    ensures CutAt(s, r, |s| - |left|)
  {
    var lo := |s| - |left|;
    assert r == s[lo..lo + |r|];
    forall k | lo + |r| <= k < |s|
      ensures IsSpace(s[k])
    {
      assert s[k] == left[k - lo];
    }
  }

  /** Trimming a reply that has no white space at either end leaves it as it is. */
  lemma {:induction false} TrimSpaceOfTrimmed(s: string)
    requires s == [] || (!IsSpace(s[0]) && !IsSpace(s[|s| - 1]))
    ensures TrimSpace(s) == s
  {
  }

  /**
   * White space before and after a value, such as the newline a server
   * prints after it, is removed; the two pads are independent.
   */
  lemma {:induction false} TrimSpaceDropsPadding(s: string, front: string, back: string)
    requires s == [] || (!IsSpace(s[0]) && !IsSpace(s[|s| - 1]))
    requires forall i :: 0 <= i < |front| ==> IsSpace(front[i])
    requires forall i :: 0 <= i < |back| ==> IsSpace(back[i])
    ensures TrimSpace(front + s + back) == s
  {
    if s == [] {
      var pad := front + back;
      assert forall i :: 0 <= i < |pad| ==> IsSpace(pad[i]) by {
        forall i | 0 <= i < |pad|
          ensures IsSpace(pad[i])
        {
          if i >= |front| {
            assert pad[i] == back[i - |front|];
          }
        }
      }
      assert front + s + back == pad + [];
      TrimLeadingOfPadded(pad, []);
    } else {
      assert front + s + back == front + (s + back);
      TrimLeadingOfPadded(front, s + back);
      TrimTrailingOfPadded(s, back);
    }
  }

  /** A value the gateway prints on a line of its own reads back as the value. */
  lemma TrimSpaceOfLine(s: string, line: string)
    requires s != [] && !IsSpace(s[0]) && !IsSpace(s[|s| - 1])
    requires line == s + "\n"
    ensures TrimSpace(line) == s
  {
    assert line[0] == s[0];
    assert TrimLeading(line) == line;
    TrimTrailingOfPadded(s, "\n");
  }

  lemma {:induction false} TrimLeadingOfPadded(pad: string, s: string)
    requires s == [] || !IsSpace(s[0])
    requires forall i :: 0 <= i < |pad| ==> IsSpace(pad[i])
    ensures TrimLeading(pad + s) == s
  {
    if pad != [] {
      assert (pad + s)[1..] == pad[1..] + s;
      TrimLeadingOfPadded(pad[1..], s);
    } else {
      assert pad + s == s;
    }
  }

  lemma {:induction false} TrimTrailingOfPadded(s: string, pad: string)
    requires s == [] || !IsSpace(s[|s| - 1])
    requires forall i :: 0 <= i < |pad| ==> IsSpace(pad[i])
    ensures TrimTrailing(s + pad) == s
  {
    if pad != [] {
      assert (s + pad)[..|s + pad| - 1] == s + pad[..|pad| - 1];
      TrimTrailingOfPadded(s, pad[..|pad| - 1]);
    } else {
      assert s + pad == s;
    }
  }

  predicate IsDigit(c: char) {
    '0' <= c <= '9'
  }

  predicate AllDigits(s: string) {
    forall i :: 0 <= i < |s| ==> IsDigit(s[i])
  }

  /** The value of a numeral, read most significant digit first. */
  function Value(s: string): nat
    requires AllDigits(s)
  {
    if s == [] then 0 else Value(s[..|s| - 1]) * 10 + (s[|s| - 1] as int - '0' as int)
  }

  /** What follows the optional sign of a numeral. */
  function Unsigned(s: string): (d: string)
    ensures |d| <= |s| && d == s[|s| - |d|..]
  {
    if s != [] && (s[0] == '+' || s[0] == '-') then s[1..] else s
  }

  /** `s` is a decimal numeral: an optional sign, then one or more digits. */
  predicate IsNumeral(s: string) {
    Unsigned(s) != [] && AllDigits(Unsigned(s))
  }

  /** The value a numeral denotes: its digits' value, negated after a minus. */
  function NumeralValue(s: string): int
    requires IsNumeral(s)
  {
    if s[0] == '-' then -(Value(Unsigned(s)) as int) else Value(Unsigned(s))
  }

  /**
   * strconv.ParseInt(s, 10, 64): succeeds exactly on a numeral whose value
   * lies in int64 range, with that value; a numeral out of range is a range
   * error.
   */
  function ParseInt(s: string): (r: Result<int>)
    ensures r.Success? <==> IsNumeral(s) && MinInt64 <= NumeralValue(s) <= MaxInt64
    ensures r.Success? ==> r.value == NumeralValue(s)
    ensures r.Failure? ==> r.error == Syntax(s) || r.error == Range(s)
    ensures r.Failure? && IsNumeral(s) ==> r.error == Range(s)
  {
    if !IsNumeral(s) then Failure(Syntax(s))
    else
      var n := NumeralValue(s);
      if n < MinInt64 || n > MaxInt64 then Failure(Range(s)) else Success(n)
  }

  function DigitChar(d: nat): char
    requires d < 10
  {
    ('0' as int + d) as char
  }

  /** The decimal numeral of a natural number, without leading zeros. */
  function NatToString(n: nat): (s: string)
    ensures s != [] && AllDigits(s)
    ensures n > 0 ==> s[0] != '0'
  {
    if n < 10 then [DigitChar(n)] else NatToString(n / 10) + [DigitChar(n % 10)]
  }

  /** strconv.Itoa, which is also what `%d` and, for an integral value, `%.0f` print. */
  function Itoa(n: int): (s: string)
    ensures IsNumeral(s) && NumeralValue(s) == n
    ensures s[0] == '-' <==> n < 0
    ensures s[0] == '-' || IsDigit(s[0])
  {
    NatToStringValue(if n < 0 then -n else n);
    ItoaShape(n);
    if n < 0 then "-" + NatToString(-n) else NatToString(n)
  }

  lemma ItoaShape(n: int)
    ensures var d := NatToString(if n < 0 then -n else n);
      var s := if n < 0 then "-" + d else d;
      Unsigned(s) == d && s[0] == (if n < 0 then '-' else d[0])
  {
    var d := NatToString(if n < 0 then -n else n);
    if n < 0 {
      assert ("-" + d)[1..] == d;
    } else {
      assert IsDigit(d[0]);
    }
  }

  lemma {:induction false} NatToStringValue(n: nat)
    ensures Value(NatToString(n)) == n
  {
    if n >= 10 {
      var s := NatToString(n);
      var p := NatToString(n / 10);
      assert s == p + [DigitChar(n % 10)];
      assert s[..|s| - 1] == p;
      NatToStringValue(n / 10);
    }
  }

  /** A printed number has no white space around it. */
  lemma ItoaIsTrimmed(n: int)
    ensures TrimSpace(Itoa(n)) == Itoa(n)
  {
    var s := Itoa(n);
    var d := Unsigned(s);
    assert s[|s| - 1] == d[|d| - 1] && IsDigit(d[|d| - 1]);
    SignOrDigitIsNotSpace(s[0]);
    SignOrDigitIsNotSpace(s[|s| - 1]);
    TrimSpaceOfTrimmed(s);
  }

  lemma SignOrDigitIsNotSpace(c: char)
    requires c == '-' || IsDigit(c)
    ensures !IsSpace(c)
  {
  }

  /** Reading back a printed int64 gives the same number. */
  lemma ParseItoa(n: int)
    requires MinInt64 <= n <= MaxInt64
    ensures ParseInt(Itoa(n)) == Success(n)
  {
  }

  /** strconv.FormatBool. */
  function FormatBool(b: bool): string {
    if b then "true" else "false"
  }

  /**
   * strconv.ParseBool: one of six spellings for each value, decided by the
   * first character; anything else is a syntax error.
   */
  function ParseBool(s: string): (r: Result<bool>)
    ensures r.Failure? ==> r.error == Syntax(s)
    ensures r.Success? ==> 1 <= |s| <= 5 && (r.value <==> s[0] in "1tT")
  {
    if s in {"1", "t", "T", "TRUE", "true", "True"} then Success(true)
    else if s in {"0", "f", "F", "FALSE", "false", "False"} then Success(false)
    else Failure(Syntax(s))
  }

  /** `sub` occurs in `s` starting at index `i`. */
  ghost predicate OccursAt(s: string, sub: string, i: nat) {
    i + |sub| <= |s| && s[i..i + |sub|] == sub
  }

  /** strings.Contains: `sub` occurs somewhere in `s`. */
  function Contains(s: string, sub: string): (r: bool)
    ensures r <==> exists i :: OccursAt(s, sub, i)
  {
    if sub <= s then
      assert OccursAt(s, sub, 0);
      true
    else if s == [] then
      NoOccurrenceInEmpty(sub);
      false
    else
      var r := Contains(s[1..], sub);
      ShiftOccurrence(s, sub);
      r
  }

  lemma NoOccurrenceInEmpty(sub: string)
    requires sub != []
    ensures forall i :: !OccursAt([], sub, i)
  {
  }

  lemma SliceOfTail(s: string, j: nat, n: nat)
    requires j + 1 + n <= |s|
    ensures s[1..][j..j + n] == s[j + 1..j + 1 + n]
  {
    var u, v := s[1..][j..j + n], s[j + 1..j + 1 + n];
    assert forall k :: 0 <= k < n ==> u[k] == v[k];
  }

  /** When `sub` is not a prefix of `s`, it occurs in `s` exactly when it occurs in the rest of `s`. */
  lemma ShiftOccurrence(s: string, sub: string)
    requires s != [] && !(sub <= s)
    ensures (exists i :: OccursAt(s, sub, i)) <==> (exists i :: OccursAt(s[1..], sub, i))
  {
    assert !OccursAt(s, sub, 0);
    forall i: nat | OccursAt(s[1..], sub, i)
      ensures OccursAt(s, sub, i + 1)
    {
      SliceOfTail(s, i, |sub|);
    }
    forall i: nat | i > 0 && OccursAt(s, sub, i)
      ensures OccursAt(s[1..], sub, i - 1)
    {
      SliceOfTail(s, i - 1, |sub|);
    }
    if exists i: nat :: OccursAt(s, sub, i) {
      var i: nat :| OccursAt(s, sub, i);
      assert OccursAt(s[1..], sub, i - 1);
    }
    if exists i: nat :: OccursAt(s[1..], sub, i) {
      var i: nat :| OccursAt(s[1..], sub, i);
      assert OccursAt(s, sub, i + 1);
    }
  }

  /** Formatting a boolean and parsing it back gives the same boolean. */
  lemma ParseFormatBool(b: bool)
    ensures ParseBool(FormatBool(b)) == Success(b)
  {
  }

  /** A text lacking one of the characters of `sub` does not contain `sub`. */
  lemma MissingCharacter(s: string, sub: string, k: nat)
    requires k < |sub| && sub[k] !in s
    ensures !Contains(s, sub)
  {
    forall i: nat
      ensures !OccursAt(s, sub, i)
    {
      if i + |sub| <= |s| {
        assert s[i..i + |sub|][k] == s[i + k] && s[i + k] in s;
      }
    }
  }
}
