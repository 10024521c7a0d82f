/** String operations the screens borrow from JavaScript's String API. */
module Strings {

  /** The text after the last `sep` in `s`, or all of `s` when `sep` does
      not occur: what `s.split(sep).pop()` yields. */
  function AfterLast(s: string, sep: char): (r: string)
    ensures |r| <= |s|
    decreases |s|
  {
    if s == [] then []
    else if s[|s| - 1] == sep then []
    else AfterLast(s[..|s| - 1], sep) + [s[|s| - 1]]
  }

  /** `AfterLast` is the last `sep`-separated segment: a suffix of `s`
      free of `sep`, preceded by a `sep` unless it is all of `s`, and all
      of `s` when `sep` does not occur. */
  lemma {:induction false} AfterLastSegment(s: string, sep: char)
    ensures sep !in AfterLast(s, sep)
    ensures AfterLast(s, sep) == s[|s| - |AfterLast(s, sep)|..]
    ensures |AfterLast(s, sep)| < |s| ==> s[|s| - |AfterLast(s, sep)| - 1] == sep
    ensures sep !in s ==> AfterLast(s, sep) == s
    decreases |s|
  {
    if s != [] && s[|s| - 1] != sep {
      var init := s[..|s| - 1];
      AfterLastSegment(init, sep);
      var t := AfterLast(init, sep);
      assert AfterLast(s, sep) == t + [s[|s| - 1]];
      assert s == init + [s[|s| - 1]];
      assert s[|init| - |t|..] == init[|init| - |t|..] + [s[|s| - 1]];
      assert |t| < |init| ==> s[|init| - |t| - 1] == init[|init| - |t| - 1];
    }
  }

  /** The text before the first `sep` in `s`, or all of `s` when `sep` does
      not occur: what `s.split(sep)[0]` yields. */
  function BeforeFirst(s: string, sep: char): (r: string)
    ensures sep !in r
    ensures r <= s
    ensures |r| < |s| ==> s[|r|] == sep
    ensures sep !in s ==> r == s
    decreases |s|
  {
    if s == [] then []
    else if s[0] == sep then []
    else [s[0]] + BeforeFirst(s[1..], sep)
  }

  /** `pat` occurs in `s` starting at index `i`. */
  predicate OccursAt(pat: string, s: string, i: nat)
  {
    i + |pat| <= |s| && s[i..i + |pat|] == pat
  }

  /** `s` with the first occurrence of the non-empty `pat` removed: what
      `s.replace(pat, "")` yields for a string pattern. */
  function StripFirst(s: string, pat: string): (r: string)
    requires pat != []
    ensures OccursAt(pat, s, 0) ==> r == s[|pat|..]
    ensures (forall i: nat :: !OccursAt(pat, s, i)) ==> r == s
    ensures |r| <= |s|
    decreases |s|
  {
    if |s| < |pat| then s
    else if s[..|pat|] == pat then assert OccursAt(pat, s, 0); s[|pat|..]
    else
      var rest := StripFirst(s[1..], pat);
      NoOccurrenceInTail(pat, s);
      [s[0]] + rest
  }

  /** `StripFirst` removes the first occurrence wherever it lies: when
      `pat` first occurs at `i`, the result is `s` with `s[i..i + |pat|]`
      cut out. */
  lemma {:induction false} StripFirstRemovesFirst(s: string, pat: string, i: nat)
    requires pat != []
    requires OccursAt(pat, s, i)
    requires forall j: nat :: j < i ==> !OccursAt(pat, s, j)
    ensures StripFirst(s, pat) == s[..i] + s[i + |pat|..]
    decreases i
  {
    if i == 0 {
      StripFirstAtStart(s, pat);
    } else {
      FirstOccurrenceInTail(pat, s, i);
      StripFirstRemovesFirst(s[1..], pat, i - 1);
      StripFirstStep(s, pat);
      CutShift(s, i, |pat|);
    }
  }

  /** An occurrence at the start is the one `StripFirst` removes. */
  lemma StripFirstAtStart(s: string, pat: string)
    requires pat != [] && OccursAt(pat, s, 0)
    ensures StripFirst(s, pat) == s[..0] + s[0 + |pat|..]
  {
    assert s[..0] + s[|pat|..] == s[|pat|..];
  }

  /** A first occurrence at `i > 0` in `s` is a first occurrence at
      `i - 1` in `s[1..]`, and none starts at 0. */
  lemma FirstOccurrenceInTail(pat: string, s: string, i: nat)
    requires 0 < i && OccursAt(pat, s, i)
    requires forall j: nat :: j < i ==> !OccursAt(pat, s, j)
    ensures !OccursAt(pat, s, 0)
    ensures OccursAt(pat, s[1..], i - 1)
    ensures forall j: nat :: j < i - 1 ==> !OccursAt(pat, s[1..], j)
  {
    OccursShift(pat, s, i - 1);
    forall j: nat | j < i - 1
      ensures !OccursAt(pat, s[1..], j)
    {
      OccursShift(pat, s, j);
    }
  }

  /** `StripFirst` past a first character that does not start `pat`. */
  lemma StripFirstStep(s: string, pat: string)
    requires pat != [] && |s| >= |pat| && !OccursAt(pat, s, 0)
    ensures StripFirst(s, pat) == [s[0]] + StripFirst(s[1..], pat)
  {
  }

  /** Cutting `s[i..i + n]` out of `s` is cutting one place earlier out of `s[1..]`. */
  lemma CutShift(s: string, i: nat, n: nat)
    requires 0 < i && i + n <= |s|
    ensures [s[0]] + (s[1..][..i - 1] + s[1..][i - 1 + n..]) == s[..i] + s[i + n..]
  {
    assert [s[0]] + s[1..][..i - 1] == s[..i];
    assert s[1..][i - 1 + n..] == s[i + n..];
  }

  /** Occurrences in `s[1..]` are the occurrences in `s`, one place later. */
  lemma OccursShift(pat: string, s: string, j: nat)
    requires s != []
    ensures OccursAt(pat, s[1..], j) <==> OccursAt(pat, s, j + 1)
  {
    if j + 1 + |pat| <= |s| {
      assert s[1..][j..j + |pat|] == s[j + 1..j + 1 + |pat|];
    }
  }

  /** An occurrence in `s[1..]` is an occurrence in `s`, one place later. */
  lemma NoOccurrenceInTail(pat: string, s: string)
    requires s != []
    ensures (forall i: nat :: !OccursAt(pat, s, i)) ==> (forall i: nat :: !OccursAt(pat, s[1..], i))
  {
    forall i: nat | OccursAt(pat, s[1..], i)
      ensures OccursAt(pat, s, i + 1)
    {
      assert s[1..][i..i + |pat|] == s[i + 1..i + 1 + |pat|];
    }
  }

  /** A decimal digit as a character. */
  function DigitChar(d: nat): (c: char)
    requires d < 10
    ensures '0' <= c <= '9'
    ensures c as int - '0' as int == d
  {
    ('0' as int + d) as char
  }

  /** The number a string of decimal digits denotes, most significant
      digit first; the empty string denotes 0. */
  function DigitsValue(s: string): int
    decreases |s|
  {
    if s == [] then 0 else 10 * DigitsValue(s[..|s| - 1]) + (s[|s| - 1] as int - '0' as int)
  }

  /** The decimal numeral of a natural number, most significant digit
      first: digits only, denoting `n`, with no leading zero. */
  function NatDigits(n: nat): (s: string)
    ensures |s| > 0
    ensures forall c :: c in s ==> '0' <= c <= '9'
    ensures DigitsValue(s) == n
    ensures s[0] == '0' <==> n == 0
    ensures n == 0 ==> s == "0"
    decreases n
  {
    if n < 10 then [DigitChar(n)]
    else
      var init := NatDigits(n / 10);
      var s := init + [DigitChar(n % 10)];
      assert s[..|s| - 1] == init;
      s
  }

  /** The text a template literal writes for an integral JavaScript number
      below 1e21 in magnitude: an optional '-' and then the decimal numeral
      of its magnitude, without leading zeros. */
  function Decimal(n: int): (s: string)
    ensures |s| > 0
    ensures s[0] == '-' <==> n < 0
    ensures n >= 0 ==> DigitsValue(s) == n && (forall c :: c in s ==> '0' <= c <= '9')
    ensures n < 0 ==> |s| > 1 && DigitsValue(s[1..]) == -n && (forall c :: c in s[1..] ==> '0' <= c <= '9')
    ensures n >= 0 && s[0] == '0' ==> s == "0"
    ensures n < 0 ==> s[1] != '0'
  {
    if n < 0 then
      var d := NatDigits(-n);
      assert ("-" + d)[1..] == d;
      "-" + d
    else
      var d := NatDigits(n);
      assert d[0] in d;
      d
  }
}
