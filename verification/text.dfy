/**
 * The few Foundation string operations the forms use: trimming with
 * `.whitespaces` or `.whitespacesAndNewlines`, `Int(_: String)` and
 * `String(_: Int)`. Swift's `Int` is 64 bits wide on the platforms the app
 * targets, so parsing fails on values outside that range.
 */
module Text {
  import opened Wrappers

  /** Foundation's `.whitespaces`: space separators (Unicode category Zs) and tab. */
  predicate IsWhitespace(c: char) {
    c == ' ' || c == '\t' || c == '\U{A0}' || c == '\U{1680}'
    || ('\U{2000}' <= c <= '\U{200A}') || c == '\U{202F}' || c == '\U{205F}' || c == '\U{3000}'
  }

  /** The line breaks that `.whitespacesAndNewlines` adds to `.whitespaces`. */
  predicate IsNewline(c: char) {
    ('\n' <= c <= '\r') || c == '\U{85}' || c == '\U{2028}' || c == '\U{2029}'
  }

  predicate IsWhitespaceOrNewline(c: char) {
    IsWhitespace(c) || IsNewline(c)
  }

  /** How many leading characters `drop` accepts. */
  function LeadingCount(s: string, drop: char -> bool): (n: nat)
    ensures n <= |s|
    ensures forall i :: 0 <= i < n ==> drop(s[i])
    ensures n < |s| ==> !drop(s[n])
  {
    if |s| == 0 || !drop(s[0]) then 0 else 1 + LeadingCount(s[1..], drop)
  }

  /** How many trailing characters `drop` accepts. */
  function TrailingCount(s: string, drop: char -> bool): (n: nat)
    ensures n <= |s|
    ensures forall i :: |s| - n <= i < |s| ==> drop(s[i])
    ensures n < |s| ==> !drop(s[|s| - n - 1])
  {
    if |s| == 0 || !drop(s[|s| - 1]) then 0 else 1 + TrailingCount(s[..|s| - 1], drop)
  }

  /** `r` is the slice of `s` at `i` with only droppable characters around it. */
  ghost predicate TrimmedAt(s: string, drop: char -> bool, r: string, i: int) {
    && 0 <= i <= |s| - |r|
    && r == s[i..i + |r|]
    && (forall k :: 0 <= k < i ==> drop(s[k]))
    && (forall k :: i + |r| <= k < |s| ==> drop(s[k]))
  }

  /**
   * `trimmingCharacters(in:)`: the longest middle part of `s` that neither
   * starts nor ends with a character of the set.
   */
  function TrimBy(s: string, drop: char -> bool): (r: string)
    ensures |r| == 0 <==> forall i :: 0 <= i < |s| ==> drop(s[i])
    ensures |r| > 0 ==> !drop(r[0]) && !drop(r[|r| - 1])
    ensures exists i :: TrimmedAt(s, drop, r, i)
    ensures |s| == 0 || (!drop(s[0]) && !drop(s[|s| - 1])) ==> r == s
  {
    var lead := LeadingCount(s, drop);
    if lead == |s| then
      assert TrimmedAt(s, drop, [], 0);
      []
    else
      var trail := TrailingCount(s, drop);
      assert lead < |s| - trail;
      var r := s[lead..|s| - trail];
      assert TrimmedAt(s, drop, r, lead);
      r
  }

  /** Nothing but spaces and line breaks. */
  predicate IsBlank(s: string) {
    forall i :: 0 <= i < |s| ==> IsWhitespaceOrNewline(s[i])
  }

  /** `trimmingCharacters(in: .whitespacesAndNewlines)` */
  function Trimmed(s: string): (r: string)
    ensures |r| == 0 <==> forall i :: 0 <= i < |s| ==> IsWhitespaceOrNewline(s[i])
  {
    TrimBy(s, IsWhitespaceOrNewline)
  }

  /** `trimmingCharacters(in: .whitespaces)`: line breaks are kept. */
  function TrimmedSpaces(s: string): (r: string)
    ensures |r| == 0 <==> forall i :: 0 <= i < |s| ==> IsWhitespace(s[i])
  {
    TrimBy(s, IsWhitespace)
  }

  /**
   * Trimming removes exactly the droppable padding around a middle part
   * that neither starts nor ends with a droppable character.
   */
  lemma TrimPadded(pre: string, mid: string, post: string, drop: char -> bool)
    requires forall k :: 0 <= k < |pre| ==> drop(pre[k])
    requires forall k :: 0 <= k < |post| ==> drop(post[k])
    requires |mid| > 0 && !drop(mid[0]) && !drop(mid[|mid| - 1])
    ensures TrimBy(pre + mid + post, drop) == mid
  {
    var s := pre + mid + post;
    var r := TrimBy(s, drop);
    var i :| TrimmedAt(s, drop, r, i);
    assert s[|pre|] == mid[0];
    assert s[|pre| + |mid| - 1] == mid[|mid| - 1];
    assert |r| > 0;
    assert s[i] == r[0];
    assert i == |pre|;
    assert s[i + |r| - 1] == r[|r| - 1];
    assert i + |r| == |pre| + |mid|;
    assert r == s[|pre|..|pre| + |mid|] == mid;
  }

  const Int64Min: int := -0x8000_0000_0000_0000
  const Int64Max: int := 0x7FFF_FFFF_FFFF_FFFF

  /** The values a Swift `Int` can hold. */
  predicate IsInt64(v: int) {
    Int64Min <= v <= Int64Max
  }

  predicate IsDigit(c: char) {
    '0' <= c <= '9'
  }

  predicate AllDigits(s: string) {
    forall i :: 0 <= i < |s| ==> IsDigit(s[i])
  }

  function DigitValue(c: char): (d: nat)
    requires IsDigit(c)
    ensures d < 10
  {
    c as int - '0' as int
  }

  function DigitChar(d: nat): (c: char)
    requires d < 10
    ensures IsDigit(c) && DigitValue(c) == d
  {
    ('0' as int + d) as char
  }

  /** The number a string of decimal digits denotes, most significant first. */
  function DigitsValue(s: string): nat
    requires AllDigits(s)
  {
    if |s| == 0 then 0 else DigitsValue(s[..|s| - 1]) * 10 + DigitValue(s[|s| - 1])
  }

  /**
   * Swift's `Int(_: String)`: an optional `+` or `-`, then one or more ASCII
   * digits and nothing else (no surrounding spaces); nil when the value does
   * not fit in an `Int`.
   */
  function ParseInt(s: string): (r: Option<int>)
    ensures r.Some? ==> IsInt64(r.value)
    ensures r.Some? ==> |s| > 0 && forall i :: 0 <= i < |s| ==> IsDigit(s[i]) || (i == 0 && (s[i] == '-' || s[i] == '+'))
    ensures r.Some? && r.value < 0 ==> s[0] == '-'
  {
    var signed := |s| > 0 && (s[0] == '-' || s[0] == '+');
    var digits := if signed then s[1..] else s;
    if |digits| == 0 || !AllDigits(digits) then None
    else
      var magnitude: int := DigitsValue(digits);
      var value: int := if signed && s[0] == '-' then -magnitude else magnitude;
      if IsInt64(value) then Some(value) else None
  }

  /** The decimal digits of `n` with no leading zero. */
  function ShowNat(n: nat): (s: string)
    ensures |s| > 0 && AllDigits(s)
  {
    if n < 10 then [DigitChar(n)] else ShowNat(n / 10) + [DigitChar(n % 10)]
  }

  /** Swift's `String(_: Int)`: a minus sign before negative values, nothing before others. */
  function ShowInt(v: int): (s: string)
    ensures |s| > 0
    ensures forall i :: 0 <= i < |s| ==> IsDigit(s[i]) || (i == 0 && s[i] == '-')
    ensures s[0] == '-' <==> v < 0
  {
    if v < 0 then "-" + ShowNat(-v) else ShowNat(v)
  }

  lemma {:induction false} DigitsValueShowNat(n: nat)
    ensures DigitsValue(ShowNat(n)) == n
  {
    var s := ShowNat(n);
    if n >= 10 {
      DigitsValueShowNat(n / 10);
      assert s[..|s| - 1] == ShowNat(n / 10);
    }
  }

  /** Every `Int` survives being written out with `String(_:)` and read back with `Int(_:)`. */
  lemma ParseShowInt(v: int)
    requires IsInt64(v)
    ensures ParseInt(ShowInt(v)) == Some(v)
  {
    var s := ShowInt(v);
    if v < 0 {
      DigitsValueShowNat(-v);
      assert s[1..] == ShowNat(-v);
    } else {
      DigitsValueShowNat(v);
    }
  }

  /** A rendered integer carries no surrounding spaces or line breaks, so trimming keeps it. */
  lemma TrimShowInt(v: int)
    ensures TrimmedSpaces(ShowInt(v)) == ShowInt(v)
    ensures Trimmed(ShowInt(v)) == ShowInt(v)
  {
    var s := ShowInt(v);
    assert !IsWhitespaceOrNewline(s[0]) && !IsWhitespaceOrNewline(s[|s| - 1]);
  }
}
