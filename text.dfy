/**
 * The Java library operations the line buffer is built from, on
 * strings as sequences of characters: the in-place edits of
 * `StringBuilder`, `indexOf`, `endsWith`, the decimal rendering of an
 * `int`, and the letter and case queries of `Character` restricted to
 * ASCII. Each one requires exactly the index range outside of which the
 * Java operation throws.
 */
module Text {

  /** `StringBuilder.insert(offset, t)`; throws unless `0 <= offset <= length`. */
  function InsertAt(s: string, offset: int, t: string): (r: string)
    requires 0 <= offset <= |s|
    ensures |r| == |s| + |t|
    ensures r[..offset] == s[..offset]
    ensures r[offset..offset + |t|] == t
    ensures r[offset + |t|..] == s[offset..]
  {
    s[..offset] + t + s[offset..]
  }

  /**
   * `StringBuilder.delete(start, end)`: an `end` past the length is cut
   * back to the length; throws when `start < 0` or `start` exceeds the
   * (cut back) end.
   */
  function DeleteRange(s: string, start: int, end: int): (r: string)
    requires 0 <= start <= |s| && start <= end
    ensures var e := if end < |s| then end else |s|;
      |r| == |s| - (e - start) && r[..start] == s[..start] && r[start..] == s[e..]
  {
    s[..start] + s[if end < |s| then end else |s|..]
  }

  /** Deleting exactly what was inserted gives the original text back. */
  lemma DeleteUndoesInsert(s: string, offset: int, t: string)
    requires 0 <= offset <= |s|
    ensures DeleteRange(InsertAt(s, offset, t), offset, offset + |t|) == s
  {
    var r := InsertAt(s, offset, t);
    assert DeleteRange(r, offset, offset + |t|) == r[..offset] + r[offset + |t|..];
    assert s[..offset] + s[offset..] == s;
  }

  /** `StringBuilder.setCharAt(i, c)`; throws unless `0 <= i < length`. */
  function SetCharAt(s: string, i: int, c: char): (r: string)
    requires 0 <= i < |s|
    ensures |r| == |s| && r[i] == c
    ensures forall j :: 0 <= j < |s| && j != i ==> r[j] == s[j]
  {
    s[i := c]
  }

  /** `indexOf`: the first position of `c` in `s`, or -1 when there is none. */
  function IndexOf(s: string, c: char): (i: int)
    ensures -1 <= i < |s|
    ensures i == -1 <==> c !in s
    ensures 0 <= i ==> s[i] == c && c !in s[..i]
  {
    if s == [] then -1
    else if s[0] == c then 0
    else
      var j := IndexOf(s[1..], c);
      if j == -1 then -1
      else
        assert s[..j + 1] == [s[0]] + s[1..][..j];
        j + 1
  }

  /** `String.endsWith(suffix)`. */
  predicate EndsWith(s: string, suffix: string)
    ensures EndsWith(s, suffix) <==> |suffix| <= |s| && s[..|s| - |suffix|] + suffix == s
  {
    |suffix| <= |s| && s[|s| - |suffix|..] == suffix
  }

  /** Any text followed by the suffix ends with it. */
  lemma EndsWithAppend(t: string, suffix: string)
    ensures EndsWith(t + suffix, suffix)
  {
    assert (t + suffix)[|t|..] == suffix;
  }

  predicate IsDigit(c: char) {
    '0' <= c <= '9'
  }

  function Digit(d: int): (c: char)
    requires 0 <= d < 10
    ensures IsDigit(c) && c as int - '0' as int == d
  {
    ('0' as int + d) as char
  }

  /** The decimal digits of a natural number, as `Integer.toString` writes them: no leading zero. */
  function NatToString(n: nat): (s: string)
    ensures |s| >= 1
    ensures forall i :: 0 <= i < |s| ==> IsDigit(s[i])
    ensures s[0] == '0' ==> n == 0
    decreases n
  {
    if n < 10 then [Digit(n)] else NatToString(n / 10) + [Digit(n % 10)]
  }

  /** `Integer.toString(i)`, which is what `i + "B"` concatenates. */
  function IntToString(i: int): (s: string)
    ensures |s| >= 1 && (s[0] == '-' <==> i < 0)
    ensures s[0] == '0' ==> i == 0
    ensures i < 0 ==> |s| >= 2 && s[1] != '0'
    ensures i >= 0 ==> (forall k :: 0 <= k < |s| ==> IsDigit(s[k])) && DigitsValue(s) == i
    ensures i < 0 ==> (forall k :: 1 <= k < |s| ==> IsDigit(s[k])) && DigitsValue(s[1..]) == -i
  {
    if i < 0 then
      NatToStringRoundTrip(-i);
      assert ("-" + NatToString(-i))[1..] == NatToString(-i);
      "-" + NatToString(-i)
    else
      NatToStringRoundTrip(i);
      NatToString(i)
  }

  /** The number a string of decimal digits denotes. */
  function DigitsValue(s: string): int
    requires forall i :: 0 <= i < |s| ==> IsDigit(s[i])
  {
    if s == [] then 0
    else DigitsValue(s[..|s| - 1]) * 10 + (s[|s| - 1] as int - '0' as int)
  }

  /** Reading back the decimal rendering gives the number. */
  lemma {:induction false} NatToStringRoundTrip(n: nat)
    ensures DigitsValue(NatToString(n)) == n
    decreases n
  {
    if n >= 10 {
      var s := NatToString(n);
      assert s[..|s| - 1] == NatToString(n / 10);
      NatToStringRoundTrip(n / 10);
    }
  }

  /** `Character.isLetter`, ASCII part. */
  predicate IsLetter(c: char) {
    'a' <= c <= 'z' || 'A' <= c <= 'Z'
  }

  /** `Character.isLowerCase`, ASCII part. */
  predicate IsLowerCase(c: char) {
    'a' <= c <= 'z'
  }

  /** `Character.toUpperCase`, ASCII part. */
  function ToUpperCase(c: char): char {
    if 'a' <= c <= 'z' then (c as int - 32) as char else c
  }

  /** `Character.toLowerCase`, ASCII part. */
  function ToLowerCase(c: char): char {
    if 'A' <= c <= 'Z' then (c as int + 32) as char else c
  }

  /** The character `changeCase` writes: a letter in the other case; anything else unchanged. */
  function SwapCase(c: char): (r: char)
    ensures IsLetter(c) <==> IsLetter(r)
    ensures IsLetter(c) ==> IsLowerCase(r) != IsLowerCase(c)
    ensures IsLetter(c) ==> ToLowerCase(r) == ToLowerCase(c) && ToUpperCase(r) == ToUpperCase(c)
    ensures !IsLetter(c) ==> r == c
  {
    if IsLetter(c) then
      if IsLowerCase(c) then ToUpperCase(c) else ToLowerCase(c)
    else c
  }

  /** Changing the case twice restores the character. */
  lemma SwapCaseInvolution(c: char)
    ensures SwapCase(SwapCase(c)) == c
  {
  }
}
