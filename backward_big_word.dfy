/**
 * The backward big-word motion: from the cursor, skip back over the
 * whitespace just before it, then over the run of non-whitespace before
 * that; the position reached is the new cursor. The buffer is only
 * read; the effect of the action is to hand this position on.
 */
module BackwardBigWords {

  /**
   * The whitespace test the motion uses: Java's `Character.isWhitespace`
   * on the ASCII range (tab, line feed, vertical tab, form feed, carriage
   * return, the four separators 0x1C..0x1F and the space).
   */
  function IsSpace(c: char): (b: bool)
    ensures b <==> c in AsciiWhitespace
  {
    ('\t' <= c <= '\r') || (28 <= c as int <= 32)
  }

  /** The ASCII characters `Character.isWhitespace` accepts, listed one by one. */
  const AsciiWhitespace: set<char> :=
    {'\t', '\n', 11 as char, 12 as char, '\r', 28 as char, 29 as char, 30 as char, 31 as char, ' '}

  /** A cursor past the end of the buffer is first put on the buffer's last character. */
  function StartCursor(length: int, cursor: int): (s: int)
    ensures s <= length && s <= cursor
    ensures cursor <= length ==> s == cursor
    ensures cursor > length ==> s + 1 == length
  {
    if cursor > length then length - 1 else cursor
  }

  /**
   * One phase of the scan: move back while the character before the
   * cursor is whitespace (`space`) or is not (`!space`).
   */
  function SkipBack(s: string, c: int, space: bool): (r: int)
    requires c <= |s|
    ensures c <= 0 ==> r == c
    ensures 0 <= c ==> 0 <= r <= c
    ensures forall k :: r <= k < c ==> IsSpace(s[k]) == space
    ensures r > 0 ==> IsSpace(s[r - 1]) != space
    decreases c
  {
    if c > 0 && IsSpace(s[c - 1]) == space then SkipBack(s, c - 1, space) else c
  }

  /** Where backward-big-word puts the cursor. */
  function Target(s: string, cursor: int): (r: int)
    ensures var start := StartCursor(|s|, cursor);
      0 <= start ==> 0 <= r <= start && (r == 0 || IsSpace(s[r - 1]))
    ensures r > 0 ==> r < |s| && !IsSpace(s[r])
  {
    var start := StartCursor(|s|, cursor);
    SkipBack(s, SkipBack(s, start, true), false)
  }

  /** `BackwardBigWord.accept`: the position the motion hands on. */
  method Accept(buffer: string, cursor: int) returns (r: int)
    ensures r == Target(buffer, cursor)
    ensures var start := StartCursor(|buffer|, cursor);
      0 <= start ==> 0 <= r <= start && (r == 0 || IsSpace(buffer[r - 1]))
  {
    r := cursor;
    if r > |buffer| {
      r := |buffer| - 1;
    }
    ghost var start := r;
    while r > 0 && IsSpace(buffer[r - 1])
      invariant r <= start <= |buffer|
      invariant 0 <= start ==> 0 <= r
      invariant SkipBack(buffer, r, true) == SkipBack(buffer, start, true)
    {
      r := r - 1;
    }
    assert r == SkipBack(buffer, start, true);
    ghost var middle := r;
    while r > 0 && !IsSpace(buffer[r - 1])
      invariant r <= middle <= |buffer|
      invariant 0 <= middle ==> 0 <= r
      invariant SkipBack(buffer, r, false) == SkipBack(buffer, middle, false)
    {
      r := r - 1;
    }
    assert start == StartCursor(|buffer|, cursor);
    assert r == SkipBack(buffer, middle, false);
  }

  /**
   * The two phases: with `p` where the whitespace skip stops, every
   * character in `[p, c)` is whitespace, every one in `[r, p)` is not,
   * and neither phase could have gone further.
   */
  lemma TwoPhases(s: string, c: int)
    requires 0 <= c <= |s|
    ensures var p := SkipBack(s, c, true);
      var r := Target(s, c);
      0 <= r <= p <= c &&
      (forall k :: p <= k < c ==> IsSpace(s[k])) &&
      (forall k :: r <= k < p ==> !IsSpace(s[k])) &&
      (p == 0 || !IsSpace(s[p - 1])) &&
      (r == 0 || IsSpace(s[r - 1]))
  {
    var p := SkipBack(s, c, true);
    assert Target(s, c) == SkipBack(s, p, false);
  }

  /** The phase characterisation determines the result: any such pair of stops is the motion's. */
  lemma {:induction false} TwoPhasesDetermineTarget(s: string, c: int, p: int, r: int)
    requires 0 <= r <= p <= c <= |s|
    requires forall k :: p <= k < c ==> IsSpace(s[k])
    requires p == 0 || !IsSpace(s[p - 1])
    requires forall k :: r <= k < p ==> !IsSpace(s[k])
    requires r == 0 || IsSpace(s[r - 1])
    ensures SkipBack(s, c, true) == p && Target(s, c) == r
  {
    SkipBackStopsAt(s, c, p, true);
    SkipBackStopsAt(s, p, r, false);
  }

  /** A phase started at `c` stops at the first position `q` below which the run ends. */
  lemma {:induction false} SkipBackStopsAt(s: string, c: int, q: int, space: bool)
    requires 0 <= q <= c <= |s|
    requires forall k :: q <= k < c ==> IsSpace(s[k]) == space
    requires q == 0 || IsSpace(s[q - 1]) != space
    ensures SkipBack(s, c, space) == q
    decreases c
  {
    if c > q {
      SkipBackStopsAt(s, c - 1, q, space);
    }
  }

  /** A cursor at the start of the buffer stays there. */
  lemma FixedPointAtZero(s: string)
    ensures Target(s, 0) == 0
  {
  }

  /**
   * A cursor past the end starts from the last character, so the result
   * lies before it; past the end of an empty buffer the motion yields -1.
   */
  lemma PastTheEnd(s: string, c: int)
    requires c > |s|
    ensures |s| > 0 ==> 0 <= Target(s, c) <= |s| - 1
    ensures |s| == 0 ==> Target(s, c) == -1
  {
  }

  /** `"foo  bar"` from its end: first to the start of `bar`, then to the start of `foo`. */
  lemma WorkedExample()
    ensures Target("foo  bar", 8) == 5
    ensures Target("foo  bar", 5) == 0
  {
    var s := "foo  bar";
    TwoPhasesDetermineTarget(s, 8, 8, 5);
    TwoPhasesDetermineTarget(s, 5, 3, 0);
  }
}
