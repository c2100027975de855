/**
 * `printAnsi`: an escape sequence is `ESC [` followed by its body, in
 * which every tab is written as four spaces. When the buffer was
 * created with ANSI output switched off, nothing is written at all.
 */
module Ansi {

  const Esc: char := 27 as char

  /** `TAB` in the source: the number of spaces a tab is widened to. */
  const TabWidth: nat := 4

  /** What one body character is written as. */
  function Expand(c: char): string {
    if c == '\t' then "    " else [c]
  }

  /** The body as written: each tab widened, every other character copied in order. */
  function ExpandTabs(s: string): string {
    if s == [] then [] else Expand(s[0]) + ExpandTabs(s[1..])
  }

  /** The size `printAnsi`'s first loop computes: `TabWidth` per tab, 1 per other character. */
  function TabbedLength(s: string): nat {
    if s == [] then 0 else (if s[0] == '\t' then TabWidth else 1) + TabbedLength(s[1..])
  }

  /** The specification of `printAnsi(out)`. */
  function Escape(ansi: bool, out: string): string {
    if ansi then [Esc, '['] + ExpandTabs(out) else []
  }

  lemma {:induction false} ExpandTabsLength(s: string)
    ensures |ExpandTabs(s)| == TabbedLength(s)
  {
    if s != [] {
      ExpandTabsLength(s[1..]);
    }
  }

  /** Widening works character by character: it distributes over concatenation. */
  lemma {:induction false} ExpandTabsAppend(s: string, t: string)
    ensures ExpandTabs(s + t) == ExpandTabs(s) + ExpandTabs(t)
  {
    if s == [] {
      assert s + t == t;
    } else {
      assert (s + t)[1..] == s[1..] + t;
      ExpandTabsAppend(s[1..], t);
    }
  }

  lemma {:induction false} TabbedLengthAppend(s: string, t: string)
    ensures TabbedLength(s + t) == TabbedLength(s) + TabbedLength(t)
  {
    if s == [] {
      assert s + t == t;
    } else {
      assert (s + t)[1..] == s[1..] + t;
      TabbedLengthAppend(s[1..], t);
    }
  }

  /** A body without tabs is written unchanged. */
  lemma {:induction false} ExpandTabsWithoutTabs(s: string)
    requires forall i :: 0 <= i < |s| ==> s[i] != '\t'
    ensures ExpandTabs(s) == s
  {
    if s != [] {
      ExpandTabsWithoutTabs(s[1..]);
      assert s == [s[0]] + s[1..];
    }
  }

  /** No tab survives the widening. */
  lemma {:induction false} ExpandTabsRemovesTabs(s: string)
    ensures forall i :: 0 <= i < |ExpandTabs(s)| ==> ExpandTabs(s)[i] != '\t'
  {
    if s != [] {
      ExpandTabsRemovesTabs(s[1..]);
    }
  }

  /** The shape of every escape: `ESC`, `[`, then the widened body, and nothing without ANSI. */
  lemma EscapeFormat(ansi: bool, out: string)
    ensures !ansi ==> Escape(ansi, out) == []
    ensures ansi ==> |Escape(ansi, out)| == 2 + TabbedLength(out)
    ensures ansi ==> Escape(ansi, out)[0] == Esc && Escape(ansi, out)[1] == '['
    ensures ansi ==> Escape(ansi, out)[2..] == ExpandTabs(out)
  {
    ExpandTabsLength(out);
  }

  /** The widened prefix grows by one character's expansion. */
  lemma ExpandTabsSnoc(s: string, c: char)
    ensures ExpandTabs(s + [c]) == ExpandTabs(s) + Expand(c)
    ensures TabbedLength(s + [c]) == TabbedLength(s) + |Expand(c)|
  {
    ExpandTabsAppend(s, [c]);
    TabbedLengthAppend(s, [c]);
    assert [c][1..] == [];
  }

  /** Where one body character lands: its expansion follows the expansion of what precedes it. */
  lemma ExpandTabsPiece(out: string, i: int)
    requires 0 <= i < |out|
    ensures var c := TabbedLength(out[..i]);
      TabbedLength(out[..i + 1]) == c + |Expand(out[i])| &&
      c + |Expand(out[i])| <= |ExpandTabs(out)| &&
      ExpandTabs(out)[c..c + |Expand(out[i])|] == Expand(out[i])
  {
    var pre, post := out[..i], out[i + 1..];
    assert out[..i + 1] == pre + [out[i]];
    assert out == (pre + [out[i]]) + post;
    ExpandTabsSnoc(pre, out[i]);
    ExpandTabsAppend(pre + [out[i]], post);
    ExpandTabsLength(pre);
    var x, e, y := ExpandTabs(pre), Expand(out[i]), ExpandTabs(post);
    assert ExpandTabs(out) == x + e + y;
    assert (x + e + y)[|x|..|x| + |e|] == e;
  }

  /** `Arrays.fill(a, from, to, c)`. */
  method Fill(a: array<char>, from: int, to: int, c: char)
    requires 0 <= from <= to <= a.Length
    modifies a
    ensures forall k :: 0 <= k < a.Length ==> a[k] == if from <= k < to then c else old(a[k])
  {
    forall k | from <= k < to {
      a[k] := c;
    }
  }

  /**
   * `printAnsi(char... out)`: the first loop counts the widened length;
   * an array of that length plus two gets `ESC [` and then the body.
   */
  method PrintAnsi(ansi: bool, out: string) returns (r: string)
    ensures r == Escape(ansi, out)
  {
    if !ansi {
      return [];
    }
    var length := 0;
    for i := 0 to |out|
      invariant length == TabbedLength(out[..i])
    {
      assert out[..i + 1] == out[..i] + [out[i]];
      ExpandTabsSnoc(out[..i], out[i]);
      if out[i] == '\t' {
        length := length + TabWidth;
      } else {
        length := length + 1;
      }
    }
    assert out[..|out|] == out;
    var a := new char[length + 2];
    a[0], a[1] := Esc, '[';
    FillBody(a, out);
    assert a[..] == [a[0], a[1]] + a[2..];
    r := a[..];
  }

  /** The second loop of `printAnsi`: from index 2 on, each tab as four spaces, every other character copied. */
  method FillBody(a: array<char>, out: string)
    requires a.Length == TabbedLength(out) + 2
    modifies a
    ensures a[0] == old(a[0]) && a[1] == old(a[1])
    ensures a[2..] == ExpandTabs(out)
  {
    ghost var body := ExpandTabs(out);
    ExpandTabsLength(out);
    var counter := 0;
    for i := 0 to |out|
      invariant counter == TabbedLength(out[..i])
      invariant counter + 2 <= a.Length
      invariant a[0] == old(a[0]) && a[1] == old(a[1])
      invariant forall k :: 2 <= k < counter + 2 ==> a[k] == body[k - 2]
    {
      ExpandTabsPiece(out, i);
      counter := StoreExpanded(a, counter, out[i], body);
    }
    assert out[..|out|] == out;
    assert a[2..] == body;
  }

  /**
   * One turn of that loop: a tab becomes four spaces at `counter + 2`
   * (`Arrays.fill`), any other character is stored there; the counter
   * moves past what was written.
   */
  method StoreExpanded(a: array<char>, counter: int, c: char, ghost body: string) returns (next: int)
    requires 0 <= counter && counter + |Expand(c)| + 2 <= a.Length
    requires counter + |Expand(c)| <= |body| && body[counter..counter + |Expand(c)|] == Expand(c)
    requires forall k :: 2 <= k < counter + 2 ==> a[k] == body[k - 2]
    modifies a
    ensures next == counter + |Expand(c)|
    ensures forall k :: 0 <= k < counter + 2 ==> a[k] == old(a[k])
    ensures forall k :: 2 <= k < next + 2 ==> a[k] == body[k - 2]
  {
    next := counter;
    if c == '\t' {
      Fill(a, next + 2, next + 2 + TabWidth, ' ');
      next := next + TabWidth - 1;
    } else {
      a[next + 2] := c;
    }
    next := next + 1;
  }
}
