/**
 * The arithmetic behind `BufferString.move`: clamping a requested cursor
 * move to the line (`moveCursor`), the terminal row and column of a
 * cursor position for a given width, and the escape sequence that
 * takes the terminal cursor from one position to another: CUU (`A`),
 * CUD (`B`), CUF (`C`), CUB (`D`) and CHA (`G`) of ECMA-48 section 8.3.
 *
 * Positions here are cursor-with-prompt offsets: 1 + the prompt width +
 * the cursor, so the first column of the first row is position 1.
 */
module CursorMoves {
  import opened Text
  import opened Ansi

  /** Java's `/` on `int`, which truncates toward zero. */
  function JavaDiv(a: int, w: int): int
    requires w > 0
  {
    if a >= 0 then a / w else -((-a) / w)
  }

  /** Java's `%` on `int`: the remainder takes the sign of `a`. */
  function JavaMod(a: int, w: int): int
    requires w > 0
  {
    a - w * JavaDiv(a, w)
  }

  /** The row `move` computes for position `p`: a position at an exact multiple of the width stays on the previous row. */
  function Row(p: int, w: int): (r: int)
    requires w > 0
    ensures p > 0 ==> r == (p - 1) / w
  {
    if p > 0 then ShiftedDivMod(p, w); RowOf(p, w) else RowOf(p, w)
  }

  function RowOf(p: int, w: int): int
    requires w > 0
  {
    var q := JavaDiv(p, w);
    if q > 0 && JavaMod(p, w) == 0 then q - 1 else q
  }

  /** The column `move` sends to CHA: the remainder, with 0 read as the last column. */
  function Column(p: int, w: int): (c: int)
    requires w > 0
    ensures p > 0 ==> c == (p - 1) % w + 1
  {
    if p > 0 then ShiftedDivMod(p, w); ColumnOf(p, w) else ColumnOf(p, w)
  }

  function ColumnOf(p: int, w: int): int
    requires w > 0
  {
    var c := JavaMod(p, w);
    if c == 0 && p > 0 then w else c
  }

  /** Java's quotient and remainder of `p` against the Euclidean ones of `p - 1`, for `p > 0`. */
  lemma ShiftedDivMod(p: int, w: int)
    requires w > 0 && p > 0
    ensures (p - 1) / w == (if JavaMod(p, w) == 0 then JavaDiv(p, w) - 1 else JavaDiv(p, w))
    ensures (p - 1) % w == (if JavaMod(p, w) == 0 then w - 1 else JavaMod(p, w) - 1)
    ensures JavaMod(p, w) == 0 ==> JavaDiv(p, w) > 0
  {
    var q, m := p / w, p % w;
    assert p == q * w + m && 0 <= m < w;
    assert JavaDiv(p, w) == q && JavaMod(p, w) == m;
    if m == 0 {
      assert q >= 1;
      assert p - 1 == (q - 1) * w + (w - 1);
      DivModUnique(p - 1, w, q - 1, w - 1);
    } else {
      assert p - 1 == q * w + (m - 1);
      DivModUnique(p - 1, w, q, m - 1);
    }
  }

  /** Row and column are the 1-based row-major decomposition of a position. */
  lemma RowColumn(p: int, w: int)
    requires w > 0 && p > 0
    ensures Row(p, w) == (p - 1) / w
    ensures Column(p, w) == (p - 1) % w + 1
    ensures 1 <= Column(p, w) <= w
    ensures Row(p, w) * w + Column(p, w) == p
  {
  }

  /** Euclidean division is determined by its quotient-remainder equation. */
  lemma DivModUnique(a: int, w: int, q: int, m: int)
    requires w > 0 && 0 <= m < w && a == q * w + m
    ensures a / w == q && a % w == m
  {
    var q', m' := a / w, a % w;
    assert a == q' * w + m' && 0 <= m' < w;
    if q' > q {
      assert (q + 1) * w == q * w + w;
      MulMonotone(q + 1, q', w);
    } else if q' < q {
      assert (q' + 1) * w == q' * w + w;
      MulMonotone(q' + 1, q, w);
    }
  }

  lemma MulMonotone(x: int, y: int, w: int)
    requires x <= y && w >= 0
    ensures x * w <= y * w
  {
    assert y * w - x * w == (y - x) * w;
  }

  /** A position at the width itself stays on the first row. */
  lemma RowAtWidth(w: int)
    requires w > 0
    ensures Row(w, w) == Row(w - 1, w) == 0
  {
    RowColumn(w, w);
    if w > 1 {
      RowColumn(w - 1, w);
    }
  }

  /** Stepping back one position changes the row only when leaving a row's first column. */
  lemma RowStepBack(p: int, w: int)
    requires w > 0 && p > 1
    ensures Row(p, w) == Row(p - 1, w) <==> (p - 1) % w != 0
  {
    RowColumn(p, w);
    RowColumn(p - 1, w);
  }

  /**
   * The weaker reading "row(P) == row(P-1) whenever P % W != 0" does not hold of the code:
   * with width 4, position 5 is on the second row and position 4 on the first.
   */
  lemma RowStepBackCounterexample()
    ensures 5 % 4 != 0 && Row(5, 4) == 1 && Row(4, 4) == 0
  {
  }

  /** The last cursor position a move may reach: the line's end in emacs mode, the last character in vi mode. */
  function End(length: int, viMode: bool): int {
    if viMode then length - 1 else length
  }

  function Clamp(x: int, lo: int, hi: int): int
    requires lo <= hi
  {
    if x < lo then lo else if x > hi then hi else x
  }

  /**
   * `moveCursor`: the requested move, cut so that a cursor between 0 and
   * the end lands at the nearest position between 0 and the end.
   */
  function MoveCursor(cursor: int, length: int, move: int, viMode: bool): (m: int)
    ensures 0 <= cursor <= End(length, viMode) ==> cursor + m == Clamp(cursor + move, 0, End(length, viMode))
    ensures cursor == 0 && move <= 0 ==> m == 0
    ensures cursor == End(length, viMode) && move > 0 ==> m == 0
  {
    if cursor == 0 && move <= 0 then 0
    else if viMode && cursor == length - 1 && move > 0 then 0
    else if !viMode && cursor == length && move > 0 then 0
    else if cursor + move <= 0 then -cursor
    else if viMode && cursor + move > length - 1 then length - 1 - cursor
    else if !viMode && cursor + move > length then length - cursor
    else move
  }

  /** A move that overshoots a bound stops at it, and a second identical move is then empty. */
  lemma OverlongMoveIdempotent(cursor: int, length: int, move: int, viMode: bool)
    requires 0 <= cursor <= End(length, viMode)
    requires cursor + move <= 0 || cursor + move >= End(length, viMode)
    ensures var c := cursor + MoveCursor(cursor, length, move, viMode);
      0 <= c <= End(length, viMode) && MoveCursor(c, length, move, viMode) == 0
  {
  }

  /** In vi mode on an empty line the clamp of a positive move is -1, which puts the cursor before the line. */
  lemma ViMoveOnEmptyLine(move: int)
    requires move > 0
    ensures MoveCursor(0, 0, move, true) == -1
  {
  }

  /**
   * The characters `move` returns when the terminal cursor goes from
   * position `from` by the clamped `move`: an up or down move by the
   * row difference followed by an absolute column when the row changes,
   * otherwise a move left or right by the distance, or nothing.
   */
  function MoveSequence(ansi: bool, from: int, move: int, w: int): (r: string)
    requires w > 0
    ensures r == [] <==> !ansi || move == 0
  {
    var rows := Row(from + move, w) - Row(from, w);
    var col := Column(from + move, w);
    if rows > 0 then Escape(ansi, IntToString(rows) + "B") + Escape(ansi, IntToString(col) + "G")
    else if rows < 0 then Escape(ansi, IntToString(-rows) + "A") + Escape(ansi, IntToString(col) + "G")
    else if move < 0 then Escape(ansi, IntToString(-move) + "D")
    else if move > 0 then Escape(ansi, IntToString(move) + "C")
    else []
  }

  /**
   * The second half of `move`: the rows of both positions, the target's
   * column, and the escape sequences built with `printAnsi`.
   */
  method EmitMove(ansi: bool, from: int, move: int, termWidth: int) returns (r: string)
    requires termWidth > 0
    ensures r == MoveSequence(ansi, from, move, termWidth)
  {
    var currentRow := Row(from, termWidth);
    var newRow := Row(move + from, termWidth);
    var row := newRow - currentRow;
    var col := Column(from + move, termWidth);
    assert row == Row(from + move, termWidth) - Row(from, termWidth);
    if row != 0 {
      var vertical := if row > 0 then IntToString(row) + "B" else IntToString(-row) + "A";
      var column := IntToString(col) + "G";
      var first := PrintAnsi(ansi, vertical);
      var second := PrintAnsi(ansi, column);
      r := first + second;
    } else if move != 0 {
      var horizontal := if move < 0 then IntToString(-move) + "D" else IntToString(move) + "C";
      r := PrintAnsi(ansi, horizontal);
    } else {
      r := [];
    }
  }

  /** `ESC [ n letter` for a natural `n`; no tab can occur in the digits. */
  lemma EscapeNumber(n: nat, letter: char)
    requires letter != '\t'
    ensures Escape(true, IntToString(n) + [letter]) == [Esc, '['] + NatToString(n) + [letter]
  {
    var digits := NatToString(n);
    assert forall i :: 0 <= i < |digits| ==> digits[i] != '\t';
    ExpandTabsWithoutTabs(digits);
    ExpandTabsAppend(digits, [letter]);
    assert [letter][..0] == [];
  }

  /**
   * Staying on one row: the terminal cursor moves horizontally by
   * exactly the clamped distance, written `ESC [ |m| D` left or
   * `ESC [ m C` right, and nothing for no move.
   */
  lemma MoveSequenceSameRow(from: int, move: int, w: int)
    requires w > 0 && from > 0 && from + move > 0
    requires Row(from + move, w) == Row(from, w)
    ensures Column(from + move, w) - Column(from, w) == move
    ensures move < 0 ==> MoveSequence(true, from, move, w) == [Esc, '['] + NatToString(-move) + "D"
    ensures move > 0 ==> MoveSequence(true, from, move, w) == [Esc, '['] + NatToString(move) + "C"
    ensures move == 0 ==> MoveSequence(true, from, move, w) == []
  {
    RowColumn(from, w);
    RowColumn(from + move, w);
    if move < 0 {
      EscapeNumber(-move, 'D');
    } else if move > 0 {
      EscapeNumber(move, 'C');
    }
  }

  /**
   * Changing rows: `ESC [ r B` down or `ESC [ r A` up by the row
   * difference `r`, then `ESC [ c G` to the target's column `c`, which
   * lies in 1..w and together with the target's row gives the target.
   */
  lemma MoveSequenceOtherRow(from: int, move: int, w: int)
    requires w > 0 && from > 0 && from + move > 0
    requires Row(from + move, w) != Row(from, w)
    ensures var rows := Row(from + move, w) - Row(from, w);
      var col := Column(from + move, w);
      1 <= col <= w && Row(from + move, w) * w + col == from + move &&
      (rows > 0 ==>
         MoveSequence(true, from, move, w) ==
         [Esc, '['] + NatToString(rows) + "B" + [Esc, '['] + NatToString(col) + "G") &&
      (rows < 0 ==>
         MoveSequence(true, from, move, w) ==
         [Esc, '['] + NatToString(-rows) + "A" + [Esc, '['] + NatToString(col) + "G")
  {
    RowColumn(from + move, w);
    var rows := Row(from + move, w) - Row(from, w);
    var col := Column(from + move, w);
    if rows > 0 {
      RowChangeBytes(from, move, w, rows, col, 'B');
    } else {
      RowChangeBytes(from, move, w, -rows, col, 'A');
    }
  }

  /** The bytes of a row change: `ESC [ n letter`, then `ESC [ col G`. */
  lemma RowChangeBytes(from: int, move: int, w: int, n: nat, col: nat, letter: char)
    requires w > 0 && col == Column(from + move, w)
    requires var rows := Row(from + move, w) - Row(from, w);
      (letter == 'B' && rows > 0 && n == rows) || (letter == 'A' && rows < 0 && n == -rows)
    ensures MoveSequence(true, from, move, w) ==
      [Esc, '['] + NatToString(n) + [letter] + [Esc, '['] + NatToString(col) + "G"
  {
    assert MoveSequence(true, from, move, w) ==
      Escape(true, IntToString(n) + [letter]) + Escape(true, IntToString(col) + "G");
    EscapeNumber(n, letter);
    EscapeNumber(col, 'G');
  }

  /** Without ANSI output `move` writes nothing. */
  lemma MoveSequenceWithoutAnsi(from: int, move: int, w: int)
    requires w > 0
    ensures MoveSequence(false, from, move, w) == []
  {
  }
}
