/**
 * `BufferString`: one line of console input, its cursor, its prompt,
 * the size of the last edit (`delta`, used for a minimal redraw) and the
 * text already confirmed on earlier physical lines of a multi-line
 * input. A prompt that masks with the zero mask hides the line
 * entirely: the buffer then reports a length of 1 and a cursor of 0,
 * whatever the real line and cursor are.
 */
module BufferStrings {
  import opened Wrappers
  import opened Prompts
  import opened Text
  import opened Ansi
  import opened CursorMoves

  /** What `updateMultiLineBuffer` keeps of a line: a final `" \\"` loses its backslash but keeps the space. */
  function StripContinuation(s: string): (r: string)
    ensures EndsWith(s, " \\") ==> r + "\\" == s && EndsWith(r, " ")
    ensures !EndsWith(s, " \\") ==> r == s
  {
    if EndsWith(s, " \\") then s[..|s| - 1] else s
  }

  class BufferString {
    var cursor: int
    var line: string
    var prompt: Prompt
    var delta: int
    var disablePrompt: bool
    var multiLine: bool
    /** `null` until the first `updateMultiLineBuffer`, and again after a reset. */
    var multiLineBuffer: Option<string>
    /** Whether escape sequences are produced at all (a static flag in the source). */
    var ansi: bool

    /** `BufferString(ansi, prompt)`; a missing prompt becomes the empty prompt. */
    constructor (ansi: bool, prompt: Option<Prompt>)
      ensures this.ansi == ansi && this.prompt == prompt.GetOr(EmptyPrompt)
      ensures cursor == 0 && line == [] && delta == 0
      ensures !disablePrompt && !multiLine && multiLineBuffer == None
    {
      this.ansi := ansi;
      this.prompt := prompt.GetOr(EmptyPrompt);
      cursor := 0;
      line := [];
      delta := 0;
      disablePrompt := false;
      multiLine := false;
      multiLineBuffer := None;
    }

    predicate ZeroMasked()
      reads this
    {
      prompt.HidesAll()
    }

    /** The real cursor lies on the real line. */
    predicate CursorInRange()
      reads this
    {
      0 <= cursor <= |line|
    }

    /** `reset(prompt)`. */
    method ResetWithPrompt(p: Option<Prompt>)
      modifies this`prompt, this`cursor, this`line, this`delta, this`multiLine, this`multiLineBuffer
      ensures prompt == p.GetOr(EmptyPrompt)
      ensures cursor == 0 && line == [] && delta == 0
      ensures !multiLine && multiLineBuffer == None
    {
      prompt := p.GetOr(EmptyPrompt);
      cursor := 0;
      line := [];
      delta := 0;
      multiLine := false;
      multiLineBuffer := None;
    }

    /**
     * `reset()`: as `reset(prompt)` with the prompt kept. The source's
     * null guard has no counterpart: the prompt here is never null.
     */
    method Reset()
      modifies this`cursor, this`line, this`delta, this`multiLine, this`multiLineBuffer
      ensures cursor == 0 && line == [] && delta == 0
      ensures !multiLine && multiLineBuffer == None
    {
      cursor := 0;
      line := [];
      delta := 0;
      multiLine := false;
      multiLineBuffer := None;
    }

    /**
     * `updatePrompt(prompt)`: with input on the line only the prompt is
     * swapped; on an empty line it is `reset(prompt)`.
     */
    method UpdatePrompt(p: Option<Prompt>)
      requires |line| > 0 ==> p.Some?
      modifies this`prompt, this`cursor, this`line, this`delta, this`multiLine, this`multiLineBuffer
      ensures old(|line|) > 0 ==>
        prompt == p.value && line == old(line) && cursor == old(cursor) && delta == old(delta) &&
        multiLine == old(multiLine) && multiLineBuffer == old(multiLineBuffer)
      ensures old(|line|) == 0 ==>
        prompt == p.GetOr(EmptyPrompt) && cursor == 0 && line == [] && delta == 0 &&
        !multiLine && multiLineBuffer == None
    {
      if |line| > 0 {
        prompt := p.value;
      } else {
        ResetWithPrompt(p);
      }
    }

    /** `length()`: the length of the line as shown, except that under the zero mask it is 1. */
    function Length(): (n: int)
      reads this
      ensures ZeroMasked() ==> n == 1 && GetLine() == []
      ensures !ZeroMasked() ==> n == |GetLine()| == |line|
    {
      if ZeroMasked() then 1 else |line|
    }

    /** `getPrompt()`: the continuation prompt `"> "` replaces the prompt on a multi-line input. */
    function GetPrompt(): (p: Prompt)
      reads this
      ensures multiLine ==> p.length == 2 && !p.masking
      ensures !multiLine ==> p == prompt
    {
      if multiLine then ContinuationPrompt else prompt
    }

    /** The columns in front of the line: none when the prompt is disabled. */
    function PromptWidth(): nat
      reads this
    {
      if disablePrompt then 0 else GetPrompt().length
    }

    /**
     * `totalLength()`: the shown line plus the prompt plus one column for
     * the cursor, in every masking mode.
     */
    function TotalLength(): (t: int)
      reads this
      ensures t == |GetLine()| + PromptWidth() + 1
    {
      if ZeroMasked() then (if disablePrompt then 1 else GetPrompt().length + 1)
      else if disablePrompt then |line| + 1
      else |line| + GetPrompt().length + 1
    }

    /** `getCursor()`: the cursor as shown, which lies on the shown line whenever the real one lies on the real line. */
    function GetCursor(): (c: int)
      reads this
      ensures ZeroMasked() ==> c == 0
      ensures !ZeroMasked() ==> c == cursor
      ensures CursorInRange() ==> 0 <= c <= |GetLine()|
    {
      if ZeroMasked() then 0 else cursor
    }

    /**
     * `getCursorWithPrompt()`: the terminal column of the shown cursor,
     * counted from 1; its distance to the total length is the number of
     * shown characters after the cursor.
     */
    function GetCursorWithPrompt(): (c: int)
      reads this
      ensures c >= GetCursor() + 1
      ensures TotalLength() - c == |GetLine()| - GetCursor()
    {
      if disablePrompt then GetCursor() + 1 else GetCursor() + GetPrompt().length + 1
    }

    /** `setCursor(c)`. */
    method SetCursor(c: int)
      modifies this`cursor
      ensures cursor == c
    {
      cursor := c;
    }

    /** `setMultiLine(m)`. */
    method SetMultiLine(m: bool)
      modifies this`multiLine
      ensures multiLine == m
    {
      multiLine := m;
    }

    /** `disablePrompt(d)`. */
    method DisablePrompt(d: bool)
      modifies this`disablePrompt
      ensures disablePrompt == d
    {
      disablePrompt := d;
    }

    /**
     * `updateMultiLineBuffer()`: the line, less the backslash of a final
     * `" \\"`, is appended to the accumulated text; the line is emptied.
     */
    method UpdateMultiLineBuffer()
      modifies this`multiLineBuffer, this`line, this`cursor
      ensures multiLineBuffer == Some(old(multiLineBuffer).GetOr([]) + StripContinuation(old(line)))
      ensures line == [] && cursor == 0
    {
      var acc := multiLineBuffer.GetOr([]);
      if EndsWith(line, " \\") {
        acc := acc + line[..|line| - 1];
      } else {
        acc := acc + line;
      }
      multiLineBuffer := Some(acc);
      line := [];
      cursor := 0;
    }

    /** `getMultiLineBuffer()`; throws while the accumulator is null. */
    function GetMultiLineBuffer(): (s: string)
      reads this
      requires multiLineBuffer.Some?
      ensures multiLineBuffer == Some(s)
    {
      multiLineBuffer.value
    }

    /** `getLine()`: the line as shown: itself, one mask per character, or nothing under the zero mask. */
    function GetLine(): (s: string)
      reads this
      ensures !prompt.masking ==> s == line
      ensures prompt.masking && prompt.mask != '\0' ==>
        |s| == |line| && forall i :: 0 <= i < |s| ==> s[i] == prompt.mask
      ensures ZeroMasked() ==> s == []
    {
      if !prompt.masking then line
      else if |line| > 0 && prompt.mask != '\0' then var m := prompt.mask; seq(|line|, _ => m)
      else []
    }

    /** `getMultiLine()`: the accumulated text followed by the shown line. */
    function GetMultiLine(): (s: string)
      reads this
      requires multiLine ==> multiLineBuffer.Some?
      ensures multiLine ==> |s| == |multiLineBuffer.value| + |GetLine()| &&
                            s[..|multiLineBuffer.value|] == multiLineBuffer.value &&
                            s[|multiLineBuffer.value|..] == GetLine()
      ensures !multiLine ==> s == GetLine()
    {
      if multiLine then GetMultiLineBuffer() + GetLine() else GetLine()
    }

    /** `getMultiCursor()`: the cursor counted from the start of the accumulated text. */
    function GetMultiCursor(): (c: int)
      reads this
      requires multiLine ==> multiLineBuffer.Some?
      ensures multiLine ==> c - |multiLineBuffer.value| == GetCursor()
      ensures !multiLine ==> c == GetCursor()
    {
      if multiLine then |GetMultiLineBuffer()| + GetCursor() else GetCursor()
    }

    /**
     * `move(move, termWidth, viMode)`: the move is clamped to the line,
     * the real cursor is set to the shown cursor plus the clamped move,
     * and the escape sequence for that move is returned; under the zero
     * mask nothing is returned.
     */
    method Move(move: int, termWidth: int, viMode: bool) returns (r: string)
      requires termWidth > 0
      modifies this`cursor
      ensures cursor == old(GetCursor()) + MoveCursor(old(GetCursor()), old(Length()), move, viMode)
      ensures ZeroMasked() ==> r == []
      ensures !ZeroMasked() ==>
        r == MoveSequence(ansi, old(GetCursorWithPrompt()),
                          MoveCursor(old(GetCursor()), old(Length()), move, viMode), termWidth)
      ensures !viMode && !ZeroMasked() && old(CursorInRange()) ==> CursorInRange()
      ensures viMode && !ZeroMasked() && old(0 <= cursor < |line|) ==> 0 <= cursor < |line|
      ensures ZeroMasked() && !viMode ==> 0 <= cursor <= 1
      ensures ZeroMasked() && viMode ==> cursor == 0
    {
      var m := MoveCursor(GetCursor(), Length(), move, viMode);
      var from := GetCursorWithPrompt();
      SetCursor(GetCursor() + m);
      if ZeroMasked() {
        return [];
      }
      assert GetCursorWithPrompt() == from + m;
      r := EmitMove(ansi, from, m, termWidth);
    }

    /** `getLineFrom(position)`: the line from `position` on. */
    function GetLineFrom(position: int): (s: string)
      reads this
      requires 0 <= position <= |line|
      ensures line[..position] + s == line
    {
      line[position..]
    }

    /** `setLine(s)`: the line is replaced and the cursor put at its end. */
    method SetLine(s: string)
      modifies this`line, this`cursor, this`delta
      ensures line == s && cursor == |s| && delta == |s| - |old(line)|
    {
      delta := |s| - |line|;
      line := s;
      cursor := |s|;
    }

    /** `delete(start, end)`: the cursor is left where it was. */
    method Delete(start: int, end: int)
      requires 0 <= start <= |line| && start <= end
      modifies this`line, this`delta
      ensures line == DeleteRange(old(line), start, end) && delta == start - end
    {
      delta := start - end;
      line := DeleteRange(line, start, end);
    }

    /** `insert(start, s)`: neither cursor nor delta change. */
    method Insert(start: int, s: string)
      requires 0 <= start <= |line|
      modifies this`line
      ensures line == InsertAt(old(line), start, s)
    {
      line := InsertAt(line, start, s);
    }

    /** `write(char)`: inserted at the real cursor, which moves past it. */
    method WriteChar(c: char)
      requires CursorInRange()
      modifies this`line, this`cursor, this`delta
      ensures line == InsertAt(old(line), old(cursor), [c])
      ensures cursor == old(cursor) + 1 && delta == 1
      ensures CursorInRange()
    {
      line := InsertAt(line, cursor, [c]);
      cursor := cursor + 1;
      delta := 1;
    }

    /**
     * `write(String)`: appended to an empty line, otherwise inserted at
     * the shown cursor, which is 0 under the zero mask; the real cursor
     * advances by the length written.
     */
    method Write(s: string)
      requires |line| > 0 ==> 0 <= GetCursor() <= |line|
      modifies this`line, this`cursor, this`delta
      ensures old(|line|) == 0 ==> line == s
      ensures old(|line|) > 0 ==> line == InsertAt(old(line), old(GetCursor()), s)
      ensures cursor == old(cursor) + |s| && delta == |s|
      ensures old(CursorInRange()) ==> CursorInRange()
    {
      if |line| == 0 {
        line := line + s;
      } else {
        line := InsertAt(line, GetCursor(), s);
      }
      cursor := cursor + |s|;
      delta := |s|;
    }

    /** `clear()`: the line and delta are emptied, the cursor is not touched. */
    method Clear()
      modifies this`line, this`delta
      ensures line == [] && delta == 0
    {
      line := [];
      delta := 0;
    }

    /**
     * `changeCase()`: reads the character under the shown cursor in the
     * shown line and, when it is a letter, writes it in the other case
     * into the real line at that position.
     */
    method ChangeCase() returns (changed: bool)
      requires 0 <= GetCursor() < |GetLine()|
      modifies this`line
      ensures var c := old(GetLine())[old(GetCursor())];
        changed == IsLetter(c) &&
        line == (if changed then SetCharAt(old(line), old(GetCursor()), SwapCase(c)) else old(line))
    {
      var c := GetLine()[GetCursor()];
      if IsLetter(c) {
        if IsLowerCase(c) {
          line := SetCharAt(line, GetCursor(), ToUpperCase(c));
        } else {
          line := SetCharAt(line, GetCursor(), ToLowerCase(c));
        }
        changed := true;
      } else {
        changed := false;
      }
    }

    /** `replaceChar(c)`: at the shown cursor. */
    method ReplaceCharAtCursor(c: char)
      requires 0 <= GetCursor() < |line|
      modifies this`line
      ensures line == SetCharAt(old(line), old(GetCursor()), c)
    {
      line := SetCharAt(line, GetCursor(), c);
    }

    /** `replaceChar(c, pos)`: a position off the line is ignored. */
    method ReplaceChar(c: char, pos: int)
      modifies this`line
      ensures 0 <= pos < |old(line)| ==> line == SetCharAt(old(line), pos, c)
      ensures !(0 <= pos < |old(line)|) ==> line == old(line)
    {
      if pos > -1 && pos < |line| {
        line := SetCharAt(line, pos, c);
      }
    }

    /** `containRedirection()`. */
    function ContainRedirection(): (b: bool)
      reads this
      ensures b <==> '>' in line
    {
      IndexOf(line, '>') > -1
    }

    /** `getRedirectionPosition()`: the first `>` of the line, or -1. */
    function GetRedirectionPosition(): (i: int)
      reads this
      ensures i == -1 <==> '>' !in line
      ensures i != -1 ==> 0 <= i < |line| && line[i] == '>' && '>' !in line[..i]
    {
      IndexOf(line, '>')
    }
  }

  /**
   * Under the zero mask the buffer shows nothing of the line: a length
   * of 1, a cursor of 0, an empty shown line, and a cursor-with-prompt
   * that is the total length.
   */
  lemma ZeroMaskHidesLine(b: BufferString)
    requires b.ZeroMasked()
    ensures b.Length() == 1 && b.GetCursor() == 0 && b.GetLine() == []
    ensures b.GetCursorWithPrompt() == b.TotalLength()
  {
  }

  /**
   * Without the zero mask a cursor on the line lies between the first
   * position after the prompt and the total length, and the distance to
   * the total length is the number of characters after the cursor.
   */
  lemma CursorWithinTotalLength(b: BufferString)
    requires !b.ZeroMasked() && b.CursorInRange()
    ensures b.GetCursor() == b.cursor && b.Length() == |b.line|
    ensures b.GetCursorWithPrompt() >= 1
    ensures b.TotalLength() - b.GetCursorWithPrompt() == |b.line| - b.cursor
  {
  }

  /**
   * Without masking, the text before the multi-line cursor is the
   * accumulated text followed by the line up to the cursor.
   */
  lemma MultiCursorSplitsMultiLine(b: BufferString)
    requires !b.prompt.masking && b.CursorInRange()
    requires b.multiLine ==> b.multiLineBuffer.Some?
    ensures 0 <= b.GetMultiCursor() <= |b.GetMultiLine()|
    ensures b.GetMultiLine()[..b.GetMultiCursor()] ==
      (if b.multiLine then b.multiLineBuffer.value else []) + b.line[..b.cursor]
  {
    if b.multiLine {
      var acc := b.multiLineBuffer.value;
      assert b.GetMultiLine() == acc + b.line;
      assert (acc + b.line)[..|acc| + b.cursor] == acc + b.line[..b.cursor];
    }
  }

  /**
   * Under the zero mask, `write(String)` on a non-empty line inserts at
   * the shown cursor, which is 0: the text goes in front of the line,
   * while the real cursor still advances by its length.
   */
  method ZeroMaskedWritePrepends(b: BufferString, s: string)
    requires b.ZeroMasked() && |b.line| > 0
    modifies b
    ensures b.line == s + old(b.line) && b.cursor == old(b.cursor) + |s|
  {
    b.Write(s);
    assert InsertAt(old(b.line), 0, s) == s + old(b.line);
  }

  /**
   * Under the zero mask a move right on an empty line puts the real
   * cursor at 1, off the empty real line; a following `write(char)`
   * would insert past the end.
   */
  method ZeroMaskedMoveLeavesLine(width: int) returns (cursor: int, lineLength: int)
    requires width > 0
    ensures cursor == 1 && lineLength == 0
  {
    var b := new BufferString(true, Some(Prompt(10, true, '\0')));
    var _ := b.Move(1, width, false);
    cursor, lineLength := b.cursor, |b.line|;
  }

  /**
   * A zero-masked input session: whatever is written, moved over and
   * deleted, the buffer keeps reporting a length of 1 and a cursor of 0
   * and its moves print nothing.
   */
  method ZeroMaskedSession(text: string, width: int) returns (len: int, cur: int, out: string)
    requires width > 0
    ensures len == 1 && cur == 0 && out == []
  {
    var b := new BufferString(true, Some(Prompt(10, true, '\0')));
    b.Write(text);
    var left := b.Move(-1, width, false);
    b.WriteChar('x');
    b.Delete(0, 1);
    var right := b.Move(1, width, false);
    out := left + right;
    len, cur := b.Length(), b.GetCursor();
  }
}
