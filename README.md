# Line buffer and backward big-word motion of aesh-readline, in Dafny

This project models two pieces of the aesh-readline line editor.

- `BufferString` holds one line of console input: the line itself, the cursor, the prompt, the size of the last edit (`delta`, used for a minimal redraw), whether the prompt is left out of the arithmetic (search overlays), and the text already confirmed on earlier physical lines of a multi-line input. It clamps cursor moves to the line, and it turns a move into the ANSI escape sequences that put the terminal cursor in the right row and column. A prompt that masks with the zero mask hides the line completely. The buffer then reports a length of 1 and a cursor of 0, and a move prints nothing, even though the real line and cursor keep changing.
- The backward big-word motion moves the cursor to the start of the previous whitespace-delimited word.

Modules, one per concept:

- `Prompts` (`prompts.dfy`): the prompt descriptor. Only its width, its masking flag and its mask character are modelled.
- `Text` (`text.dfy`): the Java library operations the buffer uses, on `seq<char>`. These are `StringBuilder.insert`, `delete` and `setCharAt`, `indexOf`, `endsWith`, `Integer.toString`, and ASCII case change. Each requires the index range outside which Java throws.
- `Ansi` (`ansi.dfy`): `printAnsi`, kept as two loops over a `char` array and proved equal to the specification function `Escape`.
- `CursorMoves` (`cursor_moves.dfy`): the `moveCursor` clamp, Java's truncating `/` and `%`, the row and column of a position, and the escape sequence `move` emits. The sequences are CUU `A`, CUD `B`, CUF `C`, CUB `D` and CHA `G`, from section 8.3 of ECMA-48.
- `BufferStrings` (`buffer_string.dfy`): the class `BufferString`. Each field the source updates is a field here, and each mutating method has a `modifies` frame on exactly those fields.
- `BackwardBigWords` (`backward_big_word.dfy`): `BackwardBigWord.accept` as a method with two loops, proved against a specification function.

Notes on behaviour the code has and the model keeps:

- `delete` does not move the cursor. Writing a string and then deleting the same range therefore restores the line (`Text.DeleteUndoesInsert`) but not the cursor.
- One might expect row(P) == row(P-1) whenever P mod W != 0. The code does not satisfy that. With width 4, position 5 is on the second row and position 4 on the first. What holds is that row(P) == row(P-1) exactly when (P-1) mod W != 0 (`CursorMoves.RowStepBack`). The counterexample is `CursorMoves.RowStepBackCounterexample`.
- In vi mode on an empty line, a positive move is clamped to -1, which puts the cursor at -1 (`CursorMoves.ViMoveOnEmptyLine`).
- Under the zero mask, `write(String)` inserts at the shown cursor, which is 0. Text written on a non-empty line therefore goes to the front (`BufferStrings.ZeroMaskedWritePrepends`). `write(char)` inserts at the real cursor.
- Under the zero mask, `move` sets the real cursor to the shown cursor (0) plus the clamped move. The real cursor is therefore 0 or 1 after any move. On an empty line, a move right puts the real cursor at 1, past the end of the real line (`BufferStrings.ZeroMaskedMoveLeavesLine`). The next `write(char)` then inserts at 1 in an empty `StringBuilder`, which throws.
- `BackwardBigWord.accept` puts a cursor that lies past the end on the last character (`length - 1`), not on the end. On an empty buffer that start is -1, and the motion returns -1.

## Model

| member | source | states |
|---|---|---|
| Text.InsertAt | src/main/java/org/jboss/aesh/readline/BufferString.java:424-426 | inserting at an offset keeps the text before it, puts the new text there, and shifts the rest |
| Text.DeleteRange | src/main/java/org/jboss/aesh/readline/BufferString.java:419-422 | deleting `[start, end)` removes exactly that range; an end past the line is cut back to the line's end |
| Text.DeleteUndoesInsert | src/main/java/org/jboss/aesh/readline/BufferString.java:419-426 | deleting exactly the inserted range gives the original line back |
| Text.SetCharAt | src/main/java/org/jboss/aesh/readline/BufferString.java:494-501 | replacing one character changes that position only |
| Text.IndexOf | src/main/java/org/jboss/aesh/readline/BufferString.java:503-509 | the result is -1 exactly when the character is absent; otherwise it is the first position holding it |
| Text.NatToString | src/main/java/org/jboss/aesh/readline/BufferString.java:238 | the decimal rendering of a count is one or more digits, with no leading zero except for 0 itself |
| Text.NatToStringRoundTrip | src/main/java/org/jboss/aesh/readline/BufferString.java:238-258 | reading the digits of an escape parameter back gives the number |
| Text.IntToString | src/main/java/org/jboss/aesh/readline/BufferString.java:238-258 | the text `int + "B"` concatenates: non-empty, starting with `-` exactly for a negative number, with no leading zero except for 0 itself, and the rest is digits that read back as the number's magnitude |
| Text.EndsWith | src/main/java/org/jboss/aesh/readline/BufferString.java:165 | a text ends with a suffix exactly when it is some prefix of it followed by the suffix |
| Text.EndsWithAppend | src/main/java/org/jboss/aesh/readline/BufferString.java:164-168 | any text followed by the suffix ends with it |
| Text.SwapCase | src/main/java/org/jboss/aesh/readline/BufferString.java:482-486 | a letter becomes the same letter in the other case; any other character is unchanged |
| Text.SwapCaseInvolution | src/main/java/org/jboss/aesh/readline/BufferString.java:480-492 | changing the case twice gives the original character |
| Ansi.ExpandTabsLength | src/main/java/org/jboss/aesh/readline/BufferString.java:307-315 | the length found by the first loop (4 per tab, 1 per other character) is the length of the written body |
| Ansi.ExpandTabsAppend | src/main/java/org/jboss/aesh/readline/BufferString.java:321-329 | the body is written character by character, in order |
| Ansi.ExpandTabsWithoutTabs | src/main/java/org/jboss/aesh/readline/BufferString.java:321-329 | a body without tabs is copied unchanged |
| Ansi.ExpandTabsRemovesTabs | src/main/java/org/jboss/aesh/readline/BufferString.java:322-324 | no tab is left in the written body |
| Ansi.EscapeFormat | src/main/java/org/jboss/aesh/readline/BufferString.java:304-332 | with ANSI on, the result is ESC, `[`, then the widened body, of length 2 plus the counted length; with ANSI off it is empty |
| Ansi.Fill | src/main/java/org/jboss/aesh/readline/BufferString.java:323 | `Arrays.fill` sets the range and leaves every other slot unchanged |
| Ansi.PrintAnsi | src/main/java/org/jboss/aesh/readline/BufferString.java:294-332 | the array built by the two loops is exactly the escape sequence `Escape(ansi, out)` |
| Ansi.FillBody | src/main/java/org/jboss/aesh/readline/BufferString.java:320-329 | from index 2 on, the array holds the widened body; `ESC [` is untouched |
| Ansi.StoreExpanded | src/main/java/org/jboss/aesh/readline/BufferString.java:322-328 | one turn of the fill loop writes the character's expansion at the counter and advances the counter past it |
| CursorMoves.Row | src/main/java/org/jboss/aesh/readline/BufferString.java:211-217 | the row `move` computes for a position P > 0, with its correction for exact multiples of the width, is (P-1) div W (see `RowColumn`) |
| CursorMoves.Column | src/main/java/org/jboss/aesh/readline/BufferString.java:231-233 | the column `move` sends to CHA for a position P > 0, with 0 read as the last column, is (P-1) mod W + 1 (see `RowColumn`) |
| CursorMoves.RowColumn | src/main/java/org/jboss/aesh/readline/BufferString.java:211-233 | for a position P > 0 the row is (P-1) div W and the column is (P-1) mod W + 1 in 1..W; row times W plus column is P |
| CursorMoves.RowAtWidth | src/main/java/org/jboss/aesh/readline/BufferString.java:211-217 | a position at exactly the width stays on the first row, the same row as the position before it |
| CursorMoves.RowStepBack | src/main/java/org/jboss/aesh/readline/BufferString.java:211-217 | stepping back one position keeps the row if and only if (P-1) mod W != 0 |
| CursorMoves.RowStepBackCounterexample | src/main/java/org/jboss/aesh/readline/BufferString.java:211-217 | the weaker reading "same row whenever P mod W != 0" fails at P = 5, W = 4 |
| CursorMoves.MoveCursor | src/main/java/org/jboss/aesh/readline/BufferString.java:342-370 | from a cursor in `[0, end]`, the cursor plus the clamped move is the requested target clamped to `[0, end]`; end is the length in emacs mode and the length minus 1 in vi mode; at 0 a move of 0 or less, and at the end a positive move, yield 0 |
| CursorMoves.OverlongMoveIdempotent | src/main/java/org/jboss/aesh/readline/BufferString.java:344-353 | a move that overshoots a bound stops at the bound, and repeating it then moves nothing |
| CursorMoves.ViMoveOnEmptyLine | src/main/java/org/jboss/aesh/readline/BufferString.java:360-362 | in vi mode on an empty line a positive move is clamped to -1 |
| CursorMoves.MoveSequence | src/main/java/org/jboss/aesh/readline/BufferString.java:234-263 | the output of a move is empty exactly when ANSI is off or the clamped move is 0; its bytes are spelled out by `MoveSequenceSameRow` and `MoveSequenceOtherRow` |
| CursorMoves.EmitMove | src/main/java/org/jboss/aesh/readline/BufferString.java:211-263 | the rows, the column and the `printAnsi` calls of `move` produce `MoveSequence` |
| CursorMoves.EscapeNumber | src/main/java/org/jboss/aesh/readline/BufferString.java:238-258 | `printAnsi(n + letter)` is ESC, `[`, the digits of n, then the letter |
| CursorMoves.MoveSequenceSameRow | src/main/java/org/jboss/aesh/readline/BufferString.java:249-263 | on one row the column changes by exactly the move, and the output is `ESC[<abs(m)>D` for m < 0, `ESC[<m>C` for m > 0, and empty for 0 |
| CursorMoves.MoveSequenceOtherRow | src/main/java/org/jboss/aesh/readline/BufferString.java:231-248 | across rows the output is `ESC[<r>B` (down) or `ESC[<abs(r)>A` (up) for the row difference r, then `ESC[<c>G`; c is in 1..W and with the new row locates the target |
| CursorMoves.RowChangeBytes | src/main/java/org/jboss/aesh/readline/BufferString.java:234-247 | a row change writes `ESC [ n B` (down) or `ESC [ n A` (up) for the row distance n, then `ESC [ col G` |
| CursorMoves.MoveSequenceWithoutAnsi | src/main/java/org/jboss/aesh/readline/BufferString.java:305-306 | without ANSI a move writes nothing |
| BufferStrings.StripContinuation | src/main/java/org/jboss/aesh/readline/BufferString.java:164-168 | a line ending in `" \\"` loses only the backslash and keeps the space; any other line is kept whole |
| BufferStrings.BufferString.constructor | src/main/java/org/jboss/aesh/readline/BufferString.java:58-67 | a new buffer is empty with cursor 0 and delta 0; a missing prompt becomes the empty prompt |
| BufferStrings.BufferString.ResetWithPrompt | src/main/java/org/jboss/aesh/readline/BufferString.java:78-88 | cursor, delta and line become 0/empty, the multi-line state is cleared, and a missing prompt becomes the empty prompt |
| BufferStrings.BufferString.Reset | src/main/java/org/jboss/aesh/readline/BufferString.java:93-101 | as the reset above, keeping the prompt |
| BufferStrings.BufferString.Length | src/main/java/org/jboss/aesh/readline/BufferString.java:115-120 | under the zero mask the length is 1 and the shown line is empty; otherwise it is the length of the shown line, which equals the real line's |
| BufferStrings.BufferString.GetPrompt | src/main/java/org/jboss/aesh/readline/BufferString.java:141-146 | on a multi-line input the prompt is the two-column continuation prompt, which does not mask; otherwise it is the buffer's prompt |
| BufferStrings.BufferString.TotalLength | src/main/java/org/jboss/aesh/readline/BufferString.java:122-128 | in every masking mode, the total length is the shown line plus the prompt width (0 when disabled) plus 1 |
| BufferStrings.BufferString.GetCursor | src/main/java/org/jboss/aesh/readline/BufferString.java:130-132 | the shown cursor is 0 under the zero mask and the real cursor otherwise; it lies on the shown line whenever the real cursor lies on the real line |
| BufferStrings.BufferString.GetCursorWithPrompt | src/main/java/org/jboss/aesh/readline/BufferString.java:134-139 | the column is past the shown cursor, and its distance to the total length is the number of shown characters after the cursor |
| BufferStrings.BufferString.UpdatePrompt | src/main/java/org/jboss/aesh/readline/BufferString.java:103-110 | with input on the line only the prompt changes; on an empty line it is a reset with the new prompt |
| BufferStrings.BufferString.SetCursor | src/main/java/org/jboss/aesh/readline/BufferString.java:148-150 | sets the real cursor and nothing else |
| BufferStrings.BufferString.SetMultiLine | src/main/java/org/jboss/aesh/readline/BufferString.java:156-158 | sets the multi-line flag and nothing else |
| BufferStrings.BufferString.DisablePrompt | src/main/java/org/jboss/aesh/readline/BufferString.java:186-188 | sets the prompt-disabled flag and nothing else |
| BufferStrings.BufferString.UpdateMultiLineBuffer | src/main/java/org/jboss/aesh/readline/BufferString.java:160-171 | the accumulator (empty if absent) gets the line appended, less the backslash of a final `" \\"`; the line is emptied and the cursor set to 0 |
| BufferStrings.BufferString.GetMultiLineBuffer | src/main/java/org/jboss/aesh/readline/BufferString.java:173-175 | the accumulated text; it must exist, since the source throws on null |
| BufferStrings.BufferString.GetLine | src/main/java/org/jboss/aesh/readline/BufferString.java:382-391 | the line as shown: the line itself without masking, one mask character per character with a non-zero mask, and nothing under the zero mask |
| BufferStrings.BufferString.GetMultiLine | src/main/java/org/jboss/aesh/readline/BufferString.java:403-409 | on a multi-line input, the accumulated text followed by the shown line; otherwise the shown line |
| BufferStrings.BufferString.GetMultiCursor | src/main/java/org/jboss/aesh/readline/BufferString.java:411-417 | the shown cursor, offset by the accumulated text's length on a multi-line input |
| BufferStrings.BufferString.Move | src/main/java/org/jboss/aesh/readline/BufferString.java:207-264 | the real cursor becomes the shown cursor plus the clamped move. Under the zero mask nothing is returned and the real cursor ends at 0 or 1 (emacs) or 0 (vi). Otherwise the result is `MoveSequence` from the old cursor-with-prompt. A cursor on the line stays on the line (emacs) or on its last character (vi) |
| BufferStrings.BufferString.GetLineFrom | src/main/java/org/jboss/aesh/readline/BufferString.java:378-380 | the part of the line from the position on; the two parts make up the line |
| BufferStrings.BufferString.SetLine | src/main/java/org/jboss/aesh/readline/BufferString.java:397-401 | the line is replaced, the cursor goes to its end, and delta is the change in length |
| BufferStrings.BufferString.Delete | src/main/java/org/jboss/aesh/readline/BufferString.java:419-422 | `[start, end)` is removed, delta is start - end, and the cursor is not touched |
| BufferStrings.BufferString.Insert | src/main/java/org/jboss/aesh/readline/BufferString.java:424-426 | the text is inserted; cursor and delta are not touched |
| BufferStrings.BufferString.WriteChar | src/main/java/org/jboss/aesh/readline/BufferString.java:442-445 | the character is inserted at the real cursor, the cursor moves past it, delta is 1, and the cursor stays on the line |
| BufferStrings.BufferString.Write | src/main/java/org/jboss/aesh/readline/BufferString.java:452-464 | an empty line becomes the string; otherwise the string is inserted at the shown cursor. The real cursor advances by its length, delta is its length, and a cursor on the line stays on it |
| BufferStrings.BufferString.Clear | src/main/java/org/jboss/aesh/readline/BufferString.java:466-469 | line empty, delta 0, cursor not touched |
| BufferStrings.BufferString.ChangeCase | src/main/java/org/jboss/aesh/readline/BufferString.java:480-492 | reports whether the shown character under the cursor is a letter; if so, that character in the other case replaces the real character there |
| BufferStrings.BufferString.ReplaceCharAtCursor | src/main/java/org/jboss/aesh/readline/BufferString.java:494-496 | the character under the shown cursor is replaced |
| BufferStrings.BufferString.ReplaceChar | src/main/java/org/jboss/aesh/readline/BufferString.java:498-501 | the character at a position on the line is replaced; a position off the line changes nothing |
| BufferStrings.BufferString.ContainRedirection | src/main/java/org/jboss/aesh/readline/BufferString.java:503-505 | true exactly when the line contains `>` |
| BufferStrings.BufferString.GetRedirectionPosition | src/main/java/org/jboss/aesh/readline/BufferString.java:507-509 | -1 exactly when there is no `>`; otherwise the position of the first `>` |
| BufferStrings.ZeroMaskHidesLine | src/main/java/org/jboss/aesh/readline/BufferString.java:115-132 | under the zero mask: length 1, shown cursor 0, shown line empty, and cursor-with-prompt equal to the total length |
| BufferStrings.CursorWithinTotalLength | src/main/java/org/jboss/aesh/readline/BufferString.java:115-139 | without the zero mask, a cursor on the line is at least 1 with the prompt, and its distance to the total length is the number of characters after it |
| BufferStrings.MultiCursorSplitsMultiLine | src/main/java/org/jboss/aesh/readline/BufferString.java:403-417 | without masking, the multi-line text up to the multi-line cursor is the accumulated text followed by the line up to the cursor |
| BufferStrings.ZeroMaskedWritePrepends | src/main/java/org/jboss/aesh/readline/BufferString.java:452-464 | under the zero mask, `write(String)` on a non-empty line puts the text in front of the real line, and the real cursor still advances by its length |
| BufferStrings.ZeroMaskedMoveLeavesLine | src/main/java/org/jboss/aesh/readline/BufferString.java:207-229 | on an empty zero-masked line, a move right leaves the real cursor at 1, past the end of the real line |
| BufferStrings.ZeroMaskedSession | src/main/java/org/jboss/aesh/readline/BufferString.java:221-229 | after writes, moves and a delete under the zero mask, the length is still 1, the cursor 0, and the moves printed nothing |
| BackwardBigWords.IsSpace | src/main/java/org/aesh/readline/action/mappings/BackwardBigWord.java:46-49 | a character is whitespace exactly when it is one of the ASCII characters `Character.isWhitespace` accepts: tab, line feed, vertical tab, form feed, carriage return, 0x1C to 0x1F, and space |
| BackwardBigWords.StartCursor | src/main/java/org/aesh/readline/action/mappings/BackwardBigWord.java:42-43 | the start never lies past the end or right of the cursor; a cursor up to the end is kept, and one past the end goes to the last character |
| BackwardBigWords.SkipBack | src/main/java/org/aesh/readline/action/mappings/BackwardBigWord.java:46-50 | one phase stops between 0 and its start; every character it passed is of the skipped kind, and the character before where it stopped is not |
| BackwardBigWords.Target | src/main/java/org/aesh/readline/action/mappings/BackwardBigWord.java:42-50 | from a start in range, the target is between 0 and the start, at 0 or just after whitespace; a positive target is on a non-whitespace character, the first of a word |
| BackwardBigWords.Accept | src/main/java/org/aesh/readline/action/mappings/BackwardBigWord.java:38-53 | the two loops compute `Target`. From a start in range the result is between 0 and the start, at 0 or just after whitespace; the buffer is only read |
| BackwardBigWords.TwoPhases | src/main/java/org/aesh/readline/action/mappings/BackwardBigWord.java:45-50 | with p where the whitespace skip stops: `[p, c)` is all whitespace, `[r, p)` has no whitespace, and neither phase could go further |
| BackwardBigWords.TwoPhasesDetermineTarget | src/main/java/org/aesh/readline/action/mappings/BackwardBigWord.java:45-50 | any pair of stops with those properties is the one the motion finds |
| BackwardBigWords.SkipBackStopsAt | src/main/java/org/aesh/readline/action/mappings/BackwardBigWord.java:46-50 | a phase stops at the first position below which its run ends |
| BackwardBigWords.FixedPointAtZero | src/main/java/org/aesh/readline/action/mappings/BackwardBigWord.java:46-49 | a cursor at 0 stays at 0 |
| BackwardBigWords.PastTheEnd | src/main/java/org/aesh/readline/action/mappings/BackwardBigWord.java:42-43 | from a cursor past the end the result is between 0 and the last character; on an empty buffer it is -1 |
| BackwardBigWords.WorkedExample | src/main/java/org/aesh/readline/action/mappings/BackwardBigWord.java:46-52 | on `"foo  bar"`, cursor 8 goes to 5 and cursor 5 goes to 0 |

## Left out

- `getLineWithPrompt` is not modelled. It renders the prompt through `Parser.fromCodePoints` and `Prompt.getPromptAsString`, which are not part of this model.
- The logging calls in `move` are left out because they only write to the log.
- The private helpers `moveToColumn` and `moveToRowAndColumn` are left out because nothing calls them.
- The overloads are folded into one member. `move(move, width)` is `Move` with `viMode` false. `printAnsi(String)` is `PrintAnsi` on the string's characters. `BufferString(ansi)` and `BufferString(prompt)` are the constructor with no prompt, or with ANSI on.
- The plain getters are read as fields and have no members of their own. These are `isMultiLine`, `isMasking`, `isPromptDisabled`, `getDelta` and `getLineNoMask`.
- In the source, `ansi` is a static flag shared by every buffer, and the most recently constructed buffer sets it. Here it is a field of each buffer, so that sharing is not modelled.
- MoveCursor: integers are unbounded. Java's 32-bit `getCursor() + move` wraps when a requested move is within the line length of 2^31, and the model does not reproduce that. Only such absurd moves give a different clamp.
- BufferString.Move: requires a positive terminal width. The source divides by the width, so a zero width throws. Negative widths are not modelled.
- Where Java throws, the model states a `requires` instead of an error result, because the source never catches these. This covers `StringBuilder` index errors in `insert`, `delete`, `setCharAt`, `charAt` and `substring`, and a null accumulator in `getMultiLineBuffer`, `getMultiLine` and `getMultiCursor`.
- BufferString.UpdatePrompt: requires a prompt when the line is non-empty. With a null prompt the source stores null. The next call that reads the prompt then throws: `isMasking`, `length`, `totalLength`, `getCursor`, `getCursorWithPrompt`, `getLine`, `getMultiLine`, `getMultiCursor`, `move`, `changeCase`, `replaceChar(c)`, and `write(String)` on a non-empty line. `getPrompt` on a single-line input does not throw: it returns the null prompt, and its callers then dereference it (`getLineWithPrompt`). The calls that touch only the line and cursor still work. These are `write(char)`, `delete`, `insert`, `setLine`, `clear`, `getLineFrom`, `replaceChar(c, pos)` and the redirection queries. `reset()` replaces a null prompt with an empty one. The model's prompt is never null, so that guard has no counterpart here.
- The prompt is abstract: a width, a masking flag and a mask character. Its text and styling are not modelled.
- Letter and case tests (`Character.isLetter`, `isLowerCase`, `toUpperCase`, `toLowerCase`) are modelled on ASCII only. The same goes for the whitespace test of the big-word motion. `BackwardBigWord` inherits `isSpace` from `ChangeAction`, whose body is not part of this model, and it is taken to be `Character.isWhitespace`. Java's `char` is a UTF-16 unit, and a Dafny `char` is a Unicode scalar value.
- `InputProcessor`, `Buffer` and `ChangeAction.apply` are not part of this model. `Accept` takes the buffer text and cursor as arguments and returns the new cursor, which `apply` would receive.
