/**
 * The text arithmetic of the keypad in app.js: the new input value and the
 * new cursor position computed by `insertTextAtCursor`, `backSpace` and
 * `shiftCursor` before they are written back to the input element.
 *
 * A selection is the pair (`selectionStart`, `selectionEnd`); the browser
 * keeps `start <= end <= |value|`, which is what `ValidSelection` states.
 */
module Editing {

  /** An input's new value and the position the cursor is put at. */
  datatype Edit = Edit(value: string, cursor: int)

  /** A selection the browser can report for `value`. */
  predicate ValidSelection(value: string, start: nat, end: nat)
  {
    start <= end <= |value|
  }

  function Clamp(i: int, len: nat): (c: nat)
    ensures c <= len
    ensures 0 <= i <= len ==> c == i
  {
    if i < 0 then 0 else if i > len then len else i
  }

  /** `String.prototype.substring`: both bounds clamped to the string, swapped when reversed. */
  function Substring(s: string, a: int, b: int): (r: string)
    ensures 0 <= a <= b <= |s| ==> r == s[a..b]
    ensures 0 <= b <= a <= |s| ==> r == s[b..a]
  {
    var x, y := Clamp(a, |s|), Clamp(b, |s|);
    if x <= y then s[x..y] else s[y..x]
  }

  /** Whether the text ends in an empty pair of parentheses, as `"sin()"` does. */
  predicate EndsWithCall(text: string)
  {
    |text| >= 2 && text[|text| - 2] == '(' && text[|text| - 1] == ')'
  }

  /**
   * `insertTextAtCursor`: the text replaces the selection; the cursor lands
   * after it, or between the parentheses of a trailing `()` when
   * `takeInPara` holds.
   */
  function InsertAtCursor(value: string, start: nat, end: nat, text: string, takeInPara: bool): (r: Edit)
    ensures ValidSelection(value, start, end) ==>
              r.value == value[..start] + text + value[end..] &&
              |r.value| == |value| - (end - start) + |text|
    ensures r.cursor == start + |text| - (if takeInPara && EndsWithCall(text) then 1 else 0)
  {
    var newValue := Substring(value, 0, start) + text + Substring(value, end, |value|);
    var cursor := start + |text|;
    Edit(newValue, if takeInPara && EndsWithCall(text) then cursor - 1 else cursor)
  }

  /**
   * `backSpace`: nothing happens at the start of the input (even with a
   * selection); a collapsed cursor deletes the character before it; a
   * selection is deleted.
   */
  function BackSpace(value: string, start: nat, end: nat): (r: Edit)
    ensures start == 0 ==> r == Edit(value, 0)
    ensures ValidSelection(value, start, end) && 0 < start == end ==>
              r == Edit(value[..start - 1] + value[end..], start - 1)
    ensures ValidSelection(value, start, end) && 0 < start < end ==>
              r == Edit(value[..start] + value[end..], start)
  {
    if start == 0 then Edit(value, 0)
    else if start == end then Edit(Substring(value, 0, start - 1) + Substring(value, end, |value|), start - 1)
    else Edit(Substring(value, 0, start) + Substring(value, end, |value|), start)
  }

  /**
   * `shiftCursor`: a collapsed cursor moves by `amount`; a selection
   * collapses to its end when `amount >= 0` and to its start otherwise.
   */
  function ShiftCursor(start: nat, end: nat, amount: int): (cursor: int)
    ensures start == end ==> cursor == start + amount
    ensures start != end ==> cursor == if amount >= 0 then end else start
  {
    var from := if amount >= 0 then end else start;
    var step := if start != end then 0 else amount;
    from + step
  }

  /** The inserted text sits at the old selection's start, and the text around it is kept. */
  lemma InsertedTextInPlace(value: string, start: nat, end: nat, text: string, takeInPara: bool)
    requires ValidSelection(value, start, end)
    ensures var r := InsertAtCursor(value, start, end, text, takeInPara);
            r.value[..start] == value[..start] &&
            r.value[start..start + |text|] == text &&
            r.value[start + |text|..] == value[end..] &&
            0 <= r.cursor <= |r.value|
  {
    var r := InsertAtCursor(value, start, end, text, takeInPara);
    assert r.value == value[..start] + text + value[end..];
  }

  /** Inserting a function call such as `"sin()"` puts the cursor between its parentheses. */
  lemma CallCursorBetweenParentheses(value: string, start: nat, end: nat, text: string)
    requires ValidSelection(value, start, end) && EndsWithCall(text)
    ensures var r := InsertAtCursor(value, start, end, text, true);
            0 < r.cursor < |r.value| && r.value[r.cursor - 1] == '(' && r.value[r.cursor] == ')'
  {
    InsertedTextInPlace(value, start, end, text, true);
    var r := InsertAtCursor(value, start, end, text, true);
    assert r.value[start..start + |text|][|text| - 1] == r.value[r.cursor];
  }

  /** Backspace after typing one character at a collapsed cursor restores the input and the cursor. */
  lemma BackSpaceUndoesInsert(value: string, p: nat, c: char, takeInPara: bool)
    requires p <= |value|
    ensures var typed := InsertAtCursor(value, p, p, [c], takeInPara);
            typed.cursor == p + 1 &&
            BackSpace(typed.value, p + 1, p + 1) == Edit(value, p)
  {
    var typed := InsertAtCursor(value, p, p, [c], takeInPara);
    assert typed.value == value[..p] + [c] + value[p..];
    assert typed.value[..p] + typed.value[p + 1..] == value;
  }

  /** Deleting a selection not at the start is inserting the empty text over it. */
  lemma BackSpaceSelectionIsEmptyInsert(value: string, start: nat, end: nat)
    requires ValidSelection(value, start, end) && 0 < start < end
    ensures BackSpace(value, start, end) == InsertAtCursor(value, start, end, "", false)
  {
    assert value[..start] + "" + value[end..] == value[..start] + value[end..];
  }
}
