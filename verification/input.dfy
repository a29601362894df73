/**
  How the moderator's keyboard and mouse input becomes round-engine events.

  A digit key names an answer by its 1-based rank, the X key is a strike,
  and a left click reveals the answer drawn in the box under the cursor at
  the time the click is handled (not necessarily where it was pressed).
  The boxes are laid out by the board drawing, one column for up to four
  answers and two columns otherwise; what matters to the engine is which
  answer each box stands for, so the pixel geometry is reduced to a
  (column, row) cell per box.
 */
module Input {
  import opened Text
  import opened Engine

  /** One drawn answer box: the answer it shows and the grid cell it occupies. */
  datatype Slot = Slot(index: nat, column: nat, row: nat)

  /** Boxes of the single-column layout, from answer `i` down. */
  function OneColumn(i: nat, n: nat): (slots: seq<Slot>)
    decreases n - i
    ensures |slots| == if i <= n then n - i else 0
    ensures forall k :: 0 <= k < |slots| ==> slots[k] == Slot(i + k, 0, i + k)
  {
    if i >= n then [] else [Slot(i, 0, i)] + OneColumn(i + 1, n)
  }

  /** Boxes of the two-column layout from `row` down: left box first, then right. */
  function TwoColumns(row: nat, rows: nat, n: nat): (slots: seq<Slot>)
    requires rows == (n + 1) / 2 && row <= rows
    decreases rows - row
    ensures |slots| == if 2 * row <= n then n - 2 * row else 0
    ensures forall k :: 0 <= k < |slots| ==>
              slots[k] == Slot(2 * row + k, (2 * row + k) % 2, (2 * row + k) / 2)
  {
    if row == rows then []
    else
      var left := if 2 * row < n then [Slot(2 * row, 0, row)] else [];
      var right := if 2 * row + 1 < n then [Slot(2 * row + 1, 1, row)] else [];
      left + right + TwoColumns(row + 1, rows, n)
  }

  /**
    The boxes of a board of `n` answers in the order the drawing appends
    them: box `k` always shows answer `k`, and no two boxes share a cell.
   */
  function BoardSlots(n: nat): (slots: seq<Slot>)
    ensures |slots| == n
    ensures forall k :: 0 <= k < n ==> slots[k].index == k
    ensures forall j, k :: 0 <= j < k < n ==>
              (slots[j].column, slots[j].row) != (slots[k].column, slots[k].row)
  {
    if n > 4 then TwoColumns(0, (n + 1) / 2, n) else OneColumn(0, n)
  }

  /**
    One input event of a frame. `Key` carries the typed text and whether the
    key was X; `Click` is a left click, given by the cell under the cursor
    when the click is handled, which for clicks queued earlier in the frame
    may differ from where the button went down (a cell that no box occupies
    when the cursor is between boxes).
   */
  datatype Input = Key(text: string, isX: bool) | Click(column: int, row: int)

  /**
    A digit key reveals the answer of that rank (so `0` names rank 0, which
    no answer has); otherwise X strikes; any other key does nothing.
   */
  function KeyEvents(text: string, isX: bool): (es: seq<Event>)
    ensures |es| <= 1
    ensures IsDigits(text) ==> es == [Reveal(DigitsValue(text) - 1)]
    ensures !IsDigits(text) && isX ==> es == [Strike]
    ensures !IsDigits(text) && !isX ==> es == []
  {
    if IsDigits(text) then [Reveal(DigitsValue(text) - 1)]
    else if isX then [Strike]
    else []
  }

  /** A click reveals the answer of every box under the cursor, in drawing order. */
  function ClickEvents(slots: seq<Slot>, column: int, row: int): (es: seq<Event>)
    ensures |es| <= |slots|
    ensures forall k :: 0 <= k < |es| ==> es[k].Reveal?
  {
    if slots == [] then []
    else
      var here := if slots[0].column == column && slots[0].row == row then [Reveal(slots[0].index)] else [];
      here + ClickEvents(slots[1..], column, row)
  }

  /** The events of one input. */
  function InputEvents(n: nat, input: Input): (es: seq<Event>)
    ensures |es| <= 1
  {
    match input
    case Key(text, isX) => KeyEvents(text, isX)
    case Click(column, row) =>
      ClickAtMostOne(BoardSlots(n), column, row);
      ClickEvents(BoardSlots(n), column, row)
  }

  /** The event batch of one frame's inputs on a board of `n` answers. */
  function Decode(n: nat, inputs: seq<Input>): (es: seq<Event>)
    ensures |es| <= |inputs|
  {
    if inputs == [] then [] else InputEvents(n, inputs[0]) + Decode(n, inputs[1..])
  }

  /**
    A frame's events are its inputs' events in arrival order: decoding two
    runs of input one after the other is decoding them together.
   */
  lemma {:induction false} DecodeAppend(n: nat, a: seq<Input>, b: seq<Input>)
    ensures Decode(n, a + b) == Decode(n, a) + Decode(n, b)
  {
    if a == [] {
      assert a + b == b;
    } else {
      assert (a + b)[1..] == a[1..] + b;
      DecodeAppend(n, a[1..], b);
    }
  }

  /** A frame of one input yields exactly that input's events. */
  lemma DecodeSingle(n: nat, input: Input)
    ensures Decode(n, [input]) == InputEvents(n, input)
  {
  }

  /** A click on the cell of box `k`, and nowhere else, reveals answer `k` exactly once. */
  lemma {:induction false} ClickOnBox(n: nat, k: nat)
    requires k < n
    ensures var s := BoardSlots(n)[k];
      ClickEvents(BoardSlots(n), s.column, s.row) == [Reveal(k)]
  {
    var slots := BoardSlots(n);
    ClickOnly(slots, k);
  }

  lemma {:induction false} ClickOnly(slots: seq<Slot>, k: nat)
    requires k < |slots|
    requires forall j, i :: 0 <= j < i < |slots| ==>
               (slots[j].column, slots[j].row) != (slots[i].column, slots[i].row)
    ensures ClickEvents(slots, slots[k].column, slots[k].row) == [Reveal(slots[k].index)]
  {
    var c, r := slots[k].column, slots[k].row;
    if k == 0 {
      ClickMisses(slots[1..], c, r);
    } else {
      assert (slots[0].column, slots[0].row) != (c, r);
      ClickOnly(slots[1..], k - 1);
    }
  }

  /** Boxes never share a cell, so one click reveals at most one answer. */
  lemma {:induction false} ClickAtMostOne(slots: seq<Slot>, column: int, row: int)
    requires forall j, i :: 0 <= j < i < |slots| ==>
               (slots[j].column, slots[j].row) != (slots[i].column, slots[i].row)
    ensures |ClickEvents(slots, column, row)| <= 1
  {
    if slots != [] {
      if slots[0].column == column && slots[0].row == row {
        assert forall i :: 1 <= i < |slots| ==> (slots[i].column, slots[i].row) != (column, row);
        ClickMisses(slots[1..], column, row);
      } else {
        ClickAtMostOne(slots[1..], column, row);
      }
    }
  }

  lemma {:induction false} ClickMisses(slots: seq<Slot>, column: int, row: int)
    requires forall i :: 0 <= i < |slots| ==> (slots[i].column, slots[i].row) != (column, row)
    ensures ClickEvents(slots, column, row) == []
  {
    if slots != [] {
      ClickMisses(slots[1..], column, row);
    }
  }

  /**
    Keyboard and mouse agree: pressing the digit of rank `k + 1` and clicking
    the box of answer `k` produce the same event.
   */
  lemma KeyMatchesClick(n: nat, k: nat)
    requires k < n && k < 9
    ensures var s := BoardSlots(n)[k];
      KeyEvents([DigitChar(k + 1)], false) == InputEvents(n, Click(s.column, s.row))
  {
    ClickOnBox(n, k);
    var key := [DigitChar(k + 1)];
    assert key[..0] == [];
    assert IsDigits(key) && DigitsValue(key) == k + 1;
  }

  /** The `0` key names no answer: it leaves every round state as it is. */
  lemma ZeroKeyIgnored(r: Round, isX: bool)
    ensures Batch(r, KeyEvents("0", isX)) == r
  {
    assert "0"[..0] == [];
    assert KeyEvents("0", isX) == [Reveal(-1)];
  }
}
