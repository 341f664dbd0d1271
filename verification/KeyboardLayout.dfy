/** clients/keyboard.c: the virtual keyboard draws its keys with a row and a
    column counter, and finds the pressed key by subtracting widths from a
    linear cell number.  Both loops must mean the same keys. */
module KeyboardLayout {
  import opened CInt

  const KEY_WIDTH := 60
  const KEY_HEIGHT := 50

  datatype KeyType =
    | Default | BackSpace | Enter | Space | Switch | Symbols | Tab
    | ArrowUp | ArrowLeft | ArrowRight | ArrowDown | Style

  datatype Key = Key(keyType: KeyType, width: nat)

  datatype Layout = Layout(keys: seq<Key>, columns: nat, rows: nat)

  /** The row and column counters of redraw_handler. */
  datatype Cell = Cell(row: nat, col: nat)

  function NextCell(c: Cell, width: nat, columns: nat): Cell {
    if c.col + width >= columns then Cell(c.row + 1, 0) else Cell(c.row, c.col + width)
  }

  /** The counters when key k is drawn. */
  function CellOf(l: Layout, k: nat): Cell
    requires k <= |l.keys|
  {
    if k == 0 then Cell(0, 0) else NextCell(CellOf(l, k - 1), l.keys[k - 1].width, l.columns)
  }

  /** No key runs over the end of its row, and the last row is complete. */
  ghost predicate RowsFilled(l: Layout) {
    && l.columns > 0
    && (forall k :: 0 <= k < |l.keys| ==> CellOf(l, k).col + l.keys[k].width <= l.columns)
    && CellOf(l, |l.keys|) == Cell(l.rows, 0)
  }

  /** Width of the first k keys in cells. */
  function Offset(l: Layout, k: nat): nat
    requires k <= |l.keys|
  {
    if k == 0 then 0 else Offset(l, k - 1) + l.keys[k - 1].width
  }

  // ---------- Drawn rectangles ----------

  datatype Rect = Rect(x: int, y: int, width: int, height: int) {
    predicate Contains(px: real, py: real) {
      && x as real <= px < (x + width) as real
      && y as real <= py < (y + height) as real
    }

    predicate ContainsPixel(px: int, py: int) {
      x <= px < x + width && y <= py < y + height
    }
  }

  /** Rectangles have integer corners, so only the pixel of a point matters. */
  lemma PointAndPixel(r: Rect, px: real, py: real)
    ensures r.Contains(px, py) <==> r.ContainsPixel(px.Floor, py.Floor)
  {
  }

  function DrawnRect(l: Layout, k: nat): Rect
    requires k < |l.keys|
  {
    var c := CellOf(l, k);
    Rect(c.col * KEY_WIDTH, c.row * KEY_HEIGHT, l.keys[k].width * KEY_WIDTH, KEY_HEIGHT)
  }

  predicate InPanel(l: Layout, x: real, y: real) {
    0.0 <= x < (l.columns * KEY_WIDTH) as real && 0.0 <= y < (l.rows * KEY_HEIGHT) as real
  }

  /** The drawing loop of redraw_handler. */
  method DrawKeys(l: Layout) returns (drawn: seq<Rect>)
    ensures |drawn| == |l.keys|
    ensures forall k :: 0 <= k < |l.keys| ==> drawn[k] == DrawnRect(l, k)
  {
    drawn := [];
    var row: nat, col: nat := 0, 0;
    for i := 0 to |l.keys|
      invariant Cell(row, col) == CellOf(l, i)
      invariant |drawn| == i
      invariant forall k :: 0 <= k < i ==> drawn[k] == DrawnRect(l, k)
    {
      drawn := drawn + [Rect(col * KEY_WIDTH, row * KEY_HEIGHT, l.keys[i].width * KEY_WIDTH, KEY_HEIGHT)];
      col := col + l.keys[i].width;
      if col >= l.columns {
        row := row + 1;
        col := 0;
      }
    }
  }

  // ---------- The linear cell number ----------

  /** Number of the first cell of a row. */
  function RowStart(row: int, columns: nat): int {
    row * columns
  }

  lemma RowStartNext(row: int, columns: nat)
    ensures RowStart(row + 1, columns) == RowStart(row, columns) + columns
  {
  }

  lemma RowStartZero(columns: nat)
    ensures RowStart(0, columns) == 0
  {
  }

  lemma {:induction false} RowStartOrder(r: int, q: int, columns: nat)
    requires r <= q
    ensures RowStart(r, columns) <= RowStart(q, columns)
    decreases q - r
  {
    hide RowStart;
    if r < q {
      RowStartOrder(r, q - 1, columns);
      RowStartNext(q - 1, columns);
    }
  }

  lemma ColumnsPositive(l: Layout)
    requires RowsFilled(l)
    ensures l.columns > 0
  {
  }

  lemma {:induction false} KeyFits(l: Layout, k: nat)
    requires RowsFilled(l) && k < |l.keys|
    ensures CellOf(l, k).col + l.keys[k].width <= l.columns
  {
    hide CellOf;
  }

  /** In a filled layout the counters are the linear offset split into rows. */
  lemma {:induction false} OffsetIsCell(l: Layout, k: nat)
    requires RowsFilled(l) && k <= |l.keys|
    ensures Offset(l, k) == RowStart(CellOf(l, k).row, l.columns) + CellOf(l, k).col
    ensures CellOf(l, k).col < l.columns
  {
    hide RowStart, RowsFilled;
    RowStartZero(l.columns);
    if k > 0 {
      OffsetIsCell(l, k - 1);
      RowStartNext(CellOf(l, k - 1).row, l.columns);
      KeyFits(l, k - 1);
    } else {
      assert l.columns > 0 by { ColumnsPositive(l); }
    }
  }

  lemma {:induction false} OffsetMonotone(l: Layout, j: nat, k: nat)
    requires j <= k <= |l.keys|
    ensures Offset(l, j) <= Offset(l, k)
    decreases k - j
  {
    if j < k { OffsetMonotone(l, j, k - 1); }
  }

  lemma OffsetNext(l: Layout, k: nat)
    requires k < |l.keys|
    ensures Offset(l, k + 1) == Offset(l, k) + l.keys[k].width
  {
  }

  /** A cell belongs to key k by its linear number iff it lies in the key's
      drawn row and columns. */
  lemma CellHitIff(l: Layout, k: nat, row: nat, col: nat)
    requires RowsFilled(l) && k < |l.keys| && col < l.columns
    ensures Offset(l, k) <= RowStart(row, l.columns) + col < Offset(l, k + 1)
            <==> row == CellOf(l, k).row && CellOf(l, k).col <= col < CellOf(l, k).col + l.keys[k].width
  {
    hide RowStart, CellOf, Offset;
    OffsetIsCell(l, k);
    OffsetNext(l, k);
    var c := CellOf(l, k);
    assert c.col + l.keys[k].width <= l.columns;
    if row < c.row {
      RowStartNext(row, l.columns);
      RowStartOrder(row + 1, c.row, l.columns);
    } else if c.row < row {
      RowStartNext(c.row, l.columns);
      RowStartOrder(c.row + 1, row, l.columns);
    }
  }

  lemma {:induction false} PixelInRectIff(l: Layout, k: nat, x: nat, y: nat)
    requires k < |l.keys|
    ensures DrawnRect(l, k).ContainsPixel(x, y)
            <==> y / KEY_HEIGHT == CellOf(l, k).row
                 && CellOf(l, k).col <= x / KEY_WIDTH < CellOf(l, k).col + l.keys[k].width
  {
    hide CellOf;
  }

  /** The linear number of the cell a pixel lies in. */
  function LinearCell(l: Layout, x: nat, y: nat): int {
    x / KEY_WIDTH + RowStart(y / KEY_HEIGHT, l.columns)
  }

  predicate Owns(l: Layout, k: nat, cell: int)
    requires k < |l.keys|
  {
    Offset(l, k) <= cell < Offset(l, k + 1)
  }

  lemma OwnsIffDrawn(l: Layout, k: nat, x: nat, y: nat)
    requires RowsFilled(l) && x < l.columns * KEY_WIDTH && k < |l.keys|
    ensures Owns(l, k, LinearCell(l, x, y)) <==> DrawnRect(l, k).ContainsPixel(x, y)
  {
    CellHitIff(l, k, y / KEY_HEIGHT, x / KEY_WIDTH);
    PixelInRectIff(l, k, x, y);
  }

  /** Two keys cannot both own a cell. */
  lemma OneOwner(l: Layout, j: nat, k: nat, cell: int)
    requires j < |l.keys| && k < |l.keys| && Owns(l, j, cell) && Owns(l, k, cell)
    ensures j == k
  {
    if j < k { OffsetMonotone(l, j + 1, k); }
    if k < j { OffsetMonotone(l, k + 1, j); }
  }

  /** The cells of the panel are those below the total width. */
  lemma {:induction false} PanelCells(l: Layout, x: nat, y: nat)
    requires RowsFilled(l) && x < l.columns * KEY_WIDTH && y < l.rows * KEY_HEIGHT
    ensures 0 <= LinearCell(l, x, y) < Offset(l, |l.keys|)
  {
    hide RowStart, Offset;
    var row := y / KEY_HEIGHT;
    OffsetIsCell(l, |l.keys|);
    RowStartZero(l.columns);
    RowStartNext(row, l.columns);
    RowStartOrder(0, row, l.columns);
    RowStartOrder(row + 1, l.rows, l.columns);
  }

  /** The drawn rectangle of key k, and of no other key, contains the point. */
  ghost predicate OnlyKeyAt(l: Layout, k: int, x: real, y: real) {
    && 0 <= k < |l.keys| && DrawnRect(l, k).Contains(x, y)
    && forall j :: 0 <= j < |l.keys| && DrawnRect(l, j).Contains(x, y) ==> j == k
  }

  lemma OwnerIsOnlyKey(l: Layout, k: nat, x: real, y: real)
    requires RowsFilled(l) && InPanel(l, x, y) && k < |l.keys|
    requires Owns(l, k, LinearCell(l, x.Floor, y.Floor))
    ensures OnlyKeyAt(l, k, x, y)
  {
    hide DrawnRect, Owns, LinearCell, RowsFilled;
    var px, py := x.Floor, y.Floor;
    OwnsIffDrawn(l, k, px, py);
    PointAndPixel(DrawnRect(l, k), x, y);
    forall j | 0 <= j < |l.keys| && DrawnRect(l, j).Contains(x, y)
      ensures j == k
    {
      OwnsIffDrawn(l, j, px, py);
      PointAndPixel(DrawnRect(l, j), x, y);
      OneOwner(l, j, k, LinearCell(l, px, py));
    }
  }

  // ---------- Finding the pressed key ----------

  /** Conversion of a double to int. */
  function Truncated(x: real): int {
    if x >= 0.0 then x.Floor else -((-x).Floor)
  }

  lemma TruncatedQuotient(a: nat, b: nat, n: nat)
    requires b > 0
    ensures Truncated(a as real / b as real + n as real) == a / b + n
  {
    var q, r := a / b, a % b;
    assert a as real / b as real == q as real + r as real / b as real;
    assert 0.0 <= r as real / b as real < 1.0;
  }

  /** The search loop shared by the button and touch handlers. */
  method FindKey(l: Layout, cell: int) returns (found: int)
    requires 0 <= cell < Offset(l, |l.keys|)
    ensures 0 <= found < |l.keys| && Owns(l, found, cell)
  {
    var col := cell;
    found := -1;
    for i := 0 to |l.keys|
      invariant col == cell - Offset(l, i) >= 0
    {
      col := col - l.keys[i].width;
      if col < 0 {
        return i;
      }
    }
  }

  /** button_handler: inside the panel of a filled layout the key found is the
      one drawn at the pixel. */
  method KeyAt(l: Layout, x: nat, y: nat) returns (found: int)
    requires RowsFilled(l) && InPanel(l, x as real, y as real)
    ensures OnlyKeyAt(l, found, x as real, y as real)
  {
    hide RowsFilled, OnlyKeyAt;
    var col := CellAt(l, x, y);
    PanelCells(l, x, y);
    found := FindKey(l, col);
    OwnerIsOnlyKey(l, found, x as real, y as real);
  }

  /** The linear cell number, computed with doubles as the handlers do. */
  method CellAt(l: Layout, x: nat, y: nat) returns (col: int)
    ensures col == LinearCell(l, x, y)
  {
    TruncatedQuotient(y, KEY_HEIGHT, 0);
    TruncatedQuotient(x, KEY_WIDTH, y / KEY_HEIGHT * l.columns);
    hide Truncated;
    var row := Truncated(y as real / KEY_HEIGHT as real);
    col := Truncated(x as real / KEY_WIDTH as real + (row * l.columns) as real);
  }

  /** touch_handler truncates the position first; the key is still the one drawn
      at the exact point. */
  method KeyTouched(l: Layout, x: real, y: real) returns (found: int)
    requires RowsFilled(l) && InPanel(l, x, y)
    ensures OnlyKeyAt(l, found, x, y)
  {
    hide DrawnRect, RowsFilled;
    var px, py := Truncated(x), Truncated(y);
    found := KeyAt(l, px, py);
    SamePixelSameKey(l, found, x, y);
  }

  lemma SamePixelSameKey(l: Layout, k: int, x: real, y: real)
    ensures OnlyKeyAt(l, k, x, y) <==> OnlyKeyAt(l, k, x.Floor as real, y.Floor as real)
  {
    hide DrawnRect;
    forall j | 0 <= j < |l.keys|
      ensures DrawnRect(l, j).Contains(x, y) <==> DrawnRect(l, j).Contains(x.Floor as real, y.Floor as real)
    {
      PointAndPixel(DrawnRect(l, j), x, y);
      PointAndPixel(DrawnRect(l, j), x.Floor as real, y.Floor as real);
    }
  }

  lemma {:induction false} OwnerExists(l: Layout, cell: int, n: nat) returns (k: nat)
    requires n <= |l.keys| && 0 <= cell < Offset(l, n)
    ensures k < n && Owns(l, k, cell)
  {
    if Offset(l, n - 1) <= cell { k := n - 1; } else { k := OwnerExists(l, cell, n - 1); }
  }

  /** A key drawn with some width lies in one of the rows. */
  lemma {:induction false} RowInside(l: Layout, k: nat)
    requires RowsFilled(l) && k < |l.keys| && l.keys[k].width > 0
    ensures CellOf(l, k).row < l.rows
  {
    OffsetIsCell(l, k);
    OffsetIsCell(l, |l.keys|);
    OffsetMonotone(l, k + 1, |l.keys|);
    if l.rows <= CellOf(l, k).row {
      RowStartOrder(l.rows, CellOf(l, k).row, l.columns);
    }
  }

  lemma DrawnInside(l: Layout, k: nat, x: real, y: real)
    requires RowsFilled(l) && k < |l.keys| && DrawnRect(l, k).Contains(x, y)
    ensures InPanel(l, x, y)
  {
    var c := CellOf(l, k);
    RowInside(l, k);
    assert c.col + l.keys[k].width <= l.columns;
    hide CellOf, RowsFilled;
    assert (c.row + 1) * KEY_HEIGHT <= l.rows * KEY_HEIGHT;
    assert (c.col + l.keys[k].width) * KEY_WIDTH <= l.columns * KEY_WIDTH;
  }

  /** The rectangles tile the panel: a point is in the panel iff exactly one
      rectangle contains it. */
  lemma RectanglesPartitionPanel(l: Layout, x: real, y: real)
    requires RowsFilled(l)
    ensures InPanel(l, x, y) <==> exists k :: OnlyKeyAt(l, k, x, y)
    ensures !InPanel(l, x, y) ==> forall k :: 0 <= k < |l.keys| ==> !DrawnRect(l, k).Contains(x, y)
  {
    hide DrawnRect, RowsFilled, LinearCell;
    if InPanel(l, x, y) {
      PanelCells(l, x.Floor, y.Floor);
      var k := OwnerExists(l, LinearCell(l, x.Floor, y.Floor), |l.keys|);
      OwnerIsOnlyKey(l, k, x, y);
    } else {
      forall k | 0 <= k < |l.keys|
        ensures !DrawnRect(l, k).Contains(x, y)
      {
        if DrawnRect(l, k).Contains(x, y) { DrawnInside(l, k, x, y); }
      }
    }
  }

  // ---------- The three layouts ----------

  /** Enough to check about a table: the counters, run over its keys. */
  predicate Fills(keys: seq<Key>, columns: nat, c: Cell, rows: nat) {
    if keys == [] then c == Cell(rows, 0)
    else c.col + keys[0].width <= columns && Fills(keys[1..], columns, NextCell(c, keys[0].width, columns), rows)
  }

  lemma {:induction false} FillsFrom(l: Layout, k: nat)
    requires k <= |l.keys| && Fills(l.keys[k..], l.columns, CellOf(l, k), l.rows)
    ensures forall j :: k <= j < |l.keys| ==> CellOf(l, j).col + l.keys[j].width <= l.columns
    ensures CellOf(l, |l.keys|) == Cell(l.rows, 0)
    decreases |l.keys| - k
  {
    if k < |l.keys| {
      assert l.keys[k..][1..] == l.keys[k + 1..];
      FillsFrom(l, k + 1);
    }
  }

  lemma FillsImpliesRowsFilled(l: Layout)
    requires l.columns > 0 && Fills(l.keys, l.columns, Cell(0, 0), l.rows)
    ensures RowsFilled(l)
  {
    assert l.keys[0..] == l.keys;
    FillsFrom(l, 0);
  }

  const LETTER := Key(Default, 1)

  function Letters(n: nat): seq<Key> {
    seq(n, _ => LETTER)
  }

  const ARROWS := [Key(ArrowUp, 1), Key(ArrowLeft, 1)] + [Key(ArrowRight, 1), Key(ArrowDown, 1)]

  const NORMAL_ROWS: seq<seq<Key>> := [
    Letters(10) + [Key(BackSpace, 2)],
    [Key(Tab, 1)] + Letters(9) + [Key(Enter, 2)],
    [Key(Switch, 2)] + Letters(9) + [Key(Switch, 1)],
    [Key(Symbols, 1), Key(Space, 5)] + ARROWS + [Key(Style, 2)]
  ]

  const NUMERIC_ROWS: seq<seq<Key>> := [
    Letters(10) + [Key(BackSpace, 2)],
    [Key(Space, 4), Key(Enter, 2)] + ARROWS + [Key(Style, 2)]
  ]

  /** The table breaks its lines after the first BackSpace; on screen the Tab key
      that follows completes that row. */
  const ARABIC_ROWS: seq<seq<Key>> := [
    Letters(10) + [Key(BackSpace, 2), Key(Tab, 1)],
    Letters(11) + [Key(Enter, 2)],
    [Key(Switch, 2)] + Letters(9) + [Key(Switch, 2)],
    [Key(Symbols, 1)] + Letters(2) + [Key(Space, 6)] + Letters(2) + [Key(Style, 2)]
  ]

  function Flat(rows: seq<seq<Key>>): seq<Key> {
    if rows == [] then [] else rows[0] + Flat(rows[1..])
  }

  const NORMAL := Layout(Flat(NORMAL_ROWS), 12, 4)
  const NUMERIC := Layout(Flat(NUMERIC_ROWS), 12, 2)
  const ARABIC := Layout(Flat(ARABIC_ROWS), 13, 4)

  function Width(keys: seq<Key>): nat {
    if keys == [] then 0 else keys[0].width + Width(keys[1..])
  }

  lemma {:induction false} WidthAppend(s: seq<Key>, t: seq<Key>)
    ensures Width(s + t) == Width(s) + Width(t)
    decreases |s|
  {
    if s == [] {
      assert s + t == t;
    } else {
      assert (s + t)[1..] == s[1..] + t;
      WidthAppend(s[1..], t);
    }
  }

  lemma {:induction false} WidthLetters(n: nat)
    ensures Width(Letters(n)) == n
  {
    if n > 0 {
      assert Letters(n)[1..] == Letters(n - 1);
      WidthLetters(n - 1);
    }
  }

  /** The width of a row made of a few keys, letters, and a few more keys. */
  lemma {:induction false} RowWidth(s: seq<Key>, n: nat, t: seq<Key>)
    ensures Width(s + Letters(n) + t) == Width(s) + n + Width(t)
  {
    WidthLetters(n);
    WidthAppend(s, Letters(n));
    WidthAppend(s + Letters(n), t);
  }

  /** Rows whose last key is not empty and whose widths sum to the columns fill. */
  lemma {:induction false} FullRowsFill(rows: seq<seq<Key>>, columns: nat, row: nat)
    requires columns > 0
    requires forall r :: 0 <= r < |rows| ==> FullRow(rows[r], columns)
    ensures Fills(Flat(rows), columns, Cell(row, 0), row + |rows|)
    decreases |rows|
  {
    if rows != [] {
      FullRowsFill(rows[1..], columns, row + 1);
      RestOfRowFills(rows[0], Flat(rows[1..]), columns, Cell(row, 0), row + |rows|);
    }
  }

  lemma {:induction false} RestOfRowFills(keys: seq<Key>, more: seq<Key>, columns: nat, c: Cell, rows: nat)
    requires keys != [] && c.col + Width(keys) == columns && (forall k :: k in keys ==> k.width > 0)
    requires Fills(more, columns, Cell(c.row + 1, 0), rows)
    ensures Fills(keys + more, columns, c, rows)
    decreases |keys|
  {
    assert (keys + more)[1..] == keys[1..] + more;
    if |keys| == 1 {
      assert keys[1..] + more == more;
    } else {
      assert keys[0] in keys;
      assert Width(keys[1..]) == keys[1].width + Width(keys[2..]) by { assert keys[1..][1..] == keys[2..]; }
      assert keys[1] in keys;
      RestOfRowFills(keys[1..], more, columns, NextCell(c, keys[0].width, columns), rows);
    }
  }

  predicate FullRow(keys: seq<Key>, columns: nat) {
    Width(keys) == columns && forall k :: k in keys ==> k.width > 0
  }

  lemma NormalRowsFull()
    ensures forall r :: 0 <= r < |NORMAL_ROWS| ==> FullRow(NORMAL_ROWS[r], 12)
  {
    assert Letters(10) == [] + Letters(10);
    RowWidth([], 10, [Key(BackSpace, 2)]);
    RowWidth([Key(Tab, 1)], 9, [Key(Enter, 2)]);
    RowWidth([Key(Switch, 2)], 9, [Key(Switch, 1)]);
    WidthAppend([Key(ArrowUp, 1), Key(ArrowLeft, 1)], [Key(ArrowRight, 1), Key(ArrowDown, 1)]);
    WidthAppend([Key(Symbols, 1), Key(Space, 5)], ARROWS);
    WidthAppend([Key(Symbols, 1), Key(Space, 5)] + ARROWS, [Key(Style, 2)]);
  }

  lemma NumericRowsFull()
    ensures forall r :: 0 <= r < |NUMERIC_ROWS| ==> FullRow(NUMERIC_ROWS[r], 12)
  {
    assert Letters(10) == [] + Letters(10);
    RowWidth([], 10, [Key(BackSpace, 2)]);
    WidthAppend([Key(ArrowUp, 1), Key(ArrowLeft, 1)], [Key(ArrowRight, 1), Key(ArrowDown, 1)]);
    WidthAppend([Key(Space, 4), Key(Enter, 2)], ARROWS);
    WidthAppend([Key(Space, 4), Key(Enter, 2)] + ARROWS, [Key(Style, 2)]);
  }

  lemma ArabicRowsFull()
    ensures forall r :: 0 <= r < |ARABIC_ROWS| ==> FullRow(ARABIC_ROWS[r], 13)
  {
    assert Letters(10) == [] + Letters(10);
    assert Letters(11) == [] + Letters(11);
    RowWidth([], 10, [Key(BackSpace, 2), Key(Tab, 1)]);
    RowWidth([], 11, [Key(Enter, 2)]);
    RowWidth([Key(Switch, 2)], 9, [Key(Switch, 2)]);
    RowWidth([Key(Symbols, 1)], 2, [Key(Space, 6)]);
    RowWidth([Key(Symbols, 1)] + Letters(2) + [Key(Space, 6)], 2, [Key(Style, 2)]);
  }

  /** The normal, numeric and arabic tables meet the premise. */
  lemma ShippedLayoutsFilled()
    ensures RowsFilled(NORMAL) && RowsFilled(NUMERIC) && RowsFilled(ARABIC)
  {
    NormalRowsFull();
    NumericRowsFull();
    ArabicRowsFull();
    assert |NORMAL_ROWS| == 4 && |NUMERIC_ROWS| == 2 && |ARABIC_ROWS| == 4;
    hide NORMAL_ROWS, NUMERIC_ROWS, ARABIC_ROWS, Fills;
    FullRowsFill(NORMAL_ROWS, 12, 0);
    FullRowsFill(NUMERIC_ROWS, 12, 0);
    FullRowsFill(ARABIC_ROWS, 13, 0);
    FillsImpliesRowsFilled(NORMAL);
    FillsImpliesRowsFilled(NUMERIC);
    FillsImpliesRowsFilled(ARABIC);
  }
}
