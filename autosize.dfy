/**
  The `tableAutoSize` pass over a finished table: every cell's `width` and `height`
  (divided over the cells it spans), then per column the widest width and per row
  the tallest height, written to the table's `widths` and `heights` when there is at
  least one. Sizes are doc-definition values: numbers, the string 'auto', or whatever
  else a style or `data-pdfmake` put there.

  A JavaScript array with holes is modelled as a sequence with `undefined` in the
  holes; reading a hole gives `undefined` either way.
 */
module Autosize {
  import opened Optional
  import opened Numbers
  import opened Values

  const Auto: Value := Str("auto")

  // ---------------------------------------------------------------- one cell

  /** The size of one cell: `key` is "width" (divided when `guard` "colSpan" is truthy)
      or "height" (divided when `guard` "rowSpan" is truthy); both divide by colSpan. */
  function Size(cell: Value, key: string, guard: string): Value
    requires Readable(cell)
  {
    var given := Get(cell, key);
    var s := if given.Undefined? then Auto else given;
    if s != Auto && Truthy(Get(cell, guard)) then
      var x := ToNumberValue(s);
      if x.NaN? then Auto else Number(Divide(x, ToNumberValue(Get(cell, "colSpan"))))
    else s
  }

  predicate CellsReadable(row: Value)
    requires row.Arr?
  {
    forall k | 0 <= k < |row.items| :: Readable(row.items[k])
  }

  /** A body every row of which is an array of readable cells. */
  predicate BodyGrid(rows: seq<Value>) {
    forall i | 0 <= i < |rows| :: rows[i].Arr? && CellsReadable(rows[i])
  }

  function RowSizes(row: Value, key: string, guard: string): (r: seq<Value>)
    requires row.Arr? && CellsReadable(row)
    ensures |r| == |row.items|
  {
    seq(|row.items|, k requires 0 <= k < |row.items| => Size(row.items[k], key, guard))
  }

  function Sizes(rows: seq<Value>, key: string, guard: string): (r: seq<seq<Value>>)
    requires BodyGrid(rows)
    ensures |r| == |rows|
  {
    seq(|rows|, i requires 0 <= i < |rows| => RowSizes(rows[i], key, guard))
  }

  /** `cellsWidths` and `cellsHeights`; None when a row is not an array or a cell is
      `null` or `undefined` (the TypeError). */
  function SizesSpec(rows: seq<Value>): Option<(seq<seq<Value>>, seq<seq<Value>>)> {
    if BodyGrid(rows) then Some((Sizes(rows, "width", "colSpan"), Sizes(rows, "height", "rowSpan")))
    else None
  }

  // ---------------------------------------------------------------- the maximum folds

  /** Whether `v` takes the place of the current entry `cur` (`undefined` when unset). */
  predicate Replaces(cur: Value, v: Value) {
    cur.Undefined?
    || (v != Auto && cur.Number? && Greater(ToNumberValue(v), cur.n))
    || (v != Auto && cur == Auto)
  }

  function Step(cur: Value, v: Value): Value {
    if Replaces(cur, v) then v else cur
  }

  /** Entry `i` of an array, `undefined` past its end. */
  function Entry(t: seq<Value>, i: nat): Value {
    if i < |t| then t[i] else Undefined
  }

  function Holes(n: nat): (r: seq<Value>)
    ensures |r| == n && forall k | 0 <= k < n :: r[k] == Undefined
  {
    seq(n, _ => Undefined)
  }

  /** `t[i] = v`, which leaves holes when `i` is past the end. */
  function Put(t: seq<Value>, i: nat, v: Value): seq<Value> {
    if i < |t| then t[i := v] else t + Holes(i - |t|) + [v]
  }

  function MaxStep(t: seq<Value>, i: nat, v: Value): seq<Value> {
    if Replaces(Entry(t, i), v) then Put(t, i, v) else t
  }

  /** The widths after the first `j` cells of one row. */
  function WidthRow(t: seq<Value>, row: seq<Value>, j: nat): seq<Value>
    requires j <= |row|
  {
    if j == 0 then t else MaxStep(WidthRow(t, row, j - 1), j - 1, row[j - 1])
  }

  /** `tableWidths` after the first `n` rows of sizes. */
  function Widths(sizes: seq<seq<Value>>, n: nat): seq<Value>
    requires n <= |sizes|
  {
    if n == 0 then [] else WidthRow(Widths(sizes, n - 1), sizes[n - 1], |sizes[n - 1]|)
  }

  /** The heights after the first `j` cells of row `r`. */
  function HeightRow(t: seq<Value>, r: nat, row: seq<Value>, j: nat): seq<Value>
    requires j <= |row|
  {
    if j == 0 then t else MaxStep(HeightRow(t, r, row, j - 1), r, row[j - 1])
  }

  /** `tableHeights` after the first `n` rows of sizes. */
  function Heights(sizes: seq<seq<Value>>, n: nat): seq<Value>
    requires n <= |sizes|
  {
    if n == 0 then [] else HeightRow(Heights(sizes, n - 1), n - 1, sizes[n - 1], |sizes[n - 1]|)
  }

  /** What the pass does to `ret.table`: None when it throws. */
  function AutoSizeSpec(table: Value): Option<Value> {
    if !Readable(table) then None
    else
      var body := Get(table, "body");
      if !body.Arr? || !BodyGrid(body.items) then None
      else
        var w := Widths(Sizes(body.items, "width", "colSpan"), |body.items|);
        var h := Heights(Sizes(body.items, "height", "rowSpan"), |body.items|);
        Some(SetSizes(table, w, h))
  }

  /** `widths` and `heights` are written only when non-empty; only an object keeps them. */
  function SetSizes(table: Value, w: seq<Value>, h: seq<Value>): Value {
    if !table.Obj? then table
    else
      var p := if |w| > 0 then table.fields["widths" := Arr(w)] else table.fields;
      Obj(if |h| > 0 then p["heights" := Arr(h)] else p)
  }

  // ---------------------------------------------------------------- the imperative pass

  /** The first `forEach`: one cell's width and height. */
  method RowCells(row: Value) returns (r: Option<(seq<Value>, seq<Value>)>)
    ensures r.None? <==> !(row.Arr? && CellsReadable(row))
    ensures r.Some? ==> r.value == (RowSizes(row, "width", "colSpan"), RowSizes(row, "height", "rowSpan"))
  {
    if !row.Arr? {
      return None;
    }
    var widths: seq<Value> := [];
    var heights: seq<Value> := [];
    var k := 0;
    while k < |row.items|
      invariant 0 <= k <= |row.items| && |widths| == k == |heights|
      invariant forall q | 0 <= q < k :: Readable(row.items[q])
      invariant forall q | 0 <= q < k :: widths[q] == Size(row.items[q], "width", "colSpan")
      invariant forall q | 0 <= q < k :: heights[q] == Size(row.items[q], "height", "rowSpan")
    {
      var cell := row.items[k];
      if !Readable(cell) {
        return None;
      }
      widths := widths + [Size(cell, "width", "colSpan")];
      heights := heights + [Size(cell, "height", "rowSpan")];
      k := k + 1;
    }
    assert widths == RowSizes(row, "width", "colSpan");
    assert heights == RowSizes(row, "height", "rowSpan");
    r := Some((widths, heights));
  }

  method CellSizes(rows: seq<Value>) returns (r: Option<(seq<seq<Value>>, seq<seq<Value>>)>)
    ensures r == SizesSpec(rows)
  {
    var cellsWidths: seq<seq<Value>> := [];
    var cellsHeights: seq<seq<Value>> := [];
    var rowIndex := 0;
    while rowIndex < |rows|
      invariant 0 <= rowIndex <= |rows| && |cellsWidths| == rowIndex == |cellsHeights|
      invariant BodyGrid(rows[..rowIndex])
      invariant forall q | 0 <= q < rowIndex :: cellsWidths[q] == RowSizes(rows[q], "width", "colSpan")
      invariant forall q | 0 <= q < rowIndex :: cellsHeights[q] == RowSizes(rows[q], "height", "rowSpan")
    {
      var cells := RowCells(rows[rowIndex]);
      if cells.None? {
        assert !(rows[rowIndex].Arr? && CellsReadable(rows[rowIndex]));
        return None;
      }
      assert rows[..rowIndex + 1] == rows[..rowIndex] + [rows[rowIndex]];
      cellsWidths := cellsWidths + [cells.value.0];
      cellsHeights := cellsHeights + [cells.value.1];
      rowIndex := rowIndex + 1;
    }
    assert rows[..rowIndex] == rows;
    assert cellsWidths == Sizes(rows, "width", "colSpan");
    assert cellsHeights == Sizes(rows, "height", "rowSpan");
    r := Some((cellsWidths, cellsHeights));
  }

  /** The second `forEach`: the widest width of every column. */
  method ColumnWidths(sizes: seq<seq<Value>>) returns (t: seq<Value>)
    ensures t == Widths(sizes, |sizes|)
  {
    t := [];
    var r := 0;
    while r < |sizes|
      invariant 0 <= r <= |sizes| && t == Widths(sizes, r)
    {
      var row := sizes[r];
      ghost var start := t;
      var cellIndex := 0;
      while cellIndex < |row|
        invariant 0 <= cellIndex <= |row| && t == WidthRow(start, row, cellIndex)
      {
        t := Update(t, cellIndex, row[cellIndex]);
        cellIndex := cellIndex + 1;
      }
      r := r + 1;
    }
  }

  /** The third `forEach`: the tallest height of every row. */
  method RowHeights(sizes: seq<seq<Value>>) returns (t: seq<Value>)
    ensures t == Heights(sizes, |sizes|)
  {
    t := [];
    var rowIndex := 0;
    while rowIndex < |sizes|
      invariant 0 <= rowIndex <= |sizes| && t == Heights(sizes, rowIndex)
    {
      var row := sizes[rowIndex];
      ghost var start := t;
      var k := 0;
      while k < |row|
        invariant 0 <= k <= |row| && t == HeightRow(start, rowIndex, row, k)
      {
        t := Update(t, rowIndex, row[k]);
        k := k + 1;
      }
      rowIndex := rowIndex + 1;
    }
  }

  /** The test and assignment inside both folds. */
  method Update(t: seq<Value>, i: nat, v: Value) returns (r: seq<Value>)
    ensures r == MaxStep(t, i, v)
  {
    var cur := if i < |t| then t[i] else Undefined;
    var kind := TypeOf(cur);
    r := t;
    if kind == "undefined" || (v != Auto && kind == "number" && Greater(ToNumberValue(v), cur.n)) || (v != Auto && cur == Auto) {
      if i < |t| {
        r := t[i := v];
      } else {
        r := t + Holes(i - |t|) + [v];
      }
    }
  }

  /** The whole pass, on `ret.table`. */
  method AutoSize(table: Value) returns (r: Option<Value>)
    ensures r == AutoSizeSpec(table)
  {
    if !Readable(table) {
      return None;
    }
    var body := Get(table, "body");
    if !body.Arr? {
      return None;
    }
    var sizes := CellSizes(body.items);
    if sizes.None? {
      return None;
    }
    var tableWidths := ColumnWidths(sizes.value.0);
    var tableHeights := RowHeights(sizes.value.1);
    r := Some(SetSizes(table, tableWidths, tableHeights));
  }

  // ---------------------------------------------------------------- what the folds compute

  /** The entry a sequence of sizes settles on, from `cur`. */
  function PickFrom(cur: Value, vs: seq<Value>): Value {
    if |vs| == 0 then cur else Step(PickFrom(cur, vs[..|vs| - 1]), vs[|vs| - 1])
  }

  function Pick(vs: seq<Value>): Value {
    PickFrom(Undefined, vs)
  }

  /** Column `i` of the first `n` rows: the sizes of the rows long enough to have one. */
  function Column(sizes: seq<seq<Value>>, i: nat, n: nat): seq<Value>
    requires n <= |sizes|
  {
    if n == 0 then [] else Column(sizes, i, n - 1) + (if i < |sizes[n - 1]| then [sizes[n - 1][i]] else [])
  }

  function MaxLen(sizes: seq<seq<Value>>, n: nat): nat
    requires n <= |sizes|
  {
    if n == 0 then 0
    else if |sizes[n - 1]| > MaxLen(sizes, n - 1) then |sizes[n - 1]|
    else MaxLen(sizes, n - 1)
  }

  /** One row visits each column once, in order, and never leaves a hole. */
  lemma {:induction false} WidthRowEntries(t: seq<Value>, row: seq<Value>, j: nat)
    requires j <= |row|
    ensures var w := WidthRow(t, row, j);
      |w| == (if j > |t| then j else |t|)
      && forall i | 0 <= i < |w| :: w[i] == if i < j then Step(Entry(t, i), row[i]) else t[i]
  {
    if j > 0 {
      WidthRowEntries(t, row, j - 1);
    }
  }

  /** Width `i` is the column's sizes folded in row order, and there is one width per
      column of the longest row. */
  lemma {:induction false} WidthsAreColumns(sizes: seq<seq<Value>>, n: nat)
    requires n <= |sizes|
    ensures |Widths(sizes, n)| == MaxLen(sizes, n)
    ensures forall i | 0 <= i < |Widths(sizes, n)| :: Widths(sizes, n)[i] == Pick(Column(sizes, i, n))
  {
    if n > 0 {
      WidthsAreColumns(sizes, n - 1);
      var t := Widths(sizes, n - 1);
      var row := sizes[n - 1];
      var w := WidthRow(t, row, |row|);
      assert Widths(sizes, n) == w;
      WidthRowEntries(t, row, |row|);
      assert |w| == MaxLen(sizes, n);
      forall i | 0 <= i < |w|
        ensures w[i] == Pick(Column(sizes, i, n))
      {
        WidthColumnStep(sizes, n - 1, t, w, i);
      }
    }
  }

  lemma {:induction false} WidthColumnStep(sizes: seq<seq<Value>>, m: nat, t: seq<Value>, w: seq<Value>, i: nat)
    requires m < |sizes| && |t| == MaxLen(sizes, m)
    requires forall j | 0 <= j < |t| :: t[j] == Pick(Column(sizes, j, m))
    requires |w| == (if |sizes[m]| > |t| then |sizes[m]| else |t|)
    requires forall j | 0 <= j < |w| :: w[j] == if j < |sizes[m]| then Step(Entry(t, j), sizes[m][j]) else t[j]
    requires i < |w|
    ensures w[i] == Pick(Column(sizes, i, m + 1))
  {
    var row := sizes[m];
    assert Entry(t, i) == Pick(Column(sizes, i, m)) by {
      if i >= |t| {
        ColumnPastEnd(sizes, i, m);
      }
    }
    if i < |row| {
      var c := Column(sizes, i, m) + [row[i]];
      assert Column(sizes, i, m + 1) == c;
      assert c[..|c| - 1] == Column(sizes, i, m);
      assert Pick(c) == Step(Pick(Column(sizes, i, m)), row[i]);
      assert w[i] == Step(Entry(t, i), row[i]);
    } else {
      assert Column(sizes, i, m + 1) == Column(sizes, i, m) + [];
      assert Column(sizes, i, m) + [] == Column(sizes, i, m);
    }
  }

  lemma {:induction false} ColumnPastEnd(sizes: seq<seq<Value>>, i: nat, n: nat)
    requires n <= |sizes| && i >= MaxLen(sizes, n)
    ensures Column(sizes, i, n) == []
  {
    if n > 0 {
      ColumnPastEnd(sizes, i, n - 1);
    }
  }

  /** One row touches its own height alone. */
  lemma {:induction false} HeightRowEntries(t: seq<Value>, r: nat, row: seq<Value>, j: nat)
    requires j <= |row|
    ensures var h := HeightRow(t, r, row, j);
      |h| == (if j > 0 && r >= |t| then r + 1 else |t|)
      && Entry(h, r) == PickFrom(Entry(t, r), row[..j])
      && forall i: nat | i != r :: Entry(h, i) == Entry(t, i)
  {
    if j > 0 {
      HeightRowEntries(t, r, row, j - 1);
      assert row[..j][..j - 1] == row[..j - 1];
    }
  }

  /** Height `r` is row `r`'s sizes folded in order (`undefined`, a hole, for an empty
      row), and the heights are non-empty exactly when some row has a cell. */
  lemma {:induction false} HeightsAreRows(sizes: seq<seq<Value>>, n: nat)
    requires n <= |sizes|
    ensures |Heights(sizes, n)| <= n
    ensures forall r | 0 <= r < n :: Entry(Heights(sizes, n), r) == Pick(sizes[r])
    ensures |Heights(sizes, n)| > 0 <==> exists r | 0 <= r < n :: |sizes[r]| > 0
  {
    if n > 0 {
      HeightsAreRows(sizes, n - 1);
      var row := sizes[n - 1];
      HeightRowEntries(Heights(sizes, n - 1), n - 1, row, |row|);
      assert row[..|row|] == row;
    }
  }

  /** Both finite numbers, the first no larger. */
  predicate AtMost(a: Value, b: Value) {
    a.Number? && a.n.Finite? && b.Number? && b.n.Finite? && a.n.r <= b.n.r
  }

  /** What the pass leaves on a table whose body it can read: `widths` holds one entry
      per column of the longest row, each its column folded in row order; `heights`
      one entry per row up to the last non-empty one; neither is written when empty,
      and no other property changes. */
  lemma {:induction false} AutoSizeWrites(table: Value)
    requires table.Obj? && Get(table, "body").Arr? && BodyGrid(Get(table, "body").items)
    ensures AutoSizeSpec(table).Some? && AutoSizeSpec(table).value.Obj?
    ensures var r := AutoSizeSpec(table).value.fields; var rows := Get(table, "body").items;
      var ws := Sizes(rows, "width", "colSpan"); var hs := Sizes(rows, "height", "rowSpan");
      (forall k | k != "widths" && k != "heights" :: Field(r, k) == Field(table.fields, k))
      && (MaxLen(ws, |ws|) == 0 ==> Field(r, "widths") == Field(table.fields, "widths"))
      && (MaxLen(ws, |ws|) > 0 ==>
            Field(r, "widths").Arr? && |Field(r, "widths").items| == MaxLen(ws, |ws|)
            && forall i | 0 <= i < MaxLen(ws, |ws|) :: Field(r, "widths").items[i] == Pick(Column(ws, i, |ws|)))
      && ((forall j | 0 <= j < |hs| :: |hs[j]| == 0) ==> Field(r, "heights") == Field(table.fields, "heights"))
      && ((exists j | 0 <= j < |hs| :: |hs[j]| > 0) ==>
            Field(r, "heights").Arr? && |Field(r, "heights").items| <= |rows|
            && forall j | 0 <= j < |rows| :: Entry(Field(r, "heights").items, j) == Pick(hs[j]))
  {
    var rows := Get(table, "body").items;
    var ws := Sizes(rows, "width", "colSpan");
    var hs := Sizes(rows, "height", "rowSpan");
    WidthsAreColumns(ws, |ws|);
    HeightsAreRows(hs, |hs|);
  }

  predicate AutoOrFinite(v: Value) {
    v == Auto || (v.Number? && v.n.Finite?)
  }

  /** With only numbers and 'auto' about, a column or row settles on 'auto' when every
      size is 'auto' and otherwise on the largest number among them. */
  lemma {:induction false} PickIsMax(vs: seq<Value>)
    requires forall k | 0 <= k < |vs| :: AutoOrFinite(vs[k])
    ensures |vs| == 0 ==> Pick(vs) == Undefined
    ensures |vs| > 0 ==> Pick(vs) in vs
    ensures |vs| > 0 ==> (Pick(vs) == Auto <==> forall k | 0 <= k < |vs| :: vs[k] == Auto)
    ensures Pick(vs) != Auto && |vs| > 0 ==>
      forall k | 0 <= k < |vs| && vs[k] != Auto :: AtMost(vs[k], Pick(vs))
  {
    if |vs| > 0 {
      var init := vs[..|vs| - 1];
      var v := vs[|vs| - 1];
      PickIsMax(init);
      assert forall k | 0 <= k < |init| :: vs[k] == init[k];
      if |init| > 0 {
        assert Pick(init) in vs;
      }
    }
  }

  /** The quirk: a height is divided by colSpan, not rowSpan, so a cell spanning rows
      only gets a NaN height, whatever its rowSpan. */
  lemma {:induction false} HeightByColSpan(cell: Value, h: real, other: Value)
    requires cell.Obj? && Field(cell.fields, "height") == Num(h)
    requires Truthy(Field(cell.fields, "rowSpan")) && Truthy(other)
    ensures "colSpan" !in cell.fields ==> Size(cell, "height", "rowSpan") == Number(NaN)
    ensures Size(Obj(cell.fields["rowSpan" := other]), "height", "rowSpan") == Size(cell, "height", "rowSpan")
  {
  }

  /** A numeric width is shared equally by the columns a cell spans. */
  lemma {:induction false} WidthShared(cell: Value, w: real, n: real)
    requires cell.Obj? && Field(cell.fields, "width") == Num(w) && Field(cell.fields, "colSpan") == Num(n)
    requires n != 0.0
    ensures Size(cell, "width", "colSpan") == Num(w / n)
  {
  }

  /** A non-numeric width other than 'auto' in the first row is never replaced. */
  lemma {:induction false} StringWidthSticks(first: string, vs: seq<Value>)
    requires first != "auto"
    ensures PickFrom(Str(first), vs) == Str(first)
    decreases |vs|
  {
    if |vs| > 0 {
      StringWidthSticks(first, vs[..|vs| - 1]);
    }
  }
}
