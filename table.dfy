/**
  The TABLE normaliser: the children of a converted TABLE (its sections, their rows, the
  rows' cells) become `table.body`, one line per row that has a cell array. A cell with a
  colSpan is followed on its line by empty `{text: ''}` fillers; a cell with a rowSpan
  has fillers spliced into the rows below at its column (`setRowSpan`).

  The rows are objects that the conversion shares: `allRows` holds the same row objects
  whose cell arrays are later read, so a splice into a row below shows when that row is
  reached. The model keeps one sequence of rows (`allRows`) and reads every row and
  every cell from it as it is at that moment. A row has its cells read from `stack`
  first and its fillers spliced into `text` first; a row without a cell array takes a
  place in `allRows` but not a line in the body, so later row indices drift; and
  `allRows` only holds the sections seen so far. A TypeError (a missing row, something
  that is not an array to splice into) or a loop that never ends leaves the conversion
  hanging: `None` here.
 */
module Table {
  import opened Optional
  import opened Numbers
  import opened Values

  /** The `{text: ''}` cell put in a spanned place. */
  const Filler: Value := Obj(map["text" := Str("")])

  /** `s.splice(k, 0, v)`: `v` inserted before position `k`, at the end when `k` is past it. */
  function Insert(s: seq<Value>, k: nat, v: Value): seq<Value> {
    var j := if k <= |s| then k else |s|;
    s[..j] + [v] + s[j..]
  }

  /** The array `setRowSpan` splices into: the row's `text` when truthy, else its `stack`. */
  function SpliceKey(p: Props): string {
    if Truthy(Field(p, "text")) then "text" else "stack"
  }

  /** Whether a filler can be spliced into this row without a TypeError. */
  predicate Spliceable(row: Value) {
    row.Obj? && Field(row.fields, SpliceKey(row.fields)).Arr?
  }

  /** The row once a filler is spliced in at `cellIndex`. */
  function Spliced(row: Value, cellIndex: nat): Value
    requires Spliceable(row)
  {
    var key := SpliceKey(row.fields);
    Obj(row.fields[key := Arr(Insert(Field(row.fields, key).items, cellIndex, Filler))])
  }

  /** One turn of `setRowSpan`'s loop: a filler into the row at `idx`. */
  function SpliceRow(rows: seq<Value>, idx: nat, cellIndex: nat): (r: Option<seq<Value>>)
    ensures r.Some? ==> |r.value| == |rows|
  {
    if idx < |rows| && Spliceable(rows[idx]) then Some(rows[idx := Spliced(rows[idx], cellIndex)]) else None
  }

  /** The turns `i` to `count` of that loop, each into the row `i` below `rowIndex`. */
  function SpliceColumn(rows: seq<Value>, rowIndex: nat, cellIndex: nat, i: nat, count: nat): (r: Option<seq<Value>>)
    requires 1 <= i <= count + 1
    ensures r.Some? ==> |r.value| == |rows|
    decreases count + 1 - i
  {
    if i > count then Some(rows)
    else match SpliceRow(rows, rowIndex + i, cellIndex)
      case None => None
      case Some(next) => SpliceColumn(next, rowIndex, cellIndex, i + 1, count)
  }

  /** How often `for (i = 1; i <= rowSpan - 1; i++)` turns; `None` for `+Infinity`, where
      it runs until it reads past the rows and throws. */
  function RowSpanTurns(m: JsNum): Option<nat> {
    match m
    case Finite(x) => Some(if x >= 2.0 then x.Floor - 1 else 0)
    case Infinite(negative) => if negative then Some(0) else None
    case NaN => Some(0)
  }

  /** How often `while (--i > 0)` turns from `i = colSpan`; `None` for `+Infinity`,
      which never stops. */
  function ColSpanTurns(n: JsNum): Option<nat> {
    match n
    case Finite(x) => Some(if x > 1.0 then -((-x).Floor) - 1 else 0)
    case Infinite(negative) => if negative then Some(0) else None
    case NaN => Some(0)
  }

  /** `setRowSpan({rows, cell, rowIndex, cellIndex})`: the rows afterwards. */
  function SetRowSpanSpec(rows: seq<Value>, cell: Value, rowIndex: nat, cellIndex: nat): (r: Option<seq<Value>>)
    ensures r.Some? ==> |r.value| == |rows|
  {
    match Member(cell, "rowSpan")
    case None => None
    case Some(v) =>
      if !Truthy(v) then Some(rows)
      else match RowSpanTurns(ToNumberValue(v))
        case None => None
        case Some(n) => SpliceColumn(rows, rowIndex, cellIndex, 1, n)
  }

  /** The rows, the body line being built and `cellIndex`. */
  datatype Cursor = Cursor(rows: seq<Value>, line: seq<Value>, cellIndex: nat)

  /** The `while (--i > 0)` loop of a cell with a colSpan: `turns` more fillers on the
      line, each with `setRowSpan` at the current position before it moves on. */
  function ColSpanLoop(c: Cursor, cell: Value, rowIndex: nat, turns: nat): (r: Option<Cursor>)
    ensures r.Some? ==> |r.value.rows| == |c.rows|
    decreases turns
  {
    if turns == 0 then Some(c)
    else match SetRowSpanSpec(c.rows, cell, rowIndex, c.cellIndex)
      case None => None
      case Some(rows) => ColSpanLoop(Cursor(rows, c.line + [Filler], c.cellIndex + 1), cell, rowIndex, turns - 1)
  }

  /** One cell of a row: it goes on the line, then its spans are filled in. */
  function CellStep(c: Cursor, cell: Value, rowIndex: nat): (r: Option<Cursor>)
    ensures r.Some? ==> |r.value.rows| == |c.rows|
  {
    match Member(cell, "colSpan")
    case None => None
    case Some(span) =>
      match SetRowSpanSpec(c.rows, cell, rowIndex, c.cellIndex)
      case None => None
      case Some(rows) =>
        var c1 := Cursor(rows, c.line + [cell], c.cellIndex);
        if !Truthy(span) then Some(c1.(cellIndex := c1.cellIndex + 1))
        else match ColSpanTurns(ToNumberValue(span))
          case None => None
          case Some(n) =>
            match ColSpanLoop(c1, cell, rowIndex, n)
            case None => None
            case Some(c2) => Some(c2.(cellIndex := c2.cellIndex + 1))
  }

  /** Cell `k` of the row at `p`, read from its `key` array as it is now (`forEach`
      reads each element when it gets to it). Splices only lengthen that array, so the
      `undefined` case is never taken. */
  function LiveCell(rows: seq<Value>, p: nat, key: string, k: nat): Value {
    if p < |rows| && rows[p].Obj? && Field(rows[p].fields, key).Arr? && k < |Field(rows[p].fields, key).items|
    then Field(rows[p].fields, key).items[k]
    else Undefined
  }

  /** The cells `k` to `len - 1` of the row at `p`; `len` is the length of its cell
      array when `forEach` started. */
  function CellsLoop(c: Cursor, p: nat, key: string, rowIndex: nat, k: nat, len: nat): (r: Option<Cursor>)
    requires k <= len
    ensures r.Some? ==> |r.value.rows| == |c.rows|
    decreases len - k
  {
    if k == len then Some(c)
    else match CellStep(c, LiveCell(c.rows, p, key, k), rowIndex)
      case None => None
      case Some(next) => CellsLoop(next, p, key, rowIndex, k + 1, len)
  }

  /** All rows so far and the body lines built. */
  datatype Grid = Grid(rows: seq<Value>, body: seq<seq<Value>>)

  /** The row at `p` of `allRows`: a line of the body when `row.stack || row.text` is an
      array, nothing when it is not. The body line's index is the row index. */
  function RowStep(g: Grid, p: nat): (r: Option<Grid>)
    requires p < |g.rows|
    ensures r.Some? ==> |r.value.rows| == |g.rows|
  {
    var row := g.rows[p];
    if row.Undefined? || row.Null? then None
    else
      var cells := Or(Get(row, "stack"), Get(row, "text"));
      if !cells.Arr? then Some(g)
      else
        var key := if Truthy(Get(row, "stack")) then "stack" else "text";
        match CellsLoop(Cursor(g.rows, [], 0), p, key, |g.body|, 0, |cells.items|)
        case None => None
        case Some(c) => Some(Grid(c.rows, g.body + [c.line]))
  }

  /** The rows `j` to `n - 1` of the section whose rows start at `base`. */
  function RowsLoop(g: Grid, base: nat, j: nat, n: nat): (r: Option<Grid>)
    requires j <= n && base + n <= |g.rows|
    ensures r.Some? ==> |r.value.rows| == |g.rows|
    decreases n - j
  {
    if j == n then Some(g)
    else match RowStep(g, base + j)
      case None => None
      case Some(next) => RowsLoop(next, base, j + 1, n)
  }

  /** One section (THEAD, TBODY, …): its rows join `allRows`, then each is placed. */
  function SectionStep(g: Grid, tbody: Value): Option<Grid> {
    if tbody.Undefined? || tbody.Null? then None
    else
      var rows := Or(Get(tbody, "stack"), Get(tbody, "text"));
      if !rows.Arr? then Some(g)
      else RowsLoop(Grid(g.rows + rows.items, g.body), |g.rows|, 0, |rows.items|)
  }

  /** The sections `i` onwards. */
  function SectionsLoop(g: Grid, tbodies: seq<Value>, i: nat): Option<Grid>
    requires i <= |tbodies|
    decreases |tbodies| - i
  {
    if i == |tbodies| then Some(g)
    else match SectionStep(g, tbodies[i])
      case None => None
      case Some(next) => SectionsLoop(next, tbodies, i + 1)
  }

  /** `table.body` for the converted TABLE `ret`; an empty body when
      `ret.stack || ret.text` is not an array. */
  function TableBodySpec(ret: Props): Option<seq<seq<Value>>> {
    var tbodies := Or(Field(ret, "stack"), Field(ret, "text"));
    if !tbodies.Arr? then Some([])
    else match SectionsLoop(Grid([], []), tbodies.items, 0)
      case None => None
      case Some(g) => Some(g.body)
  }

  // ---------------------------------------------------------------- the loops

  /** `setRowSpan`. */
  method SetRowSpan(rows: seq<Value>, cell: Value, rowIndex: nat, cellIndex: nat) returns (r: Option<seq<Value>>)
    ensures r == SetRowSpanSpec(rows, cell, rowIndex, cellIndex)
  {
    if cell.Undefined? || cell.Null? {
      return None;
    }
    var rowSpan := Get(cell, "rowSpan");
    if !Truthy(rowSpan) {
      return Some(rows);
    }
    var turns := RowSpanTurns(ToNumberValue(rowSpan));
    if turns.None? {
      return None;
    }
    var cur := rows;
    var i := 1;
    while i <= turns.value
      invariant 1 <= i <= turns.value + 1
      invariant SpliceColumn(rows, rowIndex, cellIndex, 1, turns.value) == SpliceColumn(cur, rowIndex, cellIndex, i, turns.value)
      decreases turns.value + 1 - i
    {
      var target := rowIndex + i;
      if target >= |cur| || !Spliceable(cur[target]) {
        return None;
      }
      cur := cur[target := Spliced(cur[target], cellIndex)];
      i := i + 1;
    }
    return Some(cur);
  }

  /** One cell: `body[rowIndex].push(cell)`, then its colSpan fillers and rowSpan splices. */
  method PlaceCell(c: Cursor, cell: Value, rowIndex: nat) returns (r: Option<Cursor>)
    ensures r == CellStep(c, cell, rowIndex)
  {
    if cell.Undefined? || cell.Null? {
      return None;
    }
    var line := c.line + [cell];
    var span := Get(cell, "colSpan");
    var rows := SetRowSpan(c.rows, cell, rowIndex, c.cellIndex);
    if rows.None? {
      return None;
    }
    var cellIndex := c.cellIndex;
    if Truthy(span) {
      var turns := ColSpanTurns(ToNumberValue(span));
      if turns.None? {
        return None;
      }
      var cur := Cursor(rows.value, line, cellIndex);
      ghost var start := cur;
      var i := turns.value;
      while i > 0
        invariant ColSpanLoop(start, cell, rowIndex, turns.value) == ColSpanLoop(cur, cell, rowIndex, i)
      {
        var next := SetRowSpan(cur.rows, cell, rowIndex, cur.cellIndex);
        if next.None? {
          return None;
        }
        cur := Cursor(next.value, cur.line + [Filler], cur.cellIndex + 1);
        i := i - 1;
      }
      return Some(cur.(cellIndex := cur.cellIndex + 1));
    }
    return Some(Cursor(rows.value, line, cellIndex + 1));
  }

  /** `cells.forEach(…)` for the row at `p`, whose cell array is under `key`. */
  method PlaceCells(c: Cursor, p: nat, key: string, rowIndex: nat, len: nat) returns (r: Option<Cursor>)
    ensures r == CellsLoop(c, p, key, rowIndex, 0, len)
  {
    var cur := c;
    var k := 0;
    while k < len
      invariant k <= len
      invariant CellsLoop(c, p, key, rowIndex, 0, len) == CellsLoop(cur, p, key, rowIndex, k, len)
    {
      var next := PlaceCell(cur, LiveCell(cur.rows, p, key, k), rowIndex);
      if next.None? {
        return None;
      }
      cur := next.value;
      k := k + 1;
    }
    return Some(cur);
  }

  /** One row of `allRows`, read as it is now. */
  method PlaceRow(g: Grid, p: nat) returns (r: Option<Grid>)
    requires p < |g.rows|
    ensures r == RowStep(g, p)
  {
    var row := g.rows[p];
    if row.Undefined? || row.Null? {
      return None;
    }
    var cells := Or(Get(row, "stack"), Get(row, "text"));
    if !cells.Arr? {
      return Some(g);
    }
    var key := if Truthy(Get(row, "stack")) then "stack" else "text";
    var c := PlaceCells(Cursor(g.rows, [], 0), p, key, |g.body|, |cells.items|);
    if c.None? {
      return None;
    }
    return Some(Grid(c.value.rows, g.body + [c.value.line]));
  }

  /** One section: `allRows = allRows.concat(rows)`, then `rows.forEach(…)`. */
  method PlaceSection(g: Grid, tbody: Value) returns (r: Option<Grid>)
    ensures r == SectionStep(g, tbody)
  {
    if tbody.Undefined? || tbody.Null? {
      return None;
    }
    var rows := Or(Get(tbody, "stack"), Get(tbody, "text"));
    if !rows.Arr? {
      return Some(g);
    }
    var base := |g.rows|;
    var cur := Grid(g.rows + rows.items, g.body);
    ghost var start := cur;
    var j := 0;
    while j < |rows.items|
      invariant j <= |rows.items| && |cur.rows| == base + |rows.items|
      invariant RowsLoop(start, base, 0, |rows.items|) == RowsLoop(cur, base, j, |rows.items|)
    {
      var next := PlaceRow(cur, base + j);
      if next.None? {
        return None;
      }
      cur := next.value;
      j := j + 1;
    }
    return Some(cur);
  }

  /** The grid-building part of the TABLE arm: `table.body`, or `None` when it hangs. */
  method BuildTableBody(ret: Props) returns (body: Option<seq<seq<Value>>>)
    ensures body == TableBodySpec(ret)
  {
    var tbodies := Or(Field(ret, "stack"), Field(ret, "text"));
    if !tbodies.Arr? {
      return Some([]);
    }
    var g := Grid([], []);
    var i := 0;
    while i < |tbodies.items|
      invariant i <= |tbodies.items|
      invariant SectionsLoop(Grid([], []), tbodies.items, 0) == SectionsLoop(g, tbodies.items, i)
    {
      var next := PlaceSection(g, tbodies.items[i]);
      if next.None? {
        return None;
      }
      g := next.value;
      i := i + 1;
    }
    return Some(g.body);
  }

  // ---------------------------------------------------------------- what the grid promises

  /** `k` fillers. */
  function Fillers(k: nat): (r: seq<Value>)
    ensures |r| == k && forall i | 0 <= i < k :: r[i] == Filler
  {
    seq(k, i => Filler)
  }

  /** The rows after a filler went into each row `rowIndex + i .. rowIndex + count`. */
  function SplicedBelow(rows: seq<Value>, rowIndex: nat, cellIndex: nat, i: nat, count: nat): seq<Value>
    requires (i <= count ==> rowIndex + count < |rows|) && forall k | rowIndex + i <= k <= rowIndex + count :: Spliceable(rows[k])
  {
    seq(|rows|, k requires 0 <= k < |rows| =>
      if rowIndex + i <= k <= rowIndex + count then Spliced(rows[k], cellIndex) else rows[k])
  }

  lemma {:induction false} SpliceColumnSpliced(rows: seq<Value>, rowIndex: nat, cellIndex: nat, i: nat, count: nat)
    requires 1 <= i <= count + 1
    requires (i <= count ==> rowIndex + count < |rows|) && forall k | rowIndex + i <= k <= rowIndex + count :: Spliceable(rows[k])
    ensures SpliceColumn(rows, rowIndex, cellIndex, i, count) == Some(SplicedBelow(rows, rowIndex, cellIndex, i, count))
    decreases count + 1 - i
  {
    if i > count {
      assert SplicedBelow(rows, rowIndex, cellIndex, i, count) == rows;
    } else {
      var k0 := rowIndex + i;
      assert k0 < |rows| && Spliceable(rows[k0]);
      var next := rows[k0 := Spliced(rows[k0], cellIndex)];
      assert SpliceRow(rows, k0, cellIndex) == Some(next);
      forall k | rowIndex + i + 1 <= k <= rowIndex + count
        ensures Spliceable(next[k])
      {
        assert rows[k] == next[k];
      }
      SpliceColumnSpliced(next, rowIndex, cellIndex, i + 1, count);
      assert SplicedBelow(next, rowIndex, cellIndex, i + 1, count) == SplicedBelow(rows, rowIndex, cellIndex, i, count);
    }
  }

  /** A cell with `rowSpan` m (a whole number) puts one filler at its column into each of
      the next m - 1 rows and changes no other row, when those rows exist and have an
      array to splice into. */
  lemma RowSpanFills(rows: seq<Value>, cell: Value, rowIndex: nat, cellIndex: nat, m: nat)
    requires cell.Obj? && Field(cell.fields, "rowSpan") == Num(m as real) && m >= 1
    requires rowIndex + m - 1 < |rows| && forall k | rowIndex + 1 <= k <= rowIndex + m - 1 :: Spliceable(rows[k])
    ensures SetRowSpanSpec(rows, cell, rowIndex, cellIndex) == Some(SplicedBelow(rows, rowIndex, cellIndex, 1, m - 1))
  {
    assert RowSpanTurns(Finite(m as real)) == Some(m - 1) by {
      assert (m as real).Floor == m;
    }
    var count: nat := m - 1;
    SpliceColumnSpliced(rows, rowIndex, cellIndex, 1, count);
  }

  lemma {:induction false} SpliceColumnPastEnd(rows: seq<Value>, rowIndex: nat, cellIndex: nat, i: nat, count: nat)
    requires 1 <= i <= count && rowIndex + count >= |rows|
    ensures SpliceColumn(rows, rowIndex, cellIndex, i, count) == None
    decreases count + 1 - i
  {
    match SpliceRow(rows, rowIndex + i, cellIndex)
    case None =>
    case Some(next) =>
      SpliceColumnPastEnd(next, rowIndex, cellIndex, i + 1, count);
  }

  /** A rowSpan reaching past the rows collected so far hangs the conversion: `allRows`
      only holds the sections already visited, so a rowSpan into the next section does. */
  lemma RowSpanPastEnd(rows: seq<Value>, cell: Value, rowIndex: nat, cellIndex: nat, m: nat)
    requires cell.Obj? && Field(cell.fields, "rowSpan") == Num(m as real) && m >= 2
    requires rowIndex + m - 1 >= |rows|
    ensures SetRowSpanSpec(rows, cell, rowIndex, cellIndex) == None
  {
    assert RowSpanTurns(Finite(m as real)) == Some(m - 1) by {
      assert (m as real).Floor == m;
    }
    SpliceColumnPastEnd(rows, rowIndex, cellIndex, 1, m - 1);
  }

  lemma {:induction false} ColSpanLoopFillers(c: Cursor, cell: Value, rowIndex: nat, turns: nat)
    requires cell.Obj? && !Truthy(Field(cell.fields, "rowSpan"))
    ensures ColSpanLoop(c, cell, rowIndex, turns) == Some(Cursor(c.rows, c.line + Fillers(turns), c.cellIndex + turns))
    decreases turns
  {
    if turns > 0 {
      var next := Cursor(c.rows, c.line + [Filler], c.cellIndex + 1);
      assert SetRowSpanSpec(c.rows, cell, rowIndex, c.cellIndex) == Some(c.rows);
      ColSpanLoopFillers(next, cell, rowIndex, turns - 1);
      assert next.line + Fillers(turns - 1) == c.line + Fillers(turns);
    } else {
      assert c.line + Fillers(0) == c.line;
    }
  }

  /** A cell with `colSpan` n (a whole number) and no rowSpan is followed on its line by
      n - 1 fillers, and the next cell goes n places further on. */
  lemma ColSpanFills(c: Cursor, cell: Value, rowIndex: nat, n: nat)
    requires cell.Obj? && Field(cell.fields, "colSpan") == Num(n as real) && n >= 1
    requires !Truthy(Field(cell.fields, "rowSpan"))
    ensures CellStep(c, cell, rowIndex) == Some(Cursor(c.rows, c.line + [cell] + Fillers(n - 1), c.cellIndex + n))
  {
    assert ColSpanTurns(Finite(n as real)) == Some(n - 1) by {
      assert (-(n as real)).Floor == -(n as int);
    }
    var c1 := Cursor(c.rows, c.line + [cell], c.cellIndex);
    ColSpanLoopFillers(c1, cell, rowIndex, n - 1);
  }

  /** When a row's `text` is truthy the filler goes into `text`, and its `stack` — the
      array the grid reads the cells from — stays as it was. */
  lemma StackUnseen(row: Value, cellIndex: nat)
    requires Spliceable(row) && Truthy(Field(row.fields, "text"))
    ensures Spliced(row, cellIndex).Obj? && Field(Spliced(row, cellIndex).fields, "stack") == Field(row.fields, "stack")
  {
  }

  // ---------------------------------------------------------------- without spans, the grid is the rows

  /** A cell with neither a colSpan nor a rowSpan. */
  predicate PlainCell(v: Value) {
    v.Obj? && !Truthy(Field(v.fields, "colSpan")) && !Truthy(Field(v.fields, "rowSpan"))
  }

  /** The row's cells, `row.stack || row.text`, when that is an array; none otherwise. */
  function CellsOf(row: Value): seq<Value> {
    if row.Undefined? || row.Null? then []
    else
      var cells := Or(Get(row, "stack"), Get(row, "text"));
      if cells.Arr? then cells.items else []
  }

  /** The body line a row gives, if any. */
  function LineOf(row: Value): seq<seq<Value>> {
    if row.Undefined? || row.Null? then []
    else if Or(Get(row, "stack"), Get(row, "text")).Arr? then [CellsOf(row)]
    else []
  }

  /** A row that is an object or primitive, whose cells all lack spans. */
  predicate PlainRow(row: Value) {
    !row.Undefined? && !row.Null? && forall i | 0 <= i < |CellsOf(row)| :: PlainCell(CellsOf(row)[i])
  }

  /** The reference: one line per row that has a cell array, in order. */
  function Lines(rows: seq<Value>): seq<seq<Value>>
    decreases |rows|
  {
    if rows == [] then [] else LineOf(rows[0]) + Lines(rows[1..])
  }

  /** The rows of a section, `tbody.stack || tbody.text`, when that is an array. */
  function RowsOf(tbody: Value): seq<Value> {
    if tbody.Undefined? || tbody.Null? then []
    else
      var rows := Or(Get(tbody, "stack"), Get(tbody, "text"));
      if rows.Arr? then rows.items else []
  }

  predicate PlainSection(tbody: Value) {
    !tbody.Undefined? && !tbody.Null? && forall i | 0 <= i < |RowsOf(tbody)| :: PlainRow(RowsOf(tbody)[i])
  }

  /** The rows of all sections, in order. */
  function SectionRows(tbodies: seq<Value>): seq<Value>
    decreases |tbodies|
  {
    if tbodies == [] then [] else RowsOf(tbodies[0]) + SectionRows(tbodies[1..])
  }

  lemma {:induction false} LinesAppend(a: seq<Value>, b: seq<Value>)
    ensures Lines(a + b) == Lines(a) + Lines(b)
    decreases |a|
  {
    if a != [] {
      LinesAppend(a[1..], b);
      assert (a + b)[1..] == a[1..] + b;
    } else {
      assert a + b == b;
    }
  }

  lemma PlainCellStep(c: Cursor, cell: Value, rowIndex: nat)
    requires PlainCell(cell)
    ensures CellStep(c, cell, rowIndex) == Some(Cursor(c.rows, c.line + [cell], c.cellIndex + 1))
  {
    assert SetRowSpanSpec(c.rows, cell, rowIndex, c.cellIndex) == Some(c.rows);
  }

  lemma {:induction false} PlainCells(c: Cursor, p: nat, key: string, rowIndex: nat, k: nat, len: nat)
    requires p < |c.rows| && c.rows[p].Obj? && Field(c.rows[p].fields, key).Arr?
    requires len == |Field(c.rows[p].fields, key).items| && k <= len
    requires forall i | k <= i < len :: PlainCell(Field(c.rows[p].fields, key).items[i])
    ensures CellsLoop(c, p, key, rowIndex, k, len)
      == Some(Cursor(c.rows, c.line + Field(c.rows[p].fields, key).items[k..], c.cellIndex + (len - k)))
    decreases len - k
  {
    var items := Field(c.rows[p].fields, key).items;
    if k == len {
      assert c.line + items[k..] == c.line;
    } else {
      assert LiveCell(c.rows, p, key, k) == items[k];
      PlainCellStep(c, items[k], rowIndex);
      var next := Cursor(c.rows, c.line + [items[k]], c.cellIndex + 1);
      PlainCells(next, p, key, rowIndex, k + 1, len);
      assert next.line + items[k + 1..] == c.line + items[k..];
    }
  }

  lemma PlainRowStep(g: Grid, p: nat)
    requires p < |g.rows| && PlainRow(g.rows[p])
    ensures RowStep(g, p) == Some(Grid(g.rows, g.body + LineOf(g.rows[p])))
  {
    var row := g.rows[p];
    var cells := Or(Get(row, "stack"), Get(row, "text"));
    if cells.Arr? {
      var key := if Truthy(Get(row, "stack")) then "stack" else "text";
      assert row.Obj? && Field(row.fields, key) == cells;
      assert CellsOf(row) == cells.items;
      PlainCells(Cursor(g.rows, [], 0), p, key, |g.body|, 0, |cells.items|);
      assert [] + cells.items[0..] == CellsOf(row);
    } else {
      assert g.body + LineOf(row) == g.body;
    }
  }

  lemma {:induction false} PlainRows(g: Grid, base: nat, j: nat, n: nat)
    requires j <= n && base + n <= |g.rows|
    requires forall i | base + j <= i < base + n :: PlainRow(g.rows[i])
    ensures RowsLoop(g, base, j, n) == Some(Grid(g.rows, g.body + Lines(g.rows[base + j..base + n])))
    decreases n - j
  {
    var s := g.rows[base + j..base + n];
    if j == n {
      assert s == [] && g.body + Lines(s) == g.body;
    } else {
      PlainRowStep(g, base + j);
      var next := Grid(g.rows, g.body + LineOf(g.rows[base + j]));
      PlainRows(next, base, j + 1, n);
      assert s[0] == g.rows[base + j] && s[1..] == g.rows[base + j + 1..base + n];
      assert next.body + Lines(s[1..]) == g.body + Lines(s);
    }
  }

  lemma PlainSectionStep(g: Grid, tbody: Value)
    requires PlainSection(tbody)
    ensures SectionStep(g, tbody) == Some(Grid(g.rows + RowsOf(tbody), g.body + Lines(RowsOf(tbody))))
  {
    var rows := Or(Get(tbody, "stack"), Get(tbody, "text"));
    if rows.Arr? {
      var all := g.rows + rows.items;
      assert all[|g.rows|..|g.rows| + |rows.items|] == rows.items;
      assert RowsOf(tbody) == rows.items;
      forall i | |g.rows| <= i < |g.rows| + |rows.items|
        ensures PlainRow(all[i])
      {
        assert all[i] == rows.items[i - |g.rows|];
      }
      PlainRows(Grid(all, g.body), |g.rows|, 0, |rows.items|);
    } else {
      assert g.rows + [] == g.rows && g.body + Lines([]) == g.body;
    }
  }

  lemma SectionRowsFrom(tbodies: seq<Value>, i: nat)
    requires i < |tbodies|
    ensures SectionRows(tbodies[i..]) == RowsOf(tbodies[i]) + SectionRows(tbodies[i + 1..])
  {
    var rest := tbodies[i..];
    assert rest[0] == tbodies[i] && rest[1..] == tbodies[i + 1..];
  }

  /** Adding rows `a` and then rows `b` to a grid adds `a + b`. */
  lemma GridAppend(g: Grid, a: seq<Value>, b: seq<Value>)
    ensures (g.rows + a) + b == g.rows + (a + b)
    ensures (g.body + Lines(a)) + Lines(b) == g.body + Lines(a + b)
  {
    LinesAppend(a, b);
  }

  lemma {:induction false} PlainSections(g: Grid, tbodies: seq<Value>, i: nat)
    requires i <= |tbodies|
    requires forall j | i <= j < |tbodies| :: PlainSection(tbodies[j])
    ensures SectionsLoop(g, tbodies, i)
      == Some(Grid(g.rows + SectionRows(tbodies[i..]), g.body + Lines(SectionRows(tbodies[i..]))))
    decreases |tbodies| - i
  {
    if i == |tbodies| {
      assert tbodies[i..] == [];
      assert g.rows + [] == g.rows && g.body + Lines([]) == g.body;
    } else {
      var a := RowsOf(tbodies[i]);
      var b := SectionRows(tbodies[i + 1..]);
      PlainSectionStep(g, tbodies[i]);
      var next := Grid(g.rows + a, g.body + Lines(a));
      PlainSections(next, tbodies, i + 1);
      SectionRowsFrom(tbodies, i);
      GridAppend(g, a, b);
    }
  }

  /** Order is preserved: when no cell spans, `table.body` is the cell array of every row
      that has one, section after section and row after row. */
  lemma PlainTable(ret: Props)
    requires Or(Field(ret, "stack"), Field(ret, "text")).Arr?
    requires var tbodies := Or(Field(ret, "stack"), Field(ret, "text")).items;
      forall j | 0 <= j < |tbodies| :: PlainSection(tbodies[j])
    ensures TableBodySpec(ret) == Some(Lines(SectionRows(Or(Field(ret, "stack"), Field(ret, "text")).items)))
  {
    var tbodies := Or(Field(ret, "stack"), Field(ret, "text")).items;
    PlainSections(Grid([], []), tbodies, 0);
    assert tbodies[0..] == tbodies;
    assert [] + Lines(SectionRows(tbodies)) == Lines(SectionRows(tbodies));
  }

  // ---------------------------------------------------------------- with spans, the cells keep their order

  /** The entries that are not the `{text: ''}` filler. */
  function Strip(s: seq<Value>): seq<Value>
    decreases |s|
  {
    if s == [] then [] else (if s[0] == Filler then [] else [s[0]]) + Strip(s[1..])
  }

  lemma {:induction false} StripAppend(a: seq<Value>, b: seq<Value>)
    ensures Strip(a + b) == Strip(a) + Strip(b)
    decreases |a|
  {
    if a == [] {
      assert a + b == b;
    } else {
      assert (a + b)[1..] == a[1..] + b;
      StripAppend(a[1..], b);
    }
  }

  lemma {:induction false} StripFillers(n: nat)
    ensures Strip(Fillers(n)) == []
    decreases n
  {
    if n > 0 {
      assert Fillers(n)[1..] == Fillers(n - 1);
      StripFillers(n - 1);
    }
  }

  /** A spliced filler disappears again. */
  lemma StripInsert(s: seq<Value>, k: nat)
    ensures Strip(Insert(s, k, Filler)) == Strip(s)
  {
    var j := if k <= |s| then k else |s|;
    assert Strip([Filler]) == [] by { assert [Filler][1..] == []; }
    StripAppend(s[..j] + [Filler], s[j..]);
    StripAppend(s[..j], [Filler]);
    StripAppend(s[..j], s[j..]);
    assert s[..j] + s[j..] == s;
  }

  /** The body lines one after the other. */
  function Flat(lines: seq<seq<Value>>): seq<Value>
    decreases |lines|
  {
    if lines == [] then [] else Flat(lines[..|lines| - 1]) + lines[|lines| - 1]
  }

  /** The cell arrays of the rows one after the other. */
  function AllCells(rows: seq<Value>): seq<Value>
    decreases |rows|
  {
    if rows == [] then [] else CellsOf(rows[0]) + AllCells(rows[1..])
  }

  lemma {:induction false} AllCellsAppend(a: seq<Value>, b: seq<Value>)
    ensures AllCells(a + b) == AllCells(a) + AllCells(b)
    decreases |a|
  {
    if a == [] {
      assert a + b == b;
    } else {
      assert (a + b)[1..] == a[1..] + b;
      AllCellsAppend(a[1..], b);
    }
  }

  /** A row whose `stack || text` is an array, so that it gives a line of the body. */
  predicate HasCells(row: Value) {
    Readable(row) && Or(Get(row, "stack"), Get(row, "text")).Arr?
  }

  /** Every row of the section has a cell array. */
  predicate CellRows(tbody: Value) {
    forall k | 0 <= k < |RowsOf(tbody)| :: HasCells(RowsOf(tbody)[k])
  }

  /** `a` is the row `b` with nothing but fillers spliced into the array fillers go into. */
  predicate Padded(a: Value, b: Value) {
    a == b ||
    (Spliceable(b) && a.Obj? &&
     var key := SpliceKey(b.fields);
     Field(a.fields, key).Arr? && a.fields == b.fields[key := Field(a.fields, key)]
     && Strip(Field(a.fields, key).items) == Strip(SpliceItems(b)))
  }

  /** Each row is the original row at its place, padded. */
  predicate PaddedAll(rows: seq<Value>, orig: seq<Value>) {
    |rows| == |orig| && forall k {:trigger Padded(rows[k], orig[k])} | 0 <= k < |rows| :: Padded(rows[k], orig[k])
  }

  lemma PaddedAllAppend(rows: seq<Value>, orig: seq<Value>, extra: seq<Value>)
    requires PaddedAll(rows, orig)
    ensures PaddedAll(rows + extra, orig + extra)
  {
    forall k | 0 <= k < |rows + extra|
      ensures Padded((rows + extra)[k], (orig + extra)[k])
    {
      if k < |rows| {
        assert (rows + extra)[k] == rows[k] && (orig + extra)[k] == orig[k];
      }
    }
  }

  /** A padded row reads as the original one, fillers aside, and takes fillers in the
      same array. */
  lemma PaddedRead(a: Value, b: Value)
    requires Padded(a, b)
    ensures Readable(a) == Readable(b) && HasCells(a) == HasCells(b)
    ensures Readable(a) ==> Truthy(Get(a, "stack")) == Truthy(Get(b, "stack"))
    ensures HasCells(a) ==> Strip(CellsOf(a)) == Strip(CellsOf(b))
    ensures Spliceable(a) == Spliceable(b)
    ensures Spliceable(a) ==> SpliceKey(a.fields) == SpliceKey(b.fields)
  {
  }

  lemma PaddedSpliced(a: Value, b: Value, j: nat)
    requires Padded(a, b) && Spliceable(a)
    ensures Padded(Spliced(a, j), b)
  {
    PaddedRead(a, b);
    StripInsert(SpliceItems(a), j);
  }

  lemma {:induction false} SpliceColumnPadded(rows: seq<Value>, orig: seq<Value>, rowIndex: nat, cellIndex: nat, i: nat, count: nat)
    requires 1 <= i <= count + 1 && PaddedAll(rows, orig)
    requires SpliceColumn(rows, rowIndex, cellIndex, i, count).Some?
    ensures var r := SpliceColumn(rows, rowIndex, cellIndex, i, count).value;
      PaddedAll(r, orig) && forall k | 0 <= k <= rowIndex && k < |rows| :: r[k] == rows[k]
    decreases count + 1 - i
  {
    if i <= count {
      var idx := rowIndex + i;
      var next := SpliceRow(rows, idx, cellIndex).value;
      PaddedSpliced(rows[idx], orig[idx], cellIndex);
      assert PaddedAll(next, orig);
      SpliceColumnPadded(next, orig, rowIndex, cellIndex, i + 1, count);
    }
  }

  /** `setRowSpan` only pads the rows below `rowIndex`. */
  lemma SetRowSpanPadded(rows: seq<Value>, orig: seq<Value>, cell: Value, rowIndex: nat, cellIndex: nat)
    requires PaddedAll(rows, orig) && SetRowSpanSpec(rows, cell, rowIndex, cellIndex).Some?
    ensures var r := SetRowSpanSpec(rows, cell, rowIndex, cellIndex).value;
      PaddedAll(r, orig) && forall k | 0 <= k <= rowIndex && k < |rows| :: r[k] == rows[k]
  {
    var v := Member(cell, "rowSpan").value;
    if Truthy(v) {
      SpliceColumnPadded(rows, orig, rowIndex, cellIndex, 1, RowSpanTurns(ToNumberValue(v)).value);
    }
  }

  lemma {:induction false} ColSpanLoopPadded(c: Cursor, orig: seq<Value>, cell: Value, rowIndex: nat, turns: nat)
    requires PaddedAll(c.rows, orig) && ColSpanLoop(c, cell, rowIndex, turns).Some?
    ensures var r := ColSpanLoop(c, cell, rowIndex, turns).value;
      PaddedAll(r.rows, orig) && (forall k | 0 <= k <= rowIndex && k < |c.rows| :: r.rows[k] == c.rows[k])
      && r.line == c.line + Fillers(turns)
    decreases turns
  {
    if turns == 0 {
      assert c.line + Fillers(0) == c.line;
    } else {
      SetRowSpanPadded(c.rows, orig, cell, rowIndex, c.cellIndex);
      var rows := SetRowSpanSpec(c.rows, cell, rowIndex, c.cellIndex).value;
      var next := Cursor(rows, c.line + [Filler], c.cellIndex + 1);
      ColSpanLoopPadded(next, orig, cell, rowIndex, turns - 1);
      assert next.line + Fillers(turns - 1) == c.line + Fillers(turns);
    }
  }

  /** One cell puts itself and fillers on the line and pads only the rows below. */
  lemma CellStepPadded(c: Cursor, orig: seq<Value>, cell: Value, rowIndex: nat)
    requires PaddedAll(c.rows, orig) && CellStep(c, cell, rowIndex).Some?
    ensures var r := CellStep(c, cell, rowIndex).value;
      PaddedAll(r.rows, orig) && (forall k | 0 <= k <= rowIndex && k < |c.rows| :: r.rows[k] == c.rows[k])
      && Strip(r.line) == Strip(c.line + [cell])
  {
    var span := Member(cell, "colSpan").value;
    SetRowSpanPadded(c.rows, orig, cell, rowIndex, c.cellIndex);
    var rows := SetRowSpanSpec(c.rows, cell, rowIndex, c.cellIndex).value;
    var c1 := Cursor(rows, c.line + [cell], c.cellIndex);
    if Truthy(span) {
      var n := ColSpanTurns(ToNumberValue(span)).value;
      ColSpanLoopPadded(c1, orig, cell, rowIndex, n);
      StripAppend(c1.line, Fillers(n));
      StripFillers(n);
      assert c1.line + [] == c1.line;
    }
  }

  /** The cells of the row at `p`, when the body index is `p`: no splice reaches the row,
      so the cells read are the ones it had, and the line holds them in order among the
      fillers. */
  lemma {:induction false} CellsLoopPadded(c: Cursor, orig: seq<Value>, p: nat, key: string, k: nat, len: nat)
    requires p < |c.rows| && c.rows[p].Obj? && Field(c.rows[p].fields, key).Arr?
    requires len == |Field(c.rows[p].fields, key).items| && k <= len
    requires PaddedAll(c.rows, orig) && CellsLoop(c, p, key, p, k, len).Some?
    ensures var r := CellsLoop(c, p, key, p, k, len).value;
      PaddedAll(r.rows, orig) && r.rows[p] == c.rows[p]
      && Strip(r.line) == Strip(c.line + Field(c.rows[p].fields, key).items[k..])
    decreases len - k
  {
    var items := Field(c.rows[p].fields, key).items;
    if k == len {
      assert c.line + items[k..] == c.line;
    } else {
      assert LiveCell(c.rows, p, key, k) == items[k];
      CellStepPadded(c, orig, items[k], p);
      var next := CellStep(c, items[k], p).value;
      CellsLoopPadded(next, orig, p, key, k + 1, len);
      StripAppend(next.line, items[k + 1..]);
      StripAppend(c.line + [items[k]], items[k + 1..]);
      assert items[k..] == [items[k]] + items[k + 1..];
      Regroup(c.line, [items[k]], items[k + 1..]);
    }
  }

  /** Each body line is, fillers aside, the cell array of the row at its index. */
  predicate LinesMatch(body: seq<seq<Value>>, orig: seq<Value>) {
    |body| <= |orig| && forall k | 0 <= k < |body| :: Strip(body[k]) == Strip(CellsOf(orig[k]))
  }

  lemma LinesMatchAppend(body: seq<seq<Value>>, orig: seq<Value>, extra: seq<Value>)
    requires LinesMatch(body, orig)
    ensures LinesMatch(body, orig + extra)
  {
    forall k | 0 <= k < |body|
      ensures Strip(body[k]) == Strip(CellsOf((orig + extra)[k]))
    {
      assert (orig + extra)[k] == orig[k];
    }
  }

  /** A row with cells, reached when the body has one line per row before it. */
  lemma RowStepPadded(g: Grid, orig: seq<Value>, p: nat)
    requires p < |g.rows| && |g.body| == p && PaddedAll(g.rows, orig) && HasCells(orig[p])
    requires LinesMatch(g.body, orig) && RowStep(g, p).Some?
    ensures var r := RowStep(g, p).value;
      PaddedAll(r.rows, orig) && |r.body| == p + 1 && LinesMatch(r.body, orig)
  {
    var row := g.rows[p];
    PaddedRead(row, orig[p]);
    var cells := Or(Get(row, "stack"), Get(row, "text"));
    var key := if Truthy(Get(row, "stack")) then "stack" else "text";
    assert row.Obj? && Field(row.fields, key) == cells && CellsOf(row) == cells.items;
    CellsLoopPadded(Cursor(g.rows, [], 0), orig, p, key, 0, |cells.items|);
    var c := CellsLoop(Cursor(g.rows, [], 0), p, key, p, 0, |cells.items|).value;
    assert [] + cells.items[0..] == cells.items;
    LinesMatchSnoc(g.body, orig, c.line);
  }

  lemma LinesMatchSnoc(body: seq<seq<Value>>, orig: seq<Value>, line: seq<Value>)
    requires LinesMatch(body, orig) && |body| < |orig| && Strip(line) == Strip(CellsOf(orig[|body|]))
    ensures LinesMatch(body + [line], orig)
  {
    forall k | 0 <= k < |body| + 1
      ensures Strip((body + [line])[k]) == Strip(CellsOf(orig[k]))
    {
      if k < |body| {
        assert (body + [line])[k] == body[k];
      }
    }
  }

  lemma {:induction false} RowsLoopPadded(g: Grid, orig: seq<Value>, base: nat, j: nat, n: nat)
    requires j <= n && base + n <= |g.rows| && |g.body| == base + j && PaddedAll(g.rows, orig)
    requires forall k | base + j <= k < base + n :: HasCells(orig[k])
    requires LinesMatch(g.body, orig) && RowsLoop(g, base, j, n).Some?
    ensures var r := RowsLoop(g, base, j, n).value;
      PaddedAll(r.rows, orig) && |r.body| == base + n && LinesMatch(r.body, orig)
    decreases n - j
  {
    if j < n {
      RowStepPadded(g, orig, base + j);
      var next := RowStep(g, base + j).value;
      assert RowsLoop(g, base, j, n) == RowsLoop(next, base, j + 1, n);
      RowsLoopPadded(next, orig, base, j + 1, n);
    }
  }

  /** A section's rows, appended to the grid and read one after the other. */
  lemma SectionRowsPadded(g: Grid, orig: seq<Value>, items: seq<Value>)
    requires PaddedAll(g.rows, orig) && |g.body| == |g.rows| && LinesMatch(g.body, orig)
    requires forall k | 0 <= k < |items| :: HasCells(items[k])
    requires RowsLoop(Grid(g.rows + items, g.body), |g.rows|, 0, |items|).Some?
    ensures var r := RowsLoop(Grid(g.rows + items, g.body), |g.rows|, 0, |items|).value;
      PaddedAll(r.rows, orig + items) && |r.body| == |r.rows| && LinesMatch(r.body, orig + items)
  {
    var orig2 := orig + items;
    PaddedAllAppend(g.rows, orig, items);
    LinesMatchAppend(g.body, orig, items);
    forall k | |g.rows| <= k < |g.rows| + |items|
      ensures HasCells(orig2[k])
    {
      assert orig2[k] == items[k - |g.rows|];
    }
    RowsLoopPadded(Grid(g.rows + items, g.body), orig2, |g.rows|, 0, |items|);
  }

  lemma SectionStepPadded(g: Grid, orig: seq<Value>, tbody: Value)
    requires PaddedAll(g.rows, orig) && |g.body| == |g.rows| && LinesMatch(g.body, orig)
    requires CellRows(tbody) && SectionStep(g, tbody).Some?
    ensures var r := SectionStep(g, tbody).value;
      PaddedAll(r.rows, orig + RowsOf(tbody)) && |r.body| == |r.rows|
      && LinesMatch(r.body, orig + RowsOf(tbody))
  {
    var rows := Or(Get(tbody, "stack"), Get(tbody, "text"));
    if rows.Arr? {
      assert RowsOf(tbody) == rows.items;
      SectionRowsPadded(g, orig, rows.items);
    } else {
      assert orig + [] == orig;
    }
  }

  lemma Regroup(a: seq<Value>, b: seq<Value>, c: seq<Value>)
    ensures (a + b) + c == a + (b + c)
  {
  }

  lemma {:induction false} SectionsLoopPadded(g: Grid, orig: seq<Value>, tbodies: seq<Value>, i: nat)
    requires i <= |tbodies| && PaddedAll(g.rows, orig) && |g.body| == |g.rows| && LinesMatch(g.body, orig)
    requires forall j | i <= j < |tbodies| :: CellRows(tbodies[j])
    requires SectionsLoop(g, tbodies, i).Some?
    ensures var r := SectionsLoop(g, tbodies, i).value;
      |r.body| == |orig + SectionRows(tbodies[i..])| && LinesMatch(r.body, orig + SectionRows(tbodies[i..]))
    decreases |tbodies| - i
  {
    if i == |tbodies| {
      assert orig + SectionRows(tbodies[i..]) == orig;
    } else {
      SectionStepPadded(g, orig, tbodies[i]);
      var next := SectionStep(g, tbodies[i]).value;
      assert SectionsLoop(g, tbodies, i) == SectionsLoop(next, tbodies, i + 1);
      SectionsLoopPadded(next, orig + RowsOf(tbodies[i]), tbodies, i + 1);
      SectionRowsFrom(tbodies, i);
      Regroup(orig, RowsOf(tbodies[i]), SectionRows(tbodies[i + 1..]));
    }
  }

  /** Lines that match the rows one by one read, fillers aside, as the rows' cells. */
  lemma {:induction false} FlatMatch(body: seq<seq<Value>>, rows: seq<Value>)
    requires |body| == |rows| && LinesMatch(body, rows)
    ensures Strip(Flat(body)) == Strip(AllCells(rows))
    decreases |body|
  {
    if body != [] {
      var m := |body| - 1;
      assert LinesMatch(body[..m], rows[..m]);
      FlatMatch(body[..m], rows[..m]);
      FlatLast(body);
      AllCellsLast(rows);
    }
  }

  lemma FlatLast(body: seq<seq<Value>>)
    requires body != []
    ensures Strip(Flat(body)) == Strip(Flat(body[..|body| - 1])) + Strip(body[|body| - 1])
  {
    StripAppend(Flat(body[..|body| - 1]), body[|body| - 1]);
  }

  lemma AllCellsLast(rows: seq<Value>)
    requires rows != []
    ensures Strip(AllCells(rows)) == Strip(AllCells(rows[..|rows| - 1])) + Strip(CellsOf(rows[|rows| - 1]))
  {
    var m := |rows| - 1;
    AllCellsAppend(rows[..m], [rows[m]]);
    assert rows[..m] + [rows[m]] == rows;
    assert AllCells([rows[m]]) == CellsOf(rows[m]) by { assert [rows[m]][1..] == []; }
    StripAppend(AllCells(rows[..m]), CellsOf(rows[m]));
  }

  /** Order is preserved with spans too: when every row has a cell array, `table.body`
      has one line per row, and leaving out the `{text: ''}` fillers, its lines read
      one after the other are the rows' cells, section after section, row after row. */
  lemma SpannedTable(ret: Props)
    requires Or(Field(ret, "stack"), Field(ret, "text")).Arr?
    requires var tbodies := Or(Field(ret, "stack"), Field(ret, "text")).items;
      forall j | 0 <= j < |tbodies| :: CellRows(tbodies[j])
    ensures var rows := SectionRows(Or(Field(ret, "stack"), Field(ret, "text")).items);
      TableBodySpec(ret).Some? ==>
        |TableBodySpec(ret).value| == |rows| && Strip(Flat(TableBodySpec(ret).value)) == Strip(AllCells(rows))
  {
    var tbodies := Or(Field(ret, "stack"), Field(ret, "text")).items;
    if TableBodySpec(ret).Some? {
      SectionsLoopPadded(Grid([], []), [], tbodies, 0);
      assert tbodies[0..] == tbodies && [] + SectionRows(tbodies) == SectionRows(tbodies);
      FlatMatch(TableBodySpec(ret).value, SectionRows(tbodies));
    }
  }

  // ---------------------------------------------------------------- a cell spanning both ways

  /** The array a filler is spliced into. */
  function SpliceItems(row: Value): seq<Value>
    requires Spliceable(row)
  {
    Field(row.fields, SpliceKey(row.fields)).items
  }

  /** The row with `t` fillers at position `c0` of that array. */
  function WithRun(row: Value, c0: nat, t: nat): Value
    requires Spliceable(row) && c0 <= |SpliceItems(row)|
  {
    var a := SpliceItems(row);
    Obj(row.fields[SpliceKey(row.fields) := Arr(a[..c0] + Fillers(t) + a[c0..])])
  }

  /** Each of the `count` rows below `rowIndex` exists, has an array to splice into and
      at least `c0` cells in it. */
  predicate Room(rows: seq<Value>, rowIndex: nat, count: nat, c0: nat) {
    rowIndex + count < |rows|
    && forall k | rowIndex + 1 <= k <= rowIndex + count :: Spliceable(rows[k]) && c0 <= |SpliceItems(rows[k])|
  }

  /** The rows with `t` fillers at `c0` in each of the `count` rows below `rowIndex`. */
  function Widened(rows: seq<Value>, rowIndex: nat, count: nat, c0: nat, t: nat): seq<Value>
    requires Room(rows, rowIndex, count, c0)
  {
    seq(|rows|, k requires 0 <= k < |rows| =>
      if rowIndex + 1 <= k <= rowIndex + count then WithRun(rows[k], c0, t) else rows[k])
  }

  /** A filler spliced anywhere into a run of fillers lengthens the run. */
  lemma {:induction false} InsertIntoRun(a: seq<Value>, c0: nat, t: nat, j: nat)
    requires c0 <= |a| && c0 <= j <= c0 + t
    ensures Insert(a[..c0] + Fillers(t) + a[c0..], j, Filler) == a[..c0] + Fillers(t + 1) + a[c0..]
  {
    var s := a[..c0] + Fillers(t) + a[c0..];
    var r := Insert(s, j, Filler);
    var w := a[..c0] + Fillers(t + 1) + a[c0..];
    assert |r| == |w|;
    forall i | 0 <= i < |r|
      ensures r[i] == w[i]
    {
      if i < c0 {
        assert r[i] == s[i] == a[i];
      } else if i < c0 + t + 1 {
        assert w[i] == Filler;
        if i < j {
          assert r[i] == s[i];
        } else if i > j {
          assert r[i] == s[i - 1];
        }
      } else {
        assert r[i] == s[i - 1] == a[i - 1 - t];
      }
    }
  }

  lemma SplicedRun(row: Value, c0: nat, t: nat, j: nat)
    requires Spliceable(row) && c0 <= |SpliceItems(row)| && c0 <= j <= c0 + t
    ensures Spliceable(WithRun(row, c0, t)) && SpliceKey(WithRun(row, c0, t).fields) == SpliceKey(row.fields)
    ensures Spliced(WithRun(row, c0, t), j) == WithRun(row, c0, t + 1)
  {
    InsertIntoRun(SpliceItems(row), c0, t, j);
  }

  lemma RunZero(rows: seq<Value>, rowIndex: nat, count: nat, c0: nat)
    requires Room(rows, rowIndex, count, c0)
    ensures Widened(rows, rowIndex, count, c0, 0) == rows
  {
    forall k | rowIndex + 1 <= k <= rowIndex + count
      ensures WithRun(rows[k], c0, 0) == rows[k]
    {
      var a := SpliceItems(rows[k]);
      assert a[..c0] + Fillers(0) + a[c0..] == a;
    }
  }

  /** `setRowSpan` at a position inside the runs lengthens every run by one. */
  lemma RowSpanWidens(rows: seq<Value>, cell: Value, rowIndex: nat, m: nat, c0: nat, t: nat, j: nat)
    requires cell.Obj? && Field(cell.fields, "rowSpan") == Num(m as real) && m >= 1
    requires Room(rows, rowIndex, m - 1, c0) && c0 <= j <= c0 + t
    ensures SetRowSpanSpec(Widened(rows, rowIndex, m - 1, c0, t), cell, rowIndex, j)
      == Some(Widened(rows, rowIndex, m - 1, c0, t + 1))
  {
    var w := Widened(rows, rowIndex, m - 1, c0, t);
    forall k | rowIndex + 1 <= k <= rowIndex + m - 1
      ensures Spliceable(w[k]) && Spliced(w[k], j) == WithRun(rows[k], c0, t + 1)
    {
      SplicedRun(rows[k], c0, t, j);
    }
    RowSpanFills(w, cell, rowIndex, j, m);
    assert SplicedBelow(w, rowIndex, j, 1, m - 1) == Widened(rows, rowIndex, m - 1, c0, t + 1);
  }

  lemma {:induction false} ColRowLoop(rows: seq<Value>, cell: Value, rowIndex: nat, m: nat, c0: nat,
                                      line: seq<Value>, t: nat, turns: nat)
    requires cell.Obj? && Field(cell.fields, "rowSpan") == Num(m as real) && m >= 1
    requires Room(rows, rowIndex, m - 1, c0) && t >= 1
    ensures ColSpanLoop(Cursor(Widened(rows, rowIndex, m - 1, c0, t), line, c0 + t - 1), cell, rowIndex, turns)
      == Some(Cursor(Widened(rows, rowIndex, m - 1, c0, t + turns), line + Fillers(turns), c0 + t - 1 + turns))
    decreases turns
  {
    if turns == 0 {
      assert line + Fillers(0) == line;
    } else {
      RowSpanWidens(rows, cell, rowIndex, m, c0, t, c0 + t - 1);
      ColRowLoop(rows, cell, rowIndex, m, c0, line + [Filler], t + 1, turns - 1);
      assert line + [Filler] + Fillers(turns - 1) == line + Fillers(turns);
    }
  }

  /** A cell with colSpan n and rowSpan m (whole numbers) at column c0: n - 1 fillers
      follow it on its line, and each of the next m - 1 rows gets n fillers at c0. */
  lemma ColRowSpanFills(c: Cursor, cell: Value, rowIndex: nat, n: nat, m: nat)
    requires cell.Obj? && Field(cell.fields, "colSpan") == Num(n as real) && n >= 1
    requires Field(cell.fields, "rowSpan") == Num(m as real) && m >= 1
    requires Room(c.rows, rowIndex, m - 1, c.cellIndex)
    ensures CellStep(c, cell, rowIndex) == Some(Cursor(Widened(c.rows, rowIndex, m - 1, c.cellIndex, n),
                                                       c.line + [cell] + Fillers(n - 1), c.cellIndex + n))
  {
    var c0 := c.cellIndex;
    assert ColSpanTurns(Finite(n as real)) == Some(n - 1) by {
      assert (-(n as real)).Floor == -(n as int);
    }
    RunZero(c.rows, rowIndex, m - 1, c0);
    RowSpanWidens(c.rows, cell, rowIndex, m, c0, 0, c0);
    ColRowLoop(c.rows, cell, rowIndex, m, c0, c.line + [cell], 1, n - 1);
  }
}
