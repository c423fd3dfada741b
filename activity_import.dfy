/**
 * `parseActivitiesExcel`: a sheet, read as rows of cells, becomes an optional
 * commencement date and a list of activity rows. The first row may carry the
 * commencement date (alone or after a "Commencement date" label), a header row
 * is looked for among the first rows, and every later row with a name becomes
 * one activity.
 */
module ActivityImport {
  import opened Wrappers
  import opened Text
  import opened Calendar
  import opened ActivityDates

  /** One entry of `rows`: an array of cells, or anything else (skipped by the code). */
  datatype Row = NotRow | Cells(cells: seq<Cell>)

  /** `row[k]`: past the end of the array the cell is `undefined`. */
  function CellAt(cells: seq<Cell>, k: nat): (c: Cell)
    ensures k >= |cells| ==> c == Blank
  {
    if k < |cells| then cells[k] else Blank
  }

  datatype Activity = Activity(
    srNo: int,
    name: string,
    activityType: ActivityType,
    targetRelative: string,
    targetDate: Option<string>,
    sortOrder: int)

  datatype Parsed = Parsed(commencement: Option<string>, activities: seq<Activity>)

  // ---------------------------------------------------------------------------
  // The first row

  /** What the first row says: the commencement date and the row where data would start. */
  datatype Preamble = Preamble(commencement: Option<string>, dataStartRow: nat)

  /** The first cell's text, lower-cased, with every white-space character removed. */
  function LabelText(c: Cell): string {
    RemoveSpaces(Lower(CellText(c)))
  }

  function ReadPreamble(row0: Row, native: string -> Option<int>): (p: Preamble)
    ensures p.dataStartRow <= 2
    ensures p.dataStartRow == 0 ==> p.commencement == None
    ensures p.commencement.Some? ==> p.commencement.value != ""
  {
    match row0
    case NotRow => Preamble(None, 0)
    case Cells(cs) =>
      var first := CellAt(cs, 0);
      var fromFirst := ParseDateCell(first, native);
      if fromFirst.Some? then Preamble(fromFirst, 1)
      else if !first.Blank? && Contains(LabelText(first), "commencement") then
        Preamble(ParseDateCell(CellAt(cs, 1), native), 2)
      else Preamble(None, 0)
  }

  /**
   * The three ways the first row is read: a date in its first cell is the
   * commencement date and makes 1 the data start row; a first cell mentioning
   * "commencement" (in any case, white space ignored) puts the date in the
   * second cell and makes 2 the data start row; anything else gives no date and
   * data start row 0. The data start row bounds the header scan and is the header
   * row when none is found, with data one row after it.
   */
  lemma PreambleCases(row0: Row, native: string -> Option<int>)
    ensures var p := ReadPreamble(row0, native);
      && (p.dataStartRow == 1 <==> row0.Cells? && ParseDateCell(CellAt(row0.cells, 0), native).Some?)
      && (p.dataStartRow == 1 ==> p.commencement == ParseDateCell(CellAt(row0.cells, 0), native))
      && (p.dataStartRow == 2 <==>
            && row0.Cells? && ParseDateCell(CellAt(row0.cells, 0), native).None?
            && !CellAt(row0.cells, 0).Blank? && Contains(LabelText(CellAt(row0.cells, 0)), "commencement"))
      && (p.dataStartRow == 2 ==> p.commencement == ParseDateCell(CellAt(row0.cells, 1), native))
  {
  }

  // ---------------------------------------------------------------------------
  // The header row

  /** `row.map(c => String(c ?? '').toLowerCase())` */
  function Lowered(cs: seq<Cell>): (hs: seq<string>)
    ensures |hs| == |cs|
    ensures forall k :: 0 <= k < |cs| ==> hs[k] == Lower(CellText(cs[k]))
  {
    seq(|cs|, k requires 0 <= k < |cs| => Lower(CellText(cs[k])))
  }

  predicate SrHeader(h: string) {
    Contains(h, "sr") || h == "sr no" || h == "sr no."
  }

  predicate NameHeader(h: string) {
    Contains(h, "activity") && Contains(h, "name")
  }

  /** The four columns the code locates in the header row. */
  datatype Column = SrColumn | NameColumn | TypeColumn | TargetColumn

  /** The test `findIndex` applies to a lower-cased header for each column. */
  predicate Marks(col: Column, h: string) {
    match col
    case SrColumn => SrHeader(h)
    case NameColumn => NameHeader(h) || h == "activity"
    case TypeColumn => Contains(h, "type")
    case TargetColumn => Contains(h, "target")
  }

  /** `headerLower.findIndex(...)`: the first header the column's test accepts, or -1. */
  function FindIndex(hs: seq<string>, col: Column): (r: int)
    ensures -1 <= r < |hs|
    ensures r >= 0 ==> Marks(col, hs[r])
    ensures forall k :: 0 <= k < |hs| && (r < 0 || k < r) ==> !Marks(col, hs[k])
    decreases |hs|
  {
    if hs == [] then -1
    else if Marks(col, hs[0]) then 0
    else
      var k := FindIndex(hs[1..], col);
      if k < 0 then -1 else k + 1
  }

  /** A located column, or the fixed position used when no header names it. */
  function ColumnOr(hs: seq<string>, col: Column, fallback: nat): (k: nat)
    ensures k == fallback || (k < |hs| && Marks(col, hs[k]))
    ensures (exists q :: 0 <= q < |hs| && Marks(col, hs[q])) ==> k < |hs| && Marks(col, hs[k])
  {
    var k := FindIndex(hs, col);
    if k < 0 then fallback else k
  }

  /** Where the header is and which column holds what. */
  datatype Layout = Layout(headerRow: nat, colSr: nat, colName: nat, colType: nat, colTarget: nat)

  function DefaultLayout(start: nat): Layout {
    Layout(start, 0, 1, 2, 3)
  }

  function LayoutOf(r: nat, hs: seq<string>): Layout {
    Layout(r, ColumnOr(hs, SrColumn, 0), ColumnOr(hs, NameColumn, 1),
      ColumnOr(hs, TypeColumn, 2), ColumnOr(hs, TargetColumn, 3))
  }

  /** `hasName || hasSr` */
  predicate IsHeader(hs: seq<string>) {
    || (exists k :: 0 <= k < |hs| && NameHeader(hs[k]))
    || (exists k :: 0 <= k < |hs| && SrHeader(hs[k]))
  }

  predicate HeaderRow(row: Row) {
    row.Cells? && IsHeader(Lowered(row.cells))
  }

  /** `Math.min(dataStartRow + 3, rows.length)` */
  function ScanBound(start: nat, n: nat): (b: nat)
    ensures b <= n && b <= start + 3
    ensures b == n || b == start + 3
  {
    if start + 3 < n then start + 3 else n
  }

  /** The header scan from row `r` on: the first header row before `bound`, if any. */
  function FirstHeader(rows: seq<Row>, r: nat, bound: nat): (h: Option<nat>)
    requires bound <= |rows|
    ensures h.Some? ==> r <= h.value < bound && HeaderRow(rows[h.value])
    decreases bound - r
  {
    if r >= bound then None
    else if HeaderRow(rows[r]) then Some(r)
    else FirstHeader(rows, r + 1, bound)
  }

  /**
   * No row of `[r, bound)` before the one the scan stops at is a header row,
   * and none at all when it finds nothing.
   */
  lemma {:induction false} FirstHeaderFirst(rows: seq<Row>, r: nat, bound: nat)
    requires bound <= |rows|
    ensures var h := FirstHeader(rows, r, bound);
      forall q :: r <= q < bound && (h.None? || q < h.value) ==> !HeaderRow(rows[q])
    decreases bound - r
  {
    if r < bound && !HeaderRow(rows[r]) {
      assert FirstHeader(rows, r, bound) == FirstHeader(rows, r + 1, bound);
      FirstHeaderFirst(rows, r + 1, bound);
    }
  }

  /** Without a header row the fixed layout is kept and the header is taken to be at `start`. */
  function LayoutFrom(rows: seq<Row>, found: Option<nat>, start: nat): Layout
    requires found.Some? ==> found.value < |rows| && rows[found.value].Cells?
  {
    match found
    case None => DefaultLayout(start)
    case Some(h) => LayoutOf(h, Lowered(rows[h].cells))
  }

  // ---------------------------------------------------------------------------
  // Data rows

  /** What every data row is read against. */
  datatype Context = Context(
    dataStart: nat,
    layout: Layout,
    commencement: Option<string>,
    native: string -> Option<int>)

  /**
   * `target_date`: an explicit date in the target cell wins; otherwise a
   * relative target is counted from the commencement date, when there is one.
   */
  function TargetDate(explicit: Option<string>, commencement: Option<string>, relative: string): Option<string> {
    if explicit.Some? then explicit
    else if commencement.Some? && commencement.value != "" && relative != "" then
      match RelativeDays(relative)
      case Some(days) => Some(AddDays(commencement.value, days))
      case None => None
    else None
  }

  /** `sr_no`: a number cell, floored and at least 1; otherwise the row's position counting from 1. */
  function SrNo(c: Cell, offset: nat): (n: int)
    ensures n >= 1
  {
    if c.Num? then (if c.value.Floor < 1 then 1 else c.value.Floor) else offset + 1
  }

  /** The cell of a row in a located column. */
  function ColumnCell(row: Row, k: nat): Cell
    requires row.Cells?
  {
    CellAt(row.cells, k)
  }

  /** `String(c).trim()` for a cell that is present, `''` for a missing one. */
  function CellTrim(c: Cell): string {
    Trim(CellText(c))
  }

  /** One pass of the row loop: row `i` becomes an activity, or is skipped. */
  function ReadRow(row: Row, i: nat, ctx: Context): (r: Option<Activity>)
    requires ctx.dataStart <= i
    ensures r.Some? ==> row.Cells? && r.value.name == CellTrim(ColumnCell(row, ctx.layout.colName))
    ensures r.Some? <==> row.Cells? && CellTrim(ColumnCell(row, ctx.layout.colName)) != ""
    ensures r.Some? ==> r.value.sortOrder == i - ctx.dataStart && r.value.srNo >= 1
  {
    match row
    case NotRow => None
    case Cells(cs) =>
      var name := CellTrim(CellAt(cs, ctx.layout.colName));
      if name == "" then None
      else
        var targetCell := CellAt(cs, ctx.layout.colTarget);
        var relative := CellTrim(targetCell);
        var date := TargetDate(ParseDateCell(targetCell, ctx.native), ctx.commencement, relative);
        Some(Activity(
          SrNo(CellAt(cs, ctx.layout.colSr), i - ctx.dataStart),
          name,
          NormalizeActivityType(CellAt(cs, ctx.layout.colType)),
          if relative != "" then relative else date.GetOr(""),
          date,
          i - ctx.dataStart))
  }

  /** How many rows the loop visits: those from `ctx.dataStart` to the end of the sheet. */
  function DataRows(rows: seq<Row>, ctx: Context): (n: nat)
    ensures n == 0 || ctx.dataStart + n == |rows|
  {
    if ctx.dataStart <= |rows| then |rows| - ctx.dataStart else 0
  }

  /** Every data row as the loop reads it: entry `j` is row `ctx.dataStart + j` read on its own. */
  function Reads(rows: seq<Row>, ctx: Context): (outcomes: seq<Option<Activity>>)
    ensures |outcomes| == DataRows(rows, ctx)
  {
    var n := DataRows(rows, ctx);
    seq(n, j requires 0 <= j < n => ReadRow(rows[ctx.dataStart + j], ctx.dataStart + j, ctx))
  }

  /** Entry `j` of the reads is data row `j` read on its own. */
  lemma ReadsAt(rows: seq<Row>, ctx: Context, j: nat)
    requires ctx.dataStart + j < |rows|
    ensures j < |Reads(rows, ctx)|
    ensures Reads(rows, ctx)[j] == ReadRow(rows[ctx.dataStart + j], ctx.dataStart + j, ctx)
  {
  }

  /** The values present in a sequence of optional values, in order. */
  function Present<T>(xs: seq<Option<T>>): (r: seq<T>)
    ensures |r| <= |xs|
    decreases |xs|
  {
    if xs == [] then []
    else Present(xs[..|xs| - 1]) + (match xs[|xs| - 1] case Some(x) => [x] case None => [])
  }

  /** One more entry adds its value, if it has one, at the end. */
  lemma PresentSnoc<T>(xs: seq<Option<T>>, x: Option<T>)
    ensures Present(xs + [x]) == Present(xs) + (match x case Some(v) => [v] case None => [])
  {
    assert (xs + [x])[..|xs|] == xs;
  }

  /** The positions whose values `Present` keeps: strictly increasing, each holding the kept value. */
  function Positions<T>(xs: seq<Option<T>>): (ps: seq<nat>)
    ensures |ps| == |Present(xs)|
    ensures forall k :: 0 <= k < |ps| ==> ps[k] < |xs| && xs[ps[k]] == Some(Present(xs)[k])
    ensures forall j, k :: 0 <= j < k < |ps| ==> ps[j] < ps[k]
    decreases |xs|
  {
    if xs == [] then []
    else
      var before := Positions(xs[..|xs| - 1]);
      assert forall k :: 0 <= k < |before| ==> xs[..|xs| - 1][before[k]] == xs[before[k]];
      before + (if xs[|xs| - 1].Some? then [|xs| - 1] else [])
  }

  /** Nothing present is dropped: a position holding a value is one of the kept positions. */
  lemma {:induction false} PresentComplete<T>(xs: seq<Option<T>>, j: nat)
    requires j < |xs| && xs[j].Some?
    ensures exists k :: 0 <= k < |Positions(xs)| && Positions(xs)[k] == j
    decreases |xs|
  {
    var init := xs[..|xs| - 1];
    if j < |xs| - 1 {
      assert init[j] == xs[j];
      PresentComplete(init, j);
      var k :| 0 <= k < |Positions(init)| && Positions(init)[k] == j;
      assert Positions(xs)[k] == j;
    } else {
      assert Positions(xs)[|Positions(xs)| - 1] == j;
    }
  }

  /**
   * The kept activities in order: names are present, `sr_no` is at least 1, and
   * `sort_order` is the row's offset from the data start, so it strictly increases.
   */
  lemma ActivitiesOrdered(rows: seq<Row>, ctx: Context)
    ensures var acts := Present(Reads(rows, ctx));
      && (forall k :: 0 <= k < |acts| ==>
            acts[k].name != "" && acts[k].srNo >= 1 && acts[k].sortOrder == Positions(Reads(rows, ctx))[k])
      && (forall j, k :: 0 <= j < k < |acts| ==> 0 <= acts[j].sortOrder < acts[k].sortOrder)
  {
    var outcomes := Reads(rows, ctx);
    var acts, ps := Present(outcomes), Positions(outcomes);
    forall k | 0 <= k < |acts|
      ensures acts[k].name != "" && acts[k].srNo >= 1 && acts[k].sortOrder == ps[k]
    {
      ReadsAt(rows, ctx, ps[k]);
    }
  }

  /** A row with a name is never lost: an activity of that name is kept, in the place of data row `j`. */
  lemma RowNotLost(rows: seq<Row>, ctx: Context, j: nat)
    requires ctx.dataStart + j < |rows| && rows[ctx.dataStart + j].Cells?
    requires CellTrim(ColumnCell(rows[ctx.dataStart + j], ctx.layout.colName)) != ""
    ensures exists k :: (0 <= k < |Present(Reads(rows, ctx))| &&
      Positions(Reads(rows, ctx))[k] == j &&
      Present(Reads(rows, ctx))[k].name == CellTrim(ColumnCell(rows[ctx.dataStart + j], ctx.layout.colName)))
  {
    var outcomes := Reads(rows, ctx);
    ReadsAt(rows, ctx, j);
    PresentComplete(outcomes, j);
  }

  /** A target cell holding a date sets `target_date` to it, whatever the commencement. */
  lemma ExplicitTarget(row: Row, i: nat, ctx: Context)
    requires ctx.dataStart <= i && row.Cells? && CellTrim(ColumnCell(row, ctx.layout.colName)) != ""
    requires ParseDateCell(ColumnCell(row, ctx.layout.colTarget), ctx.native).Some?
    ensures ReadRow(row, i, ctx).Some?
    ensures var a := ReadRow(row, i, ctx).value;
      var cell := ColumnCell(row, ctx.layout.colTarget);
      && a.targetDate == ParseDateCell(cell, ctx.native)
      && a.targetRelative == (if CellTrim(cell) != "" then CellTrim(cell) else ParseDateCell(cell, ctx.native).value)
  {
  }

  /** With no date of its own, the target is the commencement date moved by the offset, in days. */
  lemma OffsetTarget(t: int, relative: string, days: int)
    requires RelativeDays(relative) == Some(days) && 100 <= Fields(t).year <= 99999
    ensures TargetDate(None, Some(ToIsoDateLocal(At(t))), relative) == Some(ToIsoDateLocal(Clip(t + days)))
  {
    IsoNotEmpty(t);
    AddDaysMoves(t, days);
  }

  /**
   * A target cell that is not a date but an offset (`30`, `2 weeks`, ...) puts the target
   * that many days after the commencement date, and keeps the offset text as `target_relative`.
   */
  lemma RelativeTarget(row: Row, i: nat, ctx: Context, t: int, days: int)
    requires ctx.dataStart <= i && row.Cells? && CellTrim(ColumnCell(row, ctx.layout.colName)) != ""
    requires ParseDateCell(ColumnCell(row, ctx.layout.colTarget), ctx.native).None?
    requires RelativeDays(CellTrim(ColumnCell(row, ctx.layout.colTarget))) == Some(days)
    requires ctx.commencement == Some(ToIsoDateLocal(At(t))) && 100 <= Fields(t).year <= 99999
    ensures ReadRow(row, i, ctx).Some?
    ensures ReadRow(row, i, ctx).value.targetDate == Some(ToIsoDateLocal(Clip(t + days)))
    ensures ReadRow(row, i, ctx).value.targetRelative == CellTrim(ColumnCell(row, ctx.layout.colTarget))
  {
    OffsetTarget(t, CellTrim(ColumnCell(row, ctx.layout.colTarget)), days);
  }

  /** Without a date of its own, a target needs both a commencement date and a readable offset. */
  lemma NoTarget(row: Row, i: nat, ctx: Context)
    requires ctx.dataStart <= i && row.Cells? && CellTrim(ColumnCell(row, ctx.layout.colName)) != ""
    requires ParseDateCell(ColumnCell(row, ctx.layout.colTarget), ctx.native).None?
    requires ctx.commencement.None? || RelativeDays(CellTrim(ColumnCell(row, ctx.layout.colTarget))).None?
    ensures ReadRow(row, i, ctx).Some?
    ensures ReadRow(row, i, ctx).value.targetDate.None?
    ensures ReadRow(row, i, ctx).value.targetRelative == CellTrim(ColumnCell(row, ctx.layout.colTarget))
  {
  }

  // ---------------------------------------------------------------------------
  // The whole parse

  function ParseActivities(rows: seq<Row>, native: string -> Option<int>): Parsed {
    if |rows| == 0 then Parsed(None, [])
    else
      var pre := ReadPreamble(rows[0], native);
      var found := FirstHeader(rows, 0, ScanBound(pre.dataStartRow, |rows|));
      var layout := LayoutFrom(rows, found, pre.dataStartRow);
      Parsed(pre.commencement, Present(Reads(rows, Context(layout.headerRow + 1, layout, pre.commencement, native))))
  }

  /** The row loop, as the code runs it: skipped rows add nothing, read rows are appended. */
  method ReadRows(rows: seq<Row>, ctx: Context) returns (activities: seq<Activity>)
    ensures activities == Present(Reads(rows, ctx))
  {
    activities := [];
    ghost var outcomes := Reads(rows, ctx);
    // `j` counts the rows from the data start: row `i` of the code is row `ctx.dataStart + j`.
    var j: nat := 0;
    while ctx.dataStart + j < |rows|
      invariant j <= |outcomes|
      invariant activities == Present(outcomes[..j])
      decreases |rows| - j
    {
      var a := ReadRow(rows[ctx.dataStart + j], ctx.dataStart + j, ctx);
      ReadsAt(rows, ctx, j);
      assert outcomes[..j + 1] == outcomes[..j] + [a];
      PresentSnoc(outcomes[..j], a);
      if a.Some? {
        activities := activities + [a.value];
      }
      j := j + 1;
    }
    assert outcomes[..j] == outcomes;
  }

  /** The header scan, as the code runs it: the first header row found sets all four columns. */
  method FindHeader(rows: seq<Row>, bound: nat, start: nat) returns (layout: Layout)
    requires bound <= |rows|
    ensures layout == LayoutFrom(rows, FirstHeader(rows, 0, bound), start)
  {
    var headerRowIndex, colSr, colName, colType, colTarget := start, 0, 1, 2, 3;
    var r: nat := 0;
    while r < bound
      invariant r <= bound
      invariant FirstHeader(rows, 0, bound) == FirstHeader(rows, r, bound)
      invariant Layout(headerRowIndex, colSr, colName, colType, colTarget) == DefaultLayout(start)
    {
      if HeaderRow(rows[r]) {
        var hs := Lowered(rows[r].cells);
        headerRowIndex := r;
        colSr := ColumnOr(hs, SrColumn, 0);
        colName := ColumnOr(hs, NameColumn, 1);
        colType := ColumnOr(hs, TypeColumn, 2);
        colTarget := ColumnOr(hs, TargetColumn, 3);
        break;
      }
      r := r + 1;
    }
    layout := Layout(headerRowIndex, colSr, colName, colType, colTarget);
  }

  /** `parseActivitiesExcel` */
  method ParseActivitiesExcel(rows: seq<Row>, native: string -> Option<int>) returns (parsed: Parsed)
    ensures parsed == ParseActivities(rows, native)
  {
    if |rows| == 0 {
      return Parsed(None, []);
    }
    var pre := ReadPreamble(rows[0], native);
    var layout := FindHeader(rows, ScanBound(pre.dataStartRow, |rows|), pre.dataStartRow);
    var activities := ReadRows(rows, Context(layout.headerRow + 1, layout, pre.commencement, native));
    parsed := Parsed(pre.commencement, activities);
  }
}
