/** The table view's export: the statistic, pruned to the index levels that vary, laid out in
    a 2-D grid with one row per (row, subrow) group and one column per (column, subcolumn)
    group, headers along the top rows and the left columns. */
module TableExport {
  import opened Wrappers
  import opened Order
  import opened Values
  import opened ViewPlugin
  import opened Table
  import Text

  datatype Facets = Facets(row: string, subrow: string, column: string, subcolumn: string)

  /** A cell of the exported grid: numpy's `None`, a value of the statistic, or a header. */
  datatype Cell = Blank | Datum(v: Value) | Header(text: string)

  /** The groups along each axis (an unused facet has the single group `None`) and the
      names of the levels that survive pruning, in index order. */
  datatype Layout = Layout(
    f: Facets,
    rows: seq<Option<Value>>,
    subrows: seq<Option<Value>>,
    cols: seq<Option<Value>>,
    subcols: seq<Option<Value>>,
    names: seq<string>)

  /** `self.result.get(agg_idx)`: the statistic's value at a key, or None. */
  type Lookup = seq<Option<Value>> -> Option<Value>

  /** Whether `data.loc[agg_idx]` finds the key (it raises KeyError otherwise). */
  type Presence = seq<Option<Value>> -> bool

  // ---------------------------------------------------------------- arithmetic

  lemma MulMonotone(a: int, b: int, n: int)
    requires a <= b && n >= 0
    ensures a * n <= b * n
  {
    assert b * n - a * n == (b - a) * n;
  }

  lemma MulSign(k: int, n: int)
    requires n > 0
    ensures k >= 1 ==> k * n >= n
    ensures k <= -1 ==> k * n <= -n
  {
    if k >= 1 {
      MulMonotone(1, k, n);
    }
    if k <= -1 {
      MulMonotone(k, -1, n);
    }
  }

  lemma DivMod(q: int, r: int, n: int)
    requires n > 0 && 0 <= r < n
    ensures (q * n + r) / n == q && (q * n + r) % n == r
  {
    var a := q * n + r;
    var d, m := a / n, a % n;
    assert a == d * n + m && 0 <= m < n;
    assert (d - q) * n == r - m;
    MulSign(d - q, n);
  }

  lemma PosBound(q: int, r: int, n: int, m: int)
    requires 0 <= q < m && 0 <= r < n
    ensures 0 <= q * n + r < m * n
  {
    MulMonotone(q + 1, m, n);
  }

  lemma DivBound(a: int, n: int, m: int)
    requires n > 0 && 0 <= a < m * n
    ensures 0 <= a / n < m && 0 <= a % n < n
  {
    var q := a / n;
    MulMonotone(0, q, n);
    if q >= m {
      MulMonotone(m, q, n);
    }
  }

  // ---------------------------------------------------------------- dimensions and positions

  /** The header rows: one per column facet in use. */
  function RowOffset(f: Facets): nat
  {
    (if f.column != "" then 1 else 0) + (if f.subcolumn != "" then 1 else 0)
  }

  /** The header columns: one per row facet in use. */
  function ColOffset(f: Facets): nat
  {
    (if f.row != "" then 1 else 0) + (if f.subrow != "" then 1 else 0)
  }

  function Height(L: Layout): nat
  {
    |L.rows| * |L.subrows| + RowOffset(L.f)
  }

  function Width(L: Layout): nat
  {
    |L.cols| * |L.subcols| + ColOffset(L.f)
  }

  /** The grid row of row group `ri`, subrow group `rri`. */
  function RowPos(L: Layout, ri: int, rri: int): int
  {
    ri * |L.subrows| + rri + RowOffset(L.f)
  }

  /** The grid column of column group `ci`, subcolumn group `cci`. */
  function ColPos(L: Layout, ci: int, cci: int): int
  {
    ci * |L.subcols| + cci + ColOffset(L.f)
  }

  predicate InGroups(L: Layout, ri: int, rri: int, ci: int, cci: int)
  {
    0 <= ri < |L.rows| && 0 <= rri < |L.subrows| && 0 <= ci < |L.cols| && 0 <= cci < |L.subcols|
  }

  /** Every data cell lies inside the grid, below the header rows and right of the header
      columns. */
  lemma DataPosInBounds(L: Layout, ri: int, rri: int, ci: int, cci: int)
    requires InGroups(L, ri, rri, ci, cci)
    ensures RowOffset(L.f) <= RowPos(L, ri, rri) < Height(L)
    ensures ColOffset(L.f) <= ColPos(L, ci, cci) < Width(L)
  {
    PosBound(ri, rri, |L.subrows|, |L.rows|);
    PosBound(ci, cci, |L.subcols|, |L.cols|);
  }

  /** Distinct groups land in distinct cells. */
  lemma DataPosInjective(L: Layout, ri: int, rri: int, ci: int, cci: int, ri': int, rri': int, ci': int, cci': int)
    requires InGroups(L, ri, rri, ci, cci) && InGroups(L, ri', rri', ci', cci')
    requires RowPos(L, ri, rri) == RowPos(L, ri', rri') && ColPos(L, ci, cci) == ColPos(L, ci', cci')
    ensures ri == ri' && rri == rri' && ci == ci' && cci == cci'
  {
    DivMod(ri, rri, |L.subrows|);
    DivMod(ri', rri', |L.subrows|);
    DivMod(ci, cci, |L.subcols|);
    DivMod(ci', cci', |L.subcols|);
  }

  // ---------------------------------------------------------------- the data cells

  /** `agg_idx`: for each surviving level, in index order, the group of the first facet that
      names it. */
  function AggKey(names: seq<string>, f: Facets, r: Option<Value>, rr: Option<Value>, c: Option<Value>, cc: Option<Value>): seq<Option<Value>>
  {
    if names == [] then []
    else
      var n := names[0];
      (if n == f.row then [r] else if n == f.subrow then [rr] else if n == f.column then [c]
       else if n == f.subcolumn then [cc] else []) + AggKey(names[1..], f, r, rr, c, cc)
  }

  function Key(L: Layout, ri: int, rri: int, ci: int, cci: int): seq<Option<Value>>
    requires InGroups(L, ri, rri, ci, cci)
  {
    AggKey(L.names, L.f, L.rows[ri], L.subrows[rri], L.cols[ci], L.subcols[cci])
  }

  function CellOf(o: Option<Value>): Cell
  {
    match o
    case Some(v) => Datum(v)
    case None => Blank
  }

  predicate InData(L: Layout, i: int, j: int)
  {
    |L.subrows| > 0 && |L.subcols| > 0 &&
    RowOffset(L.f) <= i < Height(L) && ColOffset(L.f) <= j < Width(L)
  }

  /** The value the export puts in a data cell. */
  function DataAt(L: Layout, lookup: Lookup, i: int, j: int): Cell
    requires InData(L, i, j)
  {
    var R := i - RowOffset(L.f);
    var C := j - ColOffset(L.f);
    DivBound(R, |L.subrows|, |L.rows|);
    DivBound(C, |L.subcols|, |L.cols|);
    CellOf(lookup(Key(L, R / |L.subrows|, R % |L.subrows|, C / |L.subcols|, C % |L.subcols|)))
  }

  lemma DataPosAt(L: Layout, lookup: Lookup, ri: int, rri: int, ci: int, cci: int)
    requires InGroups(L, ri, rri, ci, cci)
    ensures InData(L, RowPos(L, ri, rri), ColPos(L, ci, cci))
    ensures DataAt(L, lookup, RowPos(L, ri, rri), ColPos(L, ci, cci)) == CellOf(lookup(Key(L, ri, rri, ci, cci)))
  {
    DataPosInBounds(L, ri, rri, ci, cci);
    DivMod(ri, rri, |L.subrows|);
    DivMod(ci, cci, |L.subcols|);
  }

  /** Every data cell's key is found by `data.loc`. */
  ghost predicate AllPresent(L: Layout, present: Presence)
  {
    forall ri, rri, ci, cci :: InGroups(L, ri, rri, ci, cci) ==> present(Key(L, ri, rri, ci, cci))
  }

  // ---------------------------------------------------------------- the headers, as written

  function ShowGroup(p: Printer, g: Option<Value>): string
  {
    match g
    case Some(v) => Show(p, v)
    case None => "None"
  }

  /** `"{0} = {1}".format(facet, group)`. */
  function HeaderText(p: Printer, facet: string, g: Option<Value>): string
  {
    facet + " = " + ShowGroup(p, g)
  }

  predicate IsRowHeader(L: Layout, i: int, j: int)
  {
    var ro := RowOffset(L.f);
    L.f.row != "" && j == 0 && |L.subrows| > 0 && i >= ro &&
    (i - ro) % |L.subrows| == 0 && (i - ro) / |L.subrows| < |L.rows|
  }

  predicate IsSubrowHeader(L: Layout, i: int, j: int)
  {
    L.f.subrow != "" && j == 1 && |L.subrows| > 0 && RowOffset(L.f) <= i < Height(L)
  }

  predicate IsColumnHeader(L: Layout, i: int, j: int)
  {
    var co := ColOffset(L.f);
    L.f.column != "" && i == 0 && |L.subcols| > 0 && j >= co &&
    (j - co) % |L.subcols| == 0 && (j - co) / |L.subcols| < |L.cols|
  }

  predicate IsSubcolumnHeader(L: Layout, i: int, j: int)
  {
    L.f.subcolumn != "" && i == 1 && |L.subcols| > 0 && ColOffset(L.f) <= j < Width(L)
  }

  function RowHeaderAt(L: Layout, p: Printer, i: int): Cell
    requires IsRowHeader(L, i, 0)
  {
    Header(HeaderText(p, L.f.row, L.rows[(i - RowOffset(L.f)) / |L.subrows|]))
  }

  function SubrowHeaderAt(L: Layout, p: Printer, i: int): Cell
    requires IsSubrowHeader(L, i, 1)
  {
    Header(HeaderText(p, L.f.subrow, L.subrows[(i - RowOffset(L.f)) % |L.subrows|]))
  }

  function ColumnHeaderAt(L: Layout, p: Printer, j: int): Cell
    requires IsColumnHeader(L, 0, j)
  {
    Header(HeaderText(p, L.f.column, L.cols[(j - ColOffset(L.f)) / |L.subcols|]))
  }

  /** The subcolumn header, as the source writes it: with the column group's value. */
  function SubcolumnHeaderAt(L: Layout, p: Printer, j: int): Cell
    requires IsSubcolumnHeader(L, 1, j)
  {
    var C := j - ColOffset(L.f);
    DivBound(C, |L.subcols|, |L.cols|);
    Header(HeaderText(p, L.f.subcolumn, L.cols[C / |L.subcols|]))
  }

  /** The exported grid as the source builds it: data cells first, then row, subrow, column
      and subcolumn headers, each written over what was there. */
  function Final(L: Layout, p: Printer, lookup: Lookup, i: int, j: int): Cell
  {
    if IsSubcolumnHeader(L, i, j) then SubcolumnHeaderAt(L, p, j)
    else if IsColumnHeader(L, i, j) then ColumnHeaderAt(L, p, j)
    else if IsSubrowHeader(L, i, j) then SubrowHeaderAt(L, p, i)
    else if IsRowHeader(L, i, j) then RowHeaderAt(L, p, i)
    else if InData(L, i, j) then DataAt(L, lookup, i, j)
    else Blank
  }

  /** Unused facets have the single group `None`, and the groups of used facets are all empty
      (no row survives the subset) or all non-empty. */
  predicate WfLayout(L: Layout)
  {
    (L.f.row == "" ==> L.rows == [None]) && (L.f.subrow == "" ==> L.subrows == [None]) &&
    (L.f.column == "" ==> L.cols == [None]) && (L.f.subcolumn == "" ==> L.subcols == [None]) &&
    ((L.rows == [] || L.subrows == [] || L.cols == [] || L.subcols == []) ==>
      (L.f.row != "" ==> L.rows == []) && (L.f.subrow != "" ==> L.subrows == []) &&
      (L.f.column != "" ==> L.cols == []) && (L.f.subcolumn != "" ==> L.subcols == []))
  }

  /** Row headers sit in column 0, one at the first grid row of each row group. */
  lemma RowHeadersInColumnZero(L: Layout, p: Printer, lookup: Lookup, ri: int)
    requires WfLayout(L) && L.f.row != "" && 0 <= ri < |L.rows|
    ensures RowPos(L, ri, 0) < Height(L) && 0 < Width(L)
    ensures Final(L, p, lookup, RowPos(L, ri, 0), 0) == Header(HeaderText(p, L.f.row, L.rows[ri]))
  {
    DataPosInBounds(L, ri, 0, 0, 0);
    DivMod(ri, 0, |L.subrows|);
  }

  /** Column headers sit in row 0, one at the first grid column of each column group. */
  lemma ColumnHeadersInRowZero(L: Layout, p: Printer, lookup: Lookup, ci: int)
    requires WfLayout(L) && L.f.column != "" && 0 <= ci < |L.cols|
    ensures 0 < Height(L) && ColPos(L, ci, 0) < Width(L)
    ensures Final(L, p, lookup, 0, ColPos(L, ci, 0)) == Header(HeaderText(p, L.f.column, L.cols[ci]))
  {
    DataPosInBounds(L, 0, 0, ci, 0);
    DivMod(ci, 0, |L.subcols|);
  }

  /** With the row facet in use, subrow headers sit in column 1, one per grid row. */
  lemma SubrowHeadersInColumnOne(L: Layout, p: Printer, lookup: Lookup, ri: int, rri: int)
    requires WfLayout(L) && L.f.row != "" && L.f.subrow != ""
    requires 0 <= ri < |L.rows| && 0 <= rri < |L.subrows|
    ensures RowPos(L, ri, rri) < Height(L) && 1 < Width(L)
    ensures Final(L, p, lookup, RowPos(L, ri, rri), 1) == Header(HeaderText(p, L.f.subrow, L.subrows[rri]))
  {
    DataPosInBounds(L, ri, rri, 0, 0);
    DivMod(ri, rri, |L.subrows|);
  }

  /** The subcolumn header of every subcolumn group of a column group names the COLUMN group's
      value (`c`, where `cc` is evidently meant). */
  lemma SubcolumnHeaderNamesColumnValue(L: Layout, p: Printer, lookup: Lookup, ci: int, cci: int)
    requires WfLayout(L) && L.f.subcolumn != "" && 0 <= ci < |L.cols| && 0 <= cci < |L.subcols|
    ensures 1 < Height(L) && ColPos(L, ci, cci) < Width(L)
    ensures Final(L, p, lookup, 1, ColPos(L, ci, cci)) == Header(HeaderText(p, L.f.subcolumn, L.cols[ci]))
  {
    DataPosInBounds(L, 0, 0, ci, cci);
    DivMod(ci, cci, |L.subcols|);
  }

  /** When each sub-facet is used only together with its facet, every data cell keeps the
      statistic's value. */
  lemma DataCellsKept(L: Layout, p: Printer, lookup: Lookup, ri: int, rri: int, ci: int, cci: int)
    requires (L.f.subrow != "" ==> L.f.row != "") && (L.f.subcolumn != "" ==> L.f.column != "")
    requires InGroups(L, ri, rri, ci, cci)
    ensures Final(L, p, lookup, RowPos(L, ri, rri), ColPos(L, ci, cci)) == CellOf(lookup(Key(L, ri, rri, ci, cci)))
  {
    DataPosAt(L, lookup, ri, rri, ci, cci);
  }

  /** As written, a subrow facet without a row facet puts its headers in column 1, which is
      then the first data column: the statistic's values there are lost. */
  lemma SubrowHeaderHidesData(L: Layout, p: Printer, lookup: Lookup, ri: int, rri: int)
    requires L.f.row == "" && L.f.subrow != ""
    requires InGroups(L, ri, rri, 0, 0)
    ensures ColPos(L, 0, 0) == 1 && InData(L, RowPos(L, ri, rri), 1)
    ensures Final(L, p, lookup, RowPos(L, ri, rri), 1).Header?
  {
    DataPosAt(L, lookup, ri, rri, 0, 0);
  }

  /** Likewise a subcolumn facet without a column facet writes its headers over the first
      data row. */
  lemma SubcolumnHeaderHidesData(L: Layout, p: Printer, lookup: Lookup, ci: int, cci: int)
    requires L.f.column == "" && L.f.subcolumn != ""
    requires InGroups(L, 0, 0, ci, cci)
    ensures RowPos(L, 0, 0) == 1 && InData(L, 1, ColPos(L, ci, cci))
    ensures Final(L, p, lookup, 1, ColPos(L, ci, cci)).Header?
  {
    DataPosAt(L, lookup, 0, 0, ci, cci);
  }

  // ---------------------------------------------------------------- the headers, as intended

  /** Sub-facet headers in the header row or column next to the data (the last one), and the
      subcolumn header naming its own group. */
  predicate IsSubrowHeaderIntended(L: Layout, i: int, j: int)
  {
    L.f.subrow != "" && j == ColOffset(L.f) - 1 && |L.subrows| > 0 && RowOffset(L.f) <= i < Height(L)
  }

  predicate IsSubcolumnHeaderIntended(L: Layout, i: int, j: int)
  {
    L.f.subcolumn != "" && i == RowOffset(L.f) - 1 && |L.subcols| > 0 && ColOffset(L.f) <= j < Width(L)
  }

  function SubcolumnHeaderIntended(L: Layout, p: Printer, j: int): Cell
    requires IsSubcolumnHeaderIntended(L, RowOffset(L.f) - 1, j)
  {
    Header(HeaderText(p, L.f.subcolumn, L.subcols[(j - ColOffset(L.f)) % |L.subcols|]))
  }

  function FinalIntended(L: Layout, p: Printer, lookup: Lookup, i: int, j: int): Cell
  {
    if IsSubcolumnHeaderIntended(L, i, j) then SubcolumnHeaderIntended(L, p, j)
    else if IsColumnHeader(L, i, j) then ColumnHeaderAt(L, p, j)
    else if IsSubrowHeaderIntended(L, i, j) then SubrowHeaderAt(L, p, i)
    else if IsRowHeader(L, i, j) then RowHeaderAt(L, p, i)
    else if InData(L, i, j) then DataAt(L, lookup, i, j)
    else Blank
  }

  /** Laid out as intended, no header ever covers a data cell, whatever facets are used. */
  lemma IntendedKeepsData(L: Layout, p: Printer, lookup: Lookup, ri: int, rri: int, ci: int, cci: int)
    requires InGroups(L, ri, rri, ci, cci)
    ensures FinalIntended(L, p, lookup, RowPos(L, ri, rri), ColPos(L, ci, cci)) == CellOf(lookup(Key(L, ri, rri, ci, cci)))
  {
    DataPosAt(L, lookup, ri, rri, ci, cci);
  }

  /** Laid out as intended, each subcolumn header names its own subcolumn group. */
  lemma IntendedSubcolumnHeader(L: Layout, p: Printer, lookup: Lookup, ci: int, cci: int)
    requires WfLayout(L) && L.f.subcolumn != "" && 0 <= ci < |L.cols| && 0 <= cci < |L.subcols|
    ensures 0 <= RowOffset(L.f) - 1 < Height(L) && ColPos(L, ci, cci) < Width(L)
    ensures FinalIntended(L, p, lookup, RowOffset(L.f) - 1, ColPos(L, ci, cci)) ==
      Header(HeaderText(p, L.f.subcolumn, L.subcols[cci]))
  {
    DataPosInBounds(L, 0, 0, ci, cci);
    DivMod(ci, cci, |L.subcols|);
  }

  // ---------------------------------------------------------------- building the layout

  /** `index.get_level_values(name)`: the values of the first level called `name`. */
  function ValuesOf(levels: seq<Level>, name: string): seq<Value>
  {
    if levels == [] then []
    else if levels[0].name == name then levels[0].values
    else ValuesOf(levels[1..], name)
  }

  function Wrap(vs: seq<Value>): (r: seq<Option<Value>>)
    ensures |r| == |vs| && forall k :: 0 <= k < |vs| ==> r[k] == Some(vs[k])
  {
    seq(|vs|, k requires 0 <= k < |vs| => Some(vs[k]))
  }

  /** The groups of one facet: the level's distinct values in order of appearance, or the
      single group `None` for an unused facet. */
  function Groups(kept: seq<Level>, facet: string): seq<Option<Value>>
  {
    if facet == "" then [None] else Wrap(Unique(ValuesOf(kept, facet)))
  }

  /** The facets in use, in the order row, subrow, column, subcolumn. */
  function UsedFacets(f: Facets): seq<string>
  {
    Filter([f.row, f.subrow, f.column, f.subcolumn], NonEmpty)
  }

  function LayoutOf(kept: seq<Level>, f: Facets): Layout
  {
    Layout(f, Groups(kept, f.row), Groups(kept, f.subrow), Groups(kept, f.column),
           Groups(kept, f.subcolumn), LevelNames(kept))
  }

  /** `set(facets) == set(data.index.names)`. */
  predicate FacetsMatch(f: Facets, kept: seq<Level>)
  {
    (set x | x in UsedFacets(f)) == (set n | n in LevelNames(kept))
  }

  /** How the level names print in the error message: pandas' list of the names, each in
      single quotes, separated by commas. */
  function ShowNames(names: seq<string>): string
  {
    "[" + Text.Join(", ", seq(|names|, i requires 0 <= i < |names| => "'" + names[i] + "'")) + "]"
  }

  function FacetsMessage(names: seq<string>): string
  {
    "Must use all the statistic indices as variables or facets: " + ShowNames(names)
  }

  /** Everything the export decides before it fills the grid: the subset applied, the levels
      that hold a single value dropped, and the facets checked against what is left. */
  function ExportLayout(index: seq<Level>, f: Facets, subset: string, query: Query): Result<Layout>
    requires Rectangular(index)
  {
    var data := Queried(index, subset, query);
    var kept :- Pruned(data);
    if !FacetsMatch(f, kept) then
      Err(CytoflowViewError(FacetsMessage(LevelNames(kept))))
    else
      Ok(LayoutOf(kept, f))
  }

  lemma {:induction false} ValuesOfLength(levels: seq<Level>, name: string, n: nat)
    requires forall k :: 0 <= k < |levels| ==> |levels[k].values| == n
    requires name in LevelNames(levels)
    ensures |ValuesOf(levels, name)| == n
  {
    if levels[0].name != name {
      assert LevelNames(levels[1..]) == LevelNames(levels)[1..];
      ValuesOfLength(levels[1..], name, n);
    }
  }

  lemma GroupsEmptyIff(kept: seq<Level>, facet: string, n: nat)
    requires forall k :: 0 <= k < |kept| ==> |kept[k].values| == n
    requires facet != "" && facet in LevelNames(kept)
    ensures Groups(kept, facet) == [] <==> n == 0
  {
    var vs := ValuesOf(kept, facet);
    ValuesOfLength(kept, facet, n);
    if n > 0 {
      assert vs[0] in Unique(vs);
    }
  }

  lemma FacetsMatchIff(f: Facets, kept: seq<Level>)
    ensures FacetsMatch(f, kept) <==> forall x :: x in UsedFacets(f) <==> x in LevelNames(kept)
  {
    var a, b := set x | x in UsedFacets(f), set n | n in LevelNames(kept);
    forall x ensures x in a <==> x in UsedFacets(f) {}
    forall x ensures x in b <==> x in LevelNames(kept) {}
    if forall x :: x in UsedFacets(f) <==> x in LevelNames(kept) {
      assert a == b;
    }
  }

  /** Once pruning succeeds, the export refuses exactly the facets that do not name the
      surviving levels one for one, and its message lists those levels. */
  lemma ExportRefusesMismatchedFacets(index: seq<Level>, f: Facets, subset: string, query: Query)
    requires Rectangular(index)
    requires Pruned(Queried(index, subset, query)).Ok?
    ensures var kept := Pruned(Queried(index, subset, query)).value;
      (ExportLayout(index, f, subset, query).Err? <==>
         exists x :: (x in UsedFacets(f)) != (x in LevelNames(kept))) &&
      (ExportLayout(index, f, subset, query).Err? ==>
         ExportLayout(index, f, subset, query).error == CytoflowViewError(FacetsMessage(LevelNames(kept))))
  {
    FacetsMatchIff(f, Pruned(Queried(index, subset, query)).value);
  }

  /** The groups of an index whose levels all hold n values, with every used facet a level:
      an unused facet has the group `None`, and the used facets' groups are all empty (n is
      0) or all non-empty. */
  lemma LayoutOfWellFormed(kept: seq<Level>, f: Facets, n: nat)
    requires forall k :: 0 <= k < |kept| ==> |kept[k].values| == n
    requires forall x :: x in UsedFacets(f) ==> x in LevelNames(kept)
    ensures WfLayout(LayoutOf(kept, f))
  {
    var facets := [f.row, f.subrow, f.column, f.subcolumn];
    forall x | x in facets && x != "" ensures Groups(kept, x) == [] <==> n == 0 {
      assert x in UsedFacets(f);
      GroupsEmptyIff(kept, x, n);
    }
  }

  /** A layout the export builds has exactly the facets in use as its level names, and its
      groups are well formed. */
  lemma ExportLayoutWellFormed(index: seq<Level>, f: Facets, subset: string, query: Query)
    requires Rectangular(index)
    requires ExportLayout(index, f, subset, query).Ok?
    ensures var L := ExportLayout(index, f, subset, query).value;
      L.f == f && WfLayout(L) && (forall x :: x in UsedFacets(f) <==> x in L.names)
  {
    var data := Queried(index, subset, query);
    var kept := Filter(data, Varies);
    assert Pruned(data) == Ok(kept);
    assert FacetsMatch(f, kept);
    FacetsMatchIff(f, kept);
    var n := NumRows(data);
    forall k | 0 <= k < |kept| ensures |kept[k].values| == n {
      assert kept[k] in data;
    }
    LayoutOfWellFormed(kept, f, n);
  }

  // ---------------------------------------------------------------- filling the grid

  /** The keys of the groups before (ri, rri, ci, cci), in loop order, were all found. */
  ghost predicate PresentBefore(L: Layout, present: Presence, ri: int, rri: int, ci: int, cci: int)
  {
    forall a, b, c, d :: InGroups(L, a, b, c, d) &&
      (a < ri || (a == ri && (b < rri || (b == rri && (c < ci || (c == ci && d < cci))))))
      ==> present(Key(L, a, b, c, d))
  }

  /** The data cells before data row R, column C hold their values; every other cell is
      still empty. */
  ghost predicate DataDone(t: array2<Cell>, L: Layout, lookup: Lookup, R: int, C: int)
    reads t
  {
    forall i, j :: 0 <= i < t.Length0 && 0 <= j < t.Length1 ==>
      t[i, j] == if InData(L, i, j) && (i - RowOffset(L.f) < R || (i - RowOffset(L.f) == R && j - ColOffset(L.f) < C))
                 then DataAt(L, lookup, i, j) else Blank
  }

  /** Finding one more key extends the found prefix by one group. */
  lemma PresentNext(L: Layout, present: Presence, ri: int, rri: int, ci: int, cci: int)
    requires InGroups(L, ri, rri, ci, cci) && PresentBefore(L, present, ri, rri, ci, cci)
    requires present(Key(L, ri, rri, ci, cci))
    ensures PresentBefore(L, present, ri, rri, ci, cci + 1)
  {
  }

  /** The found prefix carries over at the end of each of the inner three loops. */
  lemma PresentCarry(L: Layout, present: Presence, ri: int, rri: int, ci: int)
    ensures PresentBefore(L, present, ri, rri, ci, |L.subcols|) ==> PresentBefore(L, present, ri, rri, ci + 1, 0)
    ensures PresentBefore(L, present, ri, rri, |L.cols|, 0) ==> PresentBefore(L, present, ri, rri + 1, 0, 0)
    ensures PresentBefore(L, present, ri, |L.subrows|, 0, 0) ==> PresentBefore(L, present, ri + 1, 0, 0, 0)
  {
  }

  /** A missing key makes the export fail; all keys found before the last row group means
      every key is found. */
  lemma PresentEnds(L: Layout, present: Presence, ri: int, rri: int, ci: int, cci: int)
    ensures InGroups(L, ri, rri, ci, cci) && !present(Key(L, ri, rri, ci, cci)) ==> !AllPresent(L, present)
    ensures PresentBefore(L, present, |L.rows|, 0, 0, 0) ==> AllPresent(L, present)
  {
  }

  /** An empty grid has no data cell done yet; with every row group done, the grid holds
      exactly the data. */
  lemma DataDoneEnds(t: array2<Cell>, L: Layout, lookup: Lookup)
    requires t.Length0 == Height(L) && t.Length1 == Width(L)
    ensures (forall i, j :: 0 <= i < t.Length0 && 0 <= j < t.Length1 ==> t[i, j] == Blank) ==>
      DataDone(t, L, lookup, 0, 0)
    ensures DataDone(t, L, lookup, |L.rows| * |L.subrows|, 0) ==>
      forall i, j :: 0 <= i < t.Length0 && 0 <= j < t.Length1 ==>
        t[i, j] == if InData(L, i, j) then DataAt(L, lookup, i, j) else Blank
  {
  }

  lemma DataRowDone(t: array2<Cell>, L: Layout, lookup: Lookup, R: int)
    requires t.Length1 == Width(L)
    requires DataDone(t, L, lookup, R, |L.cols| * |L.subcols|)
    ensures DataDone(t, L, lookup, R + 1, 0)
  {
  }

  /** One step of the main table loop: the cell of group (ri, rri, ci, cci) gets its value. */
  method FillCell(t: array2<Cell>, L: Layout, lookup: Lookup, ri: int, rri: int, ci: int, cci: int)
    requires t.Length0 == Height(L) && t.Length1 == Width(L) && InGroups(L, ri, rri, ci, cci)
    requires DataDone(t, L, lookup, ri * |L.subrows| + rri, ci * |L.subcols| + cci)
    modifies t
    ensures DataDone(t, L, lookup, ri * |L.subrows| + rri, ci * |L.subcols| + cci + 1)
  {
    DataPosAt(L, lookup, ri, rri, ci, cci);
    t[RowPos(L, ri, rri), ColPos(L, ci, cci)] := CellOf(lookup(Key(L, ri, rri, ci, cci)));
  }

  /** The two inner loops of the main table loop: the data cells of row group `ri`, subrow
      group `rri`. */
  method FillDataRow(t: array2<Cell>, L: Layout, lookup: Lookup, present: Presence, ri: int, rri: int)
    returns (ok: bool)
    requires t.Length0 == Height(L) && t.Length1 == Width(L)
    requires 0 <= ri < |L.rows| && 0 <= rri < |L.subrows|
    requires PresentBefore(L, present, ri, rri, 0, 0)
    requires DataDone(t, L, lookup, ri * |L.subrows| + rri, 0)
    modifies t
    ensures !ok ==> !AllPresent(L, present)
    ensures ok ==> (PresentBefore(L, present, ri, rri, |L.cols|, 0) &&
      DataDone(t, L, lookup, ri * |L.subrows| + rri, |L.cols| * |L.subcols|))
  {
    var nsc := |L.subcols|;
    var ci := 0;
    while ci < |L.cols|
      invariant 0 <= ci <= |L.cols|
      invariant PresentBefore(L, present, ri, rri, ci, 0)
      invariant DataDone(t, L, lookup, ri * |L.subrows| + rri, ci * nsc)
    {
      var cci := 0;
      while cci < nsc
        invariant 0 <= cci <= nsc
        invariant PresentBefore(L, present, ri, rri, ci, cci)
        invariant DataDone(t, L, lookup, ri * |L.subrows| + rri, ci * nsc + cci)
      {
        var key := AggKey(L.names, L.f, L.rows[ri], L.subrows[rri], L.cols[ci], L.subcols[cci]);
        if !present(key) {
          PresentEnds(L, present, ri, rri, ci, cci);
          return false;
        }
        PresentNext(L, present, ri, rri, ci, cci);
        FillCell(t, L, lookup, ri, rri, ci, cci);
        cci := cci + 1;
      }
      PresentCarry(L, present, ri, rri, ci);
      assert ci * nsc + nsc == (ci + 1) * nsc;
      ci := ci + 1;
    }
    return true;
  }

  /** The main table loop: every data cell gets `result.get(agg_idx)`; a key `data.loc` does
      not find stops the export. */
  method FillData(t: array2<Cell>, L: Layout, lookup: Lookup, present: Presence) returns (ok: bool)
    requires t.Length0 == Height(L) && t.Length1 == Width(L)
    requires forall i, j :: 0 <= i < t.Length0 && 0 <= j < t.Length1 ==> t[i, j] == Blank
    modifies t
    ensures ok <==> AllPresent(L, present)
    ensures ok ==> forall i, j :: 0 <= i < t.Length0 && 0 <= j < t.Length1 ==>
      t[i, j] == if InData(L, i, j) then DataAt(L, lookup, i, j) else Blank
  {
    var nsr := |L.subrows|;
    DataDoneEnds(t, L, lookup);
    var ri := 0;
    while ri < |L.rows|
      invariant 0 <= ri <= |L.rows|
      invariant PresentBefore(L, present, ri, 0, 0, 0)
      invariant DataDone(t, L, lookup, ri * nsr, 0)
    {
      var rri := 0;
      while rri < nsr
        invariant 0 <= rri <= nsr
        invariant PresentBefore(L, present, ri, rri, 0, 0)
        invariant DataDone(t, L, lookup, ri * nsr + rri, 0)
      {
        ok := FillDataRow(t, L, lookup, present, ri, rri);
        if !ok {
          return false;
        }
        PresentCarry(L, present, ri, rri, 0);
        DataRowDone(t, L, lookup, ri * nsr + rri);
        rri := rri + 1;
      }
      PresentCarry(L, present, ri, 0, 0);
      assert ri * nsr + nsr == (ri + 1) * nsr;
      ri := ri + 1;
    }
    PresentEnds(L, present, 0, 0, 0, 0);
    DataDoneEnds(t, L, lookup);
    return true;
  }

  method FillRowHeaders(t: array2<Cell>, L: Layout, p: Printer)
    requires WfLayout(L) && t.Length0 == Height(L) && t.Length1 == Width(L)
    modifies t
    ensures forall i, j :: 0 <= i < t.Length0 && 0 <= j < t.Length1 ==>
      t[i, j] == if IsRowHeader(L, i, j) then RowHeaderAt(L, p, i) else old(t[i, j])
  {
    if L.f.row != "" {
      var nsr := |L.subrows|;
      var ri := 0;
      while ri < |L.rows|
        invariant 0 <= ri <= |L.rows|
        invariant forall i, j :: 0 <= i < t.Length0 && 0 <= j < t.Length1 ==>
          t[i, j] == if RowHeaderBefore(L, i, j, ri) then RowHeaderAt(L, p, i) else old(t[i, j])
      {
        DataPosInBounds(L, ri, 0, 0, 0);
        RowHeaderFirst(L, p, ri);
        t[RowPos(L, ri, 0), 0] := Header(HeaderText(p, L.f.row, L.rows[ri]));
        forall i, j {
          RowHeaderNext(L, ri, i, j);
        }
        ri := ri + 1;
      }
    }
  }

  /** The row headers of the first `ri` row groups. */
  predicate RowHeaderBefore(L: Layout, i: int, j: int, ri: int)
  {
    IsRowHeader(L, i, j) && (i - RowOffset(L.f)) / |L.subrows| < ri
  }

  /** Row group `ri`'s header is at its first grid row, column 0. */
  lemma RowHeaderFirst(L: Layout, p: Printer, ri: int)
    requires L.f.row != "" && 0 <= ri < |L.rows| && |L.subrows| > 0
    ensures IsRowHeader(L, RowPos(L, ri, 0), 0)
    ensures RowHeaderAt(L, p, RowPos(L, ri, 0)) == Header(HeaderText(p, L.f.row, L.rows[ri]))
  {
    DivMod(ri, 0, |L.subrows|);
  }

  /** Row group `ri` adds exactly one header cell. */
  lemma RowHeaderNext(L: Layout, ri: int, i: int, j: int)
    requires L.f.row != "" && 0 <= ri < |L.rows| && |L.subrows| > 0
    ensures RowHeaderBefore(L, i, j, ri + 1) <==>
      RowHeaderBefore(L, i, j, ri) || (i == RowPos(L, ri, 0) && j == 0)
  {
    var n, ro := |L.subrows|, RowOffset(L.f);
    DivMod(ri, 0, n);
    if IsRowHeader(L, i, j) {
      var q := (i - ro) / n;
      assert i - ro == q * n;
      if q == ri {
        assert i == RowPos(L, ri, 0);
      }
    }
  }

  method FillSubrowHeaders(t: array2<Cell>, L: Layout, p: Printer)
    requires WfLayout(L) && t.Length0 == Height(L) && t.Length1 == Width(L)
    modifies t
    ensures forall i, j :: 0 <= i < t.Length0 && 0 <= j < t.Length1 ==>
      t[i, j] == if IsSubrowHeader(L, i, j) then SubrowHeaderAt(L, p, i) else old(t[i, j])
  {
    if L.f.subrow != "" {
      var nsr := |L.subrows|;
      var ri := 0;
      while ri < |L.rows|
        invariant 0 <= ri <= |L.rows|
        invariant forall i, j :: 0 <= i < t.Length0 && 0 <= j < t.Length1 ==>
          t[i, j] == if IsSubrowHeader(L, i, j) && i - RowOffset(L.f) < ri * nsr then SubrowHeaderAt(L, p, i) else old(t[i, j])
      {
        var rri := 0;
        while rri < nsr
          invariant 0 <= rri <= nsr
          invariant forall i, j :: 0 <= i < t.Length0 && 0 <= j < t.Length1 ==>
            t[i, j] == if IsSubrowHeader(L, i, j) && i - RowOffset(L.f) < ri * nsr + rri then SubrowHeaderAt(L, p, i) else old(t[i, j])
        {
          DataPosInBounds(L, ri, rri, 0, 0);
          DivMod(ri, rri, nsr);
          t[RowPos(L, ri, rri), 1] := Header(HeaderText(p, L.f.subrow, L.subrows[rri]));
          rri := rri + 1;
        }
        assert ri * nsr + nsr == (ri + 1) * nsr;
        ri := ri + 1;
      }
    }
  }

  method FillColumnHeaders(t: array2<Cell>, L: Layout, p: Printer)
    requires WfLayout(L) && t.Length0 == Height(L) && t.Length1 == Width(L)
    modifies t
    ensures forall i, j :: 0 <= i < t.Length0 && 0 <= j < t.Length1 ==>
      t[i, j] == if IsColumnHeader(L, i, j) then ColumnHeaderAt(L, p, j) else old(t[i, j])
  {
    if L.f.column != "" {
      var nsc := |L.subcols|;
      var ci := 0;
      while ci < |L.cols|
        invariant 0 <= ci <= |L.cols|
        invariant forall i, j :: 0 <= i < t.Length0 && 0 <= j < t.Length1 ==>
          t[i, j] == if ColumnHeaderBefore(L, i, j, ci) then ColumnHeaderAt(L, p, j) else old(t[i, j])
      {
        DataPosInBounds(L, 0, 0, ci, 0);
        ColumnHeaderFirst(L, p, ci);
        t[0, ColPos(L, ci, 0)] := Header(HeaderText(p, L.f.column, L.cols[ci]));
        forall i, j {
          ColumnHeaderNext(L, ci, i, j);
        }
        ci := ci + 1;
      }
    }
  }

  /** The column headers of the first `ci` column groups. */
  predicate ColumnHeaderBefore(L: Layout, i: int, j: int, ci: int)
  {
    IsColumnHeader(L, i, j) && (j - ColOffset(L.f)) / |L.subcols| < ci
  }

  /** Column group `ci`'s header is in row 0, at its first grid column. */
  lemma ColumnHeaderFirst(L: Layout, p: Printer, ci: int)
    requires L.f.column != "" && 0 <= ci < |L.cols| && |L.subcols| > 0
    ensures IsColumnHeader(L, 0, ColPos(L, ci, 0))
    ensures ColumnHeaderAt(L, p, ColPos(L, ci, 0)) == Header(HeaderText(p, L.f.column, L.cols[ci]))
  {
    DivMod(ci, 0, |L.subcols|);
  }

  /** Column group `ci` adds exactly one header cell. */
  lemma ColumnHeaderNext(L: Layout, ci: int, i: int, j: int)
    requires L.f.column != "" && 0 <= ci < |L.cols| && |L.subcols| > 0
    ensures ColumnHeaderBefore(L, i, j, ci + 1) <==>
      ColumnHeaderBefore(L, i, j, ci) || (i == 0 && j == ColPos(L, ci, 0))
  {
    var n, co := |L.subcols|, ColOffset(L.f);
    DivMod(ci, 0, n);
    if IsColumnHeader(L, i, j) {
      var q := (j - co) / n;
      assert j - co == q * n;
      if q == ci {
        assert j == ColPos(L, ci, 0);
      }
    }
  }

  method FillSubcolumnHeaders(t: array2<Cell>, L: Layout, p: Printer)
    requires WfLayout(L) && t.Length0 == Height(L) && t.Length1 == Width(L)
    modifies t
    ensures forall i, j :: 0 <= i < t.Length0 && 0 <= j < t.Length1 ==>
      t[i, j] == if IsSubcolumnHeader(L, i, j) then SubcolumnHeaderAt(L, p, j) else old(t[i, j])
  {
    if L.f.subcolumn != "" {
      var nsc := |L.subcols|;
      var ci := 0;
      while ci < |L.cols|
        invariant 0 <= ci <= |L.cols|
        invariant forall i, j :: 0 <= i < t.Length0 && 0 <= j < t.Length1 ==>
          t[i, j] == if IsSubcolumnHeader(L, i, j) && j - ColOffset(L.f) < ci * nsc then SubcolumnHeaderAt(L, p, j) else old(t[i, j])
      {
        var cci := 0;
        while cci < nsc
          invariant 0 <= cci <= nsc
          invariant forall i, j :: 0 <= i < t.Length0 && 0 <= j < t.Length1 ==>
            t[i, j] == if IsSubcolumnHeader(L, i, j) && j - ColOffset(L.f) < ci * nsc + cci then SubcolumnHeaderAt(L, p, j) else old(t[i, j])
        {
          DataPosInBounds(L, 0, 0, ci, cci);
          DivMod(ci, cci, nsc);
          t[1, ColPos(L, ci, cci)] := Header(HeaderText(p, L.f.subcolumn, L.cols[ci]));
          cci := cci + 1;
        }
        assert ci * nsc + nsc == (ci + 1) * nsc;
        ci := ci + 1;
      }
    }
  }

  /** `_on_export` after the file dialog: the grid `np.savetxt` writes, or the exception that
      stops the export. */
  method Export(p: Printer, index: seq<Level>, f: Facets, subset: string, query: Query, lookup: Lookup, present: Presence)
    returns (r: Result<array2<Cell>>)
    requires Rectangular(index)
    ensures ExportLayout(index, f, subset, query).Err? ==> r == Err(ExportLayout(index, f, subset, query).error)
    ensures ExportLayout(index, f, subset, query).Ok? ==>
      (r.Ok? <==> AllPresent(ExportLayout(index, f, subset, query).value, present))
    ensures r.Ok? ==> (ExportLayout(index, f, subset, query).Ok? &&
      var L := ExportLayout(index, f, subset, query).value;
      fresh(r.value) && r.value.Length0 == Height(L) && r.value.Length1 == Width(L) &&
      forall i, j :: 0 <= i < Height(L) && 0 <= j < Width(L) ==> r.value[i, j] == Final(L, p, lookup, i, j))
  {
    var data := Queried(index, subset, query);
    var pruned := PruneLevels(data);
    if pruned.Err? {
      return Err(pruned.error);
    }
    var kept := pruned.value;
    if !FacetsMatch(f, kept) {
      return Err(CytoflowViewError(FacetsMessage(LevelNames(kept))));
    }
    var L := LayoutOf(kept, f);
    assert L == ExportLayout(index, f, subset, query).value;
    ExportLayoutWellFormed(index, f, subset, query);
    r := BuildGrid(p, L, lookup, present);
  }

  /** The grid for an accepted layout: the data, then the headers over it; a key `data.loc`
      does not find raises KeyError. */
  method BuildGrid(p: Printer, L: Layout, lookup: Lookup, present: Presence) returns (r: Result<array2<Cell>>)
    requires WfLayout(L)
    ensures r.Ok? <==> AllPresent(L, present)
    ensures r.Err? ==> r.error == KeyError("agg_idx")
    ensures r.Ok? ==> (fresh(r.value) && r.value.Length0 == Height(L) && r.value.Length1 == Width(L) &&
      forall i, j :: 0 <= i < Height(L) && 0 <= j < Width(L) ==> r.value[i, j] == Final(L, p, lookup, i, j))
  {
    var t := new Cell[Height(L), Width(L)]((i, j) => Blank);
    var ok := FillData(t, L, lookup, present);
    if !ok {
      return Err(KeyError("agg_idx"));
    }
    FillRowHeaders(t, L, p);
    FillSubrowHeaders(t, L, p);
    FillColumnHeaders(t, L, p);
    FillSubcolumnHeaders(t, L, p);
    return Ok(t);
  }
}
