/** The table view's handler: which index levels of the chosen statistic still vary once the
    view's subset is applied (the facets a user may choose), the sorted values of each varying
    level (what the subset editor offers), and the view's dump/load pair. */
module Table {
  import opened Wrappers
  import opened Order
  import opened Values
  import opened Serialization
  import opened Subsets
  import opened ViewPlugin

  // ---------------------------------------------------------------- index shape

  function LevelNames(levels: seq<Level>): (r: seq<string>)
    ensures |r| == |levels| && forall j :: 0 <= j < |levels| ==> r[j] == levels[j].name
  {
    seq(|levels|, j requires 0 <= j < |levels| => levels[j].name)
  }

  predicate DistinctNames(levels: seq<Level>)
  {
    forall i, j :: 0 <= i < j < |levels| ==> levels[i].name != levels[j].name
  }

  /** A pandas index: at least one level, every level as long as the index, and level names
      that `get_level_values(name)` can tell apart. */
  predicate Rectangular(levels: seq<Level>)
  {
    |levels| > 0 && DistinctNames(levels) &&
    forall j :: 0 <= j < |levels| ==> |levels[j].values| == |levels[0].values|
  }

  function NumRows(levels: seq<Level>): nat
    requires |levels| > 0
  {
    |levels[0].values|
  }

  /** The index of each statistic the context holds is a pandas index. */
  predicate IndexOk(ctx: Option<Context>)
  {
    ctx.Some? ==> forall k :: k in ctx.value.statistics ==> Rectangular(ctx.value.statistics[k].levels)
  }

  // ---------------------------------------------------------------- the subset query

  /** `DataFrame.query(expr)` on an index: whether row `k` of `levels` satisfies `expr`.
      pandas evaluates the expression; the model does not. */
  type Query = (string, seq<Level>, nat) -> bool

  function Range(n: nat): (r: seq<nat>)
    ensures |r| == n && forall k :: 0 <= k < n ==> r[k] == k
  {
    seq(n, k requires 0 <= k < n => k)
  }

  function Pick(l: Level, rows: seq<nat>): (r: Level)
    requires forall t :: 0 <= t < |rows| ==> rows[t] < |l.values|
    ensures r.name == l.name && |r.values| == |rows|
  {
    Level(l.name, seq(|rows|, t requires 0 <= t < |rows| => l.values[rows[t]]))
  }

  /** The rows at positions `rows`, in that order. */
  function Select(levels: seq<Level>, rows: seq<nat>): (r: seq<Level>)
    requires Rectangular(levels)
    requires forall t :: 0 <= t < |rows| ==> rows[t] < NumRows(levels)
    ensures |r| == |levels| && LevelNames(r) == LevelNames(levels)
    ensures forall j :: 0 <= j < |r| ==> |r[j].values| == |rows|
    ensures Rectangular(r)
  {
    assert forall j :: 0 <= j < |levels| ==> |levels[j].values| == NumRows(levels);
    var r := seq(|levels|, j requires 0 <= j < |levels| => Pick(levels[j], rows));
    assert LevelNames(r) == LevelNames(levels);
    r
  }

  /** The positions of the rows `data.query(expr)` keeps: exactly those the expression
      holds on, in their original order. */
  function QueriedRows(levels: seq<Level>, expr: string, query: Query): (rows: seq<nat>)
    requires Rectangular(levels)
    ensures forall k: nat :: k in rows <==> k < NumRows(levels) && query(expr, levels, k)
    ensures Subseq(rows, Range(NumRows(levels)))
  {
    var all, keep := Range(NumRows(levels)), (k: nat) => query(expr, levels, k);
    assert forall k: nat :: k in all <==> k < NumRows(levels) by {
      forall k: nat | k in all ensures k < NumRows(levels) {
        var i :| 0 <= i < |all| && all[i] == k;
      }
      forall k: nat | k < NumRows(levels) ensures k in all {
        assert all[k] == k;
      }
    }
    FilterSubseq(all, keep);
    Filter(all, keep)
  }

  /** The index left after `data.query(subset)`; an empty subset queries nothing. */
  function Queried(levels: seq<Level>, expr: string, query: Query): (r: seq<Level>)
    requires Rectangular(levels)
    ensures Rectangular(r) && LevelNames(r) == LevelNames(levels)
    ensures expr == "" ==> r == levels
    ensures expr != "" ==> forall t :: 0 <= t < |QueriedRows(levels, expr, query)| ==> QueriedRows(levels, expr, query)[t] < NumRows(levels)
    ensures expr != "" ==> r == Select(levels, QueriedRows(levels, expr, query))
  {
    if expr == "" then levels
    else
      var rows := QueriedRows(levels, expr, query);
      assert forall t :: 0 <= t < |rows| ==> rows[t] in rows;
      Select(levels, rows)
  }

  // ---------------------------------------------------------------- pruning levels

  /** A level is kept unless it holds exactly one distinct value. */
  predicate Varies(l: Level)
  {
    !(|l.values| > 0 && forall k :: 0 <= k < |l.values| ==> l.values[k] == l.values[0])
  }

  /** `len(values.unique()) == 1` is the test the loops make. */
  lemma {:induction false} OneDistinctValue(vs: seq<Value>)
    ensures |Unique(vs)| == 1 <==> |vs| > 0 && forall k :: 0 <= k < |vs| ==> vs[k] == vs[0]
  {
    var u := Unique(vs);
    if |u| == 1 {
      forall k | 0 <= k < |vs| ensures vs[k] == vs[0] {
        assert vs[k] in u && vs[0] in u;
      }
    }
    if |vs| > 0 && forall k :: 0 <= k < |vs| ==> vs[k] == vs[0] {
      UniqueConstant(vs);
    }
  }

  lemma {:induction false} UniqueConstant(vs: seq<Value>)
    requires |vs| > 0 && forall k :: 0 <= k < |vs| ==> vs[k] == vs[0]
    ensures Unique(vs) == [vs[0]]
  {
    if |vs| > 1 {
      UniqueConstant(vs[..|vs| - 1]);
    } else {
      assert vs[..0] == [];
    }
  }

  /** The error pandas raises when the last level of an index would be dropped. */
  const LastLevelMessage := "Cannot remove 1 levels from an index with 1 levels: at least one level must be left."

  /** The levels the pruning loops keep. Dropping the only level left raises, so an index
      whose every level holds a single value is refused. */
  function Pruned(levels: seq<Level>): (r: Result<seq<Level>>)
  {
    if forall j :: 0 <= j < |levels| ==> !Varies(levels[j]) then
      Err(ValueError(LastLevelMessage))
    else Ok(Filter(levels, Varies))
  }

  /** `index.droplevel(name)`: the level called `name` removed. */
  function RemoveNamed(levels: seq<Level>, name: string): seq<Level>
  {
    if levels == [] then []
    else if levels[0].name == name then levels[1..]
    else [levels[0]] + RemoveNamed(levels[1..], name)
  }

  lemma {:induction false} RemoveNamedAfter(a: seq<Level>, x: Level, b: seq<Level>)
    requires forall l :: l in a ==> l.name != x.name
    ensures RemoveNamed(a + [x] + b, x.name) == a + b
  {
    if a != [] {
      assert (a + [x] + b)[1..] == a[1..] + [x] + b;
      RemoveNamedAfter(a[1..], x, b);
      assert [a[0]] + (a[1..] + b) == a + b;
    } else {
      assert a + [x] + b == [x] + b;
    }
  }

  /** Dropping a single-valued level from the index the loop has reached. */
  lemma DropStep(levels: seq<Level>, i: nat)
    requires DistinctNames(levels) && i < |levels| && !Varies(levels[i])
    ensures RemoveNamed(Filter(levels[..i], Varies) + levels[i..], levels[i].name) ==
      Filter(levels[..i + 1], Varies) + levels[i + 1..]
  {
    var kept := Filter(levels[..i], Varies);
    KeptBeforeOtherNames(levels, i);
    assert levels[i..] == [levels[i]] + levels[i + 1..];
    assert kept + levels[i..] == kept + [levels[i]] + levels[i + 1..];
    RemoveNamedAfter(kept, levels[i], levels[i + 1..]);
    FilterStep(levels, i);
  }

  /** No level kept before position `i` has the name of level `i`. */
  lemma KeptBeforeOtherNames(levels: seq<Level>, i: nat)
    requires DistinctNames(levels) && i < |levels|
    ensures forall l :: l in Filter(levels[..i], Varies) ==> l.name != levels[i].name
  {
    forall l | l in Filter(levels[..i], Varies) ensures l.name != levels[i].name {
      var j :| 0 <= j < i && levels[..i][j] == l;
    }
  }

  /** Filtering one level further adds that level when it varies. */
  lemma FilterStep(levels: seq<Level>, i: nat)
    requires i < |levels|
    ensures Filter(levels[..i + 1], Varies) == Filter(levels[..i], Varies) + (if Varies(levels[i]) then [levels[i]] else [])
  {
    FilterAppend(levels[..i], levels[i], Varies);
    assert levels[..i + 1] == levels[..i] + [levels[i]];
  }

  lemma KeepStep(levels: seq<Level>, i: nat)
    requires i < |levels| && Varies(levels[i])
    ensures Filter(levels[..i], Varies) + levels[i..] == Filter(levels[..i + 1], Varies) + levels[i + 1..]
  {
    assert levels[i..] == [levels[i]] + levels[i + 1..];
    FilterStep(levels, i);
  }

  /** The index the loop has reached has one level left exactly at the last name, when every
      earlier level was dropped. */
  lemma OneLevelLeft(levels: seq<Level>, i: nat)
    requires i < |levels|
    ensures |Filter(levels[..i], Varies) + levels[i..]| == 1 <==>
      i == |levels| - 1 && forall j :: 0 <= j < i ==> !Varies(levels[j])
  {
    var kept := Filter(levels[..i], Varies);
    if kept == [] {
      forall j | 0 <= j < i ensures !Varies(levels[j]) {
        assert levels[j] in levels[..i];
      }
    }
    if forall j :: 0 <= j < i ==> !Varies(levels[j]) {
      forall x | x in levels[..i] ensures !Varies(x) {
        var j :| 0 <= j < i && levels[..i][j] == x;
      }
      FilterNone(levels[..i], Varies);
    }
  }

  /** The index the loop has reached after `i` levels: the varying ones among them, then
      the rest. */
  function Reached(levels: seq<Level>, i: nat): seq<Level>
    requires i <= |levels|
  {
    Filter(levels[..i], Varies) + levels[i..]
  }

  /** One turn of the pruning loop, on the index it has reached: a single-valued level is
      dropped, unless it is the last one left, which means no level varies. */
  lemma PruneStep(levels: seq<Level>, i: nat)
    requires DistinctNames(levels) && i < |levels|
    ensures !Varies(levels[i]) && |Reached(levels, i)| == 1 ==> Pruned(levels) == Err(ValueError(LastLevelMessage))
    ensures !Varies(levels[i]) && |Reached(levels, i)| != 1 ==>
      RemoveNamed(Reached(levels, i), levels[i].name) == Reached(levels, i + 1)
    ensures Varies(levels[i]) ==> Reached(levels, i) == Reached(levels, i + 1)
    ensures i == |levels| - 1 && !(!Varies(levels[i]) && |Reached(levels, i)| == 1) ==>
      exists j :: 0 <= j < |levels| && Varies(levels[j])
  {
    OneLevelLeft(levels, i);
    if Varies(levels[i]) {
      KeepStep(levels, i);
    } else {
      DropStep(levels, i);
    }
  }

  /** After the last turn the index is the levels that vary. */
  lemma PruneEnd(levels: seq<Level>)
    requires exists j :: 0 <= j < |levels| && Varies(levels[j])
    ensures Pruned(levels) == Ok(Reached(levels, |levels|))
  {
    var j :| 0 <= j < |levels| && Varies(levels[j]);
    assert levels[..|levels|] == levels && levels[|levels|..] == [];
    assert Reached(levels, |levels|) == Filter(levels, Varies) + [];
    assert Filter(levels, Varies) + [] == Filter(levels, Varies);
  }

  /** The loop of `_get_indices`, `_get_levels` and the export: for each level name in
      order, drop that level from the current index when it holds a single value. */
  method PruneLevels(levels: seq<Level>) returns (r: Result<seq<Level>>)
    requires |levels| > 0 && DistinctNames(levels)
    ensures r == Pruned(levels)
  {
    var cur := levels;
    var i := 0;
    assert levels[..0] == [];
    while i < |levels|
      invariant 0 <= i <= |levels|
      invariant cur == Reached(levels, i)
      invariant i == |levels| ==> exists j :: 0 <= j < |levels| && Varies(levels[j])
    {
      var name := levels[i].name;
      PruneStep(levels, i);
      OneDistinctValue(levels[i].values);
      if |Unique(levels[i].values)| == 1 {
        if |cur| == 1 {
          return Err(ValueError(LastLevelMessage));
        }
        cur := RemoveNamed(cur, name);
      }
      i := i + 1;
    }
    PruneEnd(levels);
    r := Ok(cur);
  }

  /** The kept levels are the index's levels that vary, in index order. */
  lemma {:induction false} PrunedNamesSubseq(levels: seq<Level>)
    ensures Subseq(LevelNames(Filter(levels, Varies)), LevelNames(levels))
  {
    if levels != [] {
      PrunedNamesSubseq(levels[1..]);
      assert LevelNames(levels)[1..] == LevelNames(levels[1..]);
      if Varies(levels[0]) {
        assert LevelNames(Filter(levels, Varies))[1..] == LevelNames(Filter(levels[1..], Varies));
      }
    }
  }

  // ---------------------------------------------------------------- _get_indices

  /** The `indices` property: `[]` without a context, without the chosen statistic, or when
      the subset leaves no row; otherwise the names of the levels that still vary. */
  function Indices(ctx: Option<Context>, statistic: (string, string), subset: string, query: Query): Result<seq<string>>
    requires IndexOk(ctx)
  {
    if ctx.None? || ctx.value.statistics == map[] || statistic !in ctx.value.statistics then Ok([])
    else
      var idx := Queried(ctx.value.statistics[statistic].levels, subset, query);
      if NumRows(idx) == 0 then Ok([])
      else
        var kept :- Pruned(idx);
        Ok(LevelNames(kept))
  }

  /** `_get_indices`. */
  method GetIndices(ctx: Option<Context>, statistic: (string, string), subset: string, query: Query)
    returns (r: Result<seq<string>>)
    requires IndexOk(ctx)
    ensures r == Indices(ctx, statistic, subset, query)
  {
    if ctx.None? || ctx.value.statistics == map[] || statistic !in ctx.value.statistics {
      return Ok([]);
    }
    var stat := ctx.value.statistics[statistic];
    var data := Queried(stat.levels, subset, query);
    if NumRows(data) == 0 {
      return Ok([]);
    }
    var pruned := PruneLevels(data);
    match pruned {
      case Err(e) => r := Err(e);
      case Ok(kept) => r := Ok(LevelNames(kept));
    }
  }

  /** A name is among the kept levels' names exactly when its level varies. */
  lemma KeptNamesIff(idx: seq<Level>)
    requires DistinctNames(idx)
    ensures forall j :: 0 <= j < |idx| ==> (idx[j].name in LevelNames(Filter(idx, Varies)) <==> Varies(idx[j]))
  {
    var kept := Filter(idx, Varies);
    var names := LevelNames(kept);
    forall j | 0 <= j < |idx| ensures idx[j].name in names <==> Varies(idx[j]) {
      if Varies(idx[j]) {
        assert idx[j] in kept;
        var k :| 0 <= k < |kept| && kept[k] == idx[j];
        assert names[k] == idx[j].name;
      }
      if idx[j].name in names {
        var k :| 0 <= k < |kept| && names[k] == idx[j].name;
        assert kept[k] in idx;
        var j' :| 0 <= j' < |idx| && idx[j'] == kept[k];
        assert idx[j'].name == idx[j].name;
        assert j' == j;
      }
    }
  }

  /** The facets offered are an order-preserving sublist of the statistic's level names:
      exactly the levels that hold more than one value among the rows the subset keeps. */
  lemma IndicesAreVaryingLevels(ctx: Option<Context>, statistic: (string, string), subset: string, query: Query)
    requires IndexOk(ctx) && ctx.Some? && statistic in ctx.value.statistics
    requires Indices(ctx, statistic, subset, query).Ok?
    ensures var levels := ctx.value.statistics[statistic].levels;
      var idx := Queried(levels, subset, query);
      var r := Indices(ctx, statistic, subset, query).value;
      Subseq(r, LevelNames(levels)) &&
      (NumRows(idx) > 0 ==> forall j :: 0 <= j < |idx| ==> (idx[j].name in r <==> Varies(idx[j])))
  {
    var levels := ctx.value.statistics[statistic].levels;
    var idx := Queried(levels, subset, query);
    if NumRows(idx) > 0 {
      PrunedNamesSubseq(idx);
      KeptNamesIff(idx);
    }
  }

  // ---------------------------------------------------------------- _get_levels

  /** `ret[name] = sorted unique values` for each kept level, in order. */
  function LevelMap(kept: seq<Level>): map<string, seq<Value>>
  {
    if kept == [] then map[]
    else LevelMap(kept[..|kept| - 1])[kept[|kept| - 1].name := Unique(SortValues(kept[|kept| - 1].values))]
  }

  /** The `levels` property: for each level that varies, its distinct values in ascending
      order; an empty mapping without a context or without the chosen statistic. */
  function LevelsOf(ctx: Option<Context>, statistic: (string, string)): Result<map<string, seq<Value>>>
    requires IndexOk(ctx)
  {
    if ctx.None? || ctx.value.statistics == map[] || statistic !in ctx.value.statistics then Ok(map[])
    else
      var kept :- Pruned(ctx.value.statistics[statistic].levels);
      Ok(LevelMap(kept))
  }

  /** `_get_levels`. */
  method GetLevels(ctx: Option<Context>, statistic: (string, string)) returns (r: Result<map<string, seq<Value>>>)
    requires IndexOk(ctx)
    ensures r == LevelsOf(ctx, statistic)
  {
    if ctx.None? || ctx.value.statistics == map[] || statistic !in ctx.value.statistics {
      return Ok(map[]);
    }
    var index := ctx.value.statistics[statistic].levels;
    var pruned := PruneLevels(index);
    if pruned.Err? {
      return Err(pruned.error);
    }
    var ret := BuildLevelMap(pruned.value);
    r := Ok(ret);
  }

  /** The loop of `_get_levels`: one entry per kept level, later names overwriting earlier. */
  method BuildLevelMap(kept: seq<Level>) returns (ret: map<string, seq<Value>>)
    ensures ret == LevelMap(kept)
  {
    ret := map[];
    var i := 0;
    while i < |kept|
      invariant 0 <= i <= |kept|
      invariant ret == LevelMap(kept[..i])
    {
      LevelMapStep(kept, i);
      ret := ret[kept[i].name := Unique(SortValues(kept[i].values))];
      i := i + 1;
    }
    assert kept[..i] == kept;
  }

  /** One more level adds (or overwrites) one entry. */
  lemma LevelMapStep(kept: seq<Level>, i: nat)
    requires i < |kept|
    ensures LevelMap(kept[..i + 1]) == LevelMap(kept[..i])[kept[i].name := Unique(SortValues(kept[i].values))]
  {
    assert kept[..i + 1][..i] == kept[..i];
  }

  lemma {:induction false} LevelMapKeys(kept: seq<Level>)
    ensures forall n :: n in LevelMap(kept) <==> n in LevelNames(kept)
  {
    if kept != [] {
      var init := kept[..|kept| - 1];
      LevelMapKeys(init);
      assert LevelNames(kept) == LevelNames(init) + [kept[|kept| - 1].name];
    }
  }

  lemma {:induction false} LevelMapAt(kept: seq<Level>, j: nat)
    requires DistinctNames(kept) && j < |kept|
    ensures kept[j].name in LevelMap(kept) && LevelMap(kept)[kept[j].name] == Unique(SortValues(kept[j].values))
  {
    var n := |kept| - 1;
    if j < n {
      var init := kept[..n];
      assert init[j] == kept[j];
      LevelMapAt(init, j);
      assert kept[j].name != kept[n].name;
    }
  }

  lemma {:induction false} KeptNamesDistinct(levels: seq<Level>)
    requires DistinctNames(levels)
    ensures DistinctNames(Filter(levels, Varies))
  {
    if levels != [] {
      var tail := levels[1..];
      KeptNamesDistinct(tail);
      var rest := Filter(tail, Varies);
      if Varies(levels[0]) {
        forall k | 0 <= k < |rest| ensures rest[k].name != levels[0].name {
          assert rest[k] in tail;
          var j :| 0 <= j < |tail| && tail[j] == rest[k];
          assert levels[j + 1] == rest[k];
        }
        assert Filter(levels, Varies) == [levels[0]] + rest;
      }
    }
  }

  /** The values of one varying level, as `_get_levels` lists them: sorted, each once, and
      exactly the values the level holds. */
  lemma SortedDistinctValues(vs: seq<Value>)
    ensures var u := Unique(SortValues(vs));
      Sorted(u, ValueLe) && Distinct(u) && forall v :: v in u <==> v in vs
  {
    var sorted := SortValues(vs);
    UniqueSorted(sorted, ValueLe);
    forall v ensures v in sorted <==> v in vs {
      assert v in sorted <==> v in multiset(sorted);
      assert v in vs <==> v in multiset(vs);
    }
  }

  /** Each offered level maps to its distinct values, sorted, and nothing else is offered. */
  lemma LevelsAreSortedUnique(ctx: Option<Context>, statistic: (string, string))
    requires IndexOk(ctx) && ctx.Some? && statistic in ctx.value.statistics
    requires LevelsOf(ctx, statistic).Ok?
    ensures var levels := ctx.value.statistics[statistic].levels;
      var m := LevelsOf(ctx, statistic).value;
      (forall j :: 0 <= j < |levels| ==> (levels[j].name in m <==> Varies(levels[j]))) &&
      (forall n :: n in m ==> n in LevelNames(levels)) &&
      forall j :: 0 <= j < |levels| && Varies(levels[j]) ==>
        var vs := m[levels[j].name];
        Sorted(vs, ValueLe) && Distinct(vs) && forall v :: v in vs <==> v in levels[j].values
  {
    var levels := ctx.value.statistics[statistic].levels;
    var kept := Filter(levels, Varies);
    KeptNamesIff(levels);
    LevelMapKeys(kept);
    KeptMapNames(levels);
    forall j | 0 <= j < |levels| && Varies(levels[j])
      ensures var vs := LevelMap(kept)[levels[j].name];
        Sorted(vs, ValueLe) && Distinct(vs) && forall v :: v in vs <==> v in levels[j].values
    {
      KeptMapValues(levels, j);
    }
  }

  /** Only level names are offered. */
  lemma KeptMapNames(levels: seq<Level>)
    ensures forall n :: n in LevelMap(Filter(levels, Varies)) ==> n in LevelNames(levels)
  {
    var kept := Filter(levels, Varies);
    LevelMapKeys(kept);
    forall n | n in LevelMap(kept) ensures n in LevelNames(levels) {
      var k :| 0 <= k < |kept| && LevelNames(kept)[k] == n;
      assert kept[k] in levels;
      var j :| 0 <= j < |levels| && levels[j] == kept[k];
      assert LevelNames(levels)[j] == n;
    }
  }

  /** A varying level is offered with its distinct values, sorted. */
  lemma KeptMapValues(levels: seq<Level>, j: nat)
    requires DistinctNames(levels) && j < |levels| && Varies(levels[j])
    ensures var m := LevelMap(Filter(levels, Varies));
      levels[j].name in m &&
      var vs := m[levels[j].name];
      Sorted(vs, ValueLe) && Distinct(vs) && forall v :: v in vs <==> v in levels[j].values
  {
    var kept := Filter(levels, Varies);
    KeptNamesDistinct(levels);
    assert levels[j] in kept;
    var k :| 0 <= k < |kept| && kept[k] == levels[j];
    LevelMapAt(kept, k);
    SortedDistinctValues(levels[j].values);
  }

  // ---------------------------------------------------------------- dump / load

  /** The traits the `table-view` dumper saves. */
  datatype TableConfig = TableConfig(
    statistic: (string, string),
    rowFacet: string,
    subrowFacet: string,
    columnFacet: string,
    subcolumnFacet: string,
    subsetList: seq<Subset>)

  function DumpTable(c: TableConfig): Doc
  {
    DTagged("table-view", 1, DDict(map[
      "statistic" := DList([DVal(TextV(c.statistic.0)), DVal(TextV(c.statistic.1))]),
      "row_facet" := DVal(TextV(c.rowFacet)),
      "subrow_facet" := DVal(TextV(c.subrowFacet)),
      "column_facet" := DVal(TextV(c.columnFacet)),
      "subcolumn_facet" := DVal(TextV(c.subcolumnFacet)),
      "subset_list" := DumpList(c.subsetList)]))
  }

  /** `tuple(data['statistic'])`, as the Tuple(Str, Str) trait then accepts it: a pair of
      str from a two-item list (or from a two-character str, whose tuple is its characters). */
  function StatisticField(e: map<string, Doc>): (r: Result<(string, string)>)
    ensures "statistic" !in e ==> r == Err(KeyError("statistic"))
  {
    if "statistic" !in e then Err(KeyError("statistic"))
    else match e["statistic"]
      case DList(items) =>
        if |items| == 2 && items[0].DVal? && items[0].v.TextV? && items[1].DVal? && items[1].v.TextV? then
          Ok((items[0].v.s, items[1].v.s))
        else Err(TraitError("statistic"))
      case DVal(TextV(s)) => if |s| == 2 then Ok(([s[0]], [s[1]])) else Err(TraitError("statistic"))
      case _ => Err(ForeignError("a statistic of a shape outside the model"))
  }

  /** The `table-view` loader: the statistic first, then `TablePluginView(**data)`. */
  function LoadTable(version: nat, data: Doc): Result<TableConfig>
  {
    match data
    case DDict(d) =>
      var statistic :- StatisticField(d);
      var e :- Entries(data, {"statistic", "row_facet", "subrow_facet", "column_facet", "subcolumn_facet", "subset_list"});
      var row :- StrField(e, "row_facet");
      var subrow :- StrField(e, "subrow_facet");
      var column :- StrField(e, "column_facet");
      var subcolumn :- StrField(e, "subcolumn_facet");
      var subsets :- ListOfSubsets(e, "subset_list");
      Ok(TableConfig(statistic, row, subrow, column, subcolumn, subsets))
    case _ => Err(ForeignError("argument after ** must be a mapping"))
  }

  /** The six dumped traits come back, the statistic as a pair. */
  lemma TableRoundTrip(c: TableConfig)
    requires forall i :: 0 <= i < |c.subsetList| ==> Wellformed(c.subsetList[i])
    ensures LoadTable(1, DumpTable(c).body) == Ok(c)
  {
    var d := DumpTable(c).body;
    var e := d.entries;
    assert StatisticField(e) == Ok(c.statistic);
    assert e.Keys == {"statistic", "row_facet", "subrow_facet", "column_facet", "subcolumn_facet", "subset_list"};
    assert Entries(d, e.Keys) == Ok(e);
    assert StrField(e, "row_facet") == Ok(c.rowFacet);
    assert StrField(e, "subrow_facet") == Ok(c.subrowFacet);
    assert StrField(e, "column_facet") == Ok(c.columnFacet);
    assert StrField(e, "subcolumn_facet") == Ok(c.subcolumnFacet);
    DumpLoadListRoundTrip(c.subsetList);
    assert ListOfSubsets(e, "subset_list") == Ok(c.subsetList);
  }

  /** A saved view without a statistic cannot be loaded. */
  lemma LoadTableNeedsStatistic(e: map<string, Doc>)
    requires "statistic" !in e
    ensures LoadTable(1, DDict(e)) == Err(KeyError("statistic"))
  {
  }
}
