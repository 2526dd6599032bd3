/** The parts of a view plugin that are not drawing: the subset expression a view hands to
    its plot, the bookkeeping of the plot names a view enumerates, and the sorted name lists
    its handler offers in drop-downs. */
module ViewPlugin {
  import opened Wrappers
  import opened Text
  import opened Order
  import opened Values
  import opened Serialization
  import opened Subsets
  import opened Changes

  // ---------------------------------------------------------------- the subset expression

  /** Every subset's clause, in list order; the first subset whose clause cannot be built
      (a range over no values) raises. */
  function SubsetClauses(p: Printer, subsets: seq<Subset>): (r: Result<seq<string>>)
    ensures r.Err? <==> exists i :: 0 <= i < |subsets| && SubsetStr(p, subsets[i]).Err?
    ensures r.Ok? ==> (|r.value| == |subsets| &&
      forall i :: 0 <= i < |subsets| ==> SubsetStr(p, subsets[i]) == Ok(r.value[i]))
  {
    if subsets == [] then Ok([])
    else
      var init := subsets[..|subsets| - 1];
      assert forall i :: 0 <= i < |init| ==> init[i] == subsets[i];
      var rest :- SubsetClauses(p, init);
      var last :- SubsetStr(p, subsets[|subsets| - 1]);
      Ok(rest + [last])
  }

  predicate NonEmpty(s: string) { s != "" }

  /** The `subset` property: the non-empty clauses joined with `" and "`. */
  function SubsetExpr(p: Printer, subsets: seq<Subset>): (r: Result<string>)
    ensures r.Err? <==> exists i :: 0 <= i < |subsets| && SubsetStr(p, subsets[i]).Err?
  {
    var clauses :- SubsetClauses(p, subsets);
    Ok(Join(" and ", Filter(clauses, NonEmpty)))
  }

  /** The expression is empty exactly when no subset filters anything. */
  lemma SubsetExprEmptyIff(p: Printer, subsets: seq<Subset>)
    requires SubsetExpr(p, subsets).Ok?
    ensures SubsetExpr(p, subsets).value == "" <==>
      forall i :: 0 <= i < |subsets| ==> SubsetStr(p, subsets[i]) == Ok("")
  {
    var clauses := SubsetClauses(p, subsets).value;
    var parts := Filter(clauses, NonEmpty);
    forall i | 0 <= i < |parts| ensures parts[i] != "" {
      assert parts[i] in parts;
    }
    JoinEmptyIff(" and ", parts);
    if parts == [] {
      forall i | 0 <= i < |subsets| ensures SubsetStr(p, subsets[i]) == Ok("") {
        assert clauses[i] in clauses;
      }
    }
    if forall i :: 0 <= i < |subsets| ==> SubsetStr(p, subsets[i]) == Ok("") {
      forall x | x in clauses ensures !NonEmpty(x) {
        var i :| 0 <= i < |clauses| && clauses[i] == x;
        assert SubsetStr(p, subsets[i]) == Ok("");
      }
      FilterNone(clauses, NonEmpty);
    }
  }

  /** Appending a subset to the list: a subset that filters nothing leaves the expression as it
      was; otherwise its clause is added at the end, after `" and "` when something precedes
      it. */
  lemma SubsetExprSnoc(p: Printer, subsets: seq<Subset>, s: Subset)
    requires SubsetExpr(p, subsets).Ok? && SubsetStr(p, s).Ok?
    ensures var e := SubsetExpr(p, subsets).value;
      var c := SubsetStr(p, s).value;
      SubsetExpr(p, subsets + [s]) ==
        Ok(if c == "" then e else if e == "" then c else e + " and " + c)
  {
    var all := subsets + [s];
    assert all[..|all| - 1] == subsets;
    var clauses := SubsetClauses(p, subsets).value;
    var c := SubsetStr(p, s).value;
    assert SubsetClauses(p, all) == Ok(clauses + [c]);
    FilterAppend(clauses, c, NonEmpty);
    var parts := Filter(clauses, NonEmpty);
    JoinAppend(" and ", parts, c);
    forall i | 0 <= i < |parts| ensures parts[i] != "" {
      assert parts[i] in parts;
    }
    JoinEmptyIff(" and ", parts);
    var e := Join(" and ", parts);
    assert SubsetExpr(p, subsets) == Ok(e);
    assert SubsetExpr(p, all) == Ok(Join(" and ", Filter(clauses + [c], NonEmpty)));
    if c == "" {
      assert Filter(clauses + [c], NonEmpty) == parts;
    } else {
      assert Filter(clauses + [c], NonEmpty) == parts + [c];
      assert Join(" and ", parts + [c]) == if e == "" then c else e + " and " + c;
    }
  }

  // ---------------------------------------------------------------- change dispatch

  /** By default every change replots the view. */
  function ShouldPlot(changed: Changed): (r: bool)
    ensures r
  {
    true
  }

  // ---------------------------------------------------------------- plot names

  /** What `enum_plots` yields: the plot names, or the exception raised while iterating
      them, and the facet names in the iterator's `by` attribute, if it has one. */
  datatype Enumeration<N> = Enumeration(items: Result<seq<Option<N>>>, facets: Option<seq<string>>)

  /** `enum_plots_wi`: an exception from `enum_plots` becomes the empty list. */
  function EnumPlotsWi<N>(e: Result<Enumeration<N>>): (r: Enumeration<N>)
    ensures e.Err? ==> r.items == Ok([]) && r.facets.None?
    ensures e.Ok? ==> r == e.value
  {
    match e
    case Ok(en) => en
    case Err(_) => Enumeration(Ok([]), None)
  }

  /** The three traits `update_plot_names` assigns. */
  datatype PlotState<N> = PlotState(plotNames: seq<Option<N>>, plotNamesBy: string, currentPlot: Option<N>)

  /** An enumeration that names no plot: `[]` or `[None]`. */
  predicate NoPlots<N>(names: seq<Option<N>>)
  {
    names == [] || (|names| == 1 && names[0].None?)
  }

  /** `", ".join(plot_iter.by)`, or `""` when the iterator has no `by`. */
  function ByText(facets: Option<seq<string>>): string
  {
    match facets
    case Some(b) => Join(", ", b)
    case None => ""
  }

  /** The state `update_plot_names` leaves. When there are no plots, assigning `[]` to the
      Str trait `plot_names_by` raises, and the handler clears the current plot and the name
      list and leaves `plot_names_by` as it was; an exception while iterating does the
      same. */
  function AfterUpdate<N>(st: PlotState<N>, e: Result<Enumeration<N>>): PlotState<N>
  {
    var en := EnumPlotsWi(e);
    match en.items
    case Err(_) => PlotState([], st.plotNamesBy, None)
    case Ok(names) =>
      if NoPlots(names) then PlotState([], st.plotNamesBy, None)
      else PlotState(names, ByText(en.facets), if st.currentPlot.None? then names[0] else st.currentPlot)
  }

  /** With plots to show, the names and their facet text come from the enumeration, and a
      plot already chosen stays chosen; otherwise the first one is chosen. */
  lemma UpdateWithPlots<N>(st: PlotState<N>, en: Enumeration<N>)
    requires en.items.Ok? && !NoPlots(en.items.value)
    ensures var st' := AfterUpdate(st, Ok(en));
      st'.plotNames == en.items.value && st'.plotNames != [] &&
      st'.plotNamesBy == (if en.facets.Some? then Join(", ", en.facets.value) else "") &&
      (st.currentPlot.Some? ==> st'.currentPlot == st.currentPlot) &&
      (st.currentPlot.None? ==> st'.currentPlot == en.items.value[0])
  {
  }

  /** Without plots (no names, `[None]`, or a failure anywhere) the names end empty, no plot
      is current, and the facet text is untouched. */
  lemma UpdateWithoutPlots<N>(st: PlotState<N>, e: Result<Enumeration<N>>)
    requires e.Err? || e.value.items.Err? || NoPlots(e.value.items.value)
    ensures AfterUpdate(st, e) == PlotState([], st.plotNamesBy, None)
  {
  }

  /** Updating twice from the same enumeration is updating once. */
  lemma UpdateIdempotent<N>(st: PlotState<N>, e: Result<Enumeration<N>>)
    ensures AfterUpdate(AfterUpdate(st, e), e) == AfterUpdate(st, e)
  {
    var en := EnumPlotsWi(e);
    if en.items.Ok? && !NoPlots(en.items.value) {
      assert en.items.value != [];
    }
  }

  /** A view's plot bookkeeping and its subset list. */
  class PluginView<N> {
    var subsetList: seq<Subset>
    var plotNames: seq<Option<N>>
    var plotNamesBy: string
    var currentPlot: Option<N>

    constructor ()
      ensures subsetList == [] && plotNames == [] && plotNamesBy == "" && currentPlot.None?
    {
      subsetList := [];
      plotNames := [];
      plotNamesBy := "";
      currentPlot := None;
    }

    function State(): PlotState<N>
      reads this
    {
      PlotState(plotNames, plotNamesBy, currentPlot)
    }

    /** The `plot_name` keyword `plot_wi` passes to `plot`: the current plot when there are
        plot names, no keyword at all otherwise. */
    function PlotNameArg(): (arg: Option<Option<N>>)
      reads this
      ensures arg.Some? <==> plotNames != []
      ensures arg.Some? ==> arg.value == currentPlot
    {
      if plotNames != [] then Some(currentPlot) else None
    }

    /** `update_plot_names`, step by step as the source assigns the traits. */
    method UpdatePlotNames(e: Result<Enumeration<N>>)
      modifies this
      ensures subsetList == old(subsetList)
      ensures State() == AfterUpdate(old(State()), e)
    {
      var en := EnumPlotsWi(e);
      match en.items {
        case Err(_) =>
          currentPlot := None;
          plotNames := [];
        case Ok(names) =>
          if NoPlots(names) {
            plotNames := [];
            // assigning [] to the Str trait raises; the handler runs
            currentPlot := None;
            plotNames := [];
          } else {
            plotNames := names;
            plotNamesBy := ByText(en.facets);
            if currentPlot.None? {
              currentPlot := plotNames[0];
            }
          }
      }
    }
  }

  // ---------------------------------------------------------------- handler name lists

  /** One level of a pandas (Multi)Index: its name and its value in every row. */
  datatype Level = Level(name: string, values: seq<Value>)

  /** A statistic: a Series whose index has one level per grouping condition. */
  datatype Statistic = Statistic(levels: seq<Level>, data: seq<Value>)

  /** What the handler reads from its workflow item: the condition columns of its result and
      of the previous item's result, and its statistics keyed by (name, statistic). */
  datatype Context = Context(
    conditions: map<string, seq<Value>>,
    previousConditions: Option<map<string, seq<Value>>>,
    statistics: map<(string, string), Statistic>)

  /** `sorted(list(d.keys()))` for str keys. */
  ghost function SortedNames(keys: set<string>): (r: seq<string>)
    ensures Sorted(r, StrLe) && Distinct(r) && |r| == |keys|
    ensures forall x :: x in r <==> x in keys
  {
    StrLeTotalOrder();
    SortedSeqOf(keys, StrLe)
  }

  /** `sorted(...)` for statistic keys, which are pairs of str. */
  ghost function SortedKeys(keys: set<(string, string)>): (r: seq<(string, string)>)
    ensures Sorted(r, PairLe) && Distinct(r) && |r| == |keys|
    ensures forall x :: x in r <==> x in keys
  {
    PairLeTotalOrder();
    SortedSeqOf(keys, PairLe)
  }

  ghost function ConditionsNames(ctx: Option<Context>): (r: seq<string>)
    ensures Sorted(r, StrLe) && Distinct(r)
    ensures forall x :: x in r <==> ctx.Some? && x in ctx.value.conditions
    ensures r == [] <==> ctx.None? || ctx.value.conditions == map[]
  {
    if ctx.Some? && ctx.value.conditions != map[] then
      var ks := ctx.value.conditions.Keys;
      assert ks != {} by { var k :| k in ctx.value.conditions; assert k in ks; }
      SortedNames(ks)
    else []
  }

  ghost function PreviousConditionsNames(ctx: Option<Context>): (r: seq<string>)
    ensures Sorted(r, StrLe) && Distinct(r)
    ensures forall x :: x in r <==>
      ctx.Some? && ctx.value.previousConditions.Some? && x in ctx.value.previousConditions.value
  {
    if ctx.Some? && ctx.value.previousConditions.Some? && ctx.value.previousConditions.value != map[] then
      SortedNames(ctx.value.previousConditions.value.Keys)
    else []
  }

  ghost function StatisticsNames(ctx: Option<Context>): (r: seq<(string, string)>)
    ensures Sorted(r, PairLe) && Distinct(r)
    ensures forall x :: x in r <==> ctx.Some? && x in ctx.value.statistics
  {
    if ctx.Some? && ctx.value.statistics != map[] then SortedKeys(ctx.value.statistics.Keys)
    else []
  }

  /** The statistics whose values `util.is_numeric` accepts, sorted. The result is exactly the
      numeric entries of `statistics_names`, in the same order. */
  ghost function NumericStatisticsNames(ctx: Option<Context>, isNumeric: Statistic -> bool): (r: seq<(string, string)>)
    ensures Sorted(r, PairLe) && Distinct(r)
    ensures forall x :: x in r <==> ctx.Some? && x in ctx.value.statistics && isNumeric(ctx.value.statistics[x])
    ensures ctx.Some? ==>
      r == Filter(StatisticsNames(ctx), k => k in ctx.value.statistics && isNumeric(ctx.value.statistics[k]))
  {
    if ctx.Some? && ctx.value.statistics != map[] then
      var stats := ctx.value.statistics;
      var r := SortedKeys(set k | k in stats && isNumeric(stats[k]));
      var keep := k => k in stats && isNumeric(stats[k]);
      var all := StatisticsNames(ctx);
      FilterSorted(all, keep, PairLe);
      FilterDistinct(all, keep);
      PairLeTotalOrder();
      SortedUnique(r, Filter(all, keep), PairLe);
      r
    else []
  }
}
