# cytoflowgui plugin logic in Dafny

This project models the logic of the cytoflowgui flow-cytometry front end. It leaves out the GUI glue around that logic.

Subsets:
- **Subset filters.** Each of the three subset kinds (bool, category, range) renders a pandas query clause. Each also has field-wise equality and hashing, and a dump/load pair. A range also has a handler that fills in its bounds. Traits logs an exception raised inside a change handler and does not pass it on. So when `max` or `min` raises, the bound stays `Undefined` and the caller goes on. A range is well formed once this handler has run on it.
- **Subset list editor.** It reconciles the list of subsets with the current conditions.

Views:
- **View mixin.** It joins the subset clauses, decides when to replot and keeps the plot-name bookkeeping. Its handler builds the sorted name lists.
- **Table view.** It prunes the index levels that hold one value and builds the `levels` map. It lays out the exported grid from data cells and headers, and it has a dump/load pair.

Operation plugins:
- **Color translation.** It adds and removes controls, checks for duplicate channels and rebuilds the controls dict. It runs the estimate, clears it, writes notebook code and has a dump/load pair.
- **Autofluorescence.** It checks the experiment's history and runs the estimate with its `finally` signalling. It clears the estimate, decides what to do on each change tag, writes notebook code and has a dump/load pair.
- **Channel statistic.** It has the summary-function, fill, import and name tables, the `apply` guard, notebook code and a dump/load pair. The `summary_functions` dict becomes a lookup on the statistic name. The `fill`, `fn_import` and `fn_name` dicts have the same ten keys, so each is written as a function of the summary function the name stands for.

Serialization:
- the lowercase scalar dumpers;
- the `Undefined` and `pandas.Series` dumper/loader pairs;
- `traits_str` and `traits_repr`.

Everything pure is a function over datatypes.

Where the source changes an object in place, the model uses a class with `modifies` clauses:
- the subset editor;
- the view's plot names;
- the operation plugins.

A `changed` event is recorded by appending its tag to the object's `emitted` log. Loops become methods, each proved against a specification function:
- pruning levels;
- building the `levels` map;
- filling the export grid;
- finding a duplicate channel;
- rebuilding the controls dict;
- checking the history.

The following are parameters:
- `sanitize_identifier` and number formatting, gathered in a `Printer` record;
- pandas `query`;
- the `when` expression's `eval`;
- the statistic's lookup;
- the base operations' `estimate` and `apply`;
- `repr` of a copied operation.

Modules, one per source file plus shared helpers:

| module | file |
|---|---|
| `Wrappers` | wrappers.dfy |
| `Text` | text.dfy |
| `Order` | order.dfy |
| `Values` | values.dfy |
| `Changes` | changes.dfy |
| `Serialization` | serialization.dfy |
| `Subsets` | subset.dfy |
| `SubsetEditor` | subset_editor.dfy |
| `ViewPlugin` | view_plugin.dfy |
| `Table` | table.dfy |
| `TableExport` | table_export.dfy |
| `OpPlugin` | op_plugin.dfy |
| `ColorTranslation` | color_translation.dfy |
| `Autofluorescence` | autofluorescence.dfy |
| `ChannelStat` | channel_stat.dfy |

## Model

| member | source | states |
|---|---|---|
| Serialization.DumpBool | cytoflowgui/serialization.py:43-45 | a bool dumps as the lowercase text `true`/`false`; DumpBoolRoundTrip reads it back |
| Serialization.DumpBoolRoundTrip | cytoflowgui/serialization.py:43-45 | the lowercase bool text reads back as the same bool |
| Serialization.DumpInt | cytoflowgui/serialization.py:39-41 | an integer dumps as its decimal text, and that text parses back to the same integer |
| Serialization.LoadBound | cytoflowgui/serialization.py:58-64 | a document loads as `Undefined` exactly when it is the `undefined` tag at version 1 |
| Serialization.BoundRoundTrip | cytoflowgui/serialization.py:58-64 | a dumped bound (`Undefined` or a value) loads back unchanged |
| Serialization.LeavesRoundTrip | cytoflowgui/serialization.py:66-76 | reading dumped values back gives the same values |
| Serialization.LoadSeries | cytoflowgui/serialization.py:73-76 | a loaded series has as many index labels as data values |
| Serialization.SeriesRoundTrip | cytoflowgui/serialization.py:66-76 | a series whose index and data have the same length survives dump and load; any other series fails to load |
| Serialization.RenderTrait | cytoflowgui/serialization.py:141-145 | a rendered trait is its name, ` = `, then `repr` of a plain value or the `__name__` of a callable |
| Serialization.TraitsRepr | cytoflowgui/serialization.py:122-123 | the repr is the class name, `(`, then exactly the trait text, then `)` |
| Serialization.TraitsStrEmptyIff | cytoflowgui/serialization.py:131-147 | the trait text is empty exactly when every trait is dropped as `op` or as equal to the fresh instance's default |
| Serialization.TraitsReprDefault | cytoflowgui/serialization.py:122-147 | an object whose traits all equal their defaults has the repr `ClassName()` |
| Serialization.TraitsStrIgnoresOp | cytoflowgui/serialization.py:125-140 | no shown trait is named `op`, and an `op` trait inserted at any position among the traits leaves the text unchanged |
| Serialization.TraitsStrStartsWithFirstShown | cytoflowgui/serialization.py:141-147 | the text starts with the first kept trait's name and ` = ` |
| Serialization.TraitsStrAppend | cytoflowgui/serialization.py:137-145 | the text lists the shown traits in order, separated by `, `: appending a shown trait appends its rendering, and appending a hidden one changes nothing |
| Serialization.TraitsReprDelegation | cytoflowgui/serialization.py:149-150 | a delegation error makes the repr `ClassName(ClassName(<Delegation error>))` |
| Text.StrReprRoundTrip | cytoflowgui/serialization.py:143-145 | Python's `repr` of a string reads back as that string |
| Text.IntToStringRoundTrip | cytoflowgui/serialization.py:39-41 | an integer's decimal text parses back to the same integer |
| Values.PyEqIffNormalize | cytoflowgui/subset.py:74-78 | Python `==` on two values holds exactly when their normalized forms are equal (True == 1) |
| Values.SeqPyEqIffNormalize | cytoflowgui/subset.py:74-78 | two value lists are `==` exactly when their element-wise normalized forms are equal |
| Values.SortValues | cytoflowgui/subset.py:247 | `sort_values` returns a sorted permutation of the series |
| Values.DtypeKindPermutation | cytoflowgui/subset.py:247-248 | a series' dtype kind does not depend on the order of its values |
| Order.Unique | cytoflowgui/view_plugins/table.py:164 | `unique()` keeps each value once, the same set of values, and orders them by their first occurrence in the input |
| Order.FilterSubseq | cytoflowgui/view_plugins/table.py:162-168 | dropping levels leaves an order-preserving sublist |
| Subsets.BoolStr | cytoflowgui/subset.py:66-72 | `(n == True)` when only `selected_t` is set, `(n == False)` when only `selected_f` is set, and empty exactly when both or neither are set |
| Subsets.CategoryStr | cytoflowgui/subset.py:116-127 | empty exactly when nothing is selected, otherwise wrapped in parentheses |
| Subsets.CategoryPhrase | cytoflowgui/subset.py:116-127 | the loop that joins the clauses with ` or ` builds exactly CategoryStr: one `n == "cat"` clause per selected value, in order |
| Subsets.PhraseStep | cytoflowgui/subset.py:121-124 | one pass of the loop: the phrase is longer than its opening parenthesis exactly when a clause was already written, and adding the separator (only then) and the next clause gives the phrase of one more category |
| Subsets.RangeStr | cytoflowgui/subset.py:172-180 | raises IndexError exactly on empty values. Empty exactly when low is the first value and high the last. `(n == low)` when low equals high; otherwise `(n >= low and n <= high)` |
| Subsets.SubsetStr | cytoflowgui/subset.py:172-180 | only a range subset with no values fails to render |
| Subsets.StrIgnoresValues | cytoflowgui/subset.py:54-72 | a bool or category subset's text does not depend on its `values` |
| Subsets.FillHigh | cytoflowgui/subset.py:182-188 | a defined high bound is kept; an undefined one becomes the maximum of the values, and `max` raises exactly on empty or non-numeric values |
| Subsets.FillLow | cytoflowgui/subset.py:182-188 | a defined low bound is kept; an undefined one becomes the minimum of the values, and `min` raises exactly on empty or non-numeric values |
| Subsets.ValuesChanged | cytoflowgui/subset.py:182-188 | keeps name, values and defined bounds; an undefined bound becomes defined exactly when the values are non-empty and numeric, and is then their max (min); when `max`/`min` raises, the handler stops and the bounds stay as they were |
| Subsets.ValuesChangedSettles | cytoflowgui/subset.py:182-188 | the handler leaves a well-formed range, running it twice is running it once, and it changes exactly the ranges that are not well formed |
| Subsets.ValuesChangedKeepsBounds | cytoflowgui/subset.py:182-188 | on a range on which the handler has run, running it again changes nothing |
| Subsets.PyMaxIsMax | cytoflowgui/subset.py:185 | `max(values)` is an element and is at least every element |
| Subsets.PyMinIsMin | cytoflowgui/subset.py:188 | `min(values)` is an element and is at most every element |
| Subsets.MaxOfSortedIsLast | cytoflowgui/subset.py:185 | over ascending numbers the maximum the handler fills in equals the last value |
| Subsets.MinOfSortedIsFirst | cytoflowgui/subset.py:188 | over ascending numbers the minimum the handler fills in equals the first value |
| Subsets.NewRangeUnfiltered | cytoflowgui/subset.py:252-254 | a new range on sorted non-empty numeric values filters nothing: its text is empty |
| Subsets.Eq | cytoflowgui/subset.py:74-78 | comparing two kinds raises exactly when the names and values already agree (the missing attribute is read) |
| Subsets.EqIffHash | cytoflowgui/subset.py:191-201 | two subsets compare equal exactly when their hash keys are equal |
| Subsets.EqReflexiveSymmetric | cytoflowgui/subset.py:130-138 | equality is reflexive, and symmetric where defined |
| Subsets.Entries | cytoflowgui/subset.py:96-98 | a strict constructor accepts a mapping exactly when all its keys are declared traits, and then takes its entries as given |
| Subsets.LoadRangeSubset | cytoflowgui/subset.py:212-214 | loading succeeds exactly on a mapping whose keys are among `name`, `values`, `high` and `low` and whose given fields have their trait types. The range then holds the document's fields, and when `values` is given its handler runs, so the range is well formed even when the values are empty or not numbers |
| Subsets.DumpLoadRoundTrip | cytoflowgui/subset.py:89-214 | every well-formed subset of each kind loads back from its dump unchanged |
| Subsets.BoolRoundTrip | cytoflowgui/subset.py:89-98 | a bool subset's `name`, `values`, `selected_t` and `selected_f` load back unchanged |
| Subsets.CategoryRoundTrip | cytoflowgui/subset.py:142-150 | a category subset's `name`, `values` and `selected` load back unchanged |
| Subsets.RangeRoundTrip | cytoflowgui/subset.py:205-214 | a range subset with both bounds set loads back unchanged, and the `values` handler leaves its bounds alone |
| Subsets.LoadRejectsUnknownKey | cytoflowgui/subset.py:96-98 | an unknown keyword makes the strict constructor fail |
| Subsets.LoadItems | cytoflowgui/subset.py:96-98 | a loaded list is each item's load, in order |
| Subsets.DumpLoadListRoundTrip | cytoflowgui/subset.py:89-98 | a list of well-formed subsets loads back unchanged |
| SubsetEditor.IncludeCondition | cytoflowgui/subset.py:272-283 | true when there is no `when`; false for a condition without metadata; raises exactly when `eval` fails; true otherwise exactly when `when` holds |
| SubsetEditor.NewSubset | cytoflowgui/subset.py:246-264 | bool kind gives an unselected BoolSubset, object kind a CategorySubset on the sorted values, numeric kind a RangeSubset on the sorted values whose bounds span max/min, or stay Undefined for an empty condition; only another dtype raises |
| SubsetEditor.NewSubsetUnfiltered | cytoflowgui/subset.py:246-264 | every subset added for a new condition filters nothing; the range of an empty condition has no text at all (IndexError) |
| SubsetEditor.Refreshed | cytoflowgui/subset.py:266-270 | a held subset keeps its name and ends with the condition's value set. It is unchanged when its values already form that set. Otherwise it takes the sorted values and keeps its kind and selection (bool and category choices, defined range bounds), and a range bound left undefined becomes the max (min) of the new values exactly when they are non-empty and numeric |
| SubsetEditor.Drop | cytoflowgui/subset.py:241-244 | removing the stale names keeps exactly the subsets with other names |
| SubsetEditor.FirstNamed | cytoflowgui/subset.py:243 | `next(...)` finds the first subset with the name |
| SubsetEditor.DropNames | cytoflowgui/subset.py:241-244 | after removal the names are the old names minus the stale ones |
| SubsetEditor.DropDistinct | cytoflowgui/subset.py:241-244 | removal keeps the names distinct |
| SubsetEditor.RemoveFirstDrop | cytoflowgui/subset.py:243-244 | removing the first subset of each stale name one at a time is the same as dropping them all |
| SubsetEditor.SubsetListEditor.ConditionNames | cytoflowgui/subset.py:238 | `condition_names` fails exactly when some `include_condition` call raises, else is the included conditions |
| SubsetEditor.SubsetListEditor.RemoveStale | cytoflowgui/subset.py:240-244 | the list becomes Drop of the old list and stays valid |
| SubsetEditor.SubsetListEditor.AddNew | cytoflowgui/subset.py:246-264 | appends one subset per new condition and keeps the old prefix; raises exactly when some new condition has an unknown dtype, keeping the subsets appended before it |
| SubsetEditor.SubsetListEditor.Append | cytoflowgui/subset.py:264 | appending the subset of a condition not yet held adds exactly that name and keeps the names distinct and every subset well formed |
| SubsetEditor.SubsetListEditor.RefreshValues | cytoflowgui/subset.py:266-270 | each tracked subset is refreshed from its condition and the others are untouched |
| SubsetEditor.SubsetListEditor.RefreshOne | cytoflowgui/subset.py:268-270 | the one subset held under the name gets the condition's sorted values when its value set differs, every other subset is unchanged, and the names stay distinct |
| SubsetEditor.SubsetListEditor.OnConditionsChange | cytoflowgui/subset.py:236-270 | on success every included condition has exactly one subset. Stale ones go unless loading; new ones are appended; held ones are refreshed. A failing `include_condition` leaves the list unchanged; only an unknown dtype stops the handler part-way |
| SubsetEditor.Combine | cytoflowgui/subset.py:236-270 | the three passes together give a reconciled list |
| ViewPlugin.SubsetClauses | cytoflowgui/view_plugins/i_view_plugin.py:325-326 | one clause per subset, failing exactly when some subset's text fails |
| ViewPlugin.SubsetExpr | cytoflowgui/view_plugins/i_view_plugin.py:325-326 | the joined subset fails exactly when some subset's text fails |
| ViewPlugin.SubsetExprEmptyIff | cytoflowgui/view_plugins/i_view_plugin.py:325-326 | the subset is empty exactly when every subset's text is empty |
| ViewPlugin.SubsetExprSnoc | cytoflowgui/view_plugins/i_view_plugin.py:325-326 | appending a subset adds its clause after ` and `, skipping empty clauses |
| ViewPlugin.ShouldPlot | cytoflowgui/view_plugins/i_view_plugin.py:336-345 | the default view replots on every change tag |
| ViewPlugin.EnumPlotsWi | cytoflowgui/view_plugins/i_view_plugin.py:356-360 | a failing enumeration becomes the empty enumeration |
| ViewPlugin.PluginView.PlotNameArg | cytoflowgui/view_plugins/i_view_plugin.py:347-354 | `plot_name = current_plot` is passed exactly when there are plot names |
| ViewPlugin.PluginView.UpdatePlotNames | cytoflowgui/view_plugins/i_view_plugin.py:362-381 | the new plot state is AfterUpdate of the old one, and the subsets are unchanged |
| ViewPlugin.UpdateWithPlots | cytoflowgui/view_plugins/i_view_plugin.py:369-377 | with plots: the names are the enumeration, `plot_names_by` is the `, `-join of `by` (or empty), and `current_plot` is set to the first name only when it was None |
| ViewPlugin.UpdateWithoutPlots | cytoflowgui/view_plugins/i_view_plugin.py:366-381 | without plots, or on failure: no names, `current_plot` None, `plot_names_by` unchanged |
| ViewPlugin.UpdateIdempotent | cytoflowgui/view_plugins/i_view_plugin.py:362-381 | updating twice with the same enumeration is the same as updating once |
| ViewPlugin.SortedNames | cytoflowgui/view_plugins/i_view_plugin.py:420-425 | `sorted(keys)` is sorted, has no repeats and holds exactly the keys |
| ViewPlugin.ConditionsNames | cytoflowgui/view_plugins/i_view_plugin.py:420-425 | the sorted condition names; empty exactly when there is no context or no conditions |
| ViewPlugin.PreviousConditionsNames | cytoflowgui/view_plugins/i_view_plugin.py:427-432 | the sorted names of the previous item's conditions, or none |
| ViewPlugin.StatisticsNames | cytoflowgui/view_plugins/i_view_plugin.py:434-439 | the sorted statistic keys, or none |
| ViewPlugin.NumericStatisticsNames | cytoflowgui/view_plugins/i_view_plugin.py:441-446 | the sorted keys of the numeric statistics: the sublist of StatisticsNames that is numeric |
| Table.Queried | cytoflowgui/view_plugins/table.py:156-157 | the query keeps the level names and rectangularity; no subset keeps the index, and otherwise every level keeps exactly the rows QueriedRows selects |
| Table.QueriedRows | cytoflowgui/view_plugins/table.py:156-157 | the kept rows are exactly those the query expression holds on, in their original order |
| Table.OneDistinctValue | cytoflowgui/view_plugins/table.py:164-165 | a level has one unique value exactly when it is non-empty and constant |
| Table.PruneLevels | cytoflowgui/view_plugins/table.py:162-166 | the droplevel loop gives Pruned: the levels that vary, in order, or an error when the last level would be dropped |
| Table.PruneStep | cytoflowgui/view_plugins/table.py:163-166 | one pass of the loop: a varying level is kept; a single-valued level is dropped, or is refused when it is the last level left |
| Table.PruneEnd | cytoflowgui/view_plugins/table.py:162-168 | when some level varies, the loop ends with exactly the varying levels, in order |
| Table.PrunedNamesSubseq | cytoflowgui/view_plugins/table.py:162-168 | the kept names are an order-preserving sublist of the index names |
| Table.GetIndices | cytoflowgui/view_plugins/table.py:148-168 | the `indices` property equals its specification Indices |
| Table.KeptNamesIff | cytoflowgui/view_plugins/table.py:162-166 | a level is kept exactly when it varies |
| Table.IndicesAreVaryingLevels | cytoflowgui/view_plugins/table.py:148-168 | the indices are a sublist of the level names and, on a non-empty selection, are exactly the varying levels |
| Table.GetLevels | cytoflowgui/view_plugins/table.py:173-193 | the `levels` property equals its specification LevelsOf |
| Table.BuildLevelMap | cytoflowgui/view_plugins/table.py:187-193 | the loop over the kept level names builds LevelMap: each name to its sorted unique values |
| Table.LevelMapAt | cytoflowgui/view_plugins/table.py:188-191 | each kept level maps to the unique values of its sorted values |
| Table.SortedDistinctValues | cytoflowgui/view_plugins/table.py:189-190 | sorting and then taking unique values gives a sorted list, without repeats, of exactly the level's values |
| Table.LevelsAreSortedUnique | cytoflowgui/view_plugins/table.py:173-193 | `levels` maps exactly the varying levels to their values, ascending and each once |
| Table.StatisticField | cytoflowgui/view_plugins/table.py:369-371 | a missing `statistic` raises KeyError |
| Table.TableRoundTrip | cytoflowgui/view_plugins/table.py:360-372 | the six dumped fields, with the statistic as a pair, load back unchanged |
| Table.LoadTableNeedsStatistic | cytoflowgui/view_plugins/table.py:369-372 | loading without `statistic` raises KeyError |
| TableExport.DataPosInBounds | cytoflowgui/view_plugins/table.py:262-276 | a data cell's position lies past the header offsets and inside the grid |
| TableExport.DataPosInjective | cytoflowgui/view_plugins/table.py:271-276 | distinct group tuples go to distinct cells |
| TableExport.DataPosAt | cytoflowgui/view_plugins/table.py:271-305 | the cell at a group tuple's position holds the statistic looked up at that tuple's key |
| TableExport.RowHeadersInColumnZero | cytoflowgui/view_plugins/table.py:308-312 | each row group's header `facet = value` is in column 0 on its first row |
| TableExport.ColumnHeadersInRowZero | cytoflowgui/view_plugins/table.py:323-327 | each column group's header is in row 0 at its first column |
| TableExport.SubrowHeadersInColumnOne | cytoflowgui/view_plugins/table.py:315-320 | with row and subrow facets, each subrow header is in column 1 |
| TableExport.SubcolumnHeaderNamesColumnValue | cytoflowgui/view_plugins/table.py:330-335 | as written, the subcolumn header in row 1 shows the column value `c` |
| TableExport.DataCellsKept | cytoflowgui/view_plugins/table.py:271-335 | when a subrow (subcolumn) facet comes with a row (column) facet, no header covers a data cell |
| TableExport.SubrowHeaderHidesData | cytoflowgui/view_plugins/table.py:315-320 | as written, with a subrow facet and no row facet, the subrow header overwrites data column 1 |
| TableExport.SubcolumnHeaderHidesData | cytoflowgui/view_plugins/table.py:330-335 | as written, with a subcolumn facet and no column facet, the subcolumn header overwrites data row 1 |
| TableExport.IntendedKeepsData | cytoflowgui/view_plugins/table.py:315-335 | with the subrow header placed just left of the data and the subcolumn header just above it, every data cell survives |
| TableExport.IntendedSubcolumnHeader | cytoflowgui/view_plugins/table.py:330-335 | in the corrected grid the subcolumn header shows the subcolumn value `cc` |
| TableExport.ExportRefusesMismatchedFacets | cytoflowgui/view_plugins/table.py:243-248 | the export raises the view error naming the index levels exactly when the non-empty facets and the surviving levels differ as sets |
| TableExport.ExportLayoutWellFormed | cytoflowgui/view_plugins/table.py:243-266 | an accepted export's used facets are exactly the surviving levels. An unused facet has the single group `None`; the used facets' groups are all empty or all non-empty |
| TableExport.FillData | cytoflowgui/view_plugins/table.py:271-305 | succeeds exactly when every key is found (otherwise `loc` raises); then every data cell holds the looked-up statistic and the rest is empty |
| TableExport.FillDataRow | cytoflowgui/view_plugins/table.py:273-305 | the data cells of one row and subrow group are written in order; it fails only when some key has no entry |
| TableExport.FillCell | cytoflowgui/view_plugins/table.py:275-305 | one data cell is written at its row and column position, from the lookup of its key |
| TableExport.FillRowHeaders | cytoflowgui/view_plugins/table.py:308-312 | writes the row headers and nothing else |
| TableExport.FillSubrowHeaders | cytoflowgui/view_plugins/table.py:315-320 | writes the subrow headers and nothing else |
| TableExport.FillColumnHeaders | cytoflowgui/view_plugins/table.py:323-327 | writes the column headers and nothing else |
| TableExport.FillSubcolumnHeaders | cytoflowgui/view_plugins/table.py:330-335 | writes the subcolumn headers and nothing else |
| TableExport.Export | cytoflowgui/view_plugins/table.py:231-335 | fails with the pruning or facet error, or with KeyError when a key is missing; otherwise a new grid of the layout's size whose cells are the data and headers in the source's write order |
| TableExport.BuildGrid | cytoflowgui/view_plugins/table.py:268-335 | the grid is built exactly when every key has an entry (otherwise KeyError), and then has the table's dimensions and the final content in every cell |
| OpPlugin.ShouldClearEstimate | cytoflowgui/op_plugins/color_translation.py:199-203 | true exactly for ESTIMATE (autofluorescence.py:172-176 is the same method) |
| OpPlugin.ShouldPlotDiagnostic | cytoflowgui/op_plugins/color_translation.py:248-252 | the diagnostic view replots exactly on ESTIMATE_RESULT (autofluorescence.py:215-219 is the same method) |
| OpPlugin.StrItems | cytoflowgui/op_plugins/autofluorescence.py:110 | a `List(Str)` accepts a list exactly when every item is a str, and then gives those strs in order |
| OpPlugin.StrListRoundTrip | cytoflowgui/op_plugins/autofluorescence.py:253-261 | a dumped list of strs loads back unchanged |
| OpPlugin.SubsetArgRoundTrip | cytoflowgui/op_plugins/color_translation.py:226 | the `, subset = …` argument is present exactly when there is a subset, and the repr in it reads back as the subset |
| OpPlugin.EstimateApplyCodeLines | cytoflowgui/op_plugins/color_translation.py:210-226 | the notebook code's lines are the operation, `estimate` on `ex_{idx-1}` (with the subset) and `ex_{idx} = op_{idx}.apply(ex_{idx-1})` |
| ColorTranslation.FindDuplicate | cytoflowgui/op_plugins/color_translation.py:179-183 | finds nothing exactly when no two controls share a from-channel; otherwise the first control that shares one |
| ColorTranslation.ControlsMapKeys | cytoflowgui/op_plugins/color_translation.py:185-187 | the rebuilt dict's keys are exactly the controls' `(from, to)` pairs |
| ColorTranslation.ControlsMapValues | cytoflowgui/op_plugins/color_translation.py:185-187 | with distinct from-channels, each control's pair maps to its own file |
| ColorTranslation.ControlsMapExact | cytoflowgui/op_plugins/color_translation.py:185-187 | with distinct from-channels, the rebuilt dict has exactly one key `(from, to)` per control, mapping to its file |
| ColorTranslation.ColorTranslationOp.AddControl | cytoflowgui/op_plugins/color_translation.py:101-102 | appends one blank control and fires ESTIMATE |
| ColorTranslation.ColorTranslationOp.RemoveControl | cytoflowgui/op_plugins/color_translation.py:104-106 | pops the last control and fires ESTIMATE; does nothing on an empty list |
| ColorTranslation.ColorTranslationOp.EditControl | cytoflowgui/op_plugins/color_translation.py:158-160 | setting one trait of a control replaces just that control in the list; ESTIMATE fires exactly when the value changes |
| ColorTranslation.WithField | cytoflowgui/op_plugins/color_translation.py:85-88 | setting one of `from_channel`, `to_channel` or `file` leaves the other two as they were |
| ColorTranslation.ColorTranslationOp.EditSubset | cytoflowgui/op_plugins/color_translation.py:171-173 | a subset edit fires ESTIMATE |
| ColorTranslation.ColorTranslationOp.Estimate | cytoflowgui/op_plugins/color_translation.py:178-196 | a shared from-channel raises before the controls are touched. Otherwise the controls become ControlsMap; the coefficients are set and ESTIMATE_RESULT fires only when the base estimate succeeds |
| ColorTranslation.ColorTranslationOp.ClearEstimate | cytoflowgui/op_plugins/color_translation.py:205-207 | empties the coefficients and fires ESTIMATE_RESULT |
| ColorTranslation.ColorTranslationOp.NotebookCode | cytoflowgui/op_plugins/color_translation.py:210-226 | the estimate-then-apply code for the copied operation with the controls written in, with the current subset; fails exactly when the subset cannot be rendered |
| ColorTranslation.NotebookShowsEstimatedControls | cytoflowgui/op_plugins/color_translation.py:214-215 | once an estimate has rebuilt the controls, the notebook's operation shows exactly those controls |
| ColorTranslation.RemoveThenEstimate | cytoflowgui/tests/test_bead_calibration.py:80-87 | the pattern of the bead-calibration test (remove a list entry, then estimate), carried over to color translation: removing a control clears the estimate until a new estimate succeeds |
| ColorTranslation.LoadControls | cytoflowgui/op_plugins/color_translation.py:303-305 | the controls load one by one |
| ColorTranslation.ControlRoundTrip | cytoflowgui/op_plugins/color_translation.py:297-305 | a control's three fields load back unchanged |
| ColorTranslation.ControlsRoundTrip | cytoflowgui/op_plugins/color_translation.py:297-305 | a list of controls loads back unchanged |
| ColorTranslation.ColorTranslationRoundTrip | cytoflowgui/op_plugins/color_translation.py:287-295 | `controls_list`, `mixture_model` and `subset_list` load back unchanged |
| Autofluorescence.ByCheckOkIff | cytoflowgui/op_plugins/autofluorescence.py:143-148 | one operation's `by` passes exactly when every condition has metadata without `experiment` |
| Autofluorescence.HistoryCheckOkIff | cytoflowgui/op_plugins/autofluorescence.py:141-148 | the history passes exactly when every condition any prior operation grouped by has metadata without `experiment` |
| Autofluorescence.CheckHistory | cytoflowgui/op_plugins/autofluorescence.py:141-148 | the nested loops give HistoryCheck: KeyError for a condition without metadata, CytoflowOpError for an experiment condition |
| Autofluorescence.ShouldApply | cytoflowgui/op_plugins/autofluorescence.py:165-169 | true exactly for PREV_RESULT and ESTIMATE_RESULT |
| Autofluorescence.TagsAgree | cytoflowgui/op_plugins/autofluorescence.py:165-176 | an edit's tag clears the estimate without re-applying; the estimate's tag re-applies and replots without clearing |
| Autofluorescence.AutofluorescenceOp.SetChannels | cytoflowgui/op_plugins/autofluorescence.py:113-115 | setting `channels` fires ESTIMATE |
| Autofluorescence.AutofluorescenceOp.EditSubset | cytoflowgui/op_plugins/autofluorescence.py:126-128 | a subset edit fires ESTIMATE |
| Autofluorescence.AutofluorescenceOp.Estimate | cytoflowgui/op_plugins/autofluorescence.py:133-155 | an unrenderable subset or a failing history check raises and fires nothing. Otherwise ESTIMATE_RESULT fires whether the base estimate succeeds or raises, and the tables change only on success |
| Autofluorescence.AutofluorescenceOp.ClearEstimate | cytoflowgui/op_plugins/autofluorescence.py:158-162 | empties the median, stdev and histogram tables and fires ESTIMATE_RESULT |
| Autofluorescence.AutofluorescenceOp.NotebookCode | cytoflowgui/op_plugins/autofluorescence.py:178-191 | the estimate-then-apply code with the current subset; fails exactly when the subset cannot be rendered |
| Autofluorescence.AutofluorescenceRoundTrip | cytoflowgui/op_plugins/autofluorescence.py:253-261 | `blank_file`, `channels` and `subset_list` load back unchanged |
| ChannelStat.TablesAgree | cytoflowgui/op_plugins/channel_stat.py:74-84 | `summary_functions` is a bijection between the ten statistic names and the functions, and the empty name is not a key |
| ChannelStat.NameListed | cytoflowgui/op_plugins/channel_stat.py:74-84 | each function is found under its own statistic name |
| ChannelStat.FillShapeMatches | cytoflowgui/op_plugins/channel_stat.py:86-96 | the fill is the pair `(0,0)` exactly for the range functions Geom.SD and Geom.SEM |
| ChannelStat.GetFill | cytoflowgui/op_plugins/channel_stat.py:133-137 | 0 with no name; the table's fill for a known name; KeyError otherwise; `(0,0)` exactly for Geom.SD and Geom.SEM |
| ChannelStat.ChannelStatOp.FillValue | cytoflowgui/op_plugins/channel_stat.py:130-137 | the `fill` property is GetFill of the statistic name |
| ChannelStat.ChannelStatOp.EditSubset | cytoflowgui/op_plugins/channel_stat.py:148-150 | a subset edit fires OPERATION, not ESTIMATE |
| ChannelStat.ChannelStatOp.Apply | cytoflowgui/op_plugins/channel_stat.py:152-158 | an empty name raises "Summary function isn't set" and an unknown name KeyError, both leaving `function` alone. Otherwise `function` is set from the table before the base operation runs |
| ChannelStat.ChannelStatOp.NotebookCode | cytoflowgui/op_plugins/channel_stat.py:160-202 | raises KeyError exactly for a name outside the table |
| ChannelStat.ImportsSingleLine | cytoflowgui/op_plugins/channel_stat.py:164-174 | every import statement is one non-empty line |
| ChannelStat.NotebookLinesSplit | cytoflowgui/op_plugins/channel_stat.py:196-202 | the notebook lines come back from the code unchanged |
| ChannelStat.NotebookCodeLines | cytoflowgui/op_plugins/channel_stat.py:188-202 | the import line is present exactly when the function needs one. The operation line shows the function under its notebook name, and the last line is `ex_{idx} = op_{idx}.apply(ex_{idx-1})` |
| ChannelStat.ChannelStatRoundTrip | cytoflowgui/op_plugins/channel_stat.py:225-235 | `name`, `channel`, `statistic_name`, `by` and `subset_list` load back unchanged |

## Left out

- The Qt and traitsui forms, envisage plugin registration, icons, help pages and plotting itself are not modelled. `plot_wi` is modelled only through which `plot_name` it passes.
- The workflow engine (`workflow.py`, `workflow_item.py`) is not part of this model. Events are recorded as an `emitted` log of `Changed` tags, not delivered.
- File dialogs, `np.savetxt`, YAML reading and writing, and the notebook file writer are I/O and are not modelled. Documents are a `Doc` tree.
- The float dumper (`repr(float).lower()`) and the `{:g}` text the export computes and discards are not modelled. They need floating point.
- pandas `query`, `eval` of a `when` expression, `sanitize_identifier`, the statistic lookup, the base operations' `estimate`/`apply` and `repr` of a copied operation are parameters. Their own behaviour is not modelled. The statistic lookup of the table export reads `self.result`, the statistic before the subset query and the pruning of constant levels. So a key that leaves out a pruned level selects a sub-series there when the pruned levels are trailing, and `Series.get` usually returns None when a leading level was pruned; the model's `Lookup` only says whether a key is present and what the cell then holds.
- Traits' change comparison is not modelled for SetChannels and the EditSubset methods: each assignment fires its event, even of an equal value. ColorTranslation.ColorTranslationOp.EditControl does model it and fires only on a real change. Events fired while a document loads are not modelled.
- Serialization.LoadSeries: refuses a scalar `data`, which `pandas.Series(data, index)` would broadcast over the index. The dumper always writes a list.
- The strict loaders know only the traits that are dumped. The other traits of the underlying cytoflow operations are not modelled.
- Warnings are not modelled: the "no subset" warning at the start of the autofluorescence `estimate`, and the `CytoflowOpWarning`s.
- SubsetEditor.NewSubset: the "Unknown dtype" message leaves out the dtype's name. The model knows a series only by its dtype kind.
- TableExport.ShowNames: pandas' escaping of tab, carriage return and newline inside level names is not modelled.
- The base estimate's partial effects on the operation when it raises are not modelled.
- The `TypeError` pandas raises when sorting values of mixed types is not modelled. Values of different kinds are ordered by kind.
- Duplicate level names in a statistic's index are not modelled.
- OpPlugin.EstimateApplyCode: requires `repr(op)` to be one line. `dedent` computes the margin from every line, so a multi-line repr changes the result.
- The views' `get_notebook_code` and the diagnostic views' parameters are not modelled.
- Whether `copy_traits` shares the `controls` dict is not modelled. If it does, the color-translation notebook loop also writes the plugin's own `controls`. The model leaves them unchanged.
- Aliasing between subset objects shared by several lists is not modelled. Subsets are values, as their field-wise `__eq__`/`__hash__` promise.
- Table.GetLevels: with no matching statistic the source returns an empty list `[]`, not a dict. The model returns the empty map. Both are empty and falsy, and callers only iterate over the result or test it.
- Serialization.LoadBound: refuses a text value. A `CFloat` trait would coerce a numeric string such as `"1.5"`. Subsets.FillHigh and Subsets.FillLow likewise treat a list of numeric strings as not numeric, where `max` of strings succeeds and `CFloat` converts the result.
- Serialization.Shown: compares a trait with its default by structural equality. Python's `!=` would also count `True` and `1` as equal.

## Findings

| source | as written | input that shows it | evidently intended | confidence | as-written member | corrected member |
|---|---|---|---|---|---|---|
| cytoflowgui/view_plugins/table.py:315-335 | subrow headers go in column 1 and subcolumn headers in row 1, whatever the offsets | `row_facet = ""`, `subrow_facet = "A"`, `column_facet = "B"`: `col_offset` is 1, so data starts in column 1 and the subrow headers overwrite it | the subrow header in the column just left of the data (`col_offset - 1`), the subcolumn header in the row just above it (`row_offset - 1`) | not executed | TableExport.SubrowHeaderHidesData | TableExport.IntendedKeepsData |
| cytoflowgui/view_plugins/table.py:334 | the subcolumn header text formats the column value `c` | `column_facet = "B"` with groups b1, b2 and `subcolumn_facet = "C"` with groups c1, c2: the row-1 headers read `C = b1`, `C = b1`, `C = b2`, `C = b2` | `C = c1`, `C = c2`, `C = c1`, `C = c2`: the subcolumn value `cc` | not executed | TableExport.SubcolumnHeaderNamesColumnValue | TableExport.IntendedSubcolumnHeader |

The export method keeps the headers as written. `TableExport.FinalIntended` defines the corrected grid, and the corrected lemmas are stated about it.
