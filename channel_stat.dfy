/** The channel-statistic operation's plugin: its tables of summary functions and fill
    values, the guard `apply` puts before the underlying operation, its notebook code and its
    dump/load pair. */
module ChannelStat {
  import opened Wrappers
  import opened Text
  import opened Values
  import opened Serialization
  import opened Subsets
  import opened Changes
  import opened OpPlugin
  import ViewPlugin

  /** The summary functions a statistic can be computed with. */
  datatype SummaryFn =
    | Mean | GeomMean | Median | Count | StdDev | GeomSD | SEM | GeomSEM | MeanCI | GeomMeanCI

  /** A fill value: the scalar 0, or the pair (0, 0) for the functions that return a range. */
  datatype Fill = Zero | ZeroPair

  /** `summary_functions[name]`: the function a statistic name stands for, or None for a
      name the dict does not hold. */
  function SummaryFunction(name: string): Option<SummaryFn>
  {
    if name == "Mean" then Some(Mean)
    else if name == "Geom.Mean" then Some(GeomMean)
    else if name == "Median" then Some(Median)
    else if name == "Count" then Some(Count)
    else if name == "Std.Dev" then Some(StdDev)
    else if name == "Geom.SD" then Some(GeomSD)
    else if name == "SEM" then Some(SEM)
    else if name == "Geom.SEM" then Some(GeomSEM)
    else if name == "Mean 95% CI" then Some(MeanCI)
    else if name == "Geom.Mean 95% CI" then Some(GeomMeanCI)
    else None
  }

  /** `fill`: the value a statistic takes for a group with no events. The dict shares its
      keys with `summary_functions`, so it is given by the function a name stands for. */
  function FillOf(f: SummaryFn): Fill
  {
    match f
    case Mean => Zero
    case GeomMean => Zero
    case Median => Zero
    case Count => Zero
    case StdDev => Zero
    case GeomSD => ZeroPair
    case SEM => Zero
    case GeomSEM => ZeroPair
    case MeanCI => Zero
    case GeomMeanCI => Zero
  }

  /** `fn_import`: the notebook's import statement for each function, if it needs one. */
  function ImportOf(f: SummaryFn): Option<string>
  {
    match f
    case Mean => Some("from numpy import mean")
    case Median => Some("from numpy import median")
    case GeomMean => None
    case Count => None
    case StdDev => Some("from numpy import std")
    case GeomSD => None
    case SEM => Some("from scipy.stats import sem")
    case GeomSEM => None
    case MeanCI => Some("from numpy import mean")
    case GeomMeanCI => None
  }

  /** `fn_name`: the `__name__` the notebook gives each function. */
  function NotebookName(f: SummaryFn): string
  {
    match f
    case Mean => "mean"
    case Median => "median"
    case GeomMean => "geom_mean"
    case Count => "len"
    case StdDev => "std"
    case GeomSD => "geom_sd_range"
    case SEM => "sem"
    case GeomSEM => "geom_sem_range"
    case MeanCI => "lambda x: ci(x, mean, boots = 100)"
    case GeomMeanCI => "lambda x: ci(x, geom_mean, boots = 100)"
  }

  /** The statistic name of each function, stated independently of the lookup. */
  function NameOf(f: SummaryFn): string
  {
    match f
    case Mean => "Mean"
    case GeomMean => "Geom.Mean"
    case Median => "Median"
    case Count => "Count"
    case StdDev => "Std.Dev"
    case GeomSD => "Geom.SD"
    case SEM => "SEM"
    case GeomSEM => "Geom.SEM"
    case MeanCI => "Mean 95% CI"
    case GeomMeanCI => "Geom.Mean 95% CI"
  }

  /** The functions that return a (low, high) range rather than a scalar. */
  predicate ReturnsRange(f: SummaryFn)
  {
    f == GeomSD || f == GeomSEM
  }

  /** The lookup is a bijection between the ten names and the functions, and the empty name
      is not among them. */
  lemma TablesAgree()
    ensures forall f: SummaryFn :: SummaryFunction(NameOf(f)) == Some(f)
    ensures forall n :: SummaryFunction(n).Some? ==> NameOf(SummaryFunction(n).value) == n
    ensures SummaryFunction("") == None
  {
    forall f: SummaryFn ensures SummaryFunction(NameOf(f)) == Some(f) {
      NameListed(f);
    }
  }

  /** Each function is found under its own name. */
  lemma NameListed(f: SummaryFn)
    ensures SummaryFunction(NameOf(f)) == Some(f)
  {
    match f
    case Mean =>
    case GeomMean =>
    case Median =>
    case Count =>
    case StdDev =>
    case GeomSD =>
    case SEM =>
    case GeomSEM =>
    case MeanCI =>
    case GeomMeanCI =>
  }

  /** Each function's fill has the shape of its result: a pair exactly for the range
      functions. */
  lemma FillShapeMatches(f: SummaryFn)
    ensures FillOf(f) == ZeroPair <==> ReturnsRange(f)
  {
  }

  /** `_get_fill`: the fill of the named statistic, 0 when no name is set; an unknown name
      raises KeyError. */
  function GetFill(statisticName: string): (r: Result<Fill>)
    ensures r.Ok? <==> statisticName == "" || SummaryFunction(statisticName).Some?
    ensures r.Err? ==> r.error == KeyError(statisticName)
    ensures r == Ok(ZeroPair) <==> statisticName == "Geom.SD" || statisticName == "Geom.SEM"
  {
    if statisticName == "" then Ok(Zero)
    else match SummaryFunction(statisticName)
      case None => Err(KeyError(statisticName))
      case Some(f) => Ok(FillOf(f))
  }

  /** The lines of the notebook code: a blank line, the import statement (or an empty
      line), the operation, a blank line and the application to the previous item's
      experiment. */
  function NotebookLines(idx: int, opRepr: string, import_: Option<string>): seq<string>
  {
    var i, prev := IntToString(idx), IntToString(idx - 1);
    ["",
     if import_.Some? then import_.value else "",
     "op_" + i + " = " + opRepr,
     "",
     "ex_" + i + " = op_" + i + ".apply(ex_" + prev + ")"]
  }

  // ---------------------------------------------------------------- the operation

  class ChannelStatOp {
    var name: string
    var channel: string
    var statisticName: string
    var groupBy: seq<string>
    var subsetList: seq<Subset>
    /** The transient `function` trait; None until `apply` sets it. */
    var summaryFn: Option<SummaryFn>
    /** The `changed` events fired so far, oldest first. */
    var emitted: seq<Changed>

    constructor ()
      ensures name == "" && channel == "" && statisticName == "" && groupBy == [] && subsetList == []
      ensures summaryFn == None && emitted == []
    {
      name := "";
      channel := "";
      statisticName := "";
      groupBy := [];
      subsetList := [];
      summaryFn := None;
      emitted := [];
    }

    /** The `fill` property. */
    function FillValue(): (r: Result<Fill>)
      reads this
      ensures r == GetFill(statisticName)
    {
      GetFill(statisticName)
    }

    /** The subset editor replaces one subset; the change of `subset_list.str` fires
        OPERATION, so the operation is re-applied rather than re-estimated. */
    method EditSubset(i: nat, s: Subset)
      requires i < |subsetList|
      modifies this
      ensures subsetList == old(subsetList)[i := s] && emitted == old(emitted) + [OPERATION]
      ensures name == old(name) && channel == old(channel) && statisticName == old(statisticName)
      ensures groupBy == old(groupBy) && summaryFn == old(summaryFn)
    {
      subsetList := subsetList[i := s];
      emitted := emitted + [OPERATION];
    }

    /** `apply`: refuses an unset statistic name, looks the function up, stores it and hands
        over to the underlying operation (`base`, given the function, the fill and the subset
        expression). */
    method Apply<X>(p: Printer, base: (SummaryFn, Fill, string) -> Result<X>) returns (r: Result<X>)
      modifies this
      ensures name == old(name) && channel == old(channel) && statisticName == old(statisticName)
      ensures groupBy == old(groupBy) && subsetList == old(subsetList) && emitted == old(emitted)
      ensures statisticName == "" ==>
        r == Err(CytoflowOpError("Summary function isn't set")) && summaryFn == old(summaryFn)
      ensures statisticName != "" && SummaryFunction(statisticName).None? ==>
        r == Err(KeyError(statisticName)) && summaryFn == old(summaryFn)
      ensures statisticName != "" && SummaryFunction(statisticName).Some? ==>
        summaryFn == SummaryFunction(statisticName) &&
        var f := SummaryFunction(statisticName).value;
        var subset := ViewPlugin.SubsetExpr(p, subsetList);
        r == (if subset.Err? then Err(subset.error) else base(f, FillOf(f), subset.value))
    {
      if statisticName == "" {
        return Err(CytoflowOpError("Summary function isn't set"));
      }
      var f := SummaryFunction(statisticName);
      if f.None? {
        return Err(KeyError(statisticName));
      }
      summaryFn := f;
      var fill := FillValue();
      var subset := ViewPlugin.SubsetExpr(p, subsetList);
      if subset.Err? {
        return Err(subset.error);
      }
      r := base(f.value, fill.value, subset.value);
    }

    /** `get_notebook_code`, given `repr` of the copied operation as a function of the
        `__name__` its summary function shows. An unknown or unset statistic name raises
        KeyError. */
    function NotebookCode(idx: int, reprWith: string -> string): (r: Result<string>)
      reads this
      ensures r.Err? <==> SummaryFunction(statisticName).None?
      ensures r.Err? ==> r.error == KeyError(statisticName)
    {
      match SummaryFunction(statisticName)
      case None => Err(KeyError(statisticName))
      case Some(f) => Ok(Join("\n", NotebookLines(idx, reprWith(NotebookName(f)), ImportOf(f))))
    }

    function Config(): ChannelStatConfig
      reads this
    {
      ChannelStatConfig(name, channel, statisticName, groupBy, subsetList)
    }
  }

  /** Every import statement is one non-empty line. */
  lemma ImportsSingleLine(f: SummaryFn)
    requires ImportOf(f).Some?
    ensures ImportOf(f).value != "" && '\n' !in ImportOf(f).value
  {
  }

  /** Joined with newlines and split again, the notebook lines come back unchanged. */
  lemma NotebookLinesSplit(idx: int, opRepr: string, import_: Option<string>)
    requires '\n' !in opRepr
    requires import_.Some? ==> '\n' !in import_.value
    ensures Split(Join("\n", NotebookLines(idx, opRepr, import_)), '\n') == NotebookLines(idx, opRepr, import_)
  {
    var lines := NotebookLines(idx, opRepr, import_);
    IntToStringSingleLine(idx);
    IntToStringSingleLine(idx - 1);
    forall k | 0 <= k < |lines| ensures '\n' !in lines[k] {
    }
    SplitJoin(lines, '\n');
    assert Join("\n", lines) == Join(['\n'], lines);
  }

  /** The notebook code splits into its lines: the import statement is there exactly when
      the function needs one, the operation shows its function under its notebook name, and
      the code ends by applying `op_{idx}` to the previous item's experiment. */
  lemma NotebookCodeLines(op: ChannelStatOp, idx: int, reprWith: string -> string)
    requires SummaryFunction(op.statisticName).Some?
    requires '\n' !in reprWith(NotebookName(SummaryFunction(op.statisticName).value))
    ensures op.NotebookCode(idx, reprWith).Ok?
    ensures var f := SummaryFunction(op.statisticName).value;
      var lines := Split(op.NotebookCode(idx, reprWith).value, '\n');
      |lines| == 5 && lines[0] == "" &&
      (lines[1] != "" <==> ImportOf(f).Some?) && (ImportOf(f).Some? ==> lines[1] == ImportOf(f).value) &&
      lines[2] == "op_" + IntToString(idx) + " = " + reprWith(NotebookName(f)) &&
      lines[4] == "ex_" + IntToString(idx) + " = op_" + IntToString(idx) + ".apply(ex_" + IntToString(idx - 1) + ")"
  {
    var f := SummaryFunction(op.statisticName).value;
    if ImportOf(f).Some? {
      ImportsSingleLine(f);
    }
    NotebookLinesSplit(idx, reprWith(NotebookName(f)), ImportOf(f));
  }

  // ---------------------------------------------------------------- dump / load

  /** The traits the operation's dumper saves. */
  datatype ChannelStatConfig = ChannelStatConfig(
    name: string,
    channel: string,
    statisticName: string,
    groupBy: seq<string>,
    subsetList: seq<Subset>)

  /** The `channel-statistic` dumper. */
  function DumpChannelStat(c: ChannelStatConfig): Doc
  {
    DTagged("channel-statistic", 1, DDict(map[
      "name" := DVal(TextV(c.name)),
      "channel" := DVal(TextV(c.channel)),
      "statistic_name" := DVal(TextV(c.statisticName)),
      "by" := DumpStrList(c.groupBy),
      "subset_list" := DumpList(c.subsetList)]))
  }

  /** The `channel-statistic` loader: `ChannelStatisticPluginOp(**data)`. */
  function LoadChannelStat(version: nat, data: Doc): Result<ChannelStatConfig>
  {
    var e :- Entries(data, {"name", "channel", "statistic_name", "by", "subset_list"});
    var name :- StrField(e, "name");
    var channel :- StrField(e, "channel");
    var statisticName :- StrField(e, "statistic_name");
    var groupBy :- StrListField(e, "by");
    var subsets :- ListOfSubsets(e, "subset_list");
    Ok(ChannelStatConfig(name, channel, statisticName, groupBy, subsets))
  }

  /** The five dumped traits all come back. */
  lemma ChannelStatRoundTrip(c: ChannelStatConfig)
    requires forall i :: 0 <= i < |c.subsetList| ==> Wellformed(c.subsetList[i])
    ensures LoadChannelStat(1, DumpChannelStat(c).body) == Ok(c)
  {
    var d := DumpChannelStat(c).body;
    var e := d.entries;
    assert Entries(d, {"name", "channel", "statistic_name", "by", "subset_list"}) == Ok(e);
    assert StrField(e, "name") == Ok(c.name);
    assert StrField(e, "channel") == Ok(c.channel);
    assert StrField(e, "statistic_name") == Ok(c.statisticName);
    StrListRoundTrip(c.groupBy, e, "by");
    DumpLoadListRoundTrip(c.subsetList);
    assert ListOfSubsets(e, "subset_list") == Ok(c.subsetList);
  }
}
