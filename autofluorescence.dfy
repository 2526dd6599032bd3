/** The autofluorescence operation's plugin: the check of the experiment's history that
    `estimate` makes, the events it fires, the change tags it reacts to, its notebook code and
    its dump/load pair. */
module Autofluorescence {
  import opened Wrappers
  import opened Values
  import opened Serialization
  import opened Subsets
  import opened Changes
  import opened OpPlugin
  import ViewPlugin

  /** An operation in `experiment.history`: the conditions of its `by` trait, or None when
      it has no such trait. */
  datatype HistoryOp = HistoryOp(groupBy: Option<seq<string>>)

  /** `experiment.metadata`: for each condition, the keys of its metadata dict. */
  type Metadata = map<string, set<string>>

  /** The per-channel tables the underlying estimate fills. */
  datatype Estimates = Estimates(
    median: map<string, real>,
    stdev: map<string, real>,
    histogram: map<string, seq<real>>)

  const HistoryMessage: string :=
    "Prior to applying this operation, you must not apply any operation with 'by' set to an experimental condition."

  // ---------------------------------------------------------------- the history check

  /** The check of one operation's `by` conditions, in order: a condition missing from the
      metadata raises KeyError, one whose metadata names 'experiment' is refused. */
  function ByCheck(bys: seq<string>, metadata: Metadata): Result<()>
  {
    if bys == [] then Ok(())
    else if bys[0] !in metadata then Err(KeyError(bys[0]))
    else if "experiment" in metadata[bys[0]] then Err(CytoflowOpError(HistoryMessage))
    else ByCheck(bys[1..], metadata)
  }

  /** The check of the whole history, operation by operation. */
  function HistoryCheck(history: seq<HistoryOp>, metadata: Metadata): Result<()>
  {
    if history == [] then Ok(())
    else if history[0].groupBy.Some? && ByCheck(history[0].groupBy.value, metadata).Err? then ByCheck(history[0].groupBy.value, metadata)
    else HistoryCheck(history[1..], metadata)
  }

  /** A condition a prior operation grouped by, known to the metadata and not marked as
      coming from the experiment. */
  predicate Harmless(c: string, metadata: Metadata)
  {
    c in metadata && "experiment" !in metadata[c]
  }

  lemma {:induction false} ByCheckOkIff(bys: seq<string>, metadata: Metadata)
    ensures ByCheck(bys, metadata).Ok? <==> forall k :: 0 <= k < |bys| ==> Harmless(bys[k], metadata)
  {
    if bys != [] {
      ByCheckOkIff(bys[1..], metadata);
      assert forall k :: 1 <= k < |bys| ==> bys[k] == bys[1..][k - 1];
    }
  }

  /** The history passes exactly when every condition any prior operation grouped by is
      harmless. */
  lemma {:induction false} HistoryCheckOkIff(history: seq<HistoryOp>, metadata: Metadata)
    ensures HistoryCheck(history, metadata).Ok? <==>
      forall i, k :: 0 <= i < |history| && history[i].groupBy.Some? && 0 <= k < |history[i].groupBy.value| ==>
        Harmless(history[i].groupBy.value[k], metadata)
  {
    if history != [] {
      HistoryCheckOkIff(history[1..], metadata);
      assert forall i :: 1 <= i < |history| ==> history[i] == history[1..][i - 1];
      if history[0].groupBy.Some? {
        ByCheckOkIff(history[0].groupBy.value, metadata);
      }
    }
  }

  /** The loops over `experiment.history` and each operation's `by`. */
  method CheckHistory(history: seq<HistoryOp>, metadata: Metadata) returns (r: Result<()>)
    ensures r == HistoryCheck(history, metadata)
  {
    var i := 0;
    while i < |history|
      invariant 0 <= i <= |history|
      invariant HistoryCheck(history, metadata) == HistoryCheck(history[i..], metadata)
    {
      assert history[i..][1..] == history[i + 1..];
      if history[i].groupBy.Some? {
        var bys := history[i].groupBy.value;
        var k := 0;
        while k < |bys|
          invariant 0 <= k <= |bys|
          invariant ByCheck(bys, metadata) == ByCheck(bys[k..], metadata)
        {
          assert bys[k..][1..] == bys[k + 1..];
          if bys[k] !in metadata {
            return Err(KeyError(bys[k]));
          }
          if "experiment" in metadata[bys[k]] {
            return Err(CytoflowOpError(HistoryMessage));
          }
          k := k + 1;
        }
        assert bys[k..] == [];
      }
      i := i + 1;
    }
    assert history[i..] == [];
    return Ok(());
  }

  // ---------------------------------------------------------------- change tags

  /** `should_apply`: the operation is re-applied when the previous result or the estimate
      changes. */
  function ShouldApply(changed: Changed): (r: bool)
    ensures r <==> changed == PREV_RESULT || changed == ESTIMATE_RESULT
  {
    changed == PREV_RESULT || changed == ESTIMATE_RESULT
  }

  /** The tag an estimate parameter's edit fires clears the estimate and does not re-apply
      the operation, and the tag a finished estimate fires re-applies it and replots the
      diagnostic without clearing anything. */
  lemma TagsAgree()
    ensures ShouldClearEstimate(ESTIMATE) && !ShouldApply(ESTIMATE) && !ShouldPlotDiagnostic(ESTIMATE)
    ensures ShouldApply(ESTIMATE_RESULT) && ShouldPlotDiagnostic(ESTIMATE_RESULT) && !ShouldClearEstimate(ESTIMATE_RESULT)
  {
  }

  // ---------------------------------------------------------------- the operation

  class AutofluorescenceOp {
    var channels: seq<string>
    var blankFile: string
    var subsetList: seq<Subset>
    /** `_af_median`, `_af_stdev` and `_af_histogram`. */
    var afMedian: map<string, real>
    var afStdev: map<string, real>
    var afHistogram: map<string, seq<real>>
    /** The `changed` events fired so far, oldest first. */
    var emitted: seq<Changed>

    constructor ()
      ensures channels == [] && blankFile == "" && subsetList == []
      ensures afMedian == map[] && afStdev == map[] && afHistogram == map[] && emitted == []
    {
      channels := [];
      blankFile := "";
      subsetList := [];
      afMedian := map[];
      afStdev := map[];
      afHistogram := map[];
      emitted := [];
    }

    /** An assignment to `channels` fires ESTIMATE. */
    method SetChannels(cs: seq<string>)
      modifies this
      ensures channels == cs && emitted == old(emitted) + [ESTIMATE]
      ensures blankFile == old(blankFile) && subsetList == old(subsetList)
      ensures afMedian == old(afMedian) && afStdev == old(afStdev) && afHistogram == old(afHistogram)
    {
      channels := cs;
      emitted := emitted + [ESTIMATE];
    }

    /** The subset editor replaces one subset; the change of `subset_list.str` fires
        ESTIMATE. */
    method EditSubset(i: nat, s: Subset)
      requires i < |subsetList|
      modifies this
      ensures subsetList == old(subsetList)[i := s] && emitted == old(emitted) + [ESTIMATE]
      ensures channels == old(channels) && blankFile == old(blankFile)
      ensures afMedian == old(afMedian) && afStdev == old(afStdev) && afHistogram == old(afHistogram)
    {
      subsetList := subsetList[i := s];
      emitted := emitted + [ESTIMATE];
    }

    /** `estimate`: the subset expression is read and the history checked, and a failure of
        either fires nothing. Past them, the underlying estimate (`base`, given the subset
        expression) runs, and ESTIMATE_RESULT is fired whether it succeeds or raises. */
    method Estimate(p: Printer, history: seq<HistoryOp>, metadata: Metadata, base: string -> Result<Estimates>)
        returns (r: Result<()>)
      modifies this
      ensures channels == old(channels) && blankFile == old(blankFile) && subsetList == old(subsetList)
      ensures var subset := ViewPlugin.SubsetExpr(p, subsetList);
        if subset.Err? || HistoryCheck(history, metadata).Err? then
          r == (if subset.Err? then Err(subset.error) else HistoryCheck(history, metadata)) &&
          emitted == old(emitted) &&
          afMedian == old(afMedian) && afStdev == old(afStdev) && afHistogram == old(afHistogram)
        else
          emitted == old(emitted) + [ESTIMATE_RESULT] &&
          var outcome := base(subset.value);
          if outcome.Err? then
            r == Err(outcome.error) &&
            afMedian == old(afMedian) && afStdev == old(afStdev) && afHistogram == old(afHistogram)
          else
            r == Ok(()) && afMedian == outcome.value.median && afStdev == outcome.value.stdev &&
            afHistogram == outcome.value.histogram
    {
      var subset := ViewPlugin.SubsetExpr(p, subsetList);
      if subset.Err? {
        return Err(subset.error);
      }
      var check := CheckHistory(history, metadata);
      if check.Err? {
        return check;
      }
      var outcome := base(subset.value);
      if outcome.Ok? {
        afMedian := outcome.value.median;
        afStdev := outcome.value.stdev;
        afHistogram := outcome.value.histogram;
        r := Ok(());
      } else {
        r := Err(outcome.error);
      }
      emitted := emitted + [ESTIMATE_RESULT];
    }

    /** `clear_estimate`: the three tables are emptied and ESTIMATE_RESULT is fired. */
    method ClearEstimate()
      modifies this
      ensures afMedian == map[] && afStdev == map[] && afHistogram == map[]
      ensures emitted == old(emitted) + [ESTIMATE_RESULT]
      ensures channels == old(channels) && blankFile == old(blankFile) && subsetList == old(subsetList)
    {
      afMedian := map[];
      afStdev := map[];
      afHistogram := map[];
      emitted := emitted + [ESTIMATE_RESULT];
    }

    /** `get_notebook_code`, given `repr` of the copied operation. */
    function NotebookCode(p: Printer, idx: int, opRepr: string): (r: Result<string>)
      requires '\n' !in opRepr
      reads this
      ensures r.Err? <==> ViewPlugin.SubsetExpr(p, subsetList).Err?
      ensures r.Ok? ==> r.value == EstimateApplyCode(idx, opRepr, ViewPlugin.SubsetExpr(p, subsetList).value)
    {
      var subset :- ViewPlugin.SubsetExpr(p, subsetList);
      Ok(EstimateApplyCode(idx, opRepr, subset))
    }

    function Config(): AutofluorescenceConfig
      reads this
    {
      AutofluorescenceConfig(blankFile, channels, subsetList)
    }
  }

  // ---------------------------------------------------------------- dump / load

  /** The traits the operation's dumper saves. */
  datatype AutofluorescenceConfig = AutofluorescenceConfig(
    blankFile: string,
    channels: seq<string>,
    subsetList: seq<Subset>)

  /** The `autofluorescence` dumper. */
  function DumpAutofluorescence(c: AutofluorescenceConfig): Doc
  {
    DTagged("autofluorescence", 1, DDict(map[
      "blank_file" := DVal(TextV(c.blankFile)),
      "channels" := DumpStrList(c.channels),
      "subset_list" := DumpList(c.subsetList)]))
  }

  /** The `autofluorescence` loader: `AutofluorescencePluginOp(**data)`. */
  function LoadAutofluorescence(version: nat, data: Doc): Result<AutofluorescenceConfig>
  {
    var e :- Entries(data, {"blank_file", "channels", "subset_list"});
    var blank :- StrField(e, "blank_file");
    var channels :- StrListField(e, "channels");
    var subsets :- ListOfSubsets(e, "subset_list");
    Ok(AutofluorescenceConfig(blank, channels, subsets))
  }

  /** The blank file, the channels and the subsets all come back. */
  lemma AutofluorescenceRoundTrip(c: AutofluorescenceConfig)
    requires forall i :: 0 <= i < |c.subsetList| ==> Wellformed(c.subsetList[i])
    ensures LoadAutofluorescence(1, DumpAutofluorescence(c).body) == Ok(c)
  {
    var d := DumpAutofluorescence(c).body;
    var e := d.entries;
    assert Entries(d, {"blank_file", "channels", "subset_list"}) == Ok(e);
    assert StrField(e, "blank_file") == Ok(c.blankFile);
    StrListRoundTrip(c.channels, e, "channels");
    DumpLoadListRoundTrip(c.subsetList);
    assert ListOfSubsets(e, "subset_list") == Ok(c.subsetList);
  }
}
