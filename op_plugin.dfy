/** What the operation plugins share: `List(Str)` traits in their dumped form, and the
    notebook code of an operation that is estimated and then applied. */
module OpPlugin {
  import opened Wrappers
  import opened Text
  import opened Values
  import opened Serialization
  import opened Changes

  // ---------------------------------------------------------------- change tags

  /** `should_clear_estimate`, written alike in the estimating plugins: an edit of an
      estimate parameter invalidates the estimate. */
  function ShouldClearEstimate(changed: Changed): (r: bool)
    ensures r <==> changed == ESTIMATE
  {
    changed == ESTIMATE
  }

  /** `should_plot` of the estimating plugins' diagnostic views: they show the estimate,
      so they replot when the estimate changes and at no other time. */
  function ShouldPlotDiagnostic(changed: Changed): (r: bool)
    ensures r <==> changed == ESTIMATE_RESULT
  {
    changed == ESTIMATE_RESULT
  }

  // ---------------------------------------------------------------- List(Str) traits

  function DumpStrList(ss: seq<string>): (d: Doc)
    ensures d.DList? && |d.items| == |ss| && forall i :: 0 <= i < |ss| ==> d.items[i] == DVal(TextV(ss[i]))
  {
    DList(seq(|ss|, i requires 0 <= i < |ss| => DVal(TextV(ss[i]))))
  }

  predicate IsText(d: Doc)
  {
    d.DVal? && d.v.TextV?
  }

  /** The items of a `List(Str)` trait: each must be a str, or the trait refuses the list. */
  function StrItems(ds: seq<Doc>, key: string): (r: Result<seq<string>>)
    ensures r.Ok? <==> forall i :: 0 <= i < |ds| ==> IsText(ds[i])
    ensures r.Ok? ==> |r.value| == |ds| && forall i :: 0 <= i < |ds| ==> ds[i] == DVal(TextV(r.value[i]))
    ensures r.Err? ==> r.error == TraitError(key)
  {
    if ds == [] then Ok([])
    else if !IsText(ds[0]) then Err(TraitError(key))
    else
      var rest := StrItems(ds[1..], key);
      assert forall i :: 1 <= i < |ds| ==> ds[i] == ds[1..][i - 1];
      if rest.Err? then Err(rest.error) else Ok([ds[0].v.s] + rest.value)
  }

  /** A `List(Str)` keyword given in a mapping, or the default empty list. */
  function StrListField(e: map<string, Doc>, key: string): Result<seq<string>>
  {
    if key !in e then Ok([])
    else match e[key]
      case DList(items) => StrItems(items, key)
      case _ => Err(TraitError(key))
  }

  lemma StrListRoundTrip(ss: seq<string>, e: map<string, Doc>, key: string)
    requires key in e && e[key] == DumpStrList(ss)
    ensures StrListField(e, key) == Ok(ss)
  {
    var r := StrItems(DumpStrList(ss).items, key);
    assert r.Ok?;
    assert r.value == ss;
  }

  // ---------------------------------------------------------------- notebook code

  /** The keyword argument that passes the operation's subset to `estimate`: nothing for an
      empty subset, `, subset = <repr>` otherwise. */
  function SubsetArg(subset: string): string
  {
    if subset != "" then ", subset = " + StrRepr(subset) else ""
  }

  /** The subset argument is there exactly when there is a subset, and reading its repr
      back gives the subset. */
  lemma SubsetArgRoundTrip(subset: string)
    ensures SubsetArg(subset) == "" <==> subset == ""
    ensures subset != "" ==>
      |SubsetArg(subset)| > 11 && SubsetArg(subset)[..11] == ", subset = " &&
      UnRepr(SubsetArg(subset)[11..]) == Some(subset)
    ensures '\n' !in SubsetArg(subset)
  {
    StrReprSingleLine(subset);
    if subset != "" {
      var a := SubsetArg(subset);
      assert a[11..] == StrRepr(subset);
      StrReprRoundTrip(subset);
    }
  }

  lemma IntToStringSingleLine(i: int)
    ensures '\n' !in IntToString(i)
  {
    var s := IntToString(i);
    if i < 0 {
      assert forall k :: 1 <= k < |s| ==> s[k] == NatToString(-i)[k - 1];
    }
  }

  /** The lines of `op_{idx} = {repr}; op_{idx}.estimate(ex_{idx-1}{subset});
      ex_{idx} = op_{idx}.apply(ex_{idx-1})`, once `dedent` has removed the template's
      indentation. */
  function EstimateApplyLines(idx: int, opRepr: string, subset: string): seq<string>
  {
    var i, prev := IntToString(idx), IntToString(idx - 1);
    ["",
     "op_" + i + " = " + opRepr,
     "",
     "op_" + i + ".estimate(ex_" + prev + SubsetArg(subset) + ")",
     "ex_" + i + " = op_" + i + ".apply(ex_" + prev + ")",
     ""]
  }

  /** `get_notebook_code` of an estimating operation. The template's common indentation is
      removed by `dedent`, which needs every line of `repr(op)` to carry it: the repr must
      be a single line. */
  function EstimateApplyCode(idx: int, opRepr: string, subset: string): string
    requires '\n' !in opRepr
  {
    Join("\n", EstimateApplyLines(idx, opRepr, subset))
  }

  /** The code is exactly those lines: it builds `op_{idx}`, estimates it on the previous
      item's experiment `ex_{idx-1}` with the subset (when there is one), and applies it to
      that experiment to make `ex_{idx}`. */
  lemma EstimateApplyCodeLines(idx: int, opRepr: string, subset: string)
    requires '\n' !in opRepr
    ensures var lines := Split(EstimateApplyCode(idx, opRepr, subset), '\n');
      |lines| == 6 && lines == EstimateApplyLines(idx, opRepr, subset) &&
      lines[4] == "ex_" + IntToString(idx) + " = op_" + IntToString(idx) + ".apply(ex_" + IntToString(idx - 1) + ")"
    ensures ParseInt(IntToString(idx - 1)) == Some(idx - 1)
  {
    var lines := EstimateApplyLines(idx, opRepr, subset);
    EstimateApplyLinesSingle(idx, opRepr, subset);
    SplitJoin(lines, '\n');
    IntToStringRoundTrip(idx - 1);
  }

  /** None of the lines holds a newline. */
  lemma EstimateApplyLinesSingle(idx: int, opRepr: string, subset: string)
    requires '\n' !in opRepr
    ensures forall k :: 0 <= k < |EstimateApplyLines(idx, opRepr, subset)| ==>
      '\n' !in EstimateApplyLines(idx, opRepr, subset)[k]
  {
    var i, prev, arg := IntToString(idx), IntToString(idx - 1), SubsetArg(subset);
    IntToStringSingleLine(idx);
    IntToStringSingleLine(idx - 1);
    SubsetArgRoundTrip(subset);
    assert '\n' !in "op_" + i + " = " + opRepr;
    assert '\n' !in "op_" + i + ".estimate(ex_" + prev + arg + ")";
    assert '\n' !in "ex_" + i + " = op_" + i + ".apply(ex_" + prev + ")";
  }
}
