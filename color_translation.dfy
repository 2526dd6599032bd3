/** The color translation operation's plugin: its list of controls (each translating one
    channel into another), the checks `estimate` makes before it rebuilds the `controls`
    dict, the change tags it reacts to, its notebook code and its dump/load pair. */
module ColorTranslation {
  import opened Wrappers
  import opened Values
  import opened Serialization
  import opened Subsets
  import opened Changes
  import opened OpPlugin
  import ViewPlugin

  /** `_Control`: a control file and the pair of channels it translates. */
  datatype Control = Control(fromChannel: string, toChannel: string, file: string)

  /** The three traits of a `_Control` that the editor can set. */
  datatype ControlField = FromChannel | ToChannel | FileName

  /** The control with one of its traits set to `v`. */
  function WithField(c: Control, f: ControlField, v: string): (r: Control)
    ensures r.fromChannel == (if f == FromChannel then v else c.fromChannel)
    ensures r.toChannel == (if f == ToChannel then v else c.toChannel)
    ensures r.file == (if f == FileName then v else c.file)
  {
    match f
    case FromChannel => c.(fromChannel := v)
    case ToChannel => c.(toChannel := v)
    case FileName => c.(file := v)
  }

  /** The translation coefficients the estimate computes, per pair of channels. */
  type Coefficients = map<(string, string), seq<real>>

  function ControlKey(c: Control): (string, string)
  {
    (c.fromChannel, c.toChannel)
  }

  // ---------------------------------------------------------------- validation

  /** Control i translates a channel that another control also translates. */
  ghost predicate SharesFrom(cs: seq<Control>, i: int)
    requires 0 <= i < |cs|
  {
    exists j :: 0 <= j < |cs| && j != i && cs[j].fromChannel == cs[i].fromChannel
  }

  predicate DistinctFrom(cs: seq<Control>)
  {
    forall i, j :: 0 <= i < |cs| && 0 <= j < |cs| && i != j ==> cs[i].fromChannel != cs[j].fromChannel
  }

  function DuplicateMessage(channel: string): string
  {
    "Channel " + channel + " is included more than once"
  }

  /** The nested loops at the head of `estimate`: the first control (in list order) whose
      channel another control also translates, if any. */
  method FindDuplicate(cs: seq<Control>) returns (r: Option<nat>)
    ensures r.None? <==> DistinctFrom(cs)
    ensures r.Some? ==> (r.value < |cs| && SharesFrom(cs, r.value) &&
      forall k :: 0 <= k < r.value ==> !SharesFrom(cs, k))
  {
    var i := 0;
    while i < |cs|
      invariant 0 <= i <= |cs|
      invariant forall k :: 0 <= k < i ==> !SharesFrom(cs, k)
    {
      var j := 0;
      while j < |cs|
        invariant 0 <= j <= |cs|
        invariant forall l :: 0 <= l < j && l != i ==> cs[l].fromChannel != cs[i].fromChannel
      {
        if cs[i].fromChannel == cs[j].fromChannel && i != j {
          return Some(i);
        }
        j := j + 1;
      }
      i := i + 1;
    }
    forall a, b | 0 <= a < |cs| && 0 <= b < |cs| && a != b ensures cs[a].fromChannel != cs[b].fromChannel {
      assert !SharesFrom(cs, a);
    }
    return None;
  }

  // ---------------------------------------------------------------- the controls dict

  /** `{(from, to): file}` over the controls in order: a later control overrides an earlier
      one with the same pair of channels. */
  function ControlsMap(cs: seq<Control>): map<(string, string), string>
  {
    if cs == [] then map[] else ControlsMap(cs[..|cs| - 1])[ControlKey(cs[|cs| - 1]) := cs[|cs| - 1].file]
  }

  /** The dict's keys are the controls' pairs of channels. */
  lemma {:induction false} ControlsMapKeys(cs: seq<Control>)
    ensures forall k :: k in ControlsMap(cs) <==> exists i :: 0 <= i < |cs| && ControlKey(cs[i]) == k
  {
    if cs != [] {
      var init := cs[..|cs| - 1];
      ControlsMapKeys(init);
      forall k | exists i :: 0 <= i < |cs| && ControlKey(cs[i]) == k
        ensures k in ControlsMap(cs)
      {
        var i :| 0 <= i < |cs| && ControlKey(cs[i]) == k;
        if i < |init| {
          assert ControlKey(init[i]) == k;
        }
      }
      forall k | k in ControlsMap(init) ensures exists i :: 0 <= i < |cs| && ControlKey(cs[i]) == k {
        var i :| 0 <= i < |init| && ControlKey(init[i]) == k;
        assert ControlKey(cs[i]) == k;
      }
    }
  }

  /** With distinct from-channels, each control's pair maps to its own file. */
  lemma {:induction false} ControlsMapValues(cs: seq<Control>)
    requires DistinctFrom(cs)
    ensures forall i :: 0 <= i < |cs| ==> ControlKey(cs[i]) in ControlsMap(cs) && ControlsMap(cs)[ControlKey(cs[i])] == cs[i].file
  {
    if cs != [] {
      var init := cs[..|cs| - 1];
      var last := cs[|cs| - 1];
      assert forall i :: 0 <= i < |init| ==> init[i] == cs[i];
      ControlsMapValues(init);
      forall i | 0 <= i < |init| ensures ControlKey(cs[i]) != ControlKey(last) {
        assert cs[i].fromChannel != cs[|cs| - 1].fromChannel;
      }
    }
  }

  /** Once the channels are distinct, the dict holds exactly one entry per control, mapping
      its pair of channels to its file. */
  lemma ControlsMapExact(cs: seq<Control>)
    requires DistinctFrom(cs)
    ensures forall k :: k in ControlsMap(cs) <==> exists i :: 0 <= i < |cs| && ControlKey(cs[i]) == k
    ensures forall i :: 0 <= i < |cs| ==> ControlsMap(cs)[ControlKey(cs[i])] == cs[i].file
  {
    ControlsMapKeys(cs);
    ControlsMapValues(cs);
  }

  // ---------------------------------------------------------------- the operation

  class ColorTranslationOp {
    var controlsList: seq<Control>
    var mixtureModel: bool
    var subsetList: seq<Subset>
    /** `controls`, rebuilt by `estimate`. */
    var controls: map<(string, string), string>
    /** `_coefficients`, filled by the estimate of the underlying operation. */
    var coefficients: Coefficients
    /** The `changed` events fired so far, oldest first. */
    var emitted: seq<Changed>

    constructor ()
      ensures controlsList == [] && !mixtureModel && subsetList == []
      ensures controls == map[] && coefficients == map[] && emitted == []
    {
      controlsList := [];
      mixtureModel := false;
      subsetList := [];
      controls := map[];
      coefficients := map[];
      emitted := [];
    }

    /** The handler's `add_control`: a blank control is appended, and the list edit fires
        ESTIMATE. */
    method AddControl()
      modifies this
      ensures controlsList == old(controlsList) + [Control("", "", "")]
      ensures emitted == old(emitted) + [ESTIMATE]
      ensures mixtureModel == old(mixtureModel) && subsetList == old(subsetList)
      ensures controls == old(controls) && coefficients == old(coefficients)
    {
      controlsList := controlsList + [Control("", "", "")];
      emitted := emitted + [ESTIMATE];
    }

    /** The handler's `remove_control`: the last control is popped, if there is one. */
    method RemoveControl()
      modifies this
      ensures old(controlsList) == [] ==> controlsList == [] && emitted == old(emitted)
      ensures old(controlsList) != [] ==>
        controlsList == old(controlsList)[..|old(controlsList)| - 1] && emitted == old(emitted) + [ESTIMATE]
      ensures mixtureModel == old(mixtureModel) && subsetList == old(subsetList)
      ensures controls == old(controls) && coefficients == old(coefficients)
    {
      if controlsList != [] {
        controlsList := controlsList[..|controlsList| - 1];
        emitted := emitted + [ESTIMATE];
      }
    }

    /** The editor sets one trait of control `i`. The `controls_list:+` listener fires
        ESTIMATE when the value changes; Traits notifies nothing when the new value equals
        the old one. */
    method EditControl(i: nat, f: ControlField, v: string)
      requires i < |controlsList|
      modifies this
      ensures controlsList == old(controlsList)[i := WithField(old(controlsList)[i], f, v)]
      ensures emitted == old(emitted) + (if WithField(old(controlsList)[i], f, v) == old(controlsList)[i] then [] else [ESTIMATE])
      ensures mixtureModel == old(mixtureModel) && subsetList == old(subsetList)
      ensures controls == old(controls) && coefficients == old(coefficients)
    {
      var c := WithField(controlsList[i], f, v);
      if c != controlsList[i] {
        controlsList := controlsList[i := c];
        emitted := emitted + [ESTIMATE];
      }
    }

    /** The subset editor replaces one subset; the change of `subset_list.str` fires
        ESTIMATE. */
    method EditSubset(i: nat, s: Subset)
      requires i < |subsetList|
      modifies this
      ensures subsetList == old(subsetList)[i := s]
      ensures emitted == old(emitted) + [ESTIMATE]
      ensures controlsList == old(controlsList) && mixtureModel == old(mixtureModel)
      ensures controls == old(controls) && coefficients == old(coefficients)
    {
      subsetList := subsetList[i := s];
      emitted := emitted + [ESTIMATE];
    }

    /** `estimate`: two controls of the same channel are refused before anything changes;
        otherwise `controls` is rebuilt from `controls_list`, the subset expression is
        read, and the underlying estimate (`base`, given that expression) runs. ESTIMATE_RESULT
        is fired only when it succeeds. */
    method Estimate(p: Printer, base: string -> Result<Coefficients>) returns (r: Result<()>)
      modifies this
      ensures controlsList == old(controlsList) && mixtureModel == old(mixtureModel) && subsetList == old(subsetList)
      ensures !DistinctFrom(controlsList) ==>
        (exists k :: 0 <= k < |controlsList| && SharesFrom(controlsList, k) &&
          (forall l :: 0 <= l < k ==> !SharesFrom(controlsList, l)) &&
          r == Err(CytoflowOpError(DuplicateMessage(controlsList[k].fromChannel)))) &&
        controls == old(controls) && coefficients == old(coefficients) && emitted == old(emitted)
      ensures DistinctFrom(controlsList) ==>
        controls == ControlsMap(controlsList) &&
        var subset := ViewPlugin.SubsetExpr(p, subsetList);
        if subset.Err? then
          r == Err(subset.error) && coefficients == old(coefficients) && emitted == old(emitted)
        else if base(subset.value).Err? then
          r == Err(base(subset.value).error) && coefficients == old(coefficients) && emitted == old(emitted)
        else
          r == Ok(()) && coefficients == base(subset.value).value && emitted == old(emitted) + [ESTIMATE_RESULT]
    {
      var dup := FindDuplicate(controlsList);
      if dup.Some? {
        return Err(CytoflowOpError(DuplicateMessage(controlsList[dup.value].fromChannel)));
      }
      controls := map[];
      var i := 0;
      while i < |controlsList|
        invariant 0 <= i <= |controlsList|
        invariant controls == ControlsMap(controlsList[..i])
        invariant controlsList == old(controlsList) && mixtureModel == old(mixtureModel) && subsetList == old(subsetList)
        invariant coefficients == old(coefficients) && emitted == old(emitted)
      {
        var c := controlsList[i];
        assert controlsList[..i + 1][..i] == controlsList[..i];
        controls := controls[ControlKey(c) := c.file];
        i := i + 1;
      }
      assert controlsList[..i] == controlsList;
      var subset := ViewPlugin.SubsetExpr(p, subsetList);
      if subset.Err? {
        return Err(subset.error);
      }
      var outcome := base(subset.value);
      if outcome.Err? {
        return Err(outcome.error);
      }
      coefficients := outcome.value;
      emitted := emitted + [ESTIMATE_RESULT];
      return Ok(());
    }

    /** `clear_estimate`: the coefficients are dropped and ESTIMATE_RESULT is fired. */
    method ClearEstimate()
      modifies this
      ensures coefficients == map[] && emitted == old(emitted) + [ESTIMATE_RESULT]
      ensures controlsList == old(controlsList) && mixtureModel == old(mixtureModel)
      ensures subsetList == old(subsetList) && controls == old(controls)
    {
      coefficients := map[];
      emitted := emitted + [ESTIMATE_RESULT];
    }

    /** The controls of the operation copied for the notebook: the copied `controls`, with
        an entry for each control of `controls_list` written over them in order. */
    function NotebookControls(): map<(string, string), string>
      reads this
    {
      controls + ControlsMap(controlsList)
    }

    /** `get_notebook_code`, given `repr` of the copied operation as a function of its
        controls. */
    function NotebookCode(p: Printer, idx: int, reprWith: map<(string, string), string> -> string): (r: Result<string>)
      requires '\n' !in reprWith(NotebookControls())
      reads this
      ensures r.Err? <==> ViewPlugin.SubsetExpr(p, subsetList).Err?
      ensures r.Ok? ==>
        r.value == EstimateApplyCode(idx, reprWith(NotebookControls()), ViewPlugin.SubsetExpr(p, subsetList).value)
    {
      var subset :- ViewPlugin.SubsetExpr(p, subsetList);
      Ok(EstimateApplyCode(idx, reprWith(NotebookControls()), subset))
    }

    function Config(): ColorTranslationConfig
      reads this
    {
      ColorTranslationConfig(controlsList, mixtureModel, subsetList)
    }
  }

  /** What test_bead_calibration checks of an estimating operation: removing a control
      fires a tag on which the workflow clears the estimate, so no estimate is left until
      the next `estimate`, which then installs the new one. */
  method RemoveThenEstimate(op: ColorTranslationOp, p: Printer, base: string -> Result<Coefficients>)
      returns (r: Result<()>)
    requires op.controlsList != []
    modifies op
    ensures op.controlsList == old(op.controlsList)[..|old(op.controlsList)| - 1]
    ensures r.Ok? ==> (ViewPlugin.SubsetExpr(p, op.subsetList).Ok? &&
      base(ViewPlugin.SubsetExpr(p, op.subsetList).value).Ok? &&
      op.coefficients == base(ViewPlugin.SubsetExpr(p, op.subsetList).value).value)
    ensures r.Err? ==> op.coefficients == map[]
  {
    op.RemoveControl();
    var tag := op.emitted[|op.emitted| - 1];
    if ShouldClearEstimate(tag) {
      op.ClearEstimate();
    }
    r := op.Estimate(p, base);
  }

  /** After an estimate has rebuilt the controls, the notebook's operation shows exactly
      the controls that estimate used. */
  lemma NotebookShowsEstimatedControls(op: ColorTranslationOp)
    requires op.controls == ControlsMap(op.controlsList)
    ensures op.NotebookControls() == op.controls
  {
    var m := ControlsMap(op.controlsList);
    assert forall k :: k in m + m <==> k in m;
    assert forall k :: k in m ==> (m + m)[k] == m[k];
  }

  // ---------------------------------------------------------------- dump / load

  /** The traits the operation's dumper saves. */
  datatype ColorTranslationConfig = ColorTranslationConfig(
    controlsList: seq<Control>,
    mixtureModel: bool,
    subsetList: seq<Subset>)

  function DumpControl(c: Control): Doc
  {
    DTagged("color-translation-control", 1, DDict(map[
      "from_channel" := DVal(TextV(c.fromChannel)),
      "to_channel" := DVal(TextV(c.toChannel)),
      "file" := DVal(TextV(c.file))]))
  }

  /** `_Control(**data)`: `_Control` is not strict, so a key it does not know is kept as an
      extra attribute (which the model drops) instead of being refused. */
  function LoadControl(d: Doc): Result<Control>
  {
    match d
    case DTagged(tag, version, DDict(e)) =>
      if tag == "color-translation-control" && version == 1 then
        var from :- StrField(e, "from_channel");
        var to :- StrField(e, "to_channel");
        var file :- StrField(e, "file");
        Ok(Control(from, to, file))
      else Err(ForeignError("not a color translation control"))
    case _ => Err(ForeignError("not a color translation control"))
  }

  function DumpControls(cs: seq<Control>): (d: Doc)
    ensures d.DList? && |d.items| == |cs| && forall i :: 0 <= i < |cs| ==> d.items[i] == DumpControl(cs[i])
  {
    DList(seq(|cs|, i requires 0 <= i < |cs| => DumpControl(cs[i])))
  }

  function LoadControls(ds: seq<Doc>): (r: Result<seq<Control>>)
    ensures r.Ok? ==> |r.value| == |ds| && forall i :: 0 <= i < |ds| ==> LoadControl(ds[i]) == Ok(r.value[i])
  {
    if ds == [] then Ok([])
    else
      var c :- LoadControl(ds[0]);
      var rest :- LoadControls(ds[1..]);
      Ok([c] + rest)
  }

  function ControlsField(e: map<string, Doc>): Result<seq<Control>>
  {
    if "controls_list" !in e then Ok([])
    else match e["controls_list"]
      case DList(items) => LoadControls(items)
      case _ => Err(TraitError("controls_list"))
  }

  /** The `color-translation` dumper. */
  function DumpColorTranslation(c: ColorTranslationConfig): Doc
  {
    DTagged("color-translation", 1, DDict(map[
      "controls_list" := DumpControls(c.controlsList),
      "mixture_model" := DVal(BoolV(c.mixtureModel)),
      "subset_list" := DumpList(c.subsetList)]))
  }

  /** The `color-translation` loader: `ColorTranslationPluginOp(**data)`. */
  function LoadColorTranslation(version: nat, data: Doc): Result<ColorTranslationConfig>
  {
    var e :- Entries(data, {"controls_list", "mixture_model", "subset_list"});
    var controls :- ControlsField(e);
    var mixture :- BoolField(e, "mixture_model");
    var subsets :- ListOfSubsets(e, "subset_list");
    Ok(ColorTranslationConfig(controls, mixture, subsets))
  }

  /** Each control's three fields come back. */
  lemma ControlRoundTrip(c: Control)
    ensures LoadControl(DumpControl(c)) == Ok(c)
  {
    var e := DumpControl(c).body.entries;
    assert StrField(e, "from_channel") == Ok(c.fromChannel);
    assert StrField(e, "to_channel") == Ok(c.toChannel);
    assert StrField(e, "file") == Ok(c.file);
  }

  lemma {:induction false} ControlsRoundTrip(cs: seq<Control>)
    ensures LoadControls(DumpControls(cs).items) == Ok(cs)
  {
    if cs != [] {
      ControlRoundTrip(cs[0]);
      assert DumpControls(cs).items[1..] == DumpControls(cs[1..]).items;
      ControlsRoundTrip(cs[1..]);
      var items := DumpControls(cs).items;
      assert LoadControls(items) == Ok([cs[0]] + cs[1..]);
      assert [cs[0]] + cs[1..] == cs;
    }
  }

  /** The controls, the mixture-model switch and the subsets all come back. */
  lemma ColorTranslationRoundTrip(c: ColorTranslationConfig)
    requires forall i :: 0 <= i < |c.subsetList| ==> Wellformed(c.subsetList[i])
    ensures LoadColorTranslation(1, DumpColorTranslation(c).body) == Ok(c)
  {
    var d := DumpColorTranslation(c).body;
    var e := d.entries;
    assert Entries(d, {"controls_list", "mixture_model", "subset_list"}) == Ok(e);
    ControlsRoundTrip(c.controlsList);
    assert ControlsField(e) == Ok(c.controlsList);
    assert BoolField(e, "mixture_model") == Ok(c.mixtureModel);
    DumpLoadListRoundTrip(c.subsetList);
    assert ListOfSubsets(e, "subset_list") == Ok(c.subsetList);
  }
}
