/** The three kinds of subset (bool, category, range): the pandas query clause each one
    renders from its selection, the handler that fills a range's bounds, field-wise equality
    and hashing, and the camel dumper/loader pairs. */
module Subsets {
  import opened Wrappers
  import opened Text
  import opened Values
  import opened Serialization

  /** A subset of the experiment's rows, chosen on condition `name`. For a bool condition
      `values` is not used. */
  datatype Subset =
    | BoolSubset(name: string, values: seq<Value>, selectedT: bool, selectedF: bool)
    | CategorySubset(name: string, values: seq<Value>, selected: seq<Value>)
    | RangeSubset(name: string, values: seq<Value>, high: Bound, low: Bound)

  /** `max` and `min` of the values succeed: the list is non-empty and all numbers. */
  predicate Fillable(vs: seq<Value>)
  {
    |vs| > 0 && AllNumeric(vs)
  }

  /** A range on which the values handler has run: each bound is defined, or `max`/`min`
      of the values raised and the bound was left `Undefined`. Every subset the editor
      builds, and every range loaded with its values, is one. */
  predicate Wellformed(s: Subset)
  {
    s.RangeSubset? ==> (s.high.Defined? || !Fillable(s.values)) && (s.low.Defined? || !Fillable(s.values))
  }

  // ---------------------------------------------------------------- query clauses

  /** The clause of a bool subset: exactly one of the two boxes ticked filters on it. */
  function BoolStr(p: Printer, name: string, selectedT: bool, selectedF: bool): (r: string)
    ensures r == "" <==> selectedT == selectedF
    ensures selectedT && !selectedF ==> r == "(" + p.sanitize(name) + " == True)"
    ensures !selectedT && selectedF ==> r == "(" + p.sanitize(name) + " == False)"
  {
    if selectedT && !selectedF then "(" + p.sanitize(name) + " == True)"
    else if !selectedT && selectedF then "(" + p.sanitize(name) + " == False)"
    else ""
  }

  /** One category test: `name == "cat"`. */
  function Clause(p: Printer, name: string, cat: Value): (r: string)
    ensures |r| > 0
  {
    p.sanitize(name) + " == \"" + Show(p, cat) + "\""
  }

  function Clauses(p: Printer, name: string, cats: seq<Value>): (r: seq<string>)
    ensures |r| == |cats| && forall i :: 0 <= i < |cats| ==> r[i] == Clause(p, name, cats[i])
  {
    seq(|cats|, i requires 0 <= i < |cats| => Clause(p, name, cats[i]))
  }

  /** The clause of a category subset: the tests of the selected categories, in order,
      joined by `or` inside one pair of parentheses; nothing when nothing is selected. */
  function CategoryStr(p: Printer, name: string, selected: seq<Value>): (r: string)
    ensures r == "" <==> |selected| == 0
    ensures |selected| > 0 ==> r[0] == '(' && r[|r| - 1] == ')'
  {
    if |selected| == 0 then "" else "(" + Join(" or ", Clauses(p, name, selected)) + ")"
  }

  /** The clauses of one more category extend the list by that category's clause. */
  lemma ClausesSnoc(p: Printer, name: string, cats: seq<Value>, i: nat)
    requires i < |cats|
    ensures Clauses(p, name, cats[..i + 1]) == Clauses(p, name, cats[..i]) + [Clause(p, name, cats[i])]
  {
    assert cats[..i + 1] == cats[..i] + [cats[i]];
  }

  /** The phrase after the first `i` selected categories, before its closing parenthesis. */
  function PhraseSoFar(p: Printer, name: string, selected: seq<Value>, i: nat): string
    requires i <= |selected|
  {
    "(" + Join(" or ", Clauses(p, name, selected[..i]))
  }

  /** One step of the loop: the phrase is longer than its parenthesis exactly when a clause
      was written, and appending the separator (then) and the next clause extends it. */
  lemma PhraseStep(p: Printer, name: string, selected: seq<Value>, i: nat)
    requires i < |selected|
    ensures |PhraseSoFar(p, name, selected, i)| > 1 <==> i > 0
    ensures i > 0 ==>
      (PhraseSoFar(p, name, selected, i) + " or ") + Clause(p, name, selected[i]) == PhraseSoFar(p, name, selected, i + 1)
    ensures i == 0 ==>
      PhraseSoFar(p, name, selected, i) + Clause(p, name, selected[i]) == PhraseSoFar(p, name, selected, i + 1)
  {
    var before := Clauses(p, name, selected[..i]);
    var clause := Clause(p, name, selected[i]);
    JoinEmptyIff(" or ", before);
    JoinAppend(" or ", before, clause);
    ClausesSnoc(p, name, selected, i);
    assert PhraseSoFar(p, name, selected, i + 1) == "(" + Join(" or ", before + [clause]);
    if i > 0 {
      assert Join(" or ", before + [clause]) == Join(" or ", before) + " or " + clause;
    } else {
      assert Join(" or ", before + [clause]) == clause;
    }
  }

  /** `CategorySubset._get_str`, which builds the phrase in a loop and writes the separator
      before every clause but the first. */
  method CategoryPhrase(p: Printer, name: string, selected: seq<Value>) returns (phrase: string)
    ensures phrase == CategoryStr(p, name, selected)
  {
    if |selected| == 0 {
      return "";
    }
    phrase := "(";
    var i := 0;
    assert selected[..0] == [];
    while i < |selected|
      invariant 0 <= i <= |selected|
      invariant phrase == PhraseSoFar(p, name, selected, i)
    {
      PhraseStep(p, name, selected, i);
      var clause := Clause(p, name, selected[i]);
      if |phrase| > 1 {
        phrase := phrase + " or ";
      }
      phrase := phrase + clause;
      i := i + 1;
    }
    assert selected[..i] == selected;
    phrase := phrase + ")";
  }

  /** Python's `==` between a float trait and a value: `Undefined` equals no value. */
  predicate BoundIs(b: Bound, v: Value)
  {
    b.Defined? && PyEq(NumV(b.x), v)
  }

  /** Python's `==` between two float traits. */
  predicate BoundEq(a: Bound, b: Bound)
  {
    a == b
  }

  /** `str()` of a float trait. */
  function ShowBound(p: Printer, b: Bound): string
  {
    match b
    case Undefined => "<undefined>"
    case Defined(x) => p.showNum(x)
  }

  /** The clause of a range subset: nothing when the range still spans from the first to the
      last of the values; an equality when the two bounds meet; otherwise both bounds. The
      first and last values are read by index, so an empty value list raises. */
  function RangeStr(p: Printer, name: string, values: seq<Value>, high: Bound, low: Bound): (r: Result<string>)
    ensures r.Err? <==> |values| == 0
    ensures r.Ok? ==> (r.value == "" <==> BoundIs(low, values[0]) && BoundIs(high, values[|values| - 1]))
    ensures r.Ok? && r.value != "" && BoundEq(low, high) ==>
      r.value == "(" + p.sanitize(name) + " == " + ShowBound(p, low) + ")"
    ensures r.Ok? && r.value != "" && !BoundEq(low, high) ==>
      r.value == "(" + p.sanitize(name) + " >= " + ShowBound(p, low) + " and " + p.sanitize(name) + " <= " + ShowBound(p, high) + ")"
  {
    if |values| == 0 then Err(IndexError)
    else if BoundIs(low, values[0]) && BoundIs(high, values[|values| - 1]) then Ok("")
    else if BoundEq(low, high) then Ok("(" + p.sanitize(name) + " == " + ShowBound(p, low) + ")")
    else Ok("(" + p.sanitize(name) + " >= " + ShowBound(p, low) + " and " + p.sanitize(name) + " <= " + ShowBound(p, high) + ")")
  }

  /** The `str` property of any subset. */
  function SubsetStr(p: Printer, s: Subset): (r: Result<string>)
    ensures r.Err? <==> s.RangeSubset? && |s.values| == 0
  {
    match s
    case BoolSubset(name, _, t, f) => Ok(BoolStr(p, name, t, f))
    case CategorySubset(name, _, selected) => Ok(CategoryStr(p, name, selected))
    case RangeSubset(name, values, high, low) => RangeStr(p, name, values, high, low)
  }

  /** Replacing the values of a bool or category subset leaves its clause alone: only the
      selection is rendered. */
  lemma StrIgnoresValues(p: Printer, name: string, vs: seq<Value>, ws: seq<Value>, t: bool, f: bool, sel: seq<Value>)
    ensures SubsetStr(p, BoolSubset(name, vs, t, f)) == SubsetStr(p, BoolSubset(name, ws, t, f))
    ensures SubsetStr(p, CategorySubset(name, vs, sel)) == SubsetStr(p, CategorySubset(name, ws, sel))
  {
  }

  // ---------------------------------------------------------------- the values handler

  /** `x` is the largest of the values, all of which are numbers. */
  predicate IsMax(x: real, vs: seq<Value>)
  {
    AllNumeric(vs) && (exists i :: 0 <= i < |vs| && AsReal(vs[i]) == Some(x)) &&
    forall i :: 0 <= i < |vs| ==> AsReal(vs[i]).value <= x
  }

  predicate IsMin(x: real, vs: seq<Value>)
  {
    AllNumeric(vs) && (exists i :: 0 <= i < |vs| && AsReal(vs[i]) == Some(x)) &&
    forall i :: 0 <= i < |vs| ==> x <= AsReal(vs[i]).value
  }

  lemma PyMaxIsMax(vs: seq<Value>)
    requires PyMax(vs).Ok?
    ensures IsMax(PyMax(vs).value, vs)
  {
    var xs := Reals(vs);
    MaxOfIsMax(xs);
    var k :| 0 <= k < |xs| && xs[k] == MaxOf(xs);
    assert AsReal(vs[k]) == Some(MaxOf(xs));
  }

  lemma PyMinIsMin(vs: seq<Value>)
    requires PyMin(vs).Ok?
    ensures IsMin(PyMin(vs).value, vs)
  {
    var xs := Reals(vs);
    MinOfIsMin(xs);
    var k :| 0 <= k < |xs| && xs[k] == MinOf(xs);
    assert AsReal(vs[k]) == Some(MinOf(xs));
  }

  /** The handler's step for `high`: an `Undefined` bound becomes `max(values)`. */
  function FillHigh(b: Bound, vs: seq<Value>): (r: Result<Bound>)
    ensures b.Defined? ==> r == Ok(b)
    ensures b.Undefined? ==> (r.Ok? <==> |vs| > 0 && AllNumeric(vs))
    ensures b.Undefined? && r.Ok? ==> r.value.Defined? && IsMax(r.value.x, vs)
  {
    if b.Defined? then Ok(b)
    else match PyMax(vs)
      case Ok(m) => PyMaxIsMax(vs); Ok(Defined(m))
      case Err(e) => Err(e)
  }

  /** The handler's step for `low`: an `Undefined` bound becomes `min(values)`. */
  function FillLow(b: Bound, vs: seq<Value>): (r: Result<Bound>)
    ensures b.Defined? ==> r == Ok(b)
    ensures b.Undefined? ==> (r.Ok? <==> |vs| > 0 && AllNumeric(vs))
    ensures b.Undefined? && r.Ok? ==> r.value.Defined? && IsMin(r.value.x, vs)
  {
    if b.Defined? then Ok(b)
    else match PyMin(vs)
      case Ok(m) => PyMinIsMin(vs); Ok(Defined(m))
      case Err(e) => Err(e)
  }

  /** `RangeSubset._values_changed`: a bound still `Undefined` becomes the largest
      (smallest) value; a defined bound is never overwritten. `max` and `min` raise on an
      empty or non-numeric list; Traits logs an exception raised in a change handler
      instead of passing it on, so the handler stops there and the range keeps the bounds
      it had (a raise from `max` leaves `low` untouched as well). */
  function ValuesChanged(s: Subset): (r: Subset)
    requires s.RangeSubset?
    ensures r.RangeSubset? && r.name == s.name && r.values == s.values
    ensures s.high.Defined? ==> r.high == s.high
    ensures s.low.Defined? ==> r.low == s.low
    ensures s.high.Undefined? ==> (r.high.Defined? <==> Fillable(s.values))
    ensures s.low.Undefined? ==> (r.low.Defined? <==> Fillable(s.values))
    ensures s.high.Undefined? && r.high.Defined? ==> IsMax(r.high.x, s.values)
    ensures s.low.Undefined? && r.low.Defined? ==> IsMin(r.low.x, s.values)
  {
    match FillHigh(s.high, s.values)
    case Err(_) => s
    case Ok(high) =>
      match FillLow(s.low, s.values)
      case Err(_) => s.(high := high)
      case Ok(low) => s.(high := high, low := low)
  }

  /** The handler leaves a range on which it has run: once it has run, running it again
      changes nothing, and the ranges it leaves alone are exactly the well-formed ones. */
  lemma ValuesChangedSettles(s: Subset)
    requires s.RangeSubset?
    ensures Wellformed(ValuesChanged(s))
    ensures ValuesChanged(ValuesChanged(s)) == ValuesChanged(s)
    ensures ValuesChanged(s) == s <==> Wellformed(s)
  {
    var r := ValuesChanged(s);
    if Fillable(s.values) {
      assert r.high.Defined? && r.low.Defined?;
    } else {
      assert FillHigh(r.high, r.values).Err? || FillLow(r.low, r.values).Err? || (r.high.Defined? && r.low.Defined?);
    }
  }

  /** On a range on which the handler has run, running it again changes nothing. */
  lemma ValuesChangedKeepsBounds(s: Subset)
    requires s.RangeSubset? && Wellformed(s)
    ensures ValuesChanged(s) == s
  {
    ValuesChangedSettles(s);
  }

  /** Over ascending numbers, the largest is the last. */
  lemma MaxOfSortedIsLast(x: real, values: seq<Value>)
    requires |values| > 0 && forall i :: 0 <= i < |values| ==> values[i].NumV?
    requires Order.Sorted(values, ValueLe)
    requires IsMax(x, values)
    ensures BoundIs(Defined(x), values[|values| - 1])
  {
    var last := |values| - 1;
    var i :| 0 <= i < |values| && AsReal(values[i]) == Some(x);
    if i < last {
      assert ValueLe(values[i], values[last]);
    }
    assert AsReal(values[last]).value <= x;
  }

  /** Over ascending numbers, the smallest is the first. */
  lemma MinOfSortedIsFirst(x: real, values: seq<Value>)
    requires |values| > 0 && forall i :: 0 <= i < |values| ==> values[i].NumV?
    requires Order.Sorted(values, ValueLe)
    requires IsMin(x, values)
    ensures BoundIs(Defined(x), values[0])
  {
    var j :| 0 <= j < |values| && AsReal(values[j]) == Some(x);
    if 0 < j {
      assert ValueLe(values[0], values[j]);
    }
    assert x <= AsReal(values[0]).value;
  }

  /** A new range built from ascending numbers spans all of them, so it filters nothing. */
  lemma NewRangeUnfiltered(p: Printer, name: string, values: seq<Value>)
    requires |values| > 0 && forall i :: 0 <= i < |values| ==> values[i].NumV?
    requires Order.Sorted(values, ValueLe)
    ensures SubsetStr(p, ValuesChanged(RangeSubset(name, values, Undefined, Undefined))) == Ok("")
  {
    assert AllNumeric(values);
    var s := ValuesChanged(RangeSubset(name, values, Undefined, Undefined));
    MaxOfSortedIsLast(s.high.x, values);
    MinOfSortedIsFirst(s.low.x, values);
  }

  // ---------------------------------------------------------------- equality and hash

  /** `a == b`, which runs `a.__eq__`: the name, the values (as Python lists compare) and the
      selection. Subsets of different kinds with the same name and values make `__eq__`
      read an attribute the other one lacks. */
  function Eq(a: Subset, b: Subset): (r: Result<bool>)
    ensures r.Err? <==> (a.name == b.name && SeqPyEq(a.values, b.values) &&
      !((a.BoolSubset? && b.BoolSubset?) || (a.CategorySubset? && b.CategorySubset?) || (a.RangeSubset? && b.RangeSubset?)))
  {
    if a.name != b.name || !SeqPyEq(a.values, b.values) then Ok(false)
    else match a
      case BoolSubset(_, _, t, f) =>
        if b.BoolSubset? then Ok(t == b.selectedT && f == b.selectedF) else Err(AttributeError("selected_t"))
      case CategorySubset(_, _, sel) =>
        if b.CategorySubset? then Ok(SeqPyEq(sel, b.selected)) else Err(AttributeError("selected"))
      case RangeSubset(_, _, high, low) =>
        if b.RangeSubset? then Ok(BoundEq(low, b.low) && BoundEq(high, b.high)) else Err(AttributeError("low"))
  }

  /** What `__hash__` hashes: the same fields, with each value in the form Python hashes. */
  datatype HashKey =
    | BoolKey(name: string, values: seq<Value>, selectedT: bool, selectedF: bool)
    | CategoryKey(name: string, values: seq<Value>, selected: seq<Value>)
    | RangeKey(name: string, values: seq<Value>, low: Bound, high: Bound)

  function Hash(s: Subset): HashKey
  {
    match s
    case BoolSubset(name, values, t, f) => BoolKey(name, NormalizeAll(values), t, f)
    case CategorySubset(name, values, sel) => CategoryKey(name, NormalizeAll(values), NormalizeAll(sel))
    case RangeSubset(name, values, high, low) => RangeKey(name, NormalizeAll(values), low, high)
  }

  /** Equal subsets hash equally, and two subsets of one kind with the same hash are equal. */
  lemma EqIffHash(a: Subset, b: Subset)
    requires Eq(a, b).Ok?
    ensures Eq(a, b) == Ok(true) <==> Hash(a) == Hash(b)
  {
    SeqPyEqIffNormalize(a.values, b.values);
    if a.CategorySubset? && b.CategorySubset? {
      SeqPyEqIffNormalize(a.selected, b.selected);
    }
  }

  /** Equality is reflexive and symmetric. */
  lemma EqReflexiveSymmetric(a: Subset, b: Subset)
    ensures Eq(a, a) == Ok(true)
    ensures Eq(a, b).Ok? && Eq(b, a).Ok? ==> Eq(a, b) == Eq(b, a)
  {
    SeqPyEqIffNormalize(a.values, a.values);
    SeqPyEqIffNormalize(a.values, b.values);
    SeqPyEqIffNormalize(b.values, a.values);
    if a.CategorySubset? {
      SeqPyEqIffNormalize(a.selected, a.selected);
      if b.CategorySubset? {
        SeqPyEqIffNormalize(a.selected, b.selected);
        SeqPyEqIffNormalize(b.selected, a.selected);
      }
    }
  }

  // ---------------------------------------------------------------- dump / load

  /** The camel dumpers: a tagged mapping of the fields each kind saves. */
  function Dump(s: Subset): Doc
  {
    match s
    case BoolSubset(name, values, t, f) =>
      DTagged("bool-subset", 1, DDict(map["name" := DVal(TextV(name)), "values" := DList(Leaves(values)),
                                          "selected_t" := DVal(BoolV(t)), "selected_f" := DVal(BoolV(f))]))
    case CategorySubset(name, values, sel) =>
      DTagged("category-subset", 1, DDict(map["name" := DVal(TextV(name)), "values" := DList(Leaves(values)),
                                              "selected" := DList(Leaves(sel))]))
    case RangeSubset(name, values, high, low) =>
      DTagged("range-subset", 1, DDict(map["name" := DVal(TextV(name)), "values" := DList(Leaves(values)),
                                           "high" := DumpBound(high), "low" := DumpBound(low)]))
  }

  /** A Str trait given in the mapping, or its default. */
  function StrField(e: map<string, Doc>, key: string): Result<string>
  {
    if key !in e then Ok("")
    else match e[key]
      case DVal(TextV(s)) => Ok(s)
      case _ => Err(TraitError(key))
  }

  /** A Bool trait given in the mapping, or its default `False`. */
  function BoolField(e: map<string, Doc>, key: string): Result<bool>
  {
    if key !in e then Ok(false)
    else match e[key]
      case DVal(BoolV(b)) => Ok(b)
      case _ => Err(TraitError(key))
  }

  /** A List trait given in the mapping, or its default `[]`. */
  function ListField(e: map<string, Doc>, key: string): Result<seq<Value>>
  {
    if key !in e then Ok([])
    else match e[key]
      case DList(items) =>
        (match Unleaves(items)
         case Some(vs) => Ok(vs)
         case None => Err(ForeignError("a list item outside the model")))
      case _ => Err(TraitError(key))
  }

  /** A CFloat trait given in the mapping, or its default `Undefined`. */
  function BoundField(e: map<string, Doc>, key: string): Result<Bound>
  {
    if key !in e then Ok(Undefined) else LoadBound(e[key], key)
  }

  /** `Class(**data)` of a HasStrictTraits class: the argument must be a mapping whose keys
      are all traits of the class. */
  function Entries(data: Doc, traits: set<string>): (r: Result<map<string, Doc>>)
    ensures r.Ok? <==> data.DDict? && data.entries.Keys <= traits
    ensures r.Ok? ==> r.value == data.entries
  {
    match data
    case DDict(e) => if e.Keys <= traits then Ok(e) else Err(TraitError("an unknown keyword argument"))
    case _ => Err(ForeignError("argument after ** must be a mapping"))
  }

  function LoadBoolSubset(version: nat, data: Doc): Result<Subset>
  {
    var e :- Entries(data, {"name", "values", "selected_t", "selected_f"});
    var name :- StrField(e, "name");
    var values :- ListField(e, "values");
    var t :- BoolField(e, "selected_t");
    var f :- BoolField(e, "selected_f");
    Ok(BoolSubset(name, values, t, f))
  }

  function LoadCategorySubset(version: nat, data: Doc): Result<Subset>
  {
    var e :- Entries(data, {"name", "values", "selected"});
    var name :- StrField(e, "name");
    var values :- ListField(e, "values");
    var sel :- ListField(e, "selected");
    Ok(CategorySubset(name, values, sel))
  }

  /** The dumped mapping's keys come back in sorted order, so `high` and `low` are assigned
      before `values`, whose handler then fills only a bound that is still `Undefined`. */
  function LoadRangeSubset(version: nat, data: Doc): (r: Result<Subset>)
    ensures r.Ok? <==>
      && data.DDict? && data.entries.Keys <= {"name", "values", "high", "low"}
      && StrField(data.entries, "name").Ok? && ListField(data.entries, "values").Ok?
      && BoundField(data.entries, "high").Ok? && BoundField(data.entries, "low").Ok?
    ensures r.Ok? ==>
      var e := data.entries;
      var s := RangeSubset(StrField(e, "name").value, ListField(e, "values").value,
                           BoundField(e, "high").value, BoundField(e, "low").value);
      r.value == if "values" in e then ValuesChanged(s) else s
    ensures r.Ok? ==> r.value.RangeSubset?
    ensures r.Ok? && data.DDict? && "values" in data.entries ==> Wellformed(r.value)
  {
    var e :- Entries(data, {"name", "values", "high", "low"});
    var name :- StrField(e, "name");
    var values :- ListField(e, "values");
    var high :- BoundField(e, "high");
    var low :- BoundField(e, "low");
    var s := RangeSubset(name, values, high, low);
    if "values" in e then Ok(ValuesChanged(s)) else Ok(s)
  }

  /** The camel loaders, chosen by tag and version. */
  function Load(d: Doc): Result<Subset>
  {
    match d
    case DTagged(tag, version, data) =>
      if tag == "bool-subset" && version == 1 then LoadBoolSubset(version, data)
      else if tag == "category-subset" && version == 1 then LoadCategorySubset(version, data)
      else if tag == "range-subset" && version == 1 then LoadRangeSubset(version, data)
      else Err(ForeignError("no loader for this tag"))
    case _ => Err(ForeignError("not a subset"))
  }

  /** Every field a subset dumps is restored by its loader. */
  lemma DumpLoadRoundTrip(s: Subset)
    requires Wellformed(s)
    ensures Load(Dump(s)) == Ok(s)
  {
    match s
    case BoolSubset(_, _, _, _) => BoolRoundTrip(s);
    case CategorySubset(_, _, _) => CategoryRoundTrip(s);
    case RangeSubset(_, _, _, _) => RangeRoundTrip(s);
  }

  lemma BoolRoundTrip(s: Subset)
    requires s.BoolSubset?
    ensures LoadBoolSubset(1, Dump(s).body) == Ok(s)
  {
    var e := Dump(s).body.entries;
    LeavesRoundTrip(s.values);
    assert StrField(e, "name") == Ok(s.name);
    assert ListField(e, "values") == Ok(s.values);
    assert BoolField(e, "selected_t") == Ok(s.selectedT);
    assert BoolField(e, "selected_f") == Ok(s.selectedF);
  }

  lemma CategoryRoundTrip(s: Subset)
    requires s.CategorySubset?
    ensures LoadCategorySubset(1, Dump(s).body) == Ok(s)
  {
    var e := Dump(s).body.entries;
    LeavesRoundTrip(s.values);
    LeavesRoundTrip(s.selected);
    assert StrField(e, "name") == Ok(s.name);
    assert ListField(e, "values") == Ok(s.values);
    assert ListField(e, "selected") == Ok(s.selected);
  }

  lemma RangeRoundTrip(s: Subset)
    requires s.RangeSubset? && Wellformed(s)
    ensures LoadRangeSubset(1, Dump(s).body) == Ok(s)
  {
    var e := Dump(s).body.entries;
    LeavesRoundTrip(s.values);
    BoundRoundTrip(s.high, "high");
    BoundRoundTrip(s.low, "low");
    assert StrField(e, "name") == Ok(s.name);
    assert ListField(e, "values") == Ok(s.values);
    assert BoundField(e, "high") == Ok(s.high);
    assert BoundField(e, "low") == Ok(s.low);
    ValuesChangedKeepsBounds(s);
  }

  /** A mapping naming a trait the class does not have is refused. */
  lemma LoadRejectsUnknownKey(tag: string, e: map<string, Doc>, key: string)
    requires tag in {"bool-subset", "category-subset", "range-subset"}
    requires key in e && key !in {"name", "values", "selected_t", "selected_f", "selected", "high", "low"}
    ensures Load(DTagged(tag, 1, DDict(e))).Err?
  {
  }

  // ---------------------------------------------------------------- subset lists

  /** A `subset_list` trait as dumped: a YAML sequence of tagged subsets. */
  function DumpList(ss: seq<Subset>): (d: Doc)
    ensures d.DList? && |d.items| == |ss| && forall i :: 0 <= i < |ss| ==> d.items[i] == Dump(ss[i])
  {
    DList(seq(|ss|, i requires 0 <= i < |ss| => Dump(ss[i])))
  }

  /** Loading each item of a sequence in order; the first failure is raised. */
  function LoadItems(ds: seq<Doc>): (r: Result<seq<Subset>>)
    ensures r.Ok? ==> |r.value| == |ds| && forall i :: 0 <= i < |ds| ==> Load(ds[i]) == Ok(r.value[i])
  {
    if ds == [] then Ok([])
    else
      var s :- Load(ds[0]);
      var rest :- LoadItems(ds[1..]);
      Ok([s] + rest)
  }

  /** A `subset_list` keyword given in a mapping, or the default empty list. */
  function ListOfSubsets(e: map<string, Doc>, key: string): Result<seq<Subset>>
  {
    if key !in e then Ok([])
    else match e[key]
      case DList(items) => LoadItems(items)
      case _ => Err(TraitError(key))
  }

  lemma {:induction false} DumpLoadListRoundTrip(ss: seq<Subset>)
    requires forall i :: 0 <= i < |ss| ==> Wellformed(ss[i])
    ensures LoadItems(DumpList(ss).items) == Ok(ss)
  {
    if ss != [] {
      DumpLoadRoundTrip(ss[0]);
      assert DumpList(ss).items[1..] == DumpList(ss[1..]).items;
      DumpLoadListRoundTrip(ss[1..]);
      var items := DumpList(ss).items;
      assert LoadItems(items) == Ok([ss[0]] + ss[1..]);
      assert [ss[0]] + ss[1..] == ss;
    }
  }
}
