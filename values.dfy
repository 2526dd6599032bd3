/** The values held by experimental conditions and statistic indices (the elements of a
    pandas Series), with Python's equality, pandas' dtype inference and a sort order. */
module Values {
  import opened Wrappers
  import opened Order

  /** One element of a condition column: a bool, a number (int or float), a str, or a
      value of another numpy type (datetime, complex, ...) identified by `id`. */
  datatype Value = BoolV(b: bool) | NumV(x: real) | TextV(s: string) | OtherV(id: int)

  /** The number Python sees in a bool or a number. */
  function AsReal(v: Value): Option<real>
  {
    match v
    case BoolV(b) => Some(if b then 1.0 else 0.0)
    case NumV(x) => Some(x)
    case _ => None
  }

  /** Python's `==` on two values: bools compare as 0 and 1 against numbers. */
  predicate PyEq(a: Value, b: Value)
  {
    if AsReal(a).Some? && AsReal(b).Some? then AsReal(a).value == AsReal(b).value else a == b
  }

  /** The representative of a value's equality class (also what Python hashes). */
  function Normalize(v: Value): (n: Value)
    ensures AsReal(n) == AsReal(v)
    ensures !n.BoolV?
  {
    if AsReal(v).Some? then NumV(AsReal(v).value) else v
  }

  lemma PyEqIffNormalize(a: Value, b: Value)
    ensures PyEq(a, b) <==> Normalize(a) == Normalize(b)
  {
  }

  /** Python's `==` on two lists of values. */
  predicate SeqPyEq(a: seq<Value>, b: seq<Value>)
  {
    |a| == |b| && forall i :: 0 <= i < |a| ==> PyEq(a[i], b[i])
  }

  function NormalizeAll(s: seq<Value>): (r: seq<Value>)
    ensures |r| == |s| && forall i :: 0 <= i < |s| ==> r[i] == Normalize(s[i])
  {
    seq(|s|, i requires 0 <= i < |s| => Normalize(s[i]))
  }

  /** Equal lists (in Python's sense) have equal normal forms, and so equal hashes. */
  lemma SeqPyEqIffNormalize(a: seq<Value>, b: seq<Value>)
    ensures SeqPyEq(a, b) <==> NormalizeAll(a) == NormalizeAll(b)
  {
    if NormalizeAll(a) == NormalizeAll(b) {
      forall i | 0 <= i < |a| ensures PyEq(a[i], b[i]) {
        assert NormalizeAll(a)[i] == NormalizeAll(b)[i];
        PyEqIffNormalize(a[i], b[i]);
      }
    }
    if SeqPyEq(a, b) {
      forall i | 0 <= i < |a| ensures NormalizeAll(a)[i] == NormalizeAll(b)[i] {
        PyEqIffNormalize(a[i], b[i]);
      }
    }
  }

  /** `set(values)`, with values that Python finds equal merged. */
  function ValueSet(s: seq<Value>): set<Value>
  {
    set v | v in s :: Normalize(v)
  }

  // ---------------------------------------------------------------- dtype inference

  /** `pd.Series(values).dtype.kind`: 'b' for all-bool, 'f' for all-number (int and float
      kinds are routed alike, and an empty Series is float64), 'M' for all values of another
      numpy type, 'O' (object) for text and for mixtures. */
  function DtypeKind(vs: seq<Value>): (k: char)
    ensures k in "bfMO"
  {
    if |vs| == 0 then 'f'
    else if forall i :: 0 <= i < |vs| ==> vs[i].BoolV? then 'b'
    else if forall i :: 0 <= i < |vs| ==> vs[i].NumV? then 'f'
    else if forall i :: 0 <= i < |vs| ==> vs[i].OtherV? then 'M'
    else 'O'
  }

  lemma AllSame(a: seq<Value>, b: seq<Value>, P: Value -> bool)
    requires forall v :: v in a <==> v in b
    ensures (forall i :: 0 <= i < |a| ==> P(a[i])) <==> (forall i :: 0 <= i < |b| ==> P(b[i]))
  {
    if forall i :: 0 <= i < |a| ==> P(a[i]) {
      forall i | 0 <= i < |b| ensures P(b[i]) {
        assert b[i] in a;
      }
    }
    if forall i :: 0 <= i < |b| ==> P(b[i]) {
      forall i | 0 <= i < |a| ensures P(a[i]) {
        assert a[i] in b;
      }
    }
  }

  /** The dtype depends on which values occur, not on their order. */
  lemma DtypeKindPermutation(a: seq<Value>, b: seq<Value>)
    requires multiset(a) == multiset(b)
    ensures DtypeKind(a) == DtypeKind(b)
  {
    forall v ensures v in a <==> v in b {
      assert v in a <==> v in multiset(a);
      assert v in b <==> v in multiset(b);
    }
    assert |a| == |multiset(a)| == |multiset(b)| == |b|;
    AllSame(a, b, (v: Value) => v.BoolV?);
    AllSame(a, b, (v: Value) => v.NumV?);
    AllSame(a, b, (v: Value) => v.OtherV?);
  }

  // ---------------------------------------------------------------- max / min

  function MaxOf(xs: seq<real>): real
    requires |xs| > 0
  {
    if |xs| == 1 then xs[0]
    else var m := MaxOf(xs[1..]); if xs[0] >= m then xs[0] else m
  }

  function MinOf(xs: seq<real>): real
    requires |xs| > 0
  {
    if |xs| == 1 then xs[0]
    else var m := MinOf(xs[1..]); if xs[0] <= m then xs[0] else m
  }

  lemma {:induction false} MaxOfIsMax(xs: seq<real>)
    requires |xs| > 0
    ensures MaxOf(xs) in xs && forall i :: 0 <= i < |xs| ==> xs[i] <= MaxOf(xs)
  {
    if |xs| > 1 {
      MaxOfIsMax(xs[1..]);
    }
  }

  lemma {:induction false} MinOfIsMin(xs: seq<real>)
    requires |xs| > 0
    ensures MinOf(xs) in xs && forall i :: 0 <= i < |xs| ==> MinOf(xs) <= xs[i]
  {
    if |xs| > 1 {
      MinOfIsMin(xs[1..]);
    }
  }

  predicate AllNumeric(vs: seq<Value>)
  {
    forall i :: 0 <= i < |vs| ==> AsReal(vs[i]).Some?
  }

  function Reals(vs: seq<Value>): (xs: seq<real>)
    requires AllNumeric(vs)
    ensures |xs| == |vs| && forall i :: 0 <= i < |vs| ==> Some(xs[i]) == AsReal(vs[i])
  {
    seq(|vs|, i requires 0 <= i < |vs| => AsReal(vs[i]).value)
  }

  /** `float(max(values))`: a ValueError for an empty list; a list that is not all numbers
      is refused (a TypeError from the comparison or a TraitError from the float trait). */
  function PyMax(vs: seq<Value>): (r: Result<real>)
    ensures r.Ok? <==> |vs| > 0 && AllNumeric(vs)
  {
    if |vs| == 0 then Err(ValueError("max() arg is an empty sequence"))
    else if !AllNumeric(vs) then Err(ForeignError("max() of non-numeric values"))
    else Ok(MaxOf(Reals(vs)))
  }

  /** `float(min(values))`, as PyMax. */
  function PyMin(vs: seq<Value>): (r: Result<real>)
    ensures r.Ok? <==> |vs| > 0 && AllNumeric(vs)
  {
    if |vs| == 0 then Err(ValueError("min() arg is an empty sequence"))
    else if !AllNumeric(vs) then Err(ForeignError("min() of non-numeric values"))
    else Ok(MinOf(Reals(vs)))
  }

  // ---------------------------------------------------------------- sort order

  function Rank(v: Value): int
  {
    match v
    case BoolV(_) => 0
    case NumV(_) => 0
    case TextV(_) => 1
    case OtherV(_) => 2
  }

  function NumOf(v: Value): real
  {
    match v
    case BoolV(b) => if b then 1.0 else 0.0
    case NumV(x) => x
    case _ => 0.0
  }

  /** The order `sort_values` uses: numbers (and bools) numerically, str lexicographically,
      other values by identity; across those classes a fixed rank stands in for the
      comparison Python refuses. */
  predicate ValueLe(a: Value, b: Value)
  {
    if Rank(a) != Rank(b) then Rank(a) < Rank(b)
    else if a.TextV? && b.TextV? then StrLe(a.s, b.s)
    else if a.OtherV? && b.OtherV? then a.id <= b.id
    else NumOf(a) <= NumOf(b)
  }

  lemma ValueLeTotalPreorder()
    ensures TotalPreorder(ValueLe)
  {
    forall a, b ensures ValueLe(a, b) || ValueLe(b, a) {
      if a.TextV? && b.TextV? {
        StrLeTotal(a.s, b.s);
      }
    }
    forall a, b, c | ValueLe(a, b) && ValueLe(b, c) ensures ValueLe(a, c) {
      if a.TextV? && b.TextV? && c.TextV? {
        StrLeTrans(a.s, b.s, c.s);
      }
    }
  }

  /** `sorted(values)` / `Series.sort_values()`. */
  function SortValues(vs: seq<Value>): (r: seq<Value>)
    ensures multiset(r) == multiset(vs) && Sorted(r, ValueLe)
  {
    ValueLeTotalPreorder();
    SortSorted(vs, ValueLe);
    Sort(vs, ValueLe)
  }

  // ---------------------------------------------------------------- display

  /** The text functions the model does not interpret: `util.sanitize_identifier` and the
      `str()` of a number or of a value of another numpy type. */
  datatype Printer = Printer(sanitize: string -> string, showNum: real -> string, showOther: int -> string)

  /** `str(v)`, as `"{}".format(v)` renders it. */
  function Show(p: Printer, v: Value): string
  {
    match v
    case BoolV(b) => if b then "True" else "False"
    case NumV(x) => p.showNum(x)
    case TextV(s) => s
    case OtherV(id) => p.showOther(id)
  }
}
