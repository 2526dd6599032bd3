/** The YAML document tree the camel registry reads and writes, the dumper/loader pairs for
    numpy scalars, `Undefined` and `pandas.Series`, and the `traits_repr` / `traits_str`
    rendering of traited objects. */
module Serialization {
  import opened Wrappers
  import opened Text
  import opened Order
  import opened Values

  /** A YAML document: a scalar, a sequence, a mapping, or a value tagged by a dumper. */
  datatype Doc =
    | DNull
    | DVal(v: Value)
    | DList(items: seq<Doc>)
    | DDict(entries: map<string, Doc>)
    | DTagged(tag: string, version: nat, body: Doc)

  // ---------------------------------------------------------------- numpy scalar dumpers

  /** `repr(bool(b))`. */
  function BoolRepr(b: bool): string
  {
    if b then "True" else "False"
  }

  /** The numpy bool dumper: `repr(bool(b)).lower()`. */
  function DumpBool(b: bool): (r: string)
    ensures r == (if b then "true" else "false")
  {
    var r := Lower(BoolRepr(b));
    assert r == (if b then "true" else "false");
    r
  }

  /** How a YAML reader reads a bool scalar back. */
  function ReadBool(t: string): Option<bool>
  {
    if t == "true" then Some(true) else if t == "false" then Some(false) else None
  }

  lemma DumpBoolRoundTrip(b: bool)
    ensures ReadBool(DumpBool(b)) == Some(b)
  {
  }

  /** The numpy int dumper: `repr(int(i)).lower()`, which lower-casing leaves unchanged, so
      a YAML reader gets the same integer back. */
  function DumpInt(i: int): (r: string)
    ensures r == IntToString(i)
    ensures ParseInt(r) == Some(i)
  {
    var t := IntToString(i);
    assert forall k :: 0 <= k < |t| ==> t[k] == '-' || IsDigit(t[k]) by {
      if i < 0 {
        assert forall k :: 1 <= k < |t| ==> t[k] == NatToString(-i)[k - 1];
      }
    }
    LowerIdentity(t);
    IntToStringRoundTrip(i);
    Lower(t)
  }

  // ---------------------------------------------------------------- Undefined

  /** A float trait that may still hold traits' `Undefined`. */
  datatype Bound = Undefined | Defined(x: real)

  /** The `undefined` dumper: the tag carries the meaning, the body is a placeholder. */
  function DumpUndefined(): Doc
  {
    DTagged("undefined", 1, DVal(TextV("Undefined")))
  }

  /** The `undefined` loader ignores its data. */
  function LoadUndefined(version: nat, data: Doc): Bound
  {
    Undefined
  }

  /** A float trait as dumped: `Undefined` through its tag, a float as a YAML float. */
  function DumpBound(b: Bound): Doc
  {
    match b
    case Undefined => DumpUndefined()
    case Defined(x) => DVal(NumV(x))
  }

  /** Reading a float trait: the `undefined` tag, a number, or a bool (a CFloat casts it);
      anything else is refused by the trait. */
  function LoadBound(d: Doc, name: string): (r: Result<Bound>)
    ensures r.Ok? && r.value.Undefined? <==> d.DTagged? && d.tag == "undefined" && d.version == 1
  {
    match d
    case DTagged(tag, version, body) =>
      if tag == "undefined" && version == 1 then Ok(LoadUndefined(version, body))
      else Err(TraitError(name))
    case DVal(NumV(x)) => Ok(Defined(x))
    case DVal(BoolV(b)) => Ok(Defined(if b then 1.0 else 0.0))
    case _ => Err(TraitError(name))
  }

  lemma BoundRoundTrip(b: Bound, name: string)
    ensures LoadBound(DumpBound(b), name) == Ok(b)
  {
  }

  // ---------------------------------------------------------------- lists of values

  function Leaves(vs: seq<Value>): (ds: seq<Doc>)
    ensures |ds| == |vs| && forall i :: 0 <= i < |vs| ==> ds[i] == DVal(vs[i])
  {
    seq(|vs|, i requires 0 <= i < |vs| => DVal(vs[i]))
  }

  /** The values of a YAML list of scalars; None when some item is not a scalar. */
  function Unleaves(ds: seq<Doc>): (r: Option<seq<Value>>)
    ensures r.Some? <==> forall i :: 0 <= i < |ds| ==> ds[i].DVal?
    ensures r.Some? ==> |r.value| == |ds| && forall i :: 0 <= i < |ds| ==> ds[i] == DVal(r.value[i])
  {
    if forall i :: 0 <= i < |ds| ==> ds[i].DVal? then Some(seq(|ds|, i requires 0 <= i < |ds| => ds[i].v))
    else None
  }

  lemma LeavesRoundTrip(vs: seq<Value>)
    ensures Unleaves(Leaves(vs)) == Some(vs)
  {
    assert Unleaves(Leaves(vs)).value == vs;
  }

  // ---------------------------------------------------------------- pandas.Series

  /** A Series with a flat index. */
  datatype Series = Series(index: seq<Value>, data: seq<Value>)

  /** The `pandas-series` dumper: a mapping of the index list and the data list. */
  function DumpSeries(s: Series): Doc
  {
    DTagged("pandas-series", 1, DDict(map["index" := DList(Leaves(s.index)), "data" := DList(Leaves(s.data))]))
  }

  /** A list of scalars stored under `key` of a mapping. */
  function ValuesAt(entries: map<string, Doc>, key: string): Result<seq<Value>>
  {
    if key !in entries then Err(KeyError(key))
    else match entries[key]
      case DList(items) =>
        (match Unleaves(items)
         case Some(vs) => Ok(vs)
         case None => Err(ForeignError("a Series of nested values")))
      case _ => Err(ForeignError("a Series built from a non-list"))
  }

  /** The `pandas-series` loader: `Series(data = data['data'], index = data['index'])`,
      which pandas refuses when the two lengths differ. */
  function LoadSeries(version: nat, data: Doc): (r: Result<Series>)
    ensures r.Ok? ==> |r.value.index| == |r.value.data|
  {
    match data
    case DDict(entries) =>
      var vals :- ValuesAt(entries, "data");
      var idx :- ValuesAt(entries, "index");
      if |vals| != |idx| then Err(ValueError("Length of values does not match length of index"))
      else Ok(Series(idx, vals))
    case _ => Err(ForeignError("a Series built from a non-mapping"))
  }

  /** A Series whose index and data have the same length comes back equal; one whose
      lengths differ cannot be rebuilt. */
  lemma SeriesRoundTrip(s: Series)
    ensures |s.index| == |s.data| ==> LoadSeries(1, DumpSeries(s).body) == Ok(s)
    ensures |s.index| != |s.data| ==> LoadSeries(1, DumpSeries(s).body).Err?
  {
    var e := DumpSeries(s).body.entries;
    LeavesRoundTrip(s.index);
    LeavesRoundTrip(s.data);
    assert ValuesAt(e, "data") == Ok(s.data);
    assert ValuesAt(e, "index") == Ok(s.index);
  }

  // ---------------------------------------------------------------- traits_repr / traits_str

  /** A trait value: a plain value (rendered with `repr`) or a callable (rendered by name). */
  datatype TraitValue<V> = Plain(v: V) | Callable(fnName: string)

  /** What `traits_str` reads from an object: its class name, its traits in dict order, the
      traits of a fresh instance of its class, and whether reading them raises a
      DelegationError. */
  datatype TraitObject<V> = TraitObject(
    className: string,
    traits: seq<(string, TraitValue<V>)>,
    defaults: map<string, TraitValue<V>>,
    delegationError: bool)

  /** A trait is shown unless it is `op` or holds its class default. */
  predicate Shown<V(==)>(defaults: map<string, TraitValue<V>>, kv: (string, TraitValue<V>))
  {
    kv.0 != "op" && (kv.0 !in defaults || kv.1 != defaults[kv.0])
  }

  function ShownIn<V(==)>(defaults: map<string, TraitValue<V>>): ((string, TraitValue<V>)) -> bool
  {
    kv => Shown(defaults, kv)
  }

  function ShownTraits<V(==,!new)>(o: TraitObject<V>): seq<(string, TraitValue<V>)>
  {
    Filter(o.traits, ShownIn(o.defaults))
  }

  /** `"%s = %s" % (k, v.__name__)` for a callable, `"%s = %r" % (k, v)` otherwise. */
  function RenderTrait<V>(kv: (string, TraitValue<V>), repr: V -> string): (r: string)
    ensures |r| >= |kv.0| + 3 && r[..|kv.0| + 3] == kv.0 + " = "
    ensures kv.1.Plain? ==> r[|kv.0| + 3..] == repr(kv.1.v)
    ensures kv.1.Callable? ==> r[|kv.0| + 3..] == kv.1.fnName
  {
    kv.0 + " = " + match kv.1 case Callable(n) => n case Plain(v) => repr(v)
  }

  function RenderAll<V>(kvs: seq<(string, TraitValue<V>)>, repr: V -> string): (r: seq<string>)
    ensures |r| == |kvs| && forall i :: 0 <= i < |kvs| ==> r[i] == RenderTrait(kvs[i], repr)
  {
    seq(|kvs|, i requires 0 <= i < |kvs| => RenderTrait(kvs[i], repr))
  }

  function TraitsStr<V(==,!new)>(o: TraitObject<V>, repr: V -> string): string
  {
    if o.delegationError then o.className + "(<Delegation error>)"
    else Join(", ", RenderAll(ShownTraits(o), repr))
  }

  function TraitsRepr<V(==,!new)>(o: TraitObject<V>, repr: V -> string): (r: string)
    ensures |r| >= |o.className| + 2
    ensures r[..|o.className| + 1] == o.className + "(" && r[|r| - 1] == ')'
    ensures r[|o.className| + 1..|r| - 1] == TraitsStr(o, repr)
  {
    o.className + "(" + TraitsStr(o, repr) + ")"
  }

  /** The trait list renders as nothing exactly when every trait is `op` or a default. */
  lemma TraitsStrEmptyIff<V(!new)>(o: TraitObject<V>, repr: V -> string)
    requires !o.delegationError
    ensures TraitsStr(o, repr) == "" <==> forall i :: 0 <= i < |o.traits| ==> !Shown(o.defaults, o.traits[i])
  {
    var parts := RenderAll(ShownTraits(o), repr);
    JoinEmptyIff(", ", parts);
    if exists i :: 0 <= i < |o.traits| && Shown(o.defaults, o.traits[i]) {
      var i :| 0 <= i < |o.traits| && Shown(o.defaults, o.traits[i]);
      assert o.traits[i] in ShownTraits(o);
    } else {
      var st := ShownTraits(o);
      assert forall x :: x in o.traits ==> !Shown(o.defaults, x);
      assert forall x :: x !in st;
      EmptyOrHeadIn(st);
    }
  }

  /** A sequence is empty or holds its first element. */
  lemma EmptyOrHeadIn<T>(s: seq<T>)
    ensures s == [] || s[0] in s
  {
  }

  /** An object whose traits all hold their defaults is shown as `ClassName()`. */
  lemma TraitsReprDefault<V(!new)>(o: TraitObject<V>, repr: V -> string)
    requires !o.delegationError
    requires forall i :: 0 <= i < |o.traits| ==> o.traits[i].0 in o.defaults && o.traits[i].1 == o.defaults[o.traits[i].0]
    ensures TraitsRepr(o, repr) == o.className + "()"
  {
    TraitsStrEmptyIff(o, repr);
  }

  /** The owning operation is never shown: no shown trait is named `op`, and an `op` trait
      inserted anywhere among the traits changes nothing. */
  lemma TraitsStrIgnoresOp<V(!new)>(o: TraitObject<V>, k: nat, op: TraitValue<V>, repr: V -> string)
    requires k <= |o.traits|
    ensures forall kv :: kv in ShownTraits(o) ==> kv.0 != "op"
    ensures TraitsStr(o.(traits := o.traits[..k] + [("op", op)] + o.traits[k..]), repr) == TraitsStr(o, repr)
  {
    ShownSkipsOp(o.defaults, o.traits[..k], o.traits[k..], op);
    assert o.traits[..k] + o.traits[k..] == o.traits;
  }

  lemma ShownSkipsOp<V(!new)>(defaults: map<string, TraitValue<V>>, a: seq<(string, TraitValue<V>)>,
                              b: seq<(string, TraitValue<V>)>, op: TraitValue<V>)
    ensures Filter(a + [("op", op)] + b, ShownIn(defaults)) == Filter(a + b, ShownIn(defaults))
  {
    var p := ShownIn(defaults);
    assert !p(("op", op));
    FilterConcat(a + [("op", op)], b, p);
    FilterAppend(a, ("op", op), p);
    FilterConcat(a, b, p);
  }

  /** The first shown trait opens the rendering, as `name = `. */
  lemma TraitsStrStartsWithFirstShown<V(!new)>(o: TraitObject<V>, repr: V -> string)
    requires !o.delegationError && ShownTraits(o) != []
    ensures var k := ShownTraits(o)[0].0;
      |k| + 3 <= |TraitsStr(o, repr)| && TraitsStr(o, repr)[..|k| + 3] == k + " = "
  {
    var parts := RenderAll(ShownTraits(o), repr);
    JoinStartsWithFirst(", ", parts);
    var k := ShownTraits(o)[0].0;
    assert TraitsStr(o, repr)[..|parts[0]|] == parts[0];
    assert TraitsStr(o, repr)[..|k| + 3] == parts[0][..|k| + 3];
  }

  /** Appending a trait to an object appends its rendering after `, ` when it is shown,
      and leaves the text alone when it is not: the text lists the shown traits in order. */
  lemma TraitsStrAppend<V(!new)>(o: TraitObject<V>, kv: (string, TraitValue<V>), repr: V -> string)
    requires !o.delegationError
    ensures var t, t' := TraitsStr(o, repr), TraitsStr(o.(traits := o.traits + [kv]), repr);
      t' == if !Shown(o.defaults, kv) then t
            else if t == "" then RenderTrait(kv, repr)
            else t + ", " + RenderTrait(kv, repr)
  {
    var o' := o.(traits := o.traits + [kv]);
    var st, st' := ShownTraits(o), ShownTraits(o');
    FilterAppend(o.traits, kv, ShownIn(o.defaults));
    var parts := RenderAll(st, repr);
    JoinEmptyIff(", ", parts);
    if Shown(o.defaults, kv) {
      assert st' == st + [kv];
      RenderAllAppend(st, kv, repr);
      JoinAppend(", ", parts, RenderTrait(kv, repr));
    } else {
      assert st' == st;
    }
  }

  lemma RenderAllAppend<V>(kvs: seq<(string, TraitValue<V>)>, kv: (string, TraitValue<V>), repr: V -> string)
    ensures RenderAll(kvs + [kv], repr) == RenderAll(kvs, repr) + [RenderTrait(kv, repr)]
  {
    var a, b := RenderAll(kvs + [kv], repr), RenderAll(kvs, repr) + [RenderTrait(kv, repr)];
    assert |a| == |b|;
    forall i | 0 <= i < |a| ensures a[i] == b[i] {
      if i < |kvs| {
        assert (kvs + [kv])[i] == kvs[i];
      }
    }
  }

  /** When the traits cannot be read, `traits_str` already names the class, so
      `traits_repr` names it twice. */
  lemma TraitsReprDelegation<V(!new)>(o: TraitObject<V>, repr: V -> string)
    requires o.delegationError
    ensures TraitsRepr(o, repr) == o.className + "(" + o.className + "(<Delegation error>))"
  {
  }
}
