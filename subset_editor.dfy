/** The list editor that keeps an operation's or view's subsets in step with the
    experiment's conditions: it drops subsets of vanished conditions, adds one for each new
    condition (its kind chosen from the condition's dtype), and refreshes the values of the
    subsets it already holds. */
module SubsetEditor {
  import opened Wrappers
  import opened Order
  import opened Values
  import opened Serialization
  import opened Subsets

  /** The metadata of one condition. */
  type Metadata = map<string, Value>

  /** `eval(when, globals(), metadata)`: the truth of the `when` expression over a
      condition's metadata, or None when evaluating it raises. */
  type Evaluator = (string, Metadata) -> Option<bool>

  function Names(vs: seq<Subset>): (r: seq<string>)
    ensures |r| == |vs| && forall i :: 0 <= i < |vs| ==> r[i] == vs[i].name
  {
    seq(|vs|, i requires 0 <= i < |vs| => vs[i].name)
  }

  function NameSet(vs: seq<Subset>): (r: set<string>)
    ensures forall n :: n in r <==> exists i :: 0 <= i < |vs| && vs[i].name == n
  {
    set i | 0 <= i < |vs| :: vs[i].name
  }

  /** `_SubsetListEditor.include_condition`: every condition when there is no `when`
      expression, otherwise those with metadata on which it holds; an expression that
      raises becomes a CytoflowError. */
  function IncludeCondition(when: string, metadata: map<string, Metadata>, eval: Evaluator, c: string): (r: Result<bool>)
    ensures when == "" ==> r == Ok(true)
    ensures when != "" && c !in metadata ==> r == Ok(false)
    ensures r.Err? <==> when != "" && c in metadata && eval(when, metadata[c]).None?
    ensures r == Ok(true) <==> when == "" || (c in metadata && eval(when, metadata[c]) == Some(true))
  {
    if when == "" then Ok(true)
    else if c in metadata then
      match eval(when, metadata[c])
      case Some(b) => Ok(b)
      case None => Err(CytoflowError("Bad when statement: " + when))
    else Ok(false)
  }

  /** The subset added for a new condition, from its values in ascending order: a bool
      subset for a bool dtype, a range for a numeric one (whose bounds the values handler
      fills; on an empty condition `max` raises inside the handler and the bounds stay
      `Undefined`), a category for an object dtype; any other dtype raises. */
  function NewSubset(name: string, series: seq<Value>): (r: Result<Subset>)
    ensures r.Ok? ==> r.value.name == name && Wellformed(r.value)
    ensures r.Err? <==> DtypeKind(series) == 'M'
    ensures DtypeKind(series) == 'b' ==> r == Ok(BoolSubset(name, [], false, false))
    ensures DtypeKind(series) == 'O' ==> r == Ok(CategorySubset(name, SortValues(series), []))
    ensures DtypeKind(series) == 'f' ==>
      r.Ok? && r.value.RangeSubset? && r.value.values == SortValues(series) &&
      (|series| == 0 ==> r.value.high.Undefined? && r.value.low.Undefined?) &&
      (|series| > 0 ==> (r.value.high.Defined? && r.value.low.Defined? &&
        IsMax(r.value.high.x, series) && IsMin(r.value.low.x, series)))
  {
    var values := SortValues(series);
    DtypeKindPermutation(values, series);
    var kind := DtypeKind(values);
    if kind == 'b' then Ok(BoolSubset(name, [], false, false))
    else if kind == 'f' then
      assert |values| == |series| by {
        assert |multiset(values)| == |multiset(series)|;
      }
      assert |values| > 0 ==> Fillable(values) by {
        if |values| > 0 {
          assert forall i :: 0 <= i < |values| ==> values[i].NumV?;
        }
      }
      var r := ValuesChanged(RangeSubset(name, values, Undefined, Undefined));
      IsMaxPermutation(r, values, series);
      Ok(r)
    else if kind == 'O' then Ok(CategorySubset(name, values, []))
    else Err(CytoflowError("Unknown dtype in ViewController"))
  }

  /** The extremes of a list are those of any rearrangement of it. */
  lemma IsMaxPermutation(r: Subset, values: seq<Value>, series: seq<Value>)
    requires multiset(values) == multiset(series)
    requires r.RangeSubset? && r.high.Defined? && r.low.Defined? ==>
      IsMax(r.high.x, values) && IsMin(r.low.x, values)
    ensures r.RangeSubset? && r.high.Defined? && r.low.Defined? ==>
      IsMax(r.high.x, series) && IsMin(r.low.x, series)
  {
    forall v ensures v in values <==> v in series {
      assert v in values <==> v in multiset(values);
      assert v in series <==> v in multiset(series);
    }
    forall i | 0 <= i < |series| ensures series[i] in values {
    }
    forall i | 0 <= i < |values| ensures values[i] in series {
    }
  }

  /** A subset added for a new condition filters nothing until the user selects; only the
      range of an empty numeric condition has no text, as its `str` indexes `values[0]`. */
  lemma NewSubsetUnfiltered(p: Printer, name: string, series: seq<Value>)
    requires NewSubset(name, series).Ok?
    ensures |series| > 0 ==> SubsetStr(p, NewSubset(name, series).value) == Ok("")
    ensures |series| == 0 ==> SubsetStr(p, NewSubset(name, series).value) == Err(IndexError)
  {
    var values := SortValues(series);
    DtypeKindPermutation(values, series);
    if DtypeKind(series) == 'f' && |series| > 0 {
      assert |values| == |series| by {
        assert |multiset(values)| == |multiset(series)|;
      }
      ValueLeTotalPreorder();
      NewRangeUnfiltered(p, name, values);
    }
  }

  /** `r` is `s` with only its values (and, for a range, the bounds the values handler
      fills) changed: the kind and the user's selection are the same. */
  predicate KeepsSelection(s: Subset, r: Subset)
  {
    && (s.BoolSubset? ==> r.BoolSubset? && r.selectedT == s.selectedT && r.selectedF == s.selectedF)
    && (s.CategorySubset? ==> r.CategorySubset? && r.selected == s.selected)
    && (s.RangeSubset? ==> r.RangeSubset? && (s.high.Defined? ==> r.high == s.high) && (s.low.Defined? ==> r.low == s.low))
  }

  /** For a range, a bound `s` left `Undefined` is filled in `r` exactly when `r`'s values
      are non-empty and numeric, and then with their maximum (minimum). */
  predicate FillsBounds(s: Subset, r: Subset)
  {
    s.RangeSubset? && r.RangeSubset? ==>
      && (s.high.Undefined? ==> (r.high.Defined? <==> Fillable(r.values)) && (r.high.Defined? ==> IsMax(r.high.x, r.values)))
      && (s.low.Undefined? ==> (r.low.Defined? <==> Fillable(r.values)) && (r.low.Defined? ==> IsMin(r.low.x, r.values)))
  }

  /** `subset.values = values` on a subset the editor holds; for a range it fires the values
      handler, which keeps the defined bounds and fills a bound left `Undefined` (by an
      empty condition) once the new values allow it. */
  function SetValues(s: Subset, vs: seq<Value>): (r: Subset)
    ensures r.name == s.name && r.values == vs && Wellformed(r)
    ensures KeepsSelection(s, r) && FillsBounds(s, r)
  {
    var t := s.(values := vs);
    if t.RangeSubset? then ValuesChanged(t) else t
  }

  /** A held subset after the refresh step: its values are replaced by the condition's
      sorted values only when the two differ as Python sets. */
  function Refreshed(s: Subset, series: seq<Value>): (r: Subset)
    requires Wellformed(s)
    ensures r.name == s.name && Wellformed(r)
    ensures ValueSet(r.values) == ValueSet(series)
    ensures ValueSet(s.values) == ValueSet(series) ==> r == s
    ensures ValueSet(s.values) != ValueSet(series) ==>
      r.values == SortValues(series) && KeepsSelection(s, r) && FillsBounds(s, r)
  {
    if ValueSet(s.values) != ValueSet(series) then
      var vs := SortValues(series);
      assert ValueSet(vs) == ValueSet(series) by {
        forall v ensures v in vs <==> v in series {
          assert v in vs <==> v in multiset(vs);
          assert v in series <==> v in multiset(series);
        }
      }
      SetValues(s, vs)
    else s
  }

  /** The list without the subsets whose names are in `stale`. */
  function Drop(vs: seq<Subset>, stale: set<string>): (r: seq<Subset>)
    ensures forall s :: s in r <==> s in vs && s.name !in stale
    ensures |r| <= |vs|
  {
    if vs == [] then []
    else if vs[0].name in stale then Drop(vs[1..], stale)
    else [vs[0]] + Drop(vs[1..], stale)
  }

  /** `self.value.remove(next(x for x in self.value if x.name == name))`. */
  function RemoveFirst(vs: seq<Subset>, name: string): seq<Subset>
  {
    if vs == [] then []
    else if vs[0].name == name then vs[1..]
    else [vs[0]] + RemoveFirst(vs[1..], name)
  }

  /** The position `next(x for x in self.value if x.name == name)` finds. */
  function FirstNamed(vs: seq<Subset>, name: string): (i: nat)
    requires name in NameSet(vs)
    ensures i < |vs| && vs[i].name == name
    ensures forall j :: 0 <= j < i ==> vs[j].name != name
  {
    if vs[0].name == name then 0
    else
      assert name in NameSet(vs[1..]) by {
        var k :| 0 <= k < |vs| && vs[k].name == name;
        assert vs[1..][k - 1].name == name;
      }
      1 + FirstNamed(vs[1..], name)
  }

  lemma DistinctTail(vs: seq<Subset>)
    requires vs != [] && Distinct(Names(vs))
    ensures Distinct(Names(vs[1..])) && vs[0].name !in NameSet(vs[1..])
  {
    assert Names(vs[1..]) == Names(vs)[1..];
    forall k | 0 <= k < |vs[1..]| ensures vs[1..][k].name != vs[0].name {
      assert Names(vs)[0] != Names(vs)[k + 1];
    }
  }

  /** Putting a subset of a new name in front keeps the names distinct. */
  lemma DistinctCons(x: Subset, vs: seq<Subset>)
    requires Distinct(Names(vs)) && x.name !in NameSet(vs)
    ensures Distinct(Names([x] + vs))
  {
    var d := [x] + vs;
    forall i, j | 0 <= i < j < |d| ensures Names(d)[i] != Names(d)[j] {
      assert d[j] == vs[j - 1];
      if i > 0 {
        assert Names(vs)[i - 1] != Names(vs)[j - 1];
      }
    }
  }

  /** A list drawn from another uses only the other's names. */
  lemma NameSetWithin(a: seq<Subset>, b: seq<Subset>)
    requires forall s :: s in a ==> s in b
    ensures NameSet(a) <= NameSet(b)
  {
    forall n | n in NameSet(a) ensures n in NameSet(b) {
      var k :| 0 <= k < |a| && a[k].name == n;
      assert a[k] in b;
    }
  }

  lemma {:induction false} DropNothing(vs: seq<Subset>)
    ensures Drop(vs, {}) == vs
  {
    if vs != [] {
      DropNothing(vs[1..]);
      assert vs == [vs[0]] + vs[1..];
    }
  }

  lemma {:induction false} DropAbsent(vs: seq<Subset>, stale: set<string>, name: string)
    requires name !in NameSet(vs)
    ensures Drop(vs, stale + {name}) == Drop(vs, stale)
  {
    if vs != [] {
      forall k | 0 <= k < |vs[1..]| ensures vs[1..][k].name != name {
        assert vs[1..][k] == vs[k + 1];
      }
      DropAbsent(vs[1..], stale, name);
    }
  }

  /** Removing the first subset of a name from a list whose names are distinct drops that
      name. */
  lemma {:induction false} RemoveFirstDrop(vs: seq<Subset>, stale: set<string>, name: string)
    requires Distinct(Names(vs))
    ensures RemoveFirst(Drop(vs, stale), name) == Drop(vs, stale + {name})
  {
    if vs != [] {
      DistinctTail(vs);
      RemoveFirstDrop(vs[1..], stale, name);
      if vs[0].name == name && name !in stale {
        DropAbsent(vs[1..], stale, name);
      }
    }
  }

  lemma DropWellformed(vs: seq<Subset>, stale: set<string>)
    requires forall i :: 0 <= i < |vs| ==> Wellformed(vs[i])
    ensures forall i :: 0 <= i < |Drop(vs, stale)| ==> Wellformed(Drop(vs, stale)[i])
  {
    var d := Drop(vs, stale);
    forall i | 0 <= i < |d| ensures Wellformed(d[i]) {
      assert d[i] in d;
      var k :| 0 <= k < |vs| && vs[k] == d[i];
    }
  }

  lemma {:induction false} DropDistinct(vs: seq<Subset>, stale: set<string>)
    requires Distinct(Names(vs))
    ensures Distinct(Names(Drop(vs, stale)))
  {
    if vs != [] {
      DistinctTail(vs);
      DropDistinct(vs[1..], stale);
      if vs[0].name !in stale {
        NameSetWithin(Drop(vs[1..], stale), vs[1..]);
        DistinctCons(vs[0], Drop(vs[1..], stale));
      }
    }
  }

  /** The editor of one subset list. */
  class SubsetListEditor {
    var value: seq<Subset>
    var conditions: map<string, seq<Value>>
    var metadata: map<string, Metadata>
    var when: string

    /** One subset per name, and every range with its bounds filled. */
    ghost predicate Valid()
      reads this
    {
      Distinct(Names(value)) && forall i :: 0 <= i < |value| ==> Wellformed(value[i])
    }

    constructor (conditions: map<string, seq<Value>>, metadata: map<string, Metadata>, when: string)
      ensures Valid() && this.value == []
      ensures this.conditions == conditions && this.metadata == metadata && this.when == when
    {
      this.value := [];
      this.conditions := conditions;
      this.metadata := metadata;
      this.when := when;
    }

    /** The included condition names, or the error the first bad `when` raises. */
    function ConditionNames(eval: Evaluator): (r: Result<set<string>>)
      reads this
      ensures r.Err? <==> exists c :: c in conditions && IncludeCondition(when, metadata, eval, c).Err?
      ensures r.Ok? ==> forall c :: c in r.value <==> c in conditions && IncludeCondition(when, metadata, eval, c) == Ok(true)
    {
      if exists c :: c in conditions && IncludeCondition(when, metadata, eval, c).Err? then
        Err(CytoflowError("Bad when statement: " + when))
      else
        Ok(set c | c in conditions && IncludeCondition(when, metadata, eval, c) == Ok(true))
    }

    /** First phase: drop the subsets of names that are no longer conditions. */
    method RemoveStale(stale: set<string>)
      requires Valid()
      modifies this
      ensures Valid() && value == Drop(old(value), stale)
      ensures conditions == old(conditions) && metadata == old(metadata) && when == old(when)
    {
      ghost var start := value;
      DropNothing(start);
      var left := stale;
      assert stale - left == {};
      while left != {}
        invariant left <= stale
        invariant value == Drop(start, stale - left)
        invariant conditions == old(conditions) && metadata == old(metadata) && when == old(when)
        decreases left
      {
        var name :| name in left;
        RemoveFirstDrop(start, stale - left, name);
        value := RemoveFirst(value, name);
        assert (stale - left) + {name} == stale - (left - {name});
        left := left - {name};
      }
      assert stale - left == stale;
      DropDistinct(start, stale);
      DropWellformed(start, stale);
    }

    /** Second phase: append a subset for each new condition, in the order the set yields
        them; a condition of an unknown dtype raises, leaving the subsets appended before it. */
    method AddNew(incoming: set<string>) returns (r: Result<()>)
      requires Valid()
      requires incoming <= conditions.Keys && incoming !! NameSet(value)
      modifies this
      ensures conditions == old(conditions) && metadata == old(metadata) && when == old(when)
      ensures Valid()
      ensures r.Err? <==> exists n :: n in incoming && NewSubset(n, conditions[n]).Err?
      ensures |value| >= |old(value)| && value[..|old(value)|] == old(value)
      ensures NewAppended(|old(value)|, value, incoming, conditions)
      ensures r.Ok? ==> forall n :: n in incoming ==> n in NameSet(value)
    {
      ghost var start := value;
      ghost var done: set<string> := {};
      var left := incoming;
      while left != {}
        invariant conditions == old(conditions) && metadata == old(metadata) && when == old(when)
        invariant done + left == incoming && done !! left
        invariant Valid()
        invariant |value| >= |start| && value[..|start|] == start
        invariant NewAppended(|start|, value, done, conditions)
        invariant forall n :: n in done ==> n in NameSet(value) && NewSubset(n, conditions[n]).Ok?
        invariant forall n :: n in left ==> n !in NameSet(value)
        decreases left
      {
        var name :| name in left;
        var s := NewSubset(name, conditions[name]);
        if s.Err? {
          return Err(s.error);
        }
        Append(s.value);
        left := left - {name};
        done := done + {name};
      }
      r := Ok(());
    }

    /** Appends one subset of a condition not yet held. */
    method Append(s: Subset)
      requires Valid() && Wellformed(s) && s.name !in NameSet(value)
      modifies this
      ensures conditions == old(conditions) && metadata == old(metadata) && when == old(when)
      ensures Valid() && value == old(value) + [s]
      ensures NameSet(value) == NameSet(old(value)) + {s.name}
    {
      ghost var before := value;
      value := value + [s];
      forall n | n in NameSet(before) ensures n in NameSet(value) {
        var k :| 0 <= k < |before| && before[k].name == n;
        assert value[k].name == n;
      }
      assert value[|value| - 1].name == s.name;
      forall i, j | 0 <= i < j < |value| ensures Names(value)[i] != Names(value)[j] {
        if j == |value| - 1 {
          assert before[i].name in NameSet(before);
        } else {
          assert Names(before)[i] != Names(before)[j];
        }
      }
    }

    /** Third phase: replace the values of each held subset of a still-present condition
        whose value set changed. */
    method RefreshValues(both: set<string>)
      requires Valid()
      requires both <= conditions.Keys && both <= NameSet(value)
      modifies this
      ensures conditions == old(conditions) && metadata == old(metadata) && when == old(when)
      ensures Valid()
      ensures |value| == |old(value)|
      ensures forall i :: 0 <= i < |value| ==>
        value[i] == if old(value)[i].name in both then Refreshed(old(value)[i], conditions[old(value)[i].name]) else old(value)[i]
    {
      ghost var start := value;
      var left := both;
      while left != {}
        invariant conditions == old(conditions) && metadata == old(metadata) && when == old(when)
        invariant left <= both
        invariant |value| == |start|
        invariant forall i :: 0 <= i < |value| ==>
          value[i] == if start[i].name in both - left then Refreshed(start[i], conditions[start[i].name]) else start[i]
        invariant Valid()
        decreases left
      {
        var name :| name in left;
        assert name in NameSet(value) by {
          var k :| 0 <= k < |start| && start[k].name == name;
          assert value[k] == start[k];
        }
        RefreshOne(name);
        left := left - {name};
      }
    }

    /** One step of the refresh: the held subset named `name` takes the condition's sorted
        values when the two differ as sets. */
    method RefreshOne(name: string)
      requires Valid() && name in conditions && name in NameSet(value)
      modifies this
      ensures conditions == old(conditions) && metadata == old(metadata) && when == old(when)
      ensures Valid() && |value| == |old(value)|
      ensures forall j :: 0 <= j < |value| ==>
        value[j] == if old(value)[j].name == name then Refreshed(old(value)[j], conditions[name]) else old(value)[j]
    {
      var i := FirstNamed(value, name);
      forall j | 0 <= j < |value| && j != i ensures value[j].name != name {
        if j > i {
          assert Names(value)[i] != Names(value)[j];
        }
      }
      if ValueSet(value[i].values) != ValueSet(conditions[name]) {
        value := value[i := SetValues(value[i], SortValues(conditions[name]))];
      }
      forall j, k | 0 <= j < k < |value| ensures Names(value)[j] != Names(value)[k] {
        assert Names(old(value))[j] != Names(old(value))[k];
      }
    }

    /** `_on_conditions_change`, run when the conditions or the metadata change. While a
        workflow is loading, subsets of vanished conditions are kept. */
    method OnConditionsChange(loading: bool, eval: Evaluator) returns (r: Result<()>)
      requires Valid()
      modifies this
      ensures conditions == old(conditions) && metadata == old(metadata) && when == old(when)
      ensures Valid()
      ensures ConditionNames(eval).Err? ==> r.Err? && value == old(value)
      ensures ConditionNames(eval).Ok? ==>
        (r.Err? <==> exists n :: n in ConditionNames(eval).value - NameSet(old(value)) && NewSubset(n, conditions[n]).Err?)
      ensures r.Ok? ==> Reconciled(old(value), value, ConditionNames(eval).value, loading, conditions)
    {
      var found := ConditionNames(eval);
      if found.Err? {
        return Err(found.error);
      }
      var names := found.value;
      var valueNames := NameSet(value);
      ghost var before := value;
      if !loading {
        RemoveStale(valueNames - names);
        DropNames(before, valueNames - names);
      }
      ghost var kept := value;
      var added := AddNew(names - valueNames);
      if added.Err? {
        return added;
      }
      ghost var grown := value;
      PrefixNames(kept, grown);
      RefreshValues(names * valueNames);
      Combine(before, kept, grown, value, names, loading, conditions);
      r := Ok(());
    }
  }

  /** The outcome of a successful reconciliation: the held subsets (all of them while
      loading, otherwise those of included conditions) keep their order and get refreshed
      values; after them come new subsets, one per new included condition; every included
      condition has a subset, and when not loading no other subset remains. */
  ghost predicate Reconciled(before: seq<Subset>, after: seq<Subset>, names: set<string>, loading: bool,
                             conds: map<string, seq<Value>>)
    requires names <= conds.Keys
  {
    var kept := if loading then before else Drop(before, NameSet(before) - names);
    HeldRefreshed(kept, after, names, conds) &&
    NewAppended(|kept|, after, names - NameSet(before), conds) &&
    (forall n :: n in names ==> n in NameSet(after)) &&
    (!loading ==> forall i :: 0 <= i < |after| ==> after[i].name in names)
  }

  /** `after` starts with the held subsets, those of included conditions refreshed. */
  ghost predicate HeldRefreshed(kept: seq<Subset>, after: seq<Subset>, names: set<string>, conds: map<string, seq<Value>>)
    requires names <= conds.Keys
  {
    |after| >= |kept| &&
    (forall i :: 0 <= i < |kept| && kept[i].name !in names ==> after[i] == kept[i]) &&
    (forall i :: 0 <= i < |kept| && kept[i].name in names ==>
      Wellformed(kept[i]) && after[i] == Refreshed(kept[i], conds[kept[i].name]))
  }

  /** From position `from` on, `after` holds new subsets of the given names. */
  ghost predicate NewAppended(from: nat, after: seq<Subset>, incoming: set<string>, conds: map<string, seq<Value>>)
    requires incoming <= conds.Keys
  {
    forall i :: from <= i < |after| ==>
      after[i].name in incoming && NewSubset(after[i].name, conds[after[i].name]) == Ok(after[i])
  }

  lemma DropNames(vs: seq<Subset>, stale: set<string>)
    ensures NameSet(Drop(vs, stale)) == NameSet(vs) - stale
  {
    var d := Drop(vs, stale);
    forall n | n in NameSet(vs) - stale ensures n in NameSet(d) {
      var k :| 0 <= k < |vs| && vs[k].name == n;
      assert vs[k] in d;
    }
    NameSetWithin(d, vs);
    forall n | n in NameSet(d) ensures n !in stale {
      var k :| 0 <= k < |d| && d[k].name == n;
      assert d[k] in d;
    }
  }

  lemma PrefixNames(a: seq<Subset>, b: seq<Subset>)
    requires |a| <= |b| && b[..|a|] == a
    ensures NameSet(a) <= NameSet(b)
  {
    forall n | n in NameSet(a) ensures n in NameSet(b) {
      var k :| 0 <= k < |a| && a[k].name == n;
      assert b[k] == a[k];
    }
  }

  /** The refresh phase leaves the kept prefix refreshed and the appended part alone. */
  lemma RefreshedParts(kept: seq<Subset>, grown: seq<Subset>, after: seq<Subset>, names: set<string>,
                       held: set<string>, incoming: set<string>, conds: map<string, seq<Value>>)
    requires names <= conds.Keys && incoming <= conds.Keys
    requires forall i :: 0 <= i < |kept| ==> Wellformed(kept[i]) && kept[i].name in held
    requires |grown| >= |kept| && grown[..|kept|] == kept
    requires NewAppended(|kept|, grown, incoming, conds) && incoming !! held
    requires |after| == |grown|
    requires forall i :: 0 <= i < |after| ==>
      after[i] == if grown[i].name in names * held then Refreshed(grown[i], conds[grown[i].name]) else grown[i]
    ensures HeldRefreshed(kept, after, names, conds)
    ensures NewAppended(|kept|, after, incoming, conds)
  {
    forall i | 0 <= i < |kept| ensures after[i] == if kept[i].name in names then Refreshed(kept[i], conds[kept[i].name]) else kept[i] {
      assert grown[i] == kept[i];
    }
    forall i | |kept| <= i < |after| ensures after[i] == grown[i] {
      assert grown[i].name in incoming;
    }
  }

  /** Refreshing keeps every name in its place. */
  lemma RefreshKeepsNames(grown: seq<Subset>, after: seq<Subset>, names: set<string>, held: set<string>,
                          conds: map<string, seq<Value>>)
    requires names <= conds.Keys
    requires |after| == |grown|
    requires forall i :: 0 <= i < |grown| && grown[i].name in names * held ==> Wellformed(grown[i])
    requires forall i :: 0 <= i < |after| ==>
      after[i] == if grown[i].name in names * held then Refreshed(grown[i], conds[grown[i].name]) else grown[i]
    ensures Names(after) == Names(grown)
    ensures NameSet(after) == NameSet(grown)
  {
    assert Names(after) == Names(grown);
    forall n | n in NameSet(grown) ensures n in NameSet(after) {
      var k :| 0 <= k < |grown| && grown[k].name == n;
      assert after[k].name == n;
    }
    forall n | n in NameSet(after) ensures n in NameSet(grown) {
      var k :| 0 <= k < |after| && after[k].name == n;
      assert grown[k].name == n;
    }
  }

  /** The three phases together give a reconciled list. */
  lemma Combine(before: seq<Subset>, kept: seq<Subset>, grown: seq<Subset>, after: seq<Subset>,
                names: set<string>, loading: bool, conds: map<string, seq<Value>>)
    requires names <= conds.Keys
    requires forall i :: 0 <= i < |kept| ==> Wellformed(kept[i])
    requires kept == if loading then before else Drop(before, NameSet(before) - names)
    requires NameSet(kept) == if loading then NameSet(before) else NameSet(before) - (NameSet(before) - names)
    requires |grown| >= |kept| && grown[..|kept|] == kept
    requires NewAppended(|kept|, grown, names - NameSet(before), conds)
    requires forall n :: n in names - NameSet(before) ==> n in NameSet(grown)
    requires |after| == |grown|
    requires forall i :: 0 <= i < |after| ==>
      after[i] == if grown[i].name in names * NameSet(before) then Refreshed(grown[i], conds[grown[i].name]) else grown[i]
    ensures Reconciled(before, after, names, loading, conds)
  {
    var held := NameSet(before);
    var incoming := names - held;
    forall i | 0 <= i < |kept| ensures kept[i].name in held {
      assert kept[i].name in NameSet(kept);
    }
    forall i | |kept| <= i < |grown| ensures grown[i].name !in held {
      assert grown[i].name in incoming;
    }
    forall i | 0 <= i < |grown| && grown[i].name in names * held ensures Wellformed(grown[i]) {
      assert grown[i] == kept[i];
    }
    RefreshedParts(kept, grown, after, names, held, incoming, conds);
    RefreshKeepsNames(grown, after, names, held, conds);
    PrefixNames(kept, grown);
    assert forall n :: n in names ==> n in NameSet(after);
    if !loading {
      forall i | 0 <= i < |after| ensures after[i].name in names {
        if i < |kept| {
          assert kept[i].name in NameSet(kept);
          assert after[i].name == kept[i].name;
        } else {
          assert after[i].name in incoming;
        }
      }
    }
  }
}
