/**
 * The `ti` accessor of `accessor_dataframe.py`: it binds each OHLCV name to
 * the first DataFrame column spelled as one of that name's variations, then
 * binds every registered dataframe indicator as a method that fills in the
 * OHLCV arguments it needs from those bindings.  The accessor's dynamic
 * attributes are a map from attribute name to value.
 */
module AccessorDataFrame {
  import opened Common
  import opened OrderedDicts
  import opened Lists
  import opened Registry
  import TiAccessor

  /** `COLUMN_VARIATIONS`: for each OHLCV name, the column spellings it accepts. */
  const ColumnVariations: Dict<seq<string>> :=
    [("Open", ["Open", "OPEN", "open", "O", "o"]),
     ("High", ["High", "HIGH", "high", "H", "h"]),
     ("Low", ["Low", "LOW", "low", "L", "l"]),
     ("Close", ["Close", "CLOSE", "close", "C", "c"]),
     ("Volume", ["Volume", "VOLUME", "volume", "Vol", "vol", "V", "v"])]

  const OhlcvNames: seq<string> := ["Open", "High", "Low", "Close", "Volume"]

  lemma OhlcvNamesDistinct()
    ensures Keys(ColumnVariations) == OhlcvNames && Distinct(OhlcvNames)
  {
    assert Keys(ColumnVariations) == OhlcvNames;
  }

  /**
   * A value an attribute or a keyword argument can hold: a DataFrame column
   * (`df[col]`, named by its label), an indicator bound as a method together
   * with the OHLCV parameters it takes, or any other object a caller passes.
   */
  datatype Value = Column(col: string) | BoundMethod(func: Func, required: seq<string>) | Object(id: nat)

  /**
   * The column bindings `_map_columns` makes for the first `n` OHLCV names:
   * a name is bound iff some column is one of its variations, and then to
   * the first such column in the DataFrame's column order.
   */
  function ColumnBindings(columns: seq<string>, n: nat): (r: map<string, Value>)
    requires n <= 5
    ensures forall i :: 0 <= i < n ==>
      (ColumnVariations[i].0 in r <==> FirstIn(columns, ColumnVariations[i].1).Some?)
    ensures forall i :: 0 <= i < n && ColumnVariations[i].0 in r ==>
      r[ColumnVariations[i].0] == Column(FirstIn(columns, ColumnVariations[i].1).value)
    ensures forall k :: k in r ==> k in OhlcvNames[..n]
  {
    if n == 0 then map[]
    else
      var pre := ColumnBindings(columns, n - 1);
      var (key, variations) := ColumnVariations[n - 1];
      OhlcvNamesDistinct();
      assert key == OhlcvNames[n - 1];
      assert OhlcvNames[..n] == OhlcvNames[..n - 1] + [key];
      assert forall i :: 0 <= i < n - 1 ==> ColumnVariations[i].0 != key by {
        forall i | 0 <= i < n - 1
          ensures ColumnVariations[i].0 != key
        {
          assert ColumnVariations[i].0 == OhlcvNames[i];
        }
      }
      var found := FirstIn(columns, variations);
      if found.Some? then pre[key := Column(found.value)] else pre
  }

  /** Binding the next OHLCV name: added when some column matches, nothing otherwise. */
  lemma ColumnBindingsStep(columns: seq<string>, i: nat)
    requires i < 5
    ensures ColumnBindings(columns, i + 1) ==
      var found := FirstIn(columns, ColumnVariations[i].1);
      if found.Some? then ColumnBindings(columns, i)[ColumnVariations[i].0 := Column(found.value)]
      else ColumnBindings(columns, i)
  {
  }

  /** Setting an attribute after a batch of bindings is binding the updated batch. */
  lemma UnionUpdate(a: map<string, Value>, b: map<string, Value>, k: string, v: Value)
    ensures a + b[k := v] == (a + b)[k := v]
  {
  }

  /** All of `_map_columns`' bindings. */
  function Bindings(columns: seq<string>): map<string, Value>
  {
    ColumnBindings(columns, 5)
  }

  /** `required_ohlcv`: the parameters that are OHLCV names, in signature order. */
  function RequiredOhlcv(params: seq<string>): (r: seq<string>)
    ensures forall x :: x in r <==> x in params && x in OhlcvNames
    ensures |r| <= |params|
  {
    OhlcvNamesDistinct();
    if params == [] then []
    else
      var n := |params| - 1;
      assert params == params[..n] + [params[n]];
      RequiredOhlcv(params[..n]) + if params[n] in OhlcvNames then [params[n]] else []
  }

  /** The filter keeps the order of the signature: it distributes over concatenation. */
  lemma {:induction false} RequiredOhlcvAppend(a: seq<string>, b: seq<string>)
    ensures RequiredOhlcv(a + b) == RequiredOhlcv(a) + RequiredOhlcv(b)
    decreases |b|
  {
    if b == [] {
      assert a + b == a;
    } else {
      var n := |b| - 1;
      assert (a + b)[..|a + b| - 1] == a + b[..n];
      RequiredOhlcvAppend(a, b[..n]);
    }
  }

  /** The items of the comprehension: each required name the accessor has as an attribute, with that attribute. */
  function InjectedItems(required: seq<string>, attrs: map<string, Value>): (items: Dict<Value>)
    ensures forall k :: k in Keys(items) <==> k in required && k in attrs
    ensures forall i :: 0 <= i < |items| ==> items[i].0 in attrs && items[i].1 == attrs[items[i].0]
  {
    if required == [] then []
    else
      var n := |required| - 1;
      assert required == required[..n] + [required[n]];
      var pre := InjectedItems(required[..n], attrs);
      var items := pre + if required[n] in attrs then [(required[n], attrs[required[n]])] else [];
      assert Keys(items) == Keys(pre) + if required[n] in attrs then [required[n]] else [];
      items
  }

  /** Every item of the comprehension for `k` carries the attribute `k`, so the last one does too. */
  lemma {:induction false} InjectedGet(required: seq<string>, attrs: map<string, Value>, k: string)
    ensures LastGet(InjectedItems(required, attrs), k) == if k in required && k in attrs then Some(attrs[k]) else None
    decreases |required|
  {
    if required != [] {
      var m := |required| - 1;
      var last := required[m];
      var pre := InjectedItems(required[..m], attrs);
      InjectedGet(required[..m], attrs, k);
      assert k in required <==> k in required[..m] || k == last by {
        assert required == required[..m] + [last];
      }
      if last in attrs {
        assert InjectedItems(required, attrs) == pre + [(last, attrs[last])];
        LastGetSnoc(pre, last, attrs[last], k);
      } else {
        assert InjectedItems(required, attrs) == pre;
      }
    }
  }

  /**
   * `call_kwargs` of the bound method: the comprehension over the required
   * OHLCV names, updated with the caller's keyword arguments.
   */
  function CallKwargs(required: seq<string>, attrs: map<string, Value>, kwargs: Dict<Value>): (r: Dict<Value>)
    requires Distinct(Keys(kwargs))
    ensures forall k :: (Get(r, k) ==
      if k in Keys(kwargs) then Get(kwargs, k)
      else if k in required && k in attrs then Some(attrs[k])
      else None)
    ensures forall k :: k in Keys(r) <==> k in Keys(kwargs) || (k in required && k in attrs)
    ensures Distinct(Keys(r))
  {
    var injected := Puts([], InjectedItems(required, attrs));
    forall k ensures Get(Puts(injected, kwargs), k) ==
      if k in Keys(kwargs) then Get(kwargs, k)
      else if k in required && k in attrs then Some(attrs[k])
      else None
    {
      MergeGet(injected, kwargs, k);
      InjectedGet(required, attrs, k);
    }
    Puts(injected, kwargs)
  }

  /** The method `create_method(func)` builds for an indicator. */
  function MethodFor(f: Func): (m: Value)
    ensures m.BoundMethod? && m.func == f
    ensures forall x :: x in m.required <==> x in f.params && x in OhlcvNames
  {
    BoundMethod(f, RequiredOhlcv(f.params))
  }

  /**
   * The method bindings `_add_registry_methods` makes, item by item in the
   * registry's order: every registered name is bound, to the method made
   * from the last function stored under it.
   */
  function MethodBindings(registry: Dict<Func>): (r: map<string, Value>)
    ensures forall k :: k in r <==> k in Keys(registry)
    ensures forall k :: k in r ==> r[k] == MethodFor(LastGet(registry, k).value)
  {
    if registry == [] then map[]
    else
      var n := |registry| - 1;
      assert Keys(registry) == Keys(registry[..n]) + [registry[n].0];
      MethodBindings(registry[..n])[registry[n].0 := MethodFor(registry[n].1)]
  }

  /** For a registry table (no name twice) each name is bound to the method of the function stored under it. */
  lemma MethodBindingsOfTable(registry: Dict<Func>, k: string)
    requires Distinct(Keys(registry)) && k in Keys(registry)
    ensures k in MethodBindings(registry) && MethodBindings(registry)[k] == MethodFor(Get(registry, k).value)
  {
    LastGetOfDict(registry, k);
  }

  /**
   * Over one list of spellings, the first column (in the DataFrame's order)
   * that is a spelling and the first spelling (in list order) that is a
   * column coincide when at most one spelling is among the columns.
   */
  lemma ScanOrdersAgree(columns: seq<string>, variations: seq<string>)
    requires forall a, b :: a in variations && b in variations && a in columns && b in columns ==> a == b
    ensures FirstIn(columns, variations) == FirstIn(variations, columns)
  {
  }

  /**
   * The two detections of an OHLCV name: `_map_columns` binds the first
   * column in the DataFrame's order that is one of this accessor's
   * spellings, the `ti` column mapping takes the first of its own spellings
   * (in list order) that is a column, or its default.  The `i`-th entries of
   * the two spelling lists name the same price.  When every spelling present
   * among the columns is in both lists and at most one is present, the two
   * pick the same column; when none is present the `ti` mapping falls back
   * to its default.
   */
  lemma DetectionsAgree(columns: seq<string>, i: int)
    requires 0 <= i < 5
    requires forall c :: c in columns && c in ColumnVariations[i].1 ==> c in TiAccessor.CommonVariations[i].1
    requires forall c :: c in columns && c in TiAccessor.CommonVariations[i].1 ==> c in ColumnVariations[i].1
    requires forall a, b :: a in columns && b in columns && a in ColumnVariations[i].1 && b in ColumnVariations[i].1 ==> a == b
    ensures FirstIn(columns, ColumnVariations[i].1).Some? ==>
      TiAccessor.Detected(columns)[i].1 == FirstIn(columns, ColumnVariations[i].1).value
    ensures FirstIn(columns, ColumnVariations[i].1).None? ==>
      TiAccessor.Detected(columns)[i].1 == TiAccessor.DefaultMapping[i].1
  {
  }

  /**
   * The two detections differ in general: with columns `high` and `High`
   * this accessor binds `high` (first in the DataFrame) and the `ti` mapping
   * `High` (first in its list); with the single column `h`, a spelling only
   * this accessor knows, it binds `h` while the `ti` mapping keeps its
   * default `High`.
   */
  lemma DetectionsDiffer()
    ensures FirstIn(["high", "High"], ColumnVariations[1].1) == Some("high")
    ensures TiAccessor.Detected(["high", "High"])[1].1 == "High"
    ensures FirstIn(["h"], ColumnVariations[1].1) == Some("h")
    ensures TiAccessor.Detected(["h"])[1].1 == "High"
  {
  }

  /** `DataframeTechnicalIndicatorsAccessor`, seen through the attributes it sets on itself. */
  class DataframeAccessor {
    const columns: seq<string>
    var attrs: map<string, Value>

    /** `__init__`: map the columns, then add the methods of the registry's dataframe table. */
    constructor (columns: seq<string>, registry: IndicatorRegistry)
      requires registry.Valid()
      ensures this.columns == columns
      ensures attrs == Bindings(columns) + MethodBindings(registry.funcs["dataframe"])
    {
      this.columns := columns;
      attrs := map[];
      new;
      MapColumns();
      assert attrs == Bindings(columns);
      AddRegistryMethods(registry.funcs["dataframe"]);
    }

    /** `_map_columns`: for each OHLCV name in turn, scan the columns and bind the first that matches. */
    method MapColumns()
      modifies this
      ensures attrs == old(attrs) + Bindings(columns)
    {
      var i := 0;
      while i < |ColumnVariations|
        invariant 0 <= i <= 5
        invariant attrs == old(attrs) + ColumnBindings(columns, i)
      {
        var (key, variations) := ColumnVariations[i];
        var found := FindFirstIn(columns, variations);
        ColumnBindingsStep(columns, i);
        if found.Some? {
          UnionUpdate(old(attrs), ColumnBindings(columns, i), key, Column(found.value));
          attrs := attrs[key := Column(found.value)];
        }
        i := i + 1;
      }
    }

    /** `_add_registry_methods`: bind every function of the table, in order, as a method. */
    method AddRegistryMethods(registry: Dict<Func>)
      modifies this
      ensures attrs == old(attrs) + MethodBindings(registry)
    {
      var i := 0;
      while i < |registry|
        invariant 0 <= i <= |registry|
        invariant attrs == old(attrs) + MethodBindings(registry[..i])
      {
        var (name, f) := registry[i];
        assert registry[..i + 1][..i] == registry[..i];
        assert MethodBindings(registry[..i + 1]) == MethodBindings(registry[..i])[name := MethodFor(f)];
        UnionUpdate(old(attrs), MethodBindings(registry[..i]), name, MethodFor(f));
        attrs := attrs[name := MethodFor(f)];
        i := i + 1;
      }
      assert registry[..i] == registry;
    }

    /**
     * Calling the method bound under `name` with keyword arguments `kwargs`:
     * the indicator function it wraps and the keyword arguments it passes.
     */
    method Call(name: string, kwargs: Dict<Value>) returns (f: Func, args: Dict<Value>)
      requires name in attrs && attrs[name].BoundMethod?
      requires Distinct(Keys(kwargs))
      ensures f == attrs[name].func
      ensures args == CallKwargs(attrs[name].required, attrs, kwargs)
    {
      var m := attrs[name];
      f := m.func;
      args := CallKwargs(m.required, attrs, kwargs);
    }
  }
}
