/**
 * The indicator registry of `registry.py`: for each indicator type
 * ('dataframe' or 'series') a dict from function name to function, and a
 * table of two parallel lists, the registered names and their full names.
 */
module Registry {
  import opened Common
  import opened OrderedDicts

  /**
   * A Python function as far as the registry and the accessors see it: its
   * `__name__`, its parameter names in signature order, and an identity that
   * tells apart two functions with the same name.
   */
  datatype Func = Func(name: string, params: seq<string>, id: nat)

  /** `registry_names_dict[ti_type]`: the 'Indicator' and 'Full Name' columns. */
  datatype NameTable = NameTable(indicator: seq<string>, fullName: seq<string>)

  /** The decorator `register_indicator` returns, with the arguments it has captured. */
  datatype Decorator = Decorator(tiType: string, extendedName: string)

  const TiTypes: set<string> := {"dataframe", "series"}

  /**
   * `register_indicator(ti_type, extended_name)`: reject an unknown type
   * first, then a missing full name; otherwise hand back the decorator.
   * Nothing is registered until the decorator is applied.
   */
  function RegisterIndicator(tiType: string, extendedName: Option<string>): (r: Result<Decorator>)
    ensures r.Ok? <==> tiType in TiTypes && extendedName.Some?
    ensures tiType !in TiTypes ==> r == Err("Invalid ti_type: " + tiType + ". Must be 'dataframe' or 'series'.")
    ensures tiType in TiTypes && extendedName.None? ==> r == Err("Extended Name of the indicator must be provided")
    ensures r.Ok? ==> r.value == Decorator(tiType, extendedName.value)
  {
    if tiType != "dataframe" && tiType != "series" then
      Err("Invalid ti_type: " + tiType + ". Must be 'dataframe' or 'series'.")
    else if extendedName.None? then
      Err("Extended Name of the indicator must be provided")
    else
      Ok(Decorator(tiType, extendedName.value))
  }

  /**
   * Both dicts hold exactly the two types, no function name twice in a
   * table, the two name lists of a type equally long, and every function
   * in a table listed among its type's names.
   */
  ghost predicate Consistent(funcs: map<string, Dict<Func>>, names: map<string, NameTable>)
  {
    && funcs.Keys == TiTypes && names.Keys == TiTypes
    && (forall t :: t in funcs ==> Distinct(Keys(funcs[t])))
    && (forall t :: t in names ==> |names[t].indicator| == |names[t].fullName|)
    && (forall t, n :: t in funcs && n in Keys(funcs[t]) ==> n in names[t].indicator)
  }

  /** Registering a function under a known type keeps the registries consistent. */
  lemma RegisterKeepsConsistent(funcs: map<string, Dict<Func>>, names: map<string, NameTable>,
                                t: string, f: Func, extendedName: string)
    requires Consistent(funcs, names) && t in TiTypes
    ensures Consistent(funcs[t := Put(funcs[t], f.name, f)],
                       names[t := NameTable(names[t].indicator + [f.name], names[t].fullName + [extendedName])])
  {
    var funcs' := funcs[t := Put(funcs[t], f.name, f)];
    var names' := names[t := NameTable(names[t].indicator + [f.name], names[t].fullName + [extendedName])];
    forall u, n | u in funcs' && n in Keys(funcs'[u])
      ensures n in names'[u].indicator
    {
      if u == t && n != f.name {
        assert n in Keys(funcs[t]);
      }
    }
  }

  /** The module-level registry dicts `registry_funcs_dict` and `registry_names_dict`. */
  class IndicatorRegistry {
    var funcs: map<string, Dict<Func>>
    var names: map<string, NameTable>

    ghost predicate Valid()
      reads this
    {
      Consistent(funcs, names)
    }

    /** The registries as the module creates them: both types present, nothing registered. */
    constructor ()
      ensures Valid()
      ensures funcs == map["dataframe" := [], "series" := []]
      ensures names == map["dataframe" := NameTable([], []), "series" := NameTable([], [])]
    {
      funcs := map["dataframe" := [], "series" := []];
      names := map["dataframe" := NameTable([], []), "series" := NameTable([], [])];
    }

    /**
     * The inner `decorator(func)`: store `func` under its name in its type's
     * table (overwriting an earlier function of that name), append one row to
     * the type's name table, and return `func` itself.
     */
    method Decorate(d: Decorator, f: Func) returns (g: Func)
      requires Valid() && d.tiType in TiTypes
      modifies this
      ensures Valid()
      ensures g == f
      ensures funcs == old(funcs)[d.tiType := Put(old(funcs)[d.tiType], f.name, f)]
      ensures names == old(names)[d.tiType := NameTable(old(names)[d.tiType].indicator + [f.name],
                                                         old(names)[d.tiType].fullName + [d.extendedName])]
    {
      var t := d.tiType;
      RegisterKeepsConsistent(funcs, names, t, f, d.extendedName);
      funcs := funcs[t := Put(funcs[t], f.name, f)];
      names := names[t := NameTable(names[t].indicator + [f.name], names[t].fullName + [d.extendedName])];
      g := f;
    }

    /**
     * Applying `@register_indicator(ti_type, extended_name)` to `f`: when the
     * arguments are rejected the error comes before anything is registered.
     */
    method Register(tiType: string, extendedName: Option<string>, f: Func) returns (r: Result<Func>)
      requires Valid()
      modifies this
      ensures Valid()
      ensures r.Err? <==> RegisterIndicator(tiType, extendedName).Err?
      ensures r.Err? ==> r.msg == RegisterIndicator(tiType, extendedName).msg && unchanged(this)
      ensures r.Ok? ==>
        && r.value == f
        && funcs == old(funcs)[tiType := Put(old(funcs)[tiType], f.name, f)]
        && names == old(names)[tiType := NameTable(old(names)[tiType].indicator + [f.name],
                                                   old(names)[tiType].fullName + [extendedName.value])]
    {
      var d := RegisterIndicator(tiType, extendedName);
      if d.Err? {
        return Err(d.msg);
      }
      var g := Decorate(d.value, f);
      return Ok(g);
    }
  }
}
