/**
 * OHLCV column resolution of the `ti` accessor in `ti_accessor.py`: a user
 * mapping merged over the default one (keys lower-cased), or a mapping
 * detected from the DataFrame's columns, then checked against the columns.
 * Column names are strings; a DataFrame is seen only through its column
 * names.
 */
module TiAccessor {
  import opened Common
  import opened OrderedDicts
  import opened Lists

  /** The five standard names the mapping is keyed by. */
  const OhlcvKeys: seq<string> := ["open", "high", "low", "close", "volume"]

  /** `default_mapping`. */
  const DefaultMapping: Dict<string> :=
    [("open", "Open"), ("high", "High"), ("low", "Low"), ("close", "Close"), ("volume", "Volume")]

  /** `common_variations`: the column names tried for each key, in order. */
  const CommonVariations: Dict<seq<string>> :=
    [("open", ["Open", "OPEN", "open", "O", "PriceOpen"]),
     ("high", ["High", "HIGH", "high", "H", "PriceHigh"]),
     ("low", ["Low", "LOW", "low", "L", "PriceLow"]),
     ("close", ["Close", "CLOSE", "close", "C", "PriceClose", "Adj Close"]),
     ("volume", ["Volume", "VOLUME", "volume", "Vol", "V"])]

  lemma DefaultKeys()
    ensures Keys(DefaultMapping) == OhlcvKeys && Keys(CommonVariations) == OhlcvKeys
    ensures Distinct(OhlcvKeys)
  {
    assert Keys(DefaultMapping) == OhlcvKeys;
    assert Keys(CommonVariations) == OhlcvKeys;
  }

  /** `str.lower` on one character, for ASCII letters. */
  function LowerChar(c: char): char
  {
    if 'A' <= c <= 'Z' then (c as int + 32) as char else c
  }

  /** `str.lower`, for ASCII text: upper-case letters become lower-case, nothing else changes. */
  function Lower(s: string): (r: string)
    ensures |r| == |s|
    ensures forall i :: 0 <= i < |s| ==> !('A' <= r[i] <= 'Z')
    ensures forall i :: 0 <= i < |s| && !('A' <= s[i] <= 'Z') ==> r[i] == s[i]
    ensures forall i :: 0 <= i < |s| && 'A' <= s[i] <= 'Z' ==> r[i] as int == s[i] as int + 32
  {
    seq(|s|, i requires 0 <= i < |s| => LowerChar(s[i]))
  }

  /** The user's items with their keys lower-cased, in the user's order. */
  function LowerKeys(user: Dict<string>): (items: Dict<string>)
    ensures |items| == |user|
    ensures forall i :: 0 <= i < |user| ==> items[i] == (Lower(user[i].0), user[i].1)
  {
    seq(|user|, i requires 0 <= i < |user| => (Lower(user[i].0), user[i].1))
  }

  /** The keys of the merged mapping: the standard ones, then the user's new lower-cased keys in first-occurrence order. */
  lemma MergedKeys(user: Dict<string>)
    ensures Keys(Puts(DefaultMapping, Puts([], LowerKeys(user)))) == OhlcvKeys + NewKeys(Keys(LowerKeys(user)), OhlcvKeys)
  {
    DefaultKeys();
    PutsKeys([], LowerKeys(user));
    PutsKeys(DefaultMapping, Puts([], LowerKeys(user)));
    NewKeysNested(Keys(LowerKeys(user)), OhlcvKeys);
  }

  /** Reading the merged mapping: a lower-cased user key gives the user's last value, any other key its default. */
  lemma MergedGet(user: Dict<string>)
    ensures forall k :: (Get(Puts(DefaultMapping, Puts([], LowerKeys(user))), k) ==
      if k in Keys(LowerKeys(user)) then LastGet(LowerKeys(user), k) else Get(DefaultMapping, k))
  {
    DefaultKeys();
    var lowered := Puts([], LowerKeys(user));
    forall k ensures Get(lowered, k) == LastGet(LowerKeys(user), k) {
    }
    forall k ensures Get(Puts(DefaultMapping, lowered), k) ==
      if k in Keys(LowerKeys(user)) then LastGet(LowerKeys(user), k) else Get(DefaultMapping, k)
    {
      MergeGet(DefaultMapping, lowered, k);
    }
  }

  /**
   * The user-mapping branch: `{**default_mapping, **{k.lower(): v for k, v
   * in column_mapping.items()}}`.  Every lower-cased user key takes the value
   * of the last user entry with that key, the other standard keys keep their
   * default column; the five standard keys come first, in their usual order,
   * followed by the extra user keys in the order the user first gave them.
   */
  function MergeUserMapping(user: Dict<string>): (r: Dict<string>)
    ensures forall k :: (Get(r, k) ==
      if k in Keys(LowerKeys(user)) then LastGet(LowerKeys(user), k) else Get(DefaultMapping, k))
    ensures |r| >= 5 && Keys(r)[..5] == OhlcvKeys
    ensures Keys(r)[5..] == NewKeys(Keys(LowerKeys(user)), OhlcvKeys)
    ensures forall k :: k in Keys(r) <==> k in OhlcvKeys || k in Keys(LowerKeys(user))
    ensures Distinct(Keys(r))
  {
    DefaultKeys();
    MergedKeys(user);
    MergedGet(user);
    Puts(DefaultMapping, Puts([], LowerKeys(user)))
  }

  /** The entry auto-detection makes for the `i`-th standard key. */
  function DetectedEntry(columns: seq<string>, i: int): (string, string)
    requires 0 <= i < 5
  {
    var p := FirstIn(CommonVariations[i].1, columns);
    (CommonVariations[i].0, if p.Some? then p.value else DefaultMapping[i].1)
  }

  /**
   * The mapping auto-detection builds: each standard key, in order, maps to
   * its first variation present among the columns, or to its default column
   * name when none is.
   */
  function Detected(columns: seq<string>): (r: Dict<string>)
    ensures Keys(r) == OhlcvKeys
    ensures forall i :: 0 <= i < 5 ==>
      var p := FirstIn(CommonVariations[i].1, columns);
      r[i].1 == if p.Some? then p.value else DefaultMapping[i].1
  {
    DefaultKeys();
    seq(5, i requires 0 <= i < 5 => DetectedEntry(columns, i))
  }

  /** Storing the `i`-th detected entry into the first `i` appends it. */
  lemma DetectedStep(columns: seq<string>, i: int)
    requires 0 <= i < 5
    ensures Put(Detected(columns)[..i], CommonVariations[i].0, DetectedEntry(columns, i).1) == Detected(columns)[..i + 1]
  {
    DefaultKeys();
    var d := Detected(columns);
    assert Keys(d[..i]) == OhlcvKeys[..i];
    assert CommonVariations[i].0 == OhlcvKeys[i] && OhlcvKeys[i] !in OhlcvKeys[..i];
    assert d[..i + 1] == d[..i] + [DetectedEntry(columns, i)];
  }

  /** Every detected column is present in the DataFrame unless it is the default for a key none of whose variations is. */
  lemma DetectedPresentOrDefault(columns: seq<string>, i: int)
    requires 0 <= i < 5
    ensures Detected(columns)[i].1 in columns
         || (Detected(columns)[i].1 == DefaultMapping[i].1
             && forall v :: v in CommonVariations[i].1 ==> v !in columns)
  {
  }

  /** Whether `_initialize_column_mapping` takes the user branch: a mapping given and not empty. */
  predicate UsesUserMapping(user: Option<Dict<string>>)
  {
    user.Some? && user.value != []
  }

  /**
   * The mapping `_initialize_column_mapping` returns: with a non-empty user
   * mapping, the defaults overridden by the user's lower-cased keys, extra
   * keys after the standard ones in the user's order; otherwise the detected
   * mapping, each standard key bound to its first variation present among
   * the columns, or to its default when none of its variations is.
   */
  function InitialMapping(columns: seq<string>, user: Option<Dict<string>>): (r: Dict<string>)
    ensures |r| >= 5 && Keys(r)[..5] == OhlcvKeys && Distinct(Keys(r))
    ensures UsesUserMapping(user) ==> forall k :: (Get(r, k) ==
      if k in Keys(LowerKeys(user.value)) then LastGet(LowerKeys(user.value), k) else Get(DefaultMapping, k))
    ensures UsesUserMapping(user) ==> Keys(r)[5..] == NewKeys(Keys(LowerKeys(user.value)), OhlcvKeys)
    ensures !UsesUserMapping(user) ==> r == Detected(columns)
    ensures !UsesUserMapping(user) ==> Keys(r) == OhlcvKeys
    ensures !UsesUserMapping(user) ==> forall i :: 0 <= i < 5 ==>
      r[i].1 in columns || (r[i].1 == DefaultMapping[i].1 && forall v :: v in CommonVariations[i].1 ==> v !in columns)
  {
    DefaultKeys();
    if UsesUserMapping(user) then MergeUserMapping(user.value)
    else
      var d := Detected(columns);
      assert Keys(d)[..5] == OhlcvKeys;
      forall i | 0 <= i < 5
        ensures d[i].1 in columns || (d[i].1 == DefaultMapping[i].1 && forall v :: v in CommonVariations[i].1 ==> v !in columns)
      {
        DetectedPresentOrDefault(columns, i);
      }
      d
  }

  /** The mapped column names missing from the DataFrame, in the mapping's order. */
  function MissingColumns(mapping: Dict<string>, columns: seq<string>): (missing: seq<string>)
    ensures forall c :: c in missing <==> c !in columns && exists i :: 0 <= i < |mapping| && mapping[i].1 == c
    ensures |missing| <= |mapping|
  {
    if mapping == [] then []
    else
      var n := |mapping| - 1;
      var pre := MissingColumns(mapping[..n], columns);
      assert forall i :: 0 <= i < n ==> mapping[..n][i] == mapping[i];
      pre + if mapping[n].1 in columns then [] else [mapping[n].1]
  }

  /** Mappings side by side report their missing columns side by side: the report keeps the mapping's order. */
  lemma {:induction false} MissingColumnsAppend(a: Dict<string>, b: Dict<string>, columns: seq<string>)
    ensures MissingColumns(a + b, columns) == MissingColumns(a, columns) + MissingColumns(b, columns)
    decreases |b|
  {
    if b != [] {
      var n := |b| - 1;
      assert (a + b)[..|a + b| - 1] == a + b[..n];
      MissingColumnsAppend(a, b[..n], columns);
    } else {
      assert a + b == a;
    }
  }

  /** `', '.join(parts)`. */
  function Join(parts: seq<string>, sep: string): string
  {
    if parts == [] then ""
    else if |parts| == 1 then parts[0]
    else parts[0] + sep + Join(parts[1..], sep)
  }

  /** `_validate_columns`: raise, naming every missing column, iff some mapped column is not in the DataFrame. */
  function ValidateColumns(mapping: Dict<string>, columns: seq<string>): (o: Outcome)
    ensures o.Fail? <==> exists i :: 0 <= i < |mapping| && mapping[i].1 !in columns
    ensures o.Fail? ==> o.msg == "Missing required columns: " + Join(MissingColumns(mapping, columns), ", ")
                                 + ". Ensure the DataFrame contains these columns or provide a valid column_mapping."
  {
    var missing := MissingColumns(mapping, columns);
    if missing == [] then Pass
    else
      assert missing[0] in missing;
      Fail("Missing required columns: " + Join(missing, ", ")
           + ". Ensure the DataFrame contains these columns or provide a valid column_mapping.")
  }

  /** Auto-detection never reports a missing column unless some standard key has no variation among the columns. */
  lemma DetectedValidWhenAllFound(columns: seq<string>)
    requires forall i :: 0 <= i < 5 ==> exists v :: v in CommonVariations[i].1 && v in columns
    ensures ValidateColumns(Detected(columns), columns) == Pass
  {
    var d := Detected(columns);
    assert |d| == 5 by { assert |Keys(d)| == |OhlcvKeys|; }
    forall i | 0 <= i < |d| ensures d[i].1 in columns {
      DetectedPresentOrDefault(columns, i);
    }
    assert !ValidateColumns(d, columns).Fail?;
  }

  /** The `ti` accessor of `ti_accessor.py`, holding the DataFrame's columns and the current mapping. */
  class TechnicalIndicatorsAccessor {
    const columns: seq<string>
    var columnMapping: Dict<string>

    /** `__init__` up to the validation: resolve the mapping. */
    constructor (columns: seq<string>, user: Option<Dict<string>>)
      ensures this.columns == columns
      ensures columnMapping == InitialMapping(columns, user)
    {
      this.columns := columns;
      new;
      columnMapping := InitializeColumnMapping(user);
    }

    /**
     * `_initialize_column_mapping`: the merged user mapping when one is
     * given and not empty, otherwise the mapping detected by trying each
     * key's variations in order.
     */
    method InitializeColumnMapping(user: Option<Dict<string>>) returns (m: Dict<string>)
      ensures m == InitialMapping(columns, user)
    {
      if UsesUserMapping(user) {
        return MergeUserMapping(user.value);
      }
      m := [];
      var i := 0;
      while i < |CommonVariations|
        invariant 0 <= i <= 5
        invariant m == Detected(columns)[..i]
      {
        var (key, variations) := CommonVariations[i];
        var found := FindFirstIn(variations, columns);
        DetectedStep(columns, i);
        if found.Some? {
          m := Put(m, key, found.value);
        } else {
          m := Put(m, key, DefaultMapping[i].1);
        }
        i := i + 1;
      }
      assert Detected(columns)[..5] == Detected(columns);
    }

    /** `_validate_columns` on the current mapping. */
    method Validate() returns (o: Outcome)
      ensures o == ValidateColumns(columnMapping, columns)
    {
      o := ValidateColumns(columnMapping, columns);
    }

    /** `set_column_mapping`: the mapping is replaced first, so it stays replaced even when the validation then fails. */
    method SetColumnMapping(user: Dict<string>)
      returns (o: Outcome)
      modifies this
      ensures columnMapping == InitialMapping(columns, Some(user))
      ensures o == ValidateColumns(columnMapping, columns)
    {
      columnMapping := InitializeColumnMapping(Some(user));
      o := Validate();
    }

    /** The `column_mapping` property. */
    method ColumnMapping() returns (m: Dict<string>)
      ensures m == columnMapping
    {
      m := columnMapping;
    }
  }

  /**
   * Creating the accessor: `ValueError` when the resolved mapping names a
   * column the DataFrame lacks, otherwise the accessor holding that mapping.
   */
  method NewAccessor(columns: seq<string>, user: Option<Dict<string>>) returns (r: Result<TechnicalIndicatorsAccessor>)
    ensures r.Err? <==> ValidateColumns(InitialMapping(columns, user), columns).Fail?
    ensures r.Err? ==> r.msg == ValidateColumns(InitialMapping(columns, user), columns).msg
    ensures r.Ok? ==> fresh(r.value) && r.value.columns == columns
                      && r.value.columnMapping == InitialMapping(columns, user)
  {
    var a := new TechnicalIndicatorsAccessor(columns, user);
    var o := a.Validate();
    if o.Fail? {
      return Err(o.msg);
    }
    return Ok(a);
  }
}
