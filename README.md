# pandas_ti core in Dafny

This project models the stateful core of the `pandas_ti` technical-indicator
package and proves properties of it:

- **The online ZigZag pivot detector** (`ZigZagClass`) and the `ZigZag`
  indicator that feeds it one bar at a time. The detector is a three-state
  machine: bootstrapping, last pivot a High, or last pivot a Low. For each bar
  it records a history row and skips invalid bars. It then updates the
  running swing high and swing low, and tests one threshold inequality that
  may confirm the earlier swing as a pivot. A confirmed pivot is written back
  into an earlier history row through the index-to-position map.
  - `ZigZagModel` (`zigzag_model.dfy`) states each step as a function on a
    `State` value, with the invariant `Valid` that every step preserves.
  - `ZigZag` (`zigzag.dfy`) is the class whose methods update fields in
    place. Each method is proved to move the object exactly as the model
    function moves a `State`.
  - `ZigZagProps` (`zigzag_props.dfy`) proves facts about whole runs:
    - bars are recorded as given;
    - processing is online;
    - the confirmed pivots alternate High/Low, each at least `pct` away from
      the one before;
    - while bootstrapping, the swings are the running extremes.
- **The indicator registry** (`registry.dfy`). `register_indicator` validates
  its arguments. Its decorator stores the function under its name and
  appends a row to the type's name table.
- **OHLCV column resolution of the `ti` accessor** (`ti_accessor.dfy`). It
  either merges a user mapping over the default one (keys lower-cased) or
  auto-detects columns through lists of spelling variations. It then reports
  the mapped columns the DataFrame lacks.
- **Column binding and argument injection of the DataFrame `ti` accessor**
  (`accessor_dataframe.dfy`). Each OHLCV name is bound to the first matching
  column. Each registered dataframe indicator becomes a method that injects
  the bound columns it needs, with explicit keyword arguments taking
  precedence.

Python dicts keep insertion order, and the code relies on it. They are
modelled as association lists (`OrderedDicts.Dict`). Generic "first match"
search is `Lists.FirstIn` (`common.dfy`); both accessors scan for it with
`Lists.FindFirstIn`.

Prices are `Float = NaN | NegInf | PosInf | Fin(real)`. The infinities are the
detector's swing sentinels. NaN marks an invalid bar and an unconfirmed row.

Three behaviours of the detector's bootstrap that a reader might not expect:
- **Timing of the first pivot.** A bootstrap pivot is confirmed on the very
  bar where the threshold is first reached. With `pct = 0.05` and bars
  (0, 100, 99) and (1, 110, 109), the Low 99 is confirmed at bar 1.
- **Candidate after a confirming bootstrap bar.** The candidate is the swing
  that was just reset, that is the sentinel at the current bar. It is not
  the other extreme.
- **The bootstrap "down" test is the corrected one.** The code as written
  requires the change from the swing high to the swing low to reach `pct`,
  which a fall can never do. The model confirms the High once the fall
  itself reaches `pct`, as the Low branch after a pivot does; see
  "## Findings".

## Model

Source paths are relative to the repository root.

| member | source | states |
|---|---|---|
| Lists.FirstIn | src/pandas_ti/ti_accessor.py:81-84 | The match found is in both lists. None iff no element is in the pool. Every element before the match is outside the pool, so it is the first match. |
| Lists.FindFirstIn | src/pandas_ti/accessor_dataframe.py:60-63 | The scan that stops at the first element found in the pool returns exactly `FirstIn`: that element, or none when no element is in the pool. |
| OrderedDicts.Get | src/pandas_ti/ti_accessor.py:86 | None iff the key is absent. In a dict without repeated keys it is the value stored with the key. |
| OrderedDicts.Put | src/pandas_ti/registry.py:62 | `d[k] = v`: afterwards `k` reads `v` and every other key reads as before. The key order is kept, or `k` is appended at the end. No key is repeated. |
| OrderedDicts.NewKeys | src/pandas_ti/ti_accessor.py:69 | The keys not already present: exactly those of the list that are not in `seen`, each once, in order of first occurrence. |
| OrderedDicts.NewKeysNested | src/pandas_ti/ti_accessor.py:69 | Removing duplicates and then the keys in `seen` gives the same list as doing both at once. |
| OrderedDicts.Puts | src/pandas_ti/ti_accessor.py:69 | Storing items in turn: a key among the items reads its last item's value, every other key reads as before. The existing keys keep their order and come first. No key is repeated. |
| OrderedDicts.PutsKeys | src/pandas_ti/ti_accessor.py:69 | After storing the items, the keys are the dict's own keys followed by the items' new keys in order of first occurrence. |
| OrderedDicts.LastGetOfDict | src/pandas_ti/ti_accessor.py:69 | In a dict the last item with a key is its only one. |
| OrderedDicts.MergeGet | src/pandas_ti/accessor_dataframe.py:42 | `a.update(b)` / `{**a, **b}`: the keys of `b` read `b`'s values, all others read `a`'s. |
| ZigZagModel.PctChange | src/pandas_ti/indicators_dataframe/ZigZag.py:142-145 | `(new - reference) / reference` on floats: a finite move gives `r * reference == new - reference`. NaN iff the move is NaN. With a positive reference, the infinities keep their sign. |
| ZigZagModel.RisesBy | src/pandas_ti/indicators_dataframe/ZigZag.py:230-231 | The change test `change >= pct` passes iff the rise is at least `pct` times the positive reference. |
| ZigZagModel.FallsBy | src/pandas_ti/indicators_dataframe/ZigZag.py:261-262 | The negated change passes `>= pct` iff the fall is at least `pct` times the positive reference. |
| ZigZagModel.RiseTest | src/pandas_ti/indicators_dataframe/ZigZag.py:250-251 | `change >= pct` for the rise from the low swing holds iff the high is finite and `(swing_high - swing_low) / swing_low >= pct`. |
| ZigZagModel.FallTest | src/pandas_ti/indicators_dataframe/ZigZag.py:261-262 | The negated change from the high swing reaches `pct` iff the low is finite and `(swing_high - swing_low) / swing_high >= pct`. |
| ZigZagModel.Init | src/pandas_ti/indicators_dataframe/ZigZag.py:67-86 | Rejected iff `pct <= 0`. Otherwise: a valid state with no pivot, `swing_high = -inf`, `swing_low = +inf`, no candidate, empty history and trace. |
| ZigZagModel.AppendRow | src/pandas_ti/indicators_dataframe/ZigZag.py:95-102 | Appends exactly the row `(idx, high, low, NaN, None)`. The index now points at that last row. Nothing else changes, and the invariant is kept. |
| ZigZagModel.BootstrapSwings | src/pandas_ti/indicators_dataframe/ZigZag.py:151-157 | Both swings update independently: the new high is the max of the old swing and the bar's high, the new low the min. An index moves only on a strict improvement. Nothing else changes. |
| ZigZagModel.SwingsAfterHigh | src/pandas_ti/indicators_dataframe/ZigZag.py:160-167 | A lower low is checked first: it moves the low and resets the high to `-inf` at this bar. Only otherwise may a higher high move the high. |
| ZigZagModel.SwingsAfterLow | src/pandas_ti/indicators_dataframe/ZigZag.py:170-177 | A higher high is checked first: it moves the high and resets the low to `+inf` at this bar. Only otherwise may a lower low move the low. |
| ZigZagModel.ResetSwing | src/pandas_ti/indicators_dataframe/ZigZag.py:179-186 | Only the swing of the given kind and its index change: the swing goes back to its sentinel (`-inf` for High, `+inf` for Low), at the given index. The other swing is untouched. |
| ZigZagModel.UpdateSwings | src/pandas_ti/indicators_dataframe/ZigZag.py:148-177 | Changes only the swings and their indices. It leaves both swings seen and recorded, ready for the confirmation test. |
| ZigZagModel.ConfirmPivot | src/pandas_ti/indicators_dataframe/ZigZag.py:189-200 | Writes price and type into the row the index maps to. Sets the last confirmed type, price and index. Sets `confirmed` and clears the candidate. Nothing else changes. |
| ZigZagModel.ConfirmLow | src/pandas_ti/indicators_dataframe/ZigZag.py:252-253 | Confirming the swing low keeps the invariant. It records the Low at the swing low's index, writes it into that row and resets the low to `+inf` at the current bar. The high and the index map are untouched. |
| ZigZagModel.ConfirmHigh | src/pandas_ti/indicators_dataframe/ZigZag.py:263-264 | The mirror of ConfirmLow for the swing high (`-inf` sentinel). |
| ZigZagModel.SettleLow | src/pandas_ti/indicators_dataframe/ZigZag.py:249-255 | The rise test shared by the bootstrap "up" case and the case after a High. It confirms iff the high is finite and `(swing_high - swing_low) / swing_low >= pct`; a confirmation records the low swing at its index, writes its row and resets the low. Otherwise nothing but the candidate changes. Either way the candidate ends as the current low swing. |
| ZigZagModel.SettleHigh | src/pandas_ti/indicators_dataframe/ZigZag.py:260-266 | The mirror fall test, shared by the corrected bootstrap "down" case and the case after a Low. It confirms iff the low is finite and `(swing_high - swing_low) / swing_high >= pct`. |
| ZigZagModel.EvaluateBootstrap | src/pandas_ti/indicators_dataframe/ZigZag.py:226-244 | Equal swing indices: only `confirmed` is cleared and the candidate is untouched. No confirmation: only `confirmed` and the candidate change. A confirmation records the swing named by the new type, at its index, written into its row. The candidate is then that type's reset sentinel at the current bar. Uses the corrected bootstrap down test. |
| ZigZagModel.BootstrapUp | src/pandas_ti/indicators_dataframe/ZigZag.py:229-235 | Confirms (a Low) iff `(swing_high - swing_low) / swing_low >= pct`. The candidate ends as the current low swing. |
| ZigZagModel.BootstrapDown | src/pandas_ti/indicators_dataframe/ZigZag.py:238-244 | Corrected: confirms (a High) iff `(swing_high - swing_low) / swing_high >= pct`. The candidate ends as the current high swing. |
| ZigZagModel.EvaluateAfterHigh | src/pandas_ti/indicators_dataframe/ZigZag.py:249-255 | Confirms a Low iff the high is finite and `(swing_high - swing_low) / swing_low >= pct`. The candidate ends as the current low swing. Otherwise only `confirmed` and the candidate change. |
| ZigZagModel.EvaluateAfterLow | src/pandas_ti/indicators_dataframe/ZigZag.py:260-266 | Confirms a High iff the low is finite and `(swing_high - swing_low) / swing_high >= pct`. The candidate ends as the current high swing. |
| ZigZagModel.Evaluate | src/pandas_ti/indicators_dataframe/ZigZag.py:224-266 | Keeps the invariant. A confirmation after a pivot has the opposite type. The confirmed price and index are the swing of that type, written into its row, and the candidate is that type's reset sentinel at the current bar. After a High the candidate is the swing low, after a Low the swing high. Without confirmation only `confirmed` and the candidate change. Uses the corrected bootstrap down test. |
| ZigZagModel.Advance | src/pandas_ti/indicators_dataframe/ZigZag.py:216-266 | A valid bar appends its blank row and maps its index. Without confirmation nothing else in the history or last pivot changes. With one, only the pivot's row is written, and the candidate is the reset sentinel at this bar. A pivot after a pivot has the opposite type and at least the `pct` gap. While bootstrapping, the swings are the max/min including the bar. Uses the corrected bootstrap down test. |
| ZigZagModel.TraceRow | src/pandas_ti/indicators_dataframe/ZigZag.py:115-135 | `_debug_state`'s snapshot copies the bar, both swings with their indices, the candidate, `confirmed` and the last type. The last confirmed price and index are the state's when `confirmed`, and missing (NaN) otherwise. |
| ZigZagModel.Step | src/pandas_ti/indicators_dataframe/ZigZag.py:203-270 | `update`: an invalid bar (NaN or `high < low`) only appends its row and maps its index. A valid bar is `Advance`, plus one trace row iff debugging. The invariant is kept. Uses the corrected bootstrap down test. |
| ZigZagModel.Run | src/pandas_ti/indicators_dataframe/ZigZag.py:324-325 | Feeding bars in turn keeps the invariant and the settings, and adds exactly one row per bar. Uses the corrected bootstrap down test. |
| ZigZagModel.Pivots | src/pandas_ti/indicators_dataframe/ZigZag.py:108-112 | Every row contributes its index and ZigZag value, except rows at the candidate's index, which carry the candidate's price. With no candidate, a `(None, NaN)` point is appended. |
| ZigZag.ZigZagDetector.constructor | src/pandas_ti/indicators_dataframe/ZigZag.py:70-92 | The fields hold the initial state and satisfy the invariant. |
| ZigZag.ZigZagDetector.UpdateDf | src/pandas_ti/indicators_dataframe/ZigZag.py:95-102 | The object moves as `AppendRow`. |
| ZigZag.ZigZagDetector.ResetSwings | src/pandas_ti/indicators_dataframe/ZigZag.py:179-186 | Only the swing of the given kind changes: back to its sentinel, at the given index. |
| ZigZag.ZigZagDetector.UpdateSwings | src/pandas_ti/indicators_dataframe/ZigZag.py:148-177 | The object moves as `UpdateSwings`. |
| ZigZag.ZigZagDetector.ConfirmPivot | src/pandas_ti/indicators_dataframe/ZigZag.py:189-200 | The object moves as `ConfirmPivot`. |
| ZigZag.ZigZagDetector.DebugState | src/pandas_ti/indicators_dataframe/ZigZag.py:115-135 | Only the trace changes, by one snapshot row of the state before the call. |
| ZigZag.ZigZagDetector.Evaluate | src/pandas_ti/indicators_dataframe/ZigZag.py:224-266 | The object moves as `Evaluate`. Uses the corrected bootstrap down test. |
| ZigZag.ZigZagDetector.SettleLow | src/pandas_ti/indicators_dataframe/ZigZag.py:249-255 | The object moves as `SettleLow`. |
| ZigZag.ZigZagDetector.SettleHigh | src/pandas_ti/indicators_dataframe/ZigZag.py:260-266 | The object moves as `SettleHigh`. |
| ZigZag.ZigZagDetector.Update | src/pandas_ti/indicators_dataframe/ZigZag.py:203-270 | The object keeps the invariant and moves as `Step`. Uses the corrected bootstrap down test. |
| ZigZag.NewDetector | src/pandas_ti/indicators_dataframe/ZigZag.py:67-69 | `ValueError("pct must be > 0")` iff `pct <= 0`. Otherwise a fresh detector in the initial state. |
| ZigZag.ZigZag | src/pandas_ti/indicators_dataframe/ZigZag.py:319-326 | Error iff `pct <= 0`. Otherwise the pivots of running a fresh non-debug detector over the bars in order. Uses the corrected bootstrap down test. |
| ZigZagProps.StepRecordsBar | src/pandas_ti/indicators_dataframe/ZigZag.py:217-219 | Every `update`, valid bar or not, adds exactly its bar as the last row. Earlier rows keep their index, high and low. |
| ZigZagProps.RunRecordsBars | src/pandas_ti/indicators_dataframe/ZigZag.py:324-325 | After a run the rows record exactly the bars given, in order, after the earlier ones. |
| ZigZagProps.StepTraceRows | src/pandas_ti/indicators_dataframe/ZigZag.py:268-270 | One `update` appends exactly one `_debug_state` snapshot of the new state iff debugging and the bar is valid, and nothing otherwise. |
| ZigZagProps.StepTrace | src/pandas_ti/indicators_dataframe/ZigZag.py:268-270 | One `update` keeps the earlier snapshots. It appends a snapshot of its own bar iff debugging and the bar is valid. Without debugging the trace is unchanged. |
| ZigZagProps.RunStepTrace | src/pandas_ti/indicators_dataframe/ZigZag.py:268-270 | The same for the last `update` of a run, in terms of the run before it. |
| ZigZagProps.RunTrace | src/pandas_ti/indicators_dataframe/ZigZag.py:115-135 | Over a run without debugging the trace is unchanged. With debugging the earlier snapshots are kept, and the new ones are of exactly the valid bars, in order. |
| ZigZagProps.RunAppend | src/pandas_ti/indicators_dataframe/ZigZag.py:324-325 | Processing is online: a run over `a + b` equals a run over `a` followed by a run over `b`. |
| ZigZagProps.NewPivot | src/pandas_ti/indicators_dataframe/ZigZag.py:189-196 | At most one pivot per `update`. If one is confirmed, it becomes the last pivot and follows the previous one (opposite type, `pct` gap). Otherwise the last pivot is unchanged. |
| ZigZagProps.Confirmations | src/pandas_ti/indicators_dataframe/ZigZag.py:226-266 | A run confirms at most one pivot per bar. |
| ZigZagProps.ConfirmationsAlternate | src/pandas_ti/indicators_dataframe/ZigZag.py:249-266 | The pivots of a run alternate High/Low, each at least `pct` from the one before. The first follows the pivot held before the run. |
| ZigZagProps.LastPivotOfRun | src/pandas_ti/indicators_dataframe/ZigZag.py:194-196 | After a run, the state's last type, price and index are the run's last confirmed pivot, or the ones held before the run if it confirmed none. |
| ZigZagProps.FirstPivotEndsBootstrap | src/pandas_ti/indicators_dataframe/ZigZag.py:227 | From the initial state, the detector is still bootstrapping iff the run has confirmed no pivot. |
| ZigZagProps.BootstrapStep | src/pandas_ti/indicators_dataframe/ZigZag.py:151-157 | An `update` that leaves the detector bootstrapping began in bootstrap. It keeps the swings on an invalid bar and extends them as max/min on a valid one. |
| ZigZagProps.SkippedBar | src/pandas_ti/indicators_dataframe/ZigZag.py:218-219 | An invalid bar changes neither the running extremes nor where they were first reached. |
| ZigZagProps.BootstrapTracksExtremes | src/pandas_ti/indicators_dataframe/ZigZag.py:151-157 | While no pivot is confirmed, the swing high is the highest valid high, at the first bar reaching it. Likewise the swing low for the lowest low. Both are sentinels if no valid bar came. |
| ZigZagProps.AsWrittenDownNeverConfirms | src/pandas_ti/indicators_dataframe/ZigZag.py:239-240 | As written, the bootstrap "down" test never passes. |
| ZigZagProps.DownBranchCounterexample | src/pandas_ti/indicators_dataframe/ZigZag.py:238-244 | Bars (0, 110, 109), (1, 100, 99) with `pct = 0.05`: the as-written test fails, while the corrected model confirms the High 110 at bar 0. |
| Registry.RegisterIndicator | src/pandas_ti/registry.py:54-57 | An unknown type is rejected first, then a missing full name, each with its message. Otherwise the decorator for the type and name. |
| Registry.IndicatorRegistry.constructor | src/pandas_ti/registry.py:3-13 | Both types present, nothing registered. |
| Registry.IndicatorRegistry.Decorate | src/pandas_ti/registry.py:59-66 | Returns `func` itself. The type's table stores it under its name, overwriting an earlier entry. Both name lists grow by one aligned row. The other type is untouched. The registry invariant holds. |
| Registry.RegisterKeepsConsistent | src/pandas_ti/registry.py:59-66 | Registering a function under a known type keeps the registries consistent. Both types stay present and the type's table keeps distinct names. The name lists stay aligned, and every stored function stays listed among its type's names. |
| Registry.IndicatorRegistry.Register | src/pandas_ti/registry.py:54-67 | Rejected arguments leave the registry unchanged, with the error message. Accepted ones register as `Decorate` does. |
| TiAccessor.Lower | src/pandas_ti/ti_accessor.py:69 | ASCII `str.lower`: same length, upper-case letters lowered by 32, other characters kept. |
| TiAccessor.MergedKeys | src/pandas_ti/ti_accessor.py:69 | The merged mapping's keys: the five standard keys, then the user's new lower-cased keys in order of first occurrence. |
| TiAccessor.MergedGet | src/pandas_ti/ti_accessor.py:69 | Reading the merged mapping: a lower-cased user key gives the user's last value, any other key its default. |
| TiAccessor.MergeUserMapping | src/pandas_ti/ti_accessor.py:68-69 | A lower-cased user key reads its last user value, the other standard keys their default column. The five standard keys come first in order. After them come the lower-cased user keys that are not standard, each once, in the order the user first gave them. |
| TiAccessor.Detected | src/pandas_ti/ti_accessor.py:79-88 | All five keys in order. Each maps to its first variation present among the columns, else to its default name. |
| TiAccessor.InitialMapping | src/pandas_ti/ti_accessor.py:46-88 | The five standard keys come first, in order, with no key twice. With a non-empty user mapping, each key reads the user's last value for it, else its default, and the extra user keys follow in the user's order. Otherwise the mapping is exactly `Detected`: the five keys, each bound to its first variation present among the columns, else to its default. |
| TiAccessor.DetectedPresentOrDefault | src/pandas_ti/ti_accessor.py:85-86 | A detected column is present, or it is the default for a key none of whose variations is present. |
| TiAccessor.MissingColumns | src/pandas_ti/ti_accessor.py:99-102 | A name is reported iff some mapping value names it and the DataFrame lacks it. |
| TiAccessor.MissingColumnsAppend | src/pandas_ti/ti_accessor.py:99-102 | The report follows the mapping's order. |
| TiAccessor.ValidateColumns | src/pandas_ti/ti_accessor.py:90-107 | Fails iff some mapped column is missing, with the message listing the missing columns. |
| TiAccessor.DetectedValidWhenAllFound | src/pandas_ti/ti_accessor.py:79-107 | Auto-detection passes validation whenever every key has some variation among the columns. |
| TiAccessor.TechnicalIndicatorsAccessor.constructor | src/pandas_ti/ti_accessor.py:41-42 | Holds the columns and the resolved mapping. |
| TiAccessor.TechnicalIndicatorsAccessor.InitializeColumnMapping | src/pandas_ti/ti_accessor.py:46-88 | Loops over keys and variations. They yield the merged user mapping when one is given and non-empty, otherwise the detected mapping. |
| TiAccessor.TechnicalIndicatorsAccessor.Validate | src/pandas_ti/ti_accessor.py:90-107 | The outcome of `ValidateColumns` on the current mapping. |
| TiAccessor.TechnicalIndicatorsAccessor.SetColumnMapping | src/pandas_ti/ti_accessor.py:146-162 | The mapping is replaced, then validated. It stays replaced even when validation fails. |
| TiAccessor.TechnicalIndicatorsAccessor.ColumnMapping | src/pandas_ti/ti_accessor.py:164-174 | Returns the current mapping. |
| TiAccessor.NewAccessor | src/pandas_ti/ti_accessor.py:41-43 | `ValueError` iff validation of the resolved mapping fails. Otherwise an accessor holding that mapping. |
| AccessorDataFrame.ColumnBindings | src/pandas_ti/accessor_dataframe.py:59-63 | An OHLCV name is bound iff some column is one of its variations. It is then bound to the first such column in column order. Nothing else is bound. |
| AccessorDataFrame.RequiredOhlcv | src/pandas_ti/accessor_dataframe.py:31-32 | Exactly the parameters that are OHLCV names. |
| AccessorDataFrame.RequiredOhlcvAppend | src/pandas_ti/accessor_dataframe.py:32 | The selection keeps signature order. |
| AccessorDataFrame.InjectedItems | src/pandas_ti/accessor_dataframe.py:37-41 | Only required names the accessor has as attributes, each with that attribute. |
| AccessorDataFrame.InjectedGet | src/pandas_ti/accessor_dataframe.py:37-41 | The comprehension maps a name to its attribute iff the name is required and bound. |
| AccessorDataFrame.CallKwargs | src/pandas_ti/accessor_dataframe.py:37-43 | An explicit kwarg wins. Otherwise a required, bound OHLCV name gets its attribute. Nothing else is passed, and no name twice. |
| AccessorDataFrame.MethodFor | src/pandas_ti/accessor_dataframe.py:26-45 | `create_method` gives a bound method of the function itself. The names it injects are exactly the function's parameters that are OHLCV names. |
| AccessorDataFrame.MethodBindings | src/pandas_ti/accessor_dataframe.py:67-69 | Every registered name, and nothing else, gets the method built from its function. |
| AccessorDataFrame.MethodBindingsOfTable | src/pandas_ti/accessor_dataframe.py:67-69 | For a registry table, each name's method wraps the function stored under it. |
| AccessorDataFrame.ScanOrdersAgree | src/pandas_ti/accessor_dataframe.py:59-63 | Over one list of spellings, scanning the columns for a spelling and scanning the spellings for a column find the same name when at most one spelling is present. |
| AccessorDataFrame.DetectionsAgree | src/pandas_ti/accessor_dataframe.py:59-63 | For the `i`-th OHLCV name, suppose every spelling present among the columns is in both accessors' lists, and at most one is present. Then `TiAccessor.Detected` maps the name to the column this accessor binds. When this accessor binds nothing, it maps the name to its default. |
| AccessorDataFrame.DetectionsDiffer | src/pandas_ti/accessor_dataframe.py:59-63 | With columns `high` and `High`, this accessor binds `high` while `TiAccessor.Detected` maps `high` to `High`. With the single column `h`, this accessor binds `h` while the `ti` mapping keeps its default `High`. |
| AccessorDataFrame.DataframeAccessor.constructor | src/pandas_ti/accessor_dataframe.py:52-55 | The attributes are the column bindings, then the registry's methods, which win on a name clash. |
| AccessorDataFrame.DataframeAccessor.MapColumns | src/pandas_ti/accessor_dataframe.py:57-63 | For each OHLCV name in turn, binds the first matching column, if any. The attributes gain exactly `ColumnBindings`: a name is bound iff some column matches, and to the first match. |
| AccessorDataFrame.DataframeAccessor.AddRegistryMethods | src/pandas_ti/accessor_dataframe.py:65-69 | The loop adds exactly `MethodBindings` of the table to the attributes. |
| AccessorDataFrame.DataframeAccessor.Call | src/pandas_ti/accessor_dataframe.py:35-43 | Calling a bound method passes its function `CallKwargs` of its required names, the current attributes and the caller's kwargs. |

## Left out

- **Floating point.** IEEE rounding is not modelled. Prices are reals, with NaN and the two infinities as explicit cases.
- ZigZagModel.Step: requires `Admissible` bars, whose prices are finite with a positive low when valid. Infinite prices and a low of zero or below are not modelled. These are the cases where `_pct_change` would divide by zero, an infinity or a negative reference.
- ZigZagModel.Advance: requires an `Admissible` bar, for the same reason as `ZigZagModel.Step`.
- ZigZagModel.Run: requires every bar to be `Admissible`, for the same reason as `ZigZagModel.Step`.
- ZigZag.ZigZag: requires every bar to be `Admissible`, for the same reason as `ZigZagModel.Step`.
- ZigZag.ZigZagDetector.Update: requires an `Admissible` bar, for the same reason as `ZigZagModel.Step`.
- **Arbitrary indices.** The detector's index is an `int`. Pandas index labels of other types (timestamps) are not modelled.
- **Output builders.** `df()`, `debug_df()` and the DataFrame construction in `ZigZag()` are pandas output building. History and debug trace are sequences of records. `pivots()` is a sequence of (index, price) points rather than a Series.
- ZigZag.ZigZagDetector.UpdateSwings: takes the last confirmed type from the object rather than as the `confirmed` argument. Every call site passes `self.last_confirmed_type`.
- ZigZag.ZigZagDetector.ResetSwings: drops the `high` and `low` arguments, which the source never reads.
- **Debug trace.** The debug trace records an absent last price and index as `None`, where the source appends NaN.
- **Decorator as function.** `register_indicator` returning a closure is modelled as a `Decorator` value. Applying it is `IndicatorRegistry.Decorate`. The module-level dicts are the fields of one `IndicatorRegistry` object.
- **Function objects.** A Python function is seen only through its name, parameter names and an identity. Calling the indicator itself (`func(**call_kwargs)`) is not modelled. `DataframeAccessor.Call` returns the function and the arguments it would receive.
- **DataFrame columns.** A DataFrame is seen only through its column labels, as strings. `str(col)` of a non-string label and the Series `df[col]` are not modelled. A bound column is its label.
- TiAccessor.Lower: lower-cases ASCII letters only. Unicode case mapping is not modelled.
- **`ti_accessor.py` reflection.** `_register_indicators` and `_add_indicator` use `dir`/`inspect` reflection over a dynamically imported module and are not modelled.
- **Documentation output.** `help` and `indicators` in both accessors are console and DataFrame output.
- **Fixed attributes.** The DataFrame accessor's fixed attributes (`_df`, `help`, `indicators`) are not part of the attribute map. None of them is an OHLCV name, so they never affect injection.
- **Other files.** `accessor_series.py`, the true-range family (TR, RTR, ATR, ARTR), SRTR, SMA, EMA, the validation helpers and the package `__init__` files are not part of this model. They are vectorised floating-point formulas, library wrappers or dynamic imports.

## Findings

| source | as written | input that shows it | evidently intended | confidence | as-written member | corrected member |
|---|---|---|---|---|---|---|
| src/pandas_ti/indicators_dataframe/ZigZag.py:239 | The bootstrap "down" branch tests `_pct_change(reference=swing_high, new=swing_low) >= pct`. While bootstrapping the low never exceeds the high, so this change is at most 0 and a first High pivot is never confirmed. | `pct = 0.05`, bars (idx 0, high 110, low 109), (idx 1, high 100, low 99): a 10% fall from the high, yet nothing is confirmed. | The negated change, as in the post-bootstrap Low branch (line 261): confirm the High once `(swing_high - swing_low) / swing_high >= pct`. | not executed | ZigZagProps.DownBranchCounterexample, ZigZagProps.AsWrittenDownNeverConfirms, ZigZagModel.BootstrapDownChangeAsWritten | ZigZagModel.BootstrapDown |
