# MathFeatures — a Dafny model

This project models the `MathFeatures` transformer of feature_engine
(`feature_engine/creation/math_features.py`). The transformer takes a list
of at least two numeric columns (`variables`) and one or more aggregation
functions (`func`). For every function it reduces the selected columns row
by row into one new column, appends the new columns to the right of the
input table, and optionally drops the input columns (`drop_original`).

The model is functional. Configurations, function specifications and tables
are immutable datatypes. Validation, naming, dispatch, reduction and
orchestration are pure functions. A table is a row count plus an ordered
sequence of columns. Each column holds `Option<real>` cells, and `None` is a
missing value (NaN).

| file | module | models |
|---|---|---|
| `wrappers.dfy` | `Wrappers` | `Option` and `Result` (an exception becomes a `Failure`) |
| `tables.dfy` | `Tables` | column labels (int or str), columns, tables, `X[variables]` row selection |
| `reductions.dfy` | `Reductions` | numpy's nansum, nanmean, nanmin, nanmax, nanprod, nanmedian, and nanvar/nanstd with `ddof=1` |
| `construction.dfy` | `Construction` | `__init__`: normalisation of `func`, checks on `variables`, `func` and `new_variables_names` |
| `naming.dfy` | `Naming` | `_get_new_features_name`, `str` of an integer label, `"_".join` |
| `dispatch.dfy` | `Dispatch` | the per-function branch of `np_transform`: built-in names, `scope_target`, numpy or pandas call |
| `math_features.dfy` | `MathFeatures` | `transform`: the block of new columns, concatenation, drop |
| `scenarios.dfy` | `Scenarios` | the worked examples of the class docstring |

On these points the model follows `math_features.py` line by line:

- A lone callable `func` is not wrapped into a list (lines 198-199), although the docstring (lines 54-61) accepts one. See "## Findings".
- The count of `new_variables_names` is compared with the count of functions only when `func` is a list (line 230).
- A row whose inputs are all missing sums to 0 and multiplies to 1. These are numpy's `nansum` and `nanprod`. Mean, min, max and median give NaN for such a row. Std and var give NaN for fewer than two present values.
- Two functions with the same derived name write one column. The later function overwrites the earlier one in place, which is what pandas column assignment does (`MathFeatures.Assign`).
- `drop(columns=variables)` removes every column whose label is a variable, including a new column that has such a name.

## Model

| member | source | states |
|---|---|---|
| `Construction.Construct` | feature_engine/creation/math_features.py:192-241 | Construction succeeds iff `variables` is a list of ≥2 distinct ints/strs, `func` is not a dict, the names are absent or a list of distinct strings, and (for a list `func`) the name count equals the function count. The errors come in the source's order: `variables`, then dict, then the names' type, then the count. A string `func` becomes a one-element list. A list or any other object is kept as given. Explicit names are stored as given and absent names stay absent. `missing_values` and `drop_original` are stored unchanged. Every result satisfies the configuration invariant. |
| `Construction.ConstructRoundTrip` | feature_engine/creation/math_features.py:202-235 | Every configuration that satisfies the invariant is exactly what the constructor builds from its own attributes. So the checks reject nothing that the invariant allows. |
| `Construction.ConstructIntended` | feature_engine/creation/math_features.py:192-200 | The corrected constructor wraps a lone function into a one-element list. Apart from that wrapping it is `Construct` itself: on a `func` that is not a lone function the two return the same result, so they accept the same inputs and store the same `variables`, names, `missing_values` and `drop_original`. Its `func` is always a list. |
| `Naming.FeatureNames` | feature_engine/creation/math_features.py:362-380 | Explicit names are returned verbatim. Otherwise a list `func` gets exactly one name per function, in function order, each being the identity, `_`, and the joined variable texts. A non-list `func` without explicit names has no names (the unbound local). A list holding a callable without `__name__` has no names either (the attribute error). Without explicit names, naming succeeds iff `func` is a list whose every function has a name. |
| `Naming.OneNamePerFunction` | feature_engine/creation/math_features.py:366-378 | For every constructed configuration with a list `func`, naming succeeds iff names are explicit or every function has a name. When it succeeds, the number of names equals the number of functions, whether the names are explicit or derived. |
| `Naming.DerivedNameRecoversVariables` | feature_engine/creation/math_features.py:370-378 | A derived name starts with the function's identity followed by `_`. When no variable text contains `_`, the rest of the name splits on `_` into exactly the variable texts, in list order. |
| `Naming.DerivedNamesCollide` | feature_engine/creation/math_features.py:372-378 | Two derived names are equal iff the two functions have the same identity (string, or `__name__`). |
| `Naming.SplitJoin` | feature_engine/creation/math_features.py:377 | Splitting `"_".join(parts)` on `_` gives back the parts when no part contains `_`. |
| `Naming.IntTextRoundTrip` | feature_engine/creation/math_features.py:370 | The text `f"{var}"` of an integer label reads back as that integer. |
| `Dispatch.BuiltinNames` | feature_engine/creation/math_features.py:261-327 | A name selects a built-in reduction iff it is exactly that reduction's bare name or its `np.` alias. |
| `Dispatch.AliasesAgree` | feature_engine/creation/math_features.py:261-327 | For each of sum, mean, min, max, prod, median, std and var, the bare name and the `np.` alias select the same reduction. |
| `Dispatch.BuiltinColumn` | feature_engine/creation/math_features.py:261-326 | A built-in name, bare or aliased, always produces a column whose value in each row is that reduction of the row. |
| `Dispatch.ScopeOf` | feature_engine/creation/math_features.py:329-332 | A string function always has scope `"pandas"`. A scope other than `"pandas"` comes only from a callable whose bound object sets `scope_target` to it. |
| `Dispatch.Resolve` | feature_engine/creation/math_features.py:261-344 | A function is a built-in reduction iff it is a string naming one, by its bare name or its `np.` alias. Otherwise it goes to numpy iff its scope is `"numpy"` and to pandas iff its scope is `"pandas"`. Only a callable can end up with neither. |
| `Dispatch.NamedFunctionsResolve` | feature_engine/creation/math_features.py:261-344 | A string function always produces a column. It goes to pandas by name iff it names no built-in reduction. |
| `Dispatch.ColumnFor` | feature_engine/creation/math_features.py:260-345 | A function produces no column iff its strategy has neither numpy nor pandas scope. Otherwise its column has exactly one value per input row, computed from that row alone. |
| `Dispatch.DefaultScopeIsPandas` | feature_engine/creation/math_features.py:329-332 | A callable whose bound object is missing, or lacks `scope_target`, is evaluated through pandas. |
| `Dispatch.CallableColumn` | feature_engine/creation/math_features.py:328-344 | A callable produces a column iff its scope is `"numpy"` or `"pandas"`. The column holds the callable's value for every row. Any other scope adds no column. |
| `Reductions.Reduce` | feature_engine/creation/math_features.py:261-326 | Sum and prod always give a number. Mean, min, max and median give NaN iff no entry is present. Std and var give NaN iff fewer than two entries are present. |
| `Reductions.NoMissingIsClassical` | feature_engine/creation/math_features.py:261-326 | On a row with nothing missing, each of the eight reductions equals the ordinary reduction of the row's numbers. |
| `Reductions.ReduceAgreesWithMaskedFolds` | feature_engine/creation/math_features.py:261-326 | Against sums, products and counts written directly over the row, where a missing entry leaves the sum or product unchanged: `sum` is the masked sum, `prod` the masked product, and `mean` the masked sum over the count of present entries. Each reduction is NaN exactly when the count is 0, or below 2 for `std` and `var`. |
| `Reductions.MissingEntryIgnored` | feature_engine/creation/math_features.py:42-44 | Inserting a missing entry anywhere in a row changes none of the eight reductions. |
| `Reductions.NanSumSplits` | feature_engine/creation/math_features.py:262-265 | The missing-skipping sum of a row is the sum of the sums of any two parts the row is split into. |
| `Reductions.MinOf` | feature_engine/creation/math_features.py:280-287 | The minimum is one of the values and is at most every value. |
| `Reductions.MaxOf` | feature_engine/creation/math_features.py:289-296 | The maximum is one of the values and is at least every value. |
| `Reductions.SortOf` | feature_engine/creation/math_features.py:307-314 | The ordering behind the median is sorted and is a permutation of the values. |
| `Reductions.MeanBetweenMinAndMax` | feature_engine/creation/math_features.py:271-296 | When a value is present, the mean lies between the minimum and the maximum of the present values. |
| `Reductions.MedianBetweenMinAndMax` | feature_engine/creation/math_features.py:307-314 | When a value is present, the median lies between the minimum and the maximum of the present values. |
| `Reductions.VarianceNonNegative` | feature_engine/creation/math_features.py:316-326 | With at least two present values, the sample variance is never negative. |
| `MathFeatures.Assign` | feature_engine/creation/math_features.py:266-268 | Assigning a column by name overwrites the column with that name in place, leaving the labels unchanged. With no such column it appends one. Every other column is unchanged. |
| `MathFeatures.Block` | feature_engine/creation/math_features.py:258-346 | The new-column block has one value per input row in every column and no repeated name. Each name in it belongs to a function that produces a column. |
| `MathFeatures.BlockCoversProducers` | feature_engine/creation/math_features.py:258-346 | Every function that produces a column has its name in the block. |
| `MathFeatures.BlockLastWriterWins` | feature_engine/creation/math_features.py:258-346 | When several functions share a name, the column holds what the last producing one computed. |
| `MathFeatures.BlockInFunctionOrder` | feature_engine/creation/math_features.py:258-346 | With distinct names, the block is exactly the producing functions' columns, in function order. |
| `MathFeatures.DropNamed` | feature_engine/creation/math_features.py:357-358 | After dropping, every column is an input column and none carries a variable's label. |
| `MathFeatures.DropNamedKeepsOrder` | feature_engine/creation/math_features.py:357-358 | Dropping keeps exactly the columns whose label is not a variable, in their original order. |
| `MathFeatures.Transform` | feature_engine/creation/math_features.py:348-380 | Transform fails iff `func` is a lone non-list object, or no names are given and some function in the list has no name. For a lone object the error is the unbound-name error when no explicit names exist, and a not-iterable error otherwise. For the list it is the missing-name error. On success the row count is kept and every column has one value per row. Success means the functions can be enumerated and named. Without drop, the input columns come first, unchanged and in order, and everything after them is exactly the block `np_transform` builds. With drop, no output column carries a variable's label. |
| `MathFeatures.OutputIsInputThenOneColumnPerFunction` | feature_engine/creation/math_features.py:352-355 | Assume no drop, distinct names, and that every function produces a column. Then the output is the input columns followed by exactly one column per function, in function order. Each new column carries its function's name and its function's value for every row. |
| `MathFeatures.AppendedColumnsFollowProducers` | feature_engine/creation/math_features.py:258-355 | Without drop, the labels after the input are distinct. A label is there iff some function with that name produces a column: a built-in, or a function that takes the numpy or pandas branch. So a callable whose `scope_target` is anything else adds nothing, and a repeated name appears once. The column under a repeated name holds the value of the last function with that name that produces a column. |
| `MathFeatures.ProducedNamesAreProducers` | feature_engine/creation/math_features.py:259-344 | A name is written into the block iff some function carrying it takes one of the branches that assign a column. |
| `MathFeatures.DropRemovesExactlyVariables` | feature_engine/creation/math_features.py:357-358 | With `drop_original`, the output is the input columns after the drop followed by the new columns after the drop. `DropNamedKeepsOrder` gives the order within each part. Every input column that is not a variable survives, and no variable survives. |
| `MathFeatures.LoneFunctionAsWritten` | feature_engine/creation/math_features.py:192-200 | As written, a transformer built with a lone callable fails on every table. |
| `MathFeatures.LoneFunctionIsOneElementList` | feature_engine/creation/math_features.py:192-200 | With the lone function wrapped, the transformer is exactly the one built from the one-element list of that function, so every property of a list `func` applies to it. |
| `MathFeatures.LoneFunctionIntended` | feature_engine/creation/math_features.py:192-200 | With the lone callable wrapped, for any names, any `drop_original` and any scope, the transform succeeds iff names are given or the callable has a name. Otherwise it fails with the missing-name error. On success the new block is the callable's column, named by the given name or else by the callable and the variables. It is empty when the callable's scope is neither numpy nor pandas. Without drop the output is the input followed by that block. With drop it is the input after the drop followed by the block after the drop. |
| `Scenarios.SumIgnoresMissing` | feature_engine/creation/math_features.py:42-44 | Values 10, 20 and NA sum to 30. |
| `Scenarios.SumConfig` | feature_engine/creation/math_features.py:109-110 | `func="sum"` on x1, x2 is stored as `["sum"]` and names its column `sum_x1_x2`. |
| `Scenarios.ExampleSums` | feature_engine/creation/math_features.py:109-116 | The example rows sum to 5, 7, 9. |
| `Scenarios.ExampleProducts` | feature_engine/creation/math_features.py:118-124 | The example rows multiply to 4, 10, 18. |
| `Scenarios.ExampleMeans` | feature_engine/creation/math_features.py:126-132 | The example rows average 2.5, 3.5, 4.5. |
| `Scenarios.MeanWithMissing` | feature_engine/creation/math_features.py:271-278 | The rows (1, 4), (NA, 5) and (3, 6) average 2.5, 5.0 and 4.5. |
| `Scenarios.MeanIgnoreConfigBuilt` | feature_engine/creation/math_features.py:192-241 | `func="mean"` with `missing_values="ignore"` on x1, x2 is stored as `["mean"]` with the policy kept, and its column is named `mean_x1_x2`. |
| `Scenarios.GapRefusedUnderRaise` | feature_engine/creation/math_features.py:348 | With `missing_values="raise"`, the table with x1 = [1, NA, 3] does not pass the input check that runs before the new columns are built. |
| `Scenarios.MeanWithMissingTransform` | feature_engine/creation/math_features.py:42-44 | The `func="mean"` example of lines 126-132 with a missing input value, which lines 42-44 say is ignored: with `missing_values="ignore"`, the whole transform of x1 = [1, NA, 3] and x2 = [4, 5, 6] with `func="mean"` appends `mean_x1_x2 = [2.5, 5.0, 4.5]` to the unchanged input. |
| `Scenarios.SumTransform` | feature_engine/creation/math_features.py:107-116 | The whole transform of the example table with `func="sum"` appends `sum_x1_x2 = [5, 7, 9]` to the unchanged x1, x2. |
| `Scenarios.ExplicitNames` | feature_engine/creation/math_features.py:366-367 | `func=["sum","mean"]` with names `["total","avg"]` yields exactly those names. |
| `Scenarios.SingleVariableRejected` | feature_engine/creation/math_features.py:202-211 | A single variable is rejected with the `variables` error. |
| `Scenarios.DictRejected` | feature_engine/creation/math_features.py:213-216 | A dict `func` is rejected with the not-implemented error. |
| `Scenarios.NamesCountChecked` | feature_engine/creation/math_features.py:229-235 | Two functions with one name are rejected with the count error. |
| `Scenarios.IntegerLabelsInNames` | feature_engine/creation/math_features.py:370-378 | Integer labels 1 and -2 with `func="sum"` give the name `sum_1_-2`. |

## Left out

- pandas and numpy data structures are left out. A table is a row count plus labelled columns, and `pd.concat(axis=1)` is sequence concatenation.
- Index alignment is left out. The model assumes the input frame has the default index that `pd.Series(result)` carries.
- IEEE floating point is left out. Values are mathematical reals, NaN is `None`, and the RuntimeWarnings for all-missing rows are not modelled.
- Std: the square root is a parameter (`Dispatch.Facilities.sqrt`), because reals have no square root here. Variance is modelled in full.
- Function names that are not built-in go to `DataFrame.agg` by name. pandas' table of such names is a parameter (`Facilities.aggByName`). An unknown name raising inside pandas is not modelled.
- Callables are opaque row-to-value functions. Their bodies are not modelled. The numpy `apply_over_axes` calling convention is not modelled either, and both scopes give one value per row.
- `_check_transform_input_and_state`, `BaseCreation` and `fit` are not part of this model. Their outcome is the precondition `MathFeatures.Ready`: a constructed configuration; a well-formed table without repeated labels that holds every variable; and no missing variable value under `missing_values="raise"`. `BaseCreation`'s checks of `missing_values` and `drop_original` are replaced by an enumeration and a boolean.
- The fitted `variables_` used for naming is taken to equal `variables`.
- `func` given as a tuple or another non-list iterable is not modelled. Only a lone callable stands for "any other object".
- A list element that is neither a string nor a callable is not modelled. The source lets it reach `DataFrame.agg`, whose failure is pandas' own.
- Of the attribute errors on line 374, only a callable without `__name__` is modelled. Its `__name__` is either present or absent.
- Python's `True == 1` in the `variables` uniqueness test is not modelled. Booleans are not separate values in the model.
- The `Substitution` docstring decorator and the docstring imports are not modelled. They have no behaviour.
- Calling `transform` twice on the same input gives the same output. This needs no lemma, because `Transform` is a function.

## Findings

| source | as written | input that shows it | evidently intended | confidence | as-written member | corrected member |
|---|---|---|---|---|---|---|
| feature_engine/creation/math_features.py:192-200 | A lone callable `func` is stored unwrapped. `transform` then fails: `feature_names` is never bound when no names are given, and enumerating the callable raises when names are given. | `MathFeatures(variables=["x1","x2"], func=np.sum)` followed by `fit` and `transform` | A lone function is wrapped into a one-element list. The comment on line 192 and the accepted inputs on lines 54-61 both say so. | not executed; high | `MathFeatures.LoneFunctionAsWritten` | `Construction.ConstructIntended` (property: `MathFeatures.LoneFunctionIntended`) |

The two constructors differ only for a lone non-string, non-list, non-dict
`func`, which is the last `ensures` of `Construction.ConstructIntended`.
Naming, dispatch and `Transform` take the configuration either constructor
builds.
