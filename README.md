# DataProfiler, modelled in Dafny

This project models the `DataProfiler` class of the sambhar backend
(`backend/app/utils/data_profiler.py`). The class takes a pandas DataFrame and
produces four things:

- a per-column profile: dtype, missing count and percentage, distinct count,
  the five most frequent values, numeric statistics and a date range;
- the plotly charts of the whole dataset, stored under one key per chart;
- one chart on request;
- a short English summary.

It also contains a normaliser that turns numpy and pandas objects into values
`json.dumps` can write.

The modules follow the parts of the class:

| module | what it holds |
|---|---|
| `Serializer` | the runtime values the profiler meets, `_convert_to_serializable`, `_ensure_json_serializable` |
| `Dicts` | Python dictionaries with string keys: assignment and `dict(...)` |
| `Text` | `str(int)`, `" ".join`, `_truncate_string`, `lower()` and `in` on text |
| `Frames` | DataFrame columns and cells, `isna`, `dropna`, `nunique`, `value_counts`, `min`/`max` of instants |
| `Columns` | the column groups the constructor computes |
| `Host` | the library calls whose behaviour is not modelled, as function-valued parameters, and raised exceptions |
| `Profile` | `_profile_column` and `generate_profile` as functions |
| `Charts` | `generate_visualizations` and `generate_specific_visualization` as functions |
| `Summary` | `generate_summary` as a list of clauses and their sentences |
| `Profiler` | the `DataProfiler` class, whose methods are proved equal to those functions |

The profiler's methods update local lists and dictionaries in loops, so they
are modelled as methods with loop invariants. Each one is proved equal to a
specification function, and the properties are proved as lemmas about those
functions.

pandas statistics, correlation, the `.2f` format, `str()` of floats and
objects, `isoformat()` and plotly are carried as function fields of the
parameters `Host.Libraries` and `Serializer.Runtime`. Every lemma holds
whatever those functions return, and plotly may fail with any error.

## Where the code and the repository's tests disagree

The model follows the code.

- A column holding an infinity is not numeric: `__init__` drops it from
  `numeric_cols` (data_profiler.py:18-20), so its profile has no
  `numeric_stats`. `backend/tests/test_data_profiler.py:157-159` expects
  statistics for such a column. See `Profile.InfiniteColumnHasNoStats`.
- A truncated `top_values` key is 103 characters long: 100 kept characters
  plus `"..."` (data_profiler.py:75). `backend/tests/test_data_profiler.py:176`
  expects at most 100. See `Profile.KeyText` and `Text.Truncate`.
- `np.inf` is a plain Python float, so `_convert_to_serializable` hands it back
  unchanged (data_profiler.py:54). Only numpy float scalars become the text
  `"inf"` (data_profiler.py:33-34). See `Serializer.InfinityTexts` and
  `Serializer.PlainInfinityKept`.

## Model

All source paths are relative to the repository root.

| member | source | states |
|---|---|---|
| Serializer.Convert | backend/app/utils/data_profiler.py:24-54 | the normalised value is well-formed JSON: no NaN anywhere, and distinct keys in every object |
| Serializer.ConvertItemUnboxes | backend/app/utils/data_profiler.py:38-43 | an element of an array, a series or a frame column is converted as the Python scalar `.tolist()` turns it into |
| Serializer.ConvertItem | backend/app/utils/data_profiler.py:38-43 | an element of an array or a series is written as JSON-safe output |
| Serializer.StrictUnlessPlainInfinity | backend/app/utils/data_profiler.py:26-54 | unless an infinity arrives as a plain Python float, the output is strict JSON: no NaN and no infinity |
| Serializer.ConvertFromJson | backend/app/utils/data_profiler.py:24-54 | normalising a value that is already JSON gives it back unchanged |
| Serializer.ConvertIdempotent | backend/app/utils/data_profiler.py:24-54 | normalising the normaliser's own output changes nothing |
| Serializer.ConvertDict | backend/app/utils/data_profiler.py:44-45 | a dict becomes an object whose keys are `str()` of the original keys and whose values are normalised; keys with the same text merge as a dict comprehension merges them |
| Serializer.InfinityTexts | backend/app/utils/data_profiler.py:33-34 | numpy float infinities of every width become the texts `"inf"` and `"-inf"` |
| Serializer.PlainInfinityKept | backend/app/utils/data_profiler.py:38-54 | a plain float infinity stays a float, and so does a numpy infinity inside an array, which `.tolist()` has made a plain float |
| Serializer.FromJsonDumpable | backend/app/utils/data_profiler.py:58-60 | `json.dumps` accepts every plain value that stands for JSON |
| Serializer.EnsureJson | backend/app/utils/data_profiler.py:56-62 | the result is always accepted by `json.dumps`; a value it already accepts is returned as it is; otherwise the result normalises to what the input normalises to |
| Serializer.NarrowFloatNormalised | backend/app/utils/data_profiler.py:56-62 | a numpy `float64` is accepted by `json.dumps` as it is; a `float16` or `float32`, alone or as a dict value, is refused, so the probe returns its normalisation, a plain float |
| Dicts.Put | backend/app/utils/data_profiler.py:69 | `d[key] = value` keeps keys distinct, replaces the value of an existing key where it stands, appends a new key, and keeps every other entry |
| Dicts.PutNew | backend/app/utils/data_profiler.py:69 | assigning a key not yet present appends it at the end |
| Dicts.PutKeeps | backend/app/utils/data_profiler.py:101 | assigning a key keeps every key already present |
| Dicts.ZipStep | backend/app/utils/data_profiler.py:68-69 | with distinct keys, assigning the next key extends the dictionary by exactly that entry |
| Dicts.Collect | backend/app/utils/data_profiler.py:43-45 | `dict(pairs)` has distinct keys and no more entries than pairs |
| Dicts.CollectSnoc | backend/app/utils/data_profiler.py:43-45 | one more pair is one more assignment |
| Dicts.CollectFrom | backend/app/utils/data_profiler.py:43-45 | every entry of `dict(pairs)` is one of the pairs |
| Dicts.CollectKeys | backend/app/utils/data_profiler.py:43-45 | every pair's key is a key of `dict(pairs)` |
| Dicts.CollectDistinct | backend/app/utils/data_profiler.py:43-45 | pairs whose keys are already distinct come out unchanged |
| Text.Truncate | backend/app/utils/data_profiler.py:73-75 | a text of at most `max_length` characters is unchanged; a longer one keeps its first `max_length` characters followed by `"..."`, `max_length + 3` in all |
| Text.TruncateIdempotent | backend/app/utils/data_profiler.py:73-75 | truncating a truncated text changes nothing |
| Text.NatText | backend/app/utils/data_profiler.py:191 | the decimal text of a count is non-empty digits with no leading zero |
| Text.DecimalRoundTrip | backend/app/utils/data_profiler.py:191 | the integer text written into the summary reads back as the same integer |
| Text.JoinStartsWithFirst | backend/app/utils/data_profiler.py:240 | a joined text begins with its first part |
| Text.JoinSnoc | backend/app/utils/data_profiler.py:240 | joining one more part appends the separator and that part |
| Text.JoinEndsWithLast | backend/app/utils/data_profiler.py:240 | the joined text ends with the last part |
| Text.ContainsAt | backend/app/utils/data_profiler.py:208 | `sub in s` holds exactly when `sub` occurs at some position of `s` |
| Frames.IndexOf | backend/app/utils/data_profiler.py:79 | `df[name]` finds a column with that name |
| Frames.NameInTail | backend/app/utils/data_profiler.py:79 | a name that is not the first column's is the name of a later column |
| Frames.IndexOfColumn | backend/app/utils/data_profiler.py:79 | with distinct names, looking up a column's name finds that column |
| Frames.NaCount | backend/app/utils/data_profiler.py:91 | the missing count is at most the length of the column |
| Frames.NaCountAll | backend/app/utils/data_profiler.py:82 | the missing count equals the length exactly when every cell is missing, and is zero exactly when none is |
| Frames.NonNa | backend/app/utils/data_profiler.py:112 | `dropna()` keeps exactly the non-missing cells, and its length plus the missing count is the column length |
| Frames.Distinct | backend/app/utils/data_profiler.py:107 | the distinct values are non-missing cells of the column, no two of them equal under Python's `==` (`True`, `1` and `1.0` are one value) |
| Frames.DistinctCovers | backend/app/utils/data_profiler.py:107 | every non-missing cell equals one of the distinct values |
| Frames.DistinctFirst | backend/app/utils/data_profiler.py:95-107 | each distinct value is the first cell equal to it |
| Frames.CountByKey | backend/app/utils/data_profiler.py:95 | values equal under Python's `==` have the same count |
| Frames.PythonEquality | backend/app/utils/data_profiler.py:95-107 | in a column holding `1` and `True` there is one distinct value, counted twice and shown as `1` |
| Frames.NUniqueZero | backend/app/utils/data_profiler.py:107 | `nunique()` is zero exactly when every cell is missing |
| Frames.NUnique | backend/app/utils/data_profiler.py:107 | `nunique()` counts the distinct non-missing values, at most one per cell |
| Frames.CountPositive | backend/app/utils/data_profiler.py:95 | a value occurs a positive number of times exactly when some cell equals it |
| Frames.ValueCounts | backend/app/utils/data_profiler.py:95 | `value_counts()` has one entry per distinct non-missing value, each a cell of the column with the number of cells equal to it, positive, sorted by descending count |
| Frames.ValueCountsCovers | backend/app/utils/data_profiler.py:95 | `value_counts()` omits no value: every non-missing cell is counted, with all cells equal to it, in the entry of the value it equals |
| Frames.InsertByCountSorted | backend/app/utils/data_profiler.py:95 | inserting an entry by count keeps a count-sorted list sorted |
| Frames.SortByCountSorted | backend/app/utils/data_profiler.py:95 | the counts come out in descending order |
| Frames.ValueCountsDistinct | backend/app/utils/data_profiler.py:95 | no two entries of `value_counts()` hold values equal under Python's `==` |
| Frames.HeadIsMostFrequent | backend/app/utils/data_profiler.py:97 | no value left out of `head(n)` occurs more often than a value that is kept |
| Frames.TimesOf | backend/app/utils/data_profiler.py:125 | the instants are exactly those of the column's datetime cells |
| Frames.TimesOfNonNa | backend/app/utils/data_profiler.py:125-126 | in a datetime column there are as many instants as non-missing cells |
| Frames.MinOf | backend/app/utils/data_profiler.py:128 | `min()` is one of the instants and no instant is smaller |
| Frames.MaxOf | backend/app/utils/data_profiler.py:129 | `max()` is one of the instants and no instant is larger |
| Columns.SelectNames | backend/app/utils/data_profiler.py:17-22 | a name is selected exactly when some column with that name passes the test; no more names than columns |
| Columns.SelectStep | backend/app/utils/data_profiler.py:17-22 | one more column adds its name exactly when it passes the test |
| Columns.SelectedIff | backend/app/utils/data_profiler.py:17-22 | with distinct names, a column is selected exactly when it passes the test |
| Columns.NumericColumns | backend/app/utils/data_profiler.py:17-20 | a name is in the numeric group exactly when some column of that name is numeric |
| Columns.CategoricalColumns | backend/app/utils/data_profiler.py:21 | a name is in the categorical group exactly when some column of that name has an object, category or bool dtype |
| Columns.DatetimeColumns | backend/app/utils/data_profiler.py:22 | a name is in the datetime group exactly when some column of that name has a datetime64 dtype |
| Columns.NumericIff | backend/app/utils/data_profiler.py:17-20 | a column is numeric exactly when its dtype is a numpy integer or float of any width, it is not entirely missing, and none of its values is infinite |
| Columns.CategoricalIff | backend/app/utils/data_profiler.py:21 | a column is categorical exactly when its dtype is object, category or bool |
| Columns.DatetimeIff | backend/app/utils/data_profiler.py:22 | a column is a datetime column exactly when its dtype is datetime64 |
| Columns.SelectedAreColumns | backend/app/utils/data_profiler.py:17-22 | every grouped name is a column of the dataset |
| Columns.GroupsDisjoint | backend/app/utils/data_profiler.py:17-22 | no column is in two groups |
| Profile.KeyText | backend/app/utils/data_profiler.py:98-100 | a string over 100 characters becomes its first 100 characters plus `"..."`, 103 in all; a shorter string is kept; any other value is passed through `str()` |
| Profile.Head | backend/app/utils/data_profiler.py:97 | `head(n)` is the first `min(n, len)` entries |
| Profile.TopEntry | backend/app/utils/data_profiler.py:98-101 | a `top_values` item is the value's key text and its count as a plain int |
| Profile.TopEntries | backend/app/utils/data_profiler.py:97-101 | one item per `value_counts()` entry, in order |
| Profile.TopValues | backend/app/utils/data_profiler.py:96-101 | `top_values` has distinct keys and no more items than entries |
| Profile.TopValuesStep | backend/app/utils/data_profiler.py:97-101 | each iteration of the loop is one dictionary assignment, of the entry's key text to its count as a plain int, into a dictionary whose keys are distinct |
| Profile.TopValuesFrom | backend/app/utils/data_profiler.py:97-101 | every item of `top_values` comes from one of the entries |
| Profile.TopValuesKeys | backend/app/utils/data_profiler.py:97-101 | every entry's key is present in `top_values` |
| Profile.TopOf | backend/app/utils/data_profiler.py:95-101 | a column with some value has between one and five top values, and no more than its distinct values |
| Profile.Percentage | backend/app/utils/data_profiler.py:106 | the percentage lies between 0 and 100, is 100 exactly when every cell is missing, and times the total is 100 times the missing count |
| Profile.RatioFacts | backend/app/utils/data_profiler.py:106 | the missing fraction lies between 0 and 1, is 1 exactly when every cell is missing, and times the total is the missing count |
| Profile.NumericBlock | backend/app/utils/data_profiler.py:111-122 | a column with some value gets `numeric_stats` exactly when it is numeric; with two values or fewer, skewness and kurtosis are the integer 0 |
| Profile.TemporalStatsOf | backend/app/utils/data_profiler.py:127-131 | `min_date` and `max_date` are the ISO texts of the first and last instant; `date_range_days` is the number of whole days between them |
| Profile.TemporalBlock | backend/app/utils/data_profiler.py:124-131 | a column with some value gets `temporal_stats` exactly when its dtype is datetime64 |
| Profile.ProfileOf | backend/app/utils/data_profiler.py:77-133 | the profile carries the dtype name, the missing count, the distinct count and a percentage in [0, 100] that is 100 exactly for an all-missing column; it has at most five top values, none exactly when all is missing; it has numeric stats exactly for a numeric column with values and temporal stats exactly for a datetime column with values |
| Profile.NumericJsonValid | backend/app/utils/data_profiler.py:114-122 | the seven `numeric_stats` keys are distinct, so JSON-safe statistics make a JSON-safe block |
| Profile.TemporalJsonValid | backend/app/utils/data_profiler.py:127-131 | JSON-safe dates make a JSON-safe `temporal_stats` block |
| Profile.ProfileJsonParts | backend/app/utils/data_profiler.py:82-131 | the profile's own keys are distinct, so JSON-safe parts make a JSON-safe profile |
| Profile.ProfileJson | backend/app/utils/data_profiler.py:103-131 | the dictionary has the five basic keys first, in assignment order, `top_values` last among them; then `numeric_stats` when there are numeric statistics and `temporal_stats` last when there are temporal ones, and nothing else |
| Profile.ProfileJsonValid | backend/app/utils/data_profiler.py:77-133 | every column profile is JSON-safe: no NaN anywhere and distinct keys in every object, `top_values` included |
| Profile.DegenerateProfile | backend/app/utils/data_profiler.py:81-89 | an empty or all-missing column is profiled as exactly the five basic keys: its dtype, every cell missing, 100.0, zero distinct values, empty `top_values` |
| Profile.TopValueKeys | backend/app/utils/data_profiler.py:94-101 | every `top_values` item is the key text and count of one of the five most frequent values, and a string key is at most 103 characters |
| Profile.ProfileTop | backend/app/utils/data_profiler.py:82-101 | `top_values` is empty for an all-missing column, and otherwise is built from the five most frequent entries of `value_counts()` |
| Profile.KeyTextBounded | backend/app/utils/data_profiler.py:98-100 | the key text of a string value is at most 103 characters |
| Profile.InfiniteColumnHasNoStats | backend/app/utils/data_profiler.py:16-20 | a column holding an infinity is not numeric, so its profile has no `numeric_stats` |
| Profile.ColumnProfiles | backend/app/utils/data_profiler.py:68-69 | one profile per column, in column order |
| Profile.Profiles | backend/app/utils/data_profiler.py:67-71 | after n iterations of `generate_profile`, there are n entries, entry k holding column k's name and its profile under the profiler's grouping |
| Profile.ProfilesStep | backend/app/utils/data_profiler.py:68-69 | each iteration of `generate_profile` adds that column's profile under its name |
| Profile.ProfilesKeys | backend/app/utils/data_profiler.py:64-71 | the profile has distinct keys, exactly the column names, in column order |
| Charts.ColumnOf | backend/app/utils/data_profiler.py:255 | `df[name]` of an existing column is that column |
| Charts.IsoFrame | backend/app/utils/data_profiler.py:162-163 | the copy differs from the dataset only in the named column, whose instants become ISO text and whose missing cells become None |
| Charts.BarChart | backend/app/utils/data_profiler.py:149-155 | the bar chart has one category and one count per distinct value: entry k is the k-th value of `value_counts()`, as the column's scalar, and its count |
| Charts.CorrMatrix | backend/app/utils/data_profiler.py:170 | the correlation matrix is square, one row and column per numeric column |
| Charts.Jobs | backend/app/utils/data_profiler.py:141-166 | a loop plots at most one chart per listed column |
| Charts.JobsSound | backend/app/utils/data_profiler.py:141-166 | every chart a loop plots is for a listed column that passes its guard, under the key name + suffix |
| Charts.JobsComplete | backend/app/utils/data_profiler.py:141-166 | every listed column that passes a loop's guard is plotted, under the key name + suffix |
| Charts.JobsSnoc | backend/app/utils/data_profiler.py:141-166 | one more column adds at most that column's chart |
| Charts.JobsAppend | backend/app/utils/data_profiler.py:141-166 | a loop over two lists runs over the first and then over the second |
| Charts.JobsKeys | backend/app/utils/data_profiler.py:141-166 | a loop makes a chart with a given key exactly when some listed column passes the guard and gives that key |
| Charts.PlanKeys | backend/app/utils/data_profiler.py:137-178 | the pass plans a chart for a key exactly when a varying numeric column, a categorical column with 1 to 20 categories, a varying datetime column, or the heatmap guard gives that key |
| Charts.Store | backend/app/utils/data_profiler.py:143-145 | storing a chart succeeds exactly when plotly succeeds, fails with plotly's own error, adds the chart's key, and stores a JSON-safe figure |
| Charts.Run | backend/app/utils/data_profiler.py:139-178 | a successful pass has distinct keys |
| Charts.RunKeys | backend/app/utils/data_profiler.py:139-178 | a successful pass stores exactly one entry per key of its charts |
| Charts.RunDumpable | backend/app/utils/data_profiler.py:144-178 | every stored figure is accepted by `json.dumps` |
| Charts.RunErrFrom | backend/app/utils/data_profiler.py:139-179 | a failed pass fails with the error of one of its charts |
| Charts.RunSnoc | backend/app/utils/data_profiler.py:139-178 | a failure so far stands; otherwise the next chart is stored |
| Charts.RunErrSticks | backend/app/utils/data_profiler.py:139-179 | after a failure no later chart runs |
| Charts.RunOk | backend/app/utils/data_profiler.py:139-178 | the pass succeeds exactly when every chart it builds succeeds |
| Charts.LoopStep | backend/app/utils/data_profiler.py:141-166 | iteration `i` of a loop adds that column's chart when the guard admits it |
| Charts.LoopStops | backend/app/utils/data_profiler.py:139-181 | a loop whose iteration fails fails as a whole with that error |
| Charts.LoopSkips | backend/app/utils/data_profiler.py:141-166 | a column the guard rejects leaves the loop's dictionary as it is |
| Charts.LoopStores | backend/app/utils/data_profiler.py:143-145 | a column the guard admits, whose chart plotly builds, adds that chart's JSON-safe figure under name + suffix |
| Charts.LoopFails | backend/app/utils/data_profiler.py:139-181 | a column the guard admits, whose chart plotly fails on, makes the whole loop fail with plotly's error |
| Charts.Visualizations | backend/app/utils/data_profiler.py:135-183 | on success the keys are exactly the wanted keys and every figure is JSON-safe; it succeeds exactly when every planned chart does; otherwise it raises one `RuntimeError` carrying the failing chart's message |
| Charts.VisualizationsRun | backend/app/utils/data_profiler.py:179-183 | the result is the pass's dictionary, or its error wrapped in a `RuntimeError` |
| Charts.PassFails | backend/app/utils/data_profiler.py:179-181 | a failure among the first charts of the plan is the pass's `RuntimeError`, whatever follows |
| Charts.NoHeatmap | backend/app/utils/data_profiler.py:168-178 | without two numeric columns and two rows, the result is the three loops' dictionary |
| Charts.HeatmapFails | backend/app/utils/data_profiler.py:168-181 | a failing heatmap makes the pass raise a `RuntimeError` with its message |
| Charts.HeatmapStores | backend/app/utils/data_profiler.py:168-178 | a built heatmap is stored, JSON-safe, under `correlation_heatmap` on top of the loops' dictionary |
| Charts.Figure | backend/app/utils/data_profiler.py:257-258 | when plotly draws the chart, the result is `_ensure_json_serializable(fig.to_dict())` of its figure, which is JSON-safe; a plotly failure is passed on unchanged |
| Charts.SpecificVisualization | backend/app/utils/data_profiler.py:242-299 | an unsupported type raises its `ValueError` before anything else; a missing or unknown column raises "Invalid column specified"; a result is JSON-safe and passed the type's data check; every other failure is a `RuntimeError` starting "Failed to generate visualization: "; which figure a success returns is stated by `Charts.RequestServed` |
| Charts.InsufficientVariation | backend/app/utils/data_profiler.py:254-256 | a histogram or line of a non-varying column fails with the wrapped "Insufficient variation" message, whatever columns follow the first |
| Charts.NoBarData | backend/app/utils/data_profiler.py:261-263 | a bar chart of a valid column whose cells are all missing fails with the wrapped "No data available for visualization" |
| Charts.DataChecks | backend/app/utils/data_profiler.py:254-299 | each data check that fails raises exactly `RuntimeError("Failed to generate visualization: " + its message)`, never a `ValueError`: "Insufficient variation for visualization" for a histogram or line of a valid column with at most one distinct value, "No data available for visualization" for a bar chart of a valid column with no `value_counts()` entry, "Insufficient numeric columns for correlation" with at most one numeric column, and "Insufficient data for correlation" with more than one numeric column and at most one row |
| Charts.ValueErrorSources | backend/app/utils/data_profiler.py:294-296 | a `ValueError` comes only from the two argument checks or from plotly drawing the requested chart |
| Charts.Compute | backend/app/utils/data_profiler.py:254-292 | each failing data check gives its own `RuntimeError` message: variation for histogram and line, no data for bar, too few numeric columns or too few rows for correlation |
| Charts.Raised | backend/app/utils/data_profiler.py:294-299 | a `ValueError` is raised again as it is; any other error becomes a `RuntimeError` whose message is "Failed to generate visualization: " followed by the original message |
| Charts.RequestedIsPassChart | backend/app/utils/data_profiler.py:257-292 | the chart a request draws is the full pass's chart for that column: its 30-bin histogram, its bar chart of `value_counts()`, its ISO-text line for a datetime column, and the same correlation heatmap; a line of any other column is drawn over the data as it is |
| Charts.RequestServed | backend/app/utils/data_profiler.py:254-299 | a request that passes its data check returns the JSON-safe `fig.to_dict()` of the requested chart when plotly draws it, and otherwise raises plotly's error as the `except` clauses do |
| Charts.RequestOk | backend/app/utils/data_profiler.py:242-299 | a request succeeds exactly when its type is supported, its column exists where one is needed, its data check passes and plotly draws its chart |
| Summary.TypeCounts | backend/app/utils/data_profiler.py:195-201 | exactly one phrase per non-empty group, in the order numeric, categorical, datetime, each the group's size followed by its kind; none exactly when every group is empty |
| Summary.SpecialKinds | backend/app/utils/data_profiler.py:207-211 | "text" is listed exactly when some dtype name contains "text" in any case, and first; "special characters" exactly when some cell's text has a non-ASCII character |
| Summary.TotalMissing | backend/app/utils/data_profiler.py:216 | the total is zero exactly when no column has a missing value |
| Summary.EmptyCount | backend/app/utils/data_profiler.py:223 | the count is zero exactly when every column has cells |
| Summary.EmptyCountRows | backend/app/utils/data_profiler.py:223 | in a well-formed dataset every column is empty when there are no rows, and none otherwise |
| Summary.FirstStrong | backend/app/utils/data_profiler.py:230-235 | the pair found is the first off-diagonal entry above 0.8 in absolute value, in row-major order; none is found exactly when there is no such entry |
| Summary.KindsClause | backend/app/utils/data_profiler.py:203-204 | the type sentence applies exactly when some group is non-empty |
| Summary.SpecialClause | backend/app/utils/data_profiler.py:212-213 | the special-data sentence applies exactly when a text dtype or a non-ASCII character is present |
| Summary.MissingClause | backend/app/utils/data_profiler.py:217-220 | the missing-values sentence applies exactly when some column has a missing value |
| Summary.EmptyClause | backend/app/utils/data_profiler.py:224-225 | the empty-columns sentence applies exactly when some column is empty |
| Summary.CorrelationClause | backend/app/utils/data_profiler.py:228-238 | a correlation sentence needs two numeric columns and two rows |
| Summary.CorrelationClauseFacts | backend/app/utils/data_profiler.py:228-238 | the correlation sentence is missing exactly when no pair of distinct numeric columns is strong; when present, it names the first strong pair in row-major order |
| Summary.ClauseAt | backend/app/utils/data_profiler.py:189-238 | the clause in slot `k` has rank `k` |
| Summary.PresentFrom | backend/app/utils/data_profiler.py:189-238 | every emitted clause comes from its own slot |
| Summary.PresentAll | backend/app/utils/data_profiler.py:189-238 | every slot that holds a clause emits it |
| Summary.PresentOrdered | backend/app/utils/data_profiler.py:189-238 | the clauses come in strictly increasing rank |
| Summary.PresentFirst | backend/app/utils/data_profiler.py:189-192 | a filled first slot gives the first clause |
| Summary.PresentSnoc | backend/app/utils/data_profiler.py:189-238 | one more slot adds its clause when it applies |
| Summary.Clauses | backend/app/utils/data_profiler.py:185-238 | the shape clause comes first; the clauses are in order, each kind at most once; exactly the clauses that apply are present |
| Summary.Sentences | backend/app/utils/data_profiler.py:190-238 | one sentence per clause, in order |
| Summary.Render | backend/app/utils/data_profiler.py:190-238 | every clause is written as one sentence ending with a full stop |
| Summary.SentencesOpt | backend/app/utils/data_profiler.py:203-238 | a clause that applies gives one sentence; one that does not gives none |
| Summary.SentencesAppend | backend/app/utils/data_profiler.py:190-238 | the sentences of consecutive clause lists follow each other |
| Summary.ClausesInOrder | backend/app/utils/data_profiler.py:189-238 | the clauses are shape, types, special data, missing, empty, correlation, each when it applies |
| Summary.SummaryOpens | backend/app/utils/data_profiler.py:189-192 | the summary always opens with the rows-and-columns sentence |
| Summary.SummaryText | backend/app/utils/data_profiler.py:240 | the joined summary ends with a full stop |
| Summary.MissingReported | backend/app/utils/data_profiler.py:215-220 | the missing-values sentence is there exactly when a value is missing, and it reports the total over all columns |
| Summary.EmptyReported | backend/app/utils/data_profiler.py:222-225 | in a well-formed dataset the empty-columns sentence is there exactly when there are columns and no rows, and it then counts every column |
| Summary.KindsReported | backend/app/utils/data_profiler.py:194-204 | the type sentence is there exactly when some column is numeric, categorical or datetime |
| Summary.CorrelationReported | backend/app/utils/data_profiler.py:227-238 | with two numeric columns and two rows, there is no correlation sentence exactly when no pair of distinct numeric columns correlates above 0.8 in absolute value |
| Profiler.PlotLoop | backend/app/utils/data_profiler.py:141-166 | the loop's result is the pass run over the charts so far plus this loop's charts |
| Profiler.TopValuesLoop | backend/app/utils/data_profiler.py:96-101 | the loop builds `top_values` from the given entries |
| Profiler.DataProfiler.constructor | backend/app/utils/data_profiler.py:14-22 | the profiler keeps the dataset, and its numeric, categorical and datetime groups are those the classification defines |
| Profiler.DataProfiler.ProfileColumn | backend/app/utils/data_profiler.py:77-133 | `_profile_column` returns `Profile.ProfileOf` of the named column, with its membership in the numeric group; every cell of that column fits its dtype |
| Profiler.DataProfiler.GenerateProfile | backend/app/utils/data_profiler.py:64-71 | one profile per column, keyed by column name, in column order |
| Profiler.DataProfiler.GenerateVisualizations | backend/app/utils/data_profiler.py:135-183 | the method returns what the specification function `Charts.Visualizations` gives, success or failure |
| Profiler.DataProfiler.GenerateSpecificVisualization | backend/app/utils/data_profiler.py:242-299 | the method returns what `Charts.SpecificVisualization` gives, including which error is raised; `Charts.RequestServed` and `Charts.RequestOk` fix its success value to plotly's JSON-safe figure of the requested chart |
| Profiler.DataProfiler.PlotRequested | backend/app/utils/data_profiler.py:254-292 | the outcome is what `Charts.Compute` gives; once the data check passes, it is plotly's JSON-safe figure of the requested chart, or plotly's error |
| Profiler.DataProfiler.KindsSentence | backend/app/utils/data_profiler.py:194-204 | the type sentence, present exactly when its clause applies |
| Profiler.DataProfiler.SpecialSentence | backend/app/utils/data_profiler.py:206-213 | the special-data sentence, present exactly when its clause applies |
| Profiler.DataProfiler.MissingSentence | backend/app/utils/data_profiler.py:215-220 | the missing-values sentence, present exactly when its clause applies |
| Profiler.DataProfiler.EmptySentence | backend/app/utils/data_profiler.py:222-225 | the empty-columns sentence, present exactly when its clause applies |
| Profiler.DataProfiler.CorrelationSentence | backend/app/utils/data_profiler.py:227-238 | the correlation sentence, present exactly when its clause applies |
| Profiler.DataProfiler.GenerateSummary | backend/app/utils/data_profiler.py:185-240 | the summary is the sentences of `Summary.Clauses`, in order, joined by single spaces |

## Left out

- Logging (`logger.error`, data_profiler.py:180 and :298) is left out, because it does not change any result.
- Which exception classes a library raises is left out. plotly may fail with any `Host.Error`. The per-visualization path re-raises a `ValueError` from plotly unchanged, and the model keeps that.
- The numbers are not modelled: mean, standard deviation, median, skewness, kurtosis, Pearson correlation, and `str()` of finite floats, complex numbers and objects. They are opaque parameters of `Host.Libraries` and `Serializer.Runtime`.
- The figure plotly builds is left out. `fig.to_dict()` is whatever `Libraries.plot` returns for the chart description handed to it.
- `Profile.Percentage` is exact real arithmetic. The source's double-precision rounding is left out.
- `Summary.Render`: the `.2f` formatting of the correlation coefficient is the opaque `Libraries.fixed2`.
- Frames.WellFormed demands distinct column names. pandas allows duplicate labels, but then `df[col]` returns a frame rather than a series, and the profiler's code does not handle that.
- Frames.ValueCounts orders values with equal counts by first appearance. pandas leaves that order unspecified.
- Dtypes are reduced to the numpy integers and floats of every width, bool, object, category, datetime64[ns], and other dtypes by name (`Frames.Extension`). Time zones and NaT arithmetic beyond "missing" are left out.
- Columns.NumericIff, Columns.CategoricalIff: a column of an extension dtype is in no group in the model. pandas' `select_dtypes` (data_profiler.py:17 and :21) puts the nullable integer and float dtypes among the numbers and the nullable boolean dtype with `bool`, so in the source such columns get numeric statistics, charts and correlation, or a bar chart, which the model does not give them.
- Frames.ValueCounts: the categories of a `category` column are not modelled. pandas lists an unused category in `value_counts()` with count 0, so the source's `top_values` (data_profiler.py:97-101) can hold zero counts, and the bar guards `len(value_counts)` (data_profiler.py:150 and :262) count unused categories. An all-missing category column with declared categories therefore gets a `_bar` chart and no "No data available" error in the source, but not in the model. This reaches `Profile.TopOf`, `Charts.BarChart`, `Charts.Visualizations` and `Charts.SpecificVisualization`.
- Float values of `float16` and `float32` columns are exact reals in the model; their rounding to the narrower width is left out.
- Only ASCII letters are folded by `str.lower()`. Nothing in the model depends on other letters, since it only compares lowered dtype names with "text".
- Profile.ProfileOf takes membership in the numeric group as a parameter. The datetime test is made on the dtype, which `Columns.DatetimeIff` shows is the same thing.
- A dataset changed after construction is not modelled, because the class invariant ties the groups to the dataset. Such a change can make `df[col]` raise inside the visualization pass, and that failure is covered only as a failing chart.
- Serializer.ConvertItemUnboxes: every element of an array or a series is unboxed as `.tolist()` unboxes a numeric array. For an array or series of `object` dtype, `.tolist()` keeps numpy scalars as they are, so a numpy float infinity stored there becomes "inf" in the source (data_profiler.py:33-34) but stays a float infinity in the model. Element dtypes of arrays and series are not modelled.
- `json.dumps` failing with `OverflowError` is folded into `Serializer.Dumpable` being false. The model decides dumpability by the kind of value, not by its size.
