/** `_profile_column` and `generate_profile`: the per-column profile, its
    degenerate form for empty or entirely missing columns, the top values with
    their key truncation, and the numeric and temporal blocks. */
module Profile {
  import opened Text
  import opened Dicts
  import opened Outcomes
  import opened Serializer
  import opened Frames
  import opened Columns
  import opened Host

  /** Longer string keys of `top_values` are truncated to this many characters. */
  const MaxKeyLength: nat := 100
  /** `value_counts().head(5)`. */
  const TopCount: nat := 5
  /** Nanoseconds in a day: `Timedelta.days`. */
  const NsPerDay: int := 86_400_000_000_000

  datatype NumericStats = NumericStats(
    mean: Json, std: Json, min: Json, max: Json, median: Json, skewness: Json, kurtosis: Json)

  datatype TemporalStats = TemporalStats(minDate: Json, maxDate: Json, rangeDays: int)

  /** The dictionary `_profile_column` returns, field by field. */
  datatype ColumnProfile = ColumnProfile(
    dataType: string,
    missingCount: nat,
    missingPercentage: real,
    uniqueCount: nat,
    topValues: seq<(string, Json)>,
    numericStats: Option<NumericStats>,
    temporalStats: Option<TemporalStats>)

  /** The key a value gets in `top_values`: a string longer than the limit is
      truncated, anything else is passed through `str()`. */
  function KeyText(rt: Runtime, k: Value): (r: string)
    ensures k.PyStr? && |k.s| > MaxKeyLength ==>
      |r| == MaxKeyLength + 3 && r[..MaxKeyLength] == k.s[..MaxKeyLength] && r[MaxKeyLength..] == "..."
    ensures k.PyStr? && |k.s| <= MaxKeyLength ==> r == k.s
    ensures !k.PyStr? ==> r == Str(rt, k)
  {
    if k.PyStr? && |k.s| > MaxKeyLength then Truncate(k.s, MaxKeyLength) else Str(rt, k)
  }

  /** The first `n` entries: `head(n)`. */
  function Head<T>(s: seq<T>, n: nat): (r: seq<T>)
    ensures |r| <= n && |r| <= |s|
    ensures |s| <= n ==> r == s
    ensures r == s[..|r|]
  {
    if |s| <= n then s else s[..n]
  }

  /** One `value_counts()` entry as a `top_values` item: the key text and
      the normalised numpy count. */
  function TopEntry(rt: Runtime, d: DType, e: (Cell, nat)): (r: (string, Json))
    ensures r.0 == KeyText(rt, ScalarOf(d, e.0)) && r.1 == JInt(e.1)
  {
    (KeyText(rt, ScalarOf(d, e.0)), Convert(rt, NpInt(e.1)))
  }

  /** The `value_counts()` entries as `top_values` items, in order. */
  function TopEntries(rt: Runtime, d: DType, vc: seq<(Cell, nat)>): (r: seq<(string, Json)>)
    ensures |r| == |vc| && forall k :: 0 <= k < |vc| ==> r[k] == TopEntry(rt, d, vc[k])
  {
    seq(|vc|, k requires 0 <= k < |vc| => TopEntry(rt, d, vc[k]))
  }

  /** The `top_values` dictionary built from the given `value_counts()`
      entries: each key maps to its count, and when two values give the same
      key text the later count replaces the earlier one where it stands. */
  function TopValues(rt: Runtime, d: DType, vc: seq<(Cell, nat)>): (r: seq<(string, Json)>)
    ensures DistinctKeys(r) && |r| <= |vc|
  {
    Collect(TopEntries(rt, d, vc))
  }

  /** One more `value_counts()` entry is one more assignment: its key text
      is set to its count. */
  lemma {:induction false} TopValuesStep(rt: Runtime, d: DType, vc: seq<(Cell, nat)>, i: nat, key: string, count: Json)
    requires i < |vc|
    requires key == KeyText(rt, ScalarOf(d, vc[i].0)) && count == Convert(rt, NpInt(vc[i].1))
    ensures DistinctKeys(TopValues(rt, d, vc[..i]))
    ensures TopValues(rt, d, vc[..i + 1]) == Put(TopValues(rt, d, vc[..i]), key, count)
  {
    assert TopEntries(rt, d, vc[..i + 1]) == TopEntries(rt, d, vc[..i]) + [TopEntry(rt, d, vc[i])];
    CollectSnoc(TopEntries(rt, d, vc[..i]), TopEntry(rt, d, vc[i]));
  }

  /** Every item of `top_values` comes from one of the entries. */
  lemma {:induction false} TopValuesFrom(rt: Runtime, d: DType, vc: seq<(Cell, nat)>)
    ensures forall e :: e in TopValues(rt, d, vc) ==> exists k :: 0 <= k < |vc| && e == TopEntry(rt, d, vc[k])
  {
    CollectFrom(TopEntries(rt, d, vc));
  }

  /** Every entry's key is present in `top_values`. */
  lemma {:induction false} TopValuesKeys(rt: Runtime, d: DType, vc: seq<(Cell, nat)>, k: nat)
    requires k < |vc|
    ensures TopEntry(rt, d, vc[k]).0 in KeysOf(TopValues(rt, d, vc))
  {
    CollectKeys(TopEntries(rt, d, vc), k);
  }

  /** The numeric block: every statistic normalised; skewness and kurtosis are
      the integer 0 for two values or fewer. */
  function NumericStatsOf(lib: Libraries, values: seq<Value>): NumericStats
  {
    var rt := lib.rt;
    NumericStats(
      Convert(rt, lib.statistic(Mean, values)),
      Convert(rt, lib.statistic(Std, values)),
      Convert(rt, lib.statistic(Min, values)),
      Convert(rt, lib.statistic(Max, values)),
      Convert(rt, lib.statistic(Median, values)),
      Convert(rt, if |values| > 2 then lib.statistic(Skew, values) else PyInt(0)),
      Convert(rt, if |values| > 2 then lib.statistic(Kurtosis, values) else PyInt(0)))
  }

  /** The temporal block: first and last instant in ISO form and the whole days between. */
  function TemporalStatsOf(rt: Runtime, ts: seq<int>): (r: TemporalStats)
    requires |ts| > 0
    ensures r.rangeDays >= 0
    ensures r.rangeDays * NsPerDay <= MaxOf(ts) - MinOf(ts) < (r.rangeDays + 1) * NsPerDay
    ensures r.minDate == JString(rt.isoformat(MinOf(ts))) && r.maxDate == JString(rt.isoformat(MaxOf(ts)))
  {
    var lo := MinOf(ts);
    var hi := MaxOf(ts);
    TemporalStats(Convert(rt, Timestamp(lo)), Convert(rt, Timestamp(hi)), (hi - lo) / NsPerDay)
  }

  /** The non-missing values of a column, as pandas hands them to a statistic. */
  function ValuesOf(col: Column): (r: seq<Value>)
    ensures |r| == |NonNa(col.cells)|
  {
    var nn := NonNa(col.cells);
    seq(|nn|, k requires 0 <= k < |nn| => ScalarOf(col.dtype, nn[k]))
  }

  /** Every cell is one a column of its dtype can hold. */
  predicate ProfileReady(col: Column)
  {
    forall k :: 0 <= k < |col.cells| ==> Fits(col.dtype, col.cells[k])
  }

  /** The ratio behind `Percentage`: a fraction that is whole exactly when every cell is missing. */
  lemma {:induction false} RatioFacts(missing: nat, total: nat)
    requires missing <= total && total > 0
    ensures var q := (missing as real) / (total as real);
      0.0 <= q <= 1.0 && (q == 1.0 <==> missing == total) && q * (total as real) == missing as real
  {
    var m, t := missing as real, total as real;
    var q := m / t;
    assert q * t == m;
    assert (q - 1.0) * t == m - t;
    if m == t {
      assert (q - 1.0) * t == 0.0;
    }
    if q == 1.0 {
      assert m == 1.0 * t;
    }
  }

  /** `missing_count / total_count * 100`. */
  function Percentage(missing: nat, total: nat): (r: real)
    requires missing <= total && total > 0
    ensures 0.0 <= r <= 100.0
    ensures r == 100.0 <==> missing == total
    ensures r * (total as real) == 100.0 * (missing as real)
  {
    RatioFacts(missing, total);
    (missing as real) / (total as real) * 100.0
  }

  /** `top_values` of a column with some value: at most five items, at least one. */
  function TopOf(rt: Runtime, col: Column): (r: seq<(string, Json)>)
    requires !AllNa(col.cells)
    ensures 0 < |r| <= TopCount && |r| <= NUnique(col.cells)
  {
    var vc := ValueCounts(col.cells);
    NUniqueZero(col.cells);
    TopValuesKeys(rt, col.dtype, Head(vc, TopCount), 0);
    TopValues(rt, col.dtype, Head(vc, TopCount))
  }

  /** The numeric block of a column with some value, when it is numeric. */
  function NumericBlock(lib: Libraries, col: Column, inNumeric: bool): (r: Option<NumericStats>)
    requires !AllNa(col.cells)
    ensures r.Some? <==> inNumeric
    ensures r.Some? && |NonNa(col.cells)| <= 2 ==> r.value.skewness == JInt(0) && r.value.kurtosis == JInt(0)
  {
    NaCountAll(col.cells);
    var values := ValuesOf(col);
    if inNumeric && |values| > 0 then Some(NumericStatsOf(lib, values)) else None
  }

  /** The temporal block of a datetime column with some value. */
  function TemporalBlock(rt: Runtime, col: Column): (r: Option<TemporalStats>)
    requires !AllNa(col.cells) && ProfileReady(col)
    ensures r.Some? <==> IsDatetimeDType(col.dtype)
  {
    NaCountAll(col.cells);
    if IsDatetimeDType(col.dtype) && |NonNa(col.cells)| > 0 then
      TimesOfNonNa(col.dtype, col.cells);
      Some(TemporalStatsOf(rt, TimesOf(col.cells)))
    else None
  }

  /** `_profile_column` for a column, given whether the column is one of the
      numeric columns. The datetime columns are exactly those of dtype
      datetime64 (`Columns.DatetimeIff`), so that test is made on the dtype. */
  function ProfileOf(lib: Libraries, col: Column, inNumeric: bool): (r: ColumnProfile)
    requires ProfileReady(col)
    ensures r.dataType == DTypeName(col.dtype)
    ensures r.missingCount == NaCount(col.cells)
    ensures r.uniqueCount == NUnique(col.cells)
    ensures 0.0 <= r.missingPercentage <= 100.0
    ensures r.missingPercentage == 100.0 <==> AllNa(col.cells)
    ensures !AllNa(col.cells) ==> r.missingPercentage == Percentage(r.missingCount, |col.cells|)
    ensures |r.topValues| <= TopCount && |r.topValues| <= r.uniqueCount
    ensures r.topValues == [] <==> AllNa(col.cells)
    ensures r.numericStats.Some? <==> inNumeric && !AllNa(col.cells)
    ensures r.temporalStats.Some? <==> IsDatetimeDType(col.dtype) && !AllNa(col.cells)
    ensures r.numericStats.Some? && |NonNa(col.cells)| <= 2 ==>
      r.numericStats.value.skewness == JInt(0) && r.numericStats.value.kurtosis == JInt(0)
  {
    var cells := col.cells;
    NaCountAll(cells);
    NUniqueZero(cells);
    if AllNa(cells) then
      ColumnProfile(DTypeName(col.dtype), |cells|, 100.0, 0, [], None, None)
    else
      var p := Percentage(NaCount(cells), |cells|);
      ColumnProfile(DTypeName(col.dtype), NaCount(cells), p,
        NUnique(cells), TopOf(lib.rt, col), NumericBlock(lib, col, inNumeric), TemporalBlock(lib.rt, col))
  }

  /** The profile of a column with some value, block by block. */
  lemma {:induction false} ProfileParts(lib: Libraries, col: Column, inNumeric: bool)
    requires ProfileReady(col) && !AllNa(col.cells)
    ensures ProfileOf(lib, col, inNumeric) == ColumnProfile(DTypeName(col.dtype), NaCount(col.cells),
      Percentage(NaCount(col.cells), |col.cells|), NUnique(col.cells), TopOf(lib.rt, col),
      NumericBlock(lib, col, inNumeric), TemporalBlock(lib.rt, col))
  {
  }

  /** The keys every profile has, in the order they are assigned. */
  const BasicKeys: seq<string> := ["data_type", "missing_count", "missing_percentage", "unique_count", "top_values"]

  /** The profile as the JSON dictionary `_profile_column` returns, keys in
      the order they are assigned. */
  function ProfileJson(p: ColumnProfile): (j: Json)
    ensures j.JObject?
    ensures |j.entries| == 5 + (if p.numericStats.Some? then 1 else 0) + (if p.temporalStats.Some? then 1 else 0)
    ensures forall k :: 0 <= k < 5 ==> j.entries[k].0 == BasicKeys[k]
    ensures j.entries[4] == ("top_values", JObject(p.topValues))
    ensures p.numericStats.Some? ==> j.entries[5] == ("numeric_stats", NumericJson(p.numericStats.value))
    ensures p.temporalStats.Some? ==> j.entries[|j.entries| - 1] == ("temporal_stats", TemporalJson(p.temporalStats.value))
  {
    var base := [
      ("data_type", JString(p.dataType)),
      ("missing_count", JInt(p.missingCount)),
      ("missing_percentage", JFloat(Finite(p.missingPercentage))),
      ("unique_count", JInt(p.uniqueCount)),
      ("top_values", JObject(p.topValues))];
    var withNumeric := match p.numericStats
      case None => base
      case Some(s) => base + [("numeric_stats", NumericJson(s))];
    var all := match p.temporalStats
      case None => withNumeric
      case Some(t) => withNumeric + [("temporal_stats", TemporalJson(t))];
    JObject(all)
  }

  /** The `numeric_stats` dictionary. */
  function NumericJson(s: NumericStats): (j: Json)
    ensures j.JObject?
  {
    JObject([("mean", s.mean), ("std", s.std), ("min", s.min), ("max", s.max),
      ("median", s.median), ("skewness", s.skewness), ("kurtosis", s.kurtosis)])
  }

  /** The `temporal_stats` dictionary. */
  function TemporalJson(t: TemporalStats): (j: Json)
    ensures j.JObject?
  {
    JObject([("min_date", t.minDate), ("max_date", t.maxDate), ("date_range_days", JInt(t.rangeDays))])
  }

  /** JSON-safe statistics make a JSON-safe `numeric_stats`: its seven keys are distinct. */
  lemma {:induction false} NumericJsonValid(s: NumericStats)
    requires ValidJson(s.mean) && ValidJson(s.std) && ValidJson(s.min) && ValidJson(s.max)
    requires ValidJson(s.median) && ValidJson(s.skewness) && ValidJson(s.kurtosis)
    ensures ValidJson(NumericJson(s))
  {
  }

  /** JSON-safe dates make a JSON-safe `temporal_stats`. */
  lemma {:induction false} TemporalJsonValid(t: TemporalStats)
    requires ValidJson(t.minDate) && ValidJson(t.maxDate)
    ensures ValidJson(TemporalJson(t))
  {
  }

  /** A profile whose parts are JSON-safe is JSON-safe as a whole: its own
      keys are distinct. */
  lemma {:induction false} ProfileJsonParts(p: ColumnProfile)
    requires ValidJson(JObject(p.topValues))
    requires p.numericStats.Some? ==> ValidJson(NumericJson(p.numericStats.value))
    requires p.temporalStats.Some? ==> ValidJson(TemporalJson(p.temporalStats.value))
    ensures ValidJson(ProfileJson(p))
  {
  }

  /** Every profile is JSON-safe: no NaN anywhere and distinct keys in every
      object, `top_values` included. */
  lemma {:induction false} ProfileJsonValid(lib: Libraries, col: Column, inNumeric: bool)
    requires ProfileReady(col)
    ensures ValidJson(ProfileJson(ProfileOf(lib, col, inNumeric)))
  {
    var p := ProfileOf(lib, col, inNumeric);
    ProfileTop(lib, col, inNumeric);
    if !AllNa(col.cells) {
      var h := Head(ValueCounts(col.cells), TopCount);
      TopValuesFrom(lib.rt, col.dtype, h);
      forall k | 0 <= k < |p.topValues| ensures ValidJson(p.topValues[k].1) {
        assert p.topValues[k] in TopValues(lib.rt, col.dtype, h);
      }
    }
    if p.numericStats.Some? {
      NumericJsonValid(p.numericStats.value);
    }
    if p.temporalStats.Some? {
      TemporalJsonValid(p.temporalStats.value);
    }
    ProfileJsonParts(p);
  }

  /** An empty or entirely missing column is profiled as exactly the five
      basic keys: its dtype, every cell missing, 100 percent, no distinct
      value, no top values, and no statistics block. */
  lemma {:induction false} DegenerateProfile(lib: Libraries, col: Column, inNumeric: bool)
    requires ProfileReady(col) && AllNa(col.cells)
    ensures ProfileJson(ProfileOf(lib, col, inNumeric)) == JObject([
      ("data_type", JString(DTypeName(col.dtype))),
      ("missing_count", JInt(|col.cells|)),
      ("missing_percentage", JFloat(Finite(100.0))),
      ("unique_count", JInt(0)),
      ("top_values", JObject([]))])
  {
    NaCountAll(col.cells);
  }

  /** Every key of `top_values` is the text of one of the five most frequent
      values, and a long string key is cut to 100 characters plus "...". */
  lemma {:induction false} TopValueKeys(lib: Libraries, col: Column, inNumeric: bool, e: (string, Json))
    requires ProfileReady(col)
    requires e in ProfileOf(lib, col, inNumeric).topValues
    ensures exists k :: (0 <= k < TopCount && k < |ValueCounts(col.cells)| &&
      e == (KeyText(lib.rt, ScalarOf(col.dtype, ValueCounts(col.cells)[k].0)), JInt(ValueCounts(col.cells)[k].1)) &&
      (ValueCounts(col.cells)[k].0.CStr? ==> |e.0| <= MaxKeyLength + 3))
  {
    var vc := ValueCounts(col.cells);
    var h := Head(vc, TopCount);
    ProfileTop(lib, col, inNumeric);
    TopValuesFrom(lib.rt, col.dtype, h);
    var k :| 0 <= k < |h| && e == TopEntry(lib.rt, col.dtype, h[k]);
    assert h[k] == vc[k];
    KeyTextBounded(lib.rt, col.dtype, vc[k].0);
  }

  /** The `top_values` of a profile are those of its five most frequent values. */
  lemma {:induction false} ProfileTop(lib: Libraries, col: Column, inNumeric: bool)
    requires ProfileReady(col)
    ensures ProfileOf(lib, col, inNumeric).topValues ==
      if AllNa(col.cells) then [] else TopValues(lib.rt, col.dtype, Head(ValueCounts(col.cells), TopCount))
  {
    if !AllNa(col.cells) {
      ProfileParts(lib, col, inNumeric);
    }
  }

  /** A string value's key is at most 103 characters. */
  lemma {:induction false} KeyTextBounded(rt: Runtime, d: DType, c: Cell)
    ensures c.CStr? ==> |KeyText(rt, ScalarOf(d, c))| <= MaxKeyLength + 3
  {
    if c.CStr? {
      assert ScalarOf(d, c) == PyStr(c.s);
    }
  }

  /** A column that holds an infinity is not numeric, so its profile has no
      numeric block, whatever its dtype. */
  lemma {:induction false} InfiniteColumnHasNoStats(lib: Libraries, ds: Dataset, k: nat)
    requires Frames.WellFormed(ds) && k < |ds.columns| && HasInfinite(ds.columns[k].cells)
    ensures ds.columns[k].name !in NumericColumns(ds)
    ensures ProfileReady(ds.columns[k])
    ensures ProfileOf(lib, ds.columns[k], ds.columns[k].name in NumericColumns(ds)).numericStats == None
  {
    NumericIff(ds, k);
  }

  /** The profile of every column, in column order. */
  function ColumnProfiles(lib: Libraries, ds: Dataset): (ps: seq<ColumnProfile>)
    requires Frames.WellFormed(ds)
    ensures |ps| == |ds.columns| && forall k :: 0 <= k < |ps| ==> ps[k] == ColumnProfileIn(lib, ds, k)
  {
    seq(|ds.columns|, k requires 0 <= k < |ds.columns| => ColumnProfileIn(lib, ds, k))
  }

  /** `generate_profile` after `n` iterations: a profile per column, keyed by
      column name, in column order. */
  function Profiles(lib: Libraries, ds: Dataset, n: nat): (r: seq<(string, ColumnProfile)>)
    requires Frames.WellFormed(ds) && n <= |ds.columns|
    ensures |r| == n
    ensures forall k :: 0 <= k < n ==> r[k].0 == ds.columns[k].name && r[k].1 == ColumnProfileIn(lib, ds, k)
  {
    Zip(Names(ds.columns), ColumnProfiles(lib, ds), n)
  }

  /** Column names are distinct, so each `profile[col] = ...` of the loop adds
      a new key at the end: one iteration is the dictionary update. */
  lemma {:induction false} ProfilesStep(lib: Libraries, ds: Dataset, n: nat)
    requires Frames.WellFormed(ds) && n < |ds.columns|
    ensures DistinctKeys(Profiles(lib, ds, n))
    ensures Profiles(lib, ds, n + 1) ==
      Put(Profiles(lib, ds, n), ds.columns[n].name, ColumnProfileIn(lib, ds, n))
  {
    ZipStep(Names(ds.columns), ColumnProfiles(lib, ds), n + 1);
  }

  /** The profile has one entry per column, keyed by the column's name. */
  lemma {:induction false} ProfilesKeys(lib: Libraries, ds: Dataset)
    requires Frames.WellFormed(ds)
    ensures DistinctKeys(Profiles(lib, ds, |ds.columns|))
    ensures KeysOf(Profiles(lib, ds, |ds.columns|)) == Names(ds.columns)
  {
  }

  /** The profile of column `k` with the profiler's classification. */
  function ColumnProfileIn(lib: Libraries, ds: Dataset, k: nat): ColumnProfile
    requires Frames.WellFormed(ds) && k < |ds.columns|
  {
    var col := ds.columns[k];
    ProfileOf(lib, col, col.name in NumericColumns(ds))
  }
}
