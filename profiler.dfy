/** The `DataProfiler` object: the dataset it was built on, the three column
    groups its constructor computes, and its operations as methods, each
    proved against the function of the other modules that specifies it. */
module Profiler {
  import opened Text
  import opened Dicts
  import opened Outcomes
  import opened Serializer
  import opened Frames
  import opened Columns
  import opened Host
  import opened Profile
  import opened Charts
  import opened Summary

  /** One of the per-column loops of `generate_visualizations`, run over
      `names` after the jobs `done` have already run into `viz`: the first
      chart that fails ends the loop with its error. */
  method PlotLoop(lib: Libraries, ds: Dataset, l: Loop, names: seq<string>, ghost done: seq<Job>,
                  viz: seq<(string, Value)>) returns (r: Result<seq<(string, Value)>, Error>)
    requires Run(lib, done) == Ok(viz)
    ensures r == Run(lib, done + Jobs(lib.rt, ds, l, names))
  {
    var acc := viz;
    assert done + Jobs(lib.rt, ds, l, names[..0]) == done;
    for i := 0 to |names|
      invariant Run(lib, done + Jobs(lib.rt, ds, l, names[..i])) == Ok(acc)
    {
      var name := names[i];
      if Wanted(ds, l, name) {
        var fig := lib.plot(ChartFor(lib.rt, ds, l, name));
        if fig.Err? {
          LoopFails(lib, ds, l, done, names, i, acc);
          return Err(fig.error);
        }
        LoopStores(lib, ds, l, done, names, i, acc);
        acc := Put(acc, name + Suffix(l), EnsureJson(lib.rt, fig.value));
      } else {
        LoopSkips(lib, ds, l, done, names, i, acc);
      }
    }
    assert names[..|names|] == names;
    r := Ok(acc);
  }

  /** The `top_values` loop of `_profile_column` over the `value_counts()`
      entries it is given: the key is `str(value)`, cut to 100 characters and
      "..." for a longer string, and the count is stored under it. */
  method TopValuesLoop(rt: Runtime, d: DType, head: seq<(Cell, nat)>) returns (top: seq<(string, Json)>)
    ensures top == TopValues(rt, d, head)
  {
    top := [];
    for i := 0 to |head|
      invariant top == TopValues(rt, d, head[..i])
    {
      var (value, count) := head[i];
      var k := ScalarOf(d, value);
      var key := Str(rt, k);
      if k.PyStr? && |k.s| > MaxKeyLength {
        key := Truncate(k.s, MaxKeyLength);
      }
      TopValuesStep(rt, d, head, i, key, Convert(rt, NpInt(count)));
      top := Put(top, key, Convert(rt, NpInt(count)));
    }
    assert head[..|head|] == head;
  }

  class DataProfiler {
    var df: Dataset
    var numericCols: seq<string>
    var categoricalCols: seq<string>
    var datetimeCols: seq<string>
    /** pandas, numpy, scipy and plotly, as the functions the profiler calls. */
    const lib: Libraries

    /** The column groups are those of the dataset the profiler holds. */
    ghost predicate Valid()
      reads this
    {
      Frames.WellFormed(df) && numericCols == NumericColumns(df) &&
      categoricalCols == CategoricalColumns(df) && datetimeCols == DatetimeColumns(df)
    }

    /** `__init__`: keep the dataset and sort its columns into the groups. */
    constructor (df: Dataset, lib: Libraries)
      requires Frames.WellFormed(df)
      ensures Valid() && this.df == df && this.lib == lib
    {
      this.df := df;
      this.lib := lib;
      var numeric, categorical, datetime := [], [], [];
      for k := 0 to |df.columns|
        invariant numeric == SelectNames(df.columns[..k], IsNumericColumn)
        invariant categorical == SelectNames(df.columns[..k], IsCategoricalColumn)
        invariant datetime == SelectNames(df.columns[..k], IsDatetimeColumn)
      {
        var col := df.columns[k];
        SelectStep(df.columns, IsNumericColumn, k);
        SelectStep(df.columns, IsCategoricalColumn, k);
        SelectStep(df.columns, IsDatetimeColumn, k);
        if IsNumberDType(col.dtype) && !(AllNa(col.cells) || HasInfinite(col.cells)) {
          numeric := numeric + [col.name];
        }
        if IsCategoricalDType(col.dtype) {
          categorical := categorical + [col.name];
        }
        if IsDatetimeDType(col.dtype) {
          datetime := datetime + [col.name];
        }
      }
      assert df.columns[..|df.columns|] == df.columns;
      this.numericCols := numeric;
      this.categoricalCols := categorical;
      this.datetimeCols := datetime;
    }

    /** `_profile_column`. */
    method ProfileColumn(column: string) returns (p: ColumnProfile)
      requires Valid() && column in Names(df.columns)
      ensures ProfileReady(ColumnOf(df, column))
      ensures p == ProfileOf(lib, ColumnOf(df, column), column in numericCols)
    {
      var series := ColumnOf(df, column);
      var index := IndexOf(df.columns, column);
      assert series == df.columns[index];
      var cells := series.cells;
      NaCountAll(cells);
      NUniqueZero(cells);
      if |cells| == 0 || AllNa(cells) {
        p := ColumnProfile(DTypeName(series.dtype), |cells|, 100.0, 0, [], None, None);
        return;
      }
      var missing := NaCount(cells);
      var total := |cells|;
      var top := TopValuesLoop(lib.rt, series.dtype, Head(ValueCounts(cells), TopCount));
      assert top == TopOf(lib.rt, series);
      var numeric := None;
      if column in numericCols {
        var nonNull := ValuesOf(series);
        if |nonNull| > 0 {
          numeric := Some(NumericStatsOf(lib, nonNull));
        }
      }
      assert numeric == NumericBlock(lib, series, column in numericCols);
      var temporal := None;
      DatetimeIff(df, index);
      if column in datetimeCols {
        var nonNull := NonNa(cells);
        if |nonNull| > 0 {
          TimesOfNonNa(series.dtype, cells);
          temporal := Some(TemporalStatsOf(lib.rt, TimesOf(cells)));
        }
      }
      assert temporal == TemporalBlock(lib.rt, series);
      ProfileParts(lib, series, column in numericCols);
      p := ColumnProfile(DTypeName(series.dtype), missing, Percentage(missing, total), NUnique(cells), top, numeric, temporal);
    }

    /** `generate_profile`: one profile per column, keyed by its name, in column order. */
    method GenerateProfile() returns (profile: seq<(string, ColumnProfile)>)
      requires Valid()
      ensures profile == Profiles(lib, df, |df.columns|)
      ensures DistinctKeys(profile) && KeysOf(profile) == Names(df.columns)
    {
      profile := [];
      for i := 0 to |df.columns|
        invariant profile == Profiles(lib, df, i)
      {
        var name := df.columns[i].name;
        IndexOfColumn(df, i);
        var p := ProfileColumn(name);
        assert p == ColumnProfileIn(lib, df, i);
        ProfilesStep(lib, df, i);
        profile := Put(profile, name, p);
      }
      ProfilesKeys(lib, df);
    }

    /** `generate_visualizations`. */
    method GenerateVisualizations() returns (r: Result<seq<(string, Value)>, Error>)
      requires Valid()
      ensures r == Visualizations(lib, df)
    {
      ghost var h := Jobs(lib.rt, df, HistogramLoop, numericCols);
      ghost var b := Jobs(lib.rt, df, BarLoop, categoricalCols);
      ghost var l := Jobs(lib.rt, df, LineLoop, datetimeCols);
      ghost var m := HeatmapJobs(lib, df);
      assert Plan(lib, df) == h + b + l + m;
      Regroup(h, b, l, m);
      assert [] + h == h;
      var viz := PlotLoop(lib, df, HistogramLoop, numericCols, [], []);
      if viz.Err? {
        PassFails(lib, df, h, b + l + m);
        return Err(RuntimeError(PassFailure + viz.error.message));
      }
      viz := PlotLoop(lib, df, BarLoop, categoricalCols, h, viz.value);
      if viz.Err? {
        PassFails(lib, df, h + b, l + m);
        return Err(RuntimeError(PassFailure + viz.error.message));
      }
      viz := PlotLoop(lib, df, LineLoop, datetimeCols, h + b, viz.value);
      if viz.Err? {
        PassFails(lib, df, h + b + l, m);
        return Err(RuntimeError(PassFailure + viz.error.message));
      }
      var acc := viz.value;
      if |numericCols| > 1 && df.rows > 1 {
        var fig := lib.plot(HeatmapChart(lib, df));
        if fig.Err? {
          HeatmapFails(lib, df, acc);
          return Err(RuntimeError(PassFailure + fig.error.message));
        }
        HeatmapStores(lib, df, acc);
        acc := Put(acc, HeatmapKey, EnsureJson(lib.rt, fig.value));
      } else {
        NoHeatmap(lib, df, acc);
      }
      r := Ok(acc);
    }

    /** `generate_specific_visualization`: the argument checks first, as
        `ValueError`s raised unchanged, then the data checks and plotly, whose
        failures come out as a `RuntimeError` naming the cause. */
    method GenerateSpecificVisualization(vizType: string, columns: Option<seq<string>>) returns (r: Result<Value, Error>)
      requires Valid()
      ensures r == SpecificVisualization(lib, df, vizType, columns)
    {
      if vizType !in VizTypes {
        return Err(ValueError("Unsupported visualization type: " + vizType));
      }
      if vizType != "correlation" && InvalidColumns(df, columns) {
        return Err(ValueError("Invalid column specified"));
      }
      var outcome := PlotRequested(vizType, columns);
      if outcome.Err? && !outcome.error.ValueError? {
        return Err(RuntimeError(PointFailure + outcome.error.message));
      }
      r := outcome;
    }

    /** The data check for the requested chart and the chart itself, once the
        type and the column have been accepted. */
    method PlotRequested(vizType: string, columns: Option<seq<string>>) returns (outcome: Result<Value, Error>)
      requires Valid()
      requires Admitted(df, vizType, columns)
      ensures outcome == Compute(lib, df, vizType, columns)
      ensures Accepted(df, vizType, columns) ==> outcome == Figure(lib, Requested(lib, df, vizType, columns))
    {
      if vizType == "correlation" {
        if |numericCols| <= 1 {
          outcome := Err(RuntimeError("Insufficient numeric columns for correlation"));
        } else if df.rows <= 1 {
          outcome := Err(RuntimeError("Insufficient data for correlation"));
        } else {
          outcome := Figure(lib, HeatmapChart(lib, df));
        }
      } else {
        var name := columns.value[0];
        var unique := NUnique(ColumnOf(df, name).cells);
        if vizType == "histogram" {
          if unique <= 1 {
            outcome := Err(RuntimeError("Insufficient variation for visualization"));
          } else {
            outcome := Figure(lib, Histogram(df, name, HistogramBins));
          }
        } else if vizType == "bar" {
          if unique == 0 {
            outcome := Err(RuntimeError("No data available for visualization"));
          } else {
            outcome := Figure(lib, BarChart(ColumnOf(df, name)));
          }
        } else {
          if unique <= 1 {
            outcome := Err(RuntimeError("Insufficient variation for visualization"));
          } else {
            var plotted := if name in datetimeCols then IsoFrame(lib.rt, df, name) else df;
            outcome := Figure(lib, Line(plotted, name));
          }
        }
      }
    }

    /** The `type_counts` part of `generate_summary`. */
    method KindsSentence() returns (p: seq<string>)
      requires Valid()
      ensures p == Sentences(lib, Opt(ClauseAt(lib, df, 1)))
    {
      var typeCounts := [];
      if |numericCols| > 0 {
        typeCounts := typeCounts + [DecimalText(|numericCols|) + " numeric columns"];
      }
      if |categoricalCols| > 0 {
        typeCounts := typeCounts + [DecimalText(|categoricalCols|) + " categorical columns"];
      }
      if |datetimeCols| > 0 {
        typeCounts := typeCounts + [DecimalText(|datetimeCols|) + " datetime columns"];
      }
      assert typeCounts == TypeCounts(df);
      SentencesOpt(lib, ClauseAt(lib, df, 1));
      p := [];
      if typeCounts != [] {
        assert ClauseAt(lib, df, 1) == Some(Kinds(typeCounts));
        p := ["It contains " + Join(typeCounts, ", ") + "."];
      } else {
        assert ClauseAt(lib, df, 1) == None;
      }
    }

    /** The `special_types` part of `generate_summary`. */
    method SpecialSentence() returns (p: seq<string>)
      requires Valid()
      ensures p == Sentences(lib, Opt(ClauseAt(lib, df, 2)))
    {
      var specialTypes := [];
      if HasTextDType(df) {
        specialTypes := specialTypes + ["text"];
      }
      if HasSpecialChars(lib.rt, df) {
        specialTypes := specialTypes + ["special characters"];
      }
      assert specialTypes == SpecialKinds(lib.rt, df);
      SentencesOpt(lib, ClauseAt(lib, df, 2));
      p := [];
      if specialTypes != [] {
        assert ClauseAt(lib, df, 2) == Some(Special(specialTypes));
        p := ["The dataset includes " + Join(specialTypes, " and ") + " data."];
      } else {
        assert ClauseAt(lib, df, 2) == None;
      }
    }

    /** The missing-values part of `generate_summary`. */
    method MissingSentence() returns (p: seq<string>)
      requires Valid()
      ensures p == Sentences(lib, Opt(ClauseAt(lib, df, 3)))
    {
      p := [];
      var totalMissing := TotalMissing(df.columns);
      SentencesOpt(lib, ClauseAt(lib, df, 3));
      if totalMissing > 0 {
        assert ClauseAt(lib, df, 3) == Some(Missing(totalMissing));
        p := ["There are " + DecimalText(totalMissing) + " missing values across all columns."];
      } else {
        assert ClauseAt(lib, df, 3) == None;
      }
    }

    /** The empty-columns part of `generate_summary`. */
    method EmptySentence() returns (p: seq<string>)
      requires Valid()
      ensures p == Sentences(lib, Opt(ClauseAt(lib, df, 4)))
    {
      p := [];
      var emptyCols := EmptyCount(df.columns);
      SentencesOpt(lib, ClauseAt(lib, df, 4));
      if emptyCols > 0 {
        assert ClauseAt(lib, df, 4) == Some(Empty(emptyCols));
        p := ["There are " + DecimalText(emptyCols) + " empty columns."];
      } else {
        assert ClauseAt(lib, df, 4) == None;
      }
    }

    /** The correlation part of `generate_summary`. */
    method CorrelationSentence() returns (p: seq<string>)
      requires Valid()
      ensures p == Sentences(lib, Opt(ClauseAt(lib, df, 5)))
    {
      SentencesOpt(lib, ClauseAt(lib, df, 5));
      p := [];
      if |numericCols| > 1 && df.rows > 1 {
        var corr := CorrMatrix(lib, df, numericCols);
        var pair := FirstStrong(corr, 0, 0);
        if pair.Some? {
          var (x, y) := pair.value;
          assert ClauseAt(lib, df, 5) == Some(Correlation(corr[x][y], numericCols[x], numericCols[y]));
          p := ["There is a strong correlation (" + lib.fixed2(corr[x][y]) + ") between " +
                numericCols[x] + " and " + numericCols[y] + "."];
        } else {
          assert ClauseAt(lib, df, 5) == None;
        }
      } else {
        assert ClauseAt(lib, df, 5) == None;
      }
    }

    /** `generate_summary`: the shape sentence, then the sentences of the
        clauses that apply, in order, joined by single spaces. */
    method GenerateSummary() returns (s: string)
      requires Valid()
      ensures s == SummaryText(lib, df)
    {
      var summaryParts := ["This dataset has " + DecimalText(df.rows) + " rows and " + DecimalText(|df.columns|) + " columns."];
      ghost var cs := [Shape(df.rows, |df.columns|)];
      assert summaryParts == Sentences(lib, cs);
      var kinds := KindsSentence();
      SentencesAppend(lib, cs, Opt(ClauseAt(lib, df, 1)));
      summaryParts, cs := summaryParts + kinds, cs + Opt(ClauseAt(lib, df, 1));
      var special := SpecialSentence();
      SentencesAppend(lib, cs, Opt(ClauseAt(lib, df, 2)));
      summaryParts, cs := summaryParts + special, cs + Opt(ClauseAt(lib, df, 2));
      var missing := MissingSentence();
      SentencesAppend(lib, cs, Opt(ClauseAt(lib, df, 3)));
      summaryParts, cs := summaryParts + missing, cs + Opt(ClauseAt(lib, df, 3));
      var empty := EmptySentence();
      SentencesAppend(lib, cs, Opt(ClauseAt(lib, df, 4)));
      summaryParts, cs := summaryParts + empty, cs + Opt(ClauseAt(lib, df, 4));
      var correlation := CorrelationSentence();
      SentencesAppend(lib, cs, Opt(ClauseAt(lib, df, 5)));
      summaryParts, cs := summaryParts + correlation, cs + Opt(ClauseAt(lib, df, 5));
      ClausesInOrder(lib, df);
      assert cs == Clauses(lib, df);
      s := Join(summaryParts, " ");
    }
  }
}
