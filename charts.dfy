/** `generate_visualizations` and `generate_specific_visualization`: which
    charts are built, under which keys, and which error comes out when a check
    or plotly fails. The figures themselves are whatever `Libraries.plot` gives. */
module Charts {
  import opened Text
  import opened Dicts
  import opened Outcomes
  import opened Serializer
  import opened Frames
  import opened Columns
  import opened Host

  /** `self.df[name]` for a column the dataset has; an empty object column otherwise. */
  function ColumnOf(ds: Dataset, name: string): (c: Column)
    ensures name in Names(ds.columns) ==> c in ds.columns && c.name == name
  {
    if name in Names(ds.columns) then ds.columns[IndexOf(ds.columns, name)] else Column(name, DType.Object, [])
  }

  /** `df_plot[col].apply(lambda x: x.isoformat() if pd.notnull(x) else None)`. */
  function IsoCell(rt: Runtime, c: Cell): Cell
  {
    if c.CTime? then CStr(rt.isoformat(c.ns)) else Null
  }

  /** A copy of the dataset whose column `name` holds ISO texts instead of instants. */
  function IsoFrame(rt: Runtime, ds: Dataset, name: string): (r: Dataset)
    ensures r.rows == ds.rows && |r.columns| == |ds.columns|
    ensures forall k :: 0 <= k < |ds.columns| && ds.columns[k].name != name ==> r.columns[k] == ds.columns[k]
    ensures forall k :: 0 <= k < |ds.columns| && ds.columns[k].name == name ==>
      r.columns[k].name == name && r.columns[k].dtype == DType.Object &&
      |r.columns[k].cells| == |ds.columns[k].cells| &&
      forall j :: 0 <= j < |ds.columns[k].cells| ==> r.columns[k].cells[j] == IsoCell(rt, ds.columns[k].cells[j])
  {
    var cols := seq(|ds.columns|, k requires 0 <= k < |ds.columns| =>
      var c := ds.columns[k];
      if c.name == name then Column(name, DType.Object, seq(|c.cells|, j requires 0 <= j < |c.cells| => IsoCell(rt, c.cells[j])))
      else c);
    Dataset(cols, ds.rows)
  }

  /** `pd.DataFrame({'category': value_counts.index, 'count': value_counts.values})`
      plotted with `px.bar`. */
  function BarChart(c: Column): (r: Chart)
    ensures r.Bar? && |r.categories| == |r.counts| == NUnique(c.cells)
    ensures forall k :: 0 <= k < |r.categories| ==>
      r.categories[k] == ScalarOf(c.dtype, ValueCounts(c.cells)[k].0) && r.counts[k] == ValueCounts(c.cells)[k].1
  {
    var vc := ValueCounts(c.cells);
    Bar(seq(|vc|, k requires 0 <= k < |vc| => ScalarOf(c.dtype, vc[k].0)),
        seq(|vc|, k requires 0 <= k < |vc| => vc[k].1))
  }

  /** `df[numeric_cols].corr()`: the correlation of every pair, row by row. */
  function CorrMatrix(lib: Libraries, ds: Dataset, names: seq<string>): (m: seq<seq<Float>>)
    ensures |m| == |names| && forall i :: 0 <= i < |m| ==> |m[i]| == |names|
  {
    seq(|names|, i requires 0 <= i < |names| =>
      seq(|names|, j requires 0 <= j < |names| => lib.correlation(ColumnOf(ds, names[i]), ColumnOf(ds, names[j]))))
  }

  /** A chart the full pass builds and the key it is stored under. */
  datatype Job = Job(key: string, chart: Chart)

  /** The three per-column loops of the full pass. */
  datatype Loop = HistogramLoop | BarLoop | LineLoop

  function Suffix(l: Loop): string
  {
    match l
    case HistogramLoop => "_histogram"
    case BarLoop => "_bar"
    case LineLoop => "_line"
  }

  /** `nunique() > 1`: the column varies. */
  predicate Varies(ds: Dataset, name: string) { NUnique(ColumnOf(ds, name).cells) > 1 }

  /** Between 1 and 20 categories. */
  predicate FewCategories(ds: Dataset, name: string)
  {
    0 < NUnique(ColumnOf(ds, name).cells) <= MaxBarCategories
  }

  const MaxBarCategories: nat := 20
  const HeatmapKey: string := "correlation_heatmap"

  /** The guard a loop applies to a column before plotting it. */
  predicate Wanted(ds: Dataset, l: Loop, name: string)
  {
    match l
    case HistogramLoop => Varies(ds, name)
    case BarLoop => FewCategories(ds, name)
    case LineLoop => Varies(ds, name)
  }

  /** The chart a loop plots for a column. */
  function ChartFor(rt: Runtime, ds: Dataset, l: Loop, name: string): Chart
  {
    match l
    case HistogramLoop => Histogram(ds, name, HistogramBins)
    case BarLoop => BarChart(ColumnOf(ds, name))
    case LineLoop => Line(IsoFrame(rt, ds, name), name)
  }

  /** One loop of the full pass over `names`: a job `name + suffix` for every
      name that passes the loop's guard. */
  function Jobs(rt: Runtime, ds: Dataset, l: Loop, names: seq<string>): (r: seq<Job>)
    ensures |r| <= |names|
  {
    if names == [] then []
    else
      var init := names[..|names| - 1];
      var last := names[|names| - 1];
      var r0 := Jobs(rt, ds, l, init);
      if Wanted(ds, l, last) then r0 + [Job(last + Suffix(l), ChartFor(rt, ds, l, last))] else r0
  }

  /** Every job of a loop comes from a listed name that passes its guard. */
  lemma {:induction false} JobsSound(rt: Runtime, ds: Dataset, l: Loop, names: seq<string>)
    ensures forall j :: j in Jobs(rt, ds, l, names) ==>
      exists n :: n in names && Wanted(ds, l, n) && j == Job(n + Suffix(l), ChartFor(rt, ds, l, n))
  {
    if names != [] {
      var init := names[..|names| - 1];
      JobsSound(rt, ds, l, init);
      forall n | n in init ensures n in names { }
    }
  }

  /** Every listed name that passes a loop's guard has its job. */
  lemma {:induction false} JobsComplete(rt: Runtime, ds: Dataset, l: Loop, names: seq<string>)
    ensures forall n :: n in names && Wanted(ds, l, n) ==> Job(n + Suffix(l), ChartFor(rt, ds, l, n)) in Jobs(rt, ds, l, names)
  {
    if names != [] {
      var init := names[..|names| - 1];
      JobsComplete(rt, ds, l, init);
      forall n | n in names ensures n in init || n == names[|names| - 1] {
        var k :| 0 <= k < |names| && names[k] == n;
        if k < |init| {
          assert init[k] == n;
        }
      }
    }
  }

  /** One more iteration of a loop adds at most the job of its name. */
  lemma {:induction false} JobsSnoc(rt: Runtime, ds: Dataset, l: Loop, names: seq<string>, n: string)
    ensures Jobs(rt, ds, l, names + [n]) ==
      Jobs(rt, ds, l, names) + (if Wanted(ds, l, n) then [Job(n + Suffix(l), ChartFor(rt, ds, l, n))] else [])
  {
    assert (names + [n])[..|names|] == names;
  }

  /** A loop over `a + b` runs the loop over `a` and then over `b`. */
  lemma {:induction false} JobsAppend(rt: Runtime, ds: Dataset, l: Loop, a: seq<string>, b: seq<string>)
    ensures Jobs(rt, ds, l, a + b) == Jobs(rt, ds, l, a) + Jobs(rt, ds, l, b)
    decreases |b|
  {
    if b == [] {
      assert a + b == a;
    } else {
      var b0 := b[..|b| - 1];
      var last := b[|b| - 1];
      assert a + b == (a + b0) + [last];
      assert b == b0 + [last];
      JobsAppend(rt, ds, l, a, b0);
      JobsSnoc(rt, ds, l, a + b0, last);
      JobsSnoc(rt, ds, l, b0, last);
    }
  }

  /** At least two numeric columns and two rows. */
  predicate CanCorrelate(ds: Dataset) { |NumericColumns(ds)| > 1 && ds.rows > 1 }

  function HeatmapChart(lib: Libraries, ds: Dataset): Chart
  {
    Heatmap(CorrMatrix(lib, ds, NumericColumns(ds)), NumericColumns(ds))
  }

  function HeatmapJobs(lib: Libraries, ds: Dataset): seq<Job>
  {
    if CanCorrelate(ds) then [Job(HeatmapKey, HeatmapChart(lib, ds))] else []
  }

  /** The charts of the full pass, in the order it builds them. */
  function Plan(lib: Libraries, ds: Dataset): seq<Job>
  {
    Jobs(lib.rt, ds, HistogramLoop, NumericColumns(ds)) + Jobs(lib.rt, ds, BarLoop, CategoricalColumns(ds)) +
      Jobs(lib.rt, ds, LineLoop, DatetimeColumns(ds)) + HeatmapJobs(lib, ds)
  }

  /** The keys the full pass is meant to produce, one clause per loop. */
  predicate WantedKey(ds: Dataset, key: string)
  {
    (exists n :: n in NumericColumns(ds) && Varies(ds, n) && key == n + "_histogram") ||
    (exists n :: n in CategoricalColumns(ds) && FewCategories(ds, n) && key == n + "_bar") ||
    (exists n :: n in DatetimeColumns(ds) && Varies(ds, n) && key == n + "_line") ||
    (key == HeatmapKey && CanCorrelate(ds))
  }

  /** A loop of the pass makes a job for `key` exactly when some listed
      name passes the guard and gives that key. */
  lemma {:induction false} JobsKeys(rt: Runtime, ds: Dataset, l: Loop, names: seq<string>, key: string)
    ensures (exists j :: j in Jobs(rt, ds, l, names) && j.key == key) <==>
      exists n :: n in names && Wanted(ds, l, n) && key == n + Suffix(l)
  {
    JobsSound(rt, ds, l, names);
    JobsComplete(rt, ds, l, names);
    if exists n :: n in names && Wanted(ds, l, n) && key == n + Suffix(l) {
      var n :| n in names && Wanted(ds, l, n) && key == n + Suffix(l);
      assert Job(n + Suffix(l), ChartFor(rt, ds, l, n)) in Jobs(rt, ds, l, names);
    }
  }

  lemma {:induction false} HasKeyConcat(a: seq<Job>, b: seq<Job>, key: string)
    ensures (exists j :: j in a + b && j.key == key) <==>
      (exists j :: j in a && j.key == key) || (exists j :: j in b && j.key == key)
  {
    if exists j :: j in a + b && j.key == key {
      var j :| j in a + b && j.key == key;
      assert j in a || j in b;
    }
    if exists j :: j in b && j.key == key {
      var j :| j in b && j.key == key;
      assert j in a + b;
    }
  }

  /** The plan holds a job for `key` exactly when one of the guards admits it. */
  lemma {:induction false} PlanKeys(lib: Libraries, ds: Dataset, key: string)
    ensures (exists j :: j in Plan(lib, ds) && j.key == key) <==> WantedKey(ds, key)
  {
    var h := Jobs(lib.rt, ds, HistogramLoop, NumericColumns(ds));
    var b := Jobs(lib.rt, ds, BarLoop, CategoricalColumns(ds));
    var l := Jobs(lib.rt, ds, LineLoop, DatetimeColumns(ds));
    var m := HeatmapJobs(lib, ds);
    assert Plan(lib, ds) == h + b + l + m;
    assert Suffix(HistogramLoop) == "_histogram" && Suffix(BarLoop) == "_bar" && Suffix(LineLoop) == "_line";
    JobsKeys(lib.rt, ds, HistogramLoop, NumericColumns(ds), key);
    JobsKeys(lib.rt, ds, BarLoop, CategoricalColumns(ds), key);
    JobsKeys(lib.rt, ds, LineLoop, DatetimeColumns(ds), key);
    HasKeyConcat(h, b, key);
    HasKeyConcat(h + b, l, key);
    HasKeyConcat(h + b + l, m, key);
  }

  /** Building one chart and storing its JSON-safe form under its key:
      `visualizations[key] = self._ensure_json_serializable(fig.to_dict())`. */
  function Store(lib: Libraries, viz: seq<(string, Value)>, j: Job): (r: Result<seq<(string, Value)>, Error>)
    requires DistinctKeys(viz)
    ensures r.Ok? <==> lib.plot(j.chart).Ok?
    ensures r.Err? ==> r.error == lib.plot(j.chart).error
    ensures r.Ok? ==> DistinctKeys(r.value)
    ensures r.Ok? ==> forall key :: key in KeysOf(r.value) <==> key in KeysOf(viz) || key == j.key
    ensures r.Ok? ==> forall e :: e in r.value ==> e in viz || Dumpable(e.1)
  {
    match lib.plot(j.chart)
    case Err(e) => Err(e)
    case Ok(fig) => Ok(Put(viz, j.key, EnsureJson(lib.rt, fig)))
  }

  /** Running the jobs in order; the first failure stops the pass. */
  function Run(lib: Libraries, jobs: seq<Job>): (r: Result<seq<(string, Value)>, Error>)
    ensures r.Ok? ==> DistinctKeys(r.value)
  {
    if jobs == [] then Ok([])
    else
      var init := jobs[..|jobs| - 1];
      var last := jobs[|jobs| - 1];
      assert jobs == init + [last];
      match Run(lib, init)
      case Err(e) => Err(e)
      case Ok(viz) => Store(lib, viz, last)
  }

  /** The pass stores one entry per key of its jobs. */
  lemma {:induction false} RunKeys(lib: Libraries, jobs: seq<Job>)
    ensures Run(lib, jobs).Ok? ==> forall key :: key in KeysOf(Run(lib, jobs).value) <==> exists j :: j in jobs && j.key == key
  {
    if jobs != [] {
      var init := jobs[..|jobs| - 1];
      var last := jobs[|jobs| - 1];
      assert jobs == init + [last];
      RunKeys(lib, init);
      if Run(lib, jobs).Ok? {
        var viz := Run(lib, init).value;
        forall key ensures key in KeysOf(Run(lib, jobs).value) <==> exists j :: j in jobs && j.key == key {
          if key in KeysOf(viz) {
            var j :| j in init && j.key == key;
            assert j in jobs;
          }
        }
      }
    }
  }

  /** Every figure the pass stores has been through `_ensure_json_serializable`. */
  lemma {:induction false} RunDumpable(lib: Libraries, jobs: seq<Job>)
    ensures Run(lib, jobs).Ok? ==> forall e :: e in Run(lib, jobs).value ==> Dumpable(e.1)
  {
    if jobs != [] {
      var init := jobs[..|jobs| - 1];
      RunDumpable(lib, init);
      if Run(lib, jobs).Ok? {
        assert Run(lib, jobs) == Store(lib, Run(lib, init).value, jobs[|jobs| - 1]);
      }
    }
  }

  /** A failed pass fails with the error of one of its charts. */
  lemma {:induction false} RunErrFrom(lib: Libraries, jobs: seq<Job>)
    ensures Run(lib, jobs).Err? ==> exists j :: j in jobs && lib.plot(j.chart) == Err(Run(lib, jobs).error)
  {
    if jobs != [] {
      var init := jobs[..|jobs| - 1];
      var last := jobs[|jobs| - 1];
      assert jobs == init + [last];
      RunErrFrom(lib, init);
      RunSnoc(lib, init, last);
      if Run(lib, init).Err? {
        var j :| j in init && lib.plot(j.chart) == Err(Run(lib, init).error);
        assert j in jobs;
      } else if Run(lib, jobs).Err? {
        assert lib.plot(last.chart) == Err(Run(lib, jobs).error);
        assert last in jobs;
      }
    }
  }

  /** Running one more job: a failure so far stands, otherwise the job is stored. */
  lemma {:induction false} RunSnoc(lib: Libraries, jobs: seq<Job>, j: Job)
    ensures Run(lib, jobs).Err? ==> Run(lib, jobs + [j]) == Run(lib, jobs)
    ensures Run(lib, jobs).Ok? ==> Run(lib, jobs + [j]) == Store(lib, Run(lib, jobs).value, j)
  {
    assert (jobs + [j])[..|jobs|] == jobs;
  }

  /** Iteration `i` of a loop adds the job of `names[i]` when the guard admits it. */
  lemma {:induction false} LoopStep(rt: Runtime, ds: Dataset, l: Loop, done: seq<Job>, names: seq<string>, i: nat)
    requires i < |names|
    ensures done + Jobs(rt, ds, l, names[..i + 1]) ==
      if Wanted(ds, l, names[i]) then done + Jobs(rt, ds, l, names[..i]) + [Job(names[i] + Suffix(l), ChartFor(rt, ds, l, names[i]))]
      else done + Jobs(rt, ds, l, names[..i])
  {
    assert names[..i + 1] == names[..i] + [names[i]];
    JobsSnoc(rt, ds, l, names[..i], names[i]);
  }

  /** An iteration whose column fails the guard stores nothing. */
  lemma {:induction false} LoopSkips(lib: Libraries, ds: Dataset, l: Loop, done: seq<Job>, names: seq<string>, i: nat,
                                     acc: seq<(string, Value)>)
    requires i < |names| && !Wanted(ds, l, names[i])
    requires Run(lib, done + Jobs(lib.rt, ds, l, names[..i])) == Ok(acc)
    ensures Run(lib, done + Jobs(lib.rt, ds, l, names[..i + 1])) == Ok(acc)
  {
    LoopStep(lib.rt, ds, l, done, names, i);
  }

  /** An iteration whose chart is built stores its JSON-safe figure under
      the column's key. */
  lemma {:induction false} LoopStores(lib: Libraries, ds: Dataset, l: Loop, done: seq<Job>, names: seq<string>, i: nat,
                                      acc: seq<(string, Value)>)
    requires i < |names| && Wanted(ds, l, names[i])
    requires Run(lib, done + Jobs(lib.rt, ds, l, names[..i])) == Ok(acc)
    requires lib.plot(ChartFor(lib.rt, ds, l, names[i])).Ok?
    ensures DistinctKeys(acc)
    ensures Run(lib, done + Jobs(lib.rt, ds, l, names[..i + 1])) ==
      Ok(Put(acc, names[i] + Suffix(l), EnsureJson(lib.rt, lib.plot(ChartFor(lib.rt, ds, l, names[i])).value)))
  {
    var job := Job(names[i] + Suffix(l), ChartFor(lib.rt, ds, l, names[i]));
    LoopStep(lib.rt, ds, l, done, names, i);
    RunSnoc(lib, done + Jobs(lib.rt, ds, l, names[..i]), job);
  }

  /** An iteration whose chart fails ends the loop with plotly's error. */
  lemma {:induction false} LoopFails(lib: Libraries, ds: Dataset, l: Loop, done: seq<Job>, names: seq<string>, i: nat,
                                     acc: seq<(string, Value)>)
    requires i < |names| && Wanted(ds, l, names[i])
    requires Run(lib, done + Jobs(lib.rt, ds, l, names[..i])) == Ok(acc)
    requires lib.plot(ChartFor(lib.rt, ds, l, names[i])).Err?
    ensures Run(lib, done + Jobs(lib.rt, ds, l, names)) == Err(lib.plot(ChartFor(lib.rt, ds, l, names[i])).error)
  {
    var job := Job(names[i] + Suffix(l), ChartFor(lib.rt, ds, l, names[i]));
    LoopStep(lib.rt, ds, l, done, names, i);
    RunSnoc(lib, done + Jobs(lib.rt, ds, l, names[..i]), job);
    LoopStops(lib, ds, l, done, names, i);
  }

  /** A loop whose iteration `i` fails fails as a whole with that error. */
  lemma {:induction false} LoopStops(lib: Libraries, ds: Dataset, l: Loop, done: seq<Job>, names: seq<string>, i: nat)
    requires i < |names| && Run(lib, done + Jobs(lib.rt, ds, l, names[..i + 1])).Err?
    ensures Run(lib, done + Jobs(lib.rt, ds, l, names)) == Run(lib, done + Jobs(lib.rt, ds, l, names[..i + 1]))
  {
    var front, back := names[..i + 1], names[i + 1..];
    assert names == front + back;
    JobsAppend(lib.rt, ds, l, front, back);
    ErrPrefix(lib, done, Jobs(lib.rt, ds, l, front), Jobs(lib.rt, ds, l, back));
  }

  /** A failure after `done + pre` stands whatever jobs follow `pre`. */
  lemma {:induction false} ErrPrefix(lib: Libraries, done: seq<Job>, pre: seq<Job>, post: seq<Job>)
    requires Run(lib, done + pre).Err?
    ensures Run(lib, done + (pre + post)) == Run(lib, done + pre)
  {
    Assoc(done, pre, post);
    RunErrSticks(lib, done + pre, post);
  }

  lemma {:induction false} Assoc(a: seq<Job>, b: seq<Job>, c: seq<Job>)
    ensures a + (b + c) == (a + b) + c
  {
  }

  /** Regrouping the four parts of the pass. */
  lemma {:induction false} Regroup(h: seq<Job>, b: seq<Job>, l: seq<Job>, m: seq<Job>)
    ensures h + b + l + m == h + (b + l + m) == (h + b) + (l + m)
  {
  }

  /** A failure is final: later jobs do not run. */
  lemma {:induction false} RunErrSticks(lib: Libraries, a: seq<Job>, b: seq<Job>)
    requires Run(lib, a).Err?
    ensures Run(lib, a + b) == Run(lib, a)
    decreases |b|
  {
    if b != [] {
      var b0 := b[..|b| - 1];
      assert (a + b)[..|a + b| - 1] == a + b0;
      RunErrSticks(lib, a, b0);
    } else {
      assert a + b == a;
    }
  }

  /** The pass succeeds exactly when every chart it builds succeeds. */
  lemma {:induction false} RunOk(lib: Libraries, jobs: seq<Job>)
    ensures Run(lib, jobs).Ok? <==> forall j :: j in jobs ==> lib.plot(j.chart).Ok?
  {
    if jobs != [] {
      var init := jobs[..|jobs| - 1];
      var last := jobs[|jobs| - 1];
      assert jobs == init + [last];
      RunOk(lib, init);
    }
  }

  const PassFailure: string := "Failed to generate visualizations: "

  /** `generate_visualizations`: every failure inside the pass is re-raised as
      one `RuntimeError` carrying the original message. */
  function Visualizations(lib: Libraries, ds: Dataset): (r: Result<seq<(string, Value)>, Error>)
    ensures r.Ok? ==> DistinctKeys(r.value) && forall e :: e in r.value ==> Dumpable(e.1)
    ensures r.Ok? ==> forall key :: key in KeysOf(r.value) <==> WantedKey(ds, key)
    ensures r.Ok? <==> forall j :: j in Plan(lib, ds) ==> lib.plot(j.chart).Ok?
    ensures r.Err? ==> exists j :: (j in Plan(lib, ds) && lib.plot(j.chart).Err? &&
      r.error == RuntimeError(PassFailure + lib.plot(j.chart).error.message))
  {
    RunOk(lib, Plan(lib, ds));
    RunKeys(lib, Plan(lib, ds));
    RunDumpable(lib, Plan(lib, ds));
    RunErrFrom(lib, Plan(lib, ds));
    match Run(lib, Plan(lib, ds))
    case Ok(viz) =>
      forall key ensures key in KeysOf(viz) <==> WantedKey(ds, key) { PlanKeys(lib, ds, key); }
      Ok(viz)
    case Err(e) => Err(RuntimeError(PassFailure + e.message))
  }

  /** The pass in terms of running its plan. */
  lemma {:induction false} VisualizationsRun(lib: Libraries, ds: Dataset)
    ensures Run(lib, Plan(lib, ds)).Ok? ==> Visualizations(lib, ds) == Run(lib, Plan(lib, ds))
    ensures Run(lib, Plan(lib, ds)).Err? ==>
      Visualizations(lib, ds) == Err(RuntimeError(PassFailure + Run(lib, Plan(lib, ds)).error.message))
  {
  }

  /** The charts of the three per-column loops, before the heatmap. */
  function LoopJobs(lib: Libraries, ds: Dataset): seq<Job>
  {
    Jobs(lib.rt, ds, HistogramLoop, NumericColumns(ds)) + Jobs(lib.rt, ds, BarLoop, CategoricalColumns(ds)) +
      Jobs(lib.rt, ds, LineLoop, DatetimeColumns(ds))
  }

  /** A failure in the first charts of the plan is the failure of the pass. */
  lemma {:induction false} PassFails(lib: Libraries, ds: Dataset, pre: seq<Job>, post: seq<Job>)
    requires Plan(lib, ds) == pre + post && Run(lib, pre).Err?
    ensures Visualizations(lib, ds) == Err(RuntimeError(PassFailure + Run(lib, pre).error.message))
  {
    RunErrSticks(lib, pre, post);
    VisualizationsRun(lib, ds);
  }

  /** Without two numeric columns and two rows, the loops' dictionary is the result. */
  lemma {:induction false} NoHeatmap(lib: Libraries, ds: Dataset, acc: seq<(string, Value)>)
    requires !CanCorrelate(ds) && Run(lib, LoopJobs(lib, ds)) == Ok(acc)
    ensures Visualizations(lib, ds) == Ok(acc)
  {
    assert Plan(lib, ds) == LoopJobs(lib, ds);
    VisualizationsRun(lib, ds);
  }

  /** A heatmap that fails fails the pass. */
  lemma {:induction false} HeatmapFails(lib: Libraries, ds: Dataset, acc: seq<(string, Value)>)
    requires CanCorrelate(ds) && Run(lib, LoopJobs(lib, ds)) == Ok(acc)
    requires lib.plot(HeatmapChart(lib, ds)).Err?
    ensures Visualizations(lib, ds) == Err(RuntimeError(PassFailure + lib.plot(HeatmapChart(lib, ds)).error.message))
  {
    var job := Job(HeatmapKey, HeatmapChart(lib, ds));
    assert Plan(lib, ds) == LoopJobs(lib, ds) + [job];
    RunSnoc(lib, LoopJobs(lib, ds), job);
    VisualizationsRun(lib, ds);
  }

  /** A heatmap that is built is stored last, under "correlation_heatmap". */
  lemma {:induction false} HeatmapStores(lib: Libraries, ds: Dataset, acc: seq<(string, Value)>)
    requires CanCorrelate(ds) && Run(lib, LoopJobs(lib, ds)) == Ok(acc)
    requires lib.plot(HeatmapChart(lib, ds)).Ok?
    ensures DistinctKeys(acc)
    ensures Visualizations(lib, ds) == Ok(Put(acc, HeatmapKey, EnsureJson(lib.rt, lib.plot(HeatmapChart(lib, ds)).value)))
  {
    var job := Job(HeatmapKey, HeatmapChart(lib, ds));
    assert Plan(lib, ds) == LoopJobs(lib, ds) + [job];
    RunSnoc(lib, LoopJobs(lib, ds), job);
    VisualizationsRun(lib, ds);
  }

  const VizTypes: seq<string> := ["histogram", "bar", "line", "correlation"]
  const PointFailure: string := "Failed to generate visualization: "

  /** `not columns or not columns[0] in self.df.columns`. */
  predicate InvalidColumns(ds: Dataset, columns: Option<seq<string>>)
  {
    columns.None? || |columns.value| == 0 || columns.value[0] !in Names(ds.columns)
  }

  /** A supported type whose column, when it needs one, is in the dataset. */
  predicate Admitted(ds: Dataset, vizType: string, columns: Option<seq<string>>)
  {
    vizType in VizTypes && (vizType != "correlation" ==> !InvalidColumns(ds, columns))
  }

  /** The data check an admitted request passes before its chart is drawn. */
  predicate Accepted(ds: Dataset, vizType: string, columns: Option<seq<string>>)
    requires Admitted(ds, vizType, columns)
  {
    if vizType == "correlation" then CanCorrelate(ds)
    else if vizType == "bar" then NUnique(ColumnOf(ds, columns.value[0]).cells) > 0
    else Varies(ds, columns.value[0])
  }

  /** The chart an admitted request draws: a 30-bin histogram, a bar chart of
      `value_counts()`, a line over the column (as ISO text when it holds
      instants) or the correlation heatmap. */
  function Requested(lib: Libraries, ds: Dataset, vizType: string, columns: Option<seq<string>>): Chart
    requires Admitted(ds, vizType, columns)
  {
    if vizType == "correlation" then HeatmapChart(lib, ds)
    else
      var name := columns.value[0];
      if vizType == "histogram" then Histogram(ds, name, HistogramBins)
      else if vizType == "bar" then BarChart(ColumnOf(ds, name))
      else Line(if name in DatetimeColumns(ds) then IsoFrame(lib.rt, ds, name) else ds, name)
  }

  /** The chart for a supported type with its column checked, or the
      `RuntimeError` that a data check raises. */
  function Compute(lib: Libraries, ds: Dataset, vizType: string, columns: Option<seq<string>>): (r: Result<Value, Error>)
    requires Admitted(ds, vizType, columns)
    ensures (vizType == "histogram" || vizType == "line") && !Varies(ds, columns.value[0]) ==>
      r == Err(RuntimeError("Insufficient variation for visualization"))
    ensures vizType == "bar" && |ValueCounts(ColumnOf(ds, columns.value[0]).cells)| == 0 ==>
      r == Err(RuntimeError("No data available for visualization"))
    ensures vizType == "correlation" && |NumericColumns(ds)| <= 1 ==>
      r == Err(RuntimeError("Insufficient numeric columns for correlation"))
    ensures vizType == "correlation" && |NumericColumns(ds)| > 1 && ds.rows <= 1 ==>
      r == Err(RuntimeError("Insufficient data for correlation"))
  {
    if vizType == "correlation" then
      if |NumericColumns(ds)| <= 1 then Err(RuntimeError("Insufficient numeric columns for correlation"))
      else if ds.rows <= 1 then Err(RuntimeError("Insufficient data for correlation"))
      else Figure(lib, Requested(lib, ds, vizType, columns))
    else
      var name := columns.value[0];
      var col := ColumnOf(ds, name);
      if vizType == "histogram" then
        if NUnique(col.cells) <= 1 then Err(RuntimeError("Insufficient variation for visualization"))
        else Figure(lib, Requested(lib, ds, vizType, columns))
      else if vizType == "bar" then
        if NUnique(col.cells) == 0 then Err(RuntimeError("No data available for visualization"))
        else Figure(lib, Requested(lib, ds, vizType, columns))
      else
        if NUnique(col.cells) <= 1 then Err(RuntimeError("Insufficient variation for visualization"))
        else Figure(lib, Requested(lib, ds, vizType, columns))
  }

  /** A plotted figure in JSON-safe form. */
  function Figure(lib: Libraries, c: Chart): (r: Result<Value, Error>)
    ensures r.Ok? ==> Dumpable(r.value)
    ensures r.Err? ==> lib.plot(c) == Err(r.error)
    ensures lib.plot(c).Ok? ==> r == Ok(EnsureJson(lib.rt, lib.plot(c).value))
  {
    match lib.plot(c)
    case Ok(fig) => Ok(EnsureJson(lib.rt, fig))
    case Err(e) => Err(e)
  }

  /** `generate_specific_visualization`. An unsupported type is refused before
      the columns are looked at; a missing or unknown column is refused before
      any data check; both are `ValueError`s and are raised as they are. Every
      other failure comes out as a `RuntimeError` that names the cause. */
  function SpecificVisualization(lib: Libraries, ds: Dataset, vizType: string, columns: Option<seq<string>>): (r: Result<Value, Error>)
    ensures vizType !in VizTypes ==> r == Err(ValueError("Unsupported visualization type: " + vizType))
    ensures vizType in VizTypes && vizType != "correlation" && InvalidColumns(ds, columns) ==>
      r == Err(ValueError("Invalid column specified"))
    ensures r.Ok? ==> Dumpable(r.value) && vizType in VizTypes
    ensures r.Ok? && vizType == "correlation" ==> CanCorrelate(ds)
    ensures r.Ok? && vizType != "correlation" ==> !InvalidColumns(ds, columns)
    ensures r.Ok? && (vizType == "histogram" || vizType == "line") ==> Varies(ds, columns.value[0])
    ensures r.Ok? && vizType == "bar" ==> NUnique(ColumnOf(ds, columns.value[0]).cells) > 0
    ensures r.Err? && !r.error.ValueError? ==>
      r.error.RuntimeError? && |PointFailure| <= |r.error.message| && r.error.message[..|PointFailure|] == PointFailure
  {
    if vizType !in VizTypes then Err(ValueError("Unsupported visualization type: " + vizType))
    else if vizType != "correlation" && InvalidColumns(ds, columns) then Err(ValueError("Invalid column specified"))
    else
      match Compute(lib, ds, vizType, columns)
      case Ok(v) => Ok(v)
      case Err(e) => Err(Raised(e))
  }

  /** The two `except` clauses: a `ValueError` is raised again as it is, any
      other error becomes a `RuntimeError` behind "Failed to generate visualization: ". */
  function Raised(e: Error): (r: Error)
    ensures e.ValueError? ==> r == e
    ensures !e.ValueError? ==> r.RuntimeError? && r.message == PointFailure + e.message
  {
    if e.ValueError? then e else RuntimeError(PointFailure + e.message)
  }

  /** The chart a request draws is the one the full pass draws for the same
      column: the histogram and bar loops' charts, the line loop's chart for a
      datetime column (other columns are plotted as they are), and the heatmap. */
  lemma {:induction false} RequestedIsPassChart(lib: Libraries, ds: Dataset, vizType: string, columns: Option<seq<string>>)
    requires Admitted(ds, vizType, columns)
    ensures vizType == "histogram" ==> Requested(lib, ds, vizType, columns) == ChartFor(lib.rt, ds, HistogramLoop, columns.value[0])
    ensures vizType == "bar" ==> Requested(lib, ds, vizType, columns) == ChartFor(lib.rt, ds, BarLoop, columns.value[0])
    ensures vizType == "line" && columns.value[0] in DatetimeColumns(ds) ==>
      Requested(lib, ds, vizType, columns) == ChartFor(lib.rt, ds, LineLoop, columns.value[0])
    ensures vizType == "line" && columns.value[0] !in DatetimeColumns(ds) ==>
      Requested(lib, ds, vizType, columns) == Line(ds, columns.value[0])
    ensures vizType == "correlation" ==> Requested(lib, ds, vizType, columns) == HeatmapChart(lib, ds)
  {
  }

  /** An admitted request that passes its data check returns plotly's figure
      of the requested chart in JSON-safe form, or raises plotly's error as
      the `except` clauses do. */
  lemma {:induction false} RequestServed(lib: Libraries, ds: Dataset, vizType: string, columns: Option<seq<string>>)
    requires Admitted(ds, vizType, columns) && Accepted(ds, vizType, columns)
    ensures Compute(lib, ds, vizType, columns) == Figure(lib, Requested(lib, ds, vizType, columns))
    ensures lib.plot(Requested(lib, ds, vizType, columns)).Ok? ==>
      SpecificVisualization(lib, ds, vizType, columns) == Ok(EnsureJson(lib.rt, lib.plot(Requested(lib, ds, vizType, columns)).value))
    ensures lib.plot(Requested(lib, ds, vizType, columns)).Err? ==>
      SpecificVisualization(lib, ds, vizType, columns) == Err(Raised(lib.plot(Requested(lib, ds, vizType, columns)).error))
  {
  }

  /** A request succeeds exactly when it is admitted, passes its data check
      and plotly draws its chart. */
  lemma {:induction false} RequestOk(lib: Libraries, ds: Dataset, vizType: string, columns: Option<seq<string>>)
    ensures SpecificVisualization(lib, ds, vizType, columns).Ok? <==>
      Admitted(ds, vizType, columns) && Accepted(ds, vizType, columns) && lib.plot(Requested(lib, ds, vizType, columns)).Ok?
  {
    if Admitted(ds, vizType, columns) && !Accepted(ds, vizType, columns) && vizType == "bar" {
      NUniqueZero(ColumnOf(ds, columns.value[0]).cells);
    }
  }

  /** A data check that fails comes out wrapped, never as a `ValueError`,
      whatever columns follow the first. */
  lemma {:induction false} InsufficientVariation(lib: Libraries, ds: Dataset, vizType: string, columns: seq<string>)
    requires vizType == "histogram" || vizType == "line"
    requires |columns| > 0 && columns[0] in Names(ds.columns) && !Varies(ds, columns[0])
    ensures SpecificVisualization(lib, ds, vizType, Some(columns)) ==
      Err(RuntimeError(PointFailure + "Insufficient variation for visualization"))
  {
  }

  /** A bar chart of a column without a value fails with the wrapped message. */
  lemma {:induction false} NoBarData(lib: Libraries, ds: Dataset, columns: seq<string>)
    requires |columns| > 0 && columns[0] in Names(ds.columns) && AllNa(ColumnOf(ds, columns[0]).cells)
    ensures SpecificVisualization(lib, ds, "bar", Some(columns)) ==
      Err(RuntimeError(PointFailure + "No data available for visualization"))
  {
    NUniqueZero(ColumnOf(ds, columns[0]).cells);
  }

  /** Each data check that fails raises a `RuntimeError` carrying its own
      message behind "Failed to generate visualization: ". */
  lemma {:induction false} DataChecks(lib: Libraries, ds: Dataset, vizType: string, columns: Option<seq<string>>)
    ensures (vizType == "histogram" || vizType == "line") && !InvalidColumns(ds, columns) && !Varies(ds, columns.value[0]) ==>
      SpecificVisualization(lib, ds, vizType, columns) == Err(RuntimeError(PointFailure + "Insufficient variation for visualization"))
    ensures vizType == "bar" && !InvalidColumns(ds, columns) && |ValueCounts(ColumnOf(ds, columns.value[0]).cells)| == 0 ==>
      SpecificVisualization(lib, ds, vizType, columns) == Err(RuntimeError(PointFailure + "No data available for visualization"))
    ensures vizType == "correlation" && |NumericColumns(ds)| <= 1 ==>
      SpecificVisualization(lib, ds, vizType, columns) == Err(RuntimeError(PointFailure + "Insufficient numeric columns for correlation"))
    ensures vizType == "correlation" && |NumericColumns(ds)| > 1 && ds.rows <= 1 ==>
      SpecificVisualization(lib, ds, vizType, columns) == Err(RuntimeError(PointFailure + "Insufficient data for correlation"))
  {
  }

  /** A `ValueError` comes only from the two argument checks or from plotly
      drawing the requested chart. */
  lemma {:induction false} ValueErrorSources(lib: Libraries, ds: Dataset, vizType: string, columns: Option<seq<string>>)
    requires SpecificVisualization(lib, ds, vizType, columns).Err?
    requires SpecificVisualization(lib, ds, vizType, columns).error.ValueError?
    ensures vizType !in VizTypes || (vizType != "correlation" && InvalidColumns(ds, columns)) ||
      lib.plot(Requested(lib, ds, vizType, columns)) == Err(SpecificVisualization(lib, ds, vizType, columns).error)
  {
  }
}
