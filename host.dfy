/** The libraries the profiler calls and whose behaviour is not part of this
    model: pandas and scipy statistics, pandas correlation, `.2f` formatting
    and plotly figures. Every lemma holds whatever these functions do. */
module Host {
  import opened Outcomes
  import opened Serializer
  import opened Frames

  /** A raised exception: its class and `str(e)`. */
  datatype Error =
    | ValueError(message: string)
    | RuntimeError(message: string)
    | OtherError(kind: string, message: string)

  /** The statistics `_profile_column` asks for on the non-missing values. */
  datatype Statistic = Mean | Std | Min | Max | Median | Skew | Kurtosis

  /** What is handed to plotly: `px.histogram`, `px.bar`, `px.line` and
      `px.imshow`, with the arguments the profiler passes. */
  datatype Chart =
    | Histogram(data: Dataset, x: string, bins: nat)
    | Bar(categories: seq<Value>, counts: seq<nat>)
    | Line(data: Dataset, x: string)
    | Heatmap(matrix: seq<seq<Float>>, labels: seq<string>)

  datatype Libraries = Libraries(
    rt: Runtime,
    /** A statistic of the non-missing values, as the numpy scalar pandas or scipy returns. */
    statistic: (Statistic, seq<Value>) -> Value,
    /** The Pearson correlation pandas computes for two columns. */
    correlation: (Column, Column) -> Float,
    /** `f"{x:.2f}"`. */
    fixed2: Float -> string,
    /** Building a figure and `fig.to_dict()`; plotly may raise. */
    plot: Chart -> Result<Value, Error>)

  /** The histogram bin count the profiler asks for. */
  const HistogramBins: nat := 30
}
