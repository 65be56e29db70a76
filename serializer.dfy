/** The profiler's JSON-safety normaliser, `_convert_to_serializable`, and the
    encoding probe in front of it, `_ensure_json_serializable`.

    Python is dynamically typed, so the input is a closed sum of the runtime
    value kinds the normaliser distinguishes. numpy scalars and Python scalars
    are different kinds: the normaliser turns a numpy infinity into text but
    hands a plain Python infinity back unchanged. */
module Serializer {
  import opened Text
  import opened Dicts

  /** An IEEE double: a finite value, an infinity or NaN. */
  datatype Float = Finite(x: real) | PosInf | NegInf | NaN {
    predicate IsInfinite() { PosInf? || NegInf? }
  }

  /** The widths of numpy's float scalars. Only `float64` is a subclass of
      Python's `float`, so only it is a float to `json.dumps`. */
  datatype FloatWidth = Half | Single | Double

  /** The runtime values the normaliser meets. */
  datatype Value =
    | NpInt(i: int)                                  // numpy integer scalars of every width
    | NpFloat(f: Float, width: FloatWidth)           // numpy float16/32/64 scalars
    | NpBool(b: bool)                                // numpy.bool_
    | NdArray(items: seq<Value>)                     // numpy.ndarray (rows of a 2-d array are arrays)
    | Series(items: seq<Value>)                      // pandas.Series (the index is dropped)
    | Frame(columns: seq<FrameColumn>)               // pandas.DataFrame, column by column
    | Dict(entries: seq<(Value, Value)>)             // dict, in insertion order
    | List(items: seq<Value>)                        // list
    | Tuple(items: seq<Value>)                       // tuple
    | Timestamp(ns: int)                             // datetime / pandas.Timestamp, nanoseconds since the epoch
    | PyNone                                         // None
    | Complex(re: real, im: real)                    // complex and numpy complex scalars
    | PyInt(i: int)
    | PyFloat(f: Float)
    | PyBool(b: bool)
    | PyStr(s: string)
    | Object(typeName: string)                       // any other object

  /** A column of a data frame: its label and its values. */
  datatype FrameColumn = FrameColumn(name: string, values: seq<Value>)

  /** What the normaliser produces: the values `json.dumps` writes. A plain
      Python infinity can survive, so `JFloat` may hold one. */
  datatype Json =
    | JNull
    | JBool(b: bool)
    | JInt(i: int)
    | JFloat(f: Float)
    | JString(s: string)
    | JArray(items: seq<Json>)
    | JObject(entries: seq<(string, Json)>)

  /** The parts of Python and pandas whose output text is not fixed here:
      `str()` of finite floats, complex numbers and arbitrary objects, and
      `Timestamp.isoformat()`. */
  datatype Runtime = Runtime(str: Value -> string, isoformat: int -> string)

  function BoolText(b: bool): string { if b then "True" else "False" }

  /** Python's `str()` of a value. */
  function Str(rt: Runtime, v: Value): string
  {
    match v
    case PyStr(s) => s
    case PyInt(i) => DecimalText(i)
    case NpInt(i) => DecimalText(i)
    case PyBool(b) => BoolText(b)
    case NpBool(b) => BoolText(b)
    case PyNone => "None"
    case PyFloat(f) => FloatText(rt, v, f)
    case NpFloat(f, _) => FloatText(rt, v, f)
    case _ => rt.str(v)
  }

  function FloatText(rt: Runtime, v: Value, f: Float): string
  {
    match f
    case PosInf => "inf"
    case NegInf => "-inf"
    case NaN => "nan"
    case Finite(_) => rt.str(v)
  }

  /** A JSON value with no NaN anywhere and distinct keys in every object. */
  predicate ValidJson(j: Json)
  {
    match j
    case JFloat(f) => !f.NaN?
    case JArray(items) => forall k :: 0 <= k < |items| ==> ValidJson(items[k])
    case JObject(entries) =>
      DistinctKeys(entries) && forall k :: 0 <= k < |entries| ==> ValidJson(entries[k].1)
    case _ => true
  }

  /** A JSON value that strict JSON can write: well formed and without infinities. */
  predicate Strict(j: Json)
  {
    match j
    case JFloat(f) => !f.NaN? && !f.IsInfinite()
    case JArray(items) => forall k :: 0 <= k < |items| ==> Strict(items[k])
    case JObject(entries) =>
      DistinctKeys(entries) && forall k :: 0 <= k < |entries| ==> Strict(entries[k].1)
    case _ => true
  }

  /** What `.tolist()` does to an element of an array or a series: numpy scalars
      become the Python scalars of the same value. */
  function Unbox(v: Value): Value
  {
    match v
    case NpInt(i) => PyInt(i)
    case NpFloat(f, _) => PyFloat(f)
    case NpBool(b) => PyBool(b)
    case _ => v
  }

  /** `_convert_to_serializable`. Every result is well formed JSON. */
  function Convert(rt: Runtime, v: Value): (r: Json)
    ensures ValidJson(r)
    decreases v, 1
  {
    match v
    case NpInt(i) => JInt(i)
    case NpFloat(f, _) =>
      if f.NaN? then JNull
      else if f.IsInfinite() then JString(Str(rt, v))
      else JFloat(f)
    case NpBool(b) => JBool(b)
    case NdArray(items) => JArray(ConvertItems(rt, items))
    case Series(items) => JArray(ConvertItems(rt, items))
    case Frame(columns) =>
      var es := seq(|columns|, k requires 0 <= k < |columns| =>
        (columns[k].name, JArray(ConvertItems(rt, columns[k].values))));
      CollectFrom(es);
      JObject(Collect(es))
    case Dict(entries) =>
      CollectFrom(ConvertEntries(rt, entries));
      JObject(Collect(ConvertEntries(rt, entries)))
    case List(items) => JArray(seq(|items|, k requires 0 <= k < |items| => Convert(rt, items[k])))
    case Tuple(items) => JArray(seq(|items|, k requires 0 <= k < |items| => Convert(rt, items[k])))
    case Timestamp(ns) => JString(rt.isoformat(ns))
    case PyNone => JNull
    case PyFloat(f) => if f.NaN? then JNull else JFloat(f)
    case Complex(_, _) => JString(Str(rt, v))
    case PyInt(i) => JInt(i)
    case PyBool(b) => JBool(b)
    case PyStr(s) => JString(s)
    case Object(_) => JString(Str(rt, v))
  }

  /** The entries of a dict with their keys passed through `str()` and their
      values normalised, before a repeated key text is merged. */
  function ConvertEntries(rt: Runtime, entries: seq<(Value, Value)>): (r: seq<(string, Json)>)
    ensures |r| == |entries|
    ensures forall k :: 0 <= k < |entries| ==> r[k] == (Str(rt, entries[k].0), Convert(rt, entries[k].1))
    decreases Dict(entries), 0
  {
    seq(|entries|, k requires 0 <= k < |entries| => (Str(rt, entries[k].0), Convert(rt, entries[k].1)))
  }

  /** The elements of an array or a series, converted after `.tolist()`. */
  function ConvertItems(rt: Runtime, items: seq<Value>): (r: seq<Json>)
    ensures |r| == |items|
    ensures forall k :: 0 <= k < |items| ==> ValidJson(r[k])
    decreases items, 3
  {
    seq(|items|, k requires 0 <= k < |items| => ConvertItem(rt, items[k]))
  }

  function ConvertItem(rt: Runtime, x: Value): (r: Json)
    ensures ValidJson(r)
    decreases x, 2
  {
    match x
    case NpInt(i) => JInt(i)
    case NpFloat(f, _) => if f.NaN? then JNull else JFloat(f)
    case NpBool(b) => JBool(b)
    case _ => Convert(rt, x)
  }

  /** An element of an array is converted as its unboxed Python scalar. */
  lemma {:induction false} ConvertItemUnboxes(rt: Runtime, x: Value)
    ensures ConvertItem(rt, x) == Convert(rt, Unbox(x))
  {
  }

  /** A plain float or a float inside an array or a series: these reach the
      output as floats, infinities included. */
  predicate PlainInfinity(v: Value)
  {
    (v.PyFloat? && v.f.IsInfinite()) || (v.NpFloat? && v.f.IsInfinite())
  }

  /** True when an infinity reaches the normaliser as a plain Python float,
      directly or through `.tolist()` of an array, a series or a frame. */
  predicate KeepsInfinity(v: Value)
  {
    match v
    case PyFloat(f) => f.IsInfinite()
    case NdArray(items) => exists k :: 0 <= k < |items| && (PlainInfinity(items[k]) || KeepsInfinity(items[k]))
    case Series(items) => exists k :: 0 <= k < |items| && (PlainInfinity(items[k]) || KeepsInfinity(items[k]))
    case Frame(columns) =>
      exists k, j :: 0 <= k < |columns| && 0 <= j < |columns[k].values| &&
        (PlainInfinity(columns[k].values[j]) || KeepsInfinity(columns[k].values[j]))
    case Dict(entries) => exists k :: 0 <= k < |entries| && KeepsInfinity(entries[k].1)
    case List(items) => exists k :: 0 <= k < |items| && KeepsInfinity(items[k])
    case Tuple(items) => exists k :: 0 <= k < |items| && KeepsInfinity(items[k])
    case _ => false
  }

  /** Unless an infinity arrives as a plain Python float, the output is strict
      JSON: numpy infinities become text and NaN becomes null. */
  lemma {:induction false} StrictUnlessPlainInfinity(rt: Runtime, v: Value)
    requires !KeepsInfinity(v)
    ensures Strict(Convert(rt, v))
    decreases v, 1
  {
    match v
    case NdArray(items) => StrictItems(rt, items);
    case Series(items) => StrictItems(rt, items);
    case Frame(columns) => StrictFrame(rt, columns);
    case Dict(entries) => StrictDict(rt, entries);
    case List(items) =>
      forall k | 0 <= k < |items| ensures Strict(Convert(rt, items[k])) {
        StrictUnlessPlainInfinity(rt, items[k]);
      }
    case Tuple(items) =>
      forall k | 0 <= k < |items| ensures Strict(Convert(rt, items[k])) {
        StrictUnlessPlainInfinity(rt, items[k]);
      }
    case _ =>
  }

  lemma {:induction false} StrictFrame(rt: Runtime, columns: seq<FrameColumn>)
    requires !KeepsInfinity(Frame(columns))
    ensures Strict(Convert(rt, Frame(columns)))
    decreases Frame(columns), 0
  {
    var es := seq(|columns|, k requires 0 <= k < |columns| =>
      (columns[k].name, JArray(ConvertItems(rt, columns[k].values))));
    forall k | 0 <= k < |es| ensures Strict(es[k].1) {
      StrictItems(rt, columns[k].values);
    }
    StrictCollect(es);
  }

  lemma {:induction false} StrictDict(rt: Runtime, entries: seq<(Value, Value)>)
    requires !KeepsInfinity(Dict(entries))
    ensures Strict(Convert(rt, Dict(entries)))
    decreases Dict(entries), 0
  {
    var es := ConvertEntries(rt, entries);
    forall k | 0 <= k < |es| ensures Strict(es[k].1) {
      StrictUnlessPlainInfinity(rt, entries[k].1);
    }
    StrictCollect(es);
    ConvertDict(rt, entries);
  }

  lemma {:induction false} StrictItems(rt: Runtime, items: seq<Value>)
    requires forall k :: 0 <= k < |items| ==> !PlainInfinity(items[k]) && !KeepsInfinity(items[k])
    ensures forall k :: 0 <= k < |items| ==> Strict(ConvertItems(rt, items)[k])
    decreases items, 2
  {
    forall k | 0 <= k < |items| ensures Strict(ConvertItems(rt, items)[k]) {
      match items[k]
      case NpInt(_) =>
      case NpFloat(_, _) =>
      case NpBool(_) =>
      case _ => StrictUnlessPlainInfinity(rt, items[k]);
    }
  }

  lemma {:induction false} StrictCollect(es: seq<(string, Json)>)
    requires forall k :: 0 <= k < |es| ==> Strict(es[k].1)
    ensures Strict(JObject(Collect(es)))
  {
    var r := Collect(es);
    CollectFrom(es);
    forall k | 0 <= k < |r| ensures Strict(r[k].1) {
      assert r[k] in es;
    }
  }

  /** The plain Python value that a JSON value stands for: what `json.loads`
      would give back for it. */
  function FromJson(j: Json): Value
  {
    match j
    case JNull => PyNone
    case JBool(b) => PyBool(b)
    case JInt(i) => PyInt(i)
    case JFloat(f) => PyFloat(f)
    case JString(s) => PyStr(s)
    case JArray(items) => List(seq(|items|, k requires 0 <= k < |items| => FromJson(items[k])))
    case JObject(entries) =>
      Dict(seq(|entries|, k requires 0 <= k < |entries| => (PyStr(entries[k].0), FromJson(entries[k].1))))
  }

  /** Normalising a value that is already JSON gives it back unchanged: every
      string, key and number is preserved exactly. */
  lemma {:induction false} ConvertFromJson(rt: Runtime, j: Json)
    requires ValidJson(j)
    ensures Convert(rt, FromJson(j)) == j
    decreases j, 2
  {
    match j
    case JArray(items) =>
      var r := Convert(rt, FromJson(j));
      forall k | 0 <= k < |items| ensures r.items[k] == items[k] {
        ConvertFromJson(rt, items[k]);
      }
    case JObject(entries) => ConvertFromJsonObject(rt, j);
    case _ =>
  }

  lemma {:induction false} ConvertFromJsonObject(rt: Runtime, j: Json)
    requires j.JObject? && ValidJson(j)
    ensures Convert(rt, FromJson(j)) == j
    decreases j, 1
  {
    var entries := j.entries;
    var ds := seq(|entries|, k requires 0 <= k < |entries| => (PyStr(entries[k].0), FromJson(entries[k].1)));
    assert FromJson(j) == Dict(ds);
    var es := ConvertEntries(rt, ds);
    forall k | 0 <= k < |entries| ensures es[k] == entries[k] {
      ConvertFromJsonEntry(rt, j, k);
    }
    assert es == entries;
    CollectDistinct(entries);
    ConvertDict(rt, ds);
  }

  /** One entry of an object comes back unchanged: its key is a string and its value is JSON. */
  lemma {:induction false} ConvertFromJsonEntry(rt: Runtime, j: Json, k: nat)
    requires j.JObject? && ValidJson(j) && k < |j.entries|
    ensures Convert(rt, FromJson(j.entries[k].1)) == j.entries[k].1
    decreases j, 0
  {
    var value := j.entries[k].1;
    assert ValidJson(value);
    ConvertFromJson(rt, value);
  }

  lemma {:induction false} ConvertDict(rt: Runtime, entries: seq<(Value, Value)>)
    ensures Convert(rt, Dict(entries)) == JObject(Collect(ConvertEntries(rt, entries)))
  {
    var v := Dict(entries);
    assert v.entries == entries;
  }

  /** The normaliser is idempotent: normalising its own output changes nothing. */
  lemma {:induction false} ConvertIdempotent(rt: Runtime, v: Value)
    ensures Convert(rt, FromJson(Convert(rt, v))) == Convert(rt, v)
  {
    ConvertFromJson(rt, Convert(rt, v));
  }

  /** A key `json.dumps` accepts in a dict. */
  predicate JsonKey(k: Value)
  {
    k.PyStr? || k.PyInt? || k.PyFloat? || k.PyBool? || k.PyNone? || (k.NpFloat? && k.width.Double?)
  }

  /** True when `json.dumps` succeeds on the value: plain scalars (a numpy
      `float64` is a Python float; `float16` and `float32` are not), lists,
      tuples and dicts of them. */
  predicate Dumpable(v: Value)
  {
    match v
    case PyNone => true
    case PyBool(_) => true
    case PyInt(_) => true
    case PyFloat(_) => true
    case PyStr(_) => true
    case NpFloat(_, width) => width.Double?
    case List(items) => forall k :: 0 <= k < |items| ==> Dumpable(items[k])
    case Tuple(items) => forall k :: 0 <= k < |items| ==> Dumpable(items[k])
    case Dict(entries) => forall k :: 0 <= k < |entries| ==> JsonKey(entries[k].0) && Dumpable(entries[k].1)
    case _ => false
  }

  lemma {:induction false} FromJsonDumpable(j: Json)
    ensures Dumpable(FromJson(j))
  {
    match j
    case JArray(items) =>
      forall k | 0 <= k < |items| ensures Dumpable(FromJson(items[k])) {
        FromJsonDumpable(items[k]);
      }
    case JObject(entries) =>
      forall k | 0 <= k < |entries| ensures Dumpable(FromJson(entries[k].1)) {
        FromJsonDumpable(entries[k].1);
      }
    case _ =>
  }

  /** `_ensure_json_serializable`: the value itself when `json.dumps` accepts it,
      otherwise its normalisation. Either way `json.dumps` accepts the result,
      and normalising the result gives what normalising the input gives: the
      probe is a shortcut, not a difference in meaning. */
  function EnsureJson(rt: Runtime, v: Value): (r: Value)
    ensures Dumpable(r)
    ensures Dumpable(v) ==> r == v
    ensures Convert(rt, r) == Convert(rt, v)
  {
    if Dumpable(v) then v
    else
      var j := Convert(rt, v);
      FromJsonDumpable(j);
      ConvertFromJson(rt, j);
      FromJson(j)
  }

  /** A numpy `float64` passes the probe as it is; a `float16` or `float32`,
      which `json.dumps` refuses, is replaced by its normalisation, a plain float. */
  lemma {:induction false} NarrowFloatNormalised(rt: Runtime, x: real, w: FloatWidth)
    ensures Dumpable(NpFloat(Finite(x), w)) <==> w == Double
    ensures w != Double ==> EnsureJson(rt, NpFloat(Finite(x), w)) == PyFloat(Finite(x))
    ensures w != Double ==> !Dumpable(Dict([(PyStr("x"), NpFloat(Finite(x), w))]))
  {
    if w != Double {
      var d := Dict([(PyStr("x"), NpFloat(Finite(x), w))]);
      assert !Dumpable(d.entries[0].1);
    }
  }

  /** The texts the normaliser gives numpy infinities. */
  lemma {:induction false} InfinityTexts(rt: Runtime)
    ensures forall w :: Convert(rt, NpFloat(PosInf, w)) == JString("inf")
    ensures forall w :: Convert(rt, NpFloat(NegInf, w)) == JString("-inf")
  {
  }

  /** A plain Python infinity is handed back untouched, and so is a numpy
      infinity inside an array, which `.tolist()` has made a plain float. */
  lemma {:induction false} PlainInfinityKept(rt: Runtime)
    ensures Convert(rt, PyFloat(PosInf)) == JFloat(PosInf)
    ensures Convert(rt, PyFloat(NegInf)) == JFloat(NegInf)
    ensures Convert(rt, NdArray([NpFloat(PosInf, Double)])) == JArray([JFloat(PosInf)])
  {
    assert ConvertItems(rt, [NpFloat(PosInf, Double)])[0] == JFloat(PosInf);
  }
}
