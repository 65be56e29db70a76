/** The part of a pandas DataFrame the profiler looks at: named columns with a
    dtype and a sequence of cells, the missing-value test, distinct counts,
    `value_counts()` and `select_dtypes`. */
module Frames {
  import opened Serializer

  /** The widths of numpy's integer dtypes, signed and unsigned. */
  datatype IntWidth = I8 | I16 | I32 | I64 | U8 | U16 | U32 | U64

  /** The dtypes the profiler tells apart: numpy integers and floats of every
      width, numpy bools, objects, categories and datetimes. `Extension` stands
      for every other dtype (nullable integers, `string`, time zones, ...) by
      its printed name. */
  datatype DType = Integer(bits: IntWidth) | Floating(width: FloatWidth) | Bool | Object | Category | DateTime64
                 | Extension(name: string)

  function IntWidthName(w: IntWidth): string
  {
    match w
    case I8 => "int8"
    case I16 => "int16"
    case I32 => "int32"
    case I64 => "int64"
    case U8 => "uint8"
    case U16 => "uint16"
    case U32 => "uint32"
    case U64 => "uint64"
  }

  /** The values a numpy integer of the given width holds. */
  predicate InRange(w: IntWidth, i: int)
  {
    match w
    case I8 => -0x80 <= i < 0x80
    case I16 => -0x8000 <= i < 0x8000
    case I32 => -0x8000_0000 <= i < 0x8000_0000
    case I64 => -0x8000_0000_0000_0000 <= i < 0x8000_0000_0000_0000
    case U8 => 0 <= i < 0x100
    case U16 => 0 <= i < 0x1_0000
    case U32 => 0 <= i < 0x1_0000_0000
    case U64 => 0 <= i < 0x1_0000_0000_0000_0000
  }

  /** `str(series.dtype)`. */
  function DTypeName(d: DType): string
  {
    match d
    case Integer(w) => IntWidthName(w)
    case Floating(w) => (match w case Half => "float16" case Single => "float32" case Double => "float64")
    case Bool => "bool"
    case Object => "object"
    case Category => "category"
    case DateTime64 => "datetime64[ns]"
    case Extension(name) => name
  }

  /** `select_dtypes(include=[np.number])`: the numpy integers and floats of
      every width; numpy bools are not numbers. */
  predicate IsNumberDType(d: DType) { d.Integer? || d.Floating? }

  /** `select_dtypes(include=['object', 'category', 'bool'])`. */
  predicate IsCategoricalDType(d: DType) { d.Object? || d.Category? || d.Bool? }

  /** `select_dtypes(include=['datetime64'])`. */
  predicate IsDatetimeDType(d: DType) { d.DateTime64? }

  /** One cell. A NaN float is missing just like a null. */
  datatype Cell = Null | CInt(i: int) | CFloat(f: Float) | CStr(s: string) | CBool(b: bool) | CTime(ns: int)

  /** `pd.isna` of a cell. */
  predicate IsNa(c: Cell) { c.Null? || (c.CFloat? && c.f.NaN?) }

  datatype Column = Column(name: string, dtype: DType, cells: seq<Cell>)

  datatype Dataset = Dataset(columns: seq<Column>, rows: nat)

  /** What a column of a given dtype can hold: numpy columns hold their own
      scalar kind only, integers within their width (an integer column has no
      missing values), a datetime
      column holds instants and NaT, the others hold any Python object. */
  predicate Fits(d: DType, c: Cell)
  {
    match d
    case Integer(w) => c.CInt? && InRange(w, c.i)
    case Floating(_) => c.CFloat?
    case Bool => c.CBool?
    case DateTime64 => c.CTime? || c.Null?
    case _ => true
  }

  function Names(cols: seq<Column>): (r: seq<string>)
    ensures |r| == |cols|
    ensures forall k :: 0 <= k < |cols| ==> r[k] == cols[k].name
  {
    seq(|cols|, k requires 0 <= k < |cols| => cols[k].name)
  }

  /** Every column has one cell per row, fits its dtype, and names are distinct. */
  predicate WellFormed(ds: Dataset)
  {
    (forall k :: 0 <= k < |ds.columns| ==> |ds.columns[k].cells| == ds.rows) &&
    (forall k, j :: 0 <= k < |ds.columns| && 0 <= j < |ds.columns[k].cells| ==>
      Fits(ds.columns[k].dtype, ds.columns[k].cells[j])) &&
    (forall a, b :: 0 <= a < b < |ds.columns| ==> ds.columns[a].name != ds.columns[b].name)
  }

  /** The position of a column named `name`: `df[name]`. */
  function IndexOf(cols: seq<Column>, name: string): (i: nat)
    requires name in Names(cols)
    ensures i < |cols| && cols[i].name == name
  {
    if cols[0].name == name then 0
    else
      NameInTail(cols, name);
      1 + IndexOf(cols[1..], name)
  }

  /** A name that is not the first column's is the name of a later one. */
  lemma NameInTail(cols: seq<Column>, name: string)
    requires name in Names(cols) && cols[0].name != name
    ensures name in Names(cols[1..])
  {
    var k :| 0 <= k < |cols| && Names(cols)[k] == name;
    assert Names(cols[1..])[k - 1] == name;
  }

  /** With distinct names, a column is found where it stands. */
  lemma {:induction false} IndexOfColumn(ds: Dataset, k: nat)
    requires WellFormed(ds) && k < |ds.columns|
    ensures ds.columns[k].name in Names(ds.columns)
    ensures IndexOf(ds.columns, ds.columns[k].name) == k
  {
    assert Names(ds.columns)[k] == ds.columns[k].name;
  }

  /** The Python object standing for a cell: numpy scalars for numpy dtypes,
      `Timestamp` for datetime columns, plain objects otherwise. Iterating an
      index, as `value_counts().items()` does, yields plain Python scalars
      instead; `Str` writes an integer or a boolean the same way in both forms,
      and leaves the text of a finite float to the runtime. */
  function ScalarOf(d: DType, c: Cell): Value
  {
    match c
    case Null => PyNone
    case CInt(i) => if d.Integer? then NpInt(i) else PyInt(i)
    case CFloat(f) => if d.Floating? then NpFloat(f, d.width) else PyFloat(f)
    case CStr(s) => PyStr(s)
    case CBool(b) => if d.Bool? then NpBool(b) else PyBool(b)
    case CTime(ns) => Timestamp(ns)
  }

  /** `series.isna().all()`; true of an empty series. */
  predicate AllNa(cells: seq<Cell>) { forall k :: 0 <= k < |cells| ==> IsNa(cells[k]) }

  /** `np.isinf` holds of some non-missing cell. */
  predicate HasInfinite(cells: seq<Cell>)
  {
    exists k :: 0 <= k < |cells| && cells[k].CFloat? && cells[k].f.IsInfinite()
  }

  /** `series.isna().sum()`. */
  function NaCount(cells: seq<Cell>): (n: nat)
    ensures n <= |cells|
  {
    if cells == [] then 0
    else NaCount(cells[..|cells| - 1]) + (if IsNa(cells[|cells| - 1]) then 1 else 0)
  }

  lemma {:induction false} NaCountAll(cells: seq<Cell>)
    ensures NaCount(cells) == |cells| <==> AllNa(cells)
    ensures NaCount(cells) == 0 <==> forall k :: 0 <= k < |cells| ==> !IsNa(cells[k])
  {
    if cells != [] {
      var init := cells[..|cells| - 1];
      NaCountAll(init);
      assert forall k :: 0 <= k < |init| ==> init[k] == cells[k];
    }
  }

  /** `series.dropna()`. */
  function NonNa(cells: seq<Cell>): (r: seq<Cell>)
    ensures |r| + NaCount(cells) == |cells|
    ensures forall c :: c in r <==> c in cells && !IsNa(c)
  {
    if cells == [] then []
    else
      var init := cells[..|cells| - 1];
      var last := cells[|cells| - 1];
      assert cells == init + [last];
      if IsNa(last) then NonNa(init) else NonNa(init) + [last]
  }

  /** What Python's `==` compares a cell by, which is how pandas groups the
      values of an object column: booleans, integers and finite floats are
      numbers, so `True`, `1` and `1.0` are one value; any other cell equals
      only itself. */
  datatype Key = Number(x: real) | Other(c: Cell)

  function KeyOf(c: Cell): Key
  {
    match c
    case CInt(i) => Number(i as real)
    case CBool(b) => Number(if b then 1.0 else 0.0)
    case CFloat(f) => if f.Finite? then Number(f.x) else Other(c)
    case _ => Other(c)
  }

  function Keys(cells: seq<Cell>): (r: seq<Key>)
    ensures |r| == |cells|
    ensures forall k :: 0 <= k < |cells| ==> r[k] == KeyOf(cells[k])
  {
    seq(|cells|, k requires 0 <= k < |cells| => KeyOf(cells[k]))
  }

  /** How often a value equal to `c` occurs. */
  function Count(cells: seq<Cell>, c: Cell): (n: nat)
    ensures n <= |cells|
  {
    if cells == [] then 0
    else Count(cells[..|cells| - 1], c) + (if KeyOf(cells[|cells| - 1]) == KeyOf(c) then 1 else 0)
  }

  /** Equal values have equal counts. */
  lemma {:induction false} CountByKey(cells: seq<Cell>, a: Cell, b: Cell)
    requires KeyOf(a) == KeyOf(b)
    ensures Count(cells, a) == Count(cells, b)
  {
    if cells != [] {
      CountByKey(cells[..|cells| - 1], a, b);
    }
  }

  lemma {:induction false} CountPositive(cells: seq<Cell>, c: Cell)
    ensures Count(cells, c) > 0 <==> KeyOf(c) in Keys(cells)
  {
    if cells != [] {
      var init := cells[..|cells| - 1];
      CountPositive(init, c);
      assert Keys(cells) == Keys(init) + [KeyOf(cells[|cells| - 1])];
    }
  }

  predicate NoDuplicates<T(==)>(s: seq<T>)
  {
    forall a, b :: 0 <= a < b < |s| ==> s[a] != s[b]
  }

  /** The distinct non-missing values in order of first appearance, each
      standing as its first occurrence: no two are equal and each is a
      non-missing cell of the column (`DistinctCovers`: every such cell equals
      one of them). */
  function Distinct(cells: seq<Cell>): (r: seq<Cell>)
    ensures |r| <= |cells|
    ensures NoDuplicates(Keys(r))
    ensures forall c :: c in r ==> c in cells && !IsNa(c)
  {
    if cells == [] then []
    else
      var init := cells[..|cells| - 1];
      var last := cells[|cells| - 1];
      assert cells == init + [last];
      var d := Distinct(init);
      if IsNa(last) || KeyOf(last) in Keys(d) then d
      else
        assert Keys(d + [last]) == Keys(d) + [KeyOf(last)];
        d + [last]
  }

  /** Every non-missing cell equals one of the distinct values. */
  lemma {:induction false} DistinctCovers(cells: seq<Cell>, i: nat)
    requires i < |cells| && !IsNa(cells[i])
    ensures KeyOf(cells[i]) in Keys(Distinct(cells))
  {
    var init := cells[..|cells| - 1];
    var last := cells[|cells| - 1];
    var d := Distinct(init);
    if i < |init| {
      assert init[i] == cells[i];
      DistinctCovers(init, i);
      var j :| 0 <= j < |d| && Keys(d)[j] == KeyOf(cells[i]);
      if !(IsNa(last) || KeyOf(last) in Keys(d)) {
        assert Keys(d + [last])[j] == KeyOf(cells[i]);
      }
    } else if KeyOf(last) !in Keys(d) {
      assert Keys(d + [last])[|d|] == KeyOf(last);
    }
  }

  /** Each distinct value is the first cell equal to it. */
  lemma {:induction false} DistinctFirst(cells: seq<Cell>, k: nat)
    requires k < |Distinct(cells)|
    ensures exists i :: 0 <= i < |cells| && cells[i] == Distinct(cells)[k] && KeyOf(cells[i]) !in Keys(cells[..i])
  {
    var init := cells[..|cells| - 1];
    var last := cells[|cells| - 1];
    var d := Distinct(init);
    if k < |d| {
      DistinctFirst(init, k);
      var i :| 0 <= i < |init| && init[i] == d[k] && KeyOf(init[i]) !in Keys(init[..i]);
      assert cells[..i] == init[..i];
    } else {
      assert Distinct(cells) == d + [last];
      assert cells[..|cells| - 1] == init;
      if KeyOf(last) in Keys(init) {
        var j :| 0 <= j < |init| && Keys(init)[j] == KeyOf(last);
        DistinctCovers(init, j);
      }
    }
  }

  /** Python's `==` at work: `1` and `True` are one value, counted twice and
      shown as the first of them. */
  lemma PythonEquality()
    ensures NUnique([CInt(1), CBool(true)]) == 1
    ensures ValueCounts([CInt(1), CBool(true)]) == [(CInt(1), 2)]
  {
    var cells := [CInt(1), CBool(true)];
    assert cells[..1] == [CInt(1)];
    assert [CInt(1)][..0] == [];
    assert Distinct([CInt(1)]) == [CInt(1)];
    assert Keys([CInt(1)]) == [Number(1.0)];
    assert Distinct(cells) == [CInt(1)];
    assert Count(cells, CInt(1)) == 2;
    assert Tally(cells) == [(CInt(1), 2)];
  }

  /** `series.nunique()`: missing values are not counted. */
  /** `nunique()`: how many distinct non-missing values there are. */
  function NUnique(cells: seq<Cell>): (n: nat)
    ensures n <= |cells|
  {
    |Distinct(cells)|
  }

  /** No non-missing cell means no distinct value, and the converse. */
  lemma {:induction false} NUniqueZero(cells: seq<Cell>)
    ensures NUnique(cells) == 0 <==> AllNa(cells)
  {
    if !AllNa(cells) {
      var k :| 0 <= k < |cells| && !IsNa(cells[k]);
      DistinctCovers(cells, k);
    } else if cells != [] {
      var init := cells[..|cells| - 1];
      assert AllNa(init) by {
        forall k | 0 <= k < |init| ensures IsNa(init[k]) { assert init[k] == cells[k]; }
      }
      NUniqueZero(init);
    }
  }

  /** A count per distinct value, in order of first appearance. */
  function Tally(cells: seq<Cell>): (r: seq<(Cell, nat)>)
    ensures |r| == NUnique(cells)
  {
    var d := Distinct(cells);
    seq(|d|, k requires 0 <= k < |d| => (d[k], Count(cells, d[k])))
  }

  predicate SortedByCount(s: seq<(Cell, nat)>)
  {
    forall a, b :: 0 <= a < b < |s| ==> s[a].1 >= s[b].1
  }

  /** Puts `e` after every entry whose count is at least its own. */
  function InsertByCount(e: (Cell, nat), s: seq<(Cell, nat)>): (r: seq<(Cell, nat)>)
    ensures multiset(r) == multiset(s) + multiset{e}
    ensures |r| == |s| + 1
  {
    if s == [] then [e]
    else if s[0].1 >= e.1 then
      assert s == [s[0]] + s[1..];
      [s[0]] + InsertByCount(e, s[1..])
    else [e] + s
  }

  lemma {:induction false} InsertByCountSorted(e: (Cell, nat), s: seq<(Cell, nat)>)
    requires SortedByCount(s)
    ensures SortedByCount(InsertByCount(e, s))
  {
    if s != [] && s[0].1 >= e.1 {
      var rest := s[1..];
      InsertByCountSorted(e, rest);
      var t := InsertByCount(e, rest);
      var r := InsertByCount(e, s);
      assert r == [s[0]] + t;
      assert t[0].1 <= s[0].1 by {
        if rest != [] && rest[0].1 >= e.1 {
          assert t[0] == rest[0] == s[1];
        } else {
          assert t[0] == e;
        }
      }
      forall a, b | 0 <= a < b < |r| ensures r[a].1 >= r[b].1 {
        assert r[b] == t[b - 1];
        if a == 0 {
          assert t[0].1 >= t[b - 1].1 by { if b > 1 { assert 0 < b - 1; } }
        } else {
          assert r[a] == t[a - 1];
        }
      }
    }
  }

  /** A stable insertion sort by descending count. */
  function SortByCount(s: seq<(Cell, nat)>): (r: seq<(Cell, nat)>)
    ensures multiset(r) == multiset(s)
    ensures |r| == |s|
  {
    if s == [] then []
    else
      var init := s[..|s| - 1];
      assert s == init + [s[|s| - 1]];
      InsertByCount(s[|s| - 1], SortByCount(init))
  }

  lemma {:induction false} SortByCountSorted(s: seq<(Cell, nat)>)
    ensures SortedByCount(SortByCount(s))
  {
    if s != [] {
      SortByCountSorted(s[..|s| - 1]);
      InsertByCountSorted(s[|s| - 1], SortByCount(s[..|s| - 1]));
    }
  }

  /** `series.value_counts()`: one entry per distinct non-missing value with the
      number of cells equal to it, most frequent first (`ValueCountsCovers`:
      every value of the column is counted in the entry of the value it equals). */
  function ValueCounts(cells: seq<Cell>): (r: seq<(Cell, nat)>)
    ensures |r| == NUnique(cells)
    ensures SortedByCount(r)
    ensures forall k :: 0 <= k < |r| ==> !IsNa(r[k].0) && r[k].0 in cells && r[k].1 == Count(cells, r[k].0) && r[k].1 > 0
  {
    var t := Tally(cells);
    var r := SortByCount(t);
    SortByCountSorted(t);
    forall k | 0 <= k < |r|
      ensures !IsNa(r[k].0) && r[k].0 in cells && r[k].1 == Count(cells, r[k].0) && r[k].1 > 0
    {
      TallyEntry(cells, r, k);
    }
    r
  }

  /** An entry of a reordered tally is a counted value of the column. */
  lemma {:induction false} TallyEntry(cells: seq<Cell>, r: seq<(Cell, nat)>, k: nat)
    requires multiset(r) == multiset(Tally(cells)) && k < |r|
    ensures !IsNa(r[k].0) && r[k].0 in cells && r[k].1 == Count(cells, r[k].0) && r[k].1 > 0
  {
    var t := Tally(cells);
    assert r[k] in multiset(t);
    var j :| 0 <= j < |t| && t[j] == r[k];
    assert Distinct(cells)[j] in Distinct(cells);
    var i :| 0 <= i < |cells| && cells[i] == r[k].0;
    assert Keys(cells)[i] == KeyOf(r[k].0);
    CountPositive(cells, r[k].0);
  }

  /** `value_counts()` omits no value: every non-missing cell is counted, with
      all the cells equal to it, in the entry of the value it equals. */
  lemma {:induction false} ValueCountsCovers(cells: seq<Cell>, i: nat)
    requires i < |cells| && !IsNa(cells[i])
    ensures exists k :: (0 <= k < |ValueCounts(cells)| &&
      KeyOf(ValueCounts(cells)[k].0) == KeyOf(cells[i]) && ValueCounts(cells)[k].1 == Count(cells, cells[i]))
  {
    var c := cells[i];
    var r := ValueCounts(cells);
    var t := Tally(cells);
    var d := Distinct(cells);
    SortByCountFacts(t);
    DistinctCovers(cells, i);
    var j :| 0 <= j < |d| && Keys(d)[j] == KeyOf(c);
    CountByKey(cells, d[j], c);
    assert t[j] in multiset(r);
    var k :| 0 <= k < |r| && r[k] == t[j];
  }

  /** `value_counts().head(n)` holds the most frequent values: no value left out
      occurs more often than one that is kept. */
  lemma {:induction false} HeadIsMostFrequent(cells: seq<Cell>, n: nat, kept: nat, dropped: nat)
    requires kept < n <= dropped < |ValueCounts(cells)|
    ensures ValueCounts(cells)[kept].1 >= ValueCounts(cells)[dropped].1
  {
  }

  /** No two entries of `value_counts()` hold equal values. */
  lemma {:induction false} ValueCountsDistinct(cells: seq<Cell>)
    ensures NoDuplicates(Keys(CountedValues(ValueCounts(cells))))
  {
    var r := ValueCounts(cells);
    var t := Tally(cells);
    assert multiset(r) == multiset(t) by { SortByCountFacts(t); }
    var vs := Keys(CountedValues(r));
    forall a, b | 0 <= a < b < |r| ensures vs[a] != vs[b] {
      TallyEntriesUnequal(cells, r, a, b);
    }
  }

  /** Two entries of a reordered tally hold unequal values. */
  lemma {:induction false} TallyEntriesUnequal(cells: seq<Cell>, r: seq<(Cell, nat)>, a: nat, b: nat)
    requires multiset(r) == multiset(Tally(cells)) && a < b < |r|
    ensures KeyOf(r[a].0) != KeyOf(r[b].0)
  {
    var t := Tally(cells);
    var d := Distinct(cells);
    assert r[a] in multiset(t) && r[b] in multiset(t);
    var i :| 0 <= i < |t| && t[i] == r[a];
    var j :| 0 <= j < |t| && t[j] == r[b];
    if i == j {
      MultisetDuplicate(r, a, b);
      TallyOnce(cells, r[a]);
      assert false;
    } else {
      assert Keys(d)[i] == KeyOf(r[a].0) && Keys(d)[j] == KeyOf(r[b].0);
    }
  }

  /** The values of `value_counts()` entries, without their counts. */
  function CountedValues(s: seq<(Cell, nat)>): (r: seq<Cell>)
    ensures |r| == |s| && forall k :: 0 <= k < |s| ==> r[k] == s[k].0
  {
    seq(|s|, k requires 0 <= k < |s| => s[k].0)
  }

  lemma {:induction false} SortByCountFacts(t: seq<(Cell, nat)>)
    ensures multiset(SortByCount(t)) == multiset(t)
  {
  }

  lemma {:induction false} MultisetDuplicate<T>(s: seq<T>, a: nat, b: nat)
    requires a < b < |s| && s[a] == s[b]
    ensures multiset(s)[s[a]] >= 2
  {
    assert s == s[..a] + [s[a]] + s[a + 1..];
    assert s[b] in s[a + 1..] by { assert s[a + 1..][b - a - 1] == s[b]; }
  }

  /** The tally has one entry per distinct value. */
  lemma {:induction false} TallyOnce(cells: seq<Cell>, e: (Cell, nat))
    ensures multiset(Tally(cells))[e] <= 1
  {
    var t := Tally(cells);
    var d := Distinct(cells);
    assert NoDuplicates(t) by {
      forall a, b | 0 <= a < b < |t| ensures t[a] != t[b] {
        assert t[a].0 == d[a] && t[b].0 == d[b];
        assert Keys(d)[a] != Keys(d)[b];
      }
    }
    NoDuplicatesOnce(t, e);
  }

  lemma {:induction false} NoDuplicatesOnce<T>(s: seq<T>, e: T)
    requires NoDuplicates(s)
    ensures multiset(s)[e] <= 1
  {
    if s != [] {
      var init := s[..|s| - 1];
      var last := s[|s| - 1];
      assert s == init + [last];
      assert NoDuplicates(init) by {
        forall a, b | 0 <= a < b < |init| ensures init[a] != init[b] {
          assert init[a] == s[a] && init[b] == s[b];
        }
      }
      NoDuplicatesOnce(init, e);
      if last == e {
        assert e !in init by {
          forall k | 0 <= k < |init| ensures init[k] != e {
            assert init[k] == s[k];
          }
        }
      }
    }
  }

  /** The instants of the non-missing cells of a datetime column. */
  function TimesOf(cells: seq<Cell>): (r: seq<int>)
    ensures forall t :: t in r <==> CTime(t) in cells
  {
    if cells == [] then []
    else
      var init := cells[..|cells| - 1];
      var last := cells[|cells| - 1];
      assert cells == init + [last];
      if last.CTime? then TimesOf(init) + [last.ns] else TimesOf(init)
  }

  /** `non_null.min()` of instants. */
  function MinOf(ts: seq<int>): (m: int)
    requires |ts| > 0
    ensures m in ts && forall t :: t in ts ==> m <= t
  {
    if |ts| == 1 then ts[0]
    else
      var rest := MinOf(ts[1..]);
      assert ts == [ts[0]] + ts[1..];
      if ts[0] <= rest then ts[0] else rest
  }

  /** `non_null.max()` of instants. */
  function MaxOf(ts: seq<int>): (m: int)
    requires |ts| > 0
    ensures m in ts && forall t :: t in ts ==> t <= m
  {
    if |ts| == 1 then ts[0]
    else
      var rest := MaxOf(ts[1..]);
      assert ts == [ts[0]] + ts[1..];
      if ts[0] >= rest then ts[0] else rest
  }

  /** In a well-formed datetime column the non-missing cells are the instants. */
  lemma {:induction false} TimesOfNonNa(d: DType, cells: seq<Cell>)
    requires d.DateTime64? && forall k :: 0 <= k < |cells| ==> Fits(d, cells[k])
    ensures |TimesOf(cells)| == |NonNa(cells)|
  {
    if cells != [] {
      var init := cells[..|cells| - 1];
      assert forall k :: 0 <= k < |init| ==> init[k] == cells[k];
      TimesOfNonNa(d, init);
    }
  }
}
