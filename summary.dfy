/** `generate_summary`: the natural-language summary, built from clauses in a
    fixed order, each left out when what it reports is zero or absent. */
module Summary {
  import opened Text
  import opened Outcomes
  import opened Serializer
  import opened Frames
  import opened Columns
  import opened Host
  import Charts

  /** The clauses of the summary, in the order they are appended. */
  datatype Clause =
    | Shape(rows: nat, columns: nat)
    | Kinds(counts: seq<string>)
    | Special(kinds: seq<string>)
    | Missing(total: nat)
    | Empty(count: nat)
    | Correlation(value: Float, first: string, second: string)

  /** The position of a clause kind in the summary. */
  function Rank(c: Clause): nat
  {
    match c
    case Shape(_, _) => 0
    case Kinds(_) => 1
    case Special(_) => 2
    case Missing(_) => 3
    case Empty(_) => 4
    case Correlation(_, _, _) => 5
  }

  /** The sentence of a clause. */
  function Render(lib: Libraries, c: Clause): (r: string)
    ensures |r| > 0 && r[|r| - 1] == '.'
  {
    match c
    case Shape(rows, columns) =>
      "This dataset has " + DecimalText(rows) + " rows and " + DecimalText(columns) + " columns."
    case Kinds(counts) => "It contains " + Join(counts, ", ") + "."
    case Special(kinds) => "The dataset includes " + Join(kinds, " and ") + " data."
    case Missing(total) => "There are " + DecimalText(total) + " missing values across all columns."
    case Empty(count) => "There are " + DecimalText(count) + " empty columns."
    case Correlation(value, first, second) =>
      "There is a strong correlation (" + lib.fixed2(value) + ") between " + first + " and " + second + "."
  }

  /** `type_counts`: one phrase per non-empty group, numeric, categorical, datetime. */
  function TypeCounts(ds: Dataset): (r: seq<string>)
    ensures |r| <= 3
    ensures r == [] <==> NumericColumns(ds) == [] && CategoricalColumns(ds) == [] && DatetimeColumns(ds) == []
    ensures |NumericColumns(ds)| > 0 ==> r[0] == DecimalText(|NumericColumns(ds)|) + " numeric columns"
    ensures |DatetimeColumns(ds)| > 0 ==> r[|r| - 1] == DecimalText(|DatetimeColumns(ds)|) + " datetime columns"
    ensures var n, c, d := |NumericColumns(ds)|, |CategoricalColumns(ds)|, |DatetimeColumns(ds)|;
      |r| == (if n > 0 then 1 else 0) + (if c > 0 then 1 else 0) + (if d > 0 then 1 else 0)
    ensures var n, c := |NumericColumns(ds)|, |CategoricalColumns(ds)|;
      c > 0 ==> r[if n > 0 then 1 else 0] == DecimalText(c) + " categorical columns"
  {
    var n, c, d := |NumericColumns(ds)|, |CategoricalColumns(ds)|, |DatetimeColumns(ds)|;
    (if n > 0 then [DecimalText(n) + " numeric columns"] else []) +
    (if c > 0 then [DecimalText(c) + " categorical columns"] else []) +
    (if d > 0 then [DecimalText(d) + " datetime columns"] else [])
  }

  /** Some dtype name contains "text", ignoring case. */
  predicate HasTextDType(ds: Dataset)
  {
    exists k :: 0 <= k < |ds.columns| && Contains(Lower(DTypeName(ds.columns[k].dtype)), "text")
  }

  /** Cell `j` of `col`, written as text by `astype(str)`, holds a character outside ASCII. */
  predicate SpecialCell(rt: Runtime, col: Column, j: nat)
    requires j < |col.cells|
  {
    HasNonAscii(Str(rt, ScalarOf(col.dtype, col.cells[j])))
  }

  /** Some cell holds a character outside ASCII. */
  predicate HasSpecialChars(rt: Runtime, ds: Dataset)
  {
    exists k, j :: 0 <= k < |ds.columns| && 0 <= j < |ds.columns[k].cells| && SpecialCell(rt, ds.columns[k], j)
  }

  /** `special_types`. */
  function SpecialKinds(rt: Runtime, ds: Dataset): (r: seq<string>)
    ensures r == [] <==> !HasTextDType(ds) && !HasSpecialChars(rt, ds)
    ensures "text" in r <==> HasTextDType(ds)
    ensures "special characters" in r <==> HasSpecialChars(rt, ds)
    ensures HasTextDType(ds) ==> r[0] == "text"
  {
    (if HasTextDType(ds) then ["text"] else []) + (if HasSpecialChars(rt, ds) then ["special characters"] else [])
  }

  /** `df.isna().sum().sum()` over the first `n` columns. */
  function TotalMissing(cols: seq<Column>): (t: nat)
    ensures t == 0 <==> forall k :: 0 <= k < |cols| ==> NaCount(cols[k].cells) == 0
  {
    if cols == [] then 0
    else
      var init := cols[..|cols| - 1];
      assert forall k :: 0 <= k < |init| ==> init[k] == cols[k];
      TotalMissing(init) + NaCount(cols[|cols| - 1].cells)
  }

  /** The number of columns with no cells. */
  function EmptyCount(cols: seq<Column>): (n: nat)
    ensures n <= |cols|
    ensures n == 0 <==> forall k :: 0 <= k < |cols| ==> |cols[k].cells| > 0
  {
    if cols == [] then 0
    else
      var init := cols[..|cols| - 1];
      assert forall k :: 0 <= k < |init| ==> init[k] == cols[k];
      EmptyCount(init) + (if |cols[|cols| - 1].cells| == 0 then 1 else 0)
  }

  /** In a well-formed dataset the columns are empty exactly when there are no rows. */
  lemma {:induction false} EmptyCountRows(ds: Dataset)
    requires Frames.WellFormed(ds)
    ensures EmptyCount(ds.columns) == if ds.rows == 0 then |ds.columns| else 0
  {
    EmptyCountAll(ds.columns, ds.rows);
  }

  lemma {:induction false} EmptyCountAll(cols: seq<Column>, rows: nat)
    requires forall k :: 0 <= k < |cols| ==> |cols[k].cells| == rows
    ensures EmptyCount(cols) == if rows == 0 then |cols| else 0
  {
    if cols != [] {
      var init := cols[..|cols| - 1];
      assert forall k :: 0 <= k < |init| ==> init[k] == cols[k];
      EmptyCountAll(init, rows);
    }
  }

  /** `np.abs(corr) > 0.8`; NaN compares false. */
  predicate Strong(f: Float)
  {
    match f
    case Finite(x) => x > 0.8 || x < -0.8
    case NaN => false
    case _ => true
  }

  predicate Square(m: seq<seq<Float>>)
  {
    forall i :: 0 <= i < |m| ==> |m[i]| == |m|
  }

  /** Position `(a, b)` comes at or after `(i, j)` in row-major order. */
  predicate AtOrAfter(a: nat, b: nat, i: nat, j: nat) { a > i || (a == i && b >= j) }

  /** The first off-diagonal strong entry at or after `(i, j)` in row-major
      order: the first pair `np.where` yields with `x != y`. */
  function FirstStrong(m: seq<seq<Float>>, i: nat, j: nat): (r: Option<(nat, nat)>)
    requires Square(m) && i <= |m| && j <= |m|
    ensures r.Some? ==>
      var (a, b) := r.value;
      a < |m| && b < |m| && a != b && Strong(m[a][b]) && AtOrAfter(a, b, i, j) &&
      forall x: nat, y: nat :: x < |m| && y < |m| && x != y && AtOrAfter(x, y, i, j) && !AtOrAfter(x, y, a, b) ==> !Strong(m[x][y])
    ensures r.None? ==>
      forall x: nat, y: nat :: x < |m| && y < |m| && x != y && AtOrAfter(x, y, i, j) ==> !Strong(m[x][y])
    decreases |m| - i, |m| - j
  {
    if i == |m| then None
    else if j == |m| then FirstStrong(m, i + 1, 0)
    else if i != j && Strong(m[i][j]) then Some((i, j))
    else FirstStrong(m, i, j + 1)
  }

  /** The clause for `type_counts`, present when some group is non-empty. */
  function KindsClause(ds: Dataset): (r: Option<Clause>)
    ensures r.Some? <==> |NumericColumns(ds)| + |CategoricalColumns(ds)| + |DatetimeColumns(ds)| > 0
    ensures r.Some? ==> r.value == Kinds(TypeCounts(ds))
  {
    if TypeCounts(ds) != [] then Some(Kinds(TypeCounts(ds))) else None
  }

  function SpecialClause(rt: Runtime, ds: Dataset): (r: Option<Clause>)
    ensures r.Some? <==> HasTextDType(ds) || HasSpecialChars(rt, ds)
    ensures r.Some? ==> r.value == Special(SpecialKinds(rt, ds))
  {
    if SpecialKinds(rt, ds) != [] then Some(Special(SpecialKinds(rt, ds))) else None
  }

  function MissingClause(ds: Dataset): (r: Option<Clause>)
    ensures r.Some? <==> exists k :: 0 <= k < |ds.columns| && NaCount(ds.columns[k].cells) > 0
    ensures r.Some? ==> r.value == Missing(TotalMissing(ds.columns))
  {
    if TotalMissing(ds.columns) > 0 then Some(Missing(TotalMissing(ds.columns))) else None
  }

  function EmptyClause(ds: Dataset): (r: Option<Clause>)
    ensures r.Some? <==> exists k :: 0 <= k < |ds.columns| && |ds.columns[k].cells| == 0
    ensures r.Some? ==> r.value == Empty(EmptyCount(ds.columns))
  {
    if EmptyCount(ds.columns) > 0 then Some(Empty(EmptyCount(ds.columns))) else None
  }

  /** The strong-correlation clause: only with two numeric columns and two
      rows, naming the first strong pair of distinct columns in row-major order. */
  function CorrelationClause(lib: Libraries, ds: Dataset): (r: Option<Clause>)
    ensures r.Some? ==> Charts.CanCorrelate(ds) && r.value.Correlation?
  {
    if !Charts.CanCorrelate(ds) then None
    else
      var names := NumericColumns(ds);
      var m := Charts.CorrMatrix(lib, ds, names);
      match FirstStrong(m, 0, 0)
      case None => None
      case Some((a, b)) => Some(Correlation(m[a][b], names[a], names[b]))
  }

  /** The clause is there exactly when some pair of distinct numeric columns
      correlates strongly; it names two distinct columns whose correlation is
      strong, and no pair before them in row-major order is strong. */
  lemma {:induction false} CorrelationClauseFacts(lib: Libraries, ds: Dataset)
    requires Charts.CanCorrelate(ds)
    ensures var names := NumericColumns(ds);
      var m := Charts.CorrMatrix(lib, ds, names);
      var r := CorrelationClause(lib, ds);
      (r.None? <==> forall a: nat, b: nat :: a < |m| && b < |m| && a != b ==> !Strong(m[a][b])) &&
      (r.Some? ==> exists a: nat, b: nat :: (
        a < |m| && b < |m| && a != b && Strong(m[a][b]) &&
        r.value == Correlation(m[a][b], names[a], names[b]) &&
        forall x: nat, y: nat :: x < |m| && y < |m| && x != y && !AtOrAfter(x, y, a, b) ==> !Strong(m[x][y])))
  {
    var names := NumericColumns(ds);
    var m := Charts.CorrMatrix(lib, ds, names);
    var f := FirstStrong(m, 0, 0);
    if f.Some? {
      var (a, b) := f.value;
      assert CorrelationClause(lib, ds) == Some(Correlation(m[a][b], names[a], names[b]));
    }
  }

  /** A clause that applies as a one-element list; none as the empty list. */
  function Opt(c: Option<Clause>): (r: seq<Clause>)
    ensures c.None? ==> r == []
    ensures c.Some? ==> r == [c.value]
  {
    match c
    case None => []
    case Some(x) => [x]
  }

  /** The clauses among the first `n` slots that are present, in order, where
      the clause in slot `i` has rank `i`. */
  function Present(opts: seq<Option<Clause>>, n: nat): seq<Clause>
    requires n <= |opts|
  {
    if n == 0 then [] else Present(opts, n - 1) + Opt(opts[n - 1])
  }

  /** Every clause given comes from its own slot among the first `n`. */
  lemma {:induction false} PresentFrom(opts: seq<Option<Clause>>, n: nat)
    requires n <= |opts|
    requires forall i :: 0 <= i < |opts| && opts[i].Some? ==> Rank(opts[i].value) == i
    ensures forall c :: c in Present(opts, n) ==> Rank(c) < n && opts[Rank(c)] == Some(c)
  {
    if n > 0 {
      PresentFrom(opts, n - 1);
      PresentSnoc(opts, n - 1);
    }
  }

  /** Every slot among the first `n` that holds a clause gives it. */
  lemma {:induction false} PresentAll(opts: seq<Option<Clause>>, n: nat)
    requires n <= |opts|
    ensures forall i :: 0 <= i < n && opts[i].Some? ==> opts[i].value in Present(opts, n)
  {
    if n > 0 {
      PresentAll(opts, n - 1);
      PresentSnoc(opts, n - 1);
    }
  }

  /** The clauses come in strictly increasing rank. */
  lemma {:induction false} PresentOrdered(opts: seq<Option<Clause>>, n: nat)
    requires n <= |opts|
    requires forall i :: 0 <= i < |opts| && opts[i].Some? ==> Rank(opts[i].value) == i
    ensures forall a, b :: 0 <= a < b < |Present(opts, n)| ==> Rank(Present(opts, n)[a]) < Rank(Present(opts, n)[b])
  {
    if n > 0 {
      PresentOrdered(opts, n - 1);
      PresentFrom(opts, n - 1);
      PresentSnoc(opts, n - 1);
      var r0 := Present(opts, n - 1);
      if opts[n - 1].Some? {
        var r := Present(opts, n);
        assert r == r0 + [opts[n - 1].value];
        forall a, b | 0 <= a < b < |r| ensures Rank(r[a]) < Rank(r[b]) {
          if b == |r0| {
            assert r[a] == r0[a] && r0[a] in r0;
          } else {
            assert r[a] == r0[a] && r[b] == r0[b];
          }
        }
      }
    }
  }

  /** A first slot that holds a clause gives the first clause. */
  lemma {:induction false} PresentFirst(opts: seq<Option<Clause>>, n: nat)
    requires 0 < n <= |opts| && opts[0].Some?
    ensures |Present(opts, n)| > 0 && Present(opts, n)[0] == opts[0].value
  {
    PresentSnoc(opts, n - 1);
    if n > 1 {
      PresentFirst(opts, n - 1);
    } else {
      assert Present(opts, 0) == [];
    }
  }

  /** The clause of the given rank, when it applies. */
  function ClauseAt(lib: Libraries, ds: Dataset, rank: nat): (r: Option<Clause>)
    ensures r.Some? ==> Rank(r.value) == rank
  {
    if rank == 0 then Some(Shape(ds.rows, |ds.columns|))
    else if rank == 1 then KindsClause(ds)
    else if rank == 2 then SpecialClause(lib.rt, ds)
    else if rank == 3 then MissingClause(ds)
    else if rank == 4 then EmptyClause(ds)
    else if rank == 5 then CorrelationClause(lib, ds)
    else None
  }

  /** The clause slots, by rank. */
  function Slots(lib: Libraries, ds: Dataset): (opts: seq<Option<Clause>>)
    ensures |opts| == 6 && forall k :: 0 <= k < 6 ==> opts[k] == ClauseAt(lib, ds, k)
  {
    seq(6, k requires 0 <= k < 6 => ClauseAt(lib, ds, k))
  }

  /** One more slot adds its clause when it applies. */
  lemma {:induction false} PresentSnoc(opts: seq<Option<Clause>>, n: nat)
    requires n < |opts|
    ensures Present(opts, n + 1) == Present(opts, n) + Opt(opts[n])
  {
  }

  /** `summary_parts` as clauses: the shape first, then each clause that applies,
      in rank order, each kind at most once. */
  function Clauses(lib: Libraries, ds: Dataset): (r: seq<Clause>)
    ensures |r| >= 1 && r[0] == Shape(ds.rows, |ds.columns|)
    ensures forall a, b :: 0 <= a < b < |r| ==> Rank(r[a]) < Rank(r[b])
    ensures forall c :: c in r ==> Rank(c) <= 5 && ClauseAt(lib, ds, Rank(c)) == Some(c)
    ensures forall k :: 0 <= k <= 5 && ClauseAt(lib, ds, k).Some? ==> ClauseAt(lib, ds, k).value in r
  {
    var opts := Slots(lib, ds);
    assert opts[0] == Some(Shape(ds.rows, |ds.columns|));
    var r := Present(opts, 6);
    PresentFrom(opts, 6);
    PresentAll(opts, 6);
    PresentOrdered(opts, 6);
    PresentFirst(opts, 6);
    assert forall k :: 0 <= k <= 5 && ClauseAt(lib, ds, k).Some? ==> opts[k].value in r;
    r
  }

  /** The sentences of the clauses, one each. */
  function Sentences(lib: Libraries, cs: seq<Clause>): (r: seq<string>)
    ensures |r| == |cs| && forall k :: 0 <= k < |cs| ==> r[k] == Render(lib, cs[k])
  {
    seq(|cs|, k requires 0 <= k < |cs| => Render(lib, cs[k]))
  }

  /** A clause that applies gives its one sentence; one that does not, none. */
  lemma {:induction false} SentencesOpt(lib: Libraries, c: Option<Clause>)
    ensures c.None? ==> Sentences(lib, Opt(c)) == []
    ensures c.Some? ==> Sentences(lib, Opt(c)) == [Render(lib, c.value)]
  {
  }

  /** Sentences of consecutive clause lists follow each other. */
  lemma {:induction false} SentencesAppend(lib: Libraries, a: seq<Clause>, b: seq<Clause>)
    ensures Sentences(lib, a + b) == Sentences(lib, a) + Sentences(lib, b)
  {
  }

  /** `Clauses` written out slot by slot. */
  lemma {:induction false} ClausesInOrder(lib: Libraries, ds: Dataset)
    ensures Clauses(lib, ds) == [Shape(ds.rows, |ds.columns|)] + Opt(ClauseAt(lib, ds, 1)) +
      Opt(ClauseAt(lib, ds, 2)) + Opt(ClauseAt(lib, ds, 3)) + Opt(ClauseAt(lib, ds, 4)) + Opt(ClauseAt(lib, ds, 5))
  {
    var opts := Slots(lib, ds);
    var c0 := [Shape(ds.rows, |ds.columns|)];
    var o1, o2, o3, o4, o5 := Opt(opts[1]), Opt(opts[2]), Opt(opts[3]), Opt(opts[4]), Opt(opts[5]);
    assert Clauses(lib, ds) == Present(opts, 6);
    assert opts[0] == Some(Shape(ds.rows, |ds.columns|));
    PresentSnoc(opts, 0);
    assert Present(opts, 1) == c0;
    PresentSnoc(opts, 1);
    assert Present(opts, 2) == c0 + o1;
    PresentSnoc(opts, 2);
    assert Present(opts, 3) == c0 + o1 + o2;
    PresentSnoc(opts, 3);
    assert Present(opts, 4) == c0 + o1 + o2 + o3;
    PresentSnoc(opts, 4);
    assert Present(opts, 5) == c0 + o1 + o2 + o3 + o4;
    PresentSnoc(opts, 5);
    assert Present(opts, 6) == c0 + o1 + o2 + o3 + o4 + o5;
  }

  /** `" ".join(summary_parts)`. */
  function SummaryText(lib: Libraries, ds: Dataset): (r: string)
    ensures |r| > 0 && r[|r| - 1] == '.'
  {
    var parts := Sentences(lib, Clauses(lib, ds));
    JoinEndsWithLast(parts, " ");
    Join(parts, " ")
  }

  /** The summary always opens with the shape sentence. */
  lemma {:induction false} SummaryOpens(lib: Libraries, ds: Dataset)
    ensures var opening := Render(lib, Shape(ds.rows, |ds.columns|));
      |opening| <= |SummaryText(lib, ds)| && SummaryText(lib, ds)[..|opening|] == opening
  {
    JoinStartsWithFirst(Sentences(lib, Clauses(lib, ds)), " ");
  }

  /** The missing-values sentence is there exactly when some value is missing,
      and it reports the total over all columns. */
  lemma {:induction false} MissingReported(lib: Libraries, ds: Dataset)
    ensures Missing(TotalMissing(ds.columns)) in Clauses(lib, ds) <==>
      exists k :: 0 <= k < |ds.columns| && NaCount(ds.columns[k].cells) > 0
    ensures forall c :: c in Clauses(lib, ds) && c.Missing? ==> c.total == TotalMissing(ds.columns) && c.total > 0
  {
    var r := Clauses(lib, ds);
    assert ClauseAt(lib, ds, 3) == MissingClause(ds);
    if Missing(TotalMissing(ds.columns)) in r {
      assert ClauseAt(lib, ds, Rank(Missing(TotalMissing(ds.columns)))) == Some(Missing(TotalMissing(ds.columns)));
    }
  }

  /** On a well-formed dataset the empty-columns sentence appears exactly when
      there are columns but no rows, and then it counts every column. */
  lemma {:induction false} EmptyReported(lib: Libraries, ds: Dataset)
    requires Frames.WellFormed(ds)
    ensures Empty(|ds.columns|) in Clauses(lib, ds) <==> ds.rows == 0 && |ds.columns| > 0
    ensures forall c :: c in Clauses(lib, ds) && c.Empty? ==> ds.rows == 0 && c.count == |ds.columns|
  {
    var r := Clauses(lib, ds);
    EmptyCountRows(ds);
    assert ClauseAt(lib, ds, 4) == EmptyClause(ds);
    if Empty(|ds.columns|) in r {
      assert ClauseAt(lib, ds, Rank(Empty(|ds.columns|))) == Some(Empty(|ds.columns|));
    }
    if ds.rows == 0 && |ds.columns| > 0 {
      assert |ds.columns[0].cells| == 0;
    }
  }

  /** The type sentence is there exactly when some column is numeric,
      categorical or datetime. */
  lemma {:induction false} KindsReported(lib: Libraries, ds: Dataset)
    ensures (exists c :: c in Clauses(lib, ds) && c.Kinds?) <==>
      |NumericColumns(ds)| + |CategoricalColumns(ds)| + |DatetimeColumns(ds)| > 0
  {
    var r := Clauses(lib, ds);
    assert ClauseAt(lib, ds, 1) == KindsClause(ds);
    if exists c :: c in r && c.Kinds? {
      var c :| c in r && c.Kinds?;
      assert ClauseAt(lib, ds, Rank(c)) == Some(c);
    }
  }

  /** A correlation sentence names two distinct numeric columns whose
      correlation is strong, and no earlier pair in row-major order is strong;
      without one, no pair of distinct numeric columns correlates strongly. */
  lemma {:induction false} CorrelationReported(lib: Libraries, ds: Dataset)
    requires Charts.CanCorrelate(ds)
    ensures var names := NumericColumns(ds);
      var m := Charts.CorrMatrix(lib, ds, names);
      (forall c :: c in Clauses(lib, ds) ==> !c.Correlation?) <==>
        forall a: nat, b: nat :: a < |m| && b < |m| && a != b ==> !Strong(m[a][b])
  {
    var r := Clauses(lib, ds);
    CorrelationClauseFacts(lib, ds);
    assert ClauseAt(lib, ds, 5) == CorrelationClause(lib, ds);
    if exists c :: c in r && c.Correlation? {
      var c :| c in r && c.Correlation?;
      assert ClauseAt(lib, ds, Rank(c)) == Some(c);
    }
  }
}
