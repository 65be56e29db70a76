/** How the profiler sorts the columns of a dataset into numeric, categorical
    and datetime columns when it is constructed. */
module Columns {
  import opened Frames

  /** The names of the columns that satisfy `keep`, in column order. */
  function SelectNames(cols: seq<Column>, keep: Column -> bool): (r: seq<string>)
    ensures |r| <= |cols|
    ensures forall n :: n in r <==> exists k :: 0 <= k < |cols| && cols[k].name == n && keep(cols[k])
  {
    if cols == [] then []
    else
      var init := cols[..|cols| - 1];
      var last := cols[|cols| - 1];
      var r0 := SelectNames(init, keep);
      assert forall k :: 0 <= k < |init| ==> init[k] == cols[k];
      if keep(last) then r0 + [last.name] else r0
  }

  /** Looking at one more column adds its name when it passes the test. */
  lemma {:induction false} SelectStep(cols: seq<Column>, keep: Column -> bool, k: nat)
    requires k < |cols|
    ensures SelectNames(cols[..k + 1], keep) ==
      SelectNames(cols[..k], keep) + (if keep(cols[k]) then [cols[k].name] else [])
  {
    assert cols[..k + 1][..k] == cols[..k];
  }

  /** A numeric column: a number dtype, at least one value, and no infinity
      among its values. */
  predicate IsNumericColumn(c: Column)
  {
    IsNumberDType(c.dtype) && !AllNa(c.cells) && !HasInfinite(c.cells)
  }

  function NumericColumns(ds: Dataset): (r: seq<string>)
    ensures forall n :: n in r <==> exists k :: 0 <= k < |ds.columns| && ds.columns[k].name == n && IsNumericColumn(ds.columns[k])
  {
    SelectNames(ds.columns, IsNumericColumn)
  }

  /** `select_dtypes(include=['object', 'category', 'bool'])`. */
  predicate IsCategoricalColumn(c: Column) { IsCategoricalDType(c.dtype) }

  /** `select_dtypes(include=['datetime64'])`. */
  predicate IsDatetimeColumn(c: Column) { IsDatetimeDType(c.dtype) }

  function CategoricalColumns(ds: Dataset): (r: seq<string>)
    ensures forall n :: n in r <==> exists k :: 0 <= k < |ds.columns| && ds.columns[k].name == n && IsCategoricalColumn(ds.columns[k])
  {
    SelectNames(ds.columns, IsCategoricalColumn)
  }

  function DatetimeColumns(ds: Dataset): (r: seq<string>)
    ensures forall n :: n in r <==> exists k :: 0 <= k < |ds.columns| && ds.columns[k].name == n && IsDatetimeColumn(ds.columns[k])
  {
    SelectNames(ds.columns, IsDatetimeColumn)
  }

  /** With distinct names, a column is selected exactly when it satisfies `keep`. */
  lemma {:induction false} SelectedIff(cols: seq<Column>, keep: Column -> bool, k: nat)
    requires k < |cols|
    requires forall a, b :: 0 <= a < b < |cols| ==> cols[a].name != cols[b].name
    ensures cols[k].name in SelectNames(cols, keep) <==> keep(cols[k])
  {
    if cols[k].name in SelectNames(cols, keep) {
      var j :| 0 <= j < |cols| && cols[j].name == cols[k].name && keep(cols[j]);
      assert j == k;
    }
  }

  /** A column counts as numeric exactly when its dtype is a number dtype, it is
      not entirely missing, and none of its values is infinite; whatever its
      dtype, a column that fails either test is left out. */
  lemma {:induction false} NumericIff(ds: Dataset, k: nat)
    requires WellFormed(ds) && k < |ds.columns|
    ensures ds.columns[k].name in NumericColumns(ds) <==>
      IsNumberDType(ds.columns[k].dtype) && !AllNa(ds.columns[k].cells) && !HasInfinite(ds.columns[k].cells)
  {
    SelectedIff(ds.columns, IsNumericColumn, k);
  }

  lemma {:induction false} CategoricalIff(ds: Dataset, k: nat)
    requires WellFormed(ds) && k < |ds.columns|
    ensures ds.columns[k].name in CategoricalColumns(ds) <==> IsCategoricalDType(ds.columns[k].dtype)
  {
    SelectedIff(ds.columns, IsCategoricalColumn, k);
  }

  lemma {:induction false} DatetimeIff(ds: Dataset, k: nat)
    requires WellFormed(ds) && k < |ds.columns|
    ensures ds.columns[k].name in DatetimeColumns(ds) <==> IsDatetimeDType(ds.columns[k].dtype)
  {
    SelectedIff(ds.columns, IsDatetimeColumn, k);
  }

  /** Every selected name is a column of the dataset. */
  lemma {:induction false} SelectedAreColumns(ds: Dataset, n: string)
    ensures n in NumericColumns(ds) || n in CategoricalColumns(ds) || n in DatetimeColumns(ds) ==> n in Names(ds.columns)
  {
    if n in NumericColumns(ds) || n in CategoricalColumns(ds) || n in DatetimeColumns(ds) {
      var k :| 0 <= k < |ds.columns| && ds.columns[k].name == n;
      assert Names(ds.columns)[k] == n;
    }
  }

  /** On a dataset with distinct names the groups are pairwise disjoint. */
  lemma {:induction false} GroupsDisjoint(ds: Dataset, n: string)
    requires WellFormed(ds)
    ensures !(n in NumericColumns(ds) && n in CategoricalColumns(ds))
    ensures !(n in NumericColumns(ds) && n in DatetimeColumns(ds))
    ensures !(n in CategoricalColumns(ds) && n in DatetimeColumns(ds))
  {
    if n in NumericColumns(ds) || n in CategoricalColumns(ds) || n in DatetimeColumns(ds) {
      var k :| 0 <= k < |ds.columns| && ds.columns[k].name == n;
      NumericIff(ds, k);
      CategoricalIff(ds, k);
      DatetimeIff(ds, k);
    }
  }
}
