/**
 * Tables as pandas holds them, and the two pandas idioms the wrapper relies on:
 * selecting columns by name (`df[colnames]`) and turning a 2-D array into one
 * record per row (`pd.DataFrame(values, index=index, columns=colnames).to_dict(orient='records')`).
 */
module Frames {
  import opened Outcomes
  import opened Dicts

  /** A cell of an input table. */
  datatype Value = Num(x: real) | Str(s: string)

  datatype Frame = Frame(columns: seq<string>, rows: seq<seq<Value>>)

  predicate Rectangular(f: Frame) {
    forall i :: 0 <= i < |f.rows| ==> |f.rows[i]| == |f.columns|
  }

  /** A DataFrame: every row has one cell per column. */
  type Table = f: Frame | Rectangular(f) witness Frame([], [])

  /** A 2-D numeric array (attribution values, class probabilities). */
  type Matrix = seq<seq<real>>

  /** One output record: column name to value, in column order. */
  type Record = Dict<real>

  /** Position of the first column named `x`. */
  function IndexOf(s: seq<string>, x: string): (k: nat)
    requires x in s
    ensures k < |s| && s[k] == x && x !in s[..k]
  {
    if s[0] == x then 0
    else
      assert s == [s[0]] + s[1..];
      var k := 1 + IndexOf(s[1..], x);
      assert s[..k] == [s[0]] + s[1..][..k - 1];
      k
  }

  /** The requested names that are not columns of the table, in request order. */
  function Absent(columns: seq<string>, names: seq<string>): (r: seq<string>)
    ensures forall n :: n in r <==> n in names && n !in columns
  {
    if names == [] then []
    else
      var rest := Absent(columns, names[1..]);
      assert names == [names[0]] + names[1..];
      if names[0] in columns then rest else [names[0]] + rest
  }

  /**
   * `t[names]`: the columns `names`, in that order, each taken from the first
   * column of `t` bearing that name; a KeyError naming the absent ones otherwise.
   */
  function Select(t: Table, names: seq<string>): (r: Result<Table>)
    ensures r.Err? <==> exists j :: 0 <= j < |names| && names[j] !in t.columns
    ensures r.Err? ==> r.error == MissingColumns(Absent(t.columns, names)) && r.error.names != []
    ensures r.Ok? ==> r.value.columns == names && |r.value.rows| == |t.rows|
    ensures r.Ok? ==> forall i, j, k ::
      0 <= i < |t.rows| && 0 <= j < |names| && 0 <= k < |t.columns| &&
      t.columns[k] == names[j] && names[j] !in t.columns[..k]
      ==> r.value.rows[i][j] == t.rows[i][k]
  {
    var missing := Absent(t.columns, names);
    if missing != [] then
      assert missing[0] in names;
      Err(MissingColumns(missing))
    else
      var rows := seq(|t.rows|, i requires 0 <= i < |t.rows| =>
        seq(|names|, j requires 0 <= j < |names| => t.rows[i][IndexOf(t.columns, names[j])]));
      var selected := Frame(names, rows);
      assert Rectangular(selected);
      forall i, j, k | 0 <= i < |t.rows| && 0 <= j < |names| && 0 <= k < |t.columns| &&
        t.columns[k] == names[j] && names[j] !in t.columns[..k]
        ensures rows[i][j] == t.rows[i][k]
      {
        FirstIndexUnique(t.columns, names[j], k);
      }
      Ok(selected)
  }

  /** The first position of a name is the one `IndexOf` finds. */
  lemma FirstIndexUnique(s: seq<string>, x: string, k: nat)
    requires k < |s| && s[k] == x && x !in s[..k]
    ensures IndexOf(s, x) == k
  {
  }

  /** Every row holds `width` values. */
  predicate HasWidth(values: Matrix, width: nat) {
    forall i :: 0 <= i < |values| ==> |values[i]| == width
  }

  /**
   * `pd.DataFrame(values, index=index, columns=cols).to_dict(orient='records')`
   * with `|index| == nrows`: one record per row, in row order, or a ValueError
   * when the values do not have `nrows` rows of `|cols|` entries.
   */
  function ToRecords(values: Matrix, cols: seq<string>, nrows: nat): (r: Result<seq<Record>>)
    ensures r.Ok? <==> |values| == nrows && HasWidth(values, |cols|)
    ensures r.Err? ==> r.error == ShapeMismatch
    ensures r.Ok? ==> |r.value| == nrows
  {
    if |values| != nrows || !HasWidth(values, |cols|) then Err(ShapeMismatch)
    else Ok(seq(|values|, i requires 0 <= i < |values| => FromPairs(cols, values[i])))
  }

  /**
   * With distinct column names each record has exactly the column names as
   * keys, in column order, each bound to the value in that row and column.
   */
  lemma RecordsShape(values: Matrix, cols: seq<string>, nrows: nat, i: nat)
    requires ToRecords(values, cols, nrows).Ok? && Distinct(cols) && i < nrows
    ensures Keys(ToRecords(values, cols, nrows).value[i]) == cols
    ensures forall j :: 0 <= j < |cols| ==> ToRecords(values, cols, nrows).value[i][j] == (cols[j], values[i][j])
  {
    FromPairsDistinct(cols, values[i]);
  }

  /** `values * s`, entry by entry. */
  function Scale(m: Matrix, s: real): (r: Matrix)
    ensures |r| == |m| && forall i :: 0 <= i < |m| ==> |r[i]| == |m[i]|
    ensures s == 1.0 ==> r == m
    ensures s == -1.0 ==> forall i, j :: 0 <= i < |m| && 0 <= j < |m[i]| ==> r[i][j] == -m[i][j]
  {
    var r := seq(|m|, i requires 0 <= i < |m| => seq(|m[i]|, j requires 0 <= j < |m[i]| => m[i][j] * s));
    assert s == 1.0 ==> forall i :: 0 <= i < |m| ==> r[i] == m[i];
    r
  }
}
