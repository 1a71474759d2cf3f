/** A loaded dataset as the tools see it: named columns carrying pandas'
    inferred dtype, and rows of cells in which `None` is pandas' missing
    value (NaN). */
module Table {
  import opened Wrappers
  import opened Seqs

  datatype Cell = Num(x: real) | Text(s: string)

  type Row = seq<Option<Cell>>

  /** A column: its header, the dtype pandas inferred for it and whether
      `select_dtypes(include=[np.number])` selects it. */
  datatype Column = Column(name: string, dtype: string, numeric: bool)

  datatype Table = Table(columns: seq<Column>, rows: seq<Row>)

  /** What `DATA_DIR / filename` holds: nothing, a file `pd.read_csv`
      cannot parse, or a parsed table. */
  datatype Source = Missing | Unreadable | Loaded(table: Table)

  /** `df.columns` as a list of names. */
  function Names(cols: seq<Column>): seq<string>
  {
    seq(|cols|, j requires 0 <= j < |cols| => cols[j].name)
  }

  /** The cell of row `r` under column `j`; pandas pads short rows with
      missing values. */
  function CellAt(r: Row, j: nat): Option<Cell>
  {
    if j < |r| then r[j] else None
  }

  /** The column `df[name]` selects: the first one whose header is exactly
      `name`; none when `name not in df.columns`. */
  function ColumnIndex(names: seq<string>, name: string): (r: Option<nat>)
    ensures r.Some? ==> r.value < |names| && names[r.value] == name
                        && forall k :: 0 <= k < r.value ==> names[k] != name
    ensures r.None? <==> name !in names
  {
    if names == [] then None
    else
      var n := |names| - 1;
      assert names == names[..n] + [names[n]];
      match ColumnIndex(names[..n], name)
      case Some(j) => Some(j)
      case None => if names[n] == name then Some(n) else None
  }

  // ---------------------------------------------------------------------
  // dropna(subset=...)

  /** Every cell of `r` under the columns `cols` is present. */
  predicate Complete(r: Row, cols: seq<nat>)
  {
    forall k :: 0 <= k < |cols| ==> CellAt(r, cols[k]).Some?
  }

  function CompleteOn(cols: seq<nat>): Row -> bool
  {
    r => Complete(r, cols)
  }

  /** `df.dropna(subset=cols)`: the rows with no missing cell under `cols`. */
  function DropNa(rows: seq<Row>, cols: seq<nat>): seq<Row>
  {
    Filter(rows, CompleteOn(cols))
  }

  /** `dropna` keeps every complete row, as often as it occurs, and no
      other row. */
  lemma DropNaKeepsCompleteRows(rows: seq<Row>, cols: seq<nat>, r: Row)
    ensures multiset(DropNa(rows, cols))[r] == if Complete(r, cols) then multiset(rows)[r] else 0
    ensures r in DropNa(rows, cols) <==> r in rows && Complete(r, cols)
  {
    FilterCount(rows, CompleteOn(cols), r);
    FilterMembership(rows, CompleteOn(cols), r);
  }

  /** `dropna` keeps the rows in their original order: the k-th kept row is
      the row at the k-th complete index, and those indices increase. */
  lemma DropNaKeepsOrder(rows: seq<Row>, cols: seq<nat>)
    ensures |Positions(rows, CompleteOn(cols))| == |DropNa(rows, cols)|
    ensures forall k :: 0 <= k < |DropNa(rows, cols)| ==>
              Positions(rows, CompleteOn(cols))[k] < |rows|
              && DropNa(rows, cols)[k] == rows[Positions(rows, CompleteOn(cols))[k]]
    ensures forall k1, k2 :: 0 <= k1 < k2 < |DropNa(rows, cols)| ==>
              Positions(rows, CompleteOn(cols))[k1] < Positions(rows, CompleteOn(cols))[k2]
    ensures forall i :: 0 <= i < |rows| ==>
              (Complete(rows[i], cols) <==> i in Positions(rows, CompleteOn(cols)))
  {
    FilterPositions(rows, CompleteOn(cols));
  }

  /** Every row that survives `dropna` is complete. */
  lemma DropNaComplete(rows: seq<Row>, cols: seq<nat>)
    ensures forall r :: r in DropNa(rows, cols) ==> Complete(r, cols)
  {
    forall r | r in DropNa(rows, cols) ensures Complete(r, cols) {
      DropNaKeepsCompleteRows(rows, cols, r);
    }
  }

  // ---------------------------------------------------------------------
  // isnull().sum()

  /** `df[col].isnull().sum()` for column `j`. */
  function NullCount(rows: seq<Row>, j: nat): nat
  {
    if rows == [] then 0
    else NullCount(rows[..|rows| - 1], j) + (if CellAt(rows[|rows| - 1], j).None? then 1 else 0)
  }

  /** The null count of a column is the number of rows `dropna` on that
      column alone removes. */
  lemma {:induction false} NullCountIsDropped(rows: seq<Row>, j: nat)
    ensures NullCount(rows, j) == |rows| - |DropNa(rows, [j])|
  {
    if rows != [] {
      var n := |rows| - 1;
      NullCountIsDropped(rows[..n], j);
      assert Complete(rows[n], [j]) <==> CellAt(rows[n], j).Some? by {
        assert [j][0] == j;
      }
    }
  }

  // ---------------------------------------------------------------------
  // Cell kinds

  /** Every row holds a number under column `j`. */
  predicate AllNumeric(rows: seq<Row>, j: nat)
  {
    forall i :: 0 <= i < |rows| ==> CellAt(rows[i], j).Some? && CellAt(rows[i], j).value.Num?
  }

  /** Every row holds a string under column `j`. */
  predicate AllText(rows: seq<Row>, j: nat)
  {
    forall i :: 0 <= i < |rows| ==> CellAt(rows[i], j).Some? && CellAt(rows[i], j).value.Text?
  }
}
