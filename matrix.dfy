/**
 * `nr::Matrix<T>`: an owning two-dimensional container kept as an array of
 * `rows` row pointers, each row a separately allocated buffer of `columns`
 * elements. Only its three constructors are defined by the library.
 */
module Matrices {

  class Matrix<T(0)> {
    var rows: int
    var columns: int
    var data: array?<array?<T>>

    /** The cells, row by row; empty when there is no storage. */
    ghost var Contents: seq<seq<T>>
    /** This matrix, its row-pointer array and every row buffer. */
    ghost var Repr: set<object>

    /**
     * Storage exists exactly when both dimensions are positive; then there
     * are `rows` distinct row buffers of `columns` cells each, and
     * `Contents` is what they hold.
     */
    ghost predicate Valid()
      reads this, Repr
    {
      this in Repr &&
      (rows > 0 && columns > 0 <==> data != null) &&
      (data == null ==> Contents == [] && Repr == {this}) &&
      (data != null ==>
        data in Repr && data.Length == rows && |Contents| == rows &&
        (forall i :: 0 <= i < rows ==>
          data[i] != null && data[i] in Repr && data[i].Length == columns &&
          data[i][..] == Contents[i]) &&
        (forall i, j :: 0 <= i < j < rows ==> data[i] != data[j]) &&
        Repr == {this, data} + RowsOf(data))
    }

    /**
     * The row structure both sized constructors build: when `m > 0` and
     * `n > 0`, `m` fresh, distinct rows of `n` cells of unspecified value;
     * otherwise nothing.
     */
    static method AllocateRows(m: int, n: int) returns (d: array?<array?<T>>)
      ensures m > 0 && n > 0 <==> d != null
      ensures d != null ==> fresh(d) && d.Length == m
      ensures d != null ==> forall i :: 0 <= i < m ==> d[i] != null && fresh(d[i]) && d[i].Length == n
      ensures d != null ==> forall i, j :: 0 <= i < j < m ==> d[i] != d[j]
      ensures d != null ==> forall i :: 0 <= i < m ==> d[i] as object != d as object
    {
      d := null;
      if m > 0 && n > 0 {
        d := new array?<T>[m];
        for i := 0 to m
          invariant forall p :: 0 <= p < i ==> d[p] != null && fresh(d[p]) && d[p].Length == n
          invariant forall p, q :: 0 <= p < q < i ==> d[p] != d[q]
          invariant forall p :: 0 <= p < i ==> d[p] as object != d as object
        {
          d[i] := new T[n];
        }
      }
    }

    /** `Matrix()`: no rows, no columns, no storage. */
    constructor ()
      ensures Valid() && fresh(Repr)
      ensures rows == 0 && columns == 0 && data == null && Contents == []
    {
      rows, columns, data := 0, 0, null;
      Contents, Repr := [], {this};
    }

    /** `Matrix(m, n)`: `m` rows of `n` cells of unspecified value when both are positive. */
    constructor Sized(m: int, n: int)
      ensures Valid() && fresh(Repr)
      ensures rows == m && columns == n
      ensures |Contents| == if m > 0 && n > 0 then m else 0
      ensures forall i :: 0 <= i < |Contents| ==> |Contents[i]| == n
    {
      rows, columns := m, n;
      var d := AllocateRows(m, n);
      data := d;
      if d == null {
        Contents, Repr := [], {this};
      } else {
        Contents := CellsOf(d, m);
        Repr := {this, d as object} + RowsOf(d);
      }
    }

    /** `Matrix(m, n, a)`: every cell `a` when both dimensions are positive; otherwise no storage. */
    constructor Filled(m: int, n: int, a: T)
      ensures Valid() && fresh(Repr)
      ensures rows == m && columns == n
      ensures Contents == if m > 0 && n > 0 then seq(m, _ => seq(n, _ => a)) else []
    {
      rows, columns := m, n;
      var d := AllocateRows(m, n);
      if d != null {
        ghost var row := seq(n, _ => a);
        ghost var ptrs := d[..];
        for i := 0 to m
          invariant d[..] == ptrs
          invariant forall p :: 0 <= p < i ==> d[p][..] == row
        {
          var r := d[i];
          for j := 0 to n
            invariant d[..] == ptrs
            invariant r[..j] == row[..j]
            invariant forall p :: 0 <= p < i ==> d[p][..] == row
          {
            r[j] := a;
          }
        }
        ghost var cells := CellsOf(d, m);
        assert cells == seq(m, _ => row);
        Contents := cells;
        Repr := {this, d as object} + RowsOf(d);
      } else {
        Contents, Repr := [], {this};
      }
      data := d;
    }

    /** The row buffers of a row structure. */
    static ghost function RowsOf(d: array<array?<T>>): (rs: set<object>)
      reads d
      ensures forall i :: 0 <= i < d.Length && d[i] != null ==> d[i] in rs
    {
      set i | 0 <= i < d.Length && d[i] != null :: d[i] as object
    }

    /** The cells held by the first `k` rows of a row structure, row by row. */
    static ghost function CellsOf(d: array<array?<T>>, k: nat): (cells: seq<seq<T>>)
      requires k <= d.Length
      requires forall i :: 0 <= i < k ==> d[i] != null
      reads d, RowsOf(d)
      ensures |cells| == k
      ensures forall i :: 0 <= i < k ==> cells[i] == d[i][..]
    {
      if k == 0 then [] else CellsOf(d, k - 1) + [d[k - 1][..]]
    }
  }
}
