/** Helpers shared by the three board engines: boards are rows of cells, as
    the nested arrays the engines keep, and these are the facts needed to
    write one cell and to compare two boards cell by cell. */
module Grids {

  /** A row-major grid value with `rows` rows of `cols` cells each. */
  ghost predicate IsGrid<T>(g: seq<seq<T>>, rows: nat, cols: nat) {
    |g| == rows && forall i :: 0 <= i < rows ==> |g[i]| == cols
  }

  /** `g` with the cell at (i, j) replaced by `v`. */
  function Set<T>(g: seq<seq<T>>, i: nat, j: nat, v: T): (r: seq<seq<T>>)
    requires i < |g| && j < |g[i]|
    ensures |r| == |g| && forall k :: 0 <= k < |g| ==> |r[k]| == |g[k]|
    ensures r[i][j] == v
    ensures forall k, l :: 0 <= k < |g| && 0 <= l < |g[k]| && (k != i || l != j) ==> r[k][l] == g[k][l]
  {
    g[i := g[i][j := v]]
  }

  /** Two grids of the same shape that agree on every cell are equal. */
  lemma Extensionality<T>(a: seq<seq<T>>, b: seq<seq<T>>, rows: nat, cols: nat)
    requires IsGrid(a, rows, cols) && IsGrid(b, rows, cols)
    requires forall i, j :: 0 <= i < rows && 0 <= j < cols ==> a[i][j] == b[i][j]
    ensures a == b
  {
    forall i | 0 <= i < rows
      ensures a[i] == b[i]
    {
      assert forall j :: 0 <= j < cols ==> a[i][j] == b[i][j];
    }
  }

  /** Writing a cell twice leaves only the second value. */
  lemma SetTwice<T>(g: seq<seq<T>>, i: nat, j: nat, v: T, w: T)
    requires i < |g| && j < |g[i]|
    ensures Set(Set(g, i, j, v), i, j, w) == Set(g, i, j, w)
  {
    assert Set(g, i, j, v)[i][j := w] == g[i][j := w];
  }

  /** Writing a cell and then writing back its old value restores the grid. */
  lemma SetUndo<T>(g: seq<seq<T>>, i: nat, j: nat, v: T)
    requires i < |g| && j < |g[i]|
    ensures Set(Set(g, i, j, v), i, j, g[i][j]) == g
  {
    SetTwice(g, i, j, v, g[i][j]);
    assert g[i][j := g[i][j]] == g[i];
  }
}
