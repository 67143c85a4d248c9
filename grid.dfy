/**
  Counting the active bricks of a grid, and the facts about the count that the
  scoring and clear-check rules rely on.
*/
module BrickGrid {
  import opened Types

  /** Number of active bricks among the first `n` of a row. */
  function RowActive(row: seq<Brick>, n: nat): nat
    requires n <= |row|
  {
    if n == 0 then 0 else RowActive(row, n - 1) + (if row[n - 1].active then 1 else 0)
  }

  /** Number of active bricks in the first `n` rows of a grid. */
  function RowsActive(g: Grid, n: nat): nat
    requires n <= |g|
  {
    if n == 0 then 0 else RowsActive(g, n - 1) + RowActive(g[n - 1], |g[n - 1]|)
  }

  /** Number of active bricks in a grid. */
  function ActiveCount(g: Grid): nat {
    RowsActive(g, |g|)
  }

  /** No brick of the grid is active (the test AllBricksCleared makes). */
  predicate Cleared(g: Grid) {
    forall i, j :: 0 <= i < |g| && 0 <= j < |g[i]| ==> !g[i][j].active
  }

  /** Two grids of the same shape whose bricks agree on `active`. */
  predicate SameFlags(g: Grid, h: Grid) {
    |g| == |h| &&
    forall i :: 0 <= i < |g| ==>
      |g[i]| == |h[i]| && forall j :: 0 <= j < |g[i]| ==> g[i][j].active == h[i][j].active
  }

  /** `h` has every brick of `g`, with `active` possibly switched off and nothing else changed. */
  predicate OnlyDeactivated(g: Grid, h: Grid) {
    |g| == |h| &&
    forall i :: 0 <= i < |g| ==>
      |g[i]| == |h[i]| &&
      forall j :: 0 <= j < |g[i]| ==>
        h[i][j] == g[i][j] || (g[i][j].active && h[i][j] == g[i][j].(active := false))
  }

  lemma {:induction false} RowActiveZero(row: seq<Brick>, n: nat)
    requires n <= |row|
    ensures RowActive(row, n) == 0 <==> forall j :: 0 <= j < n ==> !row[j].active
  {
    if n > 0 {
      RowActiveZero(row, n - 1);
    }
  }

  lemma {:induction false} RowsActiveZero(g: Grid, n: nat)
    requires n <= |g|
    ensures RowsActive(g, n) == 0 <==> forall i, j :: 0 <= i < n && 0 <= j < |g[i]| ==> !g[i][j].active
  {
    if n > 0 {
      RowsActiveZero(g, n - 1);
      RowActiveZero(g[n - 1], |g[n - 1]|);
    }
  }

  /** A grid is cleared exactly when it holds no active brick. */
  lemma ClearedIffNoneActive(g: Grid)
    ensures Cleared(g) <==> ActiveCount(g) == 0
  {
    RowsActiveZero(g, |g|);
  }

  lemma {:induction false} RowActiveSameFlags(r: seq<Brick>, s: seq<Brick>, n: nat)
    requires n <= |r| == |s|
    requires forall j :: 0 <= j < |r| ==> r[j].active == s[j].active
    ensures RowActive(r, n) == RowActive(s, n)
  {
    if n > 0 {
      RowActiveSameFlags(r, s, n - 1);
    }
  }

  lemma {:induction false} RowsActiveSameFlags(g: Grid, h: Grid, n: nat)
    requires SameFlags(g, h) && n <= |g|
    ensures RowsActive(g, n) == RowsActive(h, n)
  {
    if n > 0 {
      RowsActiveSameFlags(g, h, n - 1);
      RowActiveSameFlags(g[n - 1], h[n - 1], |g[n - 1]|);
    }
  }

  /** The count depends only on the `active` flags. */
  lemma CountSameFlags(g: Grid, h: Grid)
    requires SameFlags(g, h)
    ensures ActiveCount(g) == ActiveCount(h)
  {
    RowsActiveSameFlags(g, h, |g|);
  }

  lemma {:induction false} RowActiveUpdate(row: seq<Brick>, j: nat, b: Brick, n: nat)
    requires j < |row| && n <= |row|
    ensures RowActive(row[j := b], n) + (if j < n && row[j].active then 1 else 0)
         == RowActive(row, n) + (if j < n && b.active then 1 else 0)
  {
    if n > 0 {
      RowActiveUpdate(row, j, b, n - 1);
    }
  }

  lemma {:induction false} RowsActiveUpdate(g: Grid, i: nat, j: nat, b: Brick, n: nat)
    requires i < |g| && j < |g[i]| && n <= |g|
    ensures RowsActive(g[i := g[i][j := b]], n) + (if i < n && g[i][j].active then 1 else 0)
         == RowsActive(g, n) + (if i < n && b.active then 1 else 0)
  {
    if n > 0 {
      RowsActiveUpdate(g, i, j, b, n - 1);
      if n - 1 == i {
        RowActiveUpdate(g[i], j, b, |g[i]|);
      }
    }
  }

  /** Replacing one brick changes the count by the change in that brick's flag. */
  lemma CountUpdate(g: Grid, i: nat, j: nat, b: Brick)
    requires i < |g| && j < |g[i]|
    ensures ActiveCount(g[i := g[i][j := b]]) + (if g[i][j].active then 1 else 0)
         == ActiveCount(g) + (if b.active then 1 else 0)
  {
    RowsActiveUpdate(g, i, j, b, |g|);
  }

  /** Two 6 x 10 grids that agree brick by brick are equal. */
  lemma GridExt(g: Grid, h: Grid)
    requires WellFormed(g) && WellFormed(h)
    requires forall i, j :: 0 <= i < BRICK_ROWS && 0 <= j < BRICK_COLS ==> g[i][j] == h[i][j]
    ensures g == h
  {
    forall i | 0 <= i < BRICK_ROWS
      ensures g[i] == h[i]
    {
      assert forall j :: 0 <= j < BRICK_COLS ==> g[i][j] == h[i][j];
    }
  }
}
