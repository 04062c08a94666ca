/** im2imat: the sparse (R*C*S) x (R*C*S) matrix whose entry (i, j) is the
    mean intensity of voxels i and j when j is one of the 26 neighbours of
    i, built in compressed-sparse-column form (ir, pr, jc). Voxels whose
    intensity is Inf are left out of the graph. */
module Im2Imat {
  import opened MexErrors
  import opened GerardusCommon

  /** A double voxel intensity: Inf or a finite value (NaN is not modelled). */
  datatype Intensity = Inf | Fin(v: real)

  /** A double used as a condition: true unless it is zero. */
  predicate Nonzero(x: Intensity) {
    x.Inf? || x.v != 0.0
  }

  /** The edge weight: the mean of two finite intensities. */
  function Mean(a: Intensity, b: Intensity): real
    requires a.Fin? && b.Fin?
  {
    (a.v + b.v) * 0.5
  }

  /** a * b, by repeated addition of b. The volume arithmetic below is
      written with it so that it stays linear for the solver; MulIsProduct
      ties it to `*`. */
  function Mul(a: nat, b: nat): nat
    decreases a
  {
    if a == 0 then 0 else Mul(a - 1, b) + b
  }

  lemma {:induction false} MulIsProduct(a: nat, b: nat)
    ensures Mul(a, b) == a * b
    decreases a
  {
    if a > 0 {
      MulIsProduct(a - 1, b);
      assert (a - 1) * b + b == a * b;
    }
  }

  lemma {:induction false} MulMonotone(a: nat, b: nat, d: nat)
    requires a <= b
    ensures Mul(a, d) <= Mul(b, d)
    decreases b
  {
    if a < b {
      MulMonotone(a, b - 1, d);
    }
  }

  /** An R x C x S double image volume stored column-major in `im`. */
  datatype Volume = Volume(R: nat, C: nat, S: nat, im: seq<Intensity>) {
    /** Voxels per slice, R*C. */
    function Plane(): nat {
      Mul(C, R)
    }

    /** Dimensions at least 3 x 3 x 3 and R*C*S intensities. */
    predicate Valid() {
      R >= 3 && C >= 3 && S >= 3 && |im| == Mul(S, Plane())
    }
  }

  /** The number of voxels is the product of the dimensions. */
  lemma SizeIsProduct(v: Volume)
    requires v.Valid()
    ensures |v.im| == v.R * v.C * v.S
    ensures v.Plane() == v.R * v.C
  {
    MulIsProduct(v.C, v.R);
    MulIsProduct(v.S, v.Plane());
    assert v.C * v.R == v.R * v.C;
    assert v.S * (v.R * v.C) == v.R * v.C * v.S;
  }

  /** The first and last neighbour subscript along a dimension of size D:
      max(0, x-1) and min(D-1, x+1). */
  function Lo(x: nat): nat {
    if x == 0 then 0 else x - 1
  }

  function Hi(D: nat, x: nat): nat
    requires x < D
  {
    if x + 1 <= D - 1 then x + 1 else D - 1
  }

  predicate InVol(v: Volume, r: nat, c: nat, s: nat) {
    r < v.R && c < v.C && s < v.S
  }

  /** Linear index of (r, c, s); always inside the image. */
  function Index(v: Volume, r: nat, c: nat, s: nat): (i: nat)
    requires v.Valid() && InVol(v, r, c, s)
    ensures i < |v.im|
  {
    IndexInImage(v, r, c, s);
    r + Mul(c, v.R) + Mul(s, v.Plane())
  }

  /** The bound behind Index's contract, kept linear in Mul so that using
      Index brings no multiplication into a proof. */
  lemma IndexInImage(v: Volume, r: nat, c: nat, s: nat)
    requires v.Valid() && InVol(v, r, c, s)
    ensures r + Mul(c, v.R) + Mul(s, v.Plane()) < |v.im|
  {
    assert Mul(c + 1, v.R) == Mul(c, v.R) + v.R;
    MulMonotone(c + 1, v.C, v.R);
    assert Mul(s + 1, v.Plane()) == Mul(s, v.Plane()) + v.Plane();
    MulMonotone(s + 1, v.S, v.Plane());
  }

  /** Index is sub2ind's column-major index. */
  lemma IndexIsLinear(v: Volume, r: nat, c: nat, s: nat)
    ensures r + Mul(c, v.R) + Mul(s, v.Plane()) == Linear(v.R, v.C, r, c, s)
  {
    MulIsProduct(c, v.R);
    PlaneProduct(v, s);
  }

  lemma PlaneProduct(v: Volume, s: nat)
    ensures Mul(s, v.Plane()) == s * v.R * v.C
  {
    MulIsProduct(v.C, v.R);
    MulIsProduct(s, v.Plane());
    Reassociate(s, v.C, v.R);
  }

  lemma Reassociate(s: nat, C: nat, R: nat)
    ensures s * (C * R) == s * R * C
  {
  }

  // ---------------------------------------------------------------------
  // The neighbourhood of a voxel and the cells the neighbour loops visit

  /** Voxel (r, c, s) and the first and last neighbour subscript along each
      dimension, as the neighbour loops compute them. */
  datatype Cube = Cube(r: nat, c: nat, s: nat, rlo: nat, rhi: nat, clo: nat, chi: nat, slo: nat, shi: nat) {
    /** Each range holds the voxel itself and spans at most three subscripts. */
    predicate Valid() {
      && rlo <= r <= rhi && rhi + 1 - rlo <= 3
      && clo <= c <= chi && chi + 1 - clo <= 3
      && slo <= s <= shi && shi + 1 - slo <= 3
    }
  }

  /** The ranges max(0, x-1) .. min(D-1, x+1) of the loops around (r, c, s). */
  function CubeOf(v: Volume, r: nat, c: nat, s: nat): Cube
    requires InVol(v, r, c, s)
  {
    Cube(r, c, s, Lo(r), Hi(v.R, r), Lo(c), Hi(v.C, c), Lo(s), Hi(v.S, s))
  }

  /** A valid cube whose ranges lie inside the image. */
  predicate Fits(v: Volume, q: Cube) {
    q.Valid() && q.rhi < v.R && q.chi < v.C && q.shi < v.S
  }

  /** Subscript x is at most one step from y along a dimension of size D. */
  predicate WithinOne(x: nat, y: nat, D: nat) {
    x < D && x <= y + 1 && y <= x + 1
  }

  /** The ranges of CubeOf are exactly the subscripts inside the image at
      most one step away from the voxel. */
  lemma CubeOfFits(v: Volume, r: nat, c: nat, s: nat)
    requires InVol(v, r, c, s)
    ensures Fits(v, CubeOf(v, r, c, s))
    ensures forall x: nat :: WithinOne(x, r, v.R) <==> CubeOf(v, r, c, s).rlo <= x <= CubeOf(v, r, c, s).rhi
    ensures forall x: nat :: WithinOne(x, c, v.C) <==> CubeOf(v, r, c, s).clo <= x <= CubeOf(v, r, c, s).chi
    ensures forall x: nat :: WithinOne(x, s, v.S) <==> CubeOf(v, r, c, s).slo <= x <= CubeOf(v, r, c, s).shi
  {
  }

  /** Subscripts of one voxel visited by the neighbour loops. */
  datatype Cell = Cell(r: nat, c: nat, s: nat)

  /** The cells visited by the row loop over rows rlo .. k-1 of column nnc
      in slice nns, less the voxel itself. */
  function RowCells(q: Cube, nns: nat, nnc: nat, k: nat): seq<Cell>
    requires q.Valid() && q.rlo <= k
    decreases k
  {
    if k == q.rlo then []
    else if nns == q.s && nnc == q.c && k - 1 == q.r then RowCells(q, nns, nnc, k - 1)
    else RowCells(q, nns, nnc, k - 1) + [Cell(k - 1, nnc, nns)]
  }

  /** The cells visited by the column loop over columns clo .. k-1 of
      slice nns. */
  function ColCells(q: Cube, nns: nat, k: nat): seq<Cell>
    requires q.Valid() && q.clo <= k
    decreases k
  {
    if k == q.clo then []
    else ColCells(q, nns, k - 1) + RowCells(q, nns, k - 1, q.rhi + 1)
  }

  /** The cells visited by the slice loop over slices slo .. k-1. */
  function SliceCells(q: Cube, k: nat): seq<Cell>
    requires q.Valid() && q.slo <= k
    decreases k
  {
    if k == q.slo then []
    else SliceCells(q, k - 1) + ColCells(q, k - 1, q.chi + 1)
  }

  /** Every cell the three loops visit, in loop order. */
  function CubeCells(q: Cube): seq<Cell>
    requires q.Valid()
  {
    SliceCells(q, q.shi + 1)
  }

  /** A cell in q's ranges other than q's voxel. */
  predicate InCube(q: Cube, x: Cell) {
    && q.rlo <= x.r <= q.rhi && q.clo <= x.c <= q.chi && q.slo <= x.s <= q.shi
    && x != Cell(q.r, q.c, q.s)
  }

  predicate AllInCube(q: Cube, cells: seq<Cell>) {
    forall j :: 0 <= j < |cells| ==> InCube(q, cells[j])
  }

  predicate AllIn(v: Volume, cells: seq<Cell>) {
    forall j :: 0 <= j < |cells| ==> InVol(v, cells[j].r, cells[j].c, cells[j].s)
  }

  /** The linear indices of the cells that are not Inf, in order: the
      neighbours the loops store for those cells. */
  function Stored(v: Volume, cells: seq<Cell>): seq<nat>
    requires v.Valid() && AllIn(v, cells)
    decreases |cells|
  {
    if cells == [] then []
    else
      var x := cells[|cells| - 1];
      var n := Index(v, x.r, x.c, x.s);
      Stored(v, cells[..|cells| - 1]) + (if v.im[n].Inf? then [] else [n])
  }

  /** The neighbours stored by the row loop over rows rlo .. k-1 of
      column nnc in slice nns. */
  function RowNb(v: Volume, q: Cube, nns: nat, nnc: nat, k: nat): seq<nat>
    requires v.Valid() && Fits(v, q)
    requires q.slo <= nns <= q.shi && q.clo <= nnc <= q.chi && q.rlo <= k <= q.rhi + 1
  {
    RowCellsInCube(q, nns, nnc, k);
    CubeCellsInImage(v, q, RowCells(q, nns, nnc, k));
    Stored(v, RowCells(q, nns, nnc, k))
  }

  /** The neighbours stored by the column loop over columns clo .. k-1 of
      slice nns. */
  function ColNb(v: Volume, q: Cube, nns: nat, k: nat): seq<nat>
    requires v.Valid() && Fits(v, q)
    requires q.slo <= nns <= q.shi && q.clo <= k <= q.chi + 1
  {
    ColCellsInCube(q, nns, k);
    CubeCellsInImage(v, q, ColCells(q, nns, k));
    Stored(v, ColCells(q, nns, k))
  }

  /** The neighbours stored by the slice loop over slices slo .. k-1. */
  function SliceNb(v: Volume, q: Cube, k: nat): seq<nat>
    requires v.Valid() && Fits(v, q)
    requires q.slo <= k <= q.shi + 1
  {
    SliceCellsInCube(q, k);
    CubeCellsInImage(v, q, SliceCells(q, k));
    Stored(v, SliceCells(q, k))
  }

  /** The neighbours stored for q's voxel, in loop order. */
  function Neighbours(v: Volume, q: Cube): seq<nat>
    requires v.Valid() && Fits(v, q)
  {
    SliceNb(v, q, q.shi + 1)
  }

  /** The subscripts of linear index i: the i-th voxel in the order of
      the voxel loops, r fastest, then c, then s. */
  function Subs(v: Volume, i: nat): (x: Cell)
    requires v.Valid() && i < |v.im|
    ensures InVol(v, x.r, x.c, x.s) && Index(v, x.r, x.c, x.s) == i
    decreases i
  {
    if i == 0 then Cell(0, 0, 0)
    else
      var y := Subs(v, i - 1);
      if y.r + 1 < v.R then Cell(y.r + 1, y.c, y.s)
      else if y.c + 1 < v.C then Cell(0, y.c + 1, y.s)
      else
        NextSlice(v, y.s, i);
        Cell(0, 0, y.s + 1)
  }

  /** An index one past the end of slice s inside the image starts slice
      s + 1. */
  lemma NextSlice(v: Volume, s: nat, i: nat)
    requires v.Valid() && i < |v.im| && i == Mul(s + 1, v.Plane())
    ensures s + 1 < v.S
  {
    if s + 1 >= v.S {
      MulMonotone(v.S, s + 1, v.Plane());
    }
  }

  /** Neighbours stored for voxel i: none when the voxel itself is Inf. */
  function VoxelNb(v: Volume, i: nat): seq<nat>
    requires v.Valid() && i < |v.im|
  {
    var x := Subs(v, i);
    if v.im[i].Inf? then [] else Neighbours(v, CubeOf(v, x.r, x.c, x.s))
  }

  /** One stored entry: row `row` of column `col`. */
  datatype Entry = Entry(col: nat, row: nat)

  function ToEntries(col: nat, nbs: seq<nat>): (es: seq<Entry>)
    ensures |es| == |nbs|
  {
    seq(|nbs|, j requires 0 <= j < |nbs| => Entry(col, nbs[j]))
  }

  /** The neighbour list of every voxel, by linear index. */
  function VoxelLists(v: Volume): (ls: seq<seq<nat>>)
    requires v.Valid()
    ensures |ls| == |v.im|
  {
    seq(|v.im|, i requires 0 <= i < |v.im| => VoxelNb(v, i))
  }

  /** The entries of the first n lists, list k giving column k. */
  function Flatten(ls: seq<seq<nat>>, n: nat): seq<Entry>
    requires n <= |ls|
  {
    if n == 0 then [] else Flatten(ls, n - 1) + ToEntries(n - 1, ls[n - 1])
  }

  /** All entries stored for voxels 0 .. n-1, in the order they are
      written: voxel by voxel, each voxel's neighbours in loop order. */
  function EntriesBefore(v: Volume, n: nat): seq<Entry>
    requires v.Valid() && n <= |v.im|
  {
    Flatten(VoxelLists(v), n)
  }

  /** How many of the given voxels have a nonzero intensity (an index
      outside the image, which the neighbour lists never hold, counts as
      zero). */
  function CountNonzero(v: Volume, nbs: seq<nat>): (k: nat)
    ensures k <= |nbs|
  {
    if nbs == [] then 0
    else
      var last := nbs[|nbs| - 1];
      CountNonzero(v, nbs[..|nbs| - 1]) + (if last < |v.im| && Nonzero(v.im[last]) then 1 else 0)
  }

  /** The nonzero neighbours of each of the first n lists: jc[1 .. n]
      before the prefix sum. */
  function CountsOf(v: Volume, ls: seq<seq<nat>>, n: nat): (xs: seq<nat>)
    requires n <= |ls|
    ensures |xs| == n
  {
    if n == 0 then [] else CountsOf(v, ls, n - 1) + [CountNonzero(v, ls[n - 1])]
  }

  /** The sum of the first n elements. */
  function Prefix(xs: seq<nat>, n: nat): nat
    requires n <= |xs|
  {
    if n == 0 then 0 else Prefix(xs, n - 1) + xs[n - 1]
  }

  /** The nonzero neighbours over the first n lists. */
  function CountSum(v: Volume, ls: seq<seq<nat>>, n: nat): nat
    requires n <= |ls|
  {
    if n == 0 then 0 else CountSum(v, ls, n - 1) + CountNonzero(v, ls[n - 1])
  }

  /** jc after the prefix sum: nonzero neighbours over voxels 0 .. n-1. */
  function CountedBefore(v: Volume, n: nat): nat
    requires v.Valid() && n <= |v.im|
  {
    CountSum(v, VoxelLists(v), n)
  }

  // ---------------------------------------------------------------------
  // The visited cells: inside the cube, at most 26 of them, in order, and
  // every cell of the cube among them

  lemma AllInCubeAppend(q: Cube, a: seq<Cell>, b: seq<Cell>)
    requires AllInCube(q, a) && AllInCube(q, b)
    ensures AllInCube(q, a + b)
  {
    forall j | 0 <= j < |a + b|
      ensures InCube(q, (a + b)[j])
    {
      if j < |a| {
        assert (a + b)[j] == a[j];
      } else {
        assert (a + b)[j] == b[j - |a|];
      }
    }
  }

  lemma {:induction false} RowCellsInCube(q: Cube, nns: nat, nnc: nat, k: nat)
    requires q.Valid() && q.slo <= nns <= q.shi && q.clo <= nnc <= q.chi && q.rlo <= k <= q.rhi + 1
    ensures AllInCube(q, RowCells(q, nns, nnc, k))
    decreases k
  {
    if k > q.rlo {
      RowCellsInCube(q, nns, nnc, k - 1);
      if !(nns == q.s && nnc == q.c && k - 1 == q.r) {
        AllInCubeAppend(q, RowCells(q, nns, nnc, k - 1), [Cell(k - 1, nnc, nns)]);
      }
    }
  }

  lemma {:induction false} ColCellsInCube(q: Cube, nns: nat, k: nat)
    requires q.Valid() && q.slo <= nns <= q.shi && q.clo <= k <= q.chi + 1
    ensures AllInCube(q, ColCells(q, nns, k))
    decreases k
  {
    if k > q.clo {
      ColCellsInCube(q, nns, k - 1);
      RowCellsInCube(q, nns, k - 1, q.rhi + 1);
      AllInCubeAppend(q, ColCells(q, nns, k - 1), RowCells(q, nns, k - 1, q.rhi + 1));
    }
  }

  lemma {:induction false} SliceCellsInCube(q: Cube, k: nat)
    requires q.Valid() && q.slo <= k <= q.shi + 1
    ensures AllInCube(q, SliceCells(q, k))
    decreases k
  {
    if k > q.slo {
      var a, b := SliceCells(q, k - 1), ColCells(q, k - 1, q.chi + 1);
      assert SliceCells(q, k) == a + b;
      SliceCellsInCube(q, k - 1);
      ColCellsInCube(q, k - 1, q.chi + 1);
      AllInCubeAppend(q, a, b);
    }
  }

  lemma {:induction false} RowCellsLength(q: Cube, nns: nat, nnc: nat, k: nat)
    requires q.Valid() && q.rlo <= k
    ensures |RowCells(q, nns, nnc, k)| <= k - q.rlo
    ensures nns == q.s && nnc == q.c && q.r < k ==> |RowCells(q, nns, nnc, k)| + 1 <= k - q.rlo
    decreases k
  {
    if k > q.rlo {
      RowCellsLength(q, nns, nnc, k - 1);
    }
  }

  lemma {:induction false} ColCellsLength(q: Cube, nns: nat, k: nat)
    requires q.Valid() && q.clo <= k
    ensures |ColCells(q, nns, k)| <= 3 * (k - q.clo)
    ensures nns == q.s && q.c < k ==> |ColCells(q, nns, k)| + 1 <= 3 * (k - q.clo)
    decreases k
  {
    if k > q.clo {
      ColCellsLength(q, nns, k - 1);
      RowCellsLength(q, nns, k - 1, q.rhi + 1);
    }
  }

  lemma {:induction false} SliceCellsLength(q: Cube, k: nat)
    requires q.Valid() && q.slo <= k
    ensures |SliceCells(q, k)| <= 9 * (k - q.slo)
    ensures q.s < k ==> |SliceCells(q, k)| + 1 <= 9 * (k - q.slo)
    decreases k
  {
    if k > q.slo {
      SliceCellsLength(q, k - 1);
      ColCellsLength(q, k - 1, q.chi + 1);
    }
  }

  /** The loops visit at most 26 cells: the 3 x 3 x 3 cube less the voxel. */
  lemma CubeCellsAtMost26(q: Cube)
    requires q.Valid()
    ensures |CubeCells(q)| <= 26
  {
    SliceCellsLength(q, q.shi + 1);
  }

  /** (s, c, r) in lexicographic order: the order in which the loops visit
      cells, and the order of their linear indices. */
  predicate Before(x: Cell, y: Cell) {
    x.s < y.s || (x.s == y.s && (x.c < y.c || (x.c == y.c && x.r < y.r)))
  }

  predicate CellsAscending(cells: seq<Cell>) {
    forall i, j :: 0 <= i < j < |cells| ==> Before(cells[i], cells[j])
  }

  predicate AllBefore(cells: seq<Cell>, y: Cell) {
    forall j :: 0 <= j < |cells| ==> Before(cells[j], y)
  }

  predicate AllFrom(cells: seq<Cell>, y: Cell) {
    forall j :: 0 <= j < |cells| ==> y == cells[j] || Before(y, cells[j])
  }

  lemma CellsAscendingAppend(a: seq<Cell>, b: seq<Cell>, y: Cell)
    requires CellsAscending(a) && AllBefore(a, y)
    requires CellsAscending(b) && AllFrom(b, y)
    ensures CellsAscending(a + b)
  {
    forall i, j | 0 <= i < j < |a + b|
      ensures Before((a + b)[i], (a + b)[j])
    {
      if j < |a| {
        assert (a + b)[i] == a[i] && (a + b)[j] == a[j];
      } else if i < |a| {
        assert (a + b)[i] == a[i] && (a + b)[j] == b[j - |a|];
      } else {
        assert (a + b)[i] == b[i - |a|] && (a + b)[j] == b[j - |a|];
      }
    }
  }

  lemma AllBeforeAppend(a: seq<Cell>, b: seq<Cell>, y: Cell)
    requires AllBefore(a, y) && AllBefore(b, y)
    ensures AllBefore(a + b, y)
  {
    forall j | 0 <= j < |a + b|
      ensures Before((a + b)[j], y)
    {
      if j < |a| {
        assert (a + b)[j] == a[j];
      } else {
        assert (a + b)[j] == b[j - |a|];
      }
    }
  }

  lemma AllFromAppend(a: seq<Cell>, b: seq<Cell>, y: Cell)
    requires AllFrom(a, y) && AllFrom(b, y)
    ensures AllFrom(a + b, y)
  {
    forall j | 0 <= j < |a + b|
      ensures y == (a + b)[j] || Before(y, (a + b)[j])
    {
      if j < |a| {
        assert (a + b)[j] == a[j];
      } else {
        assert (a + b)[j] == b[j - |a|];
      }
    }
  }

  /** Rows rlo .. k-1 of column nnc in slice nns come in ascending order,
      before row k of that column and from row 0 of it on. */
  lemma {:induction false} RowCellsAscending(q: Cube, nns: nat, nnc: nat, k: nat)
    requires q.Valid() && q.rlo <= k
    ensures CellsAscending(RowCells(q, nns, nnc, k))
    ensures AllBefore(RowCells(q, nns, nnc, k), Cell(k, nnc, nns))
    ensures AllFrom(RowCells(q, nns, nnc, k), Cell(0, nnc, nns))
    decreases k
  {
    if k > q.rlo {
      RowCellsAscending(q, nns, nnc, k - 1);
      var prev := RowCells(q, nns, nnc, k - 1);
      assert AllBefore(prev, Cell(k, nnc, nns));
      if !(nns == q.s && nnc == q.c && k - 1 == q.r) {
        CellsAscendingAppend(prev, [Cell(k - 1, nnc, nns)], Cell(k - 1, nnc, nns));
        AllBeforeAppend(prev, [Cell(k - 1, nnc, nns)], Cell(k, nnc, nns));
        AllFromAppend(prev, [Cell(k - 1, nnc, nns)], Cell(0, nnc, nns));
      }
    }
  }

  /** Columns clo .. k-1 of slice nns come in ascending order, before
      column k of that slice and from its column 0 on. */
  lemma {:induction false} ColCellsAscending(q: Cube, nns: nat, k: nat)
    requires q.Valid() && q.clo <= k
    ensures CellsAscending(ColCells(q, nns, k))
    ensures AllBefore(ColCells(q, nns, k), Cell(0, k, nns))
    ensures AllFrom(ColCells(q, nns, k), Cell(0, 0, nns))
    decreases k
  {
    if k > q.clo {
      ColCellsAscending(q, nns, k - 1);
      var prev, row := ColCells(q, nns, k - 1), RowCells(q, nns, k - 1, q.rhi + 1);
      RowCellsAscending(q, nns, k - 1, q.rhi + 1);
      assert AllBefore(prev, Cell(0, k, nns));
      assert AllBefore(row, Cell(0, k, nns));
      assert AllFrom(row, Cell(0, 0, nns));
      CellsAscendingAppend(prev, row, Cell(0, k - 1, nns));
      AllBeforeAppend(prev, row, Cell(0, k, nns));
      AllFromAppend(prev, row, Cell(0, 0, nns));
    }
  }

  /** Slices slo .. k-1 come in ascending order, before slice k. */
  lemma {:induction false} SliceCellsAscending(q: Cube, k: nat)
    requires q.Valid() && q.slo <= k
    ensures CellsAscending(SliceCells(q, k))
    ensures AllBefore(SliceCells(q, k), Cell(0, 0, k))
    decreases k
  {
    if k > q.slo {
      SliceCellsAscending(q, k - 1);
      var prev, col := SliceCells(q, k - 1), ColCells(q, k - 1, q.chi + 1);
      ColCellsAscending(q, k - 1, q.chi + 1);
      assert AllBefore(prev, Cell(0, 0, k));
      assert AllBefore(col, Cell(0, 0, k));
      CellsAscendingAppend(prev, col, Cell(0, 0, k - 1));
      AllBeforeAppend(prev, col, Cell(0, 0, k));
    }
  }

  /** Rows k' < k of column nnc in slice nns are all visited, the voxel
      itself excepted: j is where x is visited. */
  lemma {:induction false} RowCellsComplete(q: Cube, nns: nat, nnc: nat, k: nat, x: Cell) returns (j: nat)
    requires q.Valid() && q.rlo <= k
    requires x.s == nns && x.c == nnc && q.rlo <= x.r < k && x != Cell(q.r, q.c, q.s)
    ensures j < |RowCells(q, nns, nnc, k)| && RowCells(q, nns, nnc, k)[j] == x
    decreases k
  {
    if x.r < k - 1 {
      j := RowCellsComplete(q, nns, nnc, k - 1, x);
    } else {
      j := |RowCells(q, nns, nnc, k - 1)|;
    }
  }

  lemma {:induction false} ColCellsComplete(q: Cube, nns: nat, k: nat, x: Cell) returns (j: nat)
    requires q.Valid() && q.clo <= k
    requires x.s == nns && q.clo <= x.c < k && q.rlo <= x.r <= q.rhi && x != Cell(q.r, q.c, q.s)
    ensures j < |ColCells(q, nns, k)| && ColCells(q, nns, k)[j] == x
    decreases k
  {
    if x.c < k - 1 {
      j := ColCellsComplete(q, nns, k - 1, x);
    } else {
      var j' := RowCellsComplete(q, nns, k - 1, q.rhi + 1, x);
      j := |ColCells(q, nns, k - 1)| + j';
    }
  }

  lemma {:induction false} SliceCellsComplete(q: Cube, k: nat, x: Cell) returns (j: nat)
    requires q.Valid() && q.slo <= k
    requires q.slo <= x.s < k && q.clo <= x.c <= q.chi && q.rlo <= x.r <= q.rhi && x != Cell(q.r, q.c, q.s)
    ensures j < |SliceCells(q, k)| && SliceCells(q, k)[j] == x
    decreases k
  {
    if x.s < k - 1 {
      j := SliceCellsComplete(q, k - 1, x);
    } else {
      var j' := ColCellsComplete(q, k - 1, q.chi + 1, x);
      j := |SliceCells(q, k - 1)| + j';
    }
  }

  /** The loops visit exactly the cells of the cube other than the voxel. */
  lemma CubeCellsExact(q: Cube, x: Cell)
    requires q.Valid()
    ensures x in CubeCells(q) <==> InCube(q, x)
  {
    SliceCellsInCube(q, q.shi + 1);
    if InCube(q, x) {
      var j := SliceCellsComplete(q, q.shi + 1, x);
      assert CubeCells(q)[j] == x;
    }
  }

  // ---------------------------------------------------------------------
  // The stored neighbours of a list of cells

  lemma CubeCellsInImage(v: Volume, q: Cube, cells: seq<Cell>)
    requires Fits(v, q) && AllInCube(q, cells)
    ensures AllIn(v, cells)
  {
  }

  lemma {:induction false} StoredAppend(v: Volume, a: seq<Cell>, b: seq<Cell>)
    requires v.Valid() && AllIn(v, a) && AllIn(v, b)
    ensures AllIn(v, a + b)
    ensures Stored(v, a + b) == Stored(v, a) + Stored(v, b)
    decreases |b|
  {
    assert forall j :: 0 <= j < |a + b| ==> (a + b)[j] == if j < |a| then a[j] else b[j - |a|];
    if b == [] {
      assert a + b == a;
    } else {
      var b' := b[..|b| - 1];
      assert forall j :: 0 <= j < |b'| ==> b'[j] == b[j];
      StoredAppend(v, a, b');
      assert (a + b)[..|a + b| - 1] == a + b';
      assert (a + b)[|a + b| - 1] == b[|b| - 1];
    }
  }

  /** One more cell adds its index unless it is Inf. */
  lemma StoredSnoc(v: Volume, cells: seq<Cell>, x: Cell)
    requires v.Valid() && AllIn(v, cells) && InVol(v, x.r, x.c, x.s)
    ensures AllIn(v, cells + [x])
    ensures Stored(v, cells + [x]) ==
              Stored(v, cells) + (if v.im[Index(v, x.r, x.c, x.s)].Inf? then [] else [Index(v, x.r, x.c, x.s)])
  {
    StoredAppend(v, cells, [x]);
    assert [x][..0] == [];
  }

  lemma {:induction false} StoredLength(v: Volume, cells: seq<Cell>)
    requires v.Valid() && AllIn(v, cells)
    ensures |Stored(v, cells)| <= |cells|
    decreases |cells|
  {
    if cells != [] {
      var init := cells[..|cells| - 1];
      assert forall j :: 0 <= j < |init| ==> init[j] == cells[j];
      StoredLength(v, init);
    }
  }

  /** An index n is an adjacent voxel of q's voxel: the index of a cell in
      q's ranges other than the voxel itself, and not Inf. */
  ghost predicate Adjacent(v: Volume, q: Cube, n: nat)
    requires v.Valid() && Fits(v, q)
  {
    exists x: Cell :: InCube(q, x) && n == Index(v, x.r, x.c, x.s) && v.im[n].Fin?
  }

  /** Everything stored for cells of the cube is an adjacent voxel. */
  lemma {:induction false} StoredAdjacent(v: Volume, q: Cube, cells: seq<Cell>)
    requires v.Valid() && Fits(v, q) && AllInCube(q, cells)
    ensures AllIn(v, cells)
    ensures forall j :: 0 <= j < |Stored(v, cells)| ==> Adjacent(v, q, Stored(v, cells)[j])
    decreases |cells|
  {
    CubeCellsInImage(v, q, cells);
    if cells != [] {
      var init, x := cells[..|cells| - 1], cells[|cells| - 1];
      assert forall j :: 0 <= j < |init| ==> init[j] == cells[j];
      StoredAdjacent(v, q, init);
      var n := Index(v, x.r, x.c, x.s);
      if v.im[n].Fin? {
        assert InCube(q, x);
        assert Adjacent(v, q, n);
      }
    }
  }

  /** Every non-Inf cell of the list has its index stored. */
  lemma {:induction false} StoredComplete(v: Volume, cells: seq<Cell>, x: Cell)
    requires v.Valid() && AllIn(v, cells) && x in cells
    requires v.im[Index(v, x.r, x.c, x.s)].Fin?
    ensures Index(v, x.r, x.c, x.s) in Stored(v, cells)
    decreases |cells|
  {
    var init, y := cells[..|cells| - 1], cells[|cells| - 1];
    assert forall j :: 0 <= j < |init| ==> init[j] == cells[j];
    var n := Index(v, y.r, y.c, y.s);
    var last := if v.im[n].Inf? then [] else [n];
    assert Stored(v, cells) == Stored(v, init) + last;
    if x == y {
      assert Stored(v, cells)[|Stored(v, cells)| - 1] == n;
    } else {
      var j :| 0 <= j < |cells| && cells[j] == x;
      assert init[j] == x;
      StoredComplete(v, init, x);
      var m :| 0 <= m < |Stored(v, init)| && Stored(v, init)[m] == Index(v, x.r, x.c, x.s);
      assert Stored(v, cells)[m] == Stored(v, init)[m];
    }
  }

  /** Linear indices follow the lexicographic (s, c, r) order of cells. */
  lemma IndexMonotone(v: Volume, x: Cell, y: Cell)
    requires v.Valid() && InVol(v, x.r, x.c, x.s) && InVol(v, y.r, y.c, y.s)
    requires Before(x, y)
    ensures Index(v, x.r, x.c, x.s) < Index(v, y.r, y.c, y.s)
  {
    // the column part of an index stays below a whole plane
    MulMonotone(x.c + 1, v.C, v.R);
    assert Mul(x.c + 1, v.R) == Mul(x.c, v.R) + v.R;
    if x.s < y.s {
      MulMonotone(x.s + 1, y.s, v.Plane());
      assert Mul(x.s + 1, v.Plane()) == Mul(x.s, v.Plane()) + v.Plane();
    } else if x.c < y.c {
      MulMonotone(x.c + 1, y.c, v.R);
    }
  }

  lemma {:induction false} StoredBelow(v: Volume, cells: seq<Cell>, y: Cell)
    requires v.Valid() && AllIn(v, cells) && InVol(v, y.r, y.c, y.s)
    requires AllBefore(cells, y)
    ensures forall j :: 0 <= j < |Stored(v, cells)| ==> Stored(v, cells)[j] < Index(v, y.r, y.c, y.s)
    decreases |cells|
  {
    if cells != [] {
      var init, x := cells[..|cells| - 1], cells[|cells| - 1];
      assert forall j :: 0 <= j < |init| ==> init[j] == cells[j];
      StoredBelow(v, init, y);
      IndexMonotone(v, x, y);
    }
  }

  /** Cells in loop order give strictly ascending stored indices. */
  lemma {:induction false} StoredAscending(v: Volume, cells: seq<Cell>)
    requires v.Valid() && AllIn(v, cells) && CellsAscending(cells)
    ensures StrictlyAscending(Stored(v, cells))
    decreases |cells|
  {
    if cells != [] {
      var init, x := cells[..|cells| - 1], cells[|cells| - 1];
      assert forall j :: 0 <= j < |init| ==> init[j] == cells[j];
      StoredAscending(v, init);
      assert AllBefore(init, x);
      StoredBelow(v, init, x);
      var n := Index(v, x.r, x.c, x.s);
      if v.im[n].Fin? {
        AscendingSnoc(Stored(v, init), n);
      }
    }
  }

  predicate StrictlyAscending(xs: seq<nat>) {
    forall i, j :: 0 <= i < j < |xs| ==> xs[i] < xs[j]
  }

  lemma AscendingSnoc(xs: seq<nat>, n: nat)
    requires StrictlyAscending(xs)
    requires forall j :: 0 <= j < |xs| ==> xs[j] < n
    ensures StrictlyAscending(xs + [n])
  {
  }

  // ---------------------------------------------------------------------
  // Properties of one voxel's neighbour list

  /** The stored neighbours are exactly the adjacent voxels: each one is
      an adjacent voxel inside the image, and every adjacent voxel is
      stored. */
  lemma NeighboursAreAdjacent(v: Volume, q: Cube)
    requires v.Valid() && Fits(v, q)
    ensures forall j :: 0 <= j < |Neighbours(v, q)| ==>
              Adjacent(v, q, Neighbours(v, q)[j]) && Neighbours(v, q)[j] < |v.im|
    ensures forall n: nat :: Adjacent(v, q, n) ==> n in Neighbours(v, q)
  {
    SliceCellsInCube(q, q.shi + 1);
    StoredAdjacent(v, q, CubeCells(q));
    forall n: nat | Adjacent(v, q, n)
      ensures n in Neighbours(v, q)
    {
      var x :| InCube(q, x) && n == Index(v, x.r, x.c, x.s) && v.im[n].Fin?;
      CubeCellsExact(q, x);
      StoredComplete(v, CubeCells(q), x);
    }
  }

  /** Neighbours stored for voxel i are inside the image. */
  lemma NeighboursInImage(v: Volume, i: nat)
    requires v.Valid() && i < |v.im|
    ensures forall j :: 0 <= j < |VoxelNb(v, i)| ==> VoxelNb(v, i)[j] < |v.im|
  {
    if v.im[i].Fin? {
      var o := Subs(v, i);
      CubeOfFits(v, o.r, o.c, o.s);
      NeighboursAreAdjacent(v, CubeOf(v, o.r, o.c, o.s));
    }
  }

  /** A voxel has at most 26 stored neighbours. */
  lemma AtMost26(v: Volume, i: nat)
    requires v.Valid() && i < |v.im|
    ensures |VoxelNb(v, i)| <= 26
  {
    if v.im[i].Fin? {
      var o := Subs(v, i);
      var q := CubeOf(v, o.r, o.c, o.s);
      CubeOfFits(v, o.r, o.c, o.s);
      SliceCellsInCube(q, q.shi + 1);
      CubeCellsInImage(v, q, CubeCells(q));
      StoredLength(v, CubeCells(q));
      CubeCellsAtMost26(q);
    }
  }

  /** Hence the entries never exceed the 26 * R*C*S slots allocated. */
  lemma {:induction false} EntriesWithinCapacity(v: Volume, n: nat)
    requires v.Valid() && n <= |v.im|
    ensures |EntriesBefore(v, n)| <= 26 * n
    decreases n
  {
    if n > 0 {
      EntriesWithinCapacity(v, n - 1);
      AtMost26(v, n - 1);
      assert EntriesBefore(v, n) == EntriesBefore(v, n - 1) + ToEntries(n - 1, VoxelNb(v, n - 1));
    }
  }

  /** Each voxel's stored row indices are strictly ascending, as the
      compressed-sparse-column format expects within a column. */
  lemma NeighboursAscending(v: Volume, i: nat)
    requires v.Valid() && i < |v.im|
    ensures StrictlyAscending(VoxelNb(v, i))
  {
    if v.im[i].Fin? {
      var o := Subs(v, i);
      var q := CubeOf(v, o.r, o.c, o.s);
      CubeOfFits(v, o.r, o.c, o.s);
      SliceCellsInCube(q, q.shi + 1);
      CubeCellsInImage(v, q, CubeCells(q));
      SliceCellsAscending(q, q.shi + 1);
      StoredAscending(v, CubeCells(q));
    }
  }

  lemma {:induction false} CountNonzeroAppend(v: Volume, a: seq<nat>, b: seq<nat>)
    ensures CountNonzero(v, a + b) == CountNonzero(v, a) + CountNonzero(v, b)
    decreases |b|
  {
    if b == [] {
      assert a + b == a;
    } else {
      var b' := b[..|b| - 1];
      CountNonzeroAppend(v, a, b');
      assert (a + b)[..|a + b| - 1] == a + b';
      assert (a + b)[|a + b| - 1] == b[|b| - 1];
    }
  }

  /** A list containing a neighbour of intensity zero has fewer nonzero
      neighbours than members. */
  lemma {:induction false} ZeroIsNotCounted(v: Volume, nbs: seq<nat>, j: nat)
    requires j < |nbs| && nbs[j] < |v.im| && v.im[nbs[j]] == Fin(0.0)
    ensures CountNonzero(v, nbs) < |nbs|
    decreases |nbs|
  {
    var init := nbs[..|nbs| - 1];
    if j < |nbs| - 1 {
      assert init[j] == nbs[j];
      ZeroIsNotCounted(v, init, j);
    }
  }

  /** The entries of voxel n follow those of the voxels before it. */
  lemma EntriesBeforeNext(v: Volume, n: nat)
    requires v.Valid() && n < |v.im|
    ensures EntriesBefore(v, n + 1) == EntriesBefore(v, n) + ToEntries(n, VoxelNb(v, n))
  {
  }

  lemma {:induction false} CountSumMonotone(v: Volume, ls: seq<seq<nat>>, m: nat, n: nat)
    requires m <= n <= |ls|
    ensures CountSum(v, ls, m) <= CountSum(v, ls, n)
    decreases n
  {
    if m < n {
      CountSumMonotone(v, ls, m, n - 1);
    }
  }

  /** jc starts at 0 and never decreases. */
  lemma CountedBeforeMonotone(v: Volume, m: nat, n: nat)
    requires v.Valid() && m <= n <= |v.im|
    ensures CountedBefore(v, 0) == 0
    ensures CountedBefore(v, m) <= CountedBefore(v, n)
  {
    CountSumMonotone(v, VoxelLists(v), m, n);
  }

  lemma {:induction false} CountSumVersusFlatten(v: Volume, ls: seq<seq<nat>>, n: nat, i: nat, j: nat)
    requires n <= |ls|
    ensures CountSum(v, ls, n) <= |Flatten(ls, n)|
    ensures i < n && j < |ls[i]| && ls[i][j] < |v.im| && v.im[ls[i][j]] == Fin(0.0) ==>
              CountSum(v, ls, n) < |Flatten(ls, n)|
    decreases n
  {
    if n > 0 {
      CountSumVersusFlatten(v, ls, n - 1, i, j);
      if i == n - 1 && j < |ls[i]| && ls[i][j] < |v.im| && v.im[ls[i][j]] == Fin(0.0) {
        ZeroIsNotCounted(v, ls[i], j);
      }
    }
  }

  /** The column counts never exceed the entries written, and they fall
      short as soon as a stored neighbour has intensity zero: such an entry
      is written to ir and pr but not counted in jc, so jc[R*C*S] is then
      smaller than nzmax. */
  lemma CountedBeforeVersusEntries(v: Volume, n: nat, i: nat, j: nat)
    requires v.Valid() && n <= |v.im|
    ensures CountedBefore(v, n) <= |EntriesBefore(v, n)|
    ensures i < n && j < |VoxelNb(v, i)| && VoxelNb(v, i)[j] < |v.im| && v.im[VoxelNb(v, i)[j]] == Fin(0.0) ==>
              CountedBefore(v, n) < |EntriesBefore(v, n)|
  {
    if i < n {
      assert VoxelLists(v)[i] == VoxelNb(v, i);
    }
    CountSumVersusFlatten(v, VoxelLists(v), n, i, j);
  }

  lemma {:induction false} CountSumWithoutZeros(v: Volume, ls: seq<seq<nat>>, n: nat)
    requires n <= |ls|
    requires forall i, j :: 0 <= i < |ls| && 0 <= j < |ls[i]| ==> ls[i][j] < |v.im| && v.im[ls[i][j]] != Fin(0.0)
    ensures CountSum(v, ls, n) == |Flatten(ls, n)|
    decreases n
  {
    if n > 0 {
      CountSumWithoutZeros(v, ls, n - 1);
      AllCounted(v, ls[n - 1]);
    }
  }

  /** Without voxels of intensity zero, the counts match the entries:
      jc[i] is then the position in ir and pr of column i's first entry. */
  lemma CountedBeforeWithoutZeros(v: Volume, n: nat)
    requires v.Valid() && n <= |v.im|
    requires forall k :: 0 <= k < |v.im| ==> v.im[k] != Fin(0.0)
    ensures CountedBefore(v, n) == |EntriesBefore(v, n)|
  {
    var ls := VoxelLists(v);
    forall i, j | 0 <= i < |ls| && 0 <= j < |ls[i]|
      ensures ls[i][j] < |v.im| && v.im[ls[i][j]] != Fin(0.0)
    {
      NeighboursInImage(v, i);
    }
    CountSumWithoutZeros(v, ls, n);
  }

  lemma {:induction false} AllCounted(v: Volume, nbs: seq<nat>)
    requires forall j :: 0 <= j < |nbs| ==> nbs[j] < |v.im| && v.im[nbs[j]] != Fin(0.0)
    ensures CountNonzero(v, nbs) == |nbs|
    decreases |nbs|
  {
    if nbs != [] {
      AllCounted(v, nbs[..|nbs| - 1]);
    }
  }

  /** A stored entry joins two non-Inf voxels of the image. */
  predicate EntryOk(v: Volume, e: Entry) {
    e.row < |v.im| && e.col < |v.im| && v.im[e.row].Fin? && v.im[e.col].Fin?
  }

  /** Every entry joins two finite voxels of the image. */
  predicate AllOk(v: Volume, es: seq<Entry>) {
    forall k :: 0 <= k < |es| ==> EntryOk(v, es[k])
  }

  /** The row indices of the entries: what ir holds. */
  function Rows(es: seq<Entry>): (rs: seq<nat>)
    ensures |rs| == |es|
    decreases |es|
  {
    if es == [] then [] else Rows(es[..|es| - 1]) + [es[|es| - 1].row]
  }

  /** The weights of the entries: what pr holds. */
  function Weights(v: Volume, es: seq<Entry>): (ws: seq<real>)
    requires AllOk(v, es)
    ensures |ws| == |es|
    decreases |es|
  {
    if es == [] then []
    else
      var e := es[|es| - 1];
      Weights(v, es[..|es| - 1]) + [Mean(v.im[e.row], v.im[e.col])]
  }

  /** The first |es| slots of ir and pr (given by their contents irs and
      prs) hold the entries es: the neighbour index and the mean of the two
      intensities. */
  predicate Written(v: Volume, irs: seq<nat>, prs: seq<real>, es: seq<Entry>) {
    && |es| <= |irs| && |es| <= |prs|
    && AllOk(v, es)
    && irs[..|es|] == Rows(es)
    && prs[..|es|] == Weights(v, es)
  }

  /** Each entry's slot holds its row index and its weight. */
  lemma {:induction false} RowsWeightsAt(v: Volume, es: seq<Entry>, k: nat)
    requires AllOk(v, es) && k < |es|
    ensures Rows(es)[k] == es[k].row
    ensures Weights(v, es)[k] == Mean(v.im[es[k].row], v.im[es[k].col])
    decreases |es|
  {
    var init := es[..|es| - 1];
    assert forall j :: 0 <= j < |init| ==> init[j] == es[j];
    if k < |init| {
      RowsWeightsAt(v, init, k);
    }
  }

  lemma ToEntriesAppend(col: nat, a: seq<nat>, b: seq<nat>)
    ensures ToEntries(col, a + b) == ToEntries(col, a) + ToEntries(col, b)
  {
    assert forall j :: 0 <= j < |a + b| ==> ToEntries(col, a + b)[j] == (ToEntries(col, a) + ToEntries(col, b))[j];
  }

  lemma CountNonzeroSnoc(v: Volume, nbs: seq<nat>, x: nat)
    ensures CountNonzero(v, nbs + [x]) == CountNonzero(v, nbs) + (if x < |v.im| && Nonzero(v.im[x]) then 1 else 0)
  {
    assert (nbs + [x])[..|nbs|] == nbs;
  }

  /** One more entry extends its rows and weights by that entry's. */
  lemma EntriesSnoc(v: Volume, es: seq<Entry>, e: Entry)
    requires AllOk(v, es) && EntryOk(v, e)
    ensures AllOk(v, es + [e])
    ensures Rows(es + [e]) == Rows(es) + [e.row]
    ensures Weights(v, es + [e]) == Weights(v, es) + [Mean(v.im[e.row], v.im[e.col])]
  {
    assert (es + [e])[..|es|] == es;
  }

  /** Appending list b to list a appends their entries. */
  lemma EntriesStep(idx: nat, es0: seq<Entry>, a: seq<nat>, b: seq<nat>)
    ensures es0 + ToEntries(idx, a) + ToEntries(idx, b) == es0 + ToEntries(idx, a + b)
  {
    ToEntriesAppend(idx, a, b);
  }

  /** What the row loop stores on visiting cell (k, nnc, nns): nothing
      for the voxel itself or an Inf voxel, else that voxel's index. */
  function Visited(v: Volume, q: Cube, nns: nat, nnc: nat, k: nat): (nbs: seq<nat>)
    requires v.Valid() && Fits(v, q)
    requires q.slo <= nns <= q.shi && q.clo <= nnc <= q.chi && q.rlo <= k <= q.rhi
  {
    if nns == q.s && nnc == q.c && k == q.r then []
    else
      var n := Index(v, k, nnc, nns);
      if v.im[n].Inf? then [] else [n]
  }

  /** One more row extends the row loop's list by what that row stores. */
  lemma RowNbStep(v: Volume, q: Cube, nns: nat, nnc: nat, k: nat)
    requires v.Valid() && Fits(v, q)
    requires q.slo <= nns <= q.shi && q.clo <= nnc <= q.chi && q.rlo <= k <= q.rhi
    ensures RowNb(v, q, nns, nnc, k + 1) == RowNb(v, q, nns, nnc, k) + Visited(v, q, nns, nnc, k)
  {
    RowCellsInCube(q, nns, nnc, k);
    CubeCellsInImage(v, q, RowCells(q, nns, nnc, k));
    if !(nns == q.s && nnc == q.c && k == q.r) {
      StoredSnoc(v, RowCells(q, nns, nnc, k), Cell(k, nnc, nns));
    } else {
      assert RowNb(v, q, nns, nnc, k) + [] == RowNb(v, q, nns, nnc, k);
    }
  }

  lemma ColNbUnfold(v: Volume, q: Cube, nns: nat, k: nat)
    requires v.Valid() && Fits(v, q) && q.slo <= nns <= q.shi
    requires q.clo <= k <= q.chi
    ensures ColNb(v, q, nns, k + 1) == ColNb(v, q, nns, k) + RowNb(v, q, nns, k, q.rhi + 1)
  {
    ColCellsInCube(q, nns, k);
    RowCellsInCube(q, nns, k, q.rhi + 1);
    CubeCellsInImage(v, q, ColCells(q, nns, k));
    CubeCellsInImage(v, q, RowCells(q, nns, k, q.rhi + 1));
    StoredAppend(v, ColCells(q, nns, k), RowCells(q, nns, k, q.rhi + 1));
  }

  /** Column k extends the entries and the count of the earlier columns
      of slice nns. */
  lemma ColEntriesStep(v: Volume, q: Cube, idx: nat, nns: nat, k: nat, es0: seq<Entry>)
    requires v.Valid() && Fits(v, q) && q.slo <= nns <= q.shi
    requires q.clo <= k <= q.chi
    ensures es0 + ToEntries(idx, ColNb(v, q, nns, k)) + ToEntries(idx, RowNb(v, q, nns, k, q.rhi + 1))
            == es0 + ToEntries(idx, ColNb(v, q, nns, k + 1))
  {
    ColNbUnfold(v, q, nns, k);
    EntriesStep(idx, es0, ColNb(v, q, nns, k), RowNb(v, q, nns, k, q.rhi + 1));
  }

  lemma ColCountStep(v: Volume, q: Cube, nns: nat, k: nat)
    requires v.Valid() && Fits(v, q) && q.slo <= nns <= q.shi
    requires q.clo <= k <= q.chi
    ensures CountNonzero(v, ColNb(v, q, nns, k + 1))
            == CountNonzero(v, ColNb(v, q, nns, k)) + CountNonzero(v, RowNb(v, q, nns, k, q.rhi + 1))
  {
    ColNbUnfold(v, q, nns, k);
    CountNonzeroAppend(v, ColNb(v, q, nns, k), RowNb(v, q, nns, k, q.rhi + 1));
  }

  lemma SliceNbUnfold(v: Volume, q: Cube, k: nat)
    requires v.Valid() && Fits(v, q)
    requires q.slo <= k <= q.shi
    ensures SliceNb(v, q, k + 1) == SliceNb(v, q, k) + ColNb(v, q, k, q.chi + 1)
  {
    SliceCellsInCube(q, k);
    ColCellsInCube(q, k, q.chi + 1);
    CubeCellsInImage(v, q, SliceCells(q, k));
    CubeCellsInImage(v, q, ColCells(q, k, q.chi + 1));
    StoredAppend(v, SliceCells(q, k), ColCells(q, k, q.chi + 1));
  }

  /** Slice k extends the entries and the count of the earlier slices. */
  lemma SliceEntriesStep(v: Volume, q: Cube, idx: nat, k: nat, es0: seq<Entry>)
    requires v.Valid() && Fits(v, q)
    requires q.slo <= k <= q.shi
    ensures es0 + ToEntries(idx, SliceNb(v, q, k)) + ToEntries(idx, ColNb(v, q, k, q.chi + 1))
            == es0 + ToEntries(idx, SliceNb(v, q, k + 1))
  {
    SliceNbUnfold(v, q, k);
    EntriesStep(idx, es0, SliceNb(v, q, k), ColNb(v, q, k, q.chi + 1));
  }

  lemma SliceCountStep(v: Volume, q: Cube, k: nat)
    requires v.Valid() && Fits(v, q)
    requires q.slo <= k <= q.shi
    ensures CountNonzero(v, SliceNb(v, q, k + 1))
            == CountNonzero(v, SliceNb(v, q, k)) + CountNonzero(v, ColNb(v, q, k, q.chi + 1))
  {
    SliceNbUnfold(v, q, k);
    CountNonzeroAppend(v, SliceNb(v, q, k), ColNb(v, q, k, q.chi + 1));
  }

  /** The first k - rlo rows form a prefix of the first k' - rlo rows, and
      so on for columns and slices. */
  lemma PrefixOfAppend<T>(a: seq<T>, b: seq<T>, m: nat)
    requires m <= |a|
    ensures (a + b)[..m] == a[..m]
  {
  }

  lemma {:induction false} RowCellsPrefix(q: Cube, nns: nat, nnc: nat, k: nat, k': nat)
    requires q.Valid() && q.rlo <= k <= k'
    ensures |RowCells(q, nns, nnc, k)| <= |RowCells(q, nns, nnc, k')|
    ensures RowCells(q, nns, nnc, k')[..|RowCells(q, nns, nnc, k)|] == RowCells(q, nns, nnc, k)
    decreases k'
  {
    if k < k' {
      RowCellsPrefix(q, nns, nnc, k, k' - 1);
      var a := RowCells(q, nns, nnc, k' - 1);
      var b := if nns == q.s && nnc == q.c && k' - 1 == q.r then [] else [Cell(k' - 1, nnc, nns)];
      assert RowCells(q, nns, nnc, k') == a + b;
      PrefixOfAppend(a, b, |RowCells(q, nns, nnc, k)|);
    }
  }

  lemma {:induction false} ColCellsPrefix(q: Cube, nns: nat, k: nat, k': nat)
    requires q.Valid() && q.clo <= k <= k'
    ensures |ColCells(q, nns, k)| <= |ColCells(q, nns, k')|
    ensures ColCells(q, nns, k')[..|ColCells(q, nns, k)|] == ColCells(q, nns, k)
    decreases k'
  {
    if k < k' {
      ColCellsPrefix(q, nns, k, k' - 1);
      PrefixOfAppend(ColCells(q, nns, k' - 1), RowCells(q, nns, k' - 1, q.rhi + 1), |ColCells(q, nns, k)|);
    }
  }

  lemma {:induction false} SliceCellsPrefix(q: Cube, k: nat, k': nat)
    requires q.Valid() && q.slo <= k <= k'
    ensures |SliceCells(q, k)| <= |SliceCells(q, k')|
    ensures SliceCells(q, k')[..|SliceCells(q, k)|] == SliceCells(q, k)
    decreases k'
  {
    if k < k' {
      SliceCellsPrefix(q, k, k' - 1);
      PrefixOfAppend(SliceCells(q, k' - 1), ColCells(q, k' - 1, q.chi + 1), |SliceCells(q, k)|);
    }
  }

  /** A prefix of the cells stores no more neighbours than all of them. */
  lemma {:induction false} StoredPrefix(v: Volume, cells: seq<Cell>, m: nat)
    requires v.Valid() && AllIn(v, cells) && m <= |cells|
    ensures AllIn(v, cells[..m])
    ensures |Stored(v, cells[..m])| <= |Stored(v, cells)|
    decreases |cells|
  {
    if m < |cells| {
      var init := cells[..|cells| - 1];
      assert forall j :: 0 <= j < |init| ==> init[j] == cells[j];
      assert init[..m] == cells[..m];
      StoredPrefix(v, init, m);
    } else {
      assert cells[..m] == cells;
    }
  }

  lemma RowNbGrows(v: Volume, q: Cube, nns: nat, nnc: nat, k: nat, k': nat)
    requires v.Valid() && Fits(v, q) && q.slo <= nns <= q.shi && q.clo <= nnc <= q.chi
    requires q.rlo <= k <= k' <= q.rhi + 1
    ensures |RowNb(v, q, nns, nnc, k)| <= |RowNb(v, q, nns, nnc, k')|
  {
    RowCellsInCube(q, nns, nnc, k');
    CubeCellsInImage(v, q, RowCells(q, nns, nnc, k'));
    RowCellsPrefix(q, nns, nnc, k, k');
    StoredPrefix(v, RowCells(q, nns, nnc, k'), |RowCells(q, nns, nnc, k)|);
  }

  lemma ColNbGrows(v: Volume, q: Cube, nns: nat, k: nat, k': nat)
    requires v.Valid() && Fits(v, q) && q.slo <= nns <= q.shi
    requires q.clo <= k <= k' <= q.chi + 1
    ensures |ColNb(v, q, nns, k)| <= |ColNb(v, q, nns, k')|
  {
    ColCellsInCube(q, nns, k');
    CubeCellsInImage(v, q, ColCells(q, nns, k'));
    ColCellsPrefix(q, nns, k, k');
    StoredPrefix(v, ColCells(q, nns, k'), |ColCells(q, nns, k)|);
  }

  lemma SliceNbGrows(v: Volume, q: Cube, k: nat, k': nat)
    requires v.Valid() && Fits(v, q)
    requires q.slo <= k <= k' <= q.shi + 1
    ensures |SliceNb(v, q, k)| <= |SliceNb(v, q, k')|
  {
    SliceCellsInCube(q, k');
    CubeCellsInImage(v, q, SliceCells(q, k'));
    SliceCellsPrefix(q, k, k');
    StoredPrefix(v, SliceCells(q, k'), |SliceCells(q, k)|);
  }

  // The invariant of each neighbour loop, as one predicate per level, over
  // the contents irs, prs of ir and pr and the counter cnt = jc[idx+1].
  // Each level's entries and count are relative to es0 and j0, the entries
  // and jc[idx+1] before that loop started.

  /** After rows q.rlo .. nnr-1 of column nnc in slice nns. */
  predicate RowsDone(v: Volume, q: Cube, idx: nat, nns: nat, nnc: nat, nnr: nat,
                     irs: seq<nat>, prs: seq<real>, cnt: nat,
                     es0: seq<Entry>, j0: nat, outidx: nat)
    requires v.Valid() && Fits(v, q) && q.slo <= nns <= q.shi && q.clo <= nnc <= q.chi
    requires q.rlo <= nnr <= q.rhi + 1
  {
    && |es0| + |RowNb(v, q, nns, nnc, q.rhi + 1)| <= |irs|
    && |es0| + |RowNb(v, q, nns, nnc, q.rhi + 1)| <= |prs|
    && outidx == |es0| + |RowNb(v, q, nns, nnc, nnr)|
    && Written(v, irs, prs, es0 + ToEntries(idx, RowNb(v, q, nns, nnc, nnr)))
    && cnt == j0 + CountNonzero(v, RowNb(v, q, nns, nnc, nnr))
  }

  /** After columns q.clo .. nnc-1 of slice nns. */
  predicate ColumnsDone(v: Volume, q: Cube, idx: nat, nns: nat, nnc: nat,
                        irs: seq<nat>, prs: seq<real>, cnt: nat,
                        es0: seq<Entry>, j0: nat, outidx: nat)
    requires v.Valid() && Fits(v, q) && q.slo <= nns <= q.shi && q.clo <= nnc <= q.chi + 1
  {
    && |es0| + |ColNb(v, q, nns, q.chi + 1)| <= |irs|
    && |es0| + |ColNb(v, q, nns, q.chi + 1)| <= |prs|
    && outidx == |es0| + |ColNb(v, q, nns, nnc)|
    && Written(v, irs, prs, es0 + ToEntries(idx, ColNb(v, q, nns, nnc)))
    && cnt == j0 + CountNonzero(v, ColNb(v, q, nns, nnc))
  }

  /** After slices q.slo .. nns-1. */
  predicate SlicesDone(v: Volume, q: Cube, idx: nat, nns: nat,
                       irs: seq<nat>, prs: seq<real>, cnt: nat,
                       es0: seq<Entry>, j0: nat, outidx: nat)
    requires v.Valid() && Fits(v, q) && q.slo <= nns <= q.shi + 1
  {
    && |es0| + |Neighbours(v, q)| <= |irs|
    && |es0| + |Neighbours(v, q)| <= |prs|
    && outidx == |es0| + |SliceNb(v, q, nns)|
    && Written(v, irs, prs, es0 + ToEntries(idx, SliceNb(v, q, nns)))
    && cnt == j0 + CountNonzero(v, SliceNb(v, q, nns))
  }

  /** Starting the row loop of column nnc once columns before it are done. */
  lemma RowsStart(v: Volume, q: Cube, idx: nat, nns: nat, nnc: nat,
                  irs: seq<nat>, prs: seq<real>, cnt: nat,
                  es0: seq<Entry>, j0: nat, outidx: nat)
    requires v.Valid() && Fits(v, q) && q.slo <= nns <= q.shi && q.clo <= nnc <= q.chi
    requires ColumnsDone(v, q, idx, nns, nnc, irs, prs, cnt, es0, j0, outidx)
    ensures RowsDone(v, q, idx, nns, nnc, q.rlo, irs, prs, cnt,
                     es0 + ToEntries(idx, ColNb(v, q, nns, nnc)),
                     j0 + CountNonzero(v, ColNb(v, q, nns, nnc)), outidx)
  {
    ColNbUnfold(v, q, nns, nnc);
    ColNbGrows(v, q, nns, nnc + 1, q.chi + 1);
    var es := es0 + ToEntries(idx, ColNb(v, q, nns, nnc));
    assert RowNb(v, q, nns, nnc, q.rlo) == [];
    assert es + ToEntries(idx, []) == es;
  }

  /** The row loop of column nnc, once finished, completes column nnc. */
  lemma RowsEnd(v: Volume, q: Cube, idx: nat, nns: nat, nnc: nat,
                irs: seq<nat>, prs: seq<real>, cnt: nat,
                es0: seq<Entry>, j0: nat, outidx: nat)
    requires v.Valid() && Fits(v, q) && q.slo <= nns <= q.shi && q.clo <= nnc <= q.chi
    requires |es0| + |ColNb(v, q, nns, q.chi + 1)| <= |irs|
    requires |es0| + |ColNb(v, q, nns, q.chi + 1)| <= |prs|
    requires RowsDone(v, q, idx, nns, nnc, q.rhi + 1, irs, prs, cnt,
                      es0 + ToEntries(idx, ColNb(v, q, nns, nnc)),
                      j0 + CountNonzero(v, ColNb(v, q, nns, nnc)), outidx)
    ensures ColumnsDone(v, q, idx, nns, nnc + 1, irs, prs, cnt, es0, j0, outidx)
  {
    ColNbUnfold(v, q, nns, nnc);
    ColEntriesStep(v, q, idx, nns, nnc, es0);
    ColCountStep(v, q, nns, nnc);
  }

  /** Starting the column loop of slice nns once slices before it are done. */
  lemma ColumnsStart(v: Volume, q: Cube, idx: nat, nns: nat,
                     irs: seq<nat>, prs: seq<real>, cnt: nat,
                     es0: seq<Entry>, j0: nat, outidx: nat)
    requires v.Valid() && Fits(v, q) && q.slo <= nns <= q.shi
    requires SlicesDone(v, q, idx, nns, irs, prs, cnt, es0, j0, outidx)
    ensures ColumnsDone(v, q, idx, nns, q.clo, irs, prs, cnt,
                        es0 + ToEntries(idx, SliceNb(v, q, nns)),
                        j0 + CountNonzero(v, SliceNb(v, q, nns)), outidx)
  {
    SliceNbUnfold(v, q, nns);
    SliceNbGrows(v, q, nns + 1, q.shi + 1);
    var es := es0 + ToEntries(idx, SliceNb(v, q, nns));
    assert ColNb(v, q, nns, q.clo) == [];
    assert es + ToEntries(idx, []) == es;
  }

  /** The column loop of slice nns, once finished, completes slice nns. */
  lemma ColumnsEnd(v: Volume, q: Cube, idx: nat, nns: nat,
                   irs: seq<nat>, prs: seq<real>, cnt: nat,
                   es0: seq<Entry>, j0: nat, outidx: nat)
    requires v.Valid() && Fits(v, q) && q.slo <= nns <= q.shi
    requires |es0| + |Neighbours(v, q)| <= |irs|
    requires |es0| + |Neighbours(v, q)| <= |prs|
    requires ColumnsDone(v, q, idx, nns, q.chi + 1, irs, prs, cnt,
                         es0 + ToEntries(idx, SliceNb(v, q, nns)),
                         j0 + CountNonzero(v, SliceNb(v, q, nns)), outidx)
    ensures SlicesDone(v, q, idx, nns + 1, irs, prs, cnt, es0, j0, outidx)
  {
    SliceNbUnfold(v, q, nns);
    SliceEntriesStep(v, q, idx, nns, es0);
    SliceCountStep(v, q, nns);
  }

  lemma SlicesStart(v: Volume, q: Cube, idx: nat,
                    irs: seq<nat>, prs: seq<real>, cnt: nat, es0: seq<Entry>, outidx: nat)
    requires v.Valid() && Fits(v, q)
    requires Written(v, irs, prs, es0) && outidx == |es0|
    requires |es0| + |Neighbours(v, q)| <= |irs|
    requires |es0| + |Neighbours(v, q)| <= |prs|
    ensures SlicesDone(v, q, idx, q.slo, irs, prs, cnt, es0, cnt, outidx)
  {
    assert SliceNb(v, q, q.slo) == [];
    assert es0 + ToEntries(idx, []) == es0;
  }

  /** All slices done: the voxel's neighbours are written and counted. */
  lemma SlicesEnd(v: Volume, q: Cube, idx: nat,
                  irs: seq<nat>, prs: seq<real>, cnt: nat,
                  es0: seq<Entry>, j0: nat, outidx: nat)
    requires v.Valid() && Fits(v, q)
    requires SlicesDone(v, q, idx, q.shi + 1, irs, prs, cnt, es0, j0, outidx)
    ensures outidx == |es0| + |Neighbours(v, q)|
    ensures Written(v, irs, prs, es0 + ToEntries(idx, Neighbours(v, q)))
    ensures cnt == j0 + CountNonzero(v, Neighbours(v, q))
  {
  }

  /** The row loop's state after row nnr, once that row's entries are
      written and its count added. */
  lemma RowsNext(v: Volume, q: Cube, idx: nat, nns: nat, nnc: nat, nnr: nat,
                 irs: seq<nat>, prs: seq<real>, cnt: nat,
                 es0: seq<Entry>, j0: nat, outidx: nat)
    requires v.Valid() && Fits(v, q)
    requires q.slo <= nns <= q.shi && q.clo <= nnc <= q.chi && q.rlo <= nnr <= q.rhi
    requires |es0| + |RowNb(v, q, nns, nnc, q.rhi + 1)| <= |irs|
    requires |es0| + |RowNb(v, q, nns, nnc, q.rhi + 1)| <= |prs|
    requires outidx == |es0| + |RowNb(v, q, nns, nnc, nnr)| + |Visited(v, q, nns, nnc, nnr)|
    requires Written(v, irs, prs, es0 + ToEntries(idx, RowNb(v, q, nns, nnc, nnr)) + ToEntries(idx, Visited(v, q, nns, nnc, nnr)))
    requires cnt == j0 + CountNonzero(v, RowNb(v, q, nns, nnc, nnr)) + CountNonzero(v, Visited(v, q, nns, nnc, nnr))
    ensures RowsDone(v, q, idx, nns, nnc, nnr + 1, irs, prs, cnt, es0, j0, outidx)
  {
    RowNbStep(v, q, nns, nnc, nnr);
    EntriesStep(idx, es0, RowNb(v, q, nns, nnc, nnr), Visited(v, q, nns, nnc, nnr));
    CountNonzeroAppend(v, RowNb(v, q, nns, nnc, nnr), Visited(v, q, nns, nnc, nnr));
  }

  /** Writing x at slot n of a sequence whose first n slots hold xs makes
      its first n+1 slots hold xs + [x]. */
  lemma SlotWrite<T>(a: seq<T>, n: nat, x: T, xs: seq<T>)
    requires n < |a| && a[..n] == xs
    ensures a[n := x][..n + 1] == xs + [x]
  {
    assert forall j :: 0 <= j < n ==> a[n := x][j] == a[j];
  }

  /** One step of the innermost neighbour loop: neighbour (nnr, nnc, nns)
      of voxel idx is written after the entries es and counted in jc[idx+1]
      unless it is the voxel itself or Inf. */
  method VisitNeighbour(v: Volume, q: Cube, idx: nat, nns: nat, nnc: nat, nnr: nat,
                        ir: array<nat>, pr: array<real>, jc: array<nat>,
                        ghost es: seq<Entry>, outidx0: nat)
    returns (outidx: nat)
    requires v.Valid() && Fits(v, q) && idx < |v.im| && v.im[idx].Fin?
    requires q.slo <= nns <= q.shi && q.clo <= nnc <= q.chi && q.rlo <= nnr <= q.rhi
    requires ir != jc && jc.Length == |v.im| + 1
    requires Written(v, ir[..], pr[..], es) && outidx0 == |es|
    requires |es| + |Visited(v, q, nns, nnc, nnr)| <= ir.Length
    requires |es| + |Visited(v, q, nns, nnc, nnr)| <= pr.Length
    modifies ir, pr, jc
    ensures outidx == |es| + |Visited(v, q, nns, nnc, nnr)|
    ensures Written(v, ir[..], pr[..], es + ToEntries(idx, Visited(v, q, nns, nnc, nnr)))
    ensures jc[idx + 1] == old(jc[idx + 1]) + CountNonzero(v, Visited(v, q, nns, nnc, nnr))
    ensures forall k :: 0 <= k < jc.Length && k != idx + 1 ==> jc[k] == old(jc[k])
  {
    outidx := outidx0;
    // don't connect the voxel to itself
    if nns == q.s && nnc == q.c && nnr == q.r {
      assert es + ToEntries(idx, []) == es;
      return;
    }
    var nnidx := Index(v, nnr, nnc, nns);
    // skip Inf neighbours
    if v.im[nnidx].Inf? {
      assert es + ToEntries(idx, []) == es;
      return;
    }
    assert ToEntries(idx, [nnidx]) == [Entry(idx, nnidx)];
    CountNonzeroSnoc(v, [], nnidx);
    assert [] + [nnidx] == [nnidx];
    ghost var irs, prs := ir[..], pr[..];
    var w := Mean(v.im[nnidx], v.im[idx]);
    pr[outidx] := w;
    if Nonzero(v.im[nnidx]) {
      jc[idx + 1] := jc[idx + 1] + 1;
    }
    ir[outidx] := nnidx;
    assert ir[..] == irs[outidx := nnidx] && pr[..] == prs[outidx := w];
    SlotWrite(irs, outidx, nnidx, Rows(es));
    SlotWrite(prs, outidx, w, Weights(v, es));
    EntriesSnoc(v, es, Entry(idx, nnidx));
    outidx := outidx + 1;
  }

  /** One iteration of the innermost loop, in terms of the loop's state. */
  method VisitRow(v: Volume, q: Cube, idx: nat, nns: nat, nnc: nat, nnr: nat,
                  ir: array<nat>, pr: array<real>, jc: array<nat>,
                  ghost es0: seq<Entry>, ghost j0: nat, outidx0: nat)
    returns (outidx: nat)
    requires v.Valid() && Fits(v, q) && idx < |v.im| && v.im[idx].Fin?
    requires q.slo <= nns <= q.shi && q.clo <= nnc <= q.chi && q.rlo <= nnr <= q.rhi
    requires ir != jc && jc.Length == |v.im| + 1
    requires RowsDone(v, q, idx, nns, nnc, nnr, ir[..], pr[..], jc[idx + 1], es0, j0, outidx0)
    modifies ir, pr, jc
    ensures RowsDone(v, q, idx, nns, nnc, nnr + 1, ir[..], pr[..], jc[idx + 1], es0, j0, outidx)
    ensures forall k :: 0 <= k < jc.Length && k != idx + 1 ==> jc[k] == old(jc[k])
  {
    hide Written, CountNonzero, RowNb, Visited;
    RowNbGrows(v, q, nns, nnc, nnr + 1, q.rhi + 1);
    RowNbStep(v, q, nns, nnc, nnr);
    outidx := VisitNeighbour(v, q, idx, nns, nnc, nnr, ir, pr, jc,
                             es0 + ToEntries(idx, RowNb(v, q, nns, nnc, nnr)), outidx0);
    RowsNext(v, q, idx, nns, nnc, nnr, ir[..], pr[..], jc[idx + 1], es0, j0, outidx);
  }

  /** Innermost neighbour loop: rows nnr of column nnc in slice nns. */
  method FillRowNeighbours(v: Volume, q: Cube, idx: nat, nns: nat, nnc: nat,
                           ir: array<nat>, pr: array<real>, jc: array<nat>,
                           ghost es0: seq<Entry>, ghost j0: nat, outidx0: nat)
    returns (outidx: nat)
    requires v.Valid() && Fits(v, q) && idx < |v.im| && v.im[idx].Fin?
    requires q.slo <= nns <= q.shi && q.clo <= nnc <= q.chi
    requires ir != jc && jc.Length == |v.im| + 1
    requires RowsDone(v, q, idx, nns, nnc, q.rlo, ir[..], pr[..], jc[idx + 1], es0, j0, outidx0)
    modifies ir, pr, jc
    ensures RowsDone(v, q, idx, nns, nnc, q.rhi + 1, ir[..], pr[..], jc[idx + 1], es0, j0, outidx)
    ensures forall k :: 0 <= k < jc.Length && k != idx + 1 ==> jc[k] == old(jc[k])
  {
    hide RowsDone;
    outidx := outidx0;
    for nnr := q.rlo to q.rhi + 1
      invariant RowsDone(v, q, idx, nns, nnc, nnr, ir[..], pr[..], jc[idx + 1], es0, j0, outidx)
      invariant forall k :: 0 <= k < jc.Length && k != idx + 1 ==> jc[k] == old(jc[k])
    {
      outidx := VisitRow(v, q, idx, nns, nnc, nnr, ir, pr, jc, es0, j0, outidx);
    }
  }

  /** One step of the middle loop: column nnc of slice nns. */
  method VisitColumn(v: Volume, q: Cube, idx: nat, nns: nat, nnc: nat,
                     ir: array<nat>, pr: array<real>, jc: array<nat>,
                     ghost es0: seq<Entry>, ghost j0: nat, outidx0: nat)
    returns (outidx: nat)
    requires v.Valid() && Fits(v, q) && idx < |v.im| && v.im[idx].Fin?
    requires q.slo <= nns <= q.shi && q.clo <= nnc <= q.chi
    requires ir != jc && jc.Length == |v.im| + 1
    requires ColumnsDone(v, q, idx, nns, nnc, ir[..], pr[..], jc[idx + 1], es0, j0, outidx0)
    modifies ir, pr, jc
    ensures ColumnsDone(v, q, idx, nns, nnc + 1, ir[..], pr[..], jc[idx + 1], es0, j0, outidx)
    ensures forall k :: 0 <= k < jc.Length && k != idx + 1 ==> jc[k] == old(jc[k])
  {
    RowsStart(v, q, idx, nns, nnc, ir[..], pr[..], jc[idx + 1], es0, j0, outidx0);
    outidx := FillRowNeighbours(v, q, idx, nns, nnc, ir, pr, jc,
                                es0 + ToEntries(idx, ColNb(v, q, nns, nnc)),
                                j0 + CountNonzero(v, ColNb(v, q, nns, nnc)), outidx0);
    RowsEnd(v, q, idx, nns, nnc, ir[..], pr[..], jc[idx + 1], es0, j0, outidx);
  }

  /** Middle neighbour loop: columns nnc of slice nns. */
  method FillColumnNeighbours(v: Volume, q: Cube, idx: nat, nns: nat,
                              ir: array<nat>, pr: array<real>, jc: array<nat>,
                              ghost es0: seq<Entry>, ghost j0: nat, outidx0: nat)
    returns (outidx: nat)
    requires v.Valid() && Fits(v, q) && idx < |v.im| && v.im[idx].Fin?
    requires q.slo <= nns <= q.shi
    requires ir != jc && jc.Length == |v.im| + 1
    requires ColumnsDone(v, q, idx, nns, q.clo, ir[..], pr[..], jc[idx + 1], es0, j0, outidx0)
    modifies ir, pr, jc
    ensures ColumnsDone(v, q, idx, nns, q.chi + 1, ir[..], pr[..], jc[idx + 1], es0, j0, outidx)
    ensures forall k :: 0 <= k < jc.Length && k != idx + 1 ==> jc[k] == old(jc[k])
  {
    hide ColumnsDone;
    outidx := outidx0;
    for nnc := q.clo to q.chi + 1
      invariant ColumnsDone(v, q, idx, nns, nnc, ir[..], pr[..], jc[idx + 1], es0, j0, outidx)
      invariant forall k :: 0 <= k < jc.Length && k != idx + 1 ==> jc[k] == old(jc[k])
    {
      outidx := VisitColumn(v, q, idx, nns, nnc, ir, pr, jc, es0, j0, outidx);
    }
  }

  /** One step of the outer loop: slice nns. */
  method VisitSlice(v: Volume, q: Cube, idx: nat, nns: nat,
                    ir: array<nat>, pr: array<real>, jc: array<nat>,
                    ghost es0: seq<Entry>, ghost j0: nat, outidx0: nat)
    returns (outidx: nat)
    requires v.Valid() && Fits(v, q) && idx < |v.im| && v.im[idx].Fin?
    requires q.slo <= nns <= q.shi
    requires ir != jc && jc.Length == |v.im| + 1
    requires SlicesDone(v, q, idx, nns, ir[..], pr[..], jc[idx + 1], es0, j0, outidx0)
    modifies ir, pr, jc
    ensures SlicesDone(v, q, idx, nns + 1, ir[..], pr[..], jc[idx + 1], es0, j0, outidx)
    ensures forall k :: 0 <= k < jc.Length && k != idx + 1 ==> jc[k] == old(jc[k])
  {
    ColumnsStart(v, q, idx, nns, ir[..], pr[..], jc[idx + 1], es0, j0, outidx0);
    outidx := FillColumnNeighbours(v, q, idx, nns, ir, pr, jc,
                                   es0 + ToEntries(idx, SliceNb(v, q, nns)),
                                   j0 + CountNonzero(v, SliceNb(v, q, nns)), outidx0);
    ColumnsEnd(v, q, idx, nns, ir[..], pr[..], jc[idx + 1], es0, j0, outidx);
  }

  /** Outer neighbour loop: all neighbours of voxel idx, slice by slice.
      Appends the voxel's entries to those already written and adds its
      nonzero neighbours to jc[idx+1]. */
  method FillVoxel(v: Volume, q: Cube, idx: nat,
                   ir: array<nat>, pr: array<real>, jc: array<nat>,
                   ghost es0: seq<Entry>, outidx0: nat)
    returns (outidx: nat)
    requires v.Valid() && Fits(v, q) && idx < |v.im| && v.im[idx].Fin?
    requires ir != jc && jc.Length == |v.im| + 1
    requires Written(v, ir[..], pr[..], es0) && outidx0 == |es0|
    requires |es0| + |Neighbours(v, q)| <= ir.Length
    requires |es0| + |Neighbours(v, q)| <= pr.Length
    modifies ir, pr, jc
    ensures outidx == |es0| + |Neighbours(v, q)|
    ensures Written(v, ir[..], pr[..], es0 + ToEntries(idx, Neighbours(v, q)))
    ensures jc[idx + 1] == old(jc[idx + 1]) + CountNonzero(v, Neighbours(v, q))
    ensures forall k :: 0 <= k < jc.Length && k != idx + 1 ==> jc[k] == old(jc[k])
  {
    hide SlicesDone;
    SlicesStart(v, q, idx, ir[..], pr[..], jc[idx + 1], es0, outidx0);
    outidx := outidx0;
    for nns := q.slo to q.shi + 1
      invariant SlicesDone(v, q, idx, nns, ir[..], pr[..], jc[idx + 1], es0, old(jc[idx + 1]), outidx)
      invariant forall k :: 0 <= k < jc.Length && k != idx + 1 ==> jc[k] == old(jc[k])
    {
      outidx := VisitSlice(v, q, idx, nns, ir, pr, jc, es0, old(jc[idx + 1]), outidx);
    }
    SlicesEnd(v, q, idx, ir[..], pr[..], jc[idx + 1], es0, old(jc[idx + 1]), outidx);
  }

  // ---------------------------------------------------------------------
  // The voxel loops over s, c, r

  /** The source's linear index RC*s + R*c + r, with RC = R*C, is Index. */
  lemma LinearIndex(v: Volume, r: nat, c: nat, s: nat)
    requires v.Valid() && InVol(v, r, c, s)
    ensures v.R * v.C * s + v.R * c + r == Index(v, r, c, s)
  {
    IndexIsLinear(v, r, c, s);
    ProductOrder(v.R, v.C, s);
  }

  lemma ProductOrder(R: nat, C: nat, s: nat)
    ensures R * C * s == s * R * C
  {
  }

  /** Subs recovers the subscripts of Index. */
  lemma SubsOfIndex(v: Volume, r: nat, c: nat, s: nat)
    requires v.Valid() && InVol(v, r, c, s)
    ensures Subs(v, Index(v, r, c, s)) == Cell(r, c, s)
  {
    var x, y := Subs(v, Index(v, r, c, s)), Cell(r, c, s);
    if Before(x, y) {
      IndexMonotone(v, x, y);
    } else if Before(y, x) {
      IndexMonotone(v, y, x);
    }
  }

  /** The neighbour list of voxel (r, c, s) is what the neighbour loops
      store around (r, c, s), and nothing for an Inf voxel. */
  lemma VoxelNbAt(v: Volume, r: nat, c: nat, s: nat)
    requires v.Valid() && InVol(v, r, c, s)
    ensures Fits(v, CubeOf(v, r, c, s))
    ensures VoxelNb(v, Index(v, r, c, s)) ==
              if v.im[Index(v, r, c, s)].Inf? then [] else Neighbours(v, CubeOf(v, r, c, s))
  {
    CubeOfFits(v, r, c, s);
    SubsOfIndex(v, r, c, s);
  }

  /** The linear index of voxel (0, c, s); Start(v, C, s) is one past the
      last voxel of slice s. */
  function Start(v: Volume, c: nat, s: nat): nat {
    Mul(c, v.R) + Mul(s, v.Plane())
  }

  lemma StartBounds(v: Volume, c: nat, s: nat)
    requires v.Valid() && c <= v.C && s < v.S
    ensures Start(v, c, s) <= |v.im|
    ensures c < v.C ==> Start(v, c, s) + v.R == Start(v, c + 1, s) <= |v.im|
    ensures Start(v, v.C, s) == Start(v, 0, s + 1)
  {
    MulMonotone(c, v.C, v.R);
    MulMonotone(s + 1, v.S, v.Plane());
    if c < v.C {
      MulMonotone(c + 1, v.C, v.R);
    }
  }

  /** ls holds the neighbour list of every voxel. Its elements are tied
      to VoxelNb only where a VoxelNb term is at hand, so that the loops
      over voxels can carry ls without unfolding any neighbour list. */
  predicate ListsAre(v: Volume, ls: seq<seq<nat>>)
    requires v.Valid()
  {
    |ls| == |v.im| && forall k {:trigger VoxelNb(v, k)} :: 0 <= k < |v.im| ==> ls[k] == VoxelNb(v, k)
  }

  lemma VoxelListsAre(v: Volume)
    requires v.Valid()
    ensures ListsAre(v, VoxelLists(v))
  {
  }

  /** Lists that are the neighbour lists are VoxelLists. */
  lemma ListsAreUnique(v: Volume, ls: seq<seq<nat>>)
    requires v.Valid() && ListsAre(v, ls)
    ensures ls == VoxelLists(v)
  {
    assert forall k :: 0 <= k < |ls| ==> ls[k] == VoxelNb(v, k) == VoxelLists(v)[k];
  }

  /** The lists never fill more than 26 slots per voxel. */
  lemma {:induction false} FlattenWithinCapacity(v: Volume, ls: seq<seq<nat>>, n: nat)
    requires v.Valid() && ListsAre(v, ls) && n <= |ls|
    ensures |Flatten(ls, n)| <= 26 * n
    decreases n
  {
    if n > 0 {
      FlattenWithinCapacity(v, ls, n - 1);
      AtMost26(v, n - 1);
      assert ls[n - 1] == VoxelNb(v, n - 1);
    }
  }

  /** jc once voxels 0 .. n-1 are visited: jc[0] is 0, jc[i+1] holds voxel
      i's count of nonzero neighbours for i < n, and the rest is still 0. */
  predicate JcCounted(v: Volume, ls: seq<seq<nat>>, n: nat, jcs: seq<nat>)
    requires n <= |ls|
  {
    && |jcs| == |ls| + 1
    && jcs[..n + 1] == [0] + CountsOf(v, ls, n)
    && forall k :: n < k < |jcs| ==> jcs[k] == 0
  }

  lemma JcNext(v: Volume, ls: seq<seq<nat>>, n: nat, jcs: seq<nat>)
    requires n < |ls| && JcCounted(v, ls, n, jcs)
    ensures JcCounted(v, ls, n + 1, jcs[n + 1 := CountNonzero(v, ls[n])])
  {
    var x := CountNonzero(v, ls[n]);
    assert jcs[n + 1 := x][..n + 2] == jcs[..n + 1] + [x];
  }

  /** A sequence that differs from a only at i, where it holds x. */
  lemma UpdatedAt(a: seq<nat>, b: seq<nat>, i: nat, x: nat)
    requires |a| == |b| && i < |a| && b[i] == x
    requires forall k :: 0 <= k < |b| && k != i ==> b[k] == a[k]
    ensures b == a[i := x]
  {
  }

  /** The state of the voxel loops once voxels 0 .. n-1 of the linear
      order are visited: ir and pr (of 26*R*C*S slots each) hold those
      voxels' entries, outidx and nedg count them, and jc holds their
      counts. ls are the neighbour lists of all voxels. */
  predicate VoxelsDone(v: Volume, ls: seq<seq<nat>>, n: nat,
                       irs: seq<nat>, prs: seq<real>, jcs: seq<nat>, outidx: nat, nedg: nat)
    requires v.Valid()
  {
    && n <= |ls| == |v.im|
    && |irs| == 26 * |v.im| && |prs| == 26 * |v.im|
    && outidx == |Flatten(ls, n)| && nedg == outidx
    && Written(v, irs, prs, Flatten(ls, n))
    && JcCounted(v, ls, n, jcs)
  }

  /** One step of the voxel loops: voxel (r, c, s), of linear index n. An
      Inf voxel is skipped; otherwise its neighbours are appended and nedg
      catches up with outidx. */
  method VisitVoxel(v: Volume, ghost ls: seq<seq<nat>>, r: nat, c: nat, s: nat,
                    ir: array<nat>, pr: array<real>, jc: array<nat>,
                    ghost n: nat, outidx0: nat, nedg0: nat)
    returns (outidx: nat, nedg: nat)
    requires v.Valid() && ListsAre(v, ls) && InVol(v, r, c, s) && ir != jc && n == Index(v, r, c, s)
    requires VoxelsDone(v, ls, n, ir[..], pr[..], jc[..], outidx0, nedg0)
    modifies ir, pr, jc
    ensures VoxelsDone(v, ls, n + 1, ir[..], pr[..], jc[..], outidx, nedg)
  {
    hide Written, CountNonzero, Neighbours;
    var RC := v.R * v.C;
    var idx := RC * s + v.R * c + r;
    LinearIndex(v, r, c, s);
    assert idx == n;
    outidx, nedg := outidx0, nedg0;
    VoxelNbAt(v, r, c, s);
    assert ls[idx] == VoxelNb(v, idx);
    FlattenWithinCapacity(v, ls, idx + 1);
    if v.im[idx].Inf? {
      assert Flatten(ls, idx) + ToEntries(idx, []) == Flatten(ls, idx);
      JcNext(v, ls, idx, jc[..]);
      assert jc[..][idx + 1 := 0] == jc[..];
      return;
    }
    var q := CubeOf(v, r, c, s);
    ghost var jcs := jc[..];
    assert jc[idx + 1] == 0 && Neighbours(v, q) == ls[idx];
    outidx := FillVoxel(v, q, idx, ir, pr, jc, Flatten(ls, idx), outidx);
    nedg := outidx;
    UpdatedAt(jcs, jc[..], idx + 1, CountNonzero(v, ls[idx]));
    JcNext(v, ls, idx, jcs);
  }

  /** The row loop over voxels (0 .. R-1, c, s), which start at linear
      index n. */
  method ScanColumn(v: Volume, ghost ls: seq<seq<nat>>, c: nat, s: nat,
                    ir: array<nat>, pr: array<real>, jc: array<nat>, ghost n: nat, outidx0: nat, nedg0: nat)
    returns (outidx: nat, nedg: nat)
    requires v.Valid() && ListsAre(v, ls) && c < v.C && s < v.S && ir != jc && n == Start(v, c, s)
    requires VoxelsDone(v, ls, n, ir[..], pr[..], jc[..], outidx0, nedg0)
    modifies ir, pr, jc
    ensures VoxelsDone(v, ls, n + v.R, ir[..], pr[..], jc[..], outidx, nedg)
  {
    hide VoxelsDone;
    StartBounds(v, c, s);
    outidx, nedg := outidx0, nedg0;
    ghost var m := n;
    for r := 0 to v.R
      invariant m == n + r
      invariant VoxelsDone(v, ls, m, ir[..], pr[..], jc[..], outidx, nedg)
    {
      outidx, nedg := VisitVoxel(v, ls, r, c, s, ir, pr, jc, m, outidx, nedg);
      m := m + 1;
    }
    assert m == n + v.R;
  }

  /** The column loop over the columns of slice s, which starts at linear
      index n. */
  method ScanSlice(v: Volume, ghost ls: seq<seq<nat>>, s: nat,
                   ir: array<nat>, pr: array<real>, jc: array<nat>, ghost n: nat, outidx0: nat, nedg0: nat)
    returns (outidx: nat, nedg: nat)
    requires v.Valid() && ListsAre(v, ls) && s < v.S && ir != jc && n == Start(v, 0, s)
    requires VoxelsDone(v, ls, n, ir[..], pr[..], jc[..], outidx0, nedg0)
    modifies ir, pr, jc
    ensures VoxelsDone(v, ls, n + v.Plane(), ir[..], pr[..], jc[..], outidx, nedg)
  {
    hide VoxelsDone;
    outidx, nedg := outidx0, nedg0;
    ghost var m := n;
    for c := 0 to v.C
      invariant m == Start(v, c, s)
      invariant VoxelsDone(v, ls, m, ir[..], pr[..], jc[..], outidx, nedg)
    {
      StartBounds(v, c, s);
      outidx, nedg := ScanColumn(v, ls, c, s, ir, pr, jc, m, outidx, nedg);
      m := m + v.R;
    }
    StartBounds(v, v.C, s);
    assert m == n + v.Plane();
  }

  /** The slice loop: every voxel in linear order. Returns nedg, the number
      of entries written. */
  method ScanVolume(v: Volume, ghost ls: seq<seq<nat>>,
                    ir: array<nat>, pr: array<real>, jc: array<nat>)
    returns (nedg: nat)
    requires v.Valid() && ListsAre(v, ls) && ir != jc
    requires VoxelsDone(v, ls, 0, ir[..], pr[..], jc[..], 0, 0)
    modifies ir, pr, jc
    ensures VoxelsDone(v, ls, |v.im|, ir[..], pr[..], jc[..], nedg, nedg)
  {
    var outidx := 0;
    nedg := 0;
    ghost var m := 0;
    for s := 0 to v.S
      invariant m == Start(v, 0, s)
      invariant VoxelsDone(v, ls, m, ir[..], pr[..], jc[..], outidx, nedg)
    {
      hide VoxelsDone;
      outidx, nedg := ScanSlice(v, ls, s, ir, pr, jc, m, outidx, nedg);
      StartBounds(v, v.C, s);
      m := m + v.Plane();
    }
    assert m == |v.im|;
  }

  // ---------------------------------------------------------------------
  // Properties of the graph, by subscripts

  /** Voxel (r2, c2, s2) is stored as a neighbour of voxel (r, c, s)
      exactly when both are finite, they differ, and each subscript is at
      most one step away. */
  lemma VoxelNbAdjacent(v: Volume, r: nat, c: nat, s: nat, r2: nat, c2: nat, s2: nat)
    requires v.Valid() && InVol(v, r, c, s) && InVol(v, r2, c2, s2)
    ensures Index(v, r2, c2, s2) in VoxelNb(v, Index(v, r, c, s)) <==>
              && v.im[Index(v, r, c, s)].Fin? && v.im[Index(v, r2, c2, s2)].Fin?
              && Cell(r2, c2, s2) != Cell(r, c, s)
              && WithinOne(r2, r, v.R) && WithinOne(c2, c, v.C) && WithinOne(s2, s, v.S)
  {
    var i, n := Index(v, r, c, s), Index(v, r2, c2, s2);
    var q := CubeOf(v, r, c, s);
    VoxelNbAt(v, r, c, s);
    CubeOfFits(v, r, c, s);
    if v.im[i].Fin? {
      NeighboursAreAdjacent(v, q);
      if n in VoxelNb(v, i) {
        var x :| InCube(q, x) && n == Index(v, x.r, x.c, x.s) && v.im[n].Fin?;
        SubsOfIndex(v, x.r, x.c, x.s);
        SubsOfIndex(v, r2, c2, s2);
      }
      if v.im[n].Fin? && Cell(r2, c2, s2) != Cell(r, c, s)
         && WithinOne(r2, r, v.R) && WithinOne(c2, c, v.C) && WithinOne(s2, s, v.S) {
        assert InCube(q, Cell(r2, c2, s2));
        assert Adjacent(v, q, n);
      }
    }
  }

  /** The adjacency is symmetric: the matrix has an entry (j, i) whenever
      it has an entry (i, j). */
  lemma NeighboursSymmetric(v: Volume, r: nat, c: nat, s: nat, r2: nat, c2: nat, s2: nat)
    requires v.Valid() && InVol(v, r, c, s) && InVol(v, r2, c2, s2)
    requires Index(v, r2, c2, s2) in VoxelNb(v, Index(v, r, c, s))
    ensures Index(v, r, c, s) in VoxelNb(v, Index(v, r2, c2, s2))
  {
    VoxelNbAdjacent(v, r, c, s, r2, c2, s2);
    VoxelNbAdjacent(v, r2, c2, s2, r, c, s);
  }

  /** The weights stored in pr for the entries (i, j) and (j, i) are equal. */
  lemma StoredWeightsSymmetric(v: Volume, es: seq<Entry>, k: nat, l: nat)
    requires AllOk(v, es) && k < |es| && l < |es|
    requires es[k].row == es[l].col && es[k].col == es[l].row
    ensures Weights(v, es)[k] == Weights(v, es)[l]
  {
    RowsWeightsAt(v, es, k);
    RowsWeightsAt(v, es, l);
  }

  /** Entries in the order of compressed sparse columns: by column, and
      by strictly ascending row within a column. */
  predicate ColumnOrder(es: seq<Entry>) {
    forall k, l :: 0 <= k < l < |es| ==>
      es[k].col < es[l].col || (es[k].col == es[l].col && es[k].row < es[l].row)
  }

  lemma {:induction false} FlattenOrdered(ls: seq<seq<nat>>, n: nat)
    requires n <= |ls|
    requires forall i :: 0 <= i < |ls| ==> StrictlyAscending(ls[i])
    ensures forall k :: 0 <= k < |Flatten(ls, n)| ==> Flatten(ls, n)[k].col < n
    ensures ColumnOrder(Flatten(ls, n))
    decreases n
  {
    if n > 0 {
      FlattenOrdered(ls, n - 1);
      var a: seq<Entry>, b: seq<Entry> := Flatten(ls, n - 1), ToEntries(n - 1, ls[n - 1]);
      assert StrictlyAscending(ls[n - 1]);
      forall k, l | 0 <= k < l < |a + b|
        ensures (a + b)[k].col < (a + b)[l].col || ((a + b)[k].col == (a + b)[l].col && (a + b)[k].row < (a + b)[l].row)
      {
        if l < |a| {
          assert (a + b)[k] == a[k] && (a + b)[l] == a[l];
        } else if k < |a| {
          assert (a + b)[k] == a[k] && (a + b)[l] == b[l - |a|];
        } else {
          assert (a + b)[k] == b[k - |a|] && (a + b)[l] == b[l - |a|];
        }
      }
    }
  }

  /** The entries of the whole matrix come column by column, each column's
      rows strictly ascending, as the compressed sparse column format
      requires. */
  lemma EntriesInColumnOrder(v: Volume)
    requires v.Valid()
    ensures ColumnOrder(EntriesBefore(v, |v.im|))
  {
    var ls := VoxelLists(v);
    forall i | 0 <= i < |ls|
      ensures StrictlyAscending(ls[i])
    {
      NeighboursAscending(v, i);
    }
    FlattenOrdered(ls, |ls|);
  }

  // ---------------------------------------------------------------------
  // The remaining loops of the MEX function

  /** The number of voxels that are not Inf. */
  function NumFinite(im: seq<Intensity>): (k: nat)
    ensures k <= |im|
  {
    if im == [] then 0 else NumFinite(im[..|im| - 1]) + (if im[|im| - 1].Inf? then 0 else 1)
  }

  /** Only an image without Inf voxels has all of them finite, and only an
      image of Inf voxels has none. */
  lemma {:induction false} NumFiniteExtremes(im: seq<Intensity>)
    ensures NumFinite(im) == |im| <==> forall i :: 0 <= i < |im| ==> im[i].Fin?
    ensures NumFinite(im) == 0 <==> forall i :: 0 <= i < |im| ==> im[i].Inf?
    decreases |im|
  {
    if im != [] {
      var init := im[..|im| - 1];
      NumFiniteExtremes(init);
      assert forall i :: 0 <= i < |init| ==> init[i] == im[i];
    }
  }

  /** The nvox loop: counts the voxels that are not Inf. The source does
      not use the count afterwards. */
  method CountFinite(im: seq<Intensity>) returns (nvox: nat)
    ensures nvox == NumFinite(im)
  {
    nvox := 0;
    for idx := 0 to |im|
      invariant nvox == NumFinite(im[..idx])
    {
      assert im[..idx + 1][..idx] == im[..idx];
      if im[idx].Fin? {
        nvox := nvox + 1;
      }
    }
    assert im[..|im|] == im;
  }

  /** The prefix-sum loop jc[k] += jc[k-1] for k = 1 .. |jc|-1: afterwards
      jc[k] is the sum of the first k+1 original entries. */
  method CumulativeSum(jc: array<nat>)
    requires jc.Length > 0
    modifies jc
    ensures forall k :: 0 <= k < jc.Length ==> jc[k] == Prefix(old(jc[..]), k + 1)
  {
    ghost var xs := jc[..];
    for idx := 1 to jc.Length
      invariant forall k :: 0 <= k < idx ==> jc[k] == Prefix(xs, k + 1)
      invariant forall k :: idx <= k < jc.Length ==> jc[k] == xs[k]
    {
      jc[idx] := jc[idx] + jc[idx - 1];
    }
  }

  /** What the voxel loops leave behind, in the terms of IsAdjacencyMatrix:
      the entries of every voxel, and counts whose prefix sums are
      CountedBefore. */
  lemma ScanComplete(v: Volume, irs: seq<nat>, prs: seq<real>, jcs: seq<nat>, nedg: nat)
    requires v.Valid() && VoxelsDone(v, VoxelLists(v), |v.im|, irs, prs, jcs, nedg, nedg)
    ensures |irs| == 26 * |v.im| && |prs| == 26 * |v.im| && |jcs| == |v.im| + 1
    ensures nedg == |EntriesBefore(v, |v.im|)|
    ensures Written(v, irs, prs, EntriesBefore(v, |v.im|))
    ensures forall k :: 0 <= k <= |v.im| ==> Prefix(jcs, k + 1) == CountedBefore(v, k)
  {
    var ls, N := VoxelLists(v), |v.im|;
    assert jcs == jcs[..N + 1] == [0] + CountsOf(v, ls, N);
    forall k | 0 <= k <= N
      ensures Prefix(jcs, k + 1) == CountedBefore(v, k)
    {
      PrefixOfCounts(v, ls, N, k);
    }
  }

  /** Summing jc = [0] + counts up to k gives the counts of the first k
      lists. */
  lemma {:induction false} PrefixOfCounts(v: Volume, ls: seq<seq<nat>>, N: nat, k: nat)
    requires k <= N <= |ls|
    ensures Prefix([0] + CountsOf(v, ls, N), k + 1) == CountSum(v, ls, k)
    decreases k
  {
    if k > 0 {
      PrefixOfCounts(v, ls, N, k - 1);
      CountsOfAt(v, ls, N, k - 1);
    }
  }

  lemma {:induction false} CountsOfAt(v: Volume, ls: seq<seq<nat>>, N: nat, i: nat)
    requires i < N <= |ls|
    ensures CountsOf(v, ls, N)[i] == CountNonzero(v, ls[i])
    decreases N
  {
    if i < N - 1 {
      CountsOfAt(v, ls, N - 1, i);
    }
  }

  // ---------------------------------------------------------------------
  // The MEX function

  const NrhsError := "1 input argument required."
  const NlhsError := "Maximum of 1 output argument allowed."
  const NdimError := "Input argument has to be a 2D image or 3D image volume"
  const SizeError := "Image volume size must be at least (3, 3, 3)"
  const ClassError := "Input image array must be of type double"

  /** The number of elements of an array with the given dimensions. */
  function Numel(dims: seq<nat>): nat {
    if dims == [] then 1 else Mul(dims[|dims| - 1], Numel(dims[..|dims| - 1]))
  }

  /** A MATLAB array as the MEX function receives it: its dimensions
      (at least two), whether its class is double, and its elements in
      column-major order. */
  datatype MxArray = MxArray(dims: seq<nat>, isDouble: bool, data: seq<Intensity>) {
    predicate Valid() {
      |dims| >= 2 && |data| == Numel(dims)
    }
  }

  /** The argument checks of the MEX function and the image volume they
      accept. A 2-D image is given one slice, so it never passes the size
      check. */
  function CheckArgs(nlhs: nat, args: seq<MxArray>): (res: Result<Volume>)
    requires forall k :: 0 <= k < |args| ==> args[k].Valid()
    ensures res.Ok? <==>
              && |args| == 1 && nlhs <= 1 && |args[0].dims| == 3
              && args[0].dims[0] >= 3 && args[0].dims[1] >= 3 && args[0].dims[2] >= 3
              && args[0].isDouble
    ensures res.Ok? ==>
              res.value.Valid() && res.value == Volume(args[0].dims[0], args[0].dims[1], args[0].dims[2], args[0].data)
    ensures |args| != 1 ==> res == Err(NrhsError)
    ensures |args| == 1 && nlhs > 1 ==> res == Err(NlhsError)
    ensures |args| == 1 && nlhs <= 1 && |args[0].dims| !in {2, 3} ==> res == Err(NdimError)
    ensures |args| == 1 && nlhs <= 1 && |args[0].dims| == 2 ==> res == Err(SizeError)
    ensures (&& |args| == 1 && nlhs <= 1 && |args[0].dims| == 3
             && (args[0].dims[0] < 3 || args[0].dims[1] < 3 || args[0].dims[2] < 3))
            ==> res == Err(SizeError)
    ensures (&& |args| == 1 && nlhs <= 1 && |args[0].dims| == 3
             && args[0].dims[0] >= 3 && args[0].dims[1] >= 3 && args[0].dims[2] >= 3
             && !args[0].isDouble)
            ==> res == Err(ClassError)
  {
    if |args| != 1 then Err(NrhsError)
    else if nlhs > 1 then Err(NlhsError)
    else
      var a := args[0];
      if |a.dims| != 2 && |a.dims| != 3 then Err(NdimError)
      else
        var R, C, S := a.dims[0], a.dims[1], if |a.dims| == 2 then 1 else a.dims[2];
        if R < 3 || C < 3 || S < 3 then Err(SizeError)
        else if !a.isDouble then Err(ClassError)
        else
          assert |a.dims| == 3 && a.Valid();
          NumelOfVolume(a.dims);
          Ok(Volume(R, C, S, a.data))
  }

  lemma NumelOfVolume(dims: seq<nat>)
    requires |dims| == 3
    ensures Numel(dims) == Mul(dims[2], Mul(dims[1], dims[0]))
  {
    var d1, d2 := dims[..1], dims[..2];
    assert d2[..1] == d1 && d1[..0] == [];
    MulIsProduct(dims[0], 1);
    assert Numel(d1) == dims[0];
    assert Numel(d2) == Mul(dims[1], dims[0]);
  }

  /** The output: an n x n sparse matrix in compressed sparse column form,
      of nzmax entries. */
  datatype Sparse = Sparse(n: nat, ir: array<nat>, pr: array<real>, jc: array<nat>, nzmax: nat)

  /** The matrix built for volume v: row indices and means of all entries,
      voxel by voxel, in ir and pr; jc[k] the nonzero neighbours of the
      voxels before k; nzmax the number of entries. */
  ghost predicate IsAdjacencyMatrix(v: Volume, m: Sparse)
    requires v.Valid()
    reads m.ir, m.pr, m.jc
  {
    && m.n == |v.im|
    && m.ir.Length == 26 * |v.im| && m.pr.Length == 26 * |v.im| && m.jc.Length == |v.im| + 1
    && m.nzmax == |EntriesBefore(v, |v.im|)|
    && Written(v, m.ir[..], m.pr[..], EntriesBefore(v, |v.im|))
    && forall k :: 0 <= k <= |v.im| ==> m.jc[k] == CountedBefore(v, k)
  }

  /** The MEX function: A = im2imat(IM). */
  method Im2Imat(nlhs: nat, args: seq<MxArray>) returns (res: Result<Sparse>)
    requires forall k :: 0 <= k < |args| ==> args[k].Valid()
    ensures CheckArgs(nlhs, args).Err? ==> res == Err(CheckArgs(nlhs, args).msg)
    ensures CheckArgs(nlhs, args).Ok? ==>
              && res.Ok? && fresh(res.value.ir) && fresh(res.value.pr) && fresh(res.value.jc)
              && IsAdjacencyMatrix(CheckArgs(nlhs, args).value, res.value)
  {
    var checked := CheckArgs(nlhs, args);
    if checked.Err? {
      return Err(checked.msg);
    }
    var v := checked.value;
    var nvox := CountFinite(v.im);
    SizeIsProduct(v);
    var N := v.R * v.C * v.S;
    var ir := new nat[N * 26];
    var pr := new real[N * 26];
    var jc := new nat[N + 1];
    for idx := 0 to N + 1
      invariant forall k :: 0 <= k < idx ==> jc[k] == 0
    {
      jc[idx] := 0;
    }
    ghost var ls := VoxelLists(v);
    VoxelListsAre(v);
    assert VoxelsDone(v, ls, 0, ir[..], pr[..], jc[..], 0, 0);
    hide VoxelsDone;
    var nedg := ScanVolume(v, ls, ir, pr, jc);
    ScanComplete(v, ir[..], pr[..], jc[..], nedg);
    CumulativeSum(jc);
    res := Ok(Sparse(N, ir, pr, jc, nedg));
  }
}
