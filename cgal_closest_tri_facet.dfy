/** CgalClosestTriFacet: for each query point, the closest facet of a
    triangular mesh (1-based), the distance to it and the closest point on
    it. The AABB tree's closest_point_and_primitive query is an oracle here:
    `answers[i]` is what it returns for query row i. Whether building the
    distance accelerator succeeds is the input `accelerated`. */
module CgalClosestTriFacet {
  import opened MexErrors
  import opened Mesh

  /** One Point_and_primitive_id: the closest point on the surface and the
      0-based position of its triangle in the triangle vector. */
  datatype Nearest = Nearest(point: Point, prim: nat)

  /** Result of the MEX call apart from the three output buffers. */
  datatype Outcome = EmptyOutputs | Failed(msg: string) | Done

  const ColumnsError := "All input arguments must have 3 columns"
  const AccelerateError := "Not enough memory to accelerate distance queries"

  /** The square of one coordinate difference. */
  function Square(v: real): (s: real)
    ensures s >= 0.0
    ensures v == 0.0 ==> s == 0.0
  {
    v * v
  }

  /** The sum of squared coordinate differences, which the D output
      accumulates before taking its square root. */
  function SquaredDistance(a: Point, b: Point): (d: real)
    ensures d >= 0.0
    ensures a == b ==> d == 0.0
  {
    Square(a.x - b.x) + Square(a.y - b.y) + Square(a.z - b.z)
  }

  /** Position in the column-major n x 3 matrix P of coordinate k of row i. */
  function PSlot(n: nat, i: nat, k: nat): nat {
    i + k * n
  }

  /** The slots of P are a bijection between (row, coordinate) pairs and
      [0, 3n): distinct pairs never share a slot and every slot is used. */
  lemma PSlotsBijective(n: nat, i: nat, k: nat, i': nat, k': nat, j: nat)
    requires i < n && k < 3 && i' < n && k' < 3
    ensures PSlot(n, i, k) < 3 * n
    ensures PSlot(n, i, k) == PSlot(n, i', k') ==> i == i' && k == k'
    ensures j < 3 * n ==> exists r, c :: 0 <= r < n && 0 <= c < 3 && PSlot(n, r, c) == j
  {
    assert k * n == (if k == 0 then 0 else if k == 1 then n else 2 * n);
    if PSlot(n, i, k) == PSlot(n, i', k') {
      SlotSplit(n, i, k, i', k');
    }
    if j < 3 * n {
      if j < n {
        assert PSlot(n, j, 0) == j;
      } else if j < 2 * n {
        assert PSlot(n, j - n, 1) == j;
      } else {
        assert PSlot(n, j - 2 * n, 2) == j;
      }
    }
  }

  lemma SlotSplit(n: nat, i: nat, k: nat, i': nat, k': nat)
    requires i < n && k < 3 && i' < n && k' < 3
    requires i + k * n == i' + k' * n
    ensures i == i' && k == k'
  {
    assert k * n == (if k == 0 then 0 else if k == 1 then n else 2 * n);
    assert k' * n == (if k' == 0 then 0 else if k' == 1 then n else 2 * n);
  }

  /** The whole MEX function. An output buffer exists only when that output
      is requested; unrequested outputs stay null and are never written. */
  method ClosestTriFacet(TRI: Matrix<nat>, X: Matrix<real>, XI: Matrix<real>,
                         accelerated: bool, wantIdx: bool, wantD: bool, wantP: bool,
                         answers: seq<Nearest>)
    returns (outcome: Outcome, f: array?<real>, d: array?<real>, p: array?<real>)
    requires TRI.Valid() && X.Valid() && XI.Valid()
    requires !TRI.IsEmpty() && !X.IsEmpty() && !XI.IsEmpty()
             && TRI.cols == 3 && X.cols == 3 && XI.cols == 3 ==>
               && VertexIndicesValid(TRI, X)
               && |answers| == XI.rows
               && forall i :: 0 <= i < |answers| ==> answers[i].prim < TRI.rows
    ensures outcome == EmptyOutputs <==> TRI.IsEmpty() || X.IsEmpty() || XI.IsEmpty()
    ensures outcome == Failed(ColumnsError) <==>
              !TRI.IsEmpty() && !X.IsEmpty() && !XI.IsEmpty() && (TRI.cols != 3 || X.cols != 3 || XI.cols != 3)
    ensures outcome == Failed(AccelerateError) <==>
              !TRI.IsEmpty() && !X.IsEmpty() && !XI.IsEmpty() && TRI.cols == 3 && X.cols == 3 && XI.cols == 3
              && !accelerated
    ensures !outcome.Done? ==> f == null && d == null && p == null
    ensures outcome.Done? ==> XI.cols == 3 && |answers| == XI.rows
    ensures outcome.Done? ==> (f != null <==> wantIdx) && (d != null <==> wantD) && (p != null <==> wantP)
    ensures f != null ==>
              && fresh(f) && f.Length == XI.rows
              && forall i :: 0 <= i < XI.rows ==> f[i] == (answers[i].prim + 1) as real
    ensures d != null ==>
              && fresh(d) && d.Length == XI.rows
              && forall i :: 0 <= i < XI.rows ==> d[i] == SquaredDistance(answers[i].point, RowPoint(XI, i))
    // p holds the closest points as a column-major n x 3 matrix: slot
    // PSlot(n, i, k) holds coordinate k of row i (see PSlotsBijective)
    ensures p != null ==>
              && fresh(p) && p.Length == 3 * XI.rows
              && forall i :: 0 <= i < XI.rows ==>
                   && p[i] == answers[i].point.x
                   && p[i + XI.rows] == answers[i].point.y
                   && p[i + 2 * XI.rows] == answers[i].point.z
  {
    f, d, p := null, null, null;
    if TRI.IsEmpty() || X.IsEmpty() || XI.IsEmpty() {
      outcome := EmptyOutputs;
      return;
    }
    if TRI.cols != 3 || X.cols != 3 || XI.cols != 3 {
      outcome := Failed(ColumnsError);
      return;
    }

    // the tree is built over these triangles; its answers are the oracle
    var triangles := BuildTriangles(TRI, X);
    if !accelerated {
      outcome := Failed(AccelerateError);
      return;
    }

    var n := XI.rows;
    if wantIdx { f := new real[n]; }
    if wantD { d := new real[n]; }
    if wantP { p := new real[3 * n]; }
    FillOutputs(XI, answers, f, d, p);
    outcome := Done;
  }

  /** The query loop: row i of every requested output is filled from the
      closest-point answer for query row i. */
  method FillOutputs(XI: Matrix<real>, answers: seq<Nearest>, f: array?<real>, d: array?<real>, p: array?<real>)
    requires XI.Valid() && XI.cols == 3 && |answers| == XI.rows
    requires f != null ==> f.Length == XI.rows
    requires d != null ==> d.Length == XI.rows
    requires p != null ==> p.Length == 3 * XI.rows
    requires f != null && d != null ==> f != d
    requires f != null && p != null ==> f != p
    requires d != null && p != null ==> d != p
    modifies f, d, p
    ensures f != null ==> forall i :: 0 <= i < XI.rows ==> f[i] == (answers[i].prim + 1) as real
    ensures d != null ==> forall i :: 0 <= i < XI.rows ==> d[i] == SquaredDistance(answers[i].point, RowPoint(XI, i))
    ensures p != null ==> forall i :: 0 <= i < XI.rows ==>
              && p[i] == answers[i].point.x
              && p[i + XI.rows] == answers[i].point.y
              && p[i + 2 * XI.rows] == answers[i].point.z
  {
    hide Square;
    var n := XI.rows;
    for i := 0 to n
      invariant f != null ==> forall k :: 0 <= k < i ==> f[k] == (answers[k].prim + 1) as real
      invariant d != null ==> forall k :: 0 <= k < i ==> d[k] == SquaredDistance(answers[k].point, RowPoint(XI, k))
      invariant p != null ==> forall k :: 0 <= k < i ==> p[k] == answers[k].point.x
      invariant p != null ==> forall k :: n <= k < n + i ==> p[k] == answers[k - n].point.y
      invariant p != null ==> forall k :: 2 * n <= k < 2 * n + i ==> p[k] == answers[k - 2 * n].point.z
    {
      FillRow(XI, answers, i, f, d, p);
    }
  }

  /** The body of the query loop: row i of each requested output, and
      nothing else, is written. */
  method FillRow(XI: Matrix<real>, answers: seq<Nearest>, i: nat, f: array?<real>, d: array?<real>, p: array?<real>)
    requires XI.Valid() && XI.cols == 3 && |answers| == XI.rows && i < XI.rows
    requires f != null ==> f.Length == XI.rows
    requires d != null ==> d.Length == XI.rows
    requires p != null ==> p.Length == 3 * XI.rows
    requires f != null && d != null ==> f != d
    requires f != null && p != null ==> f != p
    requires d != null && p != null ==> d != p
    modifies f, d, p
    ensures f != null ==> f[i] == (answers[i].prim + 1) as real
    ensures f != null ==> forall k :: 0 <= k < f.Length && k != i ==> f[k] == old(f[k])
    ensures d != null ==> d[i] == SquaredDistance(answers[i].point, RowPoint(XI, i))
    ensures d != null ==> forall k :: 0 <= k < d.Length && k != i ==> d[k] == old(d[k])
    ensures p != null ==>
              && p[i] == answers[i].point.x
              && p[i + XI.rows] == answers[i].point.y
              && p[i + 2 * XI.rows] == answers[i].point.z
    ensures p != null ==> forall k :: 0 <= k < p.Length && k != i && k != i + XI.rows && k != i + 2 * XI.rows ==>
              p[k] == old(p[k])
  {
    var n := XI.rows;
    var xi := RowPoint(XI, i);
    var pp := answers[i];
    if f != null {
      f[i] := (pp.prim + 1) as real;
    }
    if d != null {
      d[i] := 0.0;
      d[i] := d[i] + Square(pp.point.x - xi.x);
      d[i] := d[i] + Square(pp.point.y - xi.y);
      d[i] := d[i] + Square(pp.point.z - xi.z);
    }
    if p != null {
      p[i] := pp.point.x;
      p[i + n] := pp.point.y;
      p[i + 2 * n] := pp.point.z;
    }
  }
}
