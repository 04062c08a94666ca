/** CgalCheckSelfIntersect: for each queried triangle of a mesh, count how
    many intersection records the AABB tree reports that are not merely the
    triangle's own self-match or a shared edge or vertex with a neighbour.

    The AABB tree and its all_intersections query are an oracle here: `hits[t]`
    is the list of (object, primitive index) pairs the tree returns for
    triangle t, in the order it returns them. */
module CgalCheckSelfIntersect {
  import opened MexErrors
  import opened Mesh

  /** The kinds of object in one intersection record: the three the MEX
      function extracts with CGAL::assign, and a polygon (the overlap of
      two coplanar triangles), which none of its branches extracts. */
  datatype Obj = Pt(p: Point) | Seg(a: Point, b: Point) | Tri(t: Triangle) | Poly(vs: seq<Point>)

  /** One Object_and_primitive_id: the intersection object and the 0-based
      position in the triangle vector of the primitive it was found with. */
  datatype Hit = Hit(obj: Obj, prim: nat)

  /** Result of the MEX call apart from the count buffer. */
  datatype Outcome = EmptyOutput | Failed(msg: string) | Counted

  const ColumnsError := "All input arguments must have 3 columns"

  predicate IsDegenerate(t: Triangle) {
    t.v0 == t.v1 || t.v0 == t.v2 || t.v1 == t.v2
  }

  function Vertices(t: Triangle): set<Point> {
    {t.v0, t.v1, t.v2}
  }

  /** The vertices two triangles have in common, by exact coordinate equality. */
  function CommonVertices(t: Triangle, u: Triangle): set<Point> {
    Vertices(t) * Vertices(u)
  }

  /** Every primitive index names a triangle of the mesh. */
  predicate HitsWellFormed(hits: seq<seq<Hit>>, ntri: nat) {
    forall t, j :: 0 <= t < |hits| && 0 <= j < |hits[t]| ==> hits[t][j].prim < ntri
  }

  predicate RecordsWellFormed(hs: seq<Hit>, ntri: nat) {
    forall j :: 0 <= j < |hs| ==> hs[j].prim < ntri
  }

  /** Every query is a 1-based triangle index. The MEX function does not
      check this itself. */
  predicate QueriesValid(itri: seq<nat>, ntri: nat) {
    forall k :: 0 <= k < |itri| ==> 1 <= itri[k] <= ntri
  }

  /** How much one record adds to the current triangle's count: a triangle
      always adds 1; a segment adds nothing when both of its end points are
      vertices of both triangles (a shared edge); a point adds nothing when
      it is a vertex of both triangles (a shared vertex). */
  function Increment(cur: Triangle, other: Triangle, obj: Obj): (inc: nat)
    ensures inc <= 1
    ensures obj.Tri? ==> inc == 1
    ensures obj.Seg? ==> (inc == 0 <==> {obj.a, obj.b} <= CommonVertices(cur, other))
    ensures obj.Pt? ==> (inc == 0 <==> obj.p in CommonVertices(cur, other))
    ensures obj.Poly? ==> inc == 0
  {
    match obj
    case Tri(_) => 1
    case Seg(pa, pb) =>
      if (pa == cur.v0 || pa == cur.v1 || pa == cur.v2)
         && (pb == cur.v0 || pb == cur.v1 || pb == cur.v2)
         && (pa == other.v0 || pa == other.v1 || pa == other.v2)
         && (pb == other.v0 || pb == other.v1 || pb == other.v2)
      then 0 else 1
    case Pt(point) =>
      if (point == cur.v0 || point == cur.v1 || point == cur.v2)
         && (point == other.v0 || point == other.v1 || point == other.v2)
      then 0 else 1
    case Poly(_) => 0
  }

  /** The total the inner loop adds for the records `hs` of triangle `cur`. */
  function CountedRecords(triangles: seq<Triangle>, cur: Triangle, hs: seq<Hit>): (total: nat)
    requires RecordsWellFormed(hs, |triangles|)
    ensures total <= |hs|
  {
    if hs == [] then 0
    else
      var last := hs[|hs| - 1];
      CountedRecords(triangles, cur, hs[..|hs| - 1]) + Increment(cur, triangles[last.prim], last.obj)
  }

  /** The change the outer loop makes to slot idx for one query of triangle
      idx: +1 for a degenerate triangle, which is never queried; otherwise
      the counted records minus the guaranteed self-match. */
  function Delta(triangles: seq<Triangle>, hits: seq<seq<Hit>>, idx: nat): (d: int)
    requires idx < |triangles| == |hits| && HitsWellFormed(hits, |triangles|)
    ensures -1 <= d
    ensures d <= if IsDegenerate(triangles[idx]) then 1 else |hits[idx]| - 1
  {
    if IsDegenerate(triangles[idx]) then 1
    else CountedRecords(triangles, triangles[idx], hits[idx]) - 1
  }

  /** The count buffer after processing the queries `itri` in order,
      starting from contents n0. */
  function Accumulate(n0: seq<int>, triangles: seq<Triangle>, hits: seq<seq<Hit>>, itri: seq<nat>): (n: seq<int>)
    requires |n0| == |triangles| == |hits|
    requires HitsWellFormed(hits, |triangles|) && QueriesValid(itri, |triangles|)
    ensures |n| == |n0|
  {
    if itri == [] then n0
    else
      var idx := itri[|itri| - 1] - 1;
      Bump(Accumulate(n0, triangles, hits, itri[..|itri| - 1]), idx, Delta(triangles, hits, idx))
  }

  /** The buffer n with slot idx raised by d. */
  function Bump(n: seq<int>, idx: nat, d: int): (r: seq<int>)
    requires idx < |n|
    ensures |r| == |n| && r[idx] == n[idx] + d
    ensures forall i :: 0 <= i < |n| && i != idx ==> r[i] == n[i]
  {
    n[idx := n[idx] + d]
  }

  /** The default ITRI: 1, 2, ..., ntri. */
  function DefaultQueries(ntri: nat): (q: seq<nat>)
    ensures |q| == ntri
  {
    seq(ntri, i => i + 1)
  }

  // ---------------------------------------------------------------------
  // Per-kind counts, an independent reading of the classification

  /** Records that are a shared edge or a shared vertex of the two triangles. */
  predicate IsArtifact(triangles: seq<Triangle>, cur: Triangle, h: Hit)
    requires h.prim < |triangles|
  {
    match h.obj
    case Tri(_) => false
    case Seg(a, b) => a in CommonVertices(cur, triangles[h.prim]) && b in CommonVertices(cur, triangles[h.prim])
    case Pt(p) => p in CommonVertices(cur, triangles[h.prim])
    case Poly(_) => false
  }

  function NumTri(hs: seq<Hit>): nat {
    if hs == [] then 0
    else NumTri(hs[..|hs| - 1]) + (if hs[|hs| - 1].obj.Tri? then 1 else 0)
  }

  function NumGenuineSeg(triangles: seq<Triangle>, cur: Triangle, hs: seq<Hit>): nat
    requires RecordsWellFormed(hs, |triangles|)
  {
    if hs == [] then 0
    else
      var h := hs[|hs| - 1];
      NumGenuineSeg(triangles, cur, hs[..|hs| - 1]) + (if h.obj.Seg? && !IsArtifact(triangles, cur, h) then 1 else 0)
  }

  function NumGenuinePt(triangles: seq<Triangle>, cur: Triangle, hs: seq<Hit>): nat
    requires RecordsWellFormed(hs, |triangles|)
  {
    if hs == [] then 0
    else
      var h := hs[|hs| - 1];
      NumGenuinePt(triangles, cur, hs[..|hs| - 1]) + (if h.obj.Pt? && !IsArtifact(triangles, cur, h) then 1 else 0)
  }

  /** The inner loop adds one per triangle record, one per segment that is
      not a shared edge and one per point that is not a shared vertex. */
  lemma {:induction false} CountedRecordsByKind(triangles: seq<Triangle>, cur: Triangle, hs: seq<Hit>)
    requires RecordsWellFormed(hs, |triangles|)
    ensures CountedRecords(triangles, cur, hs)
            == NumTri(hs) + NumGenuineSeg(triangles, cur, hs) + NumGenuinePt(triangles, cur, hs)
  {
    if hs != [] {
      CountedRecordsByKind(triangles, cur, hs[..|hs| - 1]);
    }
  }

  lemma {:induction false} CountedRecordsAppend(triangles: seq<Triangle>, cur: Triangle, a: seq<Hit>, b: seq<Hit>)
    requires RecordsWellFormed(a, |triangles|) && RecordsWellFormed(b, |triangles|)
    ensures RecordsWellFormed(a + b, |triangles|)
    ensures CountedRecords(triangles, cur, a + b) == CountedRecords(triangles, cur, a) + CountedRecords(triangles, cur, b)
  {
    if b != [] {
      var b' := b[..|b| - 1];
      assert (a + b)[..|a + b| - 1] == a + b';
      assert (a + b)[|a + b| - 1] == b[|b| - 1];
      CountedRecordsAppend(triangles, cur, a, b');
    } else {
      assert a + b == a;
    }
  }

  /** A polygon record, such as the overlap of two coplanar triangles,
      leaves the count unchanged wherever it appears among the records. */
  lemma PolygonCountsNothing(triangles: seq<Triangle>, cur: Triangle, a: seq<Hit>, h: Hit, b: seq<Hit>)
    requires RecordsWellFormed(a, |triangles|) && RecordsWellFormed(b, |triangles|)
    requires h.prim < |triangles| && h.obj.Poly?
    ensures RecordsWellFormed(a + [h] + b, |triangles|)
    ensures CountedRecords(triangles, cur, a + [h] + b) == CountedRecords(triangles, cur, a + b)
  {
    assert CountedRecords(triangles, cur, [h]) == 0 by {
      assert [h][..0] == [];
    }
    CountedRecordsAppend(triangles, cur, a, [h]);
    CountedRecordsAppend(triangles, cur, a + [h], b);
    CountedRecordsAppend(triangles, cur, a, b);
  }

  lemma {:induction false} ArtifactsCountNothing(triangles: seq<Triangle>, cur: Triangle, hs: seq<Hit>)
    requires RecordsWellFormed(hs, |triangles|)
    requires forall j :: 0 <= j < |hs| ==> IsArtifact(triangles, cur, hs[j])
    ensures CountedRecords(triangles, cur, hs) == 0
  {
    if hs != [] {
      ArtifactsCountNothing(triangles, cur, hs[..|hs| - 1]);
    }
  }

  /** A non-degenerate triangle whose records are its self-match plus only
      shared edges and shared vertices ends with a change of 0. In particular
      a mesh of one triangle whose only record is its self-match gives 0. */
  lemma OnlyArtifactsGiveZero(triangles: seq<Triangle>, hits: seq<seq<Hit>>, idx: nat,
                              before: seq<Hit>, self: Hit, after: seq<Hit>)
    requires idx < |triangles| == |hits| && HitsWellFormed(hits, |triangles|)
    requires !IsDegenerate(triangles[idx])
    requires hits[idx] == before + [self] + after && self.obj.Tri?
    requires forall j :: 0 <= j < |before| ==> before[j].prim < |triangles| && IsArtifact(triangles, triangles[idx], before[j])
    requires forall j :: 0 <= j < |after| ==> after[j].prim < |triangles| && IsArtifact(triangles, triangles[idx], after[j])
    ensures Delta(triangles, hits, idx) == 0
  {
    var cur := triangles[idx];
    assert self == hits[idx][|before|];
    ArtifactsCountNothing(triangles, cur, before);
    ArtifactsCountNothing(triangles, cur, after);
    CountedRecordsAppend(triangles, cur, before, [self]);
    CountedRecordsAppend(triangles, cur, before + [self], after);
    assert CountedRecords(triangles, cur, [self]) == 1 by {
      assert [self][..0] == [];
    }
  }

  // ---------------------------------------------------------------------
  // Properties of the count buffer

  /** Slot t ends with its initial value plus Delta(t) once for every time
      t+1 appears in ITRI: a slot never queried is never written, and a
      repeated query accumulates again with no reset. */
  lemma {:induction false} AccumulateAt(n0: seq<int>, triangles: seq<Triangle>, hits: seq<seq<Hit>>, itri: seq<nat>, t: nat)
    requires |n0| == |triangles| == |hits|
    requires HitsWellFormed(hits, |triangles|) && QueriesValid(itri, |triangles|)
    requires t < |n0|
    ensures Accumulate(n0, triangles, hits, itri)[t] == n0[t] + multiset(itri)[t + 1] * Delta(triangles, hits, t)
  {
    if itri != [] {
      var init := itri[..|itri| - 1];
      var last := itri[|itri| - 1];
      var key: nat := t + 1;
      AccumulateAt(n0, triangles, hits, init, t);
      var n := Accumulate(n0, triangles, hits, init);
      var d := Delta(triangles, hits, t);
      MultiplicitySnoc(init, last, key);
      assert itri == init + [last];
      var ms: multiset<nat> := multiset(init);
      if last == key {
        assert Accumulate(n0, triangles, hits, itri)[t] == n[t] + d;
        MulSucc(ms[key], d);
      } else {
        assert Accumulate(n0, triangles, hits, itri)[t] == n[t];
      }
    }
  }

  lemma MulSucc(m: nat, d: int)
    ensures (m + 1) * d == m * d + d
  {
  }

  lemma MultiplicitySnoc(s: seq<nat>, x: nat, key: nat)
    ensures multiset(s + [x])[key] == multiset(s)[key] + (if x == key then 1 else 0)
  {
    assert multiset(s + [x]) == multiset(s) + multiset{x};
  }

  /** The buffer depends only on how often each triangle is queried, so
      permuting ITRI leaves the output unchanged. */
  lemma AccumulateOrderIndependent(n0: seq<int>, triangles: seq<Triangle>, hits: seq<seq<Hit>>, a: seq<nat>, b: seq<nat>)
    requires |n0| == |triangles| == |hits|
    requires HitsWellFormed(hits, |triangles|) && QueriesValid(a, |triangles|) && QueriesValid(b, |triangles|)
    requires multiset(a) == multiset(b)
    ensures Accumulate(n0, triangles, hits, a) == Accumulate(n0, triangles, hits, b)
  {
    forall t | 0 <= t < |n0|
      ensures Accumulate(n0, triangles, hits, a)[t] == Accumulate(n0, triangles, hits, b)[t]
    {
      AccumulateAt(n0, triangles, hits, a, t);
      AccumulateAt(n0, triangles, hits, b, t);
    }
  }

  lemma {:induction false} DefaultQueriesOnce(ntri: nat, t: nat)
    ensures multiset(DefaultQueries(ntri))[t + 1] == if t < ntri then 1 else 0
  {
    if ntri > 0 {
      DefaultQueriesOnce(ntri - 1, t);
      assert DefaultQueries(ntri) == DefaultQueries(ntri - 1) + [ntri];
    }
  }

  /** With ITRI omitted and a zeroed buffer, every slot holds its own
      triangle's change: 1 for a degenerate triangle whatever the rest of
      the mesh, and counted records minus one otherwise. */
  lemma DefaultQueriesFromZero(triangles: seq<Triangle>, hits: seq<seq<Hit>>, t: nat)
    requires |triangles| == |hits| && HitsWellFormed(hits, |triangles|)
    requires t < |triangles|
    ensures QueriesValid(DefaultQueries(|triangles|), |triangles|)
    ensures var n := Accumulate(seq(|triangles|, _ => 0), triangles, hits, DefaultQueries(|triangles|));
            && n[t] == Delta(triangles, hits, t)
            && (IsDegenerate(triangles[t]) ==> n[t] == 1)
  {
    DefaultQueriesOnce(|triangles|, t);
    AccumulateAt(seq(|triangles|, _ => 0), triangles, hits, DefaultQueries(|triangles|), t);
  }

  // ---------------------------------------------------------------------
  // The MEX function

  /** Fill the default query list 1..nrowsTri. */
  method DefaultQueryList(nrowsTri: nat) returns (itriDef: seq<nat>)
    ensures |itriDef| == nrowsTri
    ensures forall i :: 0 <= i < nrowsTri ==> itriDef[i] == i + 1
  {
    var buffer := new nat[nrowsTri];
    for i := 0 to nrowsTri
      invariant forall k :: 0 <= k < i ==> buffer[k] == k + 1
    {
      buffer[i] := i + 1;
    }
    itriDef := buffer[..];
  }

  /** One more query updates the slot it names by that triangle's change. */
  lemma AccumulateSnoc(n0: seq<int>, triangles: seq<Triangle>, hits: seq<seq<Hit>>, itri: seq<nat>, k: nat)
    requires |n0| == |triangles| == |hits|
    requires HitsWellFormed(hits, |triangles|) && QueriesValid(itri, |triangles|)
    requires k < |itri|
    ensures Accumulate(n0, triangles, hits, itri[..k + 1])
              == Bump(Accumulate(n0, triangles, hits, itri[..k]), itri[k] - 1, Delta(triangles, hits, itri[k] - 1))
  {
    var p := itri[..k + 1];
    assert p[..|p| - 1] == itri[..k];
    AccumulateLast(n0, triangles, hits, p);
  }

  lemma AccumulateLast(n0: seq<int>, triangles: seq<Triangle>, hits: seq<seq<Hit>>, p: seq<nat>)
    requires |n0| == |triangles| == |hits|
    requires HitsWellFormed(hits, |triangles|) && QueriesValid(p, |triangles|)
    requires p != []
    ensures Accumulate(n0, triangles, hits, p)
              == Bump(Accumulate(n0, triangles, hits, p[..|p| - 1]), p[|p| - 1] - 1, Delta(triangles, hits, p[|p| - 1] - 1))
  {
  }

  /** One more record adds its increment to the inner loop's total. */
  lemma CountedRecordsSnoc(triangles: seq<Triangle>, cur: Triangle, hs: seq<Hit>, j: nat)
    requires RecordsWellFormed(hs, |triangles|) && j < |hs|
    ensures CountedRecords(triangles, cur, hs[..j + 1])
              == CountedRecords(triangles, cur, hs[..j]) + Increment(cur, triangles[hs[j].prim], hs[j].obj)
  {
    assert hs[..j + 1][..j] == hs[..j];
  }

  /** The query loop: for each entry of ITRI, update slot ITRI[k]-1 of the
      count buffer in place. */
  method CountIntersections(triangles: seq<Triangle>, hits: seq<seq<Hit>>, itri: seq<nat>, n: array<int>)
    requires n.Length == |triangles| == |hits|
    requires HitsWellFormed(hits, |triangles|) && QueriesValid(itri, |triangles|)
    modifies n
    ensures n[..] == Accumulate(old(n[..]), triangles, hits, itri)
  {
    assert n[..] == Accumulate(old(n[..]), triangles, hits, itri[..0]);
    hide Accumulate, CountedRecords;
    for k := 0 to |itri|
      invariant n[..] == Accumulate(old(n[..]), triangles, hits, itri[..k])
    {
      AccumulateSnoc(old(n[..]), triangles, hits, itri, k);
      // triangle index, converting Matlab's 1-based convention to 0-based
      var idx := itri[k] - 1;
      var cur := triangles[idx];
      ghost var before := n[..];

      // a degenerate triangle counts one intersection and is not queried
      if cur.v0 == cur.v1 || cur.v0 == cur.v2 || cur.v1 == cur.v2 {
        n[idx] := n[idx] + 1;
        assert n[..] == Bump(before, idx, Delta(triangles, hits, idx));
        continue;
      }

      CountRecords(triangles, hits, idx, n);

      // discount the triangle's intersection with itself
      n[idx] := n[idx] - 1;
      assert n[..] == Bump(before, idx, Delta(triangles, hits, idx));
    }
    assert itri[..|itri|] == itri;
  }

  /** The inner loop over the records of triangle idx: slot idx gains one
      for each record that is not a shared edge or vertex. */
  method CountRecords(triangles: seq<Triangle>, hits: seq<seq<Hit>>, idx: nat, n: array<int>)
    requires idx < n.Length == |triangles| == |hits|
    requires HitsWellFormed(hits, |triangles|)
    modifies n
    ensures n[idx] == old(n[idx]) + CountedRecords(triangles, triangles[idx], hits[idx])
    ensures forall i :: 0 <= i < n.Length && i != idx ==> n[i] == old(n[i])
  {
    hide CountedRecords;
    var cur := triangles[idx];
    var intersections := hits[idx];
    for j := 0 to |intersections|
      invariant n[idx] == old(n[idx]) + CountedRecords(triangles, cur, intersections[..j])
      invariant forall i :: 0 <= i < n.Length && i != idx ==> n[i] == old(n[i])
    {
      CountedRecordsSnoc(triangles, cur, intersections, j);
      var op := intersections[j];
      match op.obj {
        case Tri(_) =>
          n[idx] := n[idx] + 1;
        case Seg(pa, pb) =>
          var other := triangles[op.prim];
          if (pa == cur.v0 || pa == cur.v1 || pa == cur.v2)
             && (pb == cur.v0 || pb == cur.v1 || pb == cur.v2)
             && (pa == other.v0 || pa == other.v1 || pa == other.v2)
             && (pb == other.v0 || pb == other.v1 || pb == other.v2) {
            // an edge shared with a neighbour
          } else {
            n[idx] := n[idx] + 1;
          }
        case Pt(point) =>
          var other := triangles[op.prim];
          if (point == cur.v0 || point == cur.v1 || point == cur.v2)
             && (point == other.v0 || point == other.v1 || point == other.v2) {
            // a vertex shared with a neighbour
          } else {
            n[idx] := n[idx] + 1;
          }
        case Poly(_) =>
          // no branch extracts a polygon, so it is not counted
      }
    }
    assert intersections[..|intersections|] == intersections;
  }

  /** The whole MEX function. The output buffer comes from the export filter
      with contents this model does not assume; `c0` names them. */
  method CheckSelfIntersect(TRI: Matrix<nat>, X: Matrix<real>, ITRI: Option<seq<nat>>, hits: seq<seq<Hit>>)
    returns (outcome: Outcome, c: array<int>, ghost c0: seq<int>)
    requires TRI.Valid() && X.Valid()
    requires !TRI.IsEmpty() && !X.IsEmpty() && TRI.cols == 3 && X.cols == 3 ==>
               && VertexIndicesValid(TRI, X)
               && |hits| == TRI.rows && HitsWellFormed(hits, TRI.rows)
               && (ITRI.Some? ==> QueriesValid(ITRI.value, TRI.rows))
    ensures outcome == EmptyOutput <==> TRI.IsEmpty() || X.IsEmpty()
    ensures outcome.Failed? <==> !TRI.IsEmpty() && !X.IsEmpty() && (TRI.cols != 3 || X.cols != 3)
    ensures outcome.Failed? ==> outcome.msg == ColumnsError
    ensures outcome.Counted? ==>
              && TRI.cols == 3 && X.cols == 3 && |hits| == TRI.rows
              && fresh(c) && c.Length == TRI.rows && |c0| == TRI.rows
              && c[..] == Accumulate(c0, MeshTriangles(TRI, X), hits, ITRI.GetOr(DefaultQueries(TRI.rows)))
  {
    if TRI.IsEmpty() || X.IsEmpty() {
      outcome, c, c0 := EmptyOutput, new int[0], [];
      return;
    }
    if TRI.cols != 3 || X.cols != 3 {
      outcome, c, c0 := Failed(ColumnsError), new int[0], [];
      return;
    }
    var itriDef := DefaultQueryList(TRI.rows);
    assert itriDef == DefaultQueries(TRI.rows);
    var itri := ITRI.GetOr(itriDef);
    var triangles := BuildTriangles(TRI, X);
    c := new int[TRI.rows];
    c0 := c[..];
    CountIntersections(triangles, hits, itri, c);
    outcome := Counted;
  }
}
