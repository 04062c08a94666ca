/** The mesh input shared by CgalCheckSelfIntersect and CgalClosestTriFacet:
    a Matlab matrix TRI of 1-based vertex indices, a matrix X of vertex
    coordinates, and the vector of triangles both functions build from them
    before handing it to the AABB tree. Coordinates are exact reals. */
module Mesh {

  datatype Point = Point(x: real, y: real, z: real)

  datatype Triangle = Triangle(v0: Point, v1: Point, v2: Point)

  /** A 2-D Matlab array, stored here row by row. */
  datatype Matrix<T> = Matrix(rows: nat, cols: nat, entries: seq<seq<T>>) {
    predicate Valid() {
      |entries| == rows && forall i :: 0 <= i < rows ==> |entries[i]| == cols
    }

    /** mxIsEmpty: some dimension is zero. */
    predicate IsEmpty() {
      rows == 0 || cols == 0
    }
  }

  /** Row i of a 3-column coordinate matrix, read as a point. */
  function RowPoint(X: Matrix<real>, i: nat): Point
    requires X.Valid() && X.cols == 3 && i < X.rows
  {
    Point(X.entries[i][0], X.entries[i][1], X.entries[i][2])
  }

  /** Every entry of the 3-column TRI names a row of X, 1-based. The MEX
      functions do not check this themselves. */
  predicate VertexIndicesValid(TRI: Matrix<nat>, X: Matrix<real>)
    requires TRI.Valid()
  {
    forall i, j :: 0 <= i < TRI.rows && 0 <= j < TRI.cols ==> 1 <= TRI.entries[i][j] <= X.rows
  }

  /** The triangle vector the MEX functions hand to the AABB tree. */
  function MeshTriangles(TRI: Matrix<nat>, X: Matrix<real>): (ts: seq<Triangle>)
    requires TRI.Valid() && X.Valid() && TRI.cols == 3 && X.cols == 3
    requires VertexIndicesValid(TRI, X)
    ensures |ts| == TRI.rows
  {
    seq(TRI.rows, i requires 0 <= i < TRI.rows =>
      Triangle(RowPoint(X, TRI.entries[i][0] - 1),
               RowPoint(X, TRI.entries[i][1] - 1),
               RowPoint(X, TRI.entries[i][2] - 1)))
  }

  /** Assemble triangle i from rows TRI(i,0)-1, TRI(i,1)-1, TRI(i,2)-1 of X,
      converting Matlab's 1-based indices to 0-based ones. */
  method BuildTriangles(TRI: Matrix<nat>, X: Matrix<real>) returns (triangles: seq<Triangle>)
    requires TRI.Valid() && X.Valid() && TRI.cols == 3 && X.cols == 3
    requires VertexIndicesValid(TRI, X)
    ensures |triangles| == TRI.rows
    ensures forall i :: 0 <= i < TRI.rows ==>
              triangles[i] == Triangle(RowPoint(X, TRI.entries[i][0] - 1),
                                       RowPoint(X, TRI.entries[i][1] - 1),
                                       RowPoint(X, TRI.entries[i][2] - 1))
    ensures triangles == MeshTriangles(TRI, X)
  {
    var buffer := new Triangle[TRI.rows];
    for i := 0 to TRI.rows
      invariant forall k :: 0 <= k < i ==>
                  buffer[k] == Triangle(RowPoint(X, TRI.entries[k][0] - 1),
                                        RowPoint(X, TRI.entries[k][1] - 1),
                                        RowPoint(X, TRI.entries[k][2] - 1))
    {
      var v0, v1, v2 := TRI.entries[i][0], TRI.entries[i][1], TRI.entries[i][2];
      buffer[i] := Triangle(RowPoint(X, v0 - 1), RowPoint(X, v1 - 1), RowPoint(X, v2 - 1));
    }
    triangles := buffer[..];
  }
}
