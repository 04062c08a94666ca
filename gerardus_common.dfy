/** Conversion between (row, column, slice) subscripts and 0-based linear
    indices of an R x C x S volume stored column-major, as Matlab's
    sub2ind/ind2sub do with 1-based indices. */
module GerardusCommon {
  import opened MexErrors

  /** itk::Offset<3>: signed subscripts (row, column, slice). */
  datatype Offset3 = Offset3(r: int, c: int, s: int) {
    function Plus(o: Offset3): Offset3 {
      Offset3(r + o.r, c + o.c, s + o.s)
    }
  }

  const Sub2IndRangeError := "sub2ind: Out of range index"
  const Sub2IndSizeError := "sub2ind: Size values cannot be 0 or negative"
  const Ind2SubRangeError := "ind2sub: Out of range index"
  const Ind2SubSizeError := "ind2sub: Size values cannot be 0 or negative"

  /** The column-major linear index r + c*R + s*R*C, without checks. */
  function Linear(R: nat, C: nat, r: nat, c: nat, s: nat): nat {
    r + c * R + s * R * C
  }

  predicate InVolume(R: nat, C: nat, S: nat, r: int, c: int, s: int) {
    0 <= r < R && 0 <= c < C && 0 <= s < S
  }

  /** sub2ind with itk::Offset<3> subscripts. A negative component is cast
      to an unsigned mwSize, which makes it larger than any dimension, so it
      is reported as out of range. The size check comes second. */
  function Sub2IndOffset(R: nat, C: nat, S: nat, rcs: Offset3): (idx: Result<nat>)
    ensures idx.Ok? <==> InVolume(R, C, S, rcs.r, rcs.c, rcs.s)
    ensures idx.Err? ==> idx.msg == Sub2IndRangeError
    ensures idx.Ok? ==> idx.value < R * C * S
  {
    if rcs.r < 0 || rcs.r >= R || rcs.c < 0 || rcs.c >= C || rcs.s < 0 || rcs.s >= S then
      Err(Sub2IndRangeError)
    else if R * C * S == 0 then
      Err(Sub2IndSizeError)
    else
      LinearBound(R, C, S, rcs.r, rcs.c, rcs.s);
      Ok(Linear(R, C, rcs.r, rcs.c, rcs.s))
  }

  /** sub2ind with unsigned scalar subscripts. */
  function Sub2Ind(R: nat, C: nat, S: nat, r: nat, c: nat, s: nat): (idx: Result<nat>)
    ensures idx.Ok? <==> (r < R && c < C && s < S)
    ensures idx.Err? ==> idx.msg == Sub2IndRangeError
    ensures idx.Ok? ==> idx.value < R * C * S
  {
    if r >= R || c >= C || s >= S then
      Err(Sub2IndRangeError)
    else if R * C * S == 0 then
      Err(Sub2IndSizeError)
    else
      LinearBound(R, C, S, r, c, s);
      Ok(Linear(R, C, r, c, s))
  }

  /** ind2sub: the subscripts of a linear index, or the range error. */
  function Ind2Sub(R: nat, C: nat, S: nat, idx: nat): (rcs: Result<Offset3>)
    ensures rcs.Ok? <==> idx < R * C * S
    ensures rcs.Err? ==> rcs.msg == Ind2SubRangeError
    ensures rcs.Ok? ==> InVolume(R, C, S, rcs.value.r, rcs.value.c, rcs.value.s)
  {
    if idx >= R * C * S then
      Err(Ind2SubRangeError)
    else if R * C * S == 0 then
      Err(Ind2SubSizeError)
    else
      Ind2SubInVolume(R, C, S, idx);
      Ok(Split(R, C, idx))
  }

  /** The subscripts of linear index idx with R rows and C columns per
      slice: the slice is idx div RC, then idx is reduced mod RC, the
      column is its div R and the row its mod R. */
  function Split(R: nat, C: nat, idx: nat): Offset3
    requires R > 0 && C > 0
  {
    PositiveProduct(R, C);
    var rest := idx % (R * C);
    Offset3(rest % R, rest / R, idx / (R * C))
  }

  // ---------------------------------------------------------------------
  // Arithmetic helpers

  lemma MulMono(a: nat, b: nat, d: nat)
    requires a <= b
    ensures a * d <= b * d
  {
    var k: nat := b - a;
    assert b * d == a * d + k * d;
  }

  lemma MulMonoStep(a: nat, b: nat, d: nat)
    requires a < b
    ensures a * d + d <= b * d
  {
    MulMono(a + 1, b, d);
    assert (a + 1) * d == a * d + d;
  }

  lemma DivModUnique(x: nat, d: nat, q: nat, m: nat)
    requires d > 0 && m < d && x == q * d + m
    ensures x / d == q && x % d == m
  {
    var q', m' := x / d, x % d;
    assert x == q' * d + m';
    if q < q' {
      MulMonoStep(q, q', d);
      assert false;
    } else if q' < q {
      MulMonoStep(q', q, d);
      assert false;
    }
  }

  lemma LinearBound(R: nat, C: nat, S: nat, r: nat, c: nat, s: nat)
    requires r < R && c < C && s < S
    ensures Linear(R, C, r, c, s) < R * C * S
    ensures r + c * R < R * C
  {
    MulMono(c + 1, C, R);
    assert (c + 1) * R == c * R + R;
    assert R * C == C * R;
    MulMono(s + 1, S, R * C);
    assert (s + 1) * (R * C) == s * (R * C) + R * C;
    assert s * R * C == s * (R * C);
    assert R * C * S == S * (R * C);
  }

  lemma PositiveProduct(a: nat, b: nat)
    requires a > 0 && b > 0
    ensures a * b > 0
  {
    MulMono(1, a, b);
  }

  lemma Ind2SubInVolume(R: nat, C: nat, S: nat, idx: nat)
    requires idx < R * C * S
    ensures R > 0 && C > 0 && S > 0
    ensures var o := Split(R, C, idx); InVolume(R, C, S, o.r, o.c, o.s)
  {
    if R == 0 || C == 0 || S == 0 {
      assert false;
    }
    var RC := R * C;
    PositiveProduct(R, C);
    var rest := idx % RC;
    assert rest < RC;
    assert rest == (rest / R) * R + rest % R;
    assert C * R == RC;
    if rest / R >= C {
      MulMono(C, rest / R, R);
      assert false;
    }
    assert idx == (idx / RC) * RC + rest;
    assert S * RC == R * C * S;
    if idx / RC >= S {
      MulMono(S, idx / RC, RC);
      assert false;
    }
  }

  // ---------------------------------------------------------------------
  // Properties

  /** ind2sub undoes sub2ind on every in-range subscript triple. */
  lemma {:induction false} Ind2SubOfSub2Ind(R: nat, C: nat, S: nat, r: nat, c: nat, s: nat)
    requires r < R && c < C && s < S
    ensures Sub2Ind(R, C, S, r, c, s).Ok?
    ensures Ind2Sub(R, C, S, Sub2Ind(R, C, S, r, c, s).value) == Ok(Offset3(r, c, s))
  {
    var idx := Linear(R, C, r, c, s);
    LinearBound(R, C, S, r, c, s);
    var RC := R * C;
    assert idx == s * RC + (r + c * R);
    DivModUnique(idx, RC, s, r + c * R);
    DivModUnique(r + c * R, R, c, r);
  }

  /** sub2ind undoes ind2sub on every in-range linear index. */
  lemma {:induction false} Sub2IndOfInd2Sub(R: nat, C: nat, S: nat, idx: nat)
    requires idx < R * C * S
    ensures Ind2Sub(R, C, S, idx).Ok?
    ensures var o := Ind2Sub(R, C, S, idx).value;
            Sub2IndOffset(R, C, S, o) == Ok(idx)
  {
    Ind2SubInVolume(R, C, S, idx);
    var RC := R * C;
    assert RC > 0;
    var rest := idx % RC;
    assert idx == (idx / RC) * RC + rest;
    assert rest == (rest / R) * R + rest % R;
    var o := Ind2Sub(R, C, S, idx).value;
    assert o.s * R * C == o.s * RC;
    assert o == Offset3(rest % R, rest / R, idx / RC);
    calc {
      Linear(R, C, o.r, o.c, o.s);
      rest % R + (rest / R) * R + (idx / RC) * R * C;
      { assert (idx / RC) * R * C == (idx / RC) * RC; }
      rest + (idx / RC) * RC;
      idx;
    }
  }

  /** The Offset overload and the scalar overload agree on equal,
      non-negative subscripts, and the Offset overload rejects every
      negative component. */
  lemma OverloadsAgree(R: nat, C: nat, S: nat, rcs: Offset3)
    ensures rcs.r >= 0 && rcs.c >= 0 && rcs.s >= 0 ==>
              Sub2IndOffset(R, C, S, rcs) == Sub2Ind(R, C, S, rcs.r, rcs.c, rcs.s)
    ensures rcs.r < 0 || rcs.c < 0 || rcs.s < 0 ==>
              Sub2IndOffset(R, C, S, rcs) == Err(Sub2IndRangeError)
  {
  }

  /** Because the range test runs before the size test, a zero dimension is
      always reported as an out-of-range index, never as a size error. */
  lemma ZeroDimensionReportsRange(R: nat, C: nat, S: nat, r: nat, c: nat, s: nat, idx: nat)
    requires R == 0 || C == 0 || S == 0
    ensures Sub2Ind(R, C, S, r, c, s) == Err(Sub2IndRangeError)
    ensures Ind2Sub(R, C, S, idx) == Err(Ind2SubRangeError)
  {
    assert R * C * S == 0;
  }
}
