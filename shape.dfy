/** Matrix sizes, bands and the closed set of structural shapes of the test-matrix
    generator, each shape mapping a size to the band of diagonals it may occupy. */
module Shapes {

  /** The range of `uint32_t`, the type of every band width. */
  type U32 = n: int | 0 <= n <= 0xFFFF_FFFF

  /** A row or column count. Zero is excluded: `rows - 1` would wrap around in
      `uint32_t`, and no shape is meant for an empty matrix. */
  type Dim = n: int | 1 <= n <= 0xFFFF_FFFF witness 1

  /** `matrix_size` */
  datatype MatrixSize = MatrixSize(rows: Dim, cols: Dim)

  /** `band`: the number of sub-diagonals (`lower`) and super-diagonals (`upper`)
      around the main diagonal that may hold nonzero entries. */
  datatype Band = Band(lower: U32, upper: U32)

  /** The one failure of the module: `self_adjoint` asked for a non-square size. */
  datatype ShapeError = NonSquareSelfAdjoint

  datatype Result<+T> = Ok(value: T) | Err(error: ShapeError)

  /** Cell (i, j) of the matrix, row i and column j, counted from 0. */
  predicate InMatrix(size: MatrixSize, i: int, j: int) {
    0 <= i < size.rows && 0 <= j < size.cols
  }

  /** Cell (i, j) lies on one of the diagonals that band `b` admits. */
  predicate InBand(b: Band, i: int, j: int) {
    i - j <= b.lower && j - i <= b.upper
  }

  /** `a` is at least as tight as `b` in both directions. */
  predicate IsSubBand(a: Band, b: Band) {
    a.lower <= b.lower && a.upper <= b.upper
  }

  /** The order on bands is containment of the diagonals they admit. */
  lemma SubBandIsCellContainment(a: Band, b: Band)
    ensures IsSubBand(a, b) <==> forall i, j :: InBand(a, i, j) ==> InBand(b, i, j)
  {
    if forall i, j :: InBand(a, i, j) ==> InBand(b, i, j) {
      assert InBand(a, a.lower, 0);
      assert InBand(a, 0, a.upper);
    }
  }

  /** `band(const matrix_size &)`: the band that admits every cell of the matrix. */
  function FullBand(size: MatrixSize): (r: Band)
    ensures forall i, j :: InMatrix(size, i, j) ==> InBand(r, i, j)
  {
    Band(size.rows - 1, size.cols - 1)
  }

  /** No band that admits every cell of the matrix is tighter than the full band. */
  lemma FullBandIsTightest(size: MatrixSize, b: Band)
    requires forall i, j :: InMatrix(size, i, j) ==> InBand(b, i, j)
    ensures IsSubBand(FullBand(size), b)
  {
    assert InMatrix(size, size.rows - 1, 0);
    assert InMatrix(size, 0, size.cols - 1);
  }

  /** The structural shapes: an explicit `band` and the tag types `general`,
      `self_adjoint`, `upper_triangular`, `lower_triangular`, `tridiagonal` and
      `diagonal`. */
  datatype Shape =
    | Explicit(b: Band)
    | General
    | SelfAdjoint
    | UpperTriangular
    | LowerTriangular
    | Tridiagonal
    | Diagonal
  {
    /** The static `symmetric` flag of each shape type. */
    predicate Symmetric() {
      match this
      case Explicit(_) => false
      case General => false
      case SelfAdjoint => true
      case UpperTriangular => false
      case LowerTriangular => false
      case Tridiagonal => false
      case Diagonal => true
    }

    /** The sparsity pattern the shape stands for: may cell (i, j) be nonzero. */
    predicate Permits(i: int, j: int) {
      match this
      case Explicit(b) => InBand(b, i, j)
      case General => true
      case SelfAdjoint => true
      case UpperTriangular => i <= j
      case LowerTriangular => j <= i
      case Tridiagonal => -1 <= i - j <= 1
      case Diagonal => i == j
    }

    /** `to_band` of each shape type. Only `self_adjoint` can fail, and only on a
        non-square size; otherwise the band admits, within the matrix, exactly the
        cells the shape permits. */
    function ToBand(size: MatrixSize): (r: Result<Band>)
      ensures r.Err? <==> this.SelfAdjoint? && size.rows != size.cols
      ensures r.Err? ==> r.error == NonSquareSelfAdjoint
      ensures r.Ok? ==> forall i, j :: InMatrix(size, i, j) ==> (InBand(r.value, i, j) <==> Permits(i, j))
    {
      match this
      case Explicit(b) => Ok(b)
      case General => Ok(Band(size.rows - 1, size.cols - 1))
      case SelfAdjoint =>
        if size.rows != size.cols then Err(NonSquareSelfAdjoint)
        else Ok(Band(size.rows - 1, size.cols - 1))
      case UpperTriangular => Ok(Band(0, size.cols - 1))
      case LowerTriangular => Ok(Band(size.rows - 1, 0))
      case Tridiagonal => Ok(Band(1, 1))
      case Diagonal => Ok(Band(0, 0))
    }
  }

  /** The band of each shape, stated against the full band of the size. */
  lemma ToBandTable(size: MatrixSize, b: Band)
    ensures Explicit(b).ToBand(size) == Ok(b)
    ensures General.ToBand(size) == Ok(FullBand(size))
    ensures size.rows == size.cols ==> SelfAdjoint.ToBand(size) == Ok(FullBand(size))
    ensures UpperTriangular.ToBand(size) == Ok(Band(0, FullBand(size).upper))
    ensures LowerTriangular.ToBand(size) == Ok(Band(FullBand(size).lower, 0))
    ensures Tridiagonal.ToBand(size) == Ok(Band(1, 1))
    ensures Diagonal.ToBand(size) == Ok(Band(0, 0))
  {
  }

  /** An explicit band, `tridiagonal` and `diagonal` do not look at the size. */
  lemma ToBandIgnoresSize(s: Shape, m: MatrixSize, n: MatrixSize)
    requires s.Explicit? || s.Tridiagonal? || s.Diagonal?
    ensures s.ToBand(m) == s.ToBand(n)
  {
  }

  /** `upper_triangular` looks only at the column count, `lower_triangular` only at
      the row count. */
  lemma TriangularIgnoresOtherDimension(m: MatrixSize, n: MatrixSize)
    ensures m.cols == n.cols ==> UpperTriangular.ToBand(m) == UpperTriangular.ToBand(n)
    ensures m.rows == n.rows ==> LowerTriangular.ToBand(m) == LowerTriangular.ToBand(n)
  {
  }

  /** Every shape other than an explicit band and `tridiagonal` stays inside the
      matrix. */
  lemma ToBandWithinFullBand(s: Shape, size: MatrixSize)
    requires !s.Explicit? && !s.Tridiagonal?
    requires s.ToBand(size).Ok?
    ensures IsSubBand(s.ToBand(size).value, FullBand(size))
  {
  }

  /** `tridiagonal` reaches past the matrix exactly when a dimension is 1. */
  lemma TridiagonalWithinFullBandIff(size: MatrixSize)
    ensures IsSubBand(Tridiagonal.ToBand(size).value, FullBand(size)) <==> size.rows >= 2 && size.cols >= 2
  {
  }

  /** The symmetric shapes are `self_adjoint` and `diagonal`, and no other. */
  lemma SymmetricShapes(s: Shape)
    ensures s.Symmetric() <==> s == SelfAdjoint || s == Diagonal
  {
  }

  /** A symmetric shape has a band, and a pattern, that is its own transpose. */
  lemma SymmetricShapeIsTransposeInvariant(s: Shape, size: MatrixSize, i: int, j: int)
    requires s.Symmetric()
    requires s.ToBand(size).Ok?
    ensures s.ToBand(size).value.lower == s.ToBand(size).value.upper
    ensures s.Permits(i, j) <==> s.Permits(j, i)
  {
  }

  /** `merge_band`: the tightest band that both arguments admit, their greatest
      lower bound in the sub-band order. */
  function MergeBand(first: Band, second: Band): (r: Band)
    ensures IsSubBand(r, first) && IsSubBand(r, second)
    ensures r.lower == first.lower || r.lower == second.lower
    ensures r.upper == first.upper || r.upper == second.upper
  {
    Band(
      if first.lower <= second.lower then first.lower else second.lower,
      if first.upper <= second.upper then first.upper else second.upper)
  }

  /** Every band inside both arguments is inside their merge. */
  lemma MergeBandIsGreatest(first: Band, second: Band, c: Band)
    requires IsSubBand(c, first) && IsSubBand(c, second)
    ensures IsSubBand(c, MergeBand(first, second))
  {
  }

  /** The merge admits exactly the cells both arguments admit. */
  lemma MergeBandIsIntersection(first: Band, second: Band, i: int, j: int)
    ensures InBand(MergeBand(first, second), i, j) <==> InBand(first, i, j) && InBand(second, i, j)
  {
  }

  lemma MergeBandCommutes(a: Band, b: Band)
    ensures MergeBand(a, b) == MergeBand(b, a)
  {
  }

  lemma MergeBandAssociates(a: Band, b: Band, c: Band)
    ensures MergeBand(MergeBand(a, b), c) == MergeBand(a, MergeBand(b, c))
  {
  }

  lemma MergeBandIdempotent(a: Band)
    ensures MergeBand(a, a) == a
  {
  }
}
