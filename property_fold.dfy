/** `from_properties`: a left-to-right fold over a list that mixes shapes with other
    generator settings. Every shape narrows the band, starting from the full band of
    the matrix; every other value is passed through, in order. */
module PropertyFold {
  import opened Shapes

  /** One element of the property list. The C++ decides statically, per element
      type, whether it is a shape; here the element carries that decision as a tag. */
  datatype Property<T> = ShapeP(shape: Shape) | Opaque(value: T)

  /** The fold's answer: the merged band and the values that are not shapes. */
  datatype Shaped<T> = Shaped(band: Band, rest: seq<T>)

  /** The shapes of the list, in order. */
  function ShapesOf<T>(props: seq<Property<T>>): (r: seq<Shape>)
    ensures |r| <= |props|
    ensures forall s :: s in r <==> ShapeP(s) in props
  {
    if props == [] then []
    else
      match props[0]
      case ShapeP(s) => [s] + ShapesOf(props[1..])
      case Opaque(_) => ShapesOf(props[1..])
  }

  /** The values that are not shapes, in order. */
  function Opaques<T>(props: seq<Property<T>>): (r: seq<T>)
    ensures |r| + |ShapesOf(props)| == |props|
    ensures forall k :: 0 <= k < |r| ==> Opaque(r[k]) in props
    ensures forall k :: 0 <= k < |props| && props[k].Opaque? ==> props[k].value in r
  {
    if props == [] then []
    else
      match props[0]
      case ShapeP(_) => Opaques(props[1..])
      case Opaque(v) => [v] + Opaques(props[1..])
  }

  /** Every shape of the list accepts the size. */
  predicate Admitted(size: MatrixSize, shapes: seq<Shape>) {
    forall s :: s in shapes ==> s.ToBand(size).Ok?
  }

  /** `m` is the componentwise minimum of `base` and the bands of `shapes`: below
      each of them, and equal to one of them in each direction. */
  ghost predicate IsMeetOf(m: Band, base: Band, size: MatrixSize, shapes: seq<Shape>) {
    && IsSubBand(m, base)
    && (forall s :: s in shapes && s.ToBand(size).Ok? ==> IsSubBand(m, s.ToBand(size).value))
    && (m.lower == base.lower ||
        exists s :: s in shapes && s.ToBand(size).Ok? && s.ToBand(size).value.lower == m.lower)
    && (m.upper == base.upper ||
        exists s :: s in shapes && s.ToBand(size).Ok? && s.ToBand(size).value.upper == m.upper)
  }

  /** `detail::from_properties`: `acc` is the band so far and `kept` the tuple of
      values passed through so far. The C++ has an overload for the last element
      and one for an element followed by more, and none for an empty list. */
  function Fold<T>(size: MatrixSize, acc: Band, kept: seq<T>, props: seq<Property<T>>): (r: Result<Shaped<T>>)
    requires |props| >= 1
    ensures r.Ok? <==> Admitted(size, ShapesOf(props))
    ensures r.Err? ==> r.error == NonSquareSelfAdjoint
    ensures r.Ok? ==> IsSubBand(r.value.band, acc) && r.value.rest == kept + Opaques(props)
    decreases |props|
  {
    match props[0]
    case ShapeP(s) =>
      (match s.ToBand(size)
       case Err(e) => Err(e)
       case Ok(b) =>
         if |props| == 1 then Ok(Shaped(MergeBand(acc, b), kept))
         else Fold(size, MergeBand(acc, b), kept, props[1..]))
    case Opaque(v) =>
      if |props| == 1 then Ok(Shaped(acc, kept + [v]))
      else Fold(size, acc, kept + [v], props[1..])
  }

  /** The band of a successful fold is the minimum of `acc` and every shape's band. */
  lemma {:induction false} FoldIsMeet<T>(size: MatrixSize, acc: Band, kept: seq<T>, props: seq<Property<T>>)
    requires |props| >= 1
    requires Fold(size, acc, kept, props).Ok?
    ensures IsMeetOf(Fold(size, acc, kept, props).value.band, acc, size, ShapesOf(props))
    decreases |props|
  {
    var shapes := ShapesOf(props);
    var m := Fold(size, acc, kept, props).value.band;
    match props[0]
    case ShapeP(s) =>
      var b := s.ToBand(size).value;
      assert shapes == [s] + ShapesOf(props[1..]);
      if |props| == 1 {
        assert props[1..] == [];
        assert m == MergeBand(acc, b);
        assert s in shapes;
      } else {
        var acc' := MergeBand(acc, b);
        FoldIsMeet(size, acc', kept, props[1..]);
        assert s in shapes;
      }
    case Opaque(v) =>
      assert shapes == ShapesOf(props[1..]);
      if |props| > 1 {
        FoldIsMeet(size, acc, kept + [v], props[1..]);
      }
  }

  /** The minimum of a collection of bands depends only on which bands it holds. */
  lemma IsMeetOfIsUnique(m1: Band, m2: Band, base: Band, size: MatrixSize, shapes1: seq<Shape>, shapes2: seq<Shape>)
    requires forall s :: s in shapes1 <==> s in shapes2
    requires IsMeetOf(m1, base, size, shapes1) && IsMeetOf(m2, base, size, shapes2)
    ensures m1 == m2
  {
  }

  /** The minimum admits exactly the cells that `base` and every shape's band admit. */
  lemma IsMeetOfCells(m: Band, base: Band, size: MatrixSize, shapes: seq<Shape>, i: int, j: int)
    requires IsMeetOf(m, base, size, shapes)
    ensures InBand(m, i, j) <==>
      InBand(base, i, j) &&
      forall s :: s in shapes && s.ToBand(size).Ok? ==> InBand(s.ToBand(size).value, i, j)
  {
  }

  /** `from_properties`: fold the list starting from the full band of the size and
      an empty tuple. Fails exactly when some shape rejects the size. */
  function FromProperties<T>(size: MatrixSize, props: seq<Property<T>>): (r: Result<Shaped<T>>)
    requires |props| >= 1
    ensures r.Ok? <==> Admitted(size, ShapesOf(props))
    ensures r.Ok? <==> !(ShapeP(SelfAdjoint) in props && size.rows != size.cols)
    ensures r.Err? ==> r.error == NonSquareSelfAdjoint
    ensures r.Ok? ==> r.value.rest == Opaques(props) && IsSubBand(r.value.band, FullBand(size))
  {
    Fold(size, FullBand(size), [], props)
  }

  /** The band is the minimum of the full band and the band of every shape. */
  lemma FromPropertiesIsMeet<T>(size: MatrixSize, props: seq<Property<T>>)
    requires |props| >= 1
    requires FromProperties(size, props).Ok?
    ensures IsMeetOf(FromProperties(size, props).value.band, FullBand(size), size, ShapesOf(props))
  {
    FoldIsMeet(size, FullBand(size), [], props);
  }

  /** Within the matrix, the band admits a cell exactly when every shape of the
      list permits it: the fold computes the conjunction of the constraints. */
  lemma FromPropertiesCells<T>(size: MatrixSize, props: seq<Property<T>>, i: int, j: int)
    requires |props| >= 1
    requires FromProperties(size, props).Ok?
    requires InMatrix(size, i, j)
    ensures InBand(FromProperties(size, props).value.band, i, j) <==>
      forall s :: s in ShapesOf(props) ==> s.Permits(i, j)
  {
    var m := FromProperties(size, props).value.band;
    FromPropertiesIsMeet(size, props);
    IsMeetOfCells(m, FullBand(size), size, ShapesOf(props), i, j);
  }

  /** Reordering or repeating the shapes leaves the outcome and the band unchanged;
      when the other values keep their order too, the whole result is unchanged. */
  lemma ShapeOrderIrrelevant<T>(size: MatrixSize, p: seq<Property<T>>, q: seq<Property<T>>)
    requires |p| >= 1 && |q| >= 1
    requires forall s :: s in ShapesOf(p) <==> s in ShapesOf(q)
    ensures FromProperties(size, p).Ok? <==> FromProperties(size, q).Ok?
    ensures FromProperties(size, p).Ok? ==> FromProperties(size, p).value.band == FromProperties(size, q).value.band
    ensures Opaques(p) == Opaques(q) ==> FromProperties(size, p) == FromProperties(size, q)
  {
    var sp, sq := ShapesOf(p), ShapesOf(q);
    if FromProperties(size, p).Ok? {
      FromPropertiesIsMeet(size, p);
      FromPropertiesIsMeet(size, q);
      IsMeetOfIsUnique(FromProperties(size, p).value.band, FromProperties(size, q).value.band,
        FullBand(size), size, sp, sq);
    }
  }

  /** Taking the shapes distributes over concatenation: they keep the list's order. */
  lemma {:induction false} ShapesOfAppend<T>(p: seq<Property<T>>, q: seq<Property<T>>)
    ensures ShapesOf(p + q) == ShapesOf(p) + ShapesOf(q)
  {
    if p != [] {
      assert (p + q)[1..] == p[1..] + q;
      ShapesOfAppend(p[1..], q);
    } else {
      assert p + q == q;
    }
  }

  /** Taking the other values distributes over concatenation: they keep the list's order. */
  lemma {:induction false} OpaquesAppend<T>(p: seq<Property<T>>, q: seq<Property<T>>)
    ensures Opaques(p + q) == Opaques(p) + Opaques(q)
  {
    if p != [] {
      assert (p + q)[1..] == p[1..] + q;
      OpaquesAppend(p[1..], q);
    } else {
      assert p + q == q;
    }
  }

  /** A value that is not a shape, inserted anywhere, leaves the band unchanged and
      lands in the leftovers between the values before and after it. */
  lemma OpaqueLeavesBandUnchanged<T>(size: MatrixSize, p: seq<Property<T>>, v: T, q: seq<Property<T>>)
    requires |p + q| >= 1
    ensures FromProperties(size, p + [Opaque(v)] + q).Ok? <==> FromProperties(size, p + q).Ok?
    ensures FromProperties(size, p + q).Ok? ==>
      FromProperties(size, p + [Opaque(v)] + q).value.band == FromProperties(size, p + q).value.band
    ensures FromProperties(size, p + q).Ok? ==>
      FromProperties(size, p + [Opaque(v)] + q).value.rest == Opaques(p) + [v] + Opaques(q)
  {
    var pv := p + [Opaque(v)];
    var with := pv + q;
    assert ShapesOf([Opaque(v)]) == [] && Opaques([Opaque(v)]) == [v];
    ShapesOfAppend(p, [Opaque(v)]);
    ShapesOfAppend(pv, q);
    ShapesOfAppend(p, q);
    assert ShapesOf(pv) == ShapesOf(p);
    assert ShapesOf(with) == ShapesOf(p + q);
    OpaquesAppend(p, [Opaque(v)]);
    OpaquesAppend(pv, q);
    assert Opaques(with) == Opaques(p) + [v] + Opaques(q);
    ShapeOrderIrrelevant(size, with, p + q);
  }

  /** With no shape in the list the band is the full band, the band of `general`. */
  lemma {:induction false} WithoutShapesBandIsFull<T>(size: MatrixSize, props: seq<Property<T>>)
    requires |props| >= 1
    requires ShapesOf(props) == []
    ensures FromProperties(size, props) == Ok(Shaped(FullBand(size), Opaques(props)))
    ensures General.ToBand(size) == Ok(FullBand(size))
  {
    FromPropertiesIsMeet(size, props);
  }

  /** A 5x5 list of `upper_triangular` then `diagonal` narrows to the diagonal. */
  lemma UpperThenDiagonal()
    ensures FromProperties<int>(MatrixSize(5, 5), [ShapeP(UpperTriangular), ShapeP(Diagonal)])
      == Ok(Shaped(Band(0, 0), []))
  {
  }

  /** On 4x4, `lower_triangular` between two settings gives (3, 0) and keeps both
      settings in order. */
  lemma LowerBetweenSettings()
    ensures FromProperties(MatrixSize(4, 4), [Opaque(42), ShapeP(LowerTriangular), Opaque(7)])
      == Ok(Shaped(Band(3, 0), [42, 7]))
  {
    var size := MatrixSize(4, 4);
    var props := [Opaque(42), ShapeP(LowerTriangular), Opaque(7)];
    assert props[1..] == [ShapeP(LowerTriangular), Opaque(7)];
    assert props[1..][1..] == [Opaque(7)];
    assert [42] + [7] == [42, 7];
    assert Fold<int>(size, Band(3, 0), [42], [Opaque(7)]) == Ok(Shaped(Band(3, 0), [42, 7]));
    assert Fold(size, Band(3, 3), [42], props[1..]) == Ok(Shaped(Band(3, 0), [42, 7]));
  }

  /** `self_adjoint` on a non-square size fails the whole fold, wherever it is. */
  lemma NonSquareSelfAdjointFails<T>(size: MatrixSize, p: seq<Property<T>>, q: seq<Property<T>>)
    requires size.rows != size.cols
    ensures FromProperties(size, p + [ShapeP(SelfAdjoint)] + q) == Err(NonSquareSelfAdjoint)
  {
  }
}
