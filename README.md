# Structural shapes of the linear-algebra test-matrix generator

This project models `include/generator/shape.hpp` of the linalg_tests matrix generator in Dafny. The file turns a matrix size and a list of structural shape descriptors into one *band*. A band is the number of sub-diagonals (`lower`) and super-diagonals (`upper`) that may hold nonzero entries. The shapes are an explicit `band`, `general`, `self_adjoint`, `upper_triangular`, `lower_triangular`, `tridiagonal` and `diagonal`. The file also separates these descriptors from the other generator settings given in the same list.

The project has two modules:

- `Shapes` (`shape.dfy`):
  - `matrix_size` becomes `MatrixSize`. Dimensions run from 1 to 2^32-1.
  - `band` becomes `Band`. Its widths are `uint32_t` values.
  - The seven shape types become the datatype `Shape`. Each variant has the static `symmetric` flag (`Symmetric`) and `to_band` (`ToBand`).
  - `merge_band` becomes `MergeBand`.
  - The `self_adjoint` exception becomes the error value `Err(NonSquareSelfAdjoint)`.
- `PropertyFold` (`property_fold.dfy`):
  - `detail::from_properties` becomes `Fold`, one step per C++ overload.
  - The public `from_properties` becomes `FromProperties`.
  - The C++ decides statically, from each element's type (`is_shape_type`), whether it is a shape. Here each list element is tagged instead, as `Property<T> = ShapeP(Shape) | Opaque(T)`.

Every band and every shape has a meaning as a set of matrix cells:

- `InBand(b, i, j)` says that cell (i, j) lies on a diagonal that band `b` admits.
- `Shape.Permits(i, j)` is the sparsity pattern that a shape stands for. For example, `upper_triangular` permits i <= j, and `diagonal` permits i = j.

The proofs connect the two views:

- Inside the matrix, `to_band` admits exactly the cells that its shape permits.
- `merge_band` is the intersection of two bands.
- Inside the matrix, the band that `from_properties` gives admits exactly the cells that every shape in the list permits.

## Model

| member | source | states |
|---|---|---|
| `Shapes.SubBandIsCellContainment` | include/generator/shape.hpp:19-23 | a band is narrower than another in both widths exactly when every cell it admits is admitted by the other |
| `Shapes.FullBand` | include/generator/shape.hpp:30-33 | the band built from a size admits every cell of the matrix |
| `Shapes.FullBandIsTightest` | include/generator/shape.hpp:30-33 | any band that admits every cell of the matrix contains the band built from the size, so that band is the loosest useful one |
| `Shapes.Shape.ToBand` | include/generator/shape.hpp:35-107 | fails exactly for `self_adjoint` on a non-square size, with the single shape error. On success, inside the matrix, the band admits exactly the cells the shape permits |
| `Shapes.ToBandTable` | include/generator/shape.hpp:35-107 | an explicit band returns itself. `general` and a square `self_adjoint` return the full band. `upper_triangular` returns (0, cols-1). `lower_triangular` returns (rows-1, 0). `tridiagonal` returns (1, 1). `diagonal` returns (0, 0) |
| `Shapes.ToBandIgnoresSize` | include/generator/shape.hpp:35-107 | an explicit band, `tridiagonal` and `diagonal` give the same result for every size |
| `Shapes.TriangularIgnoresOtherDimension` | include/generator/shape.hpp:64-82 | `upper_triangular` depends only on the column count, and `lower_triangular` only on the row count |
| `Shapes.ToBandWithinFullBand` | include/generator/shape.hpp:41-107 | every shape except an explicit band and `tridiagonal` yields a band inside the full band of the size |
| `Shapes.TridiagonalWithinFullBandIff` | include/generator/shape.hpp:91-94 | `tridiagonal`'s (1, 1) fits inside the matrix if and only if both dimensions are at least 2. It reaches past a matrix with a single row or column |
| `Shapes.SymmetricShapes` | include/generator/shape.hpp:19-108 | the `symmetric` flag is true for `self_adjoint` and `diagonal` and false for the other five shapes |
| `Shapes.SymmetricShapeIsTransposeInvariant` | include/generator/shape.hpp:51-108 | a symmetric shape has equal lower and upper widths, and its pattern permits (i, j) exactly when it permits (j, i) |
| `Shapes.MergeBand` | include/generator/shape.hpp:110-116 | the merge lies inside both arguments and equals one of them in each width, so it is the componentwise minimum |
| `Shapes.MergeBandIsGreatest` | include/generator/shape.hpp:110-116 | every band inside both arguments is inside their merge, so the merge is the greatest lower bound |
| `Shapes.MergeBandIsIntersection` | include/generator/shape.hpp:110-116 | the merge admits a cell exactly when both arguments admit it |
| `Shapes.MergeBandCommutes` | include/generator/shape.hpp:110-116 | merge is commutative |
| `Shapes.MergeBandAssociates` | include/generator/shape.hpp:110-116 | merge is associative |
| `Shapes.MergeBandIdempotent` | include/generator/shape.hpp:110-116 | merging a band with itself gives the band back |
| `PropertyFold.ShapesOf` | include/generator/shape.hpp:118-134 | the shapes of a list are exactly the elements that are shapes, and there are no more of them than elements |
| `PropertyFold.Opaques` | include/generator/shape.hpp:187-209 | the leftover values are the non-shape elements. Their number plus the number of shapes is the length of the list. Each leftover comes from the list, and each non-shape element appears among them. The contract does not fix their order: the order comes from the definition, a left-to-right filter, and from `OpaquesAppend` |
| `PropertyFold.ShapesOfAppend` | include/generator/shape.hpp:161-185 | the shapes of a concatenation are the shapes of the first part followed by those of the second, so they keep the order of the list |
| `PropertyFold.OpaquesAppend` | include/generator/shape.hpp:187-209 | the non-shape values of a concatenation are those of the first part followed by those of the second, so the leftovers keep the order of the list |
| `PropertyFold.Fold` | include/generator/shape.hpp:147-209 | succeeds exactly when every shape in the list accepts the size, and otherwise fails with the `self_adjoint` error. On success the band is inside the incoming band, and the tuple is the incoming tuple followed by the list's non-shape values, in order |
| `PropertyFold.FoldIsMeet` | include/generator/shape.hpp:161-185 | a successful fold's band is the minimum of the incoming band and every shape's band |
| `PropertyFold.FromProperties` | include/generator/shape.hpp:212-220 | fails exactly when the list holds `self_adjoint` and the size is not square. On success the leftovers are exactly the non-shape values in their original order, and the band satisfies lower <= rows-1 and upper <= cols-1 |
| `PropertyFold.FromPropertiesIsMeet` | include/generator/shape.hpp:212-220 | the resulting band is the minimum of the full band of the size and the band of every shape in the list |
| `PropertyFold.FromPropertiesCells` | include/generator/shape.hpp:212-220 | inside the matrix, the resulting band admits a cell exactly when every shape in the list permits it. The fold therefore computes the conjunction of the structural constraints |
| `PropertyFold.ShapeOrderIrrelevant` | include/generator/shape.hpp:161-185 | two lists that hold the same shapes, in any order and any number of times, either both succeed with the same band or both fail. If their non-shape values are also in the same order, the two results are equal |
| `PropertyFold.OpaqueLeavesBandUnchanged` | include/generator/shape.hpp:187-209 | a non-shape value inserted anywhere changes neither success nor the band. It appears in the leftovers between the values before it and the values after it |
| `PropertyFold.WithoutShapesBandIsFull` | include/generator/shape.hpp:212-220 | a list without shapes yields the full band, which is `general`'s band, together with all its values |
| `PropertyFold.NonSquareSelfAdjointFails` | include/generator/shape.hpp:55-185 | a `self_adjoint` anywhere in the list fails the whole fold on a non-square size. Nothing partial is returned |
| `PropertyFold.UpperThenDiagonal` | include/generator/shape.hpp:212-220 | on 5x5, `upper_triangular` followed by `diagonal` yields (0, 0) and no leftovers |
| `PropertyFold.LowerBetweenSettings` | include/generator/shape.hpp:212-220 | on 4x4, `lower_triangular` between two settings yields (3, 0) and keeps both settings in order |

## Left out

- The template machinery is replaced by the tagged `Property` type. This covers the `is_shape_type` specialisations, `enable_if` overload selection, `tuple_cat_result` and perfect forwarding. The leftovers are a `seq<T>` of one element type rather than a heterogeneous `std::tuple`.
- An element deduced as an lvalue reference (`T&`) fails `is_shape_type`, so the C++ treats such a shape as a plain value. This type-deduction artefact is not modelled: every shape is treated as a shape.
- A dimension of 0 is not modelled. In the C++, `rows - 1` and `cols - 1` wrap around in `uint32_t` for a zero dimension. `MatrixSize` only admits dimensions from 1 to 2^32-1.
- PropertyFold.FromProperties: requires at least one property. The C++ has no `detail::from_properties` overload for an empty list, so `from_properties(size)` with no properties does not compile. One could expect such a call to return the full band and no leftovers, but the code does not provide that case, so the model does not define it.
- The `std::runtime_error` thrown by `self_adjoint::to_band` becomes the value `Err(NonSquareSelfAdjoint)`. Its message text and exception semantics are not modelled.
- `tridiagonal` and `diagonal` inherit from `band` and store (1, 1) and (0, 0) in their inherited fields. Only their `to_band` results are modelled.
- `band::to_band` returns a reference to the band itself. The model returns the band as a value.
- Matrix allocation, value generation and I/O are outside this file and are not part of this model.
