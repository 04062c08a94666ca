# Gerardus MEX cores in Dafny

This project models the hand-written core of several Gerardus MEX functions
and proves properties of the models:

- **CgalCheckSelfIntersect** counts, for each queried triangle of a mesh,
  the intersections reported by an AABB tree. It does not count shared edges
  or shared vertices, and it discounts the triangle's match with itself.
  Degenerate triangles count once and are never queried.
- **CgalClosestTriFacet** builds the triangle vector from 1-based indices and
  fills the requested outputs from a closest-point query: the 1-based facet
  index, the distance, and the closest point as a column-major n x 3 matrix.
- **GerardusCommon** provides `sub2ind` (two overloads) and `ind2sub` for
  column-major 3-D volumes, with their range errors.
- **MexDanielsson** is the Danielsson filter's output-count check and its
  nearest-voxel map. The map is `sub2ind(ind2sub(i) + offset[i]) + 1`.
- **Im2Imat** turns a 2-D/3-D double image into the 26-neighbourhood graph as
  a compressed-sparse-column matrix (`ir`, `pr`, `jc`, `nzmax`). The arrays are
  filled in place by the source's triple voxel loops and triple neighbour
  loops, followed by the prefix sum over `jc`.
- **ItkImFilter** and **BaseFilter** hold the dispatch rules:
  - a filter name selects a filter, the input class a voxel type, and `nbit`
    the Danielsson output type;
  - `runFilter` calls the stages in a fixed order;
  - the BaseFilter constructor has an empty-input rule, an output-class
    mapping and copy loops.
- **VoxelTypes** holds the class/voxel-type mapping and the `nbit` chain
  shared by the two wrappers.

Modelling choices:

- Foreign computations are inputs of the model:
  - CGAL's `all_intersections` becomes `hits`;
  - `closest_point_and_primitive` becomes `answers`;
  - `accelerate_distance_queries` becomes `accelerated`;
  - ITK's vector distance map becomes `offsets`;
  - an ITK filter becomes `itkFilter`.
- Buffers the source fills in place are Dafny arrays. Object state is a
  class (`ItkImFilter.MexFilter`).
- Each loop is a method whose result is proved equal to a pure function that defines it.
- Errors raised through `mexErrMsgTxt` are `Result.Err` or `Option.Some` values
  carrying the source's message text.

Where the documented behaviour and the code differ, the model follows the
code:

- CgalCheckSelfIntersect writes each count to slot `ITRI[k]-1` of a buffer
  with one slot per mesh triangle. It does not write the counts in ITRI order.
  A repeated ITRI entry therefore accumulates twice in one slot (see
  `AccumulateAt`).
- Neither CGAL function checks the range of vertex indices or ITRI entries.
  The model therefore takes in-range indices as a precondition. It does not
  model a range error.

## Model

| member | source | states |
|---|---|---|
| Mesh.MeshTriangles | trunk/matlab/CgalToolbox/CgalCheckSelfIntersect.cpp:160-191 | there is one triangle per TRI row |
| Mesh.BuildTriangles | trunk/matlab/CgalToolbox/CgalClosestTriFacet.cpp:156-187 | triangle i is built from rows TRI(i,0)-1, TRI(i,1)-1, TRI(i,2)-1 of X (1-based to 0-based), and equals MeshTriangles |
| CgalCheckSelfIntersect.Increment | trunk/matlab/CgalToolbox/CgalCheckSelfIntersect.cpp:285-378 | a triangle record adds 1; a segment adds 0 iff both end points are common vertices of both triangles; a point adds 0 iff it is a common vertex; a polygon, which no branch extracts, adds 0 |
| CgalCheckSelfIntersect.CountedRecords | trunk/matlab/CgalToolbox/CgalCheckSelfIntersect.cpp:254-380 | the inner loop adds at most one per record |
| CgalCheckSelfIntersect.Delta | trunk/matlab/CgalToolbox/CgalCheckSelfIntersect.cpp:230-243 | one query changes its slot by at least -1, and by at most +1 for a degenerate triangle or records-1 otherwise |
| CgalCheckSelfIntersect.Accumulate | trunk/matlab/CgalToolbox/CgalCheckSelfIntersect.cpp:212-385 | the buffer keeps its length over the query loop |
| CgalCheckSelfIntersect.DefaultQueries | trunk/matlab/CgalToolbox/CgalCheckSelfIntersect.cpp:152-155 | the default ITRI has one entry per triangle |
| CgalCheckSelfIntersect.CountedRecordsByKind | trunk/matlab/CgalToolbox/CgalCheckSelfIntersect.cpp:285-378 | the inner loop's total is #triangle records + #segments that are not shared edges + #points that are not shared vertices |
| CgalCheckSelfIntersect.PolygonCountsNothing | trunk/matlab/CgalToolbox/CgalCheckSelfIntersect.cpp:279-378 | a polygon record (two coplanar triangles overlapping) leaves the count as if it were absent, since none of the three `CGAL::assign` branches takes it |
| CgalCheckSelfIntersect.CountedRecordsAppend | trunk/matlab/CgalToolbox/CgalCheckSelfIntersect.cpp:254-380 | the record count is additive over concatenated record lists |
| CgalCheckSelfIntersect.ArtifactsCountNothing | trunk/matlab/CgalToolbox/CgalCheckSelfIntersect.cpp:320-376 | records that are all shared edges or shared vertices add nothing |
| CgalCheckSelfIntersect.OnlyArtifactsGiveZero | trunk/matlab/CgalToolbox/CgalCheckSelfIntersect.cpp:285-383 | a non-degenerate triangle with only its self-match plus shared edges/vertices ends with change 0 |
| CgalCheckSelfIntersect.AccumulateAt | trunk/matlab/CgalToolbox/CgalCheckSelfIntersect.cpp:202-240 | slot t ends at its initial value + (multiplicity of t+1 in ITRI) x Delta(t): unlisted slots untouched, repeats accumulate |
| CgalCheckSelfIntersect.AccumulateOrderIndependent | trunk/matlab/CgalToolbox/CgalCheckSelfIntersect.cpp:212-385 | permuting ITRI leaves the buffer unchanged |
| CgalCheckSelfIntersect.DefaultQueriesOnce | trunk/matlab/CgalToolbox/CgalCheckSelfIntersect.cpp:152-155 | the default ITRI lists every triangle exactly once |
| CgalCheckSelfIntersect.DefaultQueriesFromZero | trunk/matlab/CgalToolbox/CgalCheckSelfIntersect.cpp:230-243 | with ITRI omitted and a zeroed buffer, slot t is Delta(t), and 1 for a degenerate triangle |
| CgalCheckSelfIntersect.DefaultQueryList | trunk/matlab/CgalToolbox/CgalCheckSelfIntersect.cpp:152-155 | the loop fills 1..nrowsTri |
| CgalCheckSelfIntersect.CountIntersections | trunk/matlab/CgalToolbox/CgalCheckSelfIntersect.cpp:212-385 | the in-place query loop leaves the buffer equal to Accumulate of its old contents |
| CgalCheckSelfIntersect.CountRecords | trunk/matlab/CgalToolbox/CgalCheckSelfIntersect.cpp:254-380 | the loop over one triangle's intersection records raises its slot by CountedRecords and leaves every other slot alone |
| CgalCheckSelfIntersect.CheckSelfIntersect | trunk/matlab/CgalToolbox/CgalCheckSelfIntersect.cpp:133-385 | empty TRI or X gives an empty output; a column count other than 3 is an error; otherwise the buffer is Accumulate over ITRI or its default |
| CgalClosestTriFacet.Square | trunk/matlab/CgalToolbox/CgalClosestTriFacet.cpp:244-246 | a squared coordinate difference is non-negative and zero for equal coordinates |
| CgalClosestTriFacet.SquaredDistance | trunk/matlab/CgalToolbox/CgalClosestTriFacet.cpp:243-246 | the accumulated D is non-negative and zero for coincident points |
| CgalClosestTriFacet.PSlotsBijective | trunk/matlab/CgalToolbox/CgalClosestTriFacet.cpp:252-254 | the slots i, i+n, i+2n of P are a bijection between (row, coordinate) pairs and [0, 3n) |
| CgalClosestTriFacet.SlotSplit | trunk/matlab/CgalToolbox/CgalClosestTriFacet.cpp:252-254 | two equal P slots come from the same row and coordinate |
| CgalClosestTriFacet.ClosestTriFacet | trunk/matlab/CgalToolbox/CgalClosestTriFacet.cpp:133-257 | empty input gives empty outputs; the 3-column check; an accelerator failure before any query; only requested buffers are allocated |
| CgalClosestTriFacet.FillOutputs | trunk/matlab/CgalToolbox/CgalClosestTriFacet.cpp:219-257 | IDX[i] is the returned primitive's 0-based position + 1, D[i] the squared distance, and P column-major |
| CgalClosestTriFacet.FillRow | trunk/matlab/CgalToolbox/CgalClosestTriFacet.cpp:224-255 | one query row writes slot i of IDX and D and slots i, i+n, i+2n of P, and no other slot |
| GerardusCommon.Sub2IndOffset | matlab/GerardusCommon.cpp:65-86 | Ok iff every component is in range (negatives are out of range through the unsigned cast); the result is below R*C*S |
| GerardusCommon.Sub2Ind | matlab/GerardusCommon.cpp:91-112 | Ok iff r<R, c<C, s<S; otherwise the "Out of range" error; the result is below R*C*S |
| GerardusCommon.Ind2Sub | matlab/GerardusCommon.cpp:124-142 | Ok iff idx < R*C*S; each subscript is within its dimension |
| GerardusCommon.LinearBound | matlab/GerardusCommon.cpp:105 | r + c*R + s*R*C < R*C*S for in-range subscripts |
| GerardusCommon.Ind2SubOfSub2Ind | matlab/GerardusCommon.cpp:115-118 | ind2sub(sub2ind(r,c,s)) = (r,c,s) |
| GerardusCommon.Sub2IndOfInd2Sub | matlab/GerardusCommon.cpp:55-58 | sub2ind(ind2sub(i)) = i |
| GerardusCommon.OverloadsAgree | matlab/GerardusCommon.cpp:65-112 | the Offset and scalar overloads agree on non-negative subscripts; negative components are out of range |
| GerardusCommon.ZeroDimensionReportsRange | matlab/GerardusCommon.cpp:93-102 | with a zero dimension both functions report "Out of range", never the size error |
| MexDanielsson.CheckNumberOfOutputs | matlab/ItkToolbox/MexDanielssonDistanceMapImageFilter.cpp:68-70 | an error iff more than 2 outputs are requested |
| MexDanielsson.NearestIndex | matlab/ItkToolbox/MexDanielssonDistanceMapImageFilter.cpp:134-144 | Ok iff the displaced subscripts are inside the volume; the value is then a 1-based index in [1, R*C*S] |
| MexDanielsson.NearestPrefix | matlab/ItkToolbox/MexDanielssonDistanceMapImageFilter.cpp:130-146 | a successful prefix has one value per voxel; an error is sub2ind's |
| MexDanielsson.NearestPrefixAt | matlab/ItkToolbox/MexDanielssonDistanceMapImageFilter.cpp:130-146 | a prefix succeeds iff every voxel in it does, and then holds each voxel's own value |
| MexDanielsson.NearestMapNamesDisplacedVoxel | matlab/ItkToolbox/MexDanielssonDistanceMapImageFilter.cpp:134-144 | each value v is in [1, R*C*S] and ind2sub(v-1) is the voxel's subscripts plus its offset |
| MexDanielsson.ZeroOffsetIsIdentity | matlab/ItkToolbox/MexDanielssonDistanceMapImageFilter.cpp:134-144 | a zero offset at voxel i gives i+1 |
| MexDanielsson.NearestPrefixStops | matlab/ItkToolbox/MexDanielssonDistanceMapImageFilter.cpp:143-144 | once a voxel's offset leaves the volume, the whole map fails |
| MexDanielsson.CopyFilterNearestOutput | matlab/ItkToolbox/MexDanielssonDistanceMapImageFilter.cpp:128-146 | voxels in linear order, one element each; the buffer equals NearestMap, or sub2ind's error |
| MexDanielsson.ExportOtherFilterOutputs | matlab/ItkToolbox/MexDanielssonDistanceMapImageFilter.cpp:81-83 | the nearest-voxel map is produced iff nargout > 1 |
| Im2Imat.SizeIsProduct | trunk/matlab/FiltersToolbox/im2imat.cpp:123 | the number of voxels is R*C*S |
| Im2Imat.Index | trunk/matlab/FiltersToolbox/im2imat.cpp:177 | the linear index of an in-volume voxel is inside the image |
| Im2Imat.IndexIsLinear | trunk/matlab/FiltersToolbox/im2imat.cpp:177 | the index is sub2ind's r + c*R + s*R*C |
| Im2Imat.LinearIndex | trunk/matlab/FiltersToolbox/im2imat.cpp:171-177 | RC*s + R*c + r, as the loop computes it, is the voxel's index |
| Im2Imat.Subs | trunk/matlab/FiltersToolbox/im2imat.cpp:172-177 | linear index i is the index of an in-volume voxel |
| Im2Imat.SubsOfIndex | trunk/matlab/FiltersToolbox/im2imat.cpp:172-177 | Subs inverts Index |
| Im2Imat.CubeOfFits | trunk/matlab/FiltersToolbox/im2imat.cpp:186-191 | the loop ranges max(0,x-1)..min(D-1,x+1) are exactly the in-image subscripts within one step |
| Im2Imat.NeighboursAreAdjacent | trunk/matlab/FiltersToolbox/im2imat.cpp:186-217 | the neighbour loops store exactly the finite voxels of the cube other than the voxel itself |
| Im2Imat.VoxelNbAt | trunk/matlab/FiltersToolbox/im2imat.cpp:177-181 | an Inf voxel stores nothing; otherwise its list is what the neighbour loops store |
| Im2Imat.VoxelNbAdjacent | trunk/matlab/FiltersToolbox/im2imat.cpp:181-200 | (r2,c2,s2) is stored for (r,c,s) iff both are finite, they differ, and every subscript is within one step |
| Im2Imat.NeighboursSymmetric | trunk/matlab/FiltersToolbox/im2imat.cpp:186-204 | the adjacency is symmetric: j is stored as a neighbour of i exactly when i is stored as a neighbour of j |
| Im2Imat.StoredWeightsSymmetric | trunk/matlab/FiltersToolbox/im2imat.cpp:204 | the pr values stored for entries (i, j) and (j, i) are equal |
| Im2Imat.NeighboursInImage | trunk/matlab/FiltersToolbox/im2imat.cpp:197 | stored indices are inside the image |
| Im2Imat.AtMost26 | trunk/matlab/FiltersToolbox/im2imat.cpp:186-217 | a voxel stores at most 26 entries |
| Im2Imat.EntriesWithinCapacity | trunk/matlab/FiltersToolbox/im2imat.cpp:123 | entries of the first n voxels fit in 26*n slots, so outidx never passes R*C*S*26 |
| Im2Imat.NeighboursAscending | trunk/matlab/FiltersToolbox/im2imat.cpp:186-214 | each voxel's row indices are strictly ascending |
| Im2Imat.EntriesInColumnOrder | trunk/matlab/FiltersToolbox/im2imat.cpp:172-217 | all entries come column by column, with rows strictly ascending within a column |
| Im2Imat.FlattenOrdered | trunk/matlab/FiltersToolbox/im2imat.cpp:172-217 | concatenating ascending lists voxel by voxel gives column order |
| Im2Imat.CountNonzero | trunk/matlab/FiltersToolbox/im2imat.cpp:209-211 | the count of nonzero neighbours never exceeds the list length |
| Im2Imat.ZeroIsNotCounted | trunk/matlab/FiltersToolbox/im2imat.cpp:209-211 | a neighbour of intensity zero makes the count smaller than the list |
| Im2Imat.EntriesBeforeNext | trunk/matlab/FiltersToolbox/im2imat.cpp:172-217 | voxel n appends exactly its own list to the entries |
| Im2Imat.CountedBeforeMonotone | trunk/matlab/FiltersToolbox/im2imat.cpp:233-235 | after the prefix sum jc[0] = 0 and jc is nondecreasing |
| Im2Imat.CountedBeforeVersusEntries | trunk/matlab/FiltersToolbox/im2imat.cpp:209-217 | jc never exceeds the entries written, and falls behind them once a zero neighbour is stored |
| Im2Imat.CountedBeforeWithoutZeros | trunk/matlab/FiltersToolbox/im2imat.cpp:209-217 | without zero intensities, jc[n] equals the number of entries of the first n voxels |
| Im2Imat.RowsWeightsAt | trunk/matlab/FiltersToolbox/im2imat.cpp:204-214 | slot k of ir holds entry k's row, and slot k of pr the mean of the two intensities |
| Im2Imat.FillVoxel | trunk/matlab/FiltersToolbox/im2imat.cpp:186-221 | the neighbour loops append the voxel's entries to ir/pr, add its nonzero count to jc[idx+1], and change nothing else |
| Im2Imat.VisitSlice | trunk/matlab/FiltersToolbox/im2imat.cpp:186-220 | one iteration of the outer neighbour loop runs the whole column loop for slice nns and moves the slice loop's state from nns to nns+1 |
| Im2Imat.FillColumnNeighbours | trunk/matlab/FiltersToolbox/im2imat.cpp:188-220 | the middle neighbour loop completes its slice's columns |
| Im2Imat.VisitColumn | trunk/matlab/FiltersToolbox/im2imat.cpp:188-219 | one iteration of the middle loop runs the whole row loop for column nnc and moves the column loop's state from nnc to nnc+1 |
| Im2Imat.FillRowNeighbours | trunk/matlab/FiltersToolbox/im2imat.cpp:190-219 | the innermost neighbour loop completes its column's rows |
| Im2Imat.VisitRow | trunk/matlab/FiltersToolbox/im2imat.cpp:190-218 | one iteration of the innermost loop moves the row loop's state from row nnr to nnr+1, and jc changes only at idx+1 |
| Im2Imat.VisitNeighbour | trunk/matlab/FiltersToolbox/im2imat.cpp:193-217 | one neighbour: skip the voxel itself and Inf; else write ir/pr at outidx, count it in jc[idx+1] if nonzero, and advance outidx |
| Im2Imat.VisitVoxel | trunk/matlab/FiltersToolbox/im2imat.cpp:174-224 | one voxel moves the filled state from voxel n to n+1, and nedg catches up with outidx |
| Im2Imat.ScanColumn | trunk/matlab/FiltersToolbox/im2imat.cpp:174-226 | the row loop fills voxels n .. n+R-1 |
| Im2Imat.ScanSlice | trunk/matlab/FiltersToolbox/im2imat.cpp:173-227 | the column loop fills the R*C voxels of a slice |
| Im2Imat.ScanVolume | trunk/matlab/FiltersToolbox/im2imat.cpp:167-228 | the voxel loops fill ir/pr with all entries in order, set jc[i+1] to voxel i's nonzero count, and return nedg = entries written |
| Im2Imat.NumFiniteExtremes | trunk/matlab/FiltersToolbox/im2imat.cpp:113-116 | nvox = number of voxels iff none is Inf, and 0 iff all are |
| Im2Imat.CountFinite | trunk/matlab/FiltersToolbox/im2imat.cpp:113-116 | the nvox loop counts the non-Inf voxels |
| Im2Imat.CumulativeSum | trunk/matlab/FiltersToolbox/im2imat.cpp:233-235 | afterwards jc[k] is the sum of the first k+1 original entries |
| Im2Imat.PrefixOfCounts | trunk/matlab/FiltersToolbox/im2imat.cpp:230-235 | the prefix sum of [0] + counts gives at k the counts of the first k voxels |
| Im2Imat.CheckArgs | trunk/matlab/FiltersToolbox/im2imat.cpp:80-109 | Ok iff exactly 1 input, at most 1 output, 3 dimensions each >= 3, and class double; otherwise, in this order: the input-count error, the output-count error, the dimension-count error for other than 2 or 3 dimensions, the size error for a 2-D image (S = 1) or a dimension below 3, and the class error for a non-double image |
| Im2Imat.NumelOfVolume | trunk/matlab/FiltersToolbox/im2imat.cpp:88-97 | a 3-D array has R*C*S elements |
| Im2Imat.Im2Imat | trunk/matlab/FiltersToolbox/im2imat.cpp:80-240 | argument errors as CheckArgs; else fresh ir/pr of 26*R*C*S, jc of R*C*S+1 holding the cumulative nonzero counts, all entries written, nzmax = nedg |
| VoxelTypes.InputVoxelType | matlab/ItkToolbox/ItkImFilter.cpp:461-499 | Ok iff the class is logical, double, single, int8, uint8, int16, uint16, int32 or int64; the unknown class and the other classes have their own messages |
| VoxelTypes.InputVoxelTypeInjective | matlab/ItkToolbox/ItkImFilter.cpp:461-499 | different classes get different voxel types |
| VoxelTypes.DanielssonOutput | matlab/ItkToolbox/ItkImFilter.cpp:379-399 | the nbit chain yields logical, uint8, uint16, float or double |
| VoxelTypes.DanielssonOutputMonotone | matlab/ItkToolbox/BaseFilter.cpp:173-186 | a larger nbit never selects a narrower type |
| VoxelTypes.DanielssonOutputReaches | matlab/ItkToolbox/ItkImFilter.cpp:373-399 | above 2 bits the selected type reaches nbit bits; at nbit <= 2 the logical type holds only one bit |
| ItkImFilter.ParseFilterName | matlab/ItkToolbox/ItkImFilter.cpp:520-554 | a filter is selected only by its short or long name; any other string is "Filter type not implemented" |
| ItkImFilter.NamesSelectTheirFilter | matlab/ItkToolbox/ItkImFilter.cpp:520-548 | each filter's short and long name select that filter |
| ItkImFilter.ShortNameSelects | matlab/ItkToolbox/ItkImFilter.cpp:53-84 | the short names skel, dandist, maudist, bwdilate and bwerode each select their own filter (dandist as at MexDanielssonDistanceMapImageFilter.cpp:55-56) |
| ItkImFilter.LongNameSelects | matlab/ItkToolbox/MexDanielssonDistanceMapImageFilter.cpp:53-54 | each filter's long name selects that filter |
| ItkImFilter.OutputVoxelType | matlab/ItkToolbox/ItkImFilter.cpp:365-438 | thinning/dilate/erode keep the input type, Maurer gives double, Danielsson follows nbit; thinning or Maurer with logical input is "Input type incompatible" |
| ItkImFilter.Dispatch | matlab/ItkToolbox/ItkImFilter.cpp:443-571 | fewer than 2 inputs is an error, then a bad FILTER string, then an unknown name ("Filter type not implemented"), then an unsupported class (the unknown-class or invalid-type message), then logical input to thinning or Maurer ("Input type incompatible with this filter") |
| ItkImFilter.NameCheckedBeforeClass | matlab/ItkToolbox/ItkImFilter.cpp:525-554 | an unknown name is reported even for an unsupported class |
| ItkImFilter.RunStagesOrder | matlab/ItkToolbox/ItkImFilter.cpp:331-344 | the output count is checked first, every stage runs once, and export follows the run |
| ItkImFilter.MexFilter.CheckOutputs | matlab/ItkToolbox/ItkImFilter.cpp:332 | the Danielsson filter's own check, the base check for the others |
| ItkImFilter.RunFilter | matlab/ItkToolbox/ItkImFilter.cpp:316-349 | a null filter is an error; a failed output check stops before any other stage; otherwise all stages run in order |
| BaseFilter.ParseKind | matlab/ItkToolbox/BaseFilter.cpp:130-145 | only "skel", "dandist" and "maudist" are accepted |
| BaseFilter.SameOutputAsItkImFilter | matlab/ItkToolbox/BaseFilter.cpp:162-193 | skel keeps the input type, maudist gives double, dandist uses the same nbit thresholds as itk_imfilter, which rejects logical input for skel and maudist where BaseFilter does not |
| BaseFilter.OutputClass | matlab/ItkToolbox/BaseFilter.cpp:371-384 | bool→logical, uint8, uint16, float→single and double; any other type is the assertion error |
| BaseFilter.OutputClassDefined | matlab/ItkToolbox/BaseFilter.cpp:371-384 | distance filters always have an output class; skel has one only for non-signed-integer input |
| BaseFilter.Dispatch | matlab/ItkToolbox/BaseFilter.cpp:162-271 | the input class is checked before the filter name, with the same class mapping as itk_imfilter (logical as bool); only skel, dandist and maudist pass; the output type follows the filter |
| BaseFilter.CopyIntoItkImage | matlab/ItkToolbox/BaseFilter.cpp:343-354 | every voxel is copied into the ITK image, in order |
| BaseFilter.CopyOutput | matlab/ItkToolbox/BaseFilter.cpp:398-402 | exactly numEl elements are copied in iterator order |
| BaseFilter.Construct | matlab/ItkToolbox/BaseFilter.cpp:290-402 | R == 0 or C == 0 gives a 0x0 double array; otherwise the class error or an array of the input's size holding the filter's output |
| BaseFilter.Run | matlab/ItkToolbox/BaseFilter.cpp:162-402 | argument errors come first, even for an empty image; then as Construct: a fresh 0x0 double array when R or C is 0, otherwise the output-class error or a fresh array of the input's dimensions and the output class holding the filter's output |

## Left out

- CgalClosestTriFacet.ClosestTriFacet: D holds the squared distance. The square root at CgalClosestTriFacet.cpp:247 is floating point and is not modelled.
- CgalClosestTriFacet.FillOutputs: as above, D is the sum of squares before the square root.
- CgalClosestTriFacet.FillRow: as above, D[i] is the sum of squares before the square root.
- CgalClosestTriFacet.SquaredDistance: computed in exact reals; the source's double rounding is not modelled (see Kernels below).
- VoxelTypes.DanielssonOutput: nbit is an input. Computing it with `ceil(log(...))` is floating point. So is the cast of a negative ceiling to the unsigned `mwSize`.
- CGAL internals (AABB tree, `all_intersections`, `closest_point_and_primitive`, `accelerate_distance_queries`) are foreign code and appear as inputs.
- Kernels: CgalCheckSelfIntersect.cpp:89 uses CGAL's exact-constructions kernel, so exact point equality in the model matches it. CgalClosestTriFacet.cpp:87 uses `Simple_cartesian<double>`: its coordinates and the sum of squares at :243-246 are rounded doubles there, and the model computes them in exact reals. That rounding is not modelled.
- The Matlab import/export filters are not shown. Left out with them:
  - `CheckNumberOfArguments`;
  - reading ITRI and rows of X;
  - the initial contents of the output buffer: the count buffer's contents are named, not assumed zero;
  - the TRI NaN test, which looks at an integer and cannot fire.
- `ctrlcCheckPoint` (interrupt handling) is not modelled.
- Allocation failures are not modelled:
  - im2imat.cpp:124 and 131-151;
  - "Cannot allocate memory for output matrix" in BaseFilter;
  - the buffers of the CGAL functions.
- Integer widths: indices and sizes are unbounded naturals, so `mwSize` overflow of R*C*S*26 is not modelled.
- Intensities are `Inf` or an exact real. NaN and the rounding of `(a + b) * 0.5` are not modelled.
- Im2Imat.Im2Imat: `nvox` is computed as in the source and then unused, as there. `jc` counts only nonzero neighbours while `ir`/`pr` hold every finite neighbour. The model keeps this behaviour; `CountedBeforeVersusEntries` and `CountedBeforeWithoutZeros` state its effect.
- ItkImFilter.LongName: only Danielsson's long name appears in the source files of this model. The other four long names are taken to be the ITK class names.
- ItkImFilter.Dispatch: building the `NrrdImage` from the second argument may fail. NrrdImage is not part of this model.
- The filters' own parameters (dilate/erode radius and foreground) are not modelled.
- ItkImFilter.MexFilter.CheckOutputs: the base class's `CheckNumberOfOutputs` is not part of this model. Its outcome is the input `baseCheck`.
- ItkImFilter.MexFilter.Call records that a stage ran. What the stage does to the images is ITK code and is not modelled.
- BaseFilter.Construct:
  - the ITK filter is the input `itkFilter`;
  - the ITK region, start and spacing set-up is not modelled;
  - `numEl` is taken to be the number of input elements;
  - the `FilterParamFactory` is not part of this model.
- FilterExclusions.cpp is not part of this model. It may turn some BaseFilter type combinations into empty constructors.
- `mxLogical` and `bool` are one voxel type here.
- The Danielsson filter calls `ind2sub_itkOffset`, which is declared in GerardusCommon.hpp. Its definition is not part of this model. It is taken to be the `ind2sub` of GerardusCommon.cpp.
- The caller of BaseFilter's `parseInputTypeToTemplate` is not part of this model. It reads the filter string, the image and the input class.
- The unreachable `default` of BaseFilter's output-type switch ("Invalid output type.") is not modelled.
