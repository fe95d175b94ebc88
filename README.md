# Prismatic output-file schema, modelled in Dafny

Prismatic is a STEM image simulator. It writes its results to an HDF5 file laid out in the EMD
format (version 0.5), with a metadata tree in the py4DSTEM 0.4 layout. `src/fileIO.cpp` holds the
layer that fixes this layout. It creates the group skeleton, makes one result group per output
depth, writes and accumulates datasets through hyperslabs, builds virtual datasets that stack
realslices into supergroups, and stores the run parameters as attributes.

This project models that layer over an abstract file. `Container.H5File` is a class whose field
`nodes` maps a path (a sequence of link names, where the root is `[]`) to a node. A node is either
a group with attributes, or a dataset with an element type, a shape, its contents and its
attributes. Every library call is a checked update of that map:

- creating a name that already exists under a group is an error;
- opening a name that does not exist is an error;
- writing a selection that does not fit the dataset is an error.

A method reports such an error by returning `ok == false`. The changes made before the error stay
in the file, as they would after a C++ exception.

The modules follow the source:

| Module | File | What it models |
|---|---|---|
| `Naming` | `naming.dfy` | `getDigitString`, `reducedDataSetName` |
| `Hyperslab` | `hyperslab.dfy` | row-major indexing and hyperslab selections |
| `Container` | `container.dfy` | the file |
| `Layout` | `layout.dfy` | result groups and their per-depth stacks |
| `Counting` | `counting.dfy` | `countDataGroups`, `countDimensions` |
| `Setup` | `setup.dfy` | the `setup*` functions and `savePotentialSlices` |
| `Writers` | `writers.dfy` | the dataset writers |
| `Virtual` | `virtual.dfy` | `writeVirtualDataSet`, `copyDataSet`, `configureSupergroup` |
| `DepthSeries` | `depthseries.dfy` | `depthSeriesSG` |
| `Metadata` | `metadata.dfy` | `writeMetadata` |

The loops of the source are loops here. These include the crop counters, the division, transpose
and add loops of `writeDatacube4D`, the `max_dims`, `mdims` and `offset` loops of
`writeVirtualDataSet`, the per-layer and per-dimension creation loops, and the counting loops.
Each loop method is proved against a specification function, and the properties the format
promises are proved about those functions as lemmas.

## Model

| member | source | states |
|---|---|---|
| Naming.DigitString | src/fileIO.cpp:832-838 | a non-negative index gives at least four decimal digits; a negative one gives a '-' followed by digits, at least four characters in all |
| Naming.FourDigits | src/fileIO.cpp:832-838 | for 0 <= n <= 9999 the name suffix is exactly four decimal digits whose value is n |
| Naming.DigitStringRoundTrip | src/fileIO.cpp:832-838 | reading the suffix back as a signed decimal gives the index, for every int |
| Naming.DigitStringInjective | src/fileIO.cpp:832-838 | distinct indices give distinct suffixes |
| Naming.LayerNameInjective | src/fileIO.cpp:158-160 | base + getDigitString(a) == base + getDigitString(b) only when a == b, so the per-depth group names never collide |
| Naming.DimNameInjective | src/fileIO.cpp:1289 | "dim" + to_string(a) == "dim" + to_string(b) only when a == b |
| Naming.DigitStringNoSlash | src/fileIO.cpp:832-838 | the suffix never contains '/', so base + suffix is a single link name |
| Naming.DecimalValue | src/fileIO.cpp:1289 | the decimal spelling of k reads back as k |
| Naming.ZeroPadValue | src/fileIO.cpp:834-837 | left zero padding keeps the value of the digits |
| Naming.Decimal | src/fileIO.cpp:1289 | std::to_string of a non-negative integer is a non-empty string of decimal digits |
| Naming.ZeroPad | src/fileIO.cpp:834-837 | padding a digit string gives decimal digits only, of length max(\|s\|, width) |
| Naming.PathName | src/fileIO.cpp:1434 | getObjName: "/" for the root, otherwise each link name preceded by a '/' |
| Naming.FindLastOf | src/fileIO.cpp:1427 | the result is npos exactly when the character is absent; otherwise it is the position of the last occurrence |
| Naming.ReducedDataSetName | src/fileIO.cpp:1425-1429 | the result is a suffix of the input; it holds no '/'; when it is shorter than the input it is preceded by a '/'; so it is the text after the last '/', or the whole input |
| Naming.ReducedNameOfPath | src/fileIO.cpp:1434-1435 | for an object's absolute name, reducedDataSetName gives its last link name |
| Hyperslab.FlattenBound | src/fileIO.cpp:1366 | the row-major offset of an in-range index tuple lies below the product of the extents |
| Hyperslab.UnflattenFlatten | src/fileIO.cpp:1366 | decoding the row-major offset of an in-range tuple gives the tuple back |
| Hyperslab.FlattenUnflatten | src/fileIO.cpp:1366 | every offset below the product decodes to an in-range tuple that encodes to it |
| Hyperslab.FileIndex | src/fileIO.cpp:672-678 | element m of the memory buffer lands inside the dataset and inside the selected block |
| Hyperslab.MemIndex | src/fileIO.cpp:672-678 | a dataset element inside the block comes from a buffer position below the block size |
| Hyperslab.FileMemInverse | src/fileIO.cpp:672-678 | the map from buffer to dataset is undone by the map from dataset to buffer |
| Hyperslab.MemFileInverse | src/fileIO.cpp:672-678 | the map from dataset to buffer is undone by the map from buffer to dataset, so the block is a bijection |
| Hyperslab.ReadSlab | src/fileIO.cpp:672-675 | a hyperslab read yields exactly as many elements as the block holds |
| Hyperslab.WriteSlab | src/fileIO.cpp:678 | a hyperslab write keeps the size of the dataset |
| Hyperslab.WriteSlabAt | src/fileIO.cpp:678 | after a hyperslab write, the dataset element of buffer position m is buffer[m] |
| Hyperslab.ReadAfterWrite | src/fileIO.cpp:672-678 | reading a hyperslab right after writing it gives the written buffer |
| Hyperslab.WriteWhatWasRead | src/fileIO.cpp:672-678 | writing back what was read changes nothing |
| Container.Fill | src/fileIO.cpp:584-586 | a created but unwritten dataset holds the fill value of its type, one element per position |
| Container.ChildOfAbsent | src/fileIO.cpp:32-54 | in a well-formed file nothing lies under a missing group |
| Container.NoDescendants | src/fileIO.cpp:32-54 | no path at any depth lies under a missing group |
| Container.InsertWellFormed | src/fileIO.cpp:14-54 | creating a valid name under an existing group keeps the file well formed |
| Container.ReplaceWellFormed | src/fileIO.cpp:23-29 | rewriting an object's attributes or contents keeps the file well formed |
| Container.H5File.constructor | src/fileIO.cpp:11-14 | a new file holds only the root group |
| Container.H5File.NameExists | src/fileIO.cpp:1238 | nameExists: the path names an object of the file |
| Container.H5File.CreateGroup | src/fileIO.cpp:14 | succeeds exactly when the parent is a group and the name is valid and free; then adds that group with its attributes, and otherwise changes nothing |
| Container.H5File.CreateDataSet | src/fileIO.cpp:187-189 | succeeds exactly when the parent is a group and the name is valid and free; then adds the dataset, and otherwise changes nothing |
| Container.H5File.CreateAttribute | src/fileIO.cpp:23-29 | succeeds exactly when the object exists and lacks the key; then adds the attribute and nothing else |
| Container.H5File.WriteFloats | src/fileIO.cpp:618-627 | succeeds exactly on a float dataset whose size equals the buffer length; then replaces its contents |
| Container.H5File.WriteStringAt | src/fileIO.cpp:700-706 | succeeds exactly on a string dataset with an element i; then replaces that element only |
| Container.H5File.ReadHyperslab | src/fileIO.cpp:672-675 | succeeds exactly on a stored float dataset whose shape the block fits; then returns the block's elements |
| Container.H5File.WriteHyperslab | src/fileIO.cpp:678 | succeeds under the same condition; then replaces the block's elements and nothing else |
| Layout.EntriesHold | src/fileIO.cpp:158-246 | a result group created at a free path has exactly its attributes and members there |
| Layout.LayersKeys | src/fileIO.cpp:158-246 | every object a per-depth stack adds lies under the parent group |
| Layout.LayersFresh | src/fileIO.cpp:158-160 | a stack of n groups never adds the group of index n or later |
| Layout.HoldsOfEntries | src/fileIO.cpp:158-246 | the entries of a group added where nothing was give it exactly its spec |
| Layout.HoldsAfterDisjoint | src/fileIO.cpp:158-246 | adding objects elsewhere keeps a group's exact contents |
| Layout.EntriesApart | src/fileIO.cpp:158-160 | layers with different indices touch disjoint paths |
| Layout.LayersHold | src/fileIO.cpp:158-246 | after the whole per-depth loop, layer n has exactly the attributes and members of spec n |
| Layout.LayersHoldTop | src/fileIO.cpp:158-246 | the last layer added holds its spec |
| Layout.LayersHoldBelow | src/fileIO.cpp:158-246 | adding a later layer keeps every earlier layer's spec |
| Layout.CalibratedRun | src/fileIO.cpp:194-243 | in a calibrated group dim1 .. dimN exist without gap and dimN+1 does not, N being the rank of the primary dataset |
| Layout.CalibratedAxes | src/fileIO.cpp:194-243 | in a calibrated group dimK is a one-dimensional dataset whose length is extent K of the primary dataset, for every axis K |
| Layout.LayerSchema | src/fileIO.cpp:158-246 | layer n of a stack of calibrated specs holds its spec, and its dim run has the rank of its primary dataset |
| Layout.LayerFacts | src/fileIO.cpp:158-246 | a group holding a spec holds each member under its name |
| Layout.CreateResultGroup | src/fileIO.cpp:160-243 | succeeds exactly when the group name is free under an existing group; adds the group, its attributes and every member; otherwise changes nothing |
| Layout.LayerNameValid | src/fileIO.cpp:158-160 | base + getDigitString(n) is a valid link name whenever base has no '/' |
| Layout.LayerStep | src/fileIO.cpp:158-246 | one more loop iteration adds exactly the next layer |
| Layout.CreateLayers | src/fileIO.cpp:158-246 | succeeds exactly when the parent is a group and no name base0000 .. base(n-1) exists; it then adds exactly those layers; the file only ever grows |
| Counting.LayerImageCard | src/fileIO.cpp:1233-1246 | the names base + pad(i) for i < k are k distinct paths |
| Counting.PresentBound | src/fileIO.cpp:1233-1246 | a run of k present groups needs at least k objects, so the counting loop ends |
| Counting.RunUnique | src/fileIO.cpp:1233-1246 | at most one k gives a gap-free run base0000 .. base(k-1) with base(k) missing |
| Counting.GapStopsRun | src/fileIO.cpp:1238-1242 | with base0000 and base0002 present and base0001 missing, the count is exactly 1 |
| Counting.MissingFirstGivesZero | src/fileIO.cpp:1238-1242 | with base0000 missing the count is 0, whatever later indices exist |
| Counting.CountDataGroups | src/fileIO.cpp:1233-1246 | the result k has base + pad(i) present for every i < k and base + pad(k) missing |
| Counting.DimImageCard | src/fileIO.cpp:1248-1262 | the names base1 .. basek are k distinct paths |
| Counting.DimRunUnique | src/fileIO.cpp:1248-1262 | at most one k gives a gap-free run base1 .. basek with base(k+1) missing |
| Counting.CountDimensions | src/fileIO.cpp:1248-1262 | the result k has base1 .. basek present and base(k+1) missing |
| Counting.CountOfCalibrated | src/fileIO.cpp:1286 | on a calibrated group, countDimensions gives the rank of the primary dataset |
| Setup.DimNode | src/fileIO.cpp:194-243 | a calibration axis is a well-formed one-dimensional dataset as long as its values |
| Setup.Primary | src/fileIO.cpp:180-190 | a primary dataset has the requested shape and holds fill values |
| Setup.ChildGroupsKeys | src/fileIO.cpp:32-54 | the skeleton groups under a parent are exactly parent/name for the listed names, all without attributes |
| Setup.SkeletonMap | src/fileIO.cpp:11-55 | the skeleton: /4DSTEM_simulation with its three version attributes, data and its six groups, log, metadata, metadata_0, original with shortlist and all, and the five metadata_0 groups, all without attributes but the first |
| Setup.CreateGroups | src/fileIO.cpp:32-38 | creating the listed free names adds exactly those groups |
| Setup.CreateDataGroups | src/fileIO.cpp:31-38 | with data free under the simulation group, adds exactly data and its six groups |
| Setup.CreateMetadataGroups | src/fileIO.cpp:40-54 | with log and metadata free, adds exactly log, metadata and the metadata_0 tree |
| Setup.CreateMetadata0 | src/fileIO.cpp:43-54 | with metadata_0 free under metadata, adds exactly metadata_0, original with its two groups, and microscope, sample, user, calibration and comments |
| Setup.CreateOriginal | src/fileIO.cpp:47-49 | with original free under metadata_0, adds exactly original, shortlist and all |
| Setup.SetupOutputFile | src/fileIO.cpp:11-55 | succeeds exactly when /4DSTEM_simulation is free; it then adds exactly the skeleton: the simulation group with version_major 0, version_minor 5 and emd_group_type 2, data with its six groups, log, metadata, metadata_0 with its groups, and original with shortlist and all; on failure nothing changes |
| Setup.SkeletonLeavesLayersFree | src/fileIO.cpp:32-38 | the skeleton has nothing at depth four under data |
| Setup.SkeletonReady | src/fileIO.cpp:11-55 | after setupOutputFile datacubes and realslices are groups and every per-depth name under them is free, so each per-depth setup succeeds, setup4DOutput when its chunk extents are also nonzero |
| Setup.SkeletonGroups | src/fileIO.cpp:33-35 | datacubes and realslices are groups of the skeleton |
| Setup.PrefixBelow | src/fileIO.cpp:87-109 | the number of leading entries below qMax, stopping at the first one that is not |
| Setup.PrefixBelowSpec | src/fileIO.cpp:87-109 | PrefixBelow is the length of the longest prefix whose entries are all below qMax |
| Setup.PrefixBelowUnique | src/fileIO.cpp:87-109 | any prefix length with that property equals PrefixBelow |
| Setup.CountBelow | src/fileIO.cpp:87-97 | the crop loop counts the entries before the first one that is not below qMax |
| Setup.Window4D | src/fileIO.cpp:82-133 | the crop rule: twice the prefix of qx and of qy below crop4Damax/lambda at offset 0 when cropping; else half the probe extents at a quarter offset for Multislice; else the whole grid at offset 0 |
| Setup.ReciprocalWindow | src/fileIO.cpp:82-133 | when cropping, the extent is twice the longest prefix of qx below crop4Damax/lambda, at offset 0; the result equals the three-branch crop rule |
| Setup.Layer4D | src/fileIO.cpp:158-243 | one CBED_array_depth group: the data-group attributes with output_depth, the float datacube (\|xp\|, \|yp\|, qxInd_max, qyInd_max), and dim1 .. dim4 holding xp, yp and the windows of the q axes with their names and units |
| Setup.Layer4DCalibrated | src/fileIO.cpp:158-243 | the 4D group's datacube has shape (\|xp\|, \|yp\|, qxInd_max, qyInd_max); dim1 .. dim4 have those lengths; there is no dim5; this holds in every branch of the crop rule |
| Setup.Layer4DLabelled | src/fileIO.cpp:215-243 | dim1 .. dim4 carry name and units R_x, R_y in [n_m] and Q_x, Q_y in [n_m^-1] |
| Setup.ChunkOK | src/fileIO.cpp:143-183 | the chunk extents (1, 1, qxInd_max, qyInd_max) given to setChunk are all nonzero, which the library demands |
| Setup.ChunkOKIff | src/fileIO.cpp:82-183 | the chunk is refused exactly when cropping keeps no entry of qx or of qy, when a Multislice probe extent is below 2, or when an axis of the full grid is empty |
| Setup.Setup4DOutput | src/fileIO.cpp:57-249 | succeeds exactly when datacubes is a group, CBED_array_depth0000 .. (numLayers-1) are free and, when numLayers > 0, both chunk extents qxInd_max and qyInd_max (the same for every layer) are nonzero; it then adds exactly those layers, one per depth; when a chunk extent is 0 the file gains only CBED_array_depth0000 with its three attributes (or nothing, if that group cannot be created); the file only ever grows |
| Setup.Layer4DHolds | src/fileIO.cpp:158-212 | a written 4D group has emd_group_type 1, metadata 0 and output_depth; its datacube extent is (\|xp\|, \|yp\|, qxInd_max, qyInd_max); dim3 holds qx[offset .. offset + qxInd_max) |
| Setup.Setup4DSchema | src/fileIO.cpp:158-246 | after setup4DOutput, layer n holds the 4D spec for depth n and countDimensions of it is 4 |
| Setup.LayerVD | src/fileIO.cpp:267-338 | one virtual_detector_depth group: the data-group attributes, the realslice (\|xp\|, \|yp\|, Ndet) and dim1 .. dim3 with xp, yp and the first Ndet detector angles |
| Setup.Layer2D | src/fileIO.cpp:360-427 | one annular_detector_depth group: the data-group attributes with depth = 1, the realslice (\|xp\|, \|yp\|), and dim1 and dim2 |
| Setup.LayerDPC | src/fileIO.cpp:451-522 | one DPC_CoM_depth group: the data-group attributes, the realslice (\|xp\|, \|yp\|, 2), dim1 and dim2, and dim3 holding the two labels |
| Setup.LayerVDCalibrated | src/fileIO.cpp:267-338 | the virtual-detector realslice has shape (\|xp\|, \|yp\|, Ndet); dim1 .. dim3 match it; they are labelled R_x, R_y and bin_outer_angle [mrad] |
| Setup.Layer2DCalibrated | src/fileIO.cpp:360-427 | the annular realslice has shape (\|xp\|, \|yp\|); dim1 and dim2 match it and are labelled R_x and R_y |
| Setup.LayerDPCCalibrated | src/fileIO.cpp:451-522 | the DPC realslice has shape (\|xp\|, \|yp\|, 2); dim1 .. dim3 match it; dim3 holds the labels DPC_CoM_x and DPC_CoM_y |
| Setup.SetupVDOutput | src/fileIO.cpp:251-344 | succeeds exactly when realslices is a group and virtual_detector_depth0000 .. are free; it then adds exactly those layers |
| Setup.Setup2DOutput | src/fileIO.cpp:346-433 | succeeds exactly when realslices is a group and annular_detector_depth0000 .. are free; it then adds exactly those layers, each also with depth = 1 |
| Setup.SetupDPCOutput | src/fileIO.cpp:435-528 | succeeds exactly when realslices is a group and DPC_CoM_depth0000 .. are free; it then adds exactly those layers |
| Setup.LayerVDHolds | src/fileIO.cpp:267-338 | a written VD group has the data-group attributes; its realslice extent is (\|xp\|, \|yp\|, Ndet); dim3 holds the first Ndet detector angles |
| Setup.SetupVDSchema | src/fileIO.cpp:267-341 | after setupVDOutput, layer n holds the VD spec for depth n and countDimensions of it is 3 |
| Setup.SMatrixSpec | src/fileIO.cpp:530-616 | the smatrix_fp group: emd_group_type 1 and metadata 0, the complex realslice of the Scompact extent, and three axes sized from xp, yp and numberBeams holding fill values |
| Setup.SMatrixCalibratedIff | src/fileIO.cpp:530-616 | the S-matrix axes are sized from xp, yp and numberBeams, so the group is calibrated exactly when the Scompact extent is (\|xp\|, \|yp\|, numberBeams) |
| Setup.SetupSMatrixOutput | src/fileIO.cpp:530-616 | succeeds exactly when smatrix_fpNNNN is free under realslices; it then adds that group and its members; otherwise nothing changes |
| Setup.Calibration | src/fileIO.cpp:743-748 | the calibration loop yields n entries, entry i being i * step |
| Setup.PotentialSpec | src/fileIO.cpp:710-830 | the ppotential_fp group: emd_group_type 1 and metadata 0, the x, y and z axes sampled at the pixel sizes and the slice thickness, and the restrided potential as realslice |
| Setup.PotentialCalibrated | src/fileIO.cpp:710-830 | the potential group is calibrated: the x, y and z axes have the lengths of the three extents; dim3 is R_z in [n_m] sampled at sliceThickness |
| Setup.SavePotentialSlices | src/fileIO.cpp:710-830 | succeeds exactly when ppotential_fpNNNN is free under realslices; it then adds that group with the restrided potential and its three axes |
| Writers.WriteFull | src/fileIO.cpp:618-639 | a full write succeeds exactly on a float dataset as large as the memory extent; it then stores the buffer's first elements |
| Writers.WriteRealSlice | src/fileIO.cpp:618-627 | with a rank-2 memory extent: succeeds exactly on a float dataset of that size, then stores the buffer's first mdims[0] * mdims[1] elements; otherwise nothing changes |
| Writers.WriteDatacube3D | src/fileIO.cpp:629-639 | with a rank-3 memory extent: succeeds exactly on a float dataset of that size, then stores the buffer's first elements; otherwise nothing changes |
| Writers.FullSelection | src/fileIO.cpp:618-639 | the whole extent at offset zero fits, and reading it gives the dataset's contents in order |
| Writers.Divided | src/fileIO.cpp:658-659 | after the division loop, each of the first n elements times numFP is its old value; the rest is kept |
| Writers.Transposed | src/fileIO.cpp:663-669 | the exchanged plane has d2 * d3 elements |
| Writers.TransposedAt | src/fileIO.cpp:663-669 | finalBuffer[i * d3 + j] == buffer[j * d2 + i] |
| Writers.TransposedTwice | src/fileIO.cpp:663-669 | exchanging the axes twice gives the plane back |
| Writers.Accumulate | src/fileIO.cpp:672-678 | the read-add-write keeps the size of the datacube |
| Writers.AccumulateAt | src/fileIO.cpp:672-678 | block element m becomes its old value plus finalBuffer[m] |
| Writers.AccumulateOutside | src/fileIO.cpp:672-678 | nothing outside the selected block changes |
| Writers.AccumulateCommutes | src/fileIO.cpp:642-689 | two frozen-phonon contributions accumulate to the same datacube in either order |
| Writers.Contribution | src/fileIO.cpp:658-669 | one probe position adds a plane of d2 * d3 elements |
| Writers.ContributionAt | src/fileIO.cpp:658-669 | entry (i, j) of the added plane, times numFP, is buffer[j * d2 + i] |
| Writers.DivideBuffer | src/fileIO.cpp:658-659 | the caller's buffer becomes its old value divided by numFP on the first n elements |
| Writers.TransposeBuffer | src/fileIO.cpp:662-669 | the fresh buffer is the exchanged plane |
| Writers.AddInto | src/fileIO.cpp:674-675 | the buffer becomes the pointwise sum |
| Writers.Add | src/fileIO.cpp:674-675 | the pointwise sum of two buffers of the same length |
| Writers.WriteDatacube4D | src/fileIO.cpp:642-689 | succeeds exactly when the group and its datacube open and the block fits; the caller's buffer is then divided by numFP; the selected block gains the transposed plane; nothing else in the file changes |
| Writers.Overwrite | src/fileIO.cpp:700-706 | the first m strings are replaced and the rest kept |
| Writers.WriteStringArray | src/fileIO.cpp:691-708 | succeeds exactly when nothing is to be written or the string vector has room for all elements; it overwrites the first elements, and a failure keeps the strings written before it |
| Writers.WriteStrings | src/fileIO.cpp:700-706 | over an existing string vector, the loop succeeds exactly when the vector has room for all elements; the first min(elements, length) entries are then the given strings and the rest are kept |
| Writers.WithStrings | src/fileIO.cpp:700-706 | the file with the strings of one vector replaced and every other object kept |
| Writers.WriteAllReplaces | src/fileIO.cpp:691-708 | writing as many strings as a vector holds (as for the DPC labels at src/fileIO.cpp:496-503) leaves exactly those strings in it, whatever it held; its shape, attributes and every other object are kept |
| Virtual.ColumnMaxIsMax | src/fileIO.cpp:1319-1327 | max_dims[j] bounds every member's j-th index and is one of them |
| Virtual.ColumnMax | src/fileIO.cpp:1319-1327 | max_dims[j]: the largest j-th index over the members, 0 for none |
| Virtual.Extent | src/fileIO.cpp:1335-1348 | the virtual extent has rank + new_rank axes |
| Virtual.Block | src/fileIO.cpp:1335-1348 | each member's block has rank + new_rank axes |
| Virtual.MemberOffset | src/fileIO.cpp:1364 | the offset has rank + new_rank entries |
| Virtual.Sources | src/fileIO.cpp:1359-1368 | one mapping per member, in order |
| Virtual.VirtualNode | src/fileIO.cpp:1373 | the virtual dataset is a well-formed dataset |
| Virtual.BlockInside | src/fileIO.cpp:1344-1366 | every member's block at its offset lies inside the virtual extent |
| Virtual.ExtentTight | src/fileIO.cpp:1319-1348 | along each new axis some member's block reaches the end of the extent |
| Virtual.BlocksDisjoint | src/fileIO.cpp:1359-1368 | two members whose blocks share a point have the same index tuple |
| Virtual.BlockSize | src/fileIO.cpp:1366-1367 | a block holds as many elements as its source |
| Virtual.MaxDims | src/fileIO.cpp:1319-1327 | the scan fills max_dims[j] with the largest j-th index |
| Virtual.VirtualDims | src/fileIO.cpp:1335-1348 | the loops fill mdims with the source shape followed by max + 1, and mdims_ind with the source shape followed by ones |
| Virtual.SetOffset | src/fileIO.cpp:1364 | the offset loop writes the member's indices after the zero source axes |
| Virtual.MapMembers | src/fileIO.cpp:1359-1368 | the mapping loop succeeds exactly when every source has the block's size, and returns the mappings in order |
| Virtual.WriteVirtualDataSet | src/fileIO.cpp:1313-1378 | succeeds exactly when the name is free and the sizes agree; it then adds one virtual dataset of the first member's type over the enlarged extent, mapping member i at offset (0, .., indices[i]) |
| Virtual.CopyDataSet | src/fileIO.cpp:1431-1473 | succeeds exactly when the source is stored and its last link name is free under the target; the copy has the same name, type, shape, contents and attributes |
| Virtual.DimCount | src/fileIO.cpp:1286 | the count of the dim run under a group |
| Virtual.DimRunExists | src/fileIO.cpp:1248-1262 | every group has a dim run, so countDimensions is defined |
| Virtual.CopiedDimsKeys | src/fileIO.cpp:1286-1291 | the copies are exactly sg/dim1 .. sg/dimk |
| Virtual.SgDimsKeys | src/fileIO.cpp:1294-1309 | the supergroup axes are exactly sg/sgdim1 .. sg/sgdimn |
| Virtual.CopiedDims | src/fileIO.cpp:1286-1291 | the copies of the example's dim1 .. dimk under the supergroup, each under its own name |
| Virtual.SgDims | src/fileIO.cpp:1294-1309 | the supergroup axes sgdim1 .. sgdimn, each holding its values with its name and units |
| Virtual.CopyDim | src/fileIO.cpp:1288-1290 | one copy succeeds exactly when dim i+1 is stored and its name is free under the supergroup; it then adds exactly that copy |
| Virtual.WriteSgDim | src/fileIO.cpp:1296-1308 | one createDataSet succeeds exactly when sgdim i+1 is free; it then adds exactly that axis |
| Virtual.CopyDims | src/fileIO.cpp:1286-1291 | the copy loop succeeds exactly when every dim can be copied, and then adds exactly the copies |
| Virtual.WriteSgDims | src/fileIO.cpp:1294-1309 | the sgdim loop succeeds exactly when sgdim1 .. sgdimn are free; it then adds them with their values, names and units |
| Virtual.ConfigureSupergroup | src/fileIO.cpp:1264-1311 | succeeds exactly when the attributes, copies and sgdims can all be made; the group then has emd_group_type 3 and metadata 0, copies of the example's dim1 .. dimN and the sgdims |
| Virtual.Supergroup | src/fileIO.cpp:1264-1311 | the configured file: the supergroup gains emd_group_type 3 and metadata 0, copies of the example's dims and the sgdims |
| DepthSeries.ReadablePaths | src/fileIO.cpp:1395-1404 | every opened realslice is a dataset |
| DepthSeries.LayerCount | src/fileIO.cpp:1389 | the number of VD layers is the gap-free run length of countDataGroups |
| DepthSeries.ConfigurableIff | src/fileIO.cpp:1407-1421 | in a new vd_depth_series holding only the virtual dataset, configureSupergroup can run exactly when the first layer's dims are stored |
| DepthSeries.StackColumnMax | src/fileIO.cpp:1401 | the stack indices [0] .. [num-1] reach num - 1 |
| DepthSeries.StackShape | src/fileIO.cpp:1407 | the depth series has the realslice's shape followed by the number of layers |
| DepthSeries.GatherLayers | src/fileIO.cpp:1395-1404 | the loop succeeds exactly when every layer and its realslice open and output_depth reads; it returns the realslices, indices [i] and the depths in layer order |
| DepthSeries.OpenDepthSeries | src/fileIO.cpp:1382-1389 | opening supergroups, creating vd_depth_series and counting the layers succeed exactly when supergroups and realslices exist and vd_depth_series does not |
| DepthSeries.WriteStack | src/fileIO.cpp:1407-1421 | the virtual dataset and the configuration of the supergroup with the depths as sgdim1 Depth [Å] |
| DepthSeries.Stacked | src/fileIO.cpp:1407 | the file with the virtual dataset supergroup stacking the first num realslices under vd_depth_series |
| DepthSeries.DepthSeriesResult | src/fileIO.cpp:1380-1423 | the file after depthSeriesSG: a fresh vd_depth_series holding the stack of every VD layer, configured as a supergroup with the layer depths as sgdim1 |
| DepthSeries.DepthSeriesSG | src/fileIO.cpp:1380-1423 | succeeds exactly on a ready file; then vd_depth_series holds the stacked realslices, the copied dims and the depths |
| Metadata.DecodeName | src/fileIO.cpp:866-923 | every key's attribute name decodes to that key |
| Metadata.Name | src/fileIO.cpp:866-923 | the attribute name of each parameter |
| Metadata.Written | src/fileIO.cpp:914-923 | 2D, wxr and wyr are created only when their flags are set; every other key always |
| Metadata.Entry | src/fileIO.cpp:926-1022 | the value written under each key, with angles in mrad, the energy in keV and the tile factors as floats |
| Metadata.MetadataAttrs | src/fileIO.cpp:866-1022 | the attributes of simulation_parameters: each written key's name with its entry |
| Metadata.Recover | src/fileIO.cpp:840-1025 | a readback specification of what writeMetadata stores, not a model of readAttribute: the parameters recovered from the attributes, converted back from the stored units, with zero for an absent key |
| Metadata.NameInjective | src/fileIO.cpp:866-923 | no two keys share an attribute name, so no createAttribute collides |
| Metadata.MetadataKeys | src/fileIO.cpp:866-923 | the attributes are exactly the names of the written keys |
| Metadata.ConditionalKeys | src/fileIO.cpp:914-923 | 2D, wxr and wyr exist exactly when save2DOutput, realSpaceWindow_x and realSpaceWindow_y are set; every other key always exists |
| Metadata.AlgorithmKey | src/fileIO.cpp:855-862 | attribute a is "m" exactly for Multislice and "p" otherwise |
| Metadata.ScalarReads | src/fileIO.cpp:926-951 | the atoms file name, the algorithm code, the integer parameters and the logicals (written as ints) read back as written |
| Metadata.FloatReads | src/fileIO.cpp:954-958 | px and py hold realspacePixelSize[1] and [0]; potBound, sliceThickness and zStart read back as written |
| Metadata.ProbeReads | src/fileIO.cpp:959-978 | the probe steps, defocus, C3 and C5 read back as written; E is stored as E0 / 1000 |
| Metadata.AngleReads | src/fileIO.cpp:966-978 | tx, ty, A, sa and d are stored in milliradians, 1000 times the radian value |
| Metadata.VectorReads | src/fileIO.cpp:1004-1022 | the scan windows, the tile factors and the cell dimensions read back as written |
| Metadata.WindowReads | src/fileIO.cpp:983-1002 | the 2D window is stored in milliradians; wxr and wyr read back when their flags are set, and as zeros otherwise |
| Metadata.MetadataRoundTrip | src/fileIO.cpp:840-1025 | reading every attribute back gives the parameters, except the windows that are not written |
| Metadata.StoredWritesAlike | src/fileIO.cpp:914-923 | clearing the unwritten windows changes no attribute |
| Metadata.WriteMetadata | src/fileIO.cpp:840-1025 | succeeds exactly when simulation_parameters is free under original; it then adds that group with the attributes of the key table, and otherwise changes nothing |

## Left out

- The readers `readDataSet2D`, `readDataSet3D`, `readDataSet4D`, `readDataSet4D_keepOrder` and `readAttribute` (src/fileIO.cpp:1027-1199) are not modelled as operations. Each reads one whole dataset, or one attribute, and creates or checks nothing in the file. The dataset readers then reorder the axes of the in-memory array. `readDataSet2D`, `readDataSet3D` and `readDataSet4D_keepOrder` reverse the stored extents. `readDataSet4D` swaps the two extents of each pair and restrides with the order (1, 0, 3, 2) (src/fileIO.cpp:1093-1100). The array class and `restride` are not part of this model, so that reordering is not stated. `readAttribute` of `output_depth` appears in `DepthSeries` as a lookup of the attribute.
- `writeComplexDataSet` (src/fileIO.cpp:1201-1231) is not modelled. It is not called by the modelled functions; its compound type byte layout is library detail.
- The HDF5 runtime is abstracted as the path-to-node map. Chunking property lists (beyond the refusal of a zero chunk extent in setup4DOutput), flushes, closes, data-space objects and the 256-byte fixed string type are not modelled, so strings are never truncated.
- Creating an object, writing it and adding its attributes are fused into one checked insert. Once the create has succeeded, the following writes cannot fail in the model.
- `write4D_lock` and any other concurrency are not modelled. `WriteDatacube4D` is a sequential method.
- Writers.WriteDatacube4D: requires `mdims[0] * mdims[1] == 1`. For larger extents the source adds uninitialised `malloc` memory beyond the first d2 * d3 entries.
- Float precision is not modelled: values are `real`. The ×1000 and ÷1000 conversions of the metadata are exact here and rounded in the source.
- Metadata.Recover: the readers give zero for a missing key. The integer attributes are unbounded here, where the source writes 32-bit ints.
- Metadata.WriteMetadata: the tile attribute is a float vector written from integers; the model stores the integer values as reals.
- `fftshift` and `restride` are defined outside the modelled file. Their results are inputs: `qxShifted`, `qyShifted` and `restridedPot`.
- Setup.ReciprocalWindow: the crop offset is 0, as in the source, which marks it as unfinished. The model requires offset + extent to fit in the axis, so that the calibration read stays in bounds.
- Setup.Setup4DOutput: requires `WindowDefined` and `WindowFits`. When cropping, 2 * PrefixBelow can exceed \|qx\|, and the source then reads past the end of qx when it writes dim3 (src/fileIO.cpp:211-212). That read is undefined behaviour, so the requires excludes it.
- The four per-layer setups (setup4DOutput, setupVDOutput, setup2DOutput, setupDPCOutput) require `depths` to hold at least numLayers entries, and setupVDOutput requires `detectorAngles` to hold at least Ndet entries. Each requires only rules out a read past the end of the vector, which is undefined behaviour in the source (src/fileIO.cpp:179, 288, 387, 472 for `depths[n]`; src/fileIO.cpp:314 for the Ndet angles).
- The DPC dim3 dataset carries no name or units attribute. This follows the code (src/fileIO.cpp:496-503).
- The S-matrix axes are created but never written: their writes are commented out at src/fileIO.cpp:584-586, so they hold fill values.
- Virtual.CopyDataSet: copying a virtual dataset is reported as a failure. Its elements cannot be read back in the model, and only stored dims are copied by the source.
- Virtual.WriteVirtualDataSet: the source file of each mapping is the file itself, `file.fileName`. The final reset of the selection (src/fileIO.cpp:1370-1372) selects the whole extent and has no effect on the stored dataset.
- Virtual.ConfigureSupergroup: after a failure the file holds whatever was made before it; the contract states only the success case.
- DepthSeries.DepthSeriesSG: with no VD layer the source indexes an empty vector, which is undefined behaviour; the model reports failure. It requires the absolute names under the first layer to fit a `std::string`. After a failure the state is not stated.
- `Qt/main.cpp` and `Qt/prism_qthreads.cpp` are not part of this model. They hold GUI set-up, thread orchestration and calls into the physics engines.
