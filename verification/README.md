# BRL-CAD numerics and vector lists

A Dafny model of the parts of BRL-CAD that are small enough to be read as macros,
inline functions and short C functions, and that carry the weight of the rest: the
chunked vector lists in which every wireframe is drawn, the pools and tables of
the non-manifold geometry headers, the algebra of quaternions, matrices and
bounding boxes, the two back ends of the `dvec` class, and a few loops and
conversions with sharp bounds.

`dafny verify dfyconfig.toml` checks the project.

## Files

| file | what it models |
|---|---|
| `BuList.dfy` | the circular doubly linked list of `bu/list.h`, on real `forw` and `back` pointers |
| `ListWorld.dfy` | any number of such lists that share a free list, with every link on one of them |
| `Vlist.dfy`, `VlistRuns.dfy` | the GET, ADD, SET and FREE macros of `bn/vlist.h`, one at a time and over whole runs |
| `VlistTools.dfy`, `VlistBox.dfy` | counting, copying and bounding a vector list |
| `VlistWire.dfy`, `VlistExport.dfy`, `Bytes.dfy` | the binary form of a vector list, and the loops that write and read it |
| `Hitmiss.dfy`, `NmgIndex.dfy` | the hit record pool, the index counter and the once-only marks of `nmg.h` |
| `VMath.dfy`, `Box.dfy` | vectors and axis-aligned boxes of `vmath.h` |
| `Quaternion.dfy`, `QuatMat.dfy`, `Rotation.dfy` | quaternions, rotations, and their matrices |
| `Mat4.dfy`, `Mat3.dfy`, `MatInverse.dfy` | the 4x4 matrices of `vmath.h`, the 3x3 matrices of `bn/anim.h`, and Gauss-Jordan inversion in place |
| `Dvec.dfy`, `DvecPrograms.dfy`, `Mat2d.dfy` | the two back ends of `dvec`, whole expressions on either, and the 2x2 inverse built on the class |
| `Pixcmp.dfy` | the comparison loop and exit status of `pixcmp` |
| `Display.dfy`, `Rand.dfy`, `Ray.dfy`, `Complex.dfy` | screen coordinates, random tables, rays, complex numbers |

## How the source is read

- Doubles are exact reals. A tolerance such as `VDIVIDE_TOL`, `VUNITIZE_TOL` or
  `SMALL_FASTF`, which depends on the platform, is a parameter between 0 and 1.
  A square root is any function that takes roots of numbers that are not negative.
- Integers are unbounded, and where the source has a width it is written out: the
  unsigned index and seed of `bn/rand.h`, the byte commands and the 32-bit count
  of the exported form, casts to `int` that drop the fraction.
- Code that stores into heap objects is a class or a method on arrays that is
  proved against a function of values, and the laws are proved about the function.
- A list is a ring of links and a ghost sequence that says what it holds. A pool
  keeps, as ghost state, the sequence of every list and the owner of every link.
- A vector list is read as a sequence of commands: each command takes from its slot
  the components that its macro writes and no others.

## What the code does against expectation

- `ON_Ray::IntersectRay` is documented to be true if a single point of intersection
  is found. It is false when that point is next to this ray's own origin or the lines
  are next to parallel (`Ray.TurnedDownIff`), and it is about the lines and not the
  rays: the parameter may be negative (`Ray.BehindTheStart`).
- `pixcmp` treats files of equal size with different skips as an error, except when
  both skips are at or beyond the end (`Pixcmp.RefusedIff`).
- In pixel mode `pixcmp` never compares the bytes of an incomplete last pixel
  (`Pixcmp.TrailingBytesUnseen`).
- `bn_cx_div` and `bn_cx_mul` are right when the operands coincide; `bn_cx_mul2`,
  `QMUL` and `MAT3MUL` are right only where the changes cancel, and the model says
  exactly where, for each way of coinciding (`Complex.Mul2OverFirstIff`,
  `Quaternion.QMulOverLeftIff`, `Mat3.MulOverLeftIff`, `Mat3.SquareOverIff` and their
  siblings; `Complex.Mul2SquaresI`, `Quaternion.QMulOverDiffers` and
  `Mat3.MulOverDiffers` are inputs where they go wrong).
- `bn_mat_inverse` refuses a matrix that has an inverse if, and only if, one of its
  pivots is near zero (`MatInverse.Inverse`, `MatInverse.InvertibleIff`). With
  tolerance s, the diagonal matrix of s/2, 1, 1, 1 is such a one
  (`MatInverse.SmallPivot`).
- The overlap test of boxes says overlap of some boxes that have no points
  (`Box.OverlapIsRightIff`).
- `bn_vlist_export` writes all three coordinates of every slot, also those that the
  command left as the recycled chunk had them. A reader of commands cannot tell, but
  the bytes can differ (`VlistExport.Ship`, `VlistWire.WireSameIff`,
  `VlistWire.SameCommandsOtherBytes`).
- The conversions of `include/dm.h` scale by 4096 one way and by 4095 the other, and
  truncate toward zero, so a pixel right of the middle never comes back where it was,
  and one left of it does exactly while its slip is small (`Display.ColumnReturnsIff`).

## Model

| member | source | states |
|---|---|---|
| `BuList.Init` | include/bu/list.h:160-163 | a head that points at itself both ways is a ring with no links |
| `BuList.Insert` | include/bu/list.h:196-203 | inserting before a link, or before the head, gives the ring whose forward and backward links spell the old sequence with the new link at that place |
| `BuList.Dequeue` | include/bu/list.h:222-226 | unlinking a link leaves a ring without it, in both directions, and clears the link's own pointers |
| `BuList.AppendList` | include/bu/list.h:294-303 | splicing moves the whole source list to the end of the destination and leaves the source an empty ring, and writes to the two heads and the links at the ends only |
| `BuList.Ends` | include/bu/list.h:309-335 | the head points at the first and last link, and at itself exactly when the list is empty: what the emptiness tests of the macros rely on |
| `ListWorld.OnOneList` | include/bn/vlist.h:103-118 | a link is owned exactly when it is on some list, and then it is on one list only and at one place only |
| `ListWorld.Conserved` | include/bn/vlist.h:103-118 | the lengths of all lists, the free list included, add up to the number of links in all: none is lost or counted twice |
| `ListWorld.World.TakeFirst` | include/bu/list.h:222-226 | the first link of one list comes off and is on no list; every other list and every ring stays as it was |
| `ListWorld.World.Recycle` | include/bn/vlist.h:104-110 | a link comes off the free list, or none if and only if the free list is empty |
| `ListWorld.World.PutLast` | include/bn/vlist.h:126 | inserting at the head puts a loose link at the end of one list and leaves every other list as it was |
| `ListWorld.World.Splice` | include/bn/vlist.h:115-118 | a whole list goes to the end of another and is left empty, with no change to any third list and to the set of links |
| `ListWorld.World.NewList` | include/bn/vlist.h:96-100 | a head that is initialised is one more empty list, and no other list changes |
| `Vlist.GetVlist` | include/bn/vlist.h:103-112 | a chunk that is on no list and has no used slot: the first free one if there is one, and a new one only if the free list is empty |
| `Vlist.AddEntry` | include/bn/vlist.h:120-181 | what the ADD and SET macros share: one more entry on one list, in a slot that may hold old components, and a chunk allocated only if there was neither room nor a free chunk |
| `Vlist.AddVlist` | include/bn/vlist.h:120-130 | the list says one more command with its point, every other list keeps its chunks and what they hold, packing is kept, and a chunk is allocated only if there was neither room nor a free chunk |
| `Vlist.MeaningIff` | include/bn/vlist.h:78-94 | a reader takes from a slot its command and, but for three commands, its whole point: component 0 for POINT_SIZE and LINE_WIDTH, nothing for MODEL_MAT |
| `Vlist.SetDispMat` | include/bn/vlist.h:133-143 | the list says one more DISPLAY_MAT with its point, and nothing else changes |
| `Vlist.SetModelMat` | include/bn/vlist.h:146-155 | the list says one more MODEL_MAT, whatever point was left in the slot, and nothing else changes |
| `Vlist.SetPointSize` | include/bn/vlist.h:158-168 | the list says one more point size, whatever the two other components of the slot were, and nothing else changes |
| `Vlist.SetLineWidth` | include/bn/vlist.h:171-181 | the list says one more line width, whatever the two other components of the slot were, and nothing else changes |
| `Vlist.FreeVlist` | include/bn/vlist.h:115-118 | the list says nothing any more, all its chunks are at the end of the free list, and no other list changes |
| `Vlist.PackedIsShortest` | include/bn/vlist.h:40-71 | a list whose chunks are full but for a last one that is not empty has ceil(n/35) chunks for its n commands, and no list of n commands has fewer |
| `Vlist.VisitBounded` | include/bn/vlist.h:49-60 | the visit loop meets at most 35 entries per chunk, and exactly 35 per chunk when all are full |
| `VlistRuns.Perform` | include/bn/vlist.h:103-181 | one macro on one of many lists appends its command to that list or empties it, no other list says anything else than before, and a chunk is allocated exactly if an ADD or SET found neither room nor a free chunk |
| `VlistRuns.Run` | include/bn/vlist.h:103-181 | after any sequence of ADD, SET and FREE on any number of lists that share a free list, each list says exactly what was appended to it since it was last freed, whatever the recycled chunks held; packed lists stay packed, and no chunk is lost |
| `VlistRuns.RunPacked` | include/bn/vlist.h:103-181 | and if the lists are packed and have all the chunks with the free list, the number of chunks in the end is the number at the start or the most that the lists ever needed at once, whichever is more |
| `VlistRuns.PeakIsLargest` | include/bn/vlist.h:103-181 | what the lists ever needed at once is what they need at some point of the run, and no less than at any other |
| `VlistRuns.ChunksStep` | include/bn/vlist.h:120-181 | an ADD or SET needs one more chunk exactly if the commands of its list fill its chunks, and a FREE needs no more |
| `VlistRuns.NeedsIff` | include/bn/vlist.h:124 | a packed list has no room exactly if the number of its commands is a multiple of 35 |
| `VlistRuns.SaysMeans` | include/bn/vlist.h:120-181 | what each macro is expected to say is what a reader takes from a slot with the command and the components that the macro writes, whatever is in the others |
| `VlistRuns.DenotesLast` | include/bn/vlist.h:103-181 | what a list is expected to say after one more macro: nothing after its own FREE, one command more after its own ADD or SET, the same after a macro on another list |
| `VlistRuns.LastFreed` | include/bn/vlist.h:115-118 | the place after the last FREE of a list: no FREE of that list follows it |
| `VlistTools.CmdCnt` | src/libbn/vlist.c:37-53 | the count is the number of commands that the visit loop meets, and 0 for a null pointer |
| `VlistTools.Copy` | src/libbn/vlist.c:206-220 | the destination says what it said and then what the source says, the source keeps its chunks and all they hold, and a copy onto an empty list has ceil(n/35) chunks, never more than the source |
| `VlistTools.Densest` | src/libbn/vlist.c:206-220 | a list built by the macros has no more chunks than any list that says as many commands |
| `VlistTools.Walk` | include/bn/vlist.h:49-60 | following forward links from the head meets exactly the chunks of the list in order, and what they hold is what the list says |
| `VlistBox.Bbox` | src/libbn/vlist.c:111-129 | over any chunking, a box holds the result exactly if it holds the given box and, of the commands in model space up to the first unknown one, every point of the codes 0, 1, 3, 4, 5, 8, 9, 10 and all that is within 1 of the points of 12 and 15; that unknown command is returned, or 0; the length counts the commands on the chunks before it |
| `VlistBox.BboxInternal` | src/libbn/vlist.c:55-109 | one chunk continues the scan from the box and display mode it is given |
| `VlistBox.CornersIff` | src/libbn/vlist.c:63-105 | a point is a corner exactly if a command in model space draws there, up to the first unknown command |
| `VlistBox.BoxIff` | src/libbn/vlist.c:63-105 | the box grown by the corners is the least one that holds the first box and all that is drawn |
| `VlistBox.HasIff` | src/libbn/vlist.c:76-101 | a box has the corners that a command draws exactly if it has its point, or all that is within 1 of it for POINT_DRAW and DISPLAY_MAT |
| `VlistBox.LookedIff` | src/libbn/vlist.c:63-105 | a command is looked at in model space exactly if it is not in display space and all unknown commands before it are |
| `VlistBox.DisplayIff` | src/libbn/vlist.c:64-66 | the display flag is set exactly if a DISPLAY_MAT came before with no MODEL_MAT after it |
| `VlistBox.StopsIff` | src/libbn/vlist.c:63-105 | the scan gives 0 exactly if no unknown command comes in model space, and otherwise the first such command |
| `VlistBox.BadStays` | src/libbn/vlist.c:103-105 | nothing after an unknown command changes the result |
| `VlistWire.RoundTrip` | src/libbn/vlist.c:239-331 | fewer than 2^32 entries come back from their binary form one by one, with commands modulo 256 and coordinates as a network double carries them, and with the same name, whatever bytes follow the form |
| `VlistWire.RoundTripIff` | src/libbn/vlist.c:239-331 | the entries come back as they were, stale components included, if and only if there are fewer than 2^32, each with a command from 0 to 255 and coordinates that a network double carries |
| `VlistWire.CommandsTripIff` | src/libbn/vlist.c:239-331 | what the drawing says comes back if and only if there are fewer than 2^32 commands and each fits in the components that it writes |
| `VlistWire.WireParts` | src/libbn/vlist.c:260-319 | the exported form reads back as its name and its entry count modulo 2^32, and is long enough for the importer |
| `VlistWire.WireLayout` | src/libbn/vlist.c:268-297 | the form is the count in network order, the name with its zero byte, one byte for each command modulo 256, and eight bytes for each coordinate, x, y, z |
| `VlistWire.ImportedAt` | src/libbn/vlist.c:300-331 | of any buffer that is long enough, entry i is byte i after the zero byte that ends the name, and the three groups of eight bytes at 24 i after all these |
| `VlistWire.WireSameIff` | src/libbn/vlist.c:268-297 | two drawings have one binary form if and only if they have as many slots, with commands equal modulo 256 and points of equal bytes, the stale components included |
| `VlistWire.SameCommandsOtherBytes` | src/libbn/vlist.c:283-297 | two drawings that say the same, one MODEL_MAT, have different bytes if different points were left in the slot |
| `VlistExport.Export` | src/libbn/vlist.c:239-298 | the buffer is the binary form of the commands that the list says, in any chunking, with two bytes to spare |
| `VlistExport.Import` | src/libbn/vlist.c:300-331 | the entries that the buffer holds are appended to the list, in order, and no other list changes |
| `VlistExport.Ship` | src/libbn/vlist.c:239-331 | exporting a list and importing the buffer into another makes that say what it said and then what the first says if and only if each command fits, whatever stale components the slots had |
| `VlistExport.PutAllCmds` | src/libbn/vlist.c:273-281 | the loop over chunks stores the commands of the whole list as bytes |
| `VlistExport.PutAllPoints` | src/libbn/vlist.c:283-297 | the loop over chunks stores three network doubles for each entry of the whole list |
| `Bytes.NtohlHtonl` | src/libbn/vlist.c:268-314 | the count comes back from network order modulo 2^32 |
| `Bytes.BigEndian` | src/libbn/vlist.c:268-314 | in network order the most significant byte comes first, both ways |
| `Bytes.StrlenIs` | src/libbn/vlist.c:270-319 | a name without a zero byte ends where it ended, whatever follows its zero byte |
| `Hitmiss.GetHitmiss` | include/nmg.h:1106-1112 | the record is on no list: the first free one, or a new one exactly when none is free |
| `Hitmiss.AddHit` | include/nmg.h:1106-1112 | the record goes to the end of its list, was on no list but the free one, and is new exactly when no record was free |
| `Hitmiss.FreeHitlist` | include/nmg.h:1115-1118 | a whole hit list goes to the free list, and no record is lost |
| `Hitmiss.FreePlusLive` | include/nmg.h:1106-1118 | free and live records together are all that were ever allocated |
| `Hitmiss.Perform` | include/nmg.h:1106-1118 | one GET or FREE changes one list by the record that was got or empties it, and a record that is handed out was on none of the lists |
| `Hitmiss.RunStep` | include/nmg.h:1106-1118 | one step keeps what is known of a run: which records are on which list, that none was handed out while on one, and how many there are |
| `Hitmiss.Run` | include/nmg.h:1106-1118 | over any run from an empty pool each list holds, in order, the records got for it since it was last freed, no record is handed out that is on one of the lists, and the number ever allocated is the largest number that were live at once |
| `Hitmiss.HeldLive` | include/nmg.h:1106-1118 | a list has as many records as were got for it since it was last freed |
| `Hitmiss.HeldIff` | include/nmg.h:1106-1118 | a list holds a record exactly if it was got for the list and the list was not freed after that |
| `Hitmiss.PeakIsLargest` | include/nmg.h:1106-1118 | the number of records allocated is the number live at some point of the run, and no less than at any other |
| `Hitmiss.LiveStep` | include/nmg.h:1106-1118 | getting a record makes one more live, and freeing a list makes none more |
| `NmgIndex.Model.Get` | include/nmg.h:615-652 | a new structure gets the next index, and the indices handed out stay the numbers below maxindex |
| `NmgIndex.Model.SameIndexSameItem` | include/nmg.h:627-652 | two structures of a model are the same exactly when their indices are, and every index is below maxindex |
| `NmgIndex.RunStep` | include/nmg.h:627-676 | a GET hands out maxindex and adds a live structure, a FREE takes one away and hands out nothing |
| `NmgIndex.Run` | include/nmg.h:627-676 | in any run of GET and FREE the indices handed out count up from maxindex, one for each GET, so all are distinct and below maxindex, also after a holder was freed, and the live structures are the ones got and not yet freed |
| `NmgIndex.LiveApart` | include/nmg.h:627-676 | no two live structures have the same index |
| `NmgIndex.Held` | include/nmg.h:627-676 | the live structures of a run, each known by how many were got before it, are distinct and were all got |
| `NmgIndex.FirstTime` | include/nmg.h:786-788 | true exactly if the entry was unset, and then just that entry becomes 1 |
| `NmgIndex.Set` | include/nmg.h:784 | just the entry at the item's index becomes 1 |
| `NmgIndex.Clear` | include/nmg.h:785 | just the entry at the item's index becomes 0 |
| `NmgIndex.FirstTimes` | include/nmg.h:768-788 | on a cleared table the test is true exactly at each item's first occurrence, so the number of trues is the number of distinct items |
| `Quaternion.QMulIsVectorForm` | include/vmath.h:1940-1952 | QMUL is the dot, cross and join formula of its comment |
| `Quaternion.QMulAssociative` | include/vmath.h:1947-1952 | QMUL is associative |
| `Quaternion.QMagSqMultiplies` | include/vmath.h:1928-1952 | the squared magnitude of a product is the product of the squared magnitudes |
| `Quaternion.QConjugateReverses` | include/vmath.h:1947-1960 | the conjugate of a product is the product of the conjugates in the other order |
| `Quaternion.TimesConjugate` | include/vmath.h:1928-1960 | a quaternion times its conjugate, on either side, is its squared magnitude |
| `Quaternion.QInverseIff` | include/vmath.h:1963-1970 | QINVERSE is a left and a right inverse if and only if the squared magnitude is not below VDIVIDE_TOL, and zero if and only if it is below |
| `Quaternion.RotatedIsPure` | include/bn/qmath.h:44 | Q^-1 [0,P] Q has no scalar part, for every Q with an inverse |
| `Quaternion.RotatedKeeps` | include/bn/qmath.h:44 | that rotation keeps dot and cross products, for every Q with an inverse, of any magnitude |
| `Quaternion.TwoTurns` | include/bn/qmath.h:44 | turning by one quaternion and then another is turning once by their product, the first on the left |
| `Quaternion.RotatedByProduct` | include/bn/qmath.h:44 | any sequence of turns is one turn by the product, as long as no partial product meets the guard of QINVERSE |
| `Quaternion.UnitsCompose` | include/vmath.h:1928-1952 | products of unit quaternions are unit and never meet the guard, so any sequence of them composes |
| `Quaternion.ScaledRotates` | include/bn/qmath.h:44 | a quaternion and its multiples make the same rotation |
| `Quaternion.InverseOfProduct` | include/vmath.h:1963-1970 | the inverse of a product is the product of the inverses in the other order |
| `Quaternion.QMulInto` | include/vmath.h:1947-1952 | the stores of QMUL leave the product when the result has its own array, and for each way of sharing arrays what the lanes compute from the lanes already stored |
| `Quaternion.QMulOverLeftIff` | include/vmath.h:1947-1952 | written over its first operand QMUL multiplies exactly if the changes of the elements stored before cancel in each later lane |
| `Quaternion.QMulOverRightIff` | include/vmath.h:1947-1952 | written over its second operand likewise, with its own condition |
| `Quaternion.QMulOverBothIff` | include/vmath.h:1947-1952 | written over both it squares exactly if the quaternion is real or its square has the real part that was there before |
| `Quaternion.QMulOverDiffers` | include/vmath.h:1947-1952 | for instance 1 + i times i comes out wrong over the first operand, i times 1 + i over the second, and the square of 1 + i in place |
| `Quaternion.QConjugateInto` | include/vmath.h:1955-1960 | the conjugate is stored correctly, also in place |
| `Quaternion.QInverseInto` | include/vmath.h:1963-1970 | the inverse is stored correctly, also in place |
| `QuatMat.MatRotates` | src/libbn/qmath.c:132-147 | the matrix of a unit quaternion moves points and directions exactly as the quaternion rotates them |
| `QuatMat.Quat2MatRotates` | src/libbn/qmath.c:124-148 | the matrix of any quaternion with an inverse, which is made unit first, rotates as the quaternion does |
| `QuatMat.Quat2MatOfShort` | src/libbn/qmath.c:124-148 | the matrix of a quaternion whose magnitude is below the tolerance is the identity |
| `QuatMat.Mat2QuatInverts` | src/libbn/qmath.c:64-121 | the quaternion comes back from its matrix with the sign that makes the pivot element positive, whichever of the four branches is taken |
| `Rotation.Mat2QuatIff` | src/libbn/qmath.c:64-121 | for every matrix at all, the result is a unit quaternion whose matrix is the given one if and only if that is a rotation: rows that are perpendicular units, determinant 1, and nothing else in it |
| `Rotation.RadicandLarge` | src/libbn/qmath.c:75-117 | for every matrix at all, the chosen branch takes the root of at least 1, so it never divides by zero |
| `Rotation.PivotAtLeastHalf` | src/libbn/qmath.c:75-117 | for every matrix at all, the scalar part comes out at a half or more if the trace is positive, and otherwise the element of the largest diagonal element does |
| `Rotation.RotationIff` | src/libbn/qmath.c:124-148 | rotations are exactly the matrices of unit quaternions |
| `QuatMat.RadicandOfMat` | src/libbn/qmath.c:64-121 | whichever element is the pivot, the root is taken of four times its square, and it is not zero |
| `QuatMat.QUnitizeIsUnit` | include/vmath.h:1920-1925 | QUNITIZE makes a quaternion unit when its magnitude is not below VDIVIDE_TOL |
| `QuatMat.QUnitizeScales` | include/vmath.h:1920-1925 | times the magnitude the unit quaternion is the quaternion again, and below VDIVIDE_TOL it is zero |
| `Mat4.DivideOnce` | include/vmath.h:1691-1720 | for any sequence of matrices, dividing at every step is defined exactly if the homogeneous coordinate vanishes at no step, and then equals one division at the end |
| `Mat4.DivideAfter` | include/vmath.h:1691-1720 | one step on a divided point is the quotient of the step on the undivided one, and their denominators vanish together |
| `Mat4.OneDivisionIsDefinedMoreOften` | include/vmath.h:1691-1720 | one division at the end can be defined where dividing on the way is not |
| `Mat4.DirectionsMove` | include/vmath.h:1691-1733 | MAT4X3VEC moves the direction between two points to the direction between the points that MAT4X3PNT moves them to, for any matrix that divides all points alike |
| `Mat4.PipelineIsOneMatrix` | src/libbn/mat.c:123-146 | the whole sequence is one product matrix and one division |
| `Mat4.MulComposes` | src/libbn/mat.c:123-146 | applying a product is applying its right factor and then its left one |
| `Mat4.RowVectorIsTranspose` | include/vmath.h:788-805 | a row point times a matrix is the transpose times the point, and one is defined exactly when the other is |
| `Mat4.TransposeInto` | include/vmath.h:782-805 | the stores of MAT_TRANSPOSE leave row r, column c of one array at row c, column r of the other |
| `Mat4.Mat4x3PntInto` | include/vmath.h:1691-1697 | the stores of MAT4X3PNT leave the moved and divided point in another array: times the last row's product it is the product of each of the first three rows |
| `MatInverse.Inverse` | src/libbn/mat.c:221-306 | it returns 1 exactly if none of the four pivots of the input is near zero, and then the input takes x to y exactly if the output takes y to x, for all x and y, also in place |
| `MatInverse.InvertibleIff` | src/libbn/mat.c:221-306 | some matrix undoes the input exactly if none of those pivots is zero, so a matrix is wrongly refused exactly when its pivots are not zero and one is near it |
| `MatInverse.SmallPivot` | src/libbn/mat.c:253-256 | whatever the tolerance, there is a matrix with an inverse whose first pivot is near zero, so it is refused |
| `MatInverse.StepsStand` | src/libbn/mat.c:237-285 | as long as no pivot is zero, the working matrix after any number of steps stands for the input, with mixtures of x and y that the column exchanges say, each of which brings a pivot to the diagonal |
| `MatInverse.UndoIsInverse` | src/libbn/mat.c:221-306 | so the product of input and output is the identity, on either side |
| `MatInverse.NoPivotAtAll` | src/libbn/mat.c:253-256 | where those elements are zero the matrix has no inverse at all |
| `MatInverse.FindPivot` | src/libbn/mat.c:241-251 | the loop finds the place that the specification takes for the pivot |
| `MatInverse.BestIff` | src/libbn/mat.c:241-251 | that place is the first of the largest elements of the row from the diagonal on, and the only such place |
| `MatInverse.PivotAtIs` | src/libbn/mat.c:238-251 | each pivot is the first of the largest elements of its row from the diagonal on, of the matrix after the steps before |
| `MatInverse.PivotStep` | src/libbn/mat.c:257-284 | the interleaved loops exchange two columns and then do one exchange step on the whole matrix |
| `MatInverse.StandsSwapped` | src/libbn/mat.c:262-273 | exchanging columns and the entries of z keeps what the working matrix means |
| `MatInverse.StandsExchanged` | src/libbn/mat.c:257-284 | one exchange step keeps what the working matrix means: x and y stand in the relation of the input exactly if their mixtures stand in the relation of the working matrix |
| `MatInverse.Reorder` | src/libbn/mat.c:287-303 | the second loop ends and puts the rows in order |
| `Mat3.MulAssociative` | include/bn/anim.h:78-87 | MAT3MUL is associative |
| `Mat3.MulComposes` | include/bn/anim.h:78-104 | MAT3XVEC of a product is the composition |
| `Mat3.ProductApplies` | include/bn/anim.h:78-104 | for any sequence of matrices the product applies as the matrices do in turn |
| `Mat3.ProductSplits` | include/bn/anim.h:78-87 | a sequence split in two at any place has the product of the two products |
| `Mat3.To4IsFaithful` | include/bn/anim.h:106-129 | MAT4TO3 undoes MAT3TO4, and the 4x4 form moves points and directions as MAT3XVEC does, with denominator 1 |
| `Mat3.To3MovesDirections` | include/bn/anim.h:120-129 | MAT4TO3 of any 4x4 matrix moves directions as MAT4X3VEC does, up to the last element that this divides by |
| `Mat3.To4Multiplies` | include/bn/anim.h:106-117 | the 4x4 product of two converted matrices is the converted 3x3 product |
| `Mat3.TildeIsCross` | include/bn/anim.h:130-134 | the tilde matrix of v takes a to v x a |
| `Mat3.TildeSquared` | include/bn/anim.h:130-134 | the square of the tilde matrix takes a to (v.a) v - (v.v) a |
| `Mat3.MulInto` | include/bn/anim.h:78-87 | the stores of MAT3MUL leave the product when the result has its own array, and for each way of sharing arrays what the elements compute from those already stored |
| `Mat3.MulOverLeftIff` | include/bn/anim.h:78-87 | written over its first operand MAT3MUL multiplies exactly if in every row the changes of the elements stored before cancel |
| `Mat3.MulOverRightIff` | include/bn/anim.h:78-87 | written over its second operand exactly if they do in every column |
| `Mat3.SquareOverIff` | include/bn/anim.h:78-87 | squaring in place it is right exactly if, for each of the eight elements that come after a store, what the stored elements change in it cancels |
| `Mat3.MulOverDiffers` | include/bn/anim.h:78-87 | with an exchange of two axes it goes wrong in all three ways: over the identity on either side, and squared in place |
| `Mat3.TildeInto` | include/bn/anim.h:131-134 | clearing and then storing six elements leaves the tilde matrix, whatever the array held |
| `Box.TouchingIff` | include/vmath.h:2003-2026 | for all boxes and tolerances, two boxes hold points within t on every axis exactly when both are well formed, t is not negative and the tolerant test says overlap; so for well-formed boxes a disjoint verdict drops no contact |
| `Box.CommonPointIff` | include/vmath.h:1995-2014 | for all boxes, two share a point exactly when both are well formed and the test says overlap; the disjoint test is its opposite |
| `Box.OverlapIsRightIff` | include/vmath.h:2012-2014 | the overlap test means a common point exactly unless it says overlap of a box that is not well formed, with a pair for which it does |
| `Box.WithinIffPoints` | include/vmath.h:2063-2066 | for all boxes, every point of one is in the other exactly when the test says so or the first has no points |
| `Box.NearIff` | include/vmath.h:2033-2055 | for all boxes and tolerances, some point of the box is within t of a point exactly when the box is well formed, t is not negative and the point is inside by t; the two tests are opposites |
| `Box.GrownIsLeast` | include/vmath.h:1765-1788 | folding VMINMAX over points gives a box that is in another exactly if the first box and all the points are |
| `Box.GrownAnyOrder` | include/vmath.h:1765-1788 | the order of the points and repetitions make no difference |
| `Box.BoundingBox` | include/vmath.h:1765-1788 | started at a point, the fold is well formed and is the least box of the points |
| `Box.VMinMax` | include/vmath.h:1765-1788 | the six conditional stores grow the box by the point, also if the point is one of its corners |
| `VMath.NearZeroIff` | include/vmath.h:461 | a number is near zero exactly if its square is less than that of the tolerance |
| `Dvec.BackEndsAgree` | include/bn/vector_x86.h:141-199 | on even lengths the operators and madd on lane pairs give the lanes of the element-wise ones, and on odd lengths all but the last lane |
| `Dvec.PackedKeeps` | include/bn/vector_x86.h:62-69 | loading into lane pairs loses nothing of an even length and just the last lane of an odd one |
| `Dvec.FoldsAgree` | include/bn/vector_fpu.h:202-221 | foldl and foldr agree for an associative operation with the start value as its unit |
| `Dvec.FoldsSplit` | include/bn/vector_fpu.h:202-221 | either fold of two parts is the fold of one part started with the fold of the other: foldr from the right, foldl from the left |
| `Dvec.FoldsOfSub` | include/bn/dvec.h:165 | with subtraction the folds differ, and foldr gives the determinant |
| `Dvec.FpuVec.Apply` | include/bn/vector_fpu.h:142-180 | the element-wise operators compute each lane from the two lanes at its place |
| `Dvec.FpuVec.Madd` | include/bn/vector_fpu.h:182-190 | each lane is multiplied and added to |
| `Dvec.MaddAt` | include/bn/vector_fpu.h:182-190 | each lane is multiplied by the lane at its place, and the lane at its place is added |
| `Dvec.MaddSame` | include/bn/vector_fpu.h:192-200 | and so with a scalar for all lanes |
| `Dvec.FpuVec.FoldR` | include/bn/vector_fpu.h:202-211 | the loop folds the first lanes from the right |
| `Dvec.FpuVec.FoldL` | include/bn/vector_fpu.h:212-221 | the loop folds the first lanes from the left |
| `Dvec.FpuVec.Map` | include/bn/vector_fpu.h:223-232 | the lanes below the limit are mapped, and nothing is promised of the others |
| `Dvec.FpuVec.Equals` | include/bn/vector_fpu.h:133-140 | equal exactly if every lane is within VEQUALITY |
| `Dvec.X86Vec.Apply` | include/bn/vector_x86.h:141-175 | the operators on lane pairs compute each lane from the two lanes at its place, as the element-wise ones do |
| `Dvec.X86Vec.Madd` | include/bn/vector_x86.h:177-189 | all products and then all sums, two lanes at a time, give the lanes of the element-wise madd |
| `Dvec.X86Vec.MaddScalar` | include/bn/vector_x86.h:191-199 | the scalar form spreads the scalar over all lanes |
| `Dvec.X86Vec.FoldR` | include/bn/vector_x86.h:201-212 | folds the same lanes in the same order as the element-wise foldr |
| `Dvec.X86Vec.FoldL` | include/bn/vector_x86.h:214-225 | folds the same lanes in the same order as the element-wise foldl |
| `Dvec.X86Vec.Map` | include/bn/vector_x86.h:228-238 | maps the lanes below the limit as the element-wise map does, and keeps the others |
| `Dvec.X86Vec.Equals` | include/bn/vector_x86.h:128-139 | equal exactly if every lane is within VEQUALITY, as element-wise |
| `Dvec.X86Vec.Get` | include/bn/vector_x86.h:101-108 | the lane at an index is that lane of its pair |
| `DvecPrograms.LanesAreApart` | include/bn/vector_fpu.h:142-232 | in any expression built from loads and the operations of the class no lane depends on another |
| `DvecPrograms.LaneOf` | include/bn/vector_fpu.h:142-232 | lane i of an expression is its operation on lane i of its parts, in their order |
| `DvecPrograms.RunFpu` | include/bn/vector_fpu.h:45-232 | any expression is computed lane by lane by the element-wise back end |
| `DvecPrograms.RunX86` | include/bn/vector_x86.h:51-238 | any expression gives the same vector on the lane-paired back end if the length is even, and all lanes but the last if it is odd |
| `DvecPrograms.FoldOf` | include/bn/vector_x86.h:201-212 | the right fold of any expression is the same on either back end |
| `DvecPrograms.StoreOf` | include/bn/vector_x86.h:119-126 | any expression of even length is stored alike by either back end |
| `DvecPrograms.FoldBoth` | include/bn/vector_x86.h:201-225 | both folds of any expression are the same number on both back ends, up to the lanes that both have |
| `Mat2d.Mat2dInverse` | include/bn/dvec.h:158-174 | on either back end: false, with nothing stored, exactly when the determinant by foldr with sub is within VUNITIZE_TOL of zero, and otherwise the inverse is stored, also in place |
| `Mat2d.Mat2dPt2dMul` | include/bn/dvec.h:175-185 | on either back end the product of matrix and point is stored, also over the point |
| `Mat2d.InverseUndoes` | include/bn/dvec.h:158-185 | multiplying by a matrix and by its inverse, in either order, gives every point back |
| `Mat2d.SingularLosesPoints` | include/bn/dvec.h:166 | a singular matrix sends a point that is not the origin to the origin, so there is nothing to return for it |
| `Mat2d.Determinant` | include/bn/dvec.h:160-165 | on either back end the product of vectors and the fold give the determinant |
| `Pixcmp.Compare` | bench/pixcmp.c:236-328 | the loop counts the units of what is left of the files by the sum of channel differences, the three counts add up to the complete units, the byte counter is the shorter length, and the status is as the counts and lengths say |
| `Pixcmp.GetUnit` | bench/pixcmp.c:242-255 | one unit is read channel by channel in lockstep; the loop ends in the unit in which a stream ends, and then the streams are both at their end exactly if they are equally long |
| `Pixcmp.Tabulate` | bench/pixcmp.c:257-289 | the cascade puts a unit with equal channels under matching, one whose differences sum to 1 under off by one, and all others under off by many |
| `Pixcmp.EveryUnitCounted` | bench/pixcmp.c:256-289 | matching, off by one and off by many add up to the units compared |
| `Pixcmp.CountsAre` | bench/pixcmp.c:256-289 | matching is the number of units that are equal, off by one the number of those in which one channel differs, by 1, and off by many the rest |
| `Pixcmp.PixelAt` | bench/pixcmp.c:256-289 | a pixel is off by one exactly if one of its three channels differs by 1 and the others are equal |
| `Pixcmp.ByteAt` | bench/pixcmp.c:256-289 | and a byte if it differs by 1 |
| `Pixcmp.SuccessIff` | bench/pixcmp.c:307-328 | status 0 exactly when the lengths and all complete units are equal |
| `Pixcmp.TrailingBytesUnseen` | bench/pixcmp.c:244-254 | in pixel mode the bytes of an incomplete last pixel can differ and the status is still 0 |
| `Pixcmp.StatusSwaps` | bench/pixcmp.c:236-328 | swapping the files changes neither the counts nor the status |
| `Pixcmp.ByteModeIsMilder` | bench/pixcmp.c:236-328 | on streams of equal length in whole pixels both modes return 0 together, and the status by bytes is never above the one by pixels |
| `Pixcmp.Command` | bench/pixcmp.c:207-328 | 126 exactly when the sizes differ, or the places where comparing starts; otherwise, of the whole units from that place on, 0 exactly if all are equal, 1 exactly if all are equal or off by one and some is off by one, 2 exactly if some is neither |
| `Pixcmp.SucceedsIff` | bench/pixcmp.c:207-328 | 0 exactly when the sizes and the places are equal and so is every byte from there to the end of the last whole unit |
| `Pixcmp.RefusedIff` | bench/pixcmp.c:207-234 | FILE_ERROR exactly when the sizes differ or the skips, cut off at the size, do |
| `Pixcmp.SkippingEverythingSucceeds` | bench/pixcmp.c:220-234 | different skips that are both beyond the end succeed |
| `Display.ReturnedPixel` | include/dm.h:59-61 | the column that comes back from the view, for every width: off by its slip in steps of 8192, to the right in the left half and to the left in the right half |
| `Display.ColumnReturnsIff` | include/dm.h:59-61 | a column of the left half comes back exactly if its slip is less than 8192; one of the right half never does, and comes back one to the left exactly if its slip is no more than 8192 |
| `Display.ColumnsReturn` | include/dm.h:59-61 | so for widths 1 to 2730 the left half and the middle come back exactly, and the right half one to the left |
| `Display.RowsReturn` | include/dm.h:60-62 | rows come back as columns do, at every height |
| `Display.WiderColumnsMove` | include/dm.h:59-61 | at width 2757 column 34 has a slip of 8200, so it comes back one to the right |
| `Display.GedToXxIs` | include/dm.h:58-59 | from the view, truncation of the real product is a division of whole numbers |
| `Display.XxToGedIs` | include/dm.h:61 | to the view, for any pixel p, truncation toward zero of the real quotient is 4095 times the distance of 2p from the width, divided by twice the width in whole numbers, with the sign put back |
| `Display.ViewOntoScreen` | include/dm.h:59-60 | view coordinates -2048 to 2047 land on columns 0 to width-1 and rows 0 to height, and on row height only from -2048 |
| `Display.EveryColumnReached` | include/dm.h:59 | in a window of at most 4096 columns every column has a view coordinate |
| `Display.OrderIsKept` | include/dm.h:59-61 | both conversions keep the order of columns |
| `Display.YMirrorsX` | include/dm.h:59-62 | rows are columns upside down, truncation included |
| `Rand.EachMet` | include/bn/rand.h:58-100 | in any window of as many draws as the table has entries every entry is met |
| `Rand.MetOnce` | include/bn/rand.h:58-100 | and none is met twice |
| `Rand.SameEntryIff` | include/bn/rand.h:58-100 | two draws meet the same entry exactly when they are a multiple of the table size apart |
| `Rand.Small.RandomN` | include/bn/rand.h:73 | draw k of BN_RANDOM is the entry k + 1 places after the index, round the table, from any unsigned index |
| `Rand.SeededIsResidue` | include/bn/rand.h:60 | the seed picks its place by its residue, also when it is negative or too wide for unsigned |
| `Rand.Large.RandHalfN` | include/bn/rand.h:97-100 | draw k of bn_rand_half is the entry k + 1 places after the pointer, round the table; a pointer that is not into the table starts over |
| `Rand.HalfNext` | include/bn/rand.h:97-100 | the pointer lands in the table, wherever it was |
| `Rand.Large.RandInit` | include/bn/rand.h:110-114 | the pointer lands in the table |
| `Rand.TabSinIs` | include/bn/rand.h:127-129 | the table sine of an angle above zero is the entry at the nearest step, halves rounded up, and of one that is not the opposite of the entry for its opposite |
| `Rand.TabSinOdd` | include/bn/rand.h:127-129 | the table sine is odd at an angle exactly if the angle is not zero or the table starts with zero |
| `Rand.TabSinPeriodic` | include/bn/rand.h:127-129 | further full turns away from zero give the same value |
| `Ray.ONRay.DistanceTo` | include/brep/ray.h:115-131 | the distance is that of a point of the ray, at the parameter written or the origin, and no point of the ray is closer; the parameter is left alone when that is the origin |
| `Ray.InCoordinates` | include/brep/ray.h:107-112 | points of a line and squared distances in coordinates |
| `Ray.NoneCloser` | include/brep/ray.h:115-131 | no point of the ray is closer, whatever the length of the direction |
| `Ray.ONRay.Assign` | include/brep/ray.h:98-105 | assignment copies origin and direction, also from itself |
| `Ray.ONRay.IntersectRay` | include/brep/ray.h:133-146 | true exactly when neither cross product is near zero, and then the point returned is on both lines |
| `Ray.CrossingOnBoth` | include/brep/ray.h:133-146 | lines that are not parallel meet at the crossing |
| `Ray.CrossingOnly` | include/brep/ray.h:133-146 | and nowhere else |
| `Ray.SinglePointIff` | include/brep/ray.h:133-146 | lines that meet do so in a single point exactly if the cross product of their directions is not zero |
| `Ray.TurnedDownIff` | include/brep/ray.h:138-145 | of all lines that meet, those are turned down that are next to parallel or meet next to this ray's own origin, and no others, although the comment promises true for every single point |
| `Ray.StartingOnTheOtherLine` | include/brep/ray.h:138-145 | a ray that starts on the other line is said not to cross it |
| `Ray.BehindTheStart` | include/brep/ray.h:134-146 | a line that passes behind the start of the ray is said to cross it, at parameter -1 |
| `Complex.Mul` | include/bn/complex.h:59-62 | the product is stored over the first factor, also when both are the same object |
| `Complex.Mul2` | include/bn/complex.h:64-67 | for any three objects, what the two stores leave |
| `Complex.Mul2Multiplies` | include/bn/complex.h:64-67 | with a result object of its own bn_cx_mul2 multiplies |
| `Complex.Mul2OverFirstIff` | include/bn/complex.h:64-67 | written over its first operand it multiplies exactly if the second is real or the real part did not change |
| `Complex.Mul2OverSecondIff` | include/bn/complex.h:64-67 | written over its second operand it multiplies exactly if the first is real or the real part did not change |
| `Complex.Mul2OverBothIff` | include/bn/complex.h:64-67 | squaring in place it is right exactly for a real number, or one whose square has the real part that was there before |
| `Complex.Mul2SquaresI` | include/bn/complex.h:64-67 | so not for i |
| `Complex.AmplSqMultiplies` | include/bn/complex.h:52-62 | the squared amplitude of a product is the product of the squared amplitudes |
| `Complex.TimesAssociative` | include/bn/complex.h:59-62 | multiplication is associative |
| `Complex.TimesDistributes` | include/bn/complex.h:50-62 | multiplication distributes over addition |
| `Complex.ConjugateGivesAmplSq` | include/bn/complex.h:52-62 | a number times its conjugate is its squared amplitude, and conjugating twice changes nothing |
| `Complex.Div` | src/libbn/complex.c:34-65 | both parts become 1e20 exactly if both parts of the divisor are near zero, and otherwise the quotient times the divisor is the dividend, also when both are the same object |
| `Complex.QuotientOnly` | src/libbn/complex.c:34-65 | for a divisor that is not zero no other number has that product, so dividing a product by a factor gives the other back |
| `Complex.SqrtOf` | src/libbn/complex.c:68-120 | the result squares to the argument, with parts near zero taken as zero, and lies in the upper half plane, or on the real line at or above zero; also in place |
| `Complex.OneRoot` | src/libbn/complex.c:68-120 | no other number is such a root |

## Left out

- Floating point: rounding, NaN and infinities, trigonometry, and the contents of the
  random and sine tables.
- The fixed arrays `cmd` and `pt` inside a chunk: they are part of the chunk's storage
  and are modelled as sequences in the link's data field, so the model has no pointer
  into the middle of a chunk.
- Magic numbers, assertions and the checks of `BU_CK_LIST_HEAD` and `NMG_CK_MODEL`.
- Allocation failure, and returning chunks to the system with `bn_vlist_cleanup`.
- Vlist.FreeVlist: freeing the free list into itself, which loses its chunks, is not
  modelled.
- VlistTools.Copy: copying a list onto itself, which does not end, is not modelled.
- VlistBox.Bbox: the optional null length pointer is not modelled.
- VlistExport.Export: the `int` cast of the buffer length is not modelled, so buffers
  of 2^31 bytes and more are taken to be possible.
- Hitmiss.Run: what the records hold is left open, and every record that is got is put
  on a list.
- Mat4.Mat4x3PntInto: a zero denominator, where C divides by zero, is excluded.
- Dvec.X86Vec.Apply: the last lane of an odd length, which is never loaded, is not
  modelled; `Dvec.PackedKeeps` says that it is dropped. Alignment is not modelled.
- Pixcmp.Command: option parsing, standard input, I/O errors, the printed listing and
  the wrap of a skip count times 3 are left out; the two files are separate streams.
- Rand.Large.RandInit: a negative seed, for which C reads outside the table, is excluded.
- Mat4.MulComposes: `bn_mat_mul` is modelled on values; its stores are not.
- QuatMat.Quat2MatRotates: `quat_quat2mat` is modelled on values; its stores, and
  calling it on an overlapping array, are not.
- Rotation.Mat2QuatIff: `quat_mat2quat` is modelled on values; its stores are not.
  What the quaternion is for a matrix that is not a rotation is not described.
- Ray.ONRay.IntersectRay: the result point keeps its third coordinate, which the caller
  of the original does not get.
- Macros that are wrong as written: `VBLEND2N`, `VCOMB2N` and `HNEAR_ZERO` of
  include/vmath.h.
- The mean and variance of bench/compute.c, whose loop divides by a counter that it has
  taken to -1.
- The NURB point-type packing of include/nmg.h, and plain copy, set and print macros:
  each is a single expression or store.
- `bn_vlist_rpp` of src/libbn/vlist.c: a fixed list of sixteen uses of BN_ADD_VLIST.
- `bn_mat_inv` of src/libbn/mat.c, which stops the program where `bn_mat_inverse`
  returns 0.
- Topology editing, NURBS, libpkg, wavelets, hulls, the display and framebuffer
  managers, and everything else that is not named above.
