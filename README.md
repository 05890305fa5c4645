# SWR fetch shader, draw-side state and nv50 descriptor bookkeeping

This project models three parts of the Mesa gallium drivers.

1. **The SWR fetch-shader generator** (`FetchJit` in `fetch_jit.cpp`). For a
   `FETCH_COMPILE_STATE`, the generated shader:
   - loads one 32-bit vertex index per SIMD lane (W = 8 lanes);
   - stores the VertexID vector and, when enabled, the cut mask;
   - fills the simdvertex output rows through one of two paths:
     - the load path (`bDisableVGATHER`): per-lane 4-component loads, a
       format conversion and a corner-turn transpose;
     - the gather path: masked per-component gathers packed through a
       4-entry buffer of vertex elements.

   The model separates generation from execution.
   - **Generation** is the imperative part:
     - the attribute loops;
     - the `currentVertexElement`/`outputElt` packing state, modelled as a
       class `VertexPacker` with an array of four entries;
     - the index loaders' scalar loop;
     - the insert/transpose shuffles.
   - **The generated code's meaning** is given by functions on symbolic lane
     values:
     - `Lane = Undef | Bits | Ratio | Half`;
     - gather `Slot`s, whose per-lane meaning is `FetchGather.GatherLane`.
   - `SWR_ASSERT` failures during generation are `Err` results.

2. **The draw-side decisions of `swr_draw.cpp`**:
   - the primitive-topology translation;
   - the stream-out declaration list built from a shader's stream outputs,
     with in-place `offsets[]` and `num`;
   - the rule that decides when the cached fetch shader must be recompiled.

3. **The inline helpers of `nv50_screen.h`**:
   - the TIC/TSC descriptor tables and their 2048-entry lock bitmaps
     (64 words of 32 bits), with the unlock and free operations;
   - the status bits that `nv50_resource_validate` adds.

The modules follow the files:
- `Simd`: 32/64-bit wrap-around, signed views, truncating division, lanes
  and `shufflevector`.
- `FetchState`: descriptors and the small pure decisions.
- `FetchIndices`: the index stage.
- `FetchLinear`: the load path.
- `FetchGather`: the gather path's masks, addresses, conversions and slots.
- `FetchPacking`: the vertex-element packing and the attribute loop.
- `FetchCreate`: `Create`.
- `SwrDraw`.
- `Nv50Screen`.

Paths below are relative to the repository root. `fetch_jit.cpp` is
`src/gallium/drivers/swr/rasterizer/jitter/fetch_jit.cpp`.

## Model

| member | source | states |
|---|---|---|
| FetchState.IsComponentEnabled | src/gallium/drivers/swr/rasterizer/jitter/fetch_jit.cpp:1372-1387 | component c < 4 is enabled iff bit c of the ComponentEnable mask is set; components 4 and above never are |
| FetchState.NoComponentEnabled | src/gallium/drivers/swr/rasterizer/jitter/fetch_jit.cpp:1372-1387 | the mask is zero iff none of X, Y, Z, W is enabled (the `if(compMask)` guards rely on this) |
| FetchState.GenerateCompCtrlVector | src/gallium/drivers/swr/rasterizer/jitter/fetch_jit.cpp:1355-1366 | fails exactly for StoreSrc; NoStore gives undef, Store0 integer 0, Store1Fp float 1.0, Store1Int integer 1 |
| FetchState.SelectConversion | src/gallium/drivers/swr/rasterizer/jitter/fetch_jit.cpp:655-680 | signed types get a sign-extending cast and unsigned ones a zero-extending cast; only UNORM/SNORM normalise; a crossed combination (sign extension with USCALED, zero extension with SSCALED) or FPExt never comes out |
| FetchIndices.GetSimdValidNarrowIndices | src/gallium/drivers/swr/rasterizer/jitter/fetch_jit.cpp:798-860 | the 8/16-bit OOB-checked loop: lane i holds the element at pIndices + i*size when that address is below pLastIndex, and 0 otherwise |
| FetchIndices.ValidNarrowIndices | src/gallium/drivers/swr/rasterizer/jitter/fetch_jit.cpp:798-860 | specification of the narrow loaders: W lanes, each the element read at its address or 0; NarrowIndicesZeroExtended and NarrowIndicesReadOnlyInBounds state the rest |
| FetchIndices.NarrowIndicesZeroExtended | src/gallium/drivers/swr/rasterizer/jitter/fetch_jit.cpp:808-823 | every narrow lane fits in the element width (zero extension) |
| FetchIndices.NarrowIndicesReadOnlyInBounds | src/gallium/drivers/swr/rasterizer/jitter/fetch_jit.cpp:808-823 | memory at out-of-bounds lanes never affects the result |
| FetchIndices.NumIndicesLeft | src/gallium/drivers/swr/rasterizer/jitter/fetch_jit.cpp:874-876 | the i64 byte difference truncated to i32 and divided by 4 toward zero lies in the signed 32-bit range / 4 |
| FetchIndices.GetSimdValid32bitIndices | src/gallium/drivers/swr/rasterizer/jitter/fetch_jit.cpp:866-896 | the masked load: W lanes, each the stored index or 0; Valid32bitLane and the lemmas below say which |
| FetchIndices.Valid32bitLane | src/gallium/drivers/swr/rasterizer/jitter/fetch_jit.cpp:866-896 | lane i of the 32-bit masked load is loaded iff the signed remaining count exceeds i, else 0 |
| FetchIndices.Valid32bitLoadsWholeIndicesOnly | src/gallium/drivers/swr/rasterizer/jitter/fetch_jit.cpp:866-896 | with fewer than 2^31 bytes left, lane i is loaded iff the whole 4-byte index lies below pLastIndex |
| FetchIndices.Valid32bitNothingLeft | src/gallium/drivers/swr/rasterizer/jitter/fetch_jit.cpp:874-895 | less than one index left, or pLastIndex before pIndices, loads no lane |
| FetchIndices.Valid32bitCountWraps | src/gallium/drivers/swr/rasterizer/jitter/fetch_jit.cpp:874-876 | with exactly 2^31 bytes left, the truncated count is negative and no lane loads |
| FetchIndices.IndexWidthConcordance | src/gallium/drivers/swr/rasterizer/jitter/fetch_jit.cpp:122-153 | fully in-bounds windows give the stored indices for all three index widths |
| FetchIndices.IndexStage | src/gallium/drivers/swr/rasterizer/jitter/fetch_jit.cpp:122-153 | fails iff the index type is not R8/R16/R32_UINT; with the OOB check off, the indices are loaded unchanged |
| FetchIndices.LoadIndices | src/gallium/drivers/swr/rasterizer/jitter/fetch_jit.cpp:122-153 | the index switch, running the narrow loaders' loops, produces exactly IndexStage |
| FetchIndices.CutMask | src/gallium/drivers/swr/rasterizer/jitter/fetch_jit.cpp:158-164 | lane j is all ones iff index j equals the cut index, and 0 iff it differs |
| FetchLinear.LaneOffset | src/gallium/drivers/swr/rasterizer/jitter/fetch_jit.cpp:254-265 | the i64 lane offset is index*pitch + AlignedByteOffset + startVertex*pitch when that does not wrap |
| FetchLinear.ClampOffset | src/gallium/drivers/swr/rasterizer/jitter/fetch_jit.cpp:267-272 | with the OOB check off the offset is kept; otherwise it is kept or replaced by 0 |
| FetchLinear.ClampKeepsElementInBuffer | src/gallium/drivers/swr/rasterizer/jitter/fetch_jit.cpp:267-272 | the offset is kept iff offset + Bpp <= size, and becomes 0 otherwise |
| FetchLinear.LinearConversion | src/gallium/drivers/swr/rasterizer/jitter/fetch_jit.cpp:279-375 | the bpc and type switches succeed exactly on the combinations the code handles; UNORM scales by 1/(2^bpc-1), SNORM by 1/2^(bpc-1), 8/16-bit USCALED and SSCALED convert by 1; every 32-bit type passes its bits through, since the component is loaded as a float and the int-to-float casts of USCALED and SSCALED then cast float to float |
| FetchLinear.UnormMaxIsOne | src/gallium/drivers/swr/rasterizer/jitter/fetch_jit.cpp:293-308 | the largest UNORM code converts to exactly 1.0 |
| FetchLinear.SnormMinIsMinusOne | src/gallium/drivers/swr/rasterizer/jitter/fetch_jit.cpp:309-324 | the smallest SNORM code converts to -1.0 (the load path's 1/128 and 1/32768 factors) |
| FetchLinear.ReadComponent | src/gallium/drivers/swr/rasterizer/jitter/fetch_jit.cpp:274-288 | a component read is undefined iff it extends past the readable bytes |
| FetchLinear.AttributeVector | src/gallium/drivers/swr/rasterizer/jitter/fetch_jit.cpp:279-288 | the four components of the full-lane load; component k is Undef exactly when its bytes end past the readable data |
| FetchLinear.LinearLane | src/gallium/drivers/swr/rasterizer/jitter/fetch_jit.cpp:257-449 | reference meaning of row c, lane j of an attribute (component read at the clamped offset, 0 or 1.0 for a missing one); no contract of its own: LinearLaneRead, OverReadIsDefaulted and JitLoadVertices state its properties |
| FetchLinear.Promote | src/gallium/drivers/swr/rasterizer/jitter/fetch_jit.cpp:223-229 | the promote shuffle keeps lanes 0..3 and fills lanes 4..7 with undef |
| FetchLinear.LoadLaneVectors | src/gallium/drivers/swr/rasterizer/jitter/fetch_jit.cpp:257-381 | the per-lane loop pushes, for each lane, the promoted converted 4-component vector at that lane's clamped offset |
| FetchLinear.InsertMask | src/gallium/drivers/swr/rasterizer/jitter/fetch_jit.cpp:415-427 | block b of the insert mask selects the second operand's lanes 0..3, and every other lane keeps the first operand |
| FetchLinear.Transpose | src/gallium/drivers/swr/rasterizer/jitter/fetch_jit.cpp:383-441 | the insert shuffles and the v01/v23/v02/v13 corner turn leave component c of lane j's vector in row c, lane j |
| FetchLinear.CornerTurnRows | src/gallium/drivers/swr/rasterizer/jitter/fetch_jit.cpp:434-441 | the two shuffle rounds move the blocked AoS layout to SoA: rows[c][j] == vectors[j][c] |
| FetchLinear.DefaultMissing | src/gallium/drivers/swr/rasterizer/jitter/fetch_jit.cpp:443-449 | the fall-through switch keeps present components, sets missing x/y/z to 0.0 and a missing w to 1.0 |
| FetchLinear.LoadAttribute | src/gallium/drivers/swr/rasterizer/jitter/fetch_jit.cpp:235-449 | the four rows of one attribute are, per component and lane, LinearLane |
| FetchLinear.LinearLaneRead | src/gallium/drivers/swr/rasterizer/jitter/fetch_jit.cpp:260-449 | a present component is the converted read at its lane's clamped offset; a missing one is 0.0 or, for w, 1.0 |
| FetchLinear.JitLoadVertices | src/gallium/drivers/swr/rasterizer/jitter/fetch_jit.cpp:217-457 | generation fails iff some attribute's conversion fails; otherwise row 4a+c, lane j holds LinearLane for attribute a, component c, lane j |
| FetchLinear.StoredAttributeRows | src/gallium/drivers/swr/rasterizer/jitter/fetch_jit.cpp:451-455 | storing an attribute's four rows after the earlier attributes' rows keeps every earlier row and places the new ones at 4a+c |
| FetchLinear.StoredComponentsWithinElement | src/gallium/drivers/swr/rasterizer/jitter/fetch_jit.cpp:239-288 | every component that is kept lies inside the element's Bpp bytes |
| FetchLinear.FullLaneReadsPastElement | src/gallium/drivers/swr/rasterizer/jitter/fetch_jit.cpp:267-288 | for a 3-component 32-bit element ending at the last readable byte, the clamp keeps the offset, the loaded vector's x, y and z are defined and its fourth component is read from past the end (Undef) |
| FetchLinear.OverReadIsDefaulted | src/gallium/drivers/swr/rasterizer/jitter/fetch_jit.cpp:257-449 | in that situation the lane vector's fourth component is Undef, yet the attribute's w row holds 1.0 and its x, y, z rows are defined: the over-read never reaches the output |
| FetchGather.CurrentIndices | src/gallium/drivers/swr/rasterizer/jitter/fetch_jit.cpp:499-523 | instanced: curInstance / stepRate in every lane (0 for a zero step rate); otherwise index + baseVertex wrapped to 32 bits |
| FetchGather.StartOffset | src/gallium/drivers/swr/rasterizer/jitter/fetch_jit.cpp:515-522 | startInstance for instanced data, startVertex otherwise; a plain selection, used by ClampedMaxVertex and GatherAddressNoWrap |
| FetchGather.InstanceIndices | src/gallium/drivers/swr/rasterizer/jitter/fetch_jit.cpp:501-513 | uniform lanes, 0 for step rate 0, else curInstance / stepRate |
| FetchGather.VertexIndices | src/gallium/drivers/swr/rasterizer/jitter/fetch_jit.cpp:520 | each lane is index + baseVertex, or that minus 2^32 when it wraps |
| FetchGather.InstanceStepping | src/gallium/drivers/swr/rasterizer/jitter/fetch_jit.cpp:501-513 | instance i reads element k with k*s <= i < (k+1)*s; step rate 1 reads element i |
| FetchGather.ClampedMaxVertex | src/gallium/drivers/swr/rasterizer/jitter/fetch_jit.cpp:533-536 | maxVertex - startOffset when non-negative, and 0 for a start offset past the max vertex |
| FetchGather.ElementInBoundsMeansFits | src/gallium/drivers/swr/rasterizer/jitter/fetch_jit.cpp:538-546 | for sizes below 2^31 the signed test holds iff AlignedByteOffset + Bpp <= partialInboundsSize |
| FetchGather.ElementInBounds | src/gallium/drivers/swr/rasterizer/jitter/fetch_jit.cpp:538-546 | the signed 32-bit compare, as generated; no contract of its own: ElementInBoundsMeansFits gives its meaning |
| FetchGather.GatherMask | src/gallium/drivers/swr/rasterizer/jitter/fetch_jit.cpp:549-557 | lane j is gathered iff its index is below the max vertex, or equal to it with the element in bounds |
| FetchGather.GatherOffsets | src/gallium/drivers/swr/rasterizer/jitter/fetch_jit.cpp:560-561 | 32-bit lanes equal to index*stride + AlignedByteOffset when that does not wrap |
| FetchGather.AttributeMask | src/gallium/drivers/swr/rasterizer/jitter/fetch_jit.cpp:532-557 | the per-attribute gather mask, one flag per lane; GatherMask and InstancedMaskUniform state its contents |
| FetchGather.InstancedMaskUniform | src/gallium/drivers/swr/rasterizer/jitter/fetch_jit.cpp:499-557 | an instanced attribute has the same gather mask in every lane |
| FetchGather.PartOffset | src/gallium/drivers/swr/rasterizer/jitter/fetch_jit.cpp:1059-1083 | the byte or half a component takes lies inside its dword |
| FetchGather.PartValue | src/gallium/drivers/swr/rasterizer/jitter/fetch_jit.cpp:1051-1105 | the extracted component fits in its width |
| FetchGather.GatherLane | src/gallium/drivers/swr/rasterizer/jitter/fetch_jit.cpp:683-692 | the per-lane meaning of a fetch slot: an undefined value only in a lane the mask fetches, never in a masked-off one (MaskedLaneIsZero: that lane holds zero) |
| FetchGather.MaskedLaneIsZero | src/gallium/drivers/swr/rasterizer/jitter/fetch_jit.cpp:683-692 | a masked-off lane reads no memory and holds a zero of the slot's type (the gather source) |
| FetchGather.GatherAddressNoWrap | src/gallium/drivers/swr/rasterizer/jitter/fetch_jit.cpp:528-561 | without 32-bit overflow the gathered dword is at (startOffset + index)*stride + AlignedByteOffset + displacement |
| FetchGather.Shuffle8Conversion | src/gallium/drivers/swr/rasterizer/jitter/fetch_jit.cpp:932-1048 | succeeds iff the cast and conversion are not crossed and the cast is a sign or zero extension; the integer and float choices follow the cast's signedness |
| FetchGather.Shuffle16Conversion | src/gallium/drivers/swr/rasterizer/jitter/fetch_jit.cpp:1145-1279 | as for 8 bits, with FPExt taking the sign branch and always widening half floats |
| FetchGather.SelectedConversionsAreSupported | src/gallium/drivers/swr/rasterizer/jitter/fetch_jit.cpp:655-680 | a non-float format reaches a shuffle conversion iff its type is not UNKNOWN or UNUSED |
| FetchGather.GatherSnormMaxIsOne | src/gallium/drivers/swr/rasterizer/jitter/fetch_jit.cpp:971-989 | the gather path's SNORM scale maps +127 to exactly 1.0 and -128 to -128/127 |
| FetchGather.FetchSlot | src/gallium/drivers/swr/rasterizer/jitter/fetch_jit.cpp:743-779 | each path fetches component i from attribute attr through a part inside a dword, with the path's conversion |
| FetchGather.ComponentSlot | src/gallium/drivers/swr/rasterizer/jitter/fetch_jit.cpp:757-769 | StoreSrc fetches; any other control stores GenerateCompCtrlVector's constant |
| FetchGather.PackedSlots | src/gallium/drivers/swr/rasterizer/jitter/fetch_jit.cpp:748-779 | the component loop emits at most one slot per component considered; PackedSlotsCount and PackedSlotsAt give the exact count and positions |
| FetchGather.PackedSlotsCount | src/gallium/drivers/swr/rasterizer/jitter/fetch_jit.cpp:748-779 | the loop emits one slot per enabled component |
| FetchGather.PackedSlotsAt | src/gallium/drivers/swr/rasterizer/jitter/fetch_jit.cpp:748-779 | enabled component i's slot sits after the slots of the enabled components before it |
| FetchGather.PackedSlotsFetch | src/gallium/drivers/swr/rasterizer/jitter/fetch_jit.cpp:748-779 | every fetch slot of the loop reads its own attribute through a valid part |
| FetchGather.EnabledBelowMonotone | src/gallium/drivers/swr/rasterizer/jitter/fetch_jit.cpp:748-779 | the number of enabled components among the first m is monotone in m |
| FetchGather.AllComponentsCount | src/gallium/drivers/swr/rasterizer/jitter/fetch_jit.cpp:748-779 | all four components give as many slots as enabled components, and none for an empty mask |
| FetchGather.AttributeSlots | src/gallium/drivers/swr/rasterizer/jitter/fetch_jit.cpp:568-781 | an attribute contributes at most four slots; AttributeSlotsErrors and AttributeSlotsCount give its error cases and exact count |
| FetchGather.AttributeSlotsErrors | src/gallium/drivers/swr/rasterizer/jitter/fetch_jit.cpp:568-781 | an attribute fails iff it is a FLOAT other than 16/32 bpc, an 8/16-bit UNKNOWN/UNUSED type with components, or a normalized/scaled 32-bit integer |
| FetchGather.AttributeSlotsCount | src/gallium/drivers/swr/rasterizer/jitter/fetch_jit.cpp:568-781 | otherwise an 8/16/32-bit attribute emits one slot per enabled component |
| FetchGather.AttributeSlotsFetch | src/gallium/drivers/swr/rasterizer/jitter/fetch_jit.cpp:568-781 | every fetch slot of attribute attr reads attribute attr |
| FetchPacking.Stored | src/gallium/drivers/swr/rasterizer/jitter/fetch_jit.cpp:1327-1349 | one row per slot, in order |
| FetchPacking.StoredAppend | src/gallium/drivers/swr/rasterizer/jitter/fetch_jit.cpp:1327-1349 | storing a + b gives a's rows followed by b's rows |
| FetchPacking.GroupPositionOf | src/gallium/drivers/swr/rasterizer/jitter/fetch_jit.cpp:637-641 | after 4k + c slots the buffer holds c entries |
| FetchPacking.VertexPacker.StoreVertexElements | src/gallium/drivers/swr/rasterizer/jitter/fetch_jit.cpp:1327-1349 | the first numEltsToStore entries are appended as rows outputElt*4 + c |
| FetchPacking.VertexPacker.Append | src/gallium/drivers/swr/rasterizer/jitter/fetch_jit.cpp:631-641 | a slot fills the next entry; a fourth entry flushes the group; the packing invariant is kept |
| FetchPacking.VertexPacker.Finish | src/gallium/drivers/swr/rasterizer/jitter/fetch_jit.cpp:786-789 | corrected final flush: the rows are exactly one per appended slot, in order, and outputElt advances by one iff a partial group was pending |
| FetchPacking.VertexPacker.FinishAsWritten | src/gallium/drivers/swr/rasterizer/jitter/fetch_jit.cpp:786-789 | the flush as written: a partial last group adds one row holding the buffer's stale or never-assigned entry; outputElt advances by one iff a partial group was pending |
| FetchPacking.FinalFlushStoresExtraRow | src/gallium/drivers/swr/rasterizer/jitter/fetch_jit.cpp:787-789 | one X-only attribute yields two rows, the second never assigned |
| FetchPacking.FinalFlushRepeatsStaleRow | src/gallium/drivers/swr/rasterizer/jitter/fetch_jit.cpp:787-789 | five components yield six rows, the sixth repeating the second |
| FetchPacking.FinalFlushMismatch | src/gallium/drivers/swr/rasterizer/jitter/fetch_jit.cpp:787-789 | whenever the last group is partial, the as-written flush stores one row more than there are components |
| FetchPacking.FinalRowsStale | src/gallium/drivers/swr/rasterizer/jitter/fetch_jit.cpp:787-789 | a partial group of n entries adds, as its extra row, the stale entry n |
| FetchPacking.AppendComponent | src/gallium/drivers/swr/rasterizer/jitter/fetch_jit.cpp:757-775 | one enabled component appends the slot PackedSlots gives it |
| FetchPacking.Gather32bpc | src/gallium/drivers/swr/rasterizer/jitter/fetch_jit.cpp:617-645 | the 32-bit loop appends exactly the slots of the enabled components, dword i at displacement 4i |
| FetchPacking.Shuffle8bpcGatherd | src/gallium/drivers/swr/rasterizer/jitter/fetch_jit.cpp:913-1111 | fails, appending nothing, iff the 8-bit conversion fails; otherwise appends byte swizzle[i] (or the constant) for each enabled component |
| FetchPacking.HalfComponent | src/gallium/drivers/swr/rasterizer/jitter/fetch_jit.cpp:1202-1237 | component i takes the low or high half of the x/y or z/w gather, or its constant |
| FetchPacking.Shuffle16bpcGather | src/gallium/drivers/swr/rasterizer/jitter/fetch_jit.cpp:1127-1319 | fails, appending nothing, iff the 16-bit conversion fails; otherwise appends the halves (or constants) of the enabled components |
| FetchPacking.AttributeResultsAt | src/gallium/drivers/swr/rasterizer/jitter/fetch_jit.cpp:479-483 | entry a of the per-attribute outcomes is attribute a's own outcome |
| FetchPacking.Collect | src/gallium/drivers/swr/rasterizer/jitter/fetch_jit.cpp:479-784 | the attribute loop's accumulation of slots, stopping at the first error; no contract of its own: CollectErr, CollectFirstErr and CollectFetch state its properties |
| FetchPacking.GatherOutput | src/gallium/drivers/swr/rasterizer/jitter/fetch_jit.cpp:479-790 | the rows the gather path stores for a state; no contract of its own: JitGatherVertices is proved to produce it |
| FetchPacking.CollectErr | src/gallium/drivers/swr/rasterizer/jitter/fetch_jit.cpp:479-784 | generation fails iff some attribute fails |
| FetchPacking.CollectFirstErr | src/gallium/drivers/swr/rasterizer/jitter/fetch_jit.cpp:479-784 | the error reported is the first failing attribute's |
| FetchPacking.CollectPrefixErr | src/gallium/drivers/swr/rasterizer/jitter/fetch_jit.cpp:479-784 | once an attribute fails, no later attribute changes the outcome |
| FetchPacking.CollectFetch | src/gallium/drivers/swr/rasterizer/jitter/fetch_jit.cpp:479-784 | every fetch slot of the first n attributes reads one of them |
| FetchPacking.LayoutSlotsFetch | src/gallium/drivers/swr/rasterizer/jitter/fetch_jit.cpp:479-784 | every fetch slot generated for a layout reads one of its attributes through a valid part |
| FetchPacking.GatherAttribute | src/gallium/drivers/swr/rasterizer/jitter/fetch_jit.cpp:481-781 | one attribute fails iff AttributeSlots fails, with its message; otherwise it appends exactly AttributeSlots |
| FetchPacking.GatherAttributeOf | src/gallium/drivers/swr/rasterizer/jitter/fetch_jit.cpp:481-781 | the same, stated against attribute n's entry of the per-attribute outcomes |
| FetchPacking.GatherAttributes | src/gallium/drivers/swr/rasterizer/jitter/fetch_jit.cpp:479-784 | the attribute loop fails iff Collect fails; otherwise the packer has appended exactly Collect's slots |
| FetchPacking.JitGatherVertices | src/gallium/drivers/swr/rasterizer/jitter/fetch_jit.cpp:466-790 | the stored rows are GatherOutput: every enabled component of every attribute, once, in layout order, or the first attribute's error |
| FetchCreate.IndexStageLanes | src/gallium/drivers/swr/rasterizer/jitter/fetch_jit.cpp:122-153 | each index lane is the stored index or the substituted 0 |
| FetchCreate.AsIndices | src/gallium/drivers/swr/rasterizer/jitter/fetch_jit.cpp:257-261 | the non-negative index lanes as naturals, lane for lane |
| FetchCreate.Create | src/gallium/drivers/swr/rasterizer/jitter/fetch_jit.cpp:81-206 | fails iff the index type is unsupported or the chosen path fails; VertexID is the index vector; the cut mask is present iff enabled; the rows are those of the load or gather path |
| SwrDraw.ConvertPrimTopology | src/gallium/drivers/swr/swr_draw.cpp:37-73 | TOP_UNKNOWN is returned exactly for the modes the switch does not list |
| SwrDraw.PrimOfTopology | src/gallium/drivers/swr/swr_draw.cpp:37-73 | the inverse table: only TOP_UNKNOWN has no mode |
| SwrDraw.TopologyRoundTrip | src/gallium/drivers/swr/swr_draw.cpp:37-73 | every listed mode but POLYGON comes back from its topology; POLYGON is drawn as a triangle fan; every topology but UNKNOWN is produced |
| SwrDraw.TopologyCollisions | src/gallium/drivers/swr/swr_draw.cpp:37-73 | two modes share a topology iff they are equal, both unlisted, or a fan and a polygon |
| SwrDraw.AddOutputAppends | src/gallium/drivers/swr/swr_draw.cpp:109-126 | one output appends an optional hole decl, then its own decl |
| SwrDraw.OffsetAfter | src/gallium/drivers/swr/swr_draw.cpp:117-128 | offsets[b] after the first n outputs; no contract of its own: StreamStep and BuildStreamoutDecls tie it to the array |
| SwrDraw.HoleDecl | src/gallium/drivers/swr/swr_draw.cpp:109-116 | the hole decl; no contract of its own: HoleDeclCovers proves it covers exactly the gap |
| SwrDraw.OutputDecl | src/gallium/drivers/swr/swr_draw.cpp:120-126 | the output's decl; no contract of its own: OutputDeclCovers proves it covers num_components dwords of its buffer |
| SwrDraw.AddOutput | src/gallium/drivers/swr/swr_draw.cpp:109-128 | one loop step on the decl list; no contract of its own: AddOutputAppends and TailCount state it |
| SwrDraw.Decls | src/gallium/drivers/swr/swr_draw.cpp:106-131 | the decl list of the first n outputs; no contract of its own: DeclCount and DeclsCoverOffsets state its size and coverage |
| SwrDraw.AddStreamOutput | src/gallium/drivers/swr/swr_draw.cpp:108-128 | the loop body appends the hole (if dst_offset differs from offsets[buffer]) and the output decl, and advances only offsets[buffer], to dst_offset + num_components |
| SwrDraw.StreamStep | src/gallium/drivers/swr/swr_draw.cpp:106-129 | one iteration extends the decl list by that output's decls and moves only its buffer's offset |
| SwrDraw.BuildStreamoutDecls | src/gallium/drivers/swr/swr_draw.cpp:103-131 | the loop, with offsets[] in an array, produces Decls for all outputs, and numDecls is their count |
| SwrDraw.HolesAppend | src/gallium/drivers/swr/swr_draw.cpp:106-129 | holes of a + b are the holes of a plus the holes of b |
| SwrDraw.DeclCount | src/gallium/drivers/swr/swr_draw.cpp:106-131 | n outputs give between n and 2n decls, exactly n of them not holes |
| SwrDraw.TailCount | src/gallium/drivers/swr/swr_draw.cpp:109-126 | one output gives one or two decls, all but one of them holes |
| SwrDraw.OnesLowBits | src/gallium/drivers/swr/swr_draw.cpp:113-115 | `(1 << n) - 1` has n one bits |
| SwrDraw.OnesShifted | src/gallium/drivers/swr/swr_draw.cpp:122-124 | shifting a mask left keeps its number of one bits |
| SwrDraw.CoveredAppend | src/gallium/drivers/swr/swr_draw.cpp:106-129 | the coverage of a + c is the sum of the coverages |
| SwrDraw.OutputDeclCovers | src/gallium/drivers/swr/swr_draw.cpp:120-126 | an output's decl covers num_components dwords of its buffer and none of another |
| SwrDraw.HoleDeclCovers | src/gallium/drivers/swr/swr_draw.cpp:109-117 | a hole decl covers exactly the gap up to dst_offset in its buffer |
| SwrDraw.OutputDeclsCover | src/gallium/drivers/swr/swr_draw.cpp:109-128 | one output's decls cover the gap plus its components, in its buffer |
| SwrDraw.DeclsCoverOffsets | src/gallium/drivers/swr/swr_draw.cpp:106-131 | each buffer's decls tile it without overlap up to where its last output ends, the value offsets[] holds |
| SwrDraw.VertexElementState.UpdateFetchShader | src/gallium/drivers/swr/swr_draw.cpp:142-156 | recompiles iff there is no shader or the cut index or restart flag differ; afterwards the cached state matches the draw, so the same draw again does not recompile |
| Nv50Screen.ClearBitExactly | src/gallium/drivers/nouveau/nv50/nv50_screen.h:151 | `w &= ~(1 << b)` clears bit b and keeps every other bit |
| Nv50Screen.BitOf | src/gallium/drivers/nouveau/nv50/nv50_screen.h:151 | an entry's bit position is id % 32 |
| Nv50Screen.UnlockClears | src/gallium/drivers/nouveau/nv50/nv50_screen.h:148-159 | after an unlock the entry is not locked |
| Nv50Screen.UnlockKeepsOthers | src/gallium/drivers/nouveau/nv50/nv50_screen.h:148-159 | an unlock leaves every other entry's lock bit as it was |
| Nv50Screen.UnlockedWordsUnchanged | src/gallium/drivers/nouveau/nv50/nv50_screen.h:148-159 | only the lock word id / 32 changes |
| Nv50Screen.UnlockIdempotent | src/gallium/drivers/nouveau/nv50/nv50_screen.h:148-159 | a second unlock changes nothing |
| Nv50Screen.ClearBit | src/gallium/drivers/nouveau/nv50/nv50_screen.h:151 | bit b is clear afterwards (ClearBitExactly: every other bit is kept) |
| Nv50Screen.Unlocked | src/gallium/drivers/nouveau/nv50/nv50_screen.h:150-151 | the bitmap keeps its 64 words; UnlockClears, UnlockKeepsOthers and UnlockedWordsUnchanged state which bit changes |
| Nv50Screen.DescriptorTable.constructor | src/gallium/drivers/nouveau/nv50/nv50_screen.h:76-86 | a table of 2048 NULL entries and 2048/32 = 64 clear lock words |
| Nv50Screen.DescriptorTable.Unlock | src/gallium/drivers/nouveau/nv50/nv50_screen.h:148-159 | a negative id changes nothing; otherwise the bitmap becomes Unlocked |
| Nv50Screen.DescriptorTable.Free | src/gallium/drivers/nouveau/nv50/nv50_screen.h:162-177 | a negative id changes nothing; otherwise the entry becomes NULL and its lock bit is cleared |
| Nv50Screen.Screen.TicUnlock | src/gallium/drivers/nouveau/nv50/nv50_screen.h:148-152 | only the tic lock bitmap changes, as Unlock says |
| Nv50Screen.Screen.TscUnlock | src/gallium/drivers/nouveau/nv50/nv50_screen.h:154-159 | only the tsc lock bitmap changes, as Unlock says |
| Nv50Screen.Screen.TicFree | src/gallium/drivers/nouveau/nv50/nv50_screen.h:161-168 | only the tic entries and lock change, as Free says |
| Nv50Screen.Screen.TscFree | src/gallium/drivers/nouveau/nv50/nv50_screen.h:170-177 | only the tsc entries and lock change, as Free says |
| Nv50Screen.FreeIdempotent | src/gallium/drivers/nouveau/nv50/nv50_screen.h:162-177 | freeing the same slot twice leaves both arrays as the first free did |
| Nv50Screen.AddedStatus | src/gallium/drivers/nouveau/nv50/nv50_screen.h:127-132 | validation can add only GPU_READING, GPU_WRITING and DIRTY |
| Nv50Screen.ValidatedStatus | src/gallium/drivers/nouveau/nv50/nv50_screen.h:127-132 | the status after validation; no contract of its own: ValidatedStatusIsOr, ValidateOnlyAdds and ValidateIdempotent state it |
| Nv50Screen.ValidatedStatusIsOr | src/gallium/drivers/nouveau/nv50/nv50_screen.h:125-136 | with a bo, validation ORs in the access bits; without one, the status is untouched |
| Nv50Screen.ValidateOnlyAdds | src/gallium/drivers/nouveau/nv50/nv50_screen.h:125-136 | validation never clears a status bit |
| Nv50Screen.ValidateTouchesOnlyStatusBits | src/gallium/drivers/nouveau/nv50/nv50_screen.h:125-136 | no bit outside GPU_READING, GPU_WRITING and DIRTY changes |
| Nv50Screen.ValidateRecordsAccess | src/gallium/drivers/nouveau/nv50/nv50_screen.h:127-132 | a write sets GPU_WRITING and DIRTY, and a read sets GPU_READING |
| Nv50Screen.ValidateIdempotent | src/gallium/drivers/nouveau/nv50/nv50_screen.h:125-136 | validating again for the same access changes nothing |
| Nv50Screen.Resource.Validate | src/gallium/drivers/nouveau/nv50/nv50_screen.h:125-136 | the status part of nv50_resource_validate updates the field to ValidatedStatus |

## Left out

- LLVM plumbing is not modelled, because the model states what the emitted code computes, not how it is emitted:
  - the builder, the JIT manager, `JitFetchFunc`/`JitCompileFetch` and the optimisation passes;
  - the generated function's name, signature and GEP/bitcast typing.
- Floating-point arithmetic:
  - conversions are kept symbolic: `Ratio(n, d)` is "n converted to float, times 1/d", and `Half(h)` is the half float h widened;
  - there is no IEEE rounding.
- Intrinsics are modelled by their effect, not their internals (`PSHUFB`, `PERMD`, masked gathers, `MASKLOADD`, `CVTPH2PS`).
- The SIMD width is fixed at 8 lanes, the AVX target. The 32-bit index offsets and the shuffle tables are written for 8 lanes.
- The 64-bit pointer arithmetic behind the load path's and the gather path's addresses:
  - it is modelled as unbounded byte offsets relative to `pData`;
  - only the i64 wrap of the load path's offset is stated (`LaneOffset`).
- Memory outside the readable bytes reads as `Undef`; no fault is modelled.
- `GetFormatInfo` and the format table are not part of this model. Each layout element carries its `FormatInfo`, and every component is assumed to have `type[0]`, as the code assumes.
- `SWR_ASSERT` during generation becomes an `Err` result.
- Memory is not modelled:
  - the index stage reads a window of 8 index elements, not a memory map;
  - pointers are byte addresses.
- The gather path's row contents are given as symbolic `Slot`s, plus a per-lane meaning (`FetchGather.GatherLane`). `JitGatherVertices` is proved to store the slots in order; the lane values of a slot are not restated for every row.
- `swr_convert_prim_topology`'s `assert(0)` for an unknown mode is not modelled; the function returns `TOP_UNKNOWN`, as it does without assertions.
- The `PIPE_PRIM_*` and `NOUVEAU_*` constant values come from headers that are not part of this model.
  - The primitive modes and topologies are enumerations.
  - The status bits are stand-ins 1, 2, 4, and the access flags RD = 4 and WR = 8. The lemmas depend only on these being distinct single bits.
- Parts of `swr_draw_vbo` are not modelled:
  - the `stream == 0` assertion;
  - `u_vertices_per_prim`, per-mode `soFunc` caching, `JitCompileStreamout`;
  - render conditions, indirect draws, derived state and the draw calls.
- `SwrDraw.BuildStreamoutDecls` requires `StreamOutputs`: every output starts at or after its buffer's previous end, by fewer than 32 dwords.
  - In C, `1 << n` with n >= 32 is undefined. A dst_offset below `offsets[buffer]` makes the unsigned shift count `dst_offset - offsets[buffer]` of swr_draw.cpp:114 wrap, so the shift is undefined too.
  - The 128-entry `decl` array is a sequence.
- `nv50_resource_fence` and `nouveau_fence_ref` are not modelled (fences); `Validate` models the status update only.
- `1 << 31` on `int` at nv50_screen.h:151 is taken as the bit pattern 0x80000000.
- `knob_defs.py`, `builder.cpp` and `builder.h` are configuration and LLVM plumbing.

## Findings

| source | as written | input that shows it | evidently intended | confidence | as-written member | corrected member |
|---|---|---|---|---|---|---|
| src/gallium/drivers/swr/rasterizer/jitter/fetch_jit.cpp:787-789 | the final flush of a partial group stores `currentVertexElement + 1` entries | one attribute with only X enabled: the flush stores two rows, and the second is an entry of `vVertexElements` that was never assigned (in later groups, a stale entry of the previous group) | store exactly the `currentVertexElement` entries filled, one row per enabled component | not executed | FetchPacking.VertexPacker.FinishAsWritten | FetchPacking.VertexPacker.Finish |

`FetchPacking.FinalFlushStoresExtraRow` and `FetchPacking.FinalFlushMismatch` exhibit the discrepancy on the as-written flush. `FetchPacking.JitGatherVertices` uses the corrected `Finish` and is proved to store exactly one row per enabled component.

The two paths scale SNORM differently: the load path uses 1/128 and 1/32768, the gather path 1/127 and 1/32767. The model follows the code on both paths (`FetchLinear.SnormMinIsMinusOne`, `FetchGather.GatherSnormMaxIsOne`). It does not list this as a finding, because either convention is in use.
