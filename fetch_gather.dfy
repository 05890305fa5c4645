/**
 * The gather fetch path (FetchJit::JitGatherVertices and the two shuffle
 * routines) as two layers.  At generation time each attribute contributes a
 * sequence of `Slot`s, one per enabled component: a constant vector or a
 * fetch of part of a gathered dword.  At run time a fetch slot means, per
 * lane, the masked gather of that lane's vertex, extracted and converted.
 * This module holds both meanings as functions; the packing of slots into
 * output rows is in FetchPacking.
 */
module FetchGather {
  import opened Simd
  import opened FetchState

  /** The SWR_FETCH_CONTEXT fields the gather path loads. */
  datatype FetchContext = FetchContext(startVertex: nat, startInstance: nat, curInstance: nat, baseVertex: nat)

  predicate ValidContext(ctx: FetchContext)
  {
    IsU32(ctx.startVertex) && IsU32(ctx.startInstance) && IsU32(ctx.curInstance) && IsU32(ctx.baseVertex)
  }

  /**
   * The fields of SWR_VERTEX_BUFFER_STATE the gather path reads: pitch, the
   * largest fully in-bounds vertex index, the in-bounds byte count of the
   * partially valid vertex, and the bytes readable from pData onwards.
   */
  datatype GatherBuffer = GatherBuffer(pitch: nat, maxVertex: nat, partialInboundsSize: nat, data: seq<int>)

  predicate ValidGatherBuffer(vb: GatherBuffer)
  {
    IsU32(vb.pitch) && IsU32(vb.maxVertex) && IsU32(vb.partialInboundsSize) && ValidBytes(vb.data)
  }

  predicate ValidIndices(vIndices: seq<int>)
  {
    |vIndices| == W && forall j :: 0 <= j < W ==> IsU32(vIndices[j])
  }

  /**
   * vCurIndices of one attribute.  Instanced: the instance number divided by
   * the step rate, with a zero step rate replaced by 1 for the division and
   * its quotient replaced by 0, broadcast to every lane.  Otherwise:
   * vIndices + vBaseVertex in 32-bit lanes.
   */
  function CurrentIndices(ied: InputElementDesc, ctx: FetchContext, vIndices: seq<int>): (cur: seq<int>)
    requires ValidElement(ied) && ValidContext(ctx) && ValidIndices(vIndices)
    ensures |cur| == W && forall j :: 0 <= j < W ==> IsU32(cur[j])
    ensures ied.instanceEnable ==> forall j :: 0 <= j < W ==> cur[j] == cur[0]
    ensures ied.instanceEnable && ied.instanceDataStepRate == 0 ==> cur[0] == 0
    ensures ied.instanceEnable && ied.instanceDataStepRate > 0 ==> cur[0] == ctx.curInstance / ied.instanceDataStepRate
    ensures !ied.instanceEnable ==> forall j :: 0 <= j < W ==>
      cur[j] == vIndices[j] + ctx.baseVertex || cur[j] == vIndices[j] + ctx.baseVertex - TwoPow32
  {
    if ied.instanceEnable then InstanceIndices(ied.instanceDataStepRate, ctx.curInstance)
    else VertexIndices(vIndices, ctx.baseVertex)
  }

  /** The instanced branch: curInstance / stepRate, or 0 for a zero step rate, in every lane. */
  function InstanceIndices(instanceDataStepRate: nat, curInstance: nat): (cur: seq<int>)
    requires IsU32(curInstance)
    ensures |cur| == W && forall j :: 0 <= j < W ==> cur[j] == cur[0]
    ensures IsU32(cur[0])
    ensures instanceDataStepRate == 0 ==> cur[0] == 0
    ensures instanceDataStepRate > 0 ==> cur[0] == curInstance / instanceDataStepRate
  {
    var isNonZeroStep := instanceDataStepRate > 0;
    var stepRate := if isNonZeroStep then instanceDataStepRate else 1;
    var calcInstance := curInstance / stepRate;
    Broadcast(W, if isNonZeroStep then calcInstance else 0)
  }

  /** The vertex branch: vIndices + vBaseVertex, wrapping in 32-bit lanes. */
  function VertexIndices(vIndices: seq<int>, baseVertex: nat): (cur: seq<int>)
    requires ValidIndices(vIndices) && IsU32(baseVertex)
    ensures |cur| == W && forall j :: 0 <= j < W ==> IsU32(cur[j])
    ensures forall j :: 0 <= j < W ==>
      cur[j] == vIndices[j] + baseVertex || cur[j] == vIndices[j] + baseVertex - TwoPow32
  {
    seq(W, j requires 0 <= j < W => U32(vIndices[j] + baseVertex))
  }

  /**
   * With a non-zero step rate s, instance i reads element floor(i / s):
   * instances s * k .. s * k + s - 1 share element k, and a step rate of 1
   * gives one element per instance.
   */
  lemma InstanceStepping(ied: InputElementDesc, ctx: FetchContext, vIndices: seq<int>)
    requires ValidElement(ied) && ValidContext(ctx) && ValidIndices(vIndices)
    requires ied.instanceEnable && ied.instanceDataStepRate > 0
    ensures var k := CurrentIndices(ied, ctx, vIndices)[0];
      k * ied.instanceDataStepRate <= ctx.curInstance < (k + 1) * ied.instanceDataStepRate
    ensures ied.instanceDataStepRate == 1 ==> CurrentIndices(ied, ctx, vIndices)[0] == ctx.curInstance
  {
    var s := ied.instanceDataStepRate;
    var k := ctx.curInstance / s;
    assert ctx.curInstance == k * s + ctx.curInstance % s;
    assert (k + 1) * s == k * s + s;
  }

  /** startOffset: the start instance for instanced data, the start vertex otherwise. */
  function StartOffset(ied: InputElementDesc, ctx: FetchContext): nat
  {
    if ied.instanceEnable then ctx.startInstance else ctx.startVertex
  }

  /**
   * maxVertex - startOffset computed in i64, clamped at 0 when negative,
   * then truncated to 32 bits.
   */
  function ClampedMaxVertex(maxVertex: nat, startOffset: nat): (m: int)
    requires IsU32(maxVertex) && IsU32(startOffset)
    ensures IsU32(m)
    ensures startOffset <= maxVertex ==> m == maxVertex - startOffset
    ensures maxVertex < startOffset ==> m == 0
  {
    var diff := maxVertex - startOffset;
    var neg := diff < 0;
    if neg then 0 else U32(diff)
  }

  /**
   * vElementInBoundsMask: Bpp <= partialInboundsSize - AlignedByteOffset as
   * a signed 32-bit compare of 32-bit lanes.
   */
  function ElementInBounds(Bpp: nat, partialInboundsSize: nat, alignedByteOffset: nat): bool
    requires IsU32(Bpp) && IsU32(partialInboundsSize) && IsU32(alignedByteOffset)
  {
    ToSigned32(Bpp) <= ToSigned32(U32(partialInboundsSize - alignedByteOffset))
  }

  /**
   * For sizes below 2^31 the signed test says exactly that the element's
   * bytes end within the partially valid vertex; an offset past that budget
   * makes the difference negative, and the element is rejected.
   */
  lemma ElementInBoundsMeansFits(Bpp: nat, partialInboundsSize: nat, alignedByteOffset: nat)
    requires Bpp < TwoPow31 && partialInboundsSize < TwoPow31 && alignedByteOffset < TwoPow31
    ensures ElementInBounds(Bpp, partialInboundsSize, alignedByteOffset) <==>
      alignedByteOffset + Bpp <= partialInboundsSize
  {
    if alignedByteOffset > partialInboundsSize {
      assert U32(partialInboundsSize - alignedByteOffset) == partialInboundsSize - alignedByteOffset + TwoPow32;
    }
  }

  /**
   * vGatherMask: lanes whose index is below the clamped max vertex are
   * fetched; the lane whose index equals it is fetched iff the element lies
   * in the partially valid vertex; every other lane is masked off.
   */
  function GatherMask(cur: seq<int>, maxVertex: int, inBounds: bool): (mask: seq<bool>)
    ensures |mask| == |cur|
    ensures forall j :: 0 <= j < |cur| ==> (mask[j] <==> cur[j] < maxVertex || (cur[j] == maxVertex && inBounds))
  {
    seq(|cur|, j requires 0 <= j < |cur| =>
      var partialOOB := cur[j] == maxVertex;
      var fullyInBounds := cur[j] < maxVertex;
      if partialOOB then inBounds else fullyInBounds)
  }

  /** vOffsets: index * stride + AlignedByteOffset in 32-bit lanes. */
  function GatherOffsets(cur: seq<int>, stride: nat, alignedByteOffset: nat): (offsets: seq<int>)
    ensures |offsets| == |cur|
    ensures forall j :: 0 <= j < |cur| ==> IsU32(offsets[j])
    ensures forall j :: 0 <= j < |cur| && 0 <= cur[j] * stride + alignedByteOffset < TwoPow32 ==>
      offsets[j] == cur[j] * stride + alignedByteOffset
  {
    seq(|cur|, j requires 0 <= j < |cur| => U32(cur[j] * stride + alignedByteOffset))
  }

  /** The per-attribute mask, from the element's descriptor, its buffer and the fetch context. */
  function AttributeMask(ied: InputElementDesc, vb: GatherBuffer, ctx: FetchContext, vIndices: seq<int>): (mask: seq<bool>)
    requires ValidElement(ied) && ValidGatherBuffer(vb) && ValidContext(ctx) && ValidIndices(vIndices)
    ensures |mask| == W
  {
    var cur := CurrentIndices(ied, ctx, vIndices);
    var maxVertex := ClampedMaxVertex(vb.maxVertex, StartOffset(ied, ctx));
    GatherMask(cur, maxVertex, ElementInBounds(ied.format.Bpp, vb.partialInboundsSize, ied.alignedByteOffset))
  }

  /**
   * Distributivity over the clamped start offset, stated on its own: with
   * no other facts in scope the nonlinear step is cheap, whereas written as
   * an assertion inside GatherAddressNoWrap the solver runs out of resource.
   */
  lemma Distribute(s: nat, c: nat, p: nat)
    ensures c * p >= 0 && (s + c) * p == s * p + c * p
  {
  }

  /** An instanced attribute fetches the same vertex in every lane, so its mask is uniform. */
  lemma InstancedMaskUniform(ied: InputElementDesc, vb: GatherBuffer, ctx: FetchContext, vIndices: seq<int>, j: nat, k: nat)
    requires ValidElement(ied) && ValidGatherBuffer(vb) && ValidContext(ctx) && ValidIndices(vIndices)
    requires ied.instanceEnable && j < W && k < W
    ensures AttributeMask(ied, vb, ctx, vIndices)[j] == AttributeMask(ied, vb, ctx, vIndices)[k]
  {
    var cur := CurrentIndices(ied, ctx, vIndices);
    assert cur[j] == cur[0] == cur[k];
  }

  /** Which part of a gathered dword a component occupies. */
  datatype Extract = Dword | Halfword(h: nat) | Byte(b: nat)

  predicate ValidExtract(part: Extract)
  {
    match part
    case Dword => true
    case Halfword(h) => h < 2
    case Byte(b) => b < 4
  }

  function PartBytes(part: Extract): (n: nat)
    ensures 1 <= n <= 4
  {
    match part
    case Dword => 4
    case Halfword(_) => 2
    case Byte(_) => 1
  }

  function PartBits(part: Extract): nat { 8 * PartBytes(part) }

  /** Byte position of the part inside its little-endian dword. */
  function PartOffset(part: Extract): (o: nat)
    ensures ValidExtract(part) ==> o + PartBytes(part) <= 4
  {
    match part
    case Dword => 0
    case Halfword(h) => 2 * h
    case Byte(b) => b
  }

  /**
   * One output component of the gather path, as generated: a constant
   * vector, or part `part` of the dword gathered at displacement `disp`
   * from attribute `attr`'s base, converted by `conv`.
   */
  datatype Slot = Const(lane: Lane) | Fetch(attr: nat, disp: nat, part: Extract, conv: Convert)

  /** The byte address of lane j's gathered dword, relative to pData: pStreamBase, disp and the sign-extended offset. */
  function GatherAddress(ied: InputElementDesc, vb: GatherBuffer, ctx: FetchContext, vIndices: seq<int>,
                         disp: nat, j: nat): int
    requires ValidElement(ied) && ValidGatherBuffer(vb) && ValidContext(ctx) && ValidIndices(vIndices) && j < W
  {
    var cur := CurrentIndices(ied, ctx, vIndices);
    StartOffset(ied, ctx) * vb.pitch + disp + ToSigned32(GatherOffsets(cur, vb.pitch, ied.alignedByteOffset)[j])
  }

  /**
   * Run-time meaning of a fetch slot in lane j.  pStreamBase is advanced by
   * startOffset * stride (i64) and by disp; the gather adds the
   * sign-extended 32-bit offset.  A masked-off lane holds the gather source,
   * 0, before conversion; an address outside the readable bytes is undefined.
   */
  function GatherLane(ied: InputElementDesc, vb: GatherBuffer, ctx: FetchContext, vIndices: seq<int>,
                      disp: nat, part: Extract, conv: Convert, j: nat): (l: Lane)
    requires ValidElement(ied) && ValidGatherBuffer(vb) && ValidContext(ctx) && ValidIndices(vIndices)
    requires ValidExtract(part) && j < W
    ensures l == Undef ==> AttributeMask(ied, vb, ctx, vIndices)[j]
  {
    var addr := GatherAddress(ied, vb, ctx, vIndices, disp, j);
    if !AttributeMask(ied, vb, ctx, vIndices)[j] then ApplyConvert(conv, 0, PartBits(part))
    else if addr < 0 || addr + 4 > |vb.data| then Undef
    else ApplyConvert(conv, PartValue(vb.data, addr, part), PartBits(part))
  }

  /** The part of the little-endian dword at byte `addr` that a component occupies. */
  function PartValue(data: seq<int>, addr: nat, part: Extract): (v: nat)
    requires ValidBytes(data) && ValidExtract(part) && addr + 4 <= |data|
    ensures v < Pow2(PartBits(part))
  {
    var lo := PartOffset(part);
    LittleEndian(data[addr + lo .. addr + lo + PartBytes(part)])
  }

  /** A lane the gather mask switches off never reads memory: it holds a zero of the slot's type. */
  lemma MaskedLaneIsZero(ied: InputElementDesc, vb: GatherBuffer, ctx: FetchContext, vIndices: seq<int>,
                         disp: nat, part: Extract, conv: Convert, j: nat)
    requires ValidElement(ied) && ValidGatherBuffer(vb) && ValidContext(ctx) && ValidIndices(vIndices)
    requires ValidExtract(part) && j < W
    requires !AttributeMask(ied, vb, ctx, vIndices)[j]
    ensures IsZeroLane(GatherLane(ied, vb, ctx, vIndices, disp, part, conv, j))
  {
  }

  /**
   * Without 32-bit overflow of the offset lane, the gathered dword starts at
   * (startOffset + index) * stride + AlignedByteOffset + disp bytes past pData.
   */
  lemma GatherAddressNoWrap(ied: InputElementDesc, vb: GatherBuffer, ctx: FetchContext, vIndices: seq<int>,
                            disp: nat, j: nat)
    requires ValidElement(ied) && ValidGatherBuffer(vb) && ValidContext(ctx) && ValidIndices(vIndices) && j < W
    requires CurrentIndices(ied, ctx, vIndices)[j] * vb.pitch + ied.alignedByteOffset < TwoPow31
    ensures GatherAddress(ied, vb, ctx, vIndices, disp, j) ==
      (StartOffset(ied, ctx) + CurrentIndices(ied, ctx, vIndices)[j]) * vb.pitch + ied.alignedByteOffset + disp
  {
    var cur := CurrentIndices(ied, ctx, vIndices);
    var off := GatherOffsets(cur, vb.pitch, ied.alignedByteOffset)[j];
    Distribute(StartOffset(ied, ctx), cur[j], vb.pitch);
    assert off == cur[j] * vb.pitch + ied.alignedByteOffset;
  }

  /**
   * The conversion switch of Shuffle8bpcGatherd: sign extension takes the
   * SNORM (1/127) and SSCALED factors, zero extension the UNORM (1/255) and
   * USCALED ones; the crossed combinations and any other cast are asserted.
   */
  function Shuffle8Conversion(extendType: CastOp, conversionType: ConversionType): (r: Result<Convert>)
    ensures r.Ok? <==> (IsSignExtend(extendType) && conversionType != ConvertUscaled) ||
                       (IsZeroExtend(extendType) && conversionType != ConvertSscaled)
    ensures r.Ok? && conversionType == ConvertNone ==> r.value == IntBits(IsSignExtend(extendType))
    ensures r.Ok? && conversionType != ConvertNone ==> r.value.ToFloat? && r.value.signed == IsSignExtend(extendType)
  {
    if IsSignExtend(extendType) then
      match conversionType
      case ConvertNormalized => Ok(ToFloat(true, 127))
      case ConvertSscaled => Ok(ToFloat(true, 1))
      case ConvertUscaled => Err("Type should not be sign extended!")
      case ConvertNone => Ok(IntBits(true))
    else if IsZeroExtend(extendType) then
      match conversionType
      case ConvertNormalized => Ok(ToFloat(false, 255))
      case ConvertUscaled => Ok(ToFloat(false, 1))
      case ConvertSscaled => Err("Type should not be zero extended!")
      case ConvertNone => Ok(IntBits(false))
    else Err("Unsupported conversion type")
  }

  /**
   * The conversion switch of Shuffle16bpcGather: the 16-bit factors
   * 1/32767 and 1/65535; FPExt (half floats) takes the sign-extension branch
   * and widens with CVTPH2PS instead of converting.
   */
  function Shuffle16Conversion(extendType: CastOp, conversionType: ConversionType): (r: Result<Convert>)
    ensures r.Ok? <==> ((IsSignExtend(extendType) || extendType == FPExt) && conversionType != ConvertUscaled) ||
                       (IsZeroExtend(extendType) && conversionType != ConvertSscaled)
    ensures r.Ok? && extendType == FPExt ==> r.value == HalfToFloat
    ensures r.Ok? && extendType != FPExt && conversionType == ConvertNone ==> r.value == IntBits(IsSignExtend(extendType))
  {
    if IsSignExtend(extendType) || extendType == FPExt then
      var bFP := extendType == FPExt;
      match conversionType
      case ConvertNormalized => Ok(if bFP then HalfToFloat else ToFloat(true, 32767))
      case ConvertSscaled => Ok(if bFP then HalfToFloat else ToFloat(true, 1))
      case ConvertUscaled => Err("Type should not be sign extended!")
      case ConvertNone => Ok(if bFP then HalfToFloat else IntBits(true))
    else if IsZeroExtend(extendType) then
      match conversionType
      case ConvertNormalized => Ok(ToFloat(false, 65535))
      case ConvertUscaled => Ok(ToFloat(false, 1))
      case ConvertSscaled => Err("Type should not be zero extended!")
      case ConvertNone => Ok(IntBits(false))
    else Err("Unsupported conversion type")
  }

  /**
   * The asserted combinations never come out of the format-type switch:
   * every integer format type reaches a conversion, and only UNKNOWN and
   * UNUSED (no extend cast) trip the "Unsupported conversion type" assertion.
   */
  lemma SelectedConversionsAreSupported(t: SwrType)
    requires t != Float
    ensures Shuffle8Conversion(SelectConversion(t).0, SelectConversion(t).1).Ok? <==> t !in {TypeUnknown, TypeUnused}
    ensures Shuffle16Conversion(SelectConversion(t).0, SelectConversion(t).1).Ok? <==> t !in {TypeUnknown, TypeUnused}
  {
  }

  /**
   * The SNORM scale differs between the paths: the gather path maps +127
   * (+32767) to exactly 1.0 while the linear path maps -128 (-32768) to
   * exactly -1.0 and +127 to 127/128.
   */
  lemma GatherSnormMaxIsOne()
    ensures Shuffle8Conversion(SExt, ConvertNormalized) == Ok(ToFloat(true, 127))
    ensures ApplyConvert(ToFloat(true, 127), 127, 8) == Ratio(127, 127)
    ensures ApplyConvert(ToFloat(true, 127), 128, 8) == Ratio(-128, 127)
    ensures ApplyConvert(ToFloat(true, 32767), 32767, 16) == Ratio(32767, 32767)
  {
    assert Pow2(7) == 128 && Pow2(8) == 256;
    assert Pow2(15) == 32768 && Pow2(16) == 65536;
  }

  /** Per-path fetch of component i: which dword displacement and which part of it. */
  datatype FetchKind = Dwords(conv: Convert) | Halves(conv: Convert) | Bytes(conv: Convert, swizzle: seq<nat>)

  predicate ValidKind(kind: FetchKind)
  {
    kind.Bytes? ==> |kind.swizzle| == 4 && forall c :: 0 <= c < 4 ==> kind.swizzle[c] < 4
  }

  /**
   * The 32-bit paths gather component i at byte 4 * i; the 16-bit paths
   * take x/z from the low half and y/w from the high half of the gathers at
   * 0 (x, y) and 4 (z, w); the 8-bit path takes byte swizzle[i] of the
   * single gather.
   */
  function FetchSlot(kind: FetchKind, attr: nat, i: nat): (s: Slot)
    requires ValidKind(kind) && i < 4
    ensures s.Fetch? && s.attr == attr && ValidExtract(s.part) && s.conv == kind.conv
  {
    match kind
    case Dwords(conv) => Fetch(attr, 4 * i, Dword, conv)
    case Halves(conv) => Fetch(attr, if i < 2 then 0 else 4, Halfword(if i == 0 || i == 2 then 0 else 1), conv)
    case Bytes(conv, swizzle) => Fetch(attr, 0, Byte(swizzle[i]), conv)
  }

  /** Component i's slot: the fetched part for StoreSrc, otherwise GenerateCompCtrlVector's constant. */
  function ComponentSlot(ied: InputElementDesc, kind: FetchKind, attr: nat, i: nat): (s: Slot)
    requires ValidElement(ied) && ValidKind(kind) && i < 4
    ensures ied.componentControl[i] == StoreSrc ==> s == FetchSlot(kind, attr, i)
    ensures ied.componentControl[i] != StoreSrc ==> s == Const(GenerateCompCtrlVector(ied.componentControl[i]).value)
  {
    var ctrl := ied.componentControl[i];
    if ctrl == StoreSrc then FetchSlot(kind, attr, i) else Const(GenerateCompCtrlVector(ctrl).value)
  }

  /** The slots of the enabled components among the first n, in component order. */
  function PackedSlots(ied: InputElementDesc, kind: FetchKind, attr: nat, n: nat): (slots: seq<Slot>)
    requires ValidElement(ied) && ValidKind(kind) && n <= 4
    ensures |slots| <= n
    decreases n
  {
    if n == 0 then []
    else
      PackedSlots(ied, kind, attr, n - 1) +
      (if IsComponentEnabled(ied.componentPacking, n - 1) then [ComponentSlot(ied, kind, attr, n - 1)] else [])
  }

  /** Number of enabled components among the first n. */
  function EnabledBelow(enableMask: bv4, n: nat): nat
    requires n <= 4
  {
    if n == 0 then 0 else EnabledBelow(enableMask, n - 1) + (if IsComponentEnabled(enableMask, n - 1) then 1 else 0)
  }

  /** One slot per enabled component, none for a disabled one. */
  lemma {:induction false} PackedSlotsCount(ied: InputElementDesc, kind: FetchKind, attr: nat, n: nat)
    requires ValidElement(ied) && ValidKind(kind) && n <= 4
    ensures |PackedSlots(ied, kind, attr, n)| == EnabledBelow(ied.componentPacking, n)
  {
    if n > 0 {
      PackedSlotsCount(ied, kind, attr, n - 1);
    }
  }

  /** The slot of enabled component i sits after the slots of the enabled components before it. */
  lemma {:induction false} PackedSlotsAt(ied: InputElementDesc, kind: FetchKind, attr: nat, n: nat, i: nat)
    requires ValidElement(ied) && ValidKind(kind) && i < n <= 4
    requires IsComponentEnabled(ied.componentPacking, i)
    ensures EnabledBelow(ied.componentPacking, i) < |PackedSlots(ied, kind, attr, n)|
    ensures PackedSlots(ied, kind, attr, n)[EnabledBelow(ied.componentPacking, i)] == ComponentSlot(ied, kind, attr, i)
  {
    PackedSlotsCount(ied, kind, attr, n - 1);
    if i < n - 1 {
      PackedSlotsAt(ied, kind, attr, n - 1, i);
    }
  }

  /** Every fetch slot of an attribute reads that attribute, through a valid part of a dword. */
  lemma {:induction false} PackedSlotsFetch(ied: InputElementDesc, kind: FetchKind, attr: nat, n: nat)
    requires ValidElement(ied) && ValidKind(kind) && n <= 4
    ensures forall k :: 0 <= k < |PackedSlots(ied, kind, attr, n)| && PackedSlots(ied, kind, attr, n)[k].Fetch? ==>
      PackedSlots(ied, kind, attr, n)[k].attr == attr && ValidExtract(PackedSlots(ied, kind, attr, n)[k].part)
  {
    if n > 0 {
      PackedSlotsFetch(ied, kind, attr, n - 1);
    }
  }

  lemma {:induction false} EnabledBelowMonotone(enableMask: bv4, m: nat, n: nat)
    requires m <= n <= 4
    ensures EnabledBelow(enableMask, m) <= EnabledBelow(enableMask, n)
  {
    if m < n {
      EnabledBelowMonotone(enableMask, m, n - 1);
    }
  }

  /** All four components: as many slots as enabled components, none when the mask is empty. */
  lemma AllComponentsCount(ied: InputElementDesc, kind: FetchKind, attr: nat)
    requires ValidElement(ied) && ValidKind(kind)
    ensures |PackedSlots(ied, kind, attr, 4)| == EnabledCount(ied.componentPacking)
    ensures ied.componentPacking == 0 ==> PackedSlots(ied, kind, attr, 4) == []
  {
    PackedSlotsCount(ied, kind, attr, 4);
  }

  /**
   * What an attribute contributes on the gather path.  FLOAT formats gather
   * 32-bit dwords as they are, or 16-bit halves widened from half
   * precision; any other FP width is the asserted error.  Integer formats go
   * through the type switch: 8- and 16-bit components through the shuffle
   * conversions, 32-bit ones only without a conversion; other widths emit
   * nothing.  The 8- and 16-bit shuffles run only for a non-empty mask.
   */
  function AttributeSlots(ied: InputElementDesc, attr: nat): (r: Result<seq<Slot>>)
    requires ValidElement(ied)
    ensures r.Ok? ==> |r.value| <= 4
  {
    var info := ied.format;
    var bpc := Bpc(info);
    var compMask := ied.componentPacking;
    if info.type0 == Float then
      if bpc == 16 then
        if compMask == 0 then Ok([])
        else
          var conv := Shuffle16Conversion(FPExt, ConvertNone);
          Ok(PackedSlots(ied, Halves(conv.value), attr, 4))
      else if bpc == 32 then Ok(PackedSlots(ied, Dwords(IntBits(false)), attr, 4))
      else Err("Tried to fetch invalid FP format")
    else
      var (extendCastType, conversionType) := SelectConversion(info.type0);
      if bpc == 8 then
        if compMask == 0 then Ok([])
        else
          match Shuffle8Conversion(extendCastType, conversionType)
          case Err(msg) => Err(msg)
          case Ok(conv) => Ok(PackedSlots(ied, Bytes(conv, info.swizzle), attr, 4))
      else if bpc == 16 then
        if compMask == 0 then Ok([])
        else
          match Shuffle16Conversion(extendCastType, conversionType)
          case Err(msg) => Err(msg)
          case Ok(conv) => Ok(PackedSlots(ied, Halves(conv), attr, 4))
      else if bpc == 32 then
        if conversionType != ConvertNone then Err("conversionType == CONVERT_NONE")
        else Ok(PackedSlots(ied, Dwords(IntBits(false)), attr, 4))
      else Ok([])
  }

  /**
   * The error cases of one attribute: an FP width other than 16 or 32, a
   * format type with no extend cast on the 8/16-bit shuffles, and a scaled
   * or normalized 32-bit integer format.
   */
  lemma AttributeSlotsErrors(ied: InputElementDesc, attr: nat)
    requires ValidElement(ied)
    ensures var bpc := Bpc(ied.format);
      AttributeSlots(ied, attr).Err? <==>
        (ied.format.type0 == Float && bpc != 16 && bpc != 32) ||
        (ied.format.type0 != Float && (bpc == 8 || bpc == 16) && ied.componentPacking != 0 &&
         ied.format.type0 in {TypeUnknown, TypeUnused}) ||
        (ied.format.type0 in {Unorm, Snorm, Uscaled, Sscaled} && bpc == 32)
  {
    if ied.format.type0 != Float {
      SelectedConversionsAreSupported(ied.format.type0);
    }
  }

  /** Otherwise an attribute of width 8, 16 or 32 contributes one slot per enabled component. */
  lemma AttributeSlotsCount(ied: InputElementDesc, attr: nat)
    requires ValidElement(ied) && AttributeSlots(ied, attr).Ok?
    requires Bpc(ied.format) == 8 || Bpc(ied.format) == 16 || Bpc(ied.format) == 32
    ensures |AttributeSlots(ied, attr).value| == EnabledCount(ied.componentPacking)
  {
    var (e, c) := SelectConversion(ied.format.type0);
    if ied.format.type0 == Float {
      AllComponentsCount(ied, Dwords(IntBits(false)), attr);
      AllComponentsCount(ied, Halves(HalfToFloat), attr);
    } else if ied.componentPacking == 0 {
      assert EnabledCount(0) == 0;
    } else if Bpc(ied.format) == 8 {
      AllComponentsCount(ied, Bytes(Shuffle8Conversion(e, c).value, ied.format.swizzle), attr);
    } else if Bpc(ied.format) == 16 {
      AllComponentsCount(ied, Halves(Shuffle16Conversion(e, c).value), attr);
    } else {
      AllComponentsCount(ied, Dwords(IntBits(false)), attr);
    }
  }

  /** Every fetch slot of attribute `attr` reads attribute `attr`. */
  lemma AttributeSlotsFetch(ied: InputElementDesc, attr: nat)
    requires ValidElement(ied) && AttributeSlots(ied, attr).Ok?
    ensures forall k :: 0 <= k < |AttributeSlots(ied, attr).value| && AttributeSlots(ied, attr).value[k].Fetch? ==>
      AttributeSlots(ied, attr).value[k].attr == attr && ValidExtract(AttributeSlots(ied, attr).value[k].part)
  {
    var (e, c) := SelectConversion(ied.format.type0);
    var bpc := Bpc(ied.format);
    if ied.format.type0 == Float {
      PackedSlotsFetch(ied, Dwords(IntBits(false)), attr, 4);
      PackedSlotsFetch(ied, Halves(HalfToFloat), attr, 4);
    } else if bpc == 8 && ied.componentPacking != 0 {
      PackedSlotsFetch(ied, Bytes(Shuffle8Conversion(e, c).value, ied.format.swizzle), attr, 4);
    } else if bpc == 16 && ied.componentPacking != 0 {
      PackedSlotsFetch(ied, Halves(Shuffle16Conversion(e, c).value), attr, 4);
    } else if bpc == 32 {
      PackedSlotsFetch(ied, Dwords(IntBits(false)), attr, 4);
    }
  }
}
