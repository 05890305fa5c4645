/**
 * The fetch descriptor (FETCH_COMPILE_STATE and its INPUT_ELEMENT_DESC
 * entries), the per-format facts the generator consults, and the small pure
 * decisions of fetch_jit.cpp: component enables, component-control constants
 * and the format-type to (extend cast, conversion) table.
 */
module FetchState {
  import opened Simd

  datatype ComponentControl = NoStore | StoreSrc | Store0 | Store1Fp | Store1Int

  datatype SwrType = TypeUnknown | TypeUnused | Unorm | Snorm | Uint | Sint | Float | Uscaled | Sscaled

  /** The part of SWR_FORMAT_INFO the generator reads; the catalog itself is external. */
  datatype FormatInfo = FormatInfo(
    Bpp: nat,              // bytes per element
    bpp: nat,              // bits per element
    numComps: nat,
    type0: SwrType,        // info.type[0]; every component is assumed to share it
    swizzle: seq<nat>)

  predicate ValidFormat(info: FormatInfo)
  {
    0 < info.numComps <= 4 && IsU32(info.Bpp) &&
    |info.swizzle| == 4 && forall c :: 0 <= c < 4 ==> info.swizzle[c] < 4
  }

  /** bpc = info.bpp / info.numComps (integer division, as in the source). */
  function Bpc(info: FormatInfo): nat
    requires info.numComps > 0
  {
    info.bpp / info.numComps
  }

  datatype InputElementDesc = InputElementDesc(
    streamIndex: nat,
    alignedByteOffset: nat,
    format: FormatInfo,
    instanceEnable: bool,
    instanceDataStepRate: nat,
    componentPacking: bv4,                       // ComponentEnable mask: X=1, Y=2, Z=4, W=8
    componentControl: seq<ComponentControl>)     // ComponentControl0..3

  predicate ValidElement(ied: InputElementDesc)
  {
    ValidFormat(ied.format) && IsU32(ied.alignedByteOffset) && IsU32(ied.instanceDataStepRate) &&
    |ied.componentControl| == 4
  }

  datatype IndexType = R8Uint | R16Uint | R32Uint | OtherIndexFormat

  datatype FetchCompileState = FetchCompileState(
    layout: seq<InputElementDesc>,               // numAttribs == |layout|
    indexType: IndexType,
    bDisableIndexOOBCheck: bool,
    bEnableCutIndex: bool,
    cutIndex: nat,
    bDisableVGATHER: bool)

  predicate ValidState(s: FetchCompileState)
  {
    IsU32(s.cutIndex) && forall a :: 0 <= a < |s.layout| ==> ValidElement(s.layout[a])
  }

  /** isComponentEnabled: bit `component` of the enable mask; false beyond W. */
  function IsComponentEnabled(enableMask: bv4, component: nat): (r: bool)
    ensures component >= 4 ==> !r
    ensures component < 4 ==> (r <==> (enableMask >> component) & 1 == 1)
  {
    match component
    case 0 => enableMask & 1 != 0
    case 1 => enableMask & 2 != 0
    case 2 => enableMask & 4 != 0
    case 3 => enableMask & 8 != 0
    case _ => false
  }

  /** Number of enabled components among X, Y, Z, W. */
  function EnabledCount(enableMask: bv4): nat
  {
    (if IsComponentEnabled(enableMask, 0) then 1 else 0) +
    (if IsComponentEnabled(enableMask, 1) then 1 else 0) +
    (if IsComponentEnabled(enableMask, 2) then 1 else 0) +
    (if IsComponentEnabled(enableMask, 3) then 1 else 0)
  }

  lemma NoComponentEnabled(enableMask: bv4)
    ensures enableMask == 0 <==> forall c :: 0 <= c < 4 ==> !IsComponentEnabled(enableMask, c)
  {
    if enableMask != 0 {
      assert IsComponentEnabled(enableMask, 0) || IsComponentEnabled(enableMask, 1) ||
             IsComponentEnabled(enableMask, 2) || IsComponentEnabled(enableMask, 3);
    }
  }

  /**
   * GenerateCompCtrlVector: the constant lane a component-control override
   * stores.  StoreSrc is not a constant; asking for it is the asserted error.
   */
  function GenerateCompCtrlVector(ctrl: ComponentControl): (r: Result<Lane>)
    ensures r.Err? <==> ctrl == StoreSrc
    ensures ctrl == NoStore ==> r == Ok(Undef)
    ensures ctrl == Store0 ==> r == Ok(Bits(0))
    ensures ctrl == Store1Fp ==> r == Ok(Ratio(1, 1))
    ensures ctrl == Store1Int ==> r == Ok(Bits(1))
  {
    match ctrl
    case NoStore => Ok(Undef)
    case Store0 => Ok(Bits(0))
    case Store1Fp => Ok(Ratio(1, 1))
    case Store1Int => Ok(Bits(1))
    case StoreSrc => Err("Invalid component control")
  }

  datatype ConversionType = ConvertNone | ConvertNormalized | ConvertUscaled | ConvertSscaled

  datatype CastOp = ZExt | SExt | UIToFP | SIToFP | FPExt | CastOpsEnd

  predicate IsSignExtend(c: CastOp) { c == SExt || c == SIToFP }
  predicate IsZeroExtend(c: CastOp) { c == ZExt || c == UIToFP }

  /**
   * The switch on info.type[0] in the non-float gather path (UNORM falls
   * through to UINT and SNORM to SINT).  The combinations the shuffle
   * routines assert against (sign extension with USCALED, zero extension
   * with SSCALED) never come out of it.
   */
  function SelectConversion(t: SwrType): (r: (CastOp, ConversionType))
    ensures IsSignExtend(r.0) <==> t in {Snorm, Sint, Sscaled}
    ensures IsZeroExtend(r.0) <==> t in {Unorm, Uint, Uscaled}
    ensures r.1 == ConvertNormalized <==> t in {Unorm, Snorm}
    ensures r.1 == ConvertNone <==> t !in {Unorm, Snorm, Uscaled, Sscaled}
    ensures !(IsSignExtend(r.0) && r.1 == ConvertUscaled)
    ensures !(IsZeroExtend(r.0) && r.1 == ConvertSscaled)
    ensures r.0 != FPExt
  {
    match t
    case Unorm => (ZExt, ConvertNormalized)
    case Uint => (ZExt, ConvertNone)
    case Snorm => (SExt, ConvertNormalized)
    case Sint => (SExt, ConvertNone)
    case Uscaled => (UIToFP, ConvertUscaled)
    case Sscaled => (SIToFP, ConvertSscaled)
    case _ => (CastOpsEnd, ConvertNone)
  }

  /**
   * How a raw component of `bits` bits becomes a lane value: kept as integer
   * bits (zero- or sign-extended to 32), converted to float and scaled by
   * 1/den, or widened from half precision.
   */
  datatype Convert = IntBits(signed: bool) | ToFloat(signed: bool, den: nat) | HalfToFloat

  function ApplyConvert(c: Convert, raw: int, bits: nat): (l: Lane)
    requires 0 < bits <= 32 && 0 <= raw < Pow2(bits)
    ensures c == IntBits(false) ==> l == Bits(raw)
    ensures c.ToFloat? ==> l.Ratio? && l.den == c.den
    ensures raw == 0 ==> IsZeroLane(l)
  {
    match c
    case IntBits(s) => Bits(if s then U32(Sext(raw, bits)) else raw)
    case ToFloat(s, d) => Ratio(if s then Sext(raw, bits) else raw, d)
    case HalfToFloat => Half(raw)
  }
}
