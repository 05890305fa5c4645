/**
 * The linear-load fetch path (FetchJit::JitLoadVertices, chosen when
 * bDisableVGATHER is set): per lane, one unaligned load of four components
 * from the vertex buffer, conversion to 32-bit lanes, promotion to a full
 * vector, then a shuffle transpose that turns W array-of-structs vectors into
 * four structure-of-arrays rows, and the defaulting of missing components.
 */
module FetchLinear {
  import opened Simd
  import opened FetchState

  /**
   * The fields of SWR_VERTEX_BUFFER_STATE that fetch reads: pitch, size, and
   * the bytes readable from pData onwards (`data[k]` is the byte at pData + k).
   */
  datatype VertexBuffer = VertexBuffer(pitch: nat, size: nat, data: seq<int>)

  predicate ValidBuffer(vb: VertexBuffer)
  {
    IsU32(vb.pitch) && IsU32(vb.size) && ValidBytes(vb.data)
  }

  /**
   * Byte offset of one lane's attribute: index * pitch + AlignedByteOffset
   * + startVertex * pitch, computed in i64 (wrapping mod 2^64).
   */
  function LaneOffset(index: nat, pitch: nat, alignedByteOffset: nat, startVertex: nat): (o: nat)
    ensures o < TwoPow64
    ensures index * pitch + alignedByteOffset + startVertex * pitch < TwoPow64 ==>
      o == (index + startVertex) * pitch + alignedByteOffset
  {
    U64(index * pitch + alignedByteOffset + startVertex * pitch)
  }

  /**
   * The OOB check of the linear path: an offset whose element end
   * (offset + Bpp, an i64 add) is not at or below the buffer size is
   * replaced by 0; with the check disabled the offset is used as is.
   */
  function ClampOffset(offset: nat, Bpp: nat, size: nat, bDisableIndexOOBCheck: bool): (o: nat)
    ensures bDisableIndexOOBCheck ==> o == offset
    ensures o == offset || o == 0
  {
    if bDisableIndexOOBCheck then offset
    else if U64(offset + Bpp) <= size then offset
    else 0
  }

  /** Without i64 wrap, a kept offset's whole element lies inside the buffer, and a dropped one is 0. */
  lemma ClampKeepsElementInBuffer(offset: nat, Bpp: nat, size: nat)
    requires offset + Bpp < TwoPow64
    ensures offset + Bpp <= size ==> ClampOffset(offset, Bpp, size, false) == offset
    ensures offset + Bpp > size ==> ClampOffset(offset, Bpp, size, false) == 0
  {
  }

  predicate SupportedBpc(bpc: nat) { bpc == 8 || bpc == 16 || bpc == 32 }

  /**
   * The two switches of the linear path: the pointer cast on bpc (8, 16 or
   * 32 bits per component) and the conversion on info.type[0].  Every
   * `default:` and UNKNOWN/UNUSED arm is an assertion.  A 32-bit component
   * is loaded as a float, so for every 32-bit type the cast (UI_TO_FP and
   * SI_TO_FP included, which then cast float to float) leaves its bits
   * unchanged.
   */
  function LinearConversion(t: SwrType, bpc: nat): (r: Result<Convert>)
    ensures r.Ok? <==> (SupportedBpc(bpc) &&
                        (t in {Uint, Sint, Uscaled, Sscaled} ||
                         (t in {Unorm, Snorm} && bpc != 32) ||
                         (t == Float && bpc == 32)))
    ensures r.Ok? && t == Unorm ==> r.value == ToFloat(false, Pow2(bpc) - 1)
    ensures r.Ok? && t == Snorm ==> r.value == ToFloat(true, Pow2(bpc - 1))
    ensures r.Ok? && (t == Float || bpc == 32) ==> r.value == IntBits(false)
    ensures r.Ok? && t in {Uscaled, Sscaled} && bpc != 32 ==> r.value == ToFloat(t == Sscaled, 1)
  {
    if !SupportedBpc(bpc) then Err("Unsupported underlying bpp!")
    else
      assert Pow2(7) == 128 && Pow2(8) == 256;
      assert Pow2(15) == 32768 && Pow2(16) == 65536;
      match t
      case Unorm =>
        if bpc == 8 then Ok(ToFloat(false, 255))
        else if bpc == 16 then Ok(ToFloat(false, 65535))
        else Err("Unsupported underlying type!")
      case Snorm =>
        if bpc == 8 then Ok(ToFloat(true, 128))
        else if bpc == 16 then Ok(ToFloat(true, 32768))
        else Err("Unsupported underlying type!")
      case Uint => Ok(IntBits(false))
      case Sint => Ok(if bpc == 32 then IntBits(false) else IntBits(true))
      case Float => if bpc == 32 then Ok(IntBits(false)) else Err("Unsupported underlying type!")
      case Uscaled => Ok(if bpc == 32 then IntBits(false) else ToFloat(false, 1))
      case Sscaled => Ok(if bpc == 32 then IntBits(false) else ToFloat(true, 1))
      case TypeUnknown => Err("Unsupported type")
      case TypeUnused => Err("Unsupported type")
  }

  /** The UNORM scale maps the largest raw value to exactly 1.0 (as a ratio). */
  lemma UnormMaxIsOne(bpc: nat)
    requires bpc == 8 || bpc == 16
    ensures LinearConversion(Unorm, bpc).Ok?
    ensures ApplyConvert(LinearConversion(Unorm, bpc).value, Pow2(bpc) - 1, bpc) == Ratio(Pow2(bpc) - 1, Pow2(bpc) - 1)
  {
    assert Pow2(8) == 256;
    assert Pow2(16) == 65536;
  }

  /** The linear SNORM scale is 1/2^(bpc-1): the most negative raw value becomes exactly -1.0. */
  lemma SnormMinIsMinusOne(bpc: nat)
    requires bpc == 8 || bpc == 16
    ensures LinearConversion(Snorm, bpc).Ok?
    ensures ApplyConvert(LinearConversion(Snorm, bpc).value, Pow2(bpc - 1), bpc) == Ratio(-(Pow2(bpc - 1) as int), Pow2(bpc - 1))
  {
    assert Pow2(7) == 128 && Pow2(8) == 256;
    assert Pow2(15) == 32768 && Pow2(16) == 65536;
  }

  /**
   * One component read: `bits / 8` bytes at byte `addr` of the buffer,
   * converted; a read past the readable bytes yields an undefined lane.
   */
  function ReadComponent(data: seq<int>, addr: nat, bits: nat, conv: Convert): (l: Lane)
    requires ValidBytes(data) && SupportedBpc(bits)
    ensures addr + bits / 8 > |data| <==> l == Undef
  {
    if addr + bits / 8 <= |data| then
      var raw := LittleEndian(data[addr .. addr + bits / 8]);
      assert 8 * (bits / 8) == bits;
      ApplyConvert(conv, raw, bits)
    else Undef
  }

  /** The four components loaded for one lane ("a full lane"): component k at offset + k * bpc / 8. */
  function AttributeVector(data: seq<int>, offset: nat, bpc: nat, conv: Convert): (v: seq<Lane>)
    requires ValidBytes(data) && SupportedBpc(bpc)
    ensures |v| == 4
    ensures forall k :: 0 <= k < 4 ==> (v[k] == Undef <==> offset + k * (bpc / 8) + bpc / 8 > |data|)
  {
    seq(4, k requires 0 <= k < 4 => ReadComponent(data, offset + k * (bpc / 8), bpc, conv))
  }

  /** promoteMask: lanes 0..3 from the 4-wide vector, every other lane from the undef vector. */
  function PromoteMask(): (m: seq<int>)
    ensures |m| == W && MaskInRange(m, 8)
  {
    seq(W, i requires 0 <= i < W => if i < 4 then i else 4)
  }

  /** VSHUFFLE(vec, uwvec, promoteMask): the 4 components, then undef lanes. */
  function Promote(vec: seq<Lane>): (w: seq<Lane>)
    requires |vec| == 4
    ensures |w| == W
    ensures forall k :: 0 <= k < W ==> w[k] == if k < 4 then vec[k] else Undef
  {
    VShuffle(vec, Broadcast(4, Undef), PromoteMask())
  }

  /** The clamped byte offset of lane `lane` for attribute `ied`. */
  function LaneAttributeOffset(ied: InputElementDesc, vb: VertexBuffer, index: nat, startVertex: nat,
                               bDisableIndexOOBCheck: bool): nat
  {
    ClampOffset(LaneOffset(index, vb.pitch, ied.alignedByteOffset, startVertex),
                ied.format.Bpp, vb.size, bDisableIndexOOBCheck)
  }

  /** The promoted vector of lane `lane`: its four components read at the clamped offset. */
  function LaneVector(ied: InputElementDesc, vb: VertexBuffer, index: nat, startVertex: nat,
                      bDisableIndexOOBCheck: bool, bpc: nat, conv: Convert): (v: seq<Lane>)
    requires ValidBytes(vb.data) && SupportedBpc(bpc)
    ensures |v| == W
  {
    Promote(AttributeVector(vb.data, LaneAttributeOffset(ied, vb, index, startVertex, bDisableIndexOOBCheck), bpc, conv))
  }

  /**
   * The lane loop of JitLoadVertices: for every lane, extract its index,
   * compute and clamp the offset, load four components, convert, promote.
   */
  method LoadLaneVectors(ied: InputElementDesc, vb: VertexBuffer, vIndices: seq<nat>, startVertex: nat,
                         bDisableIndexOOBCheck: bool, bpc: nat, conv: Convert)
    returns (vectors: seq<seq<Lane>>)
    requires |vIndices| == W && ValidBytes(vb.data) && SupportedBpc(bpc)
    ensures |vectors| == W
    ensures forall lane :: 0 <= lane < W ==>
      vectors[lane] == LaneVector(ied, vb, vIndices[lane], startVertex, bDisableIndexOOBCheck, bpc, conv)
  {
    vectors := [];
    var startVertexOffset := startVertex * vb.pitch;
    var lane := 0;
    while lane < W
      invariant 0 <= lane <= W && |vectors| == lane
      invariant forall k :: 0 <= k < lane ==>
        vectors[k] == LaneVector(ied, vb, vIndices[k], startVertex, bDisableIndexOOBCheck, bpc, conv)
    {
      var index := vIndices[lane];
      var offset := U64(index * vb.pitch + ied.alignedByteOffset + startVertexOffset);
      if !bDisableIndexOOBCheck {
        var endOffset := U64(offset + ied.format.Bpp);
        offset := if endOffset <= vb.size then offset else 0;
      }
      assert offset == LaneAttributeOffset(ied, vb, index, startVertex, bDisableIndexOOBCheck);
      var vec := AttributeVector(vb.data, offset, bpc, conv);
      vectors := vectors + [Promote(vec)];
      lane := lane + 1;
    }
  }

  /**
   * Lane k of the v01 / v23 / v02 / v13 masks the block loop builds, for the
   * 8 lanes: per block b, v01 = (4b, 4b+1, 4b+W, 4b+1+W), v23 the same
   * plus 2, v02 = (4b, 4b+2, 4b+W, 4b+2+W) and v13 the same plus 1.
   */
  function V01(k: nat): nat
  {
    match k
    case 0 => 0 case 1 => 1 case 2 => W case 3 => 1 + W
    case 4 => 4 case 5 => 5 case 6 => 4 + W case 7 => 5 + W
    case _ => 0
  }

  function V23(k: nat): nat
  {
    match k
    case 0 => 2 case 1 => 3 case 2 => 2 + W case 3 => 3 + W
    case 4 => 6 case 5 => 7 case 6 => 6 + W case 7 => 7 + W
    case _ => 0
  }

  function V02(k: nat): nat
  {
    match k
    case 0 => 0 case 1 => 2 case 2 => W case 3 => 2 + W
    case 4 => 4 case 5 => 6 case 6 => 4 + W case 7 => 6 + W
    case _ => 0
  }

  function V13(k: nat): nat
  {
    match k
    case 0 => 1 case 1 => 3 case 2 => 1 + W case 3 => 3 + W
    case 4 => 5 case 5 => 7 case 6 => 5 + W case 7 => 7 + W
    case _ => 0
  }

  function V01Mask(): (m: seq<int>)
    ensures |m| == W && MaskInRange(m, 2 * W) && forall k :: 0 <= k < W ==> m[k] == V01(k)
  {
    seq(W, k requires 0 <= k < W => V01(k))
  }

  function V23Mask(): (m: seq<int>)
    ensures |m| == W && MaskInRange(m, 2 * W) && forall k :: 0 <= k < W ==> m[k] == V23(k)
  {
    seq(W, k requires 0 <= k < W => V23(k))
  }

  function V02Mask(): (m: seq<int>)
    ensures |m| == W && MaskInRange(m, 2 * W) && forall k :: 0 <= k < W ==> m[k] == V02(k)
  {
    seq(W, k requires 0 <= k < W => V02(k))
  }

  function V13Mask(): (m: seq<int>)
    ensures |m| == W && MaskInRange(m, 2 * W) && forall k :: 0 <= k < W ==> m[k] == V13(k)
  {
    seq(W, k requires 0 <= k < W => V13(k))
  }

  predicate WideRows(rows: seq<seq<Lane>>, n: nat)
  {
    |rows| == n && forall r :: 0 <= r < n ==> |rows[r]| == W
  }

  /** First lane of the 4-lane block that holds lane k. */
  function BlockBase(k: nat): nat { if k < 4 then 0 else 4 }

  lemma BlockArith(k: nat)
    requires k < W
    ensures k % 4 == k - BlockBase(k)
  {
    if k == 0 {
    } else if k == 1 {
    } else if k == 2 {
    } else if k == 3 {
    } else if k == 4 {
    } else if k == 5 {
    } else if k == 6 {
    } else {
    }
  }

  /** insertMask of block b: the block's lanes come from the second operand, lanes 0..3 of it. */
  method InsertMask(b: nat) returns (insertMask: seq<int>)
    ensures |insertMask| == W && MaskInRange(insertMask, 2 * W)
    ensures forall k :: 0 <= k < W ==> insertMask[k] == if 4 * b <= k < 4 * (b + 1) then k % 4 + W else k
  {
    insertMask := Broadcast(W, 0);
    var i := 0;
    while i < W
      invariant 0 <= i <= W && |insertMask| == W
      invariant forall k :: 0 <= k < i ==> insertMask[k] == if 4 * b <= k < 4 * (b + 1) then k % 4 + W else k
      invariant MaskInRange(insertMask, 2 * W)
    {
      insertMask := insertMask[i := if 4 * b <= i < 4 * (b + 1) then i % 4 + W else i];
      i := i + 1;
    }
  }

  /** One insertion: row lanes of block b take lanes 0..3 of the lane vector, the others are kept. */
  lemma InsertBlock(row: seq<Lane>, vec: seq<Lane>, insertMask: seq<int>, b: nat, k: nat)
    requires |row| == W && |vec| == W && |insertMask| == W && MaskInRange(insertMask, 2 * W) && k < W && b < W / 4
    requires forall i :: 0 <= i < W ==> insertMask[i] == if 4 * b <= i < 4 * (b + 1) then i % 4 + W else i
    ensures 4 * b <= k < 4 * (b + 1) ==> BlockBase(k) == 4 * b && VShuffle(row, vec, insertMask)[k] == vec[k - 4 * b]
    ensures !(4 * b <= k < 4 * (b + 1)) ==> VShuffle(row, vec, insertMask)[k] == row[k]
  {
    BlockArith(k);
  }

  /** AoS layout after the insertions: lane k of row c is component k mod 4 of lane BlockBase(k) + c. */
  predicate BlockedAoS(elements: seq<seq<Lane>>, vectors: seq<seq<Lane>>, upto: nat)
    requires WideRows(elements, 4) && WideRows(vectors, W) && upto <= W
  {
    forall c, k :: 0 <= c < 4 && 0 <= k < upto ==> elements[c][k] == vectors[BlockBase(k) + c][k - BlockBase(k)]
  }

  /** The first-round mask used for row c (v01 for x/y, v23 for z/w) and the second-round one. */
  function FirstRound(c: nat): seq<int> { if c < 2 then V01Mask() else V23Mask() }
  function SecondRound(c: nat): seq<int> { if c == 0 || c == 2 then V02Mask() else V13Mask() }

  /**
   * Where VSHUFFLE(VSHUFFLE(r0, r1, m1), VSHUFFLE(r2, r3, m1), m2) takes its
   * lane j from: row `RouteRow(m1, m2, j)`, lane `RouteLane(m1, m2, j)` of
   * r0..r3.
   */
  function RouteRow(m1: seq<int>, m2: seq<int>, j: nat): nat
    requires |m1| == W && |m2| == W && j < W && MaskInRange(m1, 2 * W) && MaskInRange(m2, 2 * W)
  {
    var x := m2[j];
    var p := if x < W then x else x - W;
    (if x < W then 0 else 2) + (if m1[p] < W then 0 else 1)
  }

  function RouteLane(m1: seq<int>, m2: seq<int>, j: nat): nat
    requires |m1| == W && |m2| == W && j < W && MaskInRange(m1, 2 * W) && MaskInRange(m2, 2 * W)
  {
    var x := m2[j];
    var p := if x < W then x else x - W;
    if m1[p] < W then m1[p] else m1[p] - W
  }

  lemma ShuffleTwice(rows: seq<seq<Lane>>, m1: seq<int>, m2: seq<int>, j: nat)
    requires WideRows(rows, 4) && |m1| == W && |m2| == W && j < W
    requires MaskInRange(m1, 2 * W) && MaskInRange(m2, 2 * W)
    ensures RouteRow(m1, m2, j) < 4 && RouteLane(m1, m2, j) < W
    ensures VShuffle(VShuffle(rows[0], rows[1], m1), VShuffle(rows[2], rows[3], m1), m2)[j] ==
            rows[RouteRow(m1, m2, j)][RouteLane(m1, m2, j)]
  {
  }

  /** The transpose masks send lane j of row c to component c of lane j's 4-lane block. */
  lemma TurnRoute(c: nat, j: nat)
    requires c < 4 && j < W
    ensures RouteRow(FirstRound(c), SecondRound(c), j) == j - BlockBase(j)
    ensures RouteLane(FirstRound(c), SecondRound(c), j) == BlockBase(j) + c
  {
    if c == 0 {
      TurnRouteAt(V01Mask(), V02Mask(), 0, j);
    } else if c == 1 {
      TurnRouteAt(V01Mask(), V13Mask(), 1, j);
    } else if c == 2 {
      TurnRouteAt(V23Mask(), V02Mask(), 2, j);
    } else {
      TurnRouteAt(V23Mask(), V13Mask(), 3, j);
    }
  }

  lemma TurnRouteAt(m1: seq<int>, m2: seq<int>, c: nat, j: nat)
    requires c < 4 && j < W && m1 == FirstRound(c) && m2 == SecondRound(c)
    ensures RouteRow(m1, m2, j) == j - BlockBase(j) && RouteLane(m1, m2, j) == BlockBase(j) + c
  {
    if j == 0 {
    } else if j == 1 {
    } else if j == 2 {
    } else if j == 3 {
    } else if j == 4 {
    } else if j == 5 {
    } else if j == 6 {
    } else {
    }
  }

  /**
   * The two shuffle rounds route lane j of row c to the lane the block
   * insertion left component c of lane vector j in.
   */
  lemma CornerTurn(elements: seq<seq<Lane>>, c: nat, j: nat)
    requires WideRows(elements, 4) && c < 4 && j < W
    ensures MaskInRange(FirstRound(c), 2 * W) && MaskInRange(SecondRound(c), 2 * W)
    ensures VShuffle(VShuffle(elements[0], elements[1], FirstRound(c)),
                     VShuffle(elements[2], elements[3], FirstRound(c)), SecondRound(c))[j] ==
            elements[j - BlockBase(j)][BlockBase(j) + c]
  {
    ShuffleTwice(elements, FirstRound(c), SecondRound(c), j);
    TurnRoute(c, j);
  }

  /** Block b of the insertion loop: rows gain lanes 4b..4b+3 from lane vectors 4b..4b+3. */
  method InsertLaneBlock(elements: seq<seq<Lane>>, vectors: seq<seq<Lane>>, b: nat) returns (next: seq<seq<Lane>>)
    requires WideRows(elements, 4) && WideRows(vectors, W) && b < W / 4
    requires BlockedAoS(elements, vectors, 4 * b)
    ensures WideRows(next, 4) && BlockedAoS(next, vectors, 4 * (b + 1))
  {
    var insertMask := InsertMask(b);
    next := [VShuffle(elements[0], vectors[4 * b + 0], insertMask),
             VShuffle(elements[1], vectors[4 * b + 1], insertMask),
             VShuffle(elements[2], vectors[4 * b + 2], insertMask),
             VShuffle(elements[3], vectors[4 * b + 3], insertMask)];
    forall c, k | 0 <= c < 4 && 0 <= k < 4 * (b + 1)
      ensures next[c][k] == vectors[BlockBase(k) + c][k - BlockBase(k)]
    {
      InsertBlock(elements[c], vectors[4 * b + c], insertMask, b, k);
    }
  }

  /**
   * The corner turn: W per-lane vectors (component c of lane j at
   * vectors[j][c]) become four rows with elements[c][j] == vectors[j][c].
   * First each 4-lane block is inserted into the rows in AoS order, then two
   * rounds of two-input shuffles transpose every 4x4 block.
   */
  method Transpose(vectors: seq<seq<Lane>>) returns (elements: seq<seq<Lane>>)
    requires WideRows(vectors, W)
    ensures WideRows(elements, 4)
    ensures forall c, j :: 0 <= c < 4 && 0 <= j < W ==> elements[c][j] == vectors[j][c]
  {
    var v01, v23, v02, v13 := Broadcast(W, 0), Broadcast(W, 0), Broadcast(W, 0), Broadcast(W, 0);
    elements := Broadcast(4, Broadcast(W, Undef));
    var b := 0;
    while b < W / 4
      invariant 0 <= b <= W / 4
      invariant |v01| == W && |v23| == W && |v02| == W && |v13| == W
      invariant forall k :: 0 <= k < 4 * b ==>
        v01[k] == V01(k) && v23[k] == V23(k) && v02[k] == V02(k) && v13[k] == V13(k)
      invariant WideRows(elements, 4) && BlockedAoS(elements, vectors, 4 * b)
    {
      assert b == 0 || b == 1;
      v01 := v01[4 * b := 4 * b][4 * b + 1 := 1 + 4 * b][4 * b + 2 := 4 * b + W][4 * b + 3 := 1 + 4 * b + W];
      v23 := v23[4 * b := 2 + 4 * b][4 * b + 1 := 3 + 4 * b][4 * b + 2 := 2 + 4 * b + W][4 * b + 3 := 3 + 4 * b + W];
      v02 := v02[4 * b := 4 * b][4 * b + 1 := 2 + 4 * b][4 * b + 2 := 4 * b + W][4 * b + 3 := 2 + 4 * b + W];
      v13 := v13[4 * b := 1 + 4 * b][4 * b + 1 := 3 + 4 * b][4 * b + 2 := 1 + 4 * b + W][4 * b + 3 := 3 + 4 * b + W];

      elements := InsertLaneBlock(elements, vectors, b);
      b := b + 1;
    }
    elements := CornerTurnRows(elements, vectors, v01, v23, v02, v13);
  }

  /** The two shuffle rounds at the end of the transpose, over the masks the block loop built. */
  method CornerTurnRows(elements: seq<seq<Lane>>, vectors: seq<seq<Lane>>,
                        v01: seq<int>, v23: seq<int>, v02: seq<int>, v13: seq<int>)
    returns (rows: seq<seq<Lane>>)
    requires WideRows(elements, 4) && WideRows(vectors, W) && BlockedAoS(elements, vectors, W)
    requires v01 == V01Mask() && v23 == V23Mask() && v02 == V02Mask() && v13 == V13Mask()
    ensures WideRows(rows, 4)
    ensures forall c, j :: 0 <= c < 4 && 0 <= j < W ==> rows[c][j] == vectors[j][c]
  {
    assert MaskInRange(v01, 2 * W) && MaskInRange(v23, 2 * W) && MaskInRange(v02, 2 * W) && MaskInRange(v13, 2 * W);
    var x0y0x1y1 := VShuffle(elements[0], elements[1], v01);
    var x2y2x3y3 := VShuffle(elements[2], elements[3], v01);
    var z0w0z1w1 := VShuffle(elements[0], elements[1], v23);
    var z2w3z2w3 := VShuffle(elements[2], elements[3], v23);
    rows := [VShuffle(x0y0x1y1, x2y2x3y3, v02),
             VShuffle(x0y0x1y1, x2y2x3y3, v13),
             VShuffle(z0w0z1w1, z2w3z2w3, v02),
             VShuffle(z0w0z1w1, z2w3z2w3, v13)];
    forall c, j | 0 <= c < 4 && 0 <= j < W
      ensures rows[c][j] == vectors[j][c]
    {
      BlockedLane(elements, vectors, c, j);
      if c == 0 {
        CornerTurn(elements, 0, j);
      } else if c == 1 {
        CornerTurn(elements, 1, j);
      } else if c == 2 {
        CornerTurn(elements, 2, j);
      } else {
        CornerTurn(elements, 3, j);
      }
    }
  }

  /** In the blocked AoS layout component c of lane vector j sits in row j mod 4, lane BlockBase(j) + c. */
  lemma BlockedLane(elements: seq<seq<Lane>>, vectors: seq<seq<Lane>>, c: nat, j: nat)
    requires WideRows(elements, 4) && WideRows(vectors, W) && BlockedAoS(elements, vectors, W)
    requires c < 4 && j < W
    ensures elements[j - BlockBase(j)][BlockBase(j) + c] == vectors[j][c]
  {
    var k := BlockBase(j) + c;
    assert BlockBase(k) == BlockBase(j);
  }

  /** The constant rows the defaulting switch stores. */
  function ZeroRow(): seq<Lane> { Broadcast(W, Ratio(0, 1)) }
  function OneRow(): seq<Lane> { Broadcast(W, Ratio(1, 1)) }

  /**
   * The fall-through switch on numComponents + 1: entry at the first
   * missing component, zero for missing X, Y, Z and 1.0 for W; a
   * four-component format keeps all four rows.
   */
  function DefaultMissing(elements: seq<seq<Lane>>, numComps: nat): (r: seq<seq<Lane>>)
    requires |elements| == 4
    ensures |r| == 4
    ensures forall c :: 0 <= c < 4 && c < numComps ==> r[c] == elements[c]
    ensures forall c :: 0 <= c < 3 && numComps <= c ==> r[c] == ZeroRow()
    ensures numComps <= 3 ==> r[3] == OneRow()
  {
    var n := numComps + 1;
    [if n <= 1 then ZeroRow() else elements[0],
     if n <= 2 then ZeroRow() else elements[1],
     if n <= 3 then ZeroRow() else elements[2],
     if n <= 4 then OneRow() else elements[3]]
  }

  predicate ValidLinearInput(state: FetchCompileState, streams: seq<VertexBuffer>, vIndices: seq<nat>)
  {
    ValidState(state) && |vIndices| == W &&
    (forall s :: 0 <= s < |streams| ==> ValidBuffer(streams[s])) &&
    (forall a :: 0 <= a < |state.layout| ==> state.layout[a].streamIndex < |streams|)
  }

  /** The conversion an attribute uses on the linear path (or the assertion it trips). */
  function AttributeConversion(ied: InputElementDesc): Result<Convert>
    requires ValidFormat(ied.format)
  {
    LinearConversion(ied.format.type0, Bpc(ied.format))
  }

  /**
   * Reference meaning of the linear path, per lane: row c of attribute `a`
   * holds, in lane j, component c of that lane's vertex read at its clamped
   * offset, or the default for a component the format does not have.
   */
  function LinearLane(state: FetchCompileState, streams: seq<VertexBuffer>, vIndices: seq<nat>, startVertex: nat,
                      a: nat, c: nat, j: nat): Lane
    requires ValidLinearInput(state, streams, vIndices)
    requires a < |state.layout| && c < 4 && j < W
    requires AttributeConversion(state.layout[a]).Ok?
  {
    var ied := state.layout[a];
    var vb := streams[ied.streamIndex];
    if c < ied.format.numComps then
      var offset := LaneAttributeOffset(ied, vb, vIndices[j], startVertex, state.bDisableIndexOOBCheck);
      ReadComponent(vb.data, offset + c * (Bpc(ied.format) / 8), Bpc(ied.format), AttributeConversion(ied).value)
    else if c < 3 then Ratio(0, 1)
    else Ratio(1, 1)
  }

  /**
   * The body of the attribute loop of JitLoadVertices: the four rows of
   * attribute `a`, before they are stored.
   */
  method LoadAttribute(state: FetchCompileState, streams: seq<VertexBuffer>, vIndices: seq<nat>, startVertex: nat, a: nat)
    returns (elements: seq<seq<Lane>>)
    requires ValidLinearInput(state, streams, vIndices)
    requires a < |state.layout| && AttributeConversion(state.layout[a]).Ok?
    ensures WideRows(elements, 4)
    ensures forall c, j :: 0 <= c < 4 && 0 <= j < W ==>
      elements[c][j] == LinearLane(state, streams, vIndices, startVertex, a, c, j)
  {
    var ied := state.layout[a];
    var info := ied.format;
    var bpc := Bpc(info);
    var conv := LinearConversion(info.type0, bpc);
    var vb := streams[ied.streamIndex];
    var vectors := LoadLaneVectors(ied, vb, vIndices, startVertex, state.bDisableIndexOOBCheck, bpc, conv.value);
    var soa := Transpose(vectors);
    elements := DefaultMissing(soa, info.numComps);
    forall c, j | 0 <= c < 4 && 0 <= j < W
      ensures elements[c][j] == LinearLane(state, streams, vIndices, startVertex, a, c, j)
    {
      LinearLaneRead(state, streams, vIndices, startVertex, a, c, j);
    }
  }

  /** LinearLane in terms of the lane vector the lane loop builds and the defaulting switch. */
  lemma LinearLaneRead(state: FetchCompileState, streams: seq<VertexBuffer>, vIndices: seq<nat>, startVertex: nat,
                       a: nat, c: nat, j: nat)
    requires ValidLinearInput(state, streams, vIndices)
    requires a < |state.layout| && c < 4 && j < W
    requires AttributeConversion(state.layout[a]).Ok?
    ensures var ied := state.layout[a];
      c < ied.format.numComps ==>
        LinearLane(state, streams, vIndices, startVertex, a, c, j) ==
        LaneVector(ied, streams[ied.streamIndex], vIndices[j], startVertex, state.bDisableIndexOOBCheck,
                   Bpc(ied.format), AttributeConversion(ied).value)[c]
    ensures state.layout[a].format.numComps <= c < 3 ==> LinearLane(state, streams, vIndices, startVertex, a, c, j) == Ratio(0, 1)
    ensures state.layout[a].format.numComps <= c == 3 ==> LinearLane(state, streams, vIndices, startVertex, a, c, j) == Ratio(1, 1)
  {
  }

  /**
   * JitLoadVertices: for each attribute, four rows nelt*4 + c of the output
   * vertex.  The rows are exactly the per-lane reference LinearLane; the
   * generation fails iff some attribute's format has no linear conversion.
   */
  method JitLoadVertices(state: FetchCompileState, streams: seq<VertexBuffer>, vIndices: seq<nat>, startVertex: nat)
    returns (r: Result<seq<seq<Lane>>>)
    requires ValidLinearInput(state, streams, vIndices)
    ensures r.Err? <==> exists a :: 0 <= a < |state.layout| && AttributeConversion(state.layout[a]).Err?
    ensures r.Ok? ==> WideRows(r.value, 4 * |state.layout|)
    ensures r.Ok? ==> forall a, c, j :: 0 <= a < |state.layout| && 0 <= c < 4 && 0 <= j < W ==>
      r.value[4 * a + c][j] == LinearLane(state, streams, vIndices, startVertex, a, c, j)
  {
    var rows: seq<seq<Lane>> := [];
    var nelt := 0;
    while nelt < |state.layout|
      invariant 0 <= nelt <= |state.layout|
      invariant forall a :: 0 <= a < nelt ==> AttributeConversion(state.layout[a]).Ok?
      invariant WideRows(rows, 4 * nelt)
      invariant forall a, c, j :: 0 <= a < nelt && 0 <= c < 4 && 0 <= j < W ==>
        rows[4 * a + c][j] == LinearLane(state, streams, vIndices, startVertex, a, c, j)
    {
      var conv := AttributeConversion(state.layout[nelt]);
      if conv.Err? {
        return Err(conv.msg);
      }
      var elements := LoadAttribute(state, streams, vIndices, startVertex, nelt);
      ghost var before := rows;
      var c := 0;
      while c < 4
        invariant 0 <= c <= 4 && rows == before + elements[..c]
      {
        rows := rows + [elements[c]];
        assert elements[..c + 1] == elements[..c] + [elements[c]];
        c := c + 1;
      }
      assert elements[..4] == elements;
      StoredAttributeRows(state, streams, vIndices, startVertex, before, elements, nelt);
      nelt := nelt + 1;
    }
    r := Ok(rows);
  }

  /** Appending the four rows of attribute `nelt` extends the row invariant of the attribute loop. */
  lemma StoredAttributeRows(state: FetchCompileState, streams: seq<VertexBuffer>, vIndices: seq<nat>, startVertex: nat,
                            rows: seq<seq<Lane>>, elements: seq<seq<Lane>>, nelt: nat)
    requires ValidLinearInput(state, streams, vIndices) && nelt < |state.layout|
    requires forall a :: 0 <= a <= nelt ==> AttributeConversion(state.layout[a]).Ok?
    requires WideRows(rows, 4 * nelt) && WideRows(elements, 4)
    requires forall a, c, j :: 0 <= a < nelt && 0 <= c < 4 && 0 <= j < W ==>
      rows[4 * a + c][j] == LinearLane(state, streams, vIndices, startVertex, a, c, j)
    requires forall c, j :: 0 <= c < 4 && 0 <= j < W ==>
      elements[c][j] == LinearLane(state, streams, vIndices, startVertex, nelt, c, j)
    ensures WideRows(rows + elements, 4 * (nelt + 1))
    ensures forall a, c, j :: 0 <= a < nelt + 1 && 0 <= c < 4 && 0 <= j < W ==>
      (rows + elements)[4 * a + c][j] == LinearLane(state, streams, vIndices, startVertex, a, c, j)
  {
    forall a, c, j | 0 <= a < nelt + 1 && 0 <= c < 4 && 0 <= j < W
      ensures (rows + elements)[4 * a + c][j] == LinearLane(state, streams, vIndices, startVertex, a, c, j)
    {
      if a < nelt {
        assert (rows + elements)[4 * a + c] == rows[4 * a + c];
      } else {
        assert (rows + elements)[4 * a + c] == elements[c];
      }
    }
  }

  /**
   * Only the first numComps components are kept, and all of them lie inside
   * the element's Bpp bytes: the bytes the full-lane load reads past
   * offset + Bpp never reach a stored row.
   */
  lemma StoredComponentsWithinElement(info: FormatInfo, c: nat)
    requires ValidFormat(info) && c < info.numComps && SupportedBpc(Bpc(info)) && info.bpp <= 8 * info.Bpp
    ensures c * (Bpc(info) / 8) + Bpc(info) / 8 <= info.Bpp
  {
    var bpc := Bpc(info);
    assert bpc * info.numComps <= info.bpp;
    assert (c + 1) * bpc <= info.numComps * bpc;
    assert (c + 1) * (bpc / 8) * 8 == (c + 1) * bpc;
  }

  /**
   * The full-lane load over-reads: for a 3-component 32-bit format
   * (12 bytes) whose element ends exactly at the end of the readable bytes,
   * the clamp keeps the offset, the three components are read, and the
   * fourth component of the loaded vector lies past the end.
   */
  lemma FullLaneReadsPastElement(data: seq<int>, offset: nat, conv: Convert)
    requires ValidBytes(data) && IsU32(|data|) && offset + 12 == |data|
    ensures ClampOffset(offset, 12, |data|, false) == offset
    ensures forall k :: 0 <= k < 3 ==> AttributeVector(data, ClampOffset(offset, 12, |data|, false), 32, conv)[k] != Undef
    ensures AttributeVector(data, ClampOffset(offset, 12, |data|, false), 32, conv)[3] == Undef
  {
    assert U64(offset + 12) == offset + 12;
  }

  /**
   * The over-read does not reach the output: in that situation lane j's
   * loaded vector has an undefined fourth component, while the w row of
   * the attribute holds 1.0 and its x, y and z rows hold the three
   * components read.
   */
  lemma OverReadIsDefaulted(state: FetchCompileState, streams: seq<VertexBuffer>, vIndices: seq<nat>, startVertex: nat,
                            a: nat, j: nat)
    requires ValidLinearInput(state, streams, vIndices) && a < |state.layout| && j < W
    requires !state.bDisableIndexOOBCheck
    requires var info := state.layout[a].format;
      info.numComps == 3 && info.bpp == 96 && info.Bpp == 12 && info.type0 in {Uint, Sint, Float}
    requires var ied := state.layout[a]; var vb := streams[ied.streamIndex];
      vb.size == |vb.data| && LaneOffset(vIndices[j], vb.pitch, ied.alignedByteOffset, startVertex) + 12 == vb.size
    ensures AttributeConversion(state.layout[a]).Ok?
    ensures var ied := state.layout[a];
      LaneVector(ied, streams[ied.streamIndex], vIndices[j], startVertex, false, 32, IntBits(false))[3] == Undef
    ensures LinearLane(state, streams, vIndices, startVertex, a, 3, j) == Ratio(1, 1)
    ensures forall c :: 0 <= c < 3 ==> LinearLane(state, streams, vIndices, startVertex, a, c, j) != Undef
  {
    var ied := state.layout[a];
    var vb := streams[ied.streamIndex];
    var offset := LaneOffset(vIndices[j], vb.pitch, ied.alignedByteOffset, startVertex);
    FullLaneReadsPastElement(vb.data, offset, IntBits(false));
    assert LaneAttributeOffset(ied, vb, vIndices[j], startVertex, false) == offset;
    forall c | 0 <= c < 3
      ensures LinearLane(state, streams, vIndices, startVertex, a, c, j) != Undef
    {
      LinearLaneRead(state, streams, vIndices, startVertex, a, c, j);
    }
    LinearLaneRead(state, streams, vIndices, startVertex, a, 3, j);
  }
}
