/**
 * Index stage of the fetch shader (GetSimdValid8/16/32bitIndices and the
 * index-type dispatch of FetchJit::Create): one 32-bit vertex index per lane,
 * with out-of-bounds lanes replaced by 0 when the OOB check is on.
 *
 * Memory is abstracted as the window of W index elements that follow
 * pIndices: `mem[k]` is the element stored at byte address
 * pIndices + k * elemBytes.  Pointers are byte addresses (nat).
 */
module FetchIndices {
  import opened Simd
  import opened FetchState

  /** The W elements at pIndices, each an unsigned value of elemBytes bytes. */
  predicate ValidIndexWindow(mem: seq<int>, elemBytes: nat)
  {
    |mem| == W && forall k :: 0 <= k < W ==> 0 <= mem[k] < Pow2(8 * elemBytes)
  }

  /** Byte address of the index that lane `lane` reads. */
  function IndexAddress(pIndices: nat, elemBytes: nat, lane: nat): nat
  {
    pIndices + elemBytes * lane
  }

  /**
   * Specification of the 8- and 16-bit OOB-checked path: lane i holds the
   * zero-extended element at pIndices + i when that address is below
   * pLastIndex (unsigned pointer compare), and the stack zero otherwise.
   */
  function ValidNarrowIndices(mem: seq<int>, pIndices: nat, pLastIndex: nat, elemBytes: nat): (v: seq<int>)
    requires |mem| == W
    ensures |v| == W
    ensures forall lane :: 0 <= lane < W ==> v[lane] == mem[lane] || v[lane] == 0
  {
    seq(W, lane requires 0 <= lane < W =>
      if IndexAddress(pIndices, elemBytes, lane) < pLastIndex then mem[lane] else 0)
  }

  /**
   * GetSimdValid8bitIndices (elemBytes = 1) and GetSimdValid16bitIndices
   * (elemBytes = 2): a scalar loop that selects, per lane, either the index
   * address or a pointer to a zero on the stack, loads through it,
   * zero-extends and inserts the value into the lane.
   */
  method GetSimdValidNarrowIndices(mem: seq<int>, pIndices: nat, pLastIndex: nat, elemBytes: nat)
    returns (vIndices: seq<int>)
    requires elemBytes == 1 || elemBytes == 2
    requires ValidIndexWindow(mem, elemBytes)
    ensures |vIndices| == W
    ensures forall lane :: 0 <= lane < W ==>
      vIndices[lane] == if pIndices + elemBytes * lane < pLastIndex then mem[lane] else 0
    ensures vIndices == ValidNarrowIndices(mem, pIndices, pLastIndex, elemBytes)
  {
    vIndices := Broadcast(W, 0);   // VUNDEF_I(): every lane is overwritten below
    var zeroIndex := 0;            // the zero stored in the ALLOCA slot
    var lane := 0;
    while lane < W
      invariant 0 <= lane <= W && |vIndices| == W
      invariant forall k :: 0 <= k < lane ==>
        vIndices[k] == if pIndices + elemBytes * k < pLastIndex then mem[k] else 0
    {
      var pIndex := pIndices + elemBytes * lane;
      var mask := pIndex < pLastIndex;
      var index := if mask then mem[lane] else zeroIndex;   // LOAD(SELECT(mask, pIndex, pZeroIndex))
      vIndices := vIndices[lane := index];                   // Z_EXT + VINSERT
      lane := lane + 1;
    }
  }

  /** Every lane of the narrow path is zero-extended: its upper bits are clear. */
  lemma NarrowIndicesZeroExtended(mem: seq<int>, pIndices: nat, pLastIndex: nat, elemBytes: nat, lane: nat)
    requires ValidIndexWindow(mem, elemBytes) && lane < W
    ensures 0 <= ValidNarrowIndices(mem, pIndices, pLastIndex, elemBytes)[lane] < Pow2(8 * elemBytes)
  {
  }

  /**
   * Lanes are decided independently and only in-bounds addresses are read:
   * two memories that agree on the in-bounds lanes give the same vector.
   */
  lemma NarrowIndicesReadOnlyInBounds(mem1: seq<int>, mem2: seq<int>, pIndices: nat, pLastIndex: nat, elemBytes: nat)
    requires |mem1| == W && |mem2| == W
    requires forall k :: 0 <= k < W && IndexAddress(pIndices, elemBytes, k) < pLastIndex ==> mem1[k] == mem2[k]
    ensures ValidNarrowIndices(mem1, pIndices, pLastIndex, elemBytes) == ValidNarrowIndices(mem2, pIndices, pLastIndex, elemBytes)
  {
  }

  /**
   * numIndicesLeft of GetSimdValid32bitIndices: the i64 pointer difference,
   * truncated to i32, then divided by 4 with signed (truncating) division.
   */
  function NumIndicesLeft(pIndices: nat, pLastIndex: nat): (n: int)
    ensures -TwoPow31 / 4 <= n < TwoPow31 / 4 + 1
  {
    SDiv(ToSigned32(U32(U64(pLastIndex - pIndices))), 4)
  }

  /** vIndexOffsets: the lane numbers 0..7, hard-coded for 8 lanes. */
  const IndexOffsets: seq<int> := [0, 1, 2, 3, 4, 5, 6, 7]

  /**
   * GetSimdValid32bitIndices: VPCMPGTD(broadcast(numIndicesLeft), 0..7)
   * drives one MASKLOADD; lanes whose mask is clear load 0.
   */
  function GetSimdValid32bitIndices(mem: seq<int>, pIndices: nat, pLastIndex: nat): (v: seq<int>)
    requires |mem| == W
    ensures |v| == W
    ensures forall i :: 0 <= i < W ==> v[i] == mem[i] || v[i] == 0
  {
    var vMaxIndex := Broadcast(W, NumIndicesLeft(pIndices, pLastIndex));
    var vIndexMask := seq(W, i requires 0 <= i < W => vMaxIndex[i] > IndexOffsets[i]);
    seq(W, i requires 0 <= i < W => if vIndexMask[i] then mem[i] else 0)
  }

  /** Lane i of the 32-bit path is loaded iff the signed remaining count exceeds i. */
  lemma Valid32bitLane(mem: seq<int>, pIndices: nat, pLastIndex: nat, i: nat)
    requires |mem| == W && i < W
    ensures GetSimdValid32bitIndices(mem, pIndices, pLastIndex)[i] ==
      if NumIndicesLeft(pIndices, pLastIndex) > i then mem[i] else 0
  {
  }

  /**
   * While fewer than 2^31 bytes remain, lane i is loaded exactly when the
   * whole 4-byte index at pIndices + 4i lies below pLastIndex.
   */
  lemma Valid32bitLoadsWholeIndicesOnly(mem: seq<int>, pIndices: nat, pLastIndex: nat, i: nat)
    requires |mem| == W && i < W
    requires pIndices <= pLastIndex < pIndices + TwoPow31
    ensures GetSimdValid32bitIndices(mem, pIndices, pLastIndex)[i] ==
      if pIndices + 4 * (i + 1) <= pLastIndex then mem[i] else 0
  {
    var d := pLastIndex - pIndices;
    assert U32(U64(d)) == d;
    assert NumIndicesLeft(pIndices, pLastIndex) == d / 4;
    assert (i < d / 4) <==> (4 * (i + 1) <= d);
  }

  /**
   * A zero or negative remaining count, i.e. a last-index pointer less than
   * one whole index past pIndices (or before it), loads nothing.
   */
  lemma Valid32bitNothingLeft(mem: seq<int>, pIndices: nat, pLastIndex: nat)
    requires |mem| == W
    requires pIndices < pLastIndex + TwoPow31 && pLastIndex < pIndices + 4
    ensures GetSimdValid32bitIndices(mem, pIndices, pLastIndex) == Broadcast(W, 0)
  {
    var d := pLastIndex - pIndices;
    if d >= 0 {
      assert U32(U64(d)) == d;
    } else {
      assert U64(d) == d + TwoPow64;
      assert U32(U64(d)) == d + TwoPow32;
      assert ToSigned32(U32(U64(d))) == d;
    }
    assert NumIndicesLeft(pIndices, pLastIndex) <= 0;
  }

  /**
   * The 32-bit truncation of the remaining byte count: with exactly 2^31
   * bytes of indices left, the count reads as negative and no lane loads.
   */
  lemma Valid32bitCountWraps(mem: seq<int>, pIndices: nat)
    requires |mem| == W
    ensures GetSimdValid32bitIndices(mem, pIndices, pIndices + TwoPow31) == Broadcast(W, 0)
  {
    assert U32(U64(TwoPow31)) == TwoPow31;
    assert NumIndicesLeft(pIndices, pIndices + TwoPow31) == -(TwoPow31 / 4);
  }

  /** Index width concordance: in-bounds 8-, 16- and 32-bit windows all yield the stored indices. */
  lemma IndexWidthConcordance(mem: seq<int>, pIndices: nat, last8: nat, last16: nat, last32: nat)
    requires |mem| == W
    requires pIndices + W <= last8
    requires pIndices + 2 * W <= last16
    requires pIndices + 4 * W <= last32 < pIndices + TwoPow31
    ensures ValidNarrowIndices(mem, pIndices, last8, 1) == mem
    ensures ValidNarrowIndices(mem, pIndices, last16, 2) == mem
    ensures GetSimdValid32bitIndices(mem, pIndices, last32) == mem
  {
    forall i | 0 <= i < W
      ensures GetSimdValid32bitIndices(mem, pIndices, last32)[i] == mem[i]
    {
      Valid32bitLoadsWholeIndicesOnly(mem, pIndices, last32, i);
    }
  }

  /** Element size in bytes of each supported index format. */
  function IndexElementBytes(t: IndexType): nat
  {
    match t
    case R8Uint => 1
    case R16Uint => 2
    case R32Uint => 4
    case OtherIndexFormat => 4
  }

  /**
   * The index-type switch of Create: unchecked formats do one plain vector
   * load (zero-extended), checked ones use the validated loaders; any other
   * index format is the "Unsupported index type" assertion.
   */
  function IndexStage(indexType: IndexType, bDisableIndexOOBCheck: bool,
                      mem: seq<int>, pIndices: nat, pLastIndex: nat): (r: Result<seq<int>>)
    requires |mem| == W
    ensures r.Err? <==> indexType == OtherIndexFormat
    ensures r.Ok? ==> |r.value| == W
    ensures r.Ok? && bDisableIndexOOBCheck ==> r.value == mem
  {
    match indexType
    case R8Uint => Ok(if bDisableIndexOOBCheck then mem else ValidNarrowIndices(mem, pIndices, pLastIndex, 1))
    case R16Uint => Ok(if bDisableIndexOOBCheck then mem else ValidNarrowIndices(mem, pIndices, pLastIndex, 2))
    case R32Uint => Ok(if bDisableIndexOOBCheck then mem else GetSimdValid32bitIndices(mem, pIndices, pLastIndex))
    case OtherIndexFormat => Err("Unsupported index type")
  }

  /** The index stage as the generated code runs it (the narrow loaders are loops). */
  method LoadIndices(indexType: IndexType, bDisableIndexOOBCheck: bool,
                     mem: seq<int>, pIndices: nat, pLastIndex: nat) returns (r: Result<seq<int>>)
    requires ValidIndexWindow(mem, IndexElementBytes(indexType))
    ensures r == IndexStage(indexType, bDisableIndexOOBCheck, mem, pIndices, pLastIndex)
  {
    match indexType {
      case R8Uint =>
        if bDisableIndexOOBCheck {
          r := Ok(mem);
        } else {
          var v := GetSimdValidNarrowIndices(mem, pIndices, pLastIndex, 1);
          r := Ok(v);
        }
      case R16Uint =>
        if bDisableIndexOOBCheck {
          r := Ok(mem);
        } else {
          var v := GetSimdValidNarrowIndices(mem, pIndices, pLastIndex, 2);
          r := Ok(v);
        }
      case R32Uint =>
        r := Ok(if bDisableIndexOOBCheck then mem else GetSimdValid32bitIndices(mem, pIndices, pLastIndex));
      case OtherIndexFormat =>
        r := Err("Unsupported index type");
    }
  }

  /** All-ones 32-bit lane: VMASK of a true compare. */
  const MaskOn: int := 0xFFFF_FFFF

  /** The cut mask: lane j is all ones iff vIndices[j] equals the cut index, else 0. */
  function CutMask(vIndices: seq<int>, cutIndex: int): (m: seq<int>)
    ensures |m| == |vIndices|
    ensures forall j :: 0 <= j < |m| ==> (m[j] == MaskOn <==> vIndices[j] == cutIndex)
    ensures forall j :: 0 <= j < |m| ==> (m[j] == 0 <==> vIndices[j] != cutIndex)
  {
    var vCutIndex := Broadcast(|vIndices|, cutIndex);
    seq(|vIndices|, j requires 0 <= j < |vIndices| => if vIndices[j] == vCutIndex[j] then MaskOn else 0)
  }
}
