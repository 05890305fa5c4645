/**
 * Machine-level vocabulary shared by the fetch-shader model: the SIMD width,
 * 32-bit wrap-around, signed reinterpretation, truncating division, symbolic
 * lane values and the VSHUFFLE primitive.
 */
module Simd {

  /** SIMD width (mVWidth) of the AVX target: 8 lanes of 32 bits. */
  const W: nat := 8

  const TwoPow31: int := 0x8000_0000
  const TwoPow32: int := 0x1_0000_0000
  const TwoPow64: int := 0x1_0000_0000_0000_0000

  datatype Result<T> = Ok(value: T) | Err(msg: string)

  datatype Option<T> = None | Some(value: T)

  predicate IsU32(x: int) { 0 <= x < TwoPow32 }

  /** Truncation of an integer to its low 32 bits (wrap-around of i32 add/sub/mul). */
  function U32(x: int): (r: int)
    ensures IsU32(r)
    ensures IsU32(x) ==> r == x
    ensures (x - r) % TwoPow32 == 0
  {
    x % TwoPow32
  }

  /** Truncation to 64 bits (i64 pointer and offset arithmetic). */
  function U64(x: int): (r: int)
    ensures 0 <= r < TwoPow64
    ensures 0 <= x < TwoPow64 ==> r == x
  {
    x % TwoPow64
  }

  /** The signed value of a 32-bit pattern (what ICMP_SLT/SGT/SLE and SDIV see). */
  function ToSigned32(x: int): (r: int)
    requires IsU32(x)
    ensures -TwoPow31 <= r < TwoPow31
    ensures U32(r) == x
    ensures x < TwoPow31 ==> r == x
  {
    if x < TwoPow31 then x else x - TwoPow32
  }

  /** C/LLVM `sdiv`: division truncating toward zero, unlike Dafny's Euclidean `/`. */
  function SDiv(a: int, b: int): (q: int)
    requires b > 0
    ensures a >= 0 ==> q == a / b
    ensures a <= 0 ==> q <= 0
    ensures a > -b ==> q >= 0
  {
    if a >= 0 then a / b else -((-a) / b)
  }

  function Pow2(n: nat): (r: nat)
    ensures r >= 1
  {
    if n == 0 then 1 else 2 * Pow2(n - 1)
  }

  lemma {:induction false} Pow2Add(a: nat, b: nat)
    ensures Pow2(a + b) == Pow2(a) * Pow2(b)
  {
    if a > 0 {
      Pow2Add(a - 1, b);
    }
  }

  /** Sign extension of a `bits`-wide pattern to a mathematical integer. */
  function Sext(raw: int, bits: nat): (v: int)
    requires bits > 0
    requires 0 <= raw < Pow2(bits)
    ensures v + Pow2(bits - 1) >= 0 && v < Pow2(bits - 1)
    ensures v == raw || v == raw - Pow2(bits)
  {
    if raw >= Pow2(bits - 1) then raw - Pow2(bits) else raw
  }

  predicate ValidBytes(data: seq<int>)
  {
    forall k :: 0 <= k < |data| ==> 0 <= data[k] < 256
  }

  /** Unsigned little-endian value of a byte string. */
  function LittleEndian(bytes: seq<int>): (v: int)
    requires ValidBytes(bytes)
    ensures 0 <= v < Pow2(8 * |bytes|)
  {
    if |bytes| == 0 then 0
    else
      Pow2Add(8, 8 * (|bytes| - 1));
      assert Pow2(8) == 256;
      bytes[0] + 256 * LittleEndian(bytes[1..])
  }

  /**
   * Symbolic value held in one lane of a vertex row.  Bits(p) is a 32-bit
   * pattern stored as is (integers, and floats passed through unchanged);
   * Ratio(n, d) is the float the emitted code produces by converting n and
   * multiplying by 1/d (d = 1: cast only); Half(h) is the half-float h
   * widened with CVTPH2PS; Undef is an LLVM undef lane.
   */
  datatype Lane = Undef | Bits(pattern: int) | Ratio(num: int, den: nat) | Half(h: int)

  /** A lane holding zero: integer 0, a float 0/d, or half-float 0. */
  predicate IsZeroLane(l: Lane)
  {
    l == Bits(0) || (l.Ratio? && l.num == 0) || l == Half(0)
  }

  /** The same lane value in every one of n lanes (VIMMED1 / VBROADCAST). */
  function Broadcast<T>(n: nat, x: T): (r: seq<T>)
    ensures |r| == n
    ensures forall j :: 0 <= j < n ==> r[j] == x
  {
    seq(n, _ => x)
  }

  predicate MaskInRange(mask: seq<int>, bound: int)
  {
    forall k :: 0 <= k < |mask| ==> 0 <= mask[k] < bound
  }

  /** LLVM `shufflevector a, b, mask`: lane k takes element mask[k] of a ++ b. */
  function VShuffle<T>(a: seq<T>, b: seq<T>, mask: seq<int>): (r: seq<T>)
    requires MaskInRange(mask, |a| + |b|)
    ensures |r| == |mask|
    ensures forall k :: 0 <= k < |mask| ==> r[k] == if mask[k] < |a| then a[mask[k]] else b[mask[k] - |a|]
  {
    seq(|mask|, k requires 0 <= k < |mask| => if mask[k] < |a| then a[mask[k]] else b[mask[k] - |a|])
  }
}
