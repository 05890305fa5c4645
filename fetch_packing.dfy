/**
 * Output packing of the gather path and the generation loop around it.
 * The generator keeps a 4-entry buffer of vertex elements, a count of the
 * entries filled (currentVertexElement) and the index of the next output
 * group of four rows (outputElt).  Each enabled component fills one entry;
 * a full buffer is stored as rows outputElt*4 .. outputElt*4+3.
 */
module FetchPacking {
  import opened Simd
  import opened FetchState
  import opened FetchGather

  /** An entry of vVertexElements: a generated slot, or a pointer never assigned. */
  datatype Element = Uninit | Elem(slot: Slot)

  /** The rows that store the given slots in order, each exactly once. */
  function Stored(slots: seq<Slot>): (rows: seq<Element>)
    ensures |rows| == |slots|
    ensures forall k :: 0 <= k < |slots| ==> rows[k] == Elem(slots[k])
  {
    seq(|slots|, k requires 0 <= k < |slots| => Elem(slots[k]))
  }

  lemma StoredAppend(a: seq<Slot>, b: seq<Slot>)
    ensures Stored(a + b) == Stored(a) + Stored(b)
  {
    assert |Stored(a + b)| == |Stored(a) + Stored(b)|;
    forall k | 0 <= k < |a + b|
      ensures Stored(a + b)[k] == (Stored(a) + Stored(b))[k]
    {
      if k < |a| {
      } else {
        assert (a + b)[k] == b[k - |a|];
      }
    }
  }

  /**
   * What entry c of the buffer still holds once the current group has
   * filled fewer than c + 1 entries: the entry of the previous group, or
   * nothing at all during the first group.
   */
  function StaleElement(slots: seq<Slot>, outputElt: nat, c: nat): Element
    requires 4 * outputElt <= |slots| && c < 4
  {
    if outputElt == 0 then Uninit else Elem(slots[4 * (outputElt - 1) + c])
  }

  /** Position inside its group of four of the next slot after n slots. */
  function GroupPosition(n: nat): (r: nat)
    ensures r < 4
  {
    if n < 4 then n else GroupPosition(n - 4)
  }

  lemma {:induction false} GroupPositionOf(outputElt: nat, c: nat)
    requires c < 4
    ensures GroupPosition(4 * outputElt + c) == c
  {
    if outputElt > 0 {
      GroupPositionOf(outputElt - 1, c);
      assert 4 * outputElt + c - 4 == 4 * (outputElt - 1) + c;
    }
  }

  /**
   * The rows the final flush leaves as written: it stores
   * currentVertexElement + 1 entries, so a partial last group adds one row
   * holding the buffer's next entry -- never assigned in the first group,
   * left over from the previous group otherwise.
   */
  function FinalRowsAsWritten(slots: seq<Slot>): (rows: seq<Element>)
  {
    if GroupPosition(|slots|) == 0 then Stored(slots)
    else Stored(slots) + [if |slots| < 4 then Uninit else Elem(slots[|slots| - 4])]
  }

  /** One X-only attribute: two rows come out, the second never assigned. */
  lemma FinalFlushStoresExtraRow(s: Slot)
    ensures FinalRowsAsWritten([s]) == [Elem(s), Uninit]
    ensures |FinalRowsAsWritten([s])| == 2 != |Stored([s])|
  {
  }

  /** Five components: the sixth row repeats the second. */
  lemma FinalFlushRepeatsStaleRow(slots: seq<Slot>)
    requires |slots| == 5
    ensures |FinalRowsAsWritten(slots)| == 6
    ensures FinalRowsAsWritten(slots)[5] == Elem(slots[1])
  {
    assert GroupPosition(5) == 1;
  }

  /** Whenever the last group is partial, the as-written flush stores a row no component filled. */
  lemma FinalFlushMismatch(slots: seq<Slot>)
    requires GroupPosition(|slots|) != 0
    ensures |FinalRowsAsWritten(slots)| == |slots| + 1
    ensures FinalRowsAsWritten(slots) != Stored(slots)
  {
  }

  class VertexPacker {
    var currentVertexElement: nat
    var outputElt: nat
    const vVertexElements: array<Element>
    var rows: seq<Element>         // row r of the output simdvertex rows is rows[r]
    ghost var appended: seq<Slot>  // every slot appended so far

    /**
     * The packing invariant: the count stays in 0..3, complete groups have
     * been stored in order, the current group's slots are in the first
     * entries, and the others hold the previous group's.
     */
    ghost predicate Valid()
      reads this, vVertexElements
    {
      vVertexElements.Length == 4 &&
      currentVertexElement < 4 &&
      |appended| == 4 * outputElt + currentVertexElement &&
      rows == Stored(appended[..4 * outputElt]) &&
      (forall c :: 0 <= c < currentVertexElement ==> vVertexElements[c] == Elem(appended[4 * outputElt + c])) &&
      (forall c :: currentVertexElement <= c < 4 ==> vVertexElements[c] == StaleElement(appended, outputElt, c))
    }

    /** The generator's starting state: nothing filled, nothing stored, entries unassigned. */
    constructor ()
      ensures Valid() && appended == [] && rows == [] && fresh(vVertexElements)
    {
      currentVertexElement := 0;
      outputElt := 0;
      vVertexElements := new Element[4](_ => Uninit);
      rows := [];
      appended := [];
    }

    /** StoreVertexElements: the first numEltsToStore entries become rows outputElt*4 + c. */
    method StoreVertexElements(numEltsToStore: nat)
      requires vVertexElements.Length == 4 && numEltsToStore <= 4 && |rows| == 4 * outputElt
      modifies this`rows
      ensures rows == old(rows) + vVertexElements[..numEltsToStore]
    {
      var c := 0;
      while c < numEltsToStore
        invariant 0 <= c <= numEltsToStore
        invariant rows == old(rows) + vVertexElements[..c]
      {
        rows := rows + [vVertexElements[c]];
        c := c + 1;
      }
    }

    /**
     * One enabled component: its slot fills the next entry; a fourth entry
     * flushes the group and restarts the count.
     */
    method Append(s: Slot)
      requires Valid()
      modifies this, vVertexElements
      ensures Valid() && appended == old(appended) + [s]
    {
      ghost var prev := appended;
      ghost var base := 4 * outputElt;
      vVertexElements[currentVertexElement] := Elem(s);
      appended := appended + [s];
      currentVertexElement := currentVertexElement + 1;
      assert appended[..base] == prev[..base];
      forall c | 0 <= c < currentVertexElement
        ensures vVertexElements[c] == Elem(appended[base + c])
      {
        if c < currentVertexElement - 1 {
          assert appended[base + c] == prev[base + c];
        }
      }
      if currentVertexElement > 3 {
        assert vVertexElements[..4] == Stored(appended[base .. base + 4]);
        StoreVertexElements(4);
        StoredAppend(appended[..base], appended[base .. base + 4]);
        assert appended[..base] + appended[base .. base + 4] == appended[..base + 4];
        outputElt := outputElt + 1;
        currentVertexElement := 0;
      } else {
        forall c | currentVertexElement <= c < 4
          ensures vVertexElements[c] == StaleElement(appended, outputElt, c)
        {
          assert vVertexElements[c] == StaleElement(prev, outputElt, c);
        }
      }
    }

    /** The final flush, corrected: a partial group stores exactly its currentVertexElement entries. */
    method Finish()
      requires Valid()
      modifies this`rows, this`outputElt
      ensures rows == Stored(appended)
      ensures outputElt == old(outputElt) + (if old(currentVertexElement) > 0 then 1 else 0)
    {
      if currentVertexElement > 0 {
        assert vVertexElements[..currentVertexElement] ==
               Stored(appended[4 * outputElt .. 4 * outputElt + currentVertexElement]);
        StoreVertexElements(currentVertexElement);
        StoredAppend(appended[..4 * outputElt], appended[4 * outputElt ..]);
        assert appended[..4 * outputElt] + appended[4 * outputElt ..] == appended;
        outputElt := outputElt + 1;
      } else {
        assert appended[..4 * outputElt] == appended;
      }
    }

    /** The final flush as the generator writes it: currentVertexElement + 1 entries. */
    method FinishAsWritten()
      requires Valid()
      modifies this`rows, this`outputElt
      ensures rows == FinalRowsAsWritten(appended)
      ensures outputElt == old(outputElt) + (if old(currentVertexElement) > 0 then 1 else 0)
    {
      if currentVertexElement > 0 {
        var n := currentVertexElement;
        ghost var base := 4 * outputElt;
        ghost var current := appended[base..];
        FinalRowsStale(appended, outputElt, n);
        assert vVertexElements[..n + 1] == Stored(current) + [StaleElement(appended, outputElt, n)];
        StoreVertexElements(n + 1);
        StoredAppend(appended[..base], current);
        assert appended[..base] + current == appended;
        outputElt := outputElt + 1;
      } else {
        GroupPositionOf(outputElt, 0);
        assert appended[..4 * outputElt] == appended;
      }
    }
  }

  /** A partial last group of n slots leaves, as the extra row, the buffer's stale entry n. */
  lemma FinalRowsStale(slots: seq<Slot>, outputElt: nat, n: nat)
    requires 0 < n < 4 && |slots| == 4 * outputElt + n
    ensures FinalRowsAsWritten(slots) == Stored(slots) + [StaleElement(slots, outputElt, n)]
  {
    GroupPositionOf(outputElt, n);
  }

  /**
   * One enabled component of a shuffle or gather loop: its slot, computed
   * by the loop body, is the one PackedSlots gives it and goes through the
   * packer.
   */
  method AppendComponent(p: VertexPacker, ied: InputElementDesc, kind: FetchKind, attr: nat, i: nat,
                         slot: Slot, ghost start: seq<Slot>)
    requires p.Valid() && ValidElement(ied) && ValidKind(kind) && i < 4
    requires IsComponentEnabled(ied.componentPacking, i) && slot == ComponentSlot(ied, kind, attr, i)
    requires p.appended == start + PackedSlots(ied, kind, attr, i)
    modifies p, p.vVertexElements
    ensures p.Valid() && p.appended == start + PackedSlots(ied, kind, attr, i + 1)
  {
    p.Append(slot);
    assert start + PackedSlots(ied, kind, attr, i) + [slot] == start + (PackedSlots(ied, kind, attr, i) + [slot]);
  }

  /**
   * The per-component loop of the 32-bit paths (FLOAT and integer): a
   * disabled component only advances pStreamBase by 4 bytes; an enabled one
   * gathers the dword at the current displacement or takes its control
   * constant.
   */
  method Gather32bpc(p: VertexPacker, ied: InputElementDesc, attr: nat, conv: Convert)
    requires p.Valid() && ValidElement(ied)
    modifies p, p.vVertexElements
    ensures p.Valid() && p.appended == old(p.appended) + PackedSlots(ied, Dwords(conv), attr, 4)
  {
    var streamDisp := 0;
    var i := 0;
    while i < 4
      invariant 0 <= i <= 4 && streamDisp == 4 * i
      invariant p.Valid() && p.appended == old(p.appended) + PackedSlots(ied, Dwords(conv), attr, i)
    {
      if IsComponentEnabled(ied.componentPacking, i) {
        var ctrl := ied.componentControl[i];
        var slot;
        if ctrl == StoreSrc {
          slot := Fetch(attr, streamDisp, Dword, conv);
        } else {
          slot := Const(GenerateCompCtrlVector(ctrl).value);
        }
        AppendComponent(p, ied, Dwords(conv), attr, i, slot, old(p.appended));
      }
      streamDisp := streamDisp + 4;
      i := i + 1;
    }
  }

  /**
   * Shuffle8bpcGatherd: the conversion is chosen first (an illegal
   * combination aborts before anything is appended); then each enabled
   * component takes byte swizzle[i] of the one gathered dword, or its
   * control constant.
   */
  method Shuffle8bpcGatherd(p: VertexPacker, ied: InputElementDesc, attr: nat,
                            extendType: CastOp, conversionType: ConversionType)
    returns (r: Result<()>)
    requires p.Valid() && ValidElement(ied)
    modifies p, p.vVertexElements
    ensures p.Valid()
    ensures r.Ok? <==> Shuffle8Conversion(extendType, conversionType).Ok?
    ensures r.Err? ==> r.msg == Shuffle8Conversion(extendType, conversionType).msg && p.appended == old(p.appended)
    ensures r.Ok? ==>
      p.appended == old(p.appended) +
                    PackedSlots(ied, Bytes(Shuffle8Conversion(extendType, conversionType).value, ied.format.swizzle), attr, 4)
  {
    var conv := Shuffle8Conversion(extendType, conversionType);
    if conv.Err? {
      return Err(conv.msg);
    }
    var kind := Bytes(conv.value, ied.format.swizzle);
    var i := 0;
    while i < 4
      invariant 0 <= i <= 4
      invariant p.Valid() && p.appended == old(p.appended) + PackedSlots(ied, kind, attr, i)
    {
      if IsComponentEnabled(ied.componentPacking, i) {
        var ctrl := ied.componentControl[i];
        var slot;
        if ctrl == StoreSrc {
          slot := Fetch(attr, 0, Byte(ied.format.swizzle[i]), conv.value);
        } else {
          slot := Const(GenerateCompCtrlVector(ctrl).value);
        }
        AppendComponent(p, ied, kind, attr, i, slot, old(p.appended));
      }
      i := i + 1;
    }
    r := Ok(());
  }

  /**
   * The gathers set up for the 16-bit paths: the x/y dword at pStreamBase
   * if x or y is enabled, the z/w dword 4 bytes further if z or w is.
   */
  predicate HalfGathers(ied: InputElementDesc, vGatherResult: seq<Option<nat>>)
  {
    |vGatherResult| == 2 &&
    ((IsComponentEnabled(ied.componentPacking, 0) || IsComponentEnabled(ied.componentPacking, 1)) ==>
      vGatherResult[0] == Some(0)) &&
    ((IsComponentEnabled(ied.componentPacking, 2) || IsComponentEnabled(ied.componentPacking, 3)) ==>
      vGatherResult[1] == Some(4))
  }

  /**
   * The value Shuffle16bpcGather stores for enabled component i: the
   * selected half of the selected gather, or the control constant.
   */
  method HalfComponent(ied: InputElementDesc, attr: nat, vGatherResult: seq<Option<nat>>, conv: Convert, i: nat)
    returns (slot: Slot)
    requires ValidElement(ied) && HalfGathers(ied, vGatherResult) && i < 4
    requires IsComponentEnabled(ied.componentPacking, i)
    ensures slot == ComponentSlot(ied, Halves(conv), attr, i)
  {
    var ctrl := ied.componentControl[i];
    if ctrl == StoreSrc {
      var selectedMask := if i == 0 || i == 2 then 0 else 1;
      var selectedGather := if i < 2 then 0 else 1;
      if i < 2 {
        assert IsComponentEnabled(ied.componentPacking, 0) || IsComponentEnabled(ied.componentPacking, 1);
      } else {
        assert IsComponentEnabled(ied.componentPacking, 2) || IsComponentEnabled(ied.componentPacking, 3);
      }
      slot := Fetch(attr, vGatherResult[selectedGather].value, Halfword(selectedMask), conv);
    } else {
      slot := Const(GenerateCompCtrlVector(ctrl).value);
    }
  }

  /**
   * Shuffle16bpcGather: the conversion is chosen first; then each enabled
   * component takes the low (x, z) or high (y, w) half of the x/y or z/w
   * gather, or its control constant.
   */
  method Shuffle16bpcGather(p: VertexPacker, ied: InputElementDesc, attr: nat, vGatherResult: seq<Option<nat>>,
                            extendType: CastOp, conversionType: ConversionType)
    returns (r: Result<()>)
    requires p.Valid() && ValidElement(ied) && HalfGathers(ied, vGatherResult)
    modifies p, p.vVertexElements
    ensures p.Valid()
    ensures r.Ok? <==> Shuffle16Conversion(extendType, conversionType).Ok?
    ensures r.Err? ==> r.msg == Shuffle16Conversion(extendType, conversionType).msg && p.appended == old(p.appended)
    ensures r.Ok? ==>
      p.appended == old(p.appended) + PackedSlots(ied, Halves(Shuffle16Conversion(extendType, conversionType).value), attr, 4)
  {
    var conv := Shuffle16Conversion(extendType, conversionType);
    if conv.Err? {
      return Err(conv.msg);
    }
    var kind := Halves(conv.value);
    var i := 0;
    while i < 4
      invariant 0 <= i <= 4
      invariant p.Valid() && p.appended == old(p.appended) + PackedSlots(ied, kind, attr, i)
    {
      if IsComponentEnabled(ied.componentPacking, i) {
        var slot := HalfComponent(ied, attr, vGatherResult, conv.value, i);
        AppendComponent(p, ied, kind, attr, i, slot, old(p.appended));
      }
      i := i + 1;
    }
    r := Ok(());
  }

  /** The outcome of generating each attribute of a layout on its own. */
  function AttributeResults(layout: seq<InputElementDesc>): (r: seq<Result<seq<Slot>>>)
    requires forall a :: 0 <= a < |layout| ==> ValidElement(layout[a])
    ensures |r| == |layout|
  {
    if |layout| == 0 then []
    else AttributeResults(layout[..|layout| - 1]) + [AttributeSlots(layout[|layout| - 1], |layout| - 1)]
  }

  /** Each entry of AttributeResults is that attribute's own outcome. */
  lemma {:induction false} AttributeResultsAt(layout: seq<InputElementDesc>, a: nat)
    requires forall b :: 0 <= b < |layout| ==> ValidElement(layout[b])
    requires a < |layout|
    ensures IsAttributeResult(AttributeResults(layout), layout, a)
  {
    var last := |layout| - 1;
    if a < last {
      AttributeResultsAt(layout[..last], a);
      assert layout[..last][a] == layout[a];
    }
  }

  /** Entry a of `r` is what attribute a of the layout generates. */
  predicate IsAttributeResult(r: seq<Result<seq<Slot>>>, layout: seq<InputElementDesc>, a: nat)
    requires a < |r| && a < |layout| && ValidElement(layout[a])
  {
    r[a] == AttributeSlots(layout[a], a)
  }

  /** The slots of the first n attributes in order, stopping at the first attribute that fails. */
  function Collect(results: seq<Result<seq<Slot>>>, n: nat): Result<seq<Slot>>
    requires n <= |results|
  {
    if n == 0 then Ok([])
    else
      match Collect(results, n - 1)
      case Err(msg) => Err(msg)
      case Ok(prev) =>
        match results[n - 1]
        case Err(msg) => Err(msg)
        case Ok(slots) => Ok(prev + slots)
  }

  /** The rows the gather path stores for a fetch state: every slot of every attribute, once, in order. */
  function GatherOutput(state: FetchCompileState): Result<seq<Element>>
    requires ValidState(state)
  {
    match Collect(AttributeResults(state.layout), |state.layout|)
    case Err(msg) => Err(msg)
    case Ok(slots) => Ok(Stored(slots))
  }

  /** Generation fails iff some attribute among the first n fails. */
  lemma {:induction false} CollectErr(results: seq<Result<seq<Slot>>>, n: nat)
    requires n <= |results|
    ensures Collect(results, n).Err? <==> exists a :: 0 <= a < n && results[a].Err?
  {
    if n > 0 {
      CollectErr(results, n - 1);
      if results[n - 1].Err? {
        assert exists a :: 0 <= a < n && results[a].Err? by {
          assert 0 <= n - 1 < n && results[n - 1].Err?;
        }
      }
    }
  }

  /** The message is the first failing attribute's. */
  lemma {:induction false} CollectFirstErr(results: seq<Result<seq<Slot>>>, n: nat, a: nat)
    requires a < n <= |results| && results[a].Err?
    requires forall b :: 0 <= b < a ==> results[b].Ok?
    ensures Collect(results, n) == Err(results[a].msg)
  {
    if n - 1 == a {
      CollectErr(results, a);
    } else {
      CollectFirstErr(results, n - 1, a);
    }
  }

  /** Every fetch slot reads an attribute below `bound` through a valid part. */
  predicate FetchesBelow(slots: seq<Slot>, bound: nat)
  {
    forall k :: 0 <= k < |slots| && slots[k].Fetch? ==> slots[k].attr < bound && ValidExtract(slots[k].part)
  }

  lemma {:induction false} CollectFetch(results: seq<Result<seq<Slot>>>, n: nat)
    requires n <= |results| && Collect(results, n).Ok?
    requires forall a :: 0 <= a < n && results[a].Ok? ==> FetchesBelow(results[a].value, a + 1)
    ensures FetchesBelow(Collect(results, n).value, n)
  {
    if n > 0 {
      CollectFetch(results, n - 1);
      var prev := Collect(results, n - 1).value;
      var slots := results[n - 1].value;
      assert FetchesBelow(slots, n);
      forall k | 0 <= k < |prev + slots| && (prev + slots)[k].Fetch?
        ensures (prev + slots)[k].attr < n && ValidExtract((prev + slots)[k].part)
      {
        if k >= |prev| {
          assert (prev + slots)[k] == slots[k - |prev|];
        }
      }
    }
  }

  /** Every fetch slot generated for a layout reads one of its attributes. */
  lemma LayoutSlotsFetch(layout: seq<InputElementDesc>)
    requires forall a :: 0 <= a < |layout| ==> ValidElement(layout[a])
    requires Collect(AttributeResults(layout), |layout|).Ok?
    ensures FetchesBelow(Collect(AttributeResults(layout), |layout|).value, |layout|)
  {
    var results := AttributeResults(layout);
    forall a | 0 <= a < |layout| && results[a].Ok?
      ensures FetchesBelow(results[a].value, a + 1)
    {
      AttributeResultsAt(layout, a);
      AttributeSlotsFetch(layout[a], a);
    }
    CollectFetch(results, |layout|);
  }

  /** A failure makes every longer prefix fail with the same message. */
  lemma {:induction false} CollectPrefixErr(results: seq<Result<seq<Slot>>>, m: nat, n: nat)
    requires m <= n <= |results| && Collect(results, m).Err?
    ensures Collect(results, n) == Collect(results, m)
  {
    if m < n {
      CollectPrefixErr(results, m, n - 1);
    }
  }

  /**
   * One attribute of JitGatherVertices: the path is chosen on the format's
   * type and bits per component exactly as AttributeSlots describes, and
   * the slots go through the packer.
   */
  method GatherAttribute(p: VertexPacker, ied: InputElementDesc, attr: nat) returns (r: Result<()>)
    requires p.Valid() && ValidElement(ied)
    modifies p, p.vVertexElements
    ensures p.Valid()
    ensures r.Err? <==> AttributeSlots(ied, attr).Err?
    ensures r.Err? ==> r.msg == AttributeSlots(ied, attr).msg
    ensures r.Ok? ==> p.appended == old(p.appended) + AttributeSlots(ied, attr).value
  {
    var info := ied.format;
    var bpc := Bpc(info);
    var compMask := ied.componentPacking;
    var xy := IsComponentEnabled(compMask, 0) || IsComponentEnabled(compMask, 1);
    var zw := IsComponentEnabled(compMask, 2) || IsComponentEnabled(compMask, 3);
    if info.type0 == Float {
      if bpc == 16 {
        var vGatherResult: seq<Option<nat>> := [None, None];
        if xy {
          vGatherResult := vGatherResult[0 := Some(0)];
        }
        if zw {
          vGatherResult := vGatherResult[1 := Some(4)];
        }
        if compMask != 0 {
          var _ := Shuffle16bpcGather(p, ied, attr, vGatherResult, FPExt, ConvertNone);
        }
        r := Ok(());
      } else if bpc == 32 {
        Gather32bpc(p, ied, attr, IntBits(false));
        r := Ok(());
      } else {
        r := Err("Tried to fetch invalid FP format");
      }
    } else {
      var (extendCastType, conversionType) := SelectConversion(info.type0);
      if bpc == 8 {
        r := Ok(());
        if compMask != 0 {
          r := Shuffle8bpcGatherd(p, ied, attr, extendCastType, conversionType);
        }
      } else if bpc == 16 {
        var vGatherResult: seq<Option<nat>> := [None, None];
        if xy {
          vGatherResult := vGatherResult[0 := Some(0)];
        }
        if zw {
          vGatherResult := vGatherResult[1 := Some(4)];
        }
        r := Ok(());
        if compMask != 0 {
          r := Shuffle16bpcGather(p, ied, attr, vGatherResult, extendCastType, conversionType);
        }
      } else if bpc == 32 {
        if conversionType != ConvertNone {
          r := Err("conversionType == CONVERT_NONE");
        } else {
          Gather32bpc(p, ied, attr, IntBits(false));
          r := Ok(());
        }
      } else {
        r := Ok(());
      }
    }
  }

  /** Entries 0 .. |layout| - 1 of `results` are the attributes' own outcomes. */
  predicate AttributeResultsOf(results: seq<Result<seq<Slot>>>, layout: seq<InputElementDesc>)
    requires forall a :: 0 <= a < |layout| ==> ValidElement(layout[a])
  {
    |results| == |layout| && forall a :: 0 <= a < |layout| ==> IsAttributeResult(results, layout, a)
  }

  /** GatherAttribute for attribute n of the layout, stated against that attribute's entry of `results`. */
  method GatherAttributeOf(p: VertexPacker, state: FetchCompileState, n: nat, ghost results: seq<Result<seq<Slot>>>)
    returns (r: Result<()>)
    requires ValidState(state) && n < |state.layout| && AttributeResultsOf(results, state.layout)
    requires p.Valid()
    modifies p, p.vVertexElements
    ensures p.Valid()
    ensures r.Err? <==> results[n].Err?
    ensures r.Err? ==> r.msg == results[n].msg
    ensures r.Ok? ==> p.appended == old(p.appended) + results[n].value
  {
    assert IsAttributeResult(results, state.layout, n);
    r := GatherAttribute(p, state.layout[n], n);
  }

  /**
   * The attribute loop of JitGatherVertices: every attribute in layout
   * order through one packer, stopping at the first that fails.
   */
  method GatherAttributes(p: VertexPacker, state: FetchCompileState, ghost results: seq<Result<seq<Slot>>>)
    returns (r: Result<()>)
    requires ValidState(state) && AttributeResultsOf(results, state.layout)
    requires p.Valid() && p.appended == []
    modifies p, p.vVertexElements
    ensures p.Valid()
    ensures r.Err? <==> Collect(results, |state.layout|).Err?
    ensures r.Err? ==> r.msg == Collect(results, |state.layout|).msg
    ensures r.Ok? ==> Collect(results, |state.layout|) == Ok(p.appended)
  {
    var nInputElt := 0;
    while nInputElt < |state.layout|
      invariant 0 <= nInputElt <= |state.layout|
      invariant p.Valid() && Collect(results, nInputElt) == Ok(p.appended)
    {
      ghost var prev := p.appended;
      var res := GatherAttributeOf(p, state, nInputElt, results);
      if res.Err? {
        assert Collect(results, nInputElt + 1) == Err(res.msg);
        CollectPrefixErr(results, nInputElt + 1, |state.layout|);
        return Err(res.msg);
      }
      assert Collect(results, nInputElt + 1) == Ok(prev + results[nInputElt].value);
      nInputElt := nInputElt + 1;
    }
    r := Ok(());
  }

  /**
   * JitGatherVertices: the attribute loop, then the final flush
   * (corrected).  The stored rows are exactly GatherOutput: one row per
   * enabled component, in order, nothing else.
   */
  method JitGatherVertices(state: FetchCompileState) returns (r: Result<seq<Element>>)
    requires ValidState(state)
    ensures r == GatherOutput(state)
  {
    ghost var results := AttributeResults(state.layout);
    forall a | 0 <= a < |state.layout|
      ensures IsAttributeResult(results, state.layout, a)
    {
      AttributeResultsAt(state.layout, a);
    }
    var p := new VertexPacker();
    var res := GatherAttributes(p, state, results);
    if res.Err? {
      return Err(res.msg);
    }
    p.Finish();
    r := Ok(p.rows);
  }
}
