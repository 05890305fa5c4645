/**
 * FetchJit::Create: the index stage, the VertexID and cut-mask stores, and
 * the choice between the load path (bDisableVGATHER) and the gather path.
 */
module FetchCreate {
  import opened Simd
  import opened FetchState
  import opened FetchIndices
  import opened FetchLinear
  import opened FetchGather
  import opened FetchPacking

  /** The attribute rows one of the two paths stores into the simdvertex. */
  datatype VertexOutput = LoadedRows(lanes: seq<seq<Lane>>) | GatheredRows(elements: seq<Element>)

  /** What the fetch shader writes: VertexID, CutMask (only when enabled) and the vertex rows. */
  datatype FetchOutput = FetchOutput(vertexID: seq<int>, cutMask: Option<seq<int>>, vertex: VertexOutput)

  /** The inputs the fetch shader reads through SWR_FETCH_CONTEXT. */
  predicate ValidFetchInput(state: FetchCompileState, mem: seq<int>, streams: seq<VertexBuffer>)
  {
    ValidState(state) && ValidIndexWindow(mem, IndexElementBytes(state.indexType)) &&
    (forall s :: 0 <= s < |streams| ==> ValidBuffer(streams[s])) &&
    (forall a :: 0 <= a < |state.layout| ==> state.layout[a].streamIndex < |streams|)
  }

  /** Every lane the index stage produces is the index read for it or the substituted zero. */
  lemma IndexStageLanes(indexType: IndexType, bDisableIndexOOBCheck: bool, mem: seq<int>, pIndices: nat, pLastIndex: nat)
    requires |mem| == W
    requires IndexStage(indexType, bDisableIndexOOBCheck, mem, pIndices, pLastIndex).Ok?
    ensures forall j :: 0 <= j < W ==>
      var v := IndexStage(indexType, bDisableIndexOOBCheck, mem, pIndices, pLastIndex).value;
      v[j] == mem[j] || v[j] == 0
  {
    var v := IndexStage(indexType, bDisableIndexOOBCheck, mem, pIndices, pLastIndex).value;
    forall j | 0 <= j < W
      ensures v[j] == mem[j] || v[j] == 0
    {
      if !bDisableIndexOOBCheck && indexType == R32Uint {
        Valid32bitLane(mem, pIndices, pLastIndex, j);
      }
    }
  }

  /** The index vector as the naturals the load path indexes with. */
  function AsIndices(v: seq<int>): (r: seq<nat>)
    requires forall j :: 0 <= j < |v| ==> v[j] >= 0
    ensures |r| == |v| && forall j :: 0 <= j < |v| ==> r[j] == v[j]
  {
    seq(|v|, j requires 0 <= j < |v| => v[j] as nat)
  }

  /**
   * Create: indices first (an unsupported index type aborts), then
   * VertexID = the index vector, the cut mask when bEnableCutIndex, and the
   * attribute rows of the load path or of the gather path.
   */
  method Create(state: FetchCompileState, mem: seq<int>, pIndices: nat, pLastIndex: nat,
                streams: seq<VertexBuffer>, startVertex: nat)
    returns (r: Result<FetchOutput>)
    requires ValidFetchInput(state, mem, streams)
    ensures r.Err? <==>
      state.indexType == OtherIndexFormat ||
      (state.bDisableVGATHER && exists a :: 0 <= a < |state.layout| && AttributeConversion(state.layout[a]).Err?) ||
      (!state.bDisableVGATHER && GatherOutput(state).Err?)
    ensures r.Ok? ==>
      var vIndices := IndexStage(state.indexType, state.bDisableIndexOOBCheck, mem, pIndices, pLastIndex).value;
      r.value.vertexID == vIndices &&
      r.value.cutMask == (if state.bEnableCutIndex then Some(CutMask(vIndices, state.cutIndex)) else None)
    ensures r.Ok? && !state.bDisableVGATHER ==> r.value.vertex == GatheredRows(GatherOutput(state).value)
    ensures r.Ok? && state.bDisableVGATHER ==>
      var vIndices := IndexStage(state.indexType, state.bDisableIndexOOBCheck, mem, pIndices, pLastIndex).value;
      (forall j :: 0 <= j < W ==> vIndices[j] >= 0) &&
      r.value.vertex.LoadedRows? && WideRows(r.value.vertex.lanes, 4 * |state.layout|) &&
      forall a, c, j :: 0 <= a < |state.layout| && 0 <= c < 4 && 0 <= j < W ==>
        r.value.vertex.lanes[4 * a + c][j] == LinearLane(state, streams, AsIndices(vIndices), startVertex, a, c, j)
  {
    var indices := LoadIndices(state.indexType, state.bDisableIndexOOBCheck, mem, pIndices, pLastIndex);
    if indices.Err? {
      return Err(indices.msg);
    }
    var vIndices := indices.value;
    var vertexID := vIndices;
    var cutMask: Option<seq<int>> := None;
    if state.bEnableCutIndex {
      cutMask := Some(CutMask(vIndices, state.cutIndex));
    }
    if state.bDisableVGATHER {
      IndexStageLanes(state.indexType, state.bDisableIndexOOBCheck, mem, pIndices, pLastIndex);
      var rows := JitLoadVertices(state, streams, AsIndices(vIndices), startVertex);
      if rows.Err? {
        return Err(rows.msg);
      }
      r := Ok(FetchOutput(vertexID, cutMask, LoadedRows(rows.value)));
    } else {
      var rows := JitGatherVertices(state);
      if rows.Err? {
        return Err(rows.msg);
      }
      r := Ok(FetchOutput(vertexID, cutMask, GatheredRows(rows.value)));
    }
  }
}
