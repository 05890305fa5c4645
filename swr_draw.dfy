/**
 * The draw-side decisions of the SWR gallium driver: the primitive
 * topology translation, the stream-out declaration list built for a vertex
 * shader's stream outputs, and the rule that decides when the cached fetch
 * shader must be rebuilt for a draw.
 */
module SwrDraw {
  import opened Simd
  import opened FetchState

  /** The gallium primitive mode of a draw; UnlistedMode stands for every value the switch has no case for. */
  datatype PipePrim =
    | Points | Lines | LineLoop | LineStrip | Triangles | TriangleStrip | TriangleFan
    | Quads | QuadStrip | Polygon
    | LinesAdjacency | LineStripAdjacency | TrianglesAdjacency | TriangleStripAdjacency
    | UnlistedMode(code: nat)

  /** The SWR PRIMITIVE_TOPOLOGY values the translation produces. */
  datatype Topology =
    | TopPointList | TopLineList | TopLineLoop | TopLineStrip
    | TopTriangleList | TopTriangleStrip | TopTriangleFan | TopQuadList | TopQuadStrip
    | TopLineListAdj | TopListStripAdj | TopTriListAdj | TopTriStripAdj
    | TopUnknown

  /** swr_convert_prim_topology. */
  function ConvertPrimTopology(mode: PipePrim): (t: Topology)
    ensures t == TopUnknown <==> mode.UnlistedMode?
  {
    match mode
    case Points => TopPointList
    case Lines => TopLineList
    case LineLoop => TopLineLoop
    case LineStrip => TopLineStrip
    case Triangles => TopTriangleList
    case TriangleStrip => TopTriangleStrip
    case TriangleFan => TopTriangleFan
    case Quads => TopQuadList
    case QuadStrip => TopQuadStrip
    case Polygon => TopTriangleFan
    case LinesAdjacency => TopLineListAdj
    case LineStripAdjacency => TopListStripAdj
    case TrianglesAdjacency => TopTriListAdj
    case TriangleStripAdjacency => TopTriStripAdj
    case UnlistedMode(_) => TopUnknown
  }

  /** The gallium mode each topology stands for (a triangle fan may also have been a polygon). */
  function PrimOfTopology(t: Topology): (m: Option<PipePrim>)
    ensures m.None? <==> t == TopUnknown
  {
    match t
    case TopPointList => Some(Points)
    case TopLineList => Some(Lines)
    case TopLineLoop => Some(LineLoop)
    case TopLineStrip => Some(LineStrip)
    case TopTriangleList => Some(Triangles)
    case TopTriangleStrip => Some(TriangleStrip)
    case TopTriangleFan => Some(TriangleFan)
    case TopQuadList => Some(Quads)
    case TopQuadStrip => Some(QuadStrip)
    case TopLineListAdj => Some(LinesAdjacency)
    case TopListStripAdj => Some(LineStripAdjacency)
    case TopTriListAdj => Some(TrianglesAdjacency)
    case TopTriStripAdj => Some(TriangleStripAdjacency)
    case TopUnknown => None
  }

  /**
   * The translation loses nothing but the polygon/fan distinction: every
   * listed mode other than a polygon comes back from its topology, a
   * polygon is drawn as a triangle fan, and every topology but UNKNOWN is
   * produced by its mode.
   */
  lemma TopologyRoundTrip(mode: PipePrim, t: Topology)
    ensures !mode.UnlistedMode? && mode != Polygon ==> PrimOfTopology(ConvertPrimTopology(mode)) == Some(mode)
    ensures ConvertPrimTopology(Polygon) == ConvertPrimTopology(TriangleFan)
    ensures t != TopUnknown ==> ConvertPrimTopology(PrimOfTopology(t).value) == t
  {
  }

  /** Two draws get the same topology iff their modes agree, up to polygon/fan and unlisted modes. */
  lemma TopologyCollisions(a: PipePrim, b: PipePrim)
    ensures ConvertPrimTopology(a) == ConvertPrimTopology(b) <==>
      a == b || (a.UnlistedMode? && b.UnlistedMode?) ||
      ({a, b} == {TriangleFan, Polygon})
  {
    TopologyRoundTrip(a, TopUnknown);
    TopologyRoundTrip(b, TopUnknown);
  }

  /** MAX_SO_STREAMS: the number of stream-out buffers offsets[] tracks. */
  const MaxSoStreams: nat := 4

  /** One entry of pipe_stream_output_info::output. */
  datatype SoOutput = SoOutput(
    registerIndex: nat,
    startComponent: nat,
    numComponents: nat,
    outputBuffer: nat,
    dstOffset: nat)       // in dwords

  /** STREAMOUT_DECL: the fields the builder sets (the state starts zeroed). */
  datatype SoDecl = SoDecl(bufferIndex: nat, hole: bool, componentMask: nat, attribSlot: nat)

  /** The bit-field ranges of an output: start 0..3, count 0..7, 16-bit offset, a buffer offsets[] has. */
  predicate ValidOutput(o: SoOutput)
  {
    IsU32(o.registerIndex) && o.startComponent < 4 && o.numComponents < 8 &&
    o.outputBuffer < MaxSoStreams && o.dstOffset < 0x1_0000
  }

  /** offsets[b] once the first n outputs are processed: where the last output to buffer b ended. */
  function OffsetAfter(outputs: seq<SoOutput>, n: nat, b: nat): nat
    requires n <= |outputs|
  {
    if n == 0 then 0
    else if outputs[n - 1].outputBuffer == b then outputs[n - 1].dstOffset + outputs[n - 1].numComponents
    else OffsetAfter(outputs, n - 1, b)
  }

  /**
   * What the builder expects of its input: every output lies at or beyond
   * the end of the previous output to its buffer, leaving a gap narrower
   * than the 32 bits of a component mask.
   */
  predicate StreamOutputs(outputs: seq<SoOutput>)
  {
    forall i :: 0 <= i < |outputs| ==> FollowsPrevious(outputs, i)
  }

  /** Output i is well formed and starts in the 32 dwords after the previous output to its buffer. */
  predicate FollowsPrevious(outputs: seq<SoOutput>, i: nat)
    requires i < |outputs|
  {
    ValidOutput(outputs[i]) &&
    OffsetAfter(outputs, i, outputs[i].outputBuffer) <= outputs[i].dstOffset <
    OffsetAfter(outputs, i, outputs[i].outputBuffer) + 32
  }

  /** `(1 << n) - 1`: the low n bits. */
  function LowBits(n: nat): (m: nat)
  {
    Pow2(n) - 1
  }

  /** `x << s` on unbounded naturals. */
  function Shl(x: nat, s: nat): nat
  {
    if s == 0 then x else 2 * Shl(x, s - 1)
  }

  /** The hole decl filling the gap from `offset` up to an output's dstOffset. */
  function HoleDecl(o: SoOutput, offset: nat): SoDecl
    requires offset <= o.dstOffset
  {
    SoDecl(o.outputBuffer, true, LowBits(o.dstOffset - offset), 0)
  }

  /** The decl of the output itself: its components, from register_index - 1 (wrapping at 0). */
  function OutputDecl(o: SoOutput): SoDecl
  {
    SoDecl(o.outputBuffer, false, Shl(LowBits(o.numComponents), o.startComponent), U32(o.registerIndex - 1))
  }

  /** The decls for one output reached with buffer offset `offset`: a hole over any gap, then the output. */
  function OutputDecls(o: SoOutput, offset: nat): (d: seq<SoDecl>)
    requires ValidOutput(o) && offset <= o.dstOffset
  {
    (if o.dstOffset != offset then [HoleDecl(o, offset)] else []) + [OutputDecl(o)]
  }

  /** The declaration list of the first n outputs. */
  function Decls(outputs: seq<SoOutput>, n: nat): (d: seq<SoDecl>)
    requires StreamOutputs(outputs) && n <= |outputs|
  {
    if n == 0 then []
    else
      assert FollowsPrevious(outputs, n - 1);
      AddOutput(Decls(outputs, n - 1), outputs[n - 1], OffsetAfter(outputs, n - 1, outputs[n - 1].outputBuffer))
  }

  /** One step of the loop: a hole decl for any gap, then the output's decl, appended to `d`. */
  function AddOutput(d: seq<SoDecl>, o: SoOutput, offset: nat): (r: seq<SoDecl>)
    requires ValidOutput(o) && offset <= o.dstOffset
  {
    (if o.dstOffset != offset then d + [HoleDecl(o, offset)] else d) + [OutputDecl(o)]
  }

  lemma AddOutputAppends(d: seq<SoDecl>, o: SoOutput, offset: nat)
    requires ValidOutput(o) && offset <= o.dstOffset
    ensures AddOutput(d, o, offset) == d + OutputDecls(o, offset)
  {
    if o.dstOffset != offset {
      assert d + [HoleDecl(o, offset)] + [OutputDecl(o)] == d + ([HoleDecl(o, offset)] + [OutputDecl(o)]);
    }
  }

  /**
   * The stream-out loop of swr_draw_vbo: offsets[] and num are updated in
   * place; state.stream.decl[0 .. num) is returned as `decls`.
   */
  method BuildStreamoutDecls(outputs: seq<SoOutput>) returns (decls: seq<SoDecl>, numDecls: nat)
    requires StreamOutputs(outputs)
    ensures decls == Decls(outputs, |outputs|) && numDecls == |decls|
  {
    var offsets := new nat[MaxSoStreams](_ => 0);
    var num := 0;
    decls := [];
    var i := 0;
    while i < |outputs|
      invariant 0 <= i <= |outputs|
      invariant decls == Decls(outputs, i) && num == |decls|
      invariant forall b :: 0 <= b < MaxSoStreams ==> offsets[b] == OffsetAfter(outputs, i, b)
    {
      StreamStep(outputs, i);
      decls, num := AddStreamOutput(offsets, decls, num, outputs[i]);
      i := i + 1;
    }
    numDecls := num;
  }

  /** The body of the stream-out loop for one output: the optional hole, then the output, with offsets[] advanced. */
  method AddStreamOutput(offsets: array<nat>, decls: seq<SoDecl>, num: nat, o: SoOutput)
    returns (decls': seq<SoDecl>, num': nat)
    requires offsets.Length == MaxSoStreams && ValidOutput(o) && offsets[o.outputBuffer] <= o.dstOffset
    requires num == |decls|
    modifies offsets
    ensures decls' == AddOutput(decls, o, old(offsets[o.outputBuffer])) && num' == |decls'|
    ensures offsets[..] == old(offsets[..])[o.outputBuffer := o.dstOffset + o.numComponents]
  {
    var outputBuffer := o.outputBuffer;
    decls', num' := decls, num;
    if o.dstOffset != offsets[outputBuffer] {
      decls' := decls' + [HoleDecl(o, offsets[outputBuffer])];
      num' := num' + 1;
      offsets[outputBuffer] := o.dstOffset;
    }
    decls' := decls' + [OutputDecl(o)];
    num' := num' + 1;
    offsets[outputBuffer] := offsets[outputBuffer] + o.numComponents;
  }

  /** What one iteration of the stream-out loop relies on about output i. */
  lemma StreamStep(outputs: seq<SoOutput>, i: nat)
    requires StreamOutputs(outputs) && i < |outputs|
    ensures FollowsPrevious(outputs, i)
    ensures Decls(outputs, i + 1) ==
      AddOutput(Decls(outputs, i), outputs[i], OffsetAfter(outputs, i, outputs[i].outputBuffer))
    ensures forall b :: (OffsetAfter(outputs, i + 1, b) ==
      if b == outputs[i].outputBuffer then outputs[i].dstOffset + outputs[i].numComponents
      else OffsetAfter(outputs, i, b))
  {
    assert FollowsPrevious(outputs, i);
  }

  /** Number of hole decls in a list. */
  function Holes(d: seq<SoDecl>): nat
  {
    if |d| == 0 then 0 else Holes(d[..|d| - 1]) + (if d[|d| - 1].hole then 1 else 0)
  }

  lemma {:induction false} HolesAppend(a: seq<SoDecl>, b: seq<SoDecl>)
    ensures Holes(a + b) == Holes(a) + Holes(b)
  {
    if |b| > 0 {
      HolesAppend(a, b[..|b| - 1]);
      assert (a + b)[..|a + b| - 1] == a + b[..|b| - 1];
    } else {
      assert a + b == a;
    }
  }

  lemma HolesSingle(d: SoDecl)
    ensures Holes([d]) == if d.hole then 1 else 0
  {
    assert [d][..0] == [];
  }

  /**
   * Every output yields exactly one non-hole decl, preceded by at most one
   * hole: n outputs give between n and 2n decls, n of them not holes.
   */
  lemma {:induction false} DeclCount(outputs: seq<SoOutput>, n: nat)
    requires StreamOutputs(outputs) && n <= |outputs|
    ensures n <= |Decls(outputs, n)| <= 2 * n
    ensures |Decls(outputs, n)| == n + Holes(Decls(outputs, n))
  {
    if n > 0 {
      DeclCount(outputs, n - 1);
      assert FollowsPrevious(outputs, n - 1);
      var prev := Decls(outputs, n - 1);
      var o := outputs[n - 1];
      var offset := OffsetAfter(outputs, n - 1, o.outputBuffer);
      var tail := OutputDecls(o, offset);
      AddOutputAppends(prev, o, offset);
      assert Decls(outputs, n) == prev + tail;
      HolesAppend(prev, tail);
      TailCount(o, offset);
    }
  }

  /** One output's decls: one or two, all but one of them holes. */
  lemma TailCount(o: SoOutput, offset: nat)
    requires ValidOutput(o) && offset <= o.dstOffset
    ensures 1 <= |OutputDecls(o, offset)| <= 2
    ensures |OutputDecls(o, offset)| == 1 + Holes(OutputDecls(o, offset))
  {
    HolesSingle(OutputDecl(o));
    if o.dstOffset != offset {
      HolesSingle(HoleDecl(o, offset));
      HolesAppend([HoleDecl(o, offset)], [OutputDecl(o)]);
    } else {
      assert OutputDecls(o, offset) == [OutputDecl(o)];
    }
  }

  /** Number of one bits of a mask: the components a decl covers. */
  function Ones(m: nat): nat
  {
    if m == 0 then 0 else m % 2 + Ones(m / 2)
  }

  lemma {:induction false} OnesLowBits(n: nat)
    ensures Ones(LowBits(n)) == n
  {
    if n > 0 {
      OnesLowBits(n - 1);
      assert LowBits(n) == 2 * LowBits(n - 1) + 1;
    }
  }

  lemma {:induction false} OnesShifted(x: nat, s: nat)
    ensures Ones(Shl(x, s)) == Ones(x)
  {
    if s > 0 {
      OnesShifted(x, s - 1);
      var y := Shl(x, s - 1);
      if y > 0 {
        assert (2 * y) / 2 == y && (2 * y) % 2 == 0;
      }
    }
  }

  /** Components the decls of buffer b cover, holes included. */
  function Covered(d: seq<SoDecl>, b: nat): nat
  {
    if |d| == 0 then 0
    else Covered(d[..|d| - 1], b) + (if d[|d| - 1].bufferIndex == b then Ones(d[|d| - 1].componentMask) else 0)
  }

  lemma {:induction false} CoveredAppend(a: seq<SoDecl>, c: seq<SoDecl>, b: nat)
    ensures Covered(a + c, b) == Covered(a, b) + Covered(c, b)
  {
    if |c| > 0 {
      CoveredAppend(a, c[..|c| - 1], b);
      assert (a + c)[..|a + c| - 1] == a + c[..|c| - 1];
    } else {
      assert a + c == a;
    }
  }

  lemma CoveredSingle(d: SoDecl, b: nat)
    ensures Covered([d], b) == if d.bufferIndex == b then Ones(d.componentMask) else 0
  {
    assert [d][..0] == [];
  }

  /** An output's own decl covers its components, in its buffer. */
  lemma OutputDeclCovers(o: SoOutput, b: nat)
    ensures Covered([OutputDecl(o)], b) == if b == o.outputBuffer then o.numComponents else 0
  {
    OnesLowBits(o.numComponents);
    OnesShifted(LowBits(o.numComponents), o.startComponent);
    CoveredSingle(OutputDecl(o), b);
  }

  /** A hole decl covers the gap it fills, in its buffer. */
  lemma HoleDeclCovers(o: SoOutput, offset: nat, b: nat)
    requires offset <= o.dstOffset
    ensures Covered([HoleDecl(o, offset)], b) == if b == o.outputBuffer then o.dstOffset - offset else 0
  {
    OnesLowBits(o.dstOffset - offset);
    CoveredSingle(HoleDecl(o, offset), b);
  }

  /** One output's decls cover the gap before it plus its own components, all in its buffer. */
  lemma OutputDeclsCover(o: SoOutput, offset: nat, b: nat)
    requires ValidOutput(o) && offset <= o.dstOffset
    ensures Covered(OutputDecls(o, offset), b) == if b == o.outputBuffer then o.dstOffset + o.numComponents - offset else 0
  {
    OutputDeclCovers(o, b);
    if o.dstOffset != offset {
      HoleDeclCovers(o, offset, b);
      CoveredAppend([HoleDecl(o, offset)], [OutputDecl(o)], b);
    } else {
      assert OutputDecls(o, offset) == [OutputDecl(o)];
    }
  }

  /**
   * The decls of each buffer tile it without overlap: their masks cover,
   * in total, exactly the dwords up to where that buffer's last output
   * ends -- the offsets[] value the loop tracks.
   */
  lemma {:induction false} DeclsCoverOffsets(outputs: seq<SoOutput>, n: nat, b: nat)
    requires StreamOutputs(outputs) && n <= |outputs|
    ensures Covered(Decls(outputs, n), b) == OffsetAfter(outputs, n, b)
  {
    if n > 0 {
      DeclsCoverOffsets(outputs, n - 1, b);
      assert FollowsPrevious(outputs, n - 1);
      var o := outputs[n - 1];
      var offset := OffsetAfter(outputs, n - 1, o.outputBuffer);
      AddOutputAppends(Decls(outputs, n - 1), o, offset);
      CoveredAppend(Decls(outputs, n - 1), OutputDecls(o, offset), b);
      OutputDeclsCover(o, offset, b);
    }
  }

  /** The part of swr_vertex_element_state the fetch-shader cache uses. */
  class VertexElementState {
    var fsFunc: Option<nat>           // the compiled fetch shader, None while there is none
    var fsState: FetchCompileState

    constructor (fsState: FetchCompileState)
      ensures this.fsFunc == None && this.fsState == fsState
    {
      fsFunc := None;
      this.fsState := fsState;
    }

    /** The draw needs a fetch shader other than the cached one. */
    static predicate NeedsFetchShader(fsFunc: Option<nat>, fsState: FetchCompileState, restartIndex: nat, primitiveRestart: bool)
    {
      fsFunc.None? || fsState.cutIndex != restartIndex || fsState.bEnableCutIndex != primitiveRestart
    }

    /**
     * The fetch-shader check of swr_draw_vbo: recompile (the new shader is
     * `compiled`) iff there is no shader or the cut index or restart flag
     * differ; afterwards the cached state matches the draw, so a second
     * draw with the same values reuses the shader.
     */
    method UpdateFetchShader(restartIndex: nat, primitiveRestart: bool, compiled: nat) returns (recompiled: bool)
      modifies this
      ensures recompiled == NeedsFetchShader(old(fsFunc), old(fsState), restartIndex, primitiveRestart)
      ensures fsFunc == if recompiled then Some(compiled) else old(fsFunc)
      ensures fsState == old(fsState).(cutIndex := restartIndex, bEnableCutIndex := primitiveRestart)
      ensures !NeedsFetchShader(fsFunc, fsState, restartIndex, primitiveRestart)
    {
      recompiled := false;
      if fsFunc.None? || fsState.cutIndex != restartIndex || fsState.bEnableCutIndex != primitiveRestart {
        fsState := fsState.(cutIndex := restartIndex, bEnableCutIndex := primitiveRestart);
        fsFunc := Some(compiled);
        recompiled := true;
      }
    }
  }
}
