/**
 * SkRasterPipelineBlitter: a blitter that draws spans and masks by running raster
 * pipelines. Create builds the paint's shader pipeline once; each kind of blit then
 * compiles, on first use, a pipeline made of that shader, the destination load, the blend
 * mode and the store, and runs it with its context cells (the destination row, the mask
 * row, the constant coverage) rebound before every call.
 *
 * The pixel kernels, the shaders, colour filters and blend modes are outside this file:
 * what they append, and what a one-pixel run of a constant shader writes back, are
 * parameters. Each call of a compiled function is recorded, with the cells it reads, in
 * the blitter's `calls` log.
 */
module RasterPipelineBlitter {

  import opened Wrappers
  import opened RasterPipeline

  // ---------------------------------------------------------------------------
  // Destinations and paints

  datatype ColorType = UnknownType | Alpha8 | RGB565 | ARGB4444 | N32 | Index8 | Gray8 | RGBAF16

  /** The part of the destination's image info the blitter looks at. */
  datatype ImageInfo = ImageInfo(colorType: ColorType, gammaCloseToSRGB: bool)

  /** The destinations this blitter can load and store. */
  predicate Supported(info: ImageInfo) {
    match info.colorType
    case N32 => info.gammaCloseToSRGB
    case RGBAF16 => true
    case RGB565 => true
    case _ => false
  }

  datatype BlendMode =
    | Clear | Src | Dst | SrcOver | DstOver | SrcIn | DstIn | SrcOut | DstOut | SrcATop | DstATop
    | Xor | Plus | Modulate | Screen | Overlay | Darken | Lighten | ColorDodge | ColorBurn
    | HardLight | SoftLight | Difference | Exclusion | Multiply
    | Hue | Saturation | Color | Luminosity

  /**
   * The two blend-mode helpers the blitter calls: the stages a mode appends (None when the
   * mode has no pipeline stages), and whether the mode can push alpha above one.
   */
  datatype BlendModes = BlendModes(stages: BlendMode -> Option<seq<StockStage>>, canOverflow: BlendMode -> bool)

  /** A premultiplied float colour. */
  datatype PM4f = PM4f(r: real, g: real, b: real, a: real)

  /**
   * A shader as the blitter sees it: the stages its appendStages adds (None when it fails),
   * and its opacity and constancy.
   */
  datatype Shader = Shader(stages: Option<seq<Stage>>, isOpaque: bool, isConstant: bool)

  /**
   * A colour filter: the stages its appendStages adds given whether the shader output is
   * fully covering (None when it fails), and whether it leaves alpha unchanged.
   */
  datatype ColorFilter = ColorFilter(stages: bool -> Option<seq<Stage>>, alphaUnchanged: bool)

  datatype Paint = Paint(color: nat, blend: BlendMode, shader: Option<Shader>, colorFilter: Option<ColorFilter>)

  // ---------------------------------------------------------------------------
  // What Create builds

  /** The paint's stages before the blend: its colour, then the shader, then the filter. */
  datatype Front = Front(stages: seq<Stage>, isOpaque: bool, isConstant: bool)

  /** The state Create leaves: the shader pipeline, the paint colour and the blend mode. */
  datatype Setup = Setup(shader: seq<Stage>, paintColor: PM4f, blend: BlendMode)

  /** Stages with no context, as a blend mode appends them. */
  function Plain(ks: seq<StockStage>): (stages: seq<Stage>)
    ensures |stages| == |ks|
    ensures forall i :: 0 <= i < |ks| ==> stages[i] == Stage(ks[i], Null)
  {
    if ks == [] then [] else [Stage(ks[0], Null)] + Plain(ks[1..])
  }

  /** The constant colour, then the shader bracketed by swap_src_dst and srcin. */
  function ShadedFront(paintColor: PM4f, shader: Option<Shader>): Option<Front> {
    var base := [Stage(ConstantColor, PaintColor)];
    match shader
    case None => Some(Front(base, paintColor.a == 1.0, true))
    case Some(s) =>
      match s.stages
      case None => None
      case Some(ss) =>
        Some(Front(base + [Stage(SwapSrcDst, Null)] + ss + [Stage(StockStage.SrcIn, Null)],
                   paintColor.a == 1.0 && s.isOpaque, s.isConstant))
  }

  /** The colour filter's stages after the shader's, told whether the shaded colour is fully covering. */
  function FilteredFront(front: Front, filter: Option<ColorFilter>): Option<Front> {
    match filter
    case None => Some(front)
    case Some(f) =>
      match f.stages(front.isOpaque)
      case None => None
      case Some(fs) => Some(Front(front.stages + fs, front.isOpaque && f.alphaUnchanged, front.isConstant))
  }

  function PaintFront(paintColor: PM4f, paint: Paint): Option<Front> {
    match ShadedFront(paintColor, paint.shader)
    case None => None
    case Some(front) => FilteredFront(front, paint.colorFilter)
  }

  /** The stages run once over pixel (0, 0) to evaluate a constant paint. */
  function ConstantPass(front: Front): seq<Stage> {
    front.stages + [Stage(StoreF32, PaintColorPtr)]
  }

  /**
   * A constant paint is evaluated once and replaced by a single constant_color stage;
   * then SrcOver over a fully covering colour becomes Src.
   */
  function Finish(front: Front, paintColor: PM4f, blend: BlendMode, runOnce: seq<Stage> -> PM4f): Setup {
    var color := if front.isConstant then runOnce(ConstantPass(front)) else paintColor;
    var stages := if front.isConstant then [Stage(ConstantColor, PaintColor)] else front.stages;
    var isOpaque := if front.isConstant then color.a == 1.0 else front.isOpaque;
    Setup(stages, color, if isOpaque && blend == BlendMode.SrcOver then BlendMode.Src else blend)
  }

  /** The blitter Create returns, or None where it returns null. */
  function Plan(dst: ImageInfo, paint: Paint, modes: BlendModes, paintColor: PM4f,
                runOnce: seq<Stage> -> PM4f): Option<Setup>
  {
    if !Supported(dst) || modes.stages(paint.blend).None? then None
    else
      match PaintFront(paintColor, paint)
      case None => None
      case Some(front) => Some(Finish(front, paintColor, paint.blend, runOnce))
  }

  // ---------------------------------------------------------------------------
  // What Create promises

  /** Whether the paint leaves a constant colour: no shader, or a constant one. */
  predicate IsConstantPaint(paint: Paint) {
    paint.shader.None? || paint.shader.value.isConstant
  }

  /**
   * Create returns null exactly when the destination is unsupported, the blend mode has no
   * stages, the shader fails to append, or the colour filter fails to append when told
   * whether the paint colour and the shader are fully covering.
   */
  lemma PlanNull(dst: ImageInfo, paint: Paint, modes: BlendModes, paintColor: PM4f,
                 runOnce: seq<Stage> -> PM4f)
    ensures Plan(dst, paint, modes, paintColor, runOnce).None? <==>
      || !Supported(dst)
      || modes.stages(paint.blend).None?
      || (paint.shader.Some? && paint.shader.value.stages.None?)
      || (paint.colorFilter.Some? &&
          paint.colorFilter.value.stages(paintColor.a == 1.0 && (paint.shader.None? || paint.shader.value.isOpaque)).None?)
  {
  }

  /**
   * A constant paint ends as one constant_color stage reading the paint colour, which holds
   * what the pass of the paint's stages followed by store_f32 wrote; any other paint keeps
   * its stages, led by constant_color, and its colour.
   */
  lemma PlanConstant(dst: ImageInfo, paint: Paint, modes: BlendModes, paintColor: PM4f,
                     runOnce: seq<Stage> -> PM4f)
    requires Plan(dst, paint, modes, paintColor, runOnce).Some?
    ensures PaintFront(paintColor, paint).Some?
    ensures var s := Plan(dst, paint, modes, paintColor, runOnce).value;
            var front := PaintFront(paintColor, paint).value;
            if IsConstantPaint(paint) then
              && s.shader == [Stage(ConstantColor, PaintColor)]
              && s.paintColor == runOnce(front.stages + [Stage(StoreF32, PaintColorPtr)])
            else
              && s.shader == front.stages && s.paintColor == paintColor
              && |s.shader| > 0 && s.shader[0] == Stage(ConstantColor, PaintColor)
  {
  }

  /**
   * The blend mode changes only from SrcOver to Src, and does so exactly when the paint is
   * fully covering: for a constant paint, when the evaluated colour's alpha is one; otherwise
   * when the colour's alpha is one, the shader is fully covering and the filter keeps alpha.
   */
  lemma PlanBlend(dst: ImageInfo, paint: Paint, modes: BlendModes, paintColor: PM4f,
                  runOnce: seq<Stage> -> PM4f)
    requires Plan(dst, paint, modes, paintColor, runOnce).Some?
    ensures var s := Plan(dst, paint, modes, paintColor, runOnce).value;
            s.blend == paint.blend || (paint.blend == BlendMode.SrcOver && s.blend == BlendMode.Src)
    ensures var s := Plan(dst, paint, modes, paintColor, runOnce).value;
            paint.blend == BlendMode.SrcOver && IsConstantPaint(paint) ==>
              (s.blend == BlendMode.Src <==> s.paintColor.a == 1.0)
    ensures var s := Plan(dst, paint, modes, paintColor, runOnce).value;
            paint.blend == BlendMode.SrcOver && !IsConstantPaint(paint) ==>
              (s.blend == BlendMode.Src <==>
                 && paintColor.a == 1.0 && paint.shader.value.isOpaque
                 && (paint.colorFilter.None? || paint.colorFilter.value.alphaUnchanged))
  {
  }

  // ---------------------------------------------------------------------------
  // The blit pipelines

  function LoadD(dst: ImageInfo): (stages: seq<Stage>)
    ensures |stages| <= 1
  {
    match dst.colorType
    case N32 => if dst.gammaCloseToSRGB then [Stage(LoadDSrgb, DstPtrCell)] else []
    case RGBAF16 => [Stage(LoadDF16, DstPtrCell)]
    case RGB565 => [Stage(LoadD565, DstPtrCell)]
    case _ => []
  }

  function StoreD(dst: ImageInfo): (stages: seq<Stage>)
    ensures |stages| <= 1
  {
    match dst.colorType
    case N32 => if dst.gammaCloseToSRGB then [Stage(StoreSrgb, DstPtrCell)] else []
    case RGBAF16 => [Stage(StoreF16, DstPtrCell)]
    case RGB565 => [Stage(Store565, DstPtrCell)]
    case _ => []
  }

  function BlendStages(modes: BlendModes, blend: BlendMode): seq<Stage> {
    match modes.stages(blend)
    case None => []
    case Some(ks) => Plain(ks)
  }

  function MaybeClamp(modes: BlendModes, blend: BlendMode): (stages: seq<Stage>)
    ensures |stages| <= 1
  {
    if modes.canOverflow(blend) then [Stage(ClampA, Null)] else []
  }

  /** blitH: the shader, then (unless Src) load, blend and clamp, then the store. */
  function BlitHStages(shader: seq<Stage>, dst: ImageInfo, modes: BlendModes, blend: BlendMode): seq<Stage> {
    shader
    + (if blend != BlendMode.Src then LoadD(dst) + BlendStages(modes, blend) + MaybeClamp(modes, blend) else [])
    + StoreD(dst)
  }

  /** A coverage stage: scaling before the blend for SrcOver, lerping after it otherwise. */
  function CoveredStages(shader: seq<Stage>, dst: ImageInfo, modes: BlendModes, blend: BlendMode,
                   scale: Stage, lerp: Stage): seq<Stage> {
    shader
    + (if blend == BlendMode.SrcOver then [scale] + LoadD(dst) + BlendStages(modes, blend)
       else LoadD(dst) + BlendStages(modes, blend) + [lerp])
    + MaybeClamp(modes, blend)
    + StoreD(dst)
  }

  function AntiHStages(shader: seq<Stage>, dst: ImageInfo, modes: BlendModes, blend: BlendMode): seq<Stage> {
    CoveredStages(shader, dst, modes, blend, Stage(ScaleConstantFloat, CoverageCell), Stage(LerpConstantFloat, CoverageCell))
  }

  function MaskA8Stages(shader: seq<Stage>, dst: ImageInfo, modes: BlendModes, blend: BlendMode): seq<Stage> {
    CoveredStages(shader, dst, modes, blend, Stage(ScaleU8, MaskPtrCell), Stage(LerpU8, MaskPtrCell))
  }

  /** LCD16 masks always blend first and then lerp by the 565 coverage. */
  function MaskLCD16Stages(shader: seq<Stage>, dst: ImageInfo, modes: BlendModes, blend: BlendMode): seq<Stage> {
    shader + (LoadD(dst) + BlendStages(modes, blend) + [Stage(Lerp565, MaskPtrCell)])
    + MaybeClamp(modes, blend) + StoreD(dst)
  }

  /** blitH's pipeline is never longer than a coverage pipeline over the same shader, so room for one is room for both. */
  lemma BlitHNoLongerThanCovered(shader: seq<Stage>, dst: ImageInfo, modes: BlendModes, blend: BlendMode,
                                 scale: Stage, lerp: Stage)
    ensures |BlitHStages(shader, dst, modes, blend)| <= |CoveredStages(shader, dst, modes, blend, scale, lerp)|
  {
  }

  // ---------------------------------------------------------------------------
  // Shapes of the blit pipelines

  /** Exactly the supported destinations have a load stage and a store stage, both on the destination row. */
  lemma SupportedLoadStore(dst: ImageInfo)
    ensures Supported(dst) <==> |LoadD(dst)| == 1 && |StoreD(dst)| == 1
    ensures Supported(dst) ==>
      && !IsStore(LoadD(dst)[0].stage) && IsStore(StoreD(dst)[0].stage)
      && LoadD(dst)[0].ctx == DstPtrCell && StoreD(dst)[0].ctx == DstPtrCell
  {
  }

  /** Joining store-free stage lists gives a store-free list. */
  lemma NoStoresConcat(a: seq<Stage>, b: seq<Stage>)
    requires NoStores(a) && NoStores(b)
    ensures NoStores(a + b)
  {
    forall i | 0 <= i < |a + b| ensures !IsStore((a + b)[i].stage) {
      if i >= |a| {
        assert (a + b)[i] == b[i - |a|];
      }
    }
  }

  /** Store-free parts p, m and c, then one store: the pipeline stores once, last, and starts with p. */
  lemma {:induction false} StoresOnceParts(p: seq<Stage>, m: seq<Stage>, c: seq<Stage>, d: seq<Stage>)
    requires NoStores(p) && NoStores(m) && NoStores(c) && |d| == 1 && IsStore(d[0].stage)
    ensures var s := p + m + c + d;
      CountStores(s) == 1 && s[|s| - 1] == d[0] && s[..|p|] == p
  {
    CountStoresConcat(p + m + c, d);
    CountStoresConcat(p + m, c);
    CountStoresConcat(p, m);
    NoStoresCount(p);
    NoStoresCount(m);
    NoStoresCount(c);
    assert d == [d[0]];
    CountStoresSingle(d[0]);
    ConcatAssoc(p, m, c);
    ConcatAssoc(p, m + c, d);
    assert (p + (m + c + d))[..|p|] == p;
  }

  /** The clamp stage, when there is one, does not store. */
  lemma MaybeClampNoStores(modes: BlendModes, blend: BlendMode)
    ensures NoStores(MaybeClamp(modes, blend))
  {
  }

  /**
   * blitH's pipeline is the shader followed, unless the mode is Src, by the destination load,
   * the blend and the clamp, and it writes exactly once, as its last stage, to the destination.
   */
  lemma {:induction false} BlitHShape(shader: seq<Stage>, dst: ImageInfo, modes: BlendModes, blend: BlendMode)
    requires Supported(dst) && NoStores(shader) && NoStores(BlendStages(modes, blend))
    ensures var s := BlitHStages(shader, dst, modes, blend);
      && CountStores(s) == 1 && s[|s| - 1] == StoreD(dst)[0]
      && s[..|shader|] == shader
      && (blend == BlendMode.Src ==> s == shader + StoreD(dst))
      && (blend != BlendMode.Src ==> s[|shader|] == LoadD(dst)[0])
  {
    SupportedLoadStore(dst);
    var b := BlendStages(modes, blend);
    var mid := if blend != BlendMode.Src then LoadD(dst) + b + MaybeClamp(modes, blend) else [];
    MaybeClampNoStores(modes, blend);
    NoStoresConcat(LoadD(dst), b);
    NoStoresConcat(LoadD(dst) + b, MaybeClamp(modes, blend));
    StoresOnceParts(shader, mid, [], StoreD(dst));
    assert shader + mid + [] == shader + mid;
    if blend != BlendMode.Src {
      ConcatAssoc(shader, mid, StoreD(dst));
      assert (shader + (mid + StoreD(dst)))[|shader|] == mid[0];
    }
  }

  /** The middle part of a three-part concatenation. */
  lemma SliceMiddle<T>(p: seq<T>, a: seq<T>, q: seq<T>)
    ensures (p + a + q)[..|p|] == p && (p + a + q)[|p|..|p| + |a|] == a
  {
  }

  /** The coverage pipelines store exactly once, as their last stage, and start with the shader. */
  lemma {:induction false} CoveredStoresOnce(shader: seq<Stage>, dst: ImageInfo, modes: BlendModes, blend: BlendMode,
                                             scale: Stage, lerp: Stage)
    requires Supported(dst) && NoStores(shader) && NoStores(BlendStages(modes, blend))
    requires !IsStore(scale.stage) && !IsStore(lerp.stage)
    ensures var s := CoveredStages(shader, dst, modes, blend, scale, lerp);
      CountStores(s) == 1 && s[|s| - 1] == StoreD(dst)[0] && s[..|shader|] == shader
  {
    SupportedLoadStore(dst);
    MaybeClampNoStores(modes, blend);
    CoveredPartsStoreOnce(shader, LoadD(dst), BlendStages(modes, blend), MaybeClamp(modes, blend), StoreD(dst),
                          scale, lerp, blend == BlendMode.SrcOver);
  }

  /** The coverage pipeline's parts, with the scale first or the lerp after the blend: one store, last. */
  lemma {:induction false} CoveredPartsStoreOnce(p: seq<Stage>, load: seq<Stage>, b: seq<Stage>, c: seq<Stage>,
                                                 d: seq<Stage>, scale: Stage, lerp: Stage, scaleFirst: bool)
    requires NoStores(p) && NoStores(load) && NoStores(b) && NoStores(c) && |d| == 1 && IsStore(d[0].stage)
    requires !IsStore(scale.stage) && !IsStore(lerp.stage)
    ensures var s := p + (if scaleFirst then [scale] + load + b else load + b + [lerp]) + c + d;
      CountStores(s) == 1 && s[|s| - 1] == d[0] && s[..|p|] == p
  {
    assert NoStores([scale]) && NoStores([lerp]);
    if scaleFirst {
      NoStoresConcat([scale], load);
      NoStoresConcat([scale] + load, b);
    } else {
      NoStoresConcat(load, b);
      NoStoresConcat(load + b, [lerp]);
    }
    StoresOnceParts(p, if scaleFirst then [scale] + load + b else load + b + [lerp], c, d);
  }

  /**
   * The order of coverage and blend: for SrcOver the coverage scales the source right
   * after the shader, before the load and the blend; for every other mode the load and the
   * blend come first and the coverage lerps right after them.
   */
  lemma CoveredOrder(shader: seq<Stage>, dst: ImageInfo, modes: BlendModes, blend: BlendMode,
                     scale: Stage, lerp: Stage)
    requires Supported(dst)
    ensures var s := CoveredStages(shader, dst, modes, blend, scale, lerp);
      var n := |shader|;
      var k := |BlendStages(modes, blend)|;
      && (blend == BlendMode.SrcOver ==>
            s[n] == scale && s[n + 1] == LoadD(dst)[0] && s[n + 2..n + 2 + k] == BlendStages(modes, blend))
      && (blend != BlendMode.SrcOver ==>
            s[n] == LoadD(dst)[0] && s[n + 1..n + 1 + k] == BlendStages(modes, blend) && s[n + 1 + k] == lerp)
  {
    SupportedLoadStore(dst);
    if blend == BlendMode.SrcOver {
      ScaleFirst(shader, scale, LoadD(dst), BlendStages(modes, blend), MaybeClamp(modes, blend), StoreD(dst));
    } else {
      LerpAfterMiddle(shader, LoadD(dst), BlendStages(modes, blend), lerp, MaybeClamp(modes, blend), StoreD(dst));
    }
  }

  /** In p + ([x] + l + b) + c + d with one stage in l: x at |p|, l's stage next, then b. */
  lemma {:induction false} ScaleFirst<T>(p: seq<T>, x: T, l: seq<T>, b: seq<T>, c: seq<T>, d: seq<T>)
    requires |l| == 1
    ensures var s := p + ([x] + l + b) + c + d;
      var n := |p|;
      s[n] == x && s[n + 1] == l[0] && s[n + 2..n + 2 + |b|] == b
  {
    var head := p + ([x] + l);
    ConcatAssoc(p, [x] + l, b);
    ConcatAssoc(head + b, c, d);
    SliceMiddle(head, b, c + d);
  }

  /** In p + l + b + [y] + q with one stage in l: l's stage at |p|, then b, then y. */
  lemma {:induction false} LerpAfter<T>(p: seq<T>, l: seq<T>, b: seq<T>, y: T, q: seq<T>)
    requires |l| == 1
    ensures var s := p + l + b + [y] + q;
      var n := |p|;
      s[n] == l[0] && s[n + 1..n + 1 + |b|] == b && s[n + 1 + |b|] == y
  {
    var head := p + l;
    ConcatAssoc(head + b, [y], q);
    SliceMiddle(head, b, [y] + q);
  }

  /** The same order when the load, the blend and the lerp are grouped: p + (l + b + [y]) + c + d. */
  lemma {:induction false} LerpAfterMiddle<T>(p: seq<T>, l: seq<T>, b: seq<T>, y: T, c: seq<T>, d: seq<T>)
    requires |l| == 1
    ensures var s := p + (l + b + [y]) + c + d;
      var n := |p|;
      s[n] == l[0] && s[n + 1..n + 1 + |b|] == b && s[n + 1 + |b|] == y
  {
    ConcatAssoc(p, l + b, [y]);
    ConcatAssoc(p, l, b);
    ConcatAssoc(p + l + b + [y], c, d);
    LerpAfter(p, l, b, y, c + d);
  }

  /** LCD16 masks: whatever the mode, load and blend first, then the 565 coverage lerp, then one store at the end. */
  lemma MaskLCD16Shape(shader: seq<Stage>, dst: ImageInfo, modes: BlendModes, blend: BlendMode)
    requires Supported(dst) && NoStores(shader) && NoStores(BlendStages(modes, blend))
    ensures var s := MaskLCD16Stages(shader, dst, modes, blend);
      var n := |shader|;
      var k := |BlendStages(modes, blend)|;
      && CountStores(s) == 1 && s[|s| - 1] == StoreD(dst)[0]
      && s[..n] == shader && s[n] == LoadD(dst)[0] && s[n + 1..n + 1 + k] == BlendStages(modes, blend)
      && s[n + 1 + k] == Stage(Lerp565, MaskPtrCell)
  {
    SupportedLoadStore(dst);
    MaskLCD16StoresOnce(shader, dst, modes, blend);
    LerpAfterMiddle(shader, LoadD(dst), BlendStages(modes, blend), Stage(Lerp565, MaskPtrCell), MaybeClamp(modes, blend), StoreD(dst));
  }

  /** The LCD16 pipeline stores once, as its last stage, and starts with the shader. */
  lemma {:induction false} MaskLCD16StoresOnce(shader: seq<Stage>, dst: ImageInfo, modes: BlendModes, blend: BlendMode)
    requires Supported(dst) && NoStores(shader) && NoStores(BlendStages(modes, blend))
    ensures var s := MaskLCD16Stages(shader, dst, modes, blend);
      CountStores(s) == 1 && s[|s| - 1] == StoreD(dst)[0] && s[..|shader|] == shader
  {
    SupportedLoadStore(dst);
    var b := BlendStages(modes, blend);
    var lerp := Stage(Lerp565, MaskPtrCell);
    MaybeClampNoStores(modes, blend);
    CoveredPartsStoreOnce(shader, LoadD(dst), b, MaybeClamp(modes, blend), StoreD(dst), lerp, lerp, false);
  }

  // ---------------------------------------------------------------------------
  // Calls of the compiled functions

  /** What a context cell holds: a destination row or a mask row, each indexed by absolute x. */
  datatype Ptr = NullPtr | DstRow(y: int) | MaskRow(y: int)

  /** The cells a compiled function reads when it is called. */
  datatype Binding = DstOnly(dst: Ptr) | WithCoverage(dst: Ptr, coverage: real) | WithMask(dst: Ptr, mask: Ptr)

  datatype MaskFormat = BW | A8 | ThreeD | ARGB32 | LCD16

  datatype Rect = Rect(left: int, top: int, right: int, bottom: int)

  /** Which of the four lazily compiled functions a call goes to. */
  datatype BlitFn = BlitHFn | BlitAntiHFn | BlitMaskA8Fn | BlitMaskLCD16Fn

  /** A call of a compiled function over [x, x+w) on row y, or a mask handed to the base blitter. */
  datatype Draw =
    | Draw(fn: BlitFn, x: int, y: int, w: int, cells: Binding)
    | BaseBlitMask(format: MaskFormat, clip: Rect)

  type Alpha = a: int | 0 <= a < 256
  type Run16 = r: int | -0x8000 <= r < 0x8000

  /** Partial coverage as the constant-coverage cell holds it. */
  function Coverage(a: Alpha): real {
    (a as real) * (1.0 / 255.0)
  }

  /** From index i, the runs are terminated: following run lengths stays inside both arrays and ends at a run <= 0. */
  predicate Runs(runs: seq<Run16>, aa: seq<Alpha>, i: nat)
    decreases |runs| - i
  {
    i < |runs| && i < |aa| && (runs[i] > 0 ==> Runs(runs, aa, i + runs[i]))
  }

  /** The call one run of blitAntiH makes: none at zero coverage, a span at full coverage, a lerp otherwise. */
  function RunDraws(alpha: Alpha, x: int, y: int, run: int): seq<Draw> {
    if alpha == 0 then []
    else if alpha == 255 then [Draw(BlitHFn, x, y, run, DstOnly(DstRow(y)))]
    else [Draw(BlitAntiHFn, x, y, run, WithCoverage(DstRow(y), Coverage(alpha)))]
  }

  /** The calls blitAntiH makes from index i onwards, starting at x. */
  function AntiHDraws(runs: seq<Run16>, aa: seq<Alpha>, i: nat, x: int, y: int): seq<Draw>
    requires Runs(runs, aa, i)
    decreases |runs| - i
  {
    var run := runs[i];
    if run <= 0 then []
    else RunDraws(aa[i], x, y, run) + AntiHDraws(runs, aa, i + run, x + run, y)
  }

  /** The coverage cell after the walk from i: the last partial coverage met, or cov if none. */
  function FinalCoverage(runs: seq<Run16>, aa: seq<Alpha>, i: nat, cov: real): real
    requires Runs(runs, aa, i)
    decreases |runs| - i
  {
    var run := runs[i];
    if run <= 0 then cov
    else FinalCoverage(runs, aa, i + run, if aa[i] == 0 || aa[i] == 255 then cov else Coverage(aa[i]))
  }

  /**
   * The walk's invariant at index i and column cx: the calls made so far plus those of the
   * rest of the walk are the calls of the whole walk, and likewise the coverage it ends with.
   */
  ghost predicate Walked(runs: seq<Run16>, aa: seq<Alpha>, i: nat, x: int, cx: int, y: int,
                         calls: seq<Draw>, calls0: seq<Draw>, cov: real, cov0: real)
  {
    && Runs(runs, aa, 0) && Runs(runs, aa, i)
    && calls + AntiHDraws(runs, aa, i, cx, y) == calls0 + AntiHDraws(runs, aa, 0, x, y)
    && FinalCoverage(runs, aa, i, cov) == FinalCoverage(runs, aa, 0, cov0)
  }

  /** The walk starts with nothing called and the coverage cell as it was. */
  lemma WalkStart(runs: seq<Run16>, aa: seq<Alpha>, x: int, y: int, calls0: seq<Draw>, cov0: real)
    requires Runs(runs, aa, 0)
    ensures Walked(runs, aa, 0, x, x, y, calls0, calls0, cov0, cov0)
  {
  }

  /** One step of blitAntiH's walk, from run i at cx to run j at dx, keeps the invariant. */
  lemma WalkStep(runs: seq<Run16>, aa: seq<Alpha>, i: nat, j: nat, x: int, cx: int, dx: int, y: int,
                 calls: seq<Draw>, calls': seq<Draw>, calls0: seq<Draw>, cov: real, cov': real, cov0: real)
    requires Walked(runs, aa, i, x, cx, y, calls, calls0, cov, cov0) && runs[i] > 0
    requires j == i + runs[i] && dx == cx + runs[i]
    requires calls' == calls + RunDraws(aa[i], cx, y, runs[i])
    requires cov' == if aa[i] == 0 || aa[i] == 255 then cov else Coverage(aa[i])
    ensures Walked(runs, aa, j, x, dx, y, calls', calls0, cov', cov0)
  {
    ConcatAssoc(calls, RunDraws(aa[i], cx, y, runs[i]), AntiHDraws(runs, aa, i + runs[i], cx + runs[i], y));
  }

  /** At a run <= 0 the walk is over: the calls and the coverage are those of the whole walk. */
  lemma WalkDone(runs: seq<Run16>, aa: seq<Alpha>, i: nat, x: int, cx: int, y: int,
                 calls: seq<Draw>, calls0: seq<Draw>, cov: real, cov0: real)
    requires Walked(runs, aa, i, x, cx, y, calls, calls0, cov, cov0) && runs[i] <= 0
    ensures calls == calls0 + AntiHDraws(runs, aa, 0, x, y)
    ensures cov == FinalCoverage(runs, aa, 0, cov0)
  {
  }

  /** The call blitMask makes for row y: the mask function of an A8 or LCD16 mask, nothing for other formats. */
  function MaskRowDraw(format: MaskFormat, x: int, y: int, w: int): seq<Draw> {
    match format
    case A8 => [Draw(BlitMaskA8Fn, x, y, w, WithMask(DstRow(y), MaskRow(y)))]
    case LCD16 => [Draw(BlitMaskLCD16Fn, x, y, w, WithMask(DstRow(y), MaskRow(y)))]
    case _ => []
  }

  /** The calls blitMask makes for the rows [top, end), in order. */
  function MaskRowDraws(format: MaskFormat, x: int, top: int, end: int, w: int): seq<Draw>
    decreases end - top
  {
    if end <= top then []
    else MaskRowDraws(format, x, top, end - 1, w) + MaskRowDraw(format, x, end - 1, w)
  }

  /** The calls blitMask makes: BW masks go to the base blitter, the others row by row over the clip. */
  function MaskDraws(format: MaskFormat, clip: Rect): seq<Draw> {
    if format == BW then [BaseBlitMask(BW, clip)]
    else MaskRowDraws(format, clip.left, clip.top, clip.bottom, clip.right - clip.left)
  }

  /** Partial coverage lies strictly between none and full. */
  lemma CoverageBetween(a: Alpha)
    requires 0 < a < 255
    ensures 0.0 < Coverage(a) < 1.0
  {
  }

  /**
   * A call blitAntiH may make on row y at or right of x: a non-empty span, either to the
   * span function with the destination row only, or to the coverage function with the
   * destination row and a coverage strictly between none and full.
   */
  predicate AntiHCall(d: Draw, x: int, y: int) {
    && d.Draw? && d.y == y && d.w > 0 && x <= d.x
    && ((d.fn == BlitHFn && d.cells == DstOnly(DstRow(y)))
        || (d.fn == BlitAntiHFn && d.cells.WithCoverage? && d.cells.dst == DstRow(y)
            && 0.0 < d.cells.coverage < 1.0))
  }

  /** Spans that follow each other left to right without overlapping. */
  predicate LeftToRight(ds: seq<Draw>) {
    forall j, k :: 0 <= j < k < |ds| ==> ds[j].Draw? && ds[k].Draw? && ds[j].x + ds[j].w <= ds[k].x
  }

  /** blitAntiH's calls from index i, starting at x: all of that kind, from left to right. */
  lemma {:induction false} AntiHDrawsShape(runs: seq<Run16>, aa: seq<Alpha>, i: nat, x: int, y: int)
    requires Runs(runs, aa, i)
    ensures forall k :: 0 <= k < |AntiHDraws(runs, aa, i, x, y)| ==> AntiHCall(AntiHDraws(runs, aa, i, x, y)[k], x, y)
    ensures LeftToRight(AntiHDraws(runs, aa, i, x, y))
    decreases |runs| - i
  {
    var run := runs[i];
    if run > 0 {
      AntiHDrawsShape(runs, aa, i + run, x + run, y);
      var head := RunDraws(aa[i], x, y, run);
      var rest := AntiHDraws(runs, aa, i + run, x + run, y);
      if 0 < aa[i] < 255 {
        CoverageBetween(aa[i]);
      }
      var ds := head + rest;
      assert AntiHDraws(runs, aa, i, x, y) == ds;
      forall k | 0 <= k < |ds|
        ensures AntiHCall(ds[k], x, y)
      {
        if k >= |head| {
          assert ds[k] == rest[k - |head|];
          assert AntiHCall(rest[k - |head|], x + run, y);
        }
      }
      forall j, k | 0 <= j < k < |ds|
        ensures ds[j].Draw? && ds[k].Draw? && ds[j].x + ds[j].w <= ds[k].x
      {
        assert ds[k] == rest[k - |head|];
        if j >= |head| {
          assert ds[j] == rest[j - |head|];
        } else {
          assert AntiHCall(rest[k - |head|], x + run, y);
        }
      }
    }
  }

  /**
   * For A8 and LCD16 masks, blitMask's calls over rows [top, end): one per row, in order
   * from top, each over [x, x+w) with the destination and mask rows of its own row; other
   * non-BW formats make no calls.
   */
  lemma {:induction false} MaskRowDrawsShape(format: MaskFormat, x: int, top: int, end: int, w: int)
    ensures var ds := MaskRowDraws(format, x, top, end, w);
      && (format == A8 || format == LCD16 ==>
            && |ds| == (if end <= top then 0 else end - top)
            && forall k :: 0 <= k < |ds| ==>
                 ds[k] == Draw(if format == A8 then BlitMaskA8Fn else BlitMaskLCD16Fn,
                               x, top + k, w, WithMask(DstRow(top + k), MaskRow(top + k))))
      && (format != A8 && format != LCD16 ==> ds == [])
    decreases end - top
  {
    if top < end {
      MaskRowDrawsShape(format, x, top, end - 1, w);
    }
  }

  // ---------------------------------------------------------------------------
  // Building pipelines

  /** Appends each of stages in turn, as a shader, colour filter or blend mode does. */
  method AppendAll(p: Pipeline, stages: seq<Stage>)
    requires p.Valid() && p.fNum + |stages| <= MaxStages
    modifies p, p.fStages
    ensures p.Valid()
    ensures p.Stages() == old(p.Stages()) + stages
  {
    var i := 0;
    while i < |stages|
      invariant i <= |stages| && p.Valid()
      invariant p.Stages() == old(p.Stages()) + stages[..i]
    {
      assert stages[..i + 1] == stages[..i] + [stages[i]];
      p.Append(stages[i].stage, stages[i].ctx);
      i := i + 1;
    }
  }

  /**
   * Create's appends fit: the shaded prefix, the whole front, and for a constant paint the
   * store_f32 of the one-pixel pass after it.
   */
  predicate Fits(paintColor: PM4f, paint: Paint) {
    && (ShadedFront(paintColor, paint.shader).Some? ==> |ShadedFront(paintColor, paint.shader).value.stages| <= MaxStages)
    && (PaintFront(paintColor, paint).Some? ==>
          |PaintFront(paintColor, paint).value.stages| + (if PaintFront(paintColor, paint).value.isConstant then 1 else 0)
          <= MaxStages)
  }

  /** Has a cached function been compiled n times, holding the compilation of stages when present. */
  predicate Cached(c: Option<Compiled>, stages: seq<Stage>, n: nat) {
    (c.None? && n == 0) || (c == Some(Compiled(stages)) && n == 1)
  }

  /** How many times each lazily compiled function has been compiled. */
  datatype Compiles = Compiles(h: nat, antiH: nat, maskA8: nat, maskLCD16: nat)

  // ---------------------------------------------------------------------------
  // The blitter

  class Blitter {
    const fDst: ImageInfo
    const fModes: BlendModes
    var fBlend: BlendMode
    var fPaintColor: PM4f
    const fShader: Pipeline

    var fBlitH: Option<Compiled>
    var fBlitAntiH: Option<Compiled>
    var fBlitMaskA8: Option<Compiled>
    var fBlitMaskLCD16: Option<Compiled>
    ghost var fCompiles: Compiles

    var fDstPtr: Ptr
    var fMaskPtr: Ptr
    var fConstantCoverage: real

    /** Every call of a compiled function (or of the base mask blit), in order. */
    var calls: seq<Draw>

    ghost function State(): Setup
      reads this`fPaintColor, this`fBlend, fShader, fShader.fStages
      requires fShader.Valid()
    {
      Setup(fShader.Stages(), fPaintColor, fBlend)
    }

    ghost function HFn(): Compiled
      reads this`fBlend, fShader, fShader.fStages
      requires fShader.Valid()
    {
      Compiled(BlitHStages(fShader.Stages(), fDst, fModes, fBlend))
    }

    ghost function AntiHFn(): Compiled
      reads this`fBlend, fShader, fShader.fStages
      requires fShader.Valid()
    {
      Compiled(AntiHStages(fShader.Stages(), fDst, fModes, fBlend))
    }

    ghost function MaskA8Fn(): Compiled
      reads this`fBlend, fShader, fShader.fStages
      requires fShader.Valid()
    {
      Compiled(MaskA8Stages(fShader.Stages(), fDst, fModes, fBlend))
    }

    ghost function MaskLCD16Fn(): Compiled
      reads this`fBlend, fShader, fShader.fStages
      requires fShader.Valid()
    {
      Compiled(MaskLCD16Stages(fShader.Stages(), fDst, fModes, fBlend))
    }

    /**
     * The destination can be loaded and stored, the blend mode has stages, and each cached
     * function was compiled at most once, from the pipeline of its kind.
     */
    ghost predicate Valid()
      reads this`fBlend, this`fBlitH, this`fBlitAntiH, this`fBlitMaskA8, this`fBlitMaskLCD16, this`fCompiles, fShader, fShader.fStages
    {
      && fShader.Valid()
      && Supported(fDst) && fModes.stages(fBlend).Some?
      && Cached(fBlitH, HFn().stages, fCompiles.h)
      && Cached(fBlitAntiH, AntiHFn().stages, fCompiles.antiH)
      && Cached(fBlitMaskA8, MaskA8Fn().stages, fCompiles.maskA8)
      && Cached(fBlitMaskLCD16, MaskLCD16Fn().stages, fCompiles.maskLCD16)
    }

    /** blitH's pipeline fits the stage limit. */
    ghost predicate BlitHFits()
      reads this`fBlend, fShader, fShader.fStages
      requires fShader.Valid()
    {
      |HFn().stages| <= MaxStages
    }

    /** The coverage pipelines (blitAntiH's, and the A8 and LCD16 masks', all of one length) fit the stage limit. */
    ghost predicate CoveredFits()
      reads this`fBlend, fShader, fShader.fStages
      requires fShader.Valid()
    {
      |AntiHFn().stages| <= MaxStages
    }

    constructor (dst: ImageInfo, blend: BlendMode, paintColor: PM4f, modes: BlendModes)
      ensures fDst == dst && fBlend == blend && fPaintColor == paintColor && fModes == modes
      ensures fShader.Valid() && fresh(fShader) && fresh(fShader.fStages) && fShader.Stages() == []
      ensures fBlitH.None? && fBlitAntiH.None? && fBlitMaskA8.None? && fBlitMaskLCD16.None?
      ensures fCompiles == Compiles(0, 0, 0, 0)
      ensures fDstPtr == NullPtr && fMaskPtr == NullPtr && fConstantCoverage == 0.0 && calls == []
    {
      fDst, fBlend, fPaintColor, fModes := dst, blend, paintColor, modes;
      fShader := new Pipeline();
      fBlitH, fBlitAntiH, fBlitMaskA8, fBlitMaskLCD16 := None, None, None, None;
      fCompiles := Compiles(0, 0, 0, 0);
      fDstPtr, fMaskPtr, fConstantCoverage := NullPtr, NullPtr, 0.0;
      calls := [];
    }

    /**
     * Builds the blitter for a paint, or null when the destination is unsupported, the
     * blend mode has no stages, or the shader or colour filter cannot append its stages.
     * toPM4f converts the paint colour into the destination's colour space; runOnce gives
     * what the constant-paint pass writes through the paint-colour pointer over pixel (0, 0).
     * Src, which SrcOver may become, is a mode with stages.
     */
    static method Create(dst: ImageInfo, paint: Paint, modes: BlendModes, toPM4f: nat -> PM4f,
                         runOnce: seq<Stage> -> PM4f) returns (b: Blitter?)
      requires modes.stages(BlendMode.Src).Some?
      requires Supported(dst) && modes.stages(paint.blend).Some? ==> Fits(toPM4f(paint.color), paint)
      ensures b == null <==> Plan(dst, paint, modes, toPM4f(paint.color), runOnce).None?
      ensures b != null ==>
        && fresh(b) && fresh(b.fShader) && fresh(b.fShader.fStages) && b.Valid()
        && b.State() == Plan(dst, paint, modes, toPM4f(paint.color), runOnce).value
        && b.fDst == dst && b.fModes == modes && b.calls == []
    {
      var blitter := new Blitter(dst, paint.blend, toPM4f(paint.color), modes);
      if !Supported(dst) || modes.stages(blitter.fBlend).None? {
        return null;
      }
      var front := blitter.AppendPaint(paint);
      if front.None? {
        return null;
      }
      blitter.FinishSetup(front.value, runOnce);
      b := blitter;
    }

    /** Create's last steps: the constant paint pass, then SrcOver becomes Src over a fully covering colour. */
    method FinishSetup(front: Front, runOnce: seq<Stage> -> PM4f)
      requires fShader.Valid() && fShader.Stages() == front.stages && (front.isConstant ==> fShader.fNum < MaxStages)
      modifies this`fPaintColor, this`fBlend, fShader, fShader.fStages
      ensures fShader.Valid()
      ensures State() == Finish(front, old(fPaintColor), old(fBlend), runOnce)
    {
      var isOpaque := front.isOpaque;
      if front.isConstant {
        var color := EvaluateConstant(runOnce);
        fPaintColor := color;
        isOpaque := color.a == 1.0;
      }
      if isOpaque && fBlend == BlendMode.SrcOver {
        fBlend := BlendMode.Src;
      }
    }

    /**
     * A constant paint is run once over pixel (0, 0) with store_f32 into the paint colour;
     * the pipeline then restarts as a single constant_color stage reading that colour.
     */
    method EvaluateConstant(runOnce: seq<Stage> -> PM4f) returns (color: PM4f)
      requires fShader.Valid() && fShader.fNum < MaxStages
      modifies fShader, fShader.fStages
      ensures fShader.Valid()
      ensures color == runOnce(old(fShader.Stages()) + [Stage(StoreF32, PaintColorPtr)])
      ensures fShader.Stages() == [Stage(ConstantColor, PaintColor)]
    {
      fShader.Append(StoreF32, PaintColorPtr);
      var c := fShader.Compile();
      color := runOnce(c.stages);
      fShader.Reset();
      fShader.Append(ConstantColor, PaintColor);
    }

    /** The paint colour, the shader and the colour filter, appended to the empty shader pipeline. */
    method AppendPaint(paint: Paint) returns (front: Option<Front>)
      requires fShader.Valid() && fShader.Stages() == [] && Fits(fPaintColor, paint)
      modifies fShader, fShader.fStages
      ensures fShader.Valid()
      ensures front == PaintFront(fPaintColor, paint)
      ensures front.Some? ==> fShader.Stages() == front.value.stages
    {
      var shaded := AppendShader(paint.shader);
      if shaded.None? {
        return None;
      }
      front := shaded;
      if paint.colorFilter.Some? {
        var filter := paint.colorFilter.value;
        var fs := filter.stages(shaded.value.isOpaque);
        if fs.None? {
          return None;
        }
        AppendAll(fShader, fs.value);
        front := Some(Front(shaded.value.stages + fs.value, shaded.value.isOpaque && filter.alphaUnchanged,
                            shaded.value.isConstant));
      }
    }

    /** The constant colour, then the shader between swap_src_dst and srcin. */
    method AppendShader(shader: Option<Shader>) returns (front: Option<Front>)
      requires fShader.Valid() && fShader.Stages() == []
      requires ShadedFront(fPaintColor, shader).Some? ==> |ShadedFront(fPaintColor, shader).value.stages| <= MaxStages
      modifies fShader, fShader.fStages
      ensures fShader.Valid()
      ensures front == ShadedFront(fPaintColor, shader)
      ensures front.Some? ==> fShader.Stages() == front.value.stages
    {
      fShader.Append(ConstantColor, PaintColor);
      if shader.None? {
        return Some(Front([Stage(ConstantColor, PaintColor)], fPaintColor.a == 1.0, true));
      }
      var s := shader.value;
      if s.stages.None? {
        return None;
      }
      fShader.Append(SwapSrcDst, Null);
      AppendAll(fShader, s.stages.value);
      fShader.Append(StockStage.SrcIn, Null);
      front := Some(Front([Stage(ConstantColor, PaintColor)] + [Stage(SwapSrcDst, Null)] + s.stages.value
                          + [Stage(StockStage.SrcIn, Null)], fPaintColor.a == 1.0 && s.isOpaque, s.isConstant));
    }

    method AppendLoadD(p: Pipeline)
      requires p.Valid() && p.fNum + |LoadD(fDst)| <= MaxStages
      modifies p, p.fStages
      ensures p.Valid()
      ensures p.Stages() == old(p.Stages()) + LoadD(fDst)
    {
      match fDst.colorType
      case N32 =>
        if fDst.gammaCloseToSRGB {
          p.Append(LoadDSrgb, DstPtrCell);
        }
      case RGBAF16 => p.Append(LoadDF16, DstPtrCell);
      case RGB565 => p.Append(LoadD565, DstPtrCell);
      case _ =>
    }

    method AppendStore(p: Pipeline)
      requires p.Valid() && p.fNum + |StoreD(fDst)| <= MaxStages
      modifies p, p.fStages
      ensures p.Valid()
      ensures p.Stages() == old(p.Stages()) + StoreD(fDst)
    {
      match fDst.colorType
      case N32 =>
        if fDst.gammaCloseToSRGB {
          p.Append(StoreSrgb, DstPtrCell);
        }
      case RGBAF16 => p.Append(StoreF16, DstPtrCell);
      case RGB565 => p.Append(Store565, DstPtrCell);
      case _ =>
    }

    method AppendBlend(p: Pipeline)
      requires p.Valid() && p.fNum + |BlendStages(fModes, fBlend)| <= MaxStages
      modifies p, p.fStages
      ensures p.Valid()
      ensures p.Stages() == old(p.Stages()) + BlendStages(fModes, fBlend)
    {
      AppendAll(p, BlendStages(fModes, fBlend));
    }

    method AppendMaybeClamp(p: Pipeline)
      requires p.Valid() && p.fNum + |MaybeClamp(fModes, fBlend)| <= MaxStages
      modifies p, p.fStages
      ensures p.Valid()
      ensures p.Stages() == old(p.Stages()) + MaybeClamp(fModes, fBlend)
    {
      if fModes.canOverflow(fBlend) {
        p.Append(ClampA, Null);
      }
    }

    method CompileBlitH() returns (c: Compiled)
      requires fShader.Valid() && BlitHFits()
      ensures c == HFn()
    {
      ghost var shader := fShader.Stages();
      var p := new Pipeline();
      p.Extend(fShader);
      ghost var s0 := p.Stages();
      assert s0 == shader;
      if fBlend != BlendMode.Src {
        AppendLoadD(p);
        AppendBlend(p);
        ConcatAssoc(s0, LoadD(fDst), BlendStages(fModes, fBlend));
        AppendMaybeClamp(p);
        ConcatAssoc(s0, LoadD(fDst) + BlendStages(fModes, fBlend), MaybeClamp(fModes, fBlend));
      } else {
        assert p.Stages() == s0 + [];
      }
      ghost var s1 := p.Stages();
      AppendStore(p);
      assert p.Stages() == s1 + StoreD(fDst);
      assert fShader.Stages() == shader;
      c := p.Compile();
    }

    /** The shader, the coverage stage and the blend in the order the mode needs, then clamp and store. */
    method CompileCovered(scale: Stage, lerp: Stage) returns (c: Compiled)
      requires fShader.Valid() && |CoveredStages(fShader.Stages(), fDst, fModes, fBlend, scale, lerp)| <= MaxStages
      ensures c == Compiled(CoveredStages(fShader.Stages(), fDst, fModes, fBlend, scale, lerp))
    {
      ghost var shader := fShader.Stages();
      var p := new Pipeline();
      p.Extend(fShader);
      ghost var s0 := p.Stages();
      assert s0 == shader;
      if fBlend == BlendMode.SrcOver {
        p.Append(scale.stage, scale.ctx);
        AppendLoadD(p);
        ConcatAssoc(s0, [scale], LoadD(fDst));
        AppendBlend(p);
        ConcatAssoc(s0, [scale] + LoadD(fDst), BlendStages(fModes, fBlend));
      } else {
        AppendLoadD(p);
        AppendBlend(p);
        ConcatAssoc(s0, LoadD(fDst), BlendStages(fModes, fBlend));
        p.Append(lerp.stage, lerp.ctx);
        ConcatAssoc(s0, LoadD(fDst) + BlendStages(fModes, fBlend), [lerp]);
      }
      ghost var s1 := p.Stages();
      AppendMaybeClamp(p);
      ghost var s2 := p.Stages();
      AppendStore(p);
      assert p.Stages() == s2 + StoreD(fDst);
      assert s2 == s1 + MaybeClamp(fModes, fBlend);
      assert fShader.Stages() == shader;
      c := p.Compile();
    }

    method CompileBlitAntiH() returns (c: Compiled)
      requires fShader.Valid() && CoveredFits()
      ensures c == AntiHFn()
    {
      c := CompileCovered(Stage(ScaleConstantFloat, CoverageCell), Stage(LerpConstantFloat, CoverageCell));
    }

    method CompileBlitMaskA8() returns (c: Compiled)
      requires fShader.Valid() && CoveredFits()
      ensures c == MaskA8Fn()
    {
      c := CompileCovered(Stage(ScaleU8, MaskPtrCell), Stage(LerpU8, MaskPtrCell));
    }

    method CompileBlitMaskLCD16() returns (c: Compiled)
      requires fShader.Valid() && CoveredFits()
      ensures c == MaskLCD16Fn()
    {
      ghost var shader := fShader.Stages();
      var p := new Pipeline();
      p.Extend(fShader);
      ghost var s0 := p.Stages();
      assert s0 == shader;
      AppendLoadD(p);
      AppendBlend(p);
      ConcatAssoc(s0, LoadD(fDst), BlendStages(fModes, fBlend));
      p.Append(Lerp565, MaskPtrCell);
      ConcatAssoc(s0, LoadD(fDst) + BlendStages(fModes, fBlend), [Stage(Lerp565, MaskPtrCell)]);
      ghost var s1 := p.Stages();
      AppendMaybeClamp(p);
      ghost var s2 := p.Stages();
      AppendStore(p);
      assert p.Stages() == s2 + StoreD(fDst);
      assert s2 == s1 + MaybeClamp(fModes, fBlend);
      assert fShader.Stages() == shader;
      c := p.Compile();
    }

    /** Fills [x, x+w) on row y at full coverage, compiling the span function on first use. */
    method BlitH(x: int, y: int, w: int)
      requires Valid() && BlitHFits()
      modifies this`fBlitH, this`fCompiles, this`fDstPtr, this`calls
      ensures Valid()
      ensures fBlitH == Some(HFn()) && (old(fBlitH).Some? ==> fCompiles == old(fCompiles))
      ensures fCompiles.h == old(fCompiles.h) + (if old(fBlitH).None? then 1 else 0)
      ensures fCompiles.antiH == old(fCompiles.antiH) && fCompiles.maskA8 == old(fCompiles.maskA8)
      ensures fCompiles.maskLCD16 == old(fCompiles.maskLCD16)
      ensures fDstPtr == DstRow(y)
      ensures calls == old(calls) + [Draw(BlitHFn, x, y, w, DstOnly(DstRow(y)))]
    {
      if fBlitH.None? {
        var c := CompileBlitH();
        fBlitH := Some(c);
        fCompiles := fCompiles.(h := fCompiles.h + 1);
      }
      fDstPtr := DstRow(y);
      calls := calls + [Draw(BlitHFn, x, y, w, DstOnly(fDstPtr))];
    }

    /** One run of blitAntiH with the destination row already bound. */
    method BlitAntiHRun(x: int, y: int, alpha: Alpha, run: int)
      requires Valid() && BlitHFits() && fBlitAntiH == Some(AntiHFn()) && fDstPtr == DstRow(y)
      modifies this`fBlitH, this`fCompiles, this`fDstPtr, this`fConstantCoverage, this`calls
      ensures Valid()
      ensures old(fBlitH).Some? ==> fBlitH == old(fBlitH) && fCompiles == old(fCompiles)
      ensures fCompiles.antiH == old(fCompiles.antiH) && fCompiles.maskA8 == old(fCompiles.maskA8)
      ensures fCompiles.maskLCD16 == old(fCompiles.maskLCD16)
      ensures fDstPtr == DstRow(y)
      ensures fConstantCoverage == if alpha == 0 || alpha == 255 then old(fConstantCoverage) else Coverage(alpha)
      ensures calls == old(calls) + RunDraws(alpha, x, y, run)
    {
      if alpha == 0 {
      } else if alpha == 255 {
        BlitH(x, y, run);
      } else {
        fConstantCoverage := Coverage(alpha);
        calls := calls + [Draw(BlitAntiHFn, x, y, run, WithCoverage(fDstPtr, fConstantCoverage))];
      }
    }

    /**
     * Walks the runs from the start of the arrays until a run <= 0, covering [x, x+run) per
     * run and stepping both arrays by the run length.
     */
    method BlitAntiH(x: int, y: int, aa: seq<Alpha>, runs: seq<Run16>)
      requires Valid() && CoveredFits() && Runs(runs, aa, 0)
      modifies this`fBlitH, this`fBlitAntiH, this`fCompiles, this`fDstPtr, this`fConstantCoverage, this`calls
      ensures Valid()
      ensures fBlitAntiH == Some(AntiHFn())
      ensures old(fBlitH).Some? ==> fBlitH == old(fBlitH) && fCompiles.h == old(fCompiles.h)
      ensures fCompiles.antiH == old(fCompiles.antiH) + (if old(fBlitAntiH).None? then 1 else 0)
      ensures fCompiles.maskA8 == old(fCompiles.maskA8) && fCompiles.maskLCD16 == old(fCompiles.maskLCD16)
      ensures fDstPtr == DstRow(y)
      ensures fConstantCoverage == FinalCoverage(runs, aa, 0, old(fConstantCoverage))
      ensures calls == old(calls) + AntiHDraws(runs, aa, 0, x, y)
    {
      if fBlitAntiH.None? {
        var c := CompileBlitAntiH();
        fBlitAntiH := Some(c);
        fCompiles := fCompiles.(antiH := fCompiles.antiH + 1);
      }
      fDstPtr := DstRow(y);
      BlitHNoLongerThanCovered(fShader.Stages(), fDst, fModes, fBlend,
                               Stage(ScaleConstantFloat, CoverageCell), Stage(LerpConstantFloat, CoverageCell));
      BlitAntiHWalk(x, y, aa, runs);
    }

    /** blitAntiH's walk over the runs, with the coverage function compiled and the row bound. */
    method BlitAntiHWalk(x: int, y: int, aa: seq<Alpha>, runs: seq<Run16>)
      requires Valid() && BlitHFits() && Runs(runs, aa, 0)
      requires fBlitAntiH == Some(AntiHFn()) && fDstPtr == DstRow(y)
      modifies this`fBlitH, this`fCompiles, this`fDstPtr, this`fConstantCoverage, this`calls
      ensures Valid()
      ensures old(fBlitH).Some? ==> fBlitH == old(fBlitH) && fCompiles == old(fCompiles)
      ensures fCompiles.antiH == old(fCompiles.antiH) && fCompiles.maskA8 == old(fCompiles.maskA8)
      ensures fCompiles.maskLCD16 == old(fCompiles.maskLCD16)
      ensures fDstPtr == DstRow(y)
      ensures fConstantCoverage == FinalCoverage(runs, aa, 0, old(fConstantCoverage))
      ensures calls == old(calls) + AntiHDraws(runs, aa, 0, x, y)
    {
      ghost var calls0, cov0 := calls, fConstantCoverage;
      WalkStart(runs, aa, x, y, calls0, cov0);
      var i, cx := 0, x;
      while runs[i] > 0
        invariant Walked(runs, aa, i, x, cx, y, calls, calls0, fConstantCoverage, cov0)
        invariant Valid() && fDstPtr == DstRow(y)
        invariant old(fBlitH).Some? ==> fBlitH == old(fBlitH) && fCompiles == old(fCompiles)
        invariant fCompiles.antiH == old(fCompiles.antiH) && fCompiles.maskA8 == old(fCompiles.maskA8)
        invariant fCompiles.maskLCD16 == old(fCompiles.maskLCD16)
        decreases |runs| - i
      {
        var run := runs[i];
        ghost var i1, cx1, calls1, cov1 := i, cx, calls, fConstantCoverage;
        BlitAntiHRun(cx, y, aa[i], run);
        cx := cx + run;
        i := i + run;
        WalkStep(runs, aa, i1, i, x, cx1, cx, y, calls1, calls, calls0, cov1, fConstantCoverage, cov0);
      }
      WalkDone(runs, aa, i, x, cx, y, calls, calls0, fConstantCoverage, cov0);
    }

    /** One row of blitMask: binds the destination row, and for A8 and LCD16 the mask row, then calls. */
    method BlitMaskRow(format: MaskFormat, x: int, y: int, w: int)
      requires Valid()
      requires format == A8 ==> fBlitMaskA8 == Some(MaskA8Fn())
      requires format == LCD16 ==> fBlitMaskLCD16 == Some(MaskLCD16Fn())
      modifies this`fDstPtr, this`fMaskPtr, this`calls
      ensures fDstPtr == DstRow(y)
      ensures fMaskPtr == if format == A8 || format == LCD16 then MaskRow(y) else old(fMaskPtr)
      ensures calls == old(calls) + MaskRowDraw(format, x, y, w)
    {
      fDstPtr := DstRow(y);
      match format
      case A8 =>
        fMaskPtr := MaskRow(y);
        calls := calls + [Draw(BlitMaskA8Fn, x, y, w, WithMask(fDstPtr, fMaskPtr))];
      case LCD16 =>
        fMaskPtr := MaskRow(y);
        calls := calls + [Draw(BlitMaskLCD16Fn, x, y, w, WithMask(fDstPtr, fMaskPtr))];
      case _ =>
    }

    /**
     * BW masks go to the base blitter; otherwise the function for the mask's format is
     * compiled on first use and called once per row of clip, full width.
     */
    method BlitMask(format: MaskFormat, clip: Rect)
      requires Valid() && (format == A8 || format == LCD16 ==> CoveredFits())
      modifies this`fBlitMaskA8, this`fBlitMaskLCD16, this`fCompiles, this`fDstPtr, this`fMaskPtr, this`calls
      ensures Valid()
      ensures fBlitMaskA8 == if format == A8 then Some(old(MaskA8Fn())) else old(fBlitMaskA8)
      ensures fBlitMaskLCD16 == if format == LCD16 then Some(old(MaskLCD16Fn())) else old(fBlitMaskLCD16)
      ensures fCompiles.h == old(fCompiles.h) && fCompiles.antiH == old(fCompiles.antiH)
      ensures fCompiles.maskA8 == old(fCompiles.maskA8) + (if format == A8 && old(fBlitMaskA8).None? then 1 else 0)
      ensures fCompiles.maskLCD16 == old(fCompiles.maskLCD16) + (if format == LCD16 && old(fBlitMaskLCD16).None? then 1 else 0)
      ensures fDstPtr == if format != BW && clip.top < clip.bottom then DstRow(clip.bottom - 1) else old(fDstPtr)
      ensures fMaskPtr ==
        if (format == A8 || format == LCD16) && clip.top < clip.bottom then MaskRow(clip.bottom - 1) else old(fMaskPtr)
      ensures calls == old(calls) + MaskDraws(format, clip)
    {
      if format == BW {
        calls := calls + [BaseBlitMask(format, clip)];
      } else {
        BlitMaskCovered(format, clip);
      }
    }

    /** blitMask for A8 and LCD16 masks: compile the format's function on first use, then call it per row. */
    method BlitMaskCovered(format: MaskFormat, clip: Rect)
      requires Valid() && format != BW && (format == A8 || format == LCD16 ==> CoveredFits())
      modifies this`fBlitMaskA8, this`fBlitMaskLCD16, this`fCompiles, this`fDstPtr, this`fMaskPtr, this`calls
      ensures Valid()
      ensures fBlitMaskA8 == if format == A8 then Some(old(MaskA8Fn())) else old(fBlitMaskA8)
      ensures fBlitMaskLCD16 == if format == LCD16 then Some(old(MaskLCD16Fn())) else old(fBlitMaskLCD16)
      ensures fCompiles.h == old(fCompiles.h) && fCompiles.antiH == old(fCompiles.antiH)
      ensures fCompiles.maskA8 == old(fCompiles.maskA8) + (if format == A8 && old(fBlitMaskA8).None? then 1 else 0)
      ensures fCompiles.maskLCD16 == old(fCompiles.maskLCD16) + (if format == LCD16 && old(fBlitMaskLCD16).None? then 1 else 0)
      ensures fDstPtr == if format != BW && clip.top < clip.bottom then DstRow(clip.bottom - 1) else old(fDstPtr)
      ensures fMaskPtr ==
        if (format == A8 || format == LCD16) && clip.top < clip.bottom then MaskRow(clip.bottom - 1) else old(fMaskPtr)
      ensures calls == old(calls) + MaskDraws(format, clip)
    {
      CompileMaskFn(format);
      BlitMaskRows(format, clip);
    }

    /** blitMask's lazy compilation: the A8 or LCD16 function, when the mask needs it and it is missing. */
    method CompileMaskFn(format: MaskFormat)
      requires Valid() && (format == A8 || format == LCD16 ==> CoveredFits())
      modifies this`fBlitMaskA8, this`fBlitMaskLCD16, this`fCompiles
      ensures Valid()
      ensures fBlitMaskA8 == if format == A8 then Some(old(MaskA8Fn())) else old(fBlitMaskA8)
      ensures fBlitMaskLCD16 == if format == LCD16 then Some(old(MaskLCD16Fn())) else old(fBlitMaskLCD16)
      ensures fCompiles.h == old(fCompiles.h) && fCompiles.antiH == old(fCompiles.antiH)
      ensures fCompiles.maskA8 == old(fCompiles.maskA8) + (if format == A8 && old(fBlitMaskA8).None? then 1 else 0)
      ensures fCompiles.maskLCD16 == old(fCompiles.maskLCD16) + (if format == LCD16 && old(fBlitMaskLCD16).None? then 1 else 0)
    {
      if format == A8 && fBlitMaskA8.None? {
        var c := CompileBlitMaskA8();
        fBlitMaskA8 := Some(c);
        fCompiles := fCompiles.(maskA8 := fCompiles.maskA8 + 1);
      }
      if format == LCD16 && fBlitMaskLCD16.None? {
        var c := CompileBlitMaskLCD16();
        fBlitMaskLCD16 := Some(c);
        fCompiles := fCompiles.(maskLCD16 := fCompiles.maskLCD16 + 1);
      }
    }

    /** blitMask's loop over the rows of clip, with the function for the mask's format compiled. */
    method BlitMaskRows(format: MaskFormat, clip: Rect)
      requires Valid() && format != BW
      requires format == A8 ==> fBlitMaskA8 == Some(MaskA8Fn())
      requires format == LCD16 ==> fBlitMaskLCD16 == Some(MaskLCD16Fn())
      modifies this`fDstPtr, this`fMaskPtr, this`calls
      ensures Valid()
      ensures fDstPtr == if format != BW && clip.top < clip.bottom then DstRow(clip.bottom - 1) else old(fDstPtr)
      ensures fMaskPtr ==
        if (format == A8 || format == LCD16) && clip.top < clip.bottom then MaskRow(clip.bottom - 1) else old(fMaskPtr)
      ensures calls == old(calls) + MaskDraws(format, clip)
    {
      var x := clip.left;
      var w := clip.right - clip.left;
      var y := clip.top;
      assert calls == old(calls) + [];
      while y < clip.bottom
        invariant y == clip.top || clip.top < y <= clip.bottom
        invariant fDstPtr == if clip.top < y then DstRow(y - 1) else old(fDstPtr)
        invariant fMaskPtr == if (format == A8 || format == LCD16) && clip.top < y then MaskRow(y - 1) else old(fMaskPtr)
        invariant calls == old(calls) + MaskRowDraws(format, x, clip.top, y, w)
      {
        BlitMaskRow(format, x, y, w);
        ConcatAssoc(old(calls), MaskRowDraws(format, x, clip.top, y, w), MaskRowDraw(format, x, y, w));
        y := y + 1;
      }
    }
  }
}
