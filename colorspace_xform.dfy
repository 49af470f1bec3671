/**
 * SkColorSpaceXform_A2B: a colour transform from an A2B colour space (a list of conversion
 * elements to a profile connection space) to an XYZ colour space, built once as a pipeline of
 * colour-management stages and run by apply() between a load and a store.
 *
 * powf and inverse_interp_lut are float routines whose bodies are not part of this model;
 * they are parameters (pow, inverseInterp) and the maths is over reals.
 */
module ColorSpaceXformA2B {
  import opened Wrappers
  import opened RasterPipeline

  // ---------------------------------------------------------------------------
  // Transfer functions

  /** The 7-coefficient parametric transfer function. */
  datatype TransferFn = TransferFn(g: real, a: real, b: real, c: real, d: real, e: real, f: real)

  /** The base a*x + b the curved segment raises to the power g. */
  function CurveBase(fn: TransferFn, x: real): real {
    fn.a * x + fn.b
  }

  /** y = (a*x + b)^g + e for x >= d, and y = c*x + f otherwise. */
  function Eval(fn: TransferFn, x: real, pow: (real, real) -> real): real {
    if x >= fn.d then pow(CurveBase(fn, x), fn.g) + fn.e else fn.c * x + fn.f
  }

  lemma EvalCurved(fn: TransferFn, x: real, pow: (real, real) -> real)
    requires x >= fn.d
    ensures Eval(fn, x, pow) == pow(CurveBase(fn, x), fn.g) + fn.e
  {
  }

  /** Equal arguments give equal powers. */
  lemma PowArgs(pow: (real, real) -> real, u: real, v: real, w: real, w': real)
    requires u == v && w == w'
    ensures pow(u, w) == pow(v, w')
  {
  }

  /** The all -1 result the source returns from an unexpected gamma type. */
  const InvalidFn: TransferFn := TransferFn(-1.0, -1.0, -1.0, -1.0, -1.0, -1.0, -1.0)

  datatype GammaNamed = Linear | SRGB | TwoDotTwoCurve | NonStandard

  /** A plain exponent curve y = x^exp. */
  function ValueToParametric(exp: real): TransferFn {
    TransferFn(exp, 1.0, 0.0, 0.0, 0.0, 0.0, 0.0)
  }

  function GammaNamedToParametric(named: GammaNamed): (fn: TransferFn)
    ensures named == NonStandard <==> fn == InvalidFn
    ensures named != NonStandard ==> fn.g > 0.0 && fn.a > 0.0 && fn.c >= 0.0
  {
    match named
    case Linear => ValueToParametric(1.0)
    case SRGB => TransferFn(2.4, 1.0 / 1.055, 0.055 / 1.055, 1.0 / 12.92, 0.04045, 0.0, 0.0)
    case TwoDotTwoCurve => ValueToParametric(2.2)
    case NonStandard => InvalidFn
  }

  /** The curve of one channel of a per-channel gamma element. */
  datatype ChannelGamma =
    | NoneGamma
    | NamedGamma(named: GammaNamed)
    | ValueGamma(value: real)
    | TableGamma(table: seq<real>)
    | ParamGamma(fn: TransferFn)

  type Gammas = g: seq<ChannelGamma> | |g| == 3 witness [NoneGamma, NoneGamma, NoneGamma]

  function GammaToParametric(gammas: Gammas, channel: nat): (fn: TransferFn)
    requires channel < 3
    ensures gammas[channel].NamedGamma? ==> fn == GammaNamedToParametric(gammas[channel].named)
    ensures gammas[channel].ValueGamma? ==> fn == ValueToParametric(gammas[channel].value)
    ensures gammas[channel].ParamGamma? ==> fn == gammas[channel].fn
    ensures gammas[channel].NoneGamma? || gammas[channel].TableGamma? ==> fn == InvalidFn
  {
    match gammas[channel]
    case NamedGamma(named) => GammaNamedToParametric(named)
    case ValueGamma(value) => ValueToParametric(value)
    case ParamGamma(fn) => fn
    case _ => InvalidFn
  }

  /**
   * The algebraic inverse of fn, in the same parametric form. A zero slope on the linear
   * segment, or a zero a or g on the curved one, gives fixed fallback coefficients.
   */
  function InvertParametric(fn: TransferFn, pow: (real, real) -> real): (inv: TransferFn)
    ensures fn.c == 0.0 ==> inv.c == 0.0 && inv.f == 0.0
    ensures fn.a == 0.0 || fn.g == 0.0 ==> inv.g == 1.0 && inv.a == 0.0 && inv.b == 0.0 && inv.e == 1.0
    ensures inv.d == fn.c * fn.d + fn.f
  {
    var c := if fn.c == 0.0 then 0.0 else 1.0 / fn.c;
    var f := if fn.c == 0.0 then 0.0 else -fn.f / fn.c;
    var degenerate := fn.a == 0.0 || fn.g == 0.0;
    var a := if degenerate then 0.0 else pow(1.0 / fn.a, fn.g);
    var g := if degenerate then 1.0 else 1.0 / fn.g;
    var b := if degenerate then 0.0 else -a * fn.e;
    var e := if degenerate then 1.0 else -fn.b / fn.a;
    TransferFn(g, a, b, c, fn.c * fn.d + fn.f, e, f)
  }

  /** The worked-out inverses of the named curves are what InvertParametric computes. */
  lemma NamedInverseIsInverse(named: GammaNamed, pow: (real, real) -> real)
    requires named == SRGB || named == TwoDotTwoCurve
    ensures NamedInverseFn(named, pow) == InvertParametric(GammaNamedToParametric(named), pow)
  {
    if named == SRGB {
      assert InvertParametric(TransferFn(2.4, 1.0 / 1.055, 0.055 / 1.055, 1.0 / 12.92, 0.04045, 0.0, 0.0), pow)
          == TransferFn(1.0 / 2.4, pow(1.055, 2.4), 0.0, 12.92, 0.04045 / 12.92, -0.055, 0.0);
    } else {
      assert InvertParametric(TransferFn(2.2, 1.0, 0.0, 0.0, 0.0, 0.0, 0.0), pow)
          == TransferFn(1.0 / 2.2, pow(1.0, 2.2), 0.0, 0.0, 0.0, 0.0, 0.0);
    }
  }

  lemma ValueToParametricIsPower(exp: real, x: real, pow: (real, real) -> real)
    ensures Eval(ValueToParametric(exp), x, pow) == if x >= 0.0 then pow(x, exp) else 0.0
  {
  }

  /** The inverted linear segment undoes the original one. */
  lemma LinearSegmentInverts(fn: TransferFn, pow: (real, real) -> real, x: real)
    requires fn.c != 0.0
    ensures var inv := InvertParametric(fn, pow); inv.c * (fn.c * x + fn.f) + inv.f == x
  {
    var inv := InvertParametric(fn, pow);
    var k := 1.0 / fn.c;
    assert inv.c == k && inv.f == -fn.f / fn.c;
    assert k * fn.c == 1.0;
    assert fn.f / fn.c == k * fn.f;
    calc {
      inv.c * (fn.c * x + fn.f) + inv.f;
      k * (fn.c * x) + k * fn.f - k * fn.f;
      (k * fn.c) * x;
      x;
    }
  }

  /**
   * Round trip on the linear segment: for an increasing linear segment, a value below d
   * maps below the inverse's threshold, and the inverse maps it back.
   */
  lemma LinearSegmentRoundTrip(fn: TransferFn, pow: (real, real) -> real, x: real)
    requires fn.c > 0.0 && x < fn.d
    ensures Eval(InvertParametric(fn, pow), Eval(fn, x, pow), pow) == x
  {
    var inv := InvertParametric(fn, pow);
    var y := Eval(fn, x, pow);
    assert y == fn.c * x + fn.f;
    assert fn.c * x < fn.c * fn.d by {
      assert fn.c * (fn.d - x) > 0.0;
    }
    assert y < inv.d;
    LinearSegmentInverts(fn, pow, x);
  }

  /**
   * The inverted curved segment is x = ((y - e)^(1/g) - b) / a, given the power law the
   * derivation uses at the point in question: ((1/a)^g * (y - e))^(1/g) = (y - e)^(1/g) / a.
   */
  lemma CurvedSegmentInverts(fn: TransferFn, pow: (real, real) -> real, y: real)
    requires fn.a != 0.0 && fn.g != 0.0
    requires y >= InvertParametric(fn, pow).d
    requires pow(pow(1.0 / fn.a, fn.g) * (y - fn.e), 1.0 / fn.g) == pow(y - fn.e, 1.0 / fn.g) / fn.a
    ensures Eval(InvertParametric(fn, pow), y, pow) == (pow(y - fn.e, 1.0 / fn.g) - fn.b) / fn.a
  {
    var inv := InvertParametric(fn, pow);
    var k := pow(1.0 / fn.a, fn.g);
    var p := pow(y - fn.e, 1.0 / fn.g);
    assert inv.a == k && inv.b == -k * fn.e && inv.g == 1.0 / fn.g && inv.e == -fn.b / fn.a;
    EvalCurved(inv, y, pow);
    PowArgs(pow, CurveBase(inv, y), pow(1.0 / fn.a, fn.g) * (y - fn.e), inv.g, 1.0 / fn.g);
    assert Eval(inv, y, pow) == p / fn.a + -fn.b / fn.a;
  }

  // ---------------------------------------------------------------------------
  // Inverse tables

  const InvTableSize: nat := 256

  /** The i-th sample point of an inverse table, i / 255. */
  function SamplePoint(i: nat): (x: real)
    ensures i <= InvTableSize - 1 ==> 0.0 <= x <= 1.0
    ensures i == 0 ==> x == 0.0
    ensures i == InvTableSize - 1 ==> x == 1.0
  {
    (i as real) * (1.0 / ((InvTableSize - 1) as real))
  }

  function InverseTable(inTable: seq<real>, inverseInterp: (real, seq<real>) -> real): (t: seq<real>)
    ensures |t| == InvTableSize
  {
    seq(InvTableSize, i requires 0 <= i < InvTableSize => inverseInterp(SamplePoint(i), inTable))
  }

  /** Resamples a forward table into a 256-entry inverse table, sampled at i / 255. */
  method BuildInverseTable(inTable: seq<real>, inverseInterp: (real, seq<real>) -> real)
    returns (outTable: seq<real>)
    ensures |outTable| == InvTableSize
    ensures forall i :: 0 <= i < InvTableSize ==> outTable[i] == inverseInterp(SamplePoint(i), inTable)
  {
    var out := new real[InvTableSize];
    for i := 0 to InvTableSize
      invariant forall j :: 0 <= j < i ==> out[j] == inverseInterp(SamplePoint(j), inTable)
    {
      out[i] := inverseInterp(SamplePoint(i), inTable);
    }
    outTable := out[..];
  }

  // ---------------------------------------------------------------------------
  // Colour spaces

  /** A 4x4 matrix, row-major. */
  type Matrix44 = m: seq<real> | |m| == 16 witness seq(16, _ => 0.0)

  function Get(m: Matrix44, row: nat, col: nat): real
    requires row < 4 && col < 4
  {
    m[4 * row + col]
  }

  predicate IsIdentity(m: Matrix44) {
    forall row: nat, col: nat :: row < 4 && col < 4 ==> Get(m, row, col) == if row == col then 1.0 else 0.0
  }

  /** The top three rows of a 4x4 matrix, column-major, as matrix_3x4 reads them. */
  function PackMatrix(m: Matrix44): (r: seq<real>)
    ensures |r| == 12
    ensures forall row: nat, col: nat :: row < 3 && col < 4 ==> r[3 * col + row] == Get(m, row, col)
  {
    seq(12, i requires 0 <= i < 12 => Get(m, i % 3, i / 3))
  }

  datatype Clut = Clut(gridPoints: seq<nat>, values: seq<real>)

  datatype Element =
    | GammaNamedElement(named: GammaNamed)
    | GammasElement(gammas: Gammas)
    | ClutElement(clut: Clut)
    | MatrixElement(matrix: Matrix44)

  datatype PCS = LabPCS | XYZPCS

  datatype A2BSpace = A2BSpace(elements: seq<Element>, pcs: PCS)

  /** The destination: a named gamma (or per-channel gammas when NonStandard) and the matrix from XYZ D50. */
  datatype XYZSpace = XYZSpace(gammaNamed: GammaNamed, gammas: Gammas, fromXYZD50: Matrix44)

  datatype Channels = RGBChannels | RChannel | GChannel | BChannel

  /** Channel index 0, 1, 2 as a single-channel selector. */
  function ChannelOf(i: nat): (ch: Channels)
    requires i < 3
    ensures ch != RGBChannels
  {
    if i == 0 then RChannel else if i == 1 then GChannel else BChannel
  }

  /** The stages a channel selector appends, among r, g and b, all sharing one context. */
  function ChannelStages(channels: Channels, r: StockStage, g: StockStage, b: StockStage, ctx: Ctx): seq<Stage> {
    match channels
    case RGBChannels => [Stage(r, ctx), Stage(g, ctx), Stage(b, ctx)]
    case RChannel => [Stage(r, ctx)]
    case GChannel => [Stage(g, ctx)]
    case BChannel => [Stage(b, ctx)]
  }

  // ---------------------------------------------------------------------------
  // What the element pipeline computes, with each context resolved to what it points at

  datatype Arg =
    | NoArg
    | FnArg(fn: TransferFn)
    | TableArg(table: seq<real>)
    | MatrixArg(m: seq<real>)
    | ClutArg(clut: Clut)

  /** A stage with its context dereferenced. */
  datatype Op = Op(stage: StockStage, arg: Arg)

  const Clamps: seq<Op> := [Op(Clamp0, NoArg), Op(Clamp1, NoArg)]

  function ChannelOps(channels: Channels, r: StockStage, g: StockStage, b: StockStage, arg: Arg): (ops: seq<Op>)
    ensures |ops| == if channels == RGBChannels then 3 else 1
  {
    match channels
    case RGBChannels => [Op(r, arg), Op(g, arg), Op(b, arg)]
    case RChannel => [Op(r, arg)]
    case GChannel => [Op(g, arg)]
    case BChannel => [Op(b, arg)]
  }

  function TransferFnOps(fn: TransferFn, channels: Channels): (ops: seq<Op>)
    ensures |ops| == if channels == RGBChannels then 3 else 1
  {
    ChannelOps(channels, ParametricR, ParametricG, ParametricB, FnArg(fn))
  }

  function TableFnOps(table: seq<real>, channels: Channels): (ops: seq<Op>)
    ensures |ops| == if channels == RGBChannels then 3 else 1
  {
    ChannelOps(channels, TableR, TableG, TableB, TableArg(table))
  }

  function MatrixOps(m: Matrix44): seq<Op> {
    [Op(Matrix3x4, MatrixArg(PackMatrix(m)))] + Clamps
  }

  function GammaChannelOps(gammas: Gammas, channel: nat): (ops: seq<Op>)
    requires channel < 3
    ensures |ops| == 1
  {
    match gammas[channel]
    case TableGamma(table) => TableFnOps(table, ChannelOf(channel))
    case _ => TransferFnOps(GammaToParametric(gammas, channel), ChannelOf(channel))
  }

  /** Channels 0 .. k-1 of a per-channel gamma element, one stage each. */
  function GammaChannelsOps(gammas: Gammas, k: nat): (ops: seq<Op>)
    requires k <= 3
    ensures |ops| == k
  {
    if k == 0 then [] else GammaChannelsOps(gammas, k - 1) + GammaChannelOps(gammas, k - 1)
  }

  /** A source element: linear named gammas and identity matrices add nothing. */
  function ElementOps(e: Element): seq<Op> {
    match e
    case GammaNamedElement(named) =>
      if named == Linear then [] else TransferFnOps(GammaNamedToParametric(named), RGBChannels) + Clamps
    case GammasElement(gammas) => GammaChannelsOps(gammas, 3) + Clamps
    case ClutElement(clut) => [Op(ColorLookupTable, ClutArg(clut))]
    case MatrixElement(m) => if IsIdentity(m) then [] else MatrixOps(m)
  }

  function ElementsOps(es: seq<Element>): seq<Op>
    decreases |es|
  {
    if es == [] then [] else ElementsOps(es[..|es| - 1]) + ElementOps(es[|es| - 1])
  }

  function InverseChannelOps(gammas: Gammas, channel: nat, pow: (real, real) -> real,
                             inverseInterp: (real, seq<real>) -> real): (ops: seq<Op>)
    requires channel < 3
    ensures |ops| == 1
  {
    match gammas[channel]
    case TableGamma(table) => TableFnOps(InverseTable(table, inverseInterp), ChannelOf(channel))
    case _ => TransferFnOps(InvertParametric(GammaToParametric(gammas, channel), pow), ChannelOf(channel))
  }

  function InverseChannelsOps(gammas: Gammas, k: nat, pow: (real, real) -> real,
                              inverseInterp: (real, seq<real>) -> real): (ops: seq<Op>)
    requires k <= 3
    ensures |ops| == k
  {
    if k == 0 then [] else InverseChannelsOps(gammas, k - 1, pow, inverseInterp) + InverseChannelOps(gammas, k - 1, pow, inverseInterp)
  }

  /**
   * The inverse of a named curve, worked out case by case; NamedInverseIsInverse shows it is
   * InvertParametric of GammaNamedToParametric.
   */
  function NamedInverseFn(named: GammaNamed, pow: (real, real) -> real): TransferFn
    requires named == SRGB || named == TwoDotTwoCurve
  {
    if named == SRGB then TransferFn(1.0 / 2.4, pow(1.055, 2.4), 0.0, 12.92, 0.04045 / 12.92, -0.055, 0.0)
    else TransferFn(1.0 / 2.2, pow(1.0, 2.2), 0.0, 0.0, 0.0, 0.0, 0.0)
  }

  /** The inverse of a named destination gamma on all three channels; nothing when it is linear. */
  function NamedInverseOps(named: GammaNamed, pow: (real, real) -> real): seq<Op>
    requires named != NonStandard
  {
    if named == Linear then []
    else TransferFnOps(NamedInverseFn(named, pow), RGBChannels) + Clamps
  }

  /** The inverse of per-channel destination gammas, then the clamps. */
  function InverseGammasOps(gammas: Gammas, pow: (real, real) -> real, inverseInterp: (real, seq<real>) -> real): seq<Op> {
    InverseChannelsOps(gammas, 3, pow, inverseInterp) + Clamps
  }

  /** The inverse of the destination's gamma. */
  function DstGammaOps(dst: XYZSpace, pow: (real, real) -> real, inverseInterp: (real, seq<real>) -> real): seq<Op> {
    if dst.gammaNamed != NonStandard then NamedInverseOps(dst.gammaNamed, pow)
    else InverseGammasOps(dst.gammas, pow, inverseInterp)
  }

  /** Lab to XYZ when the profile connection space is Lab. */
  function PcsOps(pcs: PCS): seq<Op> {
    if pcs == LabPCS then [Op(LabToXyz, NoArg)] else []
  }

  /** XYZ D50 to the destination's gamut; nothing for an identity matrix. */
  function DstMatrixOps(m: Matrix44): seq<Op> {
    if IsIdentity(m) then [] else MatrixOps(m)
  }

  /** Source elements, then Lab to XYZ for a Lab PCS, then XYZ to the destination. */
  function XformOps(src: A2BSpace, dst: XYZSpace, pow: (real, real) -> real,
                    inverseInterp: (real, seq<real>) -> real): seq<Op> {
    ElementsOps(src.elements)
    + PcsOps(src.pcs)
    + DstMatrixOps(dst.fromXYZD50)
    + DstGammaOps(dst, pow, inverseInterp)
  }

  // ---------------------------------------------------------------------------
  // Resolving contexts

  /** The lists a transform owns and its stages' contexts point into. */
  datatype Owned = Owned(fns: seq<TransferFn>, tables: seq<seq<real>>, matrices: seq<seq<real>>, cluts: seq<Clut>)

  /**
   * What a context points at. Transfer functions, tables and matrices are pushed at the
   * front, so the id-th one pushed sits id places from the back; colour lookup tables are
   * pushed at the back.
   */
  function Resolve(ctx: Ctx, o: Owned): Arg {
    match ctx
    case TransferFnRef(id) => if id < |o.fns| then FnArg(o.fns[|o.fns| - 1 - id]) else NoArg
    case TableFnRef(id) => if id < |o.tables| then TableArg(o.tables[|o.tables| - 1 - id]) else NoArg
    case MatrixRef(id) => if id < |o.matrices| then MatrixArg(o.matrices[|o.matrices| - 1 - id]) else NoArg
    case ClutRef(i) => if i < |o.cluts| then ClutArg(o.cluts[i]) else NoArg
    case _ => NoArg
  }

  function ResolveAll(stages: seq<Stage>, o: Owned): (ops: seq<Op>)
    ensures |ops| == |stages|
  {
    seq(|stages|, i requires 0 <= i < |stages| => Op(stages[i].stage, Resolve(stages[i].ctx, o)))
  }

  /** The context points at an element the transform owns. */
  predicate InRange(ctx: Ctx, o: Owned) {
    match ctx
    case TransferFnRef(id) => id < |o.fns|
    case TableFnRef(id) => id < |o.tables|
    case MatrixRef(id) => id < |o.matrices|
    case ClutRef(i) => i < |o.cluts|
    case _ => true
  }

  predicate RefsInRange(stages: seq<Stage>, o: Owned) {
    forall i :: 0 <= i < |stages| ==> InRange(stages[i].ctx, o)
  }

  /** s' is s with elements pushed at the front. */
  ghost predicate PushedFront<T>(s: seq<T>, s': seq<T>) {
    |s| <= |s'| && s'[|s'| - |s|..] == s
  }

  /** o' is o after pushes: at the front of the first three lists, at the back of the last. */
  ghost predicate Grows(o: Owned, o': Owned) {
    && PushedFront(o.fns, o'.fns)
    && PushedFront(o.tables, o'.tables)
    && PushedFront(o.matrices, o'.matrices)
    && |o.cluts| <= |o'.cluts| && o'.cluts[..|o.cluts|] == o.cluts
  }

  /**
   * Pushing onto the lists leaves every context already in the pipeline pointing at the
   * same element, as the source's lists are linked lists whose elements never move.
   */
  lemma ResolveGrows(stages: seq<Stage>, o: Owned, o': Owned)
    requires RefsInRange(stages, o) && Grows(o, o')
    ensures RefsInRange(stages, o')
    ensures ResolveAll(stages, o') == ResolveAll(stages, o)
  {
    forall i | 0 <= i < |stages|
      ensures InRange(stages[i].ctx, o') && ResolveAll(stages, o')[i] == ResolveAll(stages, o)[i]
    {
      ResolveGrowsOne(stages[i].ctx, o, o');
    }
  }

  lemma ResolveGrowsOne(ctx: Ctx, o: Owned, o': Owned)
    requires InRange(ctx, o) && Grows(o, o')
    ensures InRange(ctx, o') && Resolve(ctx, o') == Resolve(ctx, o)
  {
    match ctx {
      case TransferFnRef(id) =>
        assert o'.fns[|o'.fns| - 1 - id] == o'.fns[|o'.fns| - |o.fns|..][|o.fns| - 1 - id];
      case TableFnRef(id) =>
        assert o'.tables[|o'.tables| - 1 - id] == o'.tables[|o'.tables| - |o.tables|..][|o.tables| - 1 - id];
      case MatrixRef(id) =>
        assert o'.matrices[|o'.matrices| - 1 - id] == o'.matrices[|o'.matrices| - |o.matrices|..][|o.matrices| - 1 - id];
      case ClutRef(j) =>
        assert o'.cluts[j] == o'.cluts[..|o.cluts|][j];
      case _ =>
    }
  }

  /** Appending stages whose contexts are in range keeps the pipeline's invariant, and resolves piecewise. */
  lemma ResolveAppend(stages: seq<Stage>, extra: seq<Stage>, o: Owned, o': Owned)
    requires RefsInRange(stages, o) && NoStores(stages) && Grows(o, o')
    requires RefsInRange(extra, o') && NoStores(extra)
    ensures RefsInRange(stages + extra, o') && NoStores(stages + extra)
    ensures ResolveAll(stages + extra, o') == ResolveAll(stages, o) + ResolveAll(extra, o')
  {
    ResolveGrows(stages, o, o');
    var all := stages + extra;
    forall i | 0 <= i < |all|
      ensures InRange(all[i].ctx, o') && !IsStore(all[i].stage)
    {
      if i < |stages| {
        assert all[i] == stages[i];
      } else {
        assert all[i] == extra[i - |stages|];
      }
    }
    assert ResolveAll(all, o')[..|stages|] == ResolveAll(stages, o');
    assert ResolveAll(all, o')[|stages|..] == ResolveAll(extra, o');
  }

  /** The per-channel stages resolve to the per-channel ops of what their shared context points at. */
  lemma ResolveChannel(channels: Channels, r: StockStage, g: StockStage, b: StockStage, ctx: Ctx, o: Owned)
    requires InRange(ctx, o) && !IsStore(r) && !IsStore(g) && !IsStore(b)
    ensures RefsInRange(ChannelStages(channels, r, g, b, ctx), o)
    ensures NoStores(ChannelStages(channels, r, g, b, ctx))
    ensures ResolveAll(ChannelStages(channels, r, g, b, ctx), o) == ChannelOps(channels, r, g, b, Resolve(ctx, o))
  {
  }

  /** Pushing one element at the front. */
  lemma PushFront<T>(x: T, s: seq<T>)
    ensures PushedFront(s, [x] + s)
  {
    assert ([x] + s)[1..] == s;
  }

  /** Nothing pushed. */
  lemma GrowsRefl(o: Owned)
    ensures Grows(o, o)
  {
    assert o.fns[|o.fns| - |o.fns|..] == o.fns;
    assert o.tables[|o.tables| - |o.tables|..] == o.tables;
    assert o.matrices[|o.matrices| - |o.matrices|..] == o.matrices;
    assert o.cluts[..|o.cluts|] == o.cluts;
  }

  /** Appending a stage without context. */
  lemma PlainAppend(before: seq<Stage>, k: StockStage, o: Owned)
    requires RefsInRange(before, o) && NoStores(before) && !IsStore(k)
    ensures RefsInRange(before + [Stage(k, Null)], o) && NoStores(before + [Stage(k, Null)])
    ensures ResolveAll(before + [Stage(k, Null)], o) == ResolveAll(before, o) + [Op(k, NoArg)]
  {
    GrowsRefl(o);
    ResolveAppend(before, [Stage(k, Null)], o, o);
  }

  /** addTransferFn: fn pushed at the front, its stages appended with the context of the new element. */
  lemma TransferFnAppend(before: seq<Stage>, fn: TransferFn, channels: Channels, o: Owned, o': Owned)
    requires RefsInRange(before, o) && NoStores(before)
    requires o' == o.(fns := [fn] + o.fns)
    ensures var extra := ChannelStages(channels, ParametricR, ParametricG, ParametricB, TransferFnRef(|o.fns|));
      && RefsInRange(before + extra, o') && NoStores(before + extra)
      && ResolveAll(before + extra, o') == ResolveAll(before, o) + TransferFnOps(fn, channels)
  {
    var ctx := TransferFnRef(|o.fns|);
    GrowsRefl(o);
    PushFront(fn, o.fns);
    ResolveChannel(channels, ParametricR, ParametricG, ParametricB, ctx, o');
    ResolveAppend(before, ChannelStages(channels, ParametricR, ParametricG, ParametricB, ctx), o, o');
  }

  /** addTableFn: the table pushed at the front, its stages appended with the context of the new element. */
  lemma TableFnAppend(before: seq<Stage>, table: seq<real>, channels: Channels, o: Owned, o': Owned)
    requires RefsInRange(before, o) && NoStores(before)
    requires o' == o.(tables := [table] + o.tables)
    ensures var extra := ChannelStages(channels, TableR, TableG, TableB, TableFnRef(|o.tables|));
      && RefsInRange(before + extra, o') && NoStores(before + extra)
      && ResolveAll(before + extra, o') == ResolveAll(before, o) + TableFnOps(table, channels)
  {
    var ctx := TableFnRef(|o.tables|);
    GrowsRefl(o);
    PushFront(table, o.tables);
    ResolveChannel(channels, TableR, TableG, TableB, ctx, o');
    ResolveAppend(before, ChannelStages(channels, TableR, TableG, TableB, ctx), o, o');
  }

  /** addMatrix: the packed matrix pushed at the front, matrix_3x4 appended with the context of the new element. */
  lemma MatrixAppend(before: seq<Stage>, m: seq<real>, o: Owned, o': Owned)
    requires RefsInRange(before, o) && NoStores(before)
    requires o' == o.(matrices := [m] + o.matrices)
    ensures RefsInRange(before + [Stage(Matrix3x4, MatrixRef(|o.matrices|))], o')
    ensures NoStores(before + [Stage(Matrix3x4, MatrixRef(|o.matrices|))])
    ensures ResolveAll(before + [Stage(Matrix3x4, MatrixRef(|o.matrices|))], o')
      == ResolveAll(before, o) + [Op(Matrix3x4, MatrixArg(m))]
  {
    GrowsRefl(o);
    PushFront(m, o.matrices);
    ResolveAppend(before, [Stage(Matrix3x4, MatrixRef(|o.matrices|))], o, o');
  }

  /** The colour lookup table pushed at the back, color_lookup_table appended with its index. */
  lemma ClutAppend(before: seq<Stage>, clut: Clut, o: Owned, o': Owned)
    requires RefsInRange(before, o) && NoStores(before)
    requires o' == o.(cluts := o.cluts + [clut])
    ensures RefsInRange(before + [Stage(ColorLookupTable, ClutRef(|o.cluts|))], o')
    ensures NoStores(before + [Stage(ColorLookupTable, ClutRef(|o.cluts|))])
    ensures ResolveAll(before + [Stage(ColorLookupTable, ClutRef(|o.cluts|))], o')
      == ResolveAll(before, o) + [Op(ColorLookupTable, ClutArg(clut))]
  {
    assert o'.cluts[..|o.cluts|] == o.cluts;
    ResolveAppend(before, [Stage(ColorLookupTable, ClutRef(|o.cluts|))], o, o');
  }

  // ---------------------------------------------------------------------------
  // apply()

  datatype ColorFormat = RGBA8888 | BGRA8888 | RGBAF16 | RGBAF32

  datatype AlphaType = UnknownAlpha | OpaqueAlpha | PremulAlpha | UnpremulAlpha

  /** The source load; only the two 8888 orderings can be loaded. */
  function LoadStages(srcFormat: ColorFormat): seq<Stage> {
    match srcFormat
    case BGRA8888 => [Stage(LoadS8888, SrcCell), Stage(SwapRb, Null)]
    case RGBA8888 => [Stage(LoadS8888, SrcCell)]
    case _ => []
  }

  function StoreStages(dstFormat: ColorFormat): seq<Stage> {
    match dstFormat
    case BGRA8888 => [Stage(SwapRb, Null), Stage(Store8888, DstCell)]
    case RGBA8888 => [Stage(Store8888, DstCell)]
    case RGBAF16 => [Stage(StoreF16, DstCell)]
    case RGBAF32 => [Stage(StoreF32, DstCell)]
  }

  function ApplyStages(srcFormat: ColorFormat, elements: seq<Stage>, alphaType: AlphaType,
                       dstFormat: ColorFormat): seq<Stage> {
    LoadStages(srcFormat) + elements
    + (if alphaType == PremulAlpha then [Stage(Premul, Null)] else [])
    + StoreStages(dstFormat)
  }

  /**
   * The stages apply() appends to its on-stack pipeline fit the stage limit: nothing is
   * appended for a float source, and the store only when the destination can be written.
   */
  predicate ApplyFits(srcFormat: ColorFormat, elements: nat, alphaType: AlphaType, dstFormat: ColorFormat,
                      linearDstGamma: bool) {
    (srcFormat == RGBA8888 || srcFormat == BGRA8888) ==>
      |LoadStages(srcFormat)| + elements + (if alphaType == PremulAlpha then 1 else 0)
      + (if dstFormat == RGBAF16 || dstFormat == RGBAF32 ==> linearDstGamma then |StoreStages(dstFormat)| else 0)
      <= MaxStages
  }

  /**
   * A built apply() pipeline starts with the 8888 load and ends with exactly one store, the
   * one of the destination format, whatever colour-management stages lie between.
   */
  lemma ApplyStagesShape(srcFormat: ColorFormat, elements: seq<Stage>, alphaType: AlphaType,
                         dstFormat: ColorFormat)
    requires srcFormat == RGBA8888 || srcFormat == BGRA8888
    requires NoStores(elements)
    ensures var p := ApplyStages(srcFormat, elements, alphaType, dstFormat);
      && p[0] == Stage(LoadS8888, SrcCell)
      && CountStores(p) == 1
      && p[|p| - 1] == StoreStages(dstFormat)[|StoreStages(dstFormat)| - 1]
  {
    ApplyStagesStoreOnce(srcFormat, elements, alphaType, dstFormat);
  }

  /** Whatever the formats, the only store among the stages is the destination's. */
  lemma ApplyStagesStoreOnce(srcFormat: ColorFormat, elements: seq<Stage>, alphaType: AlphaType,
                             dstFormat: ColorFormat)
    requires NoStores(elements)
    ensures CountStores(ApplyStages(srcFormat, elements, alphaType, dstFormat)) == 1
  {
    var premul: seq<Stage> := if alphaType == PremulAlpha then [Stage(Premul, Null)] else [];
    var load := LoadStages(srcFormat);
    var store := StoreStages(dstFormat);
    LoadPremulCount(srcFormat, alphaType);
    NoStoresCount(elements);
    StoreStagesCount(dstFormat);
    CountStoresConcat(load, elements);
    CountStoresConcat(load + elements, premul);
    CountStoresConcat(load + elements + premul, store);
  }

  /** Neither the source load nor the premul stage writes to memory. */
  lemma LoadPremulCount(srcFormat: ColorFormat, alphaType: AlphaType)
    ensures CountStores(LoadStages(srcFormat)) == 0
    ensures CountStores(if alphaType == PremulAlpha then [Stage(Premul, Null)] else []) == 0
  {
    NoStoresCount(LoadStages(srcFormat));
    NoStoresCount(if alphaType == PremulAlpha then [Stage(Premul, Null)] else []);
  }

  lemma StoreStagesCount(dstFormat: ColorFormat)
    ensures CountStores(StoreStages(dstFormat)) == 1
  {
    var store := StoreStages(dstFormat);
    CountStoresSingle(store[|store| - 1]);
    if dstFormat == BGRA8888 {
      assert store == [Stage(SwapRb, Null)] + [Stage(Store8888, DstCell)];
      CountStoresSingle(Stage(SwapRb, Null));
      CountStoresConcat([Stage(SwapRb, Null)], [Stage(Store8888, DstCell)]);
    } else {
      assert store == [store[0]];
    }
  }

  // ---------------------------------------------------------------------------
  // Properties of the element pipeline

  function CountStage(ops: seq<Op>, k: StockStage): nat {
    if ops == [] then 0 else (if ops[0].stage == k then 1 else 0) + CountStage(ops[1..], k)
  }

  lemma {:induction false} CountStageConcat(a: seq<Op>, b: seq<Op>, k: StockStage)
    ensures CountStage(a + b, k) == CountStage(a, k) + CountStage(b, k)
    decreases |a|
  {
    if a == [] {
      assert a + b == b;
    } else {
      assert (a + b)[1..] == a[1..] + b;
      CountStageConcat(a[1..], b, k);
    }
  }

  /** No op of the sequence runs stage k. */
  predicate Lacks(ops: seq<Op>, k: StockStage) {
    forall i :: 0 <= i < |ops| ==> ops[i].stage != k
  }

  lemma {:induction false} LacksCount(ops: seq<Op>, k: StockStage)
    requires Lacks(ops, k)
    ensures CountStage(ops, k) == 0
    decreases |ops|
  {
    if ops != [] {
      LacksCount(ops[1..], k);
    }
  }

  lemma LacksConcat(a: seq<Op>, b: seq<Op>, k: StockStage)
    requires Lacks(a, k) && Lacks(b, k)
    ensures Lacks(a + b, k)
  {
    forall i | 0 <= i < |a + b|
      ensures (a + b)[i].stage != k
    {
      if i < |a| {
        assert (a + b)[i] == a[i];
      } else {
        assert (a + b)[i] == b[i - |a|];
      }
    }
  }

  lemma ChannelOpsLack(channels: Channels, r: StockStage, g: StockStage, b: StockStage, arg: Arg, k: StockStage)
    requires k != r && k != g && k != b
    ensures Lacks(ChannelOps(channels, r, g, b, arg), k)
  {
  }

  lemma ClampsNoLabToXyz()
    ensures Lacks(Clamps, LabToXyz)
  {
  }

  lemma MatrixNoLabToXyz(m: Matrix44)
    ensures Lacks(MatrixOps(m), LabToXyz)
  {
    ClampsNoLabToXyz();
    LacksConcat([Op(Matrix3x4, MatrixArg(PackMatrix(m)))], Clamps, LabToXyz);
  }

  lemma CurveNoLabToXyz(fn: TransferFn)
    ensures Lacks(TransferFnOps(fn, RGBChannels) + Clamps, LabToXyz)
  {
    ClampsNoLabToXyz();
    ChannelOpsLack(RGBChannels, ParametricR, ParametricG, ParametricB, FnArg(fn), LabToXyz);
    LacksConcat(TransferFnOps(fn, RGBChannels), Clamps, LabToXyz);
  }

  lemma GammaChannelNoLabToXyz(gammas: Gammas, channel: nat)
    requires channel < 3
    ensures Lacks(GammaChannelOps(gammas, channel), LabToXyz)
  {
    match gammas[channel] {
      case TableGamma(table) =>
        ChannelOpsLack(ChannelOf(channel), TableR, TableG, TableB, TableArg(table), LabToXyz);
      case _ =>
        ChannelOpsLack(ChannelOf(channel), ParametricR, ParametricG, ParametricB,
                       FnArg(GammaToParametric(gammas, channel)), LabToXyz);
    }
  }

  lemma {:induction false} GammaChannelsNoLabToXyz(gammas: Gammas, n: nat)
    requires n <= 3
    ensures Lacks(GammaChannelsOps(gammas, n), LabToXyz)
  {
    if n > 0 {
      GammaChannelsNoLabToXyz(gammas, n - 1);
      GammaChannelNoLabToXyz(gammas, n - 1);
      LacksConcat(GammaChannelsOps(gammas, n - 1), GammaChannelOps(gammas, n - 1), LabToXyz);
    }
  }

  lemma InverseChannelNoLabToXyz(gammas: Gammas, channel: nat, pow: (real, real) -> real,
                                 inverseInterp: (real, seq<real>) -> real)
    requires channel < 3
    ensures Lacks(InverseChannelOps(gammas, channel, pow, inverseInterp), LabToXyz)
  {
    match gammas[channel] {
      case TableGamma(table) =>
        ChannelOpsLack(ChannelOf(channel), TableR, TableG, TableB, TableArg(InverseTable(table, inverseInterp)), LabToXyz);
      case _ =>
        ChannelOpsLack(ChannelOf(channel), ParametricR, ParametricG, ParametricB,
                       FnArg(InvertParametric(GammaToParametric(gammas, channel), pow)), LabToXyz);
    }
  }

  lemma {:induction false} InverseChannelsNoLabToXyz(gammas: Gammas, n: nat, pow: (real, real) -> real,
                                                     inverseInterp: (real, seq<real>) -> real)
    requires n <= 3
    ensures Lacks(InverseChannelsOps(gammas, n, pow, inverseInterp), LabToXyz)
  {
    if n > 0 {
      InverseChannelsNoLabToXyz(gammas, n - 1, pow, inverseInterp);
      InverseChannelNoLabToXyz(gammas, n - 1, pow, inverseInterp);
      LacksConcat(InverseChannelsOps(gammas, n - 1, pow, inverseInterp),
                  InverseChannelOps(gammas, n - 1, pow, inverseInterp), LabToXyz);
    }
  }

  lemma ElementNoLabToXyz(e: Element)
    ensures Lacks(ElementOps(e), LabToXyz)
  {
    ClampsNoLabToXyz();
    match e {
      case GammaNamedElement(named) =>
        if named != Linear {
          CurveNoLabToXyz(GammaNamedToParametric(named));
        }
      case GammasElement(gammas) =>
        GammaChannelsNoLabToXyz(gammas, 3);
        LacksConcat(GammaChannelsOps(gammas, 3), Clamps, LabToXyz);
      case ClutElement(clut) =>
      case MatrixElement(m) =>
        if !IsIdentity(m) {
          MatrixNoLabToXyz(m);
        }
    }
  }

  lemma {:induction false} ElementsNoLabToXyz(es: seq<Element>)
    ensures Lacks(ElementsOps(es), LabToXyz)
    decreases |es|
  {
    if es != [] {
      ElementsNoLabToXyz(es[..|es| - 1]);
      ElementNoLabToXyz(es[|es| - 1]);
      LacksConcat(ElementsOps(es[..|es| - 1]), ElementOps(es[|es| - 1]), LabToXyz);
    }
  }

  lemma DstGammaNoLabToXyz(dst: XYZSpace, pow: (real, real) -> real, inverseInterp: (real, seq<real>) -> real)
    ensures Lacks(DstGammaOps(dst, pow, inverseInterp), LabToXyz)
  {
    ClampsNoLabToXyz();
    if dst.gammaNamed != NonStandard {
      if dst.gammaNamed != Linear {
        CurveNoLabToXyz(NamedInverseFn(dst.gammaNamed, pow));
      }
    } else {
      InverseChannelsNoLabToXyz(dst.gammas, 3, pow, inverseInterp);
      LacksConcat(InverseChannelsOps(dst.gammas, 3, pow, inverseInterp), Clamps, LabToXyz);
    }
  }

  lemma LabCount(pcs: PCS)
    ensures CountStage(PcsOps(pcs), LabToXyz) == if pcs == LabPCS then 1 else 0
  {
    if pcs == LabPCS {
      assert PcsOps(pcs)[1..] == [];
    }
  }

  /** The transform converts Lab to XYZ exactly once when the source PCS is Lab, never otherwise. */
  lemma LabToXyzOnlyForLab(src: A2BSpace, dst: XYZSpace, pow: (real, real) -> real,
                           inverseInterp: (real, seq<real>) -> real)
    ensures CountStage(XformOps(src, dst, pow, inverseInterp), LabToXyz) == if src.pcs == LabPCS then 1 else 0
  {
    var es := ElementsOps(src.elements);
    var lab := PcsOps(src.pcs);
    var mat := DstMatrixOps(dst.fromXYZD50);
    var out := DstGammaOps(dst, pow, inverseInterp);
    ElementsNoLabToXyz(src.elements);
    DstGammaNoLabToXyz(dst, pow, inverseInterp);
    if !IsIdentity(dst.fromXYZD50) {
      MatrixNoLabToXyz(dst.fromXYZD50);
    }
    LacksCount(es, LabToXyz);
    LacksCount(mat, LabToXyz);
    LacksCount(out, LabToXyz);
    LabCount(src.pcs);
    CountStageConcat(es, lab, LabToXyz);
    CountStageConcat(es + lab, mat, LabToXyz);
    CountStageConcat(es + lab + mat, out, LabToXyz);
  }

  /** A source element that converts nothing: a linear named gamma or an identity matrix. */
  predicate IsPassThrough(e: Element) {
    (e.GammaNamedElement? && e.named == Linear) || (e.MatrixElement? && IsIdentity(e.matrix))
  }

  lemma {:induction false} PassThroughElementsAddNothing(es: seq<Element>)
    requires forall i :: 0 <= i < |es| ==> IsPassThrough(es[i])
    ensures ElementsOps(es) == []
    decreases |es|
  {
    if es != [] {
      PassThroughElementsAddNothing(es[..|es| - 1]);
    }
  }

  /**
   * A transform whose source elements are all linear gammas or identity matrices, with an
   * XYZ PCS, to an identity-matrix linear destination, adds no stage between load and store.
   */
  lemma IdentityXformIsEmpty(src: A2BSpace, dst: XYZSpace, pow: (real, real) -> real,
                             inverseInterp: (real, seq<real>) -> real)
    requires forall i :: 0 <= i < |src.elements| ==> IsPassThrough(src.elements[i])
    requires src.pcs == XYZPCS && IsIdentity(dst.fromXYZD50) && dst.gammaNamed == Linear
    ensures XformOps(src, dst, pow, inverseInterp) == []
  {
    PassThroughElementsAddNothing(src.elements);
  }

  lemma {:induction false} ElementsOpsPrefix(es: seq<Element>, i: nat)
    requires i < |es|
    ensures ElementsOps(es[..i + 1]) == ElementsOps(es[..i]) + ElementOps(es[i])
    ensures |ElementsOps(es[..i + 1])| <= |ElementsOps(es)|
    decreases |es|
  {
    assert es[..i + 1][..i] == es[..i];
    if i + 1 < |es| {
      var front := es[..|es| - 1];
      assert front[..i + 1] == es[..i + 1] && front[..i] == es[..i] && front[i] == es[i];
      ElementsOpsPrefix(front, i);
    } else {
      assert es[..i + 1] == es;
    }
  }

  // ---------------------------------------------------------------------------
  // The transform

  class Xform {
    const fLinearDstGamma: bool
    const fElementsPipeline: Pipeline
    var fTransferFns: seq<TransferFn>
    var fTableTransferFns: seq<seq<real>>
    var fMatrices: seq<seq<real>>
    var fCLUTs: seq<Clut>

    ghost function Owning(): Owned
      reads this
    {
      Owned(fTransferFns, fTableTransferFns, fMatrices, fCLUTs)
    }

    /** Every context in the element pipeline points at an element this transform owns, and nothing stores. */
    ghost predicate Valid()
      reads this, fElementsPipeline, fElementsPipeline.fStages
    {
      && fElementsPipeline.Valid()
      && RefsInRange(fElementsPipeline.Stages(), Owning())
      && NoStores(fElementsPipeline.Stages())
    }

    /** The element pipeline with its contexts dereferenced. */
    ghost function Ops(): (ops: seq<Op>)
      reads this, fElementsPipeline, fElementsPipeline.fStages
      requires Valid()
      ensures |ops| == fElementsPipeline.fNum
    {
      ResolveAll(fElementsPipeline.Stages(), Owning())
    }

    /** An empty transform: no owned elements and an empty element pipeline. */
    constructor (linearDstGamma: bool)
      ensures Valid() && fresh(fElementsPipeline) && fresh(fElementsPipeline.fStages)
      ensures fLinearDstGamma == linearDstGamma && fElementsPipeline.fNum == 0
    {
      fLinearDstGamma := linearDstGamma;
      fElementsPipeline := new Pipeline();
      fTransferFns, fTableTransferFns, fMatrices, fCLUTs := [], [], [], [];
      new;
      assert Ops() == [];
    }

    /**
     * The source's constructor: records whether the destination gamma is linear, then
     * appends the stages of the source elements, the connection space and the destination.
     */
    static method Make(src: A2BSpace, dst: XYZSpace, pow: (real, real) -> real,
                       inverseInterp: (real, seq<real>) -> real) returns (x: Xform)
      requires |XformOps(src, dst, pow, inverseInterp)| <= MaxStages
      ensures x.Valid() && fresh(x) && fresh(x.fElementsPipeline) && fresh(x.fElementsPipeline.fStages)
      ensures x.fLinearDstGamma == (dst.gammaNamed == Linear)
      ensures x.Ops() == XformOps(src, dst, pow, inverseInterp)
    {
      x := new Xform(dst.gammaNamed == Linear);
      x.AddAll(src, dst, pow, inverseInterp);
    }

    /** The constructor body: the source elements, the connection space, then the destination. */
    method AddAll(src: A2BSpace, dst: XYZSpace, pow: (real, real) -> real, inverseInterp: (real, seq<real>) -> real)
      requires Valid() && fElementsPipeline.fNum == 0 && fLinearDstGamma == (dst.gammaNamed == Linear)
      requires |XformOps(src, dst, pow, inverseInterp)| <= MaxStages
      modifies this, fElementsPipeline, fElementsPipeline.fStages
      ensures Valid()
      ensures Ops() == XformOps(src, dst, pow, inverseInterp)
    {
      ghost var es := ElementsOps(src.elements);
      ghost var lab := PcsOps(src.pcs);
      ghost var mat := DstMatrixOps(dst.fromXYZD50);
      ghost var out := DstGammaOps(dst, pow, inverseInterp);
      assert |es| + |lab| + |mat| + |out| <= MaxStages;
      AddElements(src.elements);
      ghost var ops1 := Ops();
      AddPcs(src.pcs);
      ghost var ops2 := Ops();
      AddDstMatrix(dst.fromXYZD50);
      ghost var ops3 := Ops();
      AddDstGamma(dst, pow, inverseInterp);
      assert Ops() == ops3 + out && ops3 == ops2 + mat && ops2 == ops1 + lab && ops1 == es;
    }

    /** Lab to XYZ when the source's connection space is Lab. */
    method AddPcs(pcs: PCS)
      requires Valid() && (pcs == LabPCS ==> fElementsPipeline.fNum < MaxStages)
      modifies fElementsPipeline, fElementsPipeline.fStages
      ensures Valid()
      ensures Ops() == old(Ops()) + PcsOps(pcs)
    {
      if pcs == LabPCS {
        AppendPlain(LabToXyz);
      }
    }

    /** XYZ D50 to the destination's gamut, skipped for an identity matrix. */
    method AddDstMatrix(matrix: Matrix44)
      requires Valid() && (!IsIdentity(matrix) ==> fElementsPipeline.fNum + 3 <= MaxStages)
      modifies this, fElementsPipeline, fElementsPipeline.fStages
      ensures Valid()
      ensures Ops() == old(Ops()) + DstMatrixOps(matrix)
    {
      if !IsIdentity(matrix) {
        AddMatrix(matrix);
      }
    }

    /** The constructor's loop over the source elements, in order. */
    method AddElements(es: seq<Element>)
      requires Valid() && fElementsPipeline.fNum == 0 && |ElementsOps(es)| <= MaxStages
      modifies this, fElementsPipeline, fElementsPipeline.fStages
      ensures Valid()
      ensures Ops() == ElementsOps(es)
    {
      assert es[..0] == [];
      var i := 0;
      while i < |es|
        invariant i <= |es|
        invariant Valid()
        invariant Ops() == ElementsOps(es[..i])
      {
        ElementsOpsPrefix(es, i);
        AddElement(es[i]);
        i := i + 1;
      }
      assert es[..i] == es;
    }

    /** Appends a stage that takes no context. */
    method AppendPlain(k: StockStage)
      requires Valid() && fElementsPipeline.fNum < MaxStages && !IsStore(k)
      modifies fElementsPipeline, fElementsPipeline.fStages
      ensures Valid()
      ensures fElementsPipeline.Stages() == old(fElementsPipeline.Stages()) + [Stage(k, Null)]
      ensures Ops() == old(Ops()) + [Op(k, NoArg)]
    {
      ghost var before := fElementsPipeline.Stages();
      fElementsPipeline.Append(k, Null);
      PlainAppend(before, k, Owning());
    }

    /** Appends clamp_0 then clamp_1. */
    method AppendClamps()
      requires Valid() && fElementsPipeline.fNum + 2 <= MaxStages
      modifies fElementsPipeline, fElementsPipeline.fStages
      ensures Valid()
      ensures fElementsPipeline.Stages() == old(fElementsPipeline.Stages()) + [Stage(Clamp0, Null), Stage(Clamp1, Null)]
      ensures Ops() == old(Ops()) + Clamps
    {
      AppendPlain(Clamp0);
      AppendPlain(Clamp1);
    }

    /** The channel switch of addTransferFn and addTableFn: the r, g, b stage or all three, sharing ctx. */
    static method AppendChannels(pipeline: Pipeline, channels: Channels, r: StockStage, g: StockStage, b: StockStage, ctx: Ctx)
      requires pipeline.Valid() && pipeline.fNum + |ChannelStages(channels, r, g, b, ctx)| <= MaxStages
      modifies pipeline, pipeline.fStages
      ensures pipeline.Valid()
      ensures pipeline.Stages() == old(pipeline.Stages()) + ChannelStages(channels, r, g, b, ctx)
    {
      match channels {
        case RGBChannels =>
          pipeline.Append(r, ctx);
          pipeline.Append(g, ctx);
          pipeline.Append(b, ctx);
        case RChannel =>
          pipeline.Append(r, ctx);
        case GChannel =>
          pipeline.Append(g, ctx);
        case BChannel =>
          pipeline.Append(b, ctx);
      }
    }

    /** Pushes fn at the front of its list and appends its stages, all sharing that one context. */
    method AddTransferFn(fn: TransferFn, channels: Channels)
      requires Valid() && fElementsPipeline.fNum + |TransferFnOps(fn, channels)| <= MaxStages
      modifies this, fElementsPipeline, fElementsPipeline.fStages
      ensures Valid()
      ensures fTransferFns == [fn] + old(fTransferFns)
      ensures fTableTransferFns == old(fTableTransferFns) && fMatrices == old(fMatrices) && fCLUTs == old(fCLUTs)
      ensures fElementsPipeline.Stages() == old(fElementsPipeline.Stages())
        + ChannelStages(channels, ParametricR, ParametricG, ParametricB, TransferFnRef(|old(fTransferFns)|))
      ensures Ops() == old(Ops()) + TransferFnOps(fn, channels)
    {
      ghost var o := Owning();
      ghost var before := fElementsPipeline.Stages();
      var ctx := TransferFnRef(|fTransferFns|);
      fTransferFns := [fn] + fTransferFns;
      AppendChannels(fElementsPipeline, channels, ParametricR, ParametricG, ParametricB, ctx);
      TransferFnAppend(before, fn, channels, o, Owning());
    }

    /** Pushes the table at the front of its list and appends its stages, all sharing that one context. */
    method AddTableFn(table: seq<real>, channels: Channels)
      requires Valid() && fElementsPipeline.fNum + |TableFnOps(table, channels)| <= MaxStages
      modifies this, fElementsPipeline, fElementsPipeline.fStages
      ensures Valid()
      ensures fTableTransferFns == [table] + old(fTableTransferFns)
      ensures fTransferFns == old(fTransferFns) && fMatrices == old(fMatrices) && fCLUTs == old(fCLUTs)
      ensures fElementsPipeline.Stages() == old(fElementsPipeline.Stages())
        + ChannelStages(channels, TableR, TableG, TableB, TableFnRef(|old(fTableTransferFns)|))
      ensures Ops() == old(Ops()) + TableFnOps(table, channels)
    {
      ghost var o := Owning();
      ghost var before := fElementsPipeline.Stages();
      var ctx := TableFnRef(|fTableTransferFns|);
      fTableTransferFns := [table] + fTableTransferFns;
      AppendChannels(fElementsPipeline, channels, TableR, TableG, TableB, ctx);
      TableFnAppend(before, table, channels, o, Owning());
    }

    /** The top three rows of the matrix, column-major, in a fresh 12-float buffer. */
    static method PackColumns(matrix: Matrix44) returns (m: array<real>)
      ensures fresh(m) && m[..] == PackMatrix(matrix)
    {
      m := new real[12];
      m[0] := Get(matrix, 0, 0);
      m[1] := Get(matrix, 1, 0);
      m[2] := Get(matrix, 2, 0);
      m[3] := Get(matrix, 0, 1);
      m[4] := Get(matrix, 1, 1);
      m[5] := Get(matrix, 2, 1);
      m[6] := Get(matrix, 0, 2);
      m[7] := Get(matrix, 1, 2);
      m[8] := Get(matrix, 2, 2);
      m[9] := Get(matrix, 0, 3);
      m[10] := Get(matrix, 1, 3);
      m[11] := Get(matrix, 2, 3);
    }

    /** Pushes the packed matrix at the front of its list, then appends matrix_3x4, clamp_0, clamp_1. */
    method AddMatrix(matrix: Matrix44)
      requires Valid() && fElementsPipeline.fNum + 3 <= MaxStages
      modifies this, fElementsPipeline, fElementsPipeline.fStages
      ensures Valid()
      ensures fMatrices == [PackMatrix(matrix)] + old(fMatrices)
      ensures fTransferFns == old(fTransferFns) && fTableTransferFns == old(fTableTransferFns) && fCLUTs == old(fCLUTs)
      ensures fElementsPipeline.Stages() == old(fElementsPipeline.Stages())
        + [Stage(Matrix3x4, MatrixRef(|old(fMatrices)|)), Stage(Clamp0, Null), Stage(Clamp1, Null)]
      ensures Ops() == old(Ops()) + MatrixOps(matrix)
    {
      ghost var o := Owning();
      ghost var before := fElementsPipeline.Stages();
      var m := PackColumns(matrix);
      var ctx := MatrixRef(|fMatrices|);
      fMatrices := [m[..]] + fMatrices;
      fElementsPipeline.Append(Matrix3x4, ctx);
      MatrixAppend(before, m[..], o, Owning());
      AppendClamps();
      ConcatAssoc(old(Ops()), [Op(Matrix3x4, MatrixArg(PackMatrix(matrix)))], Clamps);
    }

    /** Pushes the colour lookup table at the back of its list and appends color_lookup_table. */
    method AddClut(clut: Clut)
      requires Valid() && fElementsPipeline.fNum < MaxStages
      modifies this, fElementsPipeline, fElementsPipeline.fStages
      ensures Valid()
      ensures fCLUTs == old(fCLUTs) + [clut]
      ensures fTransferFns == old(fTransferFns) && fTableTransferFns == old(fTableTransferFns) && fMatrices == old(fMatrices)
      ensures fElementsPipeline.Stages() == old(fElementsPipeline.Stages()) + [Stage(ColorLookupTable, ClutRef(|old(fCLUTs)|))]
      ensures Ops() == old(Ops()) + [Op(ColorLookupTable, ClutArg(clut))]
    {
      ghost var o := Owning();
      ghost var before := fElementsPipeline.Stages();
      var ctx := ClutRef(|fCLUTs|);
      fCLUTs := fCLUTs + [clut];
      fElementsPipeline.Append(ColorLookupTable, ctx);
      ClutAppend(before, clut, o, Owning());
    }

    /** A per-channel gamma element: a table stage or a parametric stage per channel, then the clamps. */
    method AddGammas(gammas: Gammas)
      requires Valid() && fElementsPipeline.fNum + 5 <= MaxStages
      modifies this, fElementsPipeline, fElementsPipeline.fStages
      ensures Valid()
      ensures Ops() == old(Ops()) + (GammaChannelsOps(gammas, 3) + Clamps)
    {
      for channel := 0 to 3
        invariant Valid()
        invariant Ops() == old(Ops()) + GammaChannelsOps(gammas, channel)
      {
        AddGammaChannel(gammas, channel);
      }
      AppendClamps();
      ConcatAssoc(old(Ops()), GammaChannelsOps(gammas, 3), Clamps);
    }

    /** One channel of a per-channel gamma element: its table, or its curve as a parametric function. */
    method AddGammaChannel(gammas: Gammas, channel: nat)
      requires channel < 3 && Valid() && fElementsPipeline.fNum < MaxStages
      modifies this, fElementsPipeline, fElementsPipeline.fStages
      ensures Valid()
      ensures Ops() == old(Ops()) + GammaChannelOps(gammas, channel)
    {
      match gammas[channel] {
        case TableGamma(table) =>
          AddTableFn(table, ChannelOf(channel));
        case _ =>
          AddTransferFn(GammaToParametric(gammas, channel), ChannelOf(channel));
      }
    }

    /** One source element, as the constructor's switch handles it. */
    method AddElement(e: Element)
      requires Valid() && fElementsPipeline.fNum + |ElementOps(e)| <= MaxStages
      modifies this, fElementsPipeline, fElementsPipeline.fStages
      ensures Valid()
      ensures Ops() == old(Ops()) + ElementOps(e)
    {
      match e {
        case GammaNamedElement(named) =>
          if named != Linear {
            AddCurve(GammaNamedToParametric(named));
          }
        case GammasElement(gammas) =>
          AddGammas(gammas);
        case ClutElement(clut) =>
          AddClut(clut);
        case MatrixElement(matrix) =>
          if !IsIdentity(matrix) {
            AddMatrix(matrix);
          }
      }
    }

    /** Per-channel destination gammas: each table inverted into a fresh table, each curve inverted. */
    method AddInverseGammas(gammas: Gammas, pow: (real, real) -> real, inverseInterp: (real, seq<real>) -> real)
      requires Valid() && fElementsPipeline.fNum + 5 <= MaxStages
      modifies this, fElementsPipeline, fElementsPipeline.fStages
      ensures Valid()
      ensures Ops() == old(Ops()) + InverseGammasOps(gammas, pow, inverseInterp)
    {
      for channel := 0 to 3
        invariant Valid()
        invariant fElementsPipeline.fNum == old(fElementsPipeline.fNum) + channel
        invariant Ops() == old(Ops()) + InverseChannelsOps(gammas, channel, pow, inverseInterp)
      {
        AddInverseGammaChannel(gammas, channel, pow, inverseInterp);
        ConcatAssoc(old(Ops()), InverseChannelsOps(gammas, channel, pow, inverseInterp),
                    InverseChannelOps(gammas, channel, pow, inverseInterp));
      }
      AppendClamps();
      ConcatAssoc(old(Ops()), InverseChannelsOps(gammas, 3, pow, inverseInterp), Clamps);
    }

    /** A named destination gamma: its inverse and the clamps, unless the destination is linear. */
    method AddNamedInverse(named: GammaNamed, pow: (real, real) -> real, linear: bool)
      requires Valid() && named != NonStandard && linear == (named == Linear)
      requires fElementsPipeline.fNum + |NamedInverseOps(named, pow)| <= MaxStages
      modifies this, fElementsPipeline, fElementsPipeline.fStages
      ensures Valid()
      ensures Ops() == old(Ops()) + NamedInverseOps(named, pow)
    {
      if !linear {
        var fn := InvertNamed(named, pow);
        AddCurve(fn);
      }
    }

    /** invert_parametric(gamma_named_to_parametric(named)) for a curved named gamma. */
    static method InvertNamed(named: GammaNamed, pow: (real, real) -> real) returns (fn: TransferFn)
      requires named == SRGB || named == TwoDotTwoCurve
      ensures fn == NamedInverseFn(named, pow)
    {
      fn := InvertParametric(GammaNamedToParametric(named), pow);
      NamedInverseIsInverse(named, pow);
    }

    /** A curve on all three channels followed by the clamps, as named gammas are added. */
    method AddCurve(fn: TransferFn)
      requires Valid() && fElementsPipeline.fNum + 5 <= MaxStages
      modifies this, fElementsPipeline, fElementsPipeline.fStages
      ensures Valid()
      ensures Ops() == old(Ops()) + (TransferFnOps(fn, RGBChannels) + Clamps)
    {
      AddTransferFn(fn, RGBChannels);
      AppendClamps();
      ConcatAssoc(old(Ops()), TransferFnOps(fn, RGBChannels), Clamps);
    }

    /** One destination channel: its table inverted into a fresh table, or its curve inverted. */
    method AddInverseGammaChannel(gammas: Gammas, channel: nat, pow: (real, real) -> real,
                                  inverseInterp: (real, seq<real>) -> real)
      requires channel < 3 && Valid() && fElementsPipeline.fNum < MaxStages
      modifies this, fElementsPipeline, fElementsPipeline.fStages
      ensures Valid()
      ensures Ops() == old(Ops()) + InverseChannelOps(gammas, channel, pow, inverseInterp)
    {
      match gammas[channel] {
        case TableGamma(table) =>
          var storage := BuildInverseTable(table, inverseInterp);
          assert storage == InverseTable(table, inverseInterp);
          AddTableFn(storage, ChannelOf(channel));
        case _ =>
          AddTransferFn(InvertParametric(GammaToParametric(gammas, channel), pow), ChannelOf(channel));
      }
    }

    /** XYZ to the destination's encoding: the inverse of its gamma, nothing when it is linear. */
    method AddDstGamma(dst: XYZSpace, pow: (real, real) -> real, inverseInterp: (real, seq<real>) -> real)
      requires Valid() && fLinearDstGamma == (dst.gammaNamed == Linear)
      requires fElementsPipeline.fNum + |DstGammaOps(dst, pow, inverseInterp)| <= MaxStages
      modifies this, fElementsPipeline, fElementsPipeline.fStages
      ensures Valid()
      ensures Ops() == old(Ops()) + DstGammaOps(dst, pow, inverseInterp)
    {
      if dst.gammaNamed != NonStandard {
        AddNamedInverse(dst.gammaNamed, pow, fLinearDstGamma);
      } else {
        AddInverseGammas(dst.gammas, pow, inverseInterp);
      }
    }

    /** The source switch of apply(): a float source cannot be loaded. */
    static method AppendLoad(pipeline: Pipeline, srcFormat: ColorFormat) returns (ok: bool)
      requires pipeline.Valid() && pipeline.fNum + |LoadStages(srcFormat)| <= MaxStages
      modifies pipeline, pipeline.fStages
      ensures pipeline.Valid()
      ensures ok <==> srcFormat == RGBA8888 || srcFormat == BGRA8888
      ensures ok ==> pipeline.Stages() == old(pipeline.Stages()) + LoadStages(srcFormat)
    {
      match srcFormat {
        case BGRA8888 =>
          pipeline.Append(LoadS8888, SrcCell);
          pipeline.Append(SwapRb, Null);
        case RGBA8888 =>
          pipeline.Append(LoadS8888, SrcCell);
        case _ =>
          return false;
      }
      return true;
    }

    /** The destination switch of apply(): a float destination needs a linear destination gamma. */
    static method AppendStore(pipeline: Pipeline, dstFormat: ColorFormat, linearDstGamma: bool) returns (ok: bool)
      requires pipeline.Valid()
      requires (dstFormat == RGBAF16 || dstFormat == RGBAF32 ==> linearDstGamma) ==>
        pipeline.fNum + |StoreStages(dstFormat)| <= MaxStages
      modifies pipeline, pipeline.fStages
      ensures pipeline.Valid()
      ensures ok <==> (dstFormat == RGBAF16 || dstFormat == RGBAF32 ==> linearDstGamma)
      ensures ok ==> pipeline.Stages() == old(pipeline.Stages()) + StoreStages(dstFormat)
    {
      match dstFormat {
        case BGRA8888 =>
          pipeline.Append(SwapRb, Null);
          pipeline.Append(Store8888, DstCell);
        case RGBA8888 =>
          pipeline.Append(Store8888, DstCell);
        case RGBAF16 =>
          if !linearDstGamma {
            return false;
          }
          pipeline.Append(StoreF16, DstCell);
        case RGBAF32 =>
          if !linearDstGamma {
            return false;
          }
          pipeline.Append(StoreF32, DstCell);
      }
      return true;
    }

    /**
     * Builds load, the element stages, an optional premul and the store, and runs it over
     * count pixels; fails for a float source, or a float destination without a linear gamma.
     */
    method Apply<S>(dstFormat: ColorFormat, srcFormat: ColorFormat, count: nat, alphaType: AlphaType,
                    kernel: (Stage, nat, nat, S) -> Step<S>, s0: S)
      returns (ok: bool, ran: seq<Stage>, s: S)
      requires Valid() && ApplyFits(srcFormat, fElementsPipeline.fNum, alphaType, dstFormat, fLinearDstGamma)
      ensures ok <==> (srcFormat == RGBA8888 || srcFormat == BGRA8888)
                      && (dstFormat == RGBAF16 || dstFormat == RGBAF32 ==> fLinearDstGamma)
      ensures ok ==> ran == ApplyStages(srcFormat, fElementsPipeline.Stages(), alphaType, dstFormat)
      ensures ok ==> ran[0] == Stage(LoadS8888, SrcCell) && CountStores(ran) == 1 && IsStore(ran[|ran| - 1].stage)
      ensures ok ==> s == Call(Compiled(ran), kernel, 0, 0, count, s0).state
      ensures !ok ==> ran == [] && s == s0
    {
      var built, p := Build(dstFormat, srcFormat, alphaType);
      if !built {
        return false, [], s0;
      }
      var _, s' := Invoke(p, kernel, 0, 0, count, s0);
      ok, ran, s := true, p.stages, s';
      ApplyStagesShape(srcFormat, fElementsPipeline.Stages(), alphaType, dstFormat);
    }

    /** The pipeline apply() builds on the stack, compiled; the element pipeline is left as it was. */
    method Build(dstFormat: ColorFormat, srcFormat: ColorFormat, alphaType: AlphaType)
      returns (ok: bool, p: Compiled)
      requires fElementsPipeline.Valid()
      requires ApplyFits(srcFormat, fElementsPipeline.fNum, alphaType, dstFormat, fLinearDstGamma)
      ensures ok <==> (srcFormat == RGBA8888 || srcFormat == BGRA8888)
                      && (dstFormat == RGBAF16 || dstFormat == RGBAF32 ==> fLinearDstGamma)
      ensures ok ==> p.stages == ApplyStages(srcFormat, fElementsPipeline.Stages(), alphaType, dstFormat)
    {
      p := Compiled([]);
      var pipeline := new Pipeline();
      var loaded := AppendLoad(pipeline, srcFormat);
      if !loaded {
        return false, p;
      }
      pipeline.Extend(fElementsPipeline);
      if alphaType == PremulAlpha {
        pipeline.Append(Premul, Null);
      }
      ghost var body := LoadStages(srcFormat) + fElementsPipeline.Stages()
        + (if alphaType == PremulAlpha then [Stage(Premul, Null)] else []);
      assert pipeline.Stages() == body;
      ok := AppendStore(pipeline, dstFormat, fLinearDstGamma);
      if ok {
        p := pipeline.Compile();
      }
    }
  }
}
