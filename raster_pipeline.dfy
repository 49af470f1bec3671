/**
 * SkRasterPipeline: a bounded, append-only list of (stage, context) pairs, and the
 * compiled function that runs it over a run of pixels [x, x+n) at a fixed y, in
 * 4-pixel slabs followed by at most one partial slab.
 *
 * The per-pixel kernels are not modelled: a run is parameterised by a kernel that maps a
 * stage, the slab's x and tail, and the register state to the next state, and says whether
 * the stage chained to the next stage or returned.
 */
module RasterPipeline {

  /** No pipeline may be more than MaxStages long. */
  const MaxStages: nat := 32

  /** Number of pixels in a full slab. */
  const SlabWidth: nat := 4

  /** The stock stage catalogue, in the order of SK_RASTER_PIPELINE_STAGES. */
  datatype StockStage =
    | Trace | Registers
    | MoveSrcDst | SwapSrcDst
    | Clamp0 | ClampA | Clamp1 | Unpremul | Premul
    | ConstantColor | StoreF32
    | LoadS565 | LoadD565 | Store565
    | LoadSSrgb | LoadDSrgb | StoreSrgb
    | LoadSF16 | LoadDF16 | StoreF16
    | LoadS8888 | Store8888
    | ScaleU8 | ScaleConstantFloat
    | LerpU8 | Lerp565 | LerpConstantFloat
    | Dst
    | DstAtop | DstIn | DstOut | DstOver
    | SrcAtop | SrcIn | SrcOut | SrcOver
    | Clear | Modulate | Multiply | Plus | Screen | Xor
    | ColorBurn | ColorDodge | Darken | Difference
    | Exclusion | HardLight | Lighten | Overlay | SoftLight
    | LuminanceToAlpha | Matrix3x4 | Matrix4x5
    | ParametricR | ParametricG | ParametricB
    | TableR | TableG | TableB
    | ColorLookupTable | LabToXyz | SwapRb

  /** The stages that write the working registers to memory. */
  predicate IsStore(s: StockStage) {
    s == StoreF32 || s == Store565 || s == StoreSrgb || s == StoreF16 || s == Store8888
  }

  /**
   * What a stage's untyped context pointer points at. The pipeline never looks inside;
   * the consumers in this model point at these cells.
   */
  datatype Ctx =
    | Null
    | SrcCell                 // &src, the source-pointer variable of a colour transform
    | DstCell                 // &dst, its destination-pointer variable
    | TransferFnRef(id: nat)  // the id-th transfer function a colour transform pushed
    | TableFnRef(id: nat)     // the id-th table transfer function it pushed
    | MatrixRef(id: nat)      // the id-th packed 3x4 matrix it pushed
    | ClutRef(index: nat)     // an entry of its colour lookup table list
    | PaintColor              // a blitter's paint colour itself
    | PaintColorPtr           // a variable holding the address of that paint colour
    | DstPtrCell              // a blitter's current destination row pointer
    | MaskPtrCell             // a blitter's current mask row pointer
    | CoverageCell            // a blitter's current constant coverage
    | ForeignCtx(id: nat)     // a context appended by a shader or colour filter

  datatype Stage = Stage(stage: StockStage, ctx: Ctx)

  predicate NoStores(stages: seq<Stage>) {
    forall i :: 0 <= i < |stages| ==> !IsStore(stages[i].stage)
  }

  /** How many of the stages write to memory. */
  function CountStores(stages: seq<Stage>): nat {
    if stages == [] then 0 else (if IsStore(stages[0].stage) then 1 else 0) + CountStores(stages[1..])
  }

  lemma {:induction false} CountStoresConcat(a: seq<Stage>, b: seq<Stage>)
    ensures CountStores(a + b) == CountStores(a) + CountStores(b)
    decreases |a|
  {
    if a == [] {
      assert a + b == b;
    } else {
      assert (a + b)[1..] == a[1..] + b;
      CountStoresConcat(a[1..], b);
    }
  }

  lemma {:induction false} NoStoresCount(stages: seq<Stage>)
    requires NoStores(stages)
    ensures CountStores(stages) == 0
    decreases |stages|
  {
    if stages != [] {
      NoStoresCount(stages[1..]);
    }
  }

  lemma CountStoresSingle(st: Stage)
    ensures CountStores([st]) == if IsStore(st.stage) then 1 else 0
  {
    assert [st][1..] == [];
  }

  /** The result of compile(): a function bound to the stage list as it was when compiled. */
  datatype Compiled = Compiled(stages: seq<Stage>)

  class Pipeline {
    var fNum: nat
    const fStages: array<Stage>

    ghost predicate Valid()
      reads this
    {
      fStages.Length == MaxStages && fNum <= MaxStages
    }

    /** The stages appended so far, in order. */
    function Stages(): (s: seq<Stage>)
      reads this, fStages
      requires Valid()
      ensures |s| == fNum <= MaxStages
    {
      fStages[..fNum]
    }

    constructor ()
      ensures Valid() && fresh(fStages)
      ensures Stages() == []
    {
      fNum := 0;
      fStages := new Stage[MaxStages];
    }

    /** Assigning a default-constructed pipeline over this one: it is empty again. */
    method Reset()
      requires Valid()
      modifies this
      ensures Valid()
      ensures Stages() == []
    {
      fNum := 0;
    }

    /** Adds one stage at the end; appending past MaxStages is a fatal error in the source. */
    method Append(stage: StockStage, ctx: Ctx)
      requires Valid() && fNum < MaxStages
      modifies this, fStages
      ensures Valid()
      ensures Stages() == old(Stages()) + [Stage(stage, ctx)]
    {
      fStages[fNum] := Stage(stage, ctx);
      fNum := fNum + 1;
    }

    /** Appends every stage of other, in order; other is left as it was. */
    method Extend(other: Pipeline)
      requires Valid() && other.Valid() && other.fStages != fStages
      requires fNum + other.fNum <= MaxStages
      modifies this, fStages
      ensures Valid()
      ensures Stages() == old(Stages()) + old(other.Stages())
      ensures other.Stages() == old(other.Stages())
    {
      var i := 0;
      while i < other.fNum
        invariant Valid() && i <= other.fNum
        invariant fNum == old(fNum) + i
        invariant other.Stages() == old(other.Stages())
        invariant Stages() == old(Stages()) + other.Stages()[..i]
      {
        Append(other.fStages[i].stage, other.fStages[i].ctx);
        i := i + 1;
      }
    }

    method Compile() returns (c: Compiled)
      requires Valid()
      ensures c.stages == Stages()
    {
      c := Compiled(fStages[..fNum]);
    }
  }

  // ---------------------------------------------------------------------------
  // Running a compiled pipeline

  /** What a stage does after its work: call next() with the new state, or return. */
  datatype Step<S> = Next(state: S) | Done(state: S)

  /** One stage invocation: which stage ran, for the slab at x with the given tail, in row y. */
  datatype Visit = Visit(stage: Stage, x: nat, y: nat, tail: nat)

  /** The outcome of one slab's chain: the invocations, the state, and whether a stage returned. */
  datatype Chain<S> = Chain(visits: seq<Visit>, state: S, stopped: bool)

  /** A slab starting at x; tail 0 means all SlabWidth lanes are used, 1..3 the low lanes only. */
  datatype Slab = Slab(x: nat, tail: nat)

  /** The outcome of a whole call of a compiled function. */
  datatype Run<S> = Run(visits: seq<Visit>, state: S)

  /** The slabs a call over [x, x+n) works through. */
  function Slabs(x: nat, n: nat): seq<Slab>
    decreases n
  {
    if n >= SlabWidth then [Slab(x, 0)] + Slabs(x + SlabWidth, n - SlabWidth)
    else if n > 0 then [Slab(x, n)]
    else []
  }

  function Width(s: Slab): nat {
    if s.tail == 0 then SlabWidth else s.tail
  }

  /** The x positions a slab covers. */
  function Lanes(s: Slab): seq<nat> {
    seq(Width(s), i => s.x + i)
  }

  function Covered(slabs: seq<Slab>): seq<nat> {
    if slabs == [] then [] else Lanes(slabs[0]) + Covered(slabs[1..])
  }

  /** x, x+1, ..., x+n-1. */
  function Range(x: nat, n: nat): seq<nat> {
    seq(n, i => x + i)
  }

  /**
   * The chain of one slab: each stage in turn, until one returns instead of chaining.
   * The kernel is not given y: a stage that needs it takes it from its context.
   */
  function RunChain<S>(stages: seq<Stage>, kernel: (Stage, nat, nat, S) -> Step<S>,
                       x: nat, y: nat, tail: nat, s: S): Chain<S>
    decreases |stages|
  {
    if stages == [] then Chain([], s, false)
    else
      var v := Visit(stages[0], x, y, tail);
      match kernel(stages[0], x, tail, s)
      case Done(s') => Chain([v], s', true)
      case Next(s') =>
        var rest := RunChain(stages[1..], kernel, x, y, tail, s');
        Chain([v] + rest.visits, rest.state, rest.stopped)
  }

  /** Every slab in turn, threading the state. */
  function RunSlabs<S>(stages: seq<Stage>, kernel: (Stage, nat, nat, S) -> Step<S>,
                       slabs: seq<Slab>, y: nat, s: S): Run<S>
    decreases |slabs|
  {
    if slabs == [] then Run([], s)
    else
      var c := RunChain(stages, kernel, slabs[0].x, y, slabs[0].tail, s);
      var rest := RunSlabs(stages, kernel, slabs[1..], y, c.state);
      Run(c.visits + rest.visits, rest.state)
  }

  /** What calling a compiled function with (x, y, n) does. */
  function Call<S>(c: Compiled, kernel: (Stage, nat, nat, S) -> Step<S>,
                   x: nat, y: nat, n: nat, s: S): Run<S>
  {
    RunSlabs(c.stages, kernel, Slabs(x, n), y, s)
  }

  /** One slab: an explicit loop over the stages with a stop flag. */
  method RunStages<S>(stages: seq<Stage>, kernel: (Stage, nat, nat, S) -> Step<S>,
                      x: nat, y: nat, tail: nat, s0: S)
    returns (visits: seq<Visit>, s: S, stopped: bool)
    ensures Chain(visits, s, stopped) == RunChain(stages, kernel, x, y, tail, s0)
  {
    visits, s, stopped := [], s0, false;
    var i := 0;
    while i < |stages| && !stopped
      invariant i <= |stages|
      invariant stopped ==> Chain(visits, s, true) == RunChain(stages, kernel, x, y, tail, s0)
      invariant !stopped ==>
        var rest := RunChain(stages[i..], kernel, x, y, tail, s);
        RunChain(stages, kernel, x, y, tail, s0) == Chain(visits + rest.visits, rest.state, rest.stopped)
    {
      assert stages[i..][0] == stages[i] && stages[i..][1..] == stages[i + 1..];
      var v := Visit(stages[i], x, y, tail);
      match kernel(stages[i], x, tail, s) {
        case Done(s') =>
          visits, s, stopped := visits + [v], s', true;
        case Next(s') =>
          visits, s := visits + [v], s';
      }
      i := i + 1;
    }
  }

  /** A call of a compiled function: full slabs with tail 0, then one partial slab if n % 4 != 0. */
  method Invoke<S>(c: Compiled, kernel: (Stage, nat, nat, S) -> Step<S>,
                   x: nat, y: nat, n: nat, s0: S)
    returns (visits: seq<Visit>, s: S)
    ensures Run(visits, s) == Call(c, kernel, x, y, n, s0)
  {
    var cx: nat, cn: nat := x, n;
    visits, s := [], s0;
    while cn >= SlabWidth
      invariant
        var rest := RunSlabs(c.stages, kernel, Slabs(cx, cn), y, s);
        Call(c, kernel, x, y, n, s0) == Run(visits + rest.visits, rest.state)
    {
      var vs, s', _ := RunStages(c.stages, kernel, cx, y, 0, s);
      visits, s := visits + vs, s';
      cx, cn := cx + SlabWidth, cn - SlabWidth;
    }
    if cn > 0 {
      var vs, s', _ := RunStages(c.stages, kernel, cx, y, cn, s);
      visits, s := visits + vs, s';
    }
  }

  // ---------------------------------------------------------------------------
  // Properties of a call

  /** The slabs cover [x, x+n): every x exactly once, in increasing order. */
  lemma {:induction false} SlabsCoverRange(x: nat, n: nat)
    ensures Covered(Slabs(x, n)) == Range(x, n)
    decreases n
  {
    if n >= SlabWidth {
      SlabsCoverRange(x + SlabWidth, n - SlabWidth);
      assert Slabs(x, n)[1..] == Slabs(x + SlabWidth, n - SlabWidth);
      assert Range(x, n) == Lanes(Slab(x, 0)) + Range(x + SlabWidth, n - SlabWidth);
    } else if n > 0 {
      assert Slabs(x, n)[1..] == [];
      assert Range(x, n) == Lanes(Slab(x, n));
    }
  }

  /**
   * n / 4 full slabs with tail 0 come first; a final slab with tail n % 4 follows exactly
   * when n % 4 != 0.
   */
  lemma {:induction false} SlabsShape(x: nat, n: nat)
    ensures |Slabs(x, n)| == n / SlabWidth + (if n % SlabWidth == 0 then 0 else 1)
    ensures forall i :: 0 <= i < n / SlabWidth ==> Slabs(x, n)[i] == Slab(x + SlabWidth * i, 0)
    ensures n % SlabWidth != 0 ==> Slabs(x, n)[n / SlabWidth] == Slab(x + n - n % SlabWidth, n % SlabWidth)
    decreases n
  {
    if n >= SlabWidth {
      SlabsShape(x + SlabWidth, n - SlabWidth);
      var rest := Slabs(x + SlabWidth, n - SlabWidth);
      assert Slabs(x, n) == [Slab(x, 0)] + rest;
      assert (n - SlabWidth) / SlabWidth == n / SlabWidth - 1;
      assert (n - SlabWidth) % SlabWidth == n % SlabWidth;
      forall i | 0 <= i < n / SlabWidth
        ensures Slabs(x, n)[i] == Slab(x + SlabWidth * i, 0)
      {
        if i > 0 {
          assert Slabs(x, n)[i] == rest[i - 1];
        }
      }
    }
  }

  /** No partial slab has a tail of 0 or of 4 or more: tails of partial slabs are 1..3. */
  lemma {:induction false} SlabTails(x: nat, n: nat)
    ensures forall s :: s in Slabs(x, n) ==> s.tail < SlabWidth
    ensures forall s :: s in Slabs(x, n) && s.tail != 0 ==> s.tail == n % SlabWidth && s.x + s.tail == x + n
    decreases n
  {
    if n >= SlabWidth {
      SlabTails(x + SlabWidth, n - SlabWidth);
      assert (n - SlabWidth) % SlabWidth == n % SlabWidth;
    }
  }

  /**
   * Running A ++ B is running A, then, unless a stage of A returned, running B from the
   * state A left: a returning stage ends the chain and no later stage runs for that slab.
   */
  lemma {:induction false} ChainConcat<S>(a: seq<Stage>, b: seq<Stage>,
                                          kernel: (Stage, nat, nat, S) -> Step<S>,
                                          x: nat, y: nat, tail: nat, s: S)
    ensures
      var ca := RunChain(a, kernel, x, y, tail, s);
      RunChain(a + b, kernel, x, y, tail, s) ==
        if ca.stopped then ca
        else
          var cb := RunChain(b, kernel, x, y, tail, ca.state);
          Chain(ca.visits + cb.visits, cb.state, cb.stopped)
    decreases |a|
  {
    if a == [] {
      assert a + b == b;
    } else {
      assert (a + b)[0] == a[0] && (a + b)[1..] == a[1..] + b;
      match kernel(a[0], x, tail, s) {
        case Done(s') =>
        case Next(s') =>
          ChainConcat(a[1..], b, kernel, x, y, tail, s');
      }
    }
  }

  /**
   * A chain visits a prefix of the stages, in order, all with the slab's x, y and tail;
   * it visits fewer than all of them only when some stage returned.
   */
  lemma {:induction false} ChainVisitsPrefix<S>(stages: seq<Stage>, kernel: (Stage, nat, nat, S) -> Step<S>,
                                                x: nat, y: nat, tail: nat, s: S)
    ensures
      var c := RunChain(stages, kernel, x, y, tail, s);
      && |c.visits| <= |stages|
      && (forall j :: 0 <= j < |c.visits| ==> c.visits[j] == Visit(stages[j], x, y, tail))
      && (|c.visits| < |stages| ==> c.stopped)
    decreases |stages|
  {
    if stages != [] {
      match kernel(stages[0], x, tail, s) {
        case Done(s') =>
        case Next(s') =>
          ChainVisitsPrefix(stages[1..], kernel, x, y, tail, s');
      }
    }
  }

  /** Every stage invocation of a call is in row y and belongs to one of the call's slabs. */
  lemma {:induction false} CallVisitsSlabs<S>(stages: seq<Stage>, kernel: (Stage, nat, nat, S) -> Step<S>,
                                              slabs: seq<Slab>, y: nat, s: S)
    ensures forall v :: v in RunSlabs(stages, kernel, slabs, y, s).visits ==>
      v.y == y && Slab(v.x, v.tail) in slabs
    decreases |slabs|
  {
    if slabs != [] {
      var c := RunChain(stages, kernel, slabs[0].x, y, slabs[0].tail, s);
      ChainVisitsPrefix(stages, kernel, slabs[0].x, y, slabs[0].tail, s);
      CallVisitsSlabs(stages, kernel, slabs[1..], y, c.state);
    }
  }
}
