# Skia raster pipeline, A2B colour transform, pipeline blitter and Qt3D picking utilities

This project models four pieces of the Qt WebEngine / Qt3D code base in Dafny and proves
properties of the model.

- **SkRasterPipeline** (`raster_pipeline.dfy`, module `RasterPipeline`). A pipeline is a
  bounded list of at most 32 stages held in a fixed array. `append` adds one stage and its
  context, `extend` copies another pipeline's stages, and `compile` produces the function
  that runs the stages over `[x, x+n)` of row `y`. That function works in four-pixel slabs,
  then one partial slab whose tail is `n % 4`. Each stage either chains to the next one or
  returns, which ends the chain for that slab.
- **SkColorSpaceXform_A2B** (`colorspace_xform.dfy`, module `ColorSpaceXformA2B`). The
  constructor turns an A2B source colour space and an XYZ destination into an "elements"
  pipeline. For each source element it adds gamma curves, tables, colour lookup tables and
  matrices. A Lab-to-XYZ stage follows for a Lab connection space, then the destination
  matrix, then the inverse destination gamma. The file also holds the parametric
  transfer-function helpers (`value_to_parametric`, `gammanamed_to_parametric`,
  `gamma_to_parametric`, `invert_parametric`) and `build_inverse_table`. `onApply` wraps
  the elements in a load, an optional premultiply and a store, and runs the result.
- **SkRasterPipelineBlitter** (`raster_pipeline_blitter.dfy`, module
  `RasterPipelineBlitter`). `Create` checks the destination, builds the paint's shader
  pipeline and folds a constant paint into one colour. Where that colour is fully
  covering it turns SrcOver into Src. The blitter lazily compiles, and then caches, one
  pipeline each for `blitH`, `blitAntiH` and the A8 and LCD16 masks. Every call of a
  compiled function is recorded in a `calls` log, together with the row pointers and
  coverage bound at the time.
- **Qt3D picking utilities** (`picking.dfy`, module `PickingUtils`):
  - the frame-graph walk that collects the viewport, camera and surface of each leaf;
  - the entity gatherer;
  - the collision visitor that tests triangles;
  - the reduction of the hits of several picking jobs;
  - the hierarchical worklist picker.

`wrappers.dfy` holds `Option` and a sequence-concatenation lemma.

Floats are modelled as `real`. Foreign calls are function-typed parameters:
- `powf`;
- the inverse interpolation of a lookup table;
- the blend-mode stage lists;
- shader and colour-filter `appendStages`;
- the one-pixel run of the constant-colour pass;
- the ray queries;
- the viewport composition.

The pixel work of a stage is a `kernel` parameter. It maps a stage, `x`, the tail and a
state to "chain with this state" or "return with this state".

## Model

| member | source | states |
|---|---|---|
| RasterPipeline.CountStoresConcat | qtwebengine/src/3rdparty/chromium/third_party/skia/src/core/SkRasterPipeline.h:57-77 | The number of store stages in a concatenation is the sum over its parts. |
| RasterPipeline.NoStoresCount | qtwebengine/src/3rdparty/chromium/third_party/skia/src/core/SkRasterPipeline.h:57-77 | A stage list without store stages has a store count of zero. |
| RasterPipeline.CountStoresSingle | qtwebengine/src/3rdparty/chromium/third_party/skia/src/core/SkRasterPipeline.h:57-77 | A single stage counts one store exactly when it is one of the store stages. |
| RasterPipeline.Pipeline.Stages | qtwebengine/src/3rdparty/chromium/third_party/skia/src/core/SkRasterPipeline.h:81-82 | The stage list has fNum entries, never more than kMaxStages (32). |
| RasterPipeline.Pipeline.constructor | qtwebengine/src/3rdparty/chromium/third_party/skia/src/core/SkRasterPipeline.h:108-109 | A new pipeline has no stages and owns a fresh 32-entry array. |
| RasterPipeline.Pipeline.Reset | qtwebengine/src/3rdparty/chromium/third_party/skia/src/core/SkRasterPipeline.h:108-109 | Assigning an empty pipeline leaves no stages. |
| RasterPipeline.Pipeline.Append | qtwebengine/src/3rdparty/chromium/third_party/skia/src/core/SkRasterPipeline.h:91-92 | With room left, the stage list becomes the old list followed by the stage and its context. |
| RasterPipeline.Pipeline.Extend | qtwebengine/src/3rdparty/chromium/third_party/skia/src/core/SkRasterPipeline.h:94-95 | The stage list becomes the old list followed by the other pipeline's stages, and the other pipeline is unchanged. |
| RasterPipeline.Pipeline.Compile | qtwebengine/src/3rdparty/chromium/third_party/skia/src/core/SkRasterPipeline.h:97-98 | The compiled function runs exactly the current stage list. |
| RasterPipeline.RunStages | qtwebengine/src/3rdparty/chromium/third_party/skia/src/core/SkRasterPipeline.h:44-51 | The loop over one slab produces the visits, the state and the stopped flag that the chain definition gives: each stage chains with next() or returns. |
| RasterPipeline.Invoke | qtwebengine/src/3rdparty/chromium/third_party/skia/src/core/SkRasterPipeline.h:97-98 | A call over (x, y, n) produces the visits and final state of running full slabs with tail 0, then one partial slab. |
| RasterPipeline.SlabsCoverRange | qtwebengine/src/3rdparty/chromium/third_party/skia/src/core/SkRasterPipeline.h:30-35 | The lanes of the slabs of a call are exactly x, x+1, ..., x+n-1, in order, each once. |
| RasterPipeline.SlabsShape | qtwebengine/src/3rdparty/chromium/third_party/skia/src/core/SkRasterPipeline.h:30-35 | There are n/4 full slabs at x, x+4, ..., and one more slab when n % 4 != 0, with tail n % 4 and starting at x + n - n % 4. |
| RasterPipeline.SlabTails | qtwebengine/src/3rdparty/chromium/third_party/skia/src/core/SkRasterPipeline.h:34-36 | Every tail is below 4, and a non-zero tail is n % 4 on the slab that ends at x + n. |
| RasterPipeline.ChainConcat | qtwebengine/src/3rdparty/chromium/third_party/skia/src/core/SkRasterPipeline.h:44-51 | Running A then B is running A, then B from A's state unless a stage of A returned; a returning stage ends the chain. |
| RasterPipeline.ChainVisitsPrefix | qtwebengine/src/3rdparty/chromium/third_party/skia/src/core/SkRasterPipeline.h:44-51 | A chain visits a prefix of the stages, in order, with the slab's x, y and tail; it stops short only when a stage returned. |
| RasterPipeline.CallVisitsSlabs | qtwebengine/src/3rdparty/chromium/third_party/skia/src/core/SkRasterPipeline.h:30-35 | Every stage invocation of a call is in row y and belongs to one of the call's slabs. |
| ColorSpaceXformA2B.EvalCurved | qtwebengine/src/3rdparty/chromium/third_party/skia/src/core/SkColorSpaceXform_A2B.cpp:106-121 | At or above d, a parametric transfer function evaluates to (a·x + b)^g + e. |
| ColorSpaceXformA2B.ValueToParametricIsPower | qtwebengine/src/3rdparty/chromium/third_party/skia/src/core/SkColorSpaceXform_A2B.cpp:75-77 | The function built from an exponent evaluates to x^exp on non-negative inputs and to 0 below. |
| ColorSpaceXformA2B.GammaNamedToParametric | qtwebengine/src/3rdparty/chromium/third_party/skia/src/core/SkColorSpaceXform_A2B.cpp:79-91 | The result is the invalid function exactly for a non-standard gamma; every named curve gets g > 0, a > 0 and c >= 0. |
| ColorSpaceXformA2B.GammaToParametric | qtwebengine/src/3rdparty/chromium/third_party/skia/src/core/SkColorSpaceXform_A2B.cpp:93-105 | A named channel goes through the named conversion, a value channel becomes the power curve of that value, a parametric channel is returned as stored, and a table or absent channel gives the invalid function. |
| ColorSpaceXformA2B.InvertParametric | qtwebengine/src/3rdparty/chromium/third_party/skia/src/core/SkColorSpaceXform_A2B.cpp:106-151 | With c = 0 the inverse's linear segment is c = f = 0; a curve with a = 0 or g = 0 gets the fixed top segment g = 1, a = 0, b = 0, e = 1; the inverse's threshold is always c·d + f. |
| ColorSpaceXformA2B.NamedInverseIsInverse | qtwebengine/src/3rdparty/chromium/third_party/skia/src/core/SkColorSpaceXform_A2B.cpp:247-254 | The inverses used for the sRGB and 2.2 destination curves are invert_parametric of their parametric forms. |
| ColorSpaceXformA2B.LinearSegmentInverts | qtwebengine/src/3rdparty/chromium/third_party/skia/src/core/SkColorSpaceXform_A2B.cpp:125-134 | On the linear segment the inverse's c and f undo c·x + f for every x. |
| ColorSpaceXformA2B.LinearSegmentRoundTrip | qtwebengine/src/3rdparty/chromium/third_party/skia/src/core/SkColorSpaceXform_A2B.cpp:106-151 | With c > 0 and x below d, evaluating the inverse on the function's value gives x back. |
| ColorSpaceXformA2B.CurvedSegmentInverts | qtwebengine/src/3rdparty/chromium/third_party/skia/src/core/SkColorSpaceXform_A2B.cpp:136-151 | On the curved segment the inverse evaluates to ((y - e)^(1/g) - b) / a, the algebraic inverse of (a·x + b)^g + e. |
| ColorSpaceXformA2B.SamplePoint | qtwebengine/src/3rdparty/chromium/third_party/skia/src/core/SkColorSpaceXform_A2B.cpp:153-162 | The inverse table's sample points run from 0 at the first entry to 1 at the last, all within [0, 1]. |
| ColorSpaceXformA2B.InverseTable | qtwebengine/src/3rdparty/chromium/third_party/skia/src/core/SkColorSpaceXform_A2B.cpp:153-162 | The inverse table has kInvTableSize (256) entries. |
| ColorSpaceXformA2B.BuildInverseTable | qtwebengine/src/3rdparty/chromium/third_party/skia/src/core/SkColorSpaceXform_A2B.cpp:153-162 | Entry i of the filled 256-entry table is the inverse interpolation of the input table at i/255. |
| ColorSpaceXformA2B.PackMatrix | qtwebengine/src/3rdparty/chromium/third_party/skia/src/core/SkColorSpaceXform_A2B.cpp:323-345 | The 12 packed values are the top three rows in column-major order: entry 3·col + row is the matrix's (row, col). |
| ColorSpaceXformA2B.ChannelOf | qtwebengine/src/3rdparty/chromium/third_party/skia/src/core/SkColorSpaceXform_A2B.cpp:197-209 | A channel index converts to a single channel, never to all three. |
| ColorSpaceXformA2B.ChannelOps | qtwebengine/src/3rdparty/chromium/third_party/skia/src/core/SkColorSpaceXform_A2B.cpp:279-299 | A channel selection adds three stages for RGB and one for a single channel. |
| ColorSpaceXformA2B.TransferFnOps | qtwebengine/src/3rdparty/chromium/third_party/skia/src/core/SkColorSpaceXform_A2B.cpp:279-299 | addTransferFn adds three parametric stages for RGB and one for a single channel. |
| ColorSpaceXformA2B.TableFnOps | qtwebengine/src/3rdparty/chromium/third_party/skia/src/core/SkColorSpaceXform_A2B.cpp:301-321 | addTableFn adds three table stages for RGB and one for a single channel. |
| ColorSpaceXformA2B.GammaChannelsOps | qtwebengine/src/3rdparty/chromium/third_party/skia/src/core/SkColorSpaceXform_A2B.cpp:197-209 | A Gammas element adds exactly one stage per channel handled. |
| ColorSpaceXformA2B.InverseChannelsOps | qtwebengine/src/3rdparty/chromium/third_party/skia/src/core/SkColorSpaceXform_A2B.cpp:255-272 | The inverse destination gammas add exactly one stage per channel handled. |
| ColorSpaceXformA2B.ResolveAll | qtwebengine/src/3rdparty/chromium/third_party/skia/src/core/SkColorSpaceXform_A2B.cpp:279-299 | Resolving the context of every stage keeps one operation per stage. |
| ColorSpaceXformA2B.ResolveGrows | qtwebengine/src/3rdparty/chromium/third_party/skia/src/core/SkColorSpaceXform_A2B.cpp:279-281 | Pushing onto the front of the owned lists never changes what an earlier stage's context points at. |
| ColorSpaceXformA2B.ResolveAppend | qtwebengine/src/3rdparty/chromium/third_party/skia/src/core/SkColorSpaceXform_A2B.cpp:279-299 | After the owned lists grow, the old stages resolve as before and the new stages resolve against the grown lists. |
| ColorSpaceXformA2B.TransferFnAppend | qtwebengine/src/3rdparty/chromium/third_party/skia/src/core/SkColorSpaceXform_A2B.cpp:279-299 | Stages that point at the newly pushed transfer function resolve to that function, and earlier stages are unchanged. |
| ColorSpaceXformA2B.TableFnAppend | qtwebengine/src/3rdparty/chromium/third_party/skia/src/core/SkColorSpaceXform_A2B.cpp:301-321 | Stages that point at the newly pushed table resolve to that table, and earlier stages are unchanged. |
| ColorSpaceXformA2B.MatrixAppend | qtwebengine/src/3rdparty/chromium/third_party/skia/src/core/SkColorSpaceXform_A2B.cpp:323-345 | The matrix stage resolves to the newly pushed packed matrix, and earlier stages are unchanged. |
| ColorSpaceXformA2B.ClutAppend | qtwebengine/src/3rdparty/chromium/third_party/skia/src/core/SkColorSpaceXform_A2B.cpp:219-225 | The lookup-table stage resolves to the CLUT appended at the back, and earlier stages are unchanged. |
| ColorSpaceXformA2B.ApplyStagesShape | qtwebengine/src/3rdparty/chromium/third_party/skia/src/core/SkColorSpaceXform_A2B.cpp:24-73 | For an 8888 source the run starts with the 8888 load, ends with the store and stores exactly once. |
| ColorSpaceXformA2B.ApplyStagesStoreOnce | qtwebengine/src/3rdparty/chromium/third_party/skia/src/core/SkColorSpaceXform_A2B.cpp:46-66 | Whatever the formats, onApply's stage list stores exactly once. |
| ColorSpaceXformA2B.StoreStagesCount | qtwebengine/src/3rdparty/chromium/third_party/skia/src/core/SkColorSpaceXform_A2B.cpp:46-66 | Each destination format's store sequence holds exactly one store stage. |
| ColorSpaceXformA2B.CountStageConcat | qtwebengine/src/3rdparty/chromium/third_party/skia/src/core/SkColorSpaceXform_A2B.cpp:236-240 | Counting one kind of stage over a concatenation gives the sum over its parts. |
| ColorSpaceXformA2B.LacksCount | qtwebengine/src/3rdparty/chromium/third_party/skia/src/core/SkColorSpaceXform_A2B.cpp:236-240 | A list without a stage kind counts zero of it. |
| ColorSpaceXformA2B.ElementsNoLabToXyz | qtwebengine/src/3rdparty/chromium/third_party/skia/src/core/SkColorSpaceXform_A2B.cpp:176-234 | No source element adds a Lab-to-XYZ stage. |
| ColorSpaceXformA2B.DstGammaNoLabToXyz | qtwebengine/src/3rdparty/chromium/third_party/skia/src/core/SkColorSpaceXform_A2B.cpp:247-276 | The destination gamma adds no Lab-to-XYZ stage. |
| ColorSpaceXformA2B.LabCount | qtwebengine/src/3rdparty/chromium/third_party/skia/src/core/SkColorSpaceXform_A2B.cpp:236-240 | The connection-space step adds one Lab-to-XYZ stage for Lab and none for XYZ. |
| ColorSpaceXformA2B.LabToXyzOnlyForLab | qtwebengine/src/3rdparty/chromium/third_party/skia/src/core/SkColorSpaceXform_A2B.cpp:164-277 | The whole transform holds exactly one Lab-to-XYZ stage for a Lab source and none otherwise. |
| ColorSpaceXformA2B.PassThroughElementsAddNothing | qtwebengine/src/3rdparty/chromium/third_party/skia/src/core/SkColorSpaceXform_A2B.cpp:176-234 | Linear named gammas and identity matrices add no stages. |
| ColorSpaceXformA2B.IdentityXformIsEmpty | qtwebengine/src/3rdparty/chromium/third_party/skia/src/core/SkColorSpaceXform_A2B.cpp:164-277 | Pass-through elements, an XYZ connection space, an identity destination matrix and a linear destination give an empty elements pipeline. |
| ColorSpaceXformA2B.ElementsOpsPrefix | qtwebengine/src/3rdparty/chromium/third_party/skia/src/core/SkColorSpaceXform_A2B.cpp:176-234 | The elements loop's stages after i+1 elements are those after i elements followed by element i's, and never more than for all elements. |
| ColorSpaceXformA2B.Xform.Ops | qtwebengine/src/3rdparty/chromium/third_party/skia/src/core/SkColorSpaceXform_A2B.cpp:164-176 | The resolved view of the elements pipeline has one operation per stage. |
| ColorSpaceXformA2B.Xform.constructor | qtwebengine/src/3rdparty/chromium/third_party/skia/src/core/SkColorSpaceXform_A2B.cpp:164-175 | A new transform has an empty elements pipeline and records whether the destination gamma is linear. |
| ColorSpaceXformA2B.Xform.Make | qtwebengine/src/3rdparty/chromium/third_party/skia/src/core/SkColorSpaceXform_A2B.cpp:164-277 | The constructed transform's resolved elements pipeline is the elements' stages, then Lab-to-XYZ, then the destination matrix, then the inverse destination gamma. |
| ColorSpaceXformA2B.Xform.AddAll | qtwebengine/src/3rdparty/chromium/third_party/skia/src/core/SkColorSpaceXform_A2B.cpp:176-276 | Starting empty, the resolved pipeline becomes the whole transform's operation list. |
| ColorSpaceXformA2B.Xform.AddElements | qtwebengine/src/3rdparty/chromium/third_party/skia/src/core/SkColorSpaceXform_A2B.cpp:176-234 | The loop over the elements leaves exactly the elements' operations, in order. |
| ColorSpaceXformA2B.Xform.AddElement | qtwebengine/src/3rdparty/chromium/third_party/skia/src/core/SkColorSpaceXform_A2B.cpp:177-233 | One element appends its own operations: a non-linear named gamma gives a curve and clamps, gammas give three channels and clamps, a CLUT its stage, and a non-identity matrix its stages. |
| ColorSpaceXformA2B.Xform.AddGammas | qtwebengine/src/3rdparty/chromium/third_party/skia/src/core/SkColorSpaceXform_A2B.cpp:190-218 | A Gammas element appends one stage per channel, a table or a parametric curve, then the two clamps. |
| ColorSpaceXformA2B.Xform.AddGammaChannel | qtwebengine/src/3rdparty/chromium/third_party/skia/src/core/SkColorSpaceXform_A2B.cpp:197-209 | A table channel appends a table stage, and any other channel a parametric stage with gamma_to_parametric's function. |
| ColorSpaceXformA2B.Xform.AddCurve | qtwebengine/src/3rdparty/chromium/third_party/skia/src/core/SkColorSpaceXform_A2B.cpp:179-188 | A named gamma appends three parametric stages with its function, then the clamps. |
| ColorSpaceXformA2B.Xform.AddClut | qtwebengine/src/3rdparty/chromium/third_party/skia/src/core/SkColorSpaceXform_A2B.cpp:219-225 | The CLUT is kept at the back of fCLUTs and one lookup-table stage pointing at it is appended; the other lists are unchanged. |
| ColorSpaceXformA2B.Xform.AddPcs | qtwebengine/src/3rdparty/chromium/third_party/skia/src/core/SkColorSpaceXform_A2B.cpp:236-240 | A Lab connection space appends one Lab-to-XYZ stage, and XYZ appends nothing. |
| ColorSpaceXformA2B.Xform.AddDstMatrix | qtwebengine/src/3rdparty/chromium/third_party/skia/src/core/SkColorSpaceXform_A2B.cpp:242-245 | A non-identity destination matrix appends its matrix stages, and an identity one nothing. |
| ColorSpaceXformA2B.Xform.AddDstGamma | qtwebengine/src/3rdparty/chromium/third_party/skia/src/core/SkColorSpaceXform_A2B.cpp:247-276 | A named, non-linear destination gamma appends its inverse and the clamps, a linear one nothing, and a non-standard one the per-channel inverses and the clamps. |
| ColorSpaceXformA2B.Xform.AddNamedInverse | qtwebengine/src/3rdparty/chromium/third_party/skia/src/core/SkColorSpaceXform_A2B.cpp:247-254 | A named destination gamma appends the inverse curve and the clamps unless it is linear. |
| ColorSpaceXformA2B.Xform.InvertNamed | qtwebengine/src/3rdparty/chromium/third_party/skia/src/core/SkColorSpaceXform_A2B.cpp:249-250 | The inverse of an sRGB or 2.2 destination curve is the named inverse, which equals invert_parametric of its parametric form. |
| ColorSpaceXformA2B.Xform.AddInverseGammas | qtwebengine/src/3rdparty/chromium/third_party/skia/src/core/SkColorSpaceXform_A2B.cpp:255-276 | The loop appends one inverse stage per channel, then the clamps. |
| ColorSpaceXformA2B.Xform.AddInverseGammaChannel | qtwebengine/src/3rdparty/chromium/third_party/skia/src/core/SkColorSpaceXform_A2B.cpp:256-272 | A table channel appends a table stage with the built inverse table, and any other channel the inverted parametric curve. |
| ColorSpaceXformA2B.Xform.AppendPlain | qtwebengine/src/3rdparty/chromium/third_party/skia/src/core/SkColorSpaceXform_A2B.cpp:186-187 | A context-free stage is appended to both the raw and the resolved stage lists. |
| ColorSpaceXformA2B.Xform.AppendClamps | qtwebengine/src/3rdparty/chromium/third_party/skia/src/core/SkColorSpaceXform_A2B.cpp:186-187 | clamp_0 then clamp_1 are appended. |
| ColorSpaceXformA2B.Xform.AppendChannels | qtwebengine/src/3rdparty/chromium/third_party/skia/src/core/SkColorSpaceXform_A2B.cpp:282-298 | The channel switch appends r, g, b for RGB or the one stage of the channel, each with the same context. |
| ColorSpaceXformA2B.Xform.AddTransferFn | qtwebengine/src/3rdparty/chromium/third_party/skia/src/core/SkColorSpaceXform_A2B.cpp:279-299 | The function is pushed onto the front of fTransferFns, the other lists are unchanged, and the resolved pipeline gains the parametric stages for the channels. |
| ColorSpaceXformA2B.Xform.AddTableFn | qtwebengine/src/3rdparty/chromium/third_party/skia/src/core/SkColorSpaceXform_A2B.cpp:301-321 | The table is pushed onto the front of fTableTransferFns, the other lists are unchanged, and the resolved pipeline gains the table stages for the channels. |
| ColorSpaceXformA2B.Xform.PackColumns | qtwebengine/src/3rdparty/chromium/third_party/skia/src/core/SkColorSpaceXform_A2B.cpp:324-341 | The 12-entry array holds the packed matrix, column-major. |
| ColorSpaceXformA2B.Xform.AddMatrix | qtwebengine/src/3rdparty/chromium/third_party/skia/src/core/SkColorSpaceXform_A2B.cpp:323-345 | The packed matrix is pushed onto the front of fMatrices, the other lists are unchanged, and the resolved pipeline gains the matrix stage and the clamps. |
| ColorSpaceXformA2B.Xform.AppendLoad | qtwebengine/src/3rdparty/chromium/third_party/skia/src/core/SkColorSpaceXform_A2B.cpp:27-38 | The load succeeds exactly for RGBA 8888 and BGRA 8888 and appends the 8888 load, with a swap for BGRA. |
| ColorSpaceXformA2B.Xform.AppendStore | qtwebengine/src/3rdparty/chromium/third_party/skia/src/core/SkColorSpaceXform_A2B.cpp:46-66 | The store fails exactly for an F16 or F32 destination whose gamma is not linear, and otherwise appends the destination's store sequence. |
| ColorSpaceXformA2B.Xform.Apply | qtwebengine/src/3rdparty/chromium/third_party/skia/src/core/SkColorSpaceXform_A2B.cpp:24-73 | onApply returns true exactly when load and store both succeed. It then runs the load, the elements, an optional premultiply and the store, over count pixels from the given state; the run starts with the load and stores once. On failure nothing runs. The stage limit is required only for the stages onApply actually appends. |
| ColorSpaceXformA2B.Xform.Build | qtwebengine/src/3rdparty/chromium/third_party/skia/src/core/SkColorSpaceXform_A2B.cpp:26-68 | The compiled pipeline is the load, the elements, the optional premultiply and the store, exactly when both formats are supported. |
| RasterPipelineBlitter.PlanNull | qtwebengine/src/3rdparty/chromium/third_party/skia/src/core/SkRasterPipelineBlitter.cpp:89-156 | Create fails exactly when the destination is unsupported, the blend mode has no stages, the shader cannot append stages, or the colour filter cannot. |
| RasterPipelineBlitter.PlanConstant | qtwebengine/src/3rdparty/chromium/third_party/skia/src/core/SkRasterPipelineBlitter.cpp:141-149 | A constant paint's shader pipeline is reduced to one constant_color stage holding the colour the one-pixel pass stored. Otherwise the shader pipeline is the paint's stages and starts with constant_color. |
| RasterPipelineBlitter.PlanBlend | qtwebengine/src/3rdparty/chromium/third_party/skia/src/core/SkRasterPipelineBlitter.cpp:114-153 | The blend is the paint's, except that SrcOver becomes Src exactly when the result is fully covering. For a constant paint that means the folded colour's alpha is 1. Otherwise it means the paint alpha is 1, the shader is fully covering, and any filter keeps alpha. |
| RasterPipelineBlitter.LoadD | qtwebengine/src/3rdparty/chromium/third_party/skia/src/core/SkRasterPipelineBlitter.cpp:158-175 | append_load_d appends at most one stage. |
| RasterPipelineBlitter.StoreD | qtwebengine/src/3rdparty/chromium/third_party/skia/src/core/SkRasterPipelineBlitter.cpp:177-194 | append_store appends at most one stage. |
| RasterPipelineBlitter.MaybeClamp | qtwebengine/src/3rdparty/chromium/third_party/skia/src/core/SkRasterPipelineBlitter.cpp:200-202 | maybe_clamp appends at most one stage. |
| RasterPipelineBlitter.SupportedLoadStore | qtwebengine/src/3rdparty/chromium/third_party/skia/src/core/SkRasterPipelineBlitter.cpp:80-87 | A destination is supported exactly when it has one load and one store stage; then the load is not a store, the store is, and both read the destination row pointer. |
| RasterPipelineBlitter.MaybeClampNoStores | qtwebengine/src/3rdparty/chromium/third_party/skia/src/core/SkRasterPipelineBlitter.cpp:200-202 | The optional clamp never stores. |
| RasterPipelineBlitter.BlitHShape | qtwebengine/src/3rdparty/chromium/third_party/skia/src/core/SkRasterPipelineBlitter.cpp:204-219 | blitH's pipeline starts with the shader, stores exactly once and ends with the store. For Src it is only shader then store; otherwise the destination load follows the shader. |
| RasterPipelineBlitter.CoveredStoresOnce | qtwebengine/src/3rdparty/chromium/third_party/skia/src/core/SkRasterPipelineBlitter.cpp:222-237 | The coverage pipelines of blitAntiH and the A8 mask store exactly once, at the end. |
| RasterPipelineBlitter.CoveredOrder | qtwebengine/src/3rdparty/chromium/third_party/skia/src/core/SkRasterPipelineBlitter.cpp:222-237 | For SrcOver the coverage scale comes right after the shader, before the load and blend. For any other mode the load and blend come first, then the lerp. |
| RasterPipelineBlitter.MaskLCD16Shape | qtwebengine/src/3rdparty/chromium/third_party/skia/src/core/SkRasterPipelineBlitter.cpp:277-286 | The LCD16 pipeline is shader, load, blend, lerp_565, then the store, storing once. |
| RasterPipelineBlitter.MaskLCD16StoresOnce | qtwebengine/src/3rdparty/chromium/third_party/skia/src/core/SkRasterPipelineBlitter.cpp:277-286 | The LCD16 pipeline stores exactly once. |
| RasterPipelineBlitter.WalkDone | qtwebengine/src/3rdparty/chromium/third_party/skia/src/core/SkRasterPipelineBlitter.cpp:239-251 | When the run-length walk reaches a non-positive run, the calls made and the coverage left are those of the whole run list. |
| RasterPipelineBlitter.CoverageBetween | qtwebengine/src/3rdparty/chromium/third_party/skia/src/core/SkRasterPipelineBlitter.cpp:244-248 | A partial alpha 1..254 gives coverage strictly between 0 and 1. |
| RasterPipelineBlitter.AntiHDrawsShape | qtwebengine/src/3rdparty/chromium/third_party/skia/src/core/SkRasterPipelineBlitter.cpp:239-251 | Every call blitAntiH makes is in row y, at or right of x, with a positive width, and the calls go left to right without overlap. |
| RasterPipelineBlitter.MaskRowDrawsShape | qtwebengine/src/3rdparty/chromium/third_party/skia/src/core/SkRasterPipelineBlitter.cpp:288-305 | A8 and LCD16 masks make one call per row from top to bottom, each with that row's destination and mask pointers; other formats make none. |
| RasterPipelineBlitter.AppendAll | qtwebengine/src/3rdparty/chromium/third_party/skia/src/core/SkRasterPipelineBlitter.cpp:204-219 | The stages are appended in order. |
| RasterPipelineBlitter.Blitter.constructor | qtwebengine/src/3rdparty/chromium/third_party/skia/src/core/SkRasterPipelineBlitter.cpp:48-63 | A new blitter holds the destination, blend and paint colour, an empty shader pipeline, empty caches and null pointers. |
| RasterPipelineBlitter.Blitter.Create | qtwebengine/src/3rdparty/chromium/third_party/skia/src/core/SkRasterPipelineBlitter.cpp:89-156 | Create returns null exactly when the plan fails. Otherwise the blitter's shader pipeline, paint colour and blend are the plan's, with nothing compiled and no calls made. |
| RasterPipelineBlitter.Blitter.FinishSetup | qtwebengine/src/3rdparty/chromium/third_party/skia/src/core/SkRasterPipelineBlitter.cpp:141-153 | The constant folding and the SrcOver→Src step leave the state the plan describes. |
| RasterPipelineBlitter.Blitter.EvaluateConstant | qtwebengine/src/3rdparty/chromium/third_party/skia/src/core/SkRasterPipelineBlitter.cpp:141-149 | The paint colour becomes what the one-pixel run of shader+store_f32 stores, and the shader pipeline becomes one constant_color stage. |
| RasterPipelineBlitter.Blitter.AppendPaint | qtwebengine/src/3rdparty/chromium/third_party/skia/src/core/SkRasterPipelineBlitter.cpp:114-139 | The shader pipeline becomes constant_color, then the shader's and the filter's stages, and the result records whether it is fully covering and constant; it fails as the shader or filter does. |
| RasterPipelineBlitter.Blitter.AppendShader | qtwebengine/src/3rdparty/chromium/third_party/skia/src/core/SkRasterPipelineBlitter.cpp:114-131 | Without a shader: constant_color alone. With one: swap_src_dst, the shader's stages and srcin, or failure when the shader cannot append. |
| RasterPipelineBlitter.Blitter.AppendLoadD | qtwebengine/src/3rdparty/chromium/third_party/skia/src/core/SkRasterPipelineBlitter.cpp:158-175 | The destination's load stage is appended. |
| RasterPipelineBlitter.Blitter.AppendStore | qtwebengine/src/3rdparty/chromium/third_party/skia/src/core/SkRasterPipelineBlitter.cpp:177-194 | The destination's store stage is appended. |
| RasterPipelineBlitter.Blitter.AppendBlend | qtwebengine/src/3rdparty/chromium/third_party/skia/src/core/SkRasterPipelineBlitter.cpp:196-198 | The blend mode's stages are appended. |
| RasterPipelineBlitter.Blitter.AppendMaybeClamp | qtwebengine/src/3rdparty/chromium/third_party/skia/src/core/SkRasterPipelineBlitter.cpp:200-202 | The clamp is appended when the blend can overflow. |
| RasterPipelineBlitter.Blitter.CompileBlitH | qtwebengine/src/3rdparty/chromium/third_party/skia/src/core/SkRasterPipelineBlitter.cpp:205-214 | The compiled function is shader, then load and blend unless Src, then clamp and store. |
| RasterPipelineBlitter.Blitter.CompileCovered | qtwebengine/src/3rdparty/chromium/third_party/skia/src/core/SkRasterPipelineBlitter.cpp:222-237 | The compiled function is the coverage pipeline, with scale first for SrcOver and lerp last otherwise. |
| RasterPipelineBlitter.Blitter.CompileBlitAntiH | qtwebengine/src/3rdparty/chromium/third_party/skia/src/core/SkRasterPipelineBlitter.cpp:222-237 | The compiled function uses the constant-coverage scale or lerp. |
| RasterPipelineBlitter.Blitter.CompileBlitMaskA8 | qtwebengine/src/3rdparty/chromium/third_party/skia/src/core/SkRasterPipelineBlitter.cpp:260-275 | The compiled function uses the u8 scale or lerp from the mask row. |
| RasterPipelineBlitter.Blitter.CompileBlitMaskLCD16 | qtwebengine/src/3rdparty/chromium/third_party/skia/src/core/SkRasterPipelineBlitter.cpp:277-286 | The compiled function is shader, load, blend, lerp_565, clamp, store. |
| RasterPipelineBlitter.Blitter.BlitH | qtwebengine/src/3rdparty/chromium/third_party/skia/src/core/SkRasterPipelineBlitter.cpp:204-219 | The blitH function is compiled on first use only and cached: its compile count grows by one exactly when the cache was empty. The destination pointer is set to row y, and one call over (x, y, w) is made. |
| RasterPipelineBlitter.Blitter.BlitAntiHRun | qtwebengine/src/3rdparty/chromium/third_party/skia/src/core/SkRasterPipelineBlitter.cpp:240-248 | A run of alpha 0 draws nothing and alpha 255 calls blitH. Any other alpha sets the constant coverage to alpha/255 and calls the antiH function. |
| RasterPipelineBlitter.Blitter.BlitAntiH | qtwebengine/src/3rdparty/chromium/third_party/skia/src/core/SkRasterPipelineBlitter.cpp:221-252 | The antiH function is compiled once and cached: its compile count grows by one exactly when the cache was empty. The calls made, and the coverage left, are those of the run list walked from x until a non-positive run. |
| RasterPipelineBlitter.Blitter.BlitAntiHWalk | qtwebengine/src/3rdparty/chromium/third_party/skia/src/core/SkRasterPipelineBlitter.cpp:239-251 | The loop over the runs makes exactly the calls and leaves exactly the coverage that the run list defines. |
| RasterPipelineBlitter.Blitter.BlitMaskRow | qtwebengine/src/3rdparty/chromium/third_party/skia/src/core/SkRasterPipelineBlitter.cpp:288-305 | One mask row points the destination and mask at row y and calls the A8 or LCD16 function; other formats make no call. |
| RasterPipelineBlitter.Blitter.BlitMask | qtwebengine/src/3rdparty/chromium/third_party/skia/src/core/SkRasterPipelineBlitter.cpp:254-306 | A BW mask goes to the base blitter. A8 and LCD16 compile their function on first use only (the format's compile count grows by one exactly when its cache was empty), then call it once per row of the clip, top to bottom. The pointers are left at the last row. |
| RasterPipelineBlitter.BlitHNoLongerThanCovered | qtwebengine/src/3rdparty/chromium/third_party/skia/src/core/SkRasterPipelineBlitter.cpp:204-244 | blitAntiH's fully covered runs go through blitH, whose pipeline is never longer than the coverage pipeline, so room for blitAntiH's pipeline is room for both. |
| RasterPipelineBlitter.Blitter.BlitMaskCovered | qtwebengine/src/3rdparty/chromium/third_party/skia/src/core/SkRasterPipelineBlitter.cpp:260-305 | For a non-BW mask: compile the format's cache if empty (its compile count grows by one exactly then), then the per-row calls. |
| RasterPipelineBlitter.Blitter.CompileMaskFn | qtwebengine/src/3rdparty/chromium/third_party/skia/src/core/SkRasterPipelineBlitter.cpp:260-286 | The A8 or LCD16 cache is filled with its function, compiled only when empty, its compile count growing by one exactly then; other caches and counts are untouched. |
| RasterPipelineBlitter.Blitter.BlitMaskRows | qtwebengine/src/3rdparty/chromium/third_party/skia/src/core/SkRasterPipelineBlitter.cpp:288-305 | The row loop makes one call per clip row, top to bottom. |
| PickingUtils.Childless | qt3d/src/render/jobs/pickboundingvolumeutils.cpp:62-69 | Only nodes without children are kept. |
| PickingUtils.LeavesAreChildless | qt3d/src/render/jobs/pickboundingvolumeutils.cpp:62-69 | visit collects exactly the childless nodes of the frame graph, in depth-first order. |
| PickingUtils.LeafPaths | qt3d/src/render/jobs/pickboundingvolumeutils.cpp:62-69 | Each collected leaf's path starts with the leaf itself and ends with the path above the visited root. |
| PickingUtils.Enabled | qt3d/src/render/jobs/pickboundingvolumeutils.cpp:71-98 | Only enabled nodes of the path are kept. |
| PickingUtils.WalkUpSnoc | qt3d/src/render/jobs/pickboundingvolumeutils.cpp:71-98 | Walking one node further up applies that node to the record built so far. |
| PickingUtils.WalkUpFindsRootmost | qt3d/src/render/jobs/pickboundingvolumeutils.cpp:71-98 | The walk's camera is that of the enabled CameraSelector nearest the root, and its area and surface those of the enabled Surface nearest the root. Without an enabled Viewport the viewport stays (0, 0, 1, 1). |
| PickingUtils.WalkUpSkipsDisabled | qt3d/src/render/jobs/pickboundingvolumeutils.cpp:78-80 | Disabled nodes contribute nothing: walking the path equals walking only its enabled nodes. |
| PickingUtils.ViewportCameraAreaGatherer.Visit | qt3d/src/render/jobs/pickboundingvolumeutils.cpp:62-69 | visit appends the leaves under the node in depth-first order. |
| PickingUtils.ViewportCameraAreaGatherer.GatherUpViewportCameraAreas | qt3d/src/render/jobs/pickboundingvolumeutils.cpp:71-98 | The loop from leaf to root produces the record the walk defines. |
| PickingUtils.ViewportCameraAreaGatherer.IsUnique | qt3d/src/render/jobs/pickboundingvolumeutils.cpp:118-128 | The record is unique exactly when no listed record matches it on camera, viewport, surface and area. |
| PickingUtils.ViewportCameraAreaGatherer.Gather | qt3d/src/render/jobs/pickboundingvolumeutils.cpp:100-116 | The result has no duplicates. It holds exactly the leaves' records that have a camera and, when a target camera is set, that camera. |
| PickingUtils.HeightOf | qt3d/src/render/jobs/pickboundingvolumeutils.cpp:130-140 | The height of a child list bounds every child's height. |
| PickingUtils.EnabledPreorderEnabled | qt3d/src/render/jobs/pickboundingvolumeutils.cpp:130-140 | Every gathered entity is enabled. |
| PickingUtils.GatherEntities | qt3d/src/render/jobs/pickboundingvolumeutils.cpp:130-140 | The result is the input followed by the enabled entities under the entity, in preorder. A null or disabled entity adds nothing, and neither do its children. |
| PickingUtils.EntityGatherer.constructor | qt3d/src/render/jobs/pickboundingvolumeutils.cpp:142-156 | A new gatherer needs a refresh and holds no entities. |
| PickingUtils.EntityGatherer.Entities | qt3d/src/render/jobs/pickboundingvolumeutils.cpp:142-156 | The result is the enabled entities under the root. They are gathered only when a refresh is needed and cached afterwards. |
| PickingUtils.CollisionVisitor.constructor | qt3d/src/render/jobs/pickboundingvolumeutils.cpp:158-172 | A new visitor has no hits and starts at triangle 0. |
| PickingUtils.CollisionVisitor.IntersectsSegmentTriangle | qt3d/src/render/jobs/pickboundingvolumeutils.cpp:174-192 | A hit with the root entity, the distance, the triangle index and the three vertex indices is recorded exactly when the ray crosses the triangle. |
| PickingUtils.CollisionVisitor.Visit | qt3d/src/render/jobs/pickboundingvolumeutils.cpp:158-172 | Front faces are tested wound c, b, a; back faces, wound a, b, c, only when the front test missed. The triangle index advances, and hits stay in triangle order, at most one per triangle. |
| PickingUtils.SortHits | qt3d/src/render/jobs/pickboundingvolumeutils.cpp:224-231 | The hits are ordered by distance, nearest first, and are a permutation of the input. |
| PickingUtils.Insert | qt3d/src/render/jobs/pickboundingvolumeutils.cpp:224-231 | Inserting into a sorted list keeps it sorted and adds exactly the hit. |
| PickingUtils.EntityPick | qt3d/src/render/jobs/pickboundingvolumeutils.cpp:233-242 | The bounding-volume hit is returned exactly when its distance is not negative. |
| PickingUtils.TrianglePick | qt3d/src/render/jobs/pickboundingvolumeutils.cpp:244-267 | The result is sorted. It is empty without a geometry renderer or when the bounding volume is missed; otherwise it is a permutation of the triangle hits. |
| PickingUtils.FindObjectPicker | qt3d/src/render/jobs/pickboundingvolumeutils.cpp:203-212 | The picker found is that of the entity or its nearest ancestor with one; there is none exactly when no entity on the way has a picker. |
| PickingUtils.GatherCollisions | qt3d/src/render/jobs/pickboundingvolumeutils.cpp:201-222 | The pick's result is returned exactly when the nearest picker exists and is enabled; otherwise the result is empty. |
| PickingUtils.FirstMinIndex | qt3d/src/render/jobs/pickboundingvolumeutils.cpp:269-286 | The index is of the first hit with the smallest distance: no hit is closer, and every earlier hit is strictly farther. |
| PickingUtils.ReduceToFirstHit | qt3d/src/render/jobs/pickboundingvolumeutils.cpp:269-286 | An empty job leaves the result unchanged. Otherwise only the first closest hit remains, among the result's front (or the job's first hit) and the job's hits. |
| PickingUtils.FirstMinAppend | qt3d/src/render/jobs/pickboundingvolumeutils.cpp:269-286 | The first closest of a then b is the first closest of a's first closest then b. |
| PickingUtils.FoldFirstHitIsFirstMin | qt3d/src/render/jobs/pickboundingvolumeutils.cpp:269-286 | Reducing every job from an empty result gives the first closest of all hits in job order, or nothing when no job hit anything. |
| PickingUtils.ReduceToAllHits | qt3d/src/render/jobs/pickboundingvolumeutils.cpp:288-293 | The result is the previous hits followed by the job's hits. |
| PickingUtils.CollectedHits | qt3d/src/render/jobs/pickboundingvolumeutils.cpp:301-333 | Every record is of an entity of the walked subtree whose subtree volume and own volume the ray hits, with its own-volume hit. The recorded entity itself or one of its ancestors has an ObjectPicker: one above the walked root, or one within the subtree over the entity. Nothing is recorded where no entity above, at or below has an ObjectPicker. |
| PickingUtils.ChildItems | qt3d/src/render/jobs/pickboundingvolumeutils.cpp:328-329 | Each child is pushed, in child order, marked picked when its parent was or it has an ObjectPicker. |
| PickingUtils.PushChildren | qt3d/src/render/jobs/pickboundingvolumeutils.cpp:328-329 | Pushing the children puts their records, last child first, ahead of the rest, and adds their subtree sizes to the work left. |
| PickingUtils.CollectStep | qt3d/src/render/jobs/pickboundingvolumeutils.cpp:311-330 | One iteration keeps "recorded so far, then what the worklist will record" equal to the whole walk's records. |
| PickingUtils.WorkShrinks | qt3d/src/render/jobs/pickboundingvolumeutils.cpp:311-330 | Popping an entry, with or without pushing its children, leaves fewer entities to visit, so the worklist loop ends. |
| PickingUtils.PushChildItems | qt3d/src/render/jobs/pickboundingvolumeutils.cpp:328-329 | The loop pushes exactly the child entries. |
| PickingUtils.HierarchicalEntityPicker.constructor | qt3d/src/render/jobs/pickboundingvolumeutils.cpp:295-299 | A new picker holds no hits and no entities. |
| PickingUtils.HierarchicalEntityPicker.CollectHits | qt3d/src/render/jobs/pickboundingvolumeutils.cpp:301-333 | The entity and hit lists are, element by element, the records of the hierarchical walk, last child first. The result is true exactly when something was hit. |

## Left out

- SkRasterPipeline.cpp is not part of this model. `compile` and the run of a compiled function are modelled from the header's description of stage calling, slabs and tails. The SIMD stage bodies are the `kernel` parameter.
- Floating point is modelled as exact `real` arithmetic: no rounding, NaN, infinity or float-to-int conversion. `powf` is a function parameter, and the curved-segment inverse assumes the power identity it needs as a hypothesis.
- ColorSpaceXformA2B.NamedInverseIsInverse: the sRGB and 2.2 inverses are written as worked-out constants, proved equal to `invert_parametric` of the named curves, rather than computed at each use.
- ColorSpaceXformA2B.BuildInverseTable: `inverse_interp_lut` is a parameter, so the table's entries are stated as its values at i/255, not as true inverses of the input table.
- The `SkCSXformPrintf` debug output, the `fGammaRefs` and `fTableStorage` reference keeping, and all ref-counting are left out: they change no stage and no context.
- Stage contexts are symbolic references (the k-th transfer function, the destination row cell, and so on) rather than raw pointers. Stores through the pointers themselves are not modelled.
- RasterPipeline.Pipeline.Extend: extending a pipeline with itself is excluded by a precondition, because the source's loop would read the count it is updating.
- Lemmas about the shape of the blitter's and the transform's pipelines assume that the shader, colour-filter and blend stages contain no store. The source relies on this without checking it.
- RasterPipelineBlitter.Blitter.BlitMask: a BW mask is only recorded as a call to the base blitter. ThreeD and ARGB32 masks make no calls. The base class's BW path is not modelled.
- RasterPipelineBlitter.Blitter.Create: the scratch allocator, `deleteLast` on failure, `SkBlendMode_AppendStages`, `SkBlendMode_CanOverflow`, `SkPM4f_from_SkColor` and the shader and filter `appendStages` are parameters or are left out. When the destination and blend are supported, the paint's stages, plus the store_f32 of the one-pixel pass for a constant paint, are required to fit the 32-stage limit that SkRasterPipeline.h states, and each blit method requires only the pipeline it may compile to fit: blitH its own; blitAntiH the coverage pipeline, which is never shorter than blitH's; blitMask the coverage pipeline for A8 and LCD16 masks and nothing for the others.
- RasterPipelineBlitter.Blitter.BlitAntiH: runs are int16 values in [-32768, 32767], but x advances as an unbounded integer, so int overflow of x is not modelled. The run list is required to end with a non-positive run, as the source's callers guarantee.
- PickingUtils.TrianglePick: the per-triangle geometry reading (`CollisionVisitor::apply` over the buffers) is left out. The visitor's hits are an input, and `Visit` models one triangle.
- PickingUtils.SortHits: `std::sort` is not stable, so the order of equal distances is unspecified. The model sorts stably and proves only sortedness and permutation, which is all the source promises.
- PickingUtils.GatherCollisions: the ObjectPicker lookup through the manager is given as the list of pickers from the entity up to the root. The ray-casting service is a parameter.
- PickingUtils.ViewportCameraAreaGatherer.Gather: QRectF's fuzzy equality in `isUnique` is modelled as exact equality. `computeViewport` is a parameter.
- PickingUtils.HierarchicalEntityPicker.CollectHits: the ray queries against each entity's volumes are a parameter, so the worldBoundingVolume computations are not modelled.
- Frame-graph parent pointers are modelled by giving each collected leaf its path from the leaf up to the root.
