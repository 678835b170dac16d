# The material grid of an FDTD solver, in Dafny

This project models `material.cpp`: the permittivity and absorbing-layer data that the
field updates of a finite-difference time-domain solver read.

- **`mat`** (class `Grid.Mat`) is the grid. It holds:
  - the user's volume;
  - the working volume that a symmetry reduces it to;
  - the chunks that working volume is split into.
  
  Chunk `i` belongs to process `i*procs/num`. Every process builds the whole chunk array, but only the owner keeps a chunk's arrays.
- **`mat_chunk`** (class `Chunk.MatChunk`) is one chunk. It holds:
  - the `eps` buffer;
  - the sparse tables `inveps[c][d]` (inverse permittivity), `C[d][c]` (absorbing-layer conductivity) and `Cdecay[d][c][d2]` (implicit damping);
  - the polarizability chain.

  Each table is a map from its index tuple to the buffer's contents, and an absent key is a NULL entry. `State()` is a value snapshot of the chunk. Every chunk operation is proved against a function of the old snapshot in module `ChunkState`, and that module proves what the operations promise about those functions.

The modules follow the program's structure:
- **`Yee`**: directions, components, volumes, symmetries.
- **`Fatal`**: the abort reasons.
- **`Numeric`**: C arithmetic.
- **`Profile`**: `reverse` and `badness`.
- **`Division`**: the break scan, halving/padding and chunk ownership of `choose_chunkdivision`.
- **`ChunkState`**: the specification functions and lemmas.
- **`Buffers`**: the element loops.
- **`Tables`**: table walks in `FOR_COMPONENTS`/`FOR_DIRECTIONS` order.
- **`Chunk`** and **`Grid`**: the two classes.

External inputs are explicit:
- The rank of the running process and the process count are parameters.
- The volume and symmetry services (`split`, `split_specifically`, `pad`, `loc`, `has_field`, `boundary_location`, `transform`, ...) are fields of the `Volume`, `Symmetry` and `VolumeOps` values, so whatever they answer is an input.
- The permittivity function `feps` and, in `badness`, `exp` are function parameters.

An `abort()` becomes an `Aborted`/`Failed` value carrying the reason.

## Model

| member | source | states |
|---|---|---|
| Division.ScanBreaks | material.cpp:48-58 | `break_this[d]` holds exactly when the dimension has axis d and some transform moves or flips d; the scan aborts with OddGridPoints exactly when some broken axis has an odd grid count |
| Division.ReduceVolume | material.cpp:59-63 | the volume after halving every broken axis (in axis order) and then padding every broken axis is `Apply` of the plan `Plan(broken)` |
| Division.PlanShape | material.cpp:59-63 | the plan halves axis i iff it is broken, pads axis i iff it is broken, and every pad comes after every halving |
| Division.NoBrokenAxisKeepsVolume | material.cpp:59-63 | with no broken axis the reduction leaves the volume unchanged |
| Division.OwnerInRange | material.cpp:66-68 | for 0 <= i < num and procs > 0 the owner `i*procs/num` is a process in [0, procs) |
| Division.OwnerMonotone | material.cpp:66-68 | owners never decrease with the chunk index |
| Division.OwnerOnePerProcess | material.cpp:33-34 | with num = procs (the `num == 0` default), chunk i belongs to process i |
| Division.EveryProcessOwnsAChunk | material.cpp:66-68 | with at least as many chunks as processes, every process owns some chunk |
| Grid.ReduceBySymmetry | material.cpp:43-64 | aborts with SymmetryNeedsCartesian on a symmetric non-2D volume, with OddGridPoints on an odd broken axis, and otherwise yields the working volume (the user's volume when the symmetry is trivial) |
| Grid.TrivialSymmetryKeepsVolume | material.cpp:43-64 | with multiplicity 1, or no broken axis, the working volume is the user's volume |
| Grid.BuildChunks | material.cpp:65-69 | fails with UnsupportedDimension iff some chunk this process owns is 3D; otherwise slot i holds a fresh, distinct chunk of `split(num, i)` on process `i*procs/num`, in the state the sampling constructor builds |
| Grid.Mat.Empty | material.cpp:25-29 | no chunks, output directory ".", identity symmetry |
| Grid.Mat.Create | material.cpp:31-35 | `num == 0` means one chunk per process; the outcome is that of `choose_chunkdivision` |
| Grid.Mat.ChooseChunkDivision | material.cpp:37-70 | `num_chunks = num`; the outcome is the symmetry abort if any, then the sampling abort, else Done; on Done the grid holds the user's volume, the symmetry, the working volume and the chunk built for every slot |
| Grid.CopyChunks | material.cpp:78-79 | slot i holds a fresh copy of chunk i, distinct from every other slot |
| Grid.Mat.Copy | material.cpp:72-91 | same chunk count, output directory, volumes and symmetry; every slot is the copy constructor's copy of the source slot |
| Grid.Mat.MakeAverageEps | material.cpp:101-105 | every chunk this process owns becomes `AverageState` of its old state; every other chunk is unchanged; every chunk keeps its `pml_fmin` and its eps buffer |
| Grid.Mat.AverageSlot | material.cpp:102-104 | slot i is averaged and every other slot keeps its state; every chunk keeps its `pml_fmin` and its eps buffer |
| Grid.Mat.UsePml | material.cpp:107-110 | every chunk becomes `PmlState` of its old state, with the layer located at the user volume's boundary b along d; every chunk keeps its `pml_fmin` and its eps buffer; required only: every damping denominator on the owned chunks is nonzero (`LayerDefined`) |
| Grid.Mat.PmlSlot | material.cpp:108-109 | slot i gets the layer and every other slot keeps its state; every chunk keeps its `pml_fmin` and its eps buffer |
| Grid.Mat.UsePmlEverywhere | material.cpp:112-116 | every chunk becomes `Sweep` of its old state: a layer at each boundary the user volume has, sides in `boundary_side` order (High = 0 first), directions in `FOR_DIRECTIONS` order; every chunk keeps its `pml_fmin` and its eps buffer; required only: every layer of the sweep has nonzero damping denominators (`SweepDefined`) |
| Grid.SweepKeepsMaterial | material.cpp:112-116 | the sweep leaves eps, every inverse permittivity and the polarizability chain as they were |
| Grid.SweepOfUnowned | material.cpp:112-116 | on a chunk another process owns the sweep changes nothing |
| Grid.SweepDefinedPrefix | material.cpp:112-116 | when every layer of a sweep has nonzero denominators, so has every layer of each shorter sweep |
| Grid.NonNegativeSweepDefined | material.cpp:112-116 | with no negative inverse permittivity every layer of the sweep has nonzero denominators |
| Grid.Mat.MixWith | material.cpp:118-124 | fails with MismatchedChunkTopology iff the chunk counts differ, changing nothing; otherwise every owned chunk becomes `MixState` with the other grid's chunk in the same slot, unowned chunks and the other grid stay unchanged; every chunk keeps its `pml_fmin` and its eps buffer |
| Grid.Mat.MixSlot | material.cpp:121-123 | slot i is blended; every other slot and the other grid keep their states; every chunk keeps its `pml_fmin` and its eps buffer |
| Grid.Mat.MaxUpToBounds | material.cpp:364-369 | the running maximum over owned chunks is at least 0 and every eps cell of those chunks, and is 0 or one of those cells |
| Grid.Mat.MaxEps | material.cpp:364-369 | the value before the cross-process reduction: the maximum over owned chunks, at least 0 and every owned eps cell, and 0 or one of those cells |
| Chunk.MatChunk.Sample | material.cpp:305-362 | on the owner eps is sampled from feps and the own-axis inverse permittivities are filled (`InitState`); elsewhere no arrays; `pml_fmin = 0.2`; the chunk is well formed |
| ChunkState.InitWellFormed | material.cpp:319-327 | an entry `inveps[c][d]` exists iff the chunk is owned, c is electric and carried, and d is c's own axis; the initial state is well formed |
| ChunkState.UnfilledInverse | material.cpp:319-327 | an own-axis entry the dimension's branch does not fill keeps its initial ones |
| ChunkState.InitOneDimensional | material.cpp:339-340 | in 1D `inveps[Ex][X][i] == 1/eps[i]` |
| ChunkState.UniformInverse | material.cpp:341-355 | for a constant feps e every filled inverse permittivity is 1/e (the 2D face averages 2/(e+e), the 1D/2D reciprocals, and the cylindrical corner averages) |
| ChunkState.InitUniform | material.cpp:305-358 | for a constant feps e every eps cell is e and every filled own-axis entry is 1/e |
| ChunkState.FillAllIsInit | material.cpp:328-358 | filling the allocated ones branch by branch gives the initial inverse permittivities |
| Chunk.AllocateInverses | material.cpp:319-327 | the table of ones on the own-axis entries on the owner, empty elsewhere |
| Chunk.FillInverses | material.cpp:328-358 | the filled table is `FillAll`: cylindrical corner averages, 1D reciprocals, 2D reciprocals for Ez and face averages for Ex and Ey |
| Buffers.SampleInto | material.cpp:315 | cell i of eps is feps at the eps component's position of cell i |
| Buffers.Reciprocals | material.cpp:339-343 | cell i is 1/eps[i] |
| Buffers.FaceAverages | material.cpp:344-355 | cell i is 2/(feps(here+h)+feps(here-h)) for the half cell h along the component's axis |
| Buffers.CylAverages | material.cpp:329-338 | cell i of Er, Ep, Ez holds the two- and four-corner averages around Ep's point |
| Chunk.MatChunk.Copy | material.cpp:265-303 | same volume, resolution and owner; owned iff this process is the owner; the state is `CopyState`: every array of the source on the owner, a damping entry only with its conductivity, nothing elsewhere; the chain always |
| ChunkState.CopyOfOwned | material.cpp:272-302 | the owned copy of a well-formed chunk is identical to it |
| ChunkState.CopyKeepsWellFormed | material.cpp:265-303 | the copy is well formed |
| Chunk.CopyInverses | material.cpp:279-285 | the source's inverse permittivities on the owner, none elsewhere |
| Chunk.CopyConductivities | material.cpp:286-302 | the source's conductivities on the owner, and each damping entry whose conductivity exists |
| Buffers.CopyInto | material.cpp:275 | the new eps equals the source's |
| Chunk.MatChunk.MixWith | material.cpp:193-210 | the new state is `MixState(old state, other state, f)`: eps blended harmonically, inverse permittivities and the polarizability arrays both chains reach blended linearly |
| ChunkState.MixByUnion | material.cpp:193-209 | `MixState` is eps blended, then the old tables overridden by the blended entries only |
| ChunkState.MixAtZero | material.cpp:193-209 | blending with f = 0 changes nothing |
| ChunkState.MixAtOne | material.cpp:193-209 | blending with f = 1 takes over the other chunk's eps, inverse permittivities and blended polarizability arrays |
| ChunkState.MixKeepsChainTail | material.cpp:200-209 | terms beyond the shorter chain and components not blended keep their values; the chain keeps its length and keys; conductivities and damping are untouched |
| ChunkState.BlendKeyAt | material.cpp:203-206 | in a term both chains reach, component c is blended iff the volume carries c and c is electric |
| ChunkState.HarmonicMixBetween | material.cpp:194-195 | for positive permittivities and f in [0, 1] the harmonic blend is defined and lies between the two |
| ChunkState.MixKeepsWellFormed | material.cpp:193-210 | blending keeps the chunk well formed |
| Buffers.HarmonicMixInto | material.cpp:194-195 | every eps cell is the harmonic blend of its old value and the other's |
| Chunk.MixInverses | material.cpp:196-199 | the inverse-permittivity table with every existing entry blended |
| Buffers.LinearMixed | material.cpp:198-199 | every cell moves a fraction f towards the other's |
| Chunk.MixChains | material.cpp:200-209 | the chain with the lock-step blended arrays overriding the old ones |
| Chunk.MatChunk.MakeAverageEps | material.cpp:212-224 | the new state is `AverageState`: every eps cell is the mean, and every own-axis inverse permittivity is its reciprocal |
| ChunkState.AverageByUnion | material.cpp:212-224 | averaging sets eps to the mean and overrides the own-axis entries only |
| ChunkState.AverageKeepsSum | material.cpp:213-219 | averaging keeps the total permittivity |
| ChunkState.AverageIdempotent | material.cpp:212-224 | averaging twice equals averaging once |
| ChunkState.AverageKeepsWellFormed | material.cpp:212-224 | averaging keeps the chunk well formed |
| Buffers.SumOf | material.cpp:213-216 | the accumulated sum is `Sum` of eps |
| Buffers.Fill | material.cpp:218-219 | every cell holds the mean |
| Chunk.AverageInverses | material.cpp:220-223 | every own-axis entry of a carried component becomes 1/mean; the others stay |
| Chunk.MatChunk.UsePml | material.cpp:228-263 | the new state is `PmlState`: unchanged when the chunk lies outside the layer's box or another process owns it; otherwise the conductivities of d ramped and their damping recomputed; `pml_fmin` and eps kept; required only: the damping denominators 1 + C inveps/2 it divides by are nonzero (`PmlDefined`) |
| ChunkState.PmlRampCells | material.cpp:233-245 | every component the layer ramps (carried, not along d) gets an array of d: its prior one, or zeros when new, ramped |
| ChunkState.PmlRampCell | material.cpp:236-244 | a cell of positive depth x gets `Cmax/dx^2 * x * x`; any other cell keeps its prior value, 0 in a newly allocated array |
| ChunkState.PmlLeavesOtherLayers | material.cpp:228-263 | eps, inverse permittivities and chain are unchanged; conductivities of other directions are unchanged; no component along d gets a conductivity of d |
| ChunkState.PmlLeavesOtherDamping | material.cpp:246-261 | damping entries of other directions are unchanged and none is removed |
| ChunkState.PmlDecayEntries | material.cpp:246-261 | `Cdecay[d][c][d2]` exists iff `C[d][c]` exists, d2 is not d, and `inveps[c][d2]` exists or d2 is c's axis; it is 1/(1+C/2) for magnetic c and inveps/(1+C inveps/2) for electric c |
| ChunkState.DecayKeyAt | material.cpp:247-248 | the damping loop writes entry (d, c, d2) exactly under that condition |
| ChunkState.PmlKeepsWellFormed | material.cpp:228-263 | the layer keeps the chunk well formed |
| ChunkState.RampNonNegative | material.cpp:240-244 | ramped conductivities are never negative |
| ChunkState.RampBounded | material.cpp:241-243 | for positive a and dx no depth exceeds dx, and a cell of positive depth gets a conductivity in (0, Cmax] |
| ChunkState.RampAtLayerEdge | material.cpp:226-243 | at full depth dx the ramp reaches Cmax |
| ChunkState.RampGrowsWithDepth | material.cpp:243 | the ramp grows with depth |
| ChunkState.MagneticDecayBounds | material.cpp:257 | magnetic damping lies in (0, 1], and is 1 where C is 0 |
| ChunkState.ElectricDecayBounds | material.cpp:258-259 | electric damping lies in [0, inveps], and is inveps where C is 0 |
| ChunkState.NonNegativeDecayDefined | material.cpp:258-259 | with no negative inverse permittivity every damping denominator is nonzero |
| ChunkState.ElectricDefinedAboveBound | material.cpp:258-259 | a negative inverse permittivity above -2/Cmax = -4 still gives nonzero denominators wherever C lies in [0, Cmax] |
| Chunk.RampLoop | material.cpp:234-245 | the conductivity table after the ramp loop is `PmlCond` |
| Buffers.RampCells | material.cpp:240-244 | cells of positive depth get the ramp value, the others keep theirs |
| Buffers.FilledBuffer | material.cpp:237-238 | a new array of n copies of x |
| Chunk.DecayLoop | material.cpp:246-261 | the damping table after the loop is `PmlDecay` |
| Chunk.DecayPass | material.cpp:247-260 | one pass writes entry (d, c, d2) with its formula exactly when the loop's condition holds |
| Buffers.MagneticDecayed | material.cpp:257 | cell i is 1/(1 + 0.5 C[i]) |
| Buffers.ElectricDecayed | material.cpp:258-259 | cell i is inveps[i]/(1 + 0.5 C[i] inveps[i]) |
| Chunk.MatChunk.MaxEps | material.cpp:380-384 | the running maximum from 0: at least 0 and every eps cell, and 0 or one of them |
| ChunkState.MaxOfBounds | material.cpp:380-384 | `MaxOf` is at least 0 and every entry, and is 0 or one of them |
| Buffers.MaxOfArray | material.cpp:381-383 | the loop's result is `MaxOf` of the buffer, with the same bounds |
| Profile.Reverse | material.cpp:142-148 | the first l entries end in reverse order (`sig[i] == old[l-1-i]`); the others are untouched |
| Profile.ReverseTwice | material.cpp:142-148 | reversing the same prefix twice restores the array |
| Profile.Badness | material.cpp:150-164 | returns exactly 1 when thickness < 1, and otherwise the loop's clamped accumulation blended with the last layer's reflection (`BadnessOf`) |
| Profile.SofarAtMostOne | material.cpp:154-160 | after every pass the running value is at most 1 |
| Profile.SofarInUnitInterval | material.cpp:154-160 | with reflections and transmissions in [0, 1] the running value stays in [0, 1] |
| Profile.EstimateInUnitInterval | material.cpp:161-163 | under the same conditions and a last reflection in [0, 1] the estimate lies in [0, 1] |
| Profile.BadnessInUnitInterval | material.cpp:150-164 | the same for the constants A and K that badness uses |
| Profile.BadnessMayExceedOne | material.cpp:150-164 | without those conditions the estimate can exceed 1: the clamp is inside the loop only |

## Left out

- Process topology: `count_processors`, `my_rank` and `n_proc` become the `rank` and `procs` parameters. `max_to_all`, an MPI reduction, is not modelled.
- Grid.Mat.MaxEps: returns this process's maximum before the `max_to_all` reduction, so it does not state the global maximum.
- `fields::max_eps` (material.cpp:372-378) reads `fields_chunk`, which is not part of this model.
- `minimize_badness` and `sig` (material.cpp:166-191): a floating-point hill climb with no termination argument, over `pow`.
- Profile.Badness: `exp` is the parameter `expf`. The function requires nonzero `fmin` and `epsilon`, where C would divide by zero into IEEE infinities.
- IEEE infinities and NaN in general: arithmetic is exact over `real`. Divisions are guarded by preconditions that each denominator is nonzero: the blend weights (`CanMix`), the mean (`CanAverage`), `dx` and `a`, and the damping denominators 1 + C inveps/2 of use_pml (`PmlDefined`, `LayerDefined`, `SweepDefined`). Where C would give an infinity, the model has no value.
- Volume and symmetry internals (`split`, `split_specifically`, `pad`, `loc`, `boundary_location`, `has_field`, `has_boundary`, `transform`, `has_direction`) are not modelled. The model takes their answers as inputs.
- Destructors (material.cpp:93-99, 126-137) and `delete`: Dafny's heap has no deallocation. The allocated/NULL distinction is kept by `eps: array?` and by keys being absent from the tables.
- Out-of-memory aborts (material.cpp:274, 314) cannot occur in the model.
- The polarizability class is not part of this model. Its chain is the `pb` map from (term, component) to array, with `chain` terms. `new polarizability(o->pb)` is a copy of that map.
- Table buffers (`inveps`, `C`, `Cdecay`, the chain) are values. Their loops rewrite a copy and store it back, so aliasing between table buffers is not captured. `eps` is a heap array.
- Chunk.MatChunk.Copy: `pml_fmin`, which the source copy constructor leaves unset, is unconstrained.
- Chunk.MatChunk.MixWith: requires the other chunk to be owned too. The source reads `n->eps` whatever the other chunk's owner is, and that pointer is NULL on an unowned chunk.
- Grid.Mat.MixWith: requires the two grids to share no chunk, so a grid is never blended with itself.
- Grid.Mat.Empty: `mat()` leaves `v` and `user_volume` default-constructed. The default volume is the parameter `blank`.
- Grid.Mat.ChooseChunkDivision: requires `feps` to be defined where the owned chunks sample it (`Samplable`). On an abort the fields already written are left as they are, because the source ends the run there.
- Grid.Mat.UsePmlEverywhere: the nested loops over sides and directions are one loop over the ten boundaries in the same order. The header declaring `boundary_side` is not part of this model. The model takes its numbering as `High = 0, Low = 1`, so `(boundary_side)0` is the high side and the high sides come first.
- C `int` limits: `Division.Owner` computes `i*procs/num` over unbounded integers, without the overflow of `i*count_processors()` in a C `int`. `ChunkState.HalfCells` truncates like C's `(int)` cast, without the undefined behaviour of casting a distance too large for an `int`.
- The `outdir` string is only copied, and abort message texts are reduced to the reasons in `Fatal.Abort`.
- `src/update_e_from_d.cpp` is not part of this model.
