/** The material grid (mat): the user's volume, the working volume a symmetry
    reduces it to, and the chunks that working volume is split into, one per slot of
    the chunk array.  Chunk i is owned by process i*procs/num; every process builds
    the whole array, and a chunk another process owns keeps no arrays.  The rank of
    the running process and the process count are parameters. */
module Grid {
  import opened Yee
  import opened Fatal
  import opened Numeric
  import opened Division
  import opened ChunkState
  import opened Chunk

  // ---------------------------------------------------------- chunk division

  /** break_this[0..3): the axes the symmetry breaks. */
  function Broken(thev: Volume, s: Symmetry, ops: VolumeOps): (r: seq<bool>)
    ensures |r| == 3
  {
    seq(3, i requires 0 <= i < 3 => Breaks(ops, thev.dim, s, Axes[i]))
  }

  /** The volume the chunks divide: the user's volume, halved and then padded along
      every broken axis when the symmetry is not trivial. */
  function WorkingVolume(thev: Volume, s: Symmetry, ops: VolumeOps): Volume {
    if s.multiplicity > 1 then Division.Apply(ops, thev, Plan(Broken(thev, s, ops))) else thev
  }

  /** Chunk i goes to this process, and its volume is three-dimensional: the sampling
      constructor aborts on it. */
  predicate OwnedUnsupported(w: Volume, ops: VolumeOps, num: int, rank: int, procs: int, i: int)
    requires 0 <= i < num
  {
    Owner(i, procs, num) == rank && ops.split(w, num, i).dim == D3
  }

  /** How choose_chunkdivision ends: the symmetry's abort if any, then the sampling
      constructor's abort on the first chunk of this process whose volume is not 1D,
      2D or cylindrical, and otherwise a complete division. */
  function DivisionOutcome(thev: Volume, s: Symmetry, ops: VolumeOps, num: int, rank: int, procs: int): Outcome {
    match SymmetryAbort(thev, s, ops)
    case Some(reason) => Failed(reason)
    case None =>
      if exists i :: 0 <= i < num && OwnedUnsupported(WorkingVolume(thev, s, ops), ops, num, rank, procs, i)
      then Failed(UnsupportedDimension)
      else Done
  }

  /** feps can be sampled on every supported chunk this process owns. */
  predicate Samplable(w: Volume, feps: Vec -> real, ops: VolumeOps, num: int, rank: int, procs: int) {
    forall i :: 0 <= i < num && Owner(i, procs, num) == rank && ops.split(w, num, i).dim != D3 ==>
      SampleDefined(ops.split(w, num, i), feps)
  }

  /** Chunk c is what `new mat_chunk(v.split(num, i), feps, proc)` builds for slot i. */
  ghost predicate Built(c: MatChunk, w: Volume, feps: Vec -> real, ops: VolumeOps,
                        num: int, rank: int, procs: int, i: int)
    reads c, c.eps
    requires 0 <= i < num
  {
    var vol, p := ops.split(w, num, i), Owner(i, procs, num);
    && c.v == vol && c.theProc == p && c.isMine == (rank == p)
    && (c.isMine ==> SampleDefined(vol, feps))
    && c.State() == InitState(vol, feps, c.isMine)
  }

  /** Without a symmetry the chunks divide the user's volume itself. */
  lemma TrivialSymmetryKeepsVolume(thev: Volume, s: Symmetry, ops: VolumeOps)
    requires s.multiplicity <= 1 || forall i :: 0 <= i < 3 ==> !Breaks(ops, thev.dim, s, Axes[i])
    ensures WorkingVolume(thev, s, ops) == thev
  {
    if s.multiplicity > 1 {
      NoBrokenAxisKeepsVolume(ops, thev, Broken(thev, s, ops));
    }
  }

  // ------------------------------------------------------ use_pml_everywhere

  /** The boundaries use_pml_everywhere visits: for b = 0, 1 as boundary_side,
      FOR_DIRECTIONS(d).  boundary_side numbers High as 0 and Low as 1, so the high
      sides come first. */
  const Boundaries: seq<(Side, Direction)> :=
    [(High, X), (High, Y), (High, Z), (High, R), (High, P), (Low, X), (Low, Y), (Low, Z), (Low, R), (Low, P)]

  /** A chunk after the first n visits of use_pml_everywhere: each boundary the user's
      volume has gets an absorbing layer along its direction, located at that
      boundary. */
  function Sweep(st: ChunkState, v: Volume, a: real, mine: bool, uv: Volume, dx: real, n: nat): (r: ChunkState)
    requires a != 0.0 && dx != 0.0 && n <= |Boundaries|
    requires WellFormed(st, v, mine) && (mine ==> SweepDefined(st, v, a, uv, dx, n))
    ensures WellFormed(r, v, mine) && r.inveps == st.inveps
    decreases n, 1
  {
    if n == 0 then st
    else
      var prev := Sweep(st, v, a, mine, uv, dx, n - 1);
      var (b, d) := Boundaries[n - 1];
      if uv.hasBoundary(b, d) then
        PmlKeepsWellFormed(prev, v, a, mine, d, dx, uv.boundaryLocation(b, d));
        PmlState(prev, v, a, mine, d, dx, uv.boundaryLocation(b, d))
      else prev
  }

  /** Every layer of the first n visits of use_pml_everywhere on an owned chunk
      divides by nonzero denominators only. */
  predicate SweepDefined(st: ChunkState, v: Volume, a: real, uv: Volume, dx: real, n: nat)
    requires a != 0.0 && dx != 0.0 && n <= |Boundaries| && WellFormed(st, v, true)
    decreases n, 0
  {
    n == 0 ||
    (SweepDefined(st, v, a, uv, dx, n - 1) &&
     var (b, d) := Boundaries[n - 1];
     uv.hasBoundary(b, d) ==> PmlDefined(Sweep(st, v, a, true, uv, dx, n - 1), v, a, d, dx, uv.boundaryLocation(b, d)))
  }

  /** What the whole sweep divides by is defined for every shorter sweep too. */
  lemma {:induction false} SweepDefinedPrefix(st: ChunkState, v: Volume, a: real, uv: Volume, dx: real, n: nat, m: nat)
    requires a != 0.0 && dx != 0.0 && n <= m <= |Boundaries| && WellFormed(st, v, true)
    requires SweepDefined(st, v, a, uv, dx, m)
    ensures SweepDefined(st, v, a, uv, dx, n)
    decreases m
  {
    if n < m {
      SweepDefinedPrefix(st, v, a, uv, dx, n, m - 1);
    }
  }

  /** With no negative inverse permittivity every layer of the sweep is defined. */
  lemma {:induction false} NonNegativeSweepDefined(st: ChunkState, v: Volume, a: real, uv: Volume, dx: real, n: nat)
    requires a != 0.0 && dx != 0.0 && n <= |Boundaries| && WellFormed(st, v, true) && InvepsNonNegative(st)
    ensures SweepDefined(st, v, a, uv, dx, n)
  {
    if n > 0 {
      NonNegativeSweepDefined(st, v, a, uv, dx, n - 1);
      var prev := Sweep(st, v, a, true, uv, dx, n - 1);
      var (b, d) := Boundaries[n - 1];
      var bloc := uv.boundaryLocation(b, d);
      if uv.hasBoundary(b, d) && !PmlRejects(v, a, d, dx, bloc) {
        PmlCondFacts(prev, v, a, d, dx, bloc);
        NonNegativeDecayDefined(prev, v, PmlCond(prev, v, a, d, dx, bloc), d);
      }
    }
  }

  /** The layers only touch conductivities and damping: eps, the inverse
      permittivities and the polarizability chain come through the sweep as they
      were. */
  lemma {:induction false} SweepKeepsMaterial(st: ChunkState, v: Volume, a: real, mine: bool, uv: Volume, dx: real, n: nat)
    requires a != 0.0 && dx != 0.0 && n <= |Boundaries|
    requires WellFormed(st, v, mine) && (mine ==> SweepDefined(st, v, a, uv, dx, n))
    ensures var r := Sweep(st, v, a, mine, uv, dx, n);
      r.eps == st.eps && r.inveps == st.inveps && r.chain == st.chain && r.pol == st.pol
  {
    if n > 0 {
      SweepKeepsMaterial(st, v, a, mine, uv, dx, n - 1);
      var prev := Sweep(st, v, a, mine, uv, dx, n - 1);
      var (b, d) := Boundaries[n - 1];
      if uv.hasBoundary(b, d) {
        PmlLeavesOtherLayers(prev, v, a, mine, d, dx, uv.boundaryLocation(b, d));
      }
    }
  }

  /** A chunk another process owns has no arrays, and no layer gives it any. */
  lemma {:induction false} SweepOfUnowned(st: ChunkState, v: Volume, a: real, uv: Volume, dx: real, n: nat)
    requires a != 0.0 && dx != 0.0 && n <= |Boundaries| && WellFormed(st, v, false)
    ensures Sweep(st, v, a, false, uv, dx, n) == st
  {
    if n > 0 {
      SweepOfUnowned(st, v, a, uv, dx, n - 1);
    }
  }

  // --------------------------------------------------------------- the grid

  /** objs holds every chunk of cs and its eps buffer. */
  ghost predicate Covers(cs: seq<MatChunk>, objs: set<object>)
    reads objs
  {
    forall i :: 0 <= i < |cs| ==> cs[i] in objs && (cs[i].eps != null ==> cs[i].eps in objs)
  }

  /** A chunk array held in objs: valid chunks, no two slots sharing a chunk or an
      eps buffer. */
  ghost predicate Slots(cs: seq<MatChunk>, objs: set<object>)
    reads objs
  {
    && Covers(cs, objs)
    && (forall i :: 0 <= i < |cs| ==> cs[i].Valid())
    && (forall i, j :: 0 <= i < j < |cs| ==> cs[i] != cs[j])
    && (forall i, j :: 0 <= i < |cs| && 0 <= j < |cs| && i != j && cs[i].eps != null ==> cs[i].eps != cs[j].eps)
  }

  /** A valid chunk from outside objs appended to a chunk array keeps its slots
      apart. */
  lemma SlotsAppend(cs: seq<MatChunk>, objs: set<object>, c: MatChunk)
    requires Slots(cs, objs) && c.Valid()
    requires c !in objs && (c.eps != null ==> c.eps !in objs)
    ensures Slots(cs + [c], objs + {c} + (if c.eps != null then {c.eps} else {}))
  {
    var cs' := cs + [c];
    forall i | 0 <= i < |cs'|
      ensures cs'[i].Valid()
    {
      if i < |cs| {
        assert cs'[i] == cs[i];
      }
    }
  }

  /** Slots 0 .. |cs| - 1 hold what the sampling constructor builds for them. */
  ghost predicate BuiltUpTo(cs: seq<MatChunk>, objs: set<object>, w: Volume, feps: Vec -> real, ops: VolumeOps,
                            num: int, rank: int, procs: int)
    reads objs
  {
    Covers(cs, objs) && |cs| <= num && forall i :: 0 <= i < |cs| ==> Built(cs[i], w, feps, ops, num, rank, procs, i)
  }

  lemma BuiltAppend(cs: seq<MatChunk>, objs: set<object>, w: Volume, feps: Vec -> real, ops: VolumeOps,
                    num: int, rank: int, procs: int, c: MatChunk)
    requires BuiltUpTo(cs, objs, w, feps, ops, num, rank, procs) && |cs| < num
    requires Built(c, w, feps, ops, num, rank, procs, |cs|)
    ensures BuiltUpTo(cs + [c], objs + {c} + (if c.eps != null then {c.eps} else {}), w, feps, ops, num, rank, procs)
  {
    var cs' := cs + [c];
    forall i | 0 <= i < |cs'|
      ensures Built(cs'[i], w, feps, ops, num, rank, procs, i)
    {
      if i < |cs| {
        assert cs'[i] == cs[i];
      }
    }
  }

  /** The first half of choose_chunkdivision: with a nontrivial symmetry, the
      user's volume must be two-dimensional and even along every axis the symmetry
      breaks, and is then halved and padded along those axes. */
  method ReduceBySymmetry(thev: Volume, s: Symmetry, ops: VolumeOps) returns (r: Result<Volume>)
    ensures r.Aborted? <==> SymmetryAbort(thev, s, ops).Some?
    ensures r.Aborted? ==> r.reason == SymmetryAbort(thev, s, ops).value
    ensures r.Ok? ==> r.value == WorkingVolume(thev, s, ops)
  {
    if s.multiplicity > 1 {
      if thev.dim != D2 {
        return Aborted(SymmetryNeedsCartesian);
      }
      var scan := ScanBreaks(thev, s, ops);
      if scan.Aborted? {
        return Aborted(scan.reason);
      }
      assert scan.value == Broken(thev, s, ops);
      var w := ReduceVolume(thev, scan.value, ops);
      return Ok(w);
    }
    return Ok(thev);
  }

  /** The loop of choose_chunkdivision over the slots: chunk i of the working volume
      w on process i*procs/num, unless the sampling constructor aborts on a chunk
      of this process first. */
  method BuildChunks(w: Volume, feps: Vec -> real, ops: VolumeOps,
                     num: int, rank: int, procs: int)
    returns (cs: seq<MatChunk>, ghost objs: set<object>, out: Outcome)
    requires num >= 0 && Samplable(w, feps, ops, num, rank, procs)
    ensures out.Failed? <==> exists i :: 0 <= i < num && OwnedUnsupported(w, ops, num, rank, procs, i)
    ensures out.Failed? ==> out.reason == UnsupportedDimension
    ensures out.Done? ==> |cs| == num && fresh(objs) && Slots(cs, objs)
    ensures out.Done? ==> BuiltUpTo(cs, objs, w, feps, ops, num, rank, procs)
  {
    cs, objs := [], {};
    for i := 0 to num
      invariant |cs| == i && fresh(objs) && Slots(cs, objs)
      invariant forall j :: 0 <= j < i ==> !OwnedUnsupported(w, ops, num, rank, procs, j)
      invariant BuiltUpTo(cs, objs, w, feps, ops, num, rank, procs)
    {
      var proc := CDiv(i * procs, num);
      var vol := ops.split(w, num, i);
      assert proc == Owner(i, procs, num);
      if rank == proc && vol.dim == D3 {
        assert OwnedUnsupported(w, ops, num, rank, procs, i);
        return cs, objs, Failed(UnsupportedDimension);
      }
      var c := new MatChunk.Sample(vol, feps, proc, rank);
      assert Built(c, w, feps, ops, num, rank, procs, i);
      SlotsAppend(cs, objs, c);
      BuiltAppend(cs, objs, w, feps, ops, num, rank, procs, c);
      cs, objs := cs + [c], objs + {c} + (if c.eps != null then {c.eps} else {});
    }
    out := Done;
  }

  /** The loop of the copy constructor over the slots: a copy of every chunk of ms,
      in the same order. */
  method CopyChunks(ms: seq<MatChunk>, ghost mobjs: set<object>, rank: int)
    returns (cs: seq<MatChunk>, ghost objs: set<object>)
    requires Slots(ms, mobjs)
    requires forall i :: 0 <= i < |ms| ==> rank == ms[i].theProc ==> ms[i].isMine
    ensures |cs| == |ms| && fresh(objs) && Slots(cs, objs)
    ensures CopiedUpTo(cs, objs, ms, mobjs, rank)
  {
    cs, objs := [], {};
    for i := 0 to |ms|
      invariant |cs| == i && fresh(objs) && Slots(cs, objs)
      invariant CopiedUpTo(cs, objs, ms, mobjs, rank)
    {
      var c := new MatChunk.Copy(ms[i], rank);
      assert Copied(c, ms[i], rank);
      SlotsAppend(cs, objs, c);
      CopiedAppend(cs, objs, ms, mobjs, rank, c);
      cs, objs := cs + [c], objs + {c} + (if c.eps != null then {c.eps} else {});
    }
  }

  /** c is the copy mat_chunk(o) builds on the process of rank `rank`. */
  ghost predicate Copied(c: MatChunk, o: MatChunk, rank: int)
    reads c, c.eps, o, o.eps
  {
    && c.v == o.v && c.theProc == o.theProc && c.isMine == (rank == o.theProc)
    && c.State() == CopyState(o.State(), c.isMine)
  }

  /** Slots 0 .. |cs| - 1 hold copies of the chunks of ms in the same slots. */
  ghost predicate CopiedUpTo(cs: seq<MatChunk>, objs: set<object>, ms: seq<MatChunk>, mobjs: set<object>, rank: int)
    reads objs, mobjs
  {
    && Covers(cs, objs) && Covers(ms, mobjs) && |cs| <= |ms|
    && forall i :: 0 <= i < |cs| ==> Copied(cs[i], ms[i], rank)
  }

  lemma CopiedAppend(cs: seq<MatChunk>, objs: set<object>, ms: seq<MatChunk>, mobjs: set<object>, rank: int, c: MatChunk)
    requires CopiedUpTo(cs, objs, ms, mobjs, rank) && |cs| < |ms| && Copied(c, ms[|cs|], rank)
    ensures CopiedUpTo(cs + [c], objs + {c} + (if c.eps != null then {c.eps} else {}), ms, mobjs, rank)
  {
    var cs' := cs + [c];
    forall i | 0 <= i < |cs'|
      ensures Copied(cs'[i], ms[i], rank)
    {
      if i < |cs| {
        assert cs'[i] == cs[i];
      }
    }
  }

  class Mat {
    var numChunks: int
    var outdir: string
    var v: Volume
    var userVolume: Volume
    var S: Symmetry
    var chunks: seq<MatChunk>
    /** The chunks and their eps buffers. */
    ghost var Repr: set<object>

    /** One valid chunk per slot, no two slots sharing a chunk or an eps buffer. */
    ghost predicate Valid()
      reads this, Repr
    {
      && this !in Repr
      && |chunks| == numChunks
      && Slots(chunks, Repr)
    }

    // ------------------------------------------------------------ construction

    /** mat(): no chunks and the identity symmetry; the volumes are the blank volume
        of the volume type. */
    constructor Empty(blank: Volume)
      ensures Valid() && Repr == {}
      ensures numChunks == 0 && chunks == [] && outdir == "." && S == Identity()
      ensures v == blank && userVolume == blank
    {
      numChunks, outdir, S := 0, ".", Identity();
      v, userVolume := blank, blank;
      chunks, Repr := [], {};
    }

    /** mat(thev, feps, num, s) on the process of rank `rank` out of `procs`: num 0
        means one chunk per process; then choose_chunkdivision. */
    static method Create(thev: Volume, feps: Vec -> real, num: int, s: Symmetry, rank: int, procs: int,
                         ops: VolumeOps, blank: Volume)
      returns (m: Mat, out: Outcome)
      requires num >= 0 && procs > 0
      requires Samplable(WorkingVolume(thev, s, ops), feps, ops, if num == 0 then procs else num, rank, procs)
      ensures fresh(m) && m.outdir == "."
      ensures m.numChunks == (if num == 0 then procs else num)
      ensures out == DivisionOutcome(thev, s, ops, m.numChunks, rank, procs)
      ensures out.Done? ==> m.Valid() && fresh(m.Repr) && m.Divided(thev, feps, s, ops, rank, procs)
    {
      m := new Mat.Empty(blank);
      var n := if num == 0 then procs else num;
      out := m.ChooseChunkDivision(thev, feps, n, s, rank, procs, ops);
    }

    /** The grid holds the division of thev: the user's volume, the working volume,
        the symmetry, and in every slot the chunk the sampling constructor builds. */
    ghost predicate Divided(thev: Volume, feps: Vec -> real, s: Symmetry, ops: VolumeOps, rank: int, procs: int)
      reads this, Repr
      requires Valid()
    {
      && userVolume == thev && S == s && v == WorkingVolume(thev, s, ops)
      && BuiltUpTo(chunks, Repr, v, feps, ops, numChunks, rank, procs)
    }

    /** mat::choose_chunkdivision: the working volume reduced by the symmetry, then
        chunk i of v.split(num, i) on process i*procs/num. */
    method ChooseChunkDivision(thev: Volume, feps: Vec -> real, num: int, s: Symmetry, rank: int, procs: int,
                               ops: VolumeOps)
      returns (out: Outcome)
      requires num >= 0 && procs > 0 && Samplable(WorkingVolume(thev, s, ops), feps, ops, num, rank, procs)
      modifies this
      ensures numChunks == num && outdir == old(outdir)
      ensures out == DivisionOutcome(thev, s, ops, num, rank, procs)
      ensures out.Done? ==> Valid() && fresh(Repr) && Divided(thev, feps, s, ops, rank, procs)
    {
      numChunks, userVolume, v, S := num, thev, thev, s;
      var reduced := ReduceBySymmetry(thev, s, ops);
      if reduced.Aborted? {
        return Failed(reduced.reason);
      }
      var w := reduced.value;
      v := w;
      var cs;
      ghost var objs;
      cs, objs, out := BuildChunks(w, feps, ops, num, rank, procs);
      if out.Done? {
        chunks, Repr := cs, objs;
      }
    }

    // ------------------------------------------------------------------ copying

    /** mat(const mat *m) and mat(const mat &m) on the process of rank `rank`: the same
        volumes, symmetry and output directory, and a copy of every chunk. */
    constructor Copy(m: Mat, rank: int)
      requires m.Valid()
      requires forall i :: 0 <= i < |m.chunks| ==> rank == m.chunks[i].theProc ==> m.chunks[i].isMine
      ensures Valid() && fresh(Repr)
      ensures numChunks == m.numChunks && outdir == m.outdir && v == m.v && S == m.S && userVolume == m.userVolume
      ensures |chunks| == |m.chunks| && CopiedUpTo(chunks, Repr, m.chunks, m.Repr, rank)
    {
      var cs;
      ghost var objs;
      cs, objs := CopyChunks(m.chunks, m.Repr, rank);
      numChunks, outdir, v, S, userVolume := m.numChunks, m.outdir, m.v, m.S, m.userVolume;
      chunks, Repr := cs, objs;
    }


    // ------------------------------------------------------- make_average_eps

    /** mat::make_average_eps: every chunk this process owns averages its
        permittivity; the others are left alone. */
    method MakeAverageEps()
      requires Valid()
      requires forall i :: 0 <= i < |chunks| && chunks[i].isMine ==> CanAverage(chunks[i].State())
      modifies Repr
      ensures Valid()
      ensures forall j :: 0 <= j < |chunks| ==> chunks[j].pmlFmin == old(chunks[j].pmlFmin) && chunks[j].eps == old(chunks[j].eps)
      ensures forall i :: 0 <= i < |chunks| ==>
        chunks[i].State() == if chunks[i].isMine then AverageState(old(chunks[i].State()), chunks[i].v) else old(chunks[i].State())
    {
      for i := 0 to numChunks
        invariant Valid()
        invariant forall j :: 0 <= j < |chunks| ==> chunks[j].pmlFmin == old(chunks[j].pmlFmin) && chunks[j].eps == old(chunks[j].eps)
        invariant forall j :: 0 <= j < i ==>
          chunks[j].State() == if chunks[j].isMine then AverageState(old(chunks[j].State()), chunks[j].v) else old(chunks[j].State())
        invariant forall j :: i <= j < |chunks| ==> chunks[j].State() == old(chunks[j].State())
      {
        if chunks[i].isMine {
          AverageSlot(i);
        }
      }
    }

    /** The body of make_average_eps for slot i, a chunk this process owns. */
    method AverageSlot(i: int)
      requires Valid() && 0 <= i < |chunks| && chunks[i].isMine && CanAverage(chunks[i].State())
      modifies chunks[i], chunks[i].eps
      ensures Valid()
      ensures forall j :: 0 <= j < |chunks| ==> chunks[j].pmlFmin == old(chunks[j].pmlFmin) && chunks[j].eps == old(chunks[j].eps)
      ensures chunks[i].State() == AverageState(old(chunks[i].State()), chunks[i].v)
      ensures forall j :: 0 <= j < |chunks| && j != i ==> chunks[j].State() == old(chunks[j].State())
    {
      chunks[i].MakeAverageEps();
    }

    // ---------------------------------------------------------------- use_pml

    /** What the absorbing layers need of every chunk: a nonzero resolution. */
    ghost predicate PmlReady()
      reads this, Repr
      requires Valid()
    {
      forall i :: 0 <= i < |chunks| ==> chunks[i].a != 0.0
    }

    /** The layer along d at bloc divides by nonzero denominators only, on every chunk
        this process owns. */
    ghost predicate LayerDefined(d: Direction, dx: real, bloc: real)
      reads this, Repr
      requires Valid() && PmlReady() && dx != 0.0
    {
      forall i :: 0 <= i < |chunks| && chunks[i].isMine ==>
        PmlDefined(chunks[i].State(), chunks[i].v, chunks[i].a, d, dx, bloc)
    }

    /** mat::use_pml(d, b, dx): every chunk gets the absorbing layer along d, located
        at the user volume's boundary b. */
    method UsePml(d: Direction, b: Side, dx: real)
      requires Valid() && PmlReady() && dx != 0.0 && LayerDefined(d, dx, userVolume.boundaryLocation(b, d))
      modifies Repr
      ensures Valid() && PmlReady()
      ensures forall j :: 0 <= j < |chunks| ==> chunks[j].pmlFmin == old(chunks[j].pmlFmin) && chunks[j].eps == old(chunks[j].eps)
      ensures forall i :: 0 <= i < |chunks| ==>
        chunks[i].State() == PmlState(old(chunks[i].State()), chunks[i].v, chunks[i].a, chunks[i].isMine, d, dx,
                                      userVolume.boundaryLocation(b, d))
    {
      var bloc := userVolume.boundaryLocation(b, d);
      for i := 0 to numChunks
        invariant Valid() && PmlReady()
        invariant forall j :: 0 <= j < |chunks| ==> chunks[j].pmlFmin == old(chunks[j].pmlFmin) && chunks[j].eps == old(chunks[j].eps)
        invariant forall j :: 0 <= j < i ==>
          chunks[j].State() == PmlState(old(chunks[j].State()), chunks[j].v, chunks[j].a, chunks[j].isMine, d, dx, bloc)
        invariant forall j :: i <= j < |chunks| ==> chunks[j].State() == old(chunks[j].State())
        invariant forall j :: i <= j < |chunks| && chunks[j].isMine ==>
          PmlDefined(chunks[j].State(), chunks[j].v, chunks[j].a, d, dx, bloc)
      {
        PmlSlot(i, d, dx, bloc);
      }
    }

    /** The body of use_pml for slot i. */
    method PmlSlot(i: int, d: Direction, dx: real, bloc: real)
      requires Valid() && PmlReady() && 0 <= i < |chunks| && dx != 0.0
      requires chunks[i].isMine ==> PmlDefined(chunks[i].State(), chunks[i].v, chunks[i].a, d, dx, bloc)
      modifies chunks[i]
      ensures Valid() && PmlReady()
      ensures forall j :: 0 <= j < |chunks| ==> chunks[j].pmlFmin == old(chunks[j].pmlFmin) && chunks[j].eps == old(chunks[j].eps)
      ensures chunks[i].State() == PmlState(old(chunks[i].State()), chunks[i].v, chunks[i].a, chunks[i].isMine, d, dx, bloc)
      ensures forall j :: 0 <= j < |chunks| && j != i ==> chunks[j].State() == old(chunks[j].State())
    {
      ghost var st0 := chunks[i].State();
      chunks[i].UsePml(d, dx, bloc);
      PmlKeepsWellFormed(st0, chunks[i].v, chunks[i].a, chunks[i].isMine, d, dx, bloc);
    }

    /** mat::use_pml_everywhere(dx): a layer at every boundary the user's volume has,
        high sides first, in the order of FOR_DIRECTIONS.  The two nested loops of the
        source visit the boundaries in the order of Boundaries; one loop over that
        list does the same. */
    method UsePmlEverywhere(dx: real)
      requires Valid() && PmlReady() && dx != 0.0
      requires forall i :: 0 <= i < |chunks| && chunks[i].isMine ==>
        SweepDefined(chunks[i].State(), chunks[i].v, chunks[i].a, userVolume, dx, |Boundaries|)
      modifies Repr
      ensures Valid() && PmlReady()
      ensures forall j :: 0 <= j < |chunks| ==> chunks[j].pmlFmin == old(chunks[j].pmlFmin) && chunks[j].eps == old(chunks[j].eps)
      ensures forall i :: 0 <= i < |chunks| ==>
        chunks[i].State() == Sweep(old(chunks[i].State()), chunks[i].v, chunks[i].a, chunks[i].isMine, userVolume, dx, |Boundaries|)
    {
      for n := 0 to |Boundaries|
        invariant Valid() && PmlReady()
        invariant forall j :: 0 <= j < |chunks| && chunks[j].isMine ==>
          SweepDefined(old(chunks[j].State()), chunks[j].v, chunks[j].a, userVolume, dx, |Boundaries|) &&
          SweepDefined(old(chunks[j].State()), chunks[j].v, chunks[j].a, userVolume, dx, n)
        invariant forall j :: 0 <= j < |chunks| ==>
          chunks[j].pmlFmin == old(chunks[j].pmlFmin) && chunks[j].eps == old(chunks[j].eps) &&
          chunks[j].State() == Sweep(old(chunks[j].State()), chunks[j].v, chunks[j].a, chunks[j].isMine, userVolume, dx, n)
      {
        var (b, d) := Boundaries[n];
        forall j | 0 <= j < |chunks| && chunks[j].isMine
          ensures SweepDefined(old(chunks[j].State()), chunks[j].v, chunks[j].a, userVolume, dx, n + 1)
        {
          SweepDefinedPrefix(old(chunks[j].State()), chunks[j].v, chunks[j].a, userVolume, dx, n + 1, |Boundaries|);
        }
        if userVolume.hasBoundary(b, d) {
          UsePml(d, b, dx);
        }
      }
    }

    // ---------------------------------------------------------------- mix_with

    /** Every chunk this process owns can blend with the chunk of o in its slot. */
    ghost predicate MixReady(o: Mat, f: real)
      reads this, Repr, o, o.Repr
      requires Valid() && o.Valid() && numChunks == o.numChunks
    {
      forall i :: 0 <= i < |chunks| && chunks[i].isMine ==>
        o.chunks[i].isMine && CanMix(chunks[i].State(), o.chunks[i].State(), f, chunks[i].v)
    }

    /** mat::mix_with(o, f): an abort when the chunk counts differ, and otherwise
        every chunk this process owns blends a fraction f towards o's chunk in the
        same slot. */
    method MixWith(o: Mat, f: real) returns (out: Outcome)
      requires Valid() && o.Valid() && o !in Repr && Repr !! o.Repr
      requires numChunks == o.numChunks ==> MixReady(o, f)
      modifies Repr
      ensures Valid()
      ensures forall j :: 0 <= j < |chunks| ==> chunks[j].pmlFmin == old(chunks[j].pmlFmin) && chunks[j].eps == old(chunks[j].eps)
      ensures out.Failed? <==> old(numChunks) != o.numChunks
      ensures out.Failed? ==> out.reason == MismatchedChunkTopology
      ensures out.Failed? ==> forall i :: 0 <= i < |chunks| ==> chunks[i].State() == old(chunks[i].State())
      ensures out.Done? ==> forall i :: 0 <= i < |chunks| ==>
        chunks[i].State() == if chunks[i].isMine then MixState(old(chunks[i].State()), old(o.chunks[i].State()), f, chunks[i].v)
                             else old(chunks[i].State())
      ensures forall i :: 0 <= i < |o.chunks| ==> o.chunks[i].State() == old(o.chunks[i].State())
    {
      if numChunks != o.numChunks {
        return Failed(MismatchedChunkTopology);
      }
      for i := 0 to numChunks
        invariant Valid()
        invariant forall j :: 0 <= j < i ==>
          chunks[j].pmlFmin == old(chunks[j].pmlFmin) && chunks[j].eps == old(chunks[j].eps) &&
          chunks[j].State() == if chunks[j].isMine then MixState(old(chunks[j].State()), old(o.chunks[j].State()), f, chunks[j].v)
                               else old(chunks[j].State())
        invariant forall j :: i <= j < |chunks| ==> chunks[j].pmlFmin == old(chunks[j].pmlFmin) && chunks[j].eps == old(chunks[j].eps) && chunks[j].State() == old(chunks[j].State())
        invariant o.Valid() && forall j :: 0 <= j < |o.chunks| ==> o.chunks[j].State() == old(o.chunks[j].State())
      {
        if chunks[i].isMine {
          MixSlot(o, f, i);
        }
      }
      out := Done;
    }

    /** The body of mix_with for slot i, a chunk this process owns. */
    method MixSlot(o: Mat, f: real, i: int)
      requires Valid() && o.Valid() && o !in Repr && Repr !! o.Repr && numChunks == o.numChunks
      requires 0 <= i < |chunks| && chunks[i].isMine && o.chunks[i].isMine
      requires CanMix(chunks[i].State(), o.chunks[i].State(), f, chunks[i].v)
      modifies chunks[i], chunks[i].eps
      ensures Valid()
      ensures forall j :: 0 <= j < |chunks| ==> chunks[j].pmlFmin == old(chunks[j].pmlFmin) && chunks[j].eps == old(chunks[j].eps)
      ensures chunks[i].State() == MixState(old(chunks[i].State()), old(o.chunks[i].State()), f, chunks[i].v)
      ensures forall j :: 0 <= j < |chunks| && j != i ==> chunks[j].State() == old(chunks[j].State())
      ensures forall j :: 0 <= j < |o.chunks| ==> o.chunks[j].State() == old(o.chunks[j].State())
    {
      chunks[i].MixWith(o.chunks[i], f);
    }

    // ---------------------------------------------------------------- max_eps

    /** The running maximum of mat::max_eps over the first n slots, started at 0:
        each chunk this process owns contributes its own maximum. */
    function MaxUpTo(n: nat): real
      reads this, Repr
      requires Valid() && n <= |chunks|
    {
      if n == 0 then 0.0
      else if chunks[n - 1].isMine then Max(MaxUpTo(n - 1), MaxOf(chunks[n - 1].State().eps))
      else MaxUpTo(n - 1)
    }

    /** The running maximum is at least 0 and every eps cell of every chunk this
        process owns among the first n, and is 0 or one of those cells. */
    lemma {:induction false} MaxUpToBounds(n: nat)
      requires Valid() && n <= |chunks|
      ensures MaxUpTo(n) >= 0.0
      ensures forall i, k :: 0 <= i < n && chunks[i].isMine && 0 <= k < |chunks[i].State().eps| ==>
        chunks[i].State().eps[k] <= MaxUpTo(n)
      ensures MaxUpTo(n) == 0.0 ||
        exists i, k :: 0 <= i < n && chunks[i].isMine && 0 <= k < |chunks[i].State().eps| &&
          chunks[i].State().eps[k] == MaxUpTo(n)
    {
      if n > 0 {
        MaxUpToBounds(n - 1);
        var c := chunks[n - 1];
        if c.isMine {
          MaxOfBounds(c.State().eps);
        }
      }
    }

    /** mat::max_eps on this process: the largest eps over the chunks it owns, or 0. */
    method MaxEps() returns (r: real)
      requires Valid()
      ensures r == MaxUpTo(|chunks|)
      ensures r >= 0.0
      ensures forall i, k :: 0 <= i < |chunks| && chunks[i].isMine && 0 <= k < |chunks[i].State().eps| ==>
        chunks[i].State().eps[k] <= r
      ensures r == 0.0 ||
        exists i, k :: 0 <= i < |chunks| && chunks[i].isMine && 0 <= k < |chunks[i].State().eps| &&
          chunks[i].State().eps[k] == r
    {
      r := 0.0;
      for i := 0 to numChunks
        invariant r == MaxUpTo(i)
      {
        if chunks[i].isMine {
          var m := chunks[i].MaxEps();
          r := Max(r, m);
        }
      }
      MaxUpToBounds(|chunks|);
    }
  }
}
