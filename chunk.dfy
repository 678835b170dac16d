/** One chunk of the material grid (mat_chunk): the permittivity of a sub-volume and
    the tables of inverse permittivity, absorbing-layer conductivity, damping and
    polarizability the field update reads.  The permittivity is a heap buffer of
    `v.ntot` cells, NULL on a chunk another process owns.  Each table is a map from
    its index tuple to the contents of that entry's buffer; an absent key is a NULL
    entry.  State() is the snapshot of all of it that the operations are specified
    against. */
module Chunk {
  import opened Yee
  import opened Numeric
  import opened Tables
  import opened ChunkState
  import opened Buffers

  class MatChunk {
    const v: Volume
    const a: real
    const theProc: int
    const isMine: bool
    var pmlFmin: real
    var eps: array?<real>
    var inveps: map<InvKey, seq<real>>
    var C: map<CondKey, seq<real>>
    var Cdecay: map<DecayKey, seq<real>>
    /** The number of terms of the polarizability chain. */
    var chain: nat
    /** The polarizability chain, flattened: pb[(j, c)] is component c's array of
        term j. */
    var pb: map<PolKey, seq<real>>

    /** The contents of every buffer of the chunk. */
    function State(): ChunkState
      reads this, eps
    {
      ChunkState(if eps == null then [] else eps[..], inveps, C, Cdecay, chain, pb)
    }

    /** The chunk invariant: eps is allocated exactly on the owner, and the contents
        are well formed. */
    ghost predicate Valid()
      reads this, eps
    {
      (eps != null <==> isMine) && WellFormed(State(), v, isMine)
    }

    // ------------------------------------------------------------ construction

    /** The sampling constructor mat_chunk(v, feps, pr) on the process of rank
        `rank`: on the owner, eps sampled from feps and the own-axis inverse
        permittivities filled; nothing elsewhere. */
    constructor Sample(vol: Volume, feps: Vec -> real, pr: int, rank: int)
      requires rank == pr ==> SampleDefined(vol, feps)
      ensures v == vol && a == vol.a && theProc == pr && isMine == (rank == pr) && pmlFmin == DefaultPmlFmin
      ensures Valid() && (eps != null ==> fresh(eps))
      ensures State() == InitState(vol, feps, isMine)
    {
      v, a, theProc, isMine := vol, vol.a, pr, rank == pr;
      pmlFmin := DefaultPmlFmin;
      chain, pb := 0, map[];
      var t := AllocateInverses(vol, rank == pr);
      if rank == pr {
        var e := new real[vol.ntot];
        SampleInto(e, vol, feps);
        eps := e;
        t := FillInverses(vol, feps, e, t);
        FillAllIsInit(vol, feps);
      } else {
        eps := null;
      }
      inveps := t;
      C, Cdecay := map[], map[];
      InitWellFormed(vol, feps, rank == pr);
    }

    // ------------------------------------------------------------------ copying

    /** The copy constructor mat_chunk(o) on the process of rank `rank`, which built
        o: the polarizability chain always, and on the owner every array of o, a
        damping entry only with its conductivity. */
    constructor Copy(o: MatChunk, rank: int)
      requires o.Valid() && (rank == o.theProc ==> o.isMine)
      ensures v == o.v && a == o.a && theProc == o.theProc && isMine == (rank == o.theProc)
      ensures Valid() && (eps != null ==> fresh(eps))
      ensures State() == CopyState(o.State(), isMine)
    {
      var mine := rank == o.theProc;
      chain, pb := o.chain, o.pb;
      v, a, theProc, isMine := o.v, o.a, o.theProc, mine;
      if mine {
        var e := new real[o.v.ntot];
        CopyInto(e, o.eps);
        eps := e;
      } else {
        eps := null;
      }
      var t := CopyInverses(o.inveps, mine);
      var cond, decay := CopyConductivities(o.C, o.Cdecay, mine);
      inveps, C, Cdecay := t, cond, decay;
      new;
      CopyKeepsWellFormed(o.State(), v, o.isMine, isMine);
    }

    // ---------------------------------------------------------------- mix_with

    /** mat_chunk::mix_with(o, f): eps blended harmonically, and every inverse
        permittivity and the arrays both polarizability chains hold blended linearly,
        a fraction f of the way towards o. */
    method MixWith(o: MatChunk, f: real)
      requires Valid() && o.Valid() && isMine && o.isMine && o != this && o.eps != eps
      requires CanMix(State(), o.State(), f, v)
      modifies this, eps
      ensures Valid() && eps == old(eps) && pmlFmin == old(pmlFmin)
      ensures State() == MixState(old(State()), old(o.State()), f, v)
    {
      var st0, ost := State(), o.State();
      HarmonicMixInto(eps, o.eps, f);
      inveps := MixInverses(st0, ost, f, v);
      pb := MixChains(st0, ost, f, v);
      MixByUnion(st0, ost, f, v);
      MixKeepsWellFormed(st0, ost, f, v);
    }

    // ------------------------------------------------------- make_average_eps

    /** mat_chunk::make_average_eps: every eps cell set to the mean, and every own-axis
        inverse permittivity to its reciprocal. */
    method MakeAverageEps()
      requires Valid() && isMine && CanAverage(State())
      modifies this, eps
      ensures Valid() && eps == old(eps) && pmlFmin == old(pmlFmin)
      ensures State() == AverageState(old(State()), v)
    {
      var st0 := State();
      var meaneps := SumOf(eps);
      meaneps := meaneps / (v.ntot as real);
      assert meaneps == Mean(st0.eps);
      Fill(eps, meaneps);
      AverageByUnion(st0, v);
      inveps := AverageInverses(st0, v, meaneps);
      AverageKeepsWellFormed(st0, v);
    }

    // ---------------------------------------------------------------- use_pml

    /** mat_chunk::use_pml(d, dx, bloc): nothing outside the layer or on a chunk another
        process owns; otherwise the conductivities of d ramped, then their damping
        entries recomputed. */
    method UsePml(d: Direction, dx: real, bloc: real)
      requires Valid() && a != 0.0 && dx != 0.0 && (isMine ==> PmlDefined(State(), v, a, d, dx, bloc))
      modifies this
      ensures Valid() && eps == old(eps) && pmlFmin == old(pmlFmin)
      ensures State() == PmlState(old(State()), v, a, isMine, d, dx, bloc)
    {
      if bloc > v.boundaryLocation(High, d) + dx + 1.0 / a ||
         bloc < v.boundaryLocation(Low, d) - dx - 1.0 / a {
        return;
      }
      if isMine {
        var st0 := State();
        C := RampLoop(st0, v, a, d, dx, bloc);
        PmlCondFacts(st0, v, a, d, dx, bloc);
        Cdecay := DecayLoop(st0, v, C, d);
        PmlKeepsWellFormed(st0, v, a, true, d, dx, bloc);
      }
    }

    // ---------------------------------------------------------------- max_eps

    /** mat_chunk::max_eps: the running maximum of eps, started at 0. */
    method MaxEps() returns (r: real)
      requires Valid() && isMine
      ensures r == MaxOf(State().eps)
      ensures r >= 0.0 && forall i :: 0 <= i < |State().eps| ==> State().eps[i] <= r
      ensures r == 0.0 || exists i :: 0 <= i < |State().eps| && State().eps[i] == r
    {
      r := MaxOfArray(eps);
    }
  }

  // ------------------------------------------------------ the table loops

  /** The allocation loop of the sampling constructor: FOR_COMPONENTS(c)
      FOR_DIRECTIONS(d), a new buffer of ones on the owner when d is the own axis of
      an electric component c the volume carries, NULL otherwise. */
  method AllocateInverses(v: Volume, mine: bool) returns (t: map<InvKey, seq<real>>)
    ensures t == if mine then OwnAxisOnes(v) else map[]
  {
    var target: map<InvKey, seq<real>> := if mine then OwnAxisOnes(v) else map[];
    InvWalkExists();
    ghost var order :| InvWalk(order);
    t := map[];
    for ci := 0 to |ComponentOrder|
      invariant t == Apply(map[], order, 5 * ci, target)
    {
      t := AllocateRow(v, mine, ci, order, target, t);
    }
    ApplyAll(map[], order, target);
    assert map[] + target == target;
  }

  /** The inner loop FOR_DIRECTIONS(d) of the allocation loop, for the ci-th component. */
  method AllocateRow(v: Volume, mine: bool, ci: nat, ghost order: seq<InvKey>,
                     ghost target: map<InvKey, seq<real>>, t: map<InvKey, seq<real>>)
    returns (t': map<InvKey, seq<real>>)
    requires InvWalk(order) && ci < |ComponentOrder|
    requires target == if mine then OwnAxisOnes(v) else map[]
    requires t == Apply(map[], order, 5 * ci, target)
    ensures t' == Apply(map[], order, 5 * ci + 5, target)
  {
    t' := t;
    for di := 0 to |DirectionOrder|
      invariant t' == Apply(map[], order, 5 * ci + di, target)
    {
      var c, d := ComponentOrder[ci], DirectionOrder[di];
      InvWalkAt(order, ci, di);
      OwnAxisMember(v, (c, d));
      var t2 := t';
      if mine && v.hasField(c) && IsElectric(c) && d == ComponentDirection(c) {
        var b := FilledBuffer(v.ntot, 1.0);
        t2 := t'[(c, d) := b];
      }
      ApplyStep(map[], order, 5 * ci + di, target, (c, d), t', t2);
      t' := t2;
    }
  }

  /** The filling that follows allocation in the sampling constructor: the corner
      averages in cylindrical coordinates, 1/eps in 1D, and in 2D 1/eps for Ez and
      the face averages for Ex and Ey, each where the entry exists. */
  method FillInverses(v: Volume, feps: Vec -> real, eps: array<real>, ones: map<InvKey, seq<real>>)
    returns (t: map<InvKey, seq<real>>)
    requires SampleDefined(v, feps) && ones == OwnAxisOnes(v)
    requires eps[..] == seq(v.ntot, (i: nat) => EpsAt(v, feps, i))
    ensures t == FillAll(v, feps)
  {
    t := ones;
    match v.dim {
      case Dcyl =>
        var kr, kp, kz := (Er, R), (Ep, P), (Ez, Z);
        OwnAxisMember(v, kr);
        OwnAxisMember(v, kp);
        OwnAxisMember(v, kz);
        var r, p, z := CylAverages(t[kr], t[kp], t[kz], v, feps);
        CylFilled(v, feps, Er, r);
        CylFilled(v, feps, Ep, p);
        CylFilled(v, feps, Ez, z);
        t := t[kr := r][kp := p][kz := z];
      case D1 =>
        OwnAxisMember(v, (Ex, X));
        var r := Reciprocals(t[(Ex, X)], eps, v, feps, Ex);
        t := t[(Ex, X) := r];
      case D2 =>
        OwnAxisMember(v, (Ez, Z));
        OwnAxisMember(v, (Ex, X));
        OwnAxisMember(v, (Ey, Y));
        if (Ez, Z) in t {
          var r := Reciprocals(t[(Ez, Z)], eps, v, feps, Ez);
          t := t[(Ez, Z) := r];
        }
        if (Ex, X) in t {
          var r := FaceAverages(t[(Ex, X)], v, feps, Ex);
          t := t[(Ex, X) := r];
        }
        if (Ey, Y) in t {
          var r := FaceAverages(t[(Ey, Y)], v, feps, Ey);
          t := t[(Ey, Y) := r];
        }
    }
  }

  /** The inverse-permittivity loop of the copy constructor: FOR_COMPONENTS(c)
      FOR_DIRECTIONS(d), a copy of o's entry on the owner where o has one. */
  method CopyInverses(o: map<InvKey, seq<real>>, mine: bool) returns (t: map<InvKey, seq<real>>)
    ensures t == if mine then o else map[]
  {
    var target: map<InvKey, seq<real>> := if mine then o else map[];
    InvWalkExists();
    ghost var order :| InvWalk(order);
    t := map[];
    for ci := 0 to |ComponentOrder|
      invariant t == Apply(map[], order, 5 * ci, target)
    {
      t := CopyInverseRow(o, mine, ci, order, target, t);
    }
    ApplyAll(map[], order, target);
    assert map[] + target == target;
  }

  /** The inner loop FOR_DIRECTIONS(d) of the copy's inverse-permittivity loop, for
      the ci-th component. */
  method CopyInverseRow(o: map<InvKey, seq<real>>, mine: bool, ci: nat, ghost order: seq<InvKey>,
                        ghost target: map<InvKey, seq<real>>, t: map<InvKey, seq<real>>)
    returns (t': map<InvKey, seq<real>>)
    requires InvWalk(order) && ci < |ComponentOrder|
    requires target == if mine then o else map[]
    requires t == Apply(map[], order, 5 * ci, target)
    ensures t' == Apply(map[], order, 5 * ci + 5, target)
  {
    t' := t;
    for di := 0 to |DirectionOrder|
      invariant t' == Apply(map[], order, 5 * ci + di, target)
    {
      var k := (ComponentOrder[ci], DirectionOrder[di]);
      InvWalkAt(order, ci, di);
      var t2 := t';
      if mine && k in o {
        t2 := t'[k := o[k]];
      }
      ApplyStep(map[], order, 5 * ci + di, target, k, t', t2);
      t' := t2;
    }
  }

  /** The conductivity loop of the copy constructor: FOR_DIRECTIONS(d)
      FOR_COMPONENTS(c), on the owner, a copy of every conductivity of o and, inside
      it, FOR_DIRECTIONS(d2), a copy of each of its damping entries. */
  method CopyConductivities(oc: map<CondKey, seq<real>>, od: map<DecayKey, seq<real>>, mine: bool)
    returns (cond: map<CondKey, seq<real>>, decay: map<DecayKey, seq<real>>)
    ensures cond == if mine then oc else map[]
    ensures decay == if mine then CopiedDecay(oc, od) else map[]
  {
    cond, decay := map[], map[];
    if mine {
      CopyCondWalkExists();
      CopyDecayWalkExists();
      ghost var corder :| CopyCondWalk(corder);
      ghost var dorder :| CopyDecayWalk(dorder);
      for di := 0 to |DirectionOrder|
        invariant cond == Apply(map[], corder, 10 * di, oc)
        invariant decay == Apply(map[], dorder, 50 * di, CopiedDecay(oc, od))
      {
        cond, decay := CopyConductivityRow(oc, od, di, corder, dorder, cond, decay);
      }
      ApplyAll(map[], corder, oc);
      ApplyAll(map[], dorder, CopiedDecay(oc, od));
      assert map[] + oc == oc;
      assert map[] + CopiedDecay(oc, od) == CopiedDecay(oc, od);
    }
  }

  /** The middle loop FOR_COMPONENTS(c) of the copy's conductivity loop, for the
      di-th direction. */
  method CopyConductivityRow(oc: map<CondKey, seq<real>>, od: map<DecayKey, seq<real>>, di: nat,
                             ghost corder: seq<CondKey>, ghost dorder: seq<DecayKey>,
                             cond: map<CondKey, seq<real>>, decay: map<DecayKey, seq<real>>)
    returns (cond': map<CondKey, seq<real>>, decay': map<DecayKey, seq<real>>)
    requires CopyCondWalk(corder) && CopyDecayWalk(dorder) && di < |DirectionOrder|
    requires cond == Apply(map[], corder, 10 * di, oc)
    requires decay == Apply(map[], dorder, 50 * di, CopiedDecay(oc, od))
    ensures cond' == Apply(map[], corder, 10 * di + 10, oc)
    ensures decay' == Apply(map[], dorder, 50 * di + 50, CopiedDecay(oc, od))
  {
    cond', decay' := cond, decay;
    for ci := 0 to |ComponentOrder|
      invariant cond' == Apply(map[], corder, 10 * di + ci, oc)
      invariant decay' == Apply(map[], dorder, 50 * di + 5 * ci, CopiedDecay(oc, od))
    {
      var d, c := DirectionOrder[di], ComponentOrder[ci];
      CopyCondWalkAt(corder, di, ci);
      var c2 := cond';
      if (d, c) in oc {
        c2 := cond'[(d, c) := oc[(d, c)]];
      }
      ApplyStep(map[], corder, 10 * di + ci, oc, (d, c), cond', c2);
      cond' := c2;
      decay' := CopyDampingRow(oc, od, di, ci, dorder, decay');
    }
  }

  /** The inner loop FOR_DIRECTIONS(d2) of the copy's conductivity loop: the damping
      entries of C[d][c], copied when C[d][c] exists. */
  method CopyDampingRow(oc: map<CondKey, seq<real>>, od: map<DecayKey, seq<real>>, di: nat, ci: nat,
                        ghost dorder: seq<DecayKey>, decay: map<DecayKey, seq<real>>)
    returns (decay': map<DecayKey, seq<real>>)
    requires CopyDecayWalk(dorder) && di < |DirectionOrder| && ci < |ComponentOrder|
    requires decay == Apply(map[], dorder, 50 * di + 5 * ci, CopiedDecay(oc, od))
    ensures decay' == Apply(map[], dorder, 50 * di + 5 * ci + 5, CopiedDecay(oc, od))
  {
    var d, c := DirectionOrder[di], ComponentOrder[ci];
    decay' := decay;
    for ei := 0 to |DirectionOrder|
      invariant decay' == Apply(map[], dorder, 50 * di + 5 * ci + ei, CopiedDecay(oc, od))
    {
      var k := (d, c, DirectionOrder[ei]);
      CopyDecayWalkAt(dorder, di, ci, ei);
      var d2 := decay';
      if (d, c) in oc && k in od {
        d2 := decay'[k := od[k]];
      }
      ApplyStep(map[], dorder, 50 * di + 5 * ci + ei, CopiedDecay(oc, od), k, decay', d2);
      decay' := d2;
    }
  }

  /** The inverse-permittivity loop of mix_with: FOR_ELECTRIC_COMPONENTS(c)
      FOR_DIRECTIONS(d), every entry that exists moves a fraction f towards o's. */
  method MixInverses(st: ChunkState, o: ChunkState, f: real, v: Volume) returns (t: map<InvKey, seq<real>>)
    requires WellFormed(st, v, true) && CanMix(st, o, f, v)
    ensures t == st.inveps + InvMixTargets(st, o, f, v)
  {
    ghost var vals := InvMixTargets(st, o, f, v);
    InvWalkExists();
    ghost var order :| InvWalk(order);
    t := st.inveps;
    for ci := 0 to |ComponentOrder|
      invariant t == Apply(st.inveps, order, 5 * ci, vals)
    {
      t := MixInverseRow(st, o, f, v, ci, order, vals, t);
    }
    ApplyAll(st.inveps, order, vals);
  }

  /** The inner loop FOR_DIRECTIONS(d) of mix_with's inverse-permittivity loop, for
      the ci-th component. */
  method MixInverseRow(st: ChunkState, o: ChunkState, f: real, v: Volume, ci: nat,
                       ghost order: seq<InvKey>, ghost vals: map<InvKey, seq<real>>, t: map<InvKey, seq<real>>)
    returns (t': map<InvKey, seq<real>>)
    requires InvepsShaped(st, v) && CanMix(st, o, f, v) && InvWalk(order) && ci < |ComponentOrder|
    requires vals == InvMixTargets(st, o, f, v)
    requires t == Apply(st.inveps, order, 5 * ci, vals)
    ensures t' == Apply(st.inveps, order, 5 * ci + 5, vals)
  {
    t' := t;
    for di := 0 to |DirectionOrder|
      invariant t' == Apply(st.inveps, order, 5 * ci + di, vals)
    {
      var k := (ComponentOrder[ci], DirectionOrder[di]);
      InvWalkAt(order, ci, di);
      ApplyFresh(st.inveps, order, 5 * ci + di, vals);
      var t2 := MixInversePass(st, o, f, v, k, vals, t');
      ApplyStep(st.inveps, order, 5 * ci + di, vals, k, t', t2);
      t' := t2;
    }
  }

  /** One pass of mix_with's inverse-permittivity loop: the entry k, when it exists,
      moves a fraction f towards o's. */
  method MixInversePass(st: ChunkState, o: ChunkState, f: real, v: Volume, k: InvKey,
                        ghost vals: map<InvKey, seq<real>>, t: map<InvKey, seq<real>>)
    returns (t': map<InvKey, seq<real>>)
    requires InvepsShaped(st, v) && CanMix(st, o, f, v) && vals == InvMixTargets(st, o, f, v)
    requires k in t <==> k in st.inveps
    requires k in t ==> t[k] == st.inveps[k]
    ensures t' == if k in vals then t[k := vals[k]] else t
  {
    t' := t;
    if IsElectric(k.0) && k in t {
      var b := LinearMixed(t[k], o.inveps[k], f);
      t' := t[k := b];
    }
  }

  /** The lock-step walk of mix_with over the two polarizability chains: while both
      chains have a term, the arrays of that term's electric components the volume
      carries move a fraction f towards the other chain's. */
  method MixChains(st: ChunkState, o: ChunkState, f: real, v: Volume) returns (t: map<PolKey, seq<real>>)
    requires CanMix(st, o, f, v)
    ensures t == st.pol + PolMixTargets(st, o, f, v)
  {
    ghost var len := if st.chain < o.chain then st.chain else o.chain;
    t := st.pol;
    var j := 0;
    while j < st.chain && j < o.chain
      invariant 0 <= j <= len
      invariant t == Apply(st.pol, PolOrder(len), 10 * j, PolMixTargets(st, o, f, v))
    {
      t := MixTerm(st, o, f, v, j, len, t);
      j := j + 1;
    }
    PolWalkDone(st, o, f, v, len);
  }

  /** One term of the lock-step walk: FOR_COMPONENTS(c), the arrays of the electric
      components the volume carries blended. */
  method MixTerm(st: ChunkState, o: ChunkState, f: real, v: Volume, j: nat, ghost len: nat,
                 t: map<PolKey, seq<real>>)
    returns (t': map<PolKey, seq<real>>)
    requires CanMix(st, o, f, v) && j < st.chain && j < o.chain && j < len
    requires t == Apply(st.pol, PolOrder(len), 10 * j, PolMixTargets(st, o, f, v))
    ensures t' == Apply(st.pol, PolOrder(len), 10 * j + 10, PolMixTargets(st, o, f, v))
  {
    ghost var vals := PolMixTargets(st, o, f, v);
    PolOrderDistinct(len);
    t' := t;
    for ci := 0 to |ComponentOrder|
      invariant t' == Apply(st.pol, PolOrder(len), 10 * j + ci, vals)
    {
      var c := ComponentOrder[ci];
      PolOrderAt(len, j, ci);
      ApplyFresh(st.pol, PolOrder(len), 10 * j + ci, vals);
      var t2 := MixTermPass(st, o, f, v, j, c, vals, t');
      ApplyStep(st.pol, PolOrder(len), 10 * j + ci, vals, (j, c), t', t2);
      t' := t2;
    }
  }

  /** One pass of the lock-step walk: the array of component c in term j, blended
      when the volume carries c and c is electric. */
  method MixTermPass(st: ChunkState, o: ChunkState, f: real, v: Volume, j: nat, c: Component,
                     ghost vals: map<PolKey, seq<real>>, t: map<PolKey, seq<real>>)
    returns (t': map<PolKey, seq<real>>)
    requires CanMix(st, o, f, v) && j < st.chain && j < o.chain && vals == PolMixTargets(st, o, f, v)
    requires (j, c) in t <==> (j, c) in st.pol
    requires (j, c) in t ==> t[(j, c)] == st.pol[(j, c)]
    ensures t' == if (j, c) in vals then t[(j, c) := vals[(j, c)]] else t
  {
    BlendKeyAt(st, o, f, v, j, c);
    t' := t;
    if v.hasField(c) && IsElectric(c) {
      var b := LinearMixed(t[(j, c)], o.pol[(j, c)], f);
      t' := t[(j, c) := b];
    }
  }

  /** The inverse-permittivity loop of make_average_eps: FOR_ELECTRIC_COMPONENTS(c),
      the own-axis entry of each component the volume carries gets 1/mean. */
  method AverageInverses(st: ChunkState, v: Volume, mean: real) returns (t: map<InvKey, seq<real>>)
    requires mean != 0.0 && OwnAxisKeys(v) <= st.inveps.Keys
    ensures t == st.inveps + AverageTargets(v, mean)
  {
    var vals := AverageTargets(v, mean);
    t := st.inveps;
    for n := 0 to |OwnAxisOrder|
      invariant t == Apply(st.inveps, OwnAxisOrder, n, vals)
    {
      var c := ComponentOrder[n];
      var k := (c, ComponentDirection(c));
      assert OwnAxisOrder[n] == k;
      OwnAxisMember(v, k);
      if v.hasField(c) && IsElectric(c) {
        var b := FilledBuffer(v.ntot, 1.0 / mean);
        t := t[k := b];
      }
    }
    forall k | k in vals
      ensures k in OwnAxisOrder
    {
      OwnAxisCovers(v, k);
    }
    ApplyAll(st.inveps, OwnAxisOrder, vals);
  }

  /** The ramp loop of use_pml: FOR_COMPONENTS(c), every component the layer ramps
      gets a conductivity array of d, zero-filled when new, and ramped. */
  method RampLoop(st: ChunkState, v: Volume, a: real, d: Direction, dx: real, bloc: real)
    returns (t: map<CondKey, seq<real>>)
    requires a != 0.0 && dx != 0.0
    ensures t == PmlCond(st, v, a, d, dx, bloc)
  {
    ghost var vals := RampTargets(st, v, a, d, dx, bloc);
    t := st.cond;
    CondOrderDistinct(d);
    for n := 0 to |ComponentOrder|
      invariant t == Apply(st.cond, CondOrder(d), n, vals)
    {
      var c := ComponentOrder[n];
      assert CondOrder(d)[n] == (d, c);
      ApplyFresh(st.cond, CondOrder(d), n, vals);
      var t2 := RampPass(st, v, a, d, dx, bloc, c, vals, t);
      ApplyStep(st.cond, CondOrder(d), n, vals, (d, c), t, t2);
      t := t2;
    }
    forall k | k in vals
      ensures k in CondOrder(d)
    {
      CondOrderCovers(d, k.1);
    }
    ApplyAll(st.cond, CondOrder(d), vals);
  }

  /** One pass of the ramp loop: when the layer ramps c, C[d][c] is allocated
      zero-filled if new and ramped. */
  method RampPass(st: ChunkState, v: Volume, a: real, d: Direction, dx: real, bloc: real, c: Component,
                  ghost vals: map<CondKey, seq<real>>, t: map<CondKey, seq<real>>)
    returns (t': map<CondKey, seq<real>>)
    requires a != 0.0 && dx != 0.0 && vals == RampTargets(st, v, a, d, dx, bloc)
    requires (d, c) in t <==> (d, c) in st.cond
    requires (d, c) in t ==> t[(d, c)] == st.cond[(d, c)]
    ensures t' == if (d, c) in vals then t[(d, c) := vals[(d, c)]] else t
  {
    var k := (d, c);
    RampKeyAt(v, d, c);
    t' := t;
    if v.hasField(c) && ComponentDirection(c) != d {
      var prior := t;
      if k !in t {
        var z := FilledBuffer(v.ntot, 0.0);
        prior := t[k := z];
      }
      assert prior[k] == Prior(st, v, d, c);
      var b := RampCells(prior[k], v, a, c, d, dx, bloc);
      t' := t[k := b];
    }
  }

  /** The damping loop of use_pml: FOR_COMPONENTS(c) FOR_DIRECTIONS(d2), every entry
      the layer's conductivities allow gets its damping. */
  method DecayLoop(st: ChunkState, v: Volume, cond: map<CondKey, seq<real>>, d: Direction)
    returns (t: map<DecayKey, seq<real>>)
    requires CanPml(st, v) && CondReady(v, cond) && DecayDefined(st.inveps, cond, d)
    ensures t == PmlDecay(st, v, cond, d)
  {
    DecayWalkExists(d);
    ghost var order :| DecayWalk(d, order);
    t := st.decay;
    for ci := 0 to |ComponentOrder|
      invariant t == Apply(st.decay, order, 5 * ci, DecayTargets(st, v, cond, d))
      invariant Sized(t, v.ntot)
    {
      t := DecayRow(st, v, cond, d, ci, order, DecayTargets(st, v, cond, d), t);
    }
    DecayWalkDone(st, v, cond, d, order);
  }

  /** The inner loop FOR_DIRECTIONS(d2) of the damping loop, for the ci-th component. */
  method DecayRow(st: ChunkState, v: Volume, cond: map<CondKey, seq<real>>, d: Direction, ci: nat,
                  ghost order: seq<DecayKey>, ghost vals: map<DecayKey, seq<real>>, t: map<DecayKey, seq<real>>)
    returns (t': map<DecayKey, seq<real>>)
    requires CanPml(st, v) && CondReady(v, cond) && DecayDefined(st.inveps, cond, d) && DecayWalk(d, order) && ci < |ComponentOrder|
    requires vals == DecayTargets(st, v, cond, d)
    requires t == Apply(st.decay, order, 5 * ci, vals) && Sized(t, v.ntot)
    ensures t' == Apply(st.decay, order, 5 * ci + 5, vals) && Sized(t', v.ntot)
  {
    t' := t;
    for di := 0 to |DirectionOrder|
      invariant t' == Apply(st.decay, order, 5 * ci + di, vals)
      invariant Sized(t', v.ntot)
    {
      var c, d2 := ComponentOrder[ci], DirectionOrder[di];
      DecayWalkAt(d, order, ci, di);
      var t2 := DecayPass(st, v, cond, d, c, d2, vals, t');
      ApplyStep(st.decay, order, 5 * ci + di, vals, (d, c, d2), t', t2);
      t' := t2;
    }
  }

  /** Once the damping loop has visited every entry, the table is the layer's. */
  lemma DecayWalkDone(st: ChunkState, v: Volume, cond: map<CondKey, seq<real>>, d: Direction, order: seq<DecayKey>)
    requires CanPml(st, v) && CondReady(v, cond) && DecayDefined(st.inveps, cond, d) && DecayWalk(d, order)
    ensures Apply(st.decay, order, |order|, DecayTargets(st, v, cond, d)) == PmlDecay(st, v, cond, d)
  {
    var vals := DecayTargets(st, v, cond, d);
    forall k | k in vals
      ensures k in order
    {
      assert k == (d, k.1, k.2);
    }
    ApplyAll(st.decay, order, vals);
  }

  /** One pass of the damping loop: when inveps[c][d2] exists or d2 is c's own axis,
      C[d][c] exists and d2 is not d, the entry Cdecay[d][c][d2] is allocated if new
      (from inveps for an electric component, as ones for a magnetic one) and gets
      its damping. */
  method DecayPass(st: ChunkState, v: Volume, cond: map<CondKey, seq<real>>, d: Direction,
                   c: Component, d2: Direction, ghost vals: map<DecayKey, seq<real>>, t: map<DecayKey, seq<real>>)
    returns (t': map<DecayKey, seq<real>>)
    requires CanPml(st, v) && CondReady(v, cond) && DecayDefined(st.inveps, cond, d) && Sized(t, v.ntot)
    requires vals == DecayTargets(st, v, cond, d)
    ensures t' == if (d, c, d2) in vals then t[(d, c, d2) := vals[(d, c, d2)]] else t
    ensures Sized(t', v.ntot)
  {
    var k := (d, c, d2);
    DecayKeyAt(st.inveps, cond, d, c, d2);
    DecayTargetAt(st, v, cond, d, k);
    t' := t;
    if ((c, d2) in st.inveps || d2 == ComponentDirection(c)) && (d, c) in cond && d2 != d {
      if k !in t' {
        if IsElectric(c) {
          t' := t'[k := st.inveps[(c, d2)]];
        } else {
          var ones := FilledBuffer(v.ntot, 1.0);
          t' := t'[k := ones];
        }
      }
      var b;
      if IsMagnetic(c) {
        b := MagneticDecayed(t'[k], cond[(d, c)]);
      } else {
        b := ElectricDecayed(t'[k], cond[(d, c)], st.inveps[(c, d2)]);
      }
      assert b == DecayFormula(st, v, cond, d, k);
      t' := t[k := b];
    }
  }

}
