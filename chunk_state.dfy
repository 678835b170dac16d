/** A value snapshot of one chunk of the material grid, and the effect of each chunk
    operation on it.  The snapshot holds the contents of every buffer the chunk owns:
    the permittivity `eps`, the inverse-permittivity table `inveps[c][d]`, the
    conductivity table `C[d][c]`, the damping table `Cdecay[d][c][d2]` and the
    polarizability chain (term k's array for component c at key (k, c)).  An absent
    map key is a NULL pointer of the source. */
module ChunkState {
  import opened Yee
  import opened Numeric
  import opened Tables

  /** The peak conductivity scale of the absorbing layer (Cmax). */
  const Cmax: real := 0.5

  /** The lowest frequency a freshly sampled chunk tunes its absorbing layer for. */
  const DefaultPmlFmin: real := 0.2

  type InvKey = (Component, Direction)
  type CondKey = (Direction, Component)
  type DecayKey = (Direction, Component, Direction)
  type PolKey = (int, Component)

  datatype ChunkState = ChunkState(
    eps: seq<real>,
    inveps: map<InvKey, seq<real>>,
    cond: map<CondKey, seq<real>>,
    decay: map<DecayKey, seq<real>>,
    chain: nat,
    pol: map<PolKey, seq<real>>)

  predicate NonNegative(s: seq<real>) {
    forall i :: 0 <= i < |s| ==> s[i] >= 0.0
  }

  /** A chunk another process owns keeps no material arrays of its own. */
  predicate Unowned(st: ChunkState) {
    st.eps == [] && st.inveps == map[] && st.cond == map[] && st.decay == map[]
  }

  /** The damping entry Cdecay[d][c][d2] may exist: C[d][c] exists, d2 is not the
      layer's axis, and inveps[c][d2] exists or d2 is c's own axis. */
  predicate DecayAllowed(st: ChunkState, k: DecayKey) {
    (k.0, k.1) in st.cond && k.2 != k.0 && ((k.1, k.2) in st.inveps || k.2 == ComponentDirection(k.1))
  }

  /** An electric component carried by the volume, on its own axis: the entries
      inveps[c][component_direction(c)] a chunk keeps. */
  predicate OwnAxis(v: Volume, k: InvKey) {
    IsElectric(k.0) && v.hasField(k.0) && k.1 == ComponentDirection(k.0)
  }

  /** Inverse permittivities only for electric components, of ntot cells. */
  predicate InvepsShaped(st: ChunkState, v: Volume) {
    forall k :: k in st.inveps ==> IsElectric(k.0) && |st.inveps[k]| == v.ntot
  }

  /** Every own-axis inverse permittivity is present. */
  predicate OwnAxisPresent(st: ChunkState, v: Volume) {
    forall c :: OwnAxis(v, (c, ComponentDirection(c))) ==> (c, ComponentDirection(c)) in st.inveps
  }

  /** Conductivities only for carried components off their own axis, of ntot cells,
      never negative. */
  predicate CondShaped(st: ChunkState, v: Volume) {
    forall k :: k in st.cond ==>
      v.hasField(k.1) && ComponentDirection(k.1) != k.0 && |st.cond[k]| == v.ntot && NonNegative(st.cond[k])
  }

  /** Damping entries only where DecayAllowed permits them, of ntot cells. */
  predicate DecayShaped(st: ChunkState, v: Volume) {
    forall k :: k in st.decay ==> DecayAllowed(st, k) && |st.decay[k]| == v.ntot
  }

  /** Polarizability arrays only for terms of the chain, of ntot cells. */
  predicate PolShaped(st: ChunkState, v: Volume) {
    forall k :: k in st.pol ==> 0 <= k.0 < st.chain && |st.pol[k]| == v.ntot
  }

  /** What every chunk operation keeps: buffers of ntot cells, inverse permittivities
      only for electric components, the own-axis ones present on an owned chunk,
      conductivities only off the component's own axis and never negative, damping
      entries only where the conductivity exists, and polarizability arrays only for
      terms of the chain. */
  predicate WellFormed(st: ChunkState, v: Volume, mine: bool) {
    && (mine ==> |st.eps| == v.ntot)
    && (!mine ==> Unowned(st))
    && InvepsShaped(st, v)
    && (mine ==> OwnAxisPresent(st, v))
    && CondShaped(st, v)
    && DecayShaped(st, v)
    && PolShaped(st, v)
  }

  predicate InvepsNonNegative(st: ChunkState) {
    forall k :: k in st.inveps ==> NonNegative(st.inveps[k])
  }

  // ------------------------------------------------------------ loop orders
  // The orders in which the table loops of the chunk visit their keys, each nested
  // loop flattened into one list: FOR_COMPONENTS(c) FOR_DIRECTIONS(d) visits pass
  // 5 i + j at the i-th component and the j-th direction.

  lemma ComponentsDistinct()
    ensures Distinct(ComponentOrder)
  {
    forall i, j | 0 <= i < j < |ComponentOrder|
      ensures ComponentOrder[i] != ComponentOrder[j]
    {
      OrdersAreIndexed(i, 0);
      OrdersAreIndexed(j, 0);
    }
  }

  lemma DirectionsDistinct()
    ensures Distinct(DirectionOrder)
  {
    forall i, j | 0 <= i < j < |DirectionOrder|
      ensures DirectionOrder[i] != DirectionOrder[j]
    {
      OrdersAreIndexed(0, i);
      OrdersAreIndexed(0, j);
    }
  }

  /** FOR_COMPONENTS(c) FOR_DIRECTIONS(d): the inverse-permittivity table. */
  const InvOrder: seq<InvKey> := Pairs(ComponentOrder, DirectionOrder)

  /** Pass 5 ci + di visits the ci-th component and the di-th direction. */
  lemma InvOrderAt(ci: nat, di: nat)
    requires ci < |ComponentOrder| && di < |DirectionOrder|
    ensures |InvOrder| == 50 && 5 * ci + di < 50
    ensures InvOrder[5 * ci + di] == (ComponentOrder[ci], DirectionOrder[di])
  {
    PairsAt(ComponentOrder, DirectionOrder, ci, di);
  }

  lemma InvOrderCovers(k: InvKey)
    ensures k in InvOrder
  {
    EveryComponentListed(k.0);
    EveryDirectionListed(k.1);
    PairsMember(ComponentOrder, DirectionOrder, k.0, k.1);
  }

  lemma InvOrderDistinct()
    ensures Distinct(InvOrder)
  {
    ComponentsDistinct();
    DirectionsDistinct();
    PairsDistinct(ComponentOrder, DirectionOrder);
  }

  /** FOR_COMPONENTS(c) with the electric components on their own axis: the
      own-axis entries. */
  const OwnAxisOrder: seq<InvKey> :=
    seq(|ComponentOrder|, i requires 0 <= i < |ComponentOrder| => (ComponentOrder[i], ComponentDirection(ComponentOrder[i])))

  lemma OwnAxisCovers(v: Volume, k: InvKey)
    requires k in OwnAxisKeys(v)
    ensures k in OwnAxisOrder
  {
    var i := ComponentIndex(k.0);
    assert OwnAxisOrder[i] == k;
  }

  /** The own-axis keys are the entries OwnAxis describes. */
  lemma OwnAxisMember(v: Volume, k: InvKey)
    ensures k in OwnAxisKeys(v) <==> OwnAxis(v, k)
  {
    EveryComponentListed(k.0);
  }

  /** FOR_COMPONENTS(c) for the conductivities C[d][c] of one layer. */
  function CondOrder(d: Direction): (r: seq<CondKey>)
    ensures |r| == |ComponentOrder|
  {
    seq(|ComponentOrder|, i requires 0 <= i < |ComponentOrder| => (d, ComponentOrder[i]))
  }

  lemma CondOrderCovers(d: Direction, c: Component)
    ensures (d, c) in CondOrder(d)
  {
    var i := ComponentIndex(c);
    assert CondOrder(d)[i] == (d, c);
  }

  lemma CondOrderDistinct(d: Direction)
    ensures Distinct(CondOrder(d))
  {
    ComponentsDistinct();
  }

  /** FOR_COMPONENTS(c) FOR_DIRECTIONS(d2) for the damping entries Cdecay[d][c][d2]
      of one layer. */
  function DecayOrder(d: Direction): (r: seq<DecayKey>)
    ensures |r| == |InvOrder|
  {
    seq(|InvOrder|, i requires 0 <= i < |InvOrder| => (d, InvOrder[i].0, InvOrder[i].1))
  }

  /** Pass 5 ci + di visits the ci-th component and the di-th direction. */
  lemma DecayOrderAt(d: Direction, ci: nat, di: nat)
    requires ci < |ComponentOrder| && di < |DirectionOrder|
    ensures |DecayOrder(d)| == 50 && 5 * ci + di < 50
    ensures DecayOrder(d)[5 * ci + di] == (d, ComponentOrder[ci], DirectionOrder[di])
  {
    InvOrderAt(ci, di);
  }

  lemma DecayOrderCovers(d: Direction, c: Component, d2: Direction)
    ensures (d, c, d2) in DecayOrder(d)
  {
    InvOrderCovers((c, d2));
    var i :| 0 <= i < |InvOrder| && InvOrder[i] == (c, d2);
    assert DecayOrder(d)[i] == (d, c, d2);
  }

  /** FOR_DIRECTIONS(d) FOR_COMPONENTS(c): the conductivity tables, as the copy
      constructor walks them. */
  const CopyCondOrder: seq<CondKey> := Pairs(DirectionOrder, ComponentOrder)

  /** Pass 10 di + ci visits the di-th direction and the ci-th component. */
  lemma CopyCondOrderAt(di: nat, ci: nat)
    requires di < |DirectionOrder| && ci < |ComponentOrder|
    ensures |CopyCondOrder| == 50 && 10 * di + ci < 50
    ensures CopyCondOrder[10 * di + ci] == (DirectionOrder[di], ComponentOrder[ci])
  {
    PairsAt(DirectionOrder, ComponentOrder, di, ci);
  }

  lemma CopyCondOrderCovers(k: CondKey)
    ensures k in CopyCondOrder
  {
    EveryDirectionListed(k.0);
    EveryComponentListed(k.1);
    PairsMember(DirectionOrder, ComponentOrder, k.0, k.1);
  }

  /** FOR_DIRECTIONS(d) FOR_COMPONENTS(c) FOR_DIRECTIONS(d2): the damping tables, as
      the copy constructor walks them. */
  const CopyDecayOrder: seq<DecayKey> :=
    seq(250, i requires 0 <= i < 250 =>
      (DirectionOrder[i / 50], ComponentOrder[i % 50 / 5], DirectionOrder[i % 5]))

  /** Pass 50 di + 5 ci + ei visits the di-th direction, the ci-th component and the
      ei-th direction. */
  lemma CopyDecayOrderAt(di: nat, ci: nat, ei: nat)
    requires di < |DirectionOrder| && ci < |ComponentOrder| && ei < |DirectionOrder|
    ensures |CopyDecayOrder| == 250 && 50 * di + 5 * ci + ei < 250
    ensures CopyDecayOrder[50 * di + 5 * ci + ei] == (DirectionOrder[di], ComponentOrder[ci], DirectionOrder[ei])
  {
    var i := 50 * di + 5 * ci + ei;
    assert i / 50 == di && i % 50 / 5 == ci && i % 5 == ei;
  }

  lemma CopyDecayOrderCovers(k: DecayKey)
    ensures k in CopyDecayOrder
  {
    var di, ci, ei := DirectionIndex(k.0), ComponentIndex(k.1), DirectionIndex(k.2);
    CopyDecayOrderAt(di, ci, ei);
  }

  // Each table loop below is proved against a walk: any list of keys with the
  // visiting order of its nested loops.  The constant orders above show that such a
  // list exists; a loop picks one and only ever uses these facts about it.

  /** FOR_COMPONENTS(c) FOR_DIRECTIONS(d), listing every key once. */
  ghost predicate InvWalk(order: seq<InvKey>) {
    && |order| == 50
    && (forall ci: nat, di: nat :: ci < 10 && di < 5 ==> order[5 * ci + di] == (ComponentOrder[ci], DirectionOrder[di]))
    && (forall k: InvKey :: k in order)
    && Distinct(order)
  }

  lemma InvWalkAt(order: seq<InvKey>, ci: nat, di: nat)
    requires InvWalk(order) && ci < 10 && di < 5
    ensures 5 * ci + di < |order| && order[5 * ci + di] == (ComponentOrder[ci], DirectionOrder[di])
  {
  }

  lemma InvWalkExists()
    ensures exists order :: InvWalk(order)
  {
    forall ci: nat, di: nat | ci < 10 && di < 5
      ensures InvOrder[5 * ci + di] == (ComponentOrder[ci], DirectionOrder[di])
    {
      InvOrderAt(ci, di);
    }
    forall k: InvKey
      ensures k in InvOrder
    {
      InvOrderCovers(k);
    }
    InvOrderDistinct();
    assert InvWalk(InvOrder);
  }

  /** FOR_COMPONENTS(c) FOR_DIRECTIONS(d2) over the damping entries of the layer d. */
  ghost predicate DecayWalk(d: Direction, order: seq<DecayKey>) {
    && |order| == 50
    && (forall ci: nat, di: nat :: ci < 10 && di < 5 ==> order[5 * ci + di] == (d, ComponentOrder[ci], DirectionOrder[di]))
    && (forall c, d2 :: (d, c, d2) in order)
  }

  lemma DecayWalkAt(d: Direction, order: seq<DecayKey>, ci: nat, di: nat)
    requires DecayWalk(d, order) && ci < 10 && di < 5
    ensures 5 * ci + di < |order| && order[5 * ci + di] == (d, ComponentOrder[ci], DirectionOrder[di])
  {
  }

  lemma DecayWalkExists(d: Direction)
    ensures exists order :: DecayWalk(d, order)
  {
    forall ci: nat, di: nat | ci < 10 && di < 5
      ensures DecayOrder(d)[5 * ci + di] == (d, ComponentOrder[ci], DirectionOrder[di])
    {
      DecayOrderAt(d, ci, di);
    }
    forall c, d2
      ensures (d, c, d2) in DecayOrder(d)
    {
      DecayOrderCovers(d, c, d2);
    }
    assert DecayWalk(d, DecayOrder(d));
  }

  /** FOR_DIRECTIONS(d) FOR_COMPONENTS(c) over the conductivities. */
  ghost predicate CopyCondWalk(order: seq<CondKey>) {
    && |order| == 50
    && (forall di: nat, ci: nat :: di < 5 && ci < 10 ==> order[10 * di + ci] == (DirectionOrder[di], ComponentOrder[ci]))
    && (forall k: CondKey :: k in order)
  }

  lemma CopyCondWalkAt(order: seq<CondKey>, di: nat, ci: nat)
    requires CopyCondWalk(order) && di < 5 && ci < 10
    ensures 10 * di + ci < |order| && order[10 * di + ci] == (DirectionOrder[di], ComponentOrder[ci])
  {
  }

  lemma CopyCondWalkExists()
    ensures exists order :: CopyCondWalk(order)
  {
    forall di: nat, ci: nat | di < 5 && ci < 10
      ensures CopyCondOrder[10 * di + ci] == (DirectionOrder[di], ComponentOrder[ci])
    {
      CopyCondOrderAt(di, ci);
    }
    forall k: CondKey
      ensures k in CopyCondOrder
    {
      CopyCondOrderCovers(k);
    }
    assert CopyCondWalk(CopyCondOrder);
  }

  /** FOR_DIRECTIONS(d) FOR_COMPONENTS(c) FOR_DIRECTIONS(d2) over the damping entries. */
  ghost predicate CopyDecayWalk(order: seq<DecayKey>) {
    && |order| == 250
    && (forall di: nat, ci: nat, ei: nat :: di < 5 && ci < 10 && ei < 5 ==>
          order[50 * di + 5 * ci + ei] == (DirectionOrder[di], ComponentOrder[ci], DirectionOrder[ei]))
    && (forall k: DecayKey :: k in order)
  }

  lemma CopyDecayWalkAt(order: seq<DecayKey>, di: nat, ci: nat, ei: nat)
    requires CopyDecayWalk(order) && di < 5 && ci < 10 && ei < 5
    ensures 50 * di + 5 * ci + ei < |order|
    ensures order[50 * di + 5 * ci + ei] == (DirectionOrder[di], ComponentOrder[ci], DirectionOrder[ei])
  {
  }

  lemma CopyDecayWalkExists()
    ensures exists order :: CopyDecayWalk(order)
  {
    forall di: nat, ci: nat, ei: nat | di < 5 && ci < 10 && ei < 5
      ensures CopyDecayOrder[50 * di + 5 * ci + ei] == (DirectionOrder[di], ComponentOrder[ci], DirectionOrder[ei])
    {
      CopyDecayOrderAt(di, ci, ei);
    }
    forall k: DecayKey
      ensures k in CopyDecayOrder
    {
      CopyDecayOrderCovers(k);
    }
    assert CopyDecayWalk(CopyDecayOrder);
  }

  /** The terms 0 .. t - 1 of a polarizability chain. */
  function Terms(t: nat): (r: seq<int>)
    ensures |r| == t
  {
    seq(t, i => i)
  }

  /** The lock-step walk over the first t terms, the ten components of each term in
      order. */
  function PolOrder(t: nat): (r: seq<PolKey>)
    ensures |r| == t * |ComponentOrder|
  {
    Pairs(Terms(t), ComponentOrder)
  }

  /** Pass 10 j + ci visits the ci-th component of term j. */
  lemma PolOrderAt(t: nat, j: nat, ci: nat)
    requires j < t && ci < |ComponentOrder|
    ensures 10 * j + ci < |PolOrder(t)|
    ensures PolOrder(t)[10 * j + ci] == (j, ComponentOrder[ci])
  {
    PairsAt(Terms(t), ComponentOrder, j, ci);
  }

  lemma PolOrderCovers(t: nat, k: PolKey)
    requires 0 <= k.0 < t
    ensures k in PolOrder(t)
  {
    EveryComponentListed(k.1);
    assert Terms(t)[k.0] == k.0;
    PairsMember(Terms(t), ComponentOrder, k.0, k.1);
  }

  lemma PolOrderDistinct(t: nat)
    ensures Distinct(PolOrder(t))
  {
    ComponentsDistinct();
    PairsDistinct(Terms(t), ComponentOrder);
  }

  // ---------------------------------------------------------------- mix_with

  /** The harmonic blend of e towards o is defined: neither is zero, nor is the
      blended reciprocal. */
  predicate Mixable(e: real, o: real, f: real) {
    e != 0.0 && o != 0.0 && 1.0 / e + f * (1.0 / o - 1.0 / e) != 0.0
  }

  /** eps blends harmonically: its reciprocal moves a fraction f towards 1/o. */
  function HarmonicMix(e: real, o: real, f: real): real
    requires Mixable(e, o, f)
  {
    1.0 / (1.0 / e + f * (1.0 / o - 1.0 / e))
  }

  /** inveps and the polarizabilities blend linearly. */
  function LinearMix(x: real, y: real, f: real): real {
    x + f * (y - x)
  }

  function HarmonicMixAll(es: seq<real>, os: seq<real>, f: real): (r: seq<real>)
    requires |os| == |es| && forall i :: 0 <= i < |es| ==> Mixable(es[i], os[i], f)
    ensures |r| == |es|
  {
    seq(|es|, i requires 0 <= i < |es| => HarmonicMix(es[i], os[i], f))
  }

  function LinearMixAll(xs: seq<real>, ys: seq<real>, f: real): (r: seq<real>)
    requires |ys| == |xs|
    ensures |r| == |xs|
  {
    seq(|xs|, i requires 0 <= i < |xs| => LinearMix(xs[i], ys[i], f))
  }

  /** The polarizability arrays mix_with blends: electric components the volume carries. */
  predicate PolMixed(v: Volume, c: Component) {
    v.hasField(c) && IsElectric(c)
  }

  /** What blending st towards o reads exists: o covers the same cells, every eps
      blend is defined, o has every inveps entry st has, and both chains hold the
      blended arrays for as long as both last. */
  predicate CanMix(st: ChunkState, o: ChunkState, f: real, v: Volume) {
    && |o.eps| == |st.eps|
    && (forall i :: 0 <= i < |st.eps| ==> Mixable(st.eps[i], o.eps[i], f))
    && (forall k :: k in st.inveps ==> k in o.inveps && |o.inveps[k]| == |st.inveps[k]|)
    && (forall k: int, c :: 0 <= k < st.chain && k < o.chain && PolMixed(v, c) ==>
          (k, c) in st.pol && (k, c) in o.pol && |o.pol[(k, c)]| == |st.pol[(k, c)]|)
  }

  /** The lock-step walk reaches term k of both chains and blends its array of k.1. */
  predicate PolBlended(st: ChunkState, o: ChunkState, v: Volume, k: PolKey) {
    0 <= k.0 < st.chain && k.0 < o.chain && PolMixed(v, k.1)
  }

  /** The chunk after mix_with(o, f). */
  function MixState(st: ChunkState, o: ChunkState, f: real, v: Volume): ChunkState
    requires CanMix(st, o, f, v)
  {
    ChunkState(
      HarmonicMixAll(st.eps, o.eps, f),
      map k | k in st.inveps :: LinearMixAll(st.inveps[k], o.inveps[k], f),
      st.cond,
      st.decay,
      st.chain,
      map k | k in st.pol ::
        if PolBlended(st, o, v, k) then LinearMixAll(st.pol[k], o.pol[k], f) else st.pol[k])
  }

  /** Blending with weight 0 changes nothing. */
  lemma MixAtZero(st: ChunkState, o: ChunkState, v: Volume)
    requires CanMix(st, o, 0.0, v)
    ensures MixState(st, o, 0.0, v) == st
  {
    var r := MixState(st, o, 0.0, v);
    forall i | 0 <= i < |st.eps|
      ensures r.eps[i] == st.eps[i]
    {
      var e := st.eps[i];
      assert 1.0 / e + 0.0 * (1.0 / o.eps[i] - 1.0 / e) == 1.0 / e;
    }
    assert r.eps == st.eps;
    forall k | k in st.inveps
      ensures r.inveps[k] == st.inveps[k]
    {
      assert LinearMixAll(st.inveps[k], o.inveps[k], 0.0) == st.inveps[k];
    }
    assert r.inveps == st.inveps;
    forall k | k in st.pol
      ensures r.pol[k] == st.pol[k]
    {
      if PolBlended(st, o, v, k) {
        assert LinearMixAll(st.pol[k], o.pol[k], 0.0) == st.pol[k];
      }
    }
    assert r.pol == st.pol;
  }

  /** Blending with weight 1 takes over the other chunk's permittivity, inverse
      permittivity and the polarizability arrays both chains hold. */
  lemma MixAtOne(st: ChunkState, o: ChunkState, v: Volume)
    requires CanMix(st, o, 1.0, v)
    ensures MixState(st, o, 1.0, v).eps == o.eps
    ensures forall k :: k in st.inveps ==> MixState(st, o, 1.0, v).inveps[k] == o.inveps[k]
    ensures forall k :: k in st.pol && PolBlended(st, o, v, k) ==> MixState(st, o, 1.0, v).pol[k] == o.pol[k]
  {
    var r := MixState(st, o, 1.0, v);
    forall i | 0 <= i < |st.eps|
      ensures r.eps[i] == o.eps[i]
    {
      var e, p := st.eps[i], o.eps[i];
      assert 1.0 / e + 1.0 * (1.0 / p - 1.0 / e) == 1.0 / p;
    }
    forall k | k in st.inveps
      ensures r.inveps[k] == o.inveps[k]
    {
      assert LinearMixAll(st.inveps[k], o.inveps[k], 1.0) == o.inveps[k];
    }
    forall k | k in st.pol && PolBlended(st, o, v, k)
      ensures r.pol[k] == o.pol[k]
    {
      assert LinearMixAll(st.pol[k], o.pol[k], 1.0) == o.pol[k];
    }
  }

  /** The polarizability chains are walked in lock step: a term beyond the other
      chain's end, and the arrays of components that are not blended, keep their
      values, and the chain keeps its length and keys. */
  lemma MixKeepsChainTail(st: ChunkState, o: ChunkState, f: real, v: Volume)
    requires CanMix(st, o, f, v)
    ensures MixState(st, o, f, v).chain == st.chain
    ensures MixState(st, o, f, v).pol.Keys == st.pol.Keys
    ensures forall k :: k in st.pol && !PolBlended(st, o, v, k) ==> MixState(st, o, f, v).pol[k] == st.pol[k]
    ensures MixState(st, o, f, v).cond == st.cond && MixState(st, o, f, v).decay == st.decay
  {
  }

  /** The blended inverse permittivities. */
  function InvMixTargets(st: ChunkState, o: ChunkState, f: real, v: Volume): (r: map<InvKey, seq<real>>)
    requires CanMix(st, o, f, v)
    ensures r.Keys == st.inveps.Keys
  {
    map k | k in st.inveps :: LinearMixAll(st.inveps[k], o.inveps[k], f)
  }

  /** The polarizability arrays the lock-step walk blends. */
  function BlendKeys(st: ChunkState, o: ChunkState, v: Volume): set<PolKey> {
    set k | k in st.pol && PolBlended(st, o, v, k)
  }

  /** The blended polarizability arrays. */
  function PolMixTargets(st: ChunkState, o: ChunkState, f: real, v: Volume): (r: map<PolKey, seq<real>>)
    requires CanMix(st, o, f, v)
    ensures r.Keys == BlendKeys(st, o, v)
  {
    map k | k in BlendKeys(st, o, v) :: LinearMixAll(st.pol[k], o.pol[k], f)
  }

  /** Once the lock-step walk has gone through the terms both chains have, every
      array it blends holds its blend. */
  lemma PolWalkDone(st: ChunkState, o: ChunkState, f: real, v: Volume, len: nat)
    requires CanMix(st, o, f, v) && len == if st.chain < o.chain then st.chain else o.chain
    ensures Apply(st.pol, PolOrder(len), 10 * len, PolMixTargets(st, o, f, v)) == st.pol + PolMixTargets(st, o, f, v)
  {
    var vals := PolMixTargets(st, o, f, v);
    forall k | k in vals
      ensures k in PolOrder(len)
    {
      PolOrderCovers(len, k);
    }
    ApplyAll(st.pol, PolOrder(len), vals);
  }

  /** mix_with as its loops write it: eps, then every inverse permittivity, then the
      blended polarizability arrays. */
  lemma MixByUnion(st: ChunkState, o: ChunkState, f: real, v: Volume)
    requires CanMix(st, o, f, v)
    ensures MixState(st, o, f, v) == st.(eps := HarmonicMixAll(st.eps, o.eps, f),
      inveps := st.inveps + InvMixTargets(st, o, f, v),
      pol := st.pol + PolMixTargets(st, o, f, v))
  {
    var r := MixState(st, o, f, v);
    assert r.inveps == st.inveps + InvMixTargets(st, o, f, v);
    assert r.pol == st.pol + PolMixTargets(st, o, f, v);
  }

  /** Component c of term j, a term both chains reach, is blended exactly when it is
      an electric component the volume carries. */
  lemma BlendKeyAt(st: ChunkState, o: ChunkState, f: real, v: Volume, j: int, c: Component)
    requires CanMix(st, o, f, v) && 0 <= j < st.chain && j < o.chain
    ensures (j, c) in PolMixTargets(st, o, f, v) <==> PolMixed(v, c)
  {
  }

  /** For positive permittivities and a weight in [0, 1] the harmonic blend is
      defined and lies between the two permittivities. */
  lemma HarmonicMixBetween(e: real, o: real, f: real)
    requires e > 0.0 && o > 0.0 && 0.0 <= f <= 1.0
    ensures Mixable(e, o, f)
    ensures Min(e, o) <= HarmonicMix(e, o, f) <= Max(e, o)
  {
    var ie, io := 1.0 / e, 1.0 / o;
    var den := ie + f * (io - ie);
    assert den == (1.0 - f) * ie + f * io;
    var lo, hi := Min(ie, io), Max(ie, io);
    assert lo > 0.0;
    WeightedBetween(ie, io, f);
    assert lo <= den <= hi;
    assert Min(e, o) == 1.0 / hi && Max(e, o) == 1.0 / lo by {
      ReciprocalOrder(e, o);
    }
    ReciprocalAntitone(lo, den);
    ReciprocalAntitone(den, hi);
  }

  function Min(x: real, y: real): real {
    if x < y then x else y
  }

  /** A weighted average (1 - f) x + f y with f in [0, 1] lies between x and y. */
  lemma WeightedBetween(x: real, y: real, f: real)
    requires 0.0 <= f <= 1.0
    ensures Min(x, y) <= (1.0 - f) * x + f * y <= Max(x, y)
  {
    var w := (1.0 - f) * x + f * y;
    if x <= y {
      var t := y - x;
      assert w == x + f * t;
      ScaleBelow(f, t);
      assert x <= w <= y;
      assert Min(x, y) == x && Max(x, y) == y;
    } else {
      var g, t := 1.0 - f, x - y;
      assert w == y + g * t;
      ScaleBelow(g, t);
      assert y <= w <= x;
      assert Min(x, y) == y && Max(x, y) == x;
    }
  }

  /** A fraction of a nonnegative number is at most the number. */
  lemma ScaleBelow(f: real, t: real)
    requires 0.0 <= f <= 1.0 && t >= 0.0
    ensures 0.0 <= f * t <= t
  {
    assert t - f * t == (1.0 - f) * t;
  }

  /** Taking reciprocals of positive numbers reverses their order. */
  lemma ReciprocalAntitone(x: real, y: real)
    requires 0.0 < x <= y
    ensures 1.0 / y <= 1.0 / x
  {
  }

  /** The smaller of two positive numbers has the larger reciprocal. */
  lemma ReciprocalOrder(e: real, o: real)
    requires e > 0.0 && o > 0.0
    ensures Min(e, o) == 1.0 / Max(1.0 / e, 1.0 / o)
    ensures Max(e, o) == 1.0 / Min(1.0 / e, 1.0 / o)
  {
    if e <= o {
      ReciprocalAntitone(e, o);
    } else {
      ReciprocalAntitone(o, e);
    }
  }

  /** Blending keeps every invariant of the chunk. */
  lemma MixKeepsWellFormed(st: ChunkState, o: ChunkState, f: real, v: Volume)
    requires WellFormed(st, v, true) && CanMix(st, o, f, v)
    ensures WellFormed(MixState(st, o, f, v), v, true)
  {
  }

  // ------------------------------------------------------- make_average_eps

  /** The mean a summing loop followed by a division by the cell count computes. */
  function Mean(s: seq<real>): real
    requires |s| > 0
  {
    Sum(s) / (|s| as real)
  }

  /** Averaging divides by the cell count and then by the mean. */
  predicate CanAverage(st: ChunkState) {
    |st.eps| > 0 && Mean(st.eps) != 0.0
  }

  /** The chunk after make_average_eps: every eps cell holds the mean, and every
      own-axis inverse permittivity its reciprocal. */
  function AverageState(st: ChunkState, v: Volume): ChunkState
    requires CanAverage(st)
  {
    var mean := Mean(st.eps);
    st.(eps := seq(|st.eps|, _ => mean),
        inveps := map k | k in st.inveps ::
          if OwnAxis(v, k) then seq(|st.inveps[k]|, _ => 1.0 / mean) else st.inveps[k])
  }

  /** The own-axis inverse permittivities after averaging: 1/mean in every cell. */
  function AverageTargets(v: Volume, mean: real): (r: map<InvKey, seq<real>>)
    requires mean != 0.0
    ensures r.Keys == OwnAxisKeys(v)
  {
    map k | k in OwnAxisKeys(v) :: seq(v.ntot, _ => 1.0 / mean)
  }

  /** make_average_eps as its loops write it: eps, then the own-axis entries. */
  lemma AverageByUnion(st: ChunkState, v: Volume)
    requires WellFormed(st, v, true) && CanAverage(st)
    ensures OwnAxisKeys(v) <= st.inveps.Keys
    ensures AverageState(st, v) == st.(eps := seq(|st.eps|, _ => Mean(st.eps)),
      inveps := st.inveps + AverageTargets(v, Mean(st.eps)))
  {
    var r, q := AverageState(st, v).inveps, st.inveps + AverageTargets(v, Mean(st.eps));
    forall k | k in OwnAxisKeys(v)
      ensures k in st.inveps
    {
    }
    forall k | k in r
      ensures r[k] == q[k]
    {
      if OwnAxis(v, k) {
        EveryComponentListed(k.0);
      }
    }
  }

  /** Averaging keeps the total permittivity of the chunk. */
  lemma AverageKeepsSum(st: ChunkState, v: Volume)
    requires CanAverage(st)
    ensures Sum(AverageState(st, v).eps) == Sum(st.eps)
  {
    var n := |st.eps|;
    var mean := Mean(st.eps);
    SumOfConstant(n, mean);
    assert AverageState(st, v).eps == seq(n, _ => mean);
    assert (n as real) * (Sum(st.eps) / (n as real)) == Sum(st.eps);
  }

  /** Averaging an averaged chunk changes nothing. */
  lemma AverageIdempotent(st: ChunkState, v: Volume)
    requires CanAverage(st)
    ensures CanAverage(AverageState(st, v))
    ensures AverageState(AverageState(st, v), v) == AverageState(st, v)
  {
    var r := AverageState(st, v);
    var n := |st.eps|;
    var mean := Mean(st.eps);
    SumOfConstant(n, mean);
    assert r.eps == seq(n, _ => mean);
    assert Mean(r.eps) == mean by {
      assert (n as real) * mean / (n as real) == mean;
    }
    var r2 := AverageState(r, v);
    assert r2.eps == r.eps;
    forall k | k in r.inveps
      ensures r2.inveps[k] == r.inveps[k]
    {
    }
    assert r2.inveps == r.inveps;
  }

  /** Averaging keeps every invariant of the chunk. */
  lemma AverageKeepsWellFormed(st: ChunkState, v: Volume)
    requires WellFormed(st, v, true) && CanAverage(st)
    ensures WellFormed(AverageState(st, v), v, true)
  {
  }

  // ---------------------------------------------------------------- use_pml

  /** Cmax / dx^2, the scale of the quadratic conductivity ramp. */
  function PmlPrefactor(dx: real): real
    requires dx != 0.0
  {
    Cmax / (dx * dx)
  }

  /** The chunk lies entirely outside the layer of width dx at bloc, with a margin
      of one cell: use_pml returns at once. */
  predicate PmlRejects(v: Volume, a: real, d: Direction, dx: real, bloc: real)
    requires a != 0.0
  {
    bloc > v.boundaryLocation(High, d) + dx + 1.0 / a ||
    bloc < v.boundaryLocation(Low, d) - dx - 1.0 / a
  }

  /** The depth x of cell i of component c inside the layer: dx less its distance
      from bloc, rounded to the nearest half cell. */
  function Depth(v: Volume, a: real, c: Component, i: nat, d: Direction, dx: real, bloc: real): real
    requires a != 0.0
  {
    dx - (0.5 / a) * (HalfCells(a, Abs(bloc - v.loc(c, i).At(d))) as real)
  }

  /** A distance in half cells, rounded to the nearest: (int)(2 a dist + 0.5). */
  function HalfCells(a: real, dist: real): int {
    Trunc(2.0 * a * dist + 0.5)
  }

  /** The conductivity array of c after the ramp: Cmax/dx^2 * x * x where the depth x
      is positive, the prior value elsewhere. */
  function Ramp(prior: seq<real>, v: Volume, a: real, c: Component, d: Direction, dx: real, bloc: real): (r: seq<real>)
    requires a != 0.0 && dx != 0.0
    ensures |r| == |prior|
  {
    seq(|prior|, i requires 0 <= i < |prior| => RampCell(prior[i], v, a, c, i, d, dx, bloc))
  }

  /** Cell i after the ramp, from its prior value p. */
  function RampCell(p: real, v: Volume, a: real, c: Component, i: nat, d: Direction, dx: real, bloc: real): real
    requires a != 0.0 && dx != 0.0
  {
    var x := Depth(v, a, c, i, d, dx, bloc);
    if x > 0.0 then RampValue(dx, x) else p
  }

  /** The conductivity prefac*x*x of a cell at depth x. */
  function RampValue(dx: real, x: real): real
    requires dx != 0.0
  {
    PmlPrefactor(dx) * x * x
  }

  /** The components a layer along d ramps: those the volume carries that do not
      point along d. */
  predicate Ramped(v: Volume, d: Direction, c: Component) {
    v.hasField(c) && ComponentDirection(c) != d
  }

  function RampKeys(v: Volume, d: Direction): set<CondKey> {
    set c | c in AllComponents && Ramped(v, d, c) :: (d, c)
  }

  function Zeros(n: nat): seq<real> {
    seq(n, _ => 0.0)
  }

  /** The conductivity table after the ramp loop: every ramped component of d gets
      its array, zero-filled when it is new, and ramped. */
  function PmlCond(st: ChunkState, v: Volume, a: real, d: Direction, dx: real, bloc: real): map<CondKey, seq<real>>
    requires a != 0.0 && dx != 0.0
  {
    st.cond + RampTargets(st, v, a, d, dx, bloc)
  }

  /** The array each ramped component ends with. */
  function RampTargets(st: ChunkState, v: Volume, a: real, d: Direction, dx: real, bloc: real): (r: map<CondKey, seq<real>>)
    requires a != 0.0 && dx != 0.0
    ensures r.Keys == RampKeys(v, d)
  {
    map k | k in RampKeys(v, d) :: Ramp(Prior(st, v, d, k.1), v, a, k.1, d, dx, bloc)
  }

  /** The damping entries of the layer along d that the decay loop writes. */
  function DecayKeys(inveps: map<InvKey, seq<real>>, cond: map<CondKey, seq<real>>, d: Direction): set<DecayKey> {
    set c, d2 | c in AllComponents && d2 in AllDirections && (d, c) in cond && d2 != d &&
      ((c, d2) in inveps || d2 == ComponentDirection(c)) :: (d, c, d2)
  }

  /** Implicit damping of a magnetic component: 1 / (1 + C/2). */
  function MagneticDecay(cv: seq<real>): (r: seq<real>)
    requires NonNegative(cv)
    ensures |r| == |cv|
  {
    seq(|cv|, i requires 0 <= i < |cv| => 1.0 / (1.0 + 0.5 * cv[i]))
  }

  /** The electric damping formula divides by 1 + C inveps / 2 in every cell; that
      denominator is nonzero. */
  predicate ElectricDefined(cv: seq<real>, inv: seq<real>) {
    |inv| == |cv| && forall i :: 0 <= i < |cv| ==> 1.0 + 0.5 * cv[i] * inv[i] != 0.0
  }

  /** Implicit damping of an electric component: inveps / (1 + C inveps / 2). */
  function ElectricDecay(cv: seq<real>, inv: seq<real>): (r: seq<real>)
    requires ElectricDefined(cv, inv)
    ensures |r| == |cv|
  {
    seq(|cv|, i requires 0 <= i < |cv| => inv[i] / (1.0 + 0.5 * cv[i] * inv[i]))
  }

  /** Every array of the table has n cells. */
  predicate Sized<K>(t: map<K, seq<real>>, n: nat) {
    forall k :: k in t ==> |t[k]| == n
  }

  /** A conductivity table the damping loop can read: arrays of carried components,
      of ntot cells, never negative. */
  predicate CondReady(v: Volume, cond: map<CondKey, seq<real>>) {
    forall k :: k in cond ==> v.hasField(k.1) && |cond[k]| == v.ntot && NonNegative(cond[k])
  }

  /** What the absorbing layer reads exists: an owned, well-formed chunk. */
  predicate CanPml(st: ChunkState, v: Volume) {
    WellFormed(st, v, true)
  }

  /** Every electric damping entry the decay loop of the layer along d writes, for
      the conductivity table cond, divides by nonzero denominators. */
  predicate DecayDefined(inveps: map<InvKey, seq<real>>, cond: map<CondKey, seq<real>>, d: Direction) {
    forall k :: k in inveps && (d, k.0) in cond && k.1 != d ==> ElectricDefined(cond[(d, k.0)], inveps[k])
  }

  /** use_pml(d, dx, bloc) divides by nonzero denominators only: it is rejected, or
      the damping of the conductivities it ramps is defined.  In IEEE arithmetic a
      zero denominator would give an infinity instead. */
  predicate PmlDefined(st: ChunkState, v: Volume, a: real, d: Direction, dx: real, bloc: real)
    requires a != 0.0 && dx != 0.0
  {
    PmlRejects(v, a, d, dx, bloc) || DecayDefined(st.inveps, PmlCond(st, v, a, d, dx, bloc), d)
  }

  /** With no negative inverse permittivity, every denominator is at least 1. */
  lemma NonNegativeDecayDefined(st: ChunkState, v: Volume, cond: map<CondKey, seq<real>>, d: Direction)
    requires CanPml(st, v) && CondReady(v, cond) && InvepsNonNegative(st)
    ensures DecayDefined(st.inveps, cond, d)
  {
    forall k | k in st.inveps && (d, k.0) in cond && k.1 != d
      ensures ElectricDefined(cond[(d, k.0)], st.inveps[k])
    {
      var cv, inv := cond[(d, k.0)], st.inveps[k];
      forall i | 0 <= i < |cv|
        ensures 1.0 + 0.5 * cv[i] * inv[i] != 0.0
      {
        assert 0.5 * cv[i] >= 0.0;
        assert 0.5 * cv[i] * inv[i] >= 0.0;
      }
    }
  }

  /** A negative inverse permittivity above -2/Cmax = -4 is fine too, wherever the
      conductivity stays within [0, Cmax]: the denominator stays positive. */
  lemma ElectricDefinedAboveBound(cv: seq<real>, inv: seq<real>)
    requires |inv| == |cv|
    requires forall i :: 0 <= i < |cv| ==> 0.0 <= cv[i] <= Cmax && inv[i] > -2.0 / Cmax
    ensures ElectricDefined(cv, inv)
  {
    forall i | 0 <= i < |cv|
      ensures 1.0 + 0.5 * cv[i] * inv[i] > 0.0
    {
      if inv[i] < 0.0 {
        assert cv[i] * inv[i] >= Cmax * inv[i];
        assert Cmax * inv[i] > -2.0;
      } else {
        assert cv[i] * inv[i] >= 0.0;
      }
    }
  }

  /** The damping table after the decay loop, for the new conductivity table cond. */
  function PmlDecay(st: ChunkState, v: Volume, cond: map<CondKey, seq<real>>, d: Direction): map<DecayKey, seq<real>>
    requires CanPml(st, v)
    requires CondReady(v, cond) && DecayDefined(st.inveps, cond, d)
  {
    st.decay + DecayTargets(st, v, cond, d)
  }

  /** The damping each entry the decay loop writes ends with. */
  function DecayTargets(st: ChunkState, v: Volume, cond: map<CondKey, seq<real>>, d: Direction): (r: map<DecayKey, seq<real>>)
    requires CanPml(st, v)
    requires CondReady(v, cond) && DecayDefined(st.inveps, cond, d)
    ensures r.Keys == DecayKeys(st.inveps, cond, d)
  {
    map k | k in DecayKeys(st.inveps, cond, d) :: DecayFormula(st, v, cond, d, k)
  }

  /** What the damping formula of entry k reads exists, covers the chunk, and gives
      nonzero denominators. */
  predicate DecayReadable(st: ChunkState, v: Volume, cond: map<CondKey, seq<real>>, d: Direction, k: DecayKey) {
    && (d, k.1) in cond && |cond[(d, k.1)]| == v.ntot && NonNegative(cond[(d, k.1)])
    && (IsElectric(k.1) ==>
          (k.1, k.2) in st.inveps && |st.inveps[(k.1, k.2)]| == v.ntot
          && ElectricDefined(cond[(d, k.1)], st.inveps[(k.1, k.2)]))
  }

  /** The damping the decay loop writes into entry k: the magnetic formula for a
      magnetic component, the electric one for an electric component. */
  function DecayFormula(st: ChunkState, v: Volume, cond: map<CondKey, seq<real>>, d: Direction, k: DecayKey): seq<real>
    requires DecayReadable(st, v, cond, d, k)
  {
    if IsMagnetic(k.1) then MagneticDecay(cond[(d, k.1)])
    else ElectricDecay(cond[(d, k.1)], st.inveps[(k.1, k.2)])
  }

  /** Ramped conductivities are never negative. */
  lemma RampNonNegative(prior: seq<real>, v: Volume, a: real, c: Component, d: Direction, dx: real, bloc: real)
    requires a != 0.0 && dx != 0.0 && NonNegative(prior)
    ensures NonNegative(Ramp(prior, v, a, c, d, dx, bloc))
  {
    var r := Ramp(prior, v, a, c, d, dx, bloc);
    forall i | 0 <= i < |prior|
      ensures r[i] >= 0.0
    {
      var x := Depth(v, a, c, i, d, dx, bloc);
      if x > 0.0 {
        PrefactorPositive(dx);
        var p := PmlPrefactor(dx);
        assert p * x > 0.0;
        assert p * x * x > 0.0;
      }
    }
  }

  lemma PrefactorPositive(dx: real)
    requires dx != 0.0
    ensures PmlPrefactor(dx) > 0.0
  {
    assert dx * dx > 0.0;
  }

  lemma PmlCondFacts(st: ChunkState, v: Volume, a: real, d: Direction, dx: real, bloc: real)
    requires a != 0.0 && dx != 0.0 && WellFormed(st, v, true)
    ensures forall k :: k in PmlCond(st, v, a, d, dx, bloc) ==>
      v.hasField(k.1) && ComponentDirection(k.1) != k.0 &&
      |PmlCond(st, v, a, d, dx, bloc)[k]| == v.ntot && NonNegative(PmlCond(st, v, a, d, dx, bloc)[k])
    ensures st.cond.Keys <= PmlCond(st, v, a, d, dx, bloc).Keys
  {
    var cond := PmlCond(st, v, a, d, dx, bloc);
    forall k | k in cond
      ensures v.hasField(k.1) && ComponentDirection(k.1) != k.0 && |cond[k]| == v.ntot && NonNegative(cond[k])
    {
      if k in RampKeys(v, d) {
        RampNonNegative(Prior(st, v, d, k.1), v, a, k.1, d, dx, bloc);
      }
    }
  }

  /** The chunk after use_pml(d, dx, bloc): unchanged when it is rejected or another
      process owns it, and otherwise with the conductivities of d ramped and their
      damping entries recomputed. */
  function PmlState(st: ChunkState, v: Volume, a: real, mine: bool, d: Direction, dx: real, bloc: real): ChunkState
    requires a != 0.0 && dx != 0.0
    requires mine ==> CanPml(st, v) && PmlDefined(st, v, a, d, dx, bloc)
  {
    if PmlRejects(v, a, d, dx, bloc) || !mine then st
    else
      var cond := PmlCond(st, v, a, d, dx, bloc);
      PmlCondFacts(st, v, a, d, dx, bloc);
      st.(cond := cond, decay := PmlDecay(st, v, cond, d))
  }

  /** The damping table the decay loop leaves only has entries DecayAllowed permits,
      for any conductivity table that extends the chunk's own. */
  lemma PmlDecayFacts(st: ChunkState, v: Volume, cond: map<CondKey, seq<real>>, d: Direction)
    requires CanPml(st, v) && st.cond.Keys <= cond.Keys
    requires CondReady(v, cond) && DecayDefined(st.inveps, cond, d)
    ensures forall k :: k in PmlDecay(st, v, cond, d) ==>
      DecayAllowed(st.(cond := cond), k) && |PmlDecay(st, v, cond, d)[k]| == v.ntot
  {
    var decay := PmlDecay(st, v, cond, d);
    var r := st.(cond := cond);
    forall k | k in decay
      ensures DecayAllowed(r, k) && |decay[k]| == v.ntot
    {
      if k in DecayKeys(st.inveps, cond, d) {
        assert (d, k.1) in cond;
      } else {
        assert DecayAllowed(st, k);
      }
    }
  }

  /** The absorbing layer keeps every invariant of the chunk, and the inverse
      permittivities it reads. */
  lemma PmlKeepsWellFormed(st: ChunkState, v: Volume, a: real, mine: bool, d: Direction, dx: real, bloc: real)
    requires a != 0.0 && dx != 0.0 && WellFormed(st, v, mine)
    requires mine ==> PmlDefined(st, v, a, d, dx, bloc)
    ensures WellFormed(PmlState(st, v, a, mine, d, dx, bloc), v, mine)
    ensures PmlState(st, v, a, mine, d, dx, bloc).inveps == st.inveps
  {
    if !PmlRejects(v, a, d, dx, bloc) && mine {
      var cond := PmlCond(st, v, a, d, dx, bloc);
      PmlCondFacts(st, v, a, d, dx, bloc);
      PmlDecayFacts(st, v, cond, d);
      var r := st.(cond := cond, decay := PmlDecay(st, v, cond, d));
      assert PmlState(st, v, a, mine, d, dx, bloc) == r;
      assert WellFormed(r, v, mine);
    }
  }

  /** The layer along d touches nothing but the conductivities of d and their
      damping entries, and never gives a component pointing along d a conductivity. */
  lemma PmlLeavesOtherLayers(st: ChunkState, v: Volume, a: real, mine: bool, d: Direction, dx: real, bloc: real)
    requires a != 0.0 && dx != 0.0 && WellFormed(st, v, mine)
    requires mine ==> PmlDefined(st, v, a, d, dx, bloc)
    ensures var r := PmlState(st, v, a, mine, d, dx, bloc);
      && r.eps == st.eps && r.inveps == st.inveps && r.chain == st.chain && r.pol == st.pol
      && st.cond.Keys <= r.cond.Keys
      && (forall k :: k in st.cond && k.0 != d ==> r.cond[k] == st.cond[k])
      && (forall c :: ComponentDirection(c) == d ==> (d, c) !in r.cond)
  {
    var r := PmlState(st, v, a, mine, d, dx, bloc);
    if !PmlRejects(v, a, d, dx, bloc) && mine {
      var targets := RampTargets(st, v, a, d, dx, bloc);
      assert r.cond == st.cond + targets;
      forall c | ComponentDirection(c) == d
        ensures (d, c) !in r.cond
      {
        assert (d, c) !in targets;
      }
    }
  }

  /** The damping entries of other layers are left as they were. */
  lemma PmlLeavesOtherDamping(st: ChunkState, v: Volume, a: real, mine: bool, d: Direction, dx: real, bloc: real)
    requires a != 0.0 && dx != 0.0 && WellFormed(st, v, mine)
    requires mine ==> PmlDefined(st, v, a, d, dx, bloc)
    ensures var r := PmlState(st, v, a, mine, d, dx, bloc);
      && st.decay.Keys <= r.decay.Keys
      && (forall k :: k in st.decay && k.0 != d ==> r.decay[k] == st.decay[k])
  {
    var r := PmlState(st, v, a, mine, d, dx, bloc);
    if !PmlRejects(v, a, d, dx, bloc) && mine {
      PmlCondFacts(st, v, a, d, dx, bloc);
      assert r.decay == st.decay + DecayTargets(st, v, r.cond, d);
    }
  }

  /** The conductivities a ramp starts from: the existing array, or zeros. */
  function Prior(st: ChunkState, v: Volume, d: Direction, c: Component): seq<real> {
    if (d, c) in st.cond then st.cond[(d, c)] else Zeros(v.ntot)
  }

  /** Outside a rejection, every component the layer ramps gets a conductivity
      array: its prior one, or a zero-filled new one, ramped. */
  lemma PmlRampCells(st: ChunkState, v: Volume, a: real, d: Direction, dx: real, bloc: real, c: Component)
    requires a != 0.0 && dx != 0.0 && CanPml(st, v) && PmlDefined(st, v, a, d, dx, bloc)
    requires !PmlRejects(v, a, d, dx, bloc) && Ramped(v, d, c)
    ensures (d, c) in PmlState(st, v, a, true, d, dx, bloc).cond
    ensures PmlState(st, v, a, true, d, dx, bloc).cond[(d, c)] == Ramp(Prior(st, v, d, c), v, a, c, d, dx, bloc)
  {
    EveryComponentListed(c);
    assert (d, c) in RampKeys(v, d);
  }

  /** Cell by cell: a cell of positive depth holds the ramp value, any other cell its
      prior conductivity, which is 0 in an array the layer allocates. */
  lemma PmlRampCell(st: ChunkState, v: Volume, a: real, d: Direction, dx: real, bloc: real, c: Component, i: nat)
    requires a != 0.0 && dx != 0.0 && CanPml(st, v) && PmlDefined(st, v, a, d, dx, bloc)
    requires !PmlRejects(v, a, d, dx, bloc) && Ramped(v, d, c) && i < v.ntot
    ensures (d, c) in PmlState(st, v, a, true, d, dx, bloc).cond
    ensures var r := PmlState(st, v, a, true, d, dx, bloc).cond[(d, c)];
      var x := Depth(v, a, c, i, d, dx, bloc);
      && |r| == v.ntot
      && (x > 0.0 ==> r[i] == RampValue(dx, x))
      && (x <= 0.0 && (d, c) in st.cond ==> r[i] == st.cond[(d, c)][i])
      && (x <= 0.0 && (d, c) !in st.cond ==> r[i] == 0.0)
  {
    PmlRampCells(st, v, a, d, dx, bloc, c);
    var p := Prior(st, v, d, c);
    assert |p| == v.ntot;
    assert Ramp(p, v, a, c, d, dx, bloc)[i] == RampCell(p[i], v, a, c, i, d, dx, bloc);
  }

  /** On a positive resolution and layer width a cell is never deeper than the layer,
      and the ramp puts a conductivity in (0, Cmax] on every cell of positive depth. */
  lemma RampBounded(v: Volume, a: real, c: Component, i: nat, d: Direction, dx: real, bloc: real)
    requires a > 0.0 && dx > 0.0
    ensures Depth(v, a, c, i, d, dx, bloc) <= dx
    ensures var x := Depth(v, a, c, i, d, dx, bloc);
      x > 0.0 ==> 0.0 < RampValue(dx, x) <= Cmax
  {
    var dist := Abs(bloc - v.loc(c, i).At(d));
    var t := HalfCells(a, dist);
    assert 2.0 * a * dist >= 0.0;
    assert t >= 0;
    var h := 0.5 / a;
    assert h > 0.0;
    assert h * (t as real) >= 0.0;
    var x := Depth(v, a, c, i, d, dx, bloc);
    assert x == dx - h * (t as real);
    if x > 0.0 {
      RampGrowsWithDepth(dx, x, dx);
      RampPositive(dx, x);
      RampAtLayerEdge(dx);
    }
  }

  lemma RampPositive(dx: real, x: real)
    requires dx != 0.0 && x > 0.0
    ensures RampValue(dx, x) > 0.0
  {
    PrefactorPositive(dx);
    var px := PmlPrefactor(dx) * x;
    assert px > 0.0;
    assert px * x > 0.0;
  }

  /** At the full layer depth dx the ramp reaches Cmax. */
  lemma RampAtLayerEdge(dx: real)
    requires dx != 0.0
    ensures RampValue(dx, dx) == Cmax
  {
    var p := PmlPrefactor(dx);
    assert p * (dx * dx) == Cmax;
  }

  /** The ramp grows with depth. */
  lemma RampGrowsWithDepth(dx: real, x: real, y: real)
    requires dx != 0.0 && 0.0 <= x <= y
    ensures RampValue(dx, x) <= RampValue(dx, y)
  {
    PrefactorPositive(dx);
    var p := PmlPrefactor(dx);
    assert x * x <= y * y by {
      assert x * x <= x * y;
      assert x * y <= y * y;
    }
    assert p * (x * x) <= p * (y * y);
  }

  /** Outside a rejection the damping entries of the layer along d are exactly those
      DecayAllowed permits, with the magnetic and electric damping formulas. */
  lemma PmlDecayEntries(st: ChunkState, v: Volume, a: real, d: Direction, dx: real, bloc: real, k: DecayKey)
    requires a != 0.0 && dx != 0.0 && CanPml(st, v) && PmlDefined(st, v, a, d, dx, bloc)
    requires !PmlRejects(v, a, d, dx, bloc) && k.0 == d
    ensures CanPml(PmlState(st, v, a, true, d, dx, bloc), v)
    ensures var r := PmlState(st, v, a, true, d, dx, bloc);
      && (k in r.decay <==> DecayAllowed(r, k))
      && (k in r.decay && IsMagnetic(k.1) ==> r.decay[k] == MagneticDecay(r.cond[(d, k.1)]))
      && (k in r.decay && IsElectric(k.1) ==>
            (k.1, k.2) in r.inveps && r.decay[k] == ElectricDecay(r.cond[(d, k.1)], r.inveps[(k.1, k.2)]))
  {
    var cond := PmlCond(st, v, a, d, dx, bloc);
    PmlCondFacts(st, v, a, d, dx, bloc);
    var r := st.(cond := cond, decay := PmlDecay(st, v, cond, d));
    assert PmlState(st, v, a, true, d, dx, bloc) == r;
    PmlKeepsWellFormed(st, v, a, true, d, dx, bloc);
    EveryComponentListed(k.1);
    EveryDirectionListed(k.2);
    if DecayAllowed(r, k) {
      assert k in DecayKeys(st.inveps, r.cond, d);
    }
    if k in st.decay {
      assert DecayAllowed(st, k);
      assert k in DecayKeys(st.inveps, r.cond, d);
    }
  }

  /** Magnetic damping lies in (0, 1], and is 1 where there is no conductivity. */
  lemma MagneticDecayBounds(cv: seq<real>, i: int)
    requires NonNegative(cv) && 0 <= i < |cv|
    ensures 0.0 < MagneticDecay(cv)[i] <= 1.0
    ensures cv[i] == 0.0 ==> MagneticDecay(cv)[i] == 1.0
  {
    var den := 1.0 + 0.5 * cv[i];
    assert den >= 1.0;
    ReciprocalAntitone(1.0, den);
  }

  /** Electric damping lies in [0, inveps], and is inveps where there is no
      conductivity. */
  lemma ElectricDecayBounds(cv: seq<real>, inv: seq<real>, i: int)
    requires |inv| == |cv| && NonNegative(cv) && NonNegative(inv) && 0 <= i < |cv|
    ensures ElectricDefined(cv, inv)
    ensures 0.0 <= ElectricDecay(cv, inv)[i] <= inv[i]
    ensures cv[i] == 0.0 ==> ElectricDecay(cv, inv)[i] == inv[i]
  {
    forall j | 0 <= j < |cv|
      ensures 1.0 + 0.5 * cv[j] * inv[j] >= 1.0
    {
      assert 0.5 * cv[j] * inv[j] >= 0.0 by {
        assert 0.5 * cv[j] >= 0.0;
      }
    }
    var c, e := cv[i], inv[i];
    var den := 1.0 + 0.5 * c * e;
    assert den >= 1.0;
    ReciprocalAntitone(1.0, den);
    assert e / den == e * (1.0 / den);
    ScaleBelow(1.0 / den, e);
  }

  /** Every entry the decay loop writes can be computed. */
  lemma DecayKeysReadable(st: ChunkState, v: Volume, cond: map<CondKey, seq<real>>, d: Direction, k: DecayKey)
    requires CanPml(st, v)
    requires CondReady(v, cond) && DecayDefined(st.inveps, cond, d)
    requires k in DecayKeys(st.inveps, cond, d)
    ensures DecayReadable(st, v, cond, d, k)
  {
  }

  /** The damping the decay loop writes into an entry, and what it reads there. */
  lemma DecayTargetAt(st: ChunkState, v: Volume, cond: map<CondKey, seq<real>>, d: Direction, k: DecayKey)
    requires CanPml(st, v)
    requires CondReady(v, cond) && DecayDefined(st.inveps, cond, d)
    ensures k in DecayTargets(st, v, cond, d) <==> k in DecayKeys(st.inveps, cond, d)
    ensures k in DecayKeys(st.inveps, cond, d) ==>
      DecayReadable(st, v, cond, d, k) && DecayTargets(st, v, cond, d)[k] == DecayFormula(st, v, cond, d, k)
  {
  }

  /** Pass c of the ramp loop ramps (d, c) exactly when the layer ramps c. */
  lemma RampKeyAt(v: Volume, d: Direction, c: Component)
    ensures (d, c) in RampKeys(v, d) <==> Ramped(v, d, c)
  {
    EveryComponentListed(c);
  }

  /** Pass (c, d2) of the decay loop writes (d, c, d2) exactly when the loop's
      condition holds: inveps[c][d2] exists or d2 is c's own axis, C[d][c] exists,
      and d2 is not the layer's axis. */
  lemma DecayKeyAt(inveps: map<InvKey, seq<real>>, cond: map<CondKey, seq<real>>, d: Direction, c: Component, d2: Direction)
    ensures (d, c, d2) in DecayKeys(inveps, cond, d) <==>
      ((c, d2) in inveps || d2 == ComponentDirection(c)) && (d, c) in cond && d2 != d
  {
    EveryComponentListed(c);
    EveryDirectionListed(d2);
  }

  // ------------------------------------------------------------ construction

  /** Half a cell along d: the offset of the faces face averaging samples. */
  function Half(v: Volume, d: Direction): real {
    v.spacing(d) * 0.5
  }

  /** The permittivity sampled for cell i. */
  function EpsAt(v: Volume, feps: Vec -> real, i: nat): real {
    feps(v.loc(v.epsComponent, i))
  }

  /** The two faces half a cell either side of p along d. */
  function FaceSum(feps: Vec -> real, p: Vec, d: Direction, h: real): real {
    feps(p.Shift(d, h)) + feps(p.Shift(d, -h))
  }

  /** A corner of the cylindrical cell around p, offset hr in r and hz in z. */
  function Corner(feps: Vec -> real, p: Vec, hr: real, hz: real): real {
    feps(p.Shift(R, hr).Shift(Z, hz))
  }

  /** The three sums cylindrical face averaging divides by for cell i. */
  predicate CylDefined(v: Volume, feps: Vec -> real, i: nat) {
    var p, hr, hz := v.loc(Ep, i), Half(v, R), Half(v, Z);
    && Corner(feps, p, hr, hz) + Corner(feps, p, hr, -hz) != 0.0
    && Corner(feps, p, hr, hz) + Corner(feps, p, -hr, hz) + Corner(feps, p, hr, -hz) + Corner(feps, p, -hr, -hz) != 0.0
    && Corner(feps, p, hr, hz) + Corner(feps, p, -hr, hz) != 0.0
  }

  /** What filling the inverse permittivities writes exists and divides by nonzero
      sums: Ex in 1D, Er, Ep and Ez in cylindrical coordinates.  A 3D volume has no
      filling: sampling it aborts. */
  predicate SampleDefined(v: Volume, feps: Vec -> real) {
    match v.dim
    case D1 => v.hasField(Ex) && forall i :: 0 <= i < v.ntot ==> EpsAt(v, feps, i) != 0.0
    case D2 =>
      && (v.hasField(Ez) ==> forall i :: 0 <= i < v.ntot ==> EpsAt(v, feps, i) != 0.0)
      && (v.hasField(Ex) ==> forall i :: 0 <= i < v.ntot ==> FaceSum(feps, v.loc(Ex, i), X, Half(v, X)) != 0.0)
      && (v.hasField(Ey) ==> forall i :: 0 <= i < v.ntot ==> FaceSum(feps, v.loc(Ey, i), Y, Half(v, Y)) != 0.0)
    case Dcyl =>
      v.hasField(Er) && v.hasField(Ep) && v.hasField(Ez) && forall i :: 0 <= i < v.ntot ==> CylDefined(v, feps, i)
    case D3 => false
  }

  /** The components whose inverse permittivity the constructor fills from feps. */
  predicate Filled(dim: Dim, c: Component) {
    match dim
    case D1 => c == Ex
    case D2 => c == Ex || c == Ey || c == Ez
    case Dcyl => c == Er || c == Ep || c == Ez
    case D3 => false
  }

  /** The inverse permittivity the constructor leaves at cell i of the own-axis
      entry of c: 1/eps in 1D and for Ez in 2D, the harmonic mean of the two faces
      for Ex and Ey in 2D, of two or four corners in cylindrical coordinates, and the
      initial 1 for any other component. */
  function InitialInverse(v: Volume, feps: Vec -> real, c: Component, i: int): real
    requires SampleDefined(v, feps) && v.hasField(c) && 0 <= i < v.ntot
  {
    match v.dim
    case D1 => if c == Ex then 1.0 / EpsAt(v, feps, i) else 1.0
    case D2 =>
      if c == Ez then 1.0 / EpsAt(v, feps, i)
      else if c == Ex then 2.0 / FaceSum(feps, v.loc(Ex, i), X, Half(v, X))
      else if c == Ey then 2.0 / FaceSum(feps, v.loc(Ey, i), Y, Half(v, Y))
      else 1.0
    case Dcyl =>
      if c == Er || c == Ep || c == Ez then CylAverage(v, feps, c, i) else 1.0
  }

  /** The corner averages of the cylindrical cell around Ep's point i: Er from the
      two corners at +r, Ez from the two at +z, Ep from all four. */
  function CylAverage(v: Volume, feps: Vec -> real, c: Component, i: nat): real
    requires CylDefined(v, feps, i) && (c == Er || c == Ep || c == Ez)
  {
    var p, hr, hz := v.loc(Ep, i), Half(v, R), Half(v, Z);
    if c == Er then 2.0 / (Corner(feps, p, hr, hz) + Corner(feps, p, hr, -hz))
    else if c == Ep then
      4.0 / (Corner(feps, p, hr, hz) + Corner(feps, p, -hr, hz) + Corner(feps, p, hr, -hz) + Corner(feps, p, -hr, -hz))
    else 2.0 / (Corner(feps, p, hr, hz) + Corner(feps, p, -hr, hz))
  }

  /** In cylindrical coordinates the filled inverse permittivities are the corner
      averages. */
  lemma CylFilled(v: Volume, feps: Vec -> real, c: Component, r: seq<real>)
    requires SampleDefined(v, feps) && v.dim == Dcyl && (c == Er || c == Ep || c == Ez)
    requires |r| == v.ntot && forall i :: 0 <= i < v.ntot ==> r[i] == CylAverage(v, feps, c, i)
    ensures r == InitialInverses(v, feps, c)
  {
  }

  /** The own-axis entries the constructor allocates on an owned chunk. */
  function OwnAxisKeys(v: Volume): set<InvKey> {
    set c | c in AllComponents && OwnAxis(v, (c, ComponentDirection(c))) :: (c, ComponentDirection(c))
  }

  /** A chunk as the sampling constructor leaves it: on its owner eps sampled from
      feps at the permittivity component's points and the own-axis inverse
      permittivities filled; elsewhere nothing.  No conductivity, no damping and an
      empty polarizability chain. */
  function InitState(v: Volume, feps: Vec -> real, mine: bool): ChunkState
    requires mine ==> SampleDefined(v, feps)
  {
    if !mine then ChunkState([], map[], map[], map[], 0, map[])
    else
      ChunkState(
        seq(v.ntot, (i: nat) => EpsAt(v, feps, i)),
        map k | k in OwnAxisKeys(v) :: InitialInverses(v, feps, k.0),
        map[], map[], 0, map[])
  }

  /** The inverse permittivity array the constructor leaves for c. */
  function InitialInverses(v: Volume, feps: Vec -> real, c: Component): (r: seq<real>)
    requires SampleDefined(v, feps) && v.hasField(c)
    ensures |r| == v.ntot
  {
    seq(v.ntot, i requires 0 <= i < v.ntot => InitialInverse(v, feps, c, i))
  }


  /** The own-axis entries as the allocation loop leaves them: 1 in every cell. */
  function OwnAxisOnes(v: Volume): (r: map<InvKey, seq<real>>)
    ensures r.Keys == OwnAxisKeys(v)
  {
    map k | k in OwnAxisKeys(v) :: seq(v.ntot, _ => 1.0)
  }



  /** One filling loop of the constructor: c's own-axis entry, when it exists, gets
      its initial inverse permittivity. */
  function FillEntry(m: map<InvKey, seq<real>>, v: Volume, feps: Vec -> real, c: Component): map<InvKey, seq<real>>
    requires SampleDefined(v, feps)
  {
    var k := (c, ComponentDirection(c));
    if k in m && v.hasField(c) then m[k := InitialInverses(v, feps, c)] else m
  }

  /** The inverse permittivities the filling loops leave, starting from own-axis
      entries of ones: Er, Ep and Ez in cylindrical coordinates, Ex in 1D, and Ez,
      Ex and Ey in 2D. */
  function FillAll(v: Volume, feps: Vec -> real): map<InvKey, seq<real>>
    requires SampleDefined(v, feps)
  {
    var ones := OwnAxisOnes(v);
    match v.dim
    case Dcyl => FillEntry(FillEntry(FillEntry(ones, v, feps, Er), v, feps, Ep), v, feps, Ez)
    case D1 => FillEntry(ones, v, feps, Ex)
    case D2 => FillEntry(FillEntry(FillEntry(ones, v, feps, Ez), v, feps, Ex), v, feps, Ey)
    case D3 => ones
  }

  /** The filling loops leave exactly the inverse permittivities of a sampled chunk:
      the filled components' values, and 1 for the rest. */
  lemma FillAllIsInit(v: Volume, feps: Vec -> real)
    requires SampleDefined(v, feps)
    ensures FillAll(v, feps) == InitState(v, feps, true).inveps
  {
    var r, q := FillAll(v, feps), InitState(v, feps, true).inveps;
    forall k | k in q
      ensures k in r && r[k] == q[k]
    {
      FillAllAt(v, feps, k);
    }
    forall k | k in r
      ensures k in q
    {
      FillAllAt(v, feps, k);
    }
  }

  lemma FillAllAt(v: Volume, feps: Vec -> real, k: InvKey)
    requires SampleDefined(v, feps)
    ensures k in FillAll(v, feps) <==> k in OwnAxisKeys(v)
    ensures k in OwnAxisKeys(v) ==> FillAll(v, feps)[k] == InitialInverses(v, feps, k.0)
  {
    OwnAxisMember(v, k);
    if k in OwnAxisKeys(v) && !Filled(v.dim, k.0) {
      UnfilledInverse(v, feps, k.0);
    }
  }

  /** A component the constructor does not fill keeps the initial 1 in every cell. */
  lemma UnfilledInverse(v: Volume, feps: Vec -> real, c: Component)
    requires SampleDefined(v, feps) && v.hasField(c) && !Filled(v.dim, c)
    ensures InitialInverses(v, feps, c) == seq(v.ntot, _ => 1.0)
  {
  }

  /** A sampled chunk is well formed, and its inverse permittivities are exactly the
      own-axis ones of the electric components the volume carries. */
  lemma InitWellFormed(v: Volume, feps: Vec -> real, mine: bool)
    requires mine ==> SampleDefined(v, feps)
    ensures WellFormed(InitState(v, feps, mine), v, mine)
    ensures forall k :: k in InitState(v, feps, mine).inveps <==> mine && OwnAxis(v, k)
  {
    var r := InitState(v, feps, mine);
    if mine {
      forall k | OwnAxis(v, k)
        ensures k in r.inveps
      {
        EveryComponentListed(k.0);
      }
    }
  }

  /** In 1D the inverse permittivity of Ex is the reciprocal of the sampled eps. */
  lemma InitOneDimensional(v: Volume, feps: Vec -> real, i: int)
    requires v.dim == D1 && SampleDefined(v, feps) && 0 <= i < v.ntot
    ensures (Ex, X) in InitState(v, feps, true).inveps
    ensures InitState(v, feps, true).inveps[(Ex, X)][i] == 1.0 / InitState(v, feps, true).eps[i]
  {
    InitWellFormed(v, feps, true);
    assert OwnAxis(v, (Ex, X));
  }

  /** A uniform permittivity e gives eps == e everywhere and, through every face
      average (2/(e+e) and 4/(4e)), an inverse permittivity 1/e wherever the
      constructor fills one. */
  lemma InitUniform(v: Volume, feps: Vec -> real, e: real, k: InvKey, i: int)
    requires SampleDefined(v, feps) && e != 0.0 && forall p :: feps(p) == e
    requires 0 <= i < v.ntot && k in InitState(v, feps, true).inveps && Filled(v.dim, k.0)
    ensures InitState(v, feps, true).eps[i] == e
    ensures InitState(v, feps, true).inveps[k][i] == 1.0 / e
  {
    InitWellFormed(v, feps, true);
    var r := InitState(v, feps, true);
    assert r.inveps[k][i] == InitialInverse(v, feps, k.0, i);
    UniformInverse(v, feps, e, k.0, i);
  }

  lemma UniformInverse(v: Volume, feps: Vec -> real, e: real, c: Component, i: int)
    requires SampleDefined(v, feps) && e != 0.0 && forall p :: feps(p) == e
    requires 0 <= i < v.ntot && v.hasField(c) && Filled(v.dim, c)
    ensures InitialInverse(v, feps, c, i) == 1.0 / e
  {
    match v.dim
    case D1 =>
    case D2 =>
      if c != Ez {
        var d := ComponentDirection(c);
        assert FaceSum(feps, v.loc(c, i), d, Half(v, d)) == e + e;
        AverageOfTwo(e);
      }
    case Dcyl =>
      var p, hr, hz := v.loc(Ep, i), Half(v, R), Half(v, Z);
      assert Corner(feps, p, hr, hz) == e && Corner(feps, p, -hr, hz) == e;
      assert Corner(feps, p, hr, -hz) == e && Corner(feps, p, -hr, -hz) == e;
      AverageOfTwo(e);
      AverageOfFour(e);
  }

  lemma AverageOfTwo(e: real)
    requires e != 0.0
    ensures 2.0 / (e + e) == 1.0 / e
  {
  }

  lemma AverageOfFour(e: real)
    requires e != 0.0
    ensures 4.0 / (e + e + e + e) == 1.0 / e
  {
  }

  // ------------------------------------------------------------------ copying

  /** A deep copy: an owned copy reproduces every array of the original, keeping a
      damping entry only with its conductivity; a copy another process owns keeps
      only the polarizability chain. */
  function CopyState(st: ChunkState, mine: bool): ChunkState {
    if mine then st.(decay := CopiedDecay(st.cond, st.decay))
    else ChunkState([], map[], map[], map[], st.chain, st.pol)
  }

  /** The damping entries the copy constructor copies: those whose conductivity
      exists. */
  function CopiedDecay(cond: map<CondKey, seq<real>>, decay: map<DecayKey, seq<real>>): map<DecayKey, seq<real>> {
    map k | k in decay && (k.0, k.1) in cond :: decay[k]
  }

  /** The owned copy of a well-formed chunk is identical to it. */
  lemma CopyOfOwned(st: ChunkState, v: Volume)
    requires WellFormed(st, v, true)
    ensures CopyState(st, true) == st
  {
    assert CopyState(st, true).decay == st.decay;
  }

  /** Copying keeps every invariant, for an owned copy of an owned chunk and for a
      copy another process owns. */
  lemma CopyKeepsWellFormed(st: ChunkState, v: Volume, wasMine: bool, mine: bool)
    requires WellFormed(st, v, wasMine) && (mine ==> wasMine)
    ensures WellFormed(CopyState(st, mine), v, mine)
  {
    if mine {
      CopyOfOwned(st, v);
    }
  }

  // ---------------------------------------------------------------- max_eps

  /** The running maximum of an accumulator loop started at 0. */
  function MaxOf(s: seq<real>): real {
    if s == [] then 0.0 else Max(MaxOf(s[..|s| - 1]), s[|s| - 1])
  }

  /** The running maximum is at least 0 and every entry, and is 0 or one of them. */
  lemma {:induction false} MaxOfBounds(s: seq<real>)
    ensures MaxOf(s) >= 0.0
    ensures forall i :: 0 <= i < |s| ==> s[i] <= MaxOf(s)
    ensures MaxOf(s) == 0.0 || exists i :: 0 <= i < |s| && s[i] == MaxOf(s)
  {
    if s != [] {
      var init := s[..|s| - 1];
      MaxOfBounds(init);
      assert forall i :: 0 <= i < |init| ==> s[i] == init[i];
      if MaxOf(s) != 0.0 && MaxOf(s) != s[|s| - 1] {
        var j :| 0 <= j < |init| && init[j] == MaxOf(init);
        assert s[j] == MaxOf(s);
      }
    }
  }
}
