/** The staggered-grid vocabulary the material grid is written against: directions,
    field components, grid dimensionalities, positions, and the volume and symmetry
    services it consumes.  The services live in headers that are not part of this
    model, so a volume, a symmetry and the volume-splitting operations are plain
    values here: whatever they answer is an input to the model. */
module Yee {

  datatype Direction = X | Y | Z | R | P

  datatype Component = Ex | Ey | Er | Ep | Ez | Hx | Hy | Hr | Hp | Hz

  datatype Dim = D1 | D2 | D3 | Dcyl

  datatype Side = Low | High

  /** Every component, in declaration order (the order of FOR_COMPONENTS). */
  const ComponentOrder: seq<Component> := [Ex, Ey, Er, Ep, Ez, Hx, Hy, Hr, Hp, Hz]

  /** Every direction, in declaration order (the order of FOR_DIRECTIONS). */
  const DirectionOrder: seq<Direction> := [X, Y, Z, R, P]

  const AllComponents: set<Component> := {Ex, Ey, Er, Ep, Ez, Hx, Hy, Hr, Hp, Hz}

  const AllDirections: set<Direction> := {X, Y, Z, R, P}

  lemma EveryComponentListed(c: Component)
    ensures c in AllComponents && c in ComponentOrder
  {
  }

  lemma EveryDirectionListed(d: Direction)
    ensures d in AllDirections && d in DirectionOrder
  {
  }

  /** The position of c in ComponentOrder. */
  function ComponentIndex(c: Component): (n: nat)
    ensures n < |ComponentOrder| && ComponentOrder[n] == c
  {
    match c
    case Ex => 0 case Ey => 1 case Er => 2 case Ep => 3 case Ez => 4
    case Hx => 5 case Hy => 6 case Hr => 7 case Hp => 8 case Hz => 9
  }

  /** The position of d in DirectionOrder. */
  function DirectionIndex(d: Direction): (n: nat)
    ensures n < |DirectionOrder| && DirectionOrder[n] == d
  {
    match d
    case X => 0 case Y => 1 case Z => 2 case R => 3 case P => 4
  }

  /** Both orders list each value once. */
  lemma OrdersAreIndexed(n: nat, m: nat)
    requires n < |ComponentOrder| && m < |DirectionOrder|
    ensures ComponentIndex(ComponentOrder[n]) == n && DirectionIndex(DirectionOrder[m]) == m
  {
  }

  predicate IsElectric(c: Component) {
    c.Ex? || c.Ey? || c.Er? || c.Ep? || c.Ez?
  }

  predicate IsMagnetic(c: Component) {
    !IsElectric(c)
  }

  /** The axis a component points along. */
  function ComponentDirection(c: Component): Direction {
    match c
    case Ex | Hx => X
    case Ey | Hy => Y
    case Er | Hr => R
    case Ep | Hp => P
    case Ez | Hz => Z
  }

  /** A position of the grid, one coordinate per direction. */
  datatype Vec = Vec(x: real, y: real, z: real, r: real, p: real) {

    function At(d: Direction): real {
      match d
      case X => x
      case Y => y
      case Z => z
      case R => r
      case P => p
    }

    /** This position moved by h along d. */
    function Shift(d: Direction, h: real): (w: Vec)
      ensures w.At(d) == At(d) + h
      ensures forall e :: e != d ==> w.At(e) == At(e)
    {
      match d
      case X => this.(x := x + h)
      case Y => this.(y := y + h)
      case Z => this.(z := z + h)
      case R => this.(r := r + h)
      case P => this.(p := p + h)
    }
  }

  /** What the material grid asks of a volume: its dimensionality, resolution `a`,
      cell count `ntot`, grid points per direction, which components it carries,
      the position of component c at cell i (`loc`), the component on whose points
      the permittivity is sampled, the cell-spacing along each direction (the
      length of dx(), dy(), dr(), dz()), and its boundaries. */
  datatype Volume = Volume(
    dim: Dim,
    a: real,
    ntot: nat,
    numDirection: Direction -> int,
    hasField: Component -> bool,
    loc: (Component, nat) -> Vec,
    epsComponent: Component,
    spacing: Direction -> real,
    boundaryLocation: (Side, Direction) -> real,
    hasBoundary: (Side, Direction) -> bool)

  /** The image of a direction under one transform of a symmetry group. */
  datatype SignedDirection = SignedDirection(d: Direction, flipped: bool)

  datatype Symmetry = Symmetry(multiplicity: int, transform: (Direction, int) -> SignedDirection)

  /** The trivial symmetry group. */
  function Identity(): (s: Symmetry)
    ensures s.multiplicity == 1
    ensures forall d, n :: s.transform(d, n) == SignedDirection(d, false)
  {
    Symmetry(1, (d, n) => SignedDirection(d, false))
  }

  /** The volume operations of the headers: has_direction(dim, d),
      v.split_specifically(n, which, d), v.pad(d) and v.split(n, which). */
  datatype VolumeOps = VolumeOps(
    hasDirection: (Dim, Direction) -> bool,
    splitSpecifically: (Volume, int, int, Direction) -> Volume,
    pad: (Volume, Direction) -> Volume,
    split: (Volume, int, int) -> Volume)
}
