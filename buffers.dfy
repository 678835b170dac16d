/** The element-by-element loops of the chunk operations, one per kind of loop body.
    The permittivity buffer is a heap array, filled in place; the buffers of the
    sparse tables are values, so their loops rewrite a copy cell by cell and hand it
    back.  Each states the new contents as the ChunkState function of the old ones. */
module Buffers {
  import opened Yee
  import opened Numeric
  import opened ChunkState

  // ------------------------------------------------------ the eps buffer (array)

  /** for (i...) b[i] = x */
  method Fill(b: array<real>, x: real)
    modifies b
    ensures b[..] == seq(b.Length, _ => x)
  {
    for i := 0 to b.Length
      invariant forall j :: 0 <= j < i ==> b[j] == x
    {
      b[i] := x;
    }
  }

  /** for (i...) b[i] = src[i] */
  method CopyInto(b: array<real>, src: array<real>)
    requires b != src && src.Length == b.Length
    modifies b
    ensures b[..] == src[..]
  {
    for i := 0 to b.Length
      invariant forall j :: 0 <= j < i ==> b[j] == src[j]
    {
      b[i] := src[i];
    }
  }

  /** for (i...) b[i] = feps(v.loc(v.eps_component(), i)) */
  method SampleInto(b: array<real>, v: Volume, feps: Vec -> real)
    requires b.Length == v.ntot
    modifies b
    ensures b[..] == seq(v.ntot, (i: nat) => EpsAt(v, feps, i))
  {
    for i := 0 to b.Length
      invariant forall j :: 0 <= j < i ==> b[j] == EpsAt(v, feps, j)
    {
      b[i] := feps(v.loc(v.epsComponent, i));
    }
  }

  /** for (i...) b[i] = 1/(1/b[i] + f*(1/o[i] - 1/b[i])): the harmonic blend */
  method HarmonicMixInto(b: array<real>, o: array<real>, f: real)
    requires b != o && o.Length == b.Length
    requires forall i :: 0 <= i < b.Length ==> Mixable(b[i], o[i], f)
    modifies b
    ensures b[..] == HarmonicMixAll(old(b[..]), o[..], f)
  {
    ghost var b0 := b[..];
    for i := 0 to b.Length
      invariant forall j :: 0 <= j < i ==> b[j] == HarmonicMix(b0[j], o[j], f)
      invariant forall j :: i <= j < b.Length ==> b[j] == b0[j]
    {
      b[i] := HarmonicMix(b[i], o[i], f);
    }
  }

  /** The running sum of make_average_eps. */
  method SumOf(b: array<real>) returns (s: real)
    ensures s == Sum(b[..])
  {
    s := 0.0;
    for i := 0 to b.Length
      invariant s == Sum(b[..i])
    {
      assert b[..i + 1][..i] == b[..i];
      s := s + b[i];
    }
    assert b[..b.Length] == b[..];
  }

  /** The running maximum of mat_chunk::max_eps. */
  method MaxOfArray(b: array<real>) returns (m: real)
    ensures m == MaxOf(b[..])
    ensures m >= 0.0 && forall i :: 0 <= i < b.Length ==> b[i] <= m
    ensures m == 0.0 || exists i :: 0 <= i < b.Length && b[i] == m
  {
    m := 0.0;
    for i := 0 to b.Length
      invariant m == MaxOf(b[..i])
    {
      assert b[..i + 1][..i] == b[..i];
      m := Max(m, b[i]);
    }
    assert b[..b.Length] == b[..];
    MaxOfBounds(b[..]);
  }

  // -------------------------------------------------- table buffers (values)

  /** new double[n]; for (i...) b[i] = x */
  method FilledBuffer(n: nat, x: real) returns (r: seq<real>)
    ensures r == seq(n, _ => x)
  {
    r := seq(n, _ => 0.0);
    for i := 0 to n
      invariant |r| == n
      invariant forall j :: 0 <= j < i ==> r[j] == x
    {
      r := r[i := x];
    }
  }

  /** for (i...) b[i] = 1.0/eps[i]: Ex in 1D, Ez in 2D. */
  method Reciprocals(b: seq<real>, eps: array<real>, v: Volume, feps: Vec -> real, c: Component)
    returns (r: seq<real>)
    requires |b| == v.ntot && eps[..] == seq(v.ntot, (i: nat) => EpsAt(v, feps, i))
    requires SampleDefined(v, feps) && v.hasField(c)
    requires (v.dim == D1 && c == Ex) || (v.dim == D2 && c == Ez)
    ensures r == InitialInverses(v, feps, c)
  {
    r := b;
    for i := 0 to |r|
      invariant |r| == v.ntot
      invariant forall j :: 0 <= j < i ==> r[j] == InitialInverse(v, feps, c, j)
    {
      assert eps[i] == EpsAt(v, feps, i);
      r := r[i := 1.0 / eps[i]];
    }
  }

  /** The 2D face average of Ex or Ey: 2/(feps(here + h) + feps(here - h)) for the
      half cell h along the component's axis. */
  method FaceAverages(b: seq<real>, v: Volume, feps: Vec -> real, c: Component) returns (r: seq<real>)
    requires |b| == v.ntot && SampleDefined(v, feps) && v.dim == D2
    requires (c == Ex || c == Ey) && v.hasField(c)
    ensures r == InitialInverses(v, feps, c)
  {
    var d := ComponentDirection(c);
    var h := v.spacing(d) * 0.5;
    r := b;
    for i := 0 to |r|
      invariant |r| == v.ntot
      invariant forall j :: 0 <= j < i ==> r[j] == InitialInverse(v, feps, c, j)
    {
      var here := v.loc(c, i);
      r := r[i := 2.0 / (feps(here.Shift(d, h)) + feps(here.Shift(d, -h)))];
    }
  }

  /** The cylindrical loop: the corners of the cell around Ep's point give Er, Ep
      and Ez their averages in one pass. */
  method CylAverages(er: seq<real>, ep: seq<real>, ez: seq<real>, v: Volume, feps: Vec -> real)
    returns (r: seq<real>, p: seq<real>, z: seq<real>)
    requires |er| == v.ntot && |ep| == v.ntot && |ez| == v.ntot
    requires forall i :: 0 <= i < v.ntot ==> CylDefined(v, feps, i)
    ensures |r| == v.ntot && forall i :: 0 <= i < v.ntot ==> r[i] == CylAverage(v, feps, Er, i)
    ensures |p| == v.ntot && forall i :: 0 <= i < v.ntot ==> p[i] == CylAverage(v, feps, Ep, i)
    ensures |z| == v.ntot && forall i :: 0 <= i < v.ntot ==> z[i] == CylAverage(v, feps, Ez, i)
  {
    r, p, z := er, ep, ez;
    for i := 0 to v.ntot
      invariant |r| == v.ntot && |p| == v.ntot && |z| == v.ntot
      invariant forall j :: 0 <= j < i ==> r[j] == CylAverage(v, feps, Er, j)
      invariant forall j :: 0 <= j < i ==> p[j] == CylAverage(v, feps, Ep, j)
      invariant forall j :: 0 <= j < i ==> z[j] == CylAverage(v, feps, Ez, j)
    {
      var ar, ap, az := CylCell(v, feps, i);
      r, p, z := r[i := ar], p[i := ap], z[i := az];
    }
  }

  /** The body of the cylindrical loop for cell i: the four corners around Ep's
      point, and the three averages drawn from them. */
  method CylCell(v: Volume, feps: Vec -> real, i: nat) returns (ar: real, ap: real, az: real)
    requires CylDefined(v, feps, i)
    ensures ar == CylAverage(v, feps, Er, i)
    ensures ap == CylAverage(v, feps, Ep, i)
    ensures az == CylAverage(v, feps, Ez, i)
  {
    var here, hr, hz := v.loc(Ep, i), Half(v, R), Half(v, Z);
    var pp, mp := Corner(feps, here, hr, hz), Corner(feps, here, -hr, hz);
    var pm, mm := Corner(feps, here, hr, -hz), Corner(feps, here, -hr, -hz);
    ar := 2.0 / (pp + pm);
    ap := 4.0 / (pp + mp + pm + mm);
    az := 2.0 / (pp + mp);
  }

  /** for (i...) b[i] += f*(o[i] - b[i]) */
  method LinearMixed(b: seq<real>, o: seq<real>, f: real) returns (r: seq<real>)
    requires |o| == |b|
    ensures r == LinearMixAll(b, o, f)
  {
    r := b;
    for i := 0 to |r|
      invariant |r| == |b|
      invariant forall j :: 0 <= j < i ==> r[j] == LinearMix(b[j], o[j], f)
      invariant forall j :: i <= j < |r| ==> r[j] == b[j]
    {
      r := r[i := r[i] + f * (o[i] - r[i])];
    }
  }

  /** The ramp loop of use_pml for component c: cells of positive depth x get
      Cmax/dx^2 * x * x, the others keep their value. */
  method RampCells(b: seq<real>, v: Volume, a: real, c: Component, d: Direction, dx: real, bloc: real)
    returns (r: seq<real>)
    requires a != 0.0 && dx != 0.0
    ensures r == Ramp(b, v, a, c, d, dx, bloc)
  {
    r := b;
    for i := 0 to |r|
      invariant |r| == |b|
      invariant forall j :: 0 <= j < i ==> r[j] == RampCell(b[j], v, a, c, j, d, dx, bloc)
      invariant forall j :: i <= j < |r| ==> r[j] == b[j]
    {
      var x := Depth(v, a, c, i, d, dx, bloc);
      if x > 0.0 {
        r := r[i := RampValue(dx, x)];
      }
    }
  }

  /** for (i...) b[i] = 1.0/(1.0 + 0.5*cv[i]) */
  method MagneticDecayed(b: seq<real>, cv: seq<real>) returns (r: seq<real>)
    requires |cv| == |b| && NonNegative(cv)
    ensures r == MagneticDecay(cv)
  {
    r := b;
    for i := 0 to |r|
      invariant |r| == |b|
      invariant forall j :: 0 <= j < i ==> r[j] == MagneticDecay(cv)[j]
    {
      r := r[i := 1.0 / (1.0 + 0.5 * cv[i])];
    }
  }

  /** for (i...) b[i] = inv[i]/(1.0 + 0.5*cv[i]*inv[i]) */
  method ElectricDecayed(b: seq<real>, cv: seq<real>, inv: seq<real>) returns (r: seq<real>)
    requires |cv| == |b| && ElectricDefined(cv, inv)
    ensures r == ElectricDecay(cv, inv)
  {
    r := b;
    for i := 0 to |r|
      invariant |r| == |b|
      invariant forall j :: 0 <= j < i ==> r[j] == ElectricDecay(cv, inv)[j]
    {
      r := r[i := inv[i] / (1.0 + 0.5 * cv[i] * inv[i])];
    }
  }
}
