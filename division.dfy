/** How the material grid divides a volume into chunks (mat::choose_chunkdivision):
    which axes a symmetry breaks, how the volume is halved and padded along them,
    and which process owns each chunk. */
module Division {
  import opened Yee
  import opened Numeric
  import opened Fatal

  /** The axes the source examines, in the order of its loops (directions 0, 1, 2),
      indexed as its `break_this` array. */
  const Axes: seq<Direction> := [X, Y, Z]

  /** Transform n of the group sends d to another axis or flips it. */
  predicate Moves(s: Symmetry, d: Direction, n: int) {
    s.transform(d, n).d != d || s.transform(d, n).flipped
  }

  /** The symmetry breaks axis d of a volume of dimensionality dim. */
  predicate Breaks(ops: VolumeOps, dim: Dim, s: Symmetry, d: Direction) {
    ops.hasDirection(dim, d) && exists n :: 0 <= n < s.multiplicity && Moves(s, d, n)
  }

  /** `k & 1` on a two's-complement int: Dafny's `%` never returns a negative remainder,
      so it agrees on negative k too. */
  predicate Odd(k: int) {
    k % 2 == 1
  }

  /** Some broken axis has an odd number of grid points. */
  predicate OddBrokenAxis(thev: Volume, s: Symmetry, ops: VolumeOps) {
    exists i :: 0 <= i < 3 && Breaks(ops, thev.dim, s, Axes[i]) && Odd(thev.numDirection(Axes[i]))
  }

  /** The abort the symmetry block of choose_chunkdivision ends in, if any. */
  function SymmetryAbort(thev: Volume, s: Symmetry, ops: VolumeOps): Option<Abort> {
    if s.multiplicity <= 1 then None
    else if thev.dim != D2 then Some(SymmetryNeedsCartesian)
    else if OddBrokenAxis(thev, s, ops) then Some(OddGridPoints)
    else None
  }

  /** The scan of lines 48-58: break_this[d] for d = 0, 1, 2, or the abort on an odd
      broken axis. */
  method ScanBreaks(thev: Volume, s: Symmetry, ops: VolumeOps) returns (r: Result<seq<bool>>)
    ensures r.Aborted? <==> OddBrokenAxis(thev, s, ops)
    ensures r.Aborted? ==> r.reason == OddGridPoints
    ensures r.Ok? ==> |r.value| == 3 && forall i :: 0 <= i < 3 ==> (r.value[i] <==> Breaks(ops, thev.dim, s, Axes[i]))
  {
    var breakThis := new bool[3];
    for dd := 0 to 3
      invariant forall i :: 0 <= i < dd ==> (breakThis[i] <==> Breaks(ops, thev.dim, s, Axes[i]))
      invariant forall i :: 0 <= i < dd ==> !(Breaks(ops, thev.dim, s, Axes[i]) && Odd(thev.numDirection(Axes[i])))
    {
      var d := Axes[dd];
      breakThis[dd] := false;
      var n := 0;
      while n < s.multiplicity
        invariant forall i :: 0 <= i < dd ==> (breakThis[i] <==> Breaks(ops, thev.dim, s, Axes[i]))
        invariant breakThis[dd] <==> ops.hasDirection(thev.dim, d) && exists m :: 0 <= m < n && Moves(s, d, m)
        invariant breakThis[dd] ==> !Odd(thev.numDirection(d))
        invariant 0 <= n && (n <= s.multiplicity || n == 0)
        decreases s.multiplicity - n
      {
        if ops.hasDirection(thev.dim, d) && Moves(s, d, n) {
          breakThis[dd] := true;
          if thev.numDirection(d) % 2 == 1 {
            return Aborted(OddGridPoints);
          }
        }
        n := n + 1;
      }
    }
    return Ok(breakThis[..]);
  }

  /** One volume operation of the reduction. */
  datatype Step = Halve(d: Direction) | Pad(d: Direction)

  /** One pass over the first n axes: a step for every broken one, made by Pad when
      pad holds and by Halve otherwise. */
  function Pass(broken: seq<bool>, n: nat, pad: bool): seq<Step>
    requires n <= |broken| <= 3
  {
    if n == 0 then []
    else
      Pass(broken, n - 1, pad)
      + (if broken[n - 1] then [if pad then Pad(Axes[n - 1]) else Halve(Axes[n - 1])] else [])
  }

  /** All broken axes are halved, then all broken axes are padded. */
  function Plan(broken: seq<bool>): seq<Step>
    requires |broken| == 3
  {
    Pass(broken, 3, false) + Pass(broken, 3, true)
  }

  function ApplyStep(ops: VolumeOps, v: Volume, st: Step): Volume {
    match st
    case Halve(d) => ops.splitSpecifically(v, 2, 0, d)
    case Pad(d) => ops.pad(v, d)
  }

  /** The volume reached by applying the steps in order. */
  function Apply(ops: VolumeOps, v: Volume, steps: seq<Step>): Volume {
    if steps == [] then v
    else ApplyStep(ops, Apply(ops, v, steps[..|steps| - 1]), steps[|steps| - 1])
  }

  lemma {:induction false} ApplyAppend(ops: VolumeOps, v: Volume, s1: seq<Step>, s2: seq<Step>)
    ensures Apply(ops, v, s1 + s2) == Apply(ops, Apply(ops, v, s1), s2)
  {
    if s2 == [] {
      assert s1 + s2 == s1;
    } else {
      assert (s1 + s2)[..|s1 + s2| - 1] == s1 + s2[..|s2| - 1];
      ApplyAppend(ops, v, s1, s2[..|s2| - 1]);
    }
  }

  /** The two loops of lines 59-63: halve, then pad, the broken axes. */
  method ReduceVolume(thev: Volume, broken: seq<bool>, ops: VolumeOps) returns (v: Volume)
    requires |broken| == 3
    ensures v == Apply(ops, thev, Plan(broken))
  {
    v := thev;
    for d := 0 to 3
      invariant v == Apply(ops, thev, Pass(broken, d, false))
    {
      PassStep(ops, thev, broken, d, false);
      if broken[d] {
        v := ops.splitSpecifically(v, 2, 0, Axes[d]);
      }
    }
    ghost var halved := v;
    for d := 0 to 3
      invariant v == Apply(ops, halved, Pass(broken, d, true))
    {
      PassStep(ops, halved, broken, d, true);
      if broken[d] {
        v := ops.pad(v, Axes[d]);
      }
    }
    ApplyAppend(ops, thev, Pass(broken, 3, false), Pass(broken, 3, true));
  }

  /** The pass over one more axis takes one more step when that axis is broken. */
  lemma PassStep(ops: VolumeOps, w: Volume, broken: seq<bool>, d: nat, pad: bool)
    requires d < |broken| <= 3
    ensures var before := Apply(ops, w, Pass(broken, d, pad));
      Apply(ops, w, Pass(broken, d + 1, pad)) ==
        if !broken[d] then before
        else if pad then ops.pad(before, Axes[d])
        else ops.splitSpecifically(before, 2, 0, Axes[d])
  {
    var s := Pass(broken, d + 1, pad);
    if broken[d] {
      assert s[..|s| - 1] == Pass(broken, d, pad);
    } else {
      assert s == Pass(broken, d, pad);
    }
  }

  /** The steps of a pass are exactly one per broken axis among the first n, all of
      the pass's kind. */
  lemma {:induction false} PassContents(broken: seq<bool>, n: nat, pad: bool)
    requires n <= |broken| <= 3
    ensures forall st :: st in Pass(broken, n, pad) ==> st.Pad? == pad
    ensures forall i :: 0 <= i < |broken| ==>
      ((if pad then Pad(Axes[i]) else Halve(Axes[i])) in Pass(broken, n, pad) <==> i < n && broken[i])
  {
    if n > 0 {
      PassContents(broken, n - 1, pad);
    }
  }

  /** Only broken axes are halved and padded, each exactly when it is broken, and every
      halving comes before every padding. */
  lemma PlanShape(broken: seq<bool>)
    requires |broken| == 3
    ensures forall i :: 0 <= i < 3 ==> (Halve(Axes[i]) in Plan(broken) <==> broken[i])
    ensures forall i :: 0 <= i < 3 ==> (Pad(Axes[i]) in Plan(broken) <==> broken[i])
    ensures forall j, k :: 0 <= j < k < |Plan(broken)| && Plan(broken)[j].Pad? ==> Plan(broken)[k].Pad?
  {
    PassContents(broken, 3, false);
    PassContents(broken, 3, true);
    var h, p := Pass(broken, 3, false), Pass(broken, 3, true);
    assert Plan(broken) == h + p;
    forall j | 0 <= j < |Plan(broken)|
      ensures Plan(broken)[j].Pad? <==> j >= |h|
    {
      if j < |h| {
        assert Plan(broken)[j] == h[j] && h[j] in h;
      } else {
        assert Plan(broken)[j] == p[j - |h|] && p[j - |h|] in p;
      }
    }
    forall i | 0 <= i < 3
      ensures Halve(Axes[i]) in Plan(broken) <==> broken[i]
      ensures Pad(Axes[i]) in Plan(broken) <==> broken[i]
    {
      assert Halve(Axes[i]) !in p;
      assert Pad(Axes[i]) !in h;
    }
  }

  lemma {:induction false} PassOfUnbroken(broken: seq<bool>, n: nat, pad: bool)
    requires n <= |broken| <= 3 && forall i :: 0 <= i < n ==> !broken[i]
    ensures Pass(broken, n, pad) == []
  {
    if n > 0 {
      PassOfUnbroken(broken, n - 1, pad);
    }
  }

  /** With no broken axis the working volume is the user's volume. */
  lemma {:induction false} NoBrokenAxisKeepsVolume(ops: VolumeOps, thev: Volume, broken: seq<bool>)
    requires |broken| == 3 && forall i :: 0 <= i < 3 ==> !broken[i]
    ensures Apply(ops, thev, Plan(broken)) == thev
  {
    PassOfUnbroken(broken, 3, false);
    PassOfUnbroken(broken, 3, true);
    assert Plan(broken) == [];
  }

  /** The process that owns chunk i: `i*count_processors()/num_chunks` in C integer
      arithmetic. */
  function Owner(i: int, procs: int, numChunks: int): int
    requires numChunks != 0
  {
    CDiv(i * procs, numChunks)
  }

  /** Every chunk is owned by one of the processes. */
  lemma OwnerInRange(i: int, procs: int, numChunks: int)
    requires 0 <= i < numChunks && procs > 0
    ensures 0 <= Owner(i, procs, numChunks) < procs
  {
    assert 0 <= i * procs;
    assert i * procs < numChunks * procs by {
      MulStrict(i, numChunks, procs);
    }
    DivBelow(i * procs, numChunks, procs);
  }

  /** Later chunks never go to earlier processes, so each process owns a contiguous
      range of chunk indices. */
  lemma OwnerMonotone(i: int, j: int, procs: int, numChunks: int)
    requires 0 <= i <= j < numChunks && procs >= 0
    ensures Owner(i, procs, numChunks) <= Owner(j, procs, numChunks)
  {
    MulMono(i, j, procs);
    DivMono(i * procs, j * procs, numChunks);
  }

  /** With as many chunks as processes, chunk i goes to process i. */
  lemma OwnerOnePerProcess(i: int, procs: int)
    requires 0 <= i < procs
    ensures Owner(i, procs, procs) == i
  {
    DivBetween(i * procs, procs, i);
  }

  /** With at least as many chunks as processes, every process owns a chunk. */
  lemma EveryProcessOwnsAChunk(p: int, procs: int, numChunks: int)
    requires 0 <= p < procs <= numChunks
    ensures exists i :: 0 <= i < numChunks && Owner(i, procs, numChunks) == p
  {
    // the first chunk of process p: the least i with i*procs >= p*numChunks
    var i := FirstChunkOf(p, procs, numChunks);
    DivBetween(i * procs, numChunks, p);
    assert Owner(i, procs, numChunks) == p;
  }

  /** The least i with i*procs >= p*numChunks lies below numChunks, and i*procs
      falls in process p's share [p*numChunks, (p+1)*numChunks). */
  lemma FirstChunkOf(p: int, procs: int, numChunks: int) returns (i: int)
    requires 0 <= p < procs <= numChunks
    ensures 0 <= i < numChunks
    ensures p * numChunks <= i * procs < (p + 1) * numChunks
  {
    var x := p * numChunks + procs - 1;
    assert 0 <= x by {
      MulMono(0, p, numChunks);
    }
    i := x / procs;
    DivBounds(x, procs);
    assert (p + 1) * numChunks == p * numChunks + numChunks by {
      Distribute(p, numChunks);
    }
    assert i < numChunks by {
      MulMono(p + 1, procs, numChunks);
      if i >= numChunks {
        MulMono(numChunks, i, procs);
        assert false;
      }
    }
  }

  lemma DivBounds(x: int, n: int)
    requires 0 <= x && n > 0
    ensures 0 <= x / n && (x / n) * n <= x < (x / n) * n + n
  {
  }

  lemma Distribute(p: int, n: int)
    ensures (p + 1) * n == p * n + n
  {
  }

  lemma MulStrict(i: int, n: int, k: int)
    requires 0 <= i < n && k > 0
    ensures i * k < n * k
  {
  }

  lemma MulMono(i: int, j: int, k: int)
    requires i <= j && k >= 0
    ensures i * k <= j * k
  {
  }

  lemma DivBelow(x: int, n: int, k: int)
    requires 0 <= x < n * k && n > 0
    ensures 0 <= x / n < k
  {
  }

  lemma DivMono(x: int, y: int, n: int)
    requires 0 <= x <= y && n > 0
    ensures x / n <= y / n
  {
    var qx, qy := x / n, y / n;
    assert qx * n + x % n == x && 0 <= x % n < n;
    assert qy * n + y % n == y && 0 <= y % n < n;
    if qx > qy {
      MulMono(qy + 1, qx, n);
      assert false;
    }
  }

  lemma DivBetween(x: int, n: int, q: int)
    requires n > 0 && q * n <= x < (q + 1) * n
    ensures x / n == q
  {
    var d := x / n;
    assert d * n + x % n == x && 0 <= x % n < n;
    if d > q {
      MulMono(q + 1, d, n);
      assert false;
    }
    if d < q {
      MulMono(d + 1, q, n);
      assert false;
    }
  }
}
