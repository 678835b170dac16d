/** The helpers for absorbing-layer profiles: reversing a profile in place, and the
    reflection estimate `badness` of a layered conductivity profile.  The estimate's
    exponentials are transcendental, so `exp` is a parameter `expf` here. */
module Profile {
  import opened Numeric

  /** The first l entries of s in reverse order, the others as they were. */
  function ReversedPrefix(s: seq<real>, l: int): (r: seq<real>)
    requires l <= |s|
    ensures |r| == |s|
  {
    seq(|s|, i requires 0 <= i < |s| => if i < l then s[l - 1 - i] else s[i])
  }

  /** reverse(sig, l): swaps sig[i] and sig[l-1-i] for i < l/2. */
  method Reverse(sig: array<real>, l: int)
    requires l <= sig.Length
    modifies sig
    ensures sig[..] == ReversedPrefix(old(sig[..]), l)
  {
    var half := CDiv(l, 2);
    var i := 0;
    while i < half
      invariant 0 <= i && (i <= half || i == 0)
      invariant half <= 0 || (2 * half <= l && l <= 2 * half + 1)
      invariant forall k :: 0 <= k < i ==> sig[k] == old(sig[l - 1 - k]) && sig[l - 1 - k] == old(sig[k])
      invariant forall k :: i <= k < l - i ==> sig[k] == old(sig[k])
      invariant forall k :: 0 <= k < sig.Length && k >= l ==> sig[k] == old(sig[k])
    {
      var temp := sig[i];
      sig[i] := sig[l - 1 - i];
      sig[l - 1 - i] := temp;
      i := i + 1;
    }
    assert forall k :: 0 <= k < sig.Length ==> sig[k] == ReversedPrefix(old(sig[..]), l)[k];
  }

  /** Reversing the same prefix twice restores the profile. */
  lemma ReverseTwice(s: seq<real>, l: int)
    requires l <= |s|
    ensures ReversedPrefix(ReversedPrefix(s, l), l) == s
  {
    var once := ReversedPrefix(s, l);
    var twice := ReversedPrefix(once, l);
    forall i | 0 <= i < |s|
      ensures twice[i] == s[i]
    {
      if i < l {
        assert twice[i] == once[l - 1 - i];
      }
    }
  }

  /** The partial reflection between adjacent layers of conductivities x and y. */
  function Reflection(A: real, x: real, y: real): real {
    A * Abs(x - y) * Abs(x - y)
  }

  /** The partial reflection between layers i and i + 1. */
  function LayerReflection(sig: seq<real>, i: nat, A: real): real
    requires i + 1 < |sig|
  {
    Reflection(A, sig[i], sig[i + 1])
  }

  /** The transmission exp(-K s) through one layer of conductivity s. */
  function Transmission(expf: real -> real, K: real, s: real): real {
    expf(-K * s)
  }

  /** One pass of the loop body on adjacent layers x, y: combine their reflection
      and transmission with the running value and clamp it at 1. */
  function BadnessStep(A: real, K: real, expf: real -> real, x: real, y: real, sofar: real): real {
    var firstTrans := Transmission(expf, K, y);
    var refl := Reflection(A, x, y);
    var totalTrans := Transmission(expf, K, x) * firstTrans;
    var next := refl + (1.0 - refl) * totalTrans * sofar;
    if next > 1.0 then 1.0 else next
  }

  /** The running value after k passes of the loop. */
  function Sofar(sig: seq<real>, k: nat, A: real, K: real, expf: real -> real): real
    requires k < |sig|
  {
    if k == 0 then 1.0 else BadnessStep(A, K, expf, sig[k - 1], sig[k], Sofar(sig, k - 1, A, K, expf))
  }

  /** The constant A of badness: the scale of the partial reflections. */
  function ReflectionScale(fmin: real): real
    requires fmin != 0.0
  {
    0.0001 / fmin * 0.1 / fmin
  }

  /** The constant K of badness: the decay rate the transmissions are taken at. */
  function DecayRate(epsilon: real): real
    requires epsilon != 0.0
  {
    6.0 / epsilon * 2.25 / epsilon
  }

  /** The estimate for scale A and rate K: the loop's value blended with the
      reflection off the last layer. */
  function Estimate(sig: seq<real>, thickness: nat, A: real, K: real, expf: real -> real): real
    requires 1 <= thickness <= |sig|
  {
    var lastRefl := A * Abs(sig[thickness - 1]);
    lastRefl + (1.0 - lastRefl) * Sofar(sig, thickness - 1, A, K, expf)
  }

  /** The estimate badness(sig, thickness, epsilon, fmin) returns. */
  function BadnessOf(sig: seq<real>, thickness: int, epsilon: real, fmin: real, expf: real -> real): real
    requires thickness <= |sig|
    requires thickness >= 1 ==> fmin != 0.0 && epsilon != 0.0
  {
    if thickness < 1 then 1.0
    else Estimate(sig, thickness, ReflectionScale(fmin), DecayRate(epsilon), expf)
  }

  /** badness: an early return of 1 for a layer thinner than one cell, then an
      accumulation loop whose running value never exceeds 1. */
  method Badness(sig: array<real>, thickness: int, epsilon: real, fmin: real, expf: real -> real)
    returns (r: real)
    requires thickness <= sig.Length
    requires thickness >= 1 ==> fmin != 0.0 && epsilon != 0.0
    ensures r == BadnessOf(sig[..], thickness, epsilon, fmin, expf)
    ensures thickness < 1 ==> r == 1.0
  {
    if thickness < 1 {
      return 1.0;
    }
    var A := ReflectionScale(fmin);
    var K := DecayRate(epsilon);
    var sofar := 1.0;
    for i := 0 to thickness - 1
      invariant sofar == Sofar(sig[..], i, A, K, expf)
    {
      sofar := BadnessStep(A, K, expf, sig[i], sig[i + 1], sofar);
      assert sig[..][i] == sig[i] && sig[..][i + 1] == sig[i + 1];
    }
    var lastRefl := A * Abs(sig[thickness - 1]);
    sofar := lastRefl + (1.0 - lastRefl) * sofar;
    return sofar;
  }

  /** The running value is at most 1 after every pass. */
  lemma {:induction false} SofarAtMostOne(sig: seq<real>, k: nat, A: real, K: real, expf: real -> real)
    requires k < |sig|
    ensures Sofar(sig, k, A, K, expf) <= 1.0
  {
  }

  /** A product of two numbers in [0, 1] is in [0, 1] and at most either factor. */
  lemma UnitProduct(x: real, y: real)
    requires 0.0 <= x <= 1.0 && 0.0 <= y <= 1.0
    ensures 0.0 <= x * y <= x && x * y <= y
  {
  }

  /** Blending a reflection r in [0, 1] with a value in [0, 1] stays in [0, 1]. */
  lemma BlendInUnitInterval(r: real, x: real)
    requires 0.0 <= r <= 1.0 && 0.0 <= x <= 1.0
    ensures 0.0 <= r + (1.0 - r) * x <= 1.0
  {
    var keep := 1.0 - r;
    UnitProduct(keep, x);
    assert keep * x <= keep;
  }

  /** Where every layer reflects at most fully and every transmission lies in [0, 1],
      the running value stays in [0, 1]. */
  lemma {:induction false} SofarInUnitInterval(sig: seq<real>, k: nat, A: real, K: real, expf: real -> real)
    requires k < |sig|
    requires forall i :: 0 <= i < k ==> 0.0 <= LayerReflection(sig, i, A) <= 1.0
    requires forall i :: 0 <= i <= k ==> 0.0 <= Transmission(expf, K, sig[i]) <= 1.0
    ensures 0.0 <= Sofar(sig, k, A, K, expf) <= 1.0
  {
    if k > 0 {
      SofarInUnitInterval(sig, k - 1, A, K, expf);
      var s := Sofar(sig, k - 1, A, K, expf);
      var refl := LayerReflection(sig, k - 1, A);
      var t := Transmission(expf, K, sig[k - 1]) * Transmission(expf, K, sig[k]);
      UnitProduct(Transmission(expf, K, sig[k - 1]), Transmission(expf, K, sig[k]));
      UnitProduct(t, s);
      UnitProduct(1.0 - refl, t * s);
      assert (1.0 - refl) * t * s == (1.0 - refl) * (t * s);
    }
  }

  /** Under the same conditions, and a last layer that reflects at most fully, the
      estimate is a number in [0, 1]. */
  lemma EstimateInUnitInterval(sig: seq<real>, thickness: nat, A: real, K: real, expf: real -> real)
    requires 1 <= thickness <= |sig|
    requires forall i :: 0 <= i < thickness - 1 ==> 0.0 <= LayerReflection(sig, i, A) <= 1.0
    requires forall i :: 0 <= i < thickness ==> 0.0 <= Transmission(expf, K, sig[i]) <= 1.0
    requires 0.0 <= A * Abs(sig[thickness - 1]) <= 1.0
    ensures 0.0 <= Estimate(sig, thickness, A, K, expf) <= 1.0
  {
    SofarInUnitInterval(sig, thickness - 1, A, K, expf);
    BlendInUnitInterval(A * Abs(sig[thickness - 1]), Sofar(sig, thickness - 1, A, K, expf));
  }

  /** The same for the constants badness takes its estimate at. */
  lemma BadnessInUnitInterval(sig: seq<real>, thickness: int, epsilon: real, fmin: real, expf: real -> real)
    requires 1 <= thickness <= |sig| && fmin != 0.0 && epsilon != 0.0
    requires forall i :: 0 <= i < thickness - 1 ==> 0.0 <= LayerReflection(sig, i, ReflectionScale(fmin)) <= 1.0
    requires forall i :: 0 <= i < thickness ==> 0.0 <= Transmission(expf, DecayRate(epsilon), sig[i]) <= 1.0
    requires 0.0 <= ReflectionScale(fmin) * Abs(sig[thickness - 1]) <= 1.0
    ensures 0.0 <= BadnessOf(sig, thickness, epsilon, fmin, expf) <= 1.0
  {
    EstimateInUnitInterval(sig, thickness, ReflectionScale(fmin), DecayRate(epsilon), expf);
  }

  /** Without those conditions the estimate is not confined to [0, 1]: two equal layers
      of conductivity 10^6 give 10 - 9 t^2 for the one-layer transmission t, which
      exceeds 1 for every t below 1. */
  lemma BadnessMayExceedOne(expf: real -> real)
    requires 0.0 <= expf(-13500000.0) < 1.0
    ensures BadnessOf([1000000.0, 1000000.0], 2, 1.0, 1.0, expf) > 1.0
  {
    var sig := [1000000.0, 1000000.0];
    var t := expf(-13500000.0);
    assert LayerReflection(sig, 0, 0.00001) == 0.0;
    assert 0.0 <= t * t < 1.0 by {
      UnitProduct(t, t);
    }
    assert Sofar(sig, 1, 0.00001, 13.5, expf) == t * t;
  }
}
