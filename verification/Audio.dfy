/**
 Audio measurements: LongestSilenceMS (tests/verbs/helpers_test.go), and the running statistics and the square
 root of the audio pump (internal/sip/call.go).
 */
module Audio {
  import opened Basics

  /** The signed 16-bit little-endian sample at offset i. */
  function Sample(b: bytes, i: nat): (s: int)
    requires i + 2 <= |b|
    ensures -32768 <= s <= 32767
  {
    var lo: int, hi: int := b[i], b[i + 1];
    if hi < 128 then lo + 256 * hi else lo + 256 * hi - 65536
  }

  // ---- silence ----

  const FRAME_SAMPLES: nat := 80
  const FRAME_BYTES: nat := 160

  function Abs(s: int): int { if s < 0 then -s else s }

  /** Negating the smallest int16 wraps back to itself. */
  function WrappedAbs(s: int): int {
    if s == -32768 then -32768 else Abs(s)
  }

  function Frames(data: bytes): nat { |data| / 160 }

  function FrameSample(data: bytes, k: nat, i: nat): (s: int)
    requires k < Frames(data) && i < 80
    ensures -32768 <= s <= 32767
  {
    Sample(data, 160 * k + 2 * i)
  }

  /** The absolute peak of frame k is below the threshold. */
  ghost predicate Silent(data: bytes, k: nat, thresh: int)
    requires k < Frames(data)
  {
    0 < thresh && forall i :: 0 <= i < 80 ==> Abs(FrameSample(data, k, i)) < thresh
  }

  /** What the code takes for silent. */
  ghost predicate JudgedSilent(data: bytes, k: nat, thresh: int)
    requires k < Frames(data)
  {
    0 < thresh && forall i :: 0 <= i < 80 ==> WrappedAbs(FrameSample(data, k, i)) < thresh
  }

  ghost predicate Clipped(data: bytes, k: nat)
    requires k < Frames(data)
  {
    exists i :: 0 <= i < 80 && FrameSample(data, k, i) == -32768
  }

  /** A frame is misjudged exactly when it has a sample of -32768 and every other sample is below the threshold. */
  lemma MisjudgedIff(data: bytes, k: nat, thresh: int)
    requires k < Frames(data) && thresh <= 32767
    ensures JudgedSilent(data, k, thresh) != Silent(data, k, thresh) <==>
            0 < thresh && Clipped(data, k) &&
            forall i :: 0 <= i < 80 && FrameSample(data, k, i) != -32768 ==> Abs(FrameSample(data, k, i)) < thresh
  {
    if i :| 0 <= i < 80 && FrameSample(data, k, i) == -32768 {
      assert Abs(FrameSample(data, k, i)) == 32768;
    }
  }

  /** Frames i to i + n - 1 are all judged silent. */
  ghost predicate SilentRun(data: bytes, thresh: int, i: nat, n: nat) {
    i + n <= Frames(data) && forall k :: i <= k < i + n ==> JudgedSilent(data, k, thresh)
  }

  /** The same of frames that really are silent. */
  ghost predicate TrueRun(data: bytes, thresh: int, i: nat, n: nat) {
    i + n <= Frames(data) && forall k :: i <= k < i + n ==> Silent(data, k, thresh)
  }

  ghost predicate Unclipped(data: bytes) {
    forall k :: 0 <= k < Frames(data) ==> !Clipped(data, k)
  }

  lemma UnclippedRuns(data: bytes, thresh: int)
    requires Unclipped(data) && thresh <= 32767
    ensures forall i: nat, n: nat :: SilentRun(data, thresh, i, n) <==> TrueRun(data, thresh, i, n)
  {
    forall k | 0 <= k < Frames(data) ensures JudgedSilent(data, k, thresh) <==> Silent(data, k, thresh) {
      MisjudgedIff(data, k, thresh);
    }
  }

  /**
   Ten times the length of the longest run of frames judged silent: one that long exists and none is longer.
   Without samples of -32768 those are the longest runs of frames whose absolute peak is below the threshold.
   */
  method LongestSilenceMS(data: bytes, thresh: int) returns (ms: nat)
    requires -32768 <= thresh <= 32767
    ensures ms % 10 == 0
    ensures exists i: nat :: SilentRun(data, thresh, i, ms / 10)
    ensures forall i: nat, n: nat :: SilentRun(data, thresh, i, n) ==> 10 * n <= ms
    ensures Unclipped(data) ==> (exists i: nat :: TrueRun(data, thresh, i, ms / 10)) &&
                                forall i: nat, n: nat :: TrueRun(data, thresh, i, n) ==> 10 * n <= ms
  {
    ghost var unclipped := Unclipped(data);
    if unclipped {
      UnclippedRuns(data, thresh);
    }
    if |data| < FRAME_BYTES {
      ms := 0;
      assert SilentRun(data, thresh, 0, ms / 10);
      return;
    }
    var maxRun: nat, cur: nat, off: nat := 0, 0, 0;
    ghost var best: nat, k: nat := 0, 0; // the start of the longest run so far, and the frame at off
    while off + FRAME_BYTES <= |data|
      invariant off == 160 * k && k <= Frames(data)
      invariant cur <= maxRun && cur <= k && SilentRun(data, thresh, k - cur, cur)
      invariant cur < k ==> !JudgedSilent(data, k - cur - 1, thresh)
      invariant best + maxRun <= k && SilentRun(data, thresh, best, maxRun)
      invariant forall i: nat, n: nat :: SilentRun(data, thresh, i, n) && i + n <= k ==> n <= maxRun
      decreases |data| - off
    {
      var silent := JudgeFrame(data, off, k, thresh);
      if silent {
        cur := cur + 1;
        RunsEndingHere(data, thresh, k, cur, maxRun);
        if cur > maxRun {
          maxRun := cur;
          best := k + 1 - cur;
        }
      } else {
        cur := 0;
      }
      k := k + 1;
      off := off + FRAME_BYTES;
    }
    assert k == Frames(data) && maxRun * 10 / 10 == maxRun;
    return maxRun * 10;
  }

  /** A run that ends with frame k is no longer than the current one. */
  lemma RunsEndingHere(data: bytes, thresh: int, k: nat, cur: nat, maxRun: nat)
    requires k < Frames(data) && 1 <= cur <= k + 1 && cur - 1 <= maxRun
    requires cur - 1 < k ==> !JudgedSilent(data, k - cur, thresh)
    requires forall i: nat, n: nat :: SilentRun(data, thresh, i, n) && i + n <= k ==> n <= maxRun
    ensures forall i: nat, n: nat :: SilentRun(data, thresh, i, n) && i + n <= k + 1 ==> n <= if cur > maxRun then cur else maxRun
  {
    forall i: nat, n: nat | SilentRun(data, thresh, i, n) && i + n == k + 1 ensures n <= cur {
    }
  }

  /** The inner loop: the peak of one frame against the threshold. */
  method JudgeFrame(data: bytes, off: nat, ghost k: nat, thresh: int) returns (silent: bool)
    requires k < Frames(data) && off == 160 * k
    ensures silent <==> JudgedSilent(data, k, thresh)
  {
    var peak, i := 0, 0;
    ghost var j := 0;
    while i < FRAME_BYTES
      invariant i == 2 * j && 0 <= j <= 80 && 0 <= peak
      invariant peak < thresh <==> 0 < thresh && forall m :: 0 <= m < j ==> WrappedAbs(FrameSample(data, k, m)) < thresh
    {
      var s := Sample(data, off + i);
      assert s == FrameSample(data, k, j);
      if s < 0 {
        s := if s == -32768 then -32768 else -s; // int16 negation
      }
      if s > peak {
        peak := s;
      }
      i := i + 2;
      j := j + 1;
    }
    return peak < thresh;
  }

  // ---- square root ----

  function NewtonStep(v: real, g: real): real
    requires g > 0.0
  {
    (g + v / g) / 2.0
  }

  function Iterate(v: real, n: nat): (g: real)
    requires v > 0.0
    ensures g > 0.0
  {
    if n == 0 then v / 2.0 else NewtonStep(v, Iterate(v, n - 1))
  }

  method Sqrt(v: real) returns (g: real)
    ensures v <= 0.0 ==> g == 0.0
    ensures v > 0.0 ==> g == Iterate(v, 6)
  {
    if v <= 0.0 {
      return 0.0;
    }
    g := v / 2.0;
    for i := 0 to 6
      invariant g == Iterate(v, i)
    {
      g := (g + v / g) / 2.0;
    }
  }

  lemma DivideOut(a: real, b: real, c: real)
    requires c > 0.0 && a * c <= b * c
    ensures a <= b
  {
  }

  lemma StepError(v: real, r: real, g: real)
    requires g > 0.0 && r > 0.0 && r * r == v
    ensures (NewtonStep(v, g) - r) * (2.0 * g) == (g - r) * (g - r)
    ensures NewtonStep(v, g) >= r
    ensures g >= r ==> NewtonStep(v, g) - r <= (g - r) / 2.0
  {
    var g' := NewtonStep(v, g);
    assert v / g * g == v;
    assert 2.0 * g' * g == g * g + r * r;
    var e, d := g' - r, g - r;
    assert e * (2.0 * g) == d * d >= 0.0;
    DivideOut(0.0, e, 2.0 * g);
    if g >= r {
      assert d * d <= d * g == d / 2.0 * (2.0 * g);
      DivideOut(e, d / 2.0, 2.0 * g);
    }
  }

  lemma FirstGuess(v: real, r: real)
    requires v > 0.0 && r > 0.0 && r * r == v
    ensures Iterate(v, 1) - r == (r / 2.0 - 1.0) * (r / 2.0 - 1.0)
  {
    var g := v / 2.0;
    var e, h := NewtonStep(v, g) - r, r / 2.0 - 1.0;
    assert Iterate(v, 0) == g;
    StepError(v, r, g);
    assert g - r == r * h;
    assert e * v == (r * h) * (r * h);
    assert (r * h) * (r * h) == (h * h) * (r * r);
    DivideOut(e, h * h, v);
    DivideOut(h * h, e, v);
  }

  /** Six steps from v / 2 end between the root and the root plus (r / 2 - 1)^2 / 32, over exact reals. */
  lemma SixStepsBound(v: real, r: real)
    requires v > 0.0 && r > 0.0 && r * r == v
    ensures r <= Iterate(v, 6) <= r + (r / 2.0 - 1.0) * (r / 2.0 - 1.0) / 32.0
  {
    FirstGuess(v, r);
    StepError(v, r, Iterate(v, 0));
    StepError(v, r, Iterate(v, 1));
    StepError(v, r, Iterate(v, 2));
    StepError(v, r, Iterate(v, 3));
    StepError(v, r, Iterate(v, 4));
    StepError(v, r, Iterate(v, 5));
    var h := (r / 2.0 - 1.0) * (r / 2.0 - 1.0);
    Halvings(r, h, Iterate(v, 1), Iterate(v, 2), Iterate(v, 3), Iterate(v, 4), Iterate(v, 5), Iterate(v, 6));
  }

  lemma Halvings(r: real, h: real, g1: real, g2: real, g3: real, g4: real, g5: real, g6: real)
    requires g1 - r == h && g2 - r <= (g1 - r) / 2.0 && g3 - r <= (g2 - r) / 2.0 && g4 - r <= (g3 - r) / 2.0
    requires g5 - r <= (g4 - r) / 2.0 && g6 - r <= (g5 - r) / 2.0
    ensures g6 <= r + h / 32.0
  {
  }

  // ---- decisions that rest on the square root ----

  /** Six halvings are all that the loop can do: far from the root it is still far off. */
  lemma NeverBelowHalvings(v: real)
    requires v > 0.0
    ensures Iterate(v, 6) > v / 128.0
  {
    StepHalves(v, Iterate(v, 0));
    StepHalves(v, Iterate(v, 1));
    StepHalves(v, Iterate(v, 2));
    StepHalves(v, Iterate(v, 3));
    StepHalves(v, Iterate(v, 4));
    StepHalves(v, Iterate(v, 5));
  }

  lemma StepHalves(v: real, g: real)
    requires v > 0.0 && g > 0.0
    ensures NewtonStep(v, g) > g / 2.0
  {
    assert v / g > 0.0;
  }

  predicate AboveRoot(v: real, g: real) {
    g * g >= v
  }

  lemma SquareAbove(v: real, g: real)
    requires v > 0.0 && g > 0.0
    ensures AboveRoot(v, NewtonStep(v, g))
  {
    var q := v / g;
    assert q * g == v;
    var n, d := NewtonStep(v, g), (g - q) / 2.0;
    assert d * d >= 0.0;
    assert n - d == q && n + d == g;
    assert (n - d) * (n + d) == n * n - d * d;
  }

  /** Above the root a step is monotone, in the value and in the guess. */
  lemma StepMonotone(v: real, g: real, w: real, h: real)
    requires 0.0 < v <= w && 0.0 < g <= h && AboveRoot(v, g)
    ensures NewtonStep(v, g) <= NewtonStep(w, h)
  {
    var p, q := v / g, w / h;
    assert p * g == v && q * h == w;
    GapCloses(v, g, h, p, q);
  }

  lemma GapCloses(v: real, g: real, h: real, p: real, q: real)
    requires 0.0 < g <= h && p * g == v <= q * h && p <= g
    ensures p - q <= h - g
  {
    assert (p - q) * h == p * h - q * h <= p * h - p * g == p * (h - g);
    assert p * (h - g) <= h * (h - g);
    DivideOut(p - q, h - g, h);
  }

  lemma SecondGuess(v: real)
    requires v > 0.0
    ensures Iterate(v, 1) == v / 4.0 + 1.0 && AboveRoot(v, Iterate(v, 1))
  {
    assert Iterate(v, 0) == v / 2.0;
    assert v / (v / 2.0) == 2.0;
    SquareAbove(v, Iterate(v, 0));
  }

  lemma IterateAbove(v: real, n: nat)
    requires v > 0.0 && n > 0
    ensures AboveRoot(v, Iterate(v, n))
  {
    SquareAbove(v, Iterate(v, n - 1));
  }

  lemma {:induction false} IterateMonotone(v: real, w: real, n: nat)
    requires 0.0 < v <= w && n > 0
    ensures Iterate(v, n) <= Iterate(w, n)
  {
    if n == 1 {
      SecondGuess(v);
      SecondGuess(w);
    } else {
      IterateMonotone(v, w, n - 1);
      IterateAbove(v, n - 1);
      StepMonotone(v, Iterate(v, n - 1), w, Iterate(w, n - 1));
    }
  }

  /** The decision `rms > t` goes wrong: the root is no larger than t, what the loop computes is. */
  predicate Misjudges(v: real, t: real)
    requires v > 0.0
  {
    v <= t * t && Iterate(v, 6) > t
  }

  /** A decision can go wrong in one direction only, and goes wrong exactly from some mean square up to the square of the threshold. */
  lemma DecisionsWrongFromSomewhere(v: real, w: real, r: real, t: real)
    requires 0.0 < v && r > 0.0 && t > 0.0 && r * r == v
    ensures (Iterate(v, 6) > t) == (r > t) <==> !Misjudges(v, t)
    ensures Misjudges(v, t) && v <= w <= t * t ==> Misjudges(w, t)
  {
    SixStepsBound(v, r);
    assert r > t <==> v > t * t;
    if v <= w {
      IterateMonotone(v, w, 6);
    }
  }

  lemma StepBelow(v: real, g: real, u: real, u': real)
    requires v > 0.0 && 0.0 < g <= u && AboveRoot(v, g) && v <= u * (2.0 * u' - u)
    ensures NewtonStep(v, g) <= u' && AboveRoot(v, NewtonStep(v, g))
  {
    StepMonotone(v, g, v, u);
    SquareAbove(v, g);
    assert v / u * u == v;
    DivideOut(v / u, 2.0 * u' - u, u);
  }

  lemma StepAbove(v: real, g: real, l: real, l': real)
    requires v > 0.0 && 0.0 < l <= g && AboveRoot(v, l) && v >= l * (2.0 * l' - l)
    ensures NewtonStep(v, g) >= l'
  {
    StepMonotone(v, l, v, g);
    assert v / l * l == v;
    DivideOut(2.0 * l' - l, v / l, l);
  }

  /** The limit of 200 for a silent recording is in truth one of a root mean square between sqrt(20411) and sqrt(20412), about 142.9. */
  lemma SilenceLimit(v: real)
    requires v > 0.0
    ensures v <= 20411.0 ==> Iterate(v, 6) < 200.0
    ensures v >= 20412.0 ==> Iterate(v, 6) > 200.0
    ensures 20412.0 <= v <= 40000.0 ==> Misjudges(v, 200.0)
    ensures v <= 20411.0 || v > 40000.0 ==> !Misjudges(v, 200.0)
  {
    if v <= 20411.0 {
      BelowLimit();
      IterateMonotone(v, 20411.0, 6);
    }
    if v >= 20412.0 {
      AboveLimit();
      IterateMonotone(20412.0, v, 6);
    }
  }

  lemma BelowLimit()
    ensures Iterate(20411.0, 6) < 200.0
  {
    SecondGuess(20411.0);
    StepBelow(20411.0, Iterate(20411.0, 1), 5103.75, 2553.87461);
    StepBelow(20411.0, Iterate(20411.0, 2), 2553.87461, 1280.93339);
    StepBelow(20411.0, Iterate(20411.0, 3), 1280.93339, 648.43394);
    StepBelow(20411.0, Iterate(20411.0, 4), 648.43394, 339.95566);
    StepBelow(20411.0, Iterate(20411.0, 5), 339.95566, 199.99793);
  }

  lemma AboveLimit()
    ensures Iterate(20412.0, 6) > 200.0
  {
    SecondGuess(20412.0);
    StepAbove(20412.0, Iterate(20412.0, 1), 5104.0, 2553.9996);
    StepAbove(20412.0, Iterate(20412.0, 2), 2553.9996, 1280.99588);
    StepAbove(20412.0, Iterate(20412.0, 3), 1280.99588, 648.46517);
    StepAbove(20412.0, Iterate(20412.0, 4), 648.46517, 339.97128);
    StepAbove(20412.0, Iterate(20412.0, 5), 339.97128, 200.00582);
  }

  // ---- running statistics ----

  datatype Totals = Totals(byteCount: nat, samples: nat, sumSq: int)

  function SumSq(b: bytes): int {
    if |b| < 2 then 0 else Sample(b, 0) * Sample(b, 0) + SumSq(b[2..])
  }

  function Measure(b: bytes): Totals {
    Totals(|b|, |b| / 2, SumSq(b))
  }

  function Plus(a: Totals, b: Totals): Totals {
    Totals(a.byteCount + b.byteCount, a.samples + b.samples, a.sumSq + b.sumSq)
  }

  /** What the pump has after reading the audio in these pieces. */
  function MeasureReads(pieces: seq<bytes>): Totals {
    if pieces == [] then Totals(0, 0, 0) else Plus(Measure(pieces[0]), MeasureReads(pieces[1..]))
  }

  function Flatten(pieces: seq<bytes>): bytes {
    if pieces == [] then [] else pieces[0] + Flatten(pieces[1..])
  }

  function Lengths(pieces: seq<bytes>): (ns: seq<nat>)
    ensures |ns| == |pieces|
  {
    if pieces == [] then [] else [|pieces[0]|] + Lengths(pieces[1..])
  }

  predicate AllZero(ns: seq<nat>) {
    forall i :: 0 <= i < |ns| ==> ns[i] == 0
  }

  /** Every read that another non-empty read follows has an even length. */
  predicate Aligned(ns: seq<nat>) {
    ns == [] || ((ns[0] % 2 == 0 || AllZero(ns[1..])) && Aligned(ns[1..]))
  }

  lemma {:induction false} EmptyIsAligned(ns: seq<nat>)
    ensures AllZero(ns) ==> Aligned(ns)
  {
    if ns != [] {
      EmptyIsAligned(ns[1..]);
    }
  }

  lemma {:induction false} SumSqConcat(a: bytes, b: bytes)
    requires |a| % 2 == 0
    ensures SumSq(a + b) == SumSq(a) + SumSq(b)
    decreases |a|
  {
    if a == [] {
      assert a + b == b;
    } else {
      assert (a + b)[2..] == a[2..] + b;
      SumSqConcat(a[2..], b);
    }
  }

  lemma {:induction false} EmptyReads(pieces: seq<bytes>)
    requires AllZero(Lengths(pieces))
    ensures Flatten(pieces) == [] && MeasureReads(pieces) == Totals(0, 0, 0)
  {
    if pieces != [] {
      assert Lengths(pieces)[0] == 0;
      assert forall i :: 0 <= i < |pieces| - 1 ==> Lengths(pieces[1..])[i] == Lengths(pieces)[i + 1];
      EmptyReads(pieces[1..]);
    }
  }

  lemma {:induction false} AlignedReadsAgree(pieces: seq<bytes>)
    requires Aligned(Lengths(pieces))
    ensures MeasureReads(pieces) == Measure(Flatten(pieces))
  {
    if pieces != [] {
      assert Lengths(pieces)[1..] == Lengths(pieces[1..]);
      AlignedReadsAgree(pieces[1..]);
      if |pieces[0]| % 2 == 0 {
        SumSqConcat(pieces[0], Flatten(pieces[1..]));
      } else {
        EmptyReads(pieces[1..]);
        assert Flatten(pieces) == pieces[0];
      }
    }
  }

  function Zeros(n: nat): (b: bytes)
    ensures |b| == n && forall i :: 0 <= i < n ==> b[i] == 0
  {
    if n == 0 then [] else Zeros(n - 1) + [0]
  }

  function ZeroReads(ns: seq<nat>): (pieces: seq<bytes>)
    ensures Lengths(pieces) == ns
  {
    if ns == [] then [] else [Zeros(ns[0])] + ZeroReads(ns[1..])
  }

  lemma {:induction false} SumSqZeros(b: bytes)
    requires forall i :: 0 <= i < |b| ==> b[i] == 0
    ensures SumSq(b) == 0
    decreases |b|
  {
    if |b| >= 2 {
      SumSqZeros(b[2..]);
    }
  }

  lemma {:induction false} ZeroReadsAreZero(ns: seq<nat>)
    ensures MeasureReads(ZeroReads(ns)).sumSq == 0
    ensures forall i :: 0 <= i < |Flatten(ZeroReads(ns))| ==> Flatten(ZeroReads(ns))[i] == 0
    ensures !AllZero(ns) ==> Flatten(ZeroReads(ns)) != []
  {
    if ns != [] {
      SumSqZeros(Zeros(ns[0]));
      ZeroReadsAreZero(ns[1..]);
      assert ZeroReads(ns)[1..] == ZeroReads(ns[1..]);
      assert Flatten(ZeroReads(ns)) == Zeros(ns[0]) + Flatten(ZeroReads(ns[1..]));
      if !AllZero(ns) && ns[0] == 0 {
        var i :| 0 <= i < |ns| && ns[i] != 0;
        assert ns[1..][i - 1] != 0;
      }
    }
  }

  /** Reads of these lengths over which the sum of squares goes wrong. */
  function Misread(ns: seq<nat>): (pieces: seq<bytes>)
    requires !Aligned(ns)
    ensures Lengths(pieces) == ns
  {
    if ns[0] % 2 == 1 && !AllZero(ns[1..]) then [Zeros(ns[0] - 1) + [1]] + ZeroReads(ns[1..])
    else [Zeros(ns[0])] + Misread(ns[1..])
  }

  lemma OneThenZeros(rest: bytes)
    requires rest != [] && forall i :: 0 <= i < |rest| ==> rest[i] == 0
    ensures SumSq([1] + rest) == 1
  {
    assert ([1] + rest)[2..] == rest[1..];
    SumSqZeros(rest[1..]);
    assert Sample([1] + rest, 0) == 1;
  }

  /** An odd read that ends with a one, with silence around it: the one is lost, but the whole audio has it. */
  lemma LostByte(m: nat, rest: bytes)
    requires m % 2 == 0 && rest != [] && forall i :: 0 <= i < |rest| ==> rest[i] == 0
    ensures SumSq(Zeros(m) + [1]) == 0 && SumSq(Zeros(m) + [1] + rest) == 1
  {
    SumSqZeros(Zeros(m));
    SumSqConcat(Zeros(m), [1]);
    assert SumSq([1]) == 0;
    OneLater(Zeros(m), rest);
  }

  lemma OneLater(z: bytes, rest: bytes)
    requires |z| % 2 == 0 && SumSq(z) == 0
    requires rest != [] && forall i :: 0 <= i < |rest| ==> rest[i] == 0
    ensures SumSq(z + [1] + rest) == 1
  {
    SumSqConcat(z, [1] + rest);
    OneThenZeros(rest);
    assert z + [1] + rest == z + ([1] + rest);
  }

  lemma {:induction false} MisreadDiffers(ns: seq<nat>)
    requires !Aligned(ns)
    ensures MeasureReads(Misread(ns)).sumSq != SumSq(Flatten(Misread(ns)))
  {
    if ns[0] % 2 == 1 && !AllZero(ns[1..]) {
      var rest := ZeroReads(ns[1..]);
      ZeroReadsAreZero(ns[1..]);
      LostByte(ns[0] - 1, Flatten(rest));
      OneMore(Zeros(ns[0] - 1) + [1], rest);
    } else {
      var rest := Misread(ns[1..]);
      EmptyIsAligned(ns[1..]);
      MisreadDiffers(ns[1..]);
      OneMore(Zeros(ns[0]), rest);
      SumSqConcat(Zeros(ns[0]), Flatten(rest));
    }
  }

  lemma OneMore(first: bytes, rest: seq<bytes>)
    ensures MeasureReads([first] + rest).sumSq == SumSq(first) + MeasureReads(rest).sumSq
    ensures Flatten([first] + rest) == first + Flatten(rest)
  {
    assert ([first] + rest)[1..] == rest;
  }

  ghost predicate AlwaysAgree(ns: seq<nat>) {
    forall pieces :: Lengths(pieces) == ns ==> MeasureReads(pieces) == Measure(Flatten(pieces))
  }

  /** The running totals are those of the whole audio, whatever it says, exactly when no odd read has a read after it. */
  lemma TotalsAgreeIffAligned(ns: seq<nat>)
    ensures AlwaysAgree(ns) <==> Aligned(ns)
  {
    if Aligned(ns) {
      forall pieces | Lengths(pieces) == ns ensures MeasureReads(pieces) == Measure(Flatten(pieces)) {
        AlignedReadsAgree(pieces);
      }
    } else {
      MisreadDiffers(ns);
      assert Lengths(Misread(ns)) == ns;
    }
  }

  class Statistics {
    var pcmBytesIn: nat
    var samplesIn: nat
    var sumSqIn: int
    var rmsIn: real

    ghost function View(): Totals
      reads this
    {
      Totals(pcmBytesIn, samplesIn, sumSqIn)
    }

    constructor ()
      ensures View() == Totals(0, 0, 0) && rmsIn == 0.0
    {
      pcmBytesIn, samplesIn, sumSqIn, rmsIn := 0, 0, 0, 0.0;
    }

    /** One read of the pump. */
    method Absorb(buf: bytes)
      modifies this
      ensures View() == Plus(old(View()), Measure(buf))
      ensures buf == [] ==> rmsIn == old(rmsIn)
      ensures buf != [] && samplesIn > 0 ==>
                rmsIn == var v := sumSqIn as real / samplesIn as real; if v <= 0.0 then 0.0 else Iterate(v, 6)
    {
      var n := |buf|;
      if n > 0 {
        pcmBytesIn := pcmBytesIn + n;
        var i := 0;
        while i + 1 < n
          invariant i % 2 == 0 && i <= n
          invariant samplesIn == old(samplesIn) + i / 2
          invariant sumSqIn + SumSq(buf[i..]) == old(sumSqIn) + SumSq(buf)
          invariant pcmBytesIn == old(pcmBytesIn) + n
        {
          var s := Sample(buf, i);
          assert buf[i..][2..] == buf[i + 2..];
          sumSqIn := sumSqIn + s * s;
          samplesIn := samplesIn + 1;
          i := i + 2;
        }
        if samplesIn > 0 {
          rmsIn := Sqrt(sumSqIn as real / samplesIn as real);
        }
      }
    }
  }
}
