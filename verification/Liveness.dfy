/**
 * The liveness challenges judged over a list of camera frames, and the pixel measures taken from one
 * image. Measurements are exact reals: rounding is not modelled.
 */
module Liveness {
  import opened ByteScan

  // ---------------------------------------------------------------- blinks

  datatype Frame = Frame(ear: real, smileRatio: real, yaw: real, pitch: real, detected: bool)
  datatype Eye = Shut | Open | Between

  /** The eye ratio against the neutral one: below 0.6 is shut, above 0.85 is open. */
  function EyeOf(f: Frame, baselineEar: real): Eye
    requires baselineEar >= 0.0
  {
    var ratio := f.ear / (0.0001 + baselineEar);
    if ratio < 0.6 then Shut else if ratio > 0.85 then Open else Between
  }

  datatype Blinks = Blinks(count: nat, inBlink: bool)

  function Blink(b: Blinks, e: Eye): Blinks {
    if e == Shut && !b.inBlink then Blinks(b.count + 1, true)
    else if e == Open && b.inBlink then b.(inBlink := false)
    else b
  }

  function CountBlinks(eyes: seq<Eye>): Blinks {
    if eyes == [] then Blinks(0, false) else Blink(CountBlinks(eyes[..|eyes| - 1]), eyes[|eyes| - 1])
  }

  /** Moments in order at which the eye is in turn shut, open, shut and so on. */
  predicate Alternates(eyes: seq<Eye>, moments: seq<int>) {
    && (forall k :: 0 <= k < |moments| ==> 0 <= moments[k] < |eyes|)
    && (forall k :: 0 <= k < |moments| ==> eyes[moments[k]] == (if k % 2 == 0 then Shut else Open))
    && (forall k, l :: 0 <= k < l < |moments| ==> moments[k] < moments[l])
  }

  /** The moments the counting itself notices. */
  function Noticed(b: Blinks): nat
    requires b.inBlink ==> b.count > 0
  {
    if b.inBlink then 2 * b.count - 1 else 2 * b.count
  }

  lemma {:induction false} InBlinkMeansCounted(eyes: seq<Eye>)
    ensures CountBlinks(eyes).inBlink ==> CountBlinks(eyes).count > 0
  {
    if eyes != [] { InBlinkMeansCounted(eyes[..|eyes| - 1]); }
  }

  /** No alternation is longer than what the counting notices. */
  lemma {:induction false} NoLongerAlternation(eyes: seq<Eye>, moments: seq<int>)
    requires Alternates(eyes, moments)
    ensures CountBlinks(eyes).inBlink ==> CountBlinks(eyes).count > 0
    ensures |moments| <= Noticed(CountBlinks(eyes))
    decreases |eyes|
  {
    InBlinkMeansCounted(eyes);
    if eyes != [] {
      var front, last := eyes[..|eyes| - 1], |eyes| - 1;
      InBlinkMeansCounted(front);
      if moments != [] && moments[|moments| - 1] == last {
        var before := moments[..|moments| - 1];
        assert forall k :: 0 <= k < |before| ==> before[k] == moments[k] && moments[k] < moments[|moments| - 1];
        NoLongerAlternation(front, before);
        assert eyes[last] == if |before| % 2 == 0 then Shut else Open;
      } else {
        assert forall k :: 0 <= k < |moments| ==> moments[k] <= moments[|moments| - 1];
        assert forall k :: 0 <= k < |moments| ==> moments[k] < last && front[moments[k]] == eyes[moments[k]];
        NoLongerAlternation(front, moments);
      }
    }
  }

  /** What the counting notices is an alternation. */
  lemma {:induction false} NoticedIsAnAlternation(eyes: seq<Eye>) returns (moments: seq<int>)
    ensures Alternates(eyes, moments)
    ensures CountBlinks(eyes).inBlink ==> CountBlinks(eyes).count > 0
    ensures |moments| == Noticed(CountBlinks(eyes))
  {
    if eyes == [] {
      moments := [];
    } else {
      var front, last := eyes[..|eyes| - 1], |eyes| - 1;
      moments := NoticedIsAnAlternation(front);
      assert forall k :: 0 <= k < |moments| ==> front[moments[k]] == eyes[moments[k]];
      if CountBlinks(eyes) != CountBlinks(front) {
        moments := moments + [last];
      }
    }
  }

  ghost predicate CanBlink(eyes: seq<Eye>, n: nat) {
    exists moments: seq<int> :: Alternates(eyes, moments) && |moments| >= 2 * n - 1
  }

  /**
   * The hysteresis counts as many blinks as any choice of frames can show: at least `n` are counted
   * exactly when there are `n` shut frames with an open one between each two of them.
   */
  lemma CountsEveryBlink(eyes: seq<Eye>, n: nat)
    requires n > 0
    ensures CountBlinks(eyes).count >= n <==> CanBlink(eyes, n)
  {
    InBlinkMeansCounted(eyes);
    if CountBlinks(eyes).count >= n {
      var moments := NoticedIsAnAlternation(eyes);
    }
    if CanBlink(eyes, n) {
      var moments: seq<int> :| Alternates(eyes, moments) && |moments| >= 2 * n - 1;
      NoLongerAlternation(eyes, moments);
    }
  }

  lemma OneBlinkIsOneShutFrame(eyes: seq<Eye>)
    ensures CountBlinks(eyes).count >= 1 <==> Shut in eyes
  {
    CountsEveryBlink(eyes, 1);
    if i :| 0 <= i < |eyes| && eyes[i] == Shut {
      assert Alternates(eyes, [i]);
    }
    if CanBlink(eyes, 1) {
      var moments: seq<int> :| Alternates(eyes, moments) && |moments| >= 2 * 1 - 1;
      assert eyes[moments[0]] == Shut;
    }
  }

  function Eyes(frames: seq<Frame>, baselineEar: real): seq<Eye>
    requires baselineEar >= 0.0
  {
    seq(|frames|, i requires 0 <= i < |frames| => EyeOf(frames[i], baselineEar))
  }

  // ---------------------------------------------------------------- the challenges

  datatype Challenge = BLINK | SMILE | TILT_LEFT | TILT_RIGHT | NOD

  function Detected(frames: seq<Frame>): (r: seq<Frame>)
    ensures forall f :: f in r <==> f in frames && f.detected
  {
    if frames == [] then []
    else if frames[0].detected then [frames[0]] + Detected(frames[1..])
    else Detected(frames[1..])
  }

  function Pitches(frames: seq<Frame>): seq<real> {
    seq(|frames|, i requires 0 <= i < |frames| => frames[i].pitch)
  }

  /** What each challenge asks of the detected frames. */
  predicate Passes(frames: seq<Frame>, baseline: Frame, c: Challenge)
    requires frames != [] && baseline.ear >= 0.0 && baseline.smileRatio >= 0.0
  {
    match c
    case BLINK => exists f :: f in frames && f.ear / (0.0001 + baseline.ear) < 0.6
    case SMILE => exists f :: f in frames && f.smileRatio / (0.001 + baseline.smileRatio) >= 1.6
    case TILT_LEFT => exists f :: f in frames && f.yaw <= -0.07
    case TILT_RIGHT => exists f :: f in frames && f.yaw >= 0.07
    case NOD => Variance(Pitches(frames)) > 0.015 * 0.015 || exists f, g :: f in frames && g in frames && f.pitch - g.pitch > 0.04
  }

  /** The judgement: at least two frames with a face, and what the challenge asks of them. */
  method VerifyLivenessChallenge(baseline: Frame, frames: seq<Frame>, c: Challenge) returns (passed: bool)
    requires baseline.ear >= 0.0 && baseline.smileRatio >= 0.0
    ensures passed <==> |Detected(frames)| >= 2 && Passes(Detected(frames), baseline, c)
  {
    var detected := Detected(frames);
    if |detected| < 2 { return false; }
    match c
    case BLINK => passed := VerifyBlink(detected, baseline.ear);
    case SMILE => passed := VerifySmile(detected, baseline.smileRatio);
    case TILT_LEFT => passed := VerifyTiltLeft(detected);
    case TILT_RIGHT => passed := VerifyTiltRight(detected);
    case NOD => passed := VerifyNod(detected);
  }

  method VerifyTiltLeft(frames: seq<Frame>) returns (passed: bool)
    ensures passed <==> exists f :: f in frames && f.yaw <= -0.07
  {
    var minYaw := 0.0;
    for i := 0 to |frames|
      invariant minYaw <= -0.07 <==> exists f :: f in frames[..i] && f.yaw <= -0.07
    {
      assert frames[..i + 1] == frames[..i] + [frames[i]];
      if frames[i].yaw < minYaw { minYaw := frames[i].yaw; }
    }
    assert frames[..|frames|] == frames;
    passed := minYaw <= -0.07;
  }

  method VerifyTiltRight(frames: seq<Frame>) returns (passed: bool)
    ensures passed <==> exists f :: f in frames && f.yaw >= 0.07
  {
    var maxYaw := 0.0;
    for i := 0 to |frames|
      invariant maxYaw >= 0.07 <==> exists f :: f in frames[..i] && f.yaw >= 0.07
    {
      assert frames[..i + 1] == frames[..i] + [frames[i]];
      if frames[i].yaw > maxYaw { maxYaw := frames[i].yaw; }
    }
    assert frames[..|frames|] == frames;
    passed := maxYaw >= 0.07;
  }

  method VerifyBlink(frames: seq<Frame>, baselineEar: real) returns (passed: bool)
    requires baselineEar >= 0.0
    ensures passed <==> CountBlinks(Eyes(frames, baselineEar)).count >= 1
    ensures passed <==> exists f :: f in frames && f.ear / (0.0001 + baselineEar) < 0.6
  {
    var blinkCount, inBlink := 0, false;
    ghost var eyes := Eyes(frames, baselineEar);
    for i := 0 to |frames|
      invariant Blinks(blinkCount, inBlink) == CountBlinks(eyes[..i])
    {
      assert eyes[..i + 1][..i] == eyes[..i];
      var ratio := frames[i].ear / (0.0001 + baselineEar);
      if ratio < 0.6 && !inBlink {
        inBlink := true;
        blinkCount := blinkCount + 1;
      } else if ratio > 0.85 && inBlink {
        inBlink := false;
      }
    }
    assert eyes[..|frames|] == eyes;
    OneBlinkIsOneShutFrame(eyes);
    ShutIsLow(frames, baselineEar);
    passed := blinkCount >= 1;
  }

  lemma ShutIsLow(frames: seq<Frame>, baselineEar: real)
    requires baselineEar >= 0.0
    ensures Shut in Eyes(frames, baselineEar) <==> exists f :: f in frames && f.ear / (0.0001 + baselineEar) < 0.6
  {
    var eyes := Eyes(frames, baselineEar);
    if Shut in eyes {
      var i :| 0 <= i < |eyes| && eyes[i] == Shut;
      assert frames[i] in frames;
    }
    if f :| f in frames && f.ear / (0.0001 + baselineEar) < 0.6 {
      var i :| 0 <= i < |frames| && frames[i] == f;
      assert eyes[i] == Shut;
    }
  }

  method VerifySmile(frames: seq<Frame>, baseline: real) returns (passed: bool)
    requires baseline >= 0.0
    ensures passed <==> exists f :: f in frames && f.smileRatio / (0.001 + baseline) >= 1.6
  {
    var maxSmile := 0.0;
    for i := 0 to |frames|
      invariant maxSmile == 0.0 || exists f :: f in frames[..i] && f.smileRatio == maxSmile
      invariant maxSmile >= 0.0 && forall f :: f in frames[..i] ==> f.smileRatio <= maxSmile
    {
      assert frames[..i + 1] == frames[..i] + [frames[i]];
      if frames[i].smileRatio > maxSmile { maxSmile := frames[i].smileRatio; }
    }
    assert frames[..|frames|] == frames;
    var d := 0.001 + baseline;
    passed := maxSmile / d >= 1.6;
    forall f | f in frames ensures f.smileRatio / d >= 1.6 ==> maxSmile / d >= 1.6 {
      DividingKeepsOrder(f.smileRatio, maxSmile, d);
    }
  }

  lemma DividingKeepsOrder(x: real, y: real, d: real)
    requires x <= y && d > 0.0
    ensures x / d <= y / d
  {
    assert y / d == x / d + (y - x) / d;
    assert (y - x) / d >= 0.0;
  }

  method VerifyNod(frames: seq<Frame>) returns (passed: bool)
    requires frames != []
    ensures passed <==> || Variance(Pitches(frames)) > 0.015 * 0.015
                        || exists f, g :: f in frames && g in frames && f.pitch - g.pitch > 0.04
  {
    var pitches := Pitches(frames);
    var sum := SumUp(pitches);
    var mean := sum / |pitches| as real;
    var squares := 0.0;
    for i := 0 to |pitches|
      invariant squares == Deviations(pitches[..i], mean)
    {
      assert pitches[..i + 1][..i] == pitches[..i];
      squares := squares + (pitches[i] - mean) * (pitches[i] - mean);
    }
    assert pitches[..|pitches|] == pitches;
    var least, most := Extremes(frames);
    passed := squares / |pitches| as real > 0.015 * 0.015 || most - least > 0.04;
  }

  method SumUp(xs: seq<real>) returns (sum: real)
    ensures sum == Sum(xs)
  {
    sum := 0.0;
    for i := 0 to |xs|
      invariant sum == Sum(xs[..i])
    {
      assert xs[..i + 1][..i] == xs[..i];
      sum := sum + xs[i];
    }
    assert xs[..|xs|] == xs;
  }

  method Extremes(frames: seq<Frame>) returns (least: real, most: real)
    requires frames != []
    ensures forall f :: f in frames ==> least <= f.pitch <= most
    ensures (exists f :: f in frames && f.pitch == most) && (exists f :: f in frames && f.pitch == least)
  {
    least, most := frames[0].pitch, frames[0].pitch;
    for i := 0 to |frames|
      invariant forall k :: 0 <= k < i ==> least <= frames[k].pitch <= most
      invariant (exists f :: f in frames && f.pitch == most) && (exists f :: f in frames && f.pitch == least)
    {
      if frames[i].pitch > most { most := frames[i].pitch; }
      if frames[i].pitch < least { least := frames[i].pitch; }
    }
  }

  // ---------------------------------------------------------------- spread

  function Sum(xs: seq<real>): real {
    if xs == [] then 0.0 else Sum(xs[..|xs| - 1]) + xs[|xs| - 1]
  }

  function Square(x: real): real {
    x * x
  }

  /** The squared distances from a point, added up. */
  function Deviations(xs: seq<real>, m: real): real {
    if xs == [] then 0.0 else Deviations(xs[..|xs| - 1], m) + Square(xs[|xs| - 1] - m)
  }

  function Mean(xs: seq<real>): real
    requires |xs| > 0
  {
    Sum(xs) / |xs| as real
  }

  /** The mean squared distance from the mean. */
  function Variance(xs: seq<real>): real
    requires |xs| > 0
  {
    Deviations(xs, Mean(xs)) / |xs| as real
  }

  lemma SquaresAreNonNegative(x: real)
    ensures x == 0.0 ==> Square(x) == 0.0
    ensures x != 0.0 ==> Square(x) > 0.0
  {
    if x > 0.0 {
      PositiveProduct(x, x);
    } else if x < 0.0 {
      PositiveProduct(-x, -x);
      assert Square(x) == Times(-x, -x);
    }
  }

  lemma PositiveProduct(a: real, b: real)
    requires a > 0.0 && b > 0.0
    ensures Times(a, b) > 0.0
  {}

  lemma {:induction false} DeviationsAreNonNegative(xs: seq<real>, m: real)
    ensures Deviations(xs, m) >= 0.0
    ensures Deviations(xs, m) == 0.0 <==> forall i :: 0 <= i < |xs| ==> xs[i] == m
  {
    if xs != [] {
      var front, d := xs[..|xs| - 1], xs[|xs| - 1] - m;
      DeviationsAreNonNegative(front, m);
      SquaresAreNonNegative(d);
      if Deviations(xs, m) == 0.0 {
        assert d == 0.0;
        assert forall i :: 0 <= i < |front| ==> xs[i] == front[i];
      }
    }
  }

  /** A product kept whole, so that sums of products stay linear. */
  function Times(a: real, b: real): real {
    a * b
  }

  lemma TimesDistributes(a: real, b: real, c: real)
    ensures Times(a, b + c) == Times(a, b) + Times(a, c)
    ensures Times(b + c, a) == Times(b, a) + Times(c, a)
  {}

  lemma SquareOfDifference(x: real, m: real)
    ensures Square(x - m) == Square(x) - 2.0 * Times(m, x) + Square(m)
  {}

  /** The squared distances from a point, by the squares, the sum and the count. */
  lemma {:induction false} DeviationsExpand(xs: seq<real>, m: real, n: real)
    requires n == |xs| as real
    ensures Deviations(xs, m) == Deviations(xs, 0.0) - 2.0 * Times(m, Sum(xs)) + Times(n, Square(m))
  {
    if xs == [] {
      assert Times(m, 0.0) == 0.0 && Times(0.0, Square(m)) == 0.0;
    } else {
      var front, x := xs[..|xs| - 1], xs[|xs| - 1];
      DeviationsExpand(front, m, n - 1.0);
      SquareOfDifference(x, m);
      TimesDistributes(m, Sum(front), x);
      TimesDistributes(Square(m), n - 1.0, 1.0);
      assert Times(1.0, Square(m)) == Square(m) && x - 0.0 == x && n - 1.0 + 1.0 == n;
    }
  }

  /** The expansion around the mean. */
  lemma DeviationsAroundMean(xs: seq<real>, n: real)
    requires |xs| > 0 && n == |xs| as real
    ensures Deviations(xs, Mean(xs)) == Deviations(xs, 0.0) - Times(n, Square(Mean(xs)))
  {
    DeviationsExpand(xs, Mean(xs), n);
    MeanTimesSum(Sum(xs), n, Mean(xs));
  }

  lemma MeanTimesSum(sum: real, n: real, m: real)
    requires n > 0.0 && m == sum / n
    ensures Times(m, sum) == Times(n, Square(m))
  {
    assert sum == m * n;
    assert m * (m * n) == n * (m * m);
  }

  lemma DividedByCount(d: real, d0: real, n: real, m: real, v: real)
    requires n > 0.0 && d == d0 - Times(n, Square(m)) && v == d / n
    ensures d0 / n - m * m == v
  {
    assert d0 / n * n == d0;
    assert (d0 / n - m * m) * n == d0 - n * (m * m);
  }

  /** The form computed from running sums is the mean squared distance, so it is never negative. */
  lemma RunningSumsGiveVariance(xs: seq<real>, n: real)
    requires |xs| > 0 && n == |xs| as real
    ensures Deviations(xs, 0.0) / n - Mean(xs) * Mean(xs) == Variance(xs) >= 0.0
  {
    VarianceIsNonNegative(xs);
    DeviationsAroundMean(xs, n);
    DividedByCount(Deviations(xs, Mean(xs)), Deviations(xs, 0.0), n, Mean(xs), Variance(xs));
  }

  lemma VarianceIsNonNegative(xs: seq<real>)
    requires |xs| > 0
    ensures Variance(xs) >= 0.0
  {
    DeviationsAreNonNegative(xs, Mean(xs));
  }

  /** No spread means every value is the same. */
  lemma NoVarianceExactly(xs: seq<real>)
    requires |xs| > 0
    ensures Variance(xs) == 0.0 <==> forall i, j :: 0 <= i < |xs| && 0 <= j < |xs| ==> xs[i] == xs[j]
  {
    var m := Mean(xs);
    DeviationsAreNonNegative(xs, m);
    if Variance(xs) == 0.0 {
      assert Deviations(xs, m) == Variance(xs) * |xs| as real;
    }
    if forall i, j :: 0 <= i < |xs| && 0 <= j < |xs| ==> xs[i] == xs[j] {
      EqualValuesSum(xs, xs[0]);
      assert m == xs[0];
    }
  }

  lemma {:induction false} EqualValuesSum(xs: seq<real>, v: real)
    requires forall i :: 0 <= i < |xs| ==> xs[i] == v
    ensures Sum(xs) == |xs| as real * v
  {
    if xs != [] {
      EqualValuesSum(xs[..|xs| - 1], v);
      assert ((|xs| - 1) as real + 1.0) * v == (|xs| - 1) as real * v + v;
    }
  }

  // ---------------------------------------------------------------- pixels

  predicate CopiesPixel(rgb: seq<Byte>, rgba: seq<Byte>, k: int)
    requires 0 <= k && 3 * k + 3 <= |rgb| && 4 * k + 4 <= |rgba|
  {
    rgb[3 * k] == rgba[4 * k] && rgb[3 * k + 1] == rgba[4 * k + 1] && rgb[3 * k + 2] == rgba[4 * k + 2]
  }

  /** Red, green and blue of every pixel, without the fourth channel. */
  method ImageDataToGrid(data: array<Byte>, pixels: nat) returns (out: array<Byte>)
    requires data.Length == 4 * pixels
    ensures fresh(out) && out.Length == 3 * pixels
    ensures forall k :: 0 <= k < pixels ==> CopiesPixel(out[..], data[..], k)
  {
    out := new Byte[3 * pixels](_ => 0);
    var i, j := 0, 0;
    ghost var k := 0;
    while i < data.Length
      invariant 0 <= k <= pixels && i == 4 * k && j == 3 * k
      invariant forall p :: 0 <= p < k ==> CopiesPixel(out[..], data[..], p)
    {
      ghost var before := out[..];
      out[j], out[j + 1], out[j + 2] := data[i], data[i + 1], data[i + 2];
      forall p | 0 <= p < k ensures CopiesPixel(out[..], data[..], p) {
        assert CopiesPixel(before, data[..], p);
      }
      assert CopiesPixel(out[..], data[..], k);
      i, j, k := i + 4, j + 3, k + 1;
    }
  }

  function Luminance(pixels: seq<Byte>, i: nat): real
    requires 3 * i + 2 < |pixels|
  {
    0.299 * (pixels[3 * i] as int as real) + 0.587 * (pixels[3 * i + 1] as int as real) + 0.114 * (pixels[3 * i + 2] as int as real)
  }

  function Max(a: int, b: int): int {
    if a > b then a else b
  }

  /** The luminance of every `step`-th pixel from `i` on. */
  function Samples(pixels: seq<Byte>, i: nat, total: nat, step: nat): seq<real>
    requires step > 0 && |pixels| >= 3 * total
    decreases total - i
  {
    if i >= total then [] else [Luminance(pixels, i)] + Samples(pixels, i + step, total, step)
  }

  /** Every pixel of a small image, and of a large one one in so many that a few thousand are looked at. */
  function StepOf(total: nat): (step: nat)
    ensures step > 0
  {
    if total < 8192 then 1 else total / 4096
  }

  lemma StepExactly(total: nat)
    ensures Max(1, total / 4096) == StepOf(total)
  {}

  /** One sample for every step, of the pixel it lands on. */
  lemma {:induction false} SamplesExactly(pixels: seq<Byte>, i: nat, total: nat, step: nat, k: nat)
    requires step > 0 && |pixels| >= 3 * total
    ensures k < |Samples(pixels, i, total, step)| <==> i + k * step < total
    ensures i + k * step < total ==> Samples(pixels, i, total, step)[k] == Luminance(pixels, i + k * step)
    decreases total - i
  {
    if i < total && k > 0 {
      SamplesExactly(pixels, i + step, total, step, k - 1);
      assert i + step + (k - 1) * step == i + k * step;
    } else if i >= total {
      assert k * step >= 0;
    }
  }

  lemma MoveSample(seen: seq<real>, x: real, rest: seq<real>)
    ensures seen + ([x] + rest) == (seen + [x]) + rest
  {}

  lemma OneMoreValue(xs: seq<real>, x: real)
    ensures Sum(xs + [x]) == Sum(xs) + x && Deviations(xs + [x], 0.0) == Deviations(xs, 0.0) + x * x
  {
    assert (xs + [x])[..|xs|] == xs;
  }

  /**
   * The spread of the sampled luminances, computed from running sums. It is their variance, so it is
   * zero exactly when there is no sample or they are all alike.
   */
  method ComputePixelVariance(pixels: array<Byte>, total: nat) returns (variance: real)
    requires pixels.Length >= 3 * total
    ensures var samples := Samples(pixels[..], 0, total, StepOf(total));
            variance == if samples == [] then 0.0 else Variance(samples)
  {
    StepExactly(total);
    var sum, sumSq, count, samples := SumSamples(pixels, total, Max(1, total / 4096));
    if count == 0 { return 0.0; }
    variance := VarianceOfSums(sum, sumSq, count, samples);
  }

  /** The running sums of the sampled luminances and of their squares. */
  method SumSamples(pixels: array<Byte>, total: nat, step: nat)
      returns (sum: real, sumSq: real, count: nat, ghost seen: seq<real>)
    requires pixels.Length >= 3 * total && step > 0
    ensures seen == Samples(pixels[..], 0, total, step)
    ensures count == |seen| && sum == Sum(seen) && sumSq == Deviations(seen, 0.0)
  {
    sum, sumSq, count, seen := 0.0, 0.0, 0, [];
    var i := 0;
    ghost var s := pixels[..];
    while i < total
      invariant seen + Samples(s, i, total, step) == Samples(s, 0, total, step)
      invariant |seen| == count && sum == Sum(seen) && sumSq == Deviations(seen, 0.0)
      decreases total - i
    {
      var lum := LuminanceAt(pixels, i);
      sum, sumSq, count := sum + lum, sumSq + lum * lum, count + 1;
      MoveSample(seen, lum, Samples(s, i + step, total, step));
      OneMoreValue(seen, lum);
      seen := seen + [lum];
      i := i + step;
    }
  }

  method LuminanceAt(pixels: array<Byte>, i: nat) returns (lum: real)
    requires 3 * i + 2 < pixels.Length
    ensures lum == Luminance(pixels[..], i)
  {
    var r, g, b := pixels[3 * i], pixels[3 * i + 1], pixels[3 * i + 2];
    lum := 0.299 * (r as int as real) + 0.587 * (g as int as real) + 0.114 * (b as int as real);
  }

  method VarianceOfSums(sum: real, sumSq: real, count: nat, ghost xs: seq<real>) returns (variance: real)
    requires count == |xs| > 0 && sum == Sum(xs) && sumSq == Deviations(xs, 0.0)
    ensures variance == Variance(xs)
  {
    var mean := sum / count as real;
    RunningSumsGiveVariance(xs, count as real);
    variance := sumSq / count as real - mean * mean;
    if variance < 0.0 { variance := 0.0; }
  }
}
