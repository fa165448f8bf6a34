/** Timed joint trajectories (pibot/arm/trajectory.py). Floats are modelled as reals. */
module Trajectory {
  import opened Wrappers
  import Sorting

  /** A `dict[int, float]`: the joints in insertion order, and their angles. */
  datatype Angles_ = Angles(order: seq<int>, deg: map<int, real>) {
    ghost predicate Ok() {
      && (forall j :: j in order <==> j in deg)
      && forall i, k :: 0 <= i < k < |order| ==> order[i] != order[k]
    }
  }

  type Angles = a: Angles_ | a.Ok() witness Angles([], map[])

  /** The targets to reach `dt` seconds after the previous frame. */
  datatype Frame = Frame(targets: Angles, dt: real)

  // ----- sampling -----

  const EPSILON: real := 0.000000001

  function Ceiling(x: real): (n: int)
    ensures n as real - 1.0 < x <= n as real
  {
    -((-x).Floor)
  }

  /** How many intervals a ramp of `seconds` at `rate` samples a second is cut into. */
  function Intervals(seconds: real, rate: real): (n: nat)
    ensures n >= 1
  {
    var n := Ceiling((seconds - EPSILON) * rate);
    if n < 1 then 1 else n
  }

  /** Sample times: multiples of the period, then the end. */
  function Times(seconds: real, rate: real): (times: seq<real>)
    requires rate > 0.0
    ensures |times| == Intervals(seconds, rate) + 1
  {
    var n := Intervals(seconds, rate);
    seq(n + 1, i requires 0 <= i <= n => if i == n then seconds else i as real * (1.0 / rate))
  }

  lemma MultipleBelow(k: nat, seconds: real, rate: real)
    requires rate > 0.0
    ensures k as real * (1.0 / rate) < seconds - EPSILON <==> k as real < (seconds - EPSILON) * rate
  {
    var dt := 1.0 / rate;
    var x := seconds - EPSILON;
    assert dt * rate == 1.0;
    assert (k as real * dt) * rate == k as real;
    if k as real * dt < x {
      assert (x - k as real * dt) * rate > 0.0;
    } else {
      assert (k as real * dt - x) * rate >= 0.0;
    }
  }

  method SampleTimes(seconds: real, rate: real) returns (r: Result<seq<real>, string>)
    ensures seconds <= 0.0 ==> r == Failure("seconds must be positive")
    ensures seconds > 0.0 && rate <= 0.0 ==> r == Failure("rate_hz must be positive")
    ensures seconds > 0.0 && rate > 0.0 ==> r == Success(Times(seconds, rate))
  {
    if seconds <= 0.0 {
      return Failure("seconds must be positive");
    }
    if rate <= 0.0 {
      return Failure("rate_hz must be positive");
    }
    var dt := 1.0 / rate;
    var times := [0.0];
    var elapsed := 0.0;
    ghost var n := Intervals(seconds, rate);
    MultipleBelow(1, seconds, rate);
    while elapsed + dt < seconds - EPSILON
      invariant 1 <= |times| <= n
      invariant elapsed == (|times| - 1) as real * dt
      invariant forall i :: 0 <= i < |times| ==> times[i] == i as real * dt
      decreases n - |times|
    {
      MultipleBelow(|times|, seconds, rate);
      elapsed := elapsed + dt;
      times := times + [elapsed];
    }
    MultipleBelow(|times|, seconds, rate);
    assert |times| == n;
    times := times + [seconds];
    forall i | 0 <= i < n
      ensures times[i] == Times(seconds, rate)[i]
    {
    }
    assert times == Times(seconds, rate);
    r := Success(times);
  }

  /** The samples start at 0, end at `seconds` and strictly increase. */
  lemma TimesIncrease(seconds: real, rate: real)
    requires seconds > 0.0 && rate > 0.0
    ensures var times := Times(seconds, rate);
            && times[0] == 0.0 && times[|times| - 1] == seconds
            && (forall i :: 0 < i < |times| ==> times[i - 1] < times[i])
            && (forall i :: 0 <= i < |times| ==> 0.0 <= times[i] <= seconds)
  {
    var times, n := Times(seconds, rate), Intervals(seconds, rate);
    var dt := 1.0 / rate;
    assert dt > 0.0;
    forall i | 0 <= i < n
      ensures 0.0 <= times[i] < seconds && (i > 0 ==> times[i - 1] < times[i])
    {
      if i > 0 {
        MultipleBelow(i, seconds, rate);
        assert i as real * dt == (i - 1) as real * dt + dt;
      }
    }
  }

  /** Samples are one period apart, but for the last, which is no more than that and a nanosecond after the
      one before. */
  lemma SamplesAreSpaced(seconds: real, rate: real, i: nat)
    requires seconds > 0.0 && rate > 0.0 && 0 < i < |Times(seconds, rate)|
    ensures var times, gap := Times(seconds, rate), Times(seconds, rate)[i] - Times(seconds, rate)[i - 1];
            if i < |times| - 1 then gap * rate == 1.0 else gap <= 1.0 / rate + 0.000000001
  {
    var n, dt := Intervals(seconds, rate), 1.0 / rate;
    assert dt * rate == 1.0;
    Distribute(dt, i as real, (i - 1) as real);
    if i == n {
      MultipleBelow(n, seconds, rate);
    }
  }

  // ----- the trapezoidal progress curve -----

  predicate AccelOk(accelFraction: real) { 0.0 < accelFraction < 0.5 }

  lemma MulPositive(x: real, y: real)
    requires x > 0.0 && y > 0.0
    ensures x * y > 0.0
  {
  }

  lemma MulNonNegative(x: real, y: real)
    requires x >= 0.0 && y >= 0.0
    ensures x * y >= 0.0
  {
  }

  lemma InversePositive(x: real)
    requires x > 0.0
    ensures 1.0 / x > 0.0 && (1.0 / x) * x == 1.0
  {
  }

  lemma Positive(seconds: real, accelFraction: real)
    requires AccelOk(accelFraction) && seconds > 0.0
    ensures var ta := seconds * accelFraction;
            ta > 0.0 && seconds - 2.0 * ta > 0.0 && ta * (seconds - ta) > 0.0
  {
    var ta := seconds * accelFraction;
    MulPositive(seconds, accelFraction);
    MulPositive(seconds, 0.5 - accelFraction);
    assert seconds * (0.5 - accelFraction) == seconds * 0.5 - ta;
    MulPositive(ta, seconds - ta);
  }

  /** The steepest the curve gets: 1 / (seconds * (1 - accelFraction)). */
  function TopSpeed(seconds: real, accelFraction: real): (v: real)
    requires AccelOk(accelFraction) && seconds > 0.0
    ensures v > 0.0
  {
    MulPositive(seconds, 1.0 - accelFraction);
    InversePositive(seconds * (1.0 - accelFraction));
    1.0 / (seconds * (1.0 - accelFraction))
  }

  // The curve over its three pieces, with ta and accel as parameters tied by accel * ta * (T - ta) == 1.

  function Quadratic(accel: real, t: real): real { 0.5 * accel * t * t }

  ghost predicate Curve(ta: real, total: real, accel: real) {
    ta > 0.0 && total - 2.0 * ta > 0.0 && accel > 0.0 && accel * ta * (total - ta) == 1.0
  }

  function Shape(ta: real, total: real, accel: real, t: real): real {
    if t <= 0.0 then 0.0
    else if t >= total then 1.0
    else if t <= ta then Quadratic(accel, t)
    else if t < total - ta then Quadratic(accel, ta) + accel * ta * (t - ta)
    else 1.0 - Quadratic(accel, total - t)
  }

  predicate Fits(ta: real, total: real) { ta > 0.0 && total - 2.0 * ta > 0.0 }

  function AccelerationOf(ta: real, total: real): (accel: real)
    requires Fits(ta, total)
    ensures Curve(ta, total, accel)
  {
    CurveConstants(ta, total);
    1.0 / (ta * (total - ta))
  }

  function Acceleration(seconds: real, accelFraction: real): (accel: real)
    requires AccelOk(accelFraction) && seconds > 0.0
    ensures Curve(seconds * accelFraction, seconds, accel)
  {
    RampFits(seconds, accelFraction);
    AccelerationOf(seconds * accelFraction, seconds)
  }

  lemma RampFits(seconds: real, accelFraction: real)
    requires AccelOk(accelFraction) && seconds > 0.0
    ensures Fits(seconds * accelFraction, seconds)
  {
    Positive(seconds, accelFraction);
  }

  lemma TopSpeedIsReached(seconds: real, accelFraction: real)
    requires AccelOk(accelFraction) && seconds > 0.0
    ensures Cruises(seconds * accelFraction, Acceleration(seconds, accelFraction), TopSpeed(seconds, accelFraction))
  {
    CruiseSpeed(seconds * accelFraction, seconds, Acceleration(seconds, accelFraction));
    assert seconds - seconds * accelFraction == seconds * (1.0 - accelFraction);
  }

  lemma CruiseSpeed(ta: real, total: real, accel: real)
    requires Curve(ta, total, accel)
    ensures total - ta > 0.0 && accel * ta == 1.0 / (total - ta)
  {
    SpeedIsUnique(accel * ta, 1.0 / (total - ta), total - ta, total - ta);
  }

  lemma CurveConstants(ta: real, total: real)
    requires ta > 0.0 && total - 2.0 * ta > 0.0
    ensures ta * (total - ta) > 0.0 && Curve(ta, total, 1.0 / (ta * (total - ta)))
  {
    MulPositive(ta, total - ta);
    InversePositive(ta * (total - ta));
    Associate(1.0 / (ta * (total - ta)), ta, total - ta);
  }

  lemma Associate(x: real, y: real, z: real)
    ensures x * y * z == x * (y * z)
  {
  }

  lemma SpeedIsUnique(v: real, w: real, x: real, y: real)
    requires x == y && x > 0.0 && v * x == 1.0 && w == 1.0 / y
    ensures v == w
  {
    assert (v - w) * x == 0.0;
  }

  function Progress(t: real, seconds: real, accelFraction: real): (p: real)
    requires AccelOk(accelFraction) && seconds > 0.0
  {
    Shape(seconds * accelFraction, seconds, Acceleration(seconds, accelFraction), t)
  }

  /** The pieces meet. */
  lemma PiecesMeet(ta: real, total: real, accel: real)
    requires Curve(ta, total, accel)
    ensures Quadratic(accel, ta) + accel * ta * ((total - ta) - ta) == 1.0 - Quadratic(accel, ta)
    ensures Quadratic(accel, 0.0) == 0.0
  {
  }

  /** The speed of the middle piece. */
  ghost predicate Cruises(ta: real, accel: real, v: real) { v == accel * ta && v > 0.0 }

  /** From s to t the curve rises, by at most v times the distance. */
  ghost predicate Rises(ta: real, total: real, accel: real, v: real, s: real, t: real) {
    var p, q := Shape(ta, total, accel, s), Shape(ta, total, accel, t);
    p <= q <= p + v * (t - s)
  }

  lemma QuadraticRises(accel: real, ta: real, v: real, s: real, t: real)
    requires accel > 0.0 && 0.0 <= s <= t <= ta && Cruises(ta, accel, v)
    ensures Quadratic(accel, s) <= Quadratic(accel, t) <= Quadratic(accel, s) + v * (t - s)
  {
    assert Quadratic(accel, t) - Quadratic(accel, s) == 0.5 * accel * ((t - s) * (t + s));
    assert 0.0 <= (t - s) * (t + s);
    assert (t - s) * (t + s) <= (t - s) * (2.0 * ta);
    assert 0.5 * accel * ((t - s) * (t + s)) <= 0.5 * accel * ((t - s) * (2.0 * ta));
  }

  lemma CruiseRises(ta: real, total: real, accel: real, v: real, s: real, t: real)
    requires Curve(ta, total, accel) && Cruises(ta, accel, v) && ta <= s <= t <= total - ta
    ensures Rises(ta, total, accel, v, s, t)
  {
    MulNonNegative(v, t - s);
    CruiseShape(ta, total, accel, v, s);
    CruiseShape(ta, total, accel, v, t);
    Distribute(v, t - ta, s - ta);
  }

  lemma CruiseShape(ta: real, total: real, accel: real, v: real, t: real)
    requires Curve(ta, total, accel) && Cruises(ta, accel, v) && ta <= t <= total - ta
    ensures Shape(ta, total, accel, t) == Quadratic(accel, ta) + v * (t - ta)
  {
    PiecesMeet(ta, total, accel);
  }

  lemma Distribute(v: real, x: real, y: real)
    ensures v * x - v * y == v * (x - y)
  {
  }

  lemma BrakeRises(ta: real, total: real, accel: real, v: real, s: real, t: real)
    requires Curve(ta, total, accel) && Cruises(ta, accel, v) && total - ta <= s <= t <= total
    ensures Rises(ta, total, accel, v, s, t)
  {
    PiecesMeet(ta, total, accel);
    QuadraticRises(accel, ta, v, total - t, total - s);
    assert Shape(ta, total, accel, s) == 1.0 - Quadratic(accel, total - s);
    assert Shape(ta, total, accel, t) == 1.0 - Quadratic(accel, total - t);
  }

  lemma WithinPiece(ta: real, total: real, accel: real, v: real, s: real, t: real)
    requires Curve(ta, total, accel) && Cruises(ta, accel, v) && s <= t
    requires t <= 0.0 || 0.0 <= s <= t <= ta || ta <= s <= t <= total - ta || total - ta <= s <= t <= total || total <= s
    ensures Rises(ta, total, accel, v, s, t)
  {
    if 0.0 <= s && t <= ta {
      PiecesMeet(ta, total, accel);
      QuadraticRises(accel, ta, v, s, t);
    } else if ta <= s && t <= total - ta {
      CruiseRises(ta, total, accel, v, s, t);
    } else if total - ta <= s && t <= total {
      BrakeRises(ta, total, accel, v, s, t);
    } else {
      MulNonNegative(v, t - s);
    }
  }

  lemma RisesVia(ta: real, total: real, accel: real, v: real, s: real, m: real, t: real)
    requires Rises(ta, total, accel, v, s, m) && Rises(ta, total, accel, v, m, t)
    ensures Rises(ta, total, accel, v, s, t)
  {
    assert v * (m - s) + v * (t - m) == v * (t - s);
  }

  /** The end of the piece that starts at `s`. */
  function PieceEnd(ta: real, total: real, s: real): Option<real> {
    if s < 0.0 then Some(0.0) else if s < ta then Some(ta) else if s < total - ta then Some(total - ta)
    else if s < total then Some(total) else None
  }

  function PiecesLeft(ta: real, total: real, s: real): nat {
    if s < 0.0 then 4 else if s < ta then 3 else if s < total - ta then 2 else if s < total then 1 else 0
  }

  lemma {:induction false} ShapeRises(ta: real, total: real, accel: real, v: real, s: real, t: real)
    requires Curve(ta, total, accel) && Cruises(ta, accel, v) && s <= t
    ensures Rises(ta, total, accel, v, s, t)
    decreases PiecesLeft(ta, total, s)
  {
    match PieceEnd(ta, total, s)
    case None => WithinPiece(ta, total, accel, v, s, t);
    case Some(m) =>
      if t <= m {
        WithinPiece(ta, total, accel, v, s, t);
      } else {
        WithinPiece(ta, total, accel, v, s, m);
        ShapeRises(ta, total, accel, v, m, t);
        RisesVia(ta, total, accel, v, s, m, t);
      }
  }

  lemma ProgressRises(s: real, t: real, seconds: real, accelFraction: real)
    requires AccelOk(accelFraction) && seconds > 0.0 && s <= t
    ensures var p, q := Progress(s, seconds, accelFraction), Progress(t, seconds, accelFraction);
            p <= q <= p + TopSpeed(seconds, accelFraction) * (t - s)
  {
    TopSpeedIsReached(seconds, accelFraction);
    ShapeRises(seconds * accelFraction, seconds, Acceleration(seconds, accelFraction),
               TopSpeed(seconds, accelFraction), s, t);
  }

  lemma ProgressInRange(t: real, seconds: real, accelFraction: real)
    requires AccelOk(accelFraction) && seconds > 0.0
    ensures 0.0 <= Progress(t, seconds, accelFraction) <= 1.0
  {
    ProgressRises(if t < 0.0 then t else 0.0, t, seconds, accelFraction);
    ProgressRises(t, if t > seconds then t else seconds, seconds, accelFraction);
  }

  /** Progress goes from 0 to 1, never falls, and is Lipschitz with constant 1/(seconds*(1-a)): in
      particular it is continuous where its pieces join. */
  lemma ProgressIsMonotoneAndLipschitz(s: real, t: real, seconds: real, accelFraction: real)
    requires AccelOk(accelFraction) && seconds > 0.0 && s <= t
    ensures var p, q := Progress(s, seconds, accelFraction), Progress(t, seconds, accelFraction);
            0.0 <= p <= q <= 1.0 && q - p <= TopSpeed(seconds, accelFraction) * (t - s)
    ensures Progress(0.0, seconds, accelFraction) == 0.0 && Progress(seconds, seconds, accelFraction) == 1.0
  {
    ProgressRises(s, t, seconds, accelFraction);
    ProgressInRange(s, seconds, accelFraction);
    ProgressInRange(t, seconds, accelFraction);
  }

  lemma CruiseIsSymmetric(v: real, ta: real, total: real, t: real)
    ensures v * (t - ta) + v * ((total - t) - ta) == v * ((total - ta) - ta)
  {
  }

  lemma ShapeIsSymmetric(ta: real, total: real, accel: real, t: real)
    requires Curve(ta, total, accel)
    ensures Shape(ta, total, accel, t) + Shape(ta, total, accel, total - t) == 1.0
  {
    PiecesMeet(ta, total, accel);
    CruiseIsSymmetric(accel * ta, ta, total, t);
  }

  /** The curve is symmetric: the second half mirrors the first. */
  lemma ProgressIsSymmetric(t: real, seconds: real, accelFraction: real)
    requires AccelOk(accelFraction) && seconds > 0.0
    ensures Progress(t, seconds, accelFraction) + Progress(seconds - t, seconds, accelFraction) == 1.0
  {
    ShapeIsSymmetric(seconds * accelFraction, seconds, Acceleration(seconds, accelFraction), t);
  }

  // ----- speed and acceleration -----

  /** The speed of the curve: rising to `ta`, level, falling again; at rest at both ends and outside. */
  function SpeedAt(ta: real, total: real, accel: real, t: real): real {
    if t <= 0.0 || t >= total then 0.0
    else if t <= ta then accel * t
    else if t < total - ta then accel * ta
    else accel * (total - t)
  }

  /** From s to t the curve departs from its tangent at s by no more than accel/2 * (t - s)^2, and its speed
      changes by no more than accel * (t - s). */
  ghost predicate Bends(p: real, q: real, v: real, w: real, accel: real, d: real) {
    && -Quadratic(accel, d) <= q - p - v * d <= Quadratic(accel, d)
    && -(accel * d) <= w - v <= accel * d
  }

  ghost predicate ShapeBends(ta: real, total: real, accel: real, s: real, t: real) {
    Bends(Shape(ta, total, accel, s), Shape(ta, total, accel, t),
          SpeedAt(ta, total, accel, s), SpeedAt(ta, total, accel, t), accel, t - s)
  }

  lemma BendsVia(p: real, m: real, q: real, v: real, u: real, w: real, accel: real, d: real, e: real)
    requires accel > 0.0 && d >= 0.0 && e >= 0.0
    requires Bends(p, m, v, u, accel, d) && Bends(m, q, u, w, accel, e)
    ensures Bends(p, q, v, w, accel, d + e)
  {
    ScaledBetween(u - v, accel * d, e);
    Distribute(e, u, v);
    QuadraticSum(accel, d, e);
    SumTimes(v, d, e);
    SumTimes(accel, d, e);
    TangentsAdd(p, m, q, v * d, v * e, u * e, Quadratic(accel, d), Quadratic(accel, e), accel * d * e,
                v * (d + e), Quadratic(accel, d + e));
    SpeedsAdd(v, u, w, accel * d, accel * e, accel * (d + e));
  }

  lemma SumTimes(v: real, d: real, e: real)
    ensures v * (d + e) == v * d + v * e
  {
  }

  lemma TangentsAdd(p: real, m: real, q: real, vd: real, ve: real, ue: real, qd: real, qe: real, c: real, v: real, all: real)
    requires -qd <= m - p - vd <= qd && -qe <= q - m - ue <= qe && -c <= ue - ve <= c
    requires v == vd + ve && all == qd + qe + c
    ensures -all <= q - p - v <= all
  {
  }

  lemma SpeedsAdd(v: real, u: real, w: real, d: real, e: real, all: real)
    requires -d <= u - v <= d && -e <= w - u <= e && all == d + e
    ensures -all <= w - v <= all
  {
  }

  lemma ScaledBetween(x: real, bound: real, e: real)
    requires -bound <= x <= bound && e >= 0.0
    ensures -(bound * e) <= x * e <= bound * e
  {
    MulNonNegative(bound - x, e);
    MulNonNegative(bound + x, e);
    assert (bound - x) * e == bound * e - x * e && (bound + x) * e == bound * e + x * e;
  }

  lemma QuadraticSum(accel: real, d: real, e: real)
    ensures Quadratic(accel, d + e) == Quadratic(accel, d) + Quadratic(accel, e) + accel * d * e
  {
  }

  lemma RampUpBends(accel: real, s: real, t: real)
    requires accel > 0.0 && s <= t
    ensures Bends(Quadratic(accel, s), Quadratic(accel, t), accel * s, accel * t, accel, t - s)
  {
    var d := t - s;
    QuadraticSum(accel, s, d);
    SquareNonNegative(accel, d);
    assert accel * t - accel * s == accel * d;
    MulNonNegative(accel, d);
    Associate(accel, s, d);
  }

  lemma SquareNonNegative(accel: real, d: real)
    requires accel > 0.0
    ensures Quadratic(accel, d) >= 0.0
  {
    assert d * d >= 0.0;
    MulNonNegative(0.5 * accel, d * d);
    Associate(0.5 * accel, d, d);
  }

  lemma RampDownBends(accel: real, x: real, y: real)
    requires accel > 0.0 && y <= x
    ensures Bends(1.0 - Quadratic(accel, x), 1.0 - Quadratic(accel, y), accel * x, accel * y, accel, x - y)
  {
    var d := x - y;
    QuadraticSum(accel, y, d);
    SquareNonNegative(accel, d);
    assert accel * x - accel * y == accel * d;
    MulNonNegative(accel, d);
    assert accel * x * d == accel * y * d + accel * d * d;
    assert Quadratic(accel, d) + Quadratic(accel, d) == accel * d * d;
  }

  lemma StraightBends(p: real, q: real, v: real, accel: real, d: real)
    requires accel > 0.0 && d >= 0.0 && q == p + v * d
    ensures Bends(p, q, v, v, accel, d)
  {
    SquareNonNegative(accel, d);
    MulNonNegative(accel, d);
  }

  lemma RampUpIs(ta: real, total: real, accel: real, t: real)
    requires Curve(ta, total, accel) && 0.0 <= t <= ta
    ensures Shape(ta, total, accel, t) == Quadratic(accel, t) && SpeedAt(ta, total, accel, t) == accel * t
  {
    PiecesMeet(ta, total, accel);
  }

  lemma RampDownIs(ta: real, total: real, accel: real, t: real)
    requires Curve(ta, total, accel) && total - ta <= t <= total
    ensures Shape(ta, total, accel, t) == 1.0 - Quadratic(accel, total - t)
    ensures SpeedAt(ta, total, accel, t) == accel * (total - t)
  {
    PiecesMeet(ta, total, accel);
  }

  lemma CruiseIs(ta: real, total: real, accel: real, t: real)
    requires Curve(ta, total, accel) && ta <= t <= total - ta
    ensures SpeedAt(ta, total, accel, t) == accel * ta
  {
    if t == total - ta {
      RampDownIs(ta, total, accel, t);
      assert total - t == ta;
    }
  }

  lemma CruiseBends(ta: real, total: real, accel: real, s: real, t: real)
    requires Curve(ta, total, accel) && ta <= s <= t <= total - ta
    ensures ShapeBends(ta, total, accel, s, t)
  {
    var v := accel * ta;
    MulPositive(accel, ta);
    CruiseIs(ta, total, accel, s);
    CruiseIs(ta, total, accel, t);
    CruiseShape(ta, total, accel, v, s);
    CruiseShape(ta, total, accel, v, t);
    Distribute(v, t - ta, s - ta);
    StraightBends(Shape(ta, total, accel, s), Shape(ta, total, accel, t), v, accel, t - s);
  }

  lemma OutsideBends(ta: real, total: real, accel: real, s: real, t: real)
    requires Curve(ta, total, accel) && s <= t && (t <= 0.0 || total <= s)
    ensures ShapeBends(ta, total, accel, s, t)
  {
    StraightBends(Shape(ta, total, accel, s), Shape(ta, total, accel, t), 0.0, accel, t - s);
  }

  lemma WithinPieceBends(ta: real, total: real, accel: real, s: real, t: real)
    requires Curve(ta, total, accel) && s <= t
    requires t <= 0.0 || 0.0 <= s <= t <= ta || ta <= s <= t <= total - ta || total - ta <= s <= t <= total || total <= s
    ensures ShapeBends(ta, total, accel, s, t)
  {
    if 0.0 <= s && t <= ta {
      RampUpIs(ta, total, accel, s);
      RampUpIs(ta, total, accel, t);
      RampUpBends(accel, s, t);
    } else if ta <= s && t <= total - ta {
      CruiseBends(ta, total, accel, s, t);
    } else if total - ta <= s && t <= total {
      RampDownIs(ta, total, accel, s);
      RampDownIs(ta, total, accel, t);
      RampDownBends(accel, total - s, total - t);
    } else {
      OutsideBends(ta, total, accel, s, t);
    }
  }

  lemma {:induction false} ShapeBendsThroughout(ta: real, total: real, accel: real, s: real, t: real)
    requires Curve(ta, total, accel) && s <= t
    ensures ShapeBends(ta, total, accel, s, t)
    decreases PiecesLeft(ta, total, s)
  {
    match PieceEnd(ta, total, s)
    case None => WithinPieceBends(ta, total, accel, s, t);
    case Some(m) =>
      if t <= m {
        WithinPieceBends(ta, total, accel, s, t);
      } else {
        WithinPieceBends(ta, total, accel, s, m);
        ShapeBendsThroughout(ta, total, accel, m, t);
        BendsVia(Shape(ta, total, accel, s), Shape(ta, total, accel, m), Shape(ta, total, accel, t),
                 SpeedAt(ta, total, accel, s), SpeedAt(ta, total, accel, m), SpeedAt(ta, total, accel, t),
                 accel, m - s, t - m);
      }
  }

  /** The curve starts and ends at rest, and never accelerates by more than 1/(ta * (seconds - ta)): it stays
      that close to its tangents, and its speed changes no faster. */
  lemma ProgressAcceleratesGently(s: real, t: real, seconds: real, accelFraction: real)
    requires AccelOk(accelFraction) && seconds > 0.0 && s <= t
    ensures var ta, accel := seconds * accelFraction, Acceleration(seconds, accelFraction);
            && Bends(Progress(s, seconds, accelFraction), Progress(t, seconds, accelFraction),
                     SpeedAt(ta, seconds, accel, s), SpeedAt(ta, seconds, accel, t), accel, t - s)
            && SpeedAt(ta, seconds, accel, 0.0) == 0.0 && SpeedAt(ta, seconds, accel, seconds) == 0.0
            && accel * ta * (seconds - ta) == 1.0
  {
    ShapeBendsThroughout(seconds * accelFraction, seconds, Acceleration(seconds, accelFraction), s, t);
  }

  // ----- joint trajectories -----

  function Blend(a: real, b: real, progress: real): real { a + (b - a) * progress }

  function BlendAll(start: Angles, goal: Angles, progress: real): Angles
    requires start.deg.Keys == goal.deg.Keys
  {
    var order := SortedJoints(goal);
    Angles(order, map j | j in goal.deg :: Blend(start.deg[j], goal.deg[j], progress))
  }

  function SortedJoints(a: Angles): (order: seq<int>)
    ensures forall j :: j in order <==> j in a.deg
    ensures forall i, k :: 0 <= i < k < |order| ==> order[i] != order[k]
  {
    var order := Sorting.Sort(a.order, (j: int) => j as real);
    SameElements(a.order, order);
    order
  }

  lemma SameElements(a: seq<int>, b: seq<int>)
    requires multiset(a) == multiset(b)
    requires forall i, k :: 0 <= i < k < |a| ==> a[i] != a[k]
    ensures forall j :: j in b <==> j in a
    ensures forall i, k :: 0 <= i < k < |b| ==> b[i] != b[k]
  {
    forall j
      ensures j in b <==> j in a
    {
      assert j in multiset(a) <==> j in a;
      assert j in multiset(b) <==> j in b;
    }
    forall i, k | 0 <= i < k < |b|
      ensures b[i] != b[k]
    {
      if b[i] == b[k] {
        TwiceIn(b, i, k);
        OnceIn(a, b[i]);
      }
    }
  }

  lemma TwiceIn(s: seq<int>, i: nat, k: nat)
    requires i < k < |s| && s[i] == s[k]
    ensures multiset(s)[s[i]] >= 2
  {
    assert s == s[..i] + [s[i]] + s[i + 1..k] + [s[k]] + s[k + 1..];
  }

  lemma {:induction false} OnceIn(s: seq<int>, x: int)
    requires forall i, k :: 0 <= i < k < |s| ==> s[i] != s[k]
    ensures multiset(s)[x] <= 1
  {
    if |s| == 0 {
    } else {
      assert s == [s[0]] + s[1..];
      OnceIn(s[1..], x);
      if s[0] == x {
        assert x !in s[1..];
        assert multiset(s[1..])[x] == 0;
      }
    }
  }

  /** The frames of a synchronized ramp from `start` to `goal`. */
  function Ramp(start: Angles, goal: Angles, seconds: real, rate: real, accelFraction: real): (frames: seq<Frame>)
    requires start.deg.Keys == goal.deg.Keys && seconds > 0.0 && rate > 0.0 && AccelOk(accelFraction)
    ensures |frames| == Intervals(seconds, rate) + 1
  {
    var times := Times(seconds, rate);
    seq(|times|, i requires 0 <= i < |times| =>
      if i == 0 then Frame(start, 0.0)
      else Frame(BlendAll(start, goal, Progress(times[i], seconds, accelFraction)), times[i] - times[i - 1]))
  }

  method JointTrajectory(start: Angles, goal: Angles, seconds: real, rate: real, accelFraction: real)
    returns (r: Result<seq<Frame>, string>)
    ensures r.Success? <==>
              start.deg.Keys == goal.deg.Keys && seconds > 0.0 && rate > 0.0 && AccelOk(accelFraction)
    ensures r.Success? ==> r.value == Ramp(start, goal, seconds, rate, accelFraction)
  {
    if start.deg.Keys != goal.deg.Keys {
      return Failure("start and goal must cover the same joints");
    }
    var sampled := SampleTimes(seconds, rate);
    if sampled.Failure? {
      return Failure(sampled.error);
    }
    var times := sampled.value;
    if !AccelOk(accelFraction) {
      return Failure("accel_fraction must be in (0, 0.5)");
    }
    var frames := [Frame(start, 0.0)];
    var prev := 0.0;
    TimesIncrease(seconds, rate);
    for i := 1 to |times|
      invariant |frames| == i && prev == times[i - 1]
      invariant frames == Ramp(start, goal, seconds, rate, accelFraction)[..i]
    {
      var t := times[i];
      var progress := Progress(t, seconds, accelFraction);
      frames := frames + [Frame(BlendAll(start, goal, progress), t - prev)];
      prev := t;
    }
    r := Success(frames);
  }
}
