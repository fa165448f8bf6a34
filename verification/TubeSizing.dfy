/** The smallest tube that carries a link's load, found by bisection (pibot/arm/sizing.py). */
module TubeSizing {
  import opened Wrappers

  /** math.pi */
  const PI: real := 3.141592653589793

  const STEPS: nat := 100
  const LARGEST: real := 0.5

  function Max(a: real, b: real): real { if a >= b then a else b }

  function Pow4(x: real): real { x * x * x * x }

  function Inner(od: real, wall: real): real { Max(od - 2.0 * wall, 0.0) }

  /** D^4 - d^4 */
  function Area(od: real, wall: real): real { Pow4(od) - Pow4(Inner(od, wall)) }

  function SectionModulus(od: real, wall: real): real
    requires od != 0.0
  {
    PI * Area(od, wall) / (32.0 * od)
  }

  function SecondMoment(od: real, wall: real): real {
    PI * Area(od, wall) / 64.0
  }

  // ----- bisection -----

  /** The bracket after `n` halvings: `hi` moves down to an adequate midpoint, `lo` up to another. */
  function Bisect(adequate: real -> bool, lo: real, hi: real, n: nat): (real, real) {
    if n == 0 then (lo, hi)
    else
      var (l, h) := Bisect(adequate, lo, hi, n - 1);
      var mid := (l + h) / 2.0;
      if adequate(mid) then (l, mid) else (mid, h)
  }

  /** gap / 2^n */
  function Halved(gap: real, n: nat): real {
    if n == 0 then gap else Halved(gap, n - 1) / 2.0
  }

  function Pow2(n: nat): (p: real)
    ensures p >= 1.0
  {
    if n == 0 then 1.0 else 2.0 * Pow2(n - 1)
  }

  lemma {:induction false} HalvedIsDivision(gap: real, n: nat)
    ensures Halved(gap, n) == gap / Pow2(n)
  {
    HalvedTimesPow2(gap, n);
    Undo(Halved(gap, n), Pow2(n), gap);
  }

  lemma {:induction false} HalvedTimesPow2(gap: real, n: nat)
    ensures Halved(gap, n) * Pow2(n) == gap
  {
    if n == 0 {
    } else {
      HalvedTimesPow2(gap, n - 1);
      HalfTimesTwo(Halved(gap, n - 1), Pow2(n - 1));
    }
  }

  lemma Undo(q: real, p: real, gap: real)
    requires p >= 1.0 && q * p == gap
    ensures q == gap / p
  {
  }

  lemma HalfTimesTwo(gap: real, p: real)
    ensures (gap / 2.0) * (2.0 * p) == gap * p
  {
  }

  lemma {:induction false} BracketHalves(adequate: real -> bool, lo: real, hi: real, n: nat)
    ensures var (l, h) := Bisect(adequate, lo, hi, n);
            h - l == Halved(hi - lo, n) && (lo <= hi ==> lo <= l <= h <= hi)
  {
    if n > 0 { BracketHalves(adequate, lo, hi, n - 1); }
  }

  lemma {:induction false} BracketEnds(adequate: real -> bool, lo: real, hi: real, n: nat)
    ensures var (l, h) := Bisect(adequate, lo, hi, n);
            (h == hi || adequate(h)) && (l == lo || !adequate(l))
  {
    if n > 0 { BracketEnds(adequate, lo, hi, n - 1); }
  }

  ghost predicate UpwardClosed(adequate: real -> bool, lo: real, hi: real) {
    forall x, y :: lo <= x <= y <= hi && adequate(x) ==> adequate(y)
  }

  /** The upper end of the bracket is adequate exactly when the largest value is, and then it exceeds no
      adequate value of the range by more than (hi - lo)/2^n. */
  lemma BisectionFindsLeast(adequate: real -> bool, lo: real, hi: real, n: nat)
    requires lo <= hi && UpwardClosed(adequate, lo, hi)
    ensures var h := Bisect(adequate, lo, hi, n).1;
            && lo <= h <= hi && (adequate(h) <==> adequate(hi))
            && (!adequate(hi) ==> h == hi)
            && forall x :: lo <= x <= hi && adequate(x) ==> h <= x + (hi - lo) / Pow2(n)
  {
    BracketHalves(adequate, lo, hi, n);
    HalvedIsDivision(hi - lo, n);
    BracketEnds(adequate, lo, hi, n);
    var (l, h) := Bisect(adequate, lo, hi, n);
    LeastInBracket(adequate, lo, hi, l, h);
  }

  lemma LeastInBracket(adequate: real -> bool, lo: real, hi: real, l: real, h: real)
    requires lo <= l <= h <= hi && UpwardClosed(adequate, lo, hi)
    requires (h == hi || adequate(h)) && (l == lo || !adequate(l))
    ensures (adequate(h) <==> adequate(hi)) && (!adequate(hi) ==> h == hi)
    ensures forall x :: lo <= x <= hi && adequate(x) ==> h <= x + (h - l)
  {
    forall x | lo <= x <= hi && adequate(x)
      ensures h <= x + (h - l)
    {
      assert x <= l ==> adequate(l);
    }
  }

  // ----- a bigger tube is stronger and stiffer -----

  lemma ProductGrows(x1: real, y1: real, x2: real, y2: real)
    requires 0.0 < x1 <= x2 && 0.0 < y1 < y2
    ensures 0.0 < x1 * y1 < x2 * y2
  {
    assert x1 * y1 < x1 * y2 by { assert x1 * (y2 - y1) > 0.0; }
    assert x1 * y2 <= x2 * y2 by { assert (x2 - x1) * y2 >= 0.0; }
    assert x1 * y1 > 0.0;
  }

  lemma SquareGrows(x: real, y: real)
    requires 0.0 <= x <= y
    ensures x * x <= y * y && (x < y ==> x * x < y * y)
  {
    var sum, gap := y + x, y - x;
    assert y * y - x * x == gap * sum;
    assert gap * sum >= 0.0;
    if x < y { ProductGrows(gap / 2.0, sum / 2.0, gap, sum); }
  }

  /** D^4 - d^4 == (D - d)(D + d)(D^2 + d^2) */
  lemma FourthPowers(x: real, y: real)
    ensures Pow4(x) - Pow4(y) == (x - y) * (x + y) * (x * x + y * y)
  {
    assert Pow4(x) == (x * x) * (x * x) && Pow4(y) == (y * y) * (y * y);
    var a, b := x * x, y * y;
    assert (x - y) * (x + y) == a - b;
    assert (a - b) * (a + b) == a * a - b * b;
  }

  /** (D - d)(D + d) and D^2 + d^2 */
  function Spread(od: real, id: real): real { Times(od - id, od + id) }

  function Times(x: real, y: real): real { x * y }

  lemma TimesGrows(x1: real, y1: real, x2: real, y2: real)
    requires 0.0 < x1 <= x2 && 0.0 < y1 < y2
    ensures 0.0 < Times(x1, y1) < Times(x2, y2)
  {
    ProductGrows(x1, y1, x2, y2);
  }

  function Squares(od: real, id: real): real { od * od + id * id }

  predicate Grows(od: real, id: real, od': real, id': real) {
    0.0 <= id <= id' && 0.0 < od < od' && 0.0 < od - id <= od' - id'
  }

  lemma InnerGrows(od: real, wall: real, od': real)
    requires wall > 0.0 && 0.0 < od < od'
    ensures Grows(od, Inner(od, wall), od', Inner(od', wall))
  {
  }

  lemma SpreadGrows(od: real, id: real, od': real, id': real)
    requires Grows(od, id, od', id')
    ensures 0.0 < Spread(od, id) < Spread(od', id')
  {
    TimesGrows(od - id, od + id, od' - id', od' + id');
  }

  lemma SquaresGrow(od: real, id: real, od': real, id': real)
    requires Grows(od, id, od', id')
    ensures 0.0 < Squares(od, id) < Squares(od', id')
  {
    SquareGrows(od, od');
    SquareGrows(id, id');
    SquareGrows(0.0, od);
    SquareGrows(0.0, id);
  }

  lemma AreaFactors(od: real, wall: real, od': real) returns (a: real, b: real, a': real, b': real)
    requires wall > 0.0 && 0.0 < od < od'
    ensures 0.0 < a < a' && 0.0 < b < b'
    ensures a * b == Area(od, wall) && a' * b' == Area(od', wall)
  {
    InnerGrows(od, wall, od');
    SpreadGrows(od, Inner(od, wall), od', Inner(od', wall));
    SquaresGrow(od, Inner(od, wall), od', Inner(od', wall));
    a, b := AreaProduct(od, wall);
    a', b' := AreaProduct(od', wall);
  }

  lemma AreaProduct(od: real, wall: real) returns (a: real, b: real)
    ensures a == Spread(od, Inner(od, wall)) && b == Squares(od, Inner(od, wall))
    ensures a * b == Area(od, wall)
  {
    FourthPowers(od, Inner(od, wall));
    a, b := Spread(od, Inner(od, wall)), Squares(od, Inner(od, wall));
  }

  lemma AreaGrows(od: real, wall: real, od': real)
    requires wall > 0.0 && 0.0 < od < od'
    ensures 0.0 < Area(od, wall) < Area(od', wall)
  {
    var a, b, a', b' := AreaFactors(od, wall, od');
    ProductGrows(a, b, a', b');
  }

  /** For every wall thickness the second moment of area strictly increases with the diameter. */
  lemma SecondMomentGrows(od: real, wall: real, od': real)
    requires wall > 0.0 && 0.0 < od < od'
    ensures 0.0 < SecondMoment(od, wall) < SecondMoment(od', wall)
  {
    AreaGrows(od, wall, od');
  }

  lemma CrossMultiply(x: real, q: real, x': real, q': real)
    requires q > 0.0 && q' > 0.0 && x * q' <= x' * q
    ensures x / q <= x' / q'
  {
    var f, f' := x / q, x' / q';
    assert f * q == x && f' * q' == x';
    assert (f - f') * (q * q') <= 0.0 by {
      assert f * (q * q') == x * q' && f' * (q * q') == x' * q;
    }
    assert q * q' > 0.0;
  }

  lemma InnerShare(od: real, c: real, id: real, od': real, id': real)
    requires c > 0.0 && 0.0 < od < od' && id == Max(od - c, 0.0) && id' == Max(od' - c, 0.0)
    ensures (od + id) * od' <= (od' + id') * od
  {
    assert id * od' <= id' * od by {
      if id > 0.0 {
        assert id * od' == od * od' - c * od' && id' * od == od * od' - c * od;
        assert c * (od' - od) >= 0.0;
      } else {
        assert id' * od >= 0.0;
      }
    }
  }

  lemma ProductRises(x1: real, y1: real, x2: real, y2: real)
    requires 0.0 < x1 <= x2 && 0.0 < y1 <= y2
    ensures 0.0 < x1 * y1 <= x2 * y2
  {
    if x1 < x2 {
      if y1 < y2 { ProductGrows(x1, y1, x2, y2); } else { ProductGrows(y1, x1, y2, x2); }
    } else if y1 < y2 {
      ProductGrows(x1, y1, x2, y2);
    }
  }

  /** (D + d)/D */
  function Ratio(od: real, id: real): real
    requires od > 0.0
  {
    (od + id) / od
  }

  lemma RatioRises(od: real, wall: real, od': real)
    requires wall > 0.0 && 0.0 < od < od'
    ensures 0.0 < Ratio(od, Inner(od, wall)) <= Ratio(od', Inner(od', wall))
  {
    var id, id' := Inner(od, wall), Inner(od', wall);
    InnerShare(od, 2.0 * wall, id, od', id');
    CrossMultiply(od + id, od, od' + id', od');
    QuotientPositive(od + id, od);
  }

  lemma ModulusProduct(od: real, wall: real) returns (r: real, s: real, q: real)
    requires od > 0.0
    ensures r == od - Inner(od, wall) && s == Ratio(od, Inner(od, wall)) && q == Squares(od, Inner(od, wall))
    ensures Area(od, wall) / od == (r * s) * q
  {
    var id := Inner(od, wall);
    FourthPowers(od, id);
    r, s, q := od - id, Ratio(od, id), Squares(od, id);
    MiddleOver(r, od + id, q, od);
  }

  /** The modulus, PI/32 aside: (D - d), (D + d)/D and D^2 + d^2. */
  lemma ModulusFactors(od: real, wall: real, od': real) returns (r: real, s: real, q: real, r': real, s': real, q': real)
    requires wall > 0.0 && 0.0 < od < od'
    ensures 0.0 < r <= r' && 0.0 < s <= s' && 0.0 < q < q'
    ensures Area(od, wall) / od == (r * s) * q && Area(od', wall) / od' == (r' * s') * q'
  {
    RatioRises(od, wall, od');
    InnerGrows(od, wall, od');
    SquaresGrow(od, Inner(od, wall), od', Inner(od', wall));
    r, s, q := ModulusProduct(od, wall);
    r', s', q' := ModulusProduct(od', wall);
  }

  lemma QuotientPositive(x: real, d: real)
    requires x > 0.0 && d > 0.0
    ensures x / d > 0.0
  {
  }

  lemma MiddleOver(r: real, x: real, q: real, d: real)
    requires d > 0.0
    ensures r * x * q / d == (r * (x / d)) * q
  {
    var s := x / d;
    assert x == s * d;
    assert r * x * q == ((r * s) * q) * d;
  }

  lemma Rescale(a: real, od: real)
    requires od > 0.0
    ensures PI * a / (32.0 * od) == (PI / 32.0) * (a / od)
  {
    var q := a / od;
    assert q * od == a;
    assert (PI / 32.0) * q * (32.0 * od) == PI * (q * od);
  }

  lemma Scale(x: real, y: real)
    requires 0.0 < x < y
    ensures 0.0 < (PI / 32.0) * x < (PI / 32.0) * y
  {
  }

  /** For every wall thickness the section modulus strictly increases with the diameter. */
  lemma SectionModulusGrows(od: real, wall: real, od': real)
    requires wall > 0.0 && 0.0 < od < od'
    ensures 0.0 < SectionModulus(od, wall) < SectionModulus(od', wall)
  {
    var r, s, q, r', s', q' := ModulusFactors(od, wall, od');
    ProductRises(r, s, r', s');
    ProductGrows(r * s, q, r' * s', q');
    Scale(Area(od, wall) / od, Area(od', wall) / od');
    Rescale(Area(od, wall), od);
    Rescale(Area(od', wall), od');
  }

  // ----- sizing a link -----

  /** The smallest diameter searched, in metres. */
  function LowestOd(wallMm: real): real { 2.0 * (wallMm / 1000.0) + 0.0001 }

  function Strong(wall: real, required: real): real -> bool {
    od => od > 0.0 && SectionModulus(od, wall) >= required
  }

  function Stiff(wall: real, required: real): real -> bool { od => SecondMoment(od, wall) >= required }

  /** The source's test at a midpoint; None is the ZeroDivisionError of a diameter of zero, which a negative
      wall thickness can lead to. */
  function StrongProbe(wall: real, required: real): real -> Option<bool> {
    od => if od == 0.0 then None else Some(SectionModulus(od, wall) >= required)
  }

  /** The bisection with a test that may raise. */
  function Search(probe: real -> Option<bool>, lo: real, hi: real, n: nat): Option<(real, real)> {
    if n == 0 then Some((lo, hi))
    else
      match Search(probe, lo, hi, n - 1)
      case None => None
      case Some((l, h)) =>
        var mid := (l + h) / 2.0;
        match probe(mid)
        case None => None
        case Some(adequate) => Some(if adequate then (l, mid) else (mid, h))
  }

  lemma {:induction false} SearchStaysFailed(probe: real -> Option<bool>, lo: real, hi: real, i: nat, n: nat)
    requires i <= n && Search(probe, lo, hi, i).None?
    ensures Search(probe, lo, hi, n).None?
    decreases n - i
  {
    if i == n {
    } else {
      SearchStaysFailed(probe, lo, hi, i + 1, n);
    }
  }

  /** On a range of positive diameters nothing raises. */
  lemma {:induction false} SearchIsBisect(
    probe: real -> Option<bool>, adequate: real -> bool, lo: real, hi: real, n: nat)
    requires lo > 0.0 && hi > 0.0 && forall od :: od > 0.0 ==> probe(od) == Some(adequate(od))
    ensures var b := Bisect(adequate, lo, hi, n);
            Search(probe, lo, hi, n) == Some(b) && b.0 > 0.0 && b.1 > 0.0
  {
    if n == 0 {
    } else {
      SearchIsBisect(probe, adequate, lo, hi, n - 1);
    }
  }

  /** None is a ZeroDivisionError. */
  function StressOd(moment: real, wallMm: real, sigma: real): Option<real> {
    if moment <= 0.0 then Some(2.0 * wallMm)
    else if sigma == 0.0 then None
    else
      match Search(StrongProbe(wallMm / 1000.0, moment / sigma), LowestOd(wallMm), LARGEST, STEPS)
      case None => None
      case Some((_, od)) => Some(od * 1000.0)
  }

  /** Least outer diameter, in millimetres, for the bending stress. */
  method RequiredTubeOd(moment: real, wallMm: real, sigma: real) returns (odMm: Option<real>)
    ensures odMm == StressOd(moment, wallMm, sigma)
  {
    if moment <= 0.0 {
      return Some(2.0 * wallMm);
    }
    if sigma == 0.0 {
      return None;
    }
    var required, wall := moment / sigma, wallMm / 1000.0;
    var lo, hi := 2.0 * wall + 0.0001, LARGEST;
    for i := 0 to STEPS
      invariant Search(StrongProbe(wall, required), LowestOd(wallMm), LARGEST, i) == Some((lo, hi))
    {
      var mid := (lo + hi) / 2.0;
      if mid == 0.0 {
        SearchStaysFailed(StrongProbe(wall, required), LowestOd(wallMm), LARGEST, i + 1, STEPS);
        return None;
      }
      if SectionModulus(mid, wall) < required {
        lo := mid;
      } else {
        hi := mid;
      }
    }
    odMm := Some(hi * 1000.0);
  }

  /** With a wall that is not negative, only a zero allowable stress raises. */
  lemma StressOdIsBisect(moment: real, wallMm: real, sigma: real)
    requires LowestOd(wallMm) > 0.0 && moment > 0.0 && sigma != 0.0
    ensures StressOd(moment, wallMm, sigma)
         == Some(Bisect(Strong(wallMm / 1000.0, moment / sigma), LowestOd(wallMm), LARGEST, STEPS).1 * 1000.0)
  {
    var wall, required := wallMm / 1000.0, moment / sigma;
    SearchIsBisect(StrongProbe(wall, required), Strong(wall, required), LowestOd(wallMm), LARGEST, STEPS);
  }

  /** Whether a deflection limit applies; None is an infinite one. */
  predicate Limited(force: real, length: real, droop: Option<real>) {
    force > 0.0 && length > 0.0 && droop.Some? && droop.value > 0.0
  }

  /** The droop of a cantilever of second moment `x`; also the second moment it takes for droop `x`:
      F L^3 / (3 E x). */
  function Cantilever(force: real, length: real, modulus: real, x: real): real
    requires modulus != 0.0 && x != 0.0
  {
    Over(force * (length * length * length), 3.0 * modulus, x)
  }

  function Over(load: real, k: real, x: real): real
    requires k != 0.0 && x != 0.0
  {
    NonZero(k, x);
    load / (k * x)
  }

  lemma NonZero(x: real, y: real)
    requires x != 0.0 && y != 0.0
    ensures x * y != 0.0
  {
  }

  /** None is a ZeroDivisionError. */
  function StiffnessOd(force: real, length: real, modulus: real, droop: Option<real>, wallMm: real): Option<real> {
    if !Limited(force, length, droop) then Some(2.0 * wallMm)
    else if modulus == 0.0 then None
    else Some(Bisect(Stiff(wallMm / 1000.0, Cantilever(force, length, modulus, droop.value)),
                     LowestOd(wallMm), LARGEST, STEPS).1 * 1000.0)
  }

  /** Least outer diameter, in millimetres, for the tip droop. */
  method RequiredTubeOdForStiffness(force: real, length: real, modulus: real, droop: Option<real>, wallMm: real)
    returns (odMm: Option<real>)
    ensures odMm == StiffnessOd(force, length, modulus, droop, wallMm)
  {
    if force <= 0.0 || length <= 0.0 || droop.None? || droop.value <= 0.0 {
      return Some(2.0 * wallMm);
    }
    if modulus == 0.0 {
      return None;
    }
    var required, wall := Cantilever(force, length, modulus, droop.value), wallMm / 1000.0;
    var lo, hi := 2.0 * wall + 0.0001, LARGEST;
    for i := 0 to STEPS
      invariant (lo, hi) == Bisect(Stiff(wall, required), LowestOd(wallMm), LARGEST, i)
    {
      var mid := (lo + hi) / 2.0;
      if SecondMoment(mid, wall) < required {
        lo := mid;
      } else {
        hi := mid;
      }
    }
    odMm := Some(hi * 1000.0);
  }

  /** The tube branch of the CAD dimensions: the larger of the two, and whether deflection governs. */
  method TubeDimension(
    bending: real, structSf: real, weight: real, length: real, stiffnessRatio: real, modulus: real, sigma: real,
    wallMm: real)
    returns (dim: Option<real>, deflectionGoverns: bool)
    ensures dim == TubeOd(bending, structSf, weight, length, stiffnessRatio, modulus, sigma, wallMm)
    ensures dim.Some? ==>
              (deflectionGoverns <==> Some(dim.value) != StressOd(DesignMoment(bending, structSf), wallMm, sigma))
  {
    deflectionGoverns := false;
    if length > 0.0 && stiffnessRatio == 0.0 {
      return None, false;
    }
    var droop := DroopLimit(length, stiffnessRatio);
    var stress := RequiredTubeOd(DesignMoment(bending, structSf), wallMm, sigma);
    var stiff := RequiredTubeOdForStiffness(weight, length, modulus, droop, wallMm);
    if stress.None? || stiff.None? {
      return None, false;
    }
    dim := Some(Max(stress.value, stiff.value));
    deflectionGoverns := stiff.value > stress.value;
  }

  /** How far the tip of a link may droop; a link of no length has no limit. */
  function DroopLimit(length: real, stiffnessRatio: real): Option<real> {
    if length > 0.0 && stiffnessRatio != 0.0 then Some(length / stiffnessRatio) else None
  }

  function DesignMoment(bending: real, structSf: real): real { bending * structSf }

  function TubeOd(
    bending: real, structSf: real, weight: real, length: real, stiffnessRatio: real, modulus: real, sigma: real,
    wallMm: real): Option<real>
  {
    if length > 0.0 && stiffnessRatio == 0.0 then None
    else LinkOd(DesignMoment(bending, structSf), weight, length, DroopLimit(length, stiffnessRatio), modulus, sigma, wallMm)
  }

  function LinkOd(
    moment: real, weight: real, length: real, droop: Option<real>, modulus: real, sigma: real, wallMm: real)
    : Option<real>
  {
    var stress, stiff := StressOd(moment, wallMm, sigma), StiffnessOd(weight, length, modulus, droop, wallMm);
    if stress.None? || stiff.None? then None else Some(Max(stress.value, stiff.value))
  }

  /** With a wall that is not negative, when the two diameters exist. */
  lemma TubeOdExists(
    bending: real, structSf: real, weight: real, length: real, stiffnessRatio: real, modulus: real, sigma: real,
    wallMm: real)
    requires LowestOd(wallMm) > 0.0
    ensures TubeOd(bending, structSf, weight, length, stiffnessRatio, modulus, sigma, wallMm).Some?
       <==> && (length > 0.0 ==> stiffnessRatio != 0.0)
            && (DesignMoment(bending, structSf) > 0.0 ==> sigma != 0.0)
            && (Limited(weight, length, DroopLimit(length, stiffnessRatio)) ==> modulus != 0.0)
  {
    LinkOdExists(DesignMoment(bending, structSf), weight, length, DroopLimit(length, stiffnessRatio), modulus, sigma, wallMm);
  }

  lemma LinkOdExists(
    moment: real, weight: real, length: real, droop: Option<real>, modulus: real, sigma: real, wallMm: real)
    requires LowestOd(wallMm) > 0.0
    ensures LinkOd(moment, weight, length, droop, modulus, sigma, wallMm).Some?
       <==> (moment > 0.0 ==> sigma != 0.0) && (Limited(weight, length, droop) ==> modulus != 0.0)
  {
    if moment > 0.0 && sigma != 0.0 {
      StressOdIsBisect(moment, wallMm, sigma);
    }
  }

  // ----- what the diameters guarantee -----

  /** The bending stress M/Z is within what the material allows. */
  predicate StressOk(moment: real, wall: real, sigma: real, od: real)
    requires wall > 0.0 && od > 0.0
  {
    SectionModulusGrows(od, wall, od + 1.0);
    moment / SectionModulus(od, wall) <= sigma
  }

  /** The tip droop F L^3 / (3 E I) is within its limit, if there is one. */
  predicate DroopOk(force: real, length: real, modulus: real, droop: Option<real>, wall: real, od: real)
    requires wall > 0.0 && od > 0.0 && modulus > 0.0
  {
    SecondMomentGrows(od, wall, od + 1.0);
    Limited(force, length, droop) ==> Cantilever(force, length, modulus, SecondMoment(od, wall)) <= droop.value
  }

  lemma QuotientBelow(x: real, y: real, z: real)
    requires y > 0.0
    ensures x / y <= z <==> x <= z * y
  {
    var p := x / y;
    assert p * y == x;
    if p <= z { assert (z - p) * y >= 0.0; } else { assert (p - z) * y > 0.0; }
  }

  lemma QuotientsSwap(x: real, y: real, z: real)
    requires y > 0.0 && z > 0.0
    ensures x / y <= z <==> y >= x / z
  {
    QuotientBelow(x, y, z);
    QuotientBelow(x, z, y);
    assert z * y == y * z;
  }

  lemma StrongIsStressOk(moment: real, wall: real, sigma: real, od: real)
    requires wall > 0.0 && sigma > 0.0 && od > 0.0
    ensures Strong(wall, moment / sigma)(od) <==> StressOk(moment, wall, sigma, od)
  {
    SectionModulusGrows(od, wall, od + 1.0);
    QuotientsSwap(moment, SectionModulus(od, wall), sigma);
  }

  lemma StiffIsDroopOk(force: real, length: real, modulus: real, droop: Option<real>, wall: real, od: real)
    requires wall > 0.0 && modulus > 0.0 && od > 0.0 && Limited(force, length, droop)
    ensures Stiff(wall, Cantilever(force, length, modulus, droop.value))(od)
       <==> DroopOk(force, length, modulus, droop, wall, od)
  {
    SecondMomentGrows(od, wall, od + 1.0);
    SwapFactor(force * (length * length * length), 3.0 * modulus, SecondMoment(od, wall), droop.value);
  }

  lemma SwapFactor(x: real, k: real, y: real, z: real)
    requires k > 0.0 && y > 0.0 && z > 0.0
    ensures Over(x, k, y) <= z <==> y >= Over(x, k, z)
  {
    QuotientsSwap(x / k, y, z);
    Nested(x, k, y);
    Nested(x, k, z);
  }

  lemma Nested(x: real, k: real, y: real)
    requires k > 0.0 && y > 0.0
    ensures Over(x, k, y) == (x / k) / y
  {
    NonZero(k, y);
    var q := (x / k) / y;
    assert q * y * k == x;
    assert q * (k * y) == x;
  }

  /** (0.5 - lo) / 2^100 */
  function Resolution(lo: real): real { (LARGEST - lo) / Pow2(STEPS) }

  /** `od` is, up to the search's resolution, the least diameter in the range that is ok, or the largest
      of the range if none is. */
  ghost predicate Least(ok: real -> bool, lo: real, od: real) {
    && 0.0 < od <= LARGEST && (ok(od) <==> ok(LARGEST)) && (!ok(LARGEST) ==> od == LARGEST)
    && forall x :: lo <= x <= LARGEST && ok(x) ==> od <= x + Resolution(lo)
  }

  lemma StrongUpwards(wall: real, required: real)
    requires wall > 0.0
    ensures UpwardClosed(Strong(wall, required), 0.0, LARGEST)
  {
    forall x, y | 0.0 <= x <= y <= LARGEST && Strong(wall, required)(x)
      ensures Strong(wall, required)(y)
    {
      if x < y { SectionModulusGrows(x, wall, y); }
    }
  }

  lemma StiffUpwards(wall: real, required: real)
    requires wall > 0.0 && required > 0.0
    ensures UpwardClosed(Stiff(wall, required), 0.0, LARGEST)
  {
    forall x, y | 0.0 <= x <= y <= LARGEST && Stiff(wall, required)(x)
      ensures Stiff(wall, required)(y)
    {
      if 0.0 < x < y { SecondMomentGrows(x, wall, y); }
    }
  }

  ghost predicate Agree(ok: real -> bool, ok': real -> bool) {
    forall x :: 0.0 < x <= LARGEST ==> ok(x) == ok'(x)
  }

  lemma SearchIsLeast(search: real -> bool, ok: real -> bool, lo: real)
    requires 0.0 < lo <= LARGEST && UpwardClosed(search, 0.0, LARGEST) && Agree(search, ok)
    ensures Least(ok, lo, Bisect(search, lo, LARGEST, STEPS).1)
  {
    assert UpwardClosed(search, lo, LARGEST);
    BisectionFindsLeast(search, lo, LARGEST, STEPS);
  }

  lemma ResolutionNonNegative(lo: real)
    requires lo <= LARGEST
    ensures Resolution(lo) >= 0.0
  {
    NotNegative(LARGEST - lo, Pow2(STEPS));
  }

  lemma NotNegative(gap: real, p: real)
    requires gap >= 0.0 && p >= 1.0
    ensures gap / p >= 0.0
  {
  }

  /** The stress search: its diameter keeps the bending stress within the limit exactly when 500 mm does,
      exceeds no diameter in range that does by more than (0.5 - lo)/2^100 metres, and if even 500 mm
      does not, 500 mm is what is returned, without an error. */
  lemma StressOdIsLeast(moment: real, wallMm: real, sigma: real, ok: real -> bool)
    requires wallMm > 0.0 && sigma > 0.0 && LowestOd(wallMm) < LARGEST
    requires forall od :: od > 0.0 ==> ok(od) == StressOk(moment, wallMm / 1000.0, sigma, od)
    ensures StressOd(moment, wallMm, sigma).Some?
    ensures Least(ok, LowestOd(wallMm), StressOd(moment, wallMm, sigma).value / 1000.0)
  {
    var wall, lo := wallMm / 1000.0, LowestOd(wallMm);
    if moment <= 0.0 {
      forall od | od > 0.0
        ensures ok(od)
      {
        SectionModulusGrows(od, wall, od + 1.0);
        QuotientSign(moment, SectionModulus(od, wall));
      }
      ResolutionNonNegative(lo);
    } else {
      var search := Strong(wall, moment / sigma);
      StressOdIsBisect(moment, wallMm, sigma);
      forall od | 0.0 < od <= LARGEST
        ensures search(od) == ok(od)
      {
        StrongIsStressOk(moment, wall, sigma, od);
      }
      StrongUpwards(wall, moment / sigma);
      SearchIsLeast(search, ok, lo);
    }
  }

  /** A tube that 500 mm is too weak for: 500 mm is what comes back. */
  lemma InadequateTubeIsReturned(moment: real, wallMm: real, sigma: real)
    requires moment == 1.0 && wallMm == 100.0 && sigma == 1.0
    ensures StressOd(moment, wallMm, sigma) == Some(500.0)
    ensures !StressOk(moment, wallMm / 1000.0, sigma, 0.5)
  {
    var ok := (od: real) => od > 0.0 && StressOk(moment, wallMm / 1000.0, sigma, od);
    WidestIsWeak();
    StressOdIsLeast(moment, wallMm, sigma, ok);
  }

  lemma WidestIsWeak()
    ensures 0.0 < SectionModulus(0.5, 0.1) < 1.0 && 1.0 / SectionModulus(0.5, 0.1) > 1.0
  {
    var z := SectionModulus(0.5, 0.1);
    assert Area(0.5, 0.1) == 0.0544;
    QuotientAboveOne(z);
  }

  lemma QuotientAboveOne(z: real)
    requires 0.0 < z < 1.0
    ensures 1.0 / z > 1.0
  {
    assert 1.0 / z * z == 1.0;
  }

  lemma QuotientSign(x: real, d: real)
    requires d > 0.0
    ensures (x <= 0.0 ==> x / d <= 0.0) && (x > 0.0 ==> x / d > 0.0)
  {
  }

  /** The stiffness search, likewise for the tip droop. */
  lemma StiffnessOdIsLeast(force: real, length: real, modulus: real, droop: Option<real>, wallMm: real, ok: real -> bool)
    requires wallMm > 0.0 && modulus > 0.0 && LowestOd(wallMm) < LARGEST
    requires forall od :: od > 0.0 ==> ok(od) == DroopOk(force, length, modulus, droop, wallMm / 1000.0, od)
    ensures StiffnessOd(force, length, modulus, droop, wallMm).Some?
    ensures Least(ok, LowestOd(wallMm), StiffnessOd(force, length, modulus, droop, wallMm).value / 1000.0)
  {
    var wall, lo := wallMm / 1000.0, LowestOd(wallMm);
    if !Limited(force, length, droop) {
      ResolutionNonNegative(lo);
    } else {
      var required := Cantilever(force, length, modulus, droop.value);
      var search := Stiff(wall, required);
      forall od | 0.0 < od <= LARGEST
        ensures search(od) == ok(od)
      {
        StiffIsDroopOk(force, length, modulus, droop, wall, od);
      }
      RequiredIsPositive(force, length, modulus, droop.value);
      StiffUpwards(wall, required);
      SearchIsLeast(search, ok, lo);
    }
  }

  lemma RequiredIsPositive(force: real, length: real, modulus: real, droop: real)
    requires force > 0.0 && length > 0.0 && modulus > 0.0 && droop > 0.0
    ensures Cantilever(force, length, modulus, droop) > 0.0
  {
    CubePositive(length);
    TimesPositive(force, length * length * length);
    OverPositive(force * (length * length * length), 3.0 * modulus, droop);
  }

  lemma TimesPositive(x: real, y: real)
    requires x > 0.0 && y > 0.0
    ensures x * y > 0.0
  {
  }

  lemma SquareOf(x: real) returns (square: real)
    requires x > 0.0
    ensures square == x * x && square > 0.0
  {
    SquareGrows(0.0, x);
    square := x * x;
  }

  lemma CubePositive(x: real)
    requires x > 0.0
    ensures x * x * x > 0.0
  {
    var square := SquareOf(x);
    TimesPositive(square, x);
  }

  lemma OverPositive(load: real, k: real, x: real)
    requires load > 0.0 && k > 0.0 && x > 0.0
    ensures Over(load, k, x) > 0.0
  {
    Nested(load, k, x);
    QuotientSign(load, k);
    QuotientSign(load / k, x);
  }

  lemma BiggerIsStronger(moment: real, wall: real, sigma: real, od: real, od': real)
    requires wall > 0.0 && sigma > 0.0 && 0.0 < od <= od' && StressOk(moment, wall, sigma, od)
    ensures StressOk(moment, wall, sigma, od')
  {
    StrongIsStressOk(moment, wall, sigma, od);
    StrongIsStressOk(moment, wall, sigma, od');
    if od < od' { SectionModulusGrows(od, wall, od'); }
  }

  lemma BiggerIsStiffer(
    force: real, length: real, modulus: real, droop: Option<real>, wall: real, od: real, od': real)
    requires wall > 0.0 && modulus > 0.0 && 0.0 < od <= od' && DroopOk(force, length, modulus, droop, wall, od)
    ensures DroopOk(force, length, modulus, droop, wall, od')
  {
    if Limited(force, length, droop) {
      StiffIsDroopOk(force, length, modulus, droop, wall, od);
      StiffIsDroopOk(force, length, modulus, droop, wall, od');
      if od < od' { SecondMomentGrows(od, wall, od'); }
    }
  }

  lemma LargerOfTwo(strong: real -> bool, stiff: real -> bool, lo: real, a: real, b: real)
    requires Least(strong, lo, a) && Least(stiff, lo, b)
    requires UpwardClosed(strong, a, LARGEST) && UpwardClosed(stiff, b, LARGEST)
    ensures var od := Max(a, b);
            && 0.0 < od <= LARGEST
            && (strong(od) && stiff(od) <==> strong(LARGEST) && stiff(LARGEST))
            && forall x :: lo <= x <= LARGEST && strong(x) && stiff(x) ==> od <= x + Resolution(lo)
  {
  }

  /** The chosen tube, the larger of the two, keeps both the bending stress and the tip droop within
      their limits exactly when a 500 mm tube does, and is then no larger than any tube in range that
      does both, up to (0.5 - lo)/2^100 metres. */
  lemma LinkMeetsBothLimits(
    moment: real, weight: real, length: real, droop: Option<real>, modulus: real, sigma: real, wallMm: real)
    requires wallMm > 0.0 && modulus > 0.0 && sigma > 0.0 && LowestOd(wallMm) < LARGEST
    ensures LinkOd(moment, weight, length, droop, modulus, sigma, wallMm).Some?
    ensures var od, wall, lo := LinkOd(moment, weight, length, droop, modulus, sigma, wallMm).value / 1000.0,
                                wallMm / 1000.0, LowestOd(wallMm);
            && 0.0 < od <= LARGEST
            && (StressOk(moment, wall, sigma, od) && DroopOk(weight, length, modulus, droop, wall, od)
                <==> StressOk(moment, wall, sigma, LARGEST) && DroopOk(weight, length, modulus, droop, wall, LARGEST))
            && forall x :: lo <= x <= LARGEST && StressOk(moment, wall, sigma, x)
                           && DroopOk(weight, length, modulus, droop, wall, x) ==>
                 od <= x + Resolution(lo)
  {
    var wall, lo := wallMm / 1000.0, LowestOd(wallMm);
    var strong := (od: real) => od > 0.0 && StressOk(moment, wall, sigma, od);
    var stiff := (od: real) => od > 0.0 && DroopOk(weight, length, modulus, droop, wall, od);
    StressOdIsLeast(moment, wallMm, sigma, strong);
    StiffnessOdIsLeast(weight, length, modulus, droop, wallMm, stiff);
    forall x, y | 0.0 <= x <= y <= LARGEST && strong(x)
      ensures strong(y)
    {
      BiggerIsStronger(moment, wall, sigma, x, y);
    }
    forall x, y | 0.0 <= x <= y <= LARGEST && stiff(x)
      ensures stiff(y)
    {
      BiggerIsStiffer(weight, length, modulus, droop, wall, x, y);
    }
    LargerOfTwo(strong, stiff, lo, StressOd(moment, wallMm, sigma).value / 1000.0,
                StiffnessOd(weight, length, modulus, droop, wallMm).value / 1000.0);
    var od := LinkOd(moment, weight, length, droop, modulus, sigma, wallMm).value / 1000.0;
    forall x | lo <= x <= LARGEST && StressOk(moment, wall, sigma, x) && DroopOk(weight, length, modulus, droop, wall, x)
      ensures od <= x + Resolution(lo)
    {
      assert strong(x) && stiff(x);
    }
  }

  // ----- in terms of yield stress and stiffness ratio -----

  /** M * safety / Z <= yield */
  predicate BelowYield(moment: real, safety: real, yieldPa: real, wall: real, od: real)
    requires od > 0.0
  {
    moment * safety <= yieldPa * SectionModulus(od, wall)
  }

  /** F L^3 / (3 E I) <= L / ratio, for a link that has a length and bears a weight. */
  predicate StraightEnough(weight: real, length: real, ratio: real, modulus: real, wall: real, od: real) {
    length > 0.0 && weight > 0.0 ==>
      weight * (length * length * length) * ratio <= length * (3.0 * modulus * SecondMoment(od, wall))
  }

  lemma QuotientsCompare(a: real, b: real, c: real, d: real)
    requires b > 0.0 && d > 0.0
    ensures a / b <= c / d <==> a * d <= c * b
  {
    var x, y := a / b, c / d;
    assert x * b == a && y * d == c;
    assert a * d == x * (b * d) && c * b == y * (b * d);
    assert b * d > 0.0;
    if x <= y { assert (y - x) * (b * d) >= 0.0; } else { assert (x - y) * (b * d) > 0.0; }
  }

  lemma StressOkMeans(moment: real, wall: real, yieldPa: real, safety: real, od: real)
    requires wall > 0.0 && safety > 0.0 && od > 0.0
    ensures StressOk(moment, wall, yieldPa / safety, od) <==> BelowYield(moment, safety, yieldPa, wall, od)
  {
    SectionModulusGrows(od, wall, od + 1.0);
    QuotientsCompare(moment, SectionModulus(od, wall), yieldPa, safety);
  }

  lemma LimitedMeans(weight: real, length: real, ratio: real)
    requires ratio > 0.0
    ensures Limited(weight, length, DroopLimit(length, ratio)) <==> length > 0.0 && weight > 0.0
  {
    QuotientSign(length, ratio);
  }

  lemma DroopOkMeans(weight: real, length: real, ratio: real, modulus: real, wall: real, od: real)
    requires wall > 0.0 && modulus > 0.0 && ratio > 0.0 && od > 0.0
    ensures DroopOk(weight, length, modulus, DroopLimit(length, ratio), wall, od)
       <==> StraightEnough(weight, length, ratio, modulus, wall, od)
  {
    LimitedMeans(weight, length, ratio);
    SecondMomentGrows(od, wall, od + 1.0);
    var k, i := 3.0 * modulus, SecondMoment(od, wall);
    TimesPositive(k, i);
    QuotientsCompare(weight * (length * length * length), k * i, length, ratio);
  }

  /** Both limits, as the searches check them and as they are meant. */
  lemma BothMean(moment: real, weight: real, length: real, ratio: real, modulus: real, yieldPa: real, safety: real,
                 wall: real, od: real)
    requires wall > 0.0 && modulus > 0.0 && ratio > 0.0 && safety > 0.0 && od > 0.0
    ensures StressOk(moment, wall, yieldPa / safety, od) && DroopOk(weight, length, modulus, DroopLimit(length, ratio), wall, od)
       <==> BelowYield(moment, safety, yieldPa, wall, od) && StraightEnough(weight, length, ratio, modulus, wall, od)
  {
    StressOkMeans(moment, wall, yieldPa, safety, od);
    DroopOkMeans(weight, length, ratio, modulus, wall, od);
  }

  /** Strong and straight enough. */
  predicate HoldsUp(moment: real, weight: real, length: real, ratio: real, modulus: real, yieldPa: real, safety: real,
                    wallMm: real, od: real)
    requires od > 0.0
  {
    var wall := wallMm / 1000.0;
    BelowYield(moment, safety, yieldPa, wall, od) && StraightEnough(weight, length, ratio, modulus, wall, od)
  }

  /** No diameter in range that holds up is below `od` by more than the search's resolution. */
  ghost predicate LeastHolding(moment: real, weight: real, length: real, ratio: real, modulus: real, yieldPa: real,
                               safety: real, wallMm: real, od: real)
    requires LowestOd(wallMm) > 0.0
  {
    forall x :: LowestOd(wallMm) <= x <= LARGEST ==>
      HoldsUp(moment, weight, length, ratio, modulus, yieldPa, safety, wallMm, x) ==> od <= x + Resolution(LowestOd(wallMm))
  }

  lemma SafeLink(moment: real, weight: real, length: real, ratio: real, modulus: real, yieldPa: real, safety: real,
                 wallMm: real, sigma: real, droop: Option<real>) returns (od: real)
    requires wallMm > 0.0 && modulus > 0.0 && ratio > 0.0 && safety > 0.0 && yieldPa > 0.0 && LowestOd(wallMm) < LARGEST
    requires sigma == yieldPa / safety && droop == DroopLimit(length, ratio)
    ensures LinkOd(moment, weight, length, droop, modulus, sigma, wallMm) == Some(od * 1000.0) && 0.0 < od <= LARGEST
    ensures HoldsUp(moment, weight, length, ratio, modulus, yieldPa, safety, wallMm, od)
       <==> HoldsUp(moment, weight, length, ratio, modulus, yieldPa, safety, wallMm, LARGEST)
    ensures LeastHolding(moment, weight, length, ratio, modulus, yieldPa, safety, wallMm, od)
  {
    QuotientSign(yieldPa, safety);
    LinkMeetsBothLimits(moment, weight, length, droop, modulus, sigma, wallMm);
    od := LinkOd(moment, weight, length, droop, modulus, sigma, wallMm).value / 1000.0;
    forall x | x > 0.0
      ensures StressOk(moment, wallMm / 1000.0, sigma, x) && DroopOk(weight, length, modulus, droop, wallMm / 1000.0, x)
         <==> HoldsUp(moment, weight, length, ratio, modulus, yieldPa, safety, wallMm, x)
    {
      BothMean(moment, weight, length, ratio, modulus, yieldPa, safety, wallMm / 1000.0, x);
    }
  }

  lemma SafeTube(bending: real, structSf: real, weight: real, length: real, ratio: real, modulus: real, yieldPa: real,
                 safety: real, wallMm: real) returns (od: real)
    requires wallMm > 0.0 && modulus > 0.0 && ratio > 0.0 && safety > 0.0 && yieldPa > 0.0 && LowestOd(wallMm) < LARGEST
    ensures TubeOd(bending, structSf, weight, length, ratio, modulus, yieldPa / safety, wallMm) == Some(od * 1000.0)
    ensures 0.0 < od <= LARGEST
    ensures HoldsUp(DesignMoment(bending, structSf), weight, length, ratio, modulus, yieldPa, safety, wallMm, od)
       <==> HoldsUp(DesignMoment(bending, structSf), weight, length, ratio, modulus, yieldPa, safety, wallMm, LARGEST)
    ensures LeastHolding(DesignMoment(bending, structSf), weight, length, ratio, modulus, yieldPa, safety, wallMm, od)
  {
    od := SafeLink(DesignMoment(bending, structSf), weight, length, ratio, modulus, yieldPa, safety, wallMm, yieldPa / safety,
                   DroopLimit(length, ratio));
  }
}
