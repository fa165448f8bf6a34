/** The link cross-section of a joint, and where computing it raises (pibot/arm/sizing.py). */
module CadDimensions {
  import opened Wrappers
  import JointSizing
  import TubeSizing

  /** The material and section that all links of an arm share. */
  datatype Link = Link(
    rect: bool, wallMm: real, structSf: real, stiffnessRatio: real, yieldMpa: real, safety: real, modulusGpa: real)

  function Allowable(link: Link): real
    requires link.safety != 0.0
  {
    link.yieldMpa * 1000000.0 / link.safety
  }

  function Modulus(link: Link): real { link.modulusGpa * 1000000000.0 }

  /** The moment a link is sized for: gravity on everything distal, whatever the axis, and the dynamic torque. */
  function Bending(loads: seq<JointSizing.Load>, dynamic: real): real {
    JointSizing.G_ACCEL * JointSizing.Moment(loads) + dynamic
  }

  function Weight(loads: seq<JointSizing.Load>): real { JointSizing.G_ACCEL * JointSizing.Total(loads).mass }

  /** The square root over stress * width, and the cube root over modulus * width, exist and can be compared. */
  predicate RectExists(link: Link, length: real, bending: real, weight: real)
    requires link.safety != 0.0
  {
    var width := link.wallMm / 1000.0;
    && (length > 0.0 ==> link.stiffnessRatio != 0.0)
    && (TubeSizing.DesignMoment(bending, link.structSf) > 0.0 ==> Allowable(link) * width > 0.0)
    && (TubeSizing.Limited(weight, length, TubeSizing.DroopLimit(length, link.stiffnessRatio)) ==>
          Modulus(link) * width > 0.0)
  }

  function TubeOd(link: Link, length: real, bending: real, weight: real): Option<real>
    requires link.safety != 0.0
  {
    TubeSizing.TubeOd(
      bending, link.structSf, weight, length, link.stiffnessRatio, Modulus(link), Allowable(link), link.wallMm)
  }

  /** A section is found, instead of an error raised. */
  predicate Sized(link: Link, length: real, bending: real, weight: real) {
    && link.safety != 0.0
    && if link.rect then RectExists(link, length, bending, weight) else TubeOd(link, length, bending, weight).Some?
  }

  /** `dim` is the outer diameter in millimetres; that of a rectangular bar is not part of the result. */
  method Section(link: Link, length: real, distal: seq<JointSizing.Load>, dynamic: real)
    returns (ok: bool, dim: Option<real>)
    ensures ok <==> Sized(link, length, Bending(distal, dynamic), Weight(distal))
    ensures ok && !link.rect ==> dim == TubeOd(link, length, Bending(distal, dynamic), Weight(distal))
  {
    var bending, weight := Bending(distal, dynamic), Weight(distal);
    if link.safety == 0.0 {
      return false, None;
    }
    if link.rect {
      return RectExists(link, length, bending, weight), None;
    }
    var governs: bool;
    dim, governs := TubeSizing.TubeDimension(
      bending, link.structSf, weight, length, link.stiffnessRatio, Modulus(link), Allowable(link), link.wallMm);
    ok := dim.Some?;
  }

  /** With a wall that is not negative, exactly when a tube is sized: unless one of the source's divisors
      is zero where it is used. */
  lemma TubeSizedIff(link: Link, length: real, bending: real, weight: real)
    requires !link.rect && link.wallMm >= 0.0
    ensures Sized(link, length, bending, weight) <==>
              && link.safety != 0.0 && (length > 0.0 ==> link.stiffnessRatio != 0.0)
              && (TubeSizing.DesignMoment(bending, link.structSf) > 0.0 ==> Allowable(link) != 0.0)
              && (TubeSizing.Limited(weight, length, TubeSizing.DroopLimit(length, link.stiffnessRatio)) ==>
                    Modulus(link) != 0.0)
  {
    if link.safety != 0.0 {
      TubeSizing.TubeOdExists(
        bending, link.structSf, weight, length, link.stiffnessRatio, Modulus(link), Allowable(link), link.wallMm);
    }
  }

  // ----- what the tube holds -----

  function Yield(link: Link): real { link.yieldMpa * 1000000.0 }

  /** A tube of this diameter holds up: the bending moment with the structural factor, times the safety factor,
      over the section modulus is within the material's yield stress; and the tip of the link droops no more
      than its length over the stiffness ratio. */
  predicate HoldsUp(link: Link, length: real, bending: real, weight: real, od: real)
    requires od > 0.0
  {
    TubeSizing.HoldsUp(TubeSizing.DesignMoment(bending, link.structSf), weight, length, link.stiffnessRatio, Modulus(link), Yield(link),
                       link.safety, link.wallMm, od)
  }

  /** In formulas: M * sf * safety <= yield * Z, and F L^3 * ratio <= L * (3 E I) for a link with length and
      weight. */
  lemma HoldsUpMeans(link: Link, length: real, bending: real, weight: real, od: real)
    requires od > 0.0
    ensures var wall := link.wallMm / 1000.0;
            HoldsUp(link, length, bending, weight, od) <==>
              && bending * link.structSf * link.safety <= link.yieldMpa * 1000000.0 * TubeSizing.SectionModulus(od, wall)
              && (length > 0.0 && weight > 0.0 ==>
                    weight * (length * length * length) * link.stiffnessRatio
                    <= length * (3.0 * (link.modulusGpa * 1000000000.0) * TubeSizing.SecondMoment(od, wall)))
  {
  }

  lemma TubeOdIs(link: Link, length: real, bending: real, weight: real, yieldPa: real)
    requires link.safety != 0.0 && yieldPa == Yield(link)
    ensures TubeOd(link, length, bending, weight)
         == TubeSizing.TubeOd(bending, link.structSf, weight, length, link.stiffnessRatio, Modulus(link),
                              yieldPa / link.safety, link.wallMm)
  {
  }

  lemma PascalsPositive(link: Link)
    requires link.yieldMpa > 0.0 && link.modulusGpa > 0.0
    ensures Yield(link) > 0.0 && Modulus(link) > 0.0
  {
  }

  /** The tube a link gets holds up exactly if one of 500 mm does, and then no tube in range that does is
      thinner by more than (0.5 - lo)/2^100 metres. */
  lemma TubeHolds(link: Link, length: real, bending: real, weight: real) returns (od: real)
    requires !link.rect && link.wallMm > 0.0 && link.safety > 0.0 && link.yieldMpa > 0.0 && link.modulusGpa > 0.0
    requires link.stiffnessRatio > 0.0 && TubeSizing.LowestOd(link.wallMm) < 0.5
    ensures TubeOd(link, length, bending, weight) == Some(od * 1000.0) && 0.0 < od <= 0.5
    ensures HoldsUp(link, length, bending, weight, od) <==> HoldsUp(link, length, bending, weight, 0.5)
    ensures TubeSizing.LeastHolding(TubeSizing.DesignMoment(bending, link.structSf), weight, length, link.stiffnessRatio, Modulus(link), Yield(link),
                                    link.safety, link.wallMm, od)
  {
    PascalsPositive(link);
    TubeOdIs(link, length, bending, weight, Yield(link));
    od := TubeSizing.SafeTube(bending, link.structSf, weight, length, link.stiffnessRatio, Modulus(link), Yield(link),
                              link.safety, link.wallMm);
  }
}
