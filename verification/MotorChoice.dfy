/** Picking a motor and gear for a joint (pibot/arm/sizing.py). */
module MotorChoice {
  import opened Wrappers
  import opened JointSizing
  import TubeSizing
  import CadDimensions

  datatype Motor = Motor(holding: real, fullSteps: int, maxRpm: real)

  datatype Gear = Gear(ratio: real, efficiency: real)

  datatype Arm = Arm(
    joints: seq<Joint>, payload: real, motors: seq<Motor>, gears: seq<Gear>, ceiling: real, link: CadDimensions.Link)

  /** What a pair must deliver. */
  datatype Needs = Needs(torque: real, usable: real, speed: real, microsteps: int, ceiling: real)

  datatype Candidate = Candidate(
    motor: Motor, gear: Gear, stepsPerDeg: real, motorTorque: real, stepRate: real, rpm: real,
    torqueOk: bool, speedOk: bool)

  /** A division by zero, or a root of a negative number. */
  datatype Error = BadArithmetic | EmptyCatalogue

  /** The sizing of a joint; a margin of None is infinite. */
  datatype Sizing = Sizing(chosen: Candidate, adequate: bool, margin: Option<real>, achievable: real)

  function Radians(deg: real): real { deg * TubeSizing.PI / 180.0 }

  function DynamicTorque(inertia: real, alpha: real): real { inertia * alpha }

  function RequiredTorque(static': real, dynamic: real, safetyFactor: real): real { safetyFactor * (static' + dynamic) }

  function Dynamic(arm: Arm, index: nat): real
    requires index < |arm.joints|
  {
    DynamicTorque(Inertia(Table(arm.joints[index..], arm.payload)), Radians(arm.joints[index].targetAccel))
  }

  /** A section for the joint's link is found. */
  predicate LinkSized(arm: Arm, index: nat)
    requires index < |arm.joints|
  {
    var loads := Table(arm.joints[index..], arm.payload);
    CadDimensions.Sized(arm.link, arm.joints[index].length,
                        CadDimensions.Bending(loads, Dynamic(arm, index)), CadDimensions.Weight(loads))
  }

  function Requirement(arm: Arm, index: nat): Needs
    requires index < |arm.joints|
  {
    var j, loads := arm.joints[index], Table(arm.joints[index..], arm.payload);
    Needs(RequiredTorque(StaticTorque(loads, j.vertical), Dynamic(arm, index), j.safetyFactor),
          j.usable, j.targetSpeed, j.microsteps, arm.ceiling)
  }

  function StepsPerDeg(fullSteps: int, microsteps: int, ratio: real): real {
    (fullSteps * microsteps) as real * ratio / 360.0
  }

  predicate Usable(g: Gear) { g.ratio * g.efficiency != 0.0 }

  /** The torque the motor must produce through the gear. */
  function MotorTorque(needs: Needs, g: Gear): real
    requires Usable(g)
  {
    needs.torque / (g.ratio * g.efficiency)
  }

  predicate Covers(needs: Needs, m: Motor, g: Gear)
    requires Usable(g)
  {
    m.holding * needs.usable >= MotorTorque(needs, g)
  }

  predicate Fast(needs: Needs, m: Motor, g: Gear) {
    && needs.speed * StepsPerDeg(m.fullSteps, needs.microsteps, g.ratio) <= needs.ceiling
    && needs.speed * g.ratio / 6.0 <= m.maxRpm
  }

  function Evaluate(needs: Needs, m: Motor, g: Gear): Candidate
    requires Usable(g)
  {
    var spd := StepsPerDeg(m.fullSteps, needs.microsteps, g.ratio);
    Candidate(m, g, spd, MotorTorque(needs, g), needs.speed * spd, needs.speed * g.ratio / 6.0,
              Covers(needs, m, g), Fast(needs, m, g))
  }

  predicate AllUsable(gears: seq<Gear>) { forall g :: g in gears ==> Usable(g) }

  function Row(needs: Needs, m: Motor, gears: seq<Gear>): seq<Candidate>
    requires AllUsable(gears)
  {
    if |gears| == 0 then []
    else
      var rest := gears[..|gears| - 1];
      assert AllUsable(rest);
      assert gears[|gears| - 1] in gears;
      Row(needs, m, rest) + [Evaluate(needs, m, gears[|gears| - 1])]
  }

  /** Every motor with every gear, motors outermost. */
  function Pairs(needs: Needs, motors: seq<Motor>, gears: seq<Gear>): seq<Candidate>
    requires AllUsable(gears)
  {
    if |motors| == 0 then []
    else Pairs(needs, motors[..|motors| - 1], gears) + Row(needs, motors[|motors| - 1], gears)
  }

  method EvaluateRow(needs: Needs, m: Motor, gears: seq<Gear>) returns (r: Result<seq<Candidate>, Error>)
    ensures r.Success? <==> AllUsable(gears)
    ensures r.Success? ==> r.value == Row(needs, m, gears)
    ensures r.Failure? ==> r.error == BadArithmetic
  {
    var row: seq<Candidate> := [];
    for k := 0 to |gears|
      invariant AllUsable(gears[..k])
      invariant row == Row(needs, m, gears[..k])
    {
      if !Usable(gears[k]) {
        assert gears[k] in gears;
        return Failure(BadArithmetic);
      }
      AddGear(needs, m, gears, k);
      row := row + [Evaluate(needs, m, gears[k])];
    }
    assert gears[..|gears|] == gears;
    r := Success(row);
  }

  lemma AddGear(needs: Needs, m: Motor, gears: seq<Gear>, k: nat)
    requires k < |gears| && AllUsable(gears[..k]) && Usable(gears[k])
    ensures AllUsable(gears[..k + 1])
    ensures Row(needs, m, gears[..k + 1]) == Row(needs, m, gears[..k]) + [Evaluate(needs, m, gears[k])]
  {
    assert gears[..k + 1][..k] == gears[..k] && gears[..k + 1] == gears[..k] + [gears[k]];
  }

  method Candidates(needs: Needs, motors: seq<Motor>, gears: seq<Gear>) returns (r: Result<seq<Candidate>, Error>)
    ensures r.Success? <==> |motors| == 0 || AllUsable(gears)
    ensures r.Success? ==> r.value == if |motors| == 0 then [] else Pairs(needs, motors, gears)
    ensures r.Failure? ==> r.error == BadArithmetic
  {
    var all: seq<Candidate> := [];
    for i := 0 to |motors|
      invariant i > 0 ==> AllUsable(gears)
      invariant all == if i == 0 then [] else Pairs(needs, motors[..i], gears)
    {
      var row := EvaluateRow(needs, motors[i], gears);
      if row.Failure? {
        return Failure(row.error);
      }
      AddMotor(needs, motors, gears, i);
      all := all + row.value;
    }
    assert motors[..|motors|] == motors;
    r := Success(all);
  }

  lemma AddMotor(needs: Needs, motors: seq<Motor>, gears: seq<Gear>, i: nat)
    requires i < |motors| && AllUsable(gears)
    ensures Pairs(needs, motors[..i + 1], gears) == Pairs(needs, motors[..i], gears) + Row(needs, motors[i], gears)
    ensures i == 0 ==> Pairs(needs, motors[..i], gears) == []
  {
    assert motors[..i + 1][..i] == motors[..i];
  }

  function Filter(all: seq<Candidate>, needSpeed: bool): seq<Candidate> {
    if |all| == 0 then []
    else
      var last := all[|all| - 1];
      Filter(all[..|all| - 1], needSpeed)
        + if last.torqueOk && (needSpeed ==> last.speedOk) then [last] else []
  }

  lemma {:induction false} FilterKeeps(all: seq<Candidate>, needSpeed: bool)
    ensures forall c :: c in Filter(all, needSpeed) <==> c in all && c.torqueOk && (needSpeed ==> c.speedOk)
  {
    if |all| == 0 {
    } else {
      FilterKeeps(all[..|all| - 1], needSpeed);
      assert all == all[..|all| - 1] + [all[|all| - 1]];
    }
  }

  /** Lexicographic order on (holding torque, gear ratio). */
  predicate Smaller(a: Candidate, b: Candidate) {
    a.motor.holding < b.motor.holding || (a.motor.holding == b.motor.holding && a.gear.ratio < b.gear.ratio)
  }

  function Headroom(needs: Needs, c: Candidate): real { c.motor.holding * needs.usable - c.motorTorque }

  /** Python's min: the first candidate no other is smaller than. */
  function FirstLeast(all: seq<Candidate>): (c: Candidate)
    requires |all| > 0
    ensures c in all
  {
    var last := all[|all| - 1];
    if |all| == 1 then last
    else
      var c := FirstLeast(all[..|all| - 1]);
      if Smaller(last, c) then last else c
  }

  lemma {:induction false} NoneSmaller(all: seq<Candidate>)
    requires |all| > 0
    ensures forall c :: c in all ==> !Smaller(c, FirstLeast(all))
  {
    if |all| > 1 {
      NoneSmaller(all[..|all| - 1]);
      assert all == all[..|all| - 1] + [all[|all| - 1]];
    }
  }

  /** Python's max by torque headroom. */
  function FirstClosest(needs: Needs, all: seq<Candidate>): (c: Candidate)
    requires |all| > 0
    ensures c in all
  {
    var last := all[|all| - 1];
    if |all| == 1 then last
    else
      var c := FirstClosest(needs, all[..|all| - 1]);
      if Headroom(needs, last) > Headroom(needs, c) then last else c
  }

  lemma {:induction false} NoneCloser(needs: Needs, all: seq<Candidate>)
    requires |all| > 0
    ensures forall c :: c in all ==> Headroom(needs, c) <= Headroom(needs, FirstClosest(needs, all))
  {
    if |all| > 1 {
      NoneCloser(needs, all[..|all| - 1]);
      assert all == all[..|all| - 1] + [all[|all| - 1]];
    }
  }

  function Choose(needs: Needs, all: seq<Candidate>): (Candidate, bool)
    requires |all| > 0
  {
    var valids, torqueOks := Filter(all, true), Filter(all, false);
    if |valids| > 0 then (FirstLeast(valids), true)
    else if |torqueOks| > 0 then (FirstLeast(torqueOks), true)
    else (FirstClosest(needs, all), false)
  }

  function Margin(needs: Needs, c: Candidate): Option<real> {
    if c.motorTorque > 0.0 then Some(c.motor.holding * needs.usable / c.motorTorque) else None
  }

  function Capped(rate: real, ceiling: real): real { if ceiling < rate then ceiling else rate }

  function Size(needs: Needs, motors: seq<Motor>, gears: seq<Gear>): Result<Sizing, Error> {
    if |motors| == 0 || |gears| == 0 then Failure(EmptyCatalogue)
    else if !AllUsable(gears) then Failure(BadArithmetic)
    else
      PairsNonEmpty(needs, motors, gears);
      var (c, adequate) := Choose(needs, Pairs(needs, motors, gears));
      if c.stepsPerDeg == 0.0 then Failure(BadArithmetic)
      else Success(Sizing(c, adequate, Margin(needs, c), Capped(c.stepRate, needs.ceiling) / c.stepsPerDeg))
  }

  lemma PairsNonEmpty(needs: Needs, motors: seq<Motor>, gears: seq<Gear>)
    requires AllUsable(gears) && |motors| > 0 && |gears| > 0
    ensures |Pairs(needs, motors, gears)| > 0
  {
  }

  lemma {:induction false} NoGears(needs: Needs, motors: seq<Motor>)
    ensures Pairs(needs, motors, []) == []
  {
    if |motors| > 0 { NoGears(needs, motors[..|motors| - 1]); }
  }

  method Select(needs: Needs, motors: seq<Motor>, gears: seq<Gear>) returns (r: Result<Sizing, Error>)
    ensures r == Size(needs, motors, gears)
  {
    var all := Candidates(needs, motors, gears);
    if |gears| == 0 {
      assert gears == [];
      NoGears(needs, motors);
    }
    if all.Failure? {
      return Failure(all.error);
    }
    if |all.value| == 0 {
      return Failure(EmptyCatalogue);
    }
    var (c, adequate) := Choose(needs, all.value);
    if c.stepsPerDeg == 0.0 {
      return Failure(BadArithmetic);
    }
    r := Success(Sizing(c, adequate, Margin(needs, c), Capped(c.stepRate, needs.ceiling) / c.stepsPerDeg));
  }

  /** The sizing of a joint, which takes a section for its link as well. */
  function SizeWithLink(arm: Arm, index: nat): Result<Sizing, Error>
    requires index < |arm.joints|
  {
    var r := Size(Requirement(arm, index), arm.motors, arm.gears);
    if r.Success? && !LinkSized(arm, index) then Failure(BadArithmetic) else r
  }

  method SizeJoint(arm: Arm, index: nat) returns (r: Result<Sizing, Error>)
    requires index < |arm.joints|
    ensures r == SizeWithLink(arm, index)
  {
    var jc := arm.joints[index];
    var distal := DistalMasses(arm.joints, arm.payload, index);
    var dynamic := DynamicTorque(Inertia(distal), Radians(jc.targetAccel));
    var torque := RequiredTorque(StaticTorque(distal, jc.vertical), dynamic, jc.safetyFactor);
    r := Select(Needs(torque, jc.usable, jc.targetSpeed, jc.microsteps, arm.ceiling), arm.motors, arm.gears);
    if r.Success? {
      var ok, dim := CadDimensions.Section(arm.link, jc.length, distal, dynamic);
      if !ok {
        r := Failure(BadArithmetic);
      }
    }
  }

  // ----- what the choice means -----

  lemma {:induction false} RowHas(needs: Needs, m: Motor, gears: seq<Gear>, c: Candidate)
    requires AllUsable(gears)
    ensures c in Row(needs, m, gears) <==> exists g :: g in gears && c == Evaluate(needs, m, g)
  {
    if |gears| == 0 {
    } else {
      assert gears == gears[..|gears| - 1] + [gears[|gears| - 1]];
      assert AllUsable(gears[..|gears| - 1]);
      RowHas(needs, m, gears[..|gears| - 1], c);
    }
  }

  ghost predicate IsPair(needs: Needs, motors: seq<Motor>, gears: seq<Gear>, c: Candidate)
    requires AllUsable(gears)
  {
    c.motor in motors && c.gear in gears && c == Evaluate(needs, c.motor, c.gear)
  }

  lemma {:induction false} PairsHas(needs: Needs, motors: seq<Motor>, gears: seq<Gear>, c: Candidate)
    requires AllUsable(gears)
    ensures c in Pairs(needs, motors, gears) <==> IsPair(needs, motors, gears, c)
  {
    if |motors| == 0 {
    } else {
      assert motors == motors[..|motors| - 1] + [motors[|motors| - 1]];
      PairsHas(needs, motors[..|motors| - 1], gears, c);
      RowHas(needs, motors[|motors| - 1], gears, c);
    }
  }

  predicate Below(m: Motor, g: Gear, m': Motor, g': Gear) {
    m.holding < m'.holding || (m.holding == m'.holding && g.ratio < g'.ratio)
  }

  lemma Chosen(needs: Needs, all: seq<Candidate>)
    requires |all| > 0
    ensures var (c, adequate) := Choose(needs, all);
            && c in all
            && (adequate <==> exists d :: d in all && d.torqueOk)
            && (adequate ==> c.torqueOk && forall d :: d in all && d.torqueOk && (c.speedOk ==> d.speedOk) ==> !Smaller(d, c))
            && (adequate && !c.speedOk ==> forall d :: d in all && d.torqueOk ==> !d.speedOk)
            && (!adequate ==> forall d :: d in all ==> Headroom(needs, d) <= Headroom(needs, c))
  {
    FilterKeeps(all, true);
    FilterKeeps(all, false);
    var valids, torqueOks := Filter(all, true), Filter(all, false);
    if |valids| > 0 {
      NoneSmaller(valids);
      assert FirstLeast(valids) in valids;
    } else if |torqueOks| > 0 {
      NoneSmaller(torqueOks);
      assert FirstLeast(torqueOks) in torqueOks;
      assert forall c :: c in all && c.torqueOk ==> !c.speedOk by {
        forall c | c in all && c.torqueOk
          ensures !c.speedOk
        {
          assert c.speedOk ==> c in valids;
        }
      }
    } else {
      NoneCloser(needs, all);
      forall d | d in all
        ensures !d.torqueOk
      {
        assert d.torqueOk ==> d in torqueOks;
      }
    }
  }

  /** The pair (m, g) is the right choice from a catalogue, given which pairs cover the torque, which keep
      the target speed, and how much torque is to spare. */
  ghost predicate Best(
    motors: seq<Motor>, gears: seq<Gear>, covers: (Motor, Gear) -> bool, fast: (Motor, Gear) -> bool,
    spare: (Motor, Gear) -> real, m: Motor, g: Gear, adequate: bool)
  {
    && m in motors && g in gears
    && (adequate <==> exists m', g' :: m' in motors && g' in gears && covers(m', g'))
    && (adequate ==> covers(m, g))
    && (adequate && fast(m, g) ==>
          forall m', g' :: m' in motors && g' in gears && covers(m', g') && fast(m', g') ==> !Below(m', g', m, g))
    && (adequate && !fast(m, g) ==>
          forall m', g' :: m' in motors && g' in gears && covers(m', g') ==> !fast(m', g') && !Below(m', g', m, g))
    && (!adequate ==> forall m', g' :: m' in motors && g' in gears ==> spare(m', g') <= spare(m, g))
  }

  /** `all` lists the pairs of a catalogue, `entry` says where. */
  ghost predicate Lists(
    all: seq<Candidate>, motors: seq<Motor>, gears: seq<Gear>, covers: (Motor, Gear) -> bool,
    fast: (Motor, Gear) -> bool, spare: (Motor, Gear) -> real, headroom: Candidate -> real,
    entry: (Motor, Gear) -> Candidate)
  {
    && (forall c :: c in all ==>
          && c.motor in motors && c.gear in gears && c.torqueOk == covers(c.motor, c.gear)
          && c.speedOk == fast(c.motor, c.gear) && headroom(c) == spare(c.motor, c.gear))
    && forall m, g :: m in motors && g in gears ==>
         entry(m, g) in all && entry(m, g).motor == m && entry(m, g).gear == g
  }

  lemma ChosenIsBest(
    needs: Needs, all: seq<Candidate>, motors: seq<Motor>, gears: seq<Gear>, covers: (Motor, Gear) -> bool,
    fast: (Motor, Gear) -> bool, spare: (Motor, Gear) -> real, headroom: Candidate -> real,
    entry: (Motor, Gear) -> Candidate)
    requires |all| > 0 && Lists(all, motors, gears, covers, fast, spare, headroom, entry)
    requires forall c :: c in all ==> headroom(c) == Headroom(needs, c)
    ensures var (c, adequate) := Choose(needs, all);
            Best(motors, gears, covers, fast, spare, c.motor, c.gear, adequate)
  {
    Chosen(needs, all);
    var (c, adequate) := Choose(needs, all);
    forall m, g | m in motors && g in gears
      ensures var d := entry(m, g); d in all && d.motor == m && d.gear == g && d.torqueOk == covers(m, g)
                                    && d.speedOk == fast(m, g) && Headroom(needs, d) == spare(m, g)
      ensures covers(m, g) ==> adequate
    {
      assert entry(m, g) in all;
    }
  }

  function CoversOf(needs: Needs): (Motor, Gear) -> bool { (m: Motor, g: Gear) => Usable(g) && Covers(needs, m, g) }

  function FastOf(needs: Needs): (Motor, Gear) -> bool { (m: Motor, g: Gear) => Fast(needs, m, g) }

  function SpareOf(needs: Needs): (Motor, Gear) -> real {
    (m: Motor, g: Gear) => if Usable(g) then m.holding * needs.usable - MotorTorque(needs, g) else 0.0
  }

  lemma PairsAreListed(needs: Needs, motors: seq<Motor>, gears: seq<Gear>) returns (entry: (Motor, Gear) -> Candidate)
    requires AllUsable(gears)
    ensures Lists(Pairs(needs, motors, gears), motors, gears, CoversOf(needs), FastOf(needs), SpareOf(needs),
                  c => Headroom(needs, c), entry)
  {
    var all := Pairs(needs, motors, gears);
    entry := (m: Motor, g: Gear) =>
      if Usable(g) then Evaluate(needs, m, g) else Candidate(m, g, 0.0, 0.0, 0.0, 0.0, false, false);
    forall c | c in all
      ensures && c.motor in motors && c.gear in gears && c.torqueOk == CoversOf(needs)(c.motor, c.gear)
              && c.speedOk == FastOf(needs)(c.motor, c.gear)
              && Headroom(needs, c) == SpareOf(needs)(c.motor, c.gear)
    {
      PairsHas(needs, motors, gears, c);
      EntryFields(needs, c.motor, c.gear);
    }
    forall m, g | m in motors && g in gears
      ensures entry(m, g) in all && entry(m, g).motor == m && entry(m, g).gear == g
    {
      EntryFields(needs, m, g);
      PairsHas(needs, motors, gears, Evaluate(needs, m, g));
    }
  }

  lemma EntryFields(needs: Needs, m: Motor, g: Gear)
    requires Usable(g)
    ensures var c := Evaluate(needs, m, g);
            && c.motor == m && c.gear == g && c.torqueOk == CoversOf(needs)(m, g) && c.speedOk == FastOf(needs)(m, g)
            && Headroom(needs, c) == SpareOf(needs)(m, g)
  {
  }

  /** A joint is reported adequate exactly when some motor and gear of the catalogue cover its torque;
      then the chosen pair does, with a margin of at least 1, and it is lexicographically smallest (motor
      first) among the pairs that cover the torque and keep the target speed, or, if there is none,
      among those that cover the torque. Otherwise the chosen pair comes closest. */
  lemma AdequateIffCovered(needs: Needs, motors: seq<Motor>, gears: seq<Gear>)
    requires Size(needs, motors, gears).Success?
    ensures var s := Size(needs, motors, gears).value;
            && Best(motors, gears, CoversOf(needs), FastOf(needs), SpareOf(needs), s.chosen.motor, s.chosen.gear,
                    s.adequate)
            && (s.margin.Some? ==> (s.margin.value >= 1.0 <==> s.adequate))
  {
    SizedFrom(needs, motors, gears);
    BestOfPairs(needs, motors, gears);
    MarginOfPairs(needs, motors, gears);
  }

  lemma SizedFrom(needs: Needs, motors: seq<Motor>, gears: seq<Gear>)
    requires Size(needs, motors, gears).Success?
    ensures AllUsable(gears) && |Pairs(needs, motors, gears)| > 0
    ensures var s, (c, adequate) := Size(needs, motors, gears).value, Choose(needs, Pairs(needs, motors, gears));
            && s.chosen == c && s.adequate == adequate && s.margin == Margin(needs, c) && c.stepsPerDeg != 0.0
            && s.achievable == Capped(c.stepRate, needs.ceiling) / c.stepsPerDeg
  {
    PairsNonEmpty(needs, motors, gears);
  }

  lemma BestOfPairs(needs: Needs, motors: seq<Motor>, gears: seq<Gear>)
    requires AllUsable(gears) && |Pairs(needs, motors, gears)| > 0
    ensures var (c, adequate) := Choose(needs, Pairs(needs, motors, gears));
            Best(motors, gears, CoversOf(needs), FastOf(needs), SpareOf(needs), c.motor, c.gear, adequate)
  {
    var entry := PairsAreListed(needs, motors, gears);
    ChosenIsBest(needs, Pairs(needs, motors, gears), motors, gears, CoversOf(needs), FastOf(needs), SpareOf(needs),
                 c => Headroom(needs, c), entry);
  }

  lemma MarginOfPairs(needs: Needs, motors: seq<Motor>, gears: seq<Gear>)
    requires AllUsable(gears) && |Pairs(needs, motors, gears)| > 0
    ensures var (c, adequate) := Choose(needs, Pairs(needs, motors, gears));
            Margin(needs, c).Some? ==> (Margin(needs, c).value >= 1.0 <==> adequate)
  {
    var all := Pairs(needs, motors, gears);
    Chosen(needs, all);
    var (c, _) := Choose(needs, all);
    PairsHas(needs, motors, gears, c);
    CoveredIff(needs, c.motor, c.gear);
    MarginIs(needs, c);
  }

  predicate Enough(needs: Needs, c: Candidate) { c.motor.holding * needs.usable >= c.motorTorque }

  lemma MarginIs(needs: Needs, c: Candidate)
    ensures Margin(needs, c).Some? ==> (Margin(needs, c).value >= 1.0 <==> Enough(needs, c))
  {
    QuotientAtLeastOne(c.motor.holding * needs.usable, c.motorTorque);
  }

  lemma CoveredIff(needs: Needs, m: Motor, g: Gear)
    requires Usable(g)
    ensures Evaluate(needs, m, g).torqueOk <==> Enough(needs, Evaluate(needs, m, g))
  {
  }

  lemma QuotientAtLeastOne(x: real, y: real)
    ensures y > 0.0 ==> (x / y >= 1.0 <==> x >= y)
  {
    if y > 0.0 {
      var q := x / y;
      assert q * y == x;
      if q >= 1.0 { assert (q - 1.0) * y >= 0.0; } else { assert (1.0 - q) * y > 0.0; }
    }
  }

  /** The reported speed never needs more than the step-rate ceiling, and is the target exactly when the
      target does not. */
  lemma AchievableSpeed(needs: Needs, motors: seq<Motor>, gears: seq<Gear>)
    requires Size(needs, motors, gears).Success?
    ensures var s := Size(needs, motors, gears).value;
            && s.achievable * s.chosen.stepsPerDeg <= needs.ceiling
            && (s.achievable == needs.speed <==> s.chosen.stepRate <= needs.ceiling)
  {
    ChosenSpeed(needs, motors, gears);
    var c := Size(needs, motors, gears).value.chosen;
    CappedSpeed(needs.speed, c.stepsPerDeg, c.stepRate, needs.ceiling);
  }

  lemma CappedSpeed(speed: real, spd: real, rate: real, ceiling: real)
    requires spd != 0.0 && rate == speed * spd
    ensures var achievable := Capped(rate, ceiling) / spd;
            achievable * spd <= ceiling && (achievable == speed <==> rate <= ceiling)
  {
    var capped := Capped(rate, ceiling);
    var achievable := capped / spd;
    assert achievable * spd == capped;
    assert (achievable - speed) * spd == capped - rate;
  }

  // ----- what an adequate joint holds -----

  /** Gravity on everything beyond a joint that is not vertical, and the torque to accelerate it all. */
  function Burden(arm: Arm, index: nat): real
    requires index < |arm.joints|
  {
    var j, loads := arm.joints[index], Table(arm.joints[index..], arm.payload);
    (if j.vertical then 0.0 else 9.81 * Moment(loads)) + Inertia(loads) * (j.targetAccel * 3.141592653589793 / 180.0)
  }

  /** The motor's usable torque, through the gear, is the burden times the safety factor at least. */
  predicate Holds(m: Motor, g: Gear, j: Joint, burden: real) {
    m.holding * j.usable * (g.ratio * g.efficiency) >= j.safetyFactor * burden
  }

  /** What the link's section is sized for: gravity on everything beyond the joint, whatever its axis, with the
      torque to accelerate it; and the weight of it all. */
  lemma LinkLoads(arm: Arm, index: nat)
    requires index < |arm.joints|
    ensures var j, loads := arm.joints[index], Table(arm.joints[index..], arm.payload);
            && CadDimensions.Bending(loads, Dynamic(arm, index))
               == 9.81 * Moment(loads) + Inertia(loads) * (j.targetAccel * 3.141592653589793 / 180.0)
            && CadDimensions.Weight(loads) == 9.81 * Total(loads).mass
  {
  }

  lemma QuotientAtMost(x: real, load: real, y: real)
    requires y > 0.0
    ensures x >= load / y <==> x * y >= load
  {
    var q := load / y;
    assert q * y == load;
    if x >= q { assert (x - q) * y >= 0.0; } else { assert (q - x) * y > 0.0; }
  }

  lemma HoldsIffCovered(arm: Arm, index: nat, m: Motor, g: Gear)
    requires index < |arm.joints| && g.ratio * g.efficiency > 0.0
    ensures CoversOf(Requirement(arm, index))(m, g) <==> Holds(m, g, arm.joints[index], Burden(arm, index))
  {
    TorqueIsBurden(arm, index);
    QuotientAtMost(m.holding * arm.joints[index].usable, Requirement(arm, index).torque, g.ratio * g.efficiency);
  }

  lemma TorqueIsBurden(arm: Arm, index: nat)
    requires index < |arm.joints|
    ensures Requirement(arm, index).torque == arm.joints[index].safetyFactor * Burden(arm, index)
    ensures var needs, j := Requirement(arm, index), arm.joints[index];
            needs.usable == j.usable && needs.speed == j.targetSpeed && needs.microsteps == j.microsteps && needs.ceiling == arm.ceiling
  {
  }

  lemma ProductOfQuotients(x: real, a: real, load: real, y: real)
    requires y != 0.0 && load / y != 0.0 && x == a / (load / y)
    ensures x * load == a * y
  {
    var q := load / y;
    assert q * y == load && x * q == a;
    assert x * load == x * q * y;
  }

  /** The margin is how many times the safety factor's burden the motor's usable torque holds, through the gear. */
  lemma MarginOverBurden(arm: Arm, index: nat, s: Sizing, burden: real) returns (torque: real, usable: real)
    requires index < |arm.joints| && SizeWithLink(arm, index) == Success(s) && s.margin.Some?
    requires burden == Burden(arm, index)
    ensures torque == arm.joints[index].safetyFactor * burden && usable == arm.joints[index].usable
    ensures s.margin.value * torque == s.chosen.motor.holding * usable * (s.chosen.gear.ratio * s.chosen.gear.efficiency)
  {
    torque, usable := ChosenMargin(Requirement(arm, index), arm.motors, arm.gears, s);
    TorqueIsBurden(arm, index);
  }

  lemma ChosenMargin(needs: Needs, motors: seq<Motor>, gears: seq<Gear>, s: Sizing) returns (torque: real, usable: real)
    requires Size(needs, motors, gears) == Success(s) && s.margin.Some?
    ensures torque == needs.torque && usable == needs.usable
    ensures s.margin.value * torque == s.chosen.motor.holding * usable * (s.chosen.gear.ratio * s.chosen.gear.efficiency)
  {
    torque, usable := needs.torque, needs.usable;
    var c := ChosenPair(needs, motors, gears, s);
    MarginOfPair(needs, c.motor, c.gear);
  }

  lemma ChosenPair(needs: Needs, motors: seq<Motor>, gears: seq<Gear>, s: Sizing) returns (c: Candidate)
    requires Size(needs, motors, gears) == Success(s)
    ensures c == s.chosen && Usable(c.gear) && c == Evaluate(needs, c.motor, c.gear) && s.margin == Margin(needs, c)
  {
    c := s.chosen;
    SizedFrom(needs, motors, gears);
    Chosen(needs, Pairs(needs, motors, gears));
    PairsHas(needs, motors, gears, c);
  }

  lemma MarginOfPair(needs: Needs, m: Motor, g: Gear)
    requires Usable(g) && Margin(needs, Evaluate(needs, m, g)).Some?
    ensures Margin(needs, Evaluate(needs, m, g)).value * needs.torque == m.holding * needs.usable * (g.ratio * g.efficiency)
  {
    ProductOfQuotients(Margin(needs, Evaluate(needs, m, g)).value, m.holding * needs.usable, needs.torque, g.ratio * g.efficiency);
  }

  /** A joint is adequate exactly if some motor of the catalogue holds its burden through some gear, with the
      safety factor to spare; and then the chosen pair does. */
  lemma AdequateIffBurdenHeld(arm: Arm, index: nat)
    requires index < |arm.joints| && SizeWithLink(arm, index).Success?
    requires forall g :: g in arm.gears ==> g.ratio * g.efficiency > 0.0
    ensures var s, j, burden := SizeWithLink(arm, index).value, arm.joints[index], Burden(arm, index);
            && (s.adequate <==> exists m, g :: m in arm.motors && g in arm.gears && Holds(m, g, j, burden))
            && (s.adequate ==> s.chosen.motor in arm.motors && s.chosen.gear in arm.gears
                               && Holds(s.chosen.motor, s.chosen.gear, j, burden))
  {
    var needs, s := Requirement(arm, index), SizeWithLink(arm, index).value;
    var best := BestMeans(needs, arm.motors, arm.gears, s);
    forall m, g | m in arm.motors && g in arm.gears
      ensures CoversOf(needs)(m, g) <==> Holds(m, g, arm.joints[index], Burden(arm, index))
    {
      HoldsIffCovered(arm, index, m, g);
    }
  }

  lemma BestMeans(needs: Needs, motors: seq<Motor>, gears: seq<Gear>, s: Sizing) returns (covers: (Motor, Gear) -> bool)
    requires Size(needs, motors, gears) == Success(s)
    ensures covers == CoversOf(needs) && s.chosen.motor in motors && s.chosen.gear in gears
    ensures s.adequate <==> exists m, g :: m in motors && g in gears && covers(m, g)
    ensures s.adequate ==> covers(s.chosen.motor, s.chosen.gear)
  {
    AdequateIffCovered(needs, motors, gears);
    covers := CoversOf(needs);
  }

  /** The motor speed at which the joint runs at a given speed. */
  function MotorRpm(speed: real, ratio: real): real { speed * ratio / 6.0 }

  /** min(speed, ceiling / spd), for a positive number of steps per degree. */
  lemma CappedIsSmaller(speed: real, spd: real, ceiling: real)
    requires spd > 0.0
    ensures var achievable := Capped(speed * spd, ceiling) / spd;
            achievable == if speed * spd <= ceiling then speed else ceiling / spd
    ensures speed * spd <= ceiling <==> speed <= ceiling / spd
  {
    var q := ceiling / spd;
    assert q * spd == ceiling;
    assert speed * spd / spd == speed;
    if speed <= q { assert (q - speed) * spd >= 0.0; } else { assert (speed - q) * spd > 0.0; }
  }

  /** At the step-rate ceiling the motor turns 60 * ceiling / (steps per revolution) times a minute. */
  lemma RpmAtCeiling(ceiling: real, steps: real, ratio: real, spd: real)
    requires steps > 0.0 && ratio > 0.0 && spd == steps * ratio / 360.0 && spd > 0.0
    ensures MotorRpm(ceiling / spd, ratio) * steps == 60.0 * ceiling
  {
    var q := ceiling / spd;
    assert q * spd == ceiling;
    assert q * (steps * ratio) == 360.0 * ceiling;
    assert q * ratio * steps == q * (steps * ratio);
  }

  /** Microsteps per motor revolution. */
  function StepsPerTurn(m: Motor, needs: Needs): int { m.fullSteps * needs.microsteps }

  lemma RpmGrows(a: real, b: real, ratio: real)
    requires ratio > 0.0 && a <= b
    ensures MotorRpm(a, ratio) <= MotorRpm(b, ratio)
  {
    assert (b - a) * ratio >= 0.0;
  }

  lemma ExceedsScaled(x: real, limit: real, steps: real, total: real)
    requires steps > 0.0 && x * steps == total
    ensures x > limit <==> total > limit * steps
  {
    if x > limit { assert (x - limit) * steps > 0.0; } else { assert (limit - x) * steps >= 0.0; }
  }

  lemma OverspeedIffBoth(speed: real, ceiling: real, steps: real, ratio: real, spd: real, maxRpm: real)
    requires steps > 0.0 && ratio > 0.0 && spd == steps * ratio / 360.0 && spd > 0.0
    ensures MotorRpm(Capped(speed * spd, ceiling) / spd, ratio) > maxRpm
       <==> MotorRpm(speed, ratio) > maxRpm && 60.0 * ceiling > maxRpm * steps
  {
    CappedIsSmaller(speed, spd, ceiling);
    RpmAtCeiling(ceiling, steps, ratio, spd);
    ExceedsScaled(MotorRpm(ceiling / spd, ratio), maxRpm, steps, 60.0 * ceiling);
    if speed <= ceiling / spd {
      RpmGrows(speed, ceiling / spd, ratio);
    } else {
      RpmGrows(ceiling / spd, speed, ratio);
    }
  }

  lemma StepsPositive(steps: real, ratio: real)
    requires steps > 0.0 && ratio > 0.0
    ensures steps * ratio / 360.0 > 0.0
  {
    assert steps * ratio > 0.0;
  }

  /** Exactly when the reported speed is one the chosen motor cannot turn at: when the target asks for more
      than its top speed and the step-rate ceiling allows more than it, too. */
  lemma OverspeedIff(needs: Needs, motors: seq<Motor>, gears: seq<Gear>)
    requires Size(needs, motors, gears).Success?
    requires var c := Size(needs, motors, gears).value.chosen;
             c.gear.ratio > 0.0 && StepsPerTurn(c.motor, needs) > 0
    ensures var s := Size(needs, motors, gears).value;
            var m, ratio := s.chosen.motor, s.chosen.gear.ratio;
            MotorRpm(s.achievable, ratio) > m.maxRpm
            <==> MotorRpm(needs.speed, ratio) > m.maxRpm
                 && 60.0 * needs.ceiling > m.maxRpm * StepsPerTurn(m, needs) as real
  {
    ChosenSpeed(needs, motors, gears);
    OverspeedFor(needs, Size(needs, motors, gears).value);
  }

  /** The candidate's step rates are those of its motor and gear. */
  predicate TrueRates(needs: Needs, c: Candidate) {
    && c.stepsPerDeg == StepsPerTurn(c.motor, needs) as real * c.gear.ratio / 360.0
    && c.stepRate == needs.speed * c.stepsPerDeg
  }

  /** The reported speed is the target capped by the ceiling. */
  predicate SpeedsFit(needs: Needs, s: Sizing) {
    && TrueRates(needs, s.chosen) && s.chosen.stepsPerDeg != 0.0
    && s.achievable == Capped(s.chosen.stepRate, needs.ceiling) / s.chosen.stepsPerDeg
  }

  lemma ChosenSpeed(needs: Needs, motors: seq<Motor>, gears: seq<Gear>)
    requires Size(needs, motors, gears).Success?
    ensures SpeedsFit(needs, Size(needs, motors, gears).value)
  {
    SizedFrom(needs, motors, gears);
    Chosen(needs, Pairs(needs, motors, gears));
    PairRates(needs, motors, gears, Size(needs, motors, gears).value.chosen);
  }

  lemma PairRates(needs: Needs, motors: seq<Motor>, gears: seq<Gear>, c: Candidate)
    requires AllUsable(gears) && c in Pairs(needs, motors, gears)
    ensures TrueRates(needs, c)
  {
    PairsHas(needs, motors, gears, c);
    RatesAreTrue(needs, c.motor, c.gear);
  }

  lemma RatesAreTrue(needs: Needs, m: Motor, g: Gear)
    requires Usable(g)
    ensures TrueRates(needs, Evaluate(needs, m, g))
  {
  }

  lemma OverspeedFor(needs: Needs, s: Sizing)
    requires SpeedsFit(needs, s) && s.chosen.gear.ratio > 0.0 && StepsPerTurn(s.chosen.motor, needs) > 0
    ensures var m, ratio := s.chosen.motor, s.chosen.gear.ratio;
            MotorRpm(s.achievable, ratio) > m.maxRpm
            <==> MotorRpm(needs.speed, ratio) > m.maxRpm
                 && 60.0 * needs.ceiling > m.maxRpm * StepsPerTurn(m, needs) as real
  {
    var steps, ratio := StepsPerTurn(s.chosen.motor, needs) as real, s.chosen.gear.ratio;
    StepsPositive(steps, ratio);
    OverspeedIffBoth(needs.speed, needs.ceiling, steps, ratio, steps * ratio / 360.0, s.chosen.motor.maxRpm);
  }

  /** An adequate joint reaches its target speed within both limits exactly when some pair of the catalogue
      covers the torque and is fast enough. */
  lemma FullSpeedIffFastPair(needs: Needs, motors: seq<Motor>, gears: seq<Gear>)
    requires Size(needs, motors, gears).Success? && Size(needs, motors, gears).value.adequate
    ensures var s := Size(needs, motors, gears).value;
            s.achievable == needs.speed && MotorRpm(s.achievable, s.chosen.gear.ratio) <= s.chosen.motor.maxRpm
            <==> exists m, g :: m in motors && g in gears && CoversOf(needs)(m, g) && FastOf(needs)(m, g)
  {
    var s := Size(needs, motors, gears).value;
    AdequateIffCovered(needs, motors, gears);
    AchievableSpeed(needs, motors, gears);
    SizedFrom(needs, motors, gears);
    Chosen(needs, Pairs(needs, motors, gears));
    PairsHas(needs, motors, gears, s.chosen);
    FastMeans(needs, s.chosen.motor, s.chosen.gear);
    var m, g := s.chosen.motor, s.chosen.gear;
    assert CoversOf(needs)(m, g);
    assert FastOf(needs)(m, g) <==> Fast(needs, m, g);
  }

  lemma FastMeans(needs: Needs, m: Motor, g: Gear)
    requires Usable(g)
    ensures Fast(needs, m, g)
       <==> Evaluate(needs, m, g).stepRate <= needs.ceiling && MotorRpm(needs.speed, g.ratio) <= m.maxRpm
  {
  }

  /** Adequate at the speed asked for, at five times the motor's top speed. */
  predicate OverspeedReached(s: Sizing, speed: real) {
    && s.adequate && s.achievable == speed
    && MotorRpm(speed, s.chosen.gear.ratio) == 5.0 * s.chosen.motor.maxRpm > s.chosen.motor.maxRpm
  }

  /** A witness: one joint, one motor, one gear. The motor would have to turn five times as fast as it can,
      yet the joint is adequate and at its full target speed. */
  lemma OverspeedIsReportedAsReached(arm: Arm)
    requires arm.joints == [Joint(false, 0.3, 0.0, 1.0, None, 60.0, 0.0, 4, 1.0, 0.6)] && arm.payload == 1.0
    requires arm.motors == [Motor(1.0, 200, 100.0)] && arm.gears == [Gear(50.0, 1.0)] && arm.ceiling == 12000.0
    requires arm.link == CadDimensions.Link(false, 2.0, 2.0, 200.0, 276.0, 2.0, 69.0)
    ensures exists s :: SizeWithLink(arm, 0) == Success(s) && OverspeedReached(s, 60.0)
  {
    var needs := PayloadOnly(arm);
    var s := PairReached(needs, arm.motors, arm.gears);
    LinkIsSized(arm);
    WithSection(arm, needs, s);
  }

  lemma WithSection(arm: Arm, needs: Needs, s: Sizing)
    requires |arm.joints| > 0 && LinkSized(arm, 0) && needs == Requirement(arm, 0)
    requires Size(needs, arm.motors, arm.gears) == Success(s)
    ensures SizeWithLink(arm, 0) == Success(s)
  {
  }

  lemma LinkIsSized(arm: Arm)
    requires |arm.joints| == 1 && arm.link == CadDimensions.Link(false, 2.0, 2.0, 200.0, 276.0, 2.0, 69.0)
    ensures LinkSized(arm, 0)
  {
    var loads := Table(arm.joints[0..], arm.payload);
    CadDimensions.TubeSizedIff(arm.link, arm.joints[0].length, CadDimensions.Bending(loads, Dynamic(arm, 0)),
                               CadDimensions.Weight(loads));
  }

  lemma PairReached(needs: Needs, motors: seq<Motor>, gears: seq<Gear>) returns (s: Sizing)
    requires needs == Needs(9.81, 0.6, 60.0, 4, 12000.0)
    requires motors == [Motor(1.0, 200, 100.0)] && gears == [Gear(50.0, 1.0)]
    ensures Size(needs, motors, gears) == Success(s) && OverspeedReached(s, 60.0)
  {
    OnlyPair(needs, motors[0], gears[0]);
    assert motors == [motors[0]] && gears == [gears[0]];
    s := Size(needs, motors, gears).value;
    assert MotorRpm(60.0, 50.0) == 500.0;
  }

  /** The payload of a single massless link, one metre out. */
  lemma PayloadOnly(arm: Arm) returns (needs: Needs)
    requires arm.joints == [Joint(false, 0.3, 0.0, 1.0, None, 60.0, 0.0, 4, 1.0, 0.6)]
    requires arm.payload == 1.0 && arm.ceiling == 12000.0
    ensures needs == Requirement(arm, 0) == Needs(9.81, 0.6, 60.0, 4, 12000.0)
  {
    var joints := arm.joints;
    assert joints[0..] == joints;
    needs := Requirement(arm, 0);
    OneLoad(joints);
    NoAcceleration(Inertia(Table(joints, 1.0)));
  }

  lemma NoAcceleration(inertia: real)
    ensures DynamicTorque(inertia, Radians(0.0)) == 0.0
  {
  }

  lemma OneLoad(joints: seq<Joint>)
    requires joints == [Joint(false, 0.3, 0.0, 1.0, None, 60.0, 0.0, 4, 1.0, 0.6)]
    ensures Moment(Table(joints, 1.0)) == 1.0
  {
    assert joints[1..] == [];
    LinkAndShift(joints, 1.0);
    PayloadAlone();
    assert Of(Load(0.0, 0.5)) == Sums(0.0, 0.0, 0.0);
  }

  lemma PayloadAlone()
    ensures Total(Shift(Beyond([], 1.0), 1.0)) == Sums(1.0, 1.0, 1.0)
  {
    var loads := [Load(1.0, 1.0)];
    assert Beyond([], 1.0) == [Load(1.0, 0.0)];
    ShiftOne(Load(1.0, 0.0), 1.0);
    assert loads[1..] == [];
    assert Of(Load(1.0, 1.0)) == Sums(1.0, 1.0, 1.0);
  }

  lemma OnlyPair(needs: Needs, m: Motor, g: Gear)
    requires needs == Needs(9.81, 0.6, 60.0, 4, 12000.0) && m == Motor(1.0, 200, 100.0) && g == Gear(50.0, 1.0)
    ensures var r := Size(needs, [m], [g]);
            && r.Success? && r.value.adequate && r.value.achievable == 60.0
            && r.value.chosen.motor == m && r.value.chosen.gear == g
  {
    OnlyCandidate(needs, m, g);
    OnlyEntry(needs, m, g);
    ChosenAlone(needs, Evaluate(needs, m, g));
    CappedIsSmaller(needs.speed, Evaluate(needs, m, g).stepsPerDeg, needs.ceiling);
  }

  lemma OnlyCandidate(needs: Needs, m: Motor, g: Gear)
    requires needs == Needs(9.81, 0.6, 60.0, 4, 12000.0) && m == Motor(1.0, 200, 100.0) && g == Gear(50.0, 1.0)
    ensures AllUsable([g])
    ensures var c := Evaluate(needs, m, g);
            && c.torqueOk && !c.speedOk && c.motor == m && c.gear == g
            && 0.0 < c.stepsPerDeg < 112.0 && c.stepRate == needs.speed * c.stepsPerDeg
  {
  }

  lemma OnlyEntry(needs: Needs, m: Motor, g: Gear)
    requires AllUsable([g]) && Usable(g)
    ensures Pairs(needs, [m], [g]) == [Evaluate(needs, m, g)]
  {
    var c := Evaluate(needs, m, g);
    assert [g][..0] == [] && [m][..0] == [];
    assert Row(needs, m, [g]) == [c];
  }

  lemma ChosenAlone(needs: Needs, c: Candidate)
    requires c.torqueOk && !c.speedOk
    ensures Choose(needs, [c]) == (c, true)
  {
    assert [c][..0] == [];
    assert Filter([c], true) == [] && Filter([c], false) == [c];
  }
}
