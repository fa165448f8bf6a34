/** What each joint has to lift and which motor and gear it gets (pibot/arm/sizing.py). */
module JointSizing {
  import opened Wrappers
  import opened Seqs

  const G_ACCEL: real := 9.81

  /** A joint: its motor and the link to the next joint; `com` is the link's centre of mass. */
  datatype Joint = Joint(
    vertical: bool, motorMass: real, linkMass: real, length: real, com: Option<real>,
    targetSpeed: real, targetAccel: real, microsteps: int, safetyFactor: real, usable: real)

  /** A mass and its lever from the joint under consideration. */
  datatype Load = Load(mass: real, lever: real)

  // ----- the distal masses -----

  function Com(j: Joint): real { if j.com.Some? then j.com.value else j.length / 2.0 }

  function Shift(loads: seq<Load>, d: real): seq<Load> {
    if |loads| == 0 then [] else [Load(loads[0].mass, d + loads[0].lever)] + Shift(loads[1..], d)
  }

  /** A joint carries its own link and, one link length out, what lies beyond. */
  function Table(joints: seq<Joint>, payload: real): seq<Load>
    decreases |joints|, 0
  {
    if |joints| == 0 then [Load(payload, 0.0)]
    else [Load(joints[0].linkMass, Com(joints[0]))] + Shift(Beyond(joints[1..], payload), joints[0].length)
  }

  /** The next joint's motor and everything that joint carries; past the last joint, the payload. */
  function Beyond(joints: seq<Joint>, payload: real): seq<Load>
    decreases |joints|, 1
  {
    (if |joints| == 0 then [] else [Load(joints[0].motorMass, 0.0)]) + Table(joints, payload)
  }

  lemma {:induction false} ShiftConcat(a: seq<Load>, b: seq<Load>, d: real)
    ensures Shift(a + b, d) == Shift(a, d) + Shift(b, d)
  {
    if |a| == 0 {
      assert a + b == b;
    } else {
      assert (a + b)[1..] == a[1..] + b;
      ShiftConcat(a[1..], b, d);
    }
  }

  lemma {:induction false} ShiftTwice(a: seq<Load>, d: real, e: real)
    ensures Shift(Shift(a, d), e) == Shift(a, e + d)
  {
    if |a| > 0 { ShiftTwice(a[1..], d, e); }
  }

  lemma {:induction false} ShiftNothing(a: seq<Load>)
    ensures Shift(a, 0.0) == a
  {
    if |a| > 0 { ShiftNothing(a[1..]); }
  }

  /** What is left to append when the loop stands before joint `k`. */
  function Rest(joints: seq<Joint>, payload: real, first: bool): seq<Load> {
    if first then Table(joints, payload) else Beyond(joints, payload)
  }

  /** The items one round of the loop appends. */
  function Round(seg: Joint, first: bool, cum: real): seq<Load> {
    (if first then [] else [Load(seg.motorMass, cum)]) + [Load(seg.linkMass, cum + Com(seg))]
  }

  /** How far along the arm the loop stands before joint `k`. */
  function Along(joints: seq<Joint>, index: nat, k: nat): real
    requires index <= k <= |joints|
  {
    if k == index then 0.0 else Along(joints, index, k - 1) + joints[k - 1].length
  }

  /** What the loop has appended before joint `k`. */
  function Appended(joints: seq<Joint>, index: nat, k: nat): seq<Load>
    requires index <= k <= |joints|
  {
    if k == index then []
    else Appended(joints, index, k - 1) + Round(joints[k - 1], k - 1 == index, Along(joints, index, k - 1))
  }

  /** Every mass beyond a joint, with its lever in the horizontally extended arm. */
  method DistalMasses(joints: seq<Joint>, payload: real, index: nat) returns (items: seq<Load>)
    requires index <= |joints|
    ensures items == Table(joints[index..], payload)
  {
    items := [];
    var cum := 0.0;
    for k := index to |joints|
      invariant items == Appended(joints, index, k) && cum == Along(joints, index, k)
    {
      var seg := joints[k];
      if k > index {
        items := items + [Load(seg.motorMass, cum)];
      }
      items := items + [Load(seg.linkMass, cum + Com(seg))];
      cum := cum + seg.length;
    }
    items := items + [Load(payload, cum)];
    AppendedAll(joints, payload, index);
  }

  /** The items, and what is left from `joints` on, `cum` along the arm, make up the whole table. */
  ghost predicate OnCourse(items: seq<Load>, joints: seq<Joint>, payload: real, first: bool, cum: real, whole: seq<Load>) {
    items + Shift(Rest(joints, payload, first), cum) == whole
  }

  lemma Advance(items: seq<Load>, joints: seq<Joint>, payload: real, first: bool, cum: real, whole: seq<Load>)
    requires |joints| > 0 && OnCourse(items, joints, payload, first, cum, whole)
    ensures OnCourse(items + Round(joints[0], first, cum), joints[1..], payload, false, cum + joints[0].length, whole)
  {
    ShiftRest(joints, payload, first, cum);
    Regroup(items, Round(joints[0], first, cum), Shift(Rest(joints[1..], payload, false), cum + joints[0].length));
  }

  lemma {:induction false} AppendedSoFar(joints: seq<Joint>, payload: real, index: nat, k: nat, whole: seq<Load>)
    requires index <= k <= |joints| && OnCourse([], joints[index..], payload, true, 0.0, whole)
    ensures OnCourse(Appended(joints, index, k), joints[k..], payload, k == index, Along(joints, index, k), whole)
    decreases k
  {
    if k > index {
      AppendedSoFar(joints, payload, index, k - 1, whole);
      assert joints[k - 1..][1..] == joints[k..];
      Advance(Appended(joints, index, k - 1), joints[k - 1..], payload, k - 1 == index, Along(joints, index, k - 1), whole);
    }
  }

  lemma AppendedAll(joints: seq<Joint>, payload: real, index: nat)
    requires index <= |joints|
    ensures Appended(joints, index, |joints|) + [Load(payload, Along(joints, index, |joints|))]
         == Table(joints[index..], payload)
  {
    var n, whole := |joints|, Table(joints[index..], payload);
    ShiftNothing(whole);
    AppendedSoFar(joints, payload, index, n, whole);
    assert joints[n..] == [];
    LastLoad(payload, n == index, Along(joints, index, n));
  }

  lemma LastLoad(payload: real, first: bool, cum: real)
    ensures Shift(Rest([], payload, first), cum) == [Load(payload, cum)]
  {
    var last := [Load(payload, 0.0)];
    assert Rest([], payload, first) == last;
    assert last[1..] == [];
  }

  lemma ShiftOne(load: Load, d: real)
    ensures Shift([load], d) == [Load(load.mass, d + load.lever)]
  {
    assert [load][1..] == [];
  }

  lemma ShiftTable(joints: seq<Joint>, payload: real, cum: real)
    requires |joints| > 0
    ensures Shift(Table(joints, payload), cum)
         == [Load(joints[0].linkMass, cum + Com(joints[0]))]
            + Shift(Beyond(joints[1..], payload), cum + joints[0].length)
  {
    var link := Load(joints[0].linkMass, Com(joints[0]));
    ShiftConcat([link], Shift(Beyond(joints[1..], payload), joints[0].length), cum);
    ShiftTwice(Beyond(joints[1..], payload), joints[0].length, cum);
    ShiftOne(link, cum);
  }

  lemma ShiftBeyond(joints: seq<Joint>, payload: real, cum: real)
    requires |joints| > 0
    ensures Shift(Beyond(joints, payload), cum) == [Load(joints[0].motorMass, cum)] + Shift(Table(joints, payload), cum)
  {
    var motor := Load(joints[0].motorMass, 0.0);
    ShiftConcat([motor], Table(joints, payload), cum);
    ShiftOne(motor, cum);
  }

  lemma ShiftRest(joints: seq<Joint>, payload: real, first: bool, cum: real)
    requires |joints| > 0
    ensures Shift(Rest(joints, payload, first), cum)
         == Round(joints[0], first, cum) + Shift(Rest(joints[1..], payload, false), cum + joints[0].length)
  {
    ShiftTable(joints, payload, cum);
    var link, rest := [Load(joints[0].linkMass, cum + Com(joints[0]))], Shift(Beyond(joints[1..], payload), cum + joints[0].length);
    if first {
      NothingBefore(link);
    } else {
      ShiftBeyond(joints, payload, cum);
      Regroup([Load(joints[0].motorMass, cum)], link, rest);
    }
  }

  lemma NothingBefore<T>(s: seq<T>)
    ensures [] + s == s
  {
  }

  // ----- torque and inertia -----

  /** The sums of m, m*d and m*d*d over some loads. */
  datatype Sums = Sums(mass: real, moment: real, inertia: real)

  function Of(load: Load): Sums {
    Sums(load.mass, load.mass * load.lever, load.mass * load.lever * load.lever)
  }

  function Add(a: Sums, b: Sums): Sums { Sums(a.mass + b.mass, a.moment + b.moment, a.inertia + b.inertia) }

  function Total(loads: seq<Load>): Sums {
    if |loads| == 0 then Sums(0.0, 0.0, 0.0) else Add(Of(loads[0]), Total(loads[1..]))
  }

  function Moment(loads: seq<Load>): real { Total(loads).moment }

  function Inertia(loads: seq<Load>): real { Total(loads).inertia }

  function StaticTorque(loads: seq<Load>, vertical: bool): real {
    if vertical then 0.0 else G_ACCEL * Moment(loads)
  }

  function Scale(d: real, x: real): real { d * x }

  lemma ScaleAdds(d: real, x: real, y: real)
    ensures Scale(d, x + y) == Scale(d, x) + Scale(d, y)
  {
  }

  /** The sums of loads moved out by `d`. */
  function Moved(s: Sums, d: real): Sums {
    Sums(s.mass, s.moment + Scale(d, s.mass), s.inertia + 2.0 * Scale(d, s.moment) + Scale(d, Scale(d, s.mass)))
  }

  lemma MoveOne(load: Load, d: real)
    ensures Of(Load(load.mass, d + load.lever)) == Moved(Of(load), d)
  {
  }

  lemma MoveAdds(a: Sums, b: Sums, d: real)
    ensures Moved(Add(a, b), d) == Add(Moved(a, d), Moved(b, d))
  {
    ScaleAdds(d, a.mass, b.mass);
    ScaleAdds(d, a.moment, b.moment);
    ScaleAdds(d, Scale(d, a.mass), Scale(d, b.mass));
  }

  /** Moving everything out by `d`: the parallel-axis theorem. */
  lemma {:induction false} ParallelAxis(loads: seq<Load>, d: real)
    ensures Total(Shift(loads, d)) == Moved(Total(loads), d)
  {
    if |loads| == 0 {
    } else {
      ParallelAxis(loads[1..], d);
      TotalOfShift(loads, d);
      MoveOne(loads[0], d);
      MoveAdds(Of(loads[0]), Total(loads[1..]), d);
    }
  }

  lemma TotalOfShift(loads: seq<Load>, d: real)
    requires |loads| > 0
    ensures Total(Shift(loads, d)) == Add(Of(Load(loads[0].mass, d + loads[0].lever)), Total(Shift(loads[1..], d)))
  {
    assert Shift(loads, d)[1..] == Shift(loads[1..], d);
  }

  predicate Physical(j: Joint) {
    j.motorMass >= 0.0 && j.linkMass >= 0.0 && j.length >= 0.0 && (j.com.Some? ==> j.com.value >= 0.0)
  }

  predicate NonNegative(loads: seq<Load>) { forall l :: l in loads ==> l.mass >= 0.0 && l.lever >= 0.0 }

  predicate Positive(s: Sums) { s.mass >= 0.0 && s.moment >= 0.0 && s.inertia >= 0.0 }

  lemma {:induction false} SumsNonNegative(loads: seq<Load>)
    requires NonNegative(loads)
    ensures Positive(Total(loads))
  {
    if |loads| == 0 {
    } else {
      assert loads[0] in loads;
      assert forall l :: l in loads[1..] ==> l in loads;
      SumsNonNegative(loads[1..]);
      OneNonNegative(loads[0]);
    }
  }

  lemma OneNonNegative(load: Load)
    requires load.mass >= 0.0 && load.lever >= 0.0
    ensures Positive(Of(load))
  {
    var moment := load.mass * load.lever;
    assert moment >= 0.0;
    assert moment * load.lever >= 0.0;
  }

  lemma {:induction false} ShiftNonNegative(loads: seq<Load>, d: real)
    requires NonNegative(loads) && d >= 0.0
    ensures NonNegative(Shift(loads, d))
  {
    if |loads| == 0 {
    } else {
      assert loads[0] in loads;
      assert forall l :: l in loads[1..] ==> l in loads;
      ShiftNonNegative(loads[1..], d);
    }
  }

  lemma {:induction false} TableNonNegative(joints: seq<Joint>, payload: real)
    requires payload >= 0.0 && forall j :: j in joints ==> Physical(j)
    ensures NonNegative(Table(joints, payload)) && NonNegative(Beyond(joints, payload))
  {
    if |joints| == 0 {
    } else {
      assert joints[0] in joints;
      assert forall j :: j in joints[1..] ==> j in joints;
      TableNonNegative(joints[1..], payload);
      ShiftNonNegative(Beyond(joints[1..], payload), joints[0].length);
    }
  }

  lemma LinkAndShift(joints: seq<Joint>, payload: real)
    requires |joints| > 0
    ensures Total(Table(joints, payload))
         == Add(Of(Load(joints[0].linkMass, Com(joints[0]))),
                Total(Shift(Beyond(joints[1..], payload), joints[0].length)))
  {
    assert Table(joints, payload)[1..] == Shift(Beyond(joints[1..], payload), joints[0].length);
  }

  lemma MotorAtAxis(joints: seq<Joint>, payload: real)
    ensures var motor := if |joints| == 0 then Sums(0.0, 0.0, 0.0) else Sums(joints[0].motorMass, 0.0, 0.0);
            Total(Beyond(joints, payload)) == Add(motor, Total(Table(joints, payload)))
  {
    if |joints| > 0 {
      assert Beyond(joints, payload)[1..] == Table(joints, payload);
      assert Of(Load(joints[0].motorMass, 0.0)) == Sums(joints[0].motorMass, 0.0, 0.0);
    } else {
      assert Beyond(joints, payload) == Table(joints, payload);
    }
  }

  lemma MovedFurther(s: Sums, d: real)
    requires Positive(s) && d >= 0.0
    ensures Moved(s, d).moment >= s.moment && Moved(s, d).inertia >= s.inertia
  {
    assert d * s.mass >= 0.0 && d * s.moment >= 0.0;
    assert d * (d * s.mass) >= 0.0;
  }

  /** What one joint carries exceeds what the next carries, by its own link and the shift. */
  lemma OneJointFurther(joints: seq<Joint>, payload: real)
    requires |joints| > 0 && payload >= 0.0 && forall j :: j in joints ==> Physical(j)
    ensures Moment(Table(joints, payload)) >= Moment(Table(joints[1..], payload)) >= 0.0
    ensures Inertia(Table(joints, payload)) >= Inertia(Table(joints[1..], payload)) >= 0.0
  {
    var next := joints[1..];
    assert joints[0] in joints;
    assert forall j :: j in next ==> j in joints;
    TableNonNegative(next, payload);
    SumsNonNegative(Beyond(next, payload));
    SumsNonNegative(Table(next, payload));
    MotorAtAxis(next, payload);
    LinkAndShift(joints, payload);
    ParallelAxis(Beyond(next, payload), joints[0].length);
    MovedFurther(Total(Beyond(next, payload)), joints[0].length);
    OneNonNegative(Load(joints[0].linkMass, Com(joints[0])));
  }

  /** Neither the gravity moment nor the inertia a joint must bear ever grows from base to tip. */
  lemma {:induction false} LoadShrinksTowardsTip(joints: seq<Joint>, payload: real, i: nat, k: nat)
    requires i <= k <= |joints| && payload >= 0.0 && forall j :: j in joints ==> Physical(j)
    ensures Moment(Table(joints[i..], payload)) >= Moment(Table(joints[k..], payload)) >= 0.0
    ensures Inertia(Table(joints[i..], payload)) >= Inertia(Table(joints[k..], payload)) >= 0.0
    decreases k - i
  {
    if i == k {
      TableNonNegative(joints[i..], payload);
      SumsNonNegative(Table(joints[i..], payload));
    } else {
      assert joints[i..][1..] == joints[i + 1..];
      OneJointFurther(joints[i..], payload);
      LoadShrinksTowardsTip(joints, payload, i + 1, k);
    }
  }

  /** So a gravity-loaded joint never needs less static torque than any joint beyond it. */
  lemma StaticTorqueShrinks(joints: seq<Joint>, payload: real, i: nat, k: nat)
    requires i <= k < |joints| && payload >= 0.0 && (forall j :: j in joints ==> Physical(j)) && !joints[i].vertical
    ensures StaticTorque(Table(joints[i..], payload), joints[i].vertical)
         >= StaticTorque(Table(joints[k..], payload), joints[k].vertical) >= 0.0
  {
    LoadShrinksTowardsTip(joints, payload, i, k);
  }
}
