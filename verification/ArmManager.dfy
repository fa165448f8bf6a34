/** Routing logical joints to board channels (pibot/arm/manager.py), paced trajectory playback, and
    the telemetry drain (pibot/arm/manager.py and the cache in agent/app.py). */
module ArmManager {
  import opened Wrappers
  import opened Trajectory

  datatype JointRef = JointRef(board: nat, channel: nat)

  // ----- the sequential joint map -----

  function Slots(board: nat, count: nat): (refs: seq<JointRef>)
    ensures |refs| == count
  {
    seq(count, c requires 0 <= c < count => JointRef(board, c))
  }

  function LinearMap(perBoard: seq<nat>): seq<JointRef> {
    if |perBoard| == 0 then []
    else LinearMap(perBoard[..|perBoard| - 1]) + Slots(|perBoard| - 1, perBoard[|perBoard| - 1])
  }

  method LinearJointMap(perBoard: seq<nat>) returns (joints: seq<JointRef>)
    ensures joints == LinearMap(perBoard)
  {
    joints := [];
    for board := 0 to |perBoard|
      invariant joints == LinearMap(perBoard[..board])
    {
      var count := perBoard[board];
      ghost var before := joints;
      for channel := 0 to count
        invariant joints == before + Slots(board, count)[..channel]
      {
        joints := joints + [JointRef(board, channel)];
      }
      assert perBoard[..board + 1][..board] == perBoard[..board];
      assert Slots(board, count)[..count] == Slots(board, count);
    }
    assert perBoard[..|perBoard|] == perBoard;
  }

  function Sum(counts: seq<nat>): nat {
    if |counts| == 0 then 0 else Sum(counts[..|counts| - 1]) + counts[|counts| - 1]
  }

  /** The logical joint on a slot. */
  function JointAt(perBoard: seq<nat>, ref: JointRef): nat
    requires ref.board <= |perBoard|
  {
    Sum(perBoard[..ref.board]) + ref.channel
  }

  predicate IsSlot(perBoard: seq<nat>, ref: JointRef) {
    ref.board < |perBoard| && ref.channel < perBoard[ref.board]
  }

  /** The map is a bijection between joints 0..n-1 and the boards' channels, with `JointAt` its inverse. */
  lemma {:induction false} LinearMapIsBijective(perBoard: seq<nat>)
    ensures |LinearMap(perBoard)| == Sum(perBoard)
    ensures forall j :: 0 <= j < |LinearMap(perBoard)| ==>
              IsSlot(perBoard, LinearMap(perBoard)[j]) && JointAt(perBoard, LinearMap(perBoard)[j]) == j
    ensures forall ref :: IsSlot(perBoard, ref) ==>
              JointAt(perBoard, ref) < |LinearMap(perBoard)| && LinearMap(perBoard)[JointAt(perBoard, ref)] == ref
  {
    if |perBoard| == 0 {
    } else {
      var n := |perBoard| - 1;
      var fewer, slots := perBoard[..n], Slots(n, perBoard[n]);
      LinearMapIsBijective(fewer);
      var joints := LinearMap(perBoard);
      assert joints == LinearMap(fewer) + slots;
      forall b | 0 <= b <= n
        ensures perBoard[..b] == fewer[..b]
      {
      }
      assert perBoard[..n] == fewer;
      forall j | 0 <= j < |joints|
        ensures IsSlot(perBoard, joints[j]) && JointAt(perBoard, joints[j]) == j
      {
        if j < |LinearMap(fewer)| {
          assert joints[j] == LinearMap(fewer)[j];
          assert IsSlot(fewer, joints[j]) && JointAt(fewer, joints[j]) == j;
        } else {
          assert joints[j] == slots[j - |LinearMap(fewer)|];
        }
      }
      forall ref | IsSlot(perBoard, ref)
        ensures JointAt(perBoard, ref) < |joints| && joints[JointAt(perBoard, ref)] == ref
      {
        if ref.board < n {
          assert IsSlot(fewer, ref) && JointAt(fewer, ref) == JointAt(perBoard, ref);
        } else {
          assert joints[|LinearMap(fewer)| + ref.channel] == slots[ref.channel];
        }
      }
    }
  }

  // ----- commands -----

  datatype Order =
    | JPos(channel: nat, deg: real)
    | JMove(channel: nat, deg: real, dps: real)
    | JVel(channel: nat, dps: real)
    | JStop(channel: nat)
    | Home(channel: nat)
    | Grip(deg: real)
    | Tool(on: bool)
    | Estop
    | ClearEstop
    | Enable(on: bool)

  datatype Command = Command(seqNo: int, order: Order)

  /** What each board has been sent. */
  type Wires = seq<seq<Command>>

  function Post(wires: Wires, board: nat, order: Order): (r: Wires)
    requires board < |wires|
    ensures |r| == |wires|
  {
    wires[board := wires[board] + [Command(|wires[board]| % 256, order)]]
  }

  function PostAll(wires: Wires, order: Order, n: nat): (r: Wires)
    requires n <= |wires|
    ensures |r| == |wires|
  {
    if n == 0 then wires else Post(PostAll(wires, order, n - 1), n - 1, order)
  }

  /** A joint, an absolute angle and a speed. */
  datatype Motion = Motion(joint: int, deg: real, dps: real)

  /** Python's indexing of the joint list: negative indices count from the end. */
  function Locate(joints: seq<JointRef>, joint: int): Option<JointRef> {
    if 0 <= joint < |joints| then Some(joints[joint])
    else if -|joints| <= joint < 0 then Some(joints[|joints| + joint])
    else None
  }

  function PostMotions(wires: Wires, joints: seq<JointRef>, motions: seq<Motion>): (r: Wires)
    ensures |r| == |wires|
  {
    if |motions| == 0 then wires
    else
      var before := PostMotions(wires, joints, motions[..|motions| - 1]);
      var m := motions[|motions| - 1];
      match Locate(joints, m.joint)
      case Some(ref) => if ref.board < |wires| then Post(before, ref.board, JMove(ref.channel, m.deg, m.dps)) else before
      case None => before
  }

  /** The motions for joints on one board. */
  function OnBoard(joints: seq<JointRef>, motions: seq<Motion>, board: nat): seq<Motion> {
    if |motions| == 0 then []
    else
      var m := motions[|motions| - 1];
      OnBoard(joints, motions[..|motions| - 1], board)
      + (if Locate(joints, m.joint).Some? && Locate(joints, m.joint).value.board == board then [m] else [])
  }

  /** The command a board gets for a motion: its joint's channel, the angle and the speed. */
  predicate Commands(joints: seq<JointRef>, m: Motion, c: Command, seqNo: int) {
    && c.seqNo == seqNo && c.order.JMove? && Locate(joints, m.joint).Some?
    && c.order.channel == Locate(joints, m.joint).value.channel && c.order.deg == m.deg && c.order.dps == m.dps
  }

  /** Each board is sent exactly the motions of its own joints, in order, as numbered commands. */
  lemma {:induction false} MotionsReachTheirSlots(wires: Wires, joints: seq<JointRef>, motions: seq<Motion>, board: nat)
    requires board < |wires|
    ensures var sent, own, n := PostMotions(wires, joints, motions)[board], OnBoard(joints, motions, board), |wires[board]|;
            && wires[board] <= sent && |sent| == n + |own|
            && forall i :: 0 <= i < |own| ==> Commands(joints, own[i], sent[n + i], (n + i) % 256)
  {
    if |motions| == 0 {
    } else {
      MotionsReachTheirSlots(wires, joints, motions[..|motions| - 1], board);
    }
  }

  /** A broadcast order is sent to every board once. */
  lemma {:induction false} BroadcastReachesAll(wires: Wires, order: Order, n: nat, board: nat)
    requires n <= |wires| && board < |wires|
    ensures PostAll(wires, order, n)[board]
         == wires[board] + if board < n then [Command(|wires[board]| % 256, order)] else []
  {
    if n == 0 {
    } else {
      BroadcastReachesAll(wires, order, n - 1, board);
      if board == n - 1 {
        assert wires[board] + [] == wires[board];
      }
    }
  }

  function Abs(x: real): real { if x < 0.0 then -x else x }

  // ----- trajectory playback -----

  datatype Status = Going | Stopped | BadDt | MissingJoint | BadJoint

  /** The motions sent, the time slept and how playback stands after some of the frames. */
  datatype Playback = Playback(motions: seq<Motion>, slept: real, status: Status)

  function Speed(from: real, to: real, dt: real): real
    requires dt != 0.0
  {
    Abs(to - from) / dt
  }

  /** The segment's motions for the first `n` joints, stopping at one that cannot be sent. */
  function Segment(joints: seq<JointRef>, last: Angles, frame: Frame, n: nat): (seq<Motion>, Status)
    requires n <= |frame.targets.order| && frame.dt > 0.0
  {
    if n == 0 then ([], Going)
    else
      var (motions, status) := Segment(joints, last, frame, n - 1);
      var joint := frame.targets.order[n - 1];
      if status != Going then (motions, status)
      else if joint !in last.deg then (motions, MissingJoint)
      else if Locate(joints, joint).None? then (motions, BadJoint)
      else
        assert joint in frame.targets.order;
        (motions + [Motion(joint, frame.targets.deg[joint],
                           Speed(last.deg[joint], frame.targets.deg[joint], frame.dt))], Going)
  }

  /** Playback of the first `n` frames, with `abort` consulted before each segment. */
  function Play(joints: seq<JointRef>, frames: seq<Frame>, abort: nat -> bool, n: nat): Playback
    requires 1 <= n <= |frames|
  {
    if n == 1 then Playback([], 0.0, Going)
    else
      PlayFrame(joints, frames[n - 2].targets, frames[n - 1], abort(n - 1), Play(joints, frames, abort, n - 1))
  }

  function PlayFrame(joints: seq<JointRef>, last: Angles, frame: Frame, aborted: bool, p: Playback): Playback {
    if p.status != Going then p
    else if aborted then p.(status := Stopped)
    else if frame.dt <= 0.0 then p.(status := BadDt)
    else
      var (motions, status) := Segment(joints, last, frame, |frame.targets.order|);
      Playback(p.motions + motions, if status == Going then p.slept + frame.dt else p.slept, status)
  }

  /** The joint can be moved: it was in the frame before, and the arm has it. */
  predicate Movable(joints: seq<JointRef>, last: Angles, j: int) { j in last.deg && -|joints| <= j < |joints| }

  /** A segment stops at the first of its joints that cannot be moved: one missing from the frame before is a
      KeyError, one the arm does not have an IndexError. Those before it have been sent. */
  lemma {:induction false} SegmentVerdict(joints: seq<JointRef>, last: Angles, frame: Frame, n: nat)
    requires n <= |frame.targets.order| && frame.dt > 0.0
    ensures var (motions, status) := Segment(joints, last, frame, n);
            var order := frame.targets.order;
            && |motions| <= n && (forall k :: 0 <= k < |motions| ==> Movable(joints, last, order[k]) && motions[k].joint == order[k])
            && (if |motions| == n then status == Going
                else
                  && !Movable(joints, last, order[|motions|])
                  && status == if order[|motions|] in last.deg then BadJoint else MissingJoint)
  {
    if n == 0 {
    } else {
      SegmentVerdict(joints, last, frame, n - 1);
    }
  }

  /** Every frame after the first has time, and joints that can be moved. */
  predicate Playable(joints: seq<JointRef>, frames: seq<Frame>, n: nat)
    requires n <= |frames|
  {
    forall k :: 1 <= k < n ==>
      frames[k].dt > 0.0 && forall j :: j in frames[k].targets.order ==> Movable(joints, frames[k - 1].targets, j)
  }

  /** Unaborted playback goes through exactly if every frame can be played. */
  lemma {:induction false} PlaysThroughIff(joints: seq<JointRef>, frames: seq<Frame>, abort: nat -> bool, n: nat)
    requires 1 <= n <= |frames| && forall k :: 1 <= k < n ==> !abort(k)
    ensures Play(joints, frames, abort, n).status == Going <==> Playable(joints, frames, n)
  {
    if n == 1 {
    } else {
      PlaysThroughIff(joints, frames, abort, n - 1);
      var last, frame := frames[n - 2].targets, frames[n - 1];
      if frame.dt > 0.0 {
        SegmentGoesIff(joints, last, frame);
      }
    }
  }

  lemma SegmentGoesIff(joints: seq<JointRef>, last: Angles, frame: Frame)
    requires frame.dt > 0.0
    ensures Segment(joints, last, frame, |frame.targets.order|).1 == Going
       <==> forall j :: j in frame.targets.order ==> Movable(joints, last, j)
  {
    var order := frame.targets.order;
    SegmentVerdict(joints, last, frame, |order|);
    var motions := Segment(joints, last, frame, |order|).0;
    if |motions| < |order| {
      assert order[|motions|] in order;
    }
  }

  function NothingSent(boards: nat): Wires { seq(boards, b => []) }

  /** Every joint and the gripper are on a board that has a transport. */
  predicate Addressable(boards: nat, joints: seq<JointRef>, gripperBoard: nat) {
    gripperBoard < boards && forall r :: r in joints ==> r.board < boards
  }

  /** None is the ValueError of a reference to a board without a transport. */
  method Open(boards: nat, joints: seq<JointRef>, gripperBoard: nat) returns (m: Option<Manager>)
    ensures m.Some? <==> Addressable(boards, joints, gripperBoard)
    ensures m.Some? ==> fresh(m.value) && m.value.Valid() && m.value.wires == NothingSent(boards)
    ensures m.Some? ==> m.value.joints == joints && m.value.gripperBoard == gripperBoard
  {
    for i := 0 to |joints|
      invariant forall r :: r in joints[..i] ==> r.board < boards
    {
      if joints[i].board >= boards {
        assert joints[i] in joints;
        return None;
      }
    }
    assert joints[..|joints|] == joints;
    if gripperBoard >= boards {
      return None;
    }
    var manager := new Manager(boards, joints, gripperBoard);
    m := Some(manager);
  }

  class Manager {
    const joints: seq<JointRef>
    const gripperBoard: nat
    const boards: nat
    /** The next sequence number of each board. */
    var upcoming: seq<int>
    var wires: Wires

    /** Every board's commands carry consecutive numbers modulo 256. */
    ghost predicate Valid()
      reads this
    {
      && |upcoming| == |wires| == boards && gripperBoard < boards
      && (forall b :: 0 <= b < boards ==> upcoming[b] == |wires[b]| % 256)
      && (forall b, i :: 0 <= b < boards && 0 <= i < |wires[b]| ==> wires[b][i].seqNo == i % 256)
      && forall r :: r in joints ==> r.board < boards
    }

    constructor (boards: nat, joints: seq<JointRef>, gripperBoard: nat)
      ensures this.joints == joints && this.gripperBoard == gripperBoard && this.boards == boards
      ensures Addressable(boards, joints, gripperBoard) ==> Valid()
      ensures wires == NothingSent(boards)
    {
      this.joints, this.gripperBoard, this.boards := joints, gripperBoard, boards;
      upcoming := seq(boards, b => 0);
      wires := NothingSent(boards);
    }

    method Send(board: nat, order: Order)
      requires Valid() && board < boards
      modifies this
      ensures Valid() && wires == Post(old(wires), board, order)
    {
      var seqNo := upcoming[board];
      upcoming := upcoming[board := (upcoming[board] + 1) % 256];
      wires := wires[board := wires[board] + [Command(seqNo, order)]];
    }

    /** False is the IndexError of an unknown joint. */
    method JMove(joint: int, deg: real, dps: real) returns (ok: bool)
      requires Valid()
      modifies this
      ensures Valid() && ok == Locate(joints, joint).Some?
      ensures wires == PostMotions(old(wires), joints, [Motion(joint, deg, dps)])
    {
      ghost var one := [Motion(joint, deg, dps)];
      assert one[..0] == [] && PostMotions(wires, joints, one[..0]) == wires;
      var ref := Locate(joints, joint);
      if ref.None? {
        return false;
      }
      assert ref.value in joints;
      Send(ref.value.board, Order.JMove(ref.value.channel, deg, dps));
      ok := true;
    }

    method GripTo(deg: real)
      requires Valid()
      modifies this
      ensures Valid() && wires == Post(old(wires), gripperBoard, Grip(deg))
    {
      Send(gripperBoard, Grip(deg));
    }

    method SetTool(on: bool)
      requires Valid()
      modifies this
      ensures Valid() && wires == Post(old(wires), gripperBoard, Tool(on))
    {
      Send(gripperBoard, Tool(on));
    }

    /** E-stop, its clearing and enabling go to every board. */
    method Broadcast(order: Order)
      requires Valid()
      modifies this
      ensures Valid() && wires == PostAll(old(wires), order, boards)
    {
      for board := 0 to boards
        invariant Valid() && wires == PostAll(old(wires), order, board)
      {
        Send(board, order);
      }
    }

    /** Joints scaled to arrive together; the first joint without a current angle raises. */
    method MoveSynchronized(targets: Angles, current: Angles, seconds: real) returns (status: Status)
      requires Valid()
      modifies this
      ensures Valid()
      ensures seconds <= 0.0 ==> status == BadDt && wires == old(wires)
      ensures seconds > 0.0 ==>
                var (motions, s) := Segment(joints, current, Frame(targets, seconds), |targets.order|);
                status == s && wires == PostMotions(old(wires), joints, motions)
    {
      if seconds <= 0.0 {
        return BadDt;
      }
      status := RunSegment(current, Frame(targets, seconds));
    }

    method RunSegment(last: Angles, frame: Frame) returns (status: Status)
      requires Valid() && frame.dt > 0.0
      modifies this
      ensures Valid()
      ensures var (motions, s) := Segment(joints, last, frame, |frame.targets.order|);
              status == s && wires == PostMotions(old(wires), joints, motions)
    {
      var order := frame.targets.order;
      ghost var sent: seq<Motion> := [];
      status := Going;
      var i := 0;
      while i < |order| && status == Going
        invariant Valid() && i <= |order| && (status != Going ==> i > 0)
        invariant Segment(joints, last, frame, i) == (sent, status)
        invariant wires == PostMotions(old(wires), joints, sent)
        decreases |order| - i
      {
        var joint := order[i];
        assert joint in order;
        if joint !in last.deg {
          status := MissingJoint;
        } else {
          var deg := frame.targets.deg[joint];
          var dps := Speed(last.deg[joint], deg, frame.dt);
          ghost var before := wires;
          var ok := JMove(joint, deg, dps);
          PostOne(old(wires), joints, sent, Motion(joint, deg, dps));
          if ok {
            sent := sent + [Motion(joint, deg, dps)];
          } else {
            assert wires == before by {
              assert [Motion(joint, deg, dps)][..0] == [];
            }
            status := BadJoint;
          }
        }
        i := i + 1;
      }
      SegmentStops(joints, last, frame, i);
    }

    /** Paced playback of `frames`; `abort(k)` is what the abort check says before segment `k`. */
    method RunTrajectory(frames: seq<Frame>, abort: nat -> bool) returns (slept: real, status: Status)
      requires Valid()
      modifies this
      ensures Valid()
      ensures |frames| == 0 ==> wires == old(wires) && slept == 0.0 && status == Going
      ensures |frames| > 0 ==>
                var p := Play(joints, frames, abort, |frames|);
                slept == p.slept && status == p.status && wires == PostMotions(old(wires), joints, p.motions)
    {
      slept, status := 0.0, Going;
      if |frames| == 0 {
        return;
      }
      var last := frames[0].targets;
      ghost var p := Playback([], 0.0, Going);
      var n := 1;
      while n < |frames| && status == Going
        invariant Valid() && 1 <= n <= |frames|
        invariant p == Play(joints, frames, abort, n)
        invariant slept == p.slept && status == p.status
        invariant wires == PostMotions(old(wires), joints, p.motions)
        invariant status == Going ==> last == frames[n - 1].targets
        decreases |frames| - n
      {
        var aborted := abort(n);
        ghost var q := PlayFrame(joints, last, frames[n], aborted, p);
        assert q == Play(joints, frames, abort, n + 1);
        slept, status := RunFrame(last, frames[n], aborted, slept, old(wires), p);
        p := q;
        last := frames[n].targets;
        n := n + 1;
      }
      PlayStops(joints, frames, abort, n);
    }

    method RunFrame(last: Angles, frame: Frame, aborted: bool, slept: real, ghost origin: Wires, ghost p: Playback)
      returns (slept': real, status: Status)
      requires Valid() && p.status == Going && p.slept == slept && wires == PostMotions(origin, joints, p.motions)
      modifies this
      ensures Valid()
      ensures var q := PlayFrame(joints, last, frame, aborted, p);
              slept' == q.slept && status == q.status && wires == PostMotions(origin, joints, q.motions)
    {
      slept' := slept;
      if aborted {
        return slept, Stopped;
      }
      if frame.dt <= 0.0 {
        return slept, BadDt;
      }
      status := RunSegment(last, frame);
      PostMore(origin, joints, p.motions, Segment(joints, last, frame, |frame.targets.order|).0);
      if status == Going {
        slept' := slept + frame.dt;
      }
    }
  }

  lemma PostOne(wires: Wires, joints: seq<JointRef>, sent: seq<Motion>, m: Motion)
    ensures PostMotions(wires, joints, sent + [m])
         == PostMotions(PostMotions(wires, joints, sent), joints, [m])
  {
    assert (sent + [m])[..|sent|] == sent && [m][..0] == [];
    assert PostMotions(PostMotions(wires, joints, sent), joints, [m][..0]) == PostMotions(wires, joints, sent);
  }

  lemma {:induction false} PostMore(wires: Wires, joints: seq<JointRef>, sent: seq<Motion>, more: seq<Motion>)
    ensures PostMotions(wires, joints, sent + more)
         == PostMotions(PostMotions(wires, joints, sent), joints, more)
    decreases |more|
  {
    if |more| == 0 {
      assert sent + more == sent;
    } else {
      var n := |more| - 1;
      PostMore(wires, joints, sent, more[..n]);
      assert (sent + more)[..|sent + more| - 1] == sent + more[..n];
    }
  }

  lemma {:induction false} SegmentStops(joints: seq<JointRef>, last: Angles, frame: Frame, i: nat)
    requires i <= |frame.targets.order| && frame.dt > 0.0
    ensures Segment(joints, last, frame, i).1 != Going ==>
              Segment(joints, last, frame, |frame.targets.order|) == Segment(joints, last, frame, i)
    decreases |frame.targets.order| - i
  {
    if i < |frame.targets.order| {
      SegmentStops(joints, last, frame, i + 1);
    }
  }

  lemma {:induction false} PlayStops(joints: seq<JointRef>, frames: seq<Frame>, abort: nat -> bool, n: nat)
    requires 1 <= n <= |frames|
    ensures Play(joints, frames, abort, n).status != Going ==>
              Play(joints, frames, abort, |frames|) == Play(joints, frames, abort, n)
    decreases |frames| - n
  {
    if n < |frames| {
      PlayStops(joints, frames, abort, n + 1);
    }
  }
}
