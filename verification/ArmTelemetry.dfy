/** Draining the boards' telemetry into logical joints (`ArmManager.positions`) and the cache the
    agent keeps of it (`_arm_drain` in agent/app.py). */
module ArmTelemetry {
  import opened Wrappers
  import opened ArmManager

  /** A frame read from a board, after decoding. `Malformed` decodes, but an angle or gripper field
      in it is not a number, so converting it raises; a read that itself raises has the same effect. */
  datatype Incoming =
    | Joints(angles: seq<real>)
    | Gripper(deg: real, tool: bool)
    | Other
    | Undecodable
    | Malformed

  datatype GripperState = GripperState(deg: real, tool: bool)

  /** The angles in the last `joints` frame. */
  function Latest(frames: seq<Incoming>): Option<seq<real>> {
    if |frames| == 0 then None
    else if frames[|frames| - 1].Joints? then Some(frames[|frames| - 1].angles)
    else Latest(frames[..|frames| - 1])
  }

  function GripperAfter(before: Option<GripperState>, frames: seq<Incoming>): Option<GripperState> {
    if |frames| == 0 then before
    else
      match frames[|frames| - 1]
      case Gripper(deg, tool) => Some(GripperState(deg, tool))
      case _ => GripperAfter(before, frames[..|frames| - 1])
  }

  /** What each board delivers in one drain cycle. */
  type Cycle = seq<seq<Incoming>>

  function CycleGripper(before: Option<GripperState>, cycle: Cycle): Option<GripperState> {
    if |cycle| == 0 then before
    else GripperAfter(CycleGripper(before, cycle[..|cycle| - 1]), cycle[|cycle| - 1])
  }

  predicate Raises(cycle: Cycle) { exists b :: 0 <= b < |cycle| && Malformed in cycle[b] }

  /** Up to and including the first frame that raises. */
  function UpToRaise(frames: seq<Incoming>): seq<Incoming> {
    if |frames| == 0 then []
    else if frames[0] == Malformed then [Malformed]
    else [frames[0]] + UpToRaise(frames[1..])
  }

  /** What a cycle takes from a board: all it delivers, but nothing after the frame that ends the cycle. */
  function Taken(cycle: Cycle, board: nat): seq<Incoming> {
    if board >= |cycle| || Raises(cycle[..board]) then [] else UpToRaise(cycle[board])
  }

  function AllTaken(cycle: Cycle): Cycle {
    seq(|cycle|, b requires 0 <= b < |cycle| => Taken(cycle, b))
  }

  function Reported(cycle: Cycle, ref: JointRef): Option<real> {
    if ref.board < |cycle| then
      match Latest(cycle[ref.board])
      case Some(deg) => if ref.channel < |deg| then Some(deg[ref.channel]) else None
      case None => None
    else None
  }

  /** The drained angles by logical joint. */
  function Rekeyed(joints: seq<JointRef>, cycle: Cycle): map<int, real> {
    map j: int | 0 <= j < |joints| && Reported(cycle, joints[j]).Some? :: Reported(cycle, joints[j]).value
  }

  class Drain {
    const joints: seq<JointRef>
    var gripper: Option<GripperState>
    var cache: map<int, real>

    constructor (joints: seq<JointRef>)
      ensures this.joints == joints && gripper == None && cache == map[]
    {
      this.joints, gripper, cache := joints, None, map[];
    }

    /** None when the cycle raised; the gripper then has what was taken before. */
    method Positions(cycle: Cycle) returns (out: Option<map<int, real>>)
      modifies this`gripper
      ensures out.None? <==> Raises(cycle)
      ensures out.Some? ==> out.value == Rekeyed(joints, cycle)
      ensures gripper == CycleGripper(old(gripper), AllTaken(cycle))
    {
      var boardPos: map<nat, seq<real>> := map[];
      for board := 0 to |cycle|
        invariant forall b :: 0 <= b < board ==> Malformed !in cycle[b]
        invariant gripper == GripperBy(old(gripper), cycle, board)
        invariant Collected(boardPos, cycle, board)
      {
        GripperStep(old(gripper), cycle, board);
        var ok, latest := DrainBoard(cycle[board]);
        if !ok {
          GripperEnd(old(gripper), cycle, board);
          return None;
        }
        CollectOne(boardPos, cycle, board);
        if latest.Some? {
          boardPos := boardPos[board := latest.value];
        }
      }
      GripperAll(old(gripper), cycle);
      var result := Rekey(boardPos, cycle);
      out := Some(result);
    }

    /** Everything one board has buffered. */
    method DrainBoard(frames: seq<Incoming>) returns (ok: bool, latest: Option<seq<real>>)
      modifies this`gripper
      ensures ok <==> Malformed !in frames
      ensures ok ==> latest == Latest(frames)
      ensures gripper == GripperAfter(old(gripper), UpToRaise(frames))
    {
      latest := None;
      for i := 0 to |frames|
        invariant Malformed !in frames[..i]
        invariant latest == Latest(frames[..i])
        invariant gripper == GripperAfter(old(gripper), frames[..i])
      {
        assert frames[..i + 1][..i] == frames[..i];
        match frames[i]
        case Joints(deg) => latest := Some(deg);
        case Gripper(deg, tool) => gripper := Some(GripperState(deg, tool));
        case Other =>
        case Undecodable =>
        case Malformed =>
          assert Malformed in frames;
          TakenUpTo(frames, i);
          return false, None;
      }
      assert frames[..|frames|] == frames;
      TakenWhole(frames);
      ok := true;
    }

    method Rekey(boardPos: map<nat, seq<real>>, ghost cycle: Cycle) returns (result: map<int, real>)
      requires Collected(boardPos, cycle, |cycle|)
      ensures result == Rekeyed(joints, cycle)
    {
      result := map[];
      for j := 0 to |joints|
        invariant forall k :: k in result <==> 0 <= k < j && Reported(cycle, joints[k]).Some?
        invariant forall k :: k in result ==> result[k] == Reported(cycle, joints[k]).value
      {
        var ref := joints[j];
        if ref.board in boardPos && ref.channel < |boardPos[ref.board]| {
          result := result[j := boardPos[ref.board][ref.channel]];
        }
      }
    }

    /** One turn of the drain loop: a failed or empty cycle keeps the last known angles. */
    method Turn(cycle: Cycle)
      modifies this
      ensures cache == Merged(joints, old(cache), cycle)
    {
      var positions := Positions(cycle);
      if positions.Some? && |positions.value| > 0 {
        cache := cache + positions.value;
      }
    }
  }

  lemma {:induction false} TakenWhole(frames: seq<Incoming>)
    requires Malformed !in frames
    ensures UpToRaise(frames) == frames
  {
    if |frames| == 0 {
    } else {
      assert frames[0] in frames;
      TakenWhole(frames[1..]);
    }
  }

  lemma {:induction false} TakenUpTo(frames: seq<Incoming>, i: nat)
    requires i < |frames| && frames[i] == Malformed && Malformed !in frames[..i]
    ensures UpToRaise(frames) == frames[..i] + [Malformed]
  {
    if i == 0 {
      assert frames[..0] == [];
    } else {
      assert frames[0] == frames[..i][0];
      assert frames[1..][..i - 1] == frames[..i][1..];
      TakenUpTo(frames[1..], i - 1);
      assert frames[..i] == [frames[0]] + frames[1..][..i - 1];
    }
  }

  lemma TakenFrom(cycle: Cycle, board: nat)
    requires board < |cycle| && forall b :: 0 <= b < board ==> Malformed !in cycle[b]
    ensures Taken(cycle, board) == UpToRaise(cycle[board])
  {
  }

  lemma NothingTakenAfter(cycle: Cycle, board: nat)
    requires board < |cycle| && Malformed in cycle[board]
    ensures forall b :: board < b < |cycle| ==> AllTaken(cycle)[b] == []
  {
    forall b | board < b < |cycle|
      ensures Raises(cycle[..b])
    {
      assert Malformed in cycle[..b][board];
    }
  }

  lemma GripperSnoc(before: Option<GripperState>, cycle: Cycle, board: nat)
    requires board < |cycle|
    ensures CycleGripper(before, cycle[..board + 1]) == GripperAfter(CycleGripper(before, cycle[..board]), cycle[board])
  {
    assert cycle[..board + 1][..board] == cycle[..board];
  }

  lemma {:induction false} GripperRest(before: Option<GripperState>, cycle: Cycle, board: nat)
    requires board <= |cycle| && forall b :: board <= b < |cycle| ==> cycle[b] == []
    ensures CycleGripper(before, cycle) == CycleGripper(before, cycle[..board])
    decreases |cycle| - board
  {
    if board == |cycle| {
      assert cycle[..board] == cycle;
    } else {
      GripperRest(before, cycle, board + 1);
      GripperSnoc(before, cycle, board);
    }
  }

  /** The gripper after the boards below `n`. */
  function GripperBy(before: Option<GripperState>, cycle: Cycle, n: nat): Option<GripperState>
    requires n <= |cycle|
  {
    CycleGripper(before, AllTaken(cycle)[..n])
  }

  lemma GripperStep(before: Option<GripperState>, cycle: Cycle, board: nat)
    requires board < |cycle| && forall b :: 0 <= b < board ==> Malformed !in cycle[b]
    ensures GripperBy(before, cycle, board + 1) == GripperAfter(GripperBy(before, cycle, board), UpToRaise(cycle[board]))
  {
    TakenFrom(cycle, board);
    GripperSnoc(before, AllTaken(cycle), board);
  }

  lemma GripperEnd(before: Option<GripperState>, cycle: Cycle, board: nat)
    requires board < |cycle| && Malformed in cycle[board]
    ensures CycleGripper(before, AllTaken(cycle)) == GripperBy(before, cycle, board + 1)
  {
    NothingTakenAfter(cycle, board);
    GripperRest(before, AllTaken(cycle), board + 1);
  }

  lemma GripperAll(before: Option<GripperState>, cycle: Cycle)
    ensures GripperBy(before, cycle, |cycle|) == CycleGripper(before, AllTaken(cycle))
  {
    assert AllTaken(cycle)[..|cycle|] == AllTaken(cycle);
  }

  /** The latest angles of the boards below `n`. */
  ghost predicate Collected(boardPos: map<nat, seq<real>>, cycle: Cycle, n: nat) {
    && (forall b: nat :: b in boardPos <==> b < n && b < |cycle| && Latest(cycle[b]).Some?)
    && forall b :: b in boardPos ==> boardPos[b] == Latest(cycle[b]).value
  }

  lemma CollectOne(boardPos: map<nat, seq<real>>, cycle: Cycle, board: nat)
    requires board < |cycle| && Collected(boardPos, cycle, board)
    ensures match Latest(cycle[board])
            case Some(deg) => Collected(boardPos[board := deg], cycle, board + 1)
            case None => Collected(boardPos, cycle, board + 1)
  {
  }

  /** The gripper is as the last of its frames said. */
  lemma {:induction false} GripperIsLast(before: Option<GripperState>, frames: seq<Incoming>, i: nat)
    requires i < |frames| && frames[i].Gripper? && forall k :: i < k < |frames| ==> !frames[k].Gripper?
    ensures GripperAfter(before, frames) == Some(GripperState(frames[i].deg, frames[i].tool))
    decreases |frames|
  {
    var n := |frames| - 1;
    if i < n {
      assert forall k :: i <= k < n ==> frames[..n][k] == frames[k];
      GripperIsLast(before, frames[..n], i);
    }
  }

  /** Without such a frame it is as before. */
  lemma {:induction false} GripperStays(before: Option<GripperState>, frames: seq<Incoming>)
    requires forall k :: 0 <= k < |frames| ==> !frames[k].Gripper?
    ensures GripperAfter(before, frames) == before
    decreases |frames|
  {
    if |frames| == 0 {
    } else {
      var n := |frames| - 1;
      assert forall k :: 0 <= k < n ==> frames[..n][k] == frames[k];
      GripperStays(before, frames[..n]);
    }
  }

  function Merged(joints: seq<JointRef>, cache: map<int, real>, cycle: Cycle): map<int, real> {
    if Raises(cycle) then cache else cache + Rekeyed(joints, cycle)
  }

  function CacheAfter(joints: seq<JointRef>, cycles: seq<Cycle>): map<int, real> {
    if |cycles| == 0 then map[]
    else Merged(joints, CacheAfter(joints, cycles[..|cycles| - 1]), cycles[|cycles| - 1])
  }

  /** Everything taken from a board. */
  function History(cycles: seq<Cycle>, board: nat): seq<Incoming> {
    if |cycles| == 0 then [] else History(cycles[..|cycles| - 1], board) + Taken(cycles[|cycles| - 1], board)
  }

  /** The last cycle that took a `joints` frame from a board. */
  function LastReport(cycles: seq<Cycle>, board: nat): (r: Option<nat>)
    ensures r.Some? ==> r.value < |cycles|
  {
    if |cycles| == 0 then None
    else if Latest(Taken(cycles[|cycles| - 1], board)).Some? then Some(|cycles| - 1)
    else LastReport(cycles[..|cycles| - 1], board)
  }

  lemma {:induction false} LatestOfConcat(a: seq<Incoming>, b: seq<Incoming>)
    ensures Latest(a + b) == if Latest(b).Some? then Latest(b) else Latest(a)
    decreases |b|
  {
    if |b| == 0 {
      assert a + b == a;
    } else {
      assert (a + b)[..|a + b| - 1] == a + b[..|b| - 1];
      LatestOfConcat(a, b[..|b| - 1]);
    }
  }

  lemma {:induction false} LatestIsFrom(frames: seq<Incoming>, channel: nat)
    requires forall f :: f in frames && f.Joints? ==> channel < |f.angles|
    ensures Latest(frames).Some? ==> channel < |Latest(frames).value|
  {
    if |frames| == 0 {
    } else {
      assert frames[|frames| - 1] in frames;
      assert forall f :: f in frames[..|frames| - 1] ==> f in frames;
      LatestIsFrom(frames[..|frames| - 1], channel);
    }
  }

  /** The board of joint `j` reports all its channels. */
  predicate FullReports(joints: seq<JointRef>, cycles: seq<Cycle>, j: nat)
    requires j < |joints|
  {
    forall i, f :: 0 <= i < |cycles| && f in Taken(cycles[i], joints[j].board) && f.Joints? ==>
      joints[j].channel < |f.angles|
  }

  lemma TakenWithoutRaise(cycle: Cycle, board: nat)
    requires !Raises(cycle)
    ensures Taken(cycle, board) == if board < |cycle| then cycle[board] else []
  {
    if board < |cycle| {
      assert Malformed !in cycle[board];
      assert forall b :: 0 <= b < board ==> cycle[..board][b] == cycle[b];
      TakenWhole(cycle[board]);
    }
  }

  function Entry(cache: map<int, real>, j: int): Option<real> { if j in cache then Some(cache[j]) else None }

  /** The angle of a joint in the last `joints` frame among these. */
  function AngleIn(frames: seq<Incoming>, channel: nat): Option<real> {
    match Latest(frames)
    case None => None
    case Some(deg) => if channel < |deg| then Some(deg[channel]) else None
  }

  lemma OneCycle(joints: seq<JointRef>, cache: map<int, real>, cycle: Cycle, j: nat)
    requires j < |joints|
    requires forall f :: f in Taken(cycle, joints[j].board) && f.Joints? ==> joints[j].channel < |f.angles|
    ensures var taken, entry := Taken(cycle, joints[j].board), Entry(Merged(joints, cache, cycle), j);
            entry == if Raises(cycle) || Latest(taken).None? then Entry(cache, j) else AngleIn(taken, joints[j].channel)
  {
    if !Raises(cycle) {
      TakenWithoutRaise(cycle, joints[j].board);
      LatestIsFrom(Taken(cycle, joints[j].board), joints[j].channel);
    }
  }

  /** Exactly what the cache holds for a joint, despite silent boards, undecodable frames and failed cycles:
      the last angle drained, unless the cycle that drained it raised; then it is as before that cycle. */
  lemma {:induction false} CacheIsLastAngle(joints: seq<JointRef>, cycles: seq<Cycle>, j: nat)
    requires j < |joints| && FullReports(joints, cycles, j)
    ensures var cache, drained := CacheAfter(joints, cycles), History(cycles, joints[j].board);
            match LastReport(cycles, joints[j].board)
            case None => Latest(drained) == None && Entry(cache, j) == None
            case Some(i) =>
              && AngleIn(drained, joints[j].channel).Some?
              && Entry(cache, j)
                 == if Raises(cycles[i]) then Entry(CacheAfter(joints, cycles[..i]), j)
                    else AngleIn(drained, joints[j].channel)
    decreases |cycles|
  {
    if |cycles| == 0 {
    } else {
      var n, ref := |cycles| - 1, joints[j];
      var taken := Taken(cycles[n], ref.board);
      FullReportsPrefix(joints, cycles, j);
      CacheIsLastAngle(joints, cycles[..n], j);
      OneCycle(joints, CacheAfter(joints, cycles[..n]), cycles[n], j);
      LatestOfConcat(History(cycles[..n], ref.board), taken);
      LatestIsFrom(taken, ref.channel);
      if Latest(taken).None? && LastReport(cycles, ref.board).Some? {
        var i := LastReport(cycles, ref.board).value;
        assert cycles[..n][..i] == cycles[..i];
      }
    }
  }

  lemma FullReportsPrefix(joints: seq<JointRef>, cycles: seq<Cycle>, j: nat)
    requires j < |joints| && FullReports(joints, cycles, j) && |cycles| > 0
    ensures FullReports(joints, cycles[..|cycles| - 1], j)
    ensures forall f :: f in Taken(cycles[|cycles| - 1], joints[j].board) && f.Joints? ==> joints[j].channel < |f.angles|
  {
    var n := |cycles| - 1;
    assert forall i :: 0 <= i < n ==> cycles[..n][i] == cycles[i];
  }

  /** So wherever no raising cycle took a `joints` frame from the board, it is the last angle drained. */
  lemma CacheIsLastAngleUnlessRaised(joints: seq<JointRef>, cycles: seq<Cycle>, j: nat)
    requires j < |joints| && FullReports(joints, cycles, j)
    requires forall i :: 0 <= i < |cycles| && Raises(cycles[i]) ==> Latest(Taken(cycles[i], joints[j].board)) == None
    ensures Entry(CacheAfter(joints, cycles), j) == AngleIn(History(cycles, joints[j].board), joints[j].channel)
  {
    CacheIsLastAngle(joints, cycles, j);
    LastReportReports(cycles, joints[j].board);
  }

  lemma {:induction false} LastReportReports(cycles: seq<Cycle>, board: nat)
    ensures var r := LastReport(cycles, board); r.Some? ==> Latest(Taken(cycles[r.value], board)).Some?
  {
    if |cycles| == 0 {
    } else {
      LastReportReports(cycles[..|cycles| - 1], board);
    }
  }

  /** While every cycle raises, whichever board is to blame, the angles of all boards stay as they were. */
  lemma {:induction false} RaisingFreezes(joints: seq<JointRef>, before: seq<Cycle>, raising: seq<Cycle>)
    requires forall cycle :: cycle in raising ==> Raises(cycle)
    ensures CacheAfter(joints, before + raising) == CacheAfter(joints, before)
    decreases |raising|
  {
    if |raising| == 0 {
      assert before + raising == before;
    } else {
      var n, cycles := |raising| - 1, before + raising;
      assert raising[n] in raising && cycles[..|cycles| - 1] == before + raising[..n];
      assert forall cycle :: cycle in raising[..n] ==> cycle in raising;
      RaisingFreezes(joints, before, raising[..n]);
    }
  }

  /** An angle that was drained, and lost because another board's frame could not be converted. */
  lemma DrainedAngleIsLost(joints: seq<JointRef>, cycle: Cycle)
    requires joints == [JointRef(0, 0), JointRef(1, 0)] && cycle == [[Joints([1.0])], [Malformed]]
    ensures AngleIn(History([cycle], 0), 0) == Some(1.0) && CacheAfter(joints, [cycle]) == map[]
  {
    assert Malformed in cycle[1] && cycle[..0] == [] && [cycle][..0] == [];
    TakenWhole(cycle[0]);
    assert History([cycle], 0) == [] + [Joints([1.0])] == [Joints([1.0])];
    RaisingFreezes(joints, [], [cycle]);
    assert [] + [cycle] == [cycle];
  }

  /** Commands go out and telemetry comes back through the same slot: the angle a board reports on the
      channel a joint's commands are sent to is the angle that joint gets. */
  lemma CommandsAndTelemetryAgree(perBoard: seq<nat>, cycle: Cycle, board: nat, deg: seq<real>, channel: nat)
    requires board < |cycle| && IsSlot(perBoard, JointRef(board, channel))
    requires Latest(cycle[board]) == Some(deg) && channel < |deg|
    ensures var joints := LinearMap(perBoard);
            var j := JointAt(perBoard, JointRef(board, channel));
            && Locate(joints, j) == Some(JointRef(board, channel))
            && j in Rekeyed(joints, cycle) && Rekeyed(joints, cycle)[j] == deg[channel]
  {
    LinearMapIsBijective(perBoard);
  }
}
