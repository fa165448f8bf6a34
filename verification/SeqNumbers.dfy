/** 8-bit sequence numbering with wrap (`SeqTracker` in pibot/protocol/codec.py). */
module SeqNumbers {
  import opened Wrappers

  datatype Verdict = Ok | Duplicate | OutOfOrder

  function Classify(last: Option<int>, seqNo: int): Verdict {
    match last
    case None => Ok
    case Some(n) => if seqNo == n then Duplicate else if seqNo == (n + 1) % 256 then Ok else OutOfOrder
  }

  class SeqTracker {
    var upcoming: int
    var last: Option<int>
    /** How many numbers have been handed out. */
    ghost var issued: nat

    ghost predicate Valid()
      reads this
    {
      upcoming == issued % 256
    }

    constructor ()
      ensures Valid() && issued == 0 && last == None
    {
      upcoming, last, issued := 0, None, 0;
    }

    /** The k-th number handed out is k mod 256. */
    method Next() returns (seqNo: int)
      requires Valid()
      modifies this
      ensures Valid() && issued == old(issued) + 1 && last == old(last)
      ensures seqNo == old(issued) % 256
    {
      seqNo := upcoming;
      upcoming := (upcoming + 1) % 256;
      issued := issued + 1;
    }

    method Observe(seqNo: int) returns (verdict: Verdict)
      modifies this`last
      ensures last == Some(seqNo)
      ensures verdict == Classify(old(last), seqNo)
    {
      if last.None? {
        last := Some(seqNo);
        return Ok;
      }
      if seqNo == last.value {
        return Duplicate;
      }
      var expected := (last.value + 1) % 256;
      last := Some(seqNo);
      verdict := if seqNo == expected then Ok else OutOfOrder;
    }
  }

  /** The verdicts of a tracker that observes `seqs` one after the other. */
  function Verdicts(last: Option<int>, seqs: seq<int>): (r: seq<Verdict>)
    ensures |r| == |seqs|
    decreases |seqs|
  {
    if |seqs| == 0 then [] else [Classify(last, seqs[0])] + Verdicts(Some(seqs[0]), seqs[1..])
  }

  /** Each number is the successor, modulo 256, of the one before it. */
  predicate Consecutive(last: Option<int>, seqs: seq<int>) {
    && (last.Some? && |seqs| > 0 ==> seqs[0] == (last.value + 1) % 256)
    && forall i :: 0 < i < |seqs| ==> seqs[i] == (seqs[i - 1] + 1) % 256
  }

  /** A stream raises no complaint exactly when it is consecutive. */
  lemma {:induction false} NoComplaintIffConsecutive(last: Option<int>, seqs: seq<int>)
    ensures (forall v :: v in Verdicts(last, seqs) ==> v == Ok) <==> Consecutive(last, seqs)
    decreases |seqs|
  {
    if |seqs| == 0 {
    } else {
      var rest, first := seqs[1..], Classify(last, seqs[0]);
      NoComplaintIffConsecutive(Some(seqs[0]), rest);
      var later := Verdicts(Some(seqs[0]), rest);
      assert Verdicts(last, seqs) == [first] + later;
      assert forall v :: v in Verdicts(last, seqs) <==> v == first || v in later;
      ConsecutiveSplit(last, seqs);
      assert (forall v :: v in Verdicts(last, seqs) ==> v == Ok)
         <==> (first == Ok && (forall v :: v in later ==> v == Ok)) by {
        assert first in Verdicts(last, seqs);
      }
    }
  }

  /** A repeated number is a duplicate; any other that is not the successor is out of order. */
  lemma {:induction false} ComplaintAt(last: Option<int>, seqs: seq<int>, i: nat)
    requires 0 < i < |seqs|
    ensures Verdicts(last, seqs)[i] == Duplicate <==> seqs[i] == seqs[i - 1]
    ensures Verdicts(last, seqs)[i] == OutOfOrder <==> seqs[i] != seqs[i - 1] && seqs[i] != (seqs[i - 1] + 1) % 256
    decreases |seqs|
  {
    if i == 1 {
      assert Verdicts(last, seqs)[1] == Verdicts(Some(seqs[0]), seqs[1..])[0];
    } else {
      ComplaintAt(Some(seqs[0]), seqs[1..], i - 1);
    }
  }

  lemma ConsecutiveSplit(last: Option<int>, seqs: seq<int>)
    requires |seqs| > 0
    ensures Consecutive(last, seqs)
       <==> (Classify(last, seqs[0]) == Ok && Consecutive(Some(seqs[0]), seqs[1..]))
  {
    var rest := seqs[1..];
    if Classify(last, seqs[0]) == Ok && Consecutive(Some(seqs[0]), rest) {
      forall i | 0 < i < |seqs|
        ensures seqs[i] == (seqs[i - 1] + 1) % 256
      {
        assert seqs[i] == rest[i - 1] && (i > 1 ==> seqs[i - 1] == rest[i - 2]);
      }
    }
    if Consecutive(last, seqs) && |rest| > 0 {
      assert rest[0] == seqs[1];
    }
  }
}
