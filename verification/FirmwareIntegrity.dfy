/** Which lines the C++ parser accepts, and what the CRC guarantees about them
    (firmware/pibot_esp32/protocol.cpp). */
module FirmwareIntegrity {
  import opened Wrappers
  import opened Text
  import opened Codec
  import opened Firmware
  import CodecIntegrity
  import Crc

  // ----- the exact verdict -----

  function NonEmpty(pieces: seq<string>): seq<string> {
    if |pieces| == 0 then []
    else (if pieces[0] == "" then [] else [pieces[0]]) + NonEmpty(pieces[1..])
  }

  lemma SplitAtComma(s: string, i: nat)
    requires Find(s, ',') == Some(i)
    ensures Split(s, ',') == [s[..i]] + Split(s[i + 1..], ',')
  {
    assert s == s[..i] + [','] + s[i + 1..];
    SplitFirst(s[..i], ',', s[i + 1..]);
  }

  /** strtok's tokens are the non-empty pieces between commas. */
  lemma {:induction false} TokensAreThePieces(s: string)
    ensures Tokens(s) == NonEmpty(Split(s, ','))
    decreases |s|
  {
    if |s| == 0 {
      assert NonEmpty([""]) == [] + NonEmpty([]);
    } else if s[0] == ',' {
      assert s[..0] == "" && Find(s, ',') == Some(0);
      SplitAtComma(s, 0);
      TokensAreThePieces(s[1..]);
      var rest := Split(s[1..], ',');
      assert ([""] + rest)[1..] == rest;
    } else {
      assert SkipCommas(s) == s;
      match Find(s, ',')
      case None =>
        SplitPlain(s, ',');
        assert [s][1..] == [];
        assert Tokens("") == [];
      case Some(i) =>
        SplitAtComma(s, i);
        TokensAreThePieces(s[i + 1..]);
        var rest := Split(s[i + 1..], ',');
        assert ([s[..i]] + rest)[1..] == rest;
    }
  }

  /** Why a payload is refused with this field after it, None if it is not: its CRC is not what the field
      says, it does not fit the scratch buffer, or less than two of its pieces are not empty. */
  function Objection(payload: string, field: string): Option<string> {
    if Crc.Crc8(Bytes(payload)) as int != StrtolHex(field) % 256 then Some("crc")
    else if |payload| > 95 then Some("len")
    else if |NonEmpty(Split(payload, ','))| < 2 then Some("fields")
    else None
  }

  predicate Verdict(r: Result<Parsed, string>, objection: Option<string>) {
    match objection
    case Some(reason) => r == Failure(reason)
    case None => r.Success?
  }

  lemma PayloadVerdict(payload: string, field: string)
    ensures Verdict(ParseFields(payload, field), Objection(payload, field))
  {
    TokensAreThePieces(payload);
  }

  function LineOf(payload: string, field: string): string { ">" + payload + "*" + field }

  lemma LineSplits(payload: string, field: string)
    requires '*' !in field
    ensures ParseSpec(LineOf(payload, field)) == ParseFields(payload, field)
  {
    var line := LineOf(payload, field);
    assert line == (">" + payload) + ['*'] + field;
    RFindAt(">" + payload, '*', field);
    assert line[0] == '>' && line[1..1 + |payload|] == payload && line[2 + |payload|..] == field;
  }

  lemma LineIsSplit(line: string) returns (payload: string, field: string)
    requires |line| > 0 && line[0] == '>' && '*' in line
    ensures line == LineOf(payload, field) && '*' !in field
  {
    var star := RFind(line, '*').value;
    payload, field := line[1..star], line[star + 1..];
  }

  /** Any line whatsoever: refused if it does not start with '>' or has no star; otherwise it is a payload
      and the field after the last star, and its CRC, length and pieces decide. So no accepted line's field
      differs from its payload's CRC. */
  lemma LineVerdict(line: string)
    ensures |line| == 0 || line[0] != '>' ==> ParseSpec(line) == Failure("marker")
    ensures |line| > 0 && line[0] == '>' && '*' !in line ==> ParseSpec(line) == Failure("frame")
    ensures |line| > 0 && line[0] == '>' && '*' in line ==>
              exists payload, field :: line == LineOf(payload, field) && '*' !in field
                && Verdict(ParseSpec(line), Objection(payload, field))
  {
    if |line| > 0 && line[0] == '>' && '*' in line {
      var payload, field := LineIsSplit(line);
      LineSplits(payload, field);
      PayloadVerdict(payload, field);
    }
  }

  // ----- corrupted lines -----

  /** No payload with another CRC is accepted under the same field. */
  lemma MismatchRefused(sent: string, received: string, field: string)
    requires '*' !in field && ParseSpec(LineOf(sent, field)).Success?
    requires Crc.Crc8(Bytes(sent)) != Crc.Crc8(Bytes(received))
    ensures ParseSpec(LineOf(received, field)) == Failure("crc")
  {
    LineSplits(sent, field);
    LineSplits(received, field);
    PayloadVerdict(sent, field);
    PayloadVerdict(received, field);
    CodecIntegrity.ChecksumsDiffer(sent, received);
  }

  /** An odd number of payload bits flipped: always refused. */
  lemma OddCorruptionRefused(sent: string, received: string, field: string)
    requires '*' !in field && ParseSpec(LineOf(sent, field)).Success? && |received| == |sent|
    requires Crc.Distance(CodecIntegrity.PayloadBits(sent), CodecIntegrity.PayloadBits(received)) % 2 == 1
    ensures ParseSpec(LineOf(received, field)) == Failure("crc")
  {
    Crc.OddErrorsDetected(Bytes(sent), Bytes(received));
    MismatchRefused(sent, received, field);
  }

  /** The damage within eight consecutive bits: always refused. */
  lemma BurstCorruptionRefused(sent: string, received: string, field: string, start: nat)
    requires '*' !in field && ParseSpec(LineOf(sent, field)).Success? && |received| == |sent|
    requires CodecIntegrity.PayloadBits(sent) != CodecIntegrity.PayloadBits(received)
    requires Crc.DifferOnlyWithin(CodecIntegrity.PayloadBits(sent), CodecIntegrity.PayloadBits(received), start, 8)
    ensures ParseSpec(LineOf(received, field)) == Failure("crc")
  {
    Crc.BurstErrorsDetected(Bytes(sent), Bytes(received), start);
    MismatchRefused(sent, received, field);
  }

  /** Two flipped payload bits less than 127 positions apart: always refused. */
  lemma PairCorruptionRefused(sent: string, received: string, field: string, i: nat, j: nat)
    requires '*' !in field && ParseSpec(LineOf(sent, field)).Success? && |received| == |sent|
    requires i < j < 8 * |sent| && j - i < 127
    requires CodecIntegrity.PayloadBits(received) == Crc.Flip(Crc.Flip(CodecIntegrity.PayloadBits(sent), i), j)
    ensures ParseSpec(LineOf(received, field)) == Failure("crc")
  {
    CodecIntegrity.CloseFlipsChangeCrc(Bytes(sent), Bytes(received), i, j);
    MismatchRefused(sent, received, field);
  }
}
