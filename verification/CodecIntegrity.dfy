/** A corrupted frame is rejected: the CRC's guarantees carried over to whole lines. */
module CodecIntegrity {
  import opened Wrappers
  import opened Text
  import opened Codec
  import Crc

  function FrameOf(kind: Kind, payload: string, field: string): string {
    [Marker(kind)] + payload + "*" + field + "\n"
  }

  function CheckedPayload(kind: Kind, payload: string, field: string): Result<Message, string> {
    match PyInt(field, 16)
    case None => Failure("crc")
    case Some(expected) => if Checksum(payload) != expected then Failure("crc") else DecodePayload(kind, payload)
  }

  lemma FramedText(kind: Kind, payload: string, field: string)
    requires (kind == Command || kind == Telemetry) && '*' !in field
    ensures DecodeAscii([Marker(kind)] + payload + "*" + field) == CheckedPayload(kind, payload, field)
  {
    var s := [Marker(kind)] + payload + ['*'] + field;
    RFindAt([Marker(kind)] + payload, '*', field);
    assert s[0] == Marker(kind);
    assert !("ACK " <= s) && !("NAK " <= s);
    assert s[1..1 + |payload|] == payload && s[1 + |payload| + 1..] == field;
  }

  /** Whatever the CRC field holds, decoding a line compares it with the payload's checksum. */
  lemma DecodeChecks(kind: Kind, payload: string, field: string)
    requires (kind == Command || kind == Telemetry) && '*' !in field
    ensures Decode(FrameOf(kind, payload, field))
         == if !ValidUtf8(FrameOf(kind, payload, field)) then Failure("encoding")
            else CheckedPayload(kind, payload, RStrip(field + "\n", LINE_ENDS))
  {
    var base := [Marker(kind)] + payload + "*";
    var tail := field + "\n";
    var frame := FrameOf(kind, payload, field);
    assert frame == base + tail && base[0] == Marker(kind);
    assert LStrip(frame, LINE_ENDS) == frame;
    RStripTail(base, tail, LINE_ENDS);
    RStripIsPrefix(tail, LINE_ENDS);
    FramedText(kind, payload, RStrip(tail, LINE_ENDS));
  }

  lemma ChecksumsDiffer(p: string, q: string)
    requires Crc.Crc8(Bytes(p)) != Crc.Crc8(Bytes(q))
    ensures Checksum(p) != Checksum(q)
  {
    var a, b := Crc.Crc8(Bytes(p)), Crc.Crc8(Bytes(q));
    assert (a as nat) as bv8 == a && (b as nat) as bv8 == b;
  }

  lemma MismatchRejected(kind: Kind, sent: string, received: string, field: string)
    requires (kind == Command || kind == Telemetry) && '*' !in field
    requires Decode(FrameOf(kind, sent, field)).Success?
    requires Crc.Crc8(Bytes(sent)) != Crc.Crc8(Bytes(received))
    ensures Decode(FrameOf(kind, received, field)) in {Failure("crc"), Failure("encoding")}
  {
    DecodeChecks(kind, sent, field);
    DecodeChecks(kind, received, field);
    ChecksumsDiffer(sent, received);
  }

  function PayloadBits(p: string): (bits: seq<bool>)
    ensures |bits| == 8 * |p|
  {
    Crc.DataBits(Bytes(p))
  }

  /** Marker and CRC field intact, an odd number of payload bits flipped: always rejected. */
  lemma OddCorruptionRejected(kind: Kind, sent: string, received: string, field: string)
    requires (kind == Command || kind == Telemetry) && '*' !in field
    requires Decode(FrameOf(kind, sent, field)).Success?
    requires |received| == |sent| && Crc.Distance(PayloadBits(sent), PayloadBits(received)) % 2 == 1
    ensures Decode(FrameOf(kind, received, field)) in {Failure("crc"), Failure("encoding")}
  {
    Crc.OddErrorsDetected(Bytes(sent), Bytes(received));
    MismatchRejected(kind, sent, received, field);
  }

  /** Marker and CRC field intact, the damage within eight consecutive bits: always rejected. */
  lemma BurstCorruptionRejected(kind: Kind, sent: string, received: string, field: string, start: nat)
    requires (kind == Command || kind == Telemetry) && '*' !in field
    requires Decode(FrameOf(kind, sent, field)).Success?
    requires |received| == |sent| && PayloadBits(sent) != PayloadBits(received)
    requires Crc.DifferOnlyWithin(PayloadBits(sent), PayloadBits(received), start, 8)
    ensures Decode(FrameOf(kind, received, field)) in {Failure("crc"), Failure("encoding")}
  {
    Crc.BurstErrorsDetected(Bytes(sent), Bytes(received), start);
    MismatchRejected(kind, sent, received, field);
  }

  lemma ShortGap(i: nat, j: nat, same: bool)
    requires i < j && j - i < 127 && (same <==> (j - i) % 127 == 0)
    ensures !same
  {
  }

  lemma CloseFlipsChangeCrc(sent: seq<bv8>, received: seq<bv8>, i: nat, j: nat)
    requires |received| == |sent| && i < j < 8 * |sent| && j - i < 127
    requires Crc.DataBits(received) == Crc.Flip(Crc.Flip(Crc.DataBits(sent), i), j)
    ensures Crc.Crc8(sent) != Crc.Crc8(received)
  {
    Crc.DoubleErrorsDetected(sent, received, i, j);
    ShortGap(i, j, Crc.Crc8(sent) == Crc.Crc8(received));
  }

  /** Two flipped payload bits less than 127 positions apart: always rejected. */
  lemma PairCorruptionRejected(kind: Kind, sent: string, received: string, field: string, i: nat, j: nat)
    requires (kind == Command || kind == Telemetry) && '*' !in field
    requires Decode(FrameOf(kind, sent, field)).Success?
    requires |received| == |sent| && i < j < 8 * |sent| && j - i < 127
    requires PayloadBits(received) == Crc.Flip(Crc.Flip(PayloadBits(sent), i), j)
    ensures Decode(FrameOf(kind, received, field)) in {Failure("crc"), Failure("encoding")}
  {
    CloseFlipsChangeCrc(Bytes(sent), Bytes(received), i, j);
    MismatchRejected(kind, sent, received, field);
  }

  // ----- which payloads are understood -----

  predicate IsByteNumeral(token: string) {
    match PyInt(token, 10)
    case Some(n) => 0 <= n <= 255
    case None => false
  }

  /** An argument is an int if int() takes it, else a float if float() does, else text. */
  predicate Reads(token: string, v: Value) {
    if PyInt(token, 10).Some? then v == Int(PyInt(token, 10).value)
    else if IsFloat(token) then v == Float(token)
    else v == Text(token)
  }

  /** The message of a payload's pieces. */
  predicate Understood(kind: Kind, parts: seq<string>, m: Message)
    requires |parts| >= 2
  {
    && m.kind == kind && PyInt(parts[0], 10) == Some(m.seqNo) && m.name == parts[1] && m.reason == ""
    && |m.args| == |parts| - 2
    && forall i :: 0 <= i < |m.args| ==>
         && Reads(parts[i + 2], m.args[i].1)
         && m.args[i].0 == match Schema(kind, parts[1])
                           case Some(keys) => if i < |keys| then keys[i] else ""
                           case None => "arg" + Decimal(i)
  }

  /** A payload is understood exactly if it has two pieces at least, the first a number from 0 to 255, and as
      many more as its name's schema has, if it has one: neither fewer nor more. */
  lemma PayloadVerdict(kind: Kind, payload: string)
    ensures var parts, d := Split(payload, ','), DecodePayload(kind, payload);
            if |parts| < 2 then d == Failure("fields")
            else if !IsByteNumeral(parts[0]) then d == Failure("seq")
            else if Schema(kind, parts[1]).Some? && |Schema(kind, parts[1]).value| != |parts| - 2 then d == Failure("arity")
            else d.Success? && Understood(kind, parts, d.value)
  {
    var parts := Split(payload, ',');
    if |parts| >= 2 {
      ArgumentsVerdict(kind, parts[1], parts[2..]);
    }
  }

  lemma ArgumentsVerdict(kind: Kind, name: string, tokens: seq<string>)
    ensures var d := ParseArgs(kind, name, tokens);
            if Schema(kind, name).Some? && |Schema(kind, name).value| != |tokens| then d == Failure("arity")
            else
              && d.Success? && |d.value| == |tokens|
              && forall i :: 0 <= i < |tokens| ==>
                   && Reads(tokens[i], d.value[i].1)
                   && d.value[i].0 == match Schema(kind, name)
                                      case Some(keys) => if i < |keys| then keys[i] else ""
                                      case None => "arg" + Decimal(i)
  {
  }
}
