/** Messages over a byte stream, and the peer that answers them (pibot/control/echo.py). */
module Echo {
  import opened Wrappers
  import opened Text
  import opened Codec
  import opened CodecRoundTrip
  import opened Framing
  import opened Seqs
  import opened SeqNumbers

  // ----- messages through a framed byte stream -----

  function EncodeAll(ms: seq<Message>): (frames: seq<string>)
    requires forall m :: m in ms ==> Carriable(m) && Encode(m).Some?
    ensures |frames| == |ms|
  {
    seq(|ms|, i requires 0 <= i < |ms| => Encode(ms[i]).value)
  }

  lemma EncodingsAreLines(ms: seq<Message>)
    requires forall m :: m in ms ==> Carriable(m)
    ensures forall m :: m in ms ==> Encode(m).Some?
    ensures forall f :: f in EncodeAll(ms) ==> IsLine(f)
  {
    forall m | m in ms
      ensures Encode(m).Some? && IsLine(Encode(m).value)
    {
      EncodesToOneLine(m);
    }
  }

  ghost predicate DecodesTo(frames: seq<string>, ms: seq<Message>) {
    && |frames| == |ms|
    && forall i :: 0 <= i < |ms| ==> Decode(frames[i]).Success? && SameMessage(Decode(frames[i]).value, ms[i])
  }

  lemma EncodingsDecode(ms: seq<Message>)
    requires forall m :: m in ms ==> Carriable(m) && Encode(m).Some?
    ensures DecodesTo(EncodeAll(ms), ms)
  {
    forall i | 0 <= i < |ms|
      ensures Decode(EncodeAll(ms)[i]).Success? && SameMessage(Decode(EncodeAll(ms)[i]).value, ms[i])
    {
      assert ms[i] in ms;
      RoundTrip(ms[i]);
    }
  }

  /** Any list of messages, its bytes cut into chunks anywhere, arrives as that list. */
  lemma StreamDelivers(ms: seq<Message>, chunks: seq<string>)
    requires forall m :: m in ms ==> Carriable(m) && Encode(m).Some?
    requires Concat(chunks) == Concat(EncodeAll(ms))
    ensures DecodesTo(Received("", chunks), ms)
  {
    EncodingsAreLines(ms);
    Reassembly(EncodeAll(ms), chunks);
    EncodingsDecode(ms);
  }

  /** The same over I2C, through zero-padded 32-byte blocks and empty polls. */
  lemma BlocksDeliver(ms: seq<Message>, chunks: seq<string>, script: seq<BusRead>)
    requires forall m :: m in ms ==> Carriable(m) && Encode(m).Some?
    requires Concat(chunks) == Concat(EncodeAll(ms)) && Carries(script, chunks)
    ensures DecodesTo(Pump("", script), ms)
  {
    EncodingsAreLines(ms);
    BlockReassembly(EncodeAll(ms), chunks, script);
    EncodingsDecode(ms);
  }

  // ----- the echo peer -----

  function AckOf(seqNo: int): Message { Message(Ack, seqNo, "", [], "") }

  function NakOf(reason: string): Message { Message(Nak, 0, "", [], reason) }

  function BatteryOf(seqNo: int): Message { Message(Telemetry, seqNo, "battery", [("volts", Float("12.4"))], "") }

  /** What the peer sends: these never lack an argument. */
  predicate IsReply(m: Message) { m.kind == Ack || m.kind == Nak || m == BatteryOf(m.seqNo) }

  lemma ReplyEncodes(m: Message)
    requires IsReply(m)
    ensures Encode(m).Some?
  {
    if m.kind == Telemetry {
      assert Lookup(m.args, "volts") == Some(Float("12.4"));
      SelectAt(m.args, ["volts"]);
    }
  }

  function Sent(m: Message): string
    requires IsReply(m)
  {
    ReplyEncodes(m);
    Encode(m).value
  }

  datatype Answer = Answer(frames: seq<string>, issued: nat)

  function Handle(frame: string, issued: nat): Answer {
    match Decode(frame)
    case Failure(reason) => Answer([Sent(NakOf(reason))], issued)
    case Success(m) =>
      if m.kind != Command then Answer([], issued)
      else if m.name == "ping" then
        Answer([Sent(AckOf(m.seqNo)), Sent(BatteryOf(issued % 256))], issued + 1)
      else Answer([Sent(AckOf(m.seqNo))], issued)
  }

  /** A peer: what it sends for a frame, given how many telemetry numbers it has used. */
  type Peer = (string, nat) -> Answer

  function AnswerAll(peer: Peer, frames: seq<string>, issued: nat): Answer
    decreases |frames|
  {
    if |frames| == 0 then Answer([], issued)
    else
      var first := peer(frames[0], issued);
      var rest := AnswerAll(peer, frames[1..], first.issued);
      Answer(first.frames + rest.frames, rest.issued)
  }

  class EchoResponder {
    const buf: FrameBuffer
    const telemetry: SeqTracker

    ghost predicate Valid()
      reads this, buf, telemetry
    {
      telemetry.Valid() && '\n' !in buf.buf
    }

    constructor ()
      ensures Valid() && fresh(buf) && fresh(telemetry)
      ensures buf.buf == "" && telemetry.issued == 0
    {
      buf := new FrameBuffer();
      telemetry := new SeqTracker();
    }

    method Feed(data: string) returns (out: seq<string>)
      requires Valid()
      modifies buf, telemetry
      ensures Valid()
      ensures buf.buf == Rest(old(buf.buf) + data)
      ensures Answer(out, telemetry.issued)
           == AnswerAll(Handle, Lines(old(buf.buf) + data), old(telemetry.issued))
    {
      buf.Feed(data);
      out := [];
      ghost var target := AnswerAll(Handle, Lines(buf.buf), telemetry.issued);
      var frame := buf.NextFrame();
      while frame.Some?
        invariant telemetry.Valid()
        invariant Rest(buf.buf) == Rest(old(buf.buf) + data)
        invariant frame.None? ==> '\n' !in buf.buf && Lines(buf.buf) == []
        invariant frame.Some? ==> target == Owed(Handle, out, [frame.value] + Lines(buf.buf), telemetry.issued)
        invariant frame.None? ==> target == Answer(out, telemetry.issued)
        decreases if frame.Some? then |buf.buf| + 1 else 0
      {
        OwedStep(Handle, out, frame.value, Lines(buf.buf), telemetry.issued);
        var responses := HandleFrame(frame.value);
        out := out + responses;
        frame := buf.NextFrame();
      }
    }

    method HandleFrame(frame: string) returns (responses: seq<string>)
      requires telemetry.Valid()
      modifies telemetry
      ensures telemetry.Valid()
      ensures Answer(responses, telemetry.issued) == Handle(frame, old(telemetry.issued))
    {
      match Decode(frame)
      case Failure(reason) =>
        responses := [Sent(NakOf(reason))];
      case Success(m) =>
        if m.kind != Command {
          return [];
        }
        responses := [Sent(AckOf(m.seqNo))];
        if m.name == "ping" {
          var seqNo := telemetry.Next();
          responses := responses + [Sent(BatteryOf(seqNo))];
        }
    }
  }

  /** The output once `frames` are answered too. */
  function Owed(peer: Peer, out: seq<string>, frames: seq<string>, issued: nat): Answer {
    var rest := AnswerAll(peer, frames, issued);
    Answer(out + rest.frames, rest.issued)
  }

  lemma OwedStep(peer: Peer, out: seq<string>, frame: string, later: seq<string>, issued: nat)
    ensures var first := peer(frame, issued);
            Owed(peer, out, [frame] + later, issued) == Owed(peer, out + first.frames, later, first.issued)
    ensures var first := peer(frame, issued);
            later == [] ==> Owed(peer, out, [frame] + later, issued) == Answer(out + first.frames, first.issued)
  {
    AnswerCons(peer, frame, later, issued);
    var first := peer(frame, issued);
    var rest := AnswerAll(peer, later, first.issued);
    Regroup(out, first.frames, rest.frames);
    if later == [] {
      assert rest.frames == [];
    }
  }

  lemma AnswerCons(peer: Peer, frame: string, later: seq<string>, issued: nat)
    ensures var first := peer(frame, issued);
            var rest := AnswerAll(peer, later, first.issued);
            AnswerAll(peer, [frame] + later, issued) == Answer(first.frames + rest.frames, rest.issued)
  {
    assert ([frame] + later)[1..] == later;
  }

  lemma {:induction false} AnswerSplit(peer: Peer, a: seq<string>, b: seq<string>, issued: nat)
    ensures var x := AnswerAll(peer, a, issued);
            var y := AnswerAll(peer, b, x.issued);
            AnswerAll(peer, a + b, issued) == Answer(x.frames + y.frames, y.issued)
    decreases |a|
  {
    if |a| == 0 {
      assert a + b == b;
    } else {
      assert (a + b)[1..] == a[1..] + b;
      AnswerSplit(peer, a[1..], b, peer(a[0], issued).issued);
    }
  }

  /** The concatenated output of feeding chunk after chunk, as `EchoResponder.Feed` specifies it. */
  function Conversation(peer: Peer, buffered: string, issued: nat, chunks: seq<string>): Answer
    decreases |chunks|
  {
    if |chunks| == 0 then Answer([], issued)
    else
      var now := AnswerAll(peer, Lines(buffered + chunks[0]), issued);
      var later := Conversation(peer, Rest(buffered + chunks[0]), now.issued, chunks[1..]);
      Answer(now.frames + later.frames, later.issued)
  }

  /** Feeding chunk after chunk answers the frames received. */
  lemma {:induction false} ConversationAnswersReceived(
    peer: Peer, buffered: string, issued: nat, chunks: seq<string>)
    ensures Conversation(peer, buffered, issued, chunks) == AnswerAll(peer, Received(buffered, chunks), issued)
    decreases |chunks|
  {
    if |chunks| == 0 {
    } else {
      var head := buffered + chunks[0];
      var now := AnswerAll(peer, Lines(head), issued);
      ConversationAnswersReceived(peer, Rest(head), now.issued, chunks[1..]);
      AnswerSplit(peer, Lines(head), Received(Rest(head), chunks[1..]), issued);
    }
  }

  /** For arbitrary bytes, the peer's output does not depend on how they were cut. */
  lemma ConversationIgnoresChunking(peer: Peer, buffered: string, issued: nat, chunks: seq<string>)
    requires Lines(buffered) == []
    ensures Conversation(peer, buffered, issued, chunks)
         == AnswerAll(peer, Lines(buffered + Concat(chunks)), issued)
  {
    ConversationAnswersReceived(peer, buffered, issued, chunks);
    ChunkingIsIrrelevant(buffered, chunks);
  }

  /** What the peer owes for a command: one ACK, and numbered telemetry if it is a ping. */
  function Due(m: Message, issued: nat): Answer {
    var ack := Sent(AckOf(m.seqNo));
    if m.name == "ping" then Answer([ack, Sent(BatteryOf(issued % 256))], issued + 1)
    else Answer([ack], issued)
  }

  function AllDue(due: (Message, nat) -> Answer, ms: seq<Message>, issued: nat): seq<string>
    decreases |ms|
  {
    if |ms| == 0 then []
    else due(ms[0], issued).frames + AllDue(due, ms[1..], due(ms[0], issued).issued)
  }

  lemma HandleCommand(frame: string, m: Message, issued: nat)
    requires Decode(frame).Success? && SameMessage(Decode(frame).value, m) && m.kind == Command
    ensures Handle(frame, issued) == Due(m, issued)
  {
  }

  lemma {:induction false} AnswersAreDue(
    peer: Peer, due: (Message, nat) -> Answer, frames: seq<string>, ms: seq<Message>, issued: nat)
    requires |frames| == |ms| && forall i, n :: 0 <= i < |ms| ==> peer(frames[i], n) == due(ms[i], n)
    ensures AnswerAll(peer, frames, issued).frames == AllDue(due, ms, issued)
    decreases |ms|
  {
    if |ms| == 0 {
    } else {
      forall i, n | 0 <= i < |ms[1..]|
        ensures peer(frames[1..][i], n) == due(ms[1..][i], n)
      {
        assert frames[1..][i] == frames[i + 1] && ms[1..][i] == ms[i + 1];
      }
      AnswersAreDue(peer, due, frames[1..], ms[1..], due(ms[0], issued).issued);
    }
  }

  /** Commands, cut anywhere: one ACK each, in order, and numbered telemetry after the pings only. */
  lemma CommandsAcknowledged(ms: seq<Message>, chunks: seq<string>)
    requires forall m :: m in ms ==> Carriable(m) && Encode(m).Some? && m.kind == Command
    requires Concat(chunks) == Concat(EncodeAll(ms))
    ensures Conversation(Handle, "", 0, chunks).frames == AllDue(Due, ms, 0)
  {
    var frames := EncodeAll(ms);
    EncodingsAreLines(ms);
    ConversationIgnoresChunking(Handle, "", 0, chunks);
    LinesOfLines(frames);
    assert "" + Concat(chunks) == Concat(frames);
    EncodingsDecode(ms);
    forall i, n | 0 <= i < |ms|
      ensures Handle(frames[i], n) == Due(ms[i], n)
    {
      assert ms[i] in ms;
      HandleCommand(frames[i], ms[i], n);
    }
    AnswersAreDue(Handle, Due, frames, ms, 0);
  }

  // ----- what the other end makes of the answers -----

  predicate IsWord(s: string) { |s| > 0 && forall c :: c in s ==> 'a' <= c <= 'z' }

  lemma ReasonsAreWords()
    ensures IsWord("encoding") && IsWord("empty") && IsWord("marker") && IsWord("frame")
    ensures IsWord("crc") && IsWord("seq") && IsWord("fields") && IsWord("arity")
  {
  }

  lemma PayloadReasons(kind: Kind, payload: string)
    ensures var d := DecodePayload(kind, payload);
            if d.Failure? then d.error == "fields" || d.error == "seq" || d.error == "arity" else 0 <= d.value.seqNo <= 255
  {
  }

  lemma FramedReasons(kind: Kind, text: string)
    requires |text| > 0 && text[0] == Marker(kind)
    ensures var d := DecodeFramed(kind, text);
            if d.Failure? then IsWord(d.error) else 0 <= d.value.seqNo <= 255
  {
    ReasonsAreWords();
    match RFind(text, '*')
    case Some(star) => PayloadReasons(kind, text[1..star]);
    case None =>
  }

  lemma ReplyReasons(rest: string)
    ensures var d := DecodeAck(rest); if d.Failure? then d.error == "seq" else 0 <= d.value.seqNo <= 255
    ensures var d := DecodeNak(rest); if d.Failure? then d.error == "seq" else 0 <= d.value.seqNo <= 255
  {
  }

  /** A reason for refusal is a plain word; a number understood is a byte. */
  lemma DecodeVerdict(frame: string)
    ensures match Decode(frame)
            case Failure(reason) => IsWord(reason)
            case Success(m) => 0 <= m.seqNo <= 255
  {
    ReasonsAreWords();
    if ValidUtf8(frame) {
      TextVerdict(Strip(frame, LINE_ENDS));
    }
  }

  lemma TextVerdict(text: string)
    ensures match DecodeAscii(text)
            case Failure(reason) => IsWord(reason)
            case Success(m) => 0 <= m.seqNo <= 255
  {
    ReasonsAreWords();
    if "ACK " <= text || "NAK " <= text {
      ReplyReasons(text[4..]);
    } else if |text| > 0 && text[0] == '>' {
      FramedReasons(Command, text);
    } else if |text| > 0 && text[0] == '<' {
      FramedReasons(Telemetry, text);
    }
  }

  lemma WordIsClean(reason: string)
    requires IsWord(reason)
    ensures ValidUtf8(reason) && '\n' !in reason && reason[|reason| - 1] != '\r'
  {
    assert reason[|reason| - 1] in reason;
    AsciiIsUtf8(reason);
  }

  lemma NakIsRead(reason: string)
    requires IsWord(reason)
    ensures Decode(Sent(NakOf(reason))) == Success(Message(Nak, 0, "", [], reason))
  {
    WordIsClean(reason);
    DecodesAsRead(NakOf(reason));
  }

  lemma AckIsRead(seqNo: int)
    requires 0 <= seqNo <= 255
    ensures Decode(Sent(AckOf(seqNo))) == Success(Message(Ack, seqNo, "", [], ""))
  {
    DecodesAsRead(AckOf(seqNo));
  }

  lemma VoltsAreNoInt()
    ensures PyInt("12.4", 10) == None
  {
    var s := "12.4";
    StripNothing(s, C_SPACE);
    assert s[..3] == "12." && Numeral("12.", 10) == None;
  }

  lemma VoltsAreAFloat()
    ensures IsFloat("12.4")
  {
    var s := "12.4";
    StripNothing(s, C_SPACE);
    assert s[1..] == "2.4" && "2.4"[1..] == ".4" && ".4"[1..] == "4" && "4"[1..] == "";
    assert WithoutUnderscores("4") == "4" && WithoutUnderscores(".4") == ".4";
    assert WithoutUnderscores("2.4") == "2.4" && WithoutUnderscores(s) == s;
    VoltsAreDecimal();
  }

  lemma VoltsAreDecimal()
    ensures IsDecimal("12.4") && Unsigned("12.4") == "12.4"
  {
    var s := "12.4";
    assert s[1..] == "2.4" && "2.4"[1..] == ".4" && ".4"[1..] == "4" && "4"[1..] == "";
    assert AfterDigits(".4") == ".4" && AfterDigits("2.4") == ".4" && AfterDigits(s) == ".4" && AfterDigits("4") == "";
  }

  lemma VoltsReadBack()
    ensures Reread(Float("12.4")) == Float("12.4") && CleanField("12.4")
  {
    VoltsAreNoInt();
    VoltsAreAFloat();
    AsciiIsUtf8("12.4");
  }

  lemma OneField(m: Message, key: string, v: Value)
    requires m.args == [(key, v)] && Framed(m) && Schema(m.kind, m.name) == Some([key])
    requires 0 <= m.seqNo <= 255 && m.reason == "" && CleanField(m.name) && CleanValue(v) && Reread(v) == v
    ensures Legible(m) && AsRead(m) == m
  {
    assert Lookup(m.args, key) == Some(v);
    assert SentNames(m) == [key] && SentValues(m) == [v];
    assert AsRead(m).args == m.args;
  }

  lemma BatteryIsRead(seqNo: int)
    requires 0 <= seqNo <= 255
    ensures Decode(Sent(BatteryOf(seqNo))) == Success(Message(Telemetry, seqNo, "battery", [("volts", Float("12.4"))], ""))
  {
    BatteryIsLegible(seqNo);
    DecodesAsRead(BatteryOf(seqNo));
  }

  lemma BatteryIsLegible(seqNo: int)
    requires 0 <= seqNo <= 255
    ensures Legible(BatteryOf(seqNo)) && AsRead(BatteryOf(seqNo)) == BatteryOf(seqNo)
  {
    VoltsReadBack();
    BatterySchema("battery");
    BatteryIsWord();
    WordIsField("battery");
    OneField(BatteryOf(seqNo), "volts", Float("12.4"));
  }

  lemma BatterySchema(name: string)
    requires name == "battery"
    ensures Schema(Telemetry, name) == Some(["volts"])
  {
  }

  lemma BatteryIsWord()
    ensures IsWord("battery")
  {
  }

  lemma WordIsField(name: string)
    requires IsWord(name)
    ensures CleanField(name)
  {
    WordIsClean(name);
  }

  /** For any frame: one that cannot be decoded is answered by exactly one NAK with its reason, anything that
      is not a command by nothing, and a command by an ACK of its number, and telemetry with the next number
      after it if it is a ping. */
  lemma AnswersAreRead(frame: string, issued: nat)
    ensures var a := Handle(frame, issued);
            match Decode(frame)
            case Failure(reason) =>
              |a.frames| == 1 && Decode(a.frames[0]) == Success(Message(Nak, 0, "", [], reason)) && a.issued == issued
            case Success(m) =>
              if m.kind != Command then a == Answer([], issued)
              else
                && |a.frames| == (if m.name == "ping" then 2 else 1)
                && Decode(a.frames[0]) == Success(Message(Ack, m.seqNo, "", [], ""))
                && (m.name == "ping" ==>
                      Decode(a.frames[1])
                      == Success(Message(Telemetry, issued % 256, "battery", [("volts", Float("12.4"))], "")))
                && a.issued == if m.name == "ping" then issued + 1 else issued
  {
    DecodeVerdict(frame);
    match Decode(frame)
    case Failure(reason) => NakIsRead(reason);
    case Success(m) =>
      AckIsRead(m.seqNo);
      BatteryIsRead(issued % 256);
  }
}
