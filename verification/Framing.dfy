/** Reassembling a byte stream into newline-terminated frames
    (pibot/transport/base.py) and the 32-byte I2C blocks (pibot/transport/i2c.py). */
module Framing {
  import opened Wrappers
  import opened Seqs
  import opened Text

  // ----- the frames of a byte stream -----

  function Lines(s: string): seq<string>
    decreases |s|
  {
    match Find(s, '\n')
    case None => []
    case Some(i) => [s[..i + 1]] + Lines(s[i + 1..])
  }

  /** The incomplete frame after the last newline. */
  function Rest(s: string): (r: string)
    ensures |r| <= |s|
    decreases |s|
  {
    match Find(s, '\n')
    case None => s
    case Some(i) => Rest(s[i + 1..])
  }

  class FrameBuffer {
    var buf: string

    constructor ()
      ensures buf == ""
    {
      buf := "";
    }

    method Feed(data: string)
      modifies this
      ensures buf == old(buf) + data
    {
      buf := buf + data;
    }

    /** Pop the next complete frame, newline included. */
    method NextFrame() returns (frame: Option<string>)
      modifies this
      ensures frame.None? <==> '\n' !in old(buf)
      ensures frame.None? ==> Lines(old(buf)) == [] && buf == old(buf)
      ensures frame.Some? ==> IsLine(frame.value) && old(buf) == frame.value + buf
      ensures frame.Some? ==> Lines(old(buf)) == [frame.value] + Lines(buf)
      ensures Rest(buf) == Rest(old(buf))
    {
      match Find(buf, '\n')
      case None =>
        frame := None;
      case Some(i) =>
        assert buf[..i + 1][..i] == buf[..i];
        frame := Some(buf[..i + 1]);
        buf := buf[i + 1..];
    }

    method Clear()
      modifies this
      ensures buf == ""
    {
      buf := "";
    }
  }

  // ----- feeding in pieces -----

  function Concat(chunks: seq<string>): string {
    if |chunks| == 0 then "" else chunks[0] + Concat(chunks[1..])
  }

  lemma FindInPrefix(a: string, b: string, c: char)
    ensures c in a ==> Find(a + b, c) == Find(a, c)
    decreases |a|
  {
    if |a| > 0 && a[0] != c {
      assert (a + b)[1..] == a[1..] + b;
      FindInPrefix(a[1..], b, c);
    }
  }

  /** What is complete in `a` stays complete, and only its remainder meets `b`. */
  lemma {:induction false} FeedInPieces(a: string, b: string)
    ensures Lines(a + b) == Lines(a) + Lines(Rest(a) + b)
    ensures Rest(a + b) == Rest(Rest(a) + b)
    decreases |a|
  {
    match Find(a, '\n')
    case None => assert [] + Lines(a + b) == Lines(a + b);
    case Some(i) =>
      var line, more := a[..i + 1], a[i + 1..];
      FeedInPieces(more, b);
      LongerLine(a, b, i);
      Regroup([line], Lines(more), Lines(Rest(more) + b));
  }

  lemma LongerLine(a: string, b: string, i: nat)
    requires Find(a, '\n') == Some(i)
    ensures Lines(a + b) == [a[..i + 1]] + Lines(a[i + 1..] + b)
    ensures Rest(a + b) == Rest(a[i + 1..] + b)
  {
    FindInPrefix(a, b, '\n');
    CutWithin(a, b, i + 1);
  }

  lemma CutWithin<T>(a: seq<T>, b: seq<T>, n: nat)
    requires n <= |a|
    ensures (a + b)[..n] == a[..n] && (a + b)[n..] == a[n..] + b
  {
  }

  lemma {:induction false} RestIsIncomplete(s: string)
    ensures Lines(Rest(s)) == [] && Rest(Rest(s)) == Rest(s)
    decreases |s|
  {
    match Find(s, '\n')
    case None =>
    case Some(i) => RestIsIncomplete(s[i + 1..]);
  }

  /** The frames a receiver sees that drains its buffer after every chunk. */
  function Received(rest: string, chunks: seq<string>): seq<string>
    decreases |chunks|
  {
    if |chunks| == 0 then []
    else Lines(rest + chunks[0]) + Received(Rest(rest + chunks[0]), chunks[1..])
  }

  /** The frames received depend on the bytes alone, not on where they were cut. */
  lemma {:induction false} ChunkingIsIrrelevant(rest: string, chunks: seq<string>)
    requires Lines(rest) == []
    ensures Received(rest, chunks) == Lines(rest + Concat(chunks))
    decreases |chunks|
  {
    if |chunks| == 0 {
      assert rest + "" == rest;
    } else {
      var head, tail := rest + chunks[0], Concat(chunks[1..]);
      calc {
        Received(rest, chunks);
        Lines(head) + Received(Rest(head), chunks[1..]);
        { RestIsIncomplete(head); ChunkingIsIrrelevant(Rest(head), chunks[1..]); }
        Lines(head) + Lines(Rest(head) + tail);
        { FeedInPieces(head, tail); }
        Lines(head + tail);
        { assert head + tail == rest + Concat(chunks); }
        Lines(rest + Concat(chunks));
      }
    }
  }

  /** One newline, at the end. */
  predicate IsLine(s: string) { |s| > 0 && s[|s| - 1] == '\n' && '\n' !in s[..|s| - 1] }

  lemma FirstLine(line: string, tail: string)
    requires IsLine(line)
    ensures Lines(line + tail) == [line] + Lines(tail) && Rest(line + tail) == Rest(tail)
  {
    LineFirst(line, tail);
  }

  lemma {:induction false} LinesOfLines(frames: seq<string>)
    requires forall f :: f in frames ==> IsLine(f)
    ensures Lines(Concat(frames)) == frames && Rest(Concat(frames)) == ""
  {
    if |frames| == 0 {
    } else {
      var f, tail := frames[0], Concat(frames[1..]);
      assert f in frames;
      assert forall g :: g in frames[1..] ==> g in frames;
      LinesOfLines(frames[1..]);
      FirstLine(f, tail);
      assert frames == [f] + frames[1..];
    }
  }

  lemma {:induction false} FindNewline(s: string)
    requires IsLine(s)
    ensures Find(s, '\n') == Some(|s| - 1)
  {
    if |s| > 1 {
      assert s[0] == s[..|s| - 1][0];
      assert s[1..][..|s| - 2] == s[..|s| - 1][1..];
      FindNewline(s[1..]);
    }
  }

  /** Reassembly: whole frames, cut anywhere, come back as they were. */
  lemma Reassembly(frames: seq<string>, chunks: seq<string>)
    requires forall f :: f in frames ==> IsLine(f)
    requires Concat(chunks) == Concat(frames)
    ensures Received("", chunks) == frames
  {
    ChunkingIsIrrelevant("", chunks);
    LinesOfLines(frames);
    assert "" + Concat(chunks) == Concat(chunks);
  }

  // ----- I2C blocks -----

  const BLOCK: nat := 32
  const NUL: set<char> := {'\0'}

  /** The successive 32-byte slices of a frame. */
  function Blocks(frame: string): seq<string>
    decreases |frame|
  {
    if |frame| == 0 then []
    else if |frame| <= BLOCK then [frame]
    else [frame[..BLOCK]] + Blocks(frame[BLOCK..])
  }

  lemma {:induction false} BlocksConcat(frame: string)
    ensures Concat(Blocks(frame)) == frame
    ensures forall b :: b in Blocks(frame) ==> 0 < |b| <= BLOCK
    decreases |frame|
  {
    if |frame| > BLOCK {
      BlocksConcat(frame[BLOCK..]);
      assert frame == frame[..BLOCK] + frame[BLOCK..];
    } else if |frame| > 0 {
      assert Blocks(frame)[1..] == [];
      assert Concat([frame]) == frame + Concat([]);
    }
  }

  function BlocksFrom(frame: string, start: nat): seq<string> {
    if start <= |frame| then Blocks(frame[start..]) else []
  }

  lemma NextBlock(frame: string, start: nat)
    requires start < |frame|
    ensures var chunk := if start + BLOCK <= |frame| then frame[start..start + BLOCK] else frame[start..];
            BlocksFrom(frame, start) == [chunk] + BlocksFrom(frame, start + BLOCK)
  {
    var rest := frame[start..];
    if start + BLOCK <= |frame| {
      assert rest[..BLOCK] == frame[start..start + BLOCK];
      if start + BLOCK < |frame| {
        assert rest[BLOCK..] == frame[start + BLOCK..];
      } else {
        assert rest == frame[start..start + BLOCK] && frame[start + BLOCK..] == "";
      }
    }
  }

  /** The first `count` of `b` have been appended. */
  lemma Beginning<T>(now: seq<T>, rest: seq<T>, before: seq<T>, b: seq<T>, count: nat)
    requires now + rest == before + b && |now| == |before| + count
    ensures count <= |b| && now == before + b[..count] && count + |rest| == |b|
  {
    assert now == (now + rest)[..|now|];
    assert (before + b)[..|now|] == before + b[..count];
  }

  /** A block read from the bus, and whether the deadline had passed when it was found empty;
      or the OSError that drops the link. */
  datatype BusRead = Block(data: string, late: bool) | Fault

  class I2CTransport {
    const buffer: FrameBuffer
    var isOpen: bool
    /** The blocks written to the slave so far. */
    var written: seq<string>

    constructor ()
      ensures fresh(buffer) && isOpen && buffer.buf == "" && written == []
    {
      buffer := new FrameBuffer();
      isOpen, written := true, [];
    }

    /** `faultAt` is the block whose write raises OSError, if any. */
    method Send(frame: string, faultAt: Option<nat>) returns (ok: bool)
      modifies this
      ensures !old(isOpen) ==> !ok && written == old(written) && !isOpen
      ensures old(isOpen) ==> (ok <==> !(faultAt.Some? && faultAt.value < |Blocks(frame)|))
      ensures isOpen == ok
      ensures ok ==> written == old(written) + Blocks(frame)
      ensures !ok && old(isOpen) ==> written == old(written) + Blocks(frame)[..faultAt.value]
    {
      if !isOpen {
        return false;
      }
      var start, count := 0, 0;
      ghost var blocks := Blocks(frame);
      assert frame[0..] == frame;
      while start < |frame|
        invariant 0 <= start && isOpen && |written| == |old(written)| + count
        invariant written + BlocksFrom(frame, start) == old(written) + blocks
        invariant faultAt.Some? ==> count <= faultAt.value
        decreases |frame| - start
      {
        var chunk := if start + BLOCK <= |frame| then frame[start..start + BLOCK] else frame[start..];
        NextBlock(frame, start);
        if faultAt == Some(count) {
          Beginning(written, BlocksFrom(frame, start), old(written), blocks, count);
          isOpen := false;
          return false;
        }
        Regroup(written, [chunk], BlocksFrom(frame, start + BLOCK));
        written := written + [chunk];
        start, count := start + BLOCK, count + 1;
      }
      Beginning(written, [], old(written), blocks, count);
      ok := true;
    }

    /** One call, against the reads the bus will answer; `used` of them are consumed. The end of
        the script stands for the deadline passing. */
    method Recv(script: seq<BusRead>) returns (frame: Option<string>, used: nat)
      requires isOpen
      modifies this, buffer
      ensures used <= |script| && written == old(written)
      ensures RecvSpec(old(buffer.buf), script) == Reception(frame, buffer.buf, used, isOpen)
    {
      used := 0;
      ghost var target := RecvSpec(buffer.buf, script);
      while true
        invariant used <= |script| && isOpen && written == old(written)
        invariant target == RecvSpec(buffer.buf, script[used..]).After(used)
        decreases |script| - used
      {
        ghost var before := buffer.buf;
        frame := buffer.NextFrame();
        if frame.Some? {
          LineFirst(frame.value, buffer.buf);
          return;
        }
        if used == |script| {
          return;
        }
        var read := script[used];
        assert script[used..][0] == read && script[used..][1..] == script[used + 1..];
        used := used + 1;
        match read
        case Fault =>
          isOpen := false;
          return;
        case Block(block, late) =>
          var data := RStrip(block, NUL);
          if |data| > 0 {
            buffer.Feed(data);
          } else if late {
            return;
          } else {
            assert buffer.buf + data == buffer.buf;
          }
      }
    }
  }

  lemma LineFirst(line: string, tail: string)
    requires IsLine(line)
    ensures Find(line + tail, '\n') == Some(|line| - 1)
    ensures (line + tail)[..|line|] == line && (line + tail)[|line|..] == tail
  {
    FindNewline(line);
    FindInPrefix(line, tail, '\n');
  }

  datatype Reception = Reception(frame: Option<string>, buf: string, used: nat, open: bool) {
    function After(n: nat): Reception { this.(used := used + n) }
  }

  /** What one call to recv does, read by read. */
  function RecvSpec(buf: string, script: seq<BusRead>): (r: Reception)
    ensures r.used <= |script|
    decreases |script|
  {
    match Find(buf, '\n')
    case Some(i) => Reception(Some(buf[..i + 1]), buf[i + 1..], 0, true)
    case None =>
      if |script| == 0 then Reception(None, buf, 0, true)
      else
        match script[0]
        case Fault => Reception(None, buf, 1, false)
        case Block(block, late) =>
          var data := RStrip(block, NUL);
          if |data| == 0 && late then Reception(None, buf, 1, true)
          else RecvSpec(buf + data, script[1..]).After(1)
  }

  /** The bytes the slave delivered, its padding removed block by block. */
  function Delivered(script: seq<BusRead>): string {
    if |script| == 0 then ""
    else (if script[0].Block? then RStrip(script[0].data, NUL) else "") + Delivered(script[1..])
  }

  predicate NoFault(script: seq<BusRead>) { forall r :: r in script ==> r.Block? }

  /** The frames returned by calling recv until the bus has nothing more to say. */
  function Pump(buf: string, script: seq<BusRead>): seq<string>
    decreases |script|, |buf|
  {
    var r := RecvSpec(buf, script);
    match r.frame
    case Some(f) =>
      if r.used > 0 || |r.buf| < |buf| then [f] + Pump(r.buf, script[r.used..]) else [f]
    case None =>
      if r.used > 0 && r.open then Pump(r.buf, script[r.used..]) else []
  }

  lemma DeliveredFirst(script: seq<BusRead>, n: nat)
    requires 0 < n <= |script| && script[0].Block?
    ensures Delivered(script[..n]) == RStrip(script[0].data, NUL) + Delivered(script[1..][..n - 1])
  {
    assert script[..n][1..] == script[1..][..n - 1];
  }

  /** Every byte that was buffered or read is now in the frame or in the buffer. */
  predicate Conserved(buf: string, script: seq<BusRead>, r: Reception) {
    && r.used <= |script|
    && match r.frame
       case Some(f) => IsLine(f) && buf + Delivered(script[..r.used]) == f + r.buf
       case None => '\n' !in r.buf && buf + Delivered(script[..r.used]) == r.buf
  }

  lemma ConservedAfter(buf: string, script: seq<BusRead>, r: Reception)
    requires |script| > 0 && script[0].Block?
    requires Conserved(buf + RStrip(script[0].data, NUL), script[1..], r)
    ensures Conserved(buf, script, r.After(1))
  {
    var data, later := RStrip(script[0].data, NUL), Delivered(script[1..][..r.used]);
    DeliveredFirst(script, r.used + 1);
    assert buf + (data + later) == (buf + data) + later;
  }

  /** One call moves bytes from the bus to its frame and buffer, and loses none. */
  lemma {:induction false} RecvConserves(buf: string, script: seq<BusRead>)
    requires NoFault(script)
    ensures Conserved(buf, script, RecvSpec(buf, script)) && RecvSpec(buf, script).open
    ensures var r := RecvSpec(buf, script); r.used == 0 ==> r.frame.Some? || script == []
    decreases |script|
  {
    assert Delivered(script[..0]) == "" && buf + "" == buf;
    match Find(buf, '\n')
    case Some(i) =>
      assert buf[..i + 1][..i] == buf[..i] && buf == buf[..i + 1] + buf[i + 1..];
    case None =>
      if |script| > 0 {
        assert script[0] in script;
        assert forall x :: x in script[1..] ==> x in script;
        var data := RStrip(script[0].data, NUL);
        if |data| == 0 && script[0].late {
          assert buf + data == buf;
          assert Delivered(script[1..][..0]) == "";
          ConservedAfter(buf, script, Reception(None, buf, 0, true));
        } else {
          RecvConserves(buf + data, script[1..]);
          ConservedAfter(buf, script, RecvSpec(buf + data, script[1..]));
        }
      }
  }

  lemma {:induction false} DeliveredSplit(script: seq<BusRead>, n: nat)
    requires n <= |script|
    ensures Delivered(script) == Delivered(script[..n]) + Delivered(script[n..])
  {
    if n == 0 {
    } else {
      assert script[..n][1..] == script[1..][..n - 1] && script[1..][n - 1..] == script[n..];
      DeliveredSplit(script[1..], n - 1);
    }
  }

  lemma LinesCons(line: string, buf: string, later: string)
    requires IsLine(line)
    ensures Lines((line + buf) + later) == [line] + Lines(buf + later)
  {
    LineFirst(line, buf + later);
    assert (line + buf) + later == line + (buf + later);
  }

  /** What a call leaves for the calls after it. */
  lemma RecvLeaves(buf: string, script: seq<BusRead>)
    requires NoFault(script)
    ensures var r := RecvSpec(buf, script);
            var later := r.buf + Delivered(script[r.used..]);
            Lines(buf + Delivered(script)) == (if r.frame.Some? then [r.frame.value] else []) + Lines(later)
    ensures NoFault(script[RecvSpec(buf, script).used..])
  {
    var r := RecvSpec(buf, script);
    RecvConserves(buf, script);
    DeliveredSplit(script, r.used);
    var now, later := Delivered(script[..r.used]), Delivered(script[r.used..]);
    Regroup(buf, now, later);
    assert forall x :: x in script[r.used..] ==> x in script;
    LinesLeft(r.frame, r.buf, later, (buf + now) + later);
  }

  lemma LinesLeft(frame: Option<string>, buf: string, later: string, all: string)
    requires frame.Some? ==> IsLine(frame.value)
    requires all == (if frame.Some? then frame.value + buf else buf) + later
    ensures Lines(all) == (if frame.Some? then [frame.value] else []) + Lines(buf + later)
  {
    if frame.Some? {
      LinesCons(frame.value, buf, later);
    } else {
      assert [] + Lines(buf + later) == Lines(buf + later);
    }
  }

  lemma RecvProgress(buf: string, script: seq<BusRead>)
    requires NoFault(script)
    ensures var r := RecvSpec(buf, script);
            && r.open
            && (r.used == 0 ==> (r.frame.Some? && |r.buf| < |buf|) || (script == [] && '\n' !in r.buf))
  {
    RecvConserves(buf, script);
    assert script[..0] == [];
  }

  /** However the blocks fall, repeated recv returns exactly the lines of the delivered bytes. */
  lemma {:induction false} PumpReturnsLines(buf: string, script: seq<BusRead>)
    requires NoFault(script)
    ensures Pump(buf, script) == Lines(buf + Delivered(script))
    decreases |script|, |buf|
  {
    var r := RecvSpec(buf, script);
    RecvLeaves(buf, script);
    RecvProgress(buf, script);
    if r.used > 0 || r.frame.Some? {
      PumpReturnsLines(r.buf, script[r.used..]);
    } else {
      assert Delivered(script[r.used..]) == "" && r.buf + "" == r.buf;
      assert Find(r.buf, '\n') == None;
    }
  }

  /** The slave pads a short block with zeros. */
  function Padded(chunk: string): string {
    chunk + seq(if |chunk| < BLOCK then BLOCK - |chunk| else 0, i => '\0')
  }

  lemma {:induction false} RStripZeros(s: string, n: nat)
    requires '\0' !in s
    ensures RStrip(s + seq(n, i => '\0'), NUL) == s
  {
    var padded := s + seq(n, i => '\0');
    if n > 0 {
      assert padded[..|padded| - 1] == s + seq(n - 1, i => '\0');
      RStripZeros(s, n - 1);
    } else {
      assert padded == s;
    }
  }

  /** The chunks, each as the zero-padded block the slave answers with. */
  predicate Carries(script: seq<BusRead>, chunks: seq<string>) {
    && |script| == |chunks|
    && forall i :: 0 <= i < |chunks| ==>
         '\0' !in chunks[i] && script[i].Block? && script[i].data == Padded(chunks[i])
  }

  lemma PaddingIsStripped(chunk: string)
    requires '\0' !in chunk
    ensures RStrip(Padded(chunk), NUL) == chunk
  {
    RStripZeros(chunk, if |chunk| < BLOCK then BLOCK - |chunk| else 0);
  }

  lemma CarriesRest(script: seq<BusRead>, chunks: seq<string>)
    requires Carries(script, chunks) && |chunks| > 0
    ensures Carries(script[1..], chunks[1..])
    ensures script[0].Block? && RStrip(script[0].data, NUL) == chunks[0]
  {
    PaddingIsStripped(chunks[0]);
    forall i | 0 <= i < |chunks[1..]|
      ensures '\0' !in chunks[1..][i]
           && script[1..][i].Block? && script[1..][i].data == Padded(chunks[1..][i])
    {
      assert chunks[1..][i] == chunks[i + 1] && script[1..][i] == script[i + 1];
    }
  }

  lemma {:induction false} PaddingVanishes(script: seq<BusRead>, chunks: seq<string>)
    requires Carries(script, chunks)
    ensures Delivered(script) == Concat(chunks)
  {
    if |chunks| == 0 {
    } else {
      CarriesRest(script, chunks);
      PaddingVanishes(script[1..], chunks[1..]);
    }
  }

  /** Zero-free frames, cut into padded blocks anywhere (empty polls included), come back whole. */
  lemma BlockReassembly(frames: seq<string>, chunks: seq<string>, script: seq<BusRead>)
    requires forall f :: f in frames ==> IsLine(f)
    requires Carries(script, chunks) && Concat(chunks) == Concat(frames)
    ensures Pump("", script) == frames
  {
    PaddingVanishes(script, chunks);
    PumpReturnsLines("", script);
    LinesOfLines(frames);
    assert "" + Delivered(script) == Concat(frames);
  }

  /** The blocks `I2CTransport.Send` writes for one frame after another. */
  function Written(frames: seq<string>): seq<string> {
    if |frames| == 0 then [] else Blocks(frames[0]) + Written(frames[1..])
  }

  lemma {:induction false} ConcatSplit(a: seq<string>, b: seq<string>)
    ensures Concat(a + b) == Concat(a) + Concat(b)
  {
    if |a| == 0 {
      assert a + b == b;
    } else {
      assert (a + b)[1..] == a[1..] + b;
      ConcatSplit(a[1..], b);
      Regroup(a[0], Concat(a[1..]), Concat(b));
    }
  }

  lemma {:induction false} WrittenConcat(frames: seq<string>)
    ensures Concat(Written(frames)) == Concat(frames)
  {
    if |frames| == 0 {
    } else {
      BlocksConcat(frames[0]);
      WrittenConcat(frames[1..]);
      ConcatSplit(Blocks(frames[0]), Written(frames[1..]));
    }
  }

  lemma {:induction false} BlocksAreZeroFree(frame: string)
    requires '\0' !in frame
    ensures forall b :: b in Blocks(frame) ==> '\0' !in b
    decreases |frame|
  {
    if |frame| > BLOCK {
      BlocksAreZeroFree(frame[BLOCK..]);
    }
  }

  lemma {:induction false} WrittenBlocks(frames: seq<string>)
    requires forall f :: f in frames ==> '\0' !in f
    ensures forall b :: b in Written(frames) ==> 0 < |b| <= BLOCK && '\0' !in b
  {
    if |frames| == 0 {
    } else {
      assert frames[0] in frames;
      assert forall f :: f in frames[1..] ==> f in frames;
      BlocksConcat(frames[0]);
      BlocksAreZeroFree(frames[0]);
      WrittenBlocks(frames[1..]);
    }
  }

  /** End to end: what `Send` writes for zero-free frames fits into blocks, and read back block by block,
      padded, it is the frames. */
  lemma SentBlocksArrive(frames: seq<string>, script: seq<BusRead>)
    requires forall f :: f in frames ==> IsLine(f) && '\0' !in f
    requires |script| == |Written(frames)|
    requires forall i :: 0 <= i < |script| ==> script[i].Block? && script[i].data == Padded(Written(frames)[i])
    ensures forall r :: r in script ==> |r.data| == BLOCK
    ensures Pump("", script) == frames
  {
    WrittenBlocks(frames);
    WrittenConcat(frames);
    forall i | 0 <= i < |script|
      ensures |script[i].data| == BLOCK && '\0' !in Written(frames)[i]
    {
      assert Written(frames)[i] in Written(frames);
    }
    BlockReassembly(frames, Written(frames), script);
  }
}
