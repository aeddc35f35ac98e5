/** The framing of ClamAV's INSTREAM command: how a byte stream that arrives in arbitrary pieces is
    written to the socket as length-prefixed chunks. */
module Instream {
  import opened Wrappers

  /** "zINSTREAM\0" */
  const COMMAND: seq<Byte> := [122, 73, 78, 83, 84, 82, 69, 65, 77, 0]

  function Pow256(n: nat): (p: int)
    ensures p >= 1
  {
    if n == 0 then 1 else 256 * Pow256(n - 1)
  }

  /** The `width` lowest bytes of a number, most significant byte first. */
  function BigEndian(n: nat, width: nat): (r: seq<Byte>)
    ensures |r| == width
  {
    if width == 0 then [] else BigEndian(n / 256, width - 1) + [n % 256]
  }

  function ReadBigEndian(r: seq<Byte>): nat {
    if r == [] then 0 else ReadBigEndian(r[..|r| - 1]) * 256 + r[|r| - 1]
  }

  lemma {:induction false} BigEndianRoundTrip(n: nat, width: nat)
    requires n < Pow256(width)
    ensures ReadBigEndian(BigEndian(n, width)) == n
  {
    if width > 0 {
      BigEndianRoundTrip(n / 256, width - 1);
      assert BigEndian(n, width)[..width - 1] == BigEndian(n / 256, width - 1);
    }
  }

  /** `writeUInt32BE` into a fresh four-byte buffer; it is only called with numbers that fit. */
  function Uint32Be(n: nat): (r: seq<Byte>)
    ensures |r| == 4
  {
    BigEndian(n, 4)
  }

  lemma Uint32RoundTrip(n: nat)
    requires n < 0x1_0000_0000
    ensures ReadBigEndian(Uint32Be(n)) == n
  {
    assert Pow256(2) == 0x1_0000;
    BigEndianRoundTrip(n, 4);
  }

  function Concat(pieces: seq<seq<Byte>>): seq<Byte> {
    if pieces == [] then [] else Concat(pieces[..|pieces| - 1]) + pieces[|pieces| - 1]
  }

  function Frame(chunk: seq<Byte>): seq<Byte> {
    Uint32Be(|chunk|) + chunk
  }

  ghost predicate DataFrames(frames: seq<seq<Byte>>, chunkSize: nat) {
    forall k :: 0 <= k < |frames| ==> 1 <= |frames[k]| <= chunkSize
  }

  function Frames(frames: seq<seq<Byte>>): seq<Byte> {
    if frames == [] then [] else Frames(frames[..|frames| - 1]) + Frame(frames[|frames| - 1])
  }

  /** What the scanner daemon does with the bytes behind the command: take frames until one is
      empty. None for a stream that is cut off or goes on behind the empty frame. */
  function Decode(wire: seq<Byte>): Option<seq<seq<Byte>>> {
    if |wire| < 4 then None
    else
      var n := ReadBigEndian(wire[..4]);
      if n == 0 then
        if |wire| == 4 then Some([]) else None
      else if |wire| < 4 + n then None
      else
        match Decode(wire[4 + n..])
        case None => None
        case Some(rest) => Some([wire[4..4 + n]] + rest)
  }

  class Scan {
    const chunkSize: nat
    var buffer: seq<seq<Byte>>
    var total: nat
    var sent: seq<Byte>
    ghost var input: seq<Byte>
    ghost var frames: seq<seq<Byte>>

    ghost predicate Valid()
      reads this
    {
      && 1 <= chunkSize < 0x1_0000_0000
      && DataFrames(frames, chunkSize)
      && sent == COMMAND + Frames(frames)
      && input == Concat(frames) + Concat(buffer)
      && total == |Concat(buffer)| < chunkSize
    }

    /** The socket connects: the command goes out. */
    constructor (chunkSize: nat)
      requires 1 <= chunkSize < 0x1_0000_0000
      ensures Valid() && input == []
      ensures this.chunkSize == chunkSize
    {
      this.chunkSize := chunkSize;
      buffer, total, sent := [], 0, COMMAND;
      input, frames := [], [];
    }

    /** The daemon can take back what was sent: the command, then the frames. */
    ghost predicate Written()
      reads this
    {
      && 1 <= chunkSize < 0x1_0000_0000
      && DataFrames(frames, chunkSize)
      && sent == COMMAND + Frames(frames)
    }

    method Flush(chunk: seq<Byte>)
      requires Written() && 1 <= |chunk| <= chunkSize
      modifies `sent, `frames
      ensures Written() && frames == old(frames) + [chunk]
    {
      var len := Uint32Be(|chunk|);
      FramesPush(COMMAND, frames, chunk);
      sent := sent + len;
      sent := sent + chunk;
      frames := frames + [chunk];
    }

    /** The loop of the data handler: cut the merged buffer into chunks and write them. */
    method FlushAll(merged: seq<Byte>)
      requires Written()
      modifies `sent, `frames
      ensures Written() && old(frames) <= frames
      ensures Concat(frames) == old(Concat(frames)) + merged
    {
      var off := 0;
      while off < |merged|
        invariant 0 <= off
        invariant Written() && old(frames) <= frames
        invariant off <= |merged| ==> Concat(frames) + merged[off..] == old(Concat(frames)) + merged
        invariant off > |merged| ==> Concat(frames) == old(Concat(frames)) + merged
      {
        var end := if off + chunkSize < |merged| then off + chunkSize else |merged|;
        ConcatSlice(frames, merged, off, end);
        Flush(merged[off..end]);
        off := off + chunkSize;
      }
    }

    /** A data event of any size, the empty one included. */
    method OnData(data: seq<Byte>)
      requires Valid()
      modifies this
      ensures Valid()
      ensures input == old(input) + data
      ensures old(frames) <= frames
    {
      ConcatPush(buffer, data);
      ConcatAssoc(Concat(frames), Concat(buffer), data);
      buffer := buffer + [data];
      total := total + |data|;
      input := input + data;
      if total >= chunkSize {
        var merged := Concat(buffer);
        buffer := [];
        total := 0;
        FlushAll(merged);
        assert Concat(buffer) == [];
      }
    }

    /** The end of the stream: what is left goes out, then the empty frame. The bytes sent are the
        command and a text that the daemon decodes to frames of the allowed size, none of them
        empty, holding the whole input. */
    method OnEnd()
      requires Valid()
      modifies this
      ensures input == old(input) && old(frames) <= frames
      ensures DataFrames(frames, chunkSize) && Concat(frames) == input
      ensures sent == COMMAND + (Frames(frames) + Uint32Be(0))
      ensures Decode(Frames(frames) + Uint32Be(0)) == Some(frames)
    {
      if total > 0 {
        var merged := Concat(buffer);
        ConcatPush(frames, merged);
        Flush(merged);
      } else {
        assert Concat(buffer) == [];
      }
      var zero := Uint32Be(0);
      sent := sent + zero;
      DecodeTerminated(frames);
      ConcatAssoc(COMMAND, Frames(frames), zero);
    }
  }

  /** `sent` is the command, then frames of 1 to chunkSize bytes that hold `input` between them,
      then the empty frame; the daemon reads exactly these frames. */
  ghost predicate Conveys(sent: seq<Byte>, input: seq<Byte>, chunkSize: nat) {
    exists frames: seq<seq<Byte>> ::
      && DataFrames(frames, chunkSize)
      && Concat(frames) == input
      && sent == COMMAND + (Frames(frames) + Uint32Be(0))
      && Decode(Frames(frames) + Uint32Be(0)) == Some(frames)
  }

  /** A whole scan: however the input is cut into data events, the daemon receives it all. */
  method ScanStream(events: seq<seq<Byte>>, chunkSize: nat) returns (sent: seq<Byte>)
    requires 1 <= chunkSize < 0x1_0000_0000
    ensures Conveys(sent, Concat(events), chunkSize)
  {
    var scan := new Scan(chunkSize);
    for k := 0 to |events|
      invariant fresh(scan) && scan.Valid() && scan.input == Concat(events[..k])
    {
      assert events[..k + 1][..k] == events[..k];
      scan.OnData(events[k]);
    }
    assert events[..|events|] == events;
    scan.OnEnd();
    return scan.sent;
  }

  lemma ConcatPush(pieces: seq<seq<Byte>>, piece: seq<Byte>)
    ensures Concat(pieces + [piece]) == Concat(pieces) + piece
  {
    assert (pieces + [piece])[..|pieces|] == pieces;
  }

  lemma ConcatAssoc(a: seq<Byte>, b: seq<Byte>, c: seq<Byte>)
    ensures a + (b + c) == (a + b) + c
  {
  }

  /** Moving the next slice of a text behind the pieces loses nothing. */
  lemma ConcatSlice(pieces: seq<seq<Byte>>, text: seq<Byte>, off: nat, end: nat)
    requires off <= end <= |text|
    ensures Concat(pieces + [text[off..end]]) + text[end..] == Concat(pieces) + text[off..]
    ensures end == |text| ==> Concat(pieces + [text[off..end]]) == Concat(pieces) + text[off..]
  {
    ConcatPush(pieces, text[off..end]);
    assert text[off..] == text[off..end] + text[end..];
    ConcatAssoc(Concat(pieces), text[off..end], text[end..]);
    assert end == |text| ==> text[off..end] == text[off..];
  }

  lemma FramesPush(prefix: seq<Byte>, frames: seq<seq<Byte>>, chunk: seq<Byte>)
    ensures Frames(frames + [chunk]) == Frames(frames) + Frame(chunk)
    ensures prefix + Frames(frames + [chunk]) == prefix + Frames(frames) + Uint32Be(|chunk|) + chunk
  {
    assert (frames + [chunk])[..|frames|] == frames;
    var f, len := Frames(frames), Uint32Be(|chunk|);
    assert prefix + (f + (len + chunk)) == prefix + f + len + chunk;
  }

  lemma DecodeOne(chunk: seq<Byte>, wire: seq<Byte>)
    requires 1 <= |chunk| < 0x1_0000_0000
    ensures Decode(Frame(chunk) + wire) ==
            match Decode(wire) case None => None case Some(rest) => Some([chunk] + rest)
  {
    var n := |chunk|;
    var w := Frame(chunk) + wire;
    Uint32RoundTrip(n);
    assert w[..4] == Uint32Be(n);
    assert w[4..4 + n] == chunk;
    assert w[4 + n..] == wire;
  }

  /** The daemon's reader takes back the frames, one by one, and goes on with what follows. */
  lemma {:induction false} DecodeFrames(frames: seq<seq<Byte>>, wire: seq<Byte>, rest: seq<seq<Byte>>)
    requires forall k :: 0 <= k < |frames| ==> 1 <= |frames[k]| < 0x1_0000_0000
    requires Decode(wire) == Some(rest)
    ensures Decode(Frames(frames) + wire) == Some(frames + rest)
  {
    if frames == [] {
      assert Frames(frames) + wire == wire && frames + rest == rest;
    } else {
      var init, last := frames[..|frames| - 1], frames[|frames| - 1];
      ConcatAssoc(Frames(init), Frame(last), wire);
      DecodeOne(last, wire);
      DecodeFrames(init, Frame(last) + wire, [last] + rest);
      assert init + ([last] + rest) == frames + rest;
    }
  }

  lemma DecodeTerminated(frames: seq<seq<Byte>>)
    requires forall k :: 0 <= k < |frames| ==> 1 <= |frames[k]| < 0x1_0000_0000
    ensures Decode(Frames(frames) + Uint32Be(0)) == Some(frames)
  {
    var zero := Uint32Be(0);
    Uint32RoundTrip(0);
    assert zero[..4] == zero;
    DecodeFrames(frames, zero, []);
    assert frames + [] == frames;
  }

  lemma {:induction false} BigEndianUnique(r: seq<Byte>)
    ensures BigEndian(ReadBigEndian(r), |r|) == r && ReadBigEndian(r) < Pow256(|r|)
  {
    if r != [] {
      BigEndianUnique(r[..|r| - 1]);
    }
  }

  lemma Uint32Unique(r: seq<Byte>)
    requires |r| == 4
    ensures Uint32Be(ReadBigEndian(r)) == r && ReadBigEndian(r) < 0x1_0000_0000
  {
    BigEndianUnique(r);
    assert Pow256(2) == 0x1_0000;
  }

  /** The four bytes of a length. */
  lemma Uint32Bytes(n: nat)
    ensures Uint32Be(n) == [n / 0x100_0000 % 256, n / 0x1_0000 % 256, n / 0x100 % 256, n % 256]
  {
    var a := n / 256;
    var b := a / 256;
    assert BigEndian(n, 4) == BigEndian(a, 3) + [n % 256] && BigEndian(a, 3) == BigEndian(b, 2) + [a % 256];
    assert BigEndian(b, 2) == BigEndian(b / 256, 1) + [b % 256] && BigEndian(b / 256, 1) == [b / 256 % 256];
    assert b == n / 0x1_0000 && b / 256 == n / 0x100_0000;
  }

  /** The command is the ASCII text zINSTREAM and a zero byte. */
  lemma CommandText()
    ensures |COMMAND| == 10 && COMMAND[9] == 0
    ensures forall i :: 0 <= i < 9 ==> COMMAND[i] == "zINSTREAM"[i] as int
  {
    var text := "zINSTREAM";
    assert text[0] == 'z' && text[1] == 'I' && text[2] == 'N' && text[3] == 'S' && text[4] == 'T';
    assert text[5] == 'R' && text[6] == 'E' && text[7] == 'A' && text[8] == 'M';
  }

  lemma {:induction false} FramesFront(chunk: seq<Byte>, frames: seq<seq<Byte>>)
    ensures Frames([chunk] + frames) == Frame(chunk) + Frames(frames)
  {
    var all := [chunk] + frames;
    if frames == [] {
      assert all[..0] == [];
    } else {
      var n := |frames| - 1;
      FramesFront(chunk, frames[..n]);
      assert all[..|all| - 1] == [chunk] + frames[..n];
      ConcatAssoc(Frame(chunk), Frames(frames[..n]), Frame(frames[n]));
    }
  }

  ghost predicate HasLengths(frames: seq<seq<Byte>>) {
    forall k :: 0 <= k < |frames| ==> 1 <= |frames[k]| < 0x1_0000_0000
  }

  /** One frame read: the last one, or one in front of the rest. */
  lemma DecodedFirst(wire: seq<Byte>, frames: seq<seq<Byte>>) returns (rest: seq<Byte>)
    requires Decode(wire) == Some(frames)
    ensures frames == [] ==> wire == Uint32Be(0)
    ensures frames != [] ==>
              && 1 <= |frames[0]| < 0x1_0000_0000 && wire == Frame(frames[0]) + rest && |rest| < |wire|
              && Decode(rest) == Some(frames[1..])
  {
    hide Uint32Be, ReadBigEndian;
    var n := ReadBigEndian(wire[..4]);
    Uint32Unique(wire[..4]);
    rest := [];
    if n == 0 {
      assert wire == wire[..4];
    } else {
      rest := wire[4 + n..];
      assert wire == wire[..4] + wire[4..4 + n] + rest;
      assert frames[0] == wire[4..4 + n];
    }
  }

  /** The daemon takes frames from a stream exactly if it is these frames and then the empty one, with
      nothing behind. */
  lemma {:induction false} DecodeIff(wire: seq<Byte>, frames: seq<seq<Byte>>)
    ensures Decode(wire) == Some(frames) <==> HasLengths(frames) && wire == Frames(frames) + Uint32Be(0)
    decreases |wire|
  {
    hide Decode, Uint32Be, Frame;
    if HasLengths(frames) && wire == Frames(frames) + Uint32Be(0) {
      DecodeTerminated(frames);
    }
    if Decode(wire) == Some(frames) {
      var rest := DecodedFirst(wire, frames);
      if frames == [] {
        assert Frames(frames) + Uint32Be(0) == Uint32Be(0);
      } else {
        DecodeIff(rest, frames[1..]);
        FramesFront(frames[0], frames[1..]);
        assert frames == [frames[0]] + frames[1..];
        ConcatAssoc(Frame(frames[0]), Frames(frames[1..]), Uint32Be(0));
      }
    }
  }
}
