/** The multiplexed output stream of a container exec: frames of an 8-byte header, whose last four
    bytes are the big-endian length, and a payload. */
module DockerStream {
  import opened ByteStrings

  datatype Frame = Frame(stream: Byte, padding: Bytes, payload: Bytes)

  const HEADER: nat := 8
  const STDERR: Byte := 2

  ghost predicate ValidFrame(f: Frame) { |f.padding| == 3 && |f.payload| < 0x1_0000_0000 }

  // ---- big-endian 32-bit numbers ----

  function BigEndian(n: nat): (b: Bytes)
    requires n < 0x1_0000_0000
    ensures |b| == 4
  {
    [(n / 0x100_0000) as Byte, (n / 0x1_0000 % 0x100) as Byte, (n / 0x100 % 0x100) as Byte, (n % 0x100) as Byte]
  }

  /** `readUInt32BE`. */
  function ReadUInt32(b: Bytes): (n: nat)
    requires |b| == 4
    ensures n < 0x1_0000_0000
  {
    ((b[0] as nat * 0x100 + b[1] as nat) * 0x100 + b[2] as nat) * 0x100 + b[3] as nat
  }

  lemma {:induction false} ReadBigEndian(n: nat)
    requires n < 0x1_0000_0000
    ensures ReadUInt32(BigEndian(n)) == n
  {
    var high, mid := n / 0x1_0000, n / 0x100;
    assert n / 0x100_0000 == high / 0x100 && n / 0x1_0000 == mid / 0x100;
  }

  lemma {:induction false} BigEndianRead(b: Bytes)
    requires |b| == 4
    ensures BigEndian(ReadUInt32(b)) == b
  {
    DigitsBack(b[0] as nat, b[1] as nat, b[2] as nat, b[3] as nat);
  }

  lemma {:induction false} DigitsBack(a0: nat, a1: nat, a2: nat, a3: nat)
    requires a0 < 0x100 && a1 < 0x100 && a2 < 0x100 && a3 < 0x100
    ensures var n := ((a0 * 0x100 + a1) * 0x100 + a2) * 0x100 + a3;
            && n < 0x1_0000_0000
            && n / 0x100_0000 == a0 && n / 0x1_0000 % 0x100 == a1 && n / 0x100 % 0x100 == a2 && n % 0x100 == a3
  {
    var n := ((a0 * 0x100 + a1) * 0x100 + a2) * 0x100 + a3;
    assert n / 0x100 == (a0 * 0x100 + a1) * 0x100 + a2;
    assert n / 0x1_0000 == a0 * 0x100 + a1;
    assert n / 0x100_0000 == a0;
  }

  // ---- encoding ----

  function Encode(f: Frame): Bytes
    requires ValidFrame(f)
  {
    [f.stream] + f.padding + BigEndian(|f.payload|) + f.payload
  }

  ghost predicate ValidFrames(frames: seq<Frame>) { forall i :: 0 <= i < |frames| ==> ValidFrame(frames[i]) }

  function EncodeAll(frames: seq<Frame>): Bytes
    requires ValidFrames(frames)
  {
    if frames == [] then [] else Encode(frames[0]) + EncodeAll(frames[1..])
  }

  /** The payloads of the frames that are, or are not, on the error stream. */
  function Payloads(frames: seq<Frame>, err: bool): Bytes {
    if frames == [] then []
    else (if (frames[0].stream == STDERR) == err then frames[0].payload else []) + Payloads(frames[1..], err)
  }

  // ---- decoding ----

  /** Whether a complete frame stands at the beginning. */
  predicate StartsFrame(b: Bytes) { |b| >= HEADER && HEADER + ReadUInt32(b[4..8]) <= |b| }

  function FirstFrame(b: Bytes): Frame
    requires StartsFrame(b)
  {
    Frame(b[0], b[1..4], b[8..8 + ReadUInt32(b[4..8])])
  }

  function AfterFrame(b: Bytes): (rest: Bytes)
    requires StartsFrame(b)
    ensures |rest| < |b|
  {
    b[8 + ReadUInt32(b[4..8])..]
  }

  /** The complete frames at the beginning, and what is left after them. */
  function Scan(b: Bytes): (seq<Frame>, Bytes)
    decreases |b|
  {
    if !StartsFrame(b) then ([], b)
    else
      var (frames, rest) := Scan(AfterFrame(b));
      ([FirstFrame(b)] + frames, rest)
  }

  datatype Output = Output(stdout: Bytes, stderr: Bytes)

  function Demux(b: Bytes): Output {
    var (frames, rest) := Scan(b);
    if frames != [] && rest == [] then Output(Payloads(frames, false), Payloads(frames, true)) else Output(b, [])
  }

  /** `demuxDockerExecOutput`. */
  method DemuxDockerExecOutput(buffer: Bytes) returns (r: Output)
    ensures r == Demux(buffer)
  {
    var offset := 0;
    var stdout, stderr: Bytes := [], [];
    var frames := 0;
    assert buffer[0..] == buffer;
    ghost var (all, end) := Scan(buffer);
    ghost var left := all;
    KeptNone(all);
    hide Scan, Payloads, ReadUInt32, Kept;
    while offset + 8 <= |buffer|
      invariant offset <= |buffer| && frames + |left| == |all| && Scan(buffer[offset..]) == (left, end)
      invariant Kept(stdout, left, all, false) && Kept(stderr, left, all, true)
      decreases |buffer| - offset
    {
      var stream := buffer[offset];
      var length := ReadUInt32(buffer[offset + 4..offset + 8]);
      var next := offset + 8 + length;
      if next > |buffer| {
        break;
      }
      var payload := buffer[offset + 8..next];
      ScanStep(buffer, offset, left, end);
      KeptStep(stdout, left, all, false);
      KeptStep(stderr, left, all, true);
      left := left[1..];
      if stream == STDERR {
        stderr := stderr + payload;
      } else {
        stdout := stdout + payload;
      }
      frames := frames + 1;
      offset := next;
    }
    ScanStops(buffer, offset, left, end);
    KeptAll(stdout, left, all, false);
    KeptAll(stderr, left, all, true);
    if frames > 0 && offset == |buffer| {
      return Output(stdout, stderr);
    }
    return Output(buffer, []);
  }

  /** What has been kept of a stream, with the payloads still to come, is the whole stream. */
  ghost predicate Kept(kept: Bytes, left: seq<Frame>, all: seq<Frame>, err: bool) {
    kept + Payloads(left, err) == Payloads(all, err)
  }

  lemma KeptNone(all: seq<Frame>)
    ensures Kept([], all, all, false) && Kept([], all, all, true)
  {
  }

  lemma KeptStep(kept: Bytes, left: seq<Frame>, all: seq<Frame>, err: bool)
    requires Kept(kept, left, all, err) && left != []
    ensures Kept(if (left[0].stream == STDERR) == err then kept + left[0].payload else kept, left[1..], all, err)
  {
  }

  lemma KeptAll(kept: Bytes, left: seq<Frame>, all: seq<Frame>, err: bool)
    requires Kept(kept, left, all, err) && left == []
    ensures kept == Payloads(all, err)
  {
  }

  lemma {:induction false} LengthField(buffer: Bytes, offset: nat)
    requires offset + 8 <= |buffer|
    ensures buffer[offset..][4..8] == buffer[offset + 4..offset + 8]
  {
    var a, b := buffer[offset..][4..8], buffer[offset + 4..offset + 8];
    assert |a| == |b| == 4;
    assert forall i :: 0 <= i < 4 ==> a[i] == buffer[offset + 4 + i] == b[i];
  }

  lemma {:induction false} ScanStep(buffer: Bytes, offset: nat, left: seq<Frame>, end: Bytes)
    requires offset + 8 <= |buffer| && offset + 8 + ReadUInt32(buffer[offset + 4..offset + 8]) <= |buffer|
    requires Scan(buffer[offset..]) == (left, end)
    ensures var next := offset + 8 + ReadUInt32(buffer[offset + 4..offset + 8]);
            && left != [] && left[0].stream == buffer[offset] && left[0].payload == buffer[offset + 8..next]
            && Scan(buffer[next..]) == (left[1..], end)
  {
    var rest := buffer[offset..];
    LengthField(buffer, offset);
    hide ReadUInt32;
    assert AfterFrame(rest) == buffer[offset + 8 + ReadUInt32(buffer[offset + 4..offset + 8])..];
  }

  lemma {:induction false} ScanStops(buffer: Bytes, offset: nat, left: seq<Frame>, end: Bytes)
    requires offset <= |buffer| && Scan(buffer[offset..]) == (left, end)
    requires offset + 8 > |buffer| || offset + 8 + ReadUInt32(buffer[offset + 4..offset + 8]) > |buffer|
    ensures left == [] && |end| == |buffer| - offset
  {
    hide ReadUInt32;
    if offset + 8 <= |buffer| { LengthField(buffer, offset); }
  }

  // ---- round trip ----

  lemma {:induction false} EncodedStarts(f: Frame, tail: Bytes)
    requires ValidFrame(f)
    ensures var b := Encode(f) + tail; StartsFrame(b) && FirstFrame(b) == f && AfterFrame(b) == tail
  {
    var b := Encode(f) + tail;
    ReadBigEndian(|f.payload|);
    assert b[4..8] == BigEndian(|f.payload|);
    assert b[1..4] == f.padding;
    assert b[8..8 + |f.payload|] == f.payload;
    assert b[8 + |f.payload|..] == tail;
  }

  lemma {:induction false} FrameEncodes(b: Bytes)
    requires StartsFrame(b)
    ensures ValidFrame(FirstFrame(b)) && Encode(FirstFrame(b)) + AfterFrame(b) == b
  {
    var n := ReadUInt32(b[4..8]);
    BigEndianRead(b[4..8]);
    assert b == [b[0]] + b[1..4] + b[4..8] + b[8..8 + n] + b[8 + n..];
  }

  lemma {:induction false} ScanEncoded(frames: seq<Frame>)
    requires ValidFrames(frames)
    ensures Scan(EncodeAll(frames)) == (frames, [])
  {
    if frames != [] {
      EncodedStarts(frames[0], EncodeAll(frames[1..]));
      ScanEncoded(frames[1..]);
      hide Encode, StartsFrame, FirstFrame, AfterFrame;
      assert frames == [frames[0]] + frames[1..];
    }
  }

  lemma {:induction false} EncodeScanned(b: Bytes)
    ensures ValidFrames(Scan(b).0) && EncodeAll(Scan(b).0) + Scan(b).1 == b
    decreases |b|
  {
    if StartsFrame(b) {
      var f, tail := FirstFrame(b), AfterFrame(b);
      FrameEncodes(b);
      EncodeScanned(tail);
      hide StartsFrame, FirstFrame, AfterFrame, ReadUInt32, BigEndian, Encode, ValidFrame;
      assert ([f] + Scan(tail).0)[1..] == Scan(tail).0;
    }
  }

  /** The payloads of any non-empty list of frames come back whole, separated by stream. */
  lemma {:induction false} DemuxRoundTrip(frames: seq<Frame>)
    requires frames != [] && ValidFrames(frames)
    ensures Demux(EncodeAll(frames)) == Output(Payloads(frames, false), Payloads(frames, true))
  {
    ScanEncoded(frames);
  }

  ghost predicate IsFraming(b: Bytes, frames: seq<Frame>) { frames != [] && ValidFrames(frames) && EncodeAll(frames) == b }

  /** A buffer is taken apart exactly when it is a sequence of frames, of which there is only one; every other
      buffer comes back whole as standard output. */
  lemma {:induction false} DemuxIff(b: Bytes)
    ensures forall frames :: IsFraming(b, frames) ==> frames == Scan(b).0 && Demux(b) == Output(Payloads(frames, false), Payloads(frames, true))
    ensures (forall frames :: !IsFraming(b, frames)) ==> Demux(b) == Output(b, [])
  {
    forall frames | IsFraming(b, frames)
      ensures frames == Scan(b).0 && Demux(b) == Output(Payloads(frames, false), Payloads(frames, true))
    {
      ScanEncoded(frames);
    }
    EncodeScanned(b);
    if Scan(b).0 != [] && Scan(b).1 == [] {
      assert EncodeAll(Scan(b).0) + [] == EncodeAll(Scan(b).0);
      assert IsFraming(b, Scan(b).0);
    }
  }

  /** No byte is lost or made up: what comes out is the buffer without the headers of its frames. */
  lemma {:induction false} PayloadsConserve(frames: seq<Frame>)
    requires ValidFrames(frames)
    ensures |Payloads(frames, false)| + |Payloads(frames, true)| + HEADER * |frames| == |EncodeAll(frames)|
  {
    if frames != [] { PayloadsConserve(frames[1..]); }
  }

  /** The header spelled out: the stream number, three bytes that are not looked at, and the length, highest byte first. */
  lemma {:induction false} HeaderIs(b: Bytes)
    requires |b| >= 8
    ensures var length := b[4] as nat * 16_777_216 + b[5] as nat * 65_536 + b[6] as nat * 256 + b[7] as nat;
            && (StartsFrame(b) <==> 8 + length <= |b|)
            && (StartsFrame(b) ==> FirstFrame(b).stream == b[0] && FirstFrame(b).payload == b[8..8 + length] && AfterFrame(b) == b[8 + length..])
  {
  }

  /** What a frame adds to one of the streams. */
  function Share(f: Frame, err: bool): Bytes { if (f.stream == 2) == err then f.payload else [] }

  lemma {:induction false} PayloadsStep(f: Frame, rest: seq<Frame>, err: bool)
    ensures Payloads([f] + rest, err) == Share(f, err) + Payloads(rest, err)
  {
    assert ([f] + rest)[1..] == rest;
  }

  lemma AppendAssociates(a: Bytes, b: Bytes, c: Bytes)
    ensures a + (b + c) == a + b + c
  {
  }

  /** One more frame appends its payload to the error stream if its number is 2, and to standard output otherwise. */
  lemma {:induction false} PayloadsAppend(frames: seq<Frame>, last: Frame, err: bool)
    ensures Payloads(frames + [last], err) == Payloads(frames, err) + Share(last, err)
  {
    hide *;
    if frames == [] {
      assert frames + [last] == [last] + [];
      PayloadsStep(last, [], err);
      NoPayloads(err);
      AppendAssociates(Share(last, err), [], []);
    } else {
      var f, rest := frames[0], frames[1..];
      PayloadsAppend(rest, last, err);
      assert frames == [f] + rest && frames + [last] == [f] + (rest + [last]);
      PayloadsStep(f, rest, err);
      PayloadsStep(f, rest + [last], err);
      AppendAssociates(Share(f, err), Payloads(rest, err), Share(last, err));
    }
  }

  lemma NoPayloads(err: bool)
    ensures Payloads([], err) == []
  {
  }
}
