/** What a decoder finds in any stream of bytes: the frames are exactly the
    packets that someone could have written, checksums included, and every
    counter says how the other bytes were passed over. */
module FrameScan {
  import opened Prelude
  import opened Frames
  import opened FrameRoundTrip

  // ----- What is decoded was written -----

  /** The packet whose header fields stand in a frame. */
  function PacketIn(frame: seq<Byte>): Packet
    requires FrameLen(frame) == Some(|frame|)
  {
    if frame[0] == V1_MAGIC then
      Packet(V1, 0, 0, frame[2], frame[3], frame[4], frame[5], frame[6..6 + frame[1]], [])
    else
      Packet(V2, frame[2], frame[3], frame[4], frame[5], frame[6],
             (frame[7] as int) + 256 * (frame[8] as int) + 65536 * (frame[9] as int),
             frame[10..10 + frame[1]], frame[12 + frame[1]..])
  }

  lemma CheckedAgain(frame: seq<Byte>)
    requires FrameLen(frame) == Some(|frame|)
    ensures var p, at := PacketIn(frame), if frame[0] == V1_MAGIC then 6 else 10;
            && |p.payload| == frame[1]
            && p.id < (if p.version.V1? then 256 else 0x100_0000)
            && Checked(p) == frame[1..at + frame[1]]
  {
    if frame[0] == V1_MAGIC {
      assert frame[1..6 + frame[1]] == frame[1..6] + frame[6..6 + frame[1]];
    } else {
      BytesOfId(frame[7], frame[8], frame[9]);
      assert frame[1..10 + frame[1]] == frame[1..10] + frame[10..10 + frame[1]];
    }
  }

  lemma BytesOfId(a: Byte, b: Byte, c: Byte)
    ensures var id := (a as int) + 256 * (b as int) + 65536 * (c as int);
            id % 256 == a as int && id / 256 % 256 == b as int && id / 65536 == c as int
  {
  }

  /** A whole frame is decoded if and only if it is what some packet is written
      as, and then to that packet. */
  lemma DecodesExactlyWritten(d: Dialect, frame: seq<Byte>)
    requires FrameLen(frame) == Some(|frame|)
    ensures DecodeFrame(d, frame).Some? <==> exists p :: Sendable(d, p) && Written(d, p) == frame
    ensures forall p :: Sendable(d, p) && Written(d, p) == frame ==> DecodeFrame(d, frame) == Some(FrameOf(d, p))
  {
    forall p | Sendable(d, p) && Written(d, p) == frame
      ensures DecodeFrame(d, frame) == Some(FrameOf(d, p))
    {
      WrittenDecodes(d, p);
    }
    if DecodeFrame(d, frame).Some? {
      DecodedIsWritten(d, frame);
    }
  }

  lemma WordBytes(low: Byte, high: Byte)
    ensures Word(low, high) % 256 == low as int && Word(low, high) / 256 == high as int && Word(low, high) < 0x1_0000
  {
  }

  lemma SplitAt(frame: seq<Byte>, at: nat)
    requires 1 <= at && at + 2 <= |frame|
    ensures frame == [frame[0]] + frame[1..at] + [frame[at], frame[at + 1]] + frame[at + 2..]
  {
  }

  lemma DecodedIsWritten(d: Dialect, frame: seq<Byte>)
    requires FrameLen(frame) == Some(|frame|) && DecodeFrame(d, frame).Some?
    ensures Sendable(d, PacketIn(frame)) && Written(d, PacketIn(frame)) == frame
  {
    var p := PacketIn(frame);
    CheckedAgain(frame);
    var at: nat := (if frame[0] == V1_MAGIC then 6 else 10) + (frame[1] as int);
    assert d.crc(Checked(p), p.id) == Word(frame[at], frame[at + 1]);
    assert p.signature == frame[at + 2..] && (p.version.V1? <==> frame[0] == V1_MAGIC);
    WordBytes(frame[at], frame[at + 1]);
    SplitAt(frame, at);
    hide Checked, Word, DecodeFrame;
  }

  // ----- Any stream -----

  /** How the bytes at one place are passed over. */
  datatype Mark = Stray | Damage | Hit(packet: Packet)

  /** What is written as a packet. */
  ghost predicate IsWritten(d: Dialect, frame: seq<Byte>) {
    exists p :: Sendable(d, p) && Written(d, p) == frame
  }

  /** A stray byte is one that starts no frame; damage is the first byte of what has
      the length of a frame and is not one; a hit is a whole packet. */
  ghost predicate Stands(d: Dialect, bytes: seq<Byte>, mark: Mark) {
    match mark
    case Stray => bytes != [] && bytes[0] != 0xFE && bytes[0] != 0xFD
    case Damage =>
      var n := FrameLen(bytes);
      n.Some? && n.value <= |bytes| && !IsWritten(d, bytes[..n.value])
    case Hit(p) => Sendable(d, p) && Written(d, p) <= bytes
  }

  function WidthOf(d: Dialect, mark: Mark): nat {
    if mark.Hit? && Sendable(d, mark.packet) then |Written(d, mark.packet)| else 1
  }

  /** The marks, one after the other, lead from `bytes` to `rest`. */
  ghost predicate Scans(d: Dialect, bytes: seq<Byte>, marks: seq<Mark>, rest: seq<Byte>)
    decreases marks
  {
    if marks == [] then bytes == rest
    else
      && Stands(d, bytes, marks[0]) && WidthOf(d, marks[0]) <= |bytes|
      && Scans(d, bytes[WidthOf(d, marks[0])..], marks[1..], rest)
  }

  function Times(marks: seq<Mark>, mark: Mark): nat {
    multiset(marks)[mark]
  }

  /** The frames of the packets hit, in order. */
  ghost function Found(d: Dialect, marks: seq<Mark>): seq<Frame>
    decreases marks
  {
    if marks == [] then [] else FramesAt(d, marks[0]) + Found(d, marks[1..])
  }

  function FramesAt(d: Dialect, mark: Mark): seq<Frame> {
    if mark.Hit? && Sendable(d, mark.packet) then [FrameOf(d, mark.packet)] else []
  }

  /** More bytes at the end change no mark. */
  lemma StandsWithMore(d: Dialect, bytes: seq<Byte>, mark: Mark, more: seq<Byte>)
    requires Stands(d, bytes, mark)
    ensures Stands(d, bytes + more, mark)
  {
    if mark.Damage? {
      SameLength(bytes, more);
      var n := FrameLen(bytes).value;
      assert (bytes + more)[..n] == bytes[..n];
    }
  }

  lemma {:induction false} ScansWithMore(d: Dialect, bytes: seq<Byte>, marks: seq<Mark>, rest: seq<Byte>,
                                         more: seq<Byte>)
    requires Scans(d, bytes, marks, rest)
    ensures Scans(d, bytes + more, marks, rest + more)
    decreases marks
  {
    hide Stands;
    if marks != [] {
      StandsWithMore(d, bytes, marks[0], more);
      var w := WidthOf(d, marks[0]);
      assert (bytes + more)[w..] == bytes[w..] + more;
      ScansWithMore(d, bytes[w..], marks[1..], rest, more);
    }
  }

  lemma {:induction false} ScansOn(d: Dialect, bytes: seq<Byte>, a: seq<Mark>, mid: seq<Byte>, b: seq<Mark>,
                                   rest: seq<Byte>)
    requires Scans(d, bytes, a, mid) && Scans(d, mid, b, rest)
    ensures Scans(d, bytes, a + b, rest) && Found(d, a + b) == Found(d, a) + Found(d, b)
    decreases a
  {
    hide Stands, FramesAt, WidthOf;
    if a == [] {
      assert a + b == b;
    } else {
      ScansOn(d, bytes[WidthOf(d, a[0])..], a[1..], mid, b, rest);
      assert (a + b)[1..] == a[1..] + b;
    }
  }

  /** The outcome of one call: its marks, and what they count. */
  ghost predicate Outcome(d: Dialect, s: Stream, r: (Option<Frame>, Stream), marks: seq<Mark>) {
    var c, c' := s.tally.counters, r.1.tally.counters;
    && Scans(d, s.pending, marks, r.1.pending)
    && Found(d, marks) == (if r.0.Some? then [r.0.value] else [])
    && c'.crcFailures == c.crcFailures + Times(marks, Damage)
    && c'.resyncBytes == c.resyncBytes + Times(marks, Stray) + Times(marks, Damage)
  }

  lemma OneMark(d: Dialect, bytes: seq<Byte>, mark: Mark)
    requires Stands(d, bytes, mark) && WidthOf(d, mark) <= |bytes|
    ensures Scans(d, bytes, [mark], bytes[WidthOf(d, mark)..])
    ensures Found(d, [mark]) == FramesAt(d, mark)
  {
    hide Stands, FramesAt, WidthOf;
    assert [mark][1..] == [] && Found(d, []) == [] && FramesAt(d, mark) + [] == FramesAt(d, mark);
  }

  /** What the decoder sees at one place. */
  lemma LookIsMark(d: Dialect, pending: seq<Byte>) returns (mark: Option<Mark>)
    ensures mark.None? <==> LookAt(d, pending).Wait?
    ensures mark.Some? ==> Stands(d, pending, mark.value) && WidthOf(d, mark.value) <= |pending|
    ensures LookAt(d, pending).Noise? ==> mark == Some(Stray)
    ensures LookAt(d, pending).BadCrc? ==> mark == Some(Damage)
    ensures mark == Some(Stray) || mark == Some(Damage) ==>
              WidthOf(d, mark.value) == 1 && FramesAt(d, mark.value) == []
    ensures LookAt(d, pending).Whole? ==>
              && mark.Some? && FramesAt(d, mark.value) == [LookAt(d, pending).frame]
              && WidthOf(d, mark.value) == |LookAt(d, pending).frame.raw|
  {
    hide DecodeFrame, Written, Sendable, FrameLen;
    mark := None;
    var look, n := LookAt(d, pending), FrameLen(pending);
    if look.Noise? {
      mark := Some(Stray);
    } else if look != Wait {
      SameLength(pending[..n.value], pending[n.value..]);
      assert pending == pending[..n.value] + pending[n.value..];
      DecodesExactlyWritten(d, pending[..n.value]);
      if look.BadCrc? {
        mark := Some(Damage);
      } else {
        DecodedIsWritten(d, pending[..n.value]);
        mark := Some(Hit(PacketIn(pending[..n.value])));
      }
    }
  }

  lemma {:induction false} NextIsScanned(d: Dialect, s: Stream) returns (marks: seq<Mark>)
    ensures Outcome(d, s, Next(d, s), marks)
    decreases |s.pending|
  {
    hide Stands, FramesAt, WidthOf, LookAt, Scans, Found;
    var look := LookAt(d, s.pending);
    var mark := LookIsMark(d, s.pending);
    NothingScanned(d, s.pending);
    if mark.None? {
      marks := [];
    } else {
      OneMark(d, s.pending, mark.value);
      if look.Whole? {
        marks := [mark.value];
      } else {
        var after := Stream(s.pending[1..], Skipped(s.tally, look.BadCrc?));
        var later := NextIsScanned(d, after);
        ScansOn(d, s.pending, [mark.value], after.pending, later, Next(d, s).1.pending);
        marks := [mark.value] + later;
        assert [] + Found(d, later) == Found(d, later);
      }
    }
  }

  /** In any run, whatever the bytes: all of them but the pending ones are noise,
      damage or packets in this order. The frames are those packets, checksum
      failures are the damage, and bytes skipped are noise and damage. */
  lemma {:induction false} RunIsScanned(d: Dialect, ops: seq<Op>) returns (marks: seq<Mark>)
    ensures var (frames, s) := Run(d, ops);
            && Scans(d, Bytes(ops), marks, s.pending) && frames == Found(d, marks)
            && s.tally.counters.crcFailures == Times(marks, Damage)
            && s.tally.counters.resyncBytes == Times(marks, Stray) + Times(marks, Damage)
  {
    hide Stands, Next, Scans, Found;
    if ops == [] {
      marks := [];
      NothingScanned(d, []);
    } else {
      var n := |ops| - 1;
      var before := RunIsScanned(d, ops[..n]);
      var (frames, s) := Run(d, ops[..n]);
      if ops[n].Push? {
        ScansWithMore(d, Bytes(ops[..n]), before, s.pending, ops[n].bytes);
        marks := before;
      } else {
        var now := NextIsScanned(d, s);
        ScansOn(d, Bytes(ops[..n]), before, s.pending, now, Next(d, s).1.pending);
        marks := before + now;
      }
    }
  }

  lemma NothingScanned(d: Dialect, bytes: seq<Byte>)
    ensures Scans(d, bytes, [], bytes) && Found(d, []) == []
  {
  }

  lemma {:induction false} OneMoreCounted(t: Tally, frames: seq<Frame>, frame: Frame)
    ensures AllCounted(t, frames + [frame]) == Counted(AllCounted(t, frames), frame)
    decreases frames
  {
    hide Counted;
    if frames == [] {
      assert [] + [frame] == [frame] && [frame][1..] == [];
    } else {
      OneMoreCounted(Counted(t, frames[0]), frames[1..], frame);
      assert (frames + [frame])[1..] == frames[1..] + [frame];
    }
  }

  lemma {:induction false} NextCounts(d: Dialect, s: Stream)
    ensures var (frame, after) := Next(d, s);
            SameFrames(after.tally, if frame.Some? then Counted(s.tally, frame.value) else s.tally)
    decreases |s.pending|
  {
    hide LookAt;
    var look := LookAt(d, s.pending);
    if look.Noise? || look.BadCrc? {
      NextCounts(d, Stream(s.pending[1..], Skipped(s.tally, look.BadCrc?)));
    }
  }

  lemma {:induction false} RunCounts(d: Dialect, ops: seq<Op>)
    ensures SameFrames(Run(d, ops).1.tally, AllCounted(NO_TALLY, Run(d, ops).0))
  {
    hide Next, Counted;
    if ops != [] {
      var n := |ops| - 1;
      RunCounts(d, ops[..n]);
      var (frames, s) := Run(d, ops[..n]);
      if ops[n].Poll? {
        NextCounts(d, s);
        var frame := Next(d, s).0;
        if frame.Some? {
          OneMoreCounted(NO_TALLY, frames, frame.value);
          SameFramesOnce(AllCounted(NO_TALLY, frames), s.tally, frame.value);
        }
      }
    }
  }

  /** So gaps are counted over the frames found, in any stream. */
  lemma RunCountsGaps(d: Dialect, ops: seq<Op>, missing: seq<nat>)
    requires Numbered(Run(d, ops).0, missing, map[])
    ensures Run(d, ops).1.tally.counters.seqGaps == Sum(missing)
  {
    RunCounts(d, ops);
    GapsAreMissing(NO_TALLY, Run(d, ops).0, missing);
  }

  /** There is only one such reading of the bytes. */
  lemma {:induction false} OneReading(d: Dialect, bytes: seq<Byte>, a: seq<Mark>, b: seq<Mark>, rest: seq<Byte>)
    requires Scans(d, bytes, a, rest) && Scans(d, bytes, b, rest)
    ensures Found(d, a) == Found(d, b) && Times(a, Damage) == Times(b, Damage) && Times(a, Stray) == Times(b, Stray)
    decreases a
  {
    hide Stands, FramesAt, WidthOf;
    ScansShorten(d, bytes, a, rest);
    ScansShorten(d, bytes, b, rest);
    if a != [] && b != [] {
      OneMarkStands(d, bytes, a[0], b[0]);
      OneReading(d, bytes[WidthOf(d, a[0])..], a[1..], b[1..], rest);
      assert a == [a[0]] + a[1..] && b == [b[0]] + b[1..];
    }
  }

  lemma {:induction false} ScansShorten(d: Dialect, bytes: seq<Byte>, marks: seq<Mark>, rest: seq<Byte>)
    requires Scans(d, bytes, marks, rest)
    ensures |rest| + |marks| <= |bytes|
    decreases marks
  {
    hide Stands;
    if marks != [] {
      ScansShorten(d, bytes[WidthOf(d, marks[0])..], marks[1..], rest);
    }
  }

  lemma HitFillsFrame(d: Dialect, bytes: seq<Byte>, p: Packet)
    requires Stands(d, bytes, Hit(p))
    ensures FrameLen(bytes) == Some(|Written(d, p)|) && bytes[..|Written(d, p)|] == Written(d, p)
    ensures bytes != [] && bytes[0] in {V1_MAGIC, V2_MAGIC}
  {
    var w := Written(d, p);
    LengthOfWritten(d, p);
    assert bytes == w + bytes[|w|..];
    SameLength(w, bytes[|w|..]);
  }

  lemma OneMarkStands(d: Dialect, bytes: seq<Byte>, a: Mark, b: Mark)
    requires Stands(d, bytes, a) && Stands(d, bytes, b)
    ensures a.Hit? == b.Hit? && (!a.Hit? ==> a == b)
    ensures WidthOf(d, a) == WidthOf(d, b) && FramesAt(d, a) == FramesAt(d, b)
  {
    hide Written, Sendable, FrameOf, DecodeFrame;
    if a.Hit? {
      HitFillsFrame(d, bytes, a.packet);
    }
    if b.Hit? {
      HitFillsFrame(d, bytes, b.packet);
    }
    if a.Hit? && b.Hit? {
      WrittenDecodes(d, a.packet);
      WrittenDecodes(d, b.packet);
    }
  }

  // ----- Damage -----

  /** A packet whose checksum bytes are other ones is never found: the decoder
      counts one failure and goes on at the next byte. */
  lemma WrongChecksum(d: Dialect, p: Packet, low: Byte, high: Byte, more: seq<Byte>, t: Tally)
    requires Sendable(d, p) && (low as int) + 256 * (high as int) != d.crc(Checked(p), p.id)
    ensures var magic: Byte := if p.version.V1? then 0xFE else 0xFD;
            var bytes := [magic] + Checked(p) + [low, high] + p.signature + more;
            var c := t.counters;
            var t' := t.(counters := c.(crcFailures := c.crcFailures + 1, resyncBytes := c.resyncBytes + 1));
            Next(d, Stream(bytes, t)) == Next(d, Stream(bytes[1..], t'))
  {
    hide DecodeFrame;
    var magic: Byte := if p.version.V1? then V1_MAGIC else V2_MAGIC;
    var frame := [magic] + Checked(p) + [low, high] + p.signature;
    DamagedFrame(d, p, low, high);
    assert frame + more == [magic] + Checked(p) + [low, high] + p.signature + more;
    SameLength(frame, more);
    assert (frame + more)[..|frame|] == frame;
    NextUnfolds(d, Stream(frame + more, t));
  }

  lemma DamagedFrame(d: Dialect, p: Packet, low: Byte, high: Byte)
    requires Sendable(d, p) && (low as int) + 256 * (high as int) != d.crc(Checked(p), p.id)
    ensures var magic: Byte := if p.version.V1? then V1_MAGIC else V2_MAGIC;
            var frame := [magic] + Checked(p) + [low, high] + p.signature;
            FrameLen(frame) == Some(|frame|) && DecodeFrame(d, frame) == None
  {
    var magic: Byte := if p.version.V1? then V1_MAGIC else V2_MAGIC;
    var frame := [magic] + Checked(p) + [low, high] + p.signature;
    var header: nat := if p.version.V1? then V1_HEADER else V2_HEADER;
    var crcAt: nat := 1 + header + |p.payload|;
    assert frame[1..crcAt] == Checked(p) && frame[crcAt] == low && frame[crcAt + 1] == high;
    if p.version.V2? {
      IdOfBytes(p);
    }
  }

  lemma IdOfBytes(p: Packet)
    requires |p.payload| <= 255 && p.version.V2? && p.id < 0x100_0000
    ensures p.id == p.id % 256 + 256 * (p.id / 256 % 256) + 65536 * (p.id / 65536)
  {
  }
}
