/** Packets written one after the other, with noise between them, are all
    decoded, in order, however their bytes arrive. */
module FrameRoundTrip {
  import opened Prelude
  import opened Frames

  /** What a sender puts into a frame. `flags` and `compat` are the flag bytes
      of version 2, whose lowest flag announces a signature. */
  datatype Packet = Packet(version: Version, flags: Byte, compat: Byte, sequence: Byte, system: Byte, component: Byte,
                           id: nat, payload: seq<Byte>, signature: seq<Byte>)

  predicate Sendable(d: Dialect, p: Packet) {
    && |p.payload| <= 255
    && (p.version.V1? ==> p.id < 256 && p.signature == [])
    && (p.version.V2? ==> p.id < 0x100_0000 && |p.signature| == if p.flags % 2 == 1 then 13 else 0)
    && d.crc(Checked(p), p.id) < 0x1_0000
  }

  /** The bytes under the checksum. */
  function Checked(p: Packet): seq<Byte>
    requires |p.payload| <= 255 && p.id < if p.version.V1? then 256 else 0x100_0000
  {
    if p.version.V1? then [|p.payload|, p.sequence, p.system, p.component, p.id] + p.payload
    else [|p.payload|, p.flags, p.compat, p.sequence, p.system, p.component, p.id % 256, p.id / 256 % 256, p.id / 65536]
         + p.payload
  }

  function Written(d: Dialect, p: Packet): seq<Byte>
    requires Sendable(d, p)
  {
    var crc := d.crc(Checked(p), p.id);
    [if p.version.V1? then 0xFE else 0xFD] + Checked(p) + [crc % 256, crc / 256] + p.signature
  }

  /** The frame that a packet is to be decoded to. */
  function FrameOf(d: Dialect, p: Packet): Frame
    requires Sendable(d, p)
  {
    Frame(p.version, p.system, p.component, p.sequence, p.id, d.parse(p.version, p.id, p.payload), Written(d, p))
  }

  // ----- One packet -----

  lemma LengthOfWritten(d: Dialect, p: Packet)
    requires Sendable(d, p)
    ensures FrameLen(Written(d, p)) == Some(|Written(d, p)|)
  {
  }

  lemma PayloadOfWritten(d: Dialect, p: Packet)
    requires Sendable(d, p)
    ensures var w := Written(d, p);
            var at := 1 + if p.version.V1? then V1_HEADER else V2_HEADER;
            && w[1..at + |p.payload|] == Checked(p) && w[at..at + |p.payload|] == p.payload
            && Word(w[at + |p.payload|], w[at + |p.payload| + 1]) == d.crc(Checked(p), p.id)
  {
    var w := Written(d, p);
    var at := 1 + if p.version.V1? then V1_HEADER else V2_HEADER;
    assert |Checked(p)| == at - 1 + |p.payload|;
    assert forall i :: 0 <= i < |Checked(p)| ==> w[1 + i] == Checked(p)[i];
    assert forall i :: 0 <= i < |p.payload| ==> w[at + i] == p.payload[i];
  }

  lemma HeaderOfV1(d: Dialect, p: Packet)
    requires Sendable(d, p) && p.version.V1?
    ensures Written(d, p)[..6] == [V1_MAGIC, |p.payload|, p.sequence, p.system, p.component, p.id]
  {
  }

  lemma HeaderOfV2(d: Dialect, p: Packet)
    requires Sendable(d, p) && p.version.V2?
    ensures var w := Written(d, p);
            && w[..7] == [V2_MAGIC, |p.payload|, p.flags, p.compat, p.sequence, p.system, p.component]
            && w[7] == p.id % 256 && w[8] == p.id / 256 % 256 && w[9] == p.id / 65536
            && p.id == Word(w[7], w[8]) + 65536 * (w[9] as int)
  {
  }

  /** A written packet decodes to its own header fields and payload. */
  lemma WrittenDecodes(d: Dialect, p: Packet)
    requires Sendable(d, p)
    ensures FrameLen(Written(d, p)) == Some(|Written(d, p)|)
    ensures DecodeFrame(d, Written(d, p)) == Some(FrameOf(d, p))
  {
    hide FrameLen;
    LengthOfWritten(d, p);
    PayloadOfWritten(d, p);
    if p.version.V1? {
      HeaderOfV1(d, p);
      V1Decodes(d, p, Written(d, p));
    } else {
      HeaderOfV2(d, p);
      V2Decodes(d, p, Written(d, p));
    }
  }

  lemma V1Decodes(d: Dialect, p: Packet, w: seq<Byte>)
    requires Sendable(d, p) && p.version.V1? && w == Written(d, p) && FrameLen(w) == Some(|w|)
    requires w[..6] == [V1_MAGIC, |p.payload|, p.sequence, p.system, p.component, p.id]
    requires w[1..6 + |p.payload|] == Checked(p) && w[6..6 + |p.payload|] == p.payload
    requires Word(w[6 + |p.payload|], w[7 + |p.payload|]) == d.crc(Checked(p), p.id)
    ensures DecodeFrame(d, w) == Some(FrameOf(d, p))
  {
    hide FrameLen, Checked, Word;
    assert w[0] == V1_MAGIC && w[1] == |p.payload| && w[2] == p.sequence && w[3] == p.system && w[4] == p.component
           && w[5] == p.id;
  }

  lemma V2Decodes(d: Dialect, p: Packet, w: seq<Byte>)
    requires Sendable(d, p) && p.version.V2? && w == Written(d, p) && FrameLen(w) == Some(|w|)
    requires w[..7] == [V2_MAGIC, |p.payload|, p.flags, p.compat, p.sequence, p.system, p.component]
    requires p.id == Word(w[7], w[8]) + 65536 * (w[9] as int)
    requires w[1..10 + |p.payload|] == Checked(p) && w[10..10 + |p.payload|] == p.payload
    requires Word(w[10 + |p.payload|], w[11 + |p.payload|]) == d.crc(Checked(p), p.id)
    ensures DecodeFrame(d, w) == Some(FrameOf(d, p))
  {
    hide FrameLen, Checked, Word;
    assert w[0] == V2_MAGIC && w[1] == |p.payload| && w[4] == p.sequence && w[5] == p.system && w[6] == p.component;
  }

  lemma WrittenIsWhole(d: Dialect, p: Packet, more: seq<Byte>)
    requires Sendable(d, p)
    ensures LookAt(d, Written(d, p) + more) == Whole(FrameOf(d, p))
  {
    hide FrameLen, DecodeFrame, Written;
    var w := Written(d, p);
    WrittenDecodes(d, p);
    assert w + [] == w;
    LookOfFrame(d, w);
    LookSettles(d, w, more);
  }

  lemma LookOfFrame(d: Dialect, frame: seq<Byte>)
    requires FrameLen(frame) == Some(|frame|) && DecodeFrame(d, frame).Some?
    ensures LookAt(d, frame) == Whole(DecodeFrame(d, frame).value)
  {
    assert frame[..|frame|] == frame;
  }

  // ----- A whole stream -----

  /** Noise that cannot be taken for the start of a frame, then a packet. */
  datatype Piece = Piece(noise: seq<Byte>, packet: Packet)

  predicate Silent(noise: seq<Byte>) {
    V1_MAGIC !in noise && V2_MAGIC !in noise
  }

  predicate Clean(d: Dialect, pieces: seq<Piece>) {
    forall i :: 0 <= i < |pieces| ==> Silent(pieces[i].noise) && Sendable(d, pieces[i].packet)
  }

  function Sent(d: Dialect, pieces: seq<Piece>): seq<Byte>
    requires Clean(d, pieces)
  {
    if pieces == [] then []
    else pieces[0].noise + (Written(d, pieces[0].packet) + Sent(d, pieces[1..]))
  }

  function FramesOf(d: Dialect, pieces: seq<Piece>): (frames: seq<Frame>)
    requires Clean(d, pieces)
    ensures |frames| == |pieces|
    ensures forall i :: 0 <= i < |frames| ==> frames[i] == FrameOf(d, pieces[i].packet)
  {
    if pieces == [] then [] else [FrameOf(d, pieces[0].packet)] + FramesOf(d, pieces[1..])
  }

  function NoiseIn(pieces: seq<Piece>): nat {
    if pieces == [] then 0 else |pieces[0].noise| + NoiseIn(pieces[1..])
  }

  /** What is counted: every noise byte, every frame, and per sender the
      sequence numbers left out. */
  function TallyAfter(d: Dialect, t: Tally, pieces: seq<Piece>): Tally
    requires Clean(d, pieces)
    decreases pieces
  {
    if pieces == [] then t
    else
      var c := t.counters;
      var t1 := t.(counters := c.(resyncBytes := c.resyncBytes + |pieces[0].noise|));
      TallyAfter(d, Counted(t1, FrameOf(d, pieces[0].packet)), pieces[1..])
  }

  lemma {:induction false} NoiseIsSkipped(d: Dialect, noise: seq<Byte>, rest: seq<Byte>, t: Tally)
    requires Silent(noise)
    ensures var c := t.counters;
            Drain(d, Stream(noise + rest, t)) ==
              Drain(d, Stream(rest, t.(counters := c.(resyncBytes := c.resyncBytes + |noise|))))
  {
    if noise == [] {
      assert noise + rest == rest;
    } else {
      assert noise[0] in noise;
      assert (noise + rest)[1..] == noise[1..] + rest;
      NextAfterNoise(d, Stream(noise + rest, t));
      NoiseIsSkipped(d, noise[1..], rest, Skipped(t, false));
      SameDrain(d, Stream(noise + rest, t), Stream(noise[1..] + rest, Skipped(t, false)));
    }
  }

  lemma SameDrain(d: Dialect, a: Stream, b: Stream)
    requires Next(d, a) == Next(d, b)
    ensures Drain(d, a) == Drain(d, b)
  {
  }

  lemma PacketIsFirst(d: Dialect, p: Packet, rest: seq<Byte>, t: Tally)
    requires Sendable(d, p)
    ensures Drain(d, Stream(Written(d, p) + rest, t)) ==
              Joined([FrameOf(d, p)], Drain(d, Stream(rest, Counted(t, FrameOf(d, p)))))
  {
    hide Counted;
    var w := Written(d, p);
    WrittenIsWhole(d, p, rest);
    NextUnfolds(d, Stream(w + rest, t));
    assert (w + rest)[|w|..] == rest;
  }

  lemma NothingPending(d: Dialect, t: Tally)
    ensures Drain(d, Stream([], t)) == ([], Stream([], t))
  {
  }

  /** Draining a clean stream gives every packet back, and counts exactly. */
  lemma {:induction false} StreamComesBack(d: Dialect, pieces: seq<Piece>, t: Tally)
    requires Clean(d, pieces)
    ensures Drain(d, Stream(Sent(d, pieces), t)) == (FramesOf(d, pieces), Stream([], TallyAfter(d, t, pieces)))
    decreases pieces
  {
    hide Written, Counted, FrameOf, Drain, Sendable, Silent;
    if pieces == [] {
      NothingPending(d, t);
    } else {
      var p, rest := pieces[0].packet, Sent(d, pieces[1..]);
      var c := t.counters;
      var t1 := t.(counters := c.(resyncBytes := c.resyncBytes + |pieces[0].noise|));
      NoiseIsSkipped(d, pieces[0].noise, Written(d, p) + rest, t);
      PacketIsFirst(d, p, rest, t1);
      StreamComesBack(d, pieces[1..], Counted(t1, FrameOf(d, p)));
    }
  }

  /** However the bytes of a clean stream are split and polled between, the
      frames found, with those still to be drained, are the packets sent. */
  lemma DeliveredInOrder(d: Dialect, pieces: seq<Piece>, ops: seq<Op>)
    requires Clean(d, pieces) && Bytes(ops) == Sent(d, pieces)
    ensures var (found, s) := Run(d, ops);
            var (later, last) := Drain(d, s);
            found + later == FramesOf(d, pieces) && last == Stream([], TallyAfter(d, NO_TALLY, pieces))
  {
    SplitDoesNotMatter(d, ops);
    StreamComesBack(d, pieces, NO_TALLY);
  }

  /** On a clean stream every noise byte is skipped, no checksum fails, and the
      frames are the packets. */
  lemma {:induction false} CleanCounts(d: Dialect, t: Tally, pieces: seq<Piece>)
    requires Clean(d, pieces)
    ensures var c, c' := t.counters, TallyAfter(d, t, pieces).counters;
            && c'.frames == c.frames + |pieces| && c'.resyncBytes == c.resyncBytes + NoiseIn(pieces)
            && c'.crcFailures == c.crcFailures
    decreases pieces
  {
    if pieces != [] {
      var c := t.counters;
      var t1 := t.(counters := c.(resyncBytes := c.resyncBytes + |pieces[0].noise|));
      CleanCounts(d, Counted(t1, FrameOf(d, pieces[0].packet)), pieces[1..]);
    }
  }

  // ----- Sequence gaps -----

  function Sender(f: Frame): (Byte, Byte) {
    (f.system, f.component)
  }

  /** `n` comes after `m` with `missing` numbers in between, in wrapping bytes. */
  predicate Follows(m: Byte, missing: nat, n: Byte) {
    n as int == (m as int + 1 + missing) % 256
  }

  /** Frame `j` is the last one before frame `i` of the same sender. */
  predicate IsPrevious(frames: seq<Frame>, j: nat, i: nat) {
    && j < i < |frames| && Sender(frames[j]) == Sender(frames[i])
    && forall k :: j < k < i ==> Sender(frames[k]) != Sender(frames[i])
  }

  /** Frame `i` is the first one of its sender. */
  predicate IsFirst(frames: seq<Frame>, i: nat) {
    i < |frames| && forall k :: 0 <= k < i ==> Sender(frames[k]) != Sender(frames[i])
  }

  /** Any number of senders, mixed in any way. Each one's sequence numbers go up
      by 1, modulo 256, but for `missing[i]` left out before frame `i`; `last`
      holds those of earlier frames. */
  ghost predicate Numbered(frames: seq<Frame>, missing: seq<nat>, last: map<(Byte, Byte), Byte>) {
    && |missing| == |frames|
    && (forall i :: 0 <= i < |missing| ==> missing[i] < 256)
    && (forall j: nat, i: nat :: IsPrevious(frames, j, i) ==>
          Follows(frames[j].sequence, missing[i], frames[i].sequence))
    && (forall i: nat :: IsFirst(frames, i) ==>
          var f := frames[i];
          if Sender(f) in last then Follows(last[Sender(f)], missing[i], f.sequence) else missing[i] == 0)
  }

  function Sum(s: seq<nat>): nat {
    if s == [] then 0 else s[0] + Sum(s[1..])
  }

  function AllCounted(t: Tally, frames: seq<Frame>): Tally
    decreases frames
  {
    if frames == [] then t else AllCounted(Counted(t, frames[0]), frames[1..])
  }

  lemma GapIsMissing(m: Byte, missing: nat, n: Byte)
    requires Follows(m, missing, n) && missing < 256
    ensures Gap8(n, m) == missing
  {
  }

  lemma NumberedRest(frames: seq<Frame>, missing: seq<nat>, last: map<(Byte, Byte), Byte>)
    requires Numbered(frames, missing, last) && frames != []
    ensures Numbered(frames[1..], missing[1..], last[Sender(frames[0]) := frames[0].sequence])
  {
    hide Follows, Sender;
    var rest, p := frames[1..], frames[0];
    forall j: nat, i: nat | IsPrevious(rest, j, i)
      ensures Follows(rest[j].sequence, missing[1..][i], rest[i].sequence)
    {
      assert forall k :: j + 1 < k < i + 1 ==> frames[k] == rest[k - 1];
      assert IsPrevious(frames, j + 1, i + 1);
    }
    forall i: nat | IsFirst(rest, i)
      ensures var q, last' := rest[i], last[Sender(p) := p.sequence];
              if Sender(q) in last' then Follows(last'[Sender(q)], missing[1..][i], q.sequence)
              else missing[1..][i] == 0
    {
      assert forall k :: 0 < k < i + 1 ==> frames[k] == rest[k - 1];
      if Sender(rest[i]) == Sender(p) {
        assert IsPrevious(frames, 0, i + 1);
      } else {
        assert IsFirst(frames, i + 1);
      }
    }
  }

  lemma {:induction false} GapsAreMissing(t: Tally, frames: seq<Frame>, missing: seq<nat>)
    requires Numbered(frames, missing, t.lastSeq)
    ensures AllCounted(t, frames).counters.seqGaps == t.counters.seqGaps + Sum(missing)
    decreases frames
  {
    hide Follows, IsPrevious;
    if frames != [] {
      assert IsFirst(frames, 0);
      if Sender(frames[0]) in t.lastSeq {
        GapIsMissing(t.lastSeq[Sender(frames[0])], missing[0], frames[0].sequence);
      }
      NumberedRest(frames, missing, t.lastSeq);
      GapsAreMissing(Counted(t, frames[0]), frames[1..], missing[1..]);
    }
  }

  /** The tallies differ in skipped bytes and checksum failures only. */
  predicate SameFrames(a: Tally, b: Tally) {
    && a.lastSeq == b.lastSeq && a.counters.seqGaps == b.counters.seqGaps
    && a.counters.frames == b.counters.frames && a.counters.unknown == b.counters.unknown
  }

  lemma {:induction false} SameFramesCounted(a: Tally, b: Tally, frames: seq<Frame>)
    requires SameFrames(a, b)
    ensures SameFrames(AllCounted(a, frames), AllCounted(b, frames))
    decreases frames
  {
    if frames != [] {
      SameFramesCounted(Counted(a, frames[0]), Counted(b, frames[0]), frames[1..]);
    }
  }

  lemma {:induction false} PiecesCounted(d: Dialect, t: Tally, pieces: seq<Piece>)
    requires Clean(d, pieces)
    ensures SameFrames(TallyAfter(d, t, pieces), AllCounted(t, FramesOf(d, pieces)))
    decreases pieces
  {
    hide Written, Sendable, FrameOf, Counted;
    if pieces != [] {
      var c := t.counters;
      var t1 := t.(counters := c.(resyncBytes := c.resyncBytes + |pieces[0].noise|));
      var frame := FrameOf(d, pieces[0].packet);
      PiecesCounted(d, Counted(t1, frame), pieces[1..]);
      SameFramesOnce(t, t1, frame);
      SameFramesCounted(Counted(t1, frame), Counted(t, frame), FramesOf(d, pieces[1..]));
      assert FramesOf(d, pieces)[1..] == FramesOf(d, pieces[1..]);
    }
  }

  lemma SameFramesOnce(a: Tally, b: Tally, frame: Frame)
    requires SameFrames(a, b)
    ensures SameFrames(Counted(b, frame), Counted(a, frame))
  {
  }

  /** Packets lost in between, fewer than 256 of a sender at a time, are counted,
      however the senders are mixed. */
  lemma LossesAreCounted(d: Dialect, t: Tally, pieces: seq<Piece>, missing: seq<nat>)
    requires Clean(d, pieces) && Numbered(FramesOf(d, pieces), missing, t.lastSeq)
    ensures TallyAfter(d, t, pieces).counters.seqGaps == t.counters.seqGaps + Sum(missing)
  {
    PiecesCounted(d, t, pieces);
    GapsAreMissing(t, FramesOf(d, pieces), missing);
  }
}
