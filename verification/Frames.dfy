/** The push-based MAVLink v1/v2 frame decoder. Checksums and message parsing
    are whatever the dialect says. */
module Frames {
  import opened Prelude

  type Byte = b: nat | b < 256

  const V1_MAGIC: Byte := 0xFE
  const V1_HEADER: nat := 5
  const V2_MAGIC: Byte := 0xFD
  const V2_HEADER: nat := 9
  const V2_SIGNATURE: nat := 13
  const CRC_LEN: nat := 2
  const LONGEST: nat := 1 + V2_HEADER + 255 + CRC_LEN + V2_SIGNATURE

  datatype Version = V1 | V2

  /** Checksum of some bytes with the extra byte of a message id, and the
      payload's message if the dialect knows it. */
  datatype Dialect = Dialect(crc: (seq<Byte>, nat) -> nat, parse: (Version, nat, seq<Byte>) -> Option<string>)

  datatype Frame = Frame(version: Version, system: Byte, component: Byte, sequence: Byte, id: nat,
                         message: Option<string>, raw: seq<Byte>)

  // ----- Frames -----

  function FrameLen(bytes: seq<Byte>): (n: Option<nat>)
    ensures n.Some? ==> bytes != [] && bytes[0] in {V1_MAGIC, V2_MAGIC} && 8 <= n.value <= LONGEST
  {
    if bytes == [] then None
    else if bytes[0] == V1_MAGIC then
      if |bytes| < 2 then None else Some(1 + V1_HEADER + bytes[1] + CRC_LEN)
    else if bytes[0] == V2_MAGIC then
      if |bytes| < 3 then None
      else
        var signature: nat := if bytes[2] % 2 == 1 then V2_SIGNATURE else 0;
        Some(1 + V2_HEADER + bytes[1] + CRC_LEN + signature)
    else None
  }

  function Word(low: Byte, high: Byte): nat {
    (low as int) + 256 * (high as int)
  }

  /** Decodes a whole candidate frame; `None` when its checksum is wrong. */
  function DecodeFrame(d: Dialect, frame: seq<Byte>): (r: Option<Frame>)
    requires FrameLen(frame) == Some(|frame|)
    ensures r.Some? ==> r.value.raw == frame
  {
    var header := if frame[0] == V1_MAGIC then V1_HEADER else V2_HEADER;
    var crcAt := 1 + header + frame[1];
    var id: nat := if frame[0] == V1_MAGIC then frame[5] else Word(frame[7], frame[8]) + 65536 * (frame[9] as int);
    var payload := frame[1 + header..crcAt];
    if Word(frame[crcAt], frame[crcAt + 1]) != d.crc(frame[1..crcAt], id) then None
    else if frame[0] == V1_MAGIC then
      Some(Frame(V1, frame[3], frame[4], frame[2], id, d.parse(V1, id, payload), frame))
    else
      Some(Frame(V2, frame[5], frame[6], frame[4], id, d.parse(V2, id, payload), frame))
  }

  // ----- The stream -----

  datatype Counters = Counters(frames: nat, crcFailures: nat, seqGaps: nat, resyncBytes: nat, unknown: nat)

  /** What has been counted, and the last sequence number of each sender. */
  datatype Tally = Tally(counters: Counters, lastSeq: map<(Byte, Byte), Byte>)

  const NO_TALLY: Tally := Tally(Counters(0, 0, 0, 0, 0), map[])

  /** What the first pending byte leads to. */
  datatype Look = Wait | Noise | BadCrc | Whole(frame: Frame)

  function LookAt(d: Dialect, pending: seq<Byte>): (r: Look)
    ensures r.Whole? ==> 0 < |r.frame.raw| <= |pending| && r.frame.raw == pending[..|r.frame.raw|]
    ensures r.Noise? || r.BadCrc? ==> pending != []
  {
    if pending == [] then Wait
    else if pending[0] != V1_MAGIC && pending[0] != V2_MAGIC then Noise
    else
      var n := FrameLen(pending);
      if n.None? || |pending| < n.value then Wait
      else
        SameLength(pending[..n.value], pending[n.value..]);
        assert pending == pending[..n.value] + pending[n.value..];
        var frame := DecodeFrame(d, pending[..n.value]);
        if frame.None? then BadCrc else Whole(frame.value)
  }

  /** The length is settled by the first bytes. */
  lemma SameLength(bytes: seq<Byte>, more: seq<Byte>)
    requires FrameLen(bytes).Some? || |bytes| >= 3
    ensures FrameLen(bytes + more) == FrameLen(bytes)
  {
  }

  /** `n - m - 1` in wrapping bytes. */
  function Gap8(n: Byte, m: Byte): Byte {
    (n - m - 1) % 256
  }

  function Counted(t: Tally, f: Frame): Tally {
    var key := (f.system, f.component);
    var gap := if key in t.lastSeq then Gap8(f.sequence, t.lastSeq[key]) else 0;
    var c := t.counters;
    Tally(c.(frames := c.frames + 1, unknown := c.unknown + (if f.message.None? then 1 else 0),
             seqGaps := c.seqGaps + gap),
          t.lastSeq[key := f.sequence])
  }

  function Skipped(t: Tally, badCrc: bool): Tally {
    var c := t.counters;
    t.(counters := c.(resyncBytes := c.resyncBytes + 1, crcFailures := c.crcFailures + (if badCrc then 1 else 0)))
  }

  /** A decoder as a value. */
  datatype Stream = Stream(pending: seq<Byte>, tally: Tally)

  /** One call of `next_frame`. */
  function Next(d: Dialect, s: Stream): (r: (Option<Frame>, Stream))
    ensures |r.1.pending| <= |s.pending|
    ensures r.0.Some? ==> |r.1.pending| < |s.pending|
    decreases |s.pending|
  {
    match LookAt(d, s.pending)
    case Wait => (None, s)
    case Noise => Next(d, Stream(s.pending[1..], Skipped(s.tally, false)))
    case BadCrc => Next(d, Stream(s.pending[1..], Skipped(s.tally, true)))
    case Whole(frame) => (Some(frame), Stream(s.pending[|frame.raw|..], Counted(s.tally, frame)))
  }

  /** Frames until there is none. */
  function Drain(d: Dialect, s: Stream): (seq<Frame>, Stream)
    decreases |s.pending|
  {
    var (frame, after) := Next(d, s);
    if frame.None? then ([], after)
    else
      var (frames, last) := Drain(d, after);
      ([frame.value] + frames, last)
  }

  function Pushed(s: Stream, bytes: seq<Byte>): Stream {
    s.(pending := s.pending + bytes)
  }

  // ----- Splitting does not matter -----

  lemma LookSettles(d: Dialect, pending: seq<Byte>, more: seq<Byte>)
    requires LookAt(d, pending) != Wait
    ensures LookAt(d, pending + more) == LookAt(d, pending)
  {
    var n := FrameLen(pending);
    if n.Some? {
      SameLength(pending, more);
      assert (pending + more)[..n.value] == pending[..n.value];
    }
  }

  lemma Dropped(pending: seq<Byte>, more: seq<Byte>, n: nat)
    requires n <= |pending|
    ensures (pending + more)[n..] == pending[n..] + more
  {
  }

  /** A call that finds a frame finds the same one when more bytes are there. */
  lemma {:induction false} NextSettles(d: Dialect, s: Stream, more: seq<Byte>)
    ensures var (frame, after) := Next(d, s);
            if frame.Some? then Next(d, Pushed(s, more)) == (frame, Pushed(after, more))
            else Next(d, Pushed(s, more)) == Next(d, Pushed(after, more))
    decreases |s.pending|
  {
    var look := LookAt(d, s.pending);
    if look != Wait {
      LookSettles(d, s.pending, more);
      if look.Whole? {
        Dropped(s.pending, more, |look.frame.raw|);
      } else {
        Dropped(s.pending, more, 1);
        NextSettles(d, Stream(s.pending[1..], Skipped(s.tally, look.BadCrc?)), more);
      }
    }
  }

  /** Frames found first, and then the outcome of draining on. */
  function Joined(frames: seq<Frame>, r: (seq<Frame>, Stream)): (seq<Frame>, Stream) {
    (frames + r.0, r.1)
  }

  lemma JoinedTwice(a: seq<Frame>, b: seq<Frame>, r: (seq<Frame>, Stream))
    ensures Joined(a, Joined(b, r)) == Joined(a + b, r)
    ensures Joined([], r) == r
  {
    assert a + (b + r.0) == (a + b) + r.0;
    assert [] + r.0 == r.0;
  }

  /** Draining, pushing more and draining again is pushing all and draining. */
  lemma {:induction false} DrainSettles(d: Dialect, s: Stream, more: seq<Byte>)
    ensures Drain(d, Pushed(s, more)) == Joined(Drain(d, s).0, Drain(d, Pushed(Drain(d, s).1, more)))
    decreases |s.pending|
  {
    NextSettles(d, s, more);
    var (frame, after) := Next(d, s);
    var rest := Drain(d, Pushed(Drain(d, s).1, more));
    if frame.Some? {
      DrainSettles(d, after, more);
      JoinedTwice([frame.value], Drain(d, after).0, rest);
    } else {
      JoinedTwice([], [], rest);
    }
  }

  // ----- Runs -----

  datatype Op = Push(bytes: seq<Byte>) | Poll

  /** The bytes that a run pushes. */
  function Bytes(ops: seq<Op>): seq<Byte> {
    if ops == [] then []
    else
      var op := ops[|ops| - 1];
      if op.Push? then Bytes(ops[..|ops| - 1]) + op.bytes else Bytes(ops[..|ops| - 1])
  }

  /** The frames found in a run, and the decoder after it. */
  function Run(d: Dialect, ops: seq<Op>): (seq<Frame>, Stream) {
    if ops == [] then ([], Stream([], NO_TALLY))
    else
      var (frames, s) := Run(d, ops[..|ops| - 1]);
      match ops[|ops| - 1]
      case Push(bytes) => (frames, Pushed(s, bytes))
      case Poll =>
        var (frame, after) := Next(d, s);
        (if frame.Some? then frames + [frame.value] else frames, after)
  }

  lemma PollKeepsRest(d: Dialect, s: Stream)
    ensures var (frame, after) := Next(d, s);
            var (later, last) := Drain(d, after);
            Drain(d, s) == Joined(if frame.Some? then [frame.value] else [], (later, last))
  {
    var (frame, after) := Next(d, s);
    if frame.None? {
      NextSettles(d, s, []);
      assert Pushed(s, []) == s && Pushed(after, []) == after;
      JoinedTwice([], [], Drain(d, after));
    }
  }

  /** Draining `s` completes `frames` to those of all the bytes. */
  ghost predicate Completes(d: Dialect, bytes: seq<Byte>, frames: seq<Frame>, s: Stream) {
    Drain(d, Stream(bytes, NO_TALLY)) == Joined(frames, Drain(d, s))
  }

  lemma PushCompletes(d: Dialect, bytes: seq<Byte>, frames: seq<Frame>, s: Stream, more: seq<Byte>)
    requires Completes(d, bytes, frames, s)
    ensures Completes(d, bytes + more, frames, Pushed(s, more))
  {
    DrainSettles(d, Stream(bytes, NO_TALLY), more);
    DrainSettles(d, s, more);
    assert Pushed(Stream(bytes, NO_TALLY), more) == Stream(bytes + more, NO_TALLY);
    JoinedTwice(frames, Drain(d, s).0, Drain(d, Pushed(Drain(d, s).1, more)));
  }

  lemma PollCompletes(d: Dialect, bytes: seq<Byte>, frames: seq<Frame>, s: Stream)
    requires Completes(d, bytes, frames, s)
    ensures var (frame, after) := Next(d, s);
            Completes(d, bytes, if frame.Some? then frames + [frame.value] else frames, after)
  {
    PollKeepsRest(d, s);
    var (frame, after) := Next(d, s);
    if frame.Some? {
      JoinedTwice(frames, [frame.value], Drain(d, after));
    } else {
      JoinedTwice([], [], Drain(d, after));
    }
  }

  /** Whatever the pushes and however polls are mixed in, draining at the end
      leaves the frames and the decoder of one push of all the bytes. */
  lemma {:induction false} SplitDoesNotMatter(d: Dialect, ops: seq<Op>)
    ensures Completes(d, Bytes(ops), Run(d, ops).0, Run(d, ops).1)
  {
    if ops == [] {
      JoinedTwice([], [], Drain(d, Stream([], NO_TALLY)));
    } else {
      var n := |ops| - 1;
      SplitDoesNotMatter(d, ops[..n]);
      var (frames, s) := Run(d, ops[..n]);
      if ops[n].Push? {
        PushCompletes(d, Bytes(ops[..n]), frames, s, ops[n].bytes);
      } else {
        PollCompletes(d, Bytes(ops[..n]), frames, s);
      }
    }
  }

  // ----- Nothing is lost -----

  function FrameBytes(frames: seq<Frame>): nat {
    if frames == [] then 0 else FrameBytes(frames[..|frames| - 1]) + |frames[|frames| - 1].raw|
  }

  function Unknown(frames: seq<Frame>): nat {
    if frames == [] then 0
    else Unknown(frames[..|frames| - 1]) + (if frames[|frames| - 1].message.None? then 1 else 0)
  }

  lemma {:induction false} NextConserves(d: Dialect, s: Stream)
    ensures var (frame, after) := Next(d, s);
            var c, c' := s.tally.counters, after.tally.counters;
            && |s.pending| + c.resyncBytes ==
               (if frame.Some? then |frame.value.raw| else 0) + |after.pending| + c'.resyncBytes
            && c'.frames == c.frames + (if frame.Some? then 1 else 0)
            && c'.unknown == c.unknown + (if frame.Some? && frame.value.message.None? then 1 else 0)
            && c'.resyncBytes - c.resyncBytes >= c'.crcFailures - c.crcFailures >= 0
            && (frame.None? ==> LookAt(d, after.pending) == Wait)
    decreases |s.pending|
  {
    var look := LookAt(d, s.pending);
    if look.Noise? || look.BadCrc? {
      NextConserves(d, Stream(s.pending[1..], Skipped(s.tally, look.BadCrc?)));
    }
  }

  /** Every byte pushed is in a frame, skipped or still pending. */
  lemma {:induction false} RunConserves(d: Dialect, ops: seq<Op>)
    ensures var (frames, s) := Run(d, ops);
            var c := s.tally.counters;
            && |Bytes(ops)| == FrameBytes(frames) + c.resyncBytes + |s.pending|
            && c.frames == |frames| && c.unknown == Unknown(frames) && c.crcFailures <= c.resyncBytes
  {
    if ops != [] {
      var n := |ops| - 1;
      RunConserves(d, ops[..n]);
      var (frames, s) := Run(d, ops[..n]);
      if ops[n].Poll? {
        NextConserves(d, s);
        var frame := Next(d, s).0;
        if frame.Some? {
          assert (frames + [frame.value])[..|frames|] == frames;
        }
      }
    }
  }

  /** When no frame is found, less than one longest frame is pending. */
  lemma LittleIsPending(d: Dialect, s: Stream)
    requires Next(d, s).0.None?
    ensures |Next(d, s).1.pending| <= 279
  {
    NextConserves(d, s);
  }

  lemma NextUnfolds(d: Dialect, s: Stream)
    ensures var look := LookAt(d, s.pending);
            && (look.Wait? ==> Next(d, s) == (None, s))
            && (look.BadCrc? ==> Next(d, s) == Next(d, Stream(s.pending[1..], Skipped(s.tally, true))))
            && (look.Whole? ==>
                 Next(d, s) == (Some(look.frame), Stream(s.pending[|look.frame.raw|..], Counted(s.tally, look.frame))))
  {
  }

  lemma NextAfterNoise(d: Dialect, s: Stream)
    requires s.pending != [] && s.pending[0] != V1_MAGIC && s.pending[0] != V2_MAGIC
    ensures Next(d, s) == Next(d, Stream(s.pending[1..], Skipped(s.tally, false)))
  {
  }

  // ----- The decoder -----

  class FrameDecoder {
    const dialect: Dialect
    var buf: seq<Byte>
    var pos: nat
    var counters: Counters
    var lastSeq: map<(Byte, Byte), Byte>

    constructor (dialect: Dialect)
      ensures this.dialect == dialect && Valid() && Value() == Stream([], NO_TALLY)
    {
      this.dialect := dialect;
      buf, pos, counters, lastSeq := [], 0, Counters(0, 0, 0, 0, 0), map[];
    }

    predicate Valid()
      reads this
    {
      pos <= |buf|
    }

    function Value(): Stream
      requires Valid()
      reads this
    {
      Stream(buf[pos..], Tally(counters, lastSeq))
    }

    method PushBytes(bytes: seq<Byte>)
      requires Valid()
      modifies this
      ensures Valid() && Value() == Pushed(old(Value()), bytes)
    {
      ghost var rest := buf[pos..];
      if pos > 0 && (pos >= |buf| || pos > 4096) {
        buf := buf[pos..];
        pos := 0;
      }
      assert buf[pos..] == rest;
      Dropped(buf, bytes, pos);
      buf := buf + bytes;
    }

    method NextFrame() returns (frame: Option<Frame>)
      requires Valid()
      modifies this
      ensures Valid() && (frame, Value()) == Next(dialect, old(Value()))
    {
      ghost var start := Value();
      while true
        invariant Valid() && Next(dialect, Value()) == Next(dialect, start)
        decreases |buf| - pos
      {
        SkipNoise();
        var look := Examine(buf[pos..]);
        NextUnfolds(dialect, Value());
        match look
        case Wait => return None;
        case Noise => assert false;
        case BadCrc =>
          Reject();
        case Whole(found) =>
          Accept(found);
          return Some(found);
      }
    }

    /** Tries to decode a frame at the first of the pending bytes. */
    method Examine(rest: seq<Byte>) returns (look: Look)
      requires rest != [] ==> rest[0] in {V1_MAGIC, V2_MAGIC}
      ensures look == LookAt(dialect, rest)
    {
      if rest == [] {
        return Wait;
      }
      var n := FrameLen(rest);
      if n.None? || |rest| < n.value {
        return Wait;
      }
      SameLength(rest[..n.value], rest[n.value..]);
      assert rest == rest[..n.value] + rest[n.value..];
      var decoded := DecodeFrame(dialect, rest[..n.value]);
      look := if decoded.None? then BadCrc else Whole(decoded.value);
    }

    /** Skips to the next byte that may start a frame. */
    method SkipNoise()
      requires Valid()
      modifies this`pos, this`counters
      ensures Valid() && Next(dialect, Value()) == Next(dialect, old(Value()))
      ensures old(pos) <= pos && (pos < |buf| ==> buf[pos] in {V1_MAGIC, V2_MAGIC})
    {
      ghost var start := Value();
      while pos < |buf| && buf[pos] != V1_MAGIC && buf[pos] != V2_MAGIC
        invariant Valid() && old(pos) <= pos && Next(dialect, Value()) == Next(dialect, start)
      {
        NextAfterNoise(dialect, Value());
        StepOver();
      }
    }

    method StepOver()
      requires Valid() && pos < |buf|
      modifies this`pos, this`counters
      ensures Valid() && pos == old(pos) + 1
      ensures Value() == Stream(old(Value()).pending[1..], Skipped(old(Value()).tally, false))
    {
      assert buf[pos..][1..] == buf[pos + 1..];
      pos := pos + 1;
      counters := counters.(resyncBytes := counters.resyncBytes + 1);
    }

    /** Steps over a byte that looked like a frame but was none. */
    method Reject()
      requires Valid() && pos < |buf|
      modifies this`pos, this`counters
      ensures Valid() && pos == old(pos) + 1
      ensures Value() == Stream(old(Value()).pending[1..], Skipped(old(Value()).tally, true))
    {
      assert buf[pos..][1..] == buf[pos + 1..];
      counters := counters.(crcFailures := counters.crcFailures + 1, resyncBytes := counters.resyncBytes + 1);
      pos := pos + 1;
    }

    /** Counts a frame and steps over it. */
    method Accept(f: Frame)
      requires Valid() && |f.raw| <= |buf| - pos
      modifies this`pos, this`counters, this`lastSeq
      ensures Valid() && Value() == Stream(old(Value()).pending[|f.raw|..], Counted(old(Value()).tally, f))
    {
      assert buf[pos..][|f.raw|..] == buf[pos + |f.raw|..];
      counters := counters.(frames := counters.frames + 1);
      if f.message.None? {
        counters := counters.(unknown := counters.unknown + 1);
      }
      var key := (f.system, f.component);
      if key in lastSeq {
        counters := counters.(seqGaps := counters.seqGaps + Gap8(f.sequence, lastSeq[key]));
      }
      lastSeq := lastSeq[key := f.sequence];
      pos := pos + |f.raw|;
    }
  }
}
