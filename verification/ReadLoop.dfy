/** The session's read loop: a growing buffer that cuts the byte stream into frames. */
module ReadLoop {
  import opened Options
  import opened Frames

  const INITIAL_SIZE := 4096
  const MAX_SIZE := 64 * 1024

  function Pow2(k: nat): nat {
    if k == 0 then 1 else 2 * Pow2(k - 1)
  }

  /** Every capacity the buffer can have: 4096 doubled at most four times. */
  ghost predicate IsCapacity(n: nat) {
    exists k: nat :: k <= 4 && n == INITIAL_SIZE * Pow2(k)
  }

  lemma {:induction false} Pow2Grows(j: nat, k: nat)
    requires j <= k
    ensures 0 < Pow2(j) <= Pow2(k)
    decreases k
  {
    if j < k {
      Pow2Grows(j, k - 1);
    } else if 0 < k {
      Pow2Grows(k - 1, k - 1);
    }
  }

  /** A capacity below the maximum can be doubled, and the maximum is itself a capacity. */
  lemma CapacityDoubles(n: nat)
    requires IsCapacity(n)
    ensures INITIAL_SIZE <= n <= MAX_SIZE
    ensures n < MAX_SIZE ==> IsCapacity(2 * n)
    ensures n >= MAX_SIZE <==> n == MAX_SIZE
  {
    var k: nat :| k <= 4 && n == INITIAL_SIZE * Pow2(k);
    Pow2Grows(0, k);
    Pow2Grows(k, 4);
    assert Pow2(4) == 16 && Pow2(0) == 1;
    if n < MAX_SIZE {
      assert k < 4;
      assert 2 * n == INITIAL_SIZE * Pow2(k + 1);
    }
  }

  /** The serial stream. It decides alone how many bytes a read returns, and when reading fails. */
  class ByteStream {
    const input: seq<byte>
    var pos: nat
    var calls: nat
    var failed: bool

    ghost predicate Valid() reads this {
      pos <= |input|
    }

    constructor (input: seq<byte>)
      ensures Valid() && this.input == input && pos == 0 && calls == 0 && !failed
    {
      this.input := input;
      pos, calls, failed := 0, 0, false;
    }

    /** Reads into a region of `room` bytes. Every read of the loop targets a region that is not empty. */
    method Read(room: nat) returns (chunk: Option<seq<byte>>)
      requires Valid() && 0 < room
      modifies this
      ensures Valid() && old(pos) <= pos && calls == old(calls) + 1
      ensures failed <==> chunk.None?
      ensures chunk.None? ==> pos == old(pos)
      ensures chunk.Some? ==> |chunk.value| <= room && chunk.value == input[old(pos)..pos]
    {
      calls, failed := calls + 1, *;
      if failed {
        return None;
      }
      var n: nat :| n <= room && pos + n <= |input|;
      chunk := Some(input[pos..pos + n]);
      pos := pos + n;
    }
  }

  /** What comes of `b` once `msgs` have been handed over before it. */
  ghost function DrainAfter(frame: Reader, msgs: seq<Message>, b: seq<byte>): Drained
    requires Lawful(frame)
  {
    var d := Drain(frame, b);
    Drained(msgs + d.msgs, d.rest)
  }

  /** One decided read: its message is handed over and its bytes are gone. */
  lemma DrainOne(frame: Reader, b: seq<byte>, msgs: seq<Message>)
    requires Lawful(frame) && frame(b) != NotEnoughData
    ensures 0 < Dropped(frame(b)) <= |b|
    ensures DrainAfter(frame, msgs, b) == DrainAfter(frame, msgs + Handed(frame(b)), b[Dropped(frame(b))..])
  {
    DroppedBounds(frame, b);
    var d := Drain(frame, b[Dropped(frame(b))..]);
    assert msgs + (Handed(frame(b)) + d.msgs) == (msgs + Handed(frame(b))) + d.msgs;
  }

  datatype Exit = BufferLimit | ReadFailed | StillRunning

  class ReceiveBuffer {
    var rxBuffer: array<byte>
    var validBytes: nat

    ghost predicate Valid() reads this {
      && IsCapacity(rxBuffer.Length)
      && validBytes <= rxBuffer.Length
    }

    ghost function Contents(): seq<byte>
      requires Valid()
      reads this, rxBuffer
    {
      rxBuffer[..validBytes]
    }

    constructor ()
      ensures Valid() && fresh(rxBuffer) && Contents() == []
      ensures rxBuffer.Length == INITIAL_SIZE
    {
      rxBuffer := new byte[INITIAL_SIZE];
      validBytes := 0;
      new;
      assert INITIAL_SIZE == INITIAL_SIZE * Pow2(0);
    }

    /** Drops `count` bytes from the front by moving the rest down in place. */
    method ConsumeFront(count: nat)
      requires Valid()
      modifies this`validBytes, rxBuffer
      ensures Valid() && rxBuffer == old(rxBuffer)
      ensures Contents() == if count < |old(Contents())| then old(Contents())[count..] else []
    {
      if count == 0 {
        return;
      }
      if count >= validBytes {
        validBytes := 0;
        return;
      }
      var remaining := validBytes - count;
      ghost var before := Contents();
      var i := 0;
      while i < remaining
        invariant 0 <= i <= remaining && rxBuffer == old(rxBuffer) && |before| <= rxBuffer.Length
        invariant forall j | 0 <= j < i :: rxBuffer[j] == before[j + count]
        invariant forall j | i <= j < |before| :: rxBuffer[j] == before[j]
      {
        rxBuffer[i] := rxBuffer[i + count];
        i := i + 1;
      }
      validBytes := remaining;
    }

    /** Doubles a full buffer. Gives up, changing nothing, when it is full at the maximum size. */
    method MakeRoom() returns (ok: bool)
      requires Valid()
      modifies this`rxBuffer
      ensures Valid() && Contents() == old(Contents())
      ensures ok <==> validBytes < MAX_SIZE
      ensures ok ==> validBytes < rxBuffer.Length
      ensures rxBuffer == old(rxBuffer) || fresh(rxBuffer)
    {
      CapacityDoubles(rxBuffer.Length);
      if validBytes == rxBuffer.Length {
        if rxBuffer.Length >= MAX_SIZE {
          return false;
        }
        var grown := new byte[2 * rxBuffer.Length];
        forall i | 0 <= i < validBytes {
          grown[i] := rxBuffer[i];
        }
        rxBuffer := grown;
      }
      return true;
    }

    /** What the asynchronous read does to the buffer: the bytes arrive behind the valid ones. */
    method Store(chunk: seq<byte>)
      requires Valid() && validBytes + |chunk| <= rxBuffer.Length
      modifies this`validBytes, rxBuffer
      ensures Valid() && rxBuffer == old(rxBuffer)
      ensures Contents() == old(Contents()) + chunk
    {
      forall i | 0 <= i < |chunk| {
        rxBuffer[validBytes + i] := chunk[i];
      }
      validBytes := validBytes + |chunk|;
    }

    /** The part of a round before the parsing: room, then one read. */
    method Fill(stream: ByteStream) returns (exit: Option<Exit>)
      requires Valid() && stream.Valid() && !stream.failed
      modifies this, rxBuffer, stream
      ensures Valid() && stream.Valid() && (rxBuffer == old(rxBuffer) || fresh(rxBuffer))
      ensures exit.None? || exit == Some(BufferLimit) || exit == Some(ReadFailed)
      ensures exit == Some(ReadFailed) <==> stream.failed
      ensures exit == Some(BufferLimit) <==> |old(Contents())| >= MAX_SIZE
      ensures stream.calls == old(stream.calls) + if exit == Some(BufferLimit) then 0 else 1
      ensures exit.Some? ==> stream.pos == old(stream.pos) && Contents() == old(Contents())
      ensures exit.None? ==>
                old(stream.pos) <= stream.pos && Contents() == old(Contents()) + stream.input[old(stream.pos)..stream.pos]
    {
      var ok := MakeRoom();
      if !ok {
        return Some(BufferLimit);
      }
      var chunk := stream.Read(rxBuffer.Length - validBytes);
      if chunk.None? {
        return Some(ReadFailed);
      }
      Store(chunk.value);
      return None;
    }

    /** One round of the inner loop: reads a frame at the front and drops what it decided. */
    method NextFrame(frame: Reader) returns (es: ReadResult)
      requires Valid() && Lawful(frame)
      modifies this`validBytes, rxBuffer
      ensures Valid() && rxBuffer == old(rxBuffer)
      ensures es == frame(old(Contents()))
      ensures es == NotEnoughData ==> Contents() == old(Contents())
      ensures es != NotEnoughData ==>
                && 0 < Dropped(es) <= |old(Contents())|
                && Dropped(es) == (if es.consumed != 0 then es.consumed else 1)
                && Contents() == old(Contents())[Dropped(es)..]
    {
      es := frame(rxBuffer[..validBytes]);
      if es == NotEnoughData {
        return;
      }
      DroppedBounds(frame, Contents());
      if es.Success? && es.msg.Some? {
        ConsumeFront(es.consumed);
      } else {
        ConsumeFront(if es.consumed != 0 then es.consumed else 1);
      }
    }

    /** The inner loop: parses frames from the front until the reader asks for more bytes. */
    method ParseBuffered(frame: Reader) returns (msgs: seq<Message>)
      requires Valid() && Lawful(frame)
      modifies this`validBytes, rxBuffer
      ensures Valid() && rxBuffer == old(rxBuffer)
      ensures Drained(msgs, Contents()) == Drain(frame, old(Contents()))
    {
      msgs := [];
      while true
        invariant Valid() && rxBuffer == old(rxBuffer)
        invariant Drain(frame, old(Contents())) == DrainAfter(frame, msgs, Contents())
        decreases validBytes
      {
        ghost var before := Contents();
        var es := NextFrame(frame);
        if es == NotEnoughData {
          assert DrainAfter(frame, msgs, before) == Drained(msgs, before);
          break;
        }
        DrainOne(frame, before, msgs);
        msgs := msgs + Handed(es);
      }
    }

    /** The outer loop, for at most `rounds` reads. Whatever sizes the stream's reads have, the messages handed over
        are those of the consumed input parsed at once, and the buffer holds exactly the unparsed tail. */
    method Run(frame: Reader, stream: ByteStream, rounds: nat) returns (msgs: seq<Message>, exit: Exit)
      requires Valid() && Contents() == [] && Lawful(frame) && stream.Valid()
      requires stream.pos == 0 && stream.calls == 0 && !stream.failed
      modifies this, rxBuffer, stream
      ensures Valid() && stream.Valid()
      ensures Drained(msgs, Contents()) == Drain(frame, stream.input[..stream.pos])
      ensures exit == ReadFailed <==> stream.failed
      ensures exit == StillRunning ==> stream.calls == rounds
      ensures exit == BufferLimit ==> |Contents()| == MAX_SIZE
      ensures exit == BufferLimit ==> frame(Contents()) == NotEnoughData
      ensures IsUndecidedUpTo(frame, stream.input, MAX_SIZE) ==> msgs == [] && Contents() == stream.input[..stream.pos]
    {
      msgs := [];
      var i := 0;
      ghost var original := rxBuffer;
      while i < rounds
        invariant i <= rounds && stream.calls == i && !stream.failed
        invariant Valid() && stream.Valid() && (rxBuffer == original || fresh(rxBuffer))
        invariant Drained(msgs, Contents()) == Drain(frame, stream.input[..stream.pos])
        invariant IsUndecidedUpTo(frame, stream.input, MAX_SIZE) ==> msgs == [] && Contents() == stream.input[..stream.pos]
      {
        ghost var pos := stream.pos;
        DrainRest(frame, stream.input[..pos]);
        CapacityDoubles(rxBuffer.Length);
        var full := Fill(stream);
        if full.Some? {
          return msgs, full.value;
        }
        DrainMore(frame, stream.input, pos, stream.pos);
        CapacityDoubles(rxBuffer.Length);
        if IsUndecidedUpTo(frame, stream.input, MAX_SIZE) {
          UndecidedIsKept(frame, stream.input, pos, stream.pos, Contents());
        }
        var parsed := ParseBuffered(frame);
        msgs := msgs + parsed;
        i := i + 1;
      }
      return msgs, StillRunning;
    }

    /** The loop on the wire format: it hands over nothing but messages whose frames lie in the input, and it ends at the buffer limit only with a frame in front whose Size exceeds 65532. */
    method RunOnWire(w: Wire, stream: ByteStream, rounds: nat) returns (msgs: seq<Message>, exit: Exit)
      requires Valid() && Contents() == [] && w.Valid() && stream.Valid()
      requires stream.pos == 0 && stream.calls == 0 && !stream.failed
      modifies this, rxBuffer, stream
      ensures Valid() && stream.Valid() && Lawful(w.Read)
      ensures Drained(msgs, Contents()) == Drain(w.Read, stream.input[..stream.pos])
      ensures exit == BufferLimit ==>
                && |Contents()| == MAX_SIZE
                && w.Get16(Contents()[0], Contents()[1]) == SYNC && w.Get16(Contents()[2], Contents()[3]) > 65532
      ensures IsUndecidedUpTo(w.Read, stream.input, MAX_SIZE) ==> msgs == [] && Contents() == stream.input[..stream.pos]
      ensures w.AreIn(msgs, stream.input[..stream.pos])
    {
      w.ReadIsLawful();
      msgs, exit := Run(w.Read, stream, rounds);
      w.HandedWereFrames(stream.input[..stream.pos]);
      if exit == BufferLimit {
        LimitMeansLongFrame(w, Contents());
      }
    }

    /** The loop on a pod that sends `ms` in frames of at most 65536 bytes: what has been handed over is the beginning of
        `ms`, all of it once everything is read, and the loop never ends at the buffer limit. */
    method ReceiveFrames(w: Wire, ghost ms: seq<Message>, stream: ByteStream, rounds: nat)
      returns (msgs: seq<Message>, exit: Exit)
      requires Valid() && Contents() == [] && w.Valid() && stream.Valid()
      requires forall m <- ms :: w.Fits(m, MAX_SIZE)
      requires stream.input == Concat(w.EncodeAll(ms, MAX_SIZE))
      requires stream.pos == 0 && stream.calls == 0 && !stream.failed
      modifies this, rxBuffer, stream
      ensures Valid() && stream.Valid()
      ensures msgs <= ms && exit != BufferLimit
      ensures stream.pos == |stream.input| ==> msgs == ms && Contents() == []
    {
      msgs, exit := RunOnWire(w, stream, rounds);
      FramesAreDelivered(w, ms, stream.pos);
    }

    /** The loop on a stream that begins with the frame of `m`. A frame of at most 65536 bytes is handed over first, as soon
        as it has arrived; a longer one, legal on the wire as it is, never is, and nothing behind it is even read. */
    method ReceiveFirst(w: Wire, ghost m: Message, ghost tail: seq<byte>, stream: ByteStream, rounds: nat)
      returns (msgs: seq<Message>, exit: Exit)
      requires Valid() && Contents() == [] && w.Valid() && stream.Valid()
      requires w.Carries(m) && stream.input == w.Encode(m) + tail
      requires stream.pos == 0 && stream.calls == 0 && !stream.failed
      modifies this, rxBuffer, stream
      ensures Valid() && stream.Valid()
      ensures |w.Encode(m)| <= MAX_SIZE ==>
                && (msgs != [] <==> stream.pos >= |w.Encode(m)|)
                && (msgs != [] ==> msgs[0] == m)
      ensures |w.Encode(m)| > MAX_SIZE ==> msgs == [] && stream.pos <= MAX_SIZE
    {
      w.EncodedIsFrame(m);
      w.ReadIsLawful();
      msgs, exit := RunOnWire(w, stream, rounds);
      FirstFrame(w.Read, w.Encode(m), m, tail, stream.pos);
      if |w.Encode(m)| > MAX_SIZE {
        LongFrameIsUndecided(w.Read, w.Encode(m), m, tail);
        CapacityDoubles(rxBuffer.Length);
      }
    }
  }

  /** The reader decides nothing on the first bytes, however many up to `limit` have arrived. */
  ghost predicate IsUndecidedUpTo(frame: Reader, input: seq<byte>, limit: nat) {
    forall n: nat | n <= limit && n <= |input| :: IsUndecidedAt(frame, input, n)
  }

  ghost predicate IsUndecidedAt(frame: Reader, input: seq<byte>, n: nat)
    requires n <= |input|
  {
    frame(input[..n]) == NotEnoughData
  }

  lemma UndecidedIsKept(frame: Reader, input: seq<byte>, from: nat, to: nat, contents: seq<byte>)
    requires Lawful(frame) && from <= to <= |input| && |contents| <= MAX_SIZE
    requires IsUndecidedUpTo(frame, input, MAX_SIZE) && contents == input[..from] + input[from..to]
    ensures contents == input[..to] && Drain(frame, contents) == Drained([], contents)
  {
    assert contents == input[..to];
    assert IsUndecidedAt(frame, input, to);
  }

  /** What comes of a stream that begins with a frame, once `pos` bytes have arrived. */
  lemma FirstFrame(frame: Reader, f: seq<byte>, m: Message, tail: seq<byte>, pos: nat)
    requires Lawful(frame) && IsFrame(frame, f, m) && pos <= |f + tail|
    ensures var msgs := Drain(frame, (f + tail)[..pos]).msgs;
            (msgs != [] <==> pos >= |f|) && (msgs != [] ==> msgs[0] == m)
  {
    if pos < |f| {
      assert (f + tail)[..pos] == f[..pos];
      DrainPart(frame, f, m, pos);
    } else {
      assert (f + tail)[..pos] == f + tail[..pos - |f|];
      DrainFront(frame, f, m, tail[..pos - |f|]);
    }
  }

  lemma LongFrameIsUndecided(frame: Reader, f: seq<byte>, m: Message, tail: seq<byte>)
    requires Lawful(frame) && IsFrame(frame, f, m) && |f| > MAX_SIZE
    ensures IsUndecidedUpTo(frame, f + tail, MAX_SIZE)
  {
    forall n: nat | n <= MAX_SIZE && n <= |f + tail| ensures IsUndecidedAt(frame, f + tail, n) {
      assert (f + tail)[..n] == f[..n];
      DrainPart(frame, f, m, n);
      DrainRest(frame, f[..n]);
    }
  }

  /** There are such messages: the payload is one byte too long for the buffer, and the frame still legal. */
  lemma LongMessageExample(w: Wire, id: nat, transaction: byte)
    requires w.Valid() && id < 0x1_0000 && w.accepts(id, seq(65528, _ => 0))
    ensures var m := Message(id, transaction, seq(65528, _ => 0));
            w.Carries(m) && |w.Encode(m)| == MAX_SIZE + 1
  {
    w.EncodedIsFrame(Message(id, transaction, seq(65528, _ => 0)));
  }

  /** Parsing goes on where it stopped when more of the input has arrived. */
  lemma DrainMore(frame: Reader, input: seq<byte>, from: nat, to: nat)
    requires Lawful(frame) && from <= to <= |input|
    ensures var first := Drain(frame, input[..from]);
            Drain(frame, input[..to]) == DrainAfter(frame, first.msgs, first.rest + input[from..to])
  {
    assert input[..to] == input[..from] + input[from..to];
    DrainAppend(frame, input[..from], input[from..to]);
  }

  /** What draining leaves behind is a tail the reader cannot decide yet. */
  lemma {:induction false} DrainRest(frame: Reader, b: seq<byte>)
    requires Lawful(frame)
    ensures frame(Drain(frame, b).rest) == NotEnoughData
    decreases |b|
  {
    if frame(b) != NotEnoughData {
      DroppedBounds(frame, b);
      DrainRest(frame, b[Dropped(frame(b))..]);
    }
  }

  /** The loop on a stream of frames of the wire format, each at most 65536 bytes long, cut by reads of any size: it
      hands over the messages of the frames that have arrived whole, all of them once all has arrived, and it cannot
      run into the buffer limit. */
  lemma FramesAreDelivered(w: Wire, ms: seq<Message>, pos: nat)
    requires w.Valid() && forall m <- ms :: w.Fits(m, MAX_SIZE)
    requires pos <= |Concat(w.EncodeAll(ms, MAX_SIZE))|
    ensures Lawful(w.Read)
    ensures |w.EncodeAll(ms, MAX_SIZE)| == |ms|
    ensures var input := Concat(w.EncodeAll(ms, MAX_SIZE));
            var d := Drain(w.Read, input[..pos]);
            && d.msgs <= ms && |d.rest| < MAX_SIZE
            && input[..pos] == Concat(w.EncodeAll(ms, MAX_SIZE)[..|d.msgs|]) + d.rest
            && (pos == |input| ==> d == Drained(ms, []))
  {
    var frames := w.EncodeAll(ms, MAX_SIZE);
    w.ReadIsLawful();
    w.EncodeAllAreFrames(ms, MAX_SIZE);
    CutFrames(w.Read, frames, ms, MAX_SIZE, pos);
    if pos == |Concat(frames)| {
      DrainFrames(w.Read, frames, ms, MAX_SIZE, []);
      assert Concat(frames)[..pos] == Concat(frames) + [];
    }
  }

  /** With 65536 bytes buffered the reader asks for more exactly when the frame in front has a Size above 65532. */
  lemma LimitMeansLongFrame(w: Wire, b: seq<byte>)
    requires |b| == MAX_SIZE
    ensures w.Read(b) == NotEnoughData <==> w.Get16(b[0], b[1]) == SYNC && w.Get16(b[2], b[3]) > 65532
  {
  }
}
