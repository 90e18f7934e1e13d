/** The wire frame of the pod protocol and the reader interface that the session's read loop relies on. */
module Frames {
  import opened Options
  import opened Sequences

  type byte = b: int | 0 <= b < 256

  datatype Message = Message(id: nat, transaction: byte, payload: seq<byte>)

  /** What one call of the frame reader reports; `consumed` is how far it moved its iterator. */
  datatype ReadResult =
    | NotEnoughData
    | Failure(consumed: nat)
    | Success(msg: Option<Message>, consumed: nat)

  type Reader = seq<byte> -> ReadResult

  /** All that the read loop needs from a reader: once it has decided, further bytes do not change its mind,
      and it never claims bytes that are not there. */
  ghost predicate Lawful(r: Reader) {
    && r([]) == NotEnoughData
    && forall b, x :: LawfulAt(r, b, x)
  }

  ghost predicate LawfulAt(r: Reader, b: seq<byte>, x: seq<byte>) {
    r(b) != NotEnoughData ==>
      && r(b + x) == r(b)
      && r(b).consumed <= |b|
      && (r(b).Success? && r(b).msg.Some? ==> 0 < r(b).consumed)
  }

  /** A decided read drops between one byte and everything: what the reader consumed, or one byte if that was none. */
  lemma DroppedBounds(r: Reader, b: seq<byte>)
    requires Lawful(r) && r(b) != NotEnoughData
    ensures 0 < Dropped(r(b)) <= |b|
    ensures r(b).consumed > 0 ==> Dropped(r(b)) == r(b).consumed
    ensures r(b).consumed == 0 ==> Dropped(r(b)) == 1
  {
    assert LawfulAt(r, b, []);
  }

  /** The bytes the loop drops after a decided read: a read without a message drops at least one byte. */
  function Dropped(res: ReadResult): nat
    requires !res.NotEnoughData?
  {
    if res.Success? && res.msg.Some? then res.consumed
    else if res.consumed != 0 then res.consumed else 1
  }

  function Handed(res: ReadResult): seq<Message> {
    if res.Success? && res.msg.Some? then [res.msg.value] else []
  }

  datatype Drained = Drained(msgs: seq<Message>, rest: seq<byte>)

  /** Reference: parsing the whole byte string at once. */
  ghost function Drain(r: Reader, b: seq<byte>): Drained
    requires Lawful(r)
    decreases |b|
  {
    var res := r(b);
    if res == NotEnoughData then Drained([], b)
    else
      DroppedBounds(r, b);
      var d := Drain(r, b[Dropped(res)..]);
      Drained(Handed(res) + d.msgs, d.rest)
  }

  /** Parsing a stream in two cuts hands over the same messages and leaves the same tail as parsing it at once. */
  lemma {:induction false} DrainAppend(r: Reader, a: seq<byte>, b: seq<byte>)
    requires Lawful(r)
    ensures var first := Drain(r, a);
            var second := Drain(r, first.rest + b);
            Drain(r, a + b) == Drained(first.msgs + second.msgs, second.rest)
    decreases |a|
  {
    var res := r(a);
    if res == NotEnoughData {
      var second := Drain(r, a + b);
      assert [] + second.msgs == second.msgs;
    } else {
      assert LawfulAt(r, a, b);
      DroppedBounds(r, a);
      var k := Dropped(res);
      assert (a + b)[k..] == a[k..] + b;
      DrainAppend(r, a[k..], b);
      var d := Drain(r, a[k..]);
      var second := Drain(r, d.rest + b);
      Associates(Handed(res), d.msgs, second.msgs);
    }
  }

  /** `f` is read as `m`, whatever follows it. */
  ghost predicate IsFrame(r: Reader, f: seq<byte>, m: Message) {
    forall x :: IsFrameBefore(r, f, m, x)
  }

  ghost predicate IsFrameBefore(r: Reader, f: seq<byte>, m: Message, x: seq<byte>) {
    r(f + x) == Success(Some(m), |f|)
  }

  function Concat(frames: seq<seq<byte>>): seq<byte> {
    if frames == [] then [] else frames[0] + Concat(frames[1..])
  }

  /** `frames` are the frames of `ms`, none longer than `limit`. */
  ghost predicate AreFrames(r: Reader, frames: seq<seq<byte>>, ms: seq<Message>, limit: nat) {
    && |frames| == |ms|
    && forall i | 0 <= i < |ms| :: IsFrame(r, frames[i], ms[i]) && |frames[i]| <= limit
  }

  /** A whole frame in front is handed over first. */
  lemma DrainFront(r: Reader, f: seq<byte>, m: Message, x: seq<byte>)
    requires Lawful(r) && IsFrame(r, f, m)
    ensures Drain(r, f + x) == Drained([m] + Drain(r, x).msgs, Drain(r, x).rest)
  {
    assert IsFrameBefore(r, f, m, x);
    DroppedBounds(r, f + x);
    assert (f + x)[|f|..] == x;
  }

  /** An incomplete frame is kept and nothing is made of it. */
  lemma DrainPart(r: Reader, f: seq<byte>, m: Message, n: nat)
    requires Lawful(r) && IsFrame(r, f, m) && n < |f|
    ensures Drain(r, f[..n]) == Drained([], f[..n])
  {
    assert f[..n] + f[n..] == f && f + [] == f;
    assert IsFrameBefore(r, f, m, []) && LawfulAt(r, f[..n], f[n..]);
  }

  lemma ConcatFront(frames: seq<seq<byte>>, tail: seq<byte>)
    requires frames != []
    ensures Concat(frames) + tail == frames[0] + (Concat(frames[1..]) + tail)
  {
  }

  lemma AreFramesTail(r: Reader, frames: seq<seq<byte>>, ms: seq<Message>, limit: nat)
    requires AreFrames(r, frames, ms, limit) && ms != []
    ensures IsFrame(r, frames[0], ms[0]) && |frames[0]| <= limit
    ensures AreFrames(r, frames[1..], ms[1..], limit)
  {
  }

  /** Frames back to back come out as the messages that went in, and what follows them is parsed as if alone. */
  lemma {:induction false} DrainFrames(r: Reader, frames: seq<seq<byte>>, ms: seq<Message>, limit: nat, tail: seq<byte>)
    requires Lawful(r) && AreFrames(r, frames, ms, limit)
    ensures Drain(r, Concat(frames) + tail) == Drained(ms + Drain(r, tail).msgs, Drain(r, tail).rest)
    decreases |ms|
  {
    var d := Drain(r, tail).msgs;
    if ms == [] {
      assert [] + tail == tail && ms + d == d;
    } else {
      AreFramesTail(r, frames, ms, limit);
      ConcatFront(frames, tail);
      DrainFront(r, frames[0], ms[0], Concat(frames[1..]) + tail);
      DrainFrames(r, frames[1..], ms[1..], limit, tail);
      Associates([ms[0]], ms[1..], d);
      assert [ms[0]] + ms[1..] == ms;
    }
  }

  /** `d` is what is known of a stream of `frames` when only `cut` has arrived: the messages of the frames that are
      whole, and the rest byte for byte, less than `limit`. */
  ghost predicate IsPart(frames: seq<seq<byte>>, ms: seq<Message>, limit: nat, cut: seq<byte>, d: Drained) {
    && d.msgs <= ms
    && |d.msgs| <= |frames|
    && cut == Concat(frames[..|d.msgs|]) + d.rest
    && |d.rest| < limit
  }

  lemma IsPartFront(frames: seq<seq<byte>>, ms: seq<Message>, limit: nat, cut: seq<byte>, d: Drained)
    requires frames != [] && ms != [] && IsPart(frames[1..], ms[1..], limit, cut, d)
    ensures IsPart(frames, ms, limit, frames[0] + cut, Drained([ms[0]] + d.msgs, d.rest))
  {
    var k := |d.msgs|;
    assert frames[..k + 1][1..] == frames[1..][..k];
    assert frames[0] + (Concat(frames[1..][..k]) + d.rest) == Concat(frames[..k + 1]) + d.rest;
  }

  /** A stream of frames can be cut anywhere. */
  lemma {:induction false} CutFrames(r: Reader, frames: seq<seq<byte>>, ms: seq<Message>, limit: nat, pos: nat)
    requires Lawful(r) && AreFrames(r, frames, ms, limit) && 0 < limit
    requires pos <= |Concat(frames)|
    ensures IsPart(frames, ms, limit, Concat(frames)[..pos], Drain(r, Concat(frames)[..pos]))
    decreases |ms|
  {
    var cut := Concat(frames)[..pos];
    if ms == [] {
      assert cut == [] && frames[..0] == [];
      return;
    }
    AreFramesTail(r, frames, ms, limit);
    if pos < |frames[0]| {
      DrainPart(r, frames[0], ms[0], pos);
      assert cut == frames[0][..pos];
      assert frames[..0] == [];
    } else {
      var n := pos - |frames[0]|;
      var shorter := Concat(frames[1..])[..n];
      assert cut == frames[0] + shorter;
      DrainFront(r, frames[0], ms[0], shorter);
      CutFrames(r, frames[1..], ms[1..], limit, n);
      IsPartFront(frames, ms, limit, shorter, Drain(r, shorter));
    }
  }

  // ---- The concrete frame: Sync, Size, MsgId, TransactionId, Payload, CRC-16 ----

  const SYNC := 0xabcd
  /** Bytes before the part that Size counts. */
  const PREFIX := 4
  /** MsgId, TransactionId and Checksum. */
  const OVERHEAD := 5

  /** What the shared schema fixes and this repository does not show: the byte order, the checksum, which
      payloads a message id accepts, and how far the reader moves over bytes it rejects. */
  datatype Wire = Wire(
    bigEndian: bool,
    crc: seq<byte> -> int,
    accepts: (int, seq<byte>) -> bool,
    skip: seq<byte> -> nat)
  {
    ghost predicate Valid() {
      && (forall p :: 0 <= crc(p) < 0x1_0000)
      && (forall p :: skip(p) <= |p|)
    }

    function Put16(v: int): (s: seq<byte>)
      requires 0 <= v < 0x1_0000
    {
      if bigEndian then [v / 256, v % 256] else [v % 256, v / 256]
    }

    function Get16(b0: byte, b1: byte): int {
      if bigEndian then 256 * b0 + b1 else 256 * b1 + b0
    }

    function Read(b: seq<byte>): ReadResult {
      if |b| < 2 then NotEnoughData
      else if Get16(b[0], b[1]) != SYNC then Failure(skip(b[..2]))
      else if |b| < PREFIX then NotEnoughData
      else
        var size := Get16(b[2], b[3]);
        var total := PREFIX + size;
        if |b| < total then NotEnoughData
        else if size < OVERHEAD then Failure(skip(b[..total]))
        else
          var id := Get16(b[4], b[5]);
          var payload := b[7..total - 2];
          if crc(b[2..total - 2]) != Get16(b[total - 2], b[total - 1]) || !accepts(id, payload)
          then Failure(skip(b[..total]))
          else Success(Some(Message(id, b[6], payload)), total)
    }

    /** A message that this wire can carry. */
    predicate Carries(m: Message) {
      m.id < 0x1_0000 && accepts(m.id, m.payload) && OVERHEAD + |m.payload| < 0x1_0000
    }

    /** The same in a frame of at most `limit` bytes. */
    predicate Fits(m: Message, limit: nat) {
      Carries(m) && PREFIX + OVERHEAD + |m.payload| <= limit
    }

    function Covered(m: Message): seq<byte>
      requires m.id < 0x1_0000 && OVERHEAD + |m.payload| < 0x1_0000
    {
      Put16(OVERHEAD + |m.payload|) + Put16(m.id) + [m.transaction] + m.payload
    }

    ghost function Encode(m: Message): seq<byte>
      requires Valid() && m.id < 0x1_0000 && OVERHEAD + |m.payload| < 0x1_0000
    {
      Put16(SYNC) + Covered(m) + Put16(crc(Covered(m)))
    }

    ghost function EncodeAll(ms: seq<Message>, limit: nat): seq<seq<byte>>
      requires Valid() && forall m <- ms :: Fits(m, limit)
    {
      seq(|ms|, i requires 0 <= i < |ms| => assert Fits(ms[i], limit); Encode(ms[i]))
    }

    lemma ReadIsLawful()
      requires Valid()
      ensures Lawful(Read)
    {
      forall b, x ensures LawfulAt(Read, b, x) {
        if Read(b) != NotEnoughData {
          ReadIsStable(b, x);
        }
      }
    }

    /** A decided frame stays decided the same way when more bytes arrive. */
    lemma ReadIsStable(b: seq<byte>, x: seq<byte>)
      requires Valid() && Read(b) != NotEnoughData
      ensures Read(b + x) == Read(b)
    {
      Front(b, x, 0, 2);
      if Get16(b[0], b[1]) == SYNC {
        var total := PREFIX + Get16(b[2], b[3]);
        Front(b, x, 0, total);
        if PREFIX + OVERHEAD <= total {
          Front(b, x, 2, total - 2);
          Front(b, x, 7, total - 2);
        }
      }
    }

    lemma Front(b: seq<byte>, x: seq<byte>, i: nat, j: nat)
      requires i <= j <= |b|
      ensures b[i..j] == (b + x)[i..j] && (i == 0 ==> b[..j] == (b + x)[..j])
    {
    }

    /** Where the parts of a framed message lie. */
    lemma Layout(sync: seq<byte>, covered: seq<byte>, sum: seq<byte>, x: seq<byte>)
      requires |sum| == |sync| == 2
      ensures var b := sync + covered + sum + x;
              var total := 4 + |covered|;
              && b[0..2] == sync && b[2..total - 2] == covered && b[total - 2..total] == sum
    {
    }

    lemma CoveredLayout(m: Message)
      requires m.id < 0x1_0000 && OVERHEAD + |m.payload| < 0x1_0000
      ensures var c := Covered(m);
              && |c| == OVERHEAD + |m.payload|
              && Get16(c[0], c[1]) == |c| && Get16(c[2], c[3]) == m.id
              && c[4] == m.transaction && c[5..] == m.payload
    {
    }

    /** The frame as documented: Sync, Size of what follows it, MsgId, TransactionId, payload, and the checksum over Size
        through payload. */
    lemma FrameLayout(m: Message)
      requires Valid() && m.id < 0x1_0000 && OVERHEAD + |m.payload| < 0x1_0000
      ensures var f, n := Encode(m), 9 + |m.payload|;
              && |f| == n && f[0..2] == Put16(0xabcd) && f[2..4] == Put16(n - 4) && f[4..6] == Put16(m.id)
              && f[6] == m.transaction && f[7..n - 2] == m.payload && f[n - 2..] == Put16(crc(f[2..n - 2]))
    {
      var f, c, n := Encode(m), Covered(m), 9 + |m.payload|;
      assert f[2..n - 2] == c;
      assert c[0..2] == Put16(n - 4) && c[2..4] == Put16(m.id) && c[5..] == m.payload;
      assert f[2..4] == c[0..2] && f[4..6] == c[2..4] && f[7..n - 2] == c[5..];
    }

    /** Reading gives back the message that was framed, whatever follows it on the wire. */
    lemma ReadEncoded(m: Message, x: seq<byte>)
      requires Valid() && Carries(m)
      ensures Read(Encode(m) + x) == Success(Some(m), |Encode(m)|)
      ensures |Encode(m)| == PREFIX + OVERHEAD + |m.payload|
    {
      var c := Covered(m);
      var sync, sum := Put16(SYNC), Put16(crc(c));
      CoveredLayout(m);
      Layout(sync, c, sum, x);
      var b := Encode(m) + x;
      var total := PREFIX + OVERHEAD + |m.payload|;
      assert b[2..total - 2] == c && b[0..2] == sync && b[total - 2..total] == sum;
      assert b[0] == sync[0] && b[1] == sync[1];
      assert forall i | 0 <= i < 5 :: b[2 + i] == c[i];
      assert b[7..total - 2] == c[5..];
      assert b[total - 2] == sum[0] && b[total - 1] == sum[1];
    }

    /** The byte that goes first. */
    lemma ByteOrder(v: int)
      requires 0 <= v < 0x1_0000
      ensures |Put16(v)| == 2
      ensures Put16(v)[0] as int == if bigEndian then v / 256 else v % 256
      ensures Put16(v)[1] as int == if bigEndian then v % 256 else v / 256
    {
    }

    lemma PutGet(b0: byte, b1: byte)
      ensures 0 <= Get16(b0, b1) < 0x1_0000 && Put16(Get16(b0, b1)) == [b0, b1]
    {
    }

    /** The bytes that the checksum covers, put together from their fields again. */
    lemma CoveredOf(c: seq<byte>)
      requires OVERHEAD <= |c| < 0x1_0000 && Get16(c[0], c[1]) == |c|
      ensures var m := Message(Get16(c[2], c[3]), c[4], c[5..]);
              m.id < 0x1_0000 && OVERHEAD + |m.payload| == |c| && c == Covered(m)
    {
      PutGet(c[0], c[1]);
      PutGet(c[2], c[3]);
      assert c == [c[0], c[1]] + [c[2], c[3]] + [c[4]] + c[5..];
    }

    lemma InThree(f: seq<byte>)
      requires |f| >= 4
      ensures f == [f[0], f[1]] + f[2..|f| - 2] + [f[|f| - 2], f[|f| - 1]]
    {
    }

    /** Nothing but a frame is accepted: what is read successfully is, byte for byte, with its Sync, Size and checksum,
        the encoding of the message. */
    lemma ReadIsEncoded(b: seq<byte>)
      requires Valid() && Read(b).Success?
      ensures Read(b).msg.Some? && Carries(Read(b).msg.value)
      ensures Read(b).consumed <= |b| && b[..Read(b).consumed] == Encode(Read(b).msg.value)
    {
      var total := PREFIX + Get16(b[2], b[3]);
      var f, c := b[..total], b[2..total - 2];
      assert c[5..] == b[7..total - 2];
      CoveredOf(c);
      PutGet(b[0], b[1]);
      PutGet(b[total - 2], b[total - 1]);
      InThree(f);
      assert f[2..total - 2] == c;
    }

    /** The reader accepts exactly the encodings of the messages that the wire carries. */
    lemma ReadExactly(b: seq<byte>, m: Message)
      requires Valid()
      ensures Read(b).Success? && Read(b).msg == Some(m) <==> Carries(m) && Encode(m) <= b
      ensures Read(b).Success? && Read(b).msg == Some(m) ==> Carries(m) && Read(b).consumed == |Encode(m)|
    {
      if Carries(m) && Encode(m) <= b {
        ReadEncoded(m, b[|Encode(m)|..]);
        assert b == Encode(m) + b[|Encode(m)|..];
      }
      if Read(b).Success? {
        ReadIsEncoded(b);
      }
    }

    /** The reader waits for more exactly while the Sync has not arrived, or has and the Size or what it counts has not. */
    lemma WaitsExactly(b: seq<byte>)
      requires Valid()
      ensures Read(b) == NotEnoughData
              <==> |b| < 2 || (Put16(SYNC) <= b && (|b| < PREFIX || |b| < PREFIX + Get16(b[2], b[3])))
    {
      if |b| >= 2 {
        PutGet(b[0], b[1]);
        assert b[..2] == [b[0], b[1]];
        assert Put16(SYNC) <= b <==> b[..2] == Put16(SYNC);
      }
    }

    /** `ms` lie in `b` as frames, one behind the other, with anything in between. */
    ghost predicate AreIn(ms: seq<Message>, b: seq<byte>)
      requires Valid()
      decreases |ms|
    {
      ms == [] || exists p: nat :: IsAt(ms, b, p)
    }

    ghost predicate IsAt(ms: seq<Message>, b: seq<byte>, p: nat)
      requires Valid() && ms != []
      decreases |ms|, 0
    {
      Carries(ms[0]) && p + |Encode(ms[0])| <= |b|
      && b[p..p + |Encode(ms[0])|] == Encode(ms[0])
      && AreIn(ms[1..], b[p + |Encode(ms[0])|..])
    }

    /** Every message that is handed over was an encoded frame in the bytes that arrived, in this order. */
    lemma {:induction false} HandedWereFrames(b: seq<byte>)
      requires Valid() && Lawful(Read)
      ensures AreIn(Drain(Read, b).msgs, b)
      decreases |b|
    {
      var res := Read(b);
      if res != NotEnoughData {
        DroppedBounds(Read, b);
        var k := Dropped(res);
        var ms := Drain(Read, b[k..]).msgs;
        HandedWereFrames(b[k..]);
        if res.Success? {
          ReadIsEncoded(b);
          assert ([res.msg.value] + ms)[1..] == ms && b[0..k] == b[..k];
          assert IsAt([res.msg.value] + ms, b, 0);
        } else {
          assert [] + ms == ms;
          LaterIn(ms, b, k);
        }
      }
    }

    lemma LaterIn(ms: seq<Message>, b: seq<byte>, k: nat)
      requires Valid() && k <= |b| && AreIn(ms, b[k..])
      ensures AreIn(ms, b)
    {
      if ms != [] {
        var p: nat :| IsAt(ms, b[k..], p);
        var n := |Encode(ms[0])|;
        assert b[k..][p..p + n] == b[k + p..k + p + n] && b[k..][p + n..] == b[k + p + n..];
        assert IsAt(ms, b, k + p);
      }
    }

    lemma EncodedIsFrame(m: Message)
      requires Valid() && Carries(m)
      ensures IsFrame(Read, Encode(m), m) && |Encode(m)| == PREFIX + OVERHEAD + |m.payload|
    {
      forall x ensures IsFrameBefore(Read, Encode(m), m, x) {
        ReadEncoded(m, x);
      }
      ReadEncoded(m, []);
    }

    /** The frames that the sender writes are the frames that the reader recognises. */
    lemma EncodeAllAreFrames(ms: seq<Message>, limit: nat)
      requires Valid() && forall m <- ms :: Fits(m, limit)
      ensures AreFrames(Read, EncodeAll(ms, limit), ms, limit)
    {
      var frames := EncodeAll(ms, limit);
      forall i | 0 <= i < |ms|
        ensures IsFrame(Read, frames[i], ms[i]) && |frames[i]| <= limit
      {
        assert Fits(ms[i], limit);
        EncodedIsFrame(ms[i]);
      }
    }
  }
}
