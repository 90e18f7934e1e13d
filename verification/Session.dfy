/** The read loop and the dispatch map together, with the rest of the program acting on the session in between: from the
    bytes of the stream to the channels. */
module Session {
  import opened Options
  import opened Sequences
  import opened Frames
  import opened ReadLoop
  import opened Dispatch

  // ---- The inner loop ----

  /** A decided read in front of the rest dispatches its message, if it has one, before the rest. */
  lemma DispatchOne(frame: Reader, b: seq<byte>, s: State)
    requires Lawful(frame) && frame(b) != NotEnoughData
    ensures 0 < Dropped(frame(b)) <= |b|
    ensures var es, d := frame(b), Drain(frame, b[Dropped(frame(b))..]);
            && Run(s, Deliveries(Drain(frame, b).msgs)) == Run(Run(s, Deliveries(Handed(es))), Deliveries(d.msgs))
            && Drain(frame, b).rest == d.rest
  {
    DroppedBounds(frame, b);
    var handed, rest := Handed(frame(b)), Drain(frame, b[Dropped(frame(b))..]).msgs;
    assert Deliveries(handed + rest) == Deliveries(handed) + Deliveries(rest);
    RunInTwo(s, Deliveries(handed), Deliveries(rest));
  }

  lemma DispatchedOne(s: State, es: ReadResult)
    ensures Run(s, Deliveries(Handed(es)))
            == if es.Success? && es.msg.Some? then Step(s, Deliver(es.msg.value)) else s
  {
    if es.Success? && es.msg.Some? {
      assert Deliveries([es.msg.value]) == [Deliver(es.msg.value)];
      assert [Deliver(es.msg.value)][1..] == [];
      assert Run(s, [Deliver(es.msg.value)]) == Run(Step(s, Deliver(es.msg.value)), []);
    }
  }

  /** The inner loop with its dispatching. It does not suspend, so nobody else acts on the session meanwhile. */
  method DispatchBuffered(frame: Reader, buffer: ReceiveBuffer, session: PodProtocolSession)
    requires Lawful(frame) && buffer.Valid() && session.Valid()
    modifies buffer`validBytes, buffer.rxBuffer, session
    ensures buffer.Valid() && buffer.rxBuffer == old(buffer.rxBuffer) && session.Valid()
    ensures session.View() == Run(old(session.View()), Deliveries(Drain(frame, old(buffer.Contents())).msgs))
    ensures buffer.Contents() == Drain(frame, old(buffer.Contents())).rest
  {
    ghost var all := Drain(frame, buffer.Contents());
    while true
      invariant buffer.Valid() && buffer.rxBuffer == old(buffer.rxBuffer) && session.Valid()
      invariant Run(session.View(), Deliveries(Drain(frame, buffer.Contents()).msgs))
                == Run(old(session.View()), Deliveries(all.msgs))
      invariant Drain(frame, buffer.Contents()).rest == all.rest
      decreases buffer.validBytes
    {
      ghost var before, view := buffer.Contents(), session.View();
      var es := buffer.NextFrame(frame);
      if es == NotEnoughData {
        assert Deliveries([]) == [];
        break;
      }
      DispatchOne(frame, before, view);
      DispatchedOne(view, es);
      if es.Success? && es.msg.Some? {
        var _ := session.DispatchMessage(es.msg.value);
      }
    }
  }

  // ---- The whole loop ----

  function IsNoDelivery(): Event -> bool {
    (e: Event) => !e.Deliver?
  }

  function Flattened(rounds: seq<seq<Event>>): seq<Event> {
    if rounds == [] then [] else Flattened(rounds[..|rounds| - 1]) + rounds[|rounds| - 1]
  }

  /** `history` is a run of the session in which the read loop dispatches `msgs`, in order, and the rest of the program
      does what `rounds` says, in order. */
  ghost predicate IsHistory(history: seq<Event>, msgs: seq<Message>, rounds: seq<seq<Event>>) {
    Delivered(history) == msgs && Filter(history, IsNoDelivery()) == Flattened(rounds)
  }

  lemma {:induction false} NoDeliveries(events: seq<Event>)
    requires forall e <- events :: !e.Deliver?
    ensures Delivered(events) == [] && Filter(events, IsNoDelivery()) == events
    decreases |events|
  {
    if events != [] {
      NoDeliveries(events[1..]);
      assert events == [events[0]] + events[1..];
    }
  }

  lemma {:induction false} OnlyDeliveries(msgs: seq<Message>)
    ensures Filter(Deliveries(msgs), IsNoDelivery()) == []
    decreases |msgs|
  {
    if msgs != [] {
      OnlyDeliveries(msgs[1..]);
      assert Deliveries(msgs)[1..] == Deliveries(msgs[1..]);
    }
  }

  /** The history grows by what the rest of the program does. */
  lemma OthersAct(history: seq<Event>, msgs: seq<Message>, rounds: seq<seq<Event>>, acts: seq<Event>)
    requires IsHistory(history, msgs, rounds) && forall e <- acts :: !e.Deliver?
    ensures IsHistory(history + acts, msgs, rounds + [acts])
  {
    NoDeliveries(acts);
    DeliveredAppend(history, acts);
    FilterAppend(history, acts, IsNoDelivery());
    assert (rounds + [acts])[..|rounds|] == rounds;
  }

  /** The history grows by what the read loop dispatches. */
  lemma LoopDispatches(history: seq<Event>, msgs: seq<Message>, rounds: seq<seq<Event>>, more: seq<Message>)
    requires IsHistory(history, msgs, rounds)
    ensures IsHistory(history + Deliveries(more), msgs + more, rounds)
  {
    DeliveredOfDeliveries(more);
    OnlyDeliveries(more);
    DeliveredAppend(history, Deliveries(more));
    FilterAppend(history, Deliveries(more), IsNoDelivery());
  }

  /** The whole read loop. `others` says what the rest of the program does to the session while each read is awaited:
      any events that are not dispatches. The loop dispatches exactly the messages of the consumed input parsed at once, in
      order, whatever sizes the reads have. */
  method ReadAndDispatch(frame: Reader, buffer: ReceiveBuffer, stream: ByteStream, session: PodProtocolSession,
                         others: seq<seq<Event>>)
    returns (exit: Exit, ghost history: seq<Event>)
    requires Lawful(frame) && buffer.Valid() && buffer.Contents() == [] && session.Valid() && stream.Valid()
    requires stream.pos == 0 && stream.calls == 0 && !stream.failed
    requires forall acts <- others, e <- acts :: !e.Deliver?
    modifies buffer, buffer.rxBuffer, stream, session
    ensures buffer.Valid() && stream.Valid() && session.Valid() && stream.calls <= |others|
    ensures session.View() == Run(old(session.View()), history)
    ensures IsHistory(history, Drain(frame, stream.input[..stream.pos]).msgs, others[..stream.calls])
    ensures buffer.Contents() == Drain(frame, stream.input[..stream.pos]).rest
    ensures exit == ReadFailed <==> stream.failed
    ensures exit == StillRunning ==> stream.calls == |others|
    ensures exit == BufferLimit ==> |buffer.Contents()| == MAX_SIZE
  {
    ghost var original := buffer.rxBuffer;
    ghost var start := session.View();
    var i := 0;
    history := [];
    while i < |others|
      invariant i <= |others| && stream.calls == i && !stream.failed
      invariant buffer.Valid() && stream.Valid() && session.Valid()
      invariant buffer.rxBuffer == original || fresh(buffer.rxBuffer)
      invariant session.View() == Run(start, history)
      invariant IsHistory(history, Drain(frame, stream.input[..stream.pos]).msgs, others[..i])
      invariant buffer.Contents() == Drain(frame, stream.input[..stream.pos]).rest
    {
      ghost var pos := stream.pos;
      CapacityDoubles(buffer.rxBuffer.Length);
      var full := buffer.Fill(stream);
      if full == Some(BufferLimit) {
        return BufferLimit, history;
      }
      session.HandleAll(others[i]);
      RunInTwo(start, history, others[i]);
      OthersAct(history, Drain(frame, stream.input[..pos]).msgs, others[..i], others[i]);
      assert others[..i + 1] == others[..i] + [others[i]];
      history := history + others[i];
      if full.Some? {
        return ReadFailed, history;
      }
      history := DispatchRound(frame, buffer, stream, session, pos, start, history, others[..i + 1]);
      i := i + 1;
    }
    return StillRunning, history;
  }

  /** The end of a round: what has been read since `pos` is dispatched. */
  method DispatchRound(frame: Reader, buffer: ReceiveBuffer, stream: ByteStream, session: PodProtocolSession,
                   ghost pos: nat, ghost start: State, ghost history: seq<Event>, ghost rounds: seq<seq<Event>>)
    returns (ghost history': seq<Event>)
    requires Lawful(frame) && buffer.Valid() && session.Valid() && stream.Valid() && pos <= stream.pos
    requires buffer.Contents() == Drain(frame, stream.input[..pos]).rest + stream.input[pos..stream.pos]
    requires session.View() == Run(start, history)
    requires IsHistory(history, Drain(frame, stream.input[..pos]).msgs, rounds)
    modifies buffer`validBytes, buffer.rxBuffer, session
    ensures buffer.Valid() && buffer.rxBuffer == old(buffer.rxBuffer) && session.Valid()
    ensures session.View() == Run(start, history')
    ensures IsHistory(history', Drain(frame, stream.input[..stream.pos]).msgs, rounds)
    ensures buffer.Contents() == Drain(frame, stream.input[..stream.pos]).rest
  {
    ghost var more := Drain(frame, buffer.Contents()).msgs;
    DrainMore(frame, stream.input, pos, stream.pos);
    DispatchBuffered(frame, buffer, session);
    RunInTwo(start, history, Deliveries(more));
    LoopDispatches(history, Drain(frame, stream.input[..pos]).msgs, rounds, more);
    history' := history + Deliveries(more);
  }

  // ---- From the pod's answers to the channels ----

  lemma {:induction false} FirstOfPrefix(part: seq<Message>, msgs: seq<Message>, id: byte)
    requires part <= msgs
    ensures FirstOf(part, id) <= FirstOf(msgs, id)
    decreases |part|
  {
    if part != [] {
      FirstOfPrefix(part[1..], msgs[1..], id);
    }
  }

  /** Whoever is registered for an id after `before`, and whose wait is not ended in `after`, has got nothing or the first
      answer with that id that was not yet dispatched; and exactly that, if there is one, once all bytes have been read. */
  ghost predicate IsAnswered(s: State, before: seq<Event>, after: seq<Event>, id: byte, ms: seq<Message>, read: nat,
                             bytes: nat)
  {
    var s1 := Run(s, before);
    id in s1.dispatchMap && WaitsOn(s1, after, s1.dispatchMap[id]) ==>
      var c, s2 := s1.dispatchMap[id], Run(s, before + after);
      && c < |s2.channels| && |Delivered(before)| <= |ms|
      && s2.channels[c].sent <= FirstOf(ms[|Delivered(before)|..], id)
      && (read == bytes ==> s2.channels[c].sent == FirstOf(ms[|Delivered(before)|..], id))
  }

  /** The loop has dispatched a beginning of what the pod sends, all of it once every byte is read, while the program did
      what it liked to the session: each registration that waits is answered as far as the bytes have been read. */
  lemma RepliesArrive(s: State, before: seq<Event>, after: seq<Event>, id: byte, ms: seq<Message>, read: nat, bytes: nat)
    requires Inv(s) && Delivered(before + after) <= ms && (read == bytes ==> Delivered(before + after) == ms)
    ensures IsAnswered(s, before, after, id, ms, read, bytes)
  {
    var s1, rest := Run(s, before), Delivered(after);
    DeliveredAppend(before, after);
    RunInTwo(s, before, after);
    if id in s1.dispatchMap && WaitsOn(s1, after, s1.dispatchMap[id]) {
      RunKeepsInv(s, before);
      FirstReplyArrives(s1, after, id);
      ReplyWhileWaiting(s1, after, id, s1.dispatchMap[id]);
      assert rest == (Delivered(before) + rest)[|Delivered(before)|..] <= ms[|Delivered(before)|..];
      FirstOfPrefix(rest, ms[|Delivered(before)|..], id);
    }
  }

  lemma RepliesArriveAlways(s: State, history: seq<Event>, ms: seq<Message>, read: nat, bytes: nat)
    requires Inv(s) && Delivered(history) <= ms && (read == bytes ==> Delivered(history) == ms)
    ensures forall k: nat, id: byte :: k <= |history| ==> IsAnswered(s, history[..k], history[k..], id, ms, read, bytes)
  {
    forall k: nat, id: byte | k <= |history| ensures IsAnswered(s, history[..k], history[k..], id, ms, read, bytes) {
      assert history[..k] + history[k..] == history;
      RepliesArrive(s, history[..k], history[k..], id, ms, read, bytes);
    }
  }

  /** From bytes to channels, of the running loop: the pod answers in frames of at most 65536 bytes, and every registration
      that waits is answered, at every point of the history. */
  method ReceiveAnswers(w: Wire, ghost ms: seq<Message>, buffer: ReceiveBuffer, stream: ByteStream,
                        session: PodProtocolSession, others: seq<seq<Event>>)
    returns (exit: Exit, ghost history: seq<Event>)
    requires w.Valid() && (forall m <- ms :: w.Fits(m, MAX_SIZE)) && stream.input == Concat(w.EncodeAll(ms, MAX_SIZE))
    requires buffer.Valid() && buffer.Contents() == [] && session.Valid() && stream.Valid()
    requires stream.pos == 0 && stream.calls == 0 && !stream.failed
    requires forall acts <- others, e <- acts :: !e.Deliver?
    modifies buffer, buffer.rxBuffer, stream, session
    ensures session.Valid() && stream.Valid() && exit != BufferLimit && stream.calls <= |others|
    ensures session.View() == Run(old(session.View()), history)
    ensures Filter(history, IsNoDelivery()) == Flattened(others[..stream.calls])
    ensures forall k: nat, id: byte :: k <= |history| ==>
              IsAnswered(old(session.View()), history[..k], history[k..], id, ms, stream.pos, |stream.input|)
  {
    ghost var start := session.View();
    w.ReadIsLawful();
    exit, history := ReadAndDispatch(w.Read, buffer, stream, session, others);
    FramesAreDelivered(w, ms, stream.pos);
    RepliesArriveAlways(start, history, ms, stream.pos, |stream.input|);
  }
}
