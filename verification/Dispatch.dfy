/** The session's dispatch map: which response channel waits for which 8-bit transaction id. */
module Dispatch {
  import opened Frames

  const CHANNEL_CAPACITY := 1

  /** A response channel. `id` and `sent` record what it was created for and all it was ever sent. */
  datatype Channel = Channel(id: byte, isOpen: bool, buffer: seq<Message>, sent: seq<Message>) {
    predicate CanSend() {
      isOpen && |buffer| < CHANNEL_CAPACITY
    }
  }

  /** A registration object; `attached` is false once it was moved from or destroyed. */
  datatype Registration = Registration(attached: bool, id: byte, channel: nat)

  /** Channels and registrations are named by their position, as pointers name them in the program. */
  datatype State = State(
    dispatchMap: map<byte, nat>,
    channels: seq<Channel>,
    registrations: seq<Registration>,
    counter: byte,
    writeQueueOpen: bool,
    failedSends: nat)

  const INITIAL := State(map[], [], [], 0, true, 0)

  datatype Event =
    | Generate
    | Register(id: byte)
    | Move(reg: nat)
    | Destroy(reg: nat)
    | Deliver(msg: Message)
    | Receive(channel: nat)
    | Shutdown

  function Detach(s: State, reg: nat): State
    requires reg < |s.registrations|
  {
    s.(registrations := s.registrations[reg := s.registrations[reg].(attached := false)])
  }

  function Send(c: Channel, m: Message): Channel {
    c.(buffer := c.buffer + [m], sent := c.sent + [m])
  }

  function Closed(c: Channel): Channel {
    c.(isOpen := false)
  }

  function CloseAll(channels: seq<Channel>, closing: set<nat>): seq<Channel> {
    seq(|channels|, i requires 0 <= i < |channels| =>
      if i in closing then Closed(channels[i]) else channels[i])
  }

  function Step(s: State, e: Event): State {
    match e
    case Generate => s.(counter := (s.counter + 1) % 256)
    case Register(id) =>
      if id in s.dispatchMap
      then s.(registrations := s.registrations + [Registration(true, id, s.dispatchMap[id])])
      else s.(dispatchMap := s.dispatchMap[id := |s.channels|],
              channels := s.channels + [Channel(id, true, [], [])],
              registrations := s.registrations + [Registration(true, id, |s.channels|)])
    case Move(reg) =>
      if reg >= |s.registrations| then s
      else Detach(s, reg).(registrations := Detach(s, reg).registrations + [s.registrations[reg]])
    case Destroy(reg) =>
      if reg >= |s.registrations| || !s.registrations[reg].attached then s
      else
        var r := s.registrations[reg];
        if r.id in s.dispatchMap && s.dispatchMap[r.id] == r.channel
        then Detach(s, reg).(dispatchMap := s.dispatchMap - {r.id})
        else Detach(s, reg)
    case Deliver(m) =>
      if m.transaction !in s.dispatchMap || s.dispatchMap[m.transaction] >= |s.channels| then s
      else
        var c := s.dispatchMap[m.transaction];
        var erased := s.(dispatchMap := s.dispatchMap - {m.transaction});
        if s.channels[c].CanSend() then erased.(channels := s.channels[c := Send(s.channels[c], m)])
        else erased.(failedSends := s.failedSends + 1)
    case Receive(c) =>
      if c >= |s.channels| || s.channels[c].buffer == [] then s
      else s.(channels := s.channels[c := s.channels[c].(buffer := s.channels[c].buffer[1..])])
    case Shutdown =>
      s.(writeQueueOpen := false, dispatchMap := map[], channels := CloseAll(s.channels, s.dispatchMap.Values))
  }

  function Run(s: State, events: seq<Event>): State
    decreases |events|
  {
    if events == [] then s else Run(Step(s, events[0]), events[1..])
  }

  /** The position before the step of the registration that is at `i` after it. */
  function Origin(s: State, e: Event, i: nat): nat {
    if e.Move? && i == |s.registrations| then e.reg else i
  }

  // ---- What every reachable state keeps ----

  /** The registration holds channel `c`. */
  predicate Holds(r: Registration, c: nat) {
    r.attached && r.channel == c
  }

  ghost predicate Inv(s: State) {
    && (forall id :: id in s.dispatchMap ==> EntryOk(s, id))
    && (forall i | 0 <= i < |s.registrations| :: RegistrationOk(s, s.registrations[i]))
    && (forall c | 0 <= c < |s.channels| :: ChannelOk(s.channels[c]))
    && s.failedSends == 0
  }

  /** An entry's channel is open, unused, made for this id, and held by a live registration. */
  ghost predicate EntryOk(s: State, id: byte)
    requires id in s.dispatchMap
  {
    var c := s.dispatchMap[id];
    && c < |s.channels|
    && s.channels[c] == Channel(id, true, [], [])
    && exists i :: 0 <= i < |s.registrations| && Holds(s.registrations[i], c)
  }

  ghost predicate RegistrationOk(s: State, r: Registration) {
    r.channel < |s.channels| && s.channels[r.channel].id == r.id
  }

  /** A channel gets at most one message in its life, and that message carries its id. */
  ghost predicate ChannelOk(c: Channel) {
    && |c.sent| <= 1
    && (forall m <- c.sent :: m.transaction == c.id)
    && (c.buffer == [] || c.buffer == c.sent)
  }

  lemma EntryKept(s: State, s': State, id: byte, i: nat)
    requires id in s.dispatchMap && EntryOk(s, id) && id in s'.dispatchMap
    requires s'.dispatchMap[id] == s.dispatchMap[id] && s.dispatchMap[id] < |s'.channels|
    requires s'.channels[s.dispatchMap[id]] == s.channels[s.dispatchMap[id]]
    requires i < |s'.registrations| && Holds(s'.registrations[i], s.dispatchMap[id])
    ensures EntryOk(s', id)
  {
  }

  /** The registrations after a step: those before it, some of them detached, and perhaps one more. */
  lemma StepRegistrations(s: State, e: Event)
    ensures var regs, regs' := s.registrations, Step(s, e).registrations;
            && |regs| <= |regs'| <= |regs| + 1
            && (forall i | 0 <= i < |regs| :: regs'[i].channel == regs[i].channel && regs'[i].id == regs[i].id)
            && (e.Move? && e.reg < |regs| ==> |regs'| == |regs| + 1 && regs'[|regs|] == regs[e.reg])
            && (e.Register? ==> |regs'| == |regs| + 1)
            && (!e.Move? && !e.Register? ==> |regs'| == |regs|)
            && (forall i | 0 <= i < |regs| && !((e.Move? || e.Destroy?) && e.reg == i) :: regs'[i] == regs[i])
  {
  }

  /** The channels after a step: those before it, for the same ids, and perhaps one more. */
  lemma StepChannels(s: State, e: Event)
    ensures var channels, channels' := s.channels, Step(s, e).channels;
            && |channels| <= |channels'|
            && forall c | 0 <= c < |channels| :: channels'[c].id == channels[c].id
  {
  }

  /** An entry that is there before and after a step has the same channel in the same state. */
  lemma StepEntries(s: State, e: Event, id: byte)
    requires Inv(s) && id in s.dispatchMap && id in Step(s, e).dispatchMap
    ensures var c := s.dispatchMap[id];
            && Step(s, e).dispatchMap[id] == c && c < |s.channels|
            && Step(s, e).channels[c] == s.channels[c]
            && (e.Destroy? && e.reg < |s.registrations| ==> !Holds(s.registrations[e.reg], c))
  {
    assert EntryOk(s, id);
    if e.Deliver? && e.msg.transaction in s.dispatchMap {
      assert EntryOk(s, e.msg.transaction);
    }
    if e.Destroy? && e.reg < |s.registrations| {
      assert RegistrationOk(s, s.registrations[e.reg]);
    }
  }

  lemma StepKeepsEntry(s: State, e: Event, id: byte)
    requires Inv(s) && id in s.dispatchMap && id in Step(s, e).dispatchMap
    ensures EntryOk(Step(s, e), id)
  {
    assert EntryOk(s, id);
    var i: nat :| i < |s.registrations| && Holds(s.registrations[i], s.dispatchMap[id]);
    StepEntries(s, e, id);
    StepChannels(s, e);
    StepRegistrations(s, e);
    EntryKept(s, Step(s, e), id, if e.Move? && i == e.reg then |s.registrations| else i);
  }

  lemma RegisterIsOk(s: State, id: byte)
    requires Inv(s)
    ensures RegistrationOk(Step(s, Register(id)), Step(s, Register(id)).registrations[|s.registrations|])
  {
    if id in s.dispatchMap {
      assert EntryOk(s, id);
    }
  }

  lemma StepKeepsRegistrations(s: State, e: Event, i: nat)
    requires Inv(s) && i < |Step(s, e).registrations|
    ensures RegistrationOk(Step(s, e), Step(s, e).registrations[i])
  {
    StepRegistrations(s, e);
    StepChannels(s, e);
    if e.Register? && i == |s.registrations| {
      RegisterIsOk(s, e.id);
    } else {
      assert RegistrationOk(s, s.registrations[Origin(s, e, i)]);
    }
  }

  lemma StepKeepsChannels(s: State, e: Event, c: nat)
    requires Inv(s) && c < |Step(s, e).channels|
    ensures ChannelOk(Step(s, e).channels[c])
  {
  }

  lemma StepKeepsInv(s: State, e: Event)
    requires Inv(s)
    ensures Inv(Step(s, e))
  {
    var s' := Step(s, e);
    forall id | id in s'.dispatchMap ensures EntryOk(s', id) {
      if id in s.dispatchMap {
        StepKeepsEntry(s, e, id);
      } else {
        assert Holds(s'.registrations[|s.registrations|], s'.dispatchMap[id]);
      }
    }
    forall i | 0 <= i < |s'.registrations| ensures RegistrationOk(s', s'.registrations[i]) {
      StepKeepsRegistrations(s, e, i);
    }
    forall c | 0 <= c < |s'.channels| ensures ChannelOk(s'.channels[c]) {
      StepKeepsChannels(s, e, c);
    }
    if e.Deliver? && e.msg.transaction in s.dispatchMap {
      assert EntryOk(s, e.msg.transaction);
    }
  }

  lemma {:induction false} RunKeepsInv(s: State, events: seq<Event>)
    requires Inv(s)
    ensures Inv(Run(s, events))
    decreases |events|
  {
    if events != [] {
      StepKeepsInv(s, events[0]);
      RunKeepsInv(Step(s, events[0]), events[1..]);
    }
  }

  /** In every reachable state: sending on dispatch never failed; every entry is backed by a live registration of an
      open, empty channel that was made for its id; and each channel got at most one message, with its id. */
  lemma ReachableIsSafe(events: seq<Event>)
    ensures var s := Run(INITIAL, events);
            && s.failedSends == 0
            && (forall id :: id in s.dispatchMap ==> EntryOk(s, id))
            && (forall c <- s.channels :: |c.sent| <= 1 && forall m <- c.sent :: m.transaction == c.id)
  {
    RunKeepsInv(INITIAL, events);
    var s := Run(INITIAL, events);
    forall c <- s.channels ensures ChannelOk(c) {
    }
  }

  /** Two ids never share a channel. */
  lemma ChannelsAreNotShared(s: State, id: byte, other: byte)
    requires Inv(s) && id in s.dispatchMap && other in s.dispatchMap
    ensures s.dispatchMap[id] == s.dispatchMap[other] ==> id == other
  {
  }

  /** Destroying a registration removes no entry but that of its own channel. */
  lemma DestroySparesOthers(s: State, reg: nat, id: byte)
    requires Inv(s) && id in s.dispatchMap && reg < |s.registrations|
    ensures var s' := Step(s, Destroy(reg));
            && (id in s'.dispatchMap <==> !Holds(s.registrations[reg], s.dispatchMap[id]))
            && (id in s'.dispatchMap ==> s'.dispatchMap[id] == s.dispatchMap[id])
  {
  }

  // ---- When a live registration can count on its entry ----

  /** Registration `i` still expects its message. */
  predicate Waiting(s: State, i: nat) {
    && i < |s.registrations| && s.registrations[i].attached
    && s.registrations[i].channel < |s.channels|
    && s.channels[s.registrations[i].channel].isOpen
    && s.channels[s.registrations[i].channel].sent == []
  }

  predicate HasEntry(s: State, i: nat)
    requires i < |s.registrations|
  {
    var r := s.registrations[i];
    r.id in s.dispatchMap && s.dispatchMap[r.id] == r.channel
  }

  ghost predicate EachHasEntry(s: State) {
    forall i: nat :: Waiting(s, i) ==> HasEntry(s, i)
  }

  /** Every waiting registration has its entry, and no two of them share one. */
  ghost predicate Exact(s: State) {
    && EachHasEntry(s)
    && (forall i: nat, j: nat :: Waiting(s, i) && Waiting(s, j) && i != j ==>
          s.registrations[i].channel != s.registrations[j].channel)
  }

  /** The guard of `register_response` that decides whether a new channel is made. */
  predicate IsFresh(s: State, e: Event) {
    e.Register? ==> e.id !in s.dispatchMap
  }

  ghost predicate FreshRun(s: State, events: seq<Event>)
    decreases |events|
  {
    events == [] || (IsFresh(s, events[0]) && FreshRun(Step(s, events[0]), events[1..]))
  }

  lemma StepKeepsExact(s: State, e: Event)
    requires Inv(s) && Exact(s) && IsFresh(s, e)
    ensures Exact(Step(s, e))
  {
    var s' := Step(s, e);
    forall i: nat | Waiting(s', i) ensures HasEntry(s', i) {
      WaitingBefore(s, e, i);
      if Origin(s, e, i) < |s.registrations| {
        EntryStays(s, e, i);
      }
    }
    forall i: nat, j: nat | Waiting(s', i) && Waiting(s', j) && i != j
      ensures s'.registrations[i].channel != s'.registrations[j].channel
    {
      WaitingBefore(s, e, i);
      WaitingBefore(s, e, j);
    }
  }

  /** Whoever waits after the step already waited before it, on the same channel, or was registered by it. */
  lemma WaitingBefore(s: State, e: Event, i: nat)
    requires Inv(s) && Waiting(Step(s, e), i)
    ensures var k := Origin(s, e, i);
            if k < |s.registrations|
            then Waiting(s, k) && s.registrations[k] == Step(s, e).registrations[i]
            else e.Register? && k == i == |s.registrations|
    ensures e.Move? ==> i != e.reg || e.reg >= |s.registrations|
  {
  }

  lemma EntryStays(s: State, e: Event, i: nat)
    requires Inv(s) && Exact(s) && Waiting(Step(s, e), i)
    requires Origin(s, e, i) < |s.registrations|
    ensures HasEntry(Step(s, e), i)
  {
    var k := Origin(s, e, i);
    WaitingBefore(s, e, i);
    assert HasEntry(s, k);
    if e.Destroy? && e.reg < |s.registrations| {
      assert e.reg != i;
      assert RegistrationOk(s, s.registrations[e.reg]) && RegistrationOk(s, s.registrations[k]);
      if s.registrations[e.reg].attached && s.registrations[e.reg].id in s.dispatchMap {
        assert EntryOk(s, s.registrations[e.reg].id);
      }
    }
    if e.Deliver? && e.msg.transaction in s.dispatchMap {
      assert EntryOk(s, e.msg.transaction);
    }
  }

  /** An id has an entry exactly when a live registration of that id is still to get its message. */
  lemma EntryIffWaiting(s: State, id: byte)
    requires Inv(s) && Exact(s)
    ensures id in s.dispatchMap <==> exists i: nat :: Waiting(s, i) && s.registrations[i].id == id
  {
  }

  lemma {:induction false} FreshRunKeepsExact(s: State, events: seq<Event>)
    requires Inv(s) && Exact(s) && FreshRun(s, events)
    ensures Inv(Run(s, events)) && Exact(Run(s, events))
    decreases |events|
  {
    if events != [] {
      StepKeepsInv(s, events[0]);
      StepKeepsExact(s, events[0]);
      FreshRunKeepsExact(Step(s, events[0]), events[1..]);
    }
  }

  /** If every registration finds its id free, then in every reachable state, shutdown included, each registration
      that is still to get its message has an entry of its own, and nobody else has one. */
  lemma FreshRunsAreExact(events: seq<Event>)
    requires FreshRun(INITIAL, events)
    ensures var s := Run(INITIAL, events);
            && Exact(s)
            && forall id: byte :: id in s.dispatchMap <==> exists i: nat :: Waiting(s, i) && s.registrations[i].id == id
  {
    FreshRunKeepsExact(INITIAL, events);
    var s := Run(INITIAL, events);
    forall id: byte ensures id in s.dispatchMap <==> exists i: nat :: Waiting(s, i) && s.registrations[i].id == id {
      EntryIffWaiting(s, id);
    }
  }

  /** A second registration of a waiting id shares its entry, and waits without any once the first is destroyed. */
  lemma SharingLosesEntry(s: State, id: byte, first: nat)
    requires Inv(s) && Waiting(s, first) && HasEntry(s, first) && s.registrations[first].id == id
    ensures var s2 := Step(Step(s, Register(id)), Destroy(first));
            Waiting(s2, |s.registrations|) && !HasEntry(s2, |s.registrations|)
  {
  }

  /** Registering alone, shared or not, costs nobody an entry. */
  lemma RegisterKeepsEntries(s: State, id: byte)
    requires Inv(s) && EachHasEntry(s)
    ensures EachHasEntry(Step(s, Register(id)))
  {
    var s1 := Step(s, Register(id));
    forall i: nat | Waiting(s1, i) ensures HasEntry(s1, i) {
      WaitingBefore(s, Register(id), i);
    }
  }

  /** After registering an id, every registration that waits keeps its entry whichever one is destroyed next if and only
      if the id had no entry. */
  lemma SafeExactlyWhenFresh(s: State, id: byte)
    requires Inv(s) && Exact(s)
    ensures id !in s.dispatchMap
            <==> (forall reg: nat :: EachHasEntry(Step(Step(s, Register(id)), Destroy(reg))))
  {
    var s1 := Step(s, Register(id));
    if id !in s.dispatchMap {
      StepKeepsInv(s, Register(id));
      StepKeepsExact(s, Register(id));
      forall reg: nat ensures EachHasEntry(Step(s1, Destroy(reg))) {
        StepKeepsExact(s1, Destroy(reg));
      }
    } else {
      var i: nat :| Waiting(s, i) && s.registrations[i].id == id by {
        EntryIffWaiting(s, id);
      }
      SharingLosesEntry(s, id, i);
      assert !EachHasEntry(Step(s1, Destroy(i)));
    }
  }

  /** A run in which the newer registration of id 7 loses its entry to the destruction of the older one. */
  lemma SharedIdLosesResponse()
    ensures var s := Run(INITIAL, [Register(7), Register(7), Destroy(0)]);
            Waiting(s, 1) && !HasEntry(s, 1)
  {
  }

  // ---- What a waiting channel gets ----

  lemma {:induction false} RunInTwo(s: State, a: seq<Event>, b: seq<Event>)
    ensures Run(s, a + b) == Run(Run(s, a), b)
    decreases |a|
  {
    if a == [] {
      assert a + b == b;
    } else {
      assert (a + b)[1..] == a[1..] + b;
      RunInTwo(Step(s, a[0]), a[1..], b);
    }
  }

  /** The messages that arrive in a run. */
  function Delivered(events: seq<Event>): seq<Message> {
    if events == [] then []
    else (if events[0].Deliver? then [events[0].msg] else []) + Delivered(events[1..])
  }

  /** The first message with this id, or nothing. */
  function FirstOf(msgs: seq<Message>, id: byte): seq<Message> {
    if msgs == [] then [] else if msgs[0].transaction == id then [msgs[0]] else FirstOf(msgs[1..], id)
  }

  /** The event ends the wait on channel `c`: its registration is destroyed, or the session is shut down. */
  predicate EndsWait(s: State, e: Event, c: nat) {
    e.Shutdown? || (e.Destroy? && e.reg < |s.registrations| && Holds(s.registrations[e.reg], c))
  }

  /** What channel `c`, waiting for `id`, gets in a run: the first message with that id before its wait is ended. */
  function ReplyOf(s: State, events: seq<Event>, id: byte, c: nat): seq<Message>
    decreases |events|
  {
    if events == [] then []
    else if events[0].Deliver? && events[0].msg.transaction == id then [events[0].msg]
    else if EndsWait(s, events[0], c) then []
    else ReplyOf(Step(s, events[0]), events[1..], id, c)
  }

  /** No event of the run ends the wait on channel `c`. */
  ghost predicate WaitsOn(s: State, events: seq<Event>, c: nat)
    decreases |events|
  {
    events == [] || (!EndsWait(s, events[0], c) && WaitsOn(Step(s, events[0]), events[1..], c))
  }

  ghost predicate Unmapped(s: State, c: nat) {
    c < |s.channels| && forall id :: id in s.dispatchMap ==> s.dispatchMap[id] != c
  }

  lemma UnmappedGetsNothing(s: State, e: Event, c: nat)
    requires Inv(s) && Unmapped(s, c)
    ensures Unmapped(Step(s, e), c) && Step(s, e).channels[c].sent == s.channels[c].sent
  {
    if e.Deliver? && e.msg.transaction in s.dispatchMap {
      assert EntryOk(s, e.msg.transaction);
    }
  }

  /** A channel without an entry is left alone for good. */
  lemma {:induction false} UnmappedStays(s: State, events: seq<Event>, c: nat)
    requires Inv(s) && Unmapped(s, c)
    ensures Unmapped(Run(s, events), c) && Run(s, events).channels[c].sent == s.channels[c].sent
    decreases |events|
  {
    if events != [] {
      StepKeepsInv(s, events[0]);
      UnmappedGetsNothing(s, events[0], c);
      UnmappedStays(Step(s, events[0]), events[1..], c);
    }
  }

  lemma WaitGoesOn(s: State, e: Event, id: byte)
    requires Inv(s) && id in s.dispatchMap && !EndsWait(s, e, s.dispatchMap[id])
    requires !(e.Deliver? && e.msg.transaction == id)
    ensures id in Step(s, e).dispatchMap && Step(s, e).dispatchMap[id] == s.dispatchMap[id]
  {
    if e.Destroy? && e.reg < |s.registrations| {
      DestroySparesOthers(s, e.reg, id);
    }
  }

  /** When the message arrives or the wait is ended, the channel loses its entry, with the message or with nothing. */
  lemma WaitIsOver(s: State, e: Event, id: byte)
    requires Inv(s) && id in s.dispatchMap
    requires (e.Deliver? && e.msg.transaction == id) || EndsWait(s, e, s.dispatchMap[id])
    ensures Unmapped(Step(s, e), s.dispatchMap[id])
    ensures Step(s, e).channels[s.dispatchMap[id]].sent == if e.Deliver? then [e.msg] else []
  {
    assert EntryOk(s, id);
    forall other | other in Step(s, e).dispatchMap ensures Step(s, e).dispatchMap[other] != s.dispatchMap[id] {
      ChannelsAreNotShared(s, id, other);
      if e.Destroy? {
        DestroySparesOthers(s, e.reg, other);
      }
    }
  }

  /** Whatever happens to the session: the channel of a waiting id gets exactly the first message with its id that
      arrives before its registration is destroyed or the session is shut down, and nothing if there is none. */
  lemma {:induction false} FirstReplyArrives(s: State, events: seq<Event>, id: byte)
    requires Inv(s) && id in s.dispatchMap
    ensures var c := s.dispatchMap[id];
            && c < |Run(s, events).channels|
            && Run(s, events).channels[c].sent == ReplyOf(s, events, id, c)
    decreases |events|
  {
    var c := s.dispatchMap[id];
    assert EntryOk(s, id);
    if events != [] {
      var e := events[0];
      StepKeepsInv(s, e);
      if (e.Deliver? && e.msg.transaction == id) || EndsWait(s, e, c) {
        WaitIsOver(s, e, id);
        UnmappedStays(Step(s, e), events[1..], c);
      } else {
        WaitGoesOn(s, e, id);
        FirstReplyArrives(Step(s, e), events[1..], id);
      }
    }
  }

  /** While the wait is not ended, that is the first message with the id of all that arrive. */
  lemma {:induction false} ReplyWhileWaiting(s: State, events: seq<Event>, id: byte, c: nat)
    requires WaitsOn(s, events, c)
    ensures ReplyOf(s, events, id, c) == FirstOf(Delivered(events), id)
    decreases |events|
  {
    if events != [] {
      ReplyWhileWaiting(Step(s, events[0]), events[1..], id, c);
      assert Delivered(events)[|Delivered(events)| - |Delivered(events[1..])|..] == Delivered(events[1..]);
    }
  }

  /** Whoever registers waits, and has an entry, at least until the next event. */
  lemma RegisterGivesEntry(s: State, id: byte)
    requires Inv(s)
    ensures var s' := Step(s, Register(id));
            |s'.registrations| == |s.registrations| + 1 && Waiting(s', |s.registrations|) && HasEntry(s', |s.registrations|)
  {
    if id in s.dispatchMap {
      assert EntryOk(s, id);
    }
  }

  /** The write queue is open until the first shutdown and closed from then on. */
  lemma {:induction false} QueueClosesOnShutdown(s: State, events: seq<Event>)
    ensures Run(s, events).writeQueueOpen <==> s.writeQueueOpen && Shutdown !in events
    decreases |events|
  {
    if events != [] {
      QueueClosesOnShutdown(Step(s, events[0]), events[1..]);
      assert events == [events[0]] + events[1..];
    }
  }

  /** The channel was sent its message, and it has been taken out. */
  predicate IsTaken(s: State, c: nat) {
    c < |s.channels| && s.channels[c].sent != [] && s.channels[c].buffer == []
  }

  lemma StepKeepsTaken(s: State, e: Event, c: nat)
    requires Inv(s) && IsTaken(s, c)
    ensures IsTaken(Step(s, e), c) && Step(s, e).channels[c].sent == s.channels[c].sent
  {
    if e.Deliver? && e.msg.transaction in s.dispatchMap {
      assert EntryOk(s, e.msg.transaction);
    }
  }

  lemma {:induction false} TakenForGood(s: State, events: seq<Event>, c: nat)
    requires Inv(s) && IsTaken(s, c)
    ensures IsTaken(Run(s, events), c) && Run(s, events).channels[c].sent == s.channels[c].sent
    decreases |events|
  {
    if events != [] {
      StepKeepsInv(s, events[0]);
      StepKeepsTaken(s, events[0], c);
      TakenForGood(Step(s, events[0]), events[1..], c);
    }
  }

  /** A message is received once: it is the one that was sent, and afterwards the channel is empty for good. */
  lemma ReceivedOnce(s: State, events: seq<Event>, c: nat)
    requires Inv(s) && c < |s.channels| && s.channels[c].buffer != []
    ensures s.channels[c].buffer == s.channels[c].sent
    ensures var s' := Run(Step(s, Receive(c)), events);
            && c < |s'.channels|
            && s'.channels[c].buffer == [] && s'.channels[c].sent == s.channels[c].sent
  {
    assert ChannelOk(s.channels[c]);
    StepKeepsInv(s, Receive(c));
    TakenForGood(Step(s, Receive(c)), events, c);
  }

  lemma {:induction false} DeliveredAppend(a: seq<Event>, b: seq<Event>)
    ensures Delivered(a + b) == Delivered(a) + Delivered(b)
    decreases |a|
  {
    if a == [] {
      assert a + b == b;
    } else {
      assert (a + b)[1..] == a[1..] + b;
      DeliveredAppend(a[1..], b);
    }
  }

  function Deliveries(msgs: seq<Message>): seq<Event> {
    seq(|msgs|, i requires 0 <= i < |msgs| => Deliver(msgs[i]))
  }

  lemma {:induction false} DeliveredOfDeliveries(msgs: seq<Message>)
    ensures Delivered(Deliveries(msgs)) == msgs
    decreases |msgs|
  {
    if msgs != [] {
      DeliveredOfDeliveries(msgs[1..]);
      assert Deliveries(msgs)[1..] == Deliveries(msgs[1..]);
    }
  }

  class PodProtocolSession {
    var dispatchMap: map<byte, nat>
    var channels: seq<Channel>
    var registrations: seq<Registration>
    var transactionIdCounter: byte
    var writeQueueOpen: bool
    var failedSends: nat

    ghost function View(): State reads this {
      State(dispatchMap, channels, registrations, transactionIdCounter, writeQueueOpen, failedSends)
    }

    ghost predicate Valid() reads this {
      Inv(View())
    }

    constructor ()
      ensures Valid() && View() == INITIAL
    {
      dispatchMap, channels, registrations := map[], [], [];
      transactionIdCounter, writeQueueOpen, failedSends := 0, true, 0;
    }

    method GenerateNewTransactionId() returns (id: byte)
      requires Valid()
      modifies this
      ensures Valid() && View() == Step(old(View()), Generate) && id == transactionIdCounter
    {
      StepKeepsInv(View(), Generate);
      transactionIdCounter := if transactionIdCounter == 255 then 0 else transactionIdCounter + 1;
      id := transactionIdCounter;
    }

    method RegisterResponse(id: byte) returns (reg: nat)
      requires Valid()
      modifies this
      ensures Valid() && View() == Step(old(View()), Register(id)) && reg == |old(registrations)|
    {
      StepKeepsInv(View(), Register(id));
      if id !in dispatchMap {
        dispatchMap := dispatchMap[id := |channels|];
        channels := channels + [Channel(id, true, [], [])];
      }
      reg := |registrations|;
      registrations := registrations + [Registration(true, id, dispatchMap[id])];
    }

    method MoveRegistration(other: nat) returns (reg: nat)
      requires Valid() && other < |registrations|
      modifies this
      ensures Valid() && View() == Step(old(View()), Move(other)) && reg == |old(registrations)|
    {
      StepKeepsInv(View(), Move(other));
      reg := |registrations|;
      var taken := registrations[other];
      registrations := registrations[other := taken.(attached := false)] + [taken];
    }

    method DestroyRegistration(reg: nat)
      requires Valid() && reg < |registrations|
      modifies this
      ensures Valid() && View() == Step(old(View()), Destroy(reg))
    {
      StepKeepsInv(View(), Destroy(reg));
      var r := registrations[reg];
      if !r.attached {
        return;
      }
      if r.id in dispatchMap && dispatchMap[r.id] == r.channel {
        dispatchMap := dispatchMap - {r.id};
      }
      registrations := registrations[reg := r.(attached := false)];
    }

    /** Hands a parsed message to whoever waits for its transaction id; otherwise it is discarded. */
    method DispatchMessage(msg: Message) returns (handled: bool)
      requires msg.transaction in dispatchMap ==> dispatchMap[msg.transaction] < |channels|
      modifies this
      ensures View() == Step(old(View()), Deliver(msg))
      ensures handled <==> msg.transaction in old(dispatchMap)
      ensures old(Valid()) ==> Valid()
      ensures old(Valid()) && handled ==> channels[old(dispatchMap)[msg.transaction]].buffer == [msg]
    {
      ghost var before := View();
      if msg.transaction !in dispatchMap {
        return false;
      }
      var c := dispatchMap[msg.transaction];
      dispatchMap := dispatchMap - {msg.transaction};
      if channels[c].CanSend() {
        channels := channels[c := Send(channels[c], msg)];
      } else {
        failedSends := failedSends + 1;
      }
      if Inv(before) {
        StepKeepsInv(before, Deliver(msg));
        assert EntryOk(before, msg.transaction);
      }
      return true;
    }

    /** Any event of the session, as other coroutines cause it. */
    method Handle(e: Event)
      requires Valid()
      modifies this
      ensures Valid() && View() == Step(old(View()), e)
    {
      match e
      case Generate => var _ := GenerateNewTransactionId();
      case Register(id) => var _ := RegisterResponse(id);
      case Move(reg) => if reg < |registrations| { var _ := MoveRegistration(reg); }
      case Destroy(reg) => if reg < |registrations| { DestroyRegistration(reg); }
      case Deliver(msg) => var _ := DispatchMessage(msg);
      case Receive(c) => if c < |channels| { var _ := ReceiveFrom(c); }
      case Shutdown => ShutdownChannels();
    }

    method HandleAll(events: seq<Event>)
      requires Valid()
      modifies this
      ensures Valid() && View() == Run(old(View()), events)
    {
      for i := 0 to |events|
        invariant Valid() && Run(View(), events[i..]) == Run(old(View()), events)
      {
        assert events[i..][0] == events[i] && events[i..][1..] == events[i + 1..];
        Handle(events[i]);
      }
    }

    method ReceiveFrom(c: nat) returns (msg: seq<Message>)
      requires Valid() && c < |channels|
      modifies this
      ensures Valid() && View() == Step(old(View()), Receive(c))
      ensures msg == old(channels)[c].buffer && |msg| <= 1 && channels[c].buffer == []
      ensures forall m <- msg :: m.transaction == channels[c].id
    {
      StepKeepsInv(View(), Receive(c));
      assert ChannelOk(channels[c]);
      msg := channels[c].buffer;
      if msg != [] {
        channels := channels[c := channels[c].(buffer := msg[1..])];
      }
    }

    method ShutdownChannels()
      requires Valid()
      modifies this
      ensures Valid() && View() == Step(old(View()), Shutdown) && !writeQueueOpen && dispatchMap == map[]
    {
      StepKeepsInv(View(), Shutdown);
      forall id | id in dispatchMap ensures dispatchMap[id] < |channels| {
        assert EntryOk(View(), id);
      }
      writeQueueOpen := false;
      CloseMapped();
      dispatchMap := map[];
    }

    /** Closes every channel that the map holds. */
    method CloseMapped()
      requires forall id | id in dispatchMap :: dispatchMap[id] < |channels|
      modifies `channels
      ensures channels == CloseAll(old(channels), dispatchMap.Values)
    {
      var todo := dispatchMap.Keys;
      ghost var before := channels;
      while todo != {}
        invariant todo <= dispatchMap.Keys && PartlyClosed(before, channels, dispatchMap, todo)
        decreases |todo|
      {
        var id :| id in todo;
        CloseOneMore(before, channels, dispatchMap, todo, id);
        channels := channels[dispatchMap[id] := Closed(channels[dispatchMap[id]])];
        todo := todo - {id};
      }
      AllClosed(before, channels, dispatchMap);
    }
  }

  /** Some id that is no longer to be done has channel `c`. */
  ghost predicate IsDone(m: map<byte, nat>, todo: set<byte>, c: nat) {
    exists id :: id in m && id !in todo && m[id] == c
  }

  ghost predicate PartlyClosed(before: seq<Channel>, now: seq<Channel>, m: map<byte, nat>, todo: set<byte>) {
    && |now| == |before|
    && forall c | 0 <= c < |now| :: now[c] == if IsDone(m, todo, c) then Closed(before[c]) else before[c]
  }

  lemma CloseOneMore(before: seq<Channel>, now: seq<Channel>, m: map<byte, nat>, todo: set<byte>, id: byte)
    requires PartlyClosed(before, now, m, todo) && id in todo && id in m && m[id] < |now|
    ensures PartlyClosed(before, now[m[id] := Closed(now[m[id]])], m, todo - {id})
  {
    forall c: nat ensures IsDone(m, todo - {id}, c) <==> IsDone(m, todo, c) || c == m[id] {
      assert id in m && id !in todo - {id};
      if IsDone(m, todo, c) {
        var other :| other in m && other !in todo && m[other] == c;
        assert other !in todo - {id};
      }
    }
  }

  lemma AllClosed(before: seq<Channel>, now: seq<Channel>, m: map<byte, nat>)
    requires PartlyClosed(before, now, m, {})
    ensures now == CloseAll(before, m.Values)
  {
    forall c | 0 <= c < |now| ensures IsDone(m, {}, c) <==> c in m.Values {
    }
  }
}
