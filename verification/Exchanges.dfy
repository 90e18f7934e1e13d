/** Request/response exchanges over a session: a generated id, one registration at a time, and an end. */
module Exchanges {
  import opened Options
  import opened Frames
  import opened Dispatch

  const IDS := 256

  /** `generated` counts the ids handed out. `live` names each running exchange by its serial number and holds the
      registration it currently waits on. */
  datatype Exchanging = Exchanging(session: State, generated: nat, live: map<nat, Option<nat>>)

  const START := Exchanging(INITIAL, 0, map[])

  datatype Action =
    | Begin
    | Listen(k: nat)
    | Hand(k: nat)
    | Drop(k: nat)
    | End(k: nat)
    | Arrive(msg: Message)
    | Take(channel: nat)
    | Stop

  function Release(x: Exchanging, k: nat): Exchanging
    requires k in x.live
  {
    match x.live[k]
    case None => x
    case Some(r) => x.(session := Step(x.session, Destroy(r)), live := x.live[k := None])
  }

  /** An exchange registers its id when it waits on none, may move its registration along, drops it when the wait
      is over, and ends. Anything else leaves the state as it is. */
  function Act(x: Exchanging, a: Action): Exchanging {
    match a
    case Begin =>
      Exchanging(Step(x.session, Generate), x.generated + 1, x.live[x.generated + 1 := None])
    case Listen(k) =>
      if k !in x.live || x.live[k].Some? then x
      else x.(session := Step(x.session, Register(k % IDS)), live := x.live[k := Some(|x.session.registrations|)])
    case Hand(k) =>
      if k !in x.live || x.live[k].None? || x.live[k].value >= |x.session.registrations| then x
      else x.(session := Step(x.session, Move(x.live[k].value)), live := x.live[k := Some(|x.session.registrations|)])
    case Drop(k) => if k !in x.live then x else Release(x, k)
    case End(k) => if k !in x.live then x else Release(x, k).(live := Release(x, k).live - {k})
    case Arrive(m) => x.(session := Step(x.session, Deliver(m)))
    case Take(c) => x.(session := Step(x.session, Receive(c)))
    case Stop => x.(session := Step(x.session, Shutdown))
  }

  function ActAll(x: Exchanging, actions: seq<Action>): Exchanging
    decreases |actions|
  {
    if actions == [] then x else ActAll(Act(x, actions[0]), actions[1..])
  }

  /** No running exchange has outlived 255 ids generated after its own. */
  ghost predicate InWindow(x: Exchanging) {
    forall k <- x.live :: x.generated - k < IDS
  }

  ghost predicate WindowKept(x: Exchanging, actions: seq<Action>)
    decreases |actions|
  {
    InWindow(x) && (actions == [] || WindowKept(Act(x, actions[0]), actions[1..]))
  }

  ghost predicate LiveOk(x: Exchanging, k: nat)
    requires k in x.live
  {
    && 0 < k <= x.generated
    && match x.live[k]
       case None => true
       case Some(r) =>
         && r < |x.session.registrations|
         && x.session.registrations[r].attached
         && x.session.registrations[r].id == k % IDS
  }

  /** Every attached registration is the current one of a running exchange. */
  ghost predicate Owned(x: Exchanging, r: nat) {
    exists k: nat :: k in x.live && x.live[k] == Some(r)
  }

  ghost predicate ExchangeInv(x: Exchanging) {
    && Inv(x.session) && Exact(x.session)
    && x.session.counter == x.generated % IDS
    && (forall k: nat :: k in x.live ==> LiveOk(x, k))
    && (forall r: nat :: r < |x.session.registrations| && x.session.registrations[r].attached ==> Owned(x, r))
  }

  /** Ids of running exchanges are pairwise distinct. */
  lemma LiveIdsAreDistinct(x: Exchanging, k: nat, other: nat)
    requires ExchangeInv(x) && InWindow(x) && k in x.live && other in x.live
    ensures k % IDS == other % IDS ==> k == other
  {
  }

  /** An exchange that waits on nothing finds its id free. */
  lemma ListenIsFresh(x: Exchanging, k: nat)
    requires ExchangeInv(x) && InWindow(x) && k in x.live && x.live[k].None?
    ensures IsFresh(x.session, Register(k % IDS))
  {
    var id := k % IDS;
    if id in x.session.dispatchMap {
      assert EntryOk(x.session, id);
      var c := x.session.dispatchMap[id];
      var r: nat :| r < |x.session.registrations| && Holds(x.session.registrations[r], c);
      assert RegistrationOk(x.session, x.session.registrations[r]);
      assert Owned(x, r);
      var other: nat :| other in x.live && x.live[other] == Some(r);
      assert LiveOk(x, other);
      LiveIdsAreDistinct(x, k, other);
      assert false;
    }
  }

  /** The session event that an action causes, if it causes one. */
  function Cause(x: Exchanging, a: Action): Option<Event> {
    match a
    case Begin => Some(Generate)
    case Listen(k) => if k !in x.live || x.live[k].Some? then None else Some(Register(k % IDS))
    case Hand(k) =>
      if k !in x.live || x.live[k].None? || x.live[k].value >= |x.session.registrations| then None
      else Some(Move(x.live[k].value))
    case Drop(k) => if k !in x.live || x.live[k].None? then None else Some(Destroy(x.live[k].value))
    case End(k) => if k !in x.live || x.live[k].None? then None else Some(Destroy(x.live[k].value))
    case Arrive(m) => Some(Deliver(m))
    case Take(c) => Some(Receive(c))
    case Stop => Some(Shutdown)
  }

  lemma ActKeepsSession(x: Exchanging, a: Action)
    requires ExchangeInv(x) && InWindow(x)
    ensures Inv(Act(x, a).session) && Exact(Act(x, a).session)
  {
    var e := Cause(x, a);
    assert Act(x, a).session == if e.None? then x.session else Step(x.session, e.value);
    if e.Some? {
      if a.Listen? {
        ListenIsFresh(x, a.k);
      }
      StepKeepsInv(x.session, e.value);
      StepKeepsExact(x.session, e.value);
    }
  }

  /** Two running exchanges never wait on the same registration. */
  lemma OneOwner(x: Exchanging, k: nat, other: nat)
    requires ExchangeInv(x) && InWindow(x) && k in x.live && other in x.live && k != other
    requires x.live[k].Some?
    ensures x.live[k] != x.live[other]
  {
    assert LiveOk(x, k) && LiveOk(x, other);
    LiveIdsAreDistinct(x, k, other);
  }

  /** Actions that do not touch any registration. */
  predicate IsQuiet(a: Action) {
    a.Begin? || a.Arrive? || a.Take? || a.Stop?
  }

  lemma QuietKeepsRegistrations(x: Exchanging, a: Action)
    requires IsQuiet(a)
    ensures Act(x, a).session.registrations == x.session.registrations
    ensures x.generated <= Act(x, a).generated <= x.generated + 1
    ensures Act(x, a).live == if a.Begin? then x.live[x.generated + 1 := None] else x.live
    ensures a.Begin? ==> Act(x, a).generated == x.generated + 1
  {
  }

  lemma ListenRegisters(x: Exchanging, k: nat)
    requires ExchangeInv(x) && k in x.live && x.live[k].None?
    ensures var x', r := Act(x, Listen(k)), |x.session.registrations|;
            && x'.generated == x.generated && x'.live == x.live[k := Some(r)]
            && |x'.session.registrations| == r + 1 && x'.session.registrations[..r] == x.session.registrations
            && x'.session.registrations[r].attached && x'.session.registrations[r].id == k % IDS
  {
  }

  lemma HandMoves(x: Exchanging, k: nat, r: nat)
    requires k in x.live && x.live[k] == Some(r) && r < |x.session.registrations|
    ensures var x', regs := Act(x, Hand(k)), x.session.registrations;
            && x'.generated == x.generated && x'.live == x.live[k := Some(|regs|)]
            && x'.session.registrations == regs[r := regs[r].(attached := false)] + [regs[r]]
  {
  }

  lemma ReleaseDetaches(x: Exchanging, k: nat, r: nat)
    requires k in x.live && x.live[k] == Some(r) && r < |x.session.registrations| && x.session.registrations[r].attached
    ensures var x', regs := Release(x, k), x.session.registrations;
            && x'.generated == x.generated && x'.live == x.live[k := None]
            && x'.session.registrations == regs[r := regs[r].(attached := false)]
  {
  }

  /** The parts of the invariant about registrations, on their own. */
  ghost predicate Bound(x: Exchanging) {
    && (forall k: nat :: k in x.live ==> LiveOk(x, k))
    && (forall r: nat :: r < |x.session.registrations| && x.session.registrations[r].attached ==> Owned(x, r))
  }

  lemma QuietKeepsBound(x: Exchanging, a: Action)
    requires ExchangeInv(x) && IsQuiet(a)
    ensures Bound(Act(x, a))
  {
    var x' := Act(x, a);
    QuietKeepsRegistrations(x, a);
    forall k: nat | k in x'.live ensures LiveOk(x', k) {
      assert k in x.live ==> LiveOk(x, k);
    }
    forall r: nat | r < |x'.session.registrations| && x'.session.registrations[r].attached ensures Owned(x', r) {
      assert Owned(x, r);
      var k: nat :| k in x.live && x.live[k] == Some(r);
      assert LiveOk(x, k) && x'.live[k] == Some(r);
    }
  }

  lemma ListenKeepsBound(x: Exchanging, k: nat)
    requires ExchangeInv(x) && k in x.live && x.live[k].None?
    ensures Bound(Act(x, Listen(k)))
  {
    var x', n := Act(x, Listen(k)), |x.session.registrations|;
    ListenRegisters(x, k);
    forall j: nat | j in x'.live ensures LiveOk(x', j) {
      assert LiveOk(x, j);
      assert forall r: nat :: r < n ==> x'.session.registrations[..n][r] == x'.session.registrations[r];
    }
    forall r: nat | r < |x'.session.registrations| && x'.session.registrations[r].attached ensures Owned(x', r) {
      if r == n {
        assert x'.live[k] == Some(r);
      } else {
        assert x'.session.registrations[..n][r] == x.session.registrations[r];
        assert Owned(x, r);
        var j: nat :| j in x.live && x.live[j] == Some(r);
        assert x'.live[j] == Some(r);
      }
    }
  }

  lemma HandKeepsBound(x: Exchanging, k: nat, r: nat)
    requires ExchangeInv(x) && InWindow(x) && k in x.live && x.live[k] == Some(r)
    ensures Bound(Act(x, Hand(k)))
  {
    var x', n := Act(x, Hand(k)), |x.session.registrations|;
    assert LiveOk(x, k);
    HandMoves(x, k, r);
    forall j: nat | j in x'.live ensures LiveOk(x', j) {
      assert LiveOk(x, j);
      if j != k {
        OneOwner(x, k, j);
      }
    }
    forall i: nat | i < |x'.session.registrations| && x'.session.registrations[i].attached ensures Owned(x', i) {
      if i == n {
        assert x'.live[k] == Some(i);
      } else {
        assert Owned(x, i);
        var j: nat :| j in x.live && x.live[j] == Some(i);
        assert x'.live[j] == Some(i);
      }
    }
  }

  lemma ReleaseKeepsBound(x: Exchanging, k: nat)
    requires ExchangeInv(x) && InWindow(x) && k in x.live
    ensures Bound(Release(x, k)) && k in Release(x, k).live && Release(x, k).live[k].None?
  {
    var x' := Release(x, k);
    assert LiveOk(x, k);
    if x.live[k].Some? {
      var r := x.live[k].value;
      ReleaseDetaches(x, k, r);
      forall j: nat | j in x'.live ensures LiveOk(x', j) {
        assert LiveOk(x, j);
        if j != k {
          OneOwner(x, k, j);
        }
      }
      forall i: nat | i < |x'.session.registrations| && x'.session.registrations[i].attached ensures Owned(x', i) {
        assert Owned(x, i);
        var j: nat :| j in x.live && x.live[j] == Some(i);
        assert x'.live[j] == Some(i);
      }
    }
  }

  lemma EndKeepsBound(x: Exchanging, k: nat)
    requires Bound(x) && k in x.live && x.live[k].None?
    ensures Bound(x.(live := x.live - {k}))
  {
    var x' := x.(live := x.live - {k});
    forall j: nat | j in x'.live ensures LiveOk(x', j) {
      assert LiveOk(x, j);
    }
    forall i: nat | i < |x'.session.registrations| && x'.session.registrations[i].attached ensures Owned(x', i) {
      assert Owned(x, i);
      var j: nat :| j in x.live && x.live[j] == Some(i);
      assert x'.live[j] == Some(i);
    }
  }

  lemma ActKeepsBound(x: Exchanging, a: Action)
    requires ExchangeInv(x) && InWindow(x)
    ensures Bound(Act(x, a))
  {
    match a
    case Listen(k) => if k in x.live && x.live[k].None? { ListenKeepsBound(x, k); }
    case Hand(k) => if k in x.live && x.live[k].Some? { HandKeepsBound(x, k, x.live[k].value); }
    case Drop(k) => if k in x.live { ReleaseKeepsBound(x, k); }
    case End(k) =>
      if k in x.live {
        ReleaseKeepsBound(x, k);
        EndKeepsBound(Release(x, k), k);
      }
    case _ => QuietKeepsBound(x, a);
  }

  lemma OnlyBeginCounts(x: Exchanging, a: Action)
    requires !a.Begin?
    ensures Act(x, a).session.counter == x.session.counter && Act(x, a).generated == x.generated
  {
  }

  lemma NextCounter(counter: byte, generated: nat)
    requires counter == generated % IDS
    ensures (counter + 1) % IDS == (generated + 1) % IDS
  {
  }

  lemma ActKeepsCounter(x: Exchanging, a: Action)
    requires x.session.counter == x.generated % IDS
    ensures Act(x, a).session.counter == Act(x, a).generated % IDS
  {
    if a.Begin? {
      NextCounter(x.session.counter, x.generated);
    } else {
      OnlyBeginCounts(x, a);
    }
  }

  lemma ActKeepsInv(x: Exchanging, a: Action)
    requires ExchangeInv(x) && InWindow(x)
    ensures ExchangeInv(Act(x, a))
  {
    ActKeepsSession(x, a);
    ActKeepsBound(x, a);
    ActKeepsCounter(x, a);
  }

  lemma {:induction false} ActAllKeepsInv(x: Exchanging, actions: seq<Action>)
    requires ExchangeInv(x) && WindowKept(x, actions)
    ensures ExchangeInv(ActAll(x, actions)) && InWindow(ActAll(x, actions))
    decreases |actions|
  {
    if actions != [] {
      ActKeepsInv(x, actions[0]);
      ActAllKeepsInv(Act(x, actions[0]), actions[1..]);
    }
  }

  /** If no exchange outlives 255 further generated ids, then in every reachable state the ids of running exchanges
      are pairwise distinct; each registration that still waits for its message has an entry of its own, and nobody else
      has one; and an exchange that waits on nothing finds its id free. */
  lemma PendingIdsAreDistinct(actions: seq<Action>)
    requires WindowKept(START, actions)
    ensures var x := ActAll(START, actions);
            && Exact(x.session)
            && (forall k: nat, other: nat :: k in x.live && other in x.live && k % IDS == other % IDS ==> k == other)
            && (forall id: byte :: id in x.session.dispatchMap
                  <==> exists i: nat :: Waiting(x.session, i) && x.session.registrations[i].id == id)
            && (forall k: nat :: k in x.live && x.live[k].None? ==> k % IDS !in x.session.dispatchMap)
  {
    assert ExchangeInv(START);
    ActAllKeepsInv(START, actions);
    var x := ActAll(START, actions);
    forall k: nat, other: nat | k in x.live && other in x.live && k % IDS == other % IDS ensures k == other {
      LiveIdsAreDistinct(x, k, other);
    }
    forall id: byte
      ensures id in x.session.dispatchMap
              <==> exists i: nat :: Waiting(x.session, i) && x.session.registrations[i].id == id
    {
      EntryIffWaiting(x.session, id);
    }
    forall k: nat | k in x.live && x.live[k].None? ensures k % IDS !in x.session.dispatchMap {
      ListenIsFresh(x, k);
      assert IsFresh(x.session, Register(k % IDS));
    }
  }

  /** What follows when exchange `k` is overlapped by one more exchange and is then over. */
  function Overlapped(x: Exchanging, k: nat): Exchanging {
    Act(Act(Act(x, Begin), Listen(x.generated + 1)), Drop(k))
  }

  lemma OverlapSession(x: Exchanging, k: nat, r: nat)
    requires k in x.live && x.live[k] == Some(r) && x.generated + 1 !in x.live
    ensures Overlapped(x, k).session
            == Step(Step(Step(x.session, Generate), Register((x.generated + 1) % IDS)), Destroy(r))
    ensures x.generated + 1 in Overlapped(x, k).live
    ensures Overlapped(x, k).live[x.generated + 1] == Some(|x.session.registrations|)
  {
  }

  lemma GenerateKeepsWaiting(s: State, r: nat)
    requires Inv(s) && Waiting(s, r) && HasEntry(s, r)
    ensures var s1 := Step(s, Generate); Inv(s1) && Waiting(s1, r) && HasEntry(s1, r)
  {
  }

  /** The bound is tight: when exchange `k` still waits while the 256th id after its own is generated, the new exchange
      shares the entry, and waits without any as soon as `k` is over. */
  lemma WindowIsTight(x: Exchanging, k: nat)
    requires ExchangeInv(x) && k in x.live && x.live[k].Some? && Waiting(x.session, x.live[k].value)
    requires x.generated + 1 - k == IDS
    ensures var y := Overlapped(x, k);
            && x.generated + 1 in y.live && y.live[x.generated + 1] == Some(|x.session.registrations|)
            && Waiting(y.session, |x.session.registrations|) && !HasEntry(y.session, |x.session.registrations|)
  {
    var newest := x.generated + 1;
    var r := x.live[k].value;
    assert LiveOk(x, k) && HasEntry(x.session, r);
    assert newest !in x.live;
    assert newest % IDS == k % IDS;
    OverlapSession(x, k, r);
    GenerateKeepsWaiting(x.session, r);
    SharingLosesEntry(Step(x.session, Generate), k % IDS, r);
  }

  /** The next id to be generated is that of exchange `k`, which still waits. */
  predicate BlocksNext(x: Exchanging, k: nat) {
    k in x.live && x.generated + 1 - k == IDS && x.live[k].Some? && Waiting(x.session, x.live[k].value)
  }

  lemma SameIdIsOneWindowApart(n: int, k: int)
    requires n % IDS == k % IDS && 0 < n - k <= IDS
    ensures n - k == IDS
  {
  }

  /** The next exchange finds its id free unless an exchange blocks it. */
  lemma NextIsFresh(x: Exchanging)
    requires ExchangeInv(x) && InWindow(x) && (x.generated + 1) % IDS in x.session.dispatchMap
    ensures exists k: nat :: BlocksNext(x, k)
  {
    var id := (x.generated + 1) % IDS;
    assert EntryOk(x.session, id);
    var r: nat :| r < |x.session.registrations| && Holds(x.session.registrations[r], x.session.dispatchMap[id]);
    assert RegistrationOk(x.session, x.session.registrations[r]) && Owned(x, r);
    var k: nat :| k in x.live && x.live[k] == Some(r);
    assert LiveOk(x, k);
    SameIdIsOneWindowApart(x.generated + 1, k);
    assert BlocksNext(x, k);
  }

  lemma OverlapKeepsEntries(x: Exchanging, k: nat)
    requires ExchangeInv(x) && InWindow(x) && (x.generated + 1) % IDS !in x.session.dispatchMap
    ensures EachHasEntry(Overlapped(x, k).session)
  {
    var s0, s1 := x.session, Step(x.session, Generate);
    var s2 := Step(s1, Register((x.generated + 1) % IDS));
    StepKeepsInv(s0, Generate);
    StepKeepsExact(s0, Generate);
    StepKeepsInv(s1, Register((x.generated + 1) % IDS));
    StepKeepsExact(s1, Register((x.generated + 1) % IDS));
    var x2 := Act(Act(x, Begin), Listen(x.generated + 1));
    assert x2.session == s2;
    if k in x2.live && x2.live[k].Some? {
      StepKeepsExact(s2, Destroy(x2.live[k].value));
    }
  }

  /** The next exchange overlaps safely with all others, whichever of them is over first, if and only if no exchange that
      still waits is exactly 256 ids older. */
  lemma OverlapIsSafeExactly(x: Exchanging)
    requires ExchangeInv(x) && InWindow(x)
    ensures (forall k: nat :: EachHasEntry(Overlapped(x, k).session)) <==> !(exists k: nat :: BlocksNext(x, k))
  {
    if (x.generated + 1) % IDS in x.session.dispatchMap {
      NextIsFresh(x);
    } else {
      forall k: nat ensures EachHasEntry(Overlapped(x, k).session) {
        OverlapKeepsEntries(x, k);
      }
    }
    if k: nat :| BlocksNext(x, k) {
      WindowIsTight(x, k);
      assert !EachHasEntry(Overlapped(x, k).session);
    }
  }

  // ---- A run that gets there ----

  /** Exchange 1 waits while `n` others begin and end. */
  function Outlived(n: nat): seq<Action> {
    if n == 0 then [Begin, Listen(1)] else Outlived(n - 1) + [Begin, End(n + 1)]
  }

  /** Where that run leads. */
  function AfterOutlived(n: nat): Exchanging {
    Exchanging(State(map[1 := 0], [Channel(1, true, [], [])], [Registration(true, 1, 0)], (n + 1) % IDS, true, 0),
               n + 1, map[1 := Some(0)])
  }

  lemma {:induction false} ActAllAppend(x: Exchanging, a: seq<Action>, b: seq<Action>)
    ensures ActAll(x, a + b) == ActAll(ActAll(x, a), b)
    ensures WindowKept(x, a + b) <==> WindowKept(x, a) && WindowKept(ActAll(x, a), b)
    decreases |a|
  {
    if a == [] {
      assert a + b == b;
    } else {
      assert (a + b)[1..] == a[1..] + b;
      ActAllAppend(Act(x, a[0]), a[1..], b);
    }
  }

  lemma ActTwice(x: Exchanging, a: Action, b: Action)
    ensures ActAll(x, [a, b]) == Act(Act(x, a), b)
    ensures WindowKept(x, [a, b]) <==> InWindow(x) && InWindow(Act(x, a)) && InWindow(Act(Act(x, a), b))
  {
    assert [a, b][1..] == [b] && [b][1..] == [];
    assert ActAll(Act(x, a), [b]) == ActAll(Act(Act(x, a), b), []);
    assert WindowKept(Act(x, a), [b]) <==> InWindow(Act(x, a)) && WindowKept(Act(Act(x, a), b), []);
  }

  lemma OneMorePasses(n: nat)
    ensures Act(Act(AfterOutlived(n), Begin), End(n + 2)) == AfterOutlived(n + 1)
    ensures n + 1 < IDS ==> InWindow(AfterOutlived(n)) && InWindow(Act(AfterOutlived(n), Begin))
  {
    assert map[1 := Some(0), n + 2 := None] - {n + 2} == map[1 := Some(0 as nat)];
  }

  lemma FirstListens()
    ensures ActAll(START, [Begin, Listen(1)]) == AfterOutlived(0) && WindowKept(START, [Begin, Listen(1)])
  {
    ActTwice(START, Begin, Listen(1));
    assert Act(START, Begin) == Exchanging(State(map[], [], [], 1, true, 0), 1, map[1 := None]);
  }

  lemma {:induction false} OutlivedRuns(n: nat)
    requires n < IDS
    ensures ActAll(START, Outlived(n)) == AfterOutlived(n) && WindowKept(START, Outlived(n))
  {
    if n == 0 {
      FirstListens();
    } else {
      OutlivedRuns(n - 1);
      OneMorePasses(n - 1);
      ActAllAppend(START, Outlived(n - 1), [Begin, End(n + 1)]);
      ActTwice(AfterOutlived(n - 1), Begin, End(n + 1));
    }
  }

  /** From the start, with the window kept until exchange 1 has outlived 255 ids: one id more, and the 257th exchange
      waits without an entry once exchange 1 is over. */
  lemma WindowIsReached()
    ensures WindowKept(START, Outlived(IDS - 1))
    ensures var y := Overlapped(ActAll(START, Outlived(IDS - 1)), 1);
            257 in y.live && y.live[257] == Some(1) && Waiting(y.session, 1) && !HasEntry(y.session, 1)
  {
    OutlivedRuns(IDS - 1);
    assert ExchangeInv(START);
    ActAllKeepsInv(START, Outlived(IDS - 1));
    WindowIsTight(AfterOutlived(IDS - 1), 1);
  }
}
