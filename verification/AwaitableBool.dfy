/** A flag that can be waited on: set, reset, wait and stop, in any order, over a first-in first-out executor. */
module AwaitableBool {
  import opened Sequences

  datatype Outcome = Value | Stopped

  datatype Completion = Completion(op: nat, outcome: Outcome)

  /** Waits are named by numbers. `waiters` are queued at the flag, `posted` are the wake-ups queued at the executor,
      `woken` the waits whose `woken` mark is set, `stopRequested` those whose stop token was triggered. */
  datatype State = State(
    value: bool,
    waiters: seq<nat>,
    posted: seq<nat>,
    woken: set<nat>,
    started: set<nat>,
    stopRequested: set<nat>,
    completed: seq<Completion>)

  const INITIAL := State(false, [], [], {}, {}, {}, [])

  datatype Event = Assign(v: bool) | Start(op: nat) | RequestStop(op: nat) | RunPosted

  function Without(ops: seq<nat>, op: nat): seq<nat> {
    Filter(ops, Except(op))
  }

  function Complete(s: State, op: nat, outcome: Outcome): State {
    s.(completed := s.completed + [Completion(op, outcome)])
  }

  /** The stop callback of a wait is in place while it is queued at the flag or at the executor. */
  predicate HasStopCallback(s: State, op: nat) {
    op in s.waiters || op in s.posted
  }

  function Step(s: State, e: Event): State {
    match e
    case Assign(v) =>
      if v && !s.value
      then s.(value := true, waiters := [], posted := s.posted + s.waiters, woken := s.woken + set w | w in s.waiters)
      else s.(value := v)
    case Start(op) =>
      if op in s.started then s
      else
        var started := s.(started := s.started + {op});
        if s.value then Complete(started, op, Value)
        else if op in s.stopRequested then Complete(started, op, Stopped)
        else started.(waiters := s.waiters + [op])
    case RequestStop(op) =>
      var asked := s.(stopRequested := s.stopRequested + {op});
      if op in s.stopRequested || !HasStopCallback(s, op) || op in s.woken then asked
      else Complete(asked.(waiters := Without(s.waiters, op)), op, Stopped)
    case RunPosted =>
      if s.posted == [] then s else Complete(s.(posted := s.posted[1..]), s.posted[0], Value)
  }

  function Run(s: State, events: seq<Event>): State
    decreases |events|
  {
    if events == [] then s else Run(Step(s, events[0]), events[1..])
  }

  function Ops(completed: seq<Completion>): seq<nat> {
    seq(|completed|, i requires 0 <= i < |completed| => completed[i].op)
  }

  ghost function Occurrences(s: State, op: nat): nat {
    multiset(s.waiters)[op] + multiset(s.posted)[op] + multiset(Ops(s.completed))[op]
  }

  /** Every started wait is in exactly one place, once: queued at the flag, queued at the executor, or completed. */
  ghost predicate Conserved(s: State) {
    forall op :: Occurrences(s, op) == if op in s.started then 1 else 0
  }

  ghost predicate Inv(s: State) {
    && (s.value ==> s.waiters == [])
    && Conserved(s)
    && (forall op <- s.waiters :: op !in s.woken && op !in s.stopRequested)
    && (forall op <- s.posted :: op in s.woken)
    && s.woken <= s.started
    && (forall c <- s.completed :: c.outcome == Stopped ==> c.op !in s.woken && c.op in s.stopRequested)
  }

  lemma {:induction false} WithoutOne(s: seq<nat>, x: nat, y: nat)
    ensures multiset(Without(s, x))[y] == if y == x then 0 else multiset(s)[y]
    ensures y in Without(s, x) <==> y in s && y != x
    decreases |s|
  {
    if s != [] {
      WithoutOne(s[1..], x, y);
      assert Without(s, x) == (if s[0] != x then [s[0]] else []) + Without(s[1..], x);
      assert s == [s[0]] + s[1..];
    }
  }

  lemma CompleteOccurrences(s: State, op: nat, outcome: Outcome, y: nat)
    ensures Occurrences(Complete(s, op, outcome), y) == Occurrences(s, y) + if y == op then 1 else 0
  {
    assert Ops(s.completed + [Completion(op, outcome)]) == Ops(s.completed) + [op];
  }

  /** What is queued or completed was started. */
  lemma FoundWasStarted(s: State, op: nat)
    requires Conserved(s)
    ensures op in s.waiters || op in s.posted || op in Ops(s.completed) <==> op in s.started
  {
  }

  lemma AssignKeepsOccurrences(s: State, v: bool, y: nat)
    ensures Occurrences(Step(s, Assign(v)), y) == Occurrences(s, y)
  {
  }

  lemma StartOccurrences(s: State, op: nat, y: nat)
    requires op !in s.started
    ensures Occurrences(Step(s, Start(op)), y) == Occurrences(s, y) + if y == op then 1 else 0
  {
    var started := s.(started := s.started + {op});
    CompleteOccurrences(started, op, Value, y);
    CompleteOccurrences(started, op, Stopped, y);
  }

  lemma StopKeepsOccurrences(s: State, op: nat, y: nat)
    requires Inv(s)
    ensures Occurrences(Step(s, RequestStop(op)), y) == Occurrences(s, y)
  {
    var asked := s.(stopRequested := s.stopRequested + {op}, waiters := Without(s.waiters, op));
    WithoutOne(s.waiters, op, y);
    CompleteOccurrences(asked, op, Stopped, y);
    assert Occurrences(s, op) <= 1;
  }

  lemma RunPostedKeepsOccurrences(s: State, y: nat)
    ensures Occurrences(Step(s, RunPosted), y) == Occurrences(s, y)
  {
    if s.posted != [] {
      assert s.posted == [s.posted[0]] + s.posted[1..];
      CompleteOccurrences(s.(posted := s.posted[1..]), s.posted[0], Value, y);
    }
  }

  lemma StepKeepsOccurrences(s: State, e: Event, y: nat)
    requires Inv(s)
    ensures Occurrences(Step(s, e), y) == if y in Step(s, e).started then 1 else 0
  {
    assert Occurrences(s, y) == if y in s.started then 1 else 0;
    match e
    case Assign(v) => AssignKeepsOccurrences(s, v, y);
    case Start(op) => if op !in s.started { StartOccurrences(s, op, y); }
    case RequestStop(op) => StopKeepsOccurrences(s, op, y);
    case RunPosted => RunPostedKeepsOccurrences(s, y);
  }

  /** The part of the invariant about stopped waits. */
  lemma StepKeepsStopped(s: State, e: Event, c: Completion)
    requires Inv(s) && c in Step(s, e).completed && c.outcome == Stopped
    ensures c.op !in Step(s, e).woken && c.op in Step(s, e).stopRequested
  {
  }

  lemma CompletedIsNotQueued(s: State, c: Completion)
    requires Conserved(s) && c in s.completed
    ensures !HasStopCallback(s, c.op)
  {
    var i :| 0 <= i < |s.completed| && s.completed[i] == c;
    assert Ops(s.completed)[i] == c.op;
    assert Occurrences(s, c.op) <= 1;
  }

  lemma StepKeepsQueues(s: State, e: Event, op: nat)
    requires Inv(s)
    ensures op in Step(s, e).waiters ==> op !in Step(s, e).woken && op !in Step(s, e).stopRequested
    ensures op in Step(s, e).posted ==> op in Step(s, e).woken
    ensures op in Step(s, e).woken ==> op in Step(s, e).started
  {
    FoundWasStarted(s, op);
    if e.RequestStop? {
      WithoutOne(s.waiters, e.op, op);
    }
  }

  lemma StepKeepsInv(s: State, e: Event)
    requires Inv(s)
    ensures Inv(Step(s, e))
  {
    var s' := Step(s, e);
    forall y ensures Occurrences(s', y) == if y in s'.started then 1 else 0 {
      StepKeepsOccurrences(s, e, y);
    }
    forall op: nat
      ensures op in s'.waiters ==> op !in s'.woken && op !in s'.stopRequested
      ensures op in s'.posted ==> op in s'.woken
      ensures op in s'.woken ==> op in s'.started
    {
      StepKeepsQueues(s, e, op);
    }
    forall c | c in s'.completed && c.outcome == Stopped
      ensures c.op !in s'.woken && c.op in s'.stopRequested
    {
      StepKeepsStopped(s, e, c);
    }
    if e.RequestStop? && s.waiters == [] {
      assert Without(s.waiters, e.op) == [];
    }
  }

  /** In every run: a true flag has no queued waiters, and each started wait is queued at the flag, queued at the
      executor or completed, in exactly one of these places and once, so it never completes twice. */
  lemma {:induction false} ReachableIsOrderly(s: State, events: seq<Event>)
    requires Inv(s)
    ensures var s' := Run(s, events);
            && Inv(s')
            && (s'.value ==> s'.waiters == [])
            && forall op :: multiset(Ops(s'.completed))[op] <= 1
    decreases |events|
  {
    if events == [] {
      forall op ensures multiset(Ops(s.completed))[op] <= 1 {
        assert Occurrences(s, op) <= 1;
      }
    } else {
      StepKeepsInv(s, events[0]);
      ReachableIsOrderly(Step(s, events[0]), events[1..]);
    }
  }

  function Wakeups(events: seq<Event>): nat
    decreases |events|
  {
    if events == [] then 0 else (if events[0] == RunPosted then 1 else 0) + Wakeups(events[1..])
  }

  /** A posted wake-up keeps its turn: neither a stop nor a reset nor anything else can take it away, and it completes
      with a value at exactly the executor run whose turn it is. */
  lemma {:induction false} WokenEndsWithValue(s: State, i: nat, events: seq<Event>)
    requires Inv(s) && i < |s.posted|
    ensures KeepsTurn(Run(s, events), s.posted[i], i - Wakeups(events))
    decreases |events|
  {
    if events != [] {
      var e, s1 := events[0], Step(s, events[0]);
      StepKeepsInv(s, e);
      PostedKeepsOrder(s, e, i);
      if e == RunPosted && i == 0 {
        CompletedStays(s1, |s.completed|, events[1..]);
      } else {
        WokenEndsWithValue(s1, if e == RunPosted then i - 1 else i, events[1..]);
      }
    }
  }

  lemma PostedKeepsOrder(s: State, e: Event, i: nat)
    requires i < |s.posted|
    ensures var s1 := Step(s, e);
            if e != RunPosted then i < |s1.posted| && s1.posted[i] == s.posted[i]
            else if 0 < i then i - 1 < |s1.posted| && s1.posted[i - 1] == s.posted[i]
            else |s1.completed| == |s.completed| + 1 && s1.completed[|s.completed|] == Completion(s.posted[0], Value)
  {
  }

  /** With `left` wake-ups still in front of it, `op` waits for its turn; after that it is completed with a value. */
  ghost predicate KeepsTurn(s: State, op: nat, left: int) {
    if 0 <= left then left < |s.posted| && s.posted[left] == op
    else Completion(op, Value) in s.completed && !HasStopCallback(s, op)
  }

  /** What is completed stays completed that way and is never queued again. */
  lemma {:induction false} CompletedStays(s: State, j: nat, events: seq<Event>)
    requires Inv(s) && j < |s.completed|
    ensures s.completed[j] in Run(s, events).completed
    ensures !HasStopCallback(Run(s, events), s.completed[j].op)
    decreases |events|
  {
    if events == [] {
      CompletedIsNotQueued(s, s.completed[j]);
    } else {
      StepKeepsInv(s, events[0]);
      assert Step(s, events[0]).completed[j] == s.completed[j];
      CompletedStays(Step(s, events[0]), j, events[1..]);
    }
  }

  /** A wait that is pending when the flag goes from false to true ends with a value, whatever happens in between,
      once the executor has run as often as there were wake-ups queued then. */
  lemma PendingWaitIsWoken(s: State, op: nat, events: seq<Event>)
    requires Inv(s) && !s.value && op in s.waiters
    ensures var s' := Run(Step(s, Assign(true)), events);
            && Completion(op, Stopped) !in s'.completed
            && (op in s'.posted || Completion(op, Value) in s'.completed)
            && (Wakeups(events) >= |s.posted| + |s.waiters| ==> Completion(op, Value) in s'.completed)
  {
    var s1 := Step(s, Assign(true));
    StepKeepsInv(s, Assign(true));
    var w :| 0 <= w < |s.waiters| && s.waiters[w] == op;
    var i := |s.posted| + w;
    assert s1.posted[i] == op;
    WokenEndsWithValue(s1, i, events);
    ReachableIsOrderly(s1, events);
    WokenStays(s1, op, events);
  }

  lemma {:induction false} WokenStays(s: State, op: nat, events: seq<Event>)
    requires op in s.woken
    ensures op in Run(s, events).woken
    decreases |events|
  {
    if events != [] {
      WokenStays(Step(s, events[0]), op, events[1..]);
    }
  }

  /** A stop before the flag is set ends the wait at once, stopped and unqueued, and for good. */
  lemma StoppedWaitIsUnqueued(s: State, op: nat, events: seq<Event>)
    requires Inv(s) && op in s.waiters
    ensures var s1, s' := Step(s, RequestStop(op)), Run(Step(s, RequestStop(op)), events);
            && s1.completed == s.completed + [Completion(op, Stopped)]
            && op !in s1.waiters
            && Completion(op, Stopped) in s'.completed
            && Completion(op, Value) !in s'.completed
            && !HasStopCallback(s', op)
  {
    var s1 := Step(s, RequestStop(op));
    StepKeepsInv(s, RequestStop(op));
    WithoutOne(s.waiters, op, op);
    CompletedStays(s1, |s.completed|, events);
    ReachableIsOrderly(s1, events);
    OnlyOneOutcome(Run(s1, events), op);
  }

  lemma OnlyOneOutcome(s: State, op: nat)
    requires Conserved(s)
    ensures !(Completion(op, Value) in s.completed && Completion(op, Stopped) in s.completed)
  {
    if Completion(op, Value) in s.completed && Completion(op, Stopped) in s.completed {
      var i :| 0 <= i < |s.completed| && s.completed[i] == Completion(op, Value);
      var j :| 0 <= j < |s.completed| && s.completed[j] == Completion(op, Stopped);
      assert Occurrences(s, op) <= 1;
      TwiceCounts(Ops(s.completed), op, i, j);
      assert false;
    }
  }

  lemma TwiceCounts(ops: seq<nat>, op: nat, i: nat, j: nat)
    requires i < |ops| && j < |ops| && i != j && ops[i] == op == ops[j]
    ensures multiset(ops)[op] >= 2
  {
    var lo, hi := if i < j then i else j, if i < j then j else i;
    assert ops == ops[..lo] + [op] + ops[lo + 1..hi] + [op] + ops[hi + 1..];
  }

  class Flag {
    var value: bool
    var waiters: seq<nat>
    var posted: seq<nat>
    var woken: set<nat>
    var started: set<nat>
    var stopRequested: set<nat>
    var completed: seq<Completion>

    ghost function View(): State reads this {
      State(value, waiters, posted, woken, started, stopRequested, completed)
    }

    ghost predicate Valid() reads this {
      Inv(View())
    }

    constructor ()
      ensures Valid() && View() == INITIAL
    {
      value, waiters, posted, woken, started, stopRequested, completed := false, [], [], {}, {}, {}, [];
    }

    /** Going from false to true posts a wake-up for every waiter; the queue is taken over before that. */
    method Set(v: bool)
      requires Valid()
      modifies this
      ensures Valid() && View() == Step(old(View()), Assign(v))
    {
      StepKeepsInv(View(), Assign(v));
      if v && !value {
        value := true;
        var ws := waiters;
        waiters := [];
        WakeAll(ws);
      } else {
        value := v;
      }
    }

    method WakeAll(ws: seq<nat>)
      modifies `posted, `woken
      ensures posted == old(posted) + ws && woken == old(woken) + set w | w in ws
    {
      for i := 0 to |ws|
        invariant posted == old(posted) + ws[..i]
        invariant woken == old(woken) + set w | w in ws[..i]
      {
        assert ws[..i + 1] == ws[..i] + [ws[i]];
        woken := woken + {ws[i]};
        posted := posted + [ws[i]];
      }
      assert ws[..|ws|] == ws;
    }

    method StartWait(op: nat)
      requires Valid() && op !in started
      modifies this
      ensures Valid() && View() == Step(old(View()), Start(op))
    {
      StepKeepsInv(View(), Start(op));
      started := started + {op};
      if value {
        completed := completed + [Completion(op, Value)];
        return;
      }
      if op in stopRequested {
        completed := completed + [Completion(op, Stopped)];
        return;
      }
      waiters := waiters + [op];
    }

    /** The wake-up that `Set` posted. */
    method Wake()
      requires Valid() && posted != []
      modifies this
      ensures Valid() && View() == Step(old(View()), RunPosted)
    {
      StepKeepsInv(View(), RunPosted);
      completed := completed + [Completion(posted[0], Value)];
      posted := posted[1..];
    }

    /** The stop callback; a woken waiter is left to its posted wake-up. */
    method CompleteStopped(op: nat)
      requires Valid() && op !in stopRequested
      modifies this
      ensures Valid() && View() == Step(old(View()), RequestStop(op))
    {
      StepKeepsInv(View(), RequestStop(op));
      stopRequested := stopRequested + {op};
      if (op !in waiters && op !in posted) || op in woken {
        return;
      }
      waiters := Without(waiters, op);
      completed := completed + [Completion(op, Stopped)];
    }
  }
}
