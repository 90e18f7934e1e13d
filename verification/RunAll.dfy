/** Structured concurrency: `run_all` waits for all its children, under every interleaving of their completions. */
module RunAll {
  import opened Options

  /** An exception, named by a number. */
  type Error = nat

  datatype SiblingPolicy = StopOnError | RunToCompletion

  datatype Outcome = Value | Failed(error: Error) | Stopped

  datatype Child = Running | Ended(outcome: Outcome)

  /** Where the frame stands: in the spawn loop, or awaiting the join of the scope. */
  datatype Point = Spawning | Joining

  /** `children` are those spawned so far and `count` is the counter of their scope. `childrenStop` is the stop source the
      children see, `parentStop` the stop token of the caller. */
  datatype State = State(
    policy: SiblingPolicy,
    tasks: nat,
    at: Point,
    children: seq<Child>,
    count: int,
    firstError: Option<Error>,
    childrenStop: bool,
    parentStop: bool,
    result: Option<Outcome>)

  datatype Event =
    | Spawn
    | AwaitJoin
    | RequestStop
    | Complete(child: nat, outcome: Outcome)
    | Finish

  /** A caller that is already stopped forwards that at once. */
  function Init(policy: SiblingPolicy, tasks: nat, parentStop: bool): State {
    State(policy, tasks, Spawning, [], 0, None, parentStop, parentStop, None)
  }

  /** What can happen next. Children may end in any order and any way; the scope is joined when its counter is zero. */
  predicate Enabled(s: State, e: Event) {
    s.result.None? &&
    match e
    case Spawn => s.at == Spawning && |s.children| < s.tasks
    case AwaitJoin => s.at == Spawning && |s.children| == s.tasks
    case RequestStop => true
    case Complete(i, o) => i < |s.children| && s.children[i].Running?
    case Finish => s.at == Joining && s.count == 0
  }

  function Step(s: State, e: Event): State
    requires Enabled(s, e)
  {
    match e
    case Spawn => s.(children := s.children + [Running], count := s.count + 1)
    case AwaitJoin => s.(at := Joining)
    case RequestStop => s.(parentStop := true, childrenStop := true)
    case Complete(i, o) =>
      var ended := s.(children := s.children[i := Ended(o)], count := s.count - 1);
      if o.Failed?
      then ended.(firstError := if s.firstError.None? then Some(o.error) else s.firstError,
                  childrenStop := s.childrenStop || s.policy == StopOnError)
      else ended
    case Finish =>
      s.(result := Some(if s.firstError.Some? then Failed(s.firstError.value)
                        else if s.parentStop then Stopped else Value))
  }

  ghost predicate IsRun(s: State, events: seq<Event>)
    decreases |events|
  {
    events == [] || (Enabled(s, events[0]) && IsRun(Step(s, events[0]), events[1..]))
  }

  ghost function Run(s: State, events: seq<Event>): State
    requires IsRun(s, events)
    decreases |events|
  {
    if events == [] then s else Run(Step(s, events[0]), events[1..])
  }

  // ---- The scope ----

  predicate AllEnded(s: State) {
    |s.children| == s.tasks && forall i | 0 <= i < |s.children| :: s.children[i].Ended?
  }

  function CountRunning(children: seq<Child>): nat {
    if children == [] then 0 else (if children[0] == Running then 1 else 0) + CountRunning(children[1..])
  }

  /** The scope counts the children that run, and nothing is spawned once its join is awaited. */
  ghost predicate ScopeOk(s: State) {
    && s.count == CountRunning(s.children)
    && |s.children| <= s.tasks
    && (s.at == Joining ==> |s.children| == s.tasks)
  }

  lemma {:induction false} CountSpawned(children: seq<Child>)
    ensures CountRunning(children + [Running]) == CountRunning(children) + 1
    decreases |children|
  {
    if children == [] {
      assert CountRunning([Running]) == 1 + CountRunning([Running][1..]);
    } else {
      CountSpawned(children[1..]);
      assert (children + [Running])[1..] == children[1..] + [Running];
    }
  }

  lemma {:induction false} CountEnded(children: seq<Child>, i: nat, o: Outcome)
    requires i < |children| && children[i] == Running
    ensures CountRunning(children[i := Ended(o)]) == CountRunning(children) - 1
    decreases i
  {
    if i == 0 {
      assert children[i := Ended(o)][1..] == children[1..];
    } else {
      CountEnded(children[1..], i - 1, o);
      assert children[i := Ended(o)][1..] == children[1..][i - 1 := Ended(o)];
    }
  }

  lemma {:induction false} CountIsZero(children: seq<Child>, i: nat)
    requires CountRunning(children) == 0 && i < |children|
    ensures children[i].Ended?
    decreases i
  {
    if 0 < i {
      CountIsZero(children[1..], i - 1);
    }
  }

  lemma StepKeepsScope(s: State, e: Event)
    requires ScopeOk(s) && Enabled(s, e)
    ensures ScopeOk(Step(s, e))
  {
    if e.Spawn? {
      CountSpawned(s.children);
    } else if e.Complete? {
      CountEnded(s.children, e.child, e.outcome);
    }
  }

  /** A scope that is joined has no child left. */
  lemma JoinedScopeIsEmpty(s: State)
    requires ScopeOk(s) && Enabled(s, Finish)
    ensures AllEnded(s)
  {
    forall i | 0 <= i < |s.children| ensures s.children[i].Ended? {
      CountIsZero(s.children, i);
    }
  }

  /** A child that ends stopped was asked to. */
  predicate Obeys(s: State, e: Event) {
    e.Complete? && e.outcome.Stopped? ==> s.childrenStop
  }

  ghost predicate ObeyingRun(s: State, events: seq<Event>)
    requires IsRun(s, events)
    decreases |events|
  {
    events == [] || (Obeys(s, events[0]) && ObeyingRun(Step(s, events[0]), events[1..]))
  }

  // ---- The history of a run, read off its events alone ----

  function FirstError(events: seq<Event>): Option<Error>
    decreases |events|
  {
    if events == [] then None
    else if events[0].Complete? && events[0].outcome.Failed? then Some(events[0].outcome.error)
    else FirstError(events[1..])
  }

  predicate ParentStops(events: seq<Event>) {
    exists i | 0 <= i < |events| :: events[i] == RequestStop
  }

  /** What the history says about the state, whatever the interleaving was. */
  ghost predicate Reflects(s: State, policy: SiblingPolicy, stopped: bool, events: seq<Event>) {
    && s.policy == policy
    && s.firstError == FirstError(events)
    && s.parentStop == (stopped || ParentStops(events))
    && s.childrenStop == (s.parentStop || (policy == StopOnError && s.firstError.Some?))
    && ScopeOk(s)
    && (forall i | 0 <= i < |s.children| :: ChildOk(s, s.children[i]))
    && (s.result.Some? ==> AllEnded(s))
    && (s.result.Some? ==> s.result.value == Verdict(s))
  }

  ghost predicate ChildOk(s: State, c: Child) {
    c.Ended? && c.outcome.Failed? ==> s.firstError.Some?
  }

  /** Every child that ended stopped had been asked to. */
  ghost predicate StopsWereAsked(s: State) {
    forall c <- s.children :: c == Ended(Stopped) ==> s.childrenStop
  }

  function Verdict(s: State): Outcome {
    if s.firstError.Some? then Failed(s.firstError.value) else if s.parentStop then Stopped else Value
  }

  lemma {:induction false} FirstErrorAppend(events: seq<Event>, e: Event)
    ensures FirstError(events + [e]) ==
            if FirstError(events).Some? then FirstError(events)
            else if e.Complete? && e.outcome.Failed? then Some(e.outcome.error) else None
    decreases |events|
  {
    if events == [] {
      assert [e][1..] == [];
    } else {
      assert (events + [e])[1..] == events[1..] + [e];
      FirstErrorAppend(events[1..], e);
    }
  }

  lemma ParentStopsAppend(events: seq<Event>, e: Event)
    ensures ParentStops(events + [e]) <==> ParentStops(events) || e == RequestStop
  {
    if ParentStops(events) {
      var i :| 0 <= i < |events| && events[i] == RequestStop;
      assert (events + [e])[i] == RequestStop;
    }
    assert (events + [e])[|events|] == e;
  }

  lemma StepReflects(s: State, policy: SiblingPolicy, stopped: bool, events: seq<Event>, e: Event)
    requires Reflects(s, policy, stopped, events) && Enabled(s, e)
    ensures Reflects(Step(s, e), policy, stopped, events + [e])
  {
    FirstErrorAppend(events, e);
    ParentStopsAppend(events, e);
    StepKeepsScope(s, e);
    if e.Finish? {
      JoinedScopeIsEmpty(s);
    }
  }

  lemma {:induction false} RunReflects(s: State, policy: SiblingPolicy, stopped: bool, past: seq<Event>, events: seq<Event>)
    requires Reflects(s, policy, stopped, past) && IsRun(s, events)
    ensures Reflects(Run(s, events), policy, stopped, past + events)
    decreases |events|
  {
    if events == [] {
      assert past + [] == past;
    } else {
      StepReflects(s, policy, stopped, past, events[0]);
      RunReflects(Step(s, events[0]), policy, stopped, past + [events[0]], events[1..]);
      assert past + [events[0]] + events[1..] == past + events;
    }
  }

  predicate HasStopped(s: State) {
    exists c <- s.children :: c == Ended(Stopped)
  }

  lemma StepKeepsStops(s: State, e: Event)
    requires Enabled(s, e) && StopsWereAsked(s) && Obeys(s, e)
    ensures StopsWereAsked(Step(s, e))
  {
    forall c <- Step(s, e).children ensures c == Ended(Stopped) ==> Step(s, e).childrenStop {
      assert c in s.children || c == Running || (e.Complete? && c == Ended(e.outcome));
    }
  }

  lemma {:induction false} ObeyingKeepsStops(s: State, events: seq<Event>)
    requires IsRun(s, events) && StopsWereAsked(s) && ObeyingRun(s, events)
    ensures StopsWereAsked(Run(s, events))
    decreases |events|
  {
    if events != [] {
      StepKeepsStops(s, events[0]);
      ObeyingKeepsStops(Step(s, events[0]), events[1..]);
    }
  }

  lemma StepKeepsStopped(s: State, e: Event)
    requires Enabled(s, e) && (HasStopped(s) || !Obeys(s, e))
    ensures HasStopped(Step(s, e))
  {
    var children := Step(s, e).children;
    if HasStopped(s) {
      var i: nat :| i < |s.children| && s.children[i] == Ended(Stopped);
      assert children[i] in children;
    } else {
      assert children[e.child] in children;
    }
  }

  /** A child that stopped unasked is there to be seen at the end. */
  lemma {:induction false} UnaskedStopShows(s: State, events: seq<Event>)
    requires IsRun(s, events) && (HasStopped(s) || !ObeyingRun(s, events))
    ensures HasStopped(Run(s, events))
    decreases |events|
  {
    if events != [] {
      if HasStopped(s) || !Obeys(s, events[0]) {
        StepKeepsStopped(s, events[0]);
      }
      UnaskedStopShows(Step(s, events[0]), events[1..]);
    }
  }

  lemma HistoryTells(policy: SiblingPolicy, tasks: nat, stopped: bool, events: seq<Event>)
    requires IsRun(Init(policy, tasks, stopped), events)
    ensures Reflects(Run(Init(policy, tasks, stopped), events), policy, stopped, events)
  {
    assert Reflects(Init(policy, tasks, stopped), policy, stopped, []);
    RunReflects(Init(policy, tasks, stopped), policy, stopped, [], events);
    assert [] + events == events;
  }

  /** For every interleaving of child completions and a stop of the caller, however the children end: the result comes
      only after every child was spawned and has ended; it is the first error in completion order if there was one,
      otherwise it is `Stopped` exactly when the caller was stopped; and the siblings are asked to stop only by the
      caller or, under `StopOnError`, by an error. */
  lemma RunAllOutcome(policy: SiblingPolicy, tasks: nat, stopped: bool, events: seq<Event>)
    requires IsRun(Init(policy, tasks, stopped), events)
    ensures var s := Run(Init(policy, tasks, stopped), events);
            var asked := stopped || ParentStops(events);
            && (s.result.Some? ==> AllEnded(s))
            && (s.result.Some? && FirstError(events).Some? ==> s.result.value == Failed(FirstError(events).value))
            && (s.result.Some? && FirstError(events).None? ==> s.result.value == if asked then Stopped else Value)
            && (s.childrenStop <==> asked || (policy == StopOnError && FirstError(events).Some?))
  {
    HistoryTells(policy, tasks, stopped, events);
  }

  /** A child that stops of its own accord is passed over: the result is a success all the same. */
  lemma UnaskedStopIsPassedOver()
    ensures var events := [Spawn, Complete(0, Stopped), AwaitJoin, Finish];
            var s0 := Init(StopOnError, 1, false);
            && IsRun(s0, events) && !ObeyingRun(s0, events)
            && Run(s0, events).result == Some(Value) && Run(s0, events).children == [Ended(Stopped)]
  {
    var s0 := Init(StopOnError, 1, false);
    var events := [Spawn, Complete(0, Stopped), AwaitJoin, Finish];
    var s1 := Step(s0, events[0]);
    var s2 := Step(s1, events[1]);
    var s3 := Step(s2, events[2]);
    var s4 := Step(s3, events[3]);
    assert events[1..][1..][1..][1..] == [];
    assert IsRun(s4, []) && Run(s4, []) == s4;
    assert IsRun(s3, events[1..][1..][1..]) && Run(s3, events[1..][1..][1..]) == s4;
    assert IsRun(s2, events[1..][1..]) && Run(s2, events[1..][1..]) == s4;
    assert IsRun(s1, events[1..]) && Run(s1, events[1..]) == s4 && !ObeyingRun(s1, events[1..]);
  }

  /** A success means that every child completed with a value exactly when no child stopped unasked. */
  lemma SuccessMeansValues(policy: SiblingPolicy, tasks: nat, stopped: bool, events: seq<Event>)
    requires IsRun(Init(policy, tasks, stopped), events)
    requires Run(Init(policy, tasks, stopped), events).result == Some(Value)
    ensures (forall c <- Run(Init(policy, tasks, stopped), events).children :: c == Ended(Value))
            <==> ObeyingRun(Init(policy, tasks, stopped), events)
  {
    var s0 := Init(policy, tasks, stopped);
    var s := Run(s0, events);
    HistoryTells(policy, tasks, stopped, events);
    if ObeyingRun(s0, events) {
      ObeyingKeepsStops(s0, events);
      forall c <- s.children ensures c == Ended(Value) {
        assert ChildOk(s, c);
      }
    } else {
      UnaskedStopShows(s0, events);
    }
  }

  /** `gather_all` lets the siblings of a failed task run on: without a stop of the caller nobody is ever asked to stop,
      so a child that obeys never ends stopped. */
  lemma GatherAllStopsNobody(tasks: nat, events: seq<Event>)
    requires IsRun(Init(RunToCompletion, tasks, false), events) && !ParentStops(events)
    ensures var s0 := Init(RunToCompletion, tasks, false);
            && !Run(s0, events).childrenStop
            && (ObeyingRun(s0, events) ==> forall c <- Run(s0, events).children :: c != Ended(Stopped))
  {
    var s0 := Init(RunToCompletion, tasks, false);
    HistoryTells(RunToCompletion, tasks, false, events);
    if ObeyingRun(s0, events) {
      ObeyingKeepsStops(s0, events);
    }
  }

  /** The frame of `run_all`. Its events are the completions and stop requests that arrive in the order the
      executor delivers them. */
  class RunAllFrame {
    const policy: SiblingPolicy
    const tasks: nat
    var at: Point
    var children: seq<Child>
    var count: int
    var firstError: Option<Error>
    var childrenStop: bool
    var parentStop: bool
    var result: Option<Outcome>

    ghost function View(): State reads this {
      State(policy, tasks, at, children, count, firstError, childrenStop, parentStop, result)
    }

    constructor (policy: SiblingPolicy, tasks: nat, parentStop: bool)
      ensures View() == Init(policy, tasks, parentStop)
    {
      this.policy, this.tasks := policy, tasks;
      at, children, count := Spawning, [], 0;
      firstError, result := None, None;
      this.parentStop, childrenStop := parentStop, parentStop;
    }

    method SpawnNext()
      requires Enabled(View(), Event.Spawn)
      modifies this
      ensures View() == Step(old(View()), Event.Spawn)
    {
      children := children + [Running];
      count := count + 1;
    }

    method OnAllSpawned()
      requires Enabled(View(), AwaitJoin)
      modifies this
      ensures View() == Step(old(View()), AwaitJoin)
    {
      at := Joining;
    }

    method OnParentStop()
      requires Enabled(View(), RequestStop)
      modifies this
      ensures View() == Step(old(View()), RequestStop)
    {
      parentStop := true;
      childrenStop := true;
    }

    method OnChildCompleted(child: nat, outcome: Outcome)
      requires Enabled(View(), Complete(child, outcome))
      modifies this
      ensures View() == Step(old(View()), Complete(child, outcome))
    {
      children := children[child := Ended(outcome)];
      count := count - 1;
      if outcome.Failed? {
        if firstError.None? {
          firstError := Some(outcome.error);
        }
        if policy == StopOnError {
          childrenStop := true;
        }
      }
    }

    method OnJoined()
      requires Enabled(View(), Finish)
      modifies this
      ensures View() == Step(old(View()), Finish)
    {
      if firstError.None? && parentStop {
        result := Some(Stopped);
      } else if firstError.Some? {
        result := Some(Failed(firstError.value));
      } else {
        result := Some(Value);
      }
    }
  }
}
