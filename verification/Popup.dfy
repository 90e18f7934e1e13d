/** The manual-command popup: the io thread, which can stop the operation, and the Slint thread, where the operator
    confirms, race to complete it. Each step is one that no other thread can cut in two. */
module Popup {

  datatype Outcome = Value | Stopped

  datatype Thread = Io | Slint

  datatype Completion = Completion(thread: Thread, outcome: Outcome)

  datatype UiTask = OpenTask | CloseTask

  /** Where the io thread stands: idle, or inside `finish_stopped` after it won the claim. */
  datatype IoAt = IoIdle | StopClaimed | StopClosing

  /** Where the Slint thread stands: idle, inside the opening task after its check, inside the closing task, or
      inside `confirm` after it won the claim. */
  datatype SlintAt = SlintIdle | Opening | Opened | Closing | Confirmed | ConfirmClosing

  datatype State = State(
    io: IoAt,
    slint: SlintAt,
    started: bool,
    stopRequested: bool,
    claimed: bool,           // PopupState::completed
    hasStopCallback: bool,   // on_stop_
    uiQueue: seq<UiTask>,
    posted: nat,             // completions posted to the io thread
    popupOpen: bool,
    callbackSet: bool,
    completions: seq<Completion>,
    touchedCompleted: bool)  // a posted completion ran on an operation that had completed

  const INITIAL := State(IoIdle, SlintIdle, false, false, false, false, [], 0, false, false, [], false)

  datatype Event = Start | RequestStop | IoStep | RunPosted | RunUiTask | SlintStep | Confirm

  predicate Enabled(s: State, e: Event) {
    match e
    case Start => s.io == IoIdle && !s.started
    case RequestStop => s.io == IoIdle && !s.stopRequested
    case IoStep => s.io != IoIdle
    case RunPosted => s.io == IoIdle && 0 < s.posted
    case RunUiTask => s.slint == SlintIdle && s.uiQueue != []
    case SlintStep => s.slint != SlintIdle
    case Confirm => s.slint == SlintIdle && s.callbackSet
  }

  predicate OnSlint(e: Event) {
    e.RunUiTask? || e.SlintStep? || e.Confirm?
  }

  /** The thread on which a step runs. */
  function ThreadOf(e: Event): Thread {
    if OnSlint(e) then Slint else Io
  }

  function Complete(s: State, on: Thread, outcome: Outcome): State {
    s.(hasStopCallback := false, completions := s.completions + [Completion(on, outcome)])
  }

  function Step(s: State, e: Event): State
    requires Enabled(s, e)
  {
    match e
    case Start =>
      if s.stopRequested then Complete(s.(started := true), ThreadOf(e), Stopped)
      else s.(started := true, hasStopCallback := true, uiQueue := s.uiQueue + [OpenTask])
    case RequestStop =>
      var asked := s.(stopRequested := true);
      if s.hasStopCallback && !s.claimed then asked.(claimed := true, io := StopClaimed) else asked
    case IoStep =>
      if s.io == StopClaimed then s.(uiQueue := s.uiQueue + [CloseTask], io := StopClosing)
      else Complete(s.(io := IoIdle), ThreadOf(e), Stopped)
    case RunPosted =>
      Complete(s.(posted := s.posted - 1, touchedCompleted := s.touchedCompleted || s.completions != []),
               ThreadOf(e), Value)
    case RunUiTask =>
      var popped := s.(uiQueue := s.uiQueue[1..]);
      if s.uiQueue[0] == CloseTask then popped.(popupOpen := false, slint := Closing)
      else if s.claimed then popped
      else popped.(slint := Opening)
    case SlintStep =>
      if s.slint == Opening then s.(popupOpen := true, slint := Opened)
      else if s.slint == Opened then s.(callbackSet := true, slint := SlintIdle)
      else if s.slint == Closing then s.(callbackSet := false, slint := SlintIdle)
      else if s.slint == Confirmed then s.(uiQueue := s.uiQueue + [CloseTask], slint := ConfirmClosing)
      else s.(posted := s.posted + 1, slint := SlintIdle)
    case Confirm => if s.claimed then s else s.(claimed := true, slint := Confirmed)
  }

  ghost predicate IsRun(s: State, events: seq<Event>)
    decreases |events|
  {
    events == [] || (Enabled(s, events[0]) && IsRun(Step(s, events[0]), events[1..]))
  }

  ghost function Run(s: State, events: seq<Event>): State
    requires IsRun(s, events)
    decreases |events|
  {
    if events == [] then s else Run(Step(s, events[0]), events[1..])
  }

  function One(b: bool): nat {
    if b then 1 else 0
  }

  function Tokens(s: State): nat {
    One(s.io != IoIdle) + One(s.slint == Confirmed || s.slint == ConfirmClosing) + s.posted + |s.completions|
  }

  /** Started when a stop had already been requested. */
  predicate StoppedAtStart(s: State) {
    s.started && !s.hasStopCallback && !s.claimed
  }

  /** Whoever claims the completion holds it in one place at a time: at its own point of the code, posted to the io
      thread, or delivered to the receiver. A start after a stop delivers without a claim. */
  ghost predicate TokenOk(s: State) {
    && Tokens(s) == One(s.claimed || StoppedAtStart(s))
    && (s.hasStopCallback <==> s.started && s.completions == [])
    && (s.claimed ==> s.started)
    && (forall c <- s.completions :: c.thread == Io)
    && !s.touchedCompleted
    && (StoppedAtStart(s) ==> s.stopRequested && s.completions == [Completion(Io, Stopped)])
    && (s.started && s.stopRequested ==> s.claimed || StoppedAtStart(s))
  }

  /** The closing task has been queued: the claim was won and the winner is past that point. */
  predicate CloseQueued(s: State) {
    s.claimed && s.io != StopClaimed && s.slint != Confirmed
  }

  predicate OpenPending(s: State) {
    s.uiQueue != [] && s.uiQueue[0] == OpenTask
  }

  predicate ClosePending(s: State) {
    s.uiQueue != [] && s.uiQueue[|s.uiQueue| - 1] == CloseTask
  }

  /** The popup is closed, its callback is cleared, and the Slint thread is not about to change that. */
  predicate Closed(s: State) {
    !s.popupOpen && !s.callbackSet && s.slint == SlintIdle
  }

  /** The user interface: the opening task is queued before the closing task, and the popup and its callback are there
      only while the closing task has not run. */
  ghost predicate UiOk(s: State) {
    && |s.uiQueue| <= 2
    && (|s.uiQueue| == 2 ==> OpenPending(s) && ClosePending(s))
    && (ClosePending(s) ==> CloseQueued(s))
    && (OpenPending(s) ==> Closed(s))
    && (CloseQueued(s) && !ClosePending(s) ==> Closed(s) || (s.slint == Closing && !s.popupOpen))
    && (s.slint == Closing ==> CloseQueued(s) && s.uiQueue == [])
    && (!s.started || StoppedAtStart(s) ==> Closed(s) && s.uiQueue == [])
  }

  ghost predicate Inv(s: State) {
    TokenOk(s) && UiOk(s)
  }

  lemma IoKeepsToken(s: State, e: Event)
    requires Inv(s) && Enabled(s, e) && !OnSlint(e)
    ensures TokenOk(Step(s, e))
  {
  }

  lemma TaskKeepsToken(s: State)
    requires Inv(s) && Enabled(s, RunUiTask)
    ensures TokenOk(Step(s, RunUiTask))
  {
  }

  lemma SlintKeepsToken(s: State)
    requires Inv(s) && Enabled(s, SlintStep)
    ensures TokenOk(Step(s, SlintStep))
  {
  }

  lemma ConfirmKeepsToken(s: State)
    requires Inv(s) && Enabled(s, Confirm)
    ensures TokenOk(Step(s, Confirm))
  {
  }

  lemma IoKeepsUi(s: State, e: Event)
    requires Inv(s) && Enabled(s, e) && !OnSlint(e)
    ensures UiOk(Step(s, e))
  {
  }

  lemma TaskKeepsUi(s: State)
    requires Inv(s) && Enabled(s, RunUiTask)
    ensures UiOk(Step(s, RunUiTask))
  {
    assert s.uiQueue == [s.uiQueue[0]] + s.uiQueue[1..];
  }

  lemma OpeningKeepsUi(s: State)
    requires Inv(s) && Enabled(s, SlintStep) && (s.slint == Opening || s.slint == Opened)
    ensures UiOk(Step(s, SlintStep))
  {
  }

  lemma ClosingKeepsUi(s: State)
    requires Inv(s) && Enabled(s, SlintStep) && s.slint == Closing
    ensures UiOk(Step(s, SlintStep))
  {
  }

  lemma ConfirmingKeepsUi(s: State)
    requires Inv(s) && Enabled(s, SlintStep) && (s.slint == Confirmed || s.slint == ConfirmClosing)
    ensures UiOk(Step(s, SlintStep))
  {
  }

  lemma SlintKeepsUi(s: State)
    requires Inv(s) && Enabled(s, SlintStep)
    ensures UiOk(Step(s, SlintStep))
  {
    if s.slint == Closing {
      ClosingKeepsUi(s);
    } else if s.slint == Opening || s.slint == Opened {
      OpeningKeepsUi(s);
    } else {
      ConfirmingKeepsUi(s);
    }
  }

  lemma ConfirmKeepsUi(s: State)
    requires Inv(s) && Enabled(s, Confirm)
    ensures UiOk(Step(s, Confirm))
  {
  }

  lemma StepKeepsInv(s: State, e: Event)
    requires Inv(s) && Enabled(s, e)
    ensures Inv(Step(s, e))
  {
    if OnSlint(e) {
      if e.RunUiTask? {
        TaskKeepsToken(s);
        TaskKeepsUi(s);
      } else if e.SlintStep? {
        SlintKeepsToken(s);
        SlintKeepsUi(s);
      } else {
        ConfirmKeepsToken(s);
        ConfirmKeepsUi(s);
      }
    } else {
      IoKeepsToken(s, e);
      IoKeepsUi(s, e);
    }
  }

  lemma {:induction false} RunKeepsInv(s: State, events: seq<Event>)
    requires Inv(s) && IsRun(s, events)
    ensures Inv(Run(s, events))
    decreases |events|
  {
    if events != [] {
      StepKeepsInv(s, events[0]);
      RunKeepsInv(Step(s, events[0]), events[1..]);
    }
  }

  /** Nothing is under way on either thread. */
  predicate Settled(s: State) {
    s.io == IoIdle && s.slint == SlintIdle && s.posted == 0 && s.uiQueue == []
  }

  /** Under every interleaving of the two threads: the receiver completes at most once and only on the io thread, the
      posted completion never touches a completed operation, and once the receiver has completed and the Slint thread
      has nothing left to do, the popup is closed and its callback cleared. When both threads have settled, an
      operation that was confirmed or asked to stop has completed. */
  lemma PopupCompletesOnce(events: seq<Event>)
    requires IsRun(INITIAL, events)
    ensures var s := Run(INITIAL, events);
            && |s.completions| <= 1
            && (forall c <- s.completions :: c.thread == Io)
            && !s.touchedCompleted
            && (s.completions != [] && s.uiQueue == [] && s.slint == SlintIdle ==> !s.popupOpen && !s.callbackSet)
            && (s.started && Settled(s) && (s.claimed || s.stopRequested) ==> |s.completions| == 1)
  {
    RunKeepsInv(INITIAL, events);
  }

  /** The completion that is decided, wherever it is on its way to the receiver. */
  predicate Decided(s: State, outcome: Outcome) {
    match outcome
    case Value =>
      s.slint == Confirmed || s.slint == ConfirmClosing || s.posted > 0 || s.completions == [Completion(Io, Value)]
    case Stopped => s.io != IoIdle || s.completions == [Completion(Io, Stopped)]
  }

  lemma StepKeepsDecision(s: State, e: Event, outcome: Outcome)
    requires Inv(s) && Decided(s, outcome) && Enabled(s, e)
    ensures Decided(Step(s, e), outcome)
  {
  }

  lemma {:induction false} DecisionIsFinal(s: State, outcome: Outcome, events: seq<Event>)
    requires Inv(s) && Decided(s, outcome) && IsRun(s, events)
    ensures var s' := Run(s, events);
            Decided(s', outcome) && s'.completions <= [Completion(Io, outcome)]
    decreases |events|
  {
    if events != [] {
      StepKeepsInv(s, events[0]);
      StepKeepsDecision(s, events[0], outcome);
      DecisionIsFinal(Step(s, events[0]), outcome, events[1..]);
    }
  }

  /** The thread that claims the completion decides its outcome, whatever the other one does afterwards: the operator
      who confirms first gets the value, and the stop request that comes first stops the operation. */
  lemma ClaimDecides(s: State, e: Event, events: seq<Event>)
    requires Inv(s) && Enabled(s, e) && IsRun(Step(s, e), events)
    requires !s.claimed && Step(s, e).claimed
    ensures e == Confirm || e == RequestStop
    ensures var s' := Run(Step(s, e), events);
            var outcome := if e == Confirm then Value else Stopped;
            s'.completions <= [Completion(Io, outcome)] && (Settled(s') ==> s'.completions == [Completion(Io, outcome)])
  {
    StepKeepsInv(s, e);
    DecisionIsFinal(Step(s, e), if e == Confirm then Value else Stopped, events);
    RunKeepsInv(Step(s, e), events);
  }

  // ---- The popup opens, and every decision comes through ----

  /** While nobody has claimed the completion, the opening task is queued, or under way, or has opened the popup. */
  ghost predicate OpenOk(s: State) {
    s.started && !s.claimed && s.completions == [] ==>
      || s.uiQueue == [OpenTask]
      || (s.uiQueue == [] && s.slint == Opening)
      || (s.uiQueue == [] && s.slint == Opened && s.popupOpen)
      || (s.uiQueue == [] && s.slint == SlintIdle && s.popupOpen && s.callbackSet)
  }

  lemma StepKeepsOpen(s: State, e: Event)
    requires Inv(s) && OpenOk(s) && Enabled(s, e)
    ensures OpenOk(Step(s, e))
  {
  }

  lemma {:induction false} RunKeepsOpen(s: State, events: seq<Event>)
    requires Inv(s) && OpenOk(s) && IsRun(s, events)
    ensures OpenOk(Run(s, events))
    decreases |events|
  {
    if events != [] {
      StepKeepsInv(s, events[0]);
      StepKeepsOpen(s, events[0]);
      RunKeepsOpen(Step(s, events[0]), events[1..]);
    }
  }

  /** Once the Slint thread has run all its tasks, an operation that nobody has completed or claimed shows its popup, and
      the operator can confirm it. */
  lemma PopupOpens(events: seq<Event>)
    requires IsRun(INITIAL, events)
    ensures var s := Run(INITIAL, events);
            s.started && !s.claimed && s.completions == [] && s.uiQueue == [] && s.slint == SlintIdle ==>
              s.popupOpen && s.callbackSet && Enabled(s, Confirm)
  {
    RunKeepsOpen(INITIAL, events);
  }

  /** What the threads do of their own accord. */
  predicate IsOwnStep(e: Event) {
    e.IoStep? || e.SlintStep? || e.RunPosted? || e.RunUiTask?
  }

  function NextStep(s: State): Event {
    if s.io != IoIdle then IoStep
    else if s.slint != SlintIdle then SlintStep
    else if s.posted > 0 then RunPosted
    else RunUiTask
  }

  /** A bound on the steps that the threads still have to make. */
  function Work(io: IoAt, slint: SlintAt, posted: nat, queued: nat): nat {
    (match io case IoIdle => 0 case StopClaimed => 5 case StopClosing => 1)
    + (match slint
       case SlintIdle => 0
       case Opening => 2
       case Opened => 1
       case Closing => 1
       case Confirmed => 6
       case ConfirmClosing => 2)
    + posted + 3 * queued
  }

  function WorkOf(s: State): nat {
    Work(s.io, s.slint, s.posted, |s.uiQueue|)
  }

  lemma IoStepWorks(s: State)
    requires Enabled(s, IoStep)
    ensures WorkOf(Step(s, IoStep)) < WorkOf(s)
  {
    if s.io == StopClaimed {
      assert Step(s, IoStep) == s.(uiQueue := s.uiQueue + [CloseTask], io := StopClosing);
    } else {
      assert Step(s, IoStep) == Complete(s.(io := IoIdle), Io, Stopped);
    }
  }

  lemma OpeningWorks(s: State)
    requires s.slint == Opening || s.slint == Opened || s.slint == Closing
    ensures WorkOf(Step(s, SlintStep)) < WorkOf(s)
  {
  }

  lemma ConfirmingWorks(s: State)
    requires s.slint == Confirmed || s.slint == ConfirmClosing
    ensures WorkOf(Step(s, SlintStep)) < WorkOf(s)
  {
    if s.slint == Confirmed {
      assert Step(s, SlintStep) == s.(uiQueue := s.uiQueue + [CloseTask], slint := ConfirmClosing);
    } else {
      assert Step(s, SlintStep) == s.(posted := s.posted + 1, slint := SlintIdle);
    }
  }

  lemma TaskWorks(s: State)
    requires Enabled(s, RunUiTask)
    ensures WorkOf(Step(s, RunUiTask)) < WorkOf(s)
  {
    var popped := s.(uiQueue := s.uiQueue[1..]);
    assert WorkOf(popped) == WorkOf(s) - 3;
    if s.uiQueue[0] == CloseTask {
      assert Step(s, RunUiTask) == popped.(popupOpen := false, slint := Closing);
    } else {
      assert Step(s, RunUiTask) == if s.claimed then popped else popped.(slint := Opening);
    }
  }

  lemma PostedWorks(s: State)
    requires Enabled(s, RunPosted)
    ensures WorkOf(Step(s, RunPosted)) < WorkOf(s)
  {
  }

  lemma NextStepWorks(s: State)
    requires !Settled(s)
    ensures Enabled(s, NextStep(s)) && IsOwnStep(NextStep(s)) && WorkOf(Step(s, NextStep(s))) < WorkOf(s)
  {
    if s.io != IoIdle {
      IoStepWorks(s);
    } else if s.slint == Confirmed || s.slint == ConfirmClosing {
      ConfirmingWorks(s);
    } else if s.slint != SlintIdle {
      OpeningWorks(s);
    } else if s.posted > 0 {
      PostedWorks(s);
    } else {
      TaskWorks(s);
    }
  }

  lemma RunFront(s: State, e: Event, events: seq<Event>)
    requires Enabled(s, e) && IsRun(Step(s, e), events)
    ensures IsRun(s, [e] + events) && Run(s, [e] + events) == Run(Step(s, e), events)
  {
    assert ([e] + events)[1..] == events;
  }

  /** The threads come to rest. */
  lemma {:induction false} CanSettle(s: State) returns (events: seq<Event>)
    ensures IsRun(s, events) && Settled(Run(s, events)) && forall e <- events :: IsOwnStep(e)
    ensures |events| <= WorkOf(s)
    decreases WorkOf(s)
  {
    if Settled(s) {
      events := [];
    } else {
      NextStepWorks(s);
      events := CanSettle(Step(s, NextStep(s)));
      RunFront(s, NextStep(s), events);
      events := [NextStep(s)] + events;
    }
  }

  lemma FirstCallerClaims(s: State, e: Event)
    requires Inv(s) && Enabled(s, e) && s.started && !s.claimed && s.completions == []
    requires e.Confirm? || e.RequestStop?
    ensures Step(s, e).claimed && Step(s, e).started
  {
  }

  /** An operation that nobody has claimed ends with a value once it is confirmed, and as stopped once that is asked for,
      by what the threads then do of their own accord; and its popup is closed. */
  lemma EndsAsDecided(s: State, e: Event) returns (events: seq<Event>)
    requires Inv(s) && Enabled(s, e) && s.started && !s.claimed && s.completions == []
    requires e.Confirm? || e.RequestStop?
    ensures IsRun(Step(s, e), events) && forall e' <- events :: IsOwnStep(e')
    ensures Run(Step(s, e), events).completions == [Completion(Io, if e.Confirm? then Value else Stopped)]
    ensures !Run(Step(s, e), events).popupOpen && !Run(Step(s, e), events).callbackSet
  {
    events := CanSettle(Step(s, e));
    FirstCallerClaims(s, e);
    ClaimDecides(s, e, events);
    StepKeepsInv(s, e);
    RunKeepsInv(Step(s, e), events);
  }

  class PopupOperation {
    var io: IoAt
    var slint: SlintAt
    var started: bool
    var stopRequested: bool
    var completed: bool
    var onStop: bool
    var uiQueue: seq<UiTask>
    var posted: nat
    var popupOpen: bool
    var callbackSet: bool
    var completions: seq<Completion>
    var touchedCompleted: bool

    ghost function View(): State reads this {
      State(io, slint, started, stopRequested, completed, onStop, uiQueue, posted, popupOpen, callbackSet, completions,
            touchedCompleted)
    }

    constructor ()
      ensures View() == INITIAL
    {
      io, slint := IoIdle, SlintIdle;
      started, stopRequested, completed, onStop := false, false, false, false;
      uiQueue, posted, popupOpen, callbackSet := [], 0, false, false;
      completions, touchedCompleted := [], false;
    }

    /** The race is decided under the mutex: whoever finds the flag unset wins. */
    method ClaimCompletion() returns (won: bool)
      modifies this`completed
      ensures won == !old(completed) && completed
    {
      won := !completed;
      completed := true;
    }

    method Complete(on: Thread, outcome: Outcome)
      modifies this`onStop, this`completions
      ensures !onStop && completions == old(completions) + [Completion(on, outcome)]
    {
      onStop := false;
      completions := completions + [Completion(on, outcome)];
    }

    method StartOperation()
      requires Enabled(View(), Start)
      modifies this
      ensures View() == Step(old(View()), Start)
    {
      started := true;
      if stopRequested {
        Complete(ThreadOf(Start), Stopped);
        return;
      }
      onStop := true;
      uiQueue := uiQueue + [OpenTask];
    }

    /** A stop request runs the stop callback, if there is one, up to its claim. */
    method OnStopRequested()
      requires Enabled(View(), RequestStop)
      modifies this
      ensures View() == Step(old(View()), RequestStop)
    {
      stopRequested := true;
      if onStop {
        var won := ClaimCompletion();
        if won {
          io := StopClaimed;
        }
      }
    }

    /** The rest of the stop callback after a won claim. */
    method FinishStopped()
      requires Enabled(View(), IoStep)
      modifies this
      ensures View() == Step(old(View()), IoStep)
    {
      if io == StopClaimed {
        uiQueue := uiQueue + [CloseTask];
        io := StopClosing;
      } else {
        io := IoIdle;
        Complete(ThreadOf(IoStep), Stopped);
      }
    }

    method FinishConfirmed()
      requires Enabled(View(), RunPosted)
      modifies this
      ensures View() == Step(old(View()), RunPosted)
    {
      posted := posted - 1;
      if completions != [] {
        touchedCompleted := true;
      }
      Complete(ThreadOf(RunPosted), Value);
    }

    method RunFrontTask()
      requires Enabled(View(), RunUiTask)
      modifies this
      ensures View() == Step(old(View()), RunUiTask)
    {
      var task := uiQueue[0];
      uiQueue := uiQueue[1..];
      if task == CloseTask {
        popupOpen := false;
        slint := Closing;
      } else if !completed {
        slint := Opening;
      }
    }

    method ContinueOnSlint()
      requires Enabled(View(), SlintStep)
      modifies this
      ensures View() == Step(old(View()), SlintStep)
    {
      if slint == Opening {
        popupOpen, slint := true, Opened;
      } else if slint == Opened {
        callbackSet, slint := true, SlintIdle;
      } else if slint == Closing {
        callbackSet, slint := false, SlintIdle;
      } else if slint == Confirmed {
        uiQueue, slint := uiQueue + [CloseTask], ConfirmClosing;
      } else {
        posted, slint := posted + 1, SlintIdle;
      }
    }

    method OnConfirmed()
      requires Enabled(View(), Confirm)
      modifies this
      ensures View() == Step(old(View()), Confirm)
    {
      var won := ClaimCompletion();
      if won {
        slint := Confirmed;
      }
    }
  }
}
