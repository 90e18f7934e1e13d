/** What becomes of a wait on the flag, told by the events alone. */
module WaitHistory {
  import opened AwaitableBool

  /** What the last assignment made of the flag. */
  function LastAssigned(events: seq<Event>): bool {
    if events == [] then false
    else if events[|events| - 1].Assign? then events[|events| - 1].v
    else LastAssigned(events[..|events| - 1])
  }

  predicate IsStopped(events: seq<Event>, op: nat) {
    exists i: nat :: i < |events| && events[i] == RequestStop(op)
  }

  /** Event `i` is the first that starts this wait. */
  predicate StartsAt(events: seq<Event>, op: nat, i: nat) {
    i < |events| && events[i] == Start(op) && forall j | 0 <= j < i :: events[j] != Start(op)
  }

  /** Event `j` sets the flag, after event `i` and before event `n`. */
  predicate IsSetAt(events: seq<Event>, i: nat, j: nat, n: nat) {
    i < j < n <= |events| && events[j] == Assign(true)
  }

  ghost predicate IsSetBetween(events: seq<Event>, i: nat, n: nat) {
    exists j: nat :: IsSetAt(events, i, j, n)
  }

  /** Started while the flag was false, never asked to stop, and the flag not set since. */
  ghost predicate PendingFrom(events: seq<Event>, op: nat, i: nat) {
    StartsAt(events, op, i) && !LastAssigned(events[..i])
    && !IsStopped(events, op) && !IsSetBetween(events, i, |events|)
  }

  /** Started while the flag was true, or the flag set afterwards, before any stop of the wait. */
  ghost predicate ServedFrom(events: seq<Event>, op: nat, i: nat) {
    StartsAt(events, op, i) && (LastAssigned(events[..i]) || exists j: nat :: ServedAt(events, op, i, j))
  }

  ghost predicate ServedAt(events: seq<Event>, op: nat, i: nat, j: nat) {
    IsSetAt(events, i, j, |events|) && !IsStopped(events[..j], op)
  }

  /** Started while the flag was false, and asked to stop, before or since, with the flag not set in between. */
  ghost predicate GivenUpFrom(events: seq<Event>, op: nat, i: nat) {
    StartsAt(events, op, i) && !LastAssigned(events[..i]) && exists j: nat :: GivenUpAt(events, op, i, j)
  }

  ghost predicate GivenUpAt(events: seq<Event>, op: nat, i: nat, j: nat) {
    j < |events| && events[j] == RequestStop(op) && !IsSetBetween(events, i, j)
  }

  ghost predicate IsPending(events: seq<Event>, op: nat) {
    exists i: nat :: PendingFrom(events, op, i)
  }

  ghost predicate IsServed(events: seq<Event>, op: nat) {
    exists i: nat :: ServedFrom(events, op, i)
  }

  ghost predicate IsGivenUp(events: seq<Event>, op: nat) {
    exists i: nat :: GivenUpFrom(events, op, i)
  }

  // ---- One event more ----

  lemma StoppedAppend(events: seq<Event>, e: Event, op: nat)
    ensures IsStopped(events + [e], op) <==> IsStopped(events, op) || e == RequestStop(op)
  {
    assert (events + [e])[|events|] == e;
    if IsStopped(events, op) {
      var i: nat :| i < |events| && events[i] == RequestStop(op);
      assert (events + [e])[i] == RequestStop(op);
    }
  }

  lemma SetAppend(events: seq<Event>, e: Event, i: nat, n: nat)
    requires i <= |events|
    ensures n <= |events| ==> (IsSetBetween(events + [e], i, n) <==> IsSetBetween(events, i, n))
    ensures IsSetBetween(events + [e], i, |events| + 1)
            <==> IsSetBetween(events, i, |events|) || (i < |events| && e == Assign(true))
  {
    var longer := events + [e];
    if n <= |events| && IsSetBetween(events, i, n) {
      var j: nat :| IsSetAt(events, i, j, n);
      assert IsSetAt(longer, i, j, n);
    }
    if n <= |events| && IsSetBetween(longer, i, n) {
      var j: nat :| IsSetAt(longer, i, j, n);
      assert IsSetAt(events, i, j, n);
    }
    if IsSetBetween(events, i, |events|) {
      var j: nat :| IsSetAt(events, i, j, |events|);
      assert IsSetAt(longer, i, j, |events| + 1);
    }
    if i < |events| && e == Assign(true) {
      assert IsSetAt(longer, i, |events|, |events| + 1);
    }
    if IsSetBetween(longer, i, |events| + 1) {
      var j: nat :| IsSetAt(longer, i, j, |events| + 1);
      assert j < |events| ==> IsSetAt(events, i, j, |events|);
    }
  }

  /** A pending wait stays pending, is served by the flag, or is given up. */
  lemma PendingAppend(events: seq<Event>, e: Event, op: nat, i: nat)
    requires PendingFrom(events, op, i)
    ensures var longer := events + [e];
            if e == Assign(true) then ServedFrom(longer, op, i)
            else if e == RequestStop(op) then GivenUpFrom(longer, op, i)
            else PendingFrom(longer, op, i)
  {
    var longer := events + [e];
    assert longer[..i] == events[..i] && longer[..|events|] == events;
    StoppedAppend(events, e, op);
    SetAppend(events, e, i, |events|);
    if e == Assign(true) {
      assert ServedAt(longer, op, i, |events|);
    } else if e == RequestStop(op) {
      assert GivenUpAt(longer, op, i, |events|);
    }
  }

  lemma ServedAppend(events: seq<Event>, e: Event, op: nat, i: nat)
    requires ServedFrom(events, op, i)
    ensures ServedFrom(events + [e], op, i)
  {
    var longer := events + [e];
    assert longer[..i] == events[..i];
    if !LastAssigned(events[..i]) {
      var j: nat :| ServedAt(events, op, i, j);
      assert longer[..j] == events[..j];
      assert ServedAt(longer, op, i, j);
    }
  }

  lemma GivenUpAppend(events: seq<Event>, e: Event, op: nat, i: nat)
    requires GivenUpFrom(events, op, i)
    ensures GivenUpFrom(events + [e], op, i)
  {
    var longer := events + [e];
    assert longer[..i] == events[..i];
    var j: nat :| GivenUpAt(events, op, i, j);
    SetAppend(events, e, i, j);
    assert GivenUpAt(longer, op, i, j);
  }

  /** A wait that is only now started. */
  lemma StartAppend(events: seq<Event>, op: nat)
    requires Start(op) !in events
    ensures var longer, n := events + [Start(op)], |events|;
            if LastAssigned(events) then ServedFrom(longer, op, n)
            else if IsStopped(events, op) then GivenUpFrom(longer, op, n)
            else PendingFrom(longer, op, n)
  {
    var longer, n := events + [Start(op)], |events|;
    assert longer[..n] == events;
    StoppedAppend(events, Start(op), op);
    if !LastAssigned(events) && IsStopped(events, op) {
      var j: nat :| j < |events| && events[j] == RequestStop(op);
      assert GivenUpAt(longer, op, n, j);
    }
  }

  // ---- The state and the history ----

  /** How the history of one wait shows in the state. */
  ghost predicate Tells(s: State, events: seq<Event>, op: nat) {
    && s.value == LastAssigned(events)
    && (op in s.stopRequested <==> IsStopped(events, op))
    && (op in s.started <==> Start(op) in events)
    && (op in s.waiters ==> IsPending(events, op))
    && (op in s.posted || Completion(op, Value) in s.completed ==> IsServed(events, op))
    && (Completion(op, Stopped) in s.completed ==> IsGivenUp(events, op))
  }

  lemma AppendTells(events: seq<Event>, e: Event, op: nat)
    ensures var longer := events + [e];
            && (IsServed(events, op) ==> IsServed(longer, op))
            && (IsGivenUp(events, op) ==> IsGivenUp(longer, op))
            && (IsPending(events, op) && e == Assign(true) ==> IsServed(longer, op))
            && (IsPending(events, op) && e == RequestStop(op) ==> IsGivenUp(longer, op))
            && (IsPending(events, op) && e != Assign(true) && e != RequestStop(op) ==> IsPending(longer, op))
            && LastAssigned(longer) == (if e.Assign? then e.v else LastAssigned(events))
            && (Start(op) in longer <==> Start(op) in events || e == Start(op))
  {
    var longer := events + [e];
    assert longer[..|events|] == events && longer[|events|] == e;
    if IsServed(events, op) {
      var i: nat :| ServedFrom(events, op, i);
      ServedAppend(events, e, op, i);
    }
    if IsGivenUp(events, op) {
      var i: nat :| GivenUpFrom(events, op, i);
      GivenUpAppend(events, e, op, i);
    }
    if IsPending(events, op) {
      var i: nat :| PendingFrom(events, op, i);
      PendingAppend(events, e, op, i);
    }
  }

  /** What a step does to one wait. */
  lemma StepAt(s: State, e: Event, op: nat)
    requires Inv(s)
    ensures var s' := Step(s, e);
            && s'.value == (if e.Assign? then e.v else s.value)
            && (op in s'.stopRequested <==> op in s.stopRequested || e == RequestStop(op))
            && (op in s'.started <==> op in s.started || e == Start(op))
            && (op in s'.waiters ==>
                  || (op in s.waiters && e != Assign(true) && e != RequestStop(op))
                  || (e == Start(op) && op !in s.started && !s.value && op !in s.stopRequested))
            && (op in s'.posted || Completion(op, Value) in s'.completed ==>
                  || op in s.posted || Completion(op, Value) in s.completed
                  || (op in s.waiters && e == Assign(true))
                  || (e == Start(op) && op !in s.started && s.value))
            && (Completion(op, Stopped) in s'.completed ==>
                  || Completion(op, Stopped) in s.completed
                  || (op in s.waiters && e == RequestStop(op))
                  || (e == Start(op) && op !in s.started && !s.value && op in s.stopRequested))
  {
    if e.RequestStop? {
      WithoutOne(s.waiters, e.op, op);
    }
  }

  lemma StepTells(s: State, events: seq<Event>, e: Event, op: nat)
    requires Inv(s) && Tells(s, events, op)
    ensures Tells(Step(s, e), events + [e], op)
  {
    AppendTells(events, e, op);
    StoppedAppend(events, e, op);
    StepAt(s, e, op);
    if e == Start(op) && op !in s.started {
      StartAppend(events, op);
    }
  }

  lemma {:induction false} RunTells(s: State, past: seq<Event>, events: seq<Event>, op: nat)
    requires Inv(s) && Tells(s, past, op)
    ensures Inv(Run(s, events)) && Tells(Run(s, events), past + events, op)
    decreases |events|
  {
    if events == [] {
      assert past + [] == past;
    } else {
      StepKeepsInv(s, events[0]);
      StepTells(s, past, events[0], op);
      RunTells(Step(s, events[0]), past + [events[0]], events[1..], op);
      assert past + [events[0]] + events[1..] == past + events;
    }
  }

  /** The three fates exclude each other. */
  lemma FatesDiffer(events: seq<Event>, op: nat)
    ensures !(IsPending(events, op) && IsServed(events, op))
    ensures !(IsPending(events, op) && IsGivenUp(events, op))
    ensures !(IsServed(events, op) && IsGivenUp(events, op))
  {
    forall i: nat, k: nat ensures !(PendingFrom(events, op, i) && ServedFrom(events, op, k)) {
      PendingIsNotServed(events, op, i, k);
    }
    forall i: nat, k: nat ensures !(ServedFrom(events, op, i) && GivenUpFrom(events, op, k)) {
      ServedIsNotGivenUp(events, op, i, k);
    }
  }

  lemma PendingIsNotServed(events: seq<Event>, op: nat, i: nat, k: nat)
    ensures !(PendingFrom(events, op, i) && ServedFrom(events, op, k))
  {
    if PendingFrom(events, op, i) && StartsAt(events, op, k) {
      assert i == k;
    }
  }

  lemma StopShows(events: seq<Event>, op: nat, j: nat, m: nat)
    ensures m < j <= |events| && events[m] == RequestStop(op) ==> IsStopped(events[..j], op)
  {
    if m < j <= |events| && events[m] == RequestStop(op) {
      assert events[..j][m] == RequestStop(op);
    }
  }

  lemma SetShows(events: seq<Event>, i: nat, j: nat, m: nat)
    ensures j < m <= |events| && IsSetAt(events, i, j, |events|) ==> IsSetBetween(events, i, m)
  {
    if j < m <= |events| && IsSetAt(events, i, j, |events|) {
      assert IsSetAt(events, i, j, m);
    }
  }

  lemma ServedIsNotGivenUp(events: seq<Event>, op: nat, i: nat, k: nat)
    ensures !(ServedFrom(events, op, i) && GivenUpFrom(events, op, k))
  {
    if StartsAt(events, op, i) && StartsAt(events, op, k) {
      assert i == k;
      forall j: nat, m: nat ensures !(ServedAt(events, op, i, j) && GivenUpAt(events, op, i, m)) {
        StopShows(events, op, j, m);
        SetShows(events, i, j, m);
      }
    }
  }

  /** From any run's events alone: the flag is what it was last assigned; a wait is queued at the flag if and only if it
      was started while the flag was false and since then, or before, has neither been asked to stop nor seen the flag set;
      it has been woken, or has completed with a value, if and only if the flag was true at its start or was set before a
      stop; and it has completed as stopped if and only if a stop came first. */
  lemma WaitsAsTold(events: seq<Event>, op: nat)
    ensures var s := Run(INITIAL, events);
            && s.value == LastAssigned(events)
            && (op in s.waiters <==> IsPending(events, op))
            && (op in s.posted || Completion(op, Value) in s.completed <==> IsServed(events, op))
            && (Completion(op, Stopped) in s.completed <==> IsGivenUp(events, op))
  {
    var s := Run(INITIAL, events);
    RunTells(INITIAL, [], events, op);
    assert [] + events == events;
    FatesDiffer(events, op);
    FoundWasStarted(s, op);
    if op in s.started {
      StartedIsFound(s, op);
    }
  }

  /** A started wait is queued, posted or completed, one way or the other. */
  lemma StartedIsFound(s: State, op: nat)
    requires Inv(s) && op in s.started
    ensures || op in s.waiters || op in s.posted
            || Completion(op, Value) in s.completed || Completion(op, Stopped) in s.completed
  {
    FoundWasStarted(s, op);
    if op in Ops(s.completed) {
      var i: nat :| i < |s.completed| && s.completed[i].op == op;
      assert s.completed[i] in s.completed;
      assert s.completed[i] == Completion(op, s.completed[i].outcome);
    }
  }
}
