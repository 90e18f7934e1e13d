/** Executing a recipe: sequential commands and parallel groups, with a status update around every command. */
module ExecuteCommands {
  import opened Options
  import RunAll

  type Outcome = RunAll.Outcome

  /** A command as execution sees it: nothing to do, or something to carry out under an id. */
  datatype Command = Nothing | Act(id: int)

  datatype Item = One(command: Command) | Parallel(commands: seq<Command>)

  datatype Status = InProgress | Finished

  /** A status update, with the place in the recipe of the command that caused it. */
  datatype Update = Update(item: nat, place: nat, id: int, status: Status)

  /** How far one command's task has come. */
  datatype Task = Idle | Busy | Over(outcome: Outcome)

  /** Between two items, inside item `current` with the tasks started for it, or at the end. A parallel group runs
      its tasks under `run_all`; a sequential command is awaited directly. */
  datatype Phase =
    | Between
    | Inside(group: Option<RunAll.State>, tasks: seq<Task>)
    | Done(outcome: Outcome)

  datatype State = State(items: seq<Item>, current: nat, phase: Phase, stop: bool, log: seq<Update>)

  datatype Event =
    | Enter
    | Spawn
    | AwaitJoin
    | Start(place: nat)
    | Complete(place: nat, outcome: Outcome)
    | Join
    | RequestStop

  function Init(items: seq<Item>, stop: bool): State {
    State(items, 0, Between, stop, [])
  }

  function Places(item: Item): seq<Command> {
    match item
    case One(command) => [command]
    case Parallel(commands) => commands
  }

  /** Well-formedness that every reachable phase has. */
  ghost predicate PhaseOk(s: State) {
    match s.phase
    case Between => s.current <= |s.items|
    case Done(o) => s.current <= |s.items| && (o.Value? <==> s.current == |s.items|)
    case Inside(None, tasks) =>
      && s.current < |s.items| && s.items[s.current].One?
      && |tasks| == 1 && !tasks[0].Over?
    case Inside(Some(run), tasks) =>
      && s.current < |s.items| && s.items[s.current].Parallel?
      && run.policy == RunAll.StopOnError && run.result.None?
      && run.tasks == |s.items[s.current].commands|
      && RunAll.ScopeOk(run) && |tasks| == |run.children|
      && run.parentStop == s.stop
      && run.childrenStop == (run.parentStop || run.firstError.Some?)
      && forall i | 0 <= i < |tasks| :: TaskOk(run, tasks[i], run.children[i])
  }

  ghost predicate TaskOk(run: RunAll.State, t: Task, child: RunAll.Child) {
    && (t.Over? <==> child.Ended?)
    && (t.Over? ==> t.outcome == child.outcome)
    && (t.Over? && t.outcome.Failed? ==> run.firstError.Some?)
  }

  /** Whether the tasks of the current item are asked to stop. */
  function Asked(s: State): bool
    requires s.phase.Inside?
  {
    if s.phase.group.Some? then s.phase.group.value.childrenStop else s.stop
  }

  /** A task may end with a value or an error once it is busy, and stopped even before it starts. An empty command does
      not fail, and ends stopped only when asked to. */
  predicate MayEnd(c: Command, t: Task, o: Outcome, asked: bool) {
    match o
    case Stopped => !t.Over? && (c.Act? || asked)
    case Value => t == Busy
    case Failed(_) => t == Busy && c.Act?
  }

  ghost predicate Enabled(s: State, e: Event)
    requires PhaseOk(s)
  {
    match e
    case Enter => s.phase.Between?
    case RequestStop => !s.phase.Done?
    case Spawn =>
      s.phase.Inside? && s.phase.group.Some? && RunAll.Enabled(s.phase.group.value, RunAll.Event.Spawn)
    case AwaitJoin =>
      s.phase.Inside? && s.phase.group.Some? && RunAll.Enabled(s.phase.group.value, RunAll.AwaitJoin)
    case Start(i) => s.phase.Inside? && i < |s.phase.tasks| && s.phase.tasks[i] == Idle
    case Complete(i, o) =>
      && s.phase.Inside? && i < |s.phase.tasks|
      && MayEnd(Places(s.items[s.current])[i], s.phase.tasks[i], o, Asked(s))
    case Join =>
      s.phase.Inside? && s.phase.group.Some? && RunAll.Enabled(s.phase.group.value, RunAll.Finish)
  }

  function StatusUpdate(s: State, place: nat, status: Status): seq<Update>
    requires s.current < |s.items| && place < |Places(s.items[s.current])|
  {
    match Places(s.items[s.current])[place]
    case Nothing => []
    case Act(id) => [Update(s.current, place, id, status)]
  }

  /** The phase in which the loop body has just begun with item `current`. */
  function Begun(s: State): Phase
    requires s.current < |s.items|
  {
    match s.items[s.current]
    case One(_) => Inside(None, [Idle])
    case Parallel(commands) => Inside(Some(RunAll.Init(RunAll.StopOnError, |commands|, s.stop)), [])
  }

  /** After the awaited item ended: on to the next item after a value, otherwise the recipe ends with it. */
  function Continue(s: State, o: Outcome): State {
    if o.Value? then s.(current := s.current + 1, phase := Between) else s.(phase := Done(o))
  }

  ghost function Step(s: State, e: Event): State
    requires PhaseOk(s) && Enabled(s, e)
  {
    match e
    case Enter => s.(phase := if s.current < |s.items| then Begun(s) else Done(RunAll.Value))
    case RequestStop =>
      if s.phase.Inside? && s.phase.group.Some?
      then s.(stop := true,
              phase := s.phase.(group := Some(RunAll.Step(s.phase.group.value, RunAll.RequestStop))))
      else s.(stop := true)
    case Spawn =>
      s.(phase := Inside(Some(RunAll.Step(s.phase.group.value, RunAll.Event.Spawn)), s.phase.tasks + [Idle]))
    case AwaitJoin => s.(phase := s.phase.(group := Some(RunAll.Step(s.phase.group.value, RunAll.AwaitJoin))))
    case Start(i) =>
      s.(log := s.log + StatusUpdate(s, i, InProgress), phase := s.phase.(tasks := s.phase.tasks[i := Busy]))
    case Complete(i, o) =>
      var ended := if o.Value? then s.(log := s.log + StatusUpdate(s, i, Finished)) else s;
      if s.phase.group.None? then Continue(ended, o)
      else
        assert TaskOk(s.phase.group.value, s.phase.tasks[i], s.phase.group.value.children[i]);
        ended.(phase := Inside(Some(RunAll.Step(s.phase.group.value, RunAll.Complete(i, o))),
                               s.phase.tasks[i := Over(o)]))
    case Join => Continue(s, RunAll.Step(s.phase.group.value, RunAll.Finish).result.value)
  }

  ghost predicate IsRun(s: State, events: seq<Event>)
    decreases |events|
  {
    PhaseOk(s) && (events == [] || (Enabled(s, events[0]) && IsRun(Step(s, events[0]), events[1..])))
  }

  ghost function Run(s: State, events: seq<Event>): State
    requires IsRun(s, events)
    decreases |events|
  {
    if events == [] then s else Run(Step(s, events[0]), events[1..])
  }

  // ---- The status updates of one command ----

  /** The statuses reported for one place of the recipe, in order. */
  function Reported(log: seq<Update>, item: nat, place: nat): seq<Status> {
    if log == [] then []
    else
      var last := log[|log| - 1];
      Reported(log[..|log| - 1], item, place)
      + if last.item == item && last.place == place then [last.status] else []
  }

  /** What is reported for a command whose task has come this far: nothing for an empty command, nothing before the
      start, and never `Finished` without success. A task that was stopped may not have started. */
  ghost predicate ReportsMatch(c: Command, t: Task, reports: seq<Status>) {
    if c.Nothing? then reports == []
    else match t
      case Idle => reports == []
      case Busy => reports == [InProgress]
      case Over(Value) => reports == [InProgress, Finished]
      case Over(Failed(_)) => reports == [InProgress]
      case Over(Stopped) => reports <= [InProgress]
  }

  /** The place of a recipe that is still to come, being worked on, or past. */
  ghost predicate PlaceOk(s: State, item: nat, place: nat)
    requires item < |s.items| && place < |Places(s.items[item])|
  {
    var c := Places(s.items[item])[place];
    var reports := Reported(s.log, item, place);
    if item > s.current || (item == s.current && s.phase.Between?) then reports == []
    else if item < s.current || s.phase.Done? then reports <= [InProgress, Finished]
    else if place >= |s.phase.tasks| then reports == []
    else ReportsMatch(c, s.phase.tasks[place], reports)
  }

  /** An update names a command of the recipe that has been reached. */
  ghost predicate UpdateOk(s: State, u: Update) {
    && u.item <= s.current && u.item < |s.items|
    && u.place < |Places(s.items[u.item])|
    && Places(s.items[u.item])[u.place] == Act(u.id)
  }

  ghost predicate InOrder(s: State) {
    && (forall i, j | 0 <= i < j < |s.log| :: s.log[i].item <= s.log[j].item)
    && (forall i | 0 <= i < |s.log| :: UpdateOk(s, s.log[i]))
  }

  ghost predicate Inv(s: State) {
    && PhaseOk(s)
    && InOrder(s)
    && forall item: nat, place: nat :: item < |s.items| && place < |Places(s.items[item])| ==> PlaceOk(s, item, place)
  }

  lemma ReportedAppend(log: seq<Update>, u: Update, item: nat, place: nat)
    ensures Reported(log + [u], item, place)
            == Reported(log, item, place) + if u.item == item && u.place == place then [u.status] else []
  {
  }

  lemma StepKeepsScope(s: State, e: Event)
    requires PhaseOk(s) && Enabled(s, e) && s.phase.Inside? && Step(s, e).phase.Inside? && s.phase.group.Some?
    ensures Step(s, e).phase.group.Some? && RunAll.ScopeOk(Step(s, e).phase.group.value)
  {
    var run := s.phase.group.value;
    match e
    case RequestStop => RunAll.StepKeepsScope(run, RunAll.RequestStop);
    case Spawn => RunAll.StepKeepsScope(run, RunAll.Event.Spawn);
    case AwaitJoin => RunAll.StepKeepsScope(run, RunAll.AwaitJoin);
    case Complete(i, o) =>
      assert TaskOk(run, s.phase.tasks[i], run.children[i]);
      RunAll.StepKeepsScope(run, RunAll.Complete(i, o));
    case _ =>
  }

  lemma StepKeepsTask(s: State, e: Event, i: nat)
    requires PhaseOk(s) && Enabled(s, e) && s.phase.Inside? && s.phase.group.Some?
    requires Step(s, e).phase.Inside? && i < |Step(s, e).phase.tasks|
    ensures var phase := Step(s, e).phase;
            && phase.group.Some? && i < |phase.group.value.children|
            && TaskOk(phase.group.value, phase.tasks[i], phase.group.value.children[i])
  {
    if i < |s.phase.tasks| {
      assert TaskOk(s.phase.group.value, s.phase.tasks[i], s.phase.group.value.children[i]);
    }
  }

  lemma StepKeepsPhase(s: State, e: Event)
    requires PhaseOk(s) && Enabled(s, e)
    ensures PhaseOk(Step(s, e))
  {
    var s' := Step(s, e);
    if s'.phase.Inside? && s'.phase.group.Some? && s.phase.Inside? {
      var run' := s'.phase.group.value;
      StepKeepsScope(s, e);
      forall i | 0 <= i < |s'.phase.tasks| ensures TaskOk(run', s'.phase.tasks[i], run'.children[i]) {
        StepKeepsTask(s, e, i);
      }
    }
  }

  lemma StepKeepsUpdate(s: State, e: Event, i: nat)
    requires PhaseOk(s) && InOrder(s) && Enabled(s, e) && i < |Step(s, e).log|
    ensures UpdateOk(Step(s, e), Step(s, e).log[i])
    ensures i < |s.log| ==> Step(s, e).log[i] == s.log[i] && s.log[i].item <= s.current
    ensures i >= |s.log| ==> Step(s, e).log[i].item == s.current && i == |s.log|
  {
    if i < |s.log| {
      assert UpdateOk(s, s.log[i]);
    }
  }

  lemma StepKeepsOrder(s: State, e: Event)
    requires PhaseOk(s) && InOrder(s) && Enabled(s, e)
    ensures InOrder(Step(s, e))
  {
    var log := Step(s, e).log;
    forall i | 0 <= i < |log| ensures UpdateOk(Step(s, e), log[i]) {
      StepKeepsUpdate(s, e, i);
    }
    forall i, j | 0 <= i < j < |log| ensures log[i].item <= log[j].item {
      StepKeepsUpdate(s, e, i);
      StepKeepsUpdate(s, e, j);
    }
  }

  /** What a step adds to the reports of one place. */
  function Added(s: State, e: Event, item: nat, place: nat): seq<Status> {
    if (e.Start? || (e.Complete? && e.outcome.Value?)) && item == s.current && e.place == place
    then [if e.Start? then InProgress else Finished] else []
  }

  /** What one status update adds to the reports of one place. */
  lemma UpdateReports(s: State, updated: nat, status: Status, item: nat, place: nat)
    requires s.current < |s.items| && updated < |Places(s.items[s.current])|
    requires item < |s.items| && place < |Places(s.items[item])|
    ensures Reported(s.log + StatusUpdate(s, updated, status), item, place) == Reported(s.log, item, place)
            + if Places(s.items[item])[place].Act? && item == s.current && updated == place then [status] else []
  {
    var u := StatusUpdate(s, updated, status);
    if u == [] {
      assert s.log + u == s.log;
    } else {
      ReportedAppend(s.log, u[0], item, place);
    }
  }

  lemma StepReports(s: State, e: Event, item: nat, place: nat)
    requires PhaseOk(s) && Enabled(s, e)
    requires item < |s.items| && place < |Places(s.items[item])|
    ensures Reported(Step(s, e).log, item, place) == Reported(s.log, item, place)
            + if Places(s.items[item])[place].Nothing? then [] else Added(s, e, item, place)
  {
    if e.Start? {
      UpdateReports(s, e.place, InProgress, item, place);
    } else if e.Complete? && e.outcome.Value? {
      UpdateReports(s, e.place, Finished, item, place);
      assert Step(s, e).log == s.log + StatusUpdate(s, e.place, Finished);
    } else {
      assert Step(s, e).log == s.log;
    }
  }

  /** The tasks of the current item before and after a step that keeps the item going. */
  lemma TaskAdvances(s: State, e: Event, place: nat)
    requires PhaseOk(s) && Enabled(s, e) && s.phase.Inside? && Step(s, e).phase.Inside?
    ensures var tasks, tasks' := s.phase.tasks, Step(s, e).phase.tasks;
            && |tasks| <= |tasks'|
            && (place < |tasks'| ==>
                  if place >= |tasks| then tasks'[place] == Idle
                  else if e.Start? && e.place == place then tasks[place] == Idle && tasks'[place] == Busy
                  else if e.Complete? && e.place == place then tasks'[place] == Over(e.outcome)
                  else tasks'[place] == tasks[place])
  {
  }

  lemma ReportsAdvance(c: Command, t: Task, t': Task, reports: seq<Status>, added: seq<Status>)
    requires ReportsMatch(c, t, reports)
    requires || (t' == t && added == [])
             || (t == Idle && t' == Busy && added == [InProgress])
             || (t'.Over? && MayEnd(c, t, t'.outcome, true) && added == if t'.outcome.Value? then [Finished] else [])
    ensures ReportsMatch(c, t', reports + if c.Nothing? then [] else added)
    ensures reports + (if c.Nothing? then [] else added) <= [InProgress, Finished]
  {
  }

  lemma CurrentPlace(s: State, e: Event, place: nat)
    requires PhaseOk(s) && Enabled(s, e) && s.phase.Inside? && Step(s, e).phase.Inside?
    requires place < |Places(s.items[s.current])| && PlaceOk(s, s.current, place)
    ensures PlaceOk(Step(s, e), s.current, place)
  {
    var c := Places(s.items[s.current])[place];
    var reports := Reported(s.log, s.current, place);
    var added := Added(s, e, s.current, place);
    StepReports(s, e, s.current, place);
    TaskAdvances(s, e, place);
    if place < |s.phase.tasks| {
      ReportsAdvance(c, s.phase.tasks[place], Step(s, e).phase.tasks[place], reports, added);
    } else {
      assert reports == [] && added == [];
    }
  }

  lemma LeavingPlace(s: State, e: Event, place: nat)
    requires PhaseOk(s) && Enabled(s, e) && s.phase.Inside? && !Step(s, e).phase.Inside?
    requires place < |Places(s.items[s.current])| && PlaceOk(s, s.current, place)
    ensures PlaceOk(Step(s, e), s.current, place)
  {
    var c := Places(s.items[s.current])[place];
    var reports := Reported(s.log, s.current, place);
    StepReports(s, e, s.current, place);
    if e.Complete? {
      ReportsAdvance(c, s.phase.tasks[place], Over(e.outcome), reports, Added(s, e, s.current, place));
    } else {
      assert reports + [] == reports;
    }
  }

  lemma StepKeepsPlace(s: State, e: Event, item: nat, place: nat)
    requires PhaseOk(s) && Enabled(s, e)
    requires item < |s.items| && place < |Places(s.items[item])| && PlaceOk(s, item, place)
    ensures PlaceOk(Step(s, e), item, place)
  {
    if s.phase.Inside? && item == s.current {
      if Step(s, e).phase.Inside? {
        CurrentPlace(s, e, place);
      } else {
        LeavingPlace(s, e, place);
      }
    } else {
      StepReports(s, e, item, place);
      assert Reported(Step(s, e).log, item, place) == Reported(s.log, item, place);
    }
  }

  lemma StepKeepsInv(s: State, e: Event)
    requires Inv(s) && Enabled(s, e)
    ensures Inv(Step(s, e))
  {
    StepKeepsPhase(s, e);
    StepKeepsOrder(s, e);
    forall item: nat, place: nat | item < |s.items| && place < |Places(s.items[item])|
      ensures PlaceOk(Step(s, e), item, place)
    {
      StepKeepsPlace(s, e, item, place);
    }
  }

  lemma {:induction false} RunKeepsInv(s: State, events: seq<Event>)
    requires Inv(s) && IsRun(s, events)
    ensures Inv(Run(s, events))
    decreases |events|
  {
    if events != [] {
      StepKeepsInv(s, events[0]);
      RunKeepsInv(Step(s, events[0]), events[1..]);
    }
  }

  // ---- Tasks that stop only when asked ----

  predicate Obeys(s: State, e: Event) {
    e.Complete? && e.outcome.Stopped? && s.phase.Inside? ==> Asked(s)
  }

  ghost predicate ObeyingRun(s: State, events: seq<Event>)
    requires IsRun(s, events)
    decreases |events|
  {
    events == [] || (Obeys(s, events[0]) && ObeyingRun(Step(s, events[0]), events[1..]))
  }

  ghost predicate StopsAsked(s: State) {
    s.phase.Inside? && s.phase.group.Some? ==> RunAll.StopsWereAsked(s.phase.group.value)
  }

  lemma StepKeepsStopsAsked(s: State, e: Event)
    requires PhaseOk(s) && Enabled(s, e) && StopsAsked(s) && Obeys(s, e)
    ensures StopsAsked(Step(s, e))
  {
    if s.phase.Inside? && s.phase.group.Some? {
      var run := s.phase.group.value;
      match e
      case RequestStop => RunAll.StepKeepsStops(run, RunAll.RequestStop);
      case Spawn => RunAll.StepKeepsStops(run, RunAll.Event.Spawn);
      case AwaitJoin => RunAll.StepKeepsStops(run, RunAll.AwaitJoin);
      case Complete(i, o) =>
        assert TaskOk(run, s.phase.tasks[i], run.children[i]);
        RunAll.StepKeepsStops(run, RunAll.Complete(i, o));
      case _ =>
    }
  }

  /** When a group whose tasks stop only when asked is joined with a value, every one of them ended with a value. */
  lemma JoinedWithValue(s: State, place: nat)
    requires PhaseOk(s) && StopsAsked(s) && Enabled(s, Join) && !Step(s, Join).phase.Done?
    requires place < |Places(s.items[s.current])|
    ensures place < |s.phase.tasks| && s.phase.tasks[place] == Over(RunAll.Value)
  {
    var run := s.phase.group.value;
    RunAll.JoinedScopeIsEmpty(run);
    assert TaskOk(run, s.phase.tasks[place], run.children[place]);
    assert run.children[place] in run.children;
  }

  /** All there is to report of a command has been reported. */
  ghost predicate IsComplete(s: State, item: nat, place: nat)
    requires item < |s.items| && place < |Places(s.items[item])|
  {
    ReportsMatch(Places(s.items[item])[place], Over(RunAll.Value), Reported(s.log, item, place))
  }

  ghost predicate PastIsComplete(s: State) {
    forall item: nat, place: nat :: item < s.current && item < |s.items| && place < |Places(s.items[item])| ==>
      IsComplete(s, item, place)
  }

  lemma LeftIsComplete(s: State, e: Event, place: nat)
    requires PhaseOk(s) && Enabled(s, e) && StopsAsked(s) && s.current < Step(s, e).current
    requires place < |Places(s.items[s.current])| && PlaceOk(s, s.current, place)
    ensures IsComplete(Step(s, e), s.current, place)
  {
    var c := Places(s.items[s.current])[place];
    var reports := Reported(s.log, s.current, place);
    StepReports(s, e, s.current, place);
    if e.Complete? {
      ReportsAdvance(c, s.phase.tasks[place], Over(e.outcome), reports, Added(s, e, s.current, place));
    } else {
      JoinedWithValue(s, place);
      assert reports + [] == reports;
    }
  }

  lemma StepKeepsPast(s: State, e: Event)
    requires Inv(s) && Enabled(s, e) && StopsAsked(s) && PastIsComplete(s)
    ensures PastIsComplete(Step(s, e))
  {
    var s' := Step(s, e);
    forall item: nat, place: nat | item < s'.current && item < |s.items| && place < |Places(s.items[item])|
      ensures IsComplete(s', item, place)
    {
      if item < s.current {
        assert IsComplete(s, item, place);
        StepReports(s, e, item, place);
        assert Reported(s'.log, item, place) == Reported(s.log, item, place);
      } else {
        assert PlaceOk(s, item, place);
        LeftIsComplete(s, e, place);
      }
    }
  }

  lemma {:induction false} RunKeepsPast(s: State, events: seq<Event>)
    requires Inv(s) && StopsAsked(s) && PastIsComplete(s) && IsRun(s, events) && ObeyingRun(s, events)
    ensures PastIsComplete(Run(s, events))
    decreases |events|
  {
    if events != [] {
      StepKeepsInv(s, events[0]);
      StepKeepsStopsAsked(s, events[0]);
      StepKeepsPast(s, events[0]);
      RunKeepsPast(Step(s, events[0]), events[1..]);
    }
  }

  /** If tasks stop only when asked, the items that are past are fully reported: every command that does something as in
      progress and then as finished, once each. */
  lemma PastIsReported(items: seq<Item>, stop: bool, events: seq<Event>)
    requires IsRun(Init(items, stop), events) && ObeyingRun(Init(items, stop), events)
    ensures PastIsComplete(Run(Init(items, stop), events))
  {
    assert Inv(Init(items, stop));
    RunKeepsPast(Init(items, stop), events);
  }

  /** A command that does something was left without a final report, and will not get one. */
  ghost predicate IsStuck(s: State, item: nat, place: nat) {
    && item < |s.items| && place < |Places(s.items[item])| && Places(s.items[item])[place].Act?
    && Reported(s.log, item, place) <= [InProgress]
    && (|| item < s.current
        || (item == s.current && s.phase.Done?)
        || (item == s.current && s.phase.Inside? && place < |s.phase.tasks| && s.phase.tasks[place].Over?))
  }

  lemma StepKeepsStuck(s: State, e: Event, item: nat, place: nat)
    requires PhaseOk(s) && Enabled(s, e) && IsStuck(s, item, place)
    ensures IsStuck(Step(s, e), item, place)
  {
    StepReports(s, e, item, place);
    assert Added(s, e, item, place) == [];
    assert Reported(Step(s, e).log, item, place) == Reported(s.log, item, place);
  }

  lemma UnaskedIsStuck(s: State, e: Event)
    requires Inv(s) && Enabled(s, e) && !Obeys(s, e)
    ensures IsStuck(Step(s, e), s.current, e.place)
  {
    assert PlaceOk(s, s.current, e.place);
    StepReports(s, e, s.current, e.place);
    assert Reported(Step(s, e).log, s.current, e.place) == Reported(s.log, s.current, e.place);
  }

  lemma {:induction false} StuckForever(s: State, events: seq<Event>, item: nat, place: nat)
    requires IsRun(s, events) && IsStuck(s, item, place)
    ensures IsStuck(Run(s, events), item, place)
    decreases |events|
  {
    if events != [] {
      StepKeepsStuck(s, events[0], item, place);
      StuckForever(Step(s, events[0]), events[1..], item, place);
    }
  }

  lemma {:induction false} UnaskedStopShows(s: State, events: seq<Event>) returns (item: nat, place: nat)
    requires Inv(s) && IsRun(s, events) && !ObeyingRun(s, events)
    ensures IsStuck(Run(s, events), item, place)
    decreases |events|
  {
    StepKeepsInv(s, events[0]);
    if Obeys(s, events[0]) {
      item, place := UnaskedStopShows(Step(s, events[0]), events[1..]);
    } else {
      item, place := s.current, events[0].place;
      UnaskedIsStuck(s, events[0]);
      StuckForever(Step(s, events[0]), events[1..], item, place);
    }
  }

  /** A successful recipe has reported every command that does something as in progress and then as finished, once each,
      if and only if none of them stopped unasked. */
  lemma SuccessIsReported(items: seq<Item>, stop: bool, events: seq<Event>)
    requires IsRun(Init(items, stop), events) && Run(Init(items, stop), events).phase == Done(RunAll.Value)
    ensures ObeyingRun(Init(items, stop), events)
            <==> forall item: nat, place: nat :: item < |items| && place < |Places(items[item])| ==>
                   Reported(Run(Init(items, stop), events).log, item, place)
                   == if Places(items[item])[place].Nothing? then [] else [InProgress, Finished]
  {
    var s0, s := Init(items, stop), Run(Init(items, stop), events);
    assert Inv(s0);
    KeepsItems(s0, events);
    RunKeepsInv(s0, events);
    if ObeyingRun(s0, events) {
      PastIsReported(items, stop, events);
      forall item: nat, place: nat | item < |items| && place < |Places(items[item])|
        ensures Reported(s.log, item, place)
                == if Places(items[item])[place].Nothing? then [] else [InProgress, Finished]
      {
        assert IsComplete(s, item, place);
      }
    } else {
      var item, place := UnaskedStopShows(s0, events);
      assert Reported(s.log, item, place) != [InProgress, Finished];
    }
  }

  /** The only group of a recipe, under way without a stop or an error. */
  function LoneGroup(id: int, at: RunAll.Point, children: seq<RunAll.Child>, count: int, tasks: seq<Task>): State {
    State([Parallel([Act(id)])], 0,
          Inside(Some(RunAll.State(RunAll.StopOnError, 1, at, children, count, None, false, false, None)), tasks), false, [])
  }

  lemma LoneGroupSpawns(id: int)
    ensures var s := LoneGroup(id, RunAll.Spawning, [], 0, []);
            && PhaseOk(s) && Enabled(s, Spawn)
            && Step(s, Spawn) == LoneGroup(id, RunAll.Spawning, [RunAll.Running], 1, [Idle])
            && PhaseOk(Step(s, Spawn))
  {
    var s := LoneGroup(id, RunAll.Spawning, [], 0, []);
    StepKeepsPhase(s, Spawn);
    assert s.phase.group.value.children + [RunAll.Running] == [RunAll.Running];
    assert s.phase.tasks + [Idle] == [Idle];
  }

  lemma LoneGroupStops(id: int)
    requires PhaseOk(LoneGroup(id, RunAll.Spawning, [RunAll.Running], 1, [Idle]))
    ensures var s, e := LoneGroup(id, RunAll.Spawning, [RunAll.Running], 1, [Idle]), Complete(0, RunAll.Stopped);
            && Enabled(s, e) && !Obeys(s, e) && PhaseOk(Step(s, e))
            && Step(s, e) == LoneGroup(id, RunAll.Spawning, [RunAll.Ended(RunAll.Stopped)], 0, [Over(RunAll.Stopped)])
  {
    var s := LoneGroup(id, RunAll.Spawning, [RunAll.Running], 1, [Idle]);
    assert TaskOk(s.phase.group.value, Idle, RunAll.Running);
    StepKeepsPhase(s, Complete(0, RunAll.Stopped));
    assert [RunAll.Running][0 := RunAll.Ended(RunAll.Stopped)] == [RunAll.Ended(RunAll.Stopped)];
    assert [Idle][0 := Over(RunAll.Stopped)] == [Over(RunAll.Stopped)];
  }

  lemma LoneGroupJoins(id: int)
    requires PhaseOk(LoneGroup(id, RunAll.Spawning, [RunAll.Ended(RunAll.Stopped)], 0, [Over(RunAll.Stopped)]))
    ensures var s := LoneGroup(id, RunAll.Spawning, [RunAll.Ended(RunAll.Stopped)], 0, [Over(RunAll.Stopped)]);
            && Enabled(s, AwaitJoin) && PhaseOk(Step(s, AwaitJoin)) && Enabled(Step(s, AwaitJoin), Join)
            && Step(Step(s, AwaitJoin), Join) == State([Parallel([Act(id)])], 1, Between, false, [])
  {
    StepKeepsPhase(LoneGroup(id, RunAll.Spawning, [RunAll.Ended(RunAll.Stopped)], 0, [Over(RunAll.Stopped)]), AwaitJoin);
  }

  lemma LoneGroupEnds(id: int)
    requires PhaseOk(LoneGroup(id, RunAll.Spawning, [RunAll.Ended(RunAll.Stopped)], 0, [Over(RunAll.Stopped)]))
    ensures var s := LoneGroup(id, RunAll.Spawning, [RunAll.Ended(RunAll.Stopped)], 0, [Over(RunAll.Stopped)]);
            && IsRun(s, [AwaitJoin, Join, Enter])
            && Run(s, [AwaitJoin, Join, Enter]) == State([Parallel([Act(id)])], 1, Done(RunAll.Value), false, [])
  {
    var s := LoneGroup(id, RunAll.Spawning, [RunAll.Ended(RunAll.Stopped)], 0, [Over(RunAll.Stopped)]);
    LoneGroupJoins(id);
    var last := State([Parallel([Act(id)])], 1, Between, false, []);
    RunFront(last, Enter, []);
    RunFront(Step(s, AwaitJoin), Join, [Enter]);
    RunFront(s, AwaitJoin, [Join, Enter]);
  }

  /** A command that stops of its own accord in a group is passed over: the recipe succeeds without a report of it. */
  lemma UnaskedStopIsPassedOver(id: int)
    ensures var s0 := Init([Parallel([Act(id)])], false);
            var events := [Enter, Spawn, Complete(0, RunAll.Stopped), AwaitJoin, Join, Enter];
            && IsRun(s0, events) && !ObeyingRun(s0, events)
            && Run(s0, events).phase == Done(RunAll.Value) && Run(s0, events).log == []
  {
    var s0 := Init([Parallel([Act(id)])], false);
    LoneGroupSpawns(id);
    LoneGroupStops(id);
    var s1 := LoneGroup(id, RunAll.Spawning, [], 0, []);
    LoneGroupEnds(id);
    RunFront(Step(s1, Spawn), Complete(0, RunAll.Stopped), [AwaitJoin, Join, Enter]);
    RunFront(s1, Spawn, [Complete(0, RunAll.Stopped), AwaitJoin, Join, Enter]);
    RunFront(s0, Enter, [Spawn, Complete(0, RunAll.Stopped), AwaitJoin, Join, Enter]);
  }

  lemma RunFront(s: State, e: Event, events: seq<Event>)
    requires PhaseOk(s) && Enabled(s, e) && IsRun(Step(s, e), events)
    ensures IsRun(s, [e] + events) && Run(s, [e] + events) == Run(Step(s, e), events)
    ensures ObeyingRun(s, [e] + events) <==> Obeys(s, e) && ObeyingRun(Step(s, e), events)
  {
    assert ([e] + events)[1..] == events;
  }

  // ---- Where a stop comes from ----

  predicate StopsCaller(events: seq<Event>) {
    exists i | 0 <= i < |events| :: events[i] == RequestStop
  }

  /** A command that ended stopped. */
  predicate StopsCommand(events: seq<Event>) {
    exists i | 0 <= i < |events| :: events[i].Complete? && events[i].outcome.Stopped?
  }

  lemma StopsAppend(events: seq<Event>, e: Event)
    ensures StopsCaller(events + [e]) <==> StopsCaller(events) || e == RequestStop
    ensures StopsCommand(events + [e]) <==> StopsCommand(events) || (e.Complete? && e.outcome.Stopped?)
  {
    assert (events + [e])[|events|] == e;
    if StopsCaller(events) {
      var i: nat :| i < |events| && events[i] == RequestStop;
      assert (events + [e])[i] == RequestStop;
    }
    if StopsCommand(events) {
      var i: nat :| i < |events| && events[i].Complete? && events[i].outcome.Stopped?;
      assert (events + [e])[i] == events[i];
    }
  }

  ghost predicate StopOk(s: State, stopped: bool, past: seq<Event>) {
    && s.stop == (stopped || StopsCaller(past))
    && (s.phase == Done(RunAll.Stopped) ==> s.stop || StopsCommand(past))
  }

  lemma StepKeepsStopOk(s: State, stopped: bool, past: seq<Event>, e: Event)
    requires PhaseOk(s) && Enabled(s, e) && StopOk(s, stopped, past)
    ensures StopOk(Step(s, e), stopped, past + [e])
  {
    StopsAppend(past, e);
  }

  lemma {:induction false} RunKeepsStopOk(s: State, stopped: bool, past: seq<Event>, events: seq<Event>)
    requires IsRun(s, events) && StopOk(s, stopped, past)
    ensures StopOk(Run(s, events), stopped, past + events)
    decreases |events|
  {
    if events == [] {
      assert past + [] == past;
    } else {
      StepKeepsStopOk(s, stopped, past, events[0]);
      RunKeepsStopOk(Step(s, events[0]), stopped, past + [events[0]], events[1..]);
      assert past + [events[0]] + events[1..] == past + events;
    }
  }

  /** A recipe ends stopped only if the caller was stopped, before or during it, or one of its commands ended stopped. */
  lemma StoppedWasAsked(items: seq<Item>, stop: bool, events: seq<Event>)
    requires IsRun(Init(items, stop), events) && Run(Init(items, stop), events).phase == Done(RunAll.Stopped)
    ensures stop || StopsCaller(events) || StopsCommand(events)
  {
    RunKeepsStopOk(Init(items, stop), stop, [], events);
    assert [] + events == events;
  }

  // ---- Every recipe can be carried out ----

  /** Nobody stops and nothing fails. */
  predicate IsSmooth(e: Event) {
    e != RequestStop && (e.Complete? ==> e.outcome == RunAll.Value)
  }

  /** No stop was asked for and no task has ended but with a value. */
  ghost predicate IsHealthy(s: State) {
    && PhaseOk(s) && !s.stop && !s.phase.Done?
    && (s.phase.Inside? ==>
          && (s.phase.group.Some? ==> s.phase.group.value.firstError.None?)
          && forall t <- s.phase.tasks :: t.Over? ==> t == Over(RunAll.Value))
  }

  function TaskWork(t: Task): nat {
    match t case Idle => 2 case Busy => 1 case Over(_) => 0
  }

  function TasksWork(tasks: seq<Task>): nat {
    if tasks == [] then 0 else TaskWork(tasks[0]) + TasksWork(tasks[1..])
  }

  lemma {:induction false} WorkUpdated(tasks: seq<Task>, i: nat, t: Task)
    requires i < |tasks|
    ensures TasksWork(tasks[i := t]) == TasksWork(tasks) - TaskWork(tasks[i]) + TaskWork(t)
    decreases i
  {
    if i == 0 {
      assert tasks[i := t][1..] == tasks[1..];
    } else {
      WorkUpdated(tasks[1..], i - 1, t);
      assert tasks[i := t][1..] == tasks[1..][i - 1 := t];
    }
  }

  /** The first task that is not over, or their number. */
  function FirstOpen(tasks: seq<Task>): (i: nat)
    ensures i <= |tasks| && (i < |tasks| ==> !tasks[i].Over?)
    ensures forall j | 0 <= j < i :: tasks[j].Over?
  {
    if tasks == [] || !tasks[0].Over? then 0 else 1 + FirstOpen(tasks[1..])
  }

  /** One way to go on. */
  function NextEvent(s: State): Event {
    match s.phase
    case Between => Enter
    case Done(_) => Enter
    case Inside(group, tasks) =>
      if group.Some? && group.value.at == RunAll.Spawning then
        if |group.value.children| < group.value.tasks then Spawn else AwaitJoin
      else
        var i := FirstOpen(tasks);
        if i == |tasks| then Join else if tasks[i] == Idle then Start(i) else Complete(i, RunAll.Value)
  }

  lemma {:induction false} NoneRunning(children: seq<RunAll.Child>)
    requires forall c <- children :: c.Ended?
    ensures RunAll.CountRunning(children) == 0
    decreases |children|
  {
    if children != [] {
      assert children[0] in children;
      NoneRunning(children[1..]);
    }
  }

  lemma JoinIsEnabled(s: State)
    requires PhaseOk(s) && s.phase.Inside? && s.phase.group.Some? && s.phase.group.value.at == RunAll.Joining
    requires forall t <- s.phase.tasks :: t.Over?
    ensures Enabled(s, Join)
  {
    var run, tasks := s.phase.group.value, s.phase.tasks;
    forall c <- run.children ensures c.Ended? {
      var i: nat :| i < |run.children| && run.children[i] == c;
      assert TaskOk(run, tasks[i], run.children[i]) && tasks[i] in tasks;
    }
    NoneRunning(run.children);
  }

  /** No recipe is ever stuck: without a stop or a failure something can happen next. */
  lemma NextIsEnabled(s: State)
    requires PhaseOk(s) && !s.phase.Done?
    ensures Enabled(s, NextEvent(s)) && IsSmooth(NextEvent(s))
  {
    if NextEvent(s).Join? {
      if s.phase.group.Some? {
        JoinIsEnabled(s);
      }
    } else if NextEvent(s).Complete? && s.phase.group.Some? {
      var i := NextEvent(s).place;
      assert TaskOk(s.phase.group.value, s.phase.tasks[i], s.phase.group.value.children[i]);
    }
  }

  /** A healthy state stays healthy, or the recipe has succeeded. */
  lemma NextIsHealthy(s: State)
    requires IsHealthy(s) && Enabled(s, NextEvent(s))
    ensures IsHealthy(Step(s, NextEvent(s))) || Step(s, NextEvent(s)).phase == Done(RunAll.Value)
  {
    StepKeepsPhase(s, NextEvent(s));
  }

  function PhaseWork(p: Phase): nat {
    match p case Between => 2 case Inside(_, _) => 1 case Done(_) => 0
  }

  function ToSpawn(p: Phase): int {
    if p.Inside? && p.group.Some?
    then p.group.value.tasks - |p.group.value.children| + if p.group.value.at == RunAll.Spawning then 1 else 0
    else 0
  }

  function OpenWork(p: Phase): nat {
    if p.Inside? then TasksWork(p.tasks) else 0
  }

  /** Later in the recipe, or with less to do before the next item. */
  ghost predicate IsFurther(s: State, s': State) {
    var (p, p') := (s.phase, s'.phase);
    || s.current < s'.current
    || (s'.current == s.current && PhaseWork(p') < PhaseWork(p))
    || (s'.current == s.current && PhaseWork(p') == PhaseWork(p) && ToSpawn(p') < ToSpawn(p))
    || (s'.current == s.current && PhaseWork(p') == PhaseWork(p) && ToSpawn(p') == ToSpawn(p) && OpenWork(p') < OpenWork(p))
  }

  lemma TaskIsProgress(s: State)
    requires PhaseOk(s) && Enabled(s, NextEvent(s)) && (NextEvent(s).Start? || NextEvent(s).Complete?)
    ensures IsFurther(s, Step(s, NextEvent(s)))
  {
    var e := NextEvent(s);
    WorkUpdated(s.phase.tasks, e.place, if e.Start? then Busy else Over(RunAll.Value));
  }

  lemma NextIsProgress(s: State)
    requires PhaseOk(s) && !s.phase.Done? && Enabled(s, NextEvent(s)) && PhaseOk(Step(s, NextEvent(s)))
    ensures IsFurther(s, Step(s, NextEvent(s))) && ToSpawn(s.phase) >= 0
    ensures Step(s, NextEvent(s)).items == s.items && Step(s, NextEvent(s)).current <= |s.items|
  {
    var e := NextEvent(s);
    if e.Start? || e.Complete? {
      TaskIsProgress(s);
    }
  }

  /** From wherever a recipe stands it can still come to its end, and to a success if nothing has been stopped or failed. */
  lemma {:induction false} CanEnd(s: State) returns (events: seq<Event>)
    requires PhaseOk(s) && !s.phase.Done?
    ensures IsRun(s, events) && Run(s, events).phase.Done? && forall e <- events :: IsSmooth(e)
    ensures IsHealthy(s) ==> Run(s, events).phase == Done(RunAll.Value)
    decreases |s.items| - s.current, PhaseWork(s.phase), ToSpawn(s.phase), OpenWork(s.phase)
  {
    var e := NextEvent(s);
    NextIsEnabled(s);
    StepKeepsPhase(s, e);
    NextIsProgress(s);
    if IsHealthy(s) {
      NextIsHealthy(s);
    }
    if Step(s, e).phase.Done? {
      events := [];
    } else {
      events := CanEnd(Step(s, e));
    }
    RunFront(s, e, events);
    events := [e] + events;
  }

  lemma {:induction false} SmoothObeys(s: State, events: seq<Event>)
    requires IsRun(s, events) && forall e <- events :: IsSmooth(e)
    ensures ObeyingRun(s, events)
    decreases |events|
  {
    if events != [] {
      assert events[0] in events;
      SmoothObeys(Step(s, events[0]), events[1..]);
    }
  }

  /** Every recipe can be carried out: there is a run without stops and failures that ends in success, with every command
      that does something reported as in progress and then as finished. */
  lemma RecipeCanSucceed(items: seq<Item>) returns (events: seq<Event>)
    ensures IsRun(Init(items, false), events) && forall e <- events :: IsSmooth(e)
    ensures Run(Init(items, false), events).phase == Done(RunAll.Value)
    ensures forall item: nat, place: nat :: item < |items| && place < |Places(items[item])| ==>
              Reported(Run(Init(items, false), events).log, item, place)
              == if Places(items[item])[place].Nothing? then [] else [InProgress, Finished]
  {
    events := CanEnd(Init(items, false));
    SmoothObeys(Init(items, false), events);
    SuccessIsReported(items, false, events);
  }

  // ---- The first failure ----

  predicate Fails(e: Event) {
    e.Complete? && e.outcome.Failed?
  }

  function FirstFailure(events: seq<Event>): Option<RunAll.Error>
    decreases |events|
  {
    if events == [] then None
    else if Fails(events[0]) then Some(events[0].outcome.error)
    else FirstFailure(events[1..])
  }

  /** How the failures so far show in the state. */
  ghost predicate FailureOk(s: State, failure: Option<RunAll.Error>) {
    match s.phase
    case Between => failure.None?
    case Inside(group, _) => failure == if group.Some? then group.value.firstError else None
    case Done(o) => failure == if o.Failed? then Some(o.error) else None
  }

  /** The first failure, with one event more. */
  function FailureAfter(failure: Option<RunAll.Error>, e: Event): Option<RunAll.Error> {
    if failure.None? && Fails(e) then Some(e.outcome.error) else failure
  }

  lemma StepFailure(s: State, e: Event, failure: Option<RunAll.Error>)
    requires PhaseOk(s) && Enabled(s, e) && FailureOk(s, failure)
    ensures FailureOk(Step(s, e), FailureAfter(failure, e))
  {
  }

  lemma {:induction false} RunFailure(s: State, events: seq<Event>, failure: Option<RunAll.Error>)
    requires IsRun(s, events) && FailureOk(s, failure)
    ensures FailureOk(Run(s, events), if failure.Some? then failure else FirstFailure(events))
    decreases |events|
  {
    if events != [] {
      StepFailure(s, events[0], failure);
      RunFailure(Step(s, events[0]), events[1..], FailureAfter(failure, events[0]));
    }
  }

  lemma StepAfterFailure(s: State, e: Event, f: RunAll.Error)
    requires PhaseOk(s) && Enabled(s, e) && FailureOk(s, Some(f))
    ensures FailureOk(Step(s, e), Some(f)) && Step(s, e).current == s.current
  {
  }

  /** Once a task has failed, the recipe stays at its item. */
  lemma {:induction false} FailureIsLast(s: State, events: seq<Event>, f: RunAll.Error)
    requires IsRun(s, events) && FailureOk(s, Some(f))
    ensures Run(s, events).current == s.current
    decreases |events|
  {
    if events != [] {
      StepAfterFailure(s, events[0], f);
      FailureIsLast(Step(s, events[0]), events[1..], f);
    }
  }

  lemma {:induction false} RunInTwo(s: State, a: seq<Event>, b: seq<Event>)
    requires IsRun(s, a + b)
    ensures IsRun(s, a) && IsRun(Run(s, a), b) && Run(s, a + b) == Run(Run(s, a), b)
    decreases |a|
  {
    if a == [] {
      assert a + b == b;
    } else {
      assert (a + b)[1..] == a[1..] + b;
      RunInTwo(Step(s, a[0]), a[1..], b);
    }
  }

  /** Event `m` happens in the very item at which the whole run stands in the end. */
  ghost predicate IsInLastItem(items: seq<Item>, stop: bool, events: seq<Event>, m: nat)
    requires m < |events| && IsRun(Init(items, stop), events)
  {
    && IsRun(Init(items, stop), events[..m])
    && Run(Init(items, stop), events[..m]).phase.Inside?
    && Run(Init(items, stop), events[..m]).current == Run(Init(items, stop), events).current
  }

  lemma FailsInLastItem(items: seq<Item>, stop: bool, events: seq<Event>, m: nat)
    requires m < |events| && IsRun(Init(items, stop), events) && Fails(events[m])
    ensures IsInLastItem(items, stop, events, m)
  {
    var s0, before, after := Init(items, stop), events[..m], events[m..];
    assert before + after == events;
    RunInTwo(s0, before, after);
    RunFailure(s0, before, None);
    var s := Run(s0, before);
    FailureAtOnce(s, events[m], FirstFailure(before));
    var f: RunAll.Error :| FailureOk(Step(s, events[m]), Some(f));
    FailureIsLast(Step(s, events[m]), after[1..], f);
  }

  lemma FailureAtOnce(s: State, e: Event, failure: Option<RunAll.Error>)
    requires PhaseOk(s) && Enabled(s, e) && Fails(e) && FailureOk(s, failure)
    ensures Step(s, e).current == s.current && s.phase.Inside?
    ensures FailureOk(Step(s, e), Some(if failure.Some? then failure.value else e.outcome.error))
  {
  }

  /** For every recipe and every interleaving of its tasks and of a stop of the caller: the updates of an item all
      precede those of the next; a command is reported as in progress before it is reported as finished, each at most
      once; nothing is reported of empty commands and of items that were not reached; items that are past are fully
      reported if tasks stop only when asked; the recipe fails with the first failure of any of its tasks; whatever fails
      belongs to the item at which the run stands in the end, so that no later item is started after a failure; and a
      success means that all items are past. */
  lemma RecipeIsReported(items: seq<Item>, stop: bool, events: seq<Event>)
    requires IsRun(Init(items, stop), events)
    ensures var s := Run(Init(items, stop), events);
            && (forall i, j | 0 <= i < j < |s.log| :: s.log[i].item <= s.log[j].item)
            && (s.phase.Done? ==> (s.phase.outcome.Failed? <==> FirstFailure(events).Some?))
            && (s.phase.Done? && s.phase.outcome.Failed? ==> s.phase.outcome.error == FirstFailure(events).value)
            && (forall m: nat :: m < |events| && Fails(events[m]) ==> IsInLastItem(items, stop, events, m))
            && (s.phase == Done(RunAll.Value) ==> s.current == |s.items|)
    ensures ObeyingRun(Init(items, stop), events) ==> PastIsComplete(Run(Init(items, stop), events))
    ensures forall item: nat, place: nat :: item < |items| && place < |Places(items[item])| ==>
              Narrated(Run(Init(items, stop), events), Places(items[item])[place], item, place)
  {
    var s0 := Init(items, stop);
    assert Inv(s0);
    RunKeepsInv(s0, events);
    RunFailure(s0, events, None);
    KeepsItems(s0, events);
    if ObeyingRun(s0, events) {
      PastIsReported(items, stop, events);
    }
    forall m: nat | m < |events| && Fails(events[m]) ensures IsInLastItem(items, stop, events, m) {
      FailsInLastItem(items, stop, events, m);
    }
    forall item: nat, place: nat | item < |items| && place < |Places(items[item])|
      ensures Narrated(Run(s0, events), Places(items[item])[place], item, place)
    {
      PlaceIsNarrated(Run(s0, events), item, place);
    }
  }

  /** All that is reported of one command, `c`, at its place of the recipe. */
  ghost predicate Narrated(s: State, c: Command, item: nat, place: nat) {
    var reports := Reported(s.log, item, place);
    && reports <= [InProgress, Finished]
    && (c.Nothing? ==> reports == [])
    && (item > s.current ==> reports == [])
  }

  lemma PlaceIsNarrated(s: State, item: nat, place: nat)
    requires Inv(s) && item < |s.items| && place < |Places(s.items[item])|
    ensures Narrated(s, Places(s.items[item])[place], item, place)
  {
    assert PlaceOk(s, item, place);
    if Places(s.items[item])[place].Nothing? {
      forall i | 0 <= i < |s.log| ensures s.log[i].item != item || s.log[i].place != place {
        assert UpdateOk(s, s.log[i]);
      }
      NotReported(s.log, item, place);
    }
  }

  lemma {:induction false} NotReported(log: seq<Update>, item: nat, place: nat)
    requires forall i | 0 <= i < |log| :: log[i].item != item || log[i].place != place
    ensures Reported(log, item, place) == []
    decreases |log|
  {
    if log != [] {
      NotReported(log[..|log| - 1], item, place);
    }
  }

  lemma {:induction false} KeepsItems(s: State, events: seq<Event>)
    requires IsRun(s, events)
    ensures Run(s, events).items == s.items
    decreases |events|
  {
    if events != [] {
      KeepsItems(Step(s, events[0]), events[1..]);
    }
  }

  /** One execution of a recipe; its methods are what the coroutine does when it is resumed. */
  class Execution {
    const items: seq<Item>
    var current: nat
    var phase: Phase
    var stop: bool
    var log: seq<Update>

    ghost function View(): State reads this {
      State(items, current, phase, stop, log)
    }

    ghost predicate Valid() reads this {
      Inv(View())
    }

    constructor (items: seq<Item>, stop: bool)
      ensures Valid() && View() == Init(items, stop)
    {
      this.items, this.stop := items, stop;
      current, phase, log := 0, Between, [];
    }

    method UpdateCommandStatus(place: nat, status: Status)
      requires current < |items| && place < |Places(items[current])|
      modifies this`log
      ensures log == old(log) + StatusUpdate(old(View()), place, status)
    {
      if Places(items[current])[place].Act? {
        log := log + [Update(current, place, Places(items[current])[place].id, status)];
      }
    }

    /** The loop head: the next item, or the end of the recipe. */
    method EnterItem()
      requires Valid() && Enabled(View(), Enter)
      modifies this
      ensures Valid() && View() == Step(old(View()), Enter)
    {
      StepKeepsInv(View(), Enter);
      if current == |items| {
        phase := Done(RunAll.Value);
      } else if items[current].One? {
        phase := Inside(None, [Idle]);
      } else {
        phase := Inside(Some(RunAll.Init(RunAll.StopOnError, |items[current].commands|, stop)), []);
      }
    }

    /** The spawn loop of the group's `join_all` starts the next task. */
    method SpawnNext()
      requires Valid() && Enabled(View(), Spawn)
      modifies this
      ensures Valid() && View() == Step(old(View()), Spawn)
    {
      StepKeepsInv(View(), Spawn);
      phase := Inside(Some(RunAll.Step(phase.group.value, RunAll.Event.Spawn)), phase.tasks + [Idle]);
    }

    method OnAllSpawned()
      requires Valid() && Enabled(View(), AwaitJoin)
      modifies this
      ensures Valid() && View() == Step(old(View()), AwaitJoin)
    {
      StepKeepsInv(View(), AwaitJoin);
      phase := phase.(group := Some(RunAll.Step(phase.group.value, RunAll.AwaitJoin)));
    }

    /** A stop of the caller, which a group that is under way passes on. */
    method OnStopRequested()
      requires Valid() && Enabled(View(), RequestStop)
      modifies this
      ensures Valid() && View() == Step(old(View()), RequestStop)
    {
      StepKeepsInv(View(), RequestStop);
      stop := true;
      if phase.Inside? && phase.group.Some? {
        phase := phase.(group := Some(RunAll.Step(phase.group.value, RunAll.RequestStop)));
      }
    }

    method StartCommand(place: nat)
      requires Valid() && Enabled(View(), Start(place))
      modifies this
      ensures Valid() && View() == Step(old(View()), Start(place))
    {
      StepKeepsInv(View(), Start(place));
      UpdateCommandStatus(place, InProgress);
      phase := phase.(tasks := phase.tasks[place := Busy]);
    }

    method CompleteCommand(place: nat, outcome: Outcome)
      requires Valid() && Enabled(View(), Complete(place, outcome))
      modifies this
      ensures Valid() && View() == Step(old(View()), Complete(place, outcome))
    {
      ghost var before := View();
      StepKeepsInv(before, Complete(place, outcome));
      if outcome.Value? {
        UpdateCommandStatus(place, Finished);
      }
      if phase.group.Some? {
        assert TaskOk(phase.group.value, phase.tasks[place], phase.group.value.children[place]);
        phase := Inside(Some(RunAll.Step(phase.group.value, RunAll.Complete(place, outcome))),
                        phase.tasks[place := Over(outcome)]);
      } else if outcome.Value? {
        current, phase := current + 1, Between;
      } else {
        phase := Done(outcome);
      }
      assert View() == Step(before, Complete(place, outcome));
    }

    method JoinGroup()
      requires Valid() && Enabled(View(), Join)
      modifies this
      ensures Valid() && View() == Step(old(View()), Join)
    {
      StepKeepsInv(View(), Join);
      var outcome := RunAll.Step(phase.group.value, RunAll.Finish).result.value;
      if outcome.Value? {
        current, phase := current + 1, Between;
      } else {
        phase := Done(outcome);
      }
    }
  }
}
