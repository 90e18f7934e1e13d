/** The pod list of the user interface, updated through the event queue of the Slint thread, and the live pod states
    it has to agree with. */
module PodUi {
  import opened Sequences

  datatype ConnectionState = Disconnected | Connecting | Connected

  datatype PodConnection = UnknownState | IsDisconnected | IsConnecting | IsConnected

  function ToUi(state: PodConnection): ConnectionState {
    match state
    case UnknownState => Disconnected
    case IsDisconnected => Disconnected
    case IsConnecting => Connecting
    case IsConnected => Connected
  }

  datatype PodInfo = PodInfo(id: string, pumps: nat, valves: nat)

  datatype PodData = PodData(info: PodInfo, connection: ConnectionState)

  const NEW_POD := PodData(PodInfo("", 0, 0), Disconnected)

  datatype DispenserType = Pump | Valve

  datatype Dispenser = Dispenser(id: nat, kind: DispenserType)

  datatype Row = Row(id: string, connection: ConnectionState, dispensers: seq<Dispenser>)

  /** Pumps first, then valves, numbered through. */
  function Dispensers(pumps: nat, valves: nat): seq<Dispenser> {
    seq(pumps + valves, i requires 0 <= i => Dispenser(i, if i < pumps then Pump else Valve))
  }

  /** The row that shows a pod. */
  function RowOf(pod: PodData): Row {
    Row(pod.info.id, pod.connection, Dispensers(pod.info.pumps, pod.info.valves))
  }

  // ---- The model on the Slint thread ----

  datatype UiEvent = UpdatePod(pod: PodData) | RemovePod(pod: PodData)

  function IndexOf(rows: seq<Row>, id: string): (i: nat)
    ensures i <= |rows| && (i < |rows| ==> rows[i].id == id)
    ensures forall j | 0 <= j < i :: rows[j].id != id
  {
    if rows == [] || rows[0].id == id then 0 else 1 + IndexOf(rows[1..], id)
  }

  /** The row after an update; the dispenser list is rebuilt only when its length does not fit. */
  function Refreshed(row: Row, pod: PodData): Row {
    Row(pod.info.id, pod.connection,
        if |row.dispensers| != pod.info.pumps + pod.info.valves then Dispensers(pod.info.pumps, pod.info.valves)
        else row.dispensers)
  }

  function HasOtherId(id: string): Row -> bool {
    (row: Row) => row.id != id
  }

  function Without(rows: seq<Row>, id: string): seq<Row> {
    Filter(rows, HasOtherId(id))
  }

  function Apply(rows: seq<Row>, e: UiEvent): seq<Row> {
    match e
    case UpdatePod(pod) =>
      var i := IndexOf(rows, pod.info.id);
      if i < |rows| then rows[i := Refreshed(rows[i], pod)]
      else if pod.info.id == "" then rows
      else rows + [Refreshed(Row("", Disconnected, []), pod)]
    case RemovePod(pod) => Without(rows, pod.info.id)
  }

  function Replay(rows: seq<Row>, queue: seq<UiEvent>): seq<Row>
    decreases |queue|
  {
    if queue == [] then rows else Replay(Apply(rows, queue[0]), queue[1..])
  }

  lemma {:induction false} ReplayAppend(rows: seq<Row>, queue: seq<UiEvent>, more: seq<UiEvent>)
    ensures Replay(rows, queue + more) == Replay(Replay(rows, queue), more)
    decreases |queue|
  {
    if queue == [] {
      assert queue + more == more;
    } else {
      assert (queue + more)[1..] == queue[1..] + more;
      ReplayAppend(Apply(rows, queue[0]), queue[1..], more);
    }
  }

  // ---- The pod states and the bridge ----

  /** `live` are the existing pod states by handle, `named` the handles with an id in the order they got it. */
  datatype State = State(live: map<nat, PodData>, named: seq<nat>, rows: seq<Row>, queue: seq<UiEvent>)

  const INITIAL := State(map[], [], [], [])

  datatype Event =
    | Create(pod: nat)
    | SetInfo(pod: nat, info: PodInfo)
    | SetConnection(pod: nat, connection: PodConnection)
    | Destroy(pod: nat)
    | RunUiEvent

  predicate CanHappen(s: State, e: Event) {
    match e
    case Create(pod) => pod !in s.live
    case SetInfo(pod, _) => pod in s.live
    case SetConnection(pod, _) => pod in s.live
    case Destroy(pod) => pod in s.live
    case RunUiEvent => s.queue != []
  }

  /** A row with the dispensers of `before` comes to show those of `after`. */
  predicate RowFollows(before: PodInfo, after: PodInfo) {
    after.pumps + after.valves == before.pumps + before.valves ==> after.pumps == before.pumps
  }

  /** Each pod state gets its id once, and the ids of live pod states are distinct; an info that is sent again has counts
      that the row can follow. */
  predicate Enabled(s: State, e: Event) {
    CanHappen(s, e)
    && (e.SetInfo? ==>
          && (s.live[e.pod].info.id != "" ==>
                e.info.id == s.live[e.pod].info.id && RowFollows(s.live[e.pod].info, e.info))
          && (e.info.id != "" ==> forall other <- s.live :: other != e.pod ==> s.live[other].info.id != e.info.id))
  }

  function Remove(named: seq<nat>, pod: nat): seq<nat> {
    Filter(named, Except(pod))
  }

  /** A pod is named from its first id on until it has none. */
  function NamedAfter(s: State, pod: nat, info: PodInfo): seq<nat>
    requires pod in s.live
  {
    if s.live[pod].info.id == "" && info.id != "" then s.named + [pod]
    else if s.live[pod].info.id != "" && info.id == "" then Remove(s.named, pod)
    else s.named
  }

  function Step(s: State, e: Event): State
    requires CanHappen(s, e)
  {
    match e
    case Create(pod) => s.(live := s.live[pod := NEW_POD])
    case SetInfo(pod, info) =>
      var data := s.live[pod].(info := info);
      s.(live := s.live[pod := data],
         named := NamedAfter(s, pod, info),
         queue := s.queue + [UpdatePod(data)])
    case SetConnection(pod, connection) =>
      var data := s.live[pod].(connection := ToUi(connection));
      s.(live := s.live[pod := data], queue := s.queue + [UpdatePod(data)])
    case Destroy(pod) =>
      s.(live := s.live - {pod},
         named := Remove(s.named, pod),
         queue := s.queue + [UpdatePod(s.live[pod]), RemovePod(s.live[pod])])
    case RunUiEvent => s.(rows := Apply(s.rows, s.queue[0]), queue := s.queue[1..])
  }

  ghost predicate IsRun(s: State, events: seq<Event>)
    decreases |events|
  {
    events == [] || (Enabled(s, events[0]) && IsRun(Step(s, events[0]), events[1..]))
  }

  ghost function Run(s: State, events: seq<Event>): State
    requires IsRun(s, events)
    decreases |events|
  {
    if events == [] then s else Run(Step(s, events[0]), events[1..])
  }

  // ---- Agreement ----

  /** The named pods, each once, all live, with pairwise distinct ids; every live pod with an id is among them. */
  ghost predicate NamedOk(s: State) {
    && (forall i | 0 <= i < |s.named| :: s.named[i] in s.live && s.live[s.named[i]].info.id != "")
    && (forall i, j | 0 <= i < j < |s.named| :: s.live[s.named[i]].info.id != s.live[s.named[j]].info.id)
    && (forall pod :: pod in s.live && s.live[pod].info.id != "" ==> pod in s.named)
  }

  /** The rows that ought to be shown: one for each live pod with an id, in the order they got it. */
  function Expected(live: map<nat, PodData>, named: seq<nat>): seq<Row>
    requires forall pod <- named :: pod in live
  {
    seq(|named|, i requires 0 <= i < |named| => RowOf(live[named[i]]))
  }

  ghost predicate Inv(s: State) {
    NamedOk(s) && Replay(s.rows, s.queue) == Expected(s.live, s.named)
  }

  /** Dispenser lists of one length tell how many of them are pumps. */
  lemma DispensersTell(pumps: nat, valves: nat, pumps': nat, valves': nat)
    requires pumps + valves == pumps' + valves'
    ensures Dispensers(pumps, valves) == Dispensers(pumps', valves') <==> pumps == pumps'
  {
    if pumps < pumps' {
      assert Dispensers(pumps, valves)[pumps] != Dispensers(pumps', valves')[pumps];
    } else if pumps' < pumps {
      assert Dispensers(pumps, valves)[pumps'] != Dispensers(pumps', valves')[pumps'];
    }
  }

  /** A refreshed row shows the pod if and only if its dispensers could follow. */
  lemma RefreshedShows(row: Row, before: PodInfo, pod: PodData)
    requires row.dispensers == Dispensers(before.pumps, before.valves)
    ensures Refreshed(row, pod) == RowOf(pod) <==> RowFollows(before, pod.info)
  {
    if pod.info.pumps + pod.info.valves == before.pumps + before.valves {
      DispensersTell(before.pumps, before.valves, pod.info.pumps, pod.info.valves);
    }
  }

  /** An update of an unnamed pod does nothing, that of a named pod refreshes its row. */
  lemma ApplyUpdate(rows: seq<Row>, i: nat, pod: PodData)
    requires i <= |rows| && forall j | 0 <= j < |rows| :: rows[j].id == pod.info.id ==> j == i
    requires i < |rows| ==> rows[i].id == pod.info.id
    ensures Apply(rows, UpdatePod(pod))
            == if i < |rows| then rows[i := Refreshed(rows[i], pod)]
               else if pod.info.id == "" then rows else rows + [RowOf(pod)]
  {
    assert IndexOf(rows, pod.info.id) == i;
    assert pod.info.pumps + pod.info.valves == 0 ==> Dispensers(pod.info.pumps, pod.info.valves) == [];
  }

  /** The place of a pod in the expected rows, or their number if it has none. */
  lemma PlaceOf(s: State, pod: nat) returns (i: nat)
    requires NamedOk(s) && pod in s.live
    ensures i <= |s.named| && (i < |s.named| <==> s.live[pod].info.id != "")
    ensures i < |s.named| ==> s.named[i] == pod
    ensures forall j | 0 <= j < |s.named| :: s.live[s.named[j]].info.id == s.live[pod].info.id ==> j == i
    ensures forall j | 0 <= j < |s.named| :: s.named[j] == pod ==> j == i
  {
    if s.live[pod].info.id == "" {
      i := |s.named|;
    } else {
      i :| 0 <= i < |s.named| && s.named[i] == pod;
    }
  }

  lemma ExpectedAt(s: State, j: nat)
    requires NamedOk(s) && j < |s.named|
    ensures var rows := Expected(s.live, s.named);
            && |rows| == |s.named|
            && rows[j] == RowOf(s.live[s.named[j]]) && rows[j].id == s.live[s.named[j]].info.id
  {
  }

  /** The expected rows once the data of a pod have changed. */
  lemma ExpectedChanged(s: State, pod: nat, data: PodData, i: nat)
    requires NamedOk(s) && pod in s.live && i <= |s.named|
    requires forall j | 0 <= j < |s.named| :: s.named[j] == pod <==> j == i
    ensures var live, rows := s.live[pod := data], Expected(s.live, s.named);
            && Expected(live, s.named) == (if i < |rows| then rows[i := RowOf(data)] else rows)
            && (i == |rows| ==> Expected(live, s.named + [pod]) == rows + [RowOf(data)])
  {
  }

  /** Only the row in the pod's own place can have its id. */
  lemma NoOtherRow(s: State, pod: nat, id: string, i: nat)
    requires NamedOk(s) && pod in s.live && i <= |s.named| && (i < |s.named| ==> s.named[i] == pod)
    requires s.live[pod].info.id == "" ==> i == |s.named| && forall other <- s.live :: id != "" ==> s.live[other].info.id != id
    requires s.live[pod].info.id != "" ==> i < |s.named| && id == s.live[pod].info.id
    ensures forall j | 0 <= j < |Expected(s.live, s.named)| :: Expected(s.live, s.named)[j].id == id ==> j == i
  {
    forall j | 0 <= j < |Expected(s.live, s.named)| ensures Expected(s.live, s.named)[j].id == id ==> j == i {
      ExpectedAt(s, j);
    }
  }

  /** An update of a live pod brings the expected rows from its old data to its new data. */
  lemma UpdateIsExpected(s: State, pod: nat, data: PodData)
    requires NamedOk(s) && pod in s.live
    requires s.live[pod].info.id != "" ==>
               data.info.id == s.live[pod].info.id && RowFollows(s.live[pod].info, data.info)
    requires data.info.id != "" && s.live[pod].info.id == "" ==>
               forall other <- s.live :: s.live[other].info.id != data.info.id
    ensures var live := s.live[pod := data];
            var named := if data.info.id != "" && s.live[pod].info.id == "" then s.named + [pod] else s.named;
            && (forall p <- named :: p in live)
            && Apply(Expected(s.live, s.named), UpdatePod(data)) == Expected(live, named)
  {
    var rows := Expected(s.live, s.named);
    var i := PlaceOf(s, pod);
    NoOtherRow(s, pod, data.info.id, i);
    if i < |rows| {
      ExpectedAt(s, i);
      RefreshedShows(rows[i], s.live[pod].info, data);
    }
    ApplyUpdate(rows, i, data);
    ExpectedChanged(s, pod, data, i);
  }

  /** What is named after the destruction of a pod: all but what stands in its place. */
  lemma RemoveNamed(s: State, pod: nat) returns (i: nat)
    requires NamedOk(s) && pod in s.live
    ensures i <= |s.named| && Remove(s.named, pod) == WithoutPlace(s.named, i)
    ensures forall j | 0 <= j < |s.named| :: s.live[s.named[j]].info.id == s.live[pod].info.id <==> j == i
    ensures forall j | 0 <= j < |s.named| :: s.named[j] == pod <==> j == i
  {
    i := PlaceOf(s, pod);
    FilterOne(s.named, Except(pod), i);
  }

  lemma ExpectedWithout(live: map<nat, PodData>, named: seq<nat>, pod: nat, i: nat)
    requires i <= |named| && forall j | 0 <= j < |named| :: named[j] in live && (named[j] == pod <==> j == i)
    ensures var fewer := WithoutPlace(named, i);
            && (forall p <- fewer :: p in live - {pod})
            && Expected(live - {pod}, fewer) == WithoutPlace(Expected(live, named), i)
  {
    var fewer := WithoutPlace(named, i);
    forall j | 0 <= j < |fewer| ensures fewer[j] in live - {pod} {
    }
    var rows, rows' := Expected(live, named), Expected(live - {pod}, fewer);
    forall j | 0 <= j < |rows'| ensures rows'[j] == WithoutPlace(rows, i)[j] {
      assert fewer[j] == named[if j < i then j else j + 1];
    }
  }

  lemma RowsWithout(s: State, id: string, i: nat)
    requires NamedOk(s) && i <= |s.named|
    requires forall j | 0 <= j < |s.named| :: s.live[s.named[j]].info.id == id <==> j == i
    ensures Without(Expected(s.live, s.named), id) == WithoutPlace(Expected(s.live, s.named), i)
  {
    var rows := Expected(s.live, s.named);
    forall j | 0 <= j < |rows| ensures rows[j].id == id <==> j == i {
      ExpectedAt(s, j);
    }
    FilterOne(rows, HasOtherId(id), i);
  }

  /** A removal after the pod is gone takes its row away. */
  lemma RemoveIsExpected(s: State, pod: nat)
    requires NamedOk(s) && pod in s.live
    ensures forall p <- Remove(s.named, pod) :: p in s.live - {pod}
    ensures Without(Expected(s.live, s.named), s.live[pod].info.id) == Expected(s.live - {pod}, Remove(s.named, pod))
  {
    var i := RemoveNamed(s, pod);
    RowsWithout(s, s.live[pod].info.id, i);
    ExpectedWithout(s.live, s.named, pod, i);
  }

  lemma DestroyKeepsDistinct(s: State, i: nat, j: nat, k: nat)
    requires NamedOk(s) && i <= |s.named| && j < k < |WithoutPlace(s.named, i)|
    ensures var fewer := WithoutPlace(s.named, i);
            && fewer[j] in s.live && fewer[k] in s.live
            && s.live[fewer[j]].info.id != s.live[fewer[k]].info.id
  {
  }

  lemma DestroyKeepsNamed(s: State, pod: nat)
    requires NamedOk(s) && pod in s.live
    ensures NamedOk(Step(s, Destroy(pod)))
  {
    var s' := Step(s, Destroy(pod));
    var i := RemoveNamed(s, pod);
    forall j | 0 <= j < |s'.named| ensures s'.named[j] in s'.live && s'.live[s'.named[j]].info.id != "" {
      FilterMembers(s.named, Except(pod), s'.named[j]);
    }
    forall j, k | 0 <= j < k < |s'.named|
      ensures s'.live[s'.named[j]].info.id != s'.live[s'.named[k]].info.id
    {
      DestroyKeepsDistinct(s, i, j, k);
    }
    forall p | p in s'.live && s'.live[p].info.id != "" ensures p in s'.named {
      FilterMembers(s.named, Except(pod), p);
    }
  }

  lemma InfoKeepsNamed(s: State, pod: nat, info: PodInfo)
    requires NamedOk(s) && Enabled(s, SetInfo(pod, info))
    ensures NamedOk(Step(s, SetInfo(pod, info)))
  {
  }

  lemma StepKeepsNamed(s: State, e: Event)
    requires NamedOk(s) && Enabled(s, e)
    ensures NamedOk(Step(s, e))
  {
    match e
    case SetInfo(pod, info) => InfoKeepsNamed(s, pod, info);
    case Destroy(pod) => DestroyKeepsNamed(s, pod);
    case _ =>
  }

  lemma ReplayTwo(rows: seq<Row>, queue: seq<UiEvent>, a: UiEvent, b: UiEvent)
    ensures Replay(rows, queue + [a]) == Apply(Replay(rows, queue), a)
    ensures Replay(rows, queue + [a, b]) == Apply(Apply(Replay(rows, queue), a), b)
  {
    ReplayAppend(rows, queue, [a]);
    ReplayAppend(rows, queue, [a, b]);
    var r := Replay(rows, queue);
    assert [a, b][1..] == [b] && [a][1..] == [] && [b][1..] == [];
    assert Replay(r, [a]) == Replay(Apply(r, a), []);
    assert Replay(r, [a, b]) == Replay(Apply(r, a), [b]) == Replay(Apply(Apply(r, a), b), []);
  }

  lemma StepKeepsInv(s: State, e: Event)
    requires Inv(s) && Enabled(s, e)
    ensures Inv(Step(s, e))
  {
    StepKeepsNamed(s, e);
    match e
    case Create(pod) =>
      assert Expected(s.live[pod := NEW_POD], s.named) == Expected(s.live, s.named);
    case SetInfo(pod, info) =>
      var data := s.live[pod].(info := info);
      UpdateIsExpected(s, pod, data);
      ReplayTwo(s.rows, s.queue, UpdatePod(data), UpdatePod(data));
    case SetConnection(pod, connection) =>
      var data := s.live[pod].(connection := ToUi(connection));
      UpdateIsExpected(s, pod, data);
      ReplayTwo(s.rows, s.queue, UpdatePod(data), UpdatePod(data));
    case Destroy(pod) =>
      var data := s.live[pod];
      UpdateIsExpected(s, pod, data);
      assert s.live[pod := data] == s.live;
      RemoveIsExpected(s, pod);
      ReplayTwo(s.rows, s.queue, UpdatePod(data), RemovePod(data));
    case RunUiEvent =>
  }

  /** After any sequence of pod creations, identifications, connection changes and destructions, with the Slint thread
      as far behind as it may be: the pending events, replayed on the rows shown, give exactly one row for each live pod
      with an id, in the order they got it, with its latest connection state and its pumps and then its valves, and
      nothing else. With nothing pending that is what is shown. */
  lemma {:induction false} UiAgreesWithPods(s: State, events: seq<Event>)
    requires Inv(s) && IsRun(s, events)
    ensures var s' := Run(s, events);
            && Inv(s')
            && Replay(s'.rows, s'.queue) == Expected(s'.live, s'.named)
            && (s'.queue == [] ==> s'.rows == Expected(s'.live, s'.named))
            && (forall pod :: pod in s'.live && s'.live[pod].info.id != "" <==> pod in s'.named)
    decreases |events|
  {
    if events != [] {
      StepKeepsInv(s, events[0]);
      UiAgreesWithPods(Step(s, events[0]), events[1..]);
    }
  }

  // ---- The rows, from the events alone ----

  /** Whether a pod state exists after the events. */
  predicate IsAlive(events: seq<Event>, pod: nat) {
    if events == [] then false
    else
      var e := events[|events| - 1];
      if e == Create(pod) then true else if e == Destroy(pod) then false else IsAlive(events[..|events| - 1], pod)
  }

  /** The pod's info: the last that it got since it was created. */
  function LastInfo(events: seq<Event>, pod: nat): PodInfo {
    if events == [] || events[|events| - 1] == Create(pod) then PodInfo("", 0, 0)
    else
      var e := events[|events| - 1];
      if e.SetInfo? && e.pod == pod then e.info else LastInfo(events[..|events| - 1], pod)
  }

  /** The pod's connection: the last that it got since it was created, none until then. */
  function LastConnection(events: seq<Event>, pod: nat): PodConnection {
    if events == [] || events[|events| - 1] == Create(pod) then UnknownState
    else
      var e := events[|events| - 1];
      if e.SetConnection? && e.pod == pod then e.connection else LastConnection(events[..|events| - 1], pod)
  }

  /** How many events came before the one that gave the pod its id. */
  function NamedSince(events: seq<Event>, pod: nat): nat {
    if events == [] then 0
    else
      var front, e := events[..|events| - 1], events[|events| - 1];
      if e.SetInfo? && e.pod == pod && e.info.id != "" && LastInfo(front, pod).id == "" then |front| else NamedSince(front, pod)
  }

  /** A row that shows a pod with this info and connection: pumps first, then valves, numbered through. */
  ghost predicate ShowsPod(row: Row, info: PodInfo, connection: PodConnection) {
    && row.id == info.id
    && (row.connection.Connected? <==> connection.IsConnected?)
    && (row.connection.Connecting? <==> connection.IsConnecting?)
    && |row.dispensers| == info.pumps + info.valves
    && (forall k | 0 <= k < info.pumps :: row.dispensers[k] == Dispenser(k, Pump))
    && (forall k | info.pumps <= k < info.pumps + info.valves :: row.dispensers[k] == Dispenser(k, Valve))
  }

  lemma {:induction false} RunOneMore(s: State, events: seq<Event>)
    requires IsRun(s, events) && events != []
    ensures var front, e := events[..|events| - 1], events[|events| - 1];
            IsRun(s, front) && Enabled(Run(s, front), e) && Run(s, events) == Step(Run(s, front), e)
    decreases |events|
  {
    if |events| > 1 {
      RunOneMore(Step(s, events[0]), events[1..]);
      assert events[..|events| - 1][1..] == events[1..][..|events[1..]| - 1];
    }
  }

  /** The pod's data are what its events say. */
  ghost predicate IsAsTold(s: State, events: seq<Event>, pod: nat) {
    && (pod in s.live <==> IsAlive(events, pod))
    && (pod in s.live ==> s.live[pod] == PodData(LastInfo(events, pod), ToUi(LastConnection(events, pod))))
  }

  lemma {:induction false} LiveIsAsTold(events: seq<Event>, pod: nat)
    requires IsRun(INITIAL, events)
    ensures IsAsTold(Run(INITIAL, events), events, pod)
    decreases |events|
  {
    if events != [] {
      RunOneMore(INITIAL, events);
      LiveIsAsTold(events[..|events| - 1], pod);
    }
  }

  lemma {:induction false} NamedBefore(events: seq<Event>, pod: nat)
    ensures events != [] ==> NamedSince(events, pod) < |events|
    decreases |events|
  {
    if events != [] {
      NamedBefore(events[..|events| - 1], pod);
    }
  }

  ghost predicate InOrder(named: seq<nat>, events: seq<Event>) {
    forall i, j | 0 <= i < j < |named| :: NamedSince(events, named[i]) < NamedSince(events, named[j])
  }

  lemma SameOrder(named: seq<nat>, events: seq<Event>, e: Event)
    requires InOrder(named, events)
    requires forall pod <- named :: NamedSince(events + [e], pod) == NamedSince(events, pod)
    ensures InOrder(named, events + [e])
  {
  }

  lemma OrderWithout(named: seq<nat>, events: seq<Event>, i: nat)
    requires InOrder(named, events) && i <= |named|
    ensures InOrder(WithoutPlace(named, i), events)
  {
  }

  lemma OneMoreInOrder(named: seq<nat>, events: seq<Event>, pod: nat)
    requires InOrder(named, events) && forall other <- named :: NamedSince(events, other) < NamedSince(events, pod)
    ensures InOrder(named + [pod], events)
  {
  }

  lemma {:induction false} NamedInOrder(events: seq<Event>)
    requires IsRun(INITIAL, events)
    ensures InOrder(Run(INITIAL, events).named, events)
    decreases |events|
  {
    if events != [] {
      RunOneMore(INITIAL, events);
      var front, e := events[..|events| - 1], events[|events| - 1];
      NamedInOrder(front);
      UiAgreesWithPods(INITIAL, front);
      assert events == front + [e];
      StepKeepsOrder(Run(INITIAL, front), front, e);
    }
  }

  /** Only an event that gives a pod its id changes when that was. */
  lemma NamedSinceStep(s: State, events: seq<Event>, e: Event, pod: nat)
    requires Enabled(s, e) && IsAsTold(s, events, pod) && pod in s.live
    ensures NamedSince(events + [e], pod)
            == if e.SetInfo? && e.pod == pod && e.info.id != "" && s.live[pod].info.id == "" then |events|
               else NamedSince(events, pod)
  {
    assert (events + [e])[..|events|] == events;
  }

  lemma StepKeepsOrder(s: State, events: seq<Event>, e: Event)
    requires IsRun(INITIAL, events) && s == Run(INITIAL, events) && NamedOk(s) && Enabled(s, e)
    requires InOrder(s.named, events)
    ensures InOrder(Step(s, e).named, events + [e])
  {
    forall pod <- s.named ensures NamedSince(events + [e], pod) == NamedSince(events, pod) {
      LiveIsAsTold(events, pod);
      NamedSinceStep(s, events, e, pod);
    }
    SameOrder(s.named, events, e);
    if e.Destroy? {
      var i := RemoveNamed(s, e.pod);
      OrderWithout(s.named, events + [e], i);
    } else if e.SetInfo? && s.live[e.pod].info.id == "" && e.info.id != "" {
      LiveIsAsTold(events, e.pod);
      NamedSinceStep(s, events, e, e.pod);
      forall other <- s.named ensures NamedSince(events + [e], other) < |events| {
        NamedBefore(events, other);
      }
      OneMoreInOrder(s.named, events + [e], e.pod);
    }
  }

  /** The live pods with an id, in the order they got it, have one row each, in that order, and there are no others: with the
      pod's last id and connection, and as many pumps and then valves as it has, numbered through. */
  lemma RowsTellThePods(events: seq<Event>)
    requires IsRun(INITIAL, events)
    ensures var s := Run(INITIAL, events);
            var rows, named := Replay(s.rows, s.queue), s.named;
            && (forall pod :: pod in named <==> IsAlive(events, pod) && LastInfo(events, pod).id != "")
            && (forall i, j | 0 <= i < j < |named| :: NamedSince(events, named[i]) < NamedSince(events, named[j]))
            && |rows| == |named|
            && (forall i | 0 <= i < |rows| :: ShowsPod(rows[i], LastInfo(events, named[i]), LastConnection(events, named[i])))
  {
    var s := Run(INITIAL, events);
    UiAgreesWithPods(INITIAL, events);
    NamedInOrder(events);
    forall pod ensures pod in s.named <==> IsAlive(events, pod) && LastInfo(events, pod).id != "" {
      LiveIsAsTold(events, pod);
    }
    forall i: nat | i < |s.named|
      ensures ShowsPod(Expected(s.live, s.named)[i], LastInfo(events, s.named[i]), LastConnection(events, s.named[i]))
    {
      LiveIsAsTold(events, s.named[i]);
    }
  }

  // ---- When an info comes to be shown ----

  /** What is shown, once all that is pending has been applied, is what ought to be shown. */
  ghost predicate Agrees(s: State) {
    (forall p <- s.named :: p in s.live) && Replay(s.rows, s.queue) == Expected(s.live, s.named)
  }

  lemma RowsAfterInfo(s: State, pod: nat, info: PodInfo)
    requires Inv(s) && pod in s.live
    ensures var s', data := Step(s, SetInfo(pod, info)), s.live[pod].(info := info);
            Replay(s'.rows, s'.queue) == Apply(Expected(s.live, s.named), UpdatePod(data))
  {
    var data := s.live[pod].(info := info);
    ReplayTwo(s.rows, s.queue, UpdatePod(data), UpdatePod(data));
  }

  /** Only the split has changed, and the row keeps the old one. */
  lemma SplitIsNotShown(s: State, pod: nat, info: PodInfo)
    requires Inv(s) && pod in s.live && s.live[pod].info.id != "" && info.id == s.live[pod].info.id
    requires !RowFollows(s.live[pod].info, info)
    ensures !Agrees(Step(s, SetInfo(pod, info)))
  {
    var s', data := Step(s, SetInfo(pod, info)), s.live[pod].(info := info);
    var rows := Expected(s.live, s.named);
    var i := PlaceOf(s, pod);
    RowsAfterInfo(s, pod, info);
    NoOtherRow(s, pod, info.id, i);
    ExpectedAt(s, i);
    ApplyUpdate(rows, i, data);
    RefreshedShows(rows[i], s.live[pod].info, data);
    ExpectedChanged(s, pod, data, i);
    assert Replay(s'.rows, s'.queue)[i] != Expected(s'.live, s'.named)[i];
  }

  /** Another id, or none, leaves the old row in its place. */
  lemma RenamingIsNotShown(s: State, pod: nat, info: PodInfo)
    requires Inv(s) && pod in s.live && s.live[pod].info.id != "" && info.id != s.live[pod].info.id
    ensures !Agrees(Step(s, SetInfo(pod, info)))
  {
    var s', data := Step(s, SetInfo(pod, info)), s.live[pod].(info := info);
    var rows := Expected(s.live, s.named);
    var i := PlaceOf(s, pod);
    RowsAfterInfo(s, pod, info);
    ExpectedAt(s, i);
    var rows' := Replay(s'.rows, s'.queue);
    assert |rows'| >= |rows| && rows'[i].id == s.live[pod].info.id;
    if info.id == "" {
      var k := RemoveNamed(s, pod);
      assert |s'.named| < |rows|;
    } else {
      ExpectedChanged(s, pod, data, i);
      assert rows'[i] != Expected(s'.live, s'.named)[i];
    }
  }

  /** A pod that takes the id of another live pod gets no row of its own. */
  lemma TakenIdIsNotShown(s: State, pod: nat, info: PodInfo, other: nat)
    requires Inv(s) && pod in s.live && s.live[pod].info.id == "" && info.id != ""
    requires other in s.live && s.live[other].info.id == info.id
    ensures !Agrees(Step(s, SetInfo(pod, info)))
  {
    var rows := Expected(s.live, s.named);
    var i := PlaceOf(s, other);
    RowsAfterInfo(s, pod, info);
    ExpectedAt(s, i);
    assert IndexOf(rows, info.id) <= i;
  }

  /** An info comes to be shown if and only if the pod has no id yet or keeps its id with counts that the row can follow,
      and no other live pod has that id. */
  lemma InfoIsShownExactly(s: State, pod: nat, info: PodInfo)
    requires Inv(s) && pod in s.live
    ensures Agrees(Step(s, SetInfo(pod, info))) <==> Enabled(s, SetInfo(pod, info))
  {
    var was := s.live[pod].info;
    if Enabled(s, SetInfo(pod, info)) {
      StepKeepsInv(s, SetInfo(pod, info));
    } else if was.id == "" {
      var other: nat :| other in s.live && s.live[other].info.id == info.id;
      TakenIdIsNotShown(s, pod, info, other);
    } else if info.id != was.id {
      RenamingIsNotShown(s, pod, info);
    } else {
      KeptIdIsOwn(s, pod);
      SplitIsNotShown(s, pod, info);
    }
  }

  lemma KeptIdIsOwn(s: State, pod: nat)
    requires NamedOk(s) && pod in s.live && s.live[pod].info.id != ""
    ensures forall other <- s.live :: other != pod ==> s.live[other].info.id != s.live[pod].info.id
  {
    var i := PlaceOf(s, pod);
    forall other <- s.live ensures other != pod ==> s.live[other].info.id != s.live[pod].info.id {
      if s.live[other].info.id != "" {
        var j: nat :| j < |s.named| && s.named[j] == other;
      }
    }
  }

  /** Every event can happen as long as its pod exists and there is something to run. */
  ghost predicate IsPossible(s: State, events: seq<Event>)
    decreases |events|
  {
    events == [] || (CanHappen(s, events[0]) && IsPossible(Step(s, events[0]), events[1..]))
  }

  ghost predicate AgreesThroughout(s: State, events: seq<Event>)
    requires IsPossible(s, events)
    decreases |events|
  {
    Agrees(s) && (events == [] || AgreesThroughout(Step(s, events[0]), events[1..]))
  }

  /** User interface and pods agree at every point of a possible run if and only if each of its infos was one that can come
      to be shown: a first id that no other live pod has, or the same id with counts the row can follow. */
  lemma {:induction false} AgreesExactly(s: State, events: seq<Event>)
    requires Inv(s) && IsPossible(s, events)
    ensures AgreesThroughout(s, events) <==> IsRun(s, events)
    decreases |events|
  {
    if events != [] {
      if Enabled(s, events[0]) {
        StepKeepsInv(s, events[0]);
        AgreesExactly(Step(s, events[0]), events[1..]);
      } else {
        InfoIsShownExactly(s, events[0].pod, events[0].info);
      }
    }
  }

  /** A pod whose valve turns out to be a second pump is shown with the old split. */
  lemma ResentSplitIsStale()
    ensures !Agrees(Step(Step(Step(INITIAL, Create(0)), SetInfo(0, PodInfo("p", 1, 1))), SetInfo(0, PodInfo("p", 2, 0))))
  {
    var s := Step(INITIAL, Create(0));
    StepKeepsInv(INITIAL, Create(0));
    StepKeepsInv(s, SetInfo(0, PodInfo("p", 1, 1)));
    InfoIsShownExactly(Step(s, SetInfo(0, PodInfo("p", 1, 1))), 0, PodInfo("p", 2, 0));
  }

  predicate Shows(rows: seq<Row>, id: string) {
    exists row <- rows :: row.id == id
  }

  lemma UpdateKeepsShown(rows: seq<Row>, pod: PodData, id: string)
    requires pod.info.id != id
    ensures Shows(Apply(rows, UpdatePod(pod)), id) <==> Shows(rows, id)
  {
    var rows' := Apply(rows, UpdatePod(pod));
    if Shows(rows, id) {
      var j: nat :| j < |rows| && rows[j].id == id;
      assert rows'[j] in rows';
    }
    if Shows(rows', id) {
      var j: nat :| j < |rows'| && rows'[j].id == id;
      assert rows[j] in rows;
    }
  }

  lemma WithoutShows(rows: seq<Row>, gone: string, id: string)
    ensures Shows(Without(rows, gone), id) <==> Shows(rows, id) && id != gone
  {
    forall row ensures row in Without(rows, gone) <==> row in rows && row.id != gone {
      FilterMembers(rows, HasOtherId(gone), row);
    }
  }

  /** What the destruction of a pod does to the row of any id. */
  lemma DestroyShows(s: State, pod: nat, id: string)
    requires pod in s.live
    ensures var s' := Step(s, Destroy(pod));
            Shows(Replay(s'.rows, s'.queue), id) <==> Shows(Replay(s.rows, s.queue), id) && s.live[pod].info.id != id
  {
    var data, rows := s.live[pod], Replay(s.rows, s.queue);
    ReplayTwo(s.rows, s.queue, UpdatePod(data), RemovePod(data));
    WithoutShows(Apply(rows, UpdatePod(data)), data.info.id, id);
    if data.info.id != id {
      UpdateKeepsShown(rows, data, id);
    }
  }

  /** A row of another live pod survives the destruction of a pod if and only if their ids differ, whatever is shown and
      pending: two live pods with one id lose their row together. */
  lemma SharedIdLosesRow(s: State, pod: nat, other: nat)
    requires pod in s.live && other in s.live && pod != other
    ensures var s', id := Step(s, Destroy(pod)), s.live[other].info.id;
            && other in s'.live && s'.live[other].info.id == id
            && (Shows(Replay(s'.rows, s'.queue), id)
                <==> Shows(Replay(s.rows, s.queue), id) && s.live[pod].info.id != id)
  {
    DestroyShows(s, pod, s.live[other].info.id);
  }

  lemma RenamedIsShown(s: State, pod: nat, info: PodInfo)
    requires Inv(s) && pod in s.live && s.live[pod].info.id != "" && info.id != s.live[pod].info.id
    ensures var s1 := Step(s, SetInfo(pod, info));
            Shows(Replay(s1.rows, s1.queue), s.live[pod].info.id)
  {
    var rows := Expected(s.live, s.named);
    var i := PlaceOf(s, pod);
    ExpectedAt(s, i);
    assert rows[i] in rows;
    RowsAfterInfo(s, pod, info);
    UpdateKeepsShown(rows, s.live[pod].(info := info), s.live[pod].info.id);
  }

  /** The row under a pod's first id outlives the pod that has taken another id. */
  lemma RenamedRowStays(s: State, pod: nat, info: PodInfo)
    requires Inv(s) && pod in s.live && s.live[pod].info.id != "" && info.id != s.live[pod].info.id
    ensures var s' := Step(Step(s, SetInfo(pod, info)), Destroy(pod));
            pod !in s'.live && Shows(Replay(s'.rows, s'.queue), s.live[pod].info.id)
  {
    RenamedIsShown(s, pod, info);
    DestroyShows(Step(s, SetInfo(pod, info)), pod, s.live[pod].info.id);
  }

  /** A pod named "p" that becomes "q" and goes: "p" is still shown. */
  lemma RenamedRowExample(pumps: nat, valves: nat)
    ensures var s := Step(Step(INITIAL, Create(0)), SetInfo(0, PodInfo("p", pumps, valves)));
            var s' := Step(Step(s, SetInfo(0, PodInfo("q", pumps, valves))), Destroy(0));
            s'.live == map[] && Shows(Replay(s'.rows, s'.queue), "p")
  {
    var s := Step(INITIAL, Create(0));
    StepKeepsInv(INITIAL, Create(0));
    StepKeepsInv(s, SetInfo(0, PodInfo("p", pumps, valves)));
    RenamedRowStays(Step(s, SetInfo(0, PodInfo("p", pumps, valves))), 0, PodInfo("q", pumps, valves));
  }

  /** Two pods that both call themselves "p": after the first is gone nothing shows the second. */
  lemma SharedIdExample(info: PodInfo)
    requires info.id == "p"
    ensures var s := Step(Step(Step(Step(INITIAL, Create(0)), SetInfo(0, info)), Create(1)), SetInfo(1, info));
            var s' := Step(s, Destroy(0));
            1 in s'.live && s'.live[1].info.id == "p" && !Shows(Replay(s'.rows, s'.queue), "p")
  {
    SharedIdLosesRow(Step(Step(Step(Step(INITIAL, Create(0)), SetInfo(0, info)), Create(1)), SetInfo(1, info)), 0, 1);
  }

  /** The list model that the user interface shows. */
  class PodUiModel {
    var pods: seq<Row>

    constructor ()
      ensures pods == []
    {
      pods := [];
    }

    static method BuildDispensers(pumps: nat, valves: nat) returns (dispensers: seq<Dispenser>)
      ensures dispensers == Dispensers(pumps, valves) && |dispensers| == pumps + valves
      ensures forall k | 0 <= k < pumps :: dispensers[k] == Dispenser(k, Pump)
      ensures forall k | pumps <= k < pumps + valves :: dispensers[k] == Dispenser(k, Valve)
    {
      dispensers := [];
      for i := 0 to pumps
        invariant dispensers == Dispensers(i, 0)
      {
        dispensers := dispensers + [Dispenser(i, Pump)];
      }
      for i := 0 to valves
        invariant dispensers == Dispensers(pumps, i)
      {
        dispensers := dispensers + [Dispenser(pumps + i, Valve)];
      }
    }

    method Find(id: string) returns (i: nat)
      ensures i == IndexOf(pods, id)
    {
      i := 0;
      while i < |pods| && pods[i].id != id
        invariant i <= |pods| && i + IndexOf(pods[i..], id) == IndexOf(pods, id)
      {
        assert pods[i..][1..] == pods[i + 1..];
        i := i + 1;
      }
    }

    method RefreshRow(row: Row, pod: PodData) returns (refreshed: Row)
      ensures refreshed == Refreshed(row, pod)
    {
      refreshed := row.(id := pod.info.id, connection := pod.connection);
      if |row.dispensers| != pod.info.pumps + pod.info.valves {
        var dispensers := BuildDispensers(pod.info.pumps, pod.info.valves);
        refreshed := refreshed.(dispensers := dispensers);
      }
    }

    method Update(pod: PodData)
      modifies this
      ensures pods == Apply(old(pods), UpdatePod(pod))
    {
      var i := Find(pod.info.id);
      if i < |pods| {
        var row := RefreshRow(pods[i], pod);
        pods := pods[i := row];
      } else if pod.info.id != "" {
        var row := RefreshRow(Row("", Disconnected, []), pod);
        pods := pods + [row];
      }
    }

    method RemoveRows(pod: PodData)
      modifies this
      ensures pods == Apply(old(pods), RemovePod(pod))
    {
      var kept := [];
      for i := 0 to |pods|
        invariant pods == old(pods)
        invariant kept + Without(pods[i..], pod.info.id) == Without(pods, pod.info.id)
      {
        assert pods[i..][1..] == pods[i + 1..];
        if pods[i].id != pod.info.id {
          assert kept + ([pods[i]] + Without(pods[i + 1..], pod.info.id))
              == (kept + [pods[i]]) + Without(pods[i + 1..], pod.info.id);
          kept := kept + [pods[i]];
        }
      }
      pods := kept;
    }
  }

  /** The bridge between the pod states, on their thread, and the model, on the Slint thread. */
  class StationStateBridge {
    var live: map<nat, PodData>
    var queue: seq<UiEvent>
    ghost var named: seq<nat>
    const model: PodUiModel

    ghost function View(): State reads this, model {
      State(live, named, model.pods, queue)
    }

    ghost predicate Valid() reads this, model {
      Inv(View())
    }

    constructor ()
      ensures Valid() && View() == INITIAL && fresh(model)
    {
      live, queue, named := map[], [], [];
      model := new PodUiModel();
    }

    method CreatePodState(pod: nat)
      requires Valid() && Enabled(View(), Create(pod))
      modifies this
      ensures Valid() && View() == Step(old(View()), Create(pod))
    {
      StepKeepsInv(View(), Create(pod));
      live := live[pod := NEW_POD];
    }

    /** Afterwards user interface and pods agree exactly if the info is one that can come to be shown. */
    method UpdateInfo(pod: nat, info: PodInfo)
      requires Valid() && CanHappen(View(), SetInfo(pod, info))
      modifies this
      ensures View() == Step(old(View()), SetInfo(pod, info))
      ensures Valid() <==> old(Enabled(View(), SetInfo(pod, info)))
    {
      ghost var before := View();
      if Enabled(before, SetInfo(pod, info)) {
        StepKeepsInv(before, SetInfo(pod, info));
      }
      InfoIsShownExactly(before, pod, info);
      named := NamedAfter(before, pod, info);
      live := live[pod := live[pod].(info := info)];
      queue := queue + [UpdatePod(live[pod])];
      assert View() == Step(before, SetInfo(pod, info));
    }

    method UpdateState(pod: nat, connection: PodConnection)
      requires Valid() && Enabled(View(), SetConnection(pod, connection))
      modifies this
      ensures Valid() && View() == Step(old(View()), SetConnection(pod, connection))
    {
      StepKeepsInv(View(), SetConnection(pod, connection));
      live := live[pod := live[pod].(connection := ToUi(connection))];
      queue := queue + [UpdatePod(live[pod])];
    }

    method DestroyPodState(pod: nat)
      requires Valid() && Enabled(View(), Destroy(pod))
      modifies this
      ensures Valid() && View() == Step(old(View()), Destroy(pod))
    {
      StepKeepsInv(View(), Destroy(pod));
      var data := live[pod];
      live := live - {pod};
      named := Remove(named, pod);
      queue := queue + [UpdatePod(data)];
      queue := queue + [RemovePod(data)];
      assert queue == old(queue) + [UpdatePod(data), RemovePod(data)];
      assert View() == Step(old(View()), Destroy(pod));
    }

    /** One event of the Slint thread. */
    method RunFrontEvent()
      requires Valid() && Enabled(View(), RunUiEvent)
      modifies this, model
      ensures Valid() && View() == Step(old(View()), RunUiEvent)
    {
      StepKeepsInv(View(), RunUiEvent);
      var e := queue[0];
      queue := queue[1..];
      match e
      case UpdatePod(pod) => model.Update(pod);
      case RemovePod(pod) => model.RemoveRows(pod);
    }
  }
}
