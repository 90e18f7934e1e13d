/** Serial pod discovery: which pods have an open port, driven by scan, add and remove events. */
module Discovery {
  import opened Options

  const TARGET_VID := "2fe3"
  const TARGET_PID := "0001"
  const PROTOCOL_INTERFACE_NAME := "Cocktailmaker Pod Protocol"
  const LOG_INTERFACE_NAME := "Cocktailmaker Pod Log"
  const PROTOCOL_INTERFACE_NUMBER := "02"
  const LOG_INTERFACE_NUMBER := "00"

  datatype PortRole = Protocol | Log

  datatype UsbTtyInfo = UsbTtyInfo(
    devnode: string,
    vendorId: string,
    productId: string,
    deviceSerial: Option<string>,
    interfaceName: Option<string>,
    interfaceNumber: Option<string>)

  predicate IsPodDevice(info: UsbTtyInfo) {
    info.vendorId == TARGET_VID && info.productId == TARGET_PID
  }

  /** The interface name decides if there is one; only without a name does the number count. */
  function RoleOf(info: UsbTtyInfo): Option<PortRole> {
    match info.interfaceName
    case Some(name) =>
      if name == PROTOCOL_INTERFACE_NAME then Some(Protocol)
      else if name == LOG_INTERFACE_NAME then Some(Log)
      else None
    case None =>
      if info.interfaceNumber == Some(PROTOCOL_INTERFACE_NUMBER) then Some(Protocol)
      else if info.interfaceNumber == Some(LOG_INTERFACE_NUMBER) then Some(Log)
      else None
  }

  function PodIdentity(info: UsbTtyInfo): string {
    if info.deviceSerial.Some? then info.deviceSerial.value else info.devnode
  }

  /** The role of a tty that belongs to a pod. */
  function MatchPodPort(info: UsbTtyInfo): Option<PortRole> {
    if IsPodDevice(info) then RoleOf(info) else None
  }

  /** The ports of a pod's USB device, by their names, or by their numbers where there is no name. */
  lemma PodPortIs(info: UsbTtyInfo, serial: string)
    ensures MatchPodPort(info) == Some(Protocol)
            <==> info.vendorId == "2fe3" && info.productId == "0001"
                 && if info.interfaceName.Some? then info.interfaceName.value == "Cocktailmaker Pod Protocol"
                    else info.interfaceNumber == Some("02")
    ensures MatchPodPort(info) == Some(Log)
            <==> info.vendorId == "2fe3" && info.productId == "0001"
                 && if info.interfaceName.Some? then info.interfaceName.value == "Cocktailmaker Pod Log"
                    else info.interfaceNumber == Some("00")
    ensures info.deviceSerial == Some(serial) ==> PodIdentity(info) == serial
    ensures info.deviceSerial == None ==> PodIdentity(info) == info.devnode
  {
    assert PROTOCOL_INTERFACE_NAME[18] != LOG_INTERFACE_NAME[18];
  }

  /** The devnode open for each pod identity. */
  type Entries = map<string, string>

  class PortTable {
    var entries: Entries

    constructor ()
      ensures entries == map[]
    {
      entries := map[];
    }

    /** Reserves `id`; refused while it has an entry, committed or not. */
    method StakeClaim(id: string, devnode: string) returns (claim: Claim?)
      modifies this
      ensures id in old(entries) ==> claim == null && entries == old(entries)
      ensures id !in old(entries) ==>
                claim != null && fresh(claim) && claim.table == this && claim.id == id && entries == old(entries)[id := devnode]
    {
      if id in entries {
        return null;
      }
      entries := entries[id := devnode];
      claim := new Claim(this, id);
    }

    /** Removes an entry with this devnode, if there is one. */
    method ReleaseByDevnode(devnode: string) returns (id: Option<string>)
      modifies this
      ensures Released(old(entries), devnode, id, entries)
    {
      if devnode !in entries.Values {
        return None;
      }
      var found :| found in entries && entries[found] == devnode;
      entries := entries - {found};
      id := Some(found);
    }
  }

  /** A reservation under way, released again by `Drop` unless it was committed. */
  class Claim {
    var table: PortTable?
    const id: string

    constructor (table: PortTable, id: string)
      ensures this.table == table && this.id == id
    {
      this.table, this.id := table, id;
    }

    method Commit()
      modifies this
      ensures table == null
    {
      table := null;
    }

    method Drop()
      modifies table
      ensures table != null ==> table.entries == old(table.entries) - {id}
    {
      if table != null {
        table.entries := table.entries - {id};
      }
    }
  }

  ghost predicate Released(before: Entries, devnode: string, id: Option<string>, after: Entries) {
    match id
    case None => devnode !in before.Values && after == before
    case Some(found) => found in before && before[found] == devnode && after == before - {found}
  }

  // ---- Discovery as a relation between states ----

  datatype Tables = Tables(pods: Entries, logs: Entries)

  function TableOf(t: Tables, role: PortRole): Entries {
    if role == Protocol then t.pods else t.logs
  }

  /** A tty is seen, by the scan or by an add event, and its port can be opened or not; or a devnode disappears. */
  datatype Event = Seen(info: UsbTtyInfo, opens: bool) | Gone(devnode: string)

  /** A port of this role and identity is opened by the event. */
  predicate Names(e: Event, role: PortRole, id: string) {
    e.Seen? && MatchPodPort(e.info) == Some(role) && PodIdentity(e.info) == id
  }

  /** What one event does; `didOpen` tells whether a port was opened, that is a session or a log stream begun. */
  ghost predicate Next(t: Tables, e: Event, didOpen: bool, t': Tables) {
    match e
    case Gone(devnode) =>
      && !didOpen
      && (exists id :: Released(t.pods, devnode, id, t'.pods))
      && (exists id :: Released(t.logs, devnode, id, t'.logs))
    case Seen(info, opens) =>
      match MatchPodPort(info)
      case None => !didOpen && t' == t
      case Some(role) =>
        var id := PodIdentity(info);
        && didOpen == (opens && id !in TableOf(t, role))
        && TableOf(t', role) == (if didOpen then TableOf(t, role)[id := info.devnode] else TableOf(t, role))
        && (forall other :: other != role ==> TableOf(t', other) == TableOf(t, other))
  }

  /** A run of discovery from its start. */
  ghost predicate IsRun(tables: seq<Tables>, events: seq<Event>, didOpen: seq<bool>) {
    && |tables| == |events| + 1 && |didOpen| == |events|
    && tables[0] == Tables(map[], map[])
    && forall i | 0 <= i < |events| :: IsStep(tables, events, didOpen, i)
  }

  ghost predicate IsStep(tables: seq<Tables>, events: seq<Event>, didOpen: seq<bool>, i: nat)
    requires i < |events| == |didOpen| && |events| < |tables|
  {
    Next(tables[i], events[i], didOpen[i], tables[i + 1])
  }

  /** A devnode names one tty between its add and its remove. */
  ghost predicate OneTtyPerDevnode(events: seq<Event>) {
    forall i, j | 0 <= i < j < |events| :: OneTtyAt(events, i, j)
  }

  ghost predicate OneTtyAt(events: seq<Event>, i: nat, j: nat)
    requires i < j < |events|
  {
    events[i].Seen? && events[j].Seen? && events[i].info.devnode == events[j].info.devnode
    && !GoneBetween(events, i, j, events[i].info.devnode)
    ==> events[i].info == events[j].info
  }

  ghost predicate GoneBetween(events: seq<Event>, i: int, j: int, devnode: string) {
    exists k :: 0 <= i < k < j <= |events| && events[k] == Gone(devnode)
  }

  /** Event `k` opened the port of this pod, and its devnode has not been removed since, up to event `n`. */
  ghost predicate HeldSince(events: seq<Event>, didOpen: seq<bool>, n: nat, role: PortRole, id: string, k: nat) {
    && k < n <= |events| == |didOpen|
    && didOpen[k] && Names(events[k], role, id)
    && !GoneBetween(events, k, n, events[k].info.devnode)
  }

  ghost predicate Held(events: seq<Event>, didOpen: seq<bool>, n: nat, role: PortRole, id: string) {
    exists k: nat :: HeldSince(events, didOpen, n, role, id, k)
  }

  /** After `n` events the tables hold exactly the pods that the history says are held, each at its devnode. */
  ghost predicate TablesOk(t: Tables, events: seq<Event>, didOpen: seq<bool>, n: nat) {
    && (forall role, id :: id in TableOf(t, role) ==> Held(events, didOpen, n, role, id))
    && (forall role, id, k: nat :: HeldSince(events, didOpen, n, role, id, k) ==>
          id in TableOf(t, role) && TableOf(t, role)[id] == events[k].info.devnode)
  }

  lemma HeldLonger(events: seq<Event>, didOpen: seq<bool>, n: nat, role: PortRole, id: string, k: nat)
    requires n < |events| == |didOpen|
    ensures HeldSince(events, didOpen, n + 1, role, id, k)
            <==> if k == n then didOpen[n] && Names(events[n], role, id)
                 else HeldSince(events, didOpen, n, role, id, k) && events[n] != Gone(events[k].info.devnode)
  {
  }

  /** No two pods of one table, and no pod of each table, are held at the same devnode. */
  lemma DevnodesAreDistinct(t: Tables, events: seq<Event>, didOpen: seq<bool>, n: nat,
                            role: PortRole, id: string, role': PortRole, id': string)
    requires TablesOk(t, events, didOpen, n) && OneTtyPerDevnode(events)
    requires id in TableOf(t, role) && id' in TableOf(t, role')
    requires TableOf(t, role)[id] == TableOf(t, role')[id']
    ensures role == role' && id == id'
  {
    assert Held(events, didOpen, n, role, id) && Held(events, didOpen, n, role', id');
    var k: nat :| HeldSince(events, didOpen, n, role, id, k);
    var k': nat :| HeldSince(events, didOpen, n, role', id', k');
    if k < k' {
      SameTty(events, didOpen, n, k, k');
    } else if k' < k {
      SameTty(events, didOpen, n, k', k);
    }
  }

  lemma SameTty(events: seq<Event>, didOpen: seq<bool>, n: nat, k: nat, k': nat)
    requires k < k' < n <= |events| && OneTtyPerDevnode(events)
    requires events[k].Seen? && events[k'].Seen? && events[k].info.devnode == events[k'].info.devnode
    requires !GoneBetween(events, k, n, events[k].info.devnode)
    ensures events[k].info == events[k'].info
  {
    assert OneTtyAt(events, k, k');
  }

  /** What one seen tty does to one table at one identity. */
  lemma SeenAt(t: Tables, e: Event, didOpen: bool, t': Tables, role: PortRole, id: string)
    requires e.Seen? && Next(t, e, didOpen, t')
    ensures didOpen && Names(e, role, id) ==>
              id !in TableOf(t, role) && id in TableOf(t', role) && TableOf(t', role)[id] == e.info.devnode
    ensures !(didOpen && Names(e, role, id)) ==>
              && (id in TableOf(t', role) <==> id in TableOf(t, role))
              && (id in TableOf(t, role) ==> TableOf(t', role)[id] == TableOf(t, role)[id])
  {
  }

  lemma SeenIsHeld(t: Tables, events: seq<Event>, didOpen: seq<bool>, n: nat, t': Tables, role: PortRole, id: string)
    requires n < |events| == |didOpen| && events[n].Seen?
    requires TablesOk(t, events, didOpen, n) && Next(t, events[n], didOpen[n], t')
    requires id in TableOf(t', role)
    ensures Held(events, didOpen, n + 1, role, id)
  {
    SeenAt(t, events[n], didOpen[n], t', role, id);
    if didOpen[n] && Names(events[n], role, id) {
      HeldLonger(events, didOpen, n, role, id, n);
      assert HeldSince(events, didOpen, n + 1, role, id, n);
    } else {
      assert Held(events, didOpen, n, role, id);
      var k: nat :| HeldSince(events, didOpen, n, role, id, k);
      HeldLonger(events, didOpen, n, role, id, k);
      assert HeldSince(events, didOpen, n + 1, role, id, k);
    }
  }

  lemma SeenIsInTable(t: Tables, events: seq<Event>, didOpen: seq<bool>, n: nat, t': Tables,
                      role: PortRole, id: string, k: nat)
    requires n < |events| == |didOpen| && events[n].Seen?
    requires TablesOk(t, events, didOpen, n) && Next(t, events[n], didOpen[n], t')
    requires HeldSince(events, didOpen, n + 1, role, id, k)
    ensures id in TableOf(t', role) && TableOf(t', role)[id] == events[k].info.devnode
  {
    SeenAt(t, events[n], didOpen[n], t', role, id);
    HeldLonger(events, didOpen, n, role, id, k);
  }

  lemma SeenKeepsTables(t: Tables, events: seq<Event>, didOpen: seq<bool>, n: nat, t': Tables)
    requires n < |events| == |didOpen| && events[n].Seen?
    requires TablesOk(t, events, didOpen, n) && Next(t, events[n], didOpen[n], t')
    ensures TablesOk(t', events, didOpen, n + 1)
  {
    forall role, id | id in TableOf(t', role) ensures Held(events, didOpen, n + 1, role, id) {
      SeenIsHeld(t, events, didOpen, n, t', role, id);
    }
    forall role, id, k: nat | HeldSince(events, didOpen, n + 1, role, id, k)
      ensures id in TableOf(t', role) && TableOf(t', role)[id] == events[k].info.devnode
    {
      SeenIsInTable(t, events, didOpen, n, t', role, id, k);
    }
  }

  /** The entries after a removal: what they were, without the pods at that devnode. */
  ghost predicate EntriesWithout(before: Entries, devnode: string, after: Entries) {
    && (forall id :: id in after <==> id in before && before[id] != devnode)
    && (forall id :: id in after ==> after[id] == before[id])
  }

  ghost predicate WithoutDevnode(t: Tables, devnode: string, t': Tables) {
    EntriesWithout(t.pods, devnode, t'.pods) && EntriesWithout(t.logs, devnode, t'.logs)
  }

  /** Removing a devnode leaves no entry for it behind if and only if it had at most one. */
  lemma ReleaseIsExactWhenUnique(before: Entries, devnode: string, found: Option<string>, after: Entries)
    requires Released(before, devnode, found, after)
    ensures EntriesWithout(before, devnode, after)
            <==> forall id, id' | id in before && id' in before && before[id] == devnode == before[id'] :: id == id'
  {
    assert forall id | id in before :: before[id] in before.Values;
  }

  /** Removing a devnode takes away exactly the pod held there. */
  lemma ReleaseIsExact(t: Tables, events: seq<Event>, didOpen: seq<bool>, n: nat, role: PortRole, devnode: string,
                       found: Option<string>, after: Entries)
    requires TablesOk(t, events, didOpen, n) && OneTtyPerDevnode(events)
    requires Released(TableOf(t, role), devnode, found, after)
    ensures EntriesWithout(TableOf(t, role), devnode, after)
  {
    forall id | id in TableOf(t, role) && TableOf(t, role)[id] == devnode ensures id !in after {
      assert TableOf(t, role)[id] in TableOf(t, role).Values;
      DevnodesAreDistinct(t, events, didOpen, n, role, id, role, found.value);
    }
  }

  lemma GoneRemovesDevnode(t: Tables, events: seq<Event>, didOpen: seq<bool>, n: nat, devnode: string, t': Tables)
    requires TablesOk(t, events, didOpen, n) && OneTtyPerDevnode(events)
    requires Next(t, Gone(devnode), false, t')
    ensures WithoutDevnode(t, devnode, t')
  {
    var inPods :| Released(t.pods, devnode, inPods, t'.pods);
    var inLogs :| Released(t.logs, devnode, inLogs, t'.logs);
    ReleaseIsExact(t, events, didOpen, n, Protocol, devnode, inPods, t'.pods);
    ReleaseIsExact(t, events, didOpen, n, Log, devnode, inLogs, t'.logs);
  }

  lemma GoneIsHeld(t: Tables, events: seq<Event>, didOpen: seq<bool>, n: nat, t': Tables, role: PortRole, id: string)
    requires n < |events| == |didOpen| && events[n].Gone? && !didOpen[n]
    requires TablesOk(t, events, didOpen, n) && WithoutDevnode(t, events[n].devnode, t')
    requires id in TableOf(t', role)
    ensures Held(events, didOpen, n + 1, role, id)
  {
    assert id in TableOf(t, role) && TableOf(t, role)[id] != events[n].devnode;
    assert Held(events, didOpen, n, role, id);
    var k: nat :| HeldSince(events, didOpen, n, role, id, k);
    HeldLonger(events, didOpen, n, role, id, k);
    assert HeldSince(events, didOpen, n + 1, role, id, k);
  }

  lemma GoneKeepsTables(t: Tables, events: seq<Event>, didOpen: seq<bool>, n: nat, t': Tables)
    requires n < |events| == |didOpen| && events[n].Gone? && !didOpen[n]
    requires TablesOk(t, events, didOpen, n) && WithoutDevnode(t, events[n].devnode, t')
    ensures TablesOk(t', events, didOpen, n + 1)
  {
    forall role, id | id in TableOf(t', role) ensures Held(events, didOpen, n + 1, role, id) {
      GoneIsHeld(t, events, didOpen, n, t', role, id);
    }
    forall role, id, k: nat | HeldSince(events, didOpen, n + 1, role, id, k)
      ensures id in TableOf(t', role) && TableOf(t', role)[id] == events[k].info.devnode
    {
      HeldLonger(events, didOpen, n, role, id, k);
    }
  }

  lemma StepKeepsTables(tables: seq<Tables>, events: seq<Event>, didOpen: seq<bool>, n: nat)
    requires IsRun(tables, events, didOpen) && OneTtyPerDevnode(events) && n < |events|
    requires TablesOk(tables[n], events, didOpen, n)
    ensures TablesOk(tables[n + 1], events, didOpen, n + 1)
  {
    var t, t' := tables[n], tables[n + 1];
    assert IsStep(tables, events, didOpen, n);
    if events[n].Seen? {
      SeenKeepsTables(t, events, didOpen, n, t');
    } else {
      GoneRemovesDevnode(t, events, didOpen, n, events[n].devnode, t');
      GoneKeepsTables(t, events, didOpen, n, t');
    }
  }

  /** At the start nothing is held. */
  lemma TablesStartOk(events: seq<Event>, didOpen: seq<bool>)
    ensures TablesOk(Tables(map[], map[]), events, didOpen, 0)
  {
  }

  lemma {:induction false} RunKeepsTables(tables: seq<Tables>, events: seq<Event>, didOpen: seq<bool>, n: nat)
    requires IsRun(tables, events, didOpen) && OneTtyPerDevnode(events) && n <= |events|
    ensures TablesOk(tables[n], events, didOpen, n)
  {
    if n == 0 {
      TablesStartOk(events, didOpen);
    } else {
      RunKeepsTables(tables, events, didOpen, n - 1);
      StepKeepsTables(tables, events, didOpen, n - 1);
    }
  }

  /** Over any sequence of scan, add and remove events with arbitrary open failures: a pod is in the table exactly when
      some event opened its port and that event's devnode has not been removed since; and a port that is seen is opened
      exactly if it can be and was not open, so any earlier opening of it has been removed in between. */
  lemma TableIsHistory(tables: seq<Tables>, events: seq<Event>, didOpen: seq<bool>, n: nat, role: PortRole, id: string)
    requires IsRun(tables, events, didOpen) && OneTtyPerDevnode(events) && n <= |events|
    ensures id in TableOf(tables[n], role) <==> Held(events, didOpen, n, role, id)
    ensures n < |events| && Names(events[n], role, id) ==>
              (didOpen[n] <==> events[n].opens && !Held(events, didOpen, n, role, id))
    ensures n < |events| && didOpen[n] && Names(events[n], role, id) ==>
              forall k | 0 <= k < n && didOpen[k] && Names(events[k], role, id) ::
                GoneBetween(events, k, n, events[k].info.devnode)
  {
    RunKeepsTables(tables, events, didOpen, n);
    assert n < |events| ==> IsStep(tables, events, didOpen, n);
    if n < |events| && didOpen[n] && Names(events[n], role, id) {
      forall k | 0 <= k < n && didOpen[k] && Names(events[k], role, id)
        ensures GoneBetween(events, k, n, events[k].info.devnode)
      {
        if !GoneBetween(events, k, n, events[k].info.devnode) {
          assert HeldSince(events, didOpen, n, role, id, k);
        }
      }
    }
  }

  function ProtocolTty(devnode: string, serial: string): UsbTtyInfo {
    UsbTtyInfo(devnode, TARGET_VID, TARGET_PID, Some(serial), Some(PROTOCOL_INTERFACE_NAME), None)
  }

  /** Two ttys show up under one devnode, which is then removed. */
  function TwoTtys(devnode: string): seq<Event> {
    [Seen(ProtocolTty(devnode, "A"), true), Seen(ProtocolTty(devnode, "B"), true), Gone(devnode)]
  }

  function TwoTtysTables(devnode: string): seq<Tables> {
    [Tables(map[], map[]), Tables(map["A" := devnode], map[]), Tables(map["A" := devnode, "B" := devnode], map[]),
     Tables(map["B" := devnode], map[])]
  }

  lemma TwoTtysRun(devnode: string)
    ensures IsRun(TwoTtysTables(devnode), TwoTtys(devnode), [true, true, false])
  {
    var tables, events, didOpen := TwoTtysTables(devnode), TwoTtys(devnode), [true, true, false];
    OpensTty(tables[0], tables[1], devnode, "A");
    OpensTty(tables[1], tables[2], devnode, "B");
    assert Released(tables[2].pods, devnode, Some("A"), tables[3].pods);
    assert Released(tables[2].logs, devnode, None, tables[3].logs);
    assert Next(tables[2], Gone(devnode), false, tables[3]);
    forall i | 0 <= i < 3 ensures IsStep(tables, events, didOpen, i) {
    }
  }

  /** Without `OneTtyPerDevnode` a pod can stay in the table although its devnode is gone. */
  lemma SharedDevnodeLeavesEntry(devnode: string)
    ensures IsRun(TwoTtysTables(devnode), TwoTtys(devnode), [true, true, false])
    ensures "B" in TwoTtysTables(devnode)[3].pods && !Held(TwoTtys(devnode), [true, true, false], 3, Protocol, "B")
  {
    TwoTtysRun(devnode);
    var events := TwoTtys(devnode);
    forall k: nat ensures !HeldSince(events, [true, true, false], 3, Protocol, "B", k) {
      if k == 1 {
        assert events[2] == Gone(devnode);
        assert GoneBetween(events, 1, 3, devnode);
      }
    }
  }

  lemma OpensTty(t: Tables, t': Tables, devnode: string, serial: string)
    requires serial !in t.pods && t' == t.(pods := t.pods[serial := devnode])
    ensures Next(t, Seen(ProtocolTty(devnode, serial), true), true, t')
  {
    assert MatchPodPort(ProtocolTty(devnode, serial)) == Some(Protocol);
  }

  /** The vanished devnode is in at most one of the two tables. */
  lemma OneTableHoldsDevnode(tables: seq<Tables>, events: seq<Event>, didOpen: seq<bool>, n: nat, devnode: string)
    requires IsRun(tables, events, didOpen) && OneTtyPerDevnode(events) && n <= |events|
    ensures !(devnode in tables[n].pods.Values && devnode in tables[n].logs.Values)
  {
    RunKeepsTables(tables, events, didOpen, n);
    if devnode in tables[n].pods.Values && devnode in tables[n].logs.Values {
      var id :| id in tables[n].pods && tables[n].pods[id] == devnode;
      var id' :| id' in tables[n].logs && tables[n].logs[id'] == devnode;
      DevnodesAreDistinct(tables[n], events, didOpen, n, Protocol, id, Log, id');
    }
  }

  class DiscoveryState {
    const pods: PortTable
    const logs: PortTable

    constructor ()
      ensures pods != logs && fresh(pods) && fresh(logs)
      ensures View() == Tables(map[], map[])
    {
      pods := new PortTable();
      logs := new PortTable();
    }

    ghost function View(): Tables reads pods, logs {
      Tables(pods.entries, logs.entries)
    }

    /** Opens a port under a claim, which is dropped, releasing the entry, when the port cannot be opened. */
    method OpenPort(table: PortTable, info: UsbTtyInfo, opens: bool) returns (didOpen: bool)
      modifies table
      ensures didOpen == (opens && PodIdentity(info) !in old(table.entries))
      ensures table.entries
              == if didOpen then old(table.entries)[PodIdentity(info) := info.devnode] else old(table.entries)
    {
      var claim := table.StakeClaim(PodIdentity(info), info.devnode);
      if claim == null {
        return false;
      }
      if opens {
        claim.Commit();
      }
      claim.Drop();
      return opens;
    }

    method HandlePort(info: UsbTtyInfo, opens: bool) returns (didOpen: bool)
      requires pods != logs
      modifies pods, logs
      ensures Next(old(View()), Seen(info, opens), didOpen, View())
    {
      var role := MatchPodPort(info);
      if role == None {
        return false;
      }
      if role == Some(Log) {
        didOpen := OpenPort(logs, info, opens);
      } else {
        didOpen := OpenPort(pods, info, opens);
      }
    }

    method ForgetRemovedPort(devnode: string)
      requires pods != logs
      modifies pods, logs
      ensures Next(old(View()), Gone(devnode), false, View())
    {
      var fromPods := pods.ReleaseByDevnode(devnode);
      var fromLogs := logs.ReleaseByDevnode(devnode);
    }
  }
}
