/** One switch behind every backend (virtual/state.py): its VLANs, ports and columns as SNMP, NSDP, the web UI
    and the CLI show them, and each backend's writes carried through to them. The writes are the functions their
    own modules prove the library's methods to compute. */
module Backends {
  import opened Models
  import opened Bitmaps
  import opened Switchport
  import SnmpMembership
  import opened QBridge
  import Nsdp
  import WebUi
  import opened CliShell
  import CliWrites
  import CapturedM4300
  import PoeControl

  datatype Backend = OverSnmp | OverNsdp | OverHttp | OverCli

  /** The switch: what the shell shows, the switchport columns, and the VLAN the web UI has on show. */
  datatype Switch = Switch(shell: Shell, columns: map<int, PortRow>, onShow: int)

  /** The web UI's family: managed FASTPATH pages, Plus CGI pages, or the XML API of the GS728TPP. */
  datatype WebDialect = FastpathWeb | PlusWeb(ui: WebUi.PlusUi) | XmlWeb

  /** What a facade writes through its backends. */
  datatype Write =
    | ToMembership(vlan: VlanId, port: int, mode: VlanMode)
    | ToCreate(vlan: VlanId, name: string)
    | ToDelete(vlan: VlanId)
    | ToPortEnabled(port: int, on: bool)
    | ToPoe(port: int, on: bool)
    | ToCycle(port: int)            // cycle_poe, clear_poe_fault
    | ToPvid(port: int, vlan: VlanId)

  /** A switch model and its firmware. `physical` is what ifType tells of the ports, if anything; `octets`
      whether PortLists are reported as octets; `grid` the interface in each slot of a membership page, the first
      `ports` of them physical; `portPage` and `poePage` whether the web UI has those configuration pages.
      `unhashed` answers a select sent without the CSRF hash. `carries` says whether the
      switch does what one request asks, `accepts` whether its agent takes a column, `takes` a PDU; `rearm` is the
      log of a PoE
      re-arm and `lastRead` the VLAN left on show by a reading that ends in a refusal. All of it is arbitrary. */
  datatype Model = Model(
    switchport: bool, split: bool, autoUntag: bool, octets: bool, physical: Option<set<int>>,
    dialect: WebDialect, grid: seq<int>, ports: nat,
    pages: WebUi.Firmware, unhashed: WebUi.Firmware,
    cli: CliShell.Firmware, image: CliWrites.Image,
    portPage: bool, poePage: bool,
    carries: (Switch, Write) -> bool,
    accepts: (Switch, Varbind) -> bool,
    takes: QBridge.Agent,
    rearm: (Switch, int) -> seq<PoeControl.Event>,
    lastRead: Switch -> int)

  // ----- the configured view, and putting it back -----

  /** The static table: every VLAN's configured members and its untagged set. */
  function Static(vlans: map<int, Vlan>): map<int, VlanRow> {
    map v | v in vlans :: VlanRow(vlans[v].Configured(), vlans[v].untagged)
  }

  function RowMode(rows: map<int, VlanRow>, vlan: int, port: int): VlanMode {
    if vlan in rows then ModeIn(rows[vlan].egress, rows[vlan].untagged, port) else Excluded
  }

  /** A VLAN once its configuration is `row`: who was in it and is still configured stays in it, and who is
      newly configured joins if the firmware lets it. */
  function Settled(fw: CliShell.Firmware, vlan: int, was: Vlan, row: VlanRow): Vlan {
    var members := set p | p in row.egress && (p in was.members || fw.joins(vlan, p));
    Vlan(members, row.untagged, row.egress - members)
  }

  lemma SettledMeans(fw: CliShell.Firmware, vlan: int, was: Vlan, row: VlanRow, port: int)
    ensures var now := Settled(fw, vlan, was, row);
            && (port in now.members <==> port in row.egress && (port in was.members || fw.joins(vlan, port)))
            && (port in now.configuredOnly <==> port in row.egress && port !in now.members)
            && now.untagged == row.untagged
  {
  }

  /** The VLANs after a backend has left the static table at `rows`. */
  function PutStatic(fw: CliShell.Firmware, vlans: map<int, Vlan>, rows: map<int, VlanRow>): map<int, Vlan> {
    map v | v in rows ::
      if v in vlans && rows[v] == Static(vlans)[v] then vlans[v]
      else Settled(fw, v, if v in vlans then vlans[v] else Vlan({}, {}, {}), rows[v])
  }

  function WithStatic(m: Model, sw: Switch, rows: map<int, VlanRow>): Switch {
    sw.(shell := sw.shell.(vlans := PutStatic(m.cli, sw.shell.vlans, rows)))
  }

  /** A port whose part in the static table is as before is spared. */
  lemma PutSpares(m: Model, sw: Switch, rows: map<int, VlanRow>, port: int)
    requires forall v :: RowMode(rows, v, port) == RowMode(Static(sw.shell.vlans), v, port)
    ensures Spared(sw.shell, WithStatic(m, sw, rows).shell, port)
  {
    var before, after := sw.shell, WithStatic(m, sw, rows).shell;
    forall v ensures ConfiguredMode(after, v, port) == ConfiguredMode(before, v, port) {
      assert RowMode(rows, v, port) == RowMode(Static(before.vlans), v, port);
    }
    forall v | v in before.vlans && port in before.vlans[v].members
      ensures v in after.vlans && port in after.vlans[v].members
    {
      assert RowMode(rows, v, port) == RowMode(Static(before.vlans), v, port) != Excluded;
    }
  }

  // ----- switchport columns and the shell's switchport modes -----

  function KindOf(mode: int): SwitchportMode {
    if mode == MODE_ACCESS then AccessPort else if mode == MODE_TRUNK then TrunkPort else GeneralPort
  }

  /** VLANs that exist, in which the port is configured in the given way. */
  function ConfiguredAs(s: Shell, port: int, mode: VlanMode): set<int> {
    set v | v in s.vlans && ConfiguredMode(s, v, port) == mode
  }

  /** A port's columns once the shell has its switchport mode and its memberships: the same mode, and in general
      mode participation lists that say what it is configured into. */
  function FollowedRow(s: Shell, port: int, row: PortRow): PortRow
    requires port in s.switchport
  {
    match s.switchport[port]
    case AccessPort => row.(mode := MODE_ACCESS)
    case TrunkPort => row.(mode := MODE_TRUNK)
    case GeneralPort =>
      var existing := s.vlans.Keys;
      row.(mode := MODE_GENERAL,
           generalTagged := (row.generalTagged - existing) + ConfiguredAs(s, port, Tagged),
           generalUntagged := (row.generalUntagged - existing) + ConfiguredAs(s, port, Untagged))
  }

  /** The switch with its columns in step with the shell. */
  function Following(sw: Switch): Switch {
    sw.(columns := map p | p in sw.columns ::
          if p in sw.shell.switchport then FollowedRow(sw.shell, p, sw.columns[p]) else sw.columns[p])
  }

  /** The two views of a port agree: the same switchport mode, and in general mode the same memberships. */
  ghost predicate InStep(sw: Switch, port: int) {
    port in sw.columns && port in sw.shell.switchport ==>
      && KindOf(sw.columns[port].mode) == sw.shell.switchport[port]
      && (sw.shell.switchport[port] == GeneralPort ==>
            Derive(sw.columns[port], sw.shell.vlans.Keys)
            == Membership(ConfiguredAs(sw.shell, port, Tagged), ConfiguredAs(sw.shell, port, Untagged)))
  }

  lemma FollowingIsInStep(sw: Switch, port: int)
    ensures InStep(Following(sw), port)
  {
    if port in sw.columns && port in sw.shell.switchport && sw.shell.switchport[port] == GeneralPort {
      var existing, row := sw.shell.vlans.Keys, FollowedRow(sw.shell, port, sw.columns[port]);
      var tagged, untagged := ConfiguredAs(sw.shell, port, Tagged), ConfiguredAs(sw.shell, port, Untagged);
      assert row.generalUntagged * existing == untagged;
      assert (row.generalTagged - row.generalUntagged) * existing == tagged;
    }
  }

  /** A port's part in a VLAN by its general-mode columns. */
  function GeneralPart(row: PortRow, existing: set<int>, vlan: int): Part {
    var now := Derive(row.(mode := MODE_GENERAL), existing);
    Part(if vlan in now.untagged then Untagged else if vlan in now.tagged then Tagged else Excluded, true)
  }

  lemma GeneralPartMeans(row: PortRow, existing: set<int>, vlan: int)
    ensures var part := GeneralPart(row, existing, vlan);
            && part.now
            && (part.mode == Untagged <==> vlan in existing && vlan in row.generalUntagged)
            && (part.mode == Tagged <==> vlan in existing && vlan in row.generalTagged && vlan !in row.generalUntagged)
  {
  }

  /** The shell's firmware on this switch: a port with columns that goes general has the part they give it. */
  function CliOf(m: Model, sw: Switch): CliShell.Firmware {
    m.cli.(general := (s: Shell, v: int, p: int) =>
             if p in sw.columns then GeneralPart(sw.columns[p], s.vlans.Keys, v) else m.cli.general(s, v, p))
  }

  /** An operation over the CLI. */
  function Cli(m: Model, protectedPorts: set<int>, sw: Switch, op: CliWrites.Op): (Result<()>, Switch) {
    var (r, shell) := CliWrites.Perform(CliOf(m, sw), m.image, protectedPorts, sw.shell, op);
    (r, sw.(shell := shell))
  }

  /** Port 15 of the captured M4300-24X is in access mode on VLAN 10, and untagged in VLAN 1 by its general
      lists. Tagging it into VLAN 20 over the CLI returns normally, takes it out of VLAN 10 and into VLAN 1. */
  lemma CliWriteLeavesAccessVlan(m: Model, sw: Switch)
    requires (forall s, c :: m.cli.accepts(s, c)) && m.cli.joins(20, 15) && m.image.hasSwitchportModes
    requires 15 in sw.columns && sw.columns[15] == CapturedM4300.SeedRow(15)
    requires 15 in sw.shell.switchport && sw.shell.switchport[15] == AccessPort
    requires sw.shell.vlans.Keys == CapturedM4300.Vlans()
    requires PortMode(sw.shell, 10, 15) == Untagged && PortMode(sw.shell, 1, 15) == Excluded
    ensures var (r, after) := Cli(m, {}, sw, CliWrites.SetMembership(20, 15, Tagged, false));
            && r.Ok? && PortMode(after.shell, 20, 15) == Tagged
            && PortMode(after.shell, 10, 15) == Excluded && PortMode(after.shell, 1, 15) == Untagged
  {
    var fw, s := CliOf(m, sw), sw.shell;
    var at := CliWrites.InInterface(s, 15);
    var base := ToGeneral(fw, at, 15);
    CliWrites.AcceptedThroughout(fw, m.image, {}, s, 20, 15, Tagged, false);
    CliWrites.MembershipReadsBack(fw, m.image, {}, s, 20, 15, Tagged, false);
    Port15InGeneralMode();
    assert forall v :: fw.general(at, v, 15) == GeneralPart(sw.columns[15], s.vlans.Keys, v);
    assert base.vlans[10] == Placed(s.vlans[10], 15, Part(Excluded, true));
    assert base.vlans[1] == Placed(s.vlans[1], 15, Part(Untagged, true));
  }

  lemma Port15InGeneralMode()
    ensures var row, vlans := CapturedM4300.SeedRow(15), CapturedM4300.Vlans();
            GeneralPart(row, vlans, 10) == Part(Excluded, true) && GeneralPart(row, vlans, 1) == Part(Untagged, true)
  {
    assert Derive(CapturedM4300.SeedRow(15).(mode := MODE_GENERAL), CapturedM4300.Vlans()) == Membership({}, {1});
  }

  // ----- SNMP -----

  /** The switchport agent: its mirrors show the static table, and an accepted column SET re-derives the
      membership of its port in every VLAN. */
  function Rederived(vlans: map<int, Vlan>, port: int, now: Membership): map<int, Vlan> {
    map v | v in vlans ::
      if v in now.untagged then vlans[v].(members := vlans[v].members + {port}, untagged := vlans[v].untagged + {port})
      else if v in now.tagged then
        vlans[v].(members := vlans[v].members + {port}, untagged := vlans[v].untagged - {port})
      else vlans[v].(members := vlans[v].members - {port}, untagged := vlans[v].untagged - {port})
  }

  function SetColumnOf(m: Model, sw: Switch, vb: Varbind): (bool, Switch) {
    if vb.port !in sw.columns || !m.accepts(sw, vb) then (false, sw)
    else match SetColumn(sw.columns[vb.port], vb, sw.shell.vlans.Keys)
      case None => (false, sw)
      case Some(row) =>
        var now := Derive(row, sw.shell.vlans.Keys);
        (true, sw.(columns := sw.columns[vb.port := row],
                   shell := sw.shell.(vlans := Rederived(sw.shell.vlans, vb.port, now),
                                      switchport := sw.shell.switchport[vb.port := KindOf(row.mode)])))
  }

  function AllowedOf(sw: Switch, port: int): Octets {
    if port in sw.columns then sw.columns[port].allowed else Encode({}, VLAN_BITMAP_BYTES)
  }

  function AgentOf(m: Model): SnmpMembership.Behaviour<Switch> {
    SnmpMembership.Behaviour(
      (sw: Switch) => (SnmpListing(m, sw), sw),
      (sw: Switch, port: int) => (if port in sw.columns then Some(sw.columns[port].mode) else None, sw),
      (sw: Switch, port: int) => (AllowedOf(sw, port), sw),
      (sw: Switch, vb: Varbind) => SetColumnOf(m, sw, vb))
  }

  /** A SET is taken if the port has columns, the agent takes it and the column does; then the column has its value,
      and the port takes part in every VLAN as its columns derive, everything else being as it was. */
  lemma ColumnSetShows(m: Model, sw: Switch, vb: Varbind)
    ensures var (taken, after) := SetColumnOf(m, sw, vb);
            var existing := sw.shell.vlans.Keys;
            && (taken <==> vb.port in sw.columns && m.accepts(sw, vb)
                           && SetColumn(sw.columns[vb.port], vb, existing).Some?)
            && (!taken ==> after == sw)
            && (taken ==>
                  var row := SetColumn(sw.columns[vb.port], vb, existing).value;
                  && after.columns == sw.columns[vb.port := row] && after.onShow == sw.onShow
                  && after.shell == sw.shell.(vlans := after.shell.vlans, switchport := after.shell.switchport)
                  && after.shell.vlans.Keys == existing
                  && forall v :: v in existing ==>
                       (PortMode(after.shell, v, vb.port)
                        == if v in Derive(row, existing).untagged then Untagged
                           else if v in Derive(row, existing).tagged then Tagged else Excluded))
  {
    var (taken, after) := SetColumnOf(m, sw, vb);
    if taken {
      var existing := sw.shell.vlans.Keys;
      var now := Derive(SetColumn(sw.columns[vb.port], vb, existing).value, existing);
      forall v | v in existing { RederivedMeans(sw.shell.vlans, vb.port, now, v); }
    }
  }

  lemma RederivedMeans(vlans: map<int, Vlan>, port: int, now: Membership, vlan: int)
    requires vlan in vlans
    ensures var row := Rederived(vlans, port, now)[vlan];
            && (port in row.members <==> vlan in now.untagged || vlan in now.tagged)
            && (port in row.untagged <==> vlan in now.untagged)
            && row.configuredOnly == vlans[vlan].configuredOnly
            && forall p :: p != port ==>
                 && (p in row.members <==> p in vlans[vlan].members)
                 && (p in row.untagged <==> p in vlans[vlan].untagged)
  {
  }

  /** A column SET of one port spares every other. */
  lemma ColumnSpares(m: Model, sw: Switch, vb: Varbind, port: int)
    requires vb.port != port
    ensures Spared(sw.shell, SetColumnOf(m, sw, vb).1.shell, port)
  {
  }

  /** The first SET of several is the agent's own answer to it. */
  lemma IssueFirst(m: Model, sw: Switch, vbs: seq<Varbind>)
    requires vbs != []
    ensures var answer := SetColumnOf(m, sw, vbs[0]);
            SnmpMembership.Issue(AgentOf(m), sw, vbs).1
            == if answer.0 then SnmpMembership.Issue(AgentOf(m), answer.1, vbs[1..]).1 else answer.1
  {
    assert AgentOf(m).onSet(sw, vbs[0]) == SetColumnOf(m, sw, vbs[0]);
  }

  lemma {:induction false} IssueSpares(m: Model, sw: Switch, vbs: seq<Varbind>, port: int, after: Switch)
    requires forall i :: 0 <= i < |vbs| ==> vbs[i].port != port
    requires after == SnmpMembership.Issue(AgentOf(m), sw, vbs).1
    ensures Spared(sw.shell, after.shell, port)
    decreases |vbs|
  {
    if vbs != [] {
      ColumnSpares(m, sw, vbs[0], port);
      IssueFirst(m, sw, vbs);
      var (taken, next) := SetColumnOf(m, sw, vbs[0]);
      if taken {
        IssueSpares(m, next, vbs[1..], port, after);
        SparedTransitive(sw.shell, next.shell, after.shell, port);
      }
    }
  }

  /** set_vlan_membership over SNMP, in either dialect. */
  function SnmpMembershipWrite(m: Model, protectedPorts: set<int>, sw: Switch, vlan: int, port: int, mode: VlanMode)
    : (Result<()>, Switch)
  {
    if m.switchport then
      var finish := SnmpMembership.WriteMembership(AgentOf(m), sw, protectedPorts, vlan, port, mode, false);
      (if finish.result.Ok? then Ok(()) else Err(finish.result.error), finish.state)
    else
      var (r, rows) := WriteRows(m.autoUntag, m.split, m.octets, m.physical, m.takes, protectedPorts,
                                 Static(sw.shell.vlans), vlan, port, mode, false);
      (r, WithStatic(m, sw, rows))
  }

  lemma AgentReadsQuietly(m: Model)
    ensures SnmpMembership.ReadsQuietly(AgentOf(m))
  {
    var dev := AgentOf(m);
    assert forall s: Switch :: dev.walkVlans(s).1 == s;
    assert forall s: Switch, p: int :: dev.getMode(s, p).1 == s;
    assert forall s: Switch, p: int :: dev.getAllowed(s, p).1 == s;
  }

  lemma SwitchportSpares(m: Model, protectedPorts: set<int>, sw: Switch, vlan: int, port: int, mode: VlanMode,
                         other: int)
    requires port != other
    ensures var finish := SnmpMembership.WriteMembership(AgentOf(m), sw, protectedPorts, vlan, port, mode, false);
            Spared(sw.shell, finish.state.shell, other)
  {
    AgentReadsQuietly(m);
    var vbs := SnmpMembership.WriteIsItsSets(AgentOf(m), sw, protectedPorts, vlan, port, mode, false);
    IssueSpares(m, sw, vbs, other, SnmpMembership.Issue(AgentOf(m), sw, vbs).1);
  }

  /** The row of a Q-BRIDGE write, combined or split, cut short or not, on either firmware, edited from whatever
      was reported, shows every other port that is physical as before. */
  lemma RowWrittenSpares(m: Model, row: VlanRow, mode: VlanMode, port: int, other: int)
    requires port != other && (m.octets || m.physical.None? || other in m.physical.value)
    ensures var wanted := WantedRow(EditedFrom(m.octets, m.physical, row), mode, port);
            var after, half := RowWritten(m.autoUntag, m.split, row, wanted), EgressWritten(m.autoUntag, row, wanted);
            && ModeIn(after.egress, after.untagged, other) == ModeIn(row.egress, row.untagged, other)
            && ModeIn(half.egress, half.untagged, other) == ModeIn(row.egress, row.untagged, other)
  {
    var edited := EditedFrom(m.octets, m.physical, row);
    assert other in edited.egress <==> other in row.egress;
    assert other in edited.untagged <==> other in row.untagged;
  }

  lemma SnmpMembershipSpares(m: Model, protectedPorts: set<int>, sw: Switch, vlan: int, port: int, mode: VlanMode,
                             other: int)
    requires (other in protectedPorts || other != port)
             && (m.switchport || m.octets || m.physical.None? || other in m.physical.value)
    ensures Spared(sw.shell, SnmpMembershipWrite(m, protectedPorts, sw, vlan, port, mode).1.shell, other)
  {
    if m.switchport {
      if port != other { SwitchportSpares(m, protectedPorts, sw, vlan, port, mode, other); }
    } else {
      var before := Static(sw.shell.vlans);
      if port != other && vlan in before {
        RowWrittenSpares(m, before[vlan], mode, port, other);
      }
      var rows := WriteRows(m.autoUntag, m.split, m.octets, m.physical, m.takes, protectedPorts,
                            before, vlan, port, mode, false).1;
      PutSpares(m, sw, rows, other);
    }
  }

  // ----- NSDP -----

  function Records(rows: map<int, VlanRow>): map<int, Nsdp.Record> {
    map v | v in rows :: Nsdp.Record(rows[v].egress, rows[v].egress - rows[v].untagged)
  }

  function FromRecords(records: map<int, Nsdp.Record>): map<int, VlanRow> {
    map v | v in records :: VlanRow(records[v].members, records[v].members - records[v].tagged)
  }

  /** A Plus switch over NSDP, taking a write or ignoring it. */
  function NsdpFirmware(takes: bool): Nsdp.Firmware {
    if takes then Nsdp.Faithful()
    else Nsdp.Firmware((rows: map<int, Nsdp.Record>, v: int, row: Nsdp.Record) => rows,
                       (rows: map<int, Nsdp.Record>, v: int) => rows)
  }

  function NsdpMembershipWrite(m: Model, protectedPorts: set<int>, sw: Switch, vlan: VlanId, port: int, mode: VlanMode)
    : (Result<()>, Switch)
  {
    var fw := NsdpFirmware(m.carries(sw, ToMembership(vlan, port, mode)));
    var rows := Records(Static(sw.shell.vlans));
    var (r, records) := Nsdp.WriteMembership(fw, protectedPorts, rows, vlan, port, mode, false);
    (r, WithStatic(m, sw, FromRecords(records)))
  }

  lemma NsdpMembershipSpares(m: Model, protectedPorts: set<int>, sw: Switch, vlan: VlanId, port: int, mode: VlanMode,
                             other: int)
    requires other in protectedPorts || other != port
    ensures Spared(sw.shell, NsdpMembershipWrite(m, protectedPorts, sw, vlan, port, mode).1.shell, other)
  {
    var before := Static(sw.shell.vlans);
    var was := Records(before);
    var takes := m.carries(sw, ToMembership(vlan, port, mode));
    var records := Nsdp.WriteMembership(NsdpFirmware(takes), protectedPorts, was, vlan, port, mode, false).1;
    if port != other {
      var row := Nsdp.MembersAfter(Nsdp.RowIn(was, vlan), port, mode);
      assert records == if takes && port !in protectedPorts then was[vlan := row] else was;
      Nsdp.UpdateMovesOnePort(Nsdp.RowIn(was, vlan), port, mode);
      assert Nsdp.PortMode(Some(row), other) == Nsdp.PortMode(Nsdp.RowIn(was, vlan), other);
    }
    forall v ensures RowMode(FromRecords(records), v, other) == RowMode(before, v, other) {
      assert v in records ==> RowMode(FromRecords(records), v, other) == Nsdp.PortMode(Some(records[v]), other);
      assert v in was ==> RowMode(before, v, other) == Nsdp.PortMode(Some(was[v]), other);
    }
    PutSpares(m, sw, FromRecords(records), other);
  }

  // ----- the web UI -----

  function IndexOf(grid: seq<int>, port: int): (i: nat)
    requires port in grid
    ensures i < |grid| && grid[i] == port
  {
    if grid[0] == port then 0 else IndexOf(grid[1..], port) + 1
  }

  function Slots(m: Model): map<int, nat> {
    var shown := m.grid[..if m.ports < |m.grid| then m.ports else |m.grid|];
    map p | p in shown :: IndexOf(shown, p)
  }

  function CodesOf(grid: seq<int>, row: VlanRow): seq<VlanMode> {
    seq(|grid|, i requires 0 <= i < |grid| => ModeIn(row.egress, row.untagged, grid[i]))
  }

  /** The web server over this switch: egress lists from the current view, codes from the configured one. */
  function WebOf(m: Model, sw: Switch): WebUi.WebState {
    var vlans := sw.shell.vlans;
    WebUi.WebState(sw.onShow,
                   map v | v in vlans :: WebUi.VlanView(vlans[v].members - vlans[v].untagged,
                                                        vlans[v].members * vlans[v].untagged,
                                                        CodesOf(m.grid, Static(vlans)[v])),
                   [])
  }

  /** Its lists are who is in the VLAN right now; its codes, slot by slot, how each interface is configured. */
  lemma WebOfShows(m: Model, sw: Switch, vlan: int)
    requires vlan in sw.shell.vlans
    ensures var view := WebUi.ViewOf(WebOf(m, sw), vlan);
            && (forall p :: p in view.tagged <==> PortMode(sw.shell, vlan, p) == Tagged)
            && (forall p :: p in view.untagged <==> PortMode(sw.shell, vlan, p) == Untagged)
            && |view.codes| == |m.grid|
            && forall i :: 0 <= i < |m.grid| ==> view.codes[i] == ConfiguredMode(sw.shell, vlan, m.grid[i])
  {
  }

  /** A port's mode once a page's codes are applied: its slot's, or what it was where it has none. */
  function CodeFor(grid: seq<int>, codes: seq<VlanMode>, was: VlanRow, port: int): VlanMode {
    if port in grid && IndexOf(grid, port) < |codes| then codes[IndexOf(grid, port)]
    else ModeIn(was.egress, was.untagged, port)
  }

  function RowFromCodes(grid: seq<int>, codes: seq<VlanMode>, was: VlanRow): VlanRow {
    var ports := was.egress + set p | p in grid;
    VlanRow(set p | p in ports && CodeFor(grid, codes, was, p) != Excluded,
            set p | p in ports && CodeFor(grid, codes, was, p) == Untagged)
  }

  lemma RowFromCodesMode(grid: seq<int>, codes: seq<VlanMode>, was: VlanRow, port: int)
    ensures var row := RowFromCodes(grid, codes, was);
            ModeIn(row.egress, row.untagged, port) == CodeFor(grid, codes, was, port)
  {
  }

  /** The switch after the web server's state has become `s`. */
  function FromWeb(m: Model, sw: Switch, s: WebUi.WebState): Switch {
    var rows := Static(sw.shell.vlans);
    WithStatic(m, sw, map v | v in rows :: if v in s.vlans then RowFromCodes(m.grid, s.vlans[v].codes, rows[v])
               else rows[v])
      .(onShow := s.onShow)
  }

  /** A port whose code is in every VLAN what it was is spared. */
  lemma FromWebSpares(m: Model, sw: Switch, s: WebUi.WebState, port: int)
    requires forall v :: v in sw.shell.vlans && v in s.vlans ==>
               CodeFor(m.grid, s.vlans[v].codes, Static(sw.shell.vlans)[v], port)
                   == RowMode(Static(sw.shell.vlans), v, port)
    ensures Spared(sw.shell, FromWeb(m, sw, s).shell, port)
  {
    var before := Static(sw.shell.vlans);
    var rows := map v | v in before :: if v in s.vlans then RowFromCodes(m.grid, s.vlans[v].codes, before[v])
        else before[v];
    forall v ensures RowMode(rows, v, port) == RowMode(before, v, port) {
      if v in rows && v in s.vlans { RowFromCodesMode(m.grid, s.vlans[v].codes, before[v], port); }
    }
    PutSpares(m, sw, rows, port);
  }

  /** Codes with one slot moved are, for every port but that slot's, what the row says. */
  lemma OneCodeMoved(grid: seq<int>, row: VlanRow, slot: nat, mode: VlanMode, port: int)
    requires slot < |grid| && grid[slot] != port
    ensures CodeFor(grid, CodesOf(grid, row)[slot := mode], row, port) == ModeIn(row.egress, row.untagged, port)
    ensures CodeFor(grid, CodesOf(grid, row), row, port) == ModeIn(row.egress, row.untagged, port)
  {
  }

  lemma CodesShowRow(grid: seq<int>, row: VlanRow, port: int)
    ensures CodeFor(grid, CodesOf(grid, row), row, port) == ModeIn(row.egress, row.untagged, port)
  {
  }

  /** A server state that differs from this switch's, if at all, in one slot of one VLAN, spares the ports of
      all other slots. */
  lemma OneSlotSpares(m: Model, sw: Switch, s: WebUi.WebState, vlan: int, slot: nat, mode: VlanMode, port: int)
    requires slot < |m.grid| && m.grid[slot] != port
    requires s.vlans == WebOf(m, sw).vlans
             || (vlan in sw.shell.vlans
                 && s.vlans == WebUi.OneSlotMoved(WebOf(m, sw), vlan, CodesOf(m.grid, Static(sw.shell.vlans)[vlan]),
                                                  slot, mode))
    ensures Spared(sw.shell, FromWeb(m, sw, s).shell, port)
  {
    var before := Static(sw.shell.vlans);
    forall v | v in sw.shell.vlans && v in s.vlans
      ensures CodeFor(m.grid, s.vlans[v].codes, before[v], port) == RowMode(before, v, port)
    {
      OneCodeMoved(m.grid, before[v], slot, mode, port);
      assert WebOf(m, sw).vlans[v].codes == CodesOf(m.grid, before[v]);
    }
    FromWebSpares(m, sw, s, port);
  }

  lemma SameWebSpares(m: Model, sw: Switch, s: WebUi.WebState, port: int)
    requires s.vlans == WebOf(m, sw).vlans
    ensures Spared(sw.shell, FromWeb(m, sw, s).shell, port)
  {
    var before := Static(sw.shell.vlans);
    forall v | v in sw.shell.vlans && v in s.vlans
      ensures CodeFor(m.grid, s.vlans[v].codes, before[v], port) == RowMode(before, v, port)
    {
      CodesShowRow(m.grid, before[v], port);
    }
    FromWebSpares(m, sw, s, port);
  }

  /** set_vlan_membership over HTTP. */
  function HttpMembershipWrite(m: Model, protectedPorts: set<int>, sw: Switch, vlan: VlanId, port: int, mode: VlanMode)
    : (Result<()>, Switch)
  {
    match m.dialect
    case FastpathWeb =>
      var (r, s) := WebUi.WriteFastpath(m.pages, WebOf(m, sw), Slots(m), protectedPorts, vlan, port, mode, false);
      (r, FromWeb(m, sw, s))
    case PlusWeb(ui) =>
      var (r, s) := WebUi.WritePlus(m.unhashed, ui, WebOf(m, sw), protectedPorts, vlan, port, mode, false);
      (r, FromWeb(m, sw, s))
    case XmlWeb =>
      var rows := Static(sw.shell.vlans);
      if port in protectedPorts then (Err(ProtectedPort), sw)
      else if vlan !in rows || !m.carries(sw, ToMembership(vlan, port, mode)) then (Err(Rejected), sw)
      else (Ok(()), WithStatic(m, sw, rows[vlan := WantedRow(rows[vlan], mode, port)]))
  }

  /** A Plus page has ports 1, 2, ... in order. */
  ghost predicate GridFits(m: Model) {
    m.dialect.PlusWeb? ==> |m.grid| == m.dialect.ui.portCount && forall i :: 0 <= i < |m.grid| ==> m.grid[i] == i + 1
  }

  /** What a web UI must do for its writes to move nothing but what was named: FASTPATH pages name the VLAN they
      show, and a Plus switch honours a select that carries no hash. */
  ghost predicate WebConfines(m: Model) {
    match m.dialect
    case FastpathWeb => WebUi.LabelsPages(m.pages)
    case PlusWeb(ui) => ui.hasHash ==> forall s, v :: m.unhashed.showAfter(s, v) == v
    case XmlWeb => true
  }

  lemma FastpathSpares(m: Model, protectedPorts: set<int>, sw: Switch, vlan: VlanId, port: int, mode: VlanMode,
                       other: int)
    requires (other in protectedPorts || other != port) && WebUi.LabelsPages(m.pages)
    ensures var s := WebUi.WriteFastpath(m.pages, WebOf(m, sw), Slots(m), protectedPorts, vlan, port, mode, false).1;
            Spared(sw.shell, FromWeb(m, sw, s).shell, other)
  {
    var web, slots := WebOf(m, sw), Slots(m);
    var s := WebUi.WriteFastpath(m.pages, web, slots, protectedPorts, vlan, port, mode, false).1;
    WebUi.FastpathMovesOneSlot(m.pages, web, slots, protectedPorts, vlan, port, mode, false);
    if s.vlans == web.vlans {
      SameWebSpares(m, sw, s, other);
    } else {
      assert m.grid[slots[port]] == port != other;
      assert WebUi.ViewOf(web, vlan).codes == CodesOf(m.grid, Static(sw.shell.vlans)[vlan]);
      OneSlotSpares(m, sw, s, vlan, slots[port], mode, other);
    }
  }

  /** A Plus write whose select is honoured sends the VLAN's own codes with one of them moved. */
  lemma PlusSpares(m: Model, ui: WebUi.PlusUi, protectedPorts: set<int>, sw: Switch, vlan: VlanId, port: int,
                   mode: VlanMode, other: int)
    requires (other in protectedPorts || other != port) && m.dialect == PlusWeb(ui) && GridFits(m) && WebConfines(m)
    ensures var s := WebUi.WritePlus(m.unhashed, ui, WebOf(m, sw), protectedPorts, vlan, port, mode, false).1;
            Spared(sw.shell, FromWeb(m, sw, s).shell, other)
  {
    var web := WebOf(m, sw);
    var s := WebUi.WritePlus(m.unhashed, ui, web, protectedPorts, vlan, port, mode, false).1;
    var own := WebUi.ViewOf(web, vlan).codes;
    if s.vlans == web.vlans {
      SameWebSpares(m, sw, s, other);
    } else {
      var codes := WebUi.CodesWith(own, ui.portCount, port, mode);
      assert vlan in sw.shell.vlans && own == CodesOf(m.grid, Static(sw.shell.vlans)[vlan])
             && own[..ui.portCount] == own;
      assert s.vlans == web.vlans[vlan := web.vlans[vlan].(codes := codes)];
      PlusCodesSpare(m, ui, sw, s, vlan, port, mode, other);
    }
  }

  lemma PlusCodesSpare(m: Model, ui: WebUi.PlusUi, sw: Switch, s: WebUi.WebState, vlan: VlanId, port: int,
                       mode: VlanMode, other: int)
    requires |m.grid| == ui.portCount && vlan in sw.shell.vlans && port != other
    requires forall i :: 0 <= i < |m.grid| ==> m.grid[i] == i + 1
    requires var web := WebOf(m, sw);
             var codes := WebUi.CodesWith(web.vlans[vlan].codes, ui.portCount, port, mode);
             s.vlans == web.vlans[vlan := web.vlans[vlan].(codes := codes)]
    ensures Spared(sw.shell, FromWeb(m, sw, s).shell, other)
  {
    var web := WebOf(m, sw);
    var own := web.vlans[vlan].codes;
    assert own[..ui.portCount] == own;
    if 1 <= port <= ui.portCount {
      OneSlotSpares(m, sw, s, vlan, port - 1, mode, other);
    } else {
      assert s.vlans == web.vlans;
      SameWebSpares(m, sw, s, other);
    }
  }

  lemma HttpMembershipSpares(m: Model, protectedPorts: set<int>, sw: Switch, vlan: VlanId, port: int, mode: VlanMode,
                             other: int)
    requires (other in protectedPorts || other != port) && GridFits(m) && WebConfines(m)
    ensures Spared(sw.shell, HttpMembershipWrite(m, protectedPorts, sw, vlan, port, mode).1.shell, other)
  {
    match m.dialect
    case FastpathWeb => FastpathSpares(m, protectedPorts, sw, vlan, port, mode, other);
    case PlusWeb(ui) => PlusSpares(m, ui, protectedPorts, sw, vlan, port, mode, other);
    case XmlWeb =>
      var rows := Static(sw.shell.vlans);
      if port != other && vlan in rows {
        PutSpares(m, sw, rows[vlan := WantedRow(rows[vlan], mode, port)], other);
      }
  }

  // ----- what each backend lists -----

  /** Ids in ascending order. */
  function IdsUpTo(vlans: set<int>, n: nat): seq<VlanId>
    requires n <= 4096
  {
    if n == 0 then [] else IdsUpTo(vlans, n - 1) + (if n in vlans then [n] else [])
  }

  lemma {:induction false} IdsHold(vlans: set<int>, n: nat, vlan: VlanId)
    requires n <= 4096
    ensures vlan in IdsUpTo(vlans, n) <==> vlan in vlans && vlan <= n
  {
    if n > 0 { IdsHold(vlans, n - 1, vlan); }
  }

  function Ids(sw: Switch): seq<VlanId> { IdsUpTo(sw.shell.vlans.Keys, 4096) }

  function InfoOf(rows: map<int, VlanRow>, vlan: VlanId): VlanInfo {
    var row := if vlan in rows then rows[vlan] else VlanRow({}, {});
    VlanInfo(vlan, row.egress, row.egress - row.untagged, row.untagged)
  }

  /** An entry lists each port of the row as the row has it. */
  lemma InfoMeans(rows: map<int, VlanRow>, vlan: VlanId, port: int)
    ensures var info := InfoOf(rows, vlan);
            && info.vlanId == vlan
            && (port in info.memberPorts <==> RowMode(rows, vlan, port) != Excluded)
            && (port in info.taggedPorts <==> RowMode(rows, vlan, port) == Tagged)
            && (RowMode(rows, vlan, port) == Untagged ==> port in info.untaggedPorts)
  {
  }

  function Listing(rows: map<int, VlanRow>, ids: seq<VlanId>): seq<VlanInfo> {
    seq(|ids|, i requires 0 <= i < |ids| => InfoOf(rows, ids[i]))
  }

  /** The static table, physical ports only. */
  function SnmpListing(m: Model, sw: Switch): seq<VlanInfo> {
    var rows := Static(sw.shell.vlans);
    Listing(map v | v in rows :: Shown(m.physical, rows[v]), Ids(sw))
  }

  /** `show vlan`: who is in each VLAN right now. */
  function CurrentRows(vlans: map<int, Vlan>): map<int, VlanRow> {
    map v | v in vlans :: VlanRow(vlans[v].members, vlans[v].members * vlans[v].untagged)
  }

  lemma CurrentMeans(s: Shell, vlan: int, port: int)
    ensures RowMode(CurrentRows(s.vlans), vlan, port) == PortMode(s, vlan, port)
    ensures vlan in s.vlans ==> CurrentRows(s.vlans)[vlan].untagged <= CurrentRows(s.vlans)[vlan].egress
  {
  }

  /** The first row of a VLAN (`next(...)`). */
  function First(rows: seq<VlanInfo>, vlan: int): Option<VlanInfo> {
    if rows == [] then None else if rows[0].vlanId == vlan then Some(rows[0]) else First(rows[1..], vlan)
  }

  /** In a reading with one row per id, a VLAN's first row is a row of its own, and there is one if it is listed. */
  lemma {:induction false} FirstOf(rows: seq<VlanInfo>, ids: seq<VlanId>, vlan: int)
    requires |rows| == |ids| && forall i :: 0 <= i < |ids| ==> rows[i].vlanId == ids[i]
    ensures First(rows, vlan).Some? <==> vlan in ids
    ensures vlan in ids ==> exists i :: 0 <= i < |ids| && ids[i] == vlan && First(rows, vlan) == Some(rows[i])
    decreases |rows|
  {
    if rows != [] && rows[0].vlanId != vlan {
      var tail, rest := rows[1..], ids[1..];
      assert forall i :: 0 <= i < |rest| ==> tail[i].vlanId == rest[i];
      FirstOf(tail, rest, vlan);
      if vlan in rest {
        var i :| 0 <= i < |rest| && rest[i] == vlan && First(tail, vlan) == Some(tail[i]);
        assert ids[i + 1] == vlan && First(rows, vlan) == Some(rows[i + 1]);
      }
    }
  }

  /** get_vlans over a backend that can delete: rows read, and the switch afterwards. */
  function Reading(m: Model, sw: Switch, b: Backend): (Result<seq<VlanInfo>>, Switch) {
    match b
    case OverSnmp => (Ok(SnmpListing(m, sw)), sw)
    case OverNsdp => (Ok(Listing(Static(sw.shell.vlans), Ids(sw))), sw)
    case OverCli => (Ok(Listing(CurrentRows(sw.shell.vlans), Ids(sw))), sw.(shell := CliWrites.Read(sw.shell)))
    case OverHttp =>
      match m.dialect
      case PlusWeb(ui) =>
        var (r, s) := WebUi.ReadPlus(m.pages, ui, WebOf(m, sw), Ids(sw));
        (r, sw.(onShow := s.onShow))
      case XmlWeb => (Ok(Listing(Static(sw.shell.vlans), Ids(sw))), sw)
      case FastpathWeb => (Err(Unsupported), sw.(onShow := m.lastRead(sw)))   // lists, but cannot delete
  }

  // ----- a normal return means the port is as asked -----

  /** A port's part in a VLAN after the static table has been put back is its part in that table. */
  lemma PutTells(m: Model, sw: Switch, rows: map<int, VlanRow>, vlan: int, port: int)
    ensures ConfiguredMode(WithStatic(m, sw, rows).shell, vlan, port) == RowMode(rows, vlan, port)
  {
    if vlan in rows {
      var row := rows[vlan];
      var now := WithStatic(m, sw, rows).shell.vlans[vlan];
      assert port in now.Configured() <==> port in row.egress;
    }
  }

  lemma NsdpOkMeansDone(m: Model, protectedPorts: set<int>, sw: Switch, vlan: VlanId, port: int, mode: VlanMode)
    ensures var (r, after) := NsdpMembershipWrite(m, protectedPorts, sw, vlan, port, mode);
            r.Ok? ==> ConfiguredMode(after.shell, vlan, port) == mode
  {
    var was := Records(Static(sw.shell.vlans));
    var takes := m.carries(sw, ToMembership(vlan, port, mode));
    var (r, records) := Nsdp.WriteMembership(NsdpFirmware(takes), protectedPorts, was, vlan, port, mode, false);
    if r.Ok? {
      var row := Nsdp.MembersAfter(Nsdp.RowIn(was, vlan), port, mode);
      Nsdp.UpdateMovesOnePort(Nsdp.RowIn(was, vlan), port, mode);
      assert records == if takes then was[vlan := row] else was;
      assert vlan in records ==> Nsdp.Consistent(records[vlan]);
      Nsdp.OkMeansAsAsked(Nsdp.RowIn(records, vlan), port, mode);
      PutTells(m, sw, FromRecords(records), vlan, port);
    }
  }

  lemma SnmpOkMeansDone(m: Model, protectedPorts: set<int>, sw: Switch, vlan: VlanId, port: int, mode: VlanMode)
    requires m.physical.None? || port in m.physical.value
    ensures var (r, after) := SnmpMembershipWrite(m, protectedPorts, sw, vlan, port, mode);
            r.Ok? ==> ConfiguredMode(after.shell, vlan, port) == mode || (m.switchport && mode == Excluded && vlan == 1)
  {
    if m.switchport {
      SwitchportOkMeansDone(m, protectedPorts, sw, vlan, port, mode);
    } else {
      var before := Static(sw.shell.vlans);
      var (r, rows) := WriteRows(m.autoUntag, m.split, m.octets, m.physical, m.takes, protectedPorts,
                                 before, vlan, port, mode, false);
      if r.Ok? {
        var wanted := WantedRow(EditedFrom(m.octets, m.physical, before[vlan]), mode, port);
        assert port in Shown(m.physical, rows[vlan]).egress <==> port in Shown(m.physical, wanted).egress;
        assert port in Shown(m.physical, rows[vlan]).untagged <==> port in Shown(m.physical, wanted).untagged;
        PutTells(m, sw, rows, vlan, port);
      }
    }
  }

  /** A port untagged in a VLAN is in it: so every re-derivation leaves its port. */
  ghost predicate UntaggedIsMember(sw: Switch, port: int) {
    forall v :: v in sw.shell.vlans && port in sw.shell.vlans[v].untagged ==> port in sw.shell.vlans[v].members
  }

  lemma {:induction false} IssueLeavesMembers(m: Model, sw: Switch, vbs: seq<Varbind>, port: int)
    requires vbs != [] && (forall i :: 0 <= i < |vbs| ==> vbs[i].port == port)
    requires SnmpMembership.Issue(AgentOf(m), sw, vbs).0
    ensures UntaggedIsMember(SnmpMembership.Issue(AgentOf(m), sw, vbs).1, port)
    decreases |vbs|
  {
    IssueFirst(m, sw, vbs);
    var (taken, next) := SetColumnOf(m, sw, vbs[0]);
    assert AgentOf(m).onSet(sw, vbs[0]) == (taken, next);
    if |vbs| > 1 {
      IssueLeavesMembers(m, next, vbs[1..], port);
    }
  }

  /** What the agent's listing shows of a physical port is how it is configured. */
  lemma ListingTells(m: Model, sw: Switch, vlan: VlanId, port: int)
    requires (m.physical.None? || port in m.physical.value) && UntaggedIsMember(sw, port)
    ensures var now := SnmpMembership.PortMembership(SnmpListing(m, sw), port);
            ModeIn(now.All(), now.untagged, vlan) == ConfiguredMode(sw.shell, vlan, port)
  {
    var rows, ids := SnmpListing(m, sw), Ids(sw);
    IdsHold(sw.shell.vlans.Keys, 4096, vlan);
    var shown := map v | v in Static(sw.shell.vlans) :: Shown(m.physical, Static(sw.shell.vlans)[v]);
    assert forall i :: 0 <= i < |rows| ==> rows[i] == InfoOf(shown, ids[i]);
    if vlan in sw.shell.vlans {
      var i :| 0 <= i < |ids| && ids[i] == vlan;
      assert rows[i].vlanId == vlan;
    }
  }

  lemma SwitchportOkMeansDone(m: Model, protectedPorts: set<int>, sw: Switch, vlan: VlanId, port: int, mode: VlanMode)
    requires m.switchport && (m.physical.None? || port in m.physical.value)
    ensures var (r, after) := SnmpMembershipWrite(m, protectedPorts, sw, vlan, port, mode);
            r.Ok? ==> ConfiguredMode(after.shell, vlan, port) == mode || (mode == Excluded && vlan == 1)
  {
    if SnmpMembership.WriteMembership(AgentOf(m), sw, protectedPorts, vlan, port, mode, false).result.Ok? {
      AgentReadsQuietly(m);
      var vbs := SnmpMembership.WriteIsItsSets(AgentOf(m), sw, protectedPorts, vlan, port, mode, false);
      SnmpMembership.OkIsRead(AgentOf(m), sw, protectedPorts, vlan, port, mode, false);
      AcceptedSetsTell(m, sw, vbs, vlan, port);
    }
  }

  /** Where accepted SETs leave the switch, what is read of the port is how it is configured. */
  lemma AcceptedSetsTell(m: Model, sw: Switch, vbs: seq<Varbind>, vlan: VlanId, port: int)
    requires vbs != [] && (forall i :: 0 <= i < |vbs| ==> vbs[i].port == port)
    requires SnmpMembership.Issue(AgentOf(m), sw, vbs).0 && (m.physical.None? || port in m.physical.value)
    ensures var end := SnmpMembership.Issue(AgentOf(m), sw, vbs).1;
            var now := SnmpMembership.PortMembership(AgentOf(m).walkVlans(end).0, port);
            ModeIn(now.All(), now.untagged, vlan) == ConfiguredMode(end.shell, vlan, port)
  {
    IssueLeavesMembers(m, sw, vbs, port);
    ListingTells(m, SnmpMembership.Issue(AgentOf(m), sw, vbs).1, vlan, port);
  }

  lemma HttpOkMeansDone(m: Model, protectedPorts: set<int>, sw: Switch, vlan: VlanId, port: int, mode: VlanMode)
    requires GridFits(m) && WebConfines(m)
    ensures var (r, after) := HttpMembershipWrite(m, protectedPorts, sw, vlan, port, mode);
            r.Ok? ==> ConfiguredMode(after.shell, vlan, port) == mode
  {
    match m.dialect
    case FastpathWeb => FastpathOkMeansDone(m, protectedPorts, sw, vlan, port, mode);
    case PlusWeb(ui) => PlusOkMeansDone(m, ui, protectedPorts, sw, vlan, port, mode);
    case XmlWeb =>
      var rows := Static(sw.shell.vlans);
      if vlan in rows { PutTells(m, sw, rows[vlan := WantedRow(rows[vlan], mode, port)], vlan, port); }
  }

  /** What a page's codes say of a port is how it is configured once they are put back. */
  lemma FromWebTells(m: Model, sw: Switch, s: WebUi.WebState, vlan: int, port: int)
    requires vlan in sw.shell.vlans && vlan in s.vlans
    ensures ConfiguredMode(FromWeb(m, sw, s).shell, vlan, port)
         == CodeFor(m.grid, s.vlans[vlan].codes, Static(sw.shell.vlans)[vlan], port)
  {
    var before := Static(sw.shell.vlans);
    var rows := map v | v in before :: if v in s.vlans then RowFromCodes(m.grid, s.vlans[v].codes, before[v])
                                       else before[v];
    PutTells(m, sw, rows, vlan, port);
    RowFromCodesMode(m.grid, s.vlans[vlan].codes, before[vlan], port);
  }

  lemma FastpathOkMeansDone(m: Model, protectedPorts: set<int>, sw: Switch, vlan: VlanId, port: int, mode: VlanMode)
    requires m.dialect == FastpathWeb && WebConfines(m)
    ensures var (r, after) := HttpMembershipWrite(m, protectedPorts, sw, vlan, port, mode);
            r.Ok? ==> ConfiguredMode(after.shell, vlan, port) == mode
  {
    var web, slots := WebOf(m, sw), Slots(m);
    var (r, s) := WebUi.WriteFastpath(m.pages, web, slots, protectedPorts, vlan, port, mode, false);
    WebUi.FastpathMovesOneSlot(m.pages, web, slots, protectedPorts, vlan, port, mode, false);
    if r.Ok? {
      FromWebTells(m, sw, s, vlan, port);
      IndexInPrefix(m.grid, m.grid[..if m.ports < |m.grid| then m.ports else |m.grid|], port);
    }
  }

  lemma {:induction false} IndexInPrefix(grid: seq<int>, shown: seq<int>, port: int)
    requires shown <= grid && port in shown
    ensures port in grid && IndexOf(grid, port) == IndexOf(shown, port)
  {
    assert grid[0] == shown[0];
    if shown[0] != port {
      assert shown[1..] <= grid[1..];
      IndexInPrefix(grid[1..], shown[1..], port);
    }
  }

  lemma PlusOkMeansDone(m: Model, ui: WebUi.PlusUi, protectedPorts: set<int>, sw: Switch,
                        vlan: VlanId, port: int, mode: VlanMode)
    requires m.dialect == PlusWeb(ui) && GridFits(m) && WebConfines(m)
    ensures var (r, after) := HttpMembershipWrite(m, protectedPorts, sw, vlan, port, mode);
            r.Ok? ==> ConfiguredMode(after.shell, vlan, port) == mode
  {
    var web := WebOf(m, sw);
    var (r, s) := WebUi.WritePlus(m.unhashed, ui, web, protectedPorts, vlan, port, mode, false);
    WebUi.PlusOkIff(m.unhashed, ui, web, protectedPorts, vlan, port, mode, false);
    if r.Ok? {
      assert s.onShow == vlan;
      var i := port - 1;
      assert m.grid[i] == port && m.grid[IndexOf(m.grid, port)] == port;
      assert vlan in s.vlans && s.vlans.Keys == web.vlans.Keys;
      FromWebTells(m, sw, s, vlan, port);
    }
  }

  /** Over the XML API a membership write succeeds exactly if it is let past the guard, the VLAN is there and the
      switch carries it out; over NSDP, once the guard lets it past, if the switch carries it out. */
  lemma XmlAndNsdpOkIff(m: Model, protectedPorts: set<int>, sw: Switch, vlan: VlanId, port: int, mode: VlanMode)
    ensures var carried := m.carries(sw, ToMembership(vlan, port, mode));
            var http, nsdp := HttpMembershipWrite(m, protectedPorts, sw, vlan, port, mode).0,
                              NsdpMembershipWrite(m, protectedPorts, sw, vlan, port, mode).0;
            && (m.dialect.XmlWeb? ==>
                  && (http.Ok? <==> port !in protectedPorts && vlan in sw.shell.vlans && carried)
                  && (http == Err(ProtectedPort) <==> port in protectedPorts)
                  && (http.Ok? || http.error in {ProtectedPort, Rejected}))
            && (nsdp == Err(ProtectedPort) <==> port in protectedPorts)
            && (port !in protectedPorts && carried ==> nsdp.Ok?)
  {
    if port !in protectedPorts && m.carries(sw, ToMembership(vlan, port, mode)) {
      Nsdp.MembershipWriteCreates(protectedPorts, Records(Static(sw.shell.vlans)), vlan, port, mode, false);
    }
  }
}
