/** What protected ports are promised over whole runs of facade calls on any backend (sync_api.py and the writers'
    own guards): unforced, they lose no VLAN membership, are not admin-disabled and keep their PoE. Every call is
    carried through by the backend's own writer, guarded on the rows that backend's own reading shows. */
module Protection {
  import opened Models
  import opened QBridge
  import WebUi
  import opened CliShell
  import CliWrites
  import PoeControl
  import opened Backends

  // ----- the facade's guard -----

  predicate FirstRow(rows: seq<VlanInfo>, vlan: int, i: int) {
    0 <= i < |rows| && rows[i].vlanId == vlan && forall j :: 0 <= j < i ==> rows[j].vlanId != vlan
  }

  lemma {:induction false} FirstIsFirstRow(rows: seq<VlanInfo>, vlan: int, i: nat)
    requires i <= |rows| && forall j :: 0 <= j < i ==> rows[j].vlanId != vlan
    ensures First(rows, vlan) == First(rows[i..], vlan)
  {
    if i > 0 {
      FirstIsFirstRow(rows, vlan, i - 1);
      assert rows[i - 1..][1..] == rows[i..];
    }
  }

  /** The ports a reading shows in a VLAN. */
  function ShownIn(rows: seq<VlanInfo>, vlan: int): set<int> {
    if First(rows, vlan).Some? then First(rows, vlan).value.memberPorts else {}
  }

  /** `_guard_vlan_delete_members`, on the rows that were read. */
  method GuardVlanDelete(rows: seq<VlanInfo>, protectedPorts: set<int>, vlan: int, force: bool) returns (r: Result<()>)
    ensures r.Err? ==> r.error == ProtectedPort
    ensures r.Err? <==> !force && exists i :: FirstRow(rows, vlan, i) && rows[i].memberPorts * protectedPorts != {}
    ensures r.Err? <==> !force && ShownIn(rows, vlan) * protectedPorts != {}
  {
    if force { return Ok(()); }
    assert rows[0..] == rows;
    for i := 0 to |rows|
      invariant forall j :: 0 <= j < i ==> rows[j].vlanId != vlan
    {
      FirstIsFirstRow(rows, vlan, i);
      if rows[i].vlanId == vlan {
        assert FirstRow(rows, vlan, i);
        return if rows[i].memberPorts * protectedPorts != {} then Err(ProtectedPort) else Ok(());
      }
    }
    FirstIsFirstRow(rows, vlan, |rows|);
    return Ok(());
  }

  // ----- deletion -----

  function Destroyed(sw: Switch, vlan: int): Switch {
    sw.(shell := sw.shell.(vlans := sw.shell.vlans - {vlan}, names := sw.shell.names - {vlan}))
  }

  /** delete_vlan of a backend's writer, unforced. The SNMP and CLI writers guard once more on their own reading;
      the HTTP ones leave that to the facade. */
  function WriterDelete(m: Model, protectedPorts: set<int>, sw: Switch, b: Backend, vlan: VlanId)
    : (Result<()>, Switch)
  {
    var carried := m.carries(sw, ToDelete(vlan));
    match b
    case OverSnmp =>
      if First(SnmpListing(m, sw), vlan).None? then (Err(Precondition), sw)
      else if ShownIn(SnmpListing(m, sw), vlan) * protectedPorts != {} then (Err(ProtectedPort), sw)
      else if carried then (Ok(()), Destroyed(sw, vlan)) else (Err(VerificationFailed), sw)
    case OverNsdp => (Err(ProtectedPort), sw)
    case OverHttp =>
      (match m.dialect
       case FastpathWeb => (Err(Unsupported), sw)
       case PlusWeb(ui) =>
         if !ui.hasHash then (Err(Unsupported), sw)
         else if vlan !in sw.shell.vlans then (Err(UnexpectedPage), sw)
         else if carried then (Ok(()), Destroyed(sw, vlan)) else (Err(VerificationFailed), sw)
       case XmlWeb => if carried then (Ok(()), Destroyed(sw, vlan)) else (Err(Rejected), sw))
    case OverCli => Cli(m, protectedPorts, sw, CliWrites.DeleteVlan(vlan, false))
  }

  /** The facade's delete_vlan, unforced: read over the backend, guard, then delete over it. */
  function Delete(m: Model, protectedPorts: set<int>, sw: Switch, b: Backend, vlan: VlanId): (Result<()>, Switch) {
    var (read, sw1) := Reading(m, sw, b);
    if read.Err? then (Err(read.error), sw1)
    else if ShownIn(read.value, vlan) * protectedPorts != {} then (Err(ProtectedPort), sw1)
    else WriterDelete(m, protectedPorts, sw1, b, vlan)
  }

  /** delete_vlan as the facade runs it, with the guard above. */
  method DeleteVlan(m: Model, protectedPorts: set<int>, sw: Switch, b: Backend, vlan: VlanId)
    returns (r: Result<()>, after: Switch)
    ensures (r, after) == Delete(m, protectedPorts, sw, b, vlan)
  {
    var (read, sw1) := Reading(m, sw, b);
    if read.Err? { return Err(read.error), sw1; }
    r := GuardVlanDelete(read.value, protectedPorts, vlan, false);
    if r.Err? { return r, sw1; }
    var done := WriterDelete(m, protectedPorts, sw1, b, vlan);
    return done.0, done.1;
  }

  /** The backend can delete, and the switch would do as it is told. */
  ghost predicate WouldDelete(m: Model, sw: Switch, b: Backend, vlan: VlanId) {
    match b
    case OverSnmp => m.carries(sw, ToDelete(vlan))
    case OverNsdp => false
    case OverHttp =>
      m.carries(sw, ToDelete(vlan)) && !m.dialect.FastpathWeb? && (m.dialect.PlusWeb? ==> m.dialect.ui.hasHash)
    case OverCli => CliWrites.TakesDeletion(m.cli, sw.shell, vlan)
  }

  function ConfiguredIn(sw: Switch, vlan: int): set<int> {
    if vlan in sw.shell.vlans then sw.shell.vlans[vlan].Configured() else {}
  }

  ghost predicate AllSpared(before: Switch, after: Switch, ports: set<int>) {
    forall port :: port in ports ==> Spared(before.shell, after.shell, port)
  }

  lemma AllSparedTransitive(a: Switch, b: Switch, c: Switch, ports: set<int>)
    requires AllSpared(a, b, ports) && AllSpared(b, c, ports)
    ensures AllSpared(a, c, ports)
  {
    forall port | port in ports ensures Spared(a.shell, c.shell, port) {
      SparedTransitive(a.shell, b.shell, c.shell, port);
    }
  }

  /** Taking a VLAN away spares a set of ports exactly if none of them is configured into it. */
  lemma DestroyingSparesIff(sw: Switch, vlan: int, ports: set<int>)
    ensures AllSpared(sw, Destroyed(sw, vlan), ports) <==> ConfiguredIn(sw, vlan) * ports == {}
  {
    var after := Destroyed(sw, vlan);
    if ConfiguredIn(sw, vlan) * ports != {} {
      var port := SomeOf(ConfiguredIn(sw, vlan) * ports);
      assert ConfiguredMode(after.shell, vlan, port) == Excluded != ConfiguredMode(sw.shell, vlan, port);
      assert !Spared(sw.shell, after.shell, port);
    } else {
      forall port | port in ports ensures Spared(sw.shell, after.shell, port) {
        assert port !in ConfiguredIn(sw, vlan) * ports;
      }
    }
  }

  /** A reading moves nothing but the VLAN on show and the shell's record of readings. */
  lemma ReadingMovesNothing(m: Model, sw: Switch, b: Backend, ports: set<int>)
    ensures AllSpared(sw, Reading(m, sw, b).1, ports)
    ensures Reading(m, sw, b).1.shell.vlans == sw.shell.vlans
  {
  }

  /** The CLI lists who is in a VLAN right now. */
  lemma CurrentListing(sw: Switch, vlan: VlanId)
    ensures ShownIn(Listing(CurrentRows(sw.shell.vlans), Ids(sw)), vlan)
         == if vlan in sw.shell.vlans then sw.shell.vlans[vlan].members else {}
  {
    ListingShows(CurrentRows(sw.shell.vlans), sw, vlan);
  }

  lemma ListingShows(rows: map<int, VlanRow>, sw: Switch, vlan: VlanId)
    requires rows.Keys == sw.shell.vlans.Keys
    ensures ShownIn(Listing(rows, Ids(sw)), vlan) == if vlan in rows then rows[vlan].egress else {}
    ensures First(Listing(rows, Ids(sw)), vlan).Some? <==> vlan in rows
  {
    FirstOf(Listing(rows, Ids(sw)), Ids(sw), vlan);
    IdsHold(sw.shell.vlans.Keys, 4096, vlan);
  }

  /** Over any backend that can delete, the protected ports come through an unforced deletion if and only if
      the backend's own reading shows one of them in the VLAN, or none is configured into it. */
  lemma DeletionSparesIff(m: Model, protectedPorts: set<int>, sw: Switch, b: Backend, vlan: VlanId)
    requires Reading(m, sw, b).0.Ok? && WouldDelete(m, Reading(m, sw, b).1, b, vlan)
    ensures AllSpared(sw, Delete(m, protectedPorts, sw, b, vlan).1, protectedPorts)
       <==> ShownIn(Reading(m, sw, b).0.value, vlan) * protectedPorts != {}
            || ConfiguredIn(sw, vlan) * protectedPorts == {}
  {
    var (read, sw1) := Reading(m, sw, b);
    ReadingMovesNothing(m, sw, b, protectedPorts);
    if ShownIn(read.value, vlan) * protectedPorts == {} {
      if b == OverCli {
        CliDeletionSparesIff(m, protectedPorts, sw, vlan);
      } else {
        DestroyingSparesIff(sw1, vlan, protectedPorts);
        ReadThenDestroyed(sw, sw1, vlan, protectedPorts);
        SnmpLists(m, sw, vlan);
      }
    }
  }

  /** Over SNMP a VLAN that is there is listed. */
  lemma SnmpLists(m: Model, sw: Switch, vlan: VlanId)
    ensures First(SnmpListing(m, sw), vlan).Some? <==> vlan in sw.shell.vlans
    ensures ShownIn(SnmpListing(m, sw), vlan) == Physical(m.physical, ConfiguredIn(sw, vlan))
    ensures vlan !in sw.shell.vlans ==> Destroyed(sw, vlan).shell.vlans == sw.shell.vlans
  {
    var rows := Static(sw.shell.vlans);
    ListingShows(map v | v in rows :: Shown(m.physical, rows[v]), sw, vlan);
  }

  lemma ReadThenDestroyed(sw: Switch, sw1: Switch, vlan: int, ports: set<int>)
    requires sw1.shell == sw.shell
    ensures AllSpared(sw, Destroyed(sw1, vlan), ports) <==> AllSpared(sw1, Destroyed(sw1, vlan), ports)
    ensures AllSpared(sw, sw1, ports)
  {
  }

  lemma CliDeletionSparesIff(m: Model, protectedPorts: set<int>, sw: Switch, vlan: VlanId)
    requires CliWrites.TakesDeletion(m.cli, CliWrites.Read(sw.shell), vlan)
    requires ShownIn(Reading(m, sw, OverCli).0.value, vlan) * protectedPorts == {}
    ensures AllSpared(sw, Delete(m, protectedPorts, sw, OverCli, vlan).1, protectedPorts)
            <==> ConfiguredIn(sw, vlan) * protectedPorts == {}
  {
    var s1 := CliWrites.Read(sw.shell);
    CurrentListing(sw, vlan);
    var fw := CliOf(m, Reading(m, sw, OverCli).1);
    CliWrites.DeletionSparesIff(fw, m.image, protectedPorts, s1, vlan);
    var after := CliWrites.Perform(fw, m.image, protectedPorts, s1, CliWrites.DeleteVlan(vlan, false)).1;
    assert Delete(m, protectedPorts, sw, OverCli, vlan).1.shell == after;
    assert forall port :: Spared(sw.shell, after, port) <==> Spared(s1, after, port);
    if vlan in sw.shell.vlans {
      var row := sw.shell.vlans[vlan];
      assert ConfiguredIn(sw, vlan) * protectedPorts
             == row.members * protectedPorts + row.configuredOnly * protectedPorts;
    }
  }

  // ----- when a reading shows what is configured -----

  /** What a deletion's reading must be for it to show every protected port configured into a VLAN: over SNMP
      protected ports are among the physical ones, and the pages of a Plus web UI are each VLAN's own. The CLI's
      reading is another matter. */
  ghost predicate ReadsTruly(m: Model, protectedPorts: set<int>, b: Backend) {
    match b
    case OverSnmp => m.physical.Some? ==> protectedPorts <= m.physical.value
    case OverHttp =>
      m.dialect.PlusWeb? ==>
        WebUi.OwnPages(m.pages, m.dialect.ui) && forall p :: p in protectedPorts ==> 1 <= p <= m.dialect.ui.portCount
    case _ => true
  }

  /** What a membership write must rest on: over SNMP whole octets, or protected ports that are physical, unless
      the switch is written by columns; over HTTP a web UI that confines its writes. */
  ghost predicate WritesTruly(m: Model, protectedPorts: set<int>, b: Backend) {
    match b
    case OverSnmp => m.switchport || m.octets || m.physical.None? || protectedPorts <= m.physical.value
    case OverHttp => WebConfines(m)
    case _ => true
  }

  /** A page's own codes show, of the ports it has, exactly those configured into the VLAN. */
  lemma OwnEntryShows(m: Model, ui: WebUi.PlusUi, sw: Switch, info: VlanInfo, vlan: VlanId, port: int)
    requires m.dialect == PlusWeb(ui) && GridFits(m) && 1 <= port <= ui.portCount && vlan in sw.shell.vlans
    requires WebUi.SaysCodes(info, vlan, WebUi.ViewOf(WebOf(m, sw), vlan).codes, ui.portCount)
    ensures port in info.memberPorts <==> port in ConfiguredIn(sw, vlan)
  {
    var codes := WebUi.ViewOf(WebOf(m, sw), vlan).codes;
    assert codes == CodesOf(m.grid, Static(sw.shell.vlans)[vlan]) && m.grid[port - 1] == port;
    assert codes[port - 1] == RowMode(Static(sw.shell.vlans), vlan, port);
    assert port in info.taggedPorts <==> codes[port - 1] == Tagged;
  }

  lemma PlusReadingShows(m: Model, ui: WebUi.PlusUi, protectedPorts: set<int>, sw: Switch, vlan: VlanId)
    requires m.dialect == PlusWeb(ui) && GridFits(m) && ReadsTruly(m, protectedPorts, OverHttp)
    requires Reading(m, sw, OverHttp).0.Ok?
    ensures ConfiguredIn(sw, vlan) * protectedPorts <= ShownIn(Reading(m, sw, OverHttp).0.value, vlan)
  {
    var web, ids := WebOf(m, sw), Ids(sw);
    var base := if ui.checked then Some(WebUi.PageOf(m.pages, web, web.onShow)) else None;
    WebUi.ReadRestIsOwn(m.pages, ui, base, web, ids);
    var rows := Reading(m, sw, OverHttp).0.value;
    assert forall i :: 0 <= i < |ids| ==>
             WebUi.SaysCodes(rows[i], ids[i], WebUi.ViewOf(web, ids[i]).codes, ui.portCount);
    FirstOf(rows, ids, vlan);
    IdsHold(sw.shell.vlans.Keys, 4096, vlan);
    forall port | port in ConfiguredIn(sw, vlan) * protectedPorts ensures port in ShownIn(rows, vlan) {
      OwnEntryShows(m, ui, sw, First(rows, vlan).value, vlan, port);
    }
  }

  /** Every reading but the CLI's shows every protected port configured into a VLAN. */
  lemma ReadingShows(m: Model, protectedPorts: set<int>, sw: Switch, b: Backend, vlan: VlanId)
    requires GridFits(m) && ReadsTruly(m, protectedPorts, b) && b != OverCli && Reading(m, sw, b).0.Ok?
    ensures ConfiguredIn(sw, vlan) * protectedPorts <= ShownIn(Reading(m, sw, b).0.value, vlan)
  {
    match b
    case OverSnmp => SnmpLists(m, sw, vlan);
    case OverNsdp => ListingShows(Static(sw.shell.vlans), sw, vlan);
    case OverHttp =>
      match m.dialect {
        case PlusWeb(ui) => PlusReadingShows(m, ui, protectedPorts, sw, vlan);
        case XmlWeb => ListingShows(Static(sw.shell.vlans), sw, vlan);
        case FastpathWeb =>
      }
  }

  /** So an unforced deletion, whatever the switch makes of it, spares the protected ports; over the CLI, if no
      VLAN hides one of them. */
  lemma DeleteSpares(m: Model, protectedPorts: set<int>, sw: Switch, b: Backend, vlan: VlanId)
    requires GridFits(m) && ReadsTruly(m, protectedPorts, b)
    requires b == OverCli ==> !CliWrites.Exposed(sw.shell, protectedPorts, vlan)
    ensures AllSpared(sw, Delete(m, protectedPorts, sw, b, vlan).1, protectedPorts)
  {
    var (read, sw1) := Reading(m, sw, b);
    ReadingMovesNothing(m, sw, b, protectedPorts);
    if read.Ok? && ShownIn(read.value, vlan) * protectedPorts == {} {
      if b == OverCli {
        var op := CliWrites.DeleteVlan(vlan, false);
        var after := WriterDelete(m, protectedPorts, sw1, b, vlan).1;
        forall port | port in protectedPorts ensures Spared(sw1.shell, after.shell, port) {
          CliWrites.OpSparesProtected(CliOf(m, sw1), m.image, protectedPorts, sw1.shell, op, port);
        }
        AllSparedTransitive(sw, sw1, after, protectedPorts);
      } else {
        ReadingShows(m, protectedPorts, sw, b, vlan);
        DestroyingSparesIff(sw1, vlan, protectedPorts);
        ReadThenDestroyed(sw, sw1, vlan, protectedPorts);
      }
    }
  }

  /** A five-port Plus switch whose server keeps showing VLAN 1, read without the wrong-VLAN check: the guard
      reads VLAN 1's ports as VLAN 20's, and an unforced deletion takes protected port 5 out of VLAN 20. */
  lemma UncheckedReadingStrips(m: Model, sw: Switch)
    requires m.dialect == PlusWeb(WebUi.PlusUi(5, true, false)) && m.grid == [1, 2, 3, 4, 5]
    requires (forall s, v :: m.pages.showAfter(s, v) == 1) && (forall s, w :: m.carries(s, w))
    requires sw.shell.vlans == map[1 := Vlan({1}, {1}, {}), 20 := Vlan({5}, {}, {})]
    ensures var (r, sw') := Delete(m, {5}, sw, OverHttp, 20);
            r.Ok? && ConfiguredMode(sw.shell, 20, 5) == Tagged && ConfiguredMode(sw'.shell, 20, 5) == Excluded
  {
    var web, ids, ui := WebOf(m, sw), Ids(sw), WebUi.PlusUi(5, true, false);
    var one := WebUi.ViewOf(web, 1).codes;
    assert one == CodesOf(m.grid, Static(sw.shell.vlans)[1]);
    WebUi.ReadRestStuck(m.pages, ui, web, ids, 1);
    var rows := Reading(m, sw, OverHttp).0.value;
    FirstOf(rows, ids, 20);
    IdsHold(sw.shell.vlans.Keys, 4096, 20);
    assert WebUi.PortCode(one, 5) == Excluded;
    assert 5 !in WebUi.PlusInfo(20, one, 5).memberPorts;
  }

  // ----- the other writes -----

  /** The end of every write: it returns normally if the reading that follows shows what was asked. */
  function Verified(shown: bool): Result<()> { if shown then Ok(()) else Err(VerificationFailed) }

  function SetMembership(m: Model, protectedPorts: set<int>, sw: Switch, b: Backend, vlan: VlanId, port: int,
                         mode: VlanMode): (Result<()>, Switch) {
    match b
    case OverSnmp => SnmpMembershipWrite(m, protectedPorts, sw, vlan, port, mode)
    case OverNsdp => NsdpMembershipWrite(m, protectedPorts, sw, vlan, port, mode)
    case OverHttp => HttpMembershipWrite(m, protectedPorts, sw, vlan, port, mode)
    case OverCli => Cli(m, protectedPorts, sw, CliWrites.SetMembership(vlan, port, mode, false))
  }

  /** create_vlan: the SNMP and web writers add an empty row where there is none; so does NSDP, which carries no
      name; the FASTPATH and gs110emx web UIs cannot. */
  function Create(m: Model, sw: Switch, b: Backend, vlan: VlanId, name: string): (Result<()>, Switch) {
    var made := if m.carries(sw, ToCreate(vlan, name)) then sw.(shell := WithVlan(sw.shell, vlan)) else sw;
    var there := vlan in made.shell.vlans;
    match b
    case OverSnmp =>
      var named := if m.carries(sw, ToCreate(vlan, name)) then made.shell.names[vlan := name] else made.shell.names;
      (Verified(there && vlan in named && named[vlan] == name), made.(shell := made.shell.(names := named)))
    case OverNsdp => if vlan in sw.shell.vlans then (Ok(()), sw) else (Verified(there), made)
    case OverHttp =>
      if m.dialect.FastpathWeb? || (m.dialect.PlusWeb? && !m.dialect.ui.hasHash) then (Err(Unsupported), sw)
      else (Verified(there), made)
    case OverCli => Cli(m, {}, sw, CliWrites.CreateVlan(vlan, name))
  }

  /** set_port_enabled. The web writer guards switching on as well as off. */
  function SetPortEnabled(m: Model, protectedPorts: set<int>, sw: Switch, b: Backend, port: int, on: bool)
    : (Result<()>, Switch)
  {
    var disabled := if m.carries(sw, ToPortEnabled(port, on)) then With(sw.shell.disabled, port, !on)
        else sw.shell.disabled;
    var done := (Verified(port !in disabled <==> on), sw.(shell := sw.shell.(disabled := disabled)));
    match b
    case OverSnmp => if !on && port in protectedPorts then (Err(ProtectedPort), sw) else done
    case OverNsdp => (Err(Unsupported), sw)
    case OverHttp =>
      if port in protectedPorts then (Err(ProtectedPort), sw)
      else if !m.portPage && !m.dialect.XmlWeb? then (Err(Unsupported), sw)
      else done
    case OverCli => Cli(m, protectedPorts, sw, CliWrites.SetPortEnabled(port, on, false))
  }

  function SetPoe(m: Model, protectedPorts: set<int>, sw: Switch, b: Backend, port: int, on: bool)
    : (Result<()>, Switch)
  {
    var unpowered := if m.carries(sw, ToPoe(port, on)) then With(sw.shell.unpowered, port, !on) else sw.shell.unpowered;
    var done := (Verified(port !in unpowered <==> on), sw.(shell := sw.shell.(unpowered := unpowered)));
    match b
    case OverSnmp => if !on && port in protectedPorts then (Err(ProtectedPort), sw) else done
    case OverNsdp => (Err(Unsupported), sw)
    case OverHttp =>
      if !m.poePage && !m.dialect.XmlWeb? then (Err(Unsupported), sw)
      else if port in protectedPorts then (Err(ProtectedPort), sw)
      else done
    case OverCli => Cli(m, protectedPorts, sw, CliWrites.SetPoe(port, on, false))
  }

  /** A re-arm: its SETs decide the port's PoE, and it returns normally only once both are made and the port
      is seen to recover. */
  function Rearmed(m: Model, sw: Switch, port: int): (Result<()>, Switch) {
    var sets := PoeControl.SetsIn(m.rearm(sw, port));
    var powered := PoeControl.PowerAfter(sets, port !in sw.shell.unpowered);
    (Verified(sets == [false, true] && m.carries(sw, ToCycle(port))),
     sw.(shell := sw.shell.(unpowered := With(sw.shell.unpowered, port, !powered))))
  }

  /** cycle_poe and clear_poe_fault: two SETs with waits over SNMP and the XML API, a reset button elsewhere. */
  function CyclePoe(m: Model, protectedPorts: set<int>, sw: Switch, b: Backend, port: int): (Result<()>, Switch) {
    match b
    case OverSnmp => if port in protectedPorts then (Err(ProtectedPort), sw) else Rearmed(m, sw, port)
    case OverNsdp => (Err(Unsupported), sw)
    case OverHttp =>
      if m.dialect.XmlWeb? then
        if port in protectedPorts then (Err(ProtectedPort), sw) else Rearmed(m, sw, port)
      else if !m.poePage then (Err(Unsupported), sw)
      else if port in protectedPorts then (Err(ProtectedPort), sw)
      else (Verified(m.carries(sw, ToCycle(port))), sw)
    case OverCli => Cli(m, protectedPorts, sw, CliWrites.ResetPoe(port, false))
  }

  function SetPvid(m: Model, protectedPorts: set<int>, sw: Switch, b: Backend, port: int, vlan: VlanId)
    : (Result<()>, Switch)
  {
    var pvids := if m.carries(sw, ToPvid(port, vlan)) then sw.shell.pvids[port := vlan] else sw.shell.pvids;
    if b == OverCli then Cli(m, protectedPorts, sw, CliWrites.SetPvid(port, vlan, false))
    else if port in protectedPorts then (Err(ProtectedPort), sw)
    else if vlan !in sw.shell.vlans then (Err(Precondition), sw)
    else (Verified(port in pvids && pvids[port] == vlan), sw.(shell := sw.shell.(pvids := pvids)))
  }

  // ----- one call, and runs of them -----

  /** One unforced facade call over one backend. */
  datatype Call = Call(backend: Backend, write: Write)

  /** What a call rests on, to be had from the model and the protected ports alone. */
  ghost predicate Sound(m: Model, protectedPorts: set<int>, call: Call) {
    match call.write
    case ToMembership(_, _, _) => WritesTruly(m, protectedPorts, call.backend)
    case ToDelete(_) => ReadsTruly(m, protectedPorts, call.backend)
    case _ => true
  }

  ghost predicate DeletesOverCli(call: Call) { call.backend == OverCli && call.write.ToDelete? }

  function Carried(m: Model, protectedPorts: set<int>, sw: Switch, call: Call): (Result<()>, Switch) {
    match call.write
    case ToMembership(vlan, port, mode) => SetMembership(m, protectedPorts, sw, call.backend, vlan, port, mode)
    case ToCreate(vlan, name) => Create(m, sw, call.backend, vlan, name)
    case ToDelete(vlan) => Delete(m, protectedPorts, sw, call.backend, vlan)
    case ToPortEnabled(port, on) => SetPortEnabled(m, protectedPorts, sw, call.backend, port, on)
    case ToPoe(port, on) => SetPoe(m, protectedPorts, sw, call.backend, port, on)
    case ToCycle(port) => CyclePoe(m, protectedPorts, sw, call.backend, port)
    case ToPvid(port, vlan) => SetPvid(m, protectedPorts, sw, call.backend, port, vlan)
  }

  /** The call carried through, and the switchport columns in step with it. */
  function Step(m: Model, protectedPorts: set<int>, sw: Switch, call: Call): (Result<()>, Switch) {
    var (r, after) := Carried(m, protectedPorts, sw, call);
    (r, Following(after))
  }

  /** After every call, over whatever backend, columns and shell tell the same of every port. */
  lemma StepInStep(m: Model, protectedPorts: set<int>, sw: Switch, call: Call, port: int)
    ensures InStep(Step(m, protectedPorts, sw, call).1, port)
  {
    FollowingIsInStep(Carried(m, protectedPorts, sw, call).1, port);
  }

  lemma CliSpares(m: Model, protectedPorts: set<int>, sw: Switch, op: CliWrites.Op)
    requires !CliWrites.Forced(op) && !op.DeleteVlan?
    ensures AllSpared(sw, Cli(m, protectedPorts, sw, op).1, protectedPorts)
  {
    forall port | port in protectedPorts ensures Spared(sw.shell, Cli(m, protectedPorts, sw, op).1.shell, port) {
      CliWrites.OpSparesProtected(CliOf(m, sw), m.image, protectedPorts, sw.shell, op, port);
    }
  }

  lemma MembershipSpares(m: Model, protectedPorts: set<int>, sw: Switch, b: Backend, vlan: VlanId, port: int,
                         mode: VlanMode)
    requires GridFits(m) && WritesTruly(m, protectedPorts, b)
    ensures AllSpared(sw, SetMembership(m, protectedPorts, sw, b, vlan, port, mode).1, protectedPorts)
  {
    if b == OverCli {
      CliSpares(m, protectedPorts, sw, CliWrites.SetMembership(vlan, port, mode, false));
    } else {
      forall other | other in protectedPorts
        ensures Spared(sw.shell, SetMembership(m, protectedPorts, sw, b, vlan, port, mode).1.shell, other)
      {
        match b
        case OverSnmp => SnmpMembershipSpares(m, protectedPorts, sw, vlan, port, mode, other);
        case OverNsdp => NsdpMembershipSpares(m, protectedPorts, sw, vlan, port, mode, other);
        case OverHttp => HttpMembershipSpares(m, protectedPorts, sw, vlan, port, mode, other);
      }
    }
  }

  lemma CreateSpares(m: Model, protectedPorts: set<int>, sw: Switch, b: Backend, vlan: VlanId, name: string)
    ensures AllSpared(sw, Create(m, sw, b, vlan, name).1, protectedPorts)
  {
    var after := Create(m, sw, b, vlan, name).1;
    forall port | port in protectedPorts ensures Spared(sw.shell, after.shell, port) {
      if b == OverCli {
        CliWrites.UnguardedSpares(CliOf(m, sw), m.image, sw.shell, vlan, name, port);
      } else {
        NewVlanSpares(sw.shell, vlan, name, port);
        NewVlanRenamed(sw.shell, vlan, name);
        assert after.shell in {sw.shell, WithVlan(sw.shell, vlan),
                               WithVlan(sw.shell, vlan).(names := sw.shell.names[vlan := name])};
      }
    }
  }

  lemma NewVlanRenamed(s: Shell, vlan: int, name: string)
    ensures WithVlan(s, vlan).(names := WithVlan(s, vlan).names[vlan := name])
            == WithVlan(s, vlan).(names := s.names[vlan := name])
  {
    assert WithVlan(s, vlan).names[vlan := name] == s.names[vlan := name];
  }

  lemma PortEnabledSpares(m: Model, protectedPorts: set<int>, sw: Switch, b: Backend, port: int, on: bool)
    ensures AllSpared(sw, SetPortEnabled(m, protectedPorts, sw, b, port, on).1, protectedPorts)
  {
    if b == OverCli { CliSpares(m, protectedPorts, sw, CliWrites.SetPortEnabled(port, on, false)); }
  }

  lemma PoeSpares(m: Model, protectedPorts: set<int>, sw: Switch, b: Backend, port: int, on: bool)
    ensures AllSpared(sw, SetPoe(m, protectedPorts, sw, b, port, on).1, protectedPorts)
  {
    if b == OverCli { CliSpares(m, protectedPorts, sw, CliWrites.SetPoe(port, on, false)); }
  }

  lemma CycleSpares(m: Model, protectedPorts: set<int>, sw: Switch, b: Backend, port: int)
    ensures AllSpared(sw, CyclePoe(m, protectedPorts, sw, b, port).1, protectedPorts)
  {
    if b == OverCli { CliSpares(m, protectedPorts, sw, CliWrites.ResetPoe(port, false)); }
  }

  lemma PvidSpares(m: Model, protectedPorts: set<int>, sw: Switch, b: Backend, port: int, vlan: VlanId)
    ensures AllSpared(sw, SetPvid(m, protectedPorts, sw, b, port, vlan).1, protectedPorts)
  {
    if b == OverCli { CliSpares(m, protectedPorts, sw, CliWrites.SetPvid(port, vlan, false)); }
  }

  /** One unforced call, over any backend, whatever the switch makes of it, spares every protected port. */
  lemma StepSpares(m: Model, protectedPorts: set<int>, sw: Switch, call: Call)
    requires GridFits(m) && Sound(m, protectedPorts, call)
    requires DeletesOverCli(call) ==> CliWrites.NoneExposed(sw.shell, protectedPorts)
    ensures AllSpared(sw, Step(m, protectedPorts, sw, call).1, protectedPorts)
  {
    match call.write
    case ToMembership(vlan, port, mode) => MembershipSpares(m, protectedPorts, sw, call.backend, vlan, port, mode);
    case ToCreate(vlan, name) => CreateSpares(m, protectedPorts, sw, call.backend, vlan, name);
    case ToDelete(vlan) => DeleteSpares(m, protectedPorts, sw, call.backend, vlan);
    case ToPortEnabled(port, on) => PortEnabledSpares(m, protectedPorts, sw, call.backend, port, on);
    case ToPoe(port, on) => PoeSpares(m, protectedPorts, sw, call.backend, port, on);
    case ToCycle(port) => CycleSpares(m, protectedPorts, sw, call.backend, port);
    case ToPvid(port, vlan) => PvidSpares(m, protectedPorts, sw, call.backend, port, vlan);
  }

  function Run(m: Model, protectedPorts: set<int>, sw: Switch, calls: seq<Call>): Switch
    decreases |calls|
  {
    if calls == [] then sw else Run(m, protectedPorts, Step(m, protectedPorts, sw, calls[0]).1, calls[1..])
  }

  /** Over every run of unforced calls, in any mix of backends, against any firmware whose pages and readings can
      be trusted where a call rests on them, and, if the CLI is to delete, on a switch where no VLAN hides a
      protected port from its guard to begin with: every protected port keeps every membership, tagging included,
      stays enabled and stays powered. */
  lemma {:induction false} RunSpares(m: Model, protectedPorts: set<int>, sw: Switch, calls: seq<Call>)
    requires GridFits(m) && forall call :: call in calls ==> Sound(m, protectedPorts, call)
    requires (exists call :: call in calls && DeletesOverCli(call)) ==> CliWrites.NoneExposed(sw.shell, protectedPorts)
    ensures AllSpared(sw, Run(m, protectedPorts, sw, calls), protectedPorts)
    decreases |calls|
  {
    if calls != [] {
      var next := Step(m, protectedPorts, sw, calls[0]).1;
      assert calls[0] in calls;
      StepSpares(m, protectedPorts, sw, calls[0]);
      forall call | call in calls[1..] ensures call in calls { }
      if CliWrites.NoneExposed(sw.shell, protectedPorts) {
        CliWrites.SparingKeepsNoneExposed(sw.shell, next.shell, protectedPorts);
      }
      RunSpares(m, protectedPorts, next, calls[1..]);
      AllSparedTransitive(sw, next, Run(m, protectedPorts, sw, calls), protectedPorts);
    }
  }

  // ----- a normal return means it was done -----

  /** Of the parts that are not a call's business nothing differs. */
  ghost predicate KeepsRest(call: Call, before: Shell, after: Shell) {
    && after.collectors == before.collectors && after.modes == before.modes
    && (call.write.ToPortEnabled? || after.disabled == before.disabled)
    && (call.write.ToPoe? || call.write.ToCycle? || after.unpowered == before.unpowered)
    && (call.write.ToPortEnabled? || call.write.ToPoe? || call.write.ToCycle? ==>
          after.vlans == before.vlans && after.names == before.names && after.pvids == before.pvids)
    && (call.write.ToPvid? && call.backend != OverCli ==> after.vlans == before.vlans && after.names == before.names)
    && (call.write.ToCreate? ==> after.pvids == before.pvids)
  }

  /** What was asked is so. A membership is left to the lemmas of its own below. */
  ghost predicate Done(call: Call, before: Shell, after: Shell) {
    match call.write
    case ToMembership(_, _, _) => true
    case ToCreate(v, name) =>
      && after.vlans == (if v in before.vlans then before.vlans else before.vlans[v := Vlan({}, {}, {})])
      && (call.backend == OverSnmp || call.backend == OverCli ==> v in after.names && after.names[v] == name)
    case ToDelete(v) => after.vlans == before.vlans - {v} && v !in after.names
    case ToPortEnabled(p, on) => after.disabled == if on then before.disabled - {p} else before.disabled + {p}
    case ToPoe(p, on) => after.unpowered == if on then before.unpowered - {p} else before.unpowered + {p}
    case ToCycle(p) => after.unpowered == before.unpowered || after.unpowered == before.unpowered - {p}
    case ToPvid(p, v) => v in before.vlans && p in after.pvids && after.pvids[p] == v
  }

  /** Over any backend, a call that returns normally has done what it was asked, and no call touches what is not
      its business. Over the CLI that is so wherever the image lets a port be put in general mode. */
  lemma OkMeansDone(m: Model, protectedPorts: set<int>, sw: Switch, call: Call)
    requires !call.write.ToMembership?
    requires call.write.ToPvid? ==> m.image.hasSwitchportModes || call.write.port !in sw.shell.switchport
    ensures var (r, after) := Step(m, protectedPorts, sw, call);
            r.Ok? ==> Done(call, sw.shell, after.shell) && KeepsRest(call, sw.shell, after.shell)
  {
    if call.backend == OverCli {
      CliOkMeansDone(m, protectedPorts, sw, call);
    } else {
      WireOkMeansDone(m, protectedPorts, sw, call);
    }
  }

  lemma WireOkMeansDone(m: Model, protectedPorts: set<int>, sw: Switch, call: Call)
    requires call.backend != OverCli && !call.write.ToMembership?
    ensures var (r, after) := Carried(m, protectedPorts, sw, call);
            r.Ok? ==> Done(call, sw.shell, after.shell) && KeepsRest(call, sw.shell, after.shell)
  {
    if call.write.ToDelete? { DeleteOkMeansGone(m, protectedPorts, sw, call.backend, call.write.vlan); }
  }

  lemma DeleteOkMeansGone(m: Model, protectedPorts: set<int>, sw: Switch, b: Backend, vlan: VlanId)
    requires b != OverCli
    ensures var (r, after) := Delete(m, protectedPorts, sw, b, vlan);
            r.Ok? ==>
              && after.shell.vlans == sw.shell.vlans - {vlan} && vlan !in after.shell.names
              && KeepsRest(Call(b, ToDelete(vlan)), sw.shell, after.shell)
  {
  }

  lemma CliOkMeansDone(m: Model, protectedPorts: set<int>, sw: Switch, call: Call)
    requires call.backend == OverCli && !call.write.ToMembership?
    requires call.write.ToPvid? ==> m.image.hasSwitchportModes || call.write.port !in sw.shell.switchport
    ensures var (r, after) := Step(m, protectedPorts, sw, call);
            r.Ok? ==> Done(call, sw.shell, after.shell) && KeepsRest(call, sw.shell, after.shell)
  {
    var fw, s := CliOf(m, sw), sw.shell;
    match call.write
    case ToCreate(v, name) => CliWrites.VlanCreated(fw, m.image, {}, s, v, name);
    case ToDelete(v) => CliDeleteOkMeansGone(m, protectedPorts, sw, v);
    case ToPortEnabled(p, on) =>
      CliWrites.OpRefusals(fw, m.image, protectedPorts, s, CliWrites.SetPortEnabled(p, on, false));
      if p !in protectedPorts || on { CliWrites.PortEnabledReadsBack(fw, m.image, protectedPorts, s, p, on, false); }
    case ToPoe(p, on) =>
      CliWrites.OpRefusals(fw, m.image, protectedPorts, s, CliWrites.SetPoe(p, on, false));
      if m.image.hasPoe && (p !in protectedPorts || on) {
        CliWrites.PoeReadsBack(fw, m.image, protectedPorts, s, p, on, false);
      }
    case ToCycle(p) =>
      CliWrites.OpRefusals(fw, m.image, protectedPorts, s, CliWrites.ResetPoe(p, false));
      if m.image.hasPoe && p !in protectedPorts {
        CliWrites.PoeResetReadsBack(fw, m.image, protectedPorts, s, p, false);
      }
    case ToPvid(p, v) =>
      CliWrites.OpRefusals(fw, m.image, protectedPorts, s, CliWrites.SetPvid(p, v, false));
      if v in s.vlans && p !in protectedPorts {
        CliWrites.PvidReadsBack(fw, m.image, protectedPorts, s, p, v, false);
      }
    case _ =>
  }

  lemma CliDeleteOkMeansGone(m: Model, protectedPorts: set<int>, sw: Switch, vlan: VlanId)
    ensures var (r, after) := Delete(m, protectedPorts, sw, OverCli, vlan);
            r.Ok? ==>
              && after.shell.vlans == sw.shell.vlans - {vlan} && vlan !in after.shell.names
              && KeepsRest(Call(OverCli, ToDelete(vlan)), sw.shell, after.shell)
  {
    var sw1 := Reading(m, sw, OverCli).1;
    var fw, s1 := CliOf(m, sw1), sw1.shell;
    CliWrites.OpRefusals(fw, m.image, protectedPorts, s1, CliWrites.DeleteVlan(vlan, false));
    if vlan in s1.vlans && s1.vlans[vlan].members * protectedPorts == {} {
      CliWrites.VlanDeleted(fw, m.image, protectedPorts, s1, vlan, false);
    }
  }

  /** What a switch that carries every request out is asked with success over SNMP, NSDP or HTTP. */
  ghost predicate Allowed(m: Model, protectedPorts: set<int>, sw: Switch, call: Call) {
    var b, http := call.backend, call.backend == OverHttp;
    match call.write
    case ToMembership(_, _, _) => false
    case ToCreate(_, _) => !http || m.dialect.XmlWeb? || (m.dialect.PlusWeb? && m.dialect.ui.hasHash)
    case ToDelete(v) =>
      && b != OverNsdp
      && (http ==> m.dialect.XmlWeb? || (m.dialect.PlusWeb? && m.dialect.ui.hasHash))
      && (v in sw.shell.vlans || (http && m.dialect.XmlWeb?))
      && Reading(m, sw, b).0.Ok? && ShownIn(Reading(m, sw, b).0.value, v) * protectedPorts == {}
    case ToPortEnabled(p, on) =>
      if http then p !in protectedPorts && (m.portPage || m.dialect.XmlWeb?)
      else b == OverSnmp && (on || p !in protectedPorts)
    case ToPoe(p, on) =>
      if http then p !in protectedPorts && (m.poePage || m.dialect.XmlWeb?)
      else b == OverSnmp && (on || p !in protectedPorts)
    case ToCycle(p) =>
      && p !in protectedPorts
      && (http && !m.dialect.XmlWeb? ==> m.poePage)
      && (b == OverSnmp || (http && m.dialect.XmlWeb?) ==> PoeControl.SetsIn(m.rearm(sw, p)) == [false, true])
      && b != OverNsdp
    case ToPvid(p, v) => p !in protectedPorts && v in sw.shell.vlans
  }

  /** On a switch that carries every request out, the calls that return normally are exactly the allowed ones. */
  lemma CarriedOkIff(m: Model, protectedPorts: set<int>, sw: Switch, call: Call)
    requires call.backend != OverCli && !call.write.ToMembership?
    requires forall st, w :: m.carries(st, w)
    ensures Step(m, protectedPorts, sw, call).0.Ok? <==> Allowed(m, protectedPorts, sw, call)
  {
    if call.write.ToDelete? { SnmpLists(m, sw, call.write.vlan); }
  }

  /** The guard is what stands in a call's way, over SNMP, NSDP or HTTP. */
  ghost predicate Guarded(m: Model, protectedPorts: set<int>, sw: Switch, call: Call) {
    var b, http := call.backend, call.backend == OverHttp;
    match call.write
    case ToMembership(_, p, _) => p in protectedPorts
    case ToCreate(_, _) => false
    case ToDelete(v) =>
      b == OverNsdp
      || (Reading(m, sw, b).0.Ok? && ShownIn(Reading(m, sw, b).0.value, v) * protectedPorts != {})
    case ToPortEnabled(p, on) => p in protectedPorts && (http || (b == OverSnmp && !on))
    case ToPoe(p, on) =>
      p in protectedPorts && ((http && (m.poePage || m.dialect.XmlWeb?)) || (b == OverSnmp && !on))
    case ToCycle(p) => p in protectedPorts && (b == OverSnmp || (http && (m.poePage || m.dialect.XmlWeb?)))
    case ToPvid(p, _) => p in protectedPorts
  }

  /** The backend has no way of doing it. */
  ghost predicate Impossible(m: Model, protectedPorts: set<int>, sw: Switch, call: Call) {
    var b, http := call.backend, call.backend == OverHttp;
    match call.write
    case ToCreate(_, _) => http && (m.dialect.FastpathWeb? || (m.dialect.PlusWeb? && !m.dialect.ui.hasHash))
    case ToDelete(v) =>
      http && (m.dialect.FastpathWeb?
               || (m.dialect.PlusWeb? && !m.dialect.ui.hasHash && Reading(m, sw, b).0.Ok?
                   && ShownIn(Reading(m, sw, b).0.value, v) * protectedPorts == {}))
    case ToPortEnabled(p, _) =>
      b == OverNsdp || (http && p !in protectedPorts && !m.portPage && !m.dialect.XmlWeb?)
    case ToPoe(_, _) => b == OverNsdp || (http && !m.poePage && !m.dialect.XmlWeb?)
    case ToCycle(_) => b == OverNsdp || (http && !m.poePage && !m.dialect.XmlWeb?)
    case _ => false
  }

  /** A call is refused by the guard, or as impossible, exactly when it should be, and names the reason; a refused
      call, or one that finds its VLAN missing, changes nothing the switch is configured with. */
  lemma CallRefusals(m: Model, protectedPorts: set<int>, sw: Switch, call: Call)
    requires call.backend != OverCli && !call.write.ToMembership?
    ensures var (r, after) := Step(m, protectedPorts, sw, call);
            && (r == Err(ProtectedPort) <==> Guarded(m, protectedPorts, sw, call))
            && (r == Err(Unsupported) <==> Impossible(m, protectedPorts, sw, call))
            && (r == Err(Precondition) <==>
                  match call.write
                  case ToPvid(p, v) => p !in protectedPorts && v !in sw.shell.vlans
                  case ToDelete(v) => call.backend == OverSnmp && v !in sw.shell.vlans
                  case _ => false)
            && (r.Err? && r.error != VerificationFailed ==> CliWrites.SameConfig(after.shell, sw.shell))
  {
    if call.write.ToDelete? {
      DeleteRefusals(m, protectedPorts, sw, call.backend, call.write.vlan);
    } else {
      OtherRefusals(m, protectedPorts, sw, call);
    }
  }

  lemma OtherRefusals(m: Model, protectedPorts: set<int>, sw: Switch, call: Call)
    requires call.backend != OverCli && !call.write.ToMembership? && !call.write.ToDelete?
    ensures var (r, after) := Carried(m, protectedPorts, sw, call);
            && (r == Err(ProtectedPort) <==> Guarded(m, protectedPorts, sw, call))
            && (r == Err(Unsupported) <==> Impossible(m, protectedPorts, sw, call))
            && (r == Err(Precondition) <==>
                  call.write.ToPvid? && call.write.port !in protectedPorts && call.write.vlan !in sw.shell.vlans)
            && (r.Err? && r.error != VerificationFailed ==> after == sw)
  {
  }

  lemma DeleteRefusals(m: Model, protectedPorts: set<int>, sw: Switch, b: Backend, vlan: VlanId)
    requires b != OverCli
    ensures var (r, after) := Delete(m, protectedPorts, sw, b, vlan);
            && (r == Err(ProtectedPort) <==> Guarded(m, protectedPorts, sw, Call(b, ToDelete(vlan))))
            && (r == Err(Unsupported) <==> Impossible(m, protectedPorts, sw, Call(b, ToDelete(vlan))))
            && (r == Err(Precondition) <==> b == OverSnmp && vlan !in sw.shell.vlans)
            && (r == Err(Rejected) ==> b == OverHttp && m.dialect.XmlWeb?)
            && (b == OverHttp && m.dialect.PlusWeb? && m.dialect.ui.hasHash && Reading(m, sw, b).0.Ok? ==>
                  (r == Err(UnexpectedPage) <==>
                     vlan !in sw.shell.vlans && ShownIn(Reading(m, sw, b).0.value, vlan) * protectedPorts == {}))
            && (r.Err? ==> after.shell == sw.shell)
  {
    SnmpLists(m, sw, vlan);
    if b == OverHttp && m.dialect.PlusWeb? { PlusReadingFails(m, m.dialect.ui, sw); }
  }

  lemma PlusReadingFails(m: Model, ui: WebUi.PlusUi, sw: Switch)
    requires m.dialect == PlusWeb(ui)
    ensures Reading(m, sw, OverHttp).0.Err? ==> Reading(m, sw, OverHttp).0.error == UnexpectedPage
  {
    var web := WebOf(m, sw);
    var base := if ui.checked then Some(WebUi.PageOf(m.pages, web, web.onShow)) else None;
    WebUi.ReadRestIsOwn(m.pages, ui, base, web, Ids(sw));
  }

  /** Whatever a PoE cycle's end, over SNMP or the XML API the last SET taken decides the port's power, and with
      none taken it is as it was; over the other web UIs it is as it was. */
  lemma CycleLeavesPower(m: Model, protectedPorts: set<int>, sw: Switch, b: Backend, port: int)
    requires b == OverSnmp || b == OverHttp
    requires port !in protectedPorts
    ensures var after := CyclePoe(m, protectedPorts, sw, b, port).1;
            var sets := PoeControl.SetsIn(m.rearm(sw, port));
            var unpowered := port in after.shell.unpowered;
            if (b == OverSnmp || m.dialect.XmlWeb?) && sets != [] then unpowered == !sets[|sets| - 1]
            else unpowered == (port in sw.shell.unpowered)
  {
  }

  // ----- and a membership write moves the named port as asked -----

  /** What such a write must rest on: over SNMP a physical port; over HTTP a web UI that confines its writes; over
      the CLI an image that lets the port be put in general mode. */
  ghost predicate MayTell(m: Model, sw: Switch, b: Backend, port: int) {
    match b
    case OverSnmp => m.physical.None? || port in m.physical.value
    case OverNsdp => true
    case OverHttp => GridFits(m) && WebConfines(m)
    case OverCli => m.image.hasSwitchportModes || port !in sw.shell.switchport
  }

  /** The two exclusions that are reported as done and need not be: of VLAN 1 over switchport columns, and of a VLAN
      the port is only configured into over the CLI. */
  ghost predicate MayLinger(m: Model, b: Backend, vlan: VlanId, mode: VlanMode) {
    mode == Excluded && ((b == OverSnmp && m.switchport && vlan == 1) || b == OverCli)
  }

  lemma MembershipOkMeansDone(m: Model, protectedPorts: set<int>, sw: Switch, b: Backend,
                              vlan: VlanId, port: int, mode: VlanMode)
    requires MayTell(m, sw, b, port)
    ensures var (r, after) := SetMembership(m, protectedPorts, sw, b, vlan, port, mode);
            r.Ok? ==> ConfiguredMode(after.shell, vlan, port) == mode || MayLinger(m, b, vlan, mode)
  {
    match b
    case OverSnmp => SnmpOkMeansDone(m, protectedPorts, sw, vlan, port, mode);
    case OverNsdp => NsdpOkMeansDone(m, protectedPorts, sw, vlan, port, mode);
    case OverHttp => HttpOkMeansDone(m, protectedPorts, sw, vlan, port, mode);
    case OverCli =>
      var fw, op := CliOf(m, sw), CliWrites.SetMembership(vlan, port, mode, false);
      CliWrites.OpRefusals(fw, m.image, protectedPorts, sw.shell, op);
      if vlan in sw.shell.vlans && port !in protectedPorts {
        CliWrites.MembershipReadsBack(fw, m.image, protectedPorts, sw.shell, vlan, port, mode, false);
      }
  }

  // ----- the re-arm behind a PoE cycle -----

  /** cycle_poe over SNMP as it runs: nothing happens to a protected port, and a normal return leaves the port
      powered, at the end of a re-arm whose SETs are what the step above goes by. */
  method CycleOverSnmp(bench: PoeControl.Bench, protectedPorts: set<int>, port: int, rule: PoeControl.Recovery,
                       force: bool, offTimeout: real, onTimeout: real, poll: real, ghost longest: PoeControl.Delay)
    returns (r: Result<()>)
    requires poll > 0.0 && bench.log == []
    modifies bench
    ensures port in protectedPorts && !force ==> r == Err(ProtectedPort) && bench.log == []
    ensures port !in protectedPorts || force ==> PoeControl.RearmLog(bench.log, rule, r)
    ensures forall was :: r.Ok? ==> PoeControl.PowerAfter(PoeControl.SetsIn(bench.log), was)
    ensures forall was :: port !in protectedPorts || force ==>
              (PoeControl.PowerAfter(PoeControl.SetsIn(bench.log), was)
               <==> PoeControl.SetsIn(bench.log) == [false, true] || (PoeControl.SetsIn(bench.log) == [] && was))
    ensures port !in protectedPorts || force ==> (PoeControl.SetsIn(bench.log) == [] ==> r == Err(Rejected))
  {
    if port in protectedPorts && !force { return Err(ProtectedPort); }
    r := PoeControl.Rearm(bench, rule, offTimeout, onTimeout, poll, longest);
  }
}
