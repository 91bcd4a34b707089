/** CliWriter's operations (cli_write.py): VLAN lifecycle, per-port membership, PVID, admin state and PoE, and
    the sparse syslog collector table; each is a precondition check, a descent into a config mode, and
    a verifying read. */
module CliWrites {
  import opened Models
  import opened CliShell

  /** A switch image: whether it has switchport modes at all, and whether it has PSE ports. */
  datatype Image = Image(hasSwitchportModes: bool, hasPoe: bool)

  /** `_general_mode`. */
  function GeneralPrelude(image: Image): seq<Command> {
    if image.hasSwitchportModes then [SwitchportGeneral] else []
  }

  function MembershipBody(image: Image, vlan: int, mode: VlanMode): seq<Command> {
    GeneralPrelude(image)
    + (if mode == Excluded then [Participation(vlan, false)]
       else [Participation(vlan, true), Tagging(vlan, mode == Tagged)])
  }

  datatype Op =
    | CreateVlan(vlan: int, name: string)
    | DeleteVlan(vlan: int, force: bool)
    | SetMembership(vlan: int, port: int, mode: VlanMode, force: bool)
    | SetPvid(port: int, vlan: int, force: bool)
    | SetPortEnabled(port: int, on: bool, force: bool)
    | SetPoe(port: int, on: bool, force: bool)
    | ResetPoe(port: int, force: bool)     // cycle_poe, clear_poe_fault
    | AddCollector(host: string, udpPort: int, severity: int)
    | RemoveCollector(host: string)

  function InterfaceMode(port: int): seq<Command> { [EnterMode(Config), EnterMode(Interface(port))] }

  /** A `show` command: the shell notes the mode it was given in. */
  function Read(s: Shell): Shell { s.(readAt := s.readAt + [s.modes]) }

  /** The first row for a host (`next(...)`). */
  function RowFor(rows: seq<Collector>, host: string): Option<Collector> {
    if rows == [] then None else if rows[0].host == host then Some(rows[0]) else RowFor(rows[1..], host)
  }

  /** Why an operation is refused after its first reading and before any configuration command, if it is. */
  function Refusal(s: Shell, protectedPorts: set<int>, op: Op): Option<Error> {
    match op
    case DeleteVlan(v, force) =>
      if v !in s.vlans then Some(Precondition)
      else if !force && s.vlans[v].members * protectedPorts != {} then Some(ProtectedPort) else None
    case SetMembership(v, _, _, _) => if v !in s.vlans then Some(Precondition) else None
    case SetPvid(_, v, _) => if v !in s.vlans then Some(Precondition) else None
    case AddCollector(host, _, _) => if RowFor(s.collectors, host).Some? then Some(Precondition) else None
    case RemoveCollector(host) => if RowFor(s.collectors, host).None? then Some(Precondition) else None
    case _ => None
  }

  /** What precedes even the first reading: the guard, and the check that there is PoE at all. Switching a
      port or its PoE on is not guarded. */
  function RefusedUnread(image: Image, protectedPorts: set<int>, op: Op): Option<Error> {
    match op
    case SetMembership(_, p, _, force) => Guard(protectedPorts, p, force)
    case SetPvid(p, _, force) => Guard(protectedPorts, p, force)
    case SetPortEnabled(p, on, force) => Guard(protectedPorts, p, force || on)
    case SetPoe(p, on, force) => if !image.hasPoe then Some(Unsupported) else Guard(protectedPorts, p, force || on)
    case ResetPoe(p, force) =>
      if Guard(protectedPorts, p, force).Some? then Some(ProtectedPort)
      else if !image.hasPoe then Some(Unsupported) else None
    case _ => None
  }

  /** `_guard`. */
  function Guard(protectedPorts: set<int>, port: int, force: bool): Option<Error> {
    if port in protectedPorts && !force then Some(ProtectedPort) else None
  }

  function Enter(op: Op): seq<Command> {
    match op
    case CreateVlan(_, _) => [EnterMode(VlanDatabase)]
    case DeleteVlan(_, _) => [EnterMode(VlanDatabase)]
    case SetMembership(_, p, _, _) => InterfaceMode(p)
    case SetPvid(p, _, _) => InterfaceMode(p)
    case SetPortEnabled(p, _, _) => InterfaceMode(p)
    case SetPoe(p, _, _) => InterfaceMode(p)
    case ResetPoe(p, _) => InterfaceMode(p)
    case _ => [EnterMode(Config)]
  }

  function Body(image: Image, s: Shell, op: Op): seq<Command> {
    match op
    case CreateVlan(v, name) => [VlanCreate(v), VlanName(v, name)]
    case DeleteVlan(v, _) => [VlanDelete(v)]
    case SetMembership(v, _, mode, _) => MembershipBody(image, v, mode)
    case SetPvid(_, v, _) => GeneralPrelude(image) + [Pvid(v)]
    case SetPortEnabled(_, on, _) => [PortAdmin(on)]
    case SetPoe(_, on, _) => [PoeAdmin(on)]
    case ResetPoe(_, _) => [PoeReset]
    case AddCollector(host, udpPort, severity) => [LoggingAdd(host, udpPort, severity)]
    case RemoveCollector(host) =>
      match RowFor(s.collectors, host)
      case None => []
      case Some(row) => [LoggingRemove(row.index)]
  }

  /** What the verifying read must show; after a PoE reset, what polling must see before its deadline. */
  predicate Verifies(fw: Firmware, s: Shell, op: Op) {
    match op
    case CreateVlan(v, name) => v in s.vlans && v in s.names && s.names[v] == name
    case DeleteVlan(v, _) => v !in s.vlans
    case SetMembership(v, p, mode, _) => v in s.vlans && PortMode(s, v, p) == mode
    case SetPvid(p, v, _) => p in s.pvids && s.pvids[p] == v
    case SetPortEnabled(p, on, _) => p !in s.disabled <==> on
    case SetPoe(p, on, _) => p !in s.unpowered <==> on
    case ResetPoe(p, _) => fw.recovers(s, p)
    case AddCollector(host, udpPort, severity) =>
      var row := RowFor(s.collectors, host);
      row.Some? && row.value.udpPort == udpPort && row.value.severity == severity
    case RemoveCollector(host) => RowFor(s.collectors, host).None?
  }

  function Perform(fw: Firmware, image: Image, protectedPorts: set<int>, s: Shell, op: Op): (Result<()>, Shell) {
    var refused := RefusedUnread(image, protectedPorts, op);
    if refused.Some? then (Err(refused.value), s)
    else
      var s1 := Read(s);
      match Refusal(s1, protectedPorts, op)
      case Some(e) => (Err(e), s1)
      case None =>
        var (ok, s2) := InMode(fw, s1, Enter(op), Body(image, s1, op));
        if !ok then (Err(Rejected), s2)
        else if Verifies(fw, Read(s2), op) then (Ok(()), Read(s2))
        else (Err(VerificationFailed), Read(s2))
  }

  class CliWriter {
    const session: Session
    const image: Image
    const protectedPorts: set<int>

    constructor (session: Session, image: Image, protectedPorts: set<int>)
      ensures this.session == session && this.image == image && this.protectedPorts == protectedPorts
    {
      this.session, this.image, this.protectedPorts := session, image, protectedPorts;
    }

    method Show() returns (s: Shell)
      modifies session
      ensures session.shell == Read(old(session.shell)) == s
    {
      session.shell := Read(session.shell);
      s := session.shell;
    }

    method Do(op: Op) returns (r: Result<()>)
      modifies session
      ensures (r, session.shell) == Perform(session.fw, image, protectedPorts, old(session.shell), op)
    {
      var unread := RefusedUnread(image, protectedPorts, op);
      if unread.Some? { return Err(unread.value); }
      var before := Show();
      var refusal := Refusal(before, protectedPorts, op);
      if refusal.Some? { return Err(refusal.value); }
      var ok := session.DoInMode(Enter(op), Body(image, before, op));
      if !ok { return Err(Rejected); }
      var after := Show();
      return if Verifies(session.fw, after, op) then Ok(()) else Err(VerificationFailed);
    }
  }

  // ----- every operation, whatever the shell answers -----

  lemma OpStaysInMode(image: Image, s: Shell, op: Op)
    ensures Descends(Enter(op)) && StaysInMode(Body(image, s, op))
  {
  }

  /** The mode stack is as before, every read was made at that mode, and a normal return was verified. */
  lemma OpRestoresMode(fw: Firmware, image: Image, protectedPorts: set<int>, s: Shell, op: Op)
    ensures var (r, s') := Perform(fw, image, protectedPorts, s, op);
            && s'.modes == s.modes
            && |s.readAt| <= |s'.readAt| <= |s.readAt| + 2 && s.readAt <= s'.readAt
            && (forall i :: |s.readAt| <= i < |s'.readAt| ==> s'.readAt[i] == s.modes)
            && (r.Ok? ==> Verifies(fw, s', op))
  {
    var s1 := Read(s);
    OpStaysInMode(image, s1, op);
    StackRestored(fw, s1, Enter(op), Body(image, s1, op));
  }

  /** The shell after the body, seen from the state the operation's first read left. */
  function Effect(fw: Firmware, image: Image, s: Shell, op: Op): Shell {
    var (entered, s1) := RunUntilRefused(fw, s, Enter(op));
    if entered < |Enter(op)| then s else RunUntilRefused(fw, s1, Body(image, s, op)).1
  }

  ghost predicate SameConfig(a: Shell, b: Shell) {
    && a.vlans == b.vlans && a.names == b.names && a.switchport == b.switchport && a.pvids == b.pvids
    && a.disabled == b.disabled && a.unpowered == b.unpowered && a.collectors == b.collectors
  }

  lemma OpEffect(fw: Firmware, image: Image, protectedPorts: set<int>, s: Shell, op: Op)
    ensures var s' := Perform(fw, image, protectedPorts, s, op).1;
            SameConfig(s', s)
            || (RefusedUnread(image, protectedPorts, op).None? && Refusal(Read(s), protectedPorts, op).None?
                && SameConfig(s', Effect(fw, image, Read(s), op)))
  {
    OpStaysInMode(image, Read(s), op);
    StackRestored(fw, Read(s), Enter(op), Body(image, Read(s), op));
  }

  // ----- membership really takes effect -----

  lemma RunStep(fw: Firmware, s: Shell, c: Command, rest: seq<Command>)
    ensures RunUntilRefused(fw, s, [c] + rest)
         == if !Step(fw, s, c).0 then (0, s)
            else (RunUntilRefused(fw, Step(fw, s, c).1, rest).0 + 1, RunUntilRefused(fw, Step(fw, s, c).1, rest).1)
  {
    assert ([c] + rest)[1..] == rest;
  }

  /** Whether the switch lets the port into the VLAN as soon as it is included. */
  predicate TakesPart(fw: Firmware, row: Vlan, vlan: int, port: int) {
    port in row.members || fw.joins(vlan, port)
  }

  /** The port's row after the per-port commands of a request, given that the port honours them. */
  function RowAsked(fw: Firmware, row: Vlan, vlan: int, port: int, mode: VlanMode): Vlan {
    var next := Participating(fw, row, vlan, port, mode != Excluded);
    if mode == Excluded then next else next.(untagged := With(row.untagged, port, mode == Untagged))
  }

  /** How a row asked for reads back: as asked, if the port takes part; and how it is configured: as asked, but
      for a port excluded from a VLAN it was only configured into, on firmware that keeps such a setting. */
  lemma RowAskedReads(fw: Firmware, row: Vlan, vlan: int, port: int, mode: VlanMode)
    ensures var next := RowAsked(fw, row, vlan, port, mode);
            && (ModeIn(next.members, next.untagged, port) == mode
                <==> mode == Excluded || TakesPart(fw, row, vlan, port))
            && (mode != Excluded && !TakesPart(fw, row, vlan, port) ==>
                  ModeIn(next.members, next.untagged, port) == Excluded)
            && (ModeIn(next.Configured(), next.untagged, port) == mode <==>
                  !(mode == Excluded && port in row.configuredOnly && !fw.drops(vlan, port)))
            && forall p :: p != port ==>
                 && (p in next.members <==> p in row.members) && (p in next.untagged <==> p in row.untagged)
                 && (p in next.configuredOnly <==> p in row.configuredOnly)
  {
  }

  /** Participation and tagging, in interface mode, without any prelude: once all are accepted, effective on a
      port that honours VLAN commands and inert on an access port. */
  lemma PerPortCommands(fw: Firmware, s: Shell, vlan: int, port: int, mode: VlanMode, image: Image)
    requires vlan in s.vlans && !image.hasSwitchportModes
    requires s.modes != [] && s.modes[|s.modes| - 1] == Interface(port)
    ensures var (n, s') := RunUntilRefused(fw, s, MembershipBody(image, vlan, mode));
            n == |MembershipBody(image, vlan, mode)| ==>
              s' == if !HonoursVlanCommands(s, port) then s
                    else s.(vlans := s.vlans[vlan := RowAsked(fw, s.vlans[vlan], vlan, port, mode)])
  {
    var body := MembershipBody(image, vlan, mode);
    if mode == Excluded {
      assert body == [Participation(vlan, false)] + [];
      RunStep(fw, s, Participation(vlan, false), []);
    } else {
      var including, tagging := Participation(vlan, true), Tagging(vlan, mode == Tagged);
      assert body == [including] + ([tagging] + []);
      RunStep(fw, s, including, [tagging] + []);
      var s1 := Accepted(fw, s, including);
      RunStep(fw, s1, tagging, []);
      if HonoursVlanCommands(s, port) {
        var row := s.vlans[vlan];
        var mid := Participating(fw, row, vlan, port, true);
        assert s1.vlans == s.vlans[vlan := mid];
        assert With(mid.untagged, port, mode == Untagged) == With(row.untagged, port, mode == Untagged);
        assert s1.vlans[vlan := RowAsked(fw, row, vlan, port, mode)]
               == s.vlans[vlan := RowAsked(fw, row, vlan, port, mode)];
      }
    }
  }

  /** Skipping the prelude on an image that has switchport modes, every command accepted, reads back as asked
      exactly on ports not in access mode that take part as soon as they are let, and where there was nothing to do. */
  lemma PreludeNeededIff(fw: Firmware, s: Shell, vlan: int, port: int, mode: VlanMode)
    requires vlan in s.vlans && s.modes != [] && s.modes[|s.modes| - 1] == Interface(port)
    requires RunUntilRefused(fw, s, MembershipBody(Image(false, false), vlan, mode)).0
             == |MembershipBody(Image(false, false), vlan, mode)|
    ensures PortMode(RunUntilRefused(fw, s, MembershipBody(Image(false, false), vlan, mode)).1, vlan, port) == mode
       <==> (HonoursVlanCommands(s, port) && (mode == Excluded || TakesPart(fw, s.vlans[vlan], vlan, port)))
            || PortMode(s, vlan, port) == mode
  {
    PerPortCommands(fw, s, vlan, port, mode, Image(false, false));
    RowAskedReads(fw, s.vlans[vlan], vlan, port, mode);
  }

  /** The shell once the general-mode prelude, if the image has one, is accepted. */
  function Prepared(fw: Firmware, image: Image, s: Shell, port: int): Shell {
    if image.hasSwitchportModes then ToGeneral(fw, s, port) else s
  }

  lemma WithPrelude(fw: Firmware, image: Image, s: Shell, vlan: int, port: int, mode: VlanMode)
    requires vlan in s.vlans
    requires image.hasSwitchportModes || port !in s.switchport
    requires s.modes != [] && s.modes[|s.modes| - 1] == Interface(port)
    ensures var (n, s') := RunUntilRefused(fw, s, MembershipBody(image, vlan, mode));
            var base := Prepared(fw, image, s, port);
            n == |MembershipBody(image, vlan, mode)| ==>
              s' == base.(vlans := base.vlans[vlan := RowAsked(fw, base.vlans[vlan], vlan, port, mode)])
  {
    if image.hasSwitchportModes {
      var bare := image.(hasSwitchportModes := false);
      assert MembershipBody(image, vlan, mode) == [SwitchportGeneral] + MembershipBody(bare, vlan, mode);
      RunStep(fw, s, SwitchportGeneral, MembershipBody(bare, vlan, mode));
      PerPortCommands(fw, Accepted(fw, s, SwitchportGeneral), vlan, port, mode, bare);
    } else {
      PerPortCommands(fw, s, vlan, port, mode, image);
    }
  }

  /** The shell in which the commands for one interface begin. */
  function InInterface(s: Shell, port: int): Shell {
    Read(s).(modes := s.modes + [Config] + [Interface(port)])
  }

  lemma EntersInterface(fw: Firmware, s: Shell, port: int)
    ensures var (entered, at) := RunUntilRefused(fw, Read(s), InterfaceMode(port));
            entered == 2 ==> at == InInterface(s, port)
  {
    var a, b := EnterMode(Config), EnterMode(Interface(port));
    assert InterfaceMode(port) == [a] + [b];
    RunStep(fw, Read(s), a, [b]);
    OneCommand(fw, Step(fw, Read(s), a).1, b);
  }

  /** Every port but one has the part in every VLAN it had, and its PVID. */
  ghost predicate OthersUnmoved(before: Shell, after: Shell, port: int) {
    && after.vlans.Keys == before.vlans.Keys
    && (forall v, p :: v in before.vlans && p != port ==>
          && (p in after.vlans[v].members <==> p in before.vlans[v].members)
          && (p in after.vlans[v].untagged <==> p in before.vlans[v].untagged)
          && (p in after.vlans[v].configuredOnly <==> p in before.vlans[v].configuredOnly))
    && (forall p :: p != port ==> (p in after.pvids <==> p in before.pvids))
    && (forall p :: p != port && p in before.pvids && p in after.pvids ==> after.pvids[p] == before.pvids[p])
  }

  /** From any prior switchport mode, with or without switchport modes on the image, on any firmware: a
      membership write that meets no refusal leaves the port, in the named VLAN, as asked relative to the table
      general mode put it in; and it is reported as failed exactly when a port let in does not participate at
      once. Every other VLAN, and the PVID, is the one general mode gave. The reading shows the current view: a
      port excluded from a VLAN it was only configured into may stay configured. */
  lemma MembershipReadsBack(fw: Firmware, image: Image, protectedPorts: set<int>, s: Shell,
                            vlan: int, port: int, mode: VlanMode, force: bool)
    requires vlan in s.vlans && (port !in protectedPorts || force)
    requires image.hasSwitchportModes || port !in s.switchport
    ensures var (r, s') := Perform(fw, image, protectedPorts, s, SetMembership(vlan, port, mode, force));
            var base := Prepared(fw, image, InInterface(s, port), port);
            var row := base.vlans[vlan];
            var asked := if mode == Excluded || TakesPart(fw, row, vlan, port) then Ok(()) else Err(VerificationFailed);
            && (r == Err(Rejected) || r == asked)
            && (r != Err(Rejected) ==>
                  && s'.vlans == base.vlans[vlan := RowAsked(fw, row, vlan, port, mode)]
                  && s'.pvids == base.pvids && s'.switchport == base.switchport
                  && s'.collectors == s.collectors && s'.modes == s.modes
                  && (r.Ok? <==> PortMode(s', vlan, port) == mode)
                  && (ConfiguredMode(s', vlan, port) == mode <==>
                        !(mode == Excluded && port in row.configuredOnly && !fw.drops(vlan, port))))
  {
    var base := Prepared(fw, image, InInterface(s, port), port);
    var op := SetMembership(vlan, port, mode, force);
    AcceptedLeaves(fw, image, s, vlan, port, mode, force);
    RowAskedReads(fw, base.vlans[vlan], vlan, port, mode);
    OpRestoresMode(fw, image, protectedPorts, s, op);
  }

  /** What descent and body leave, once all of it is accepted. */
  lemma AcceptedLeaves(fw: Firmware, image: Image, s: Shell, vlan: int, port: int, mode: VlanMode, force: bool)
    requires vlan in s.vlans
    requires image.hasSwitchportModes || port !in s.switchport
    ensures var op := SetMembership(vlan, port, mode, force);
            var (ok, s2) := InMode(fw, Read(s), Enter(op), Body(image, Read(s), op));
            var base := Prepared(fw, image, InInterface(s, port), port);
            ok ==>
              s2 == base.(vlans := base.vlans[vlan := RowAsked(fw, base.vlans[vlan], vlan, port, mode)],
                          modes := s.modes)
  {
    var op, s1 := SetMembership(vlan, port, mode, force), Read(s);
    OpStaysInMode(image, s1, op);
    StackRestored(fw, s1, Enter(op), Body(image, s1, op));
    EntersInterface(fw, s, port);
    DescendPushes(fw, s1, Enter(op));
    if RunUntilRefused(fw, s1, Enter(op)).0 == |Enter(op)| {
      WithPrelude(fw, image, InInterface(s, port), vlan, port, mode);
    }
  }

  /** Whatever is accepted or refused, a membership write moves no other port in any VLAN. */
  lemma MembershipMovesOnePort(fw: Firmware, image: Image, protectedPorts: set<int>, s: Shell,
                               vlan: int, port: int, mode: VlanMode, force: bool)
    ensures OthersUnmoved(s, Perform(fw, image, protectedPorts, s, SetMembership(vlan, port, mode, force)).1, port)
  {
    var op := SetMembership(vlan, port, mode, force);
    var s1 := Read(s);
    OpEffect(fw, image, protectedPorts, s, op);
    DescendPushes(fw, s1, Enter(op));
    var (entered, at) := RunUntilRefused(fw, s1, Enter(op));
    if entered == |Enter(op)| {
      BodyMovesOnePort(fw, at, Body(image, s1, op), port);
    }
  }

  predicate ForPort(c: Command) {
    c.SwitchportGeneral? || c.Participation? || c.Tagging?
  }

  lemma {:induction false} BodyMovesOnePort(fw: Firmware, s: Shell, body: seq<Command>, port: int)
    requires forall i :: 0 <= i < |body| ==> ForPort(body[i])
    requires s.modes != [] && s.modes[|s.modes| - 1] == Interface(port)
    ensures OthersUnmoved(s, RunUntilRefused(fw, s, body).1, port)
    decreases |body|
  {
    if body != [] && Step(fw, s, body[0]).0 {
      var next := Step(fw, s, body[0]).1;
      OnPortMovesOne(fw, s, body[0], port);
      BodyMovesOnePort(fw, next, body[1..], port);
      OthersUnmovedTransitive(s, next, RunUntilRefused(fw, s, body).1, port);
    }
  }

  lemma OthersUnmovedTransitive(a: Shell, b: Shell, c: Shell, port: int)
    requires OthersUnmoved(a, b, port) && OthersUnmoved(b, c, port)
    ensures OthersUnmoved(a, c, port)
  {
  }

  lemma OnPortMovesOne(fw: Firmware, s: Shell, c: Command, port: int)
    requires ForPort(c)
    ensures OthersUnmoved(s, OnPort(fw, s, c, port), port) && OnPort(fw, s, c, port).modes == s.modes
  {
  }

  // ----- what general mode moves besides -----

  /** The port's part in every VLAN but the named one is what it was, if the write met no refusal. */
  ghost predicate OtherVlansStay(fw: Firmware, image: Image, protectedPorts: set<int>, s: Shell,
                                 vlan: int, port: int, mode: VlanMode, force: bool) {
    var (r, s') := Perform(fw, image, protectedPorts, s, SetMembership(vlan, port, mode, force));
    r != Err(Rejected) ==>
      forall w :: w != vlan ==>
        PortMode(s', w, port) == PortMode(s, w, port) && ConfiguredMode(s', w, port) == ConfiguredMode(s, w, port)
  }

  ghost predicate PvidStays(fw: Firmware, image: Image, protectedPorts: set<int>, s: Shell,
                            vlan: int, port: int, mode: VlanMode, force: bool) {
    var (r, s') := Perform(fw, image, protectedPorts, s, SetMembership(vlan, port, mode, force));
    r != Err(Rejected) ==> PvidKept(s, s', port)
  }

  /** On every firmware the port's other VLANs stay as they were if and only if the image has no switchport modes,
      the port was in general mode already, or there is no other VLAN; its PVID, if and only if one of the first two. */
  lemma OtherVlansStayIff(image: Image, protectedPorts: set<int>, s: Shell, vlan: int, port: int, mode: VlanMode,
                          force: bool)
    requires vlan in s.vlans && (port !in protectedPorts || force)
    requires image.hasSwitchportModes || port !in s.switchport
    ensures (forall fw :: OtherVlansStay(fw, image, protectedPorts, s, vlan, port, mode, force))
       <==> !image.hasSwitchportModes || InGeneralMode(s, port) || s.vlans.Keys == {vlan}
    ensures (forall fw :: PvidStays(fw, image, protectedPorts, s, vlan, port, mode, force))
       <==> !image.hasSwitchportModes || InGeneralMode(s, port)
  {
    forall fw
      ensures !image.hasSwitchportModes || InGeneralMode(s, port) || s.vlans.Keys == {vlan} ==>
                OtherVlansStay(fw, image, protectedPorts, s, vlan, port, mode, force)
      ensures !image.hasSwitchportModes || InGeneralMode(s, port) ==>
                PvidStays(fw, image, protectedPorts, s, vlan, port, mode, force)
    {
      MembershipReadsBack(fw, image, protectedPorts, s, vlan, port, mode, force);
    }
    if image.hasSwitchportModes && !InGeneralMode(s, port) {
      Contrarian(image, protectedPorts, s, vlan, port, mode, force);
    }
  }

  /** A firmware that accepts everything and whose general mode turns a port's memberships round. */
  function Contrary(s: Shell, port: int): Firmware {
    Firmware((st: Shell, c: Command) => true, (st: Shell) => 0, (v: int, p: int) => true, (v: int, p: int) => true,
             (st: Shell, v: int, p: int) => Part(if PortMode(s, v, port) == Excluded then Tagged else Excluded, true),
             (st: Shell, p: int) => Some(if port in s.pvids then s.pvids[port] + 1 else 1),
             (st: Shell, p: int) => true)
  }

  lemma Contrarian(image: Image, protectedPorts: set<int>, s: Shell, vlan: int, port: int, mode: VlanMode, force: bool)
    requires vlan in s.vlans && (port !in protectedPorts || force)
    requires image.hasSwitchportModes && !InGeneralMode(s, port)
    ensures s.vlans.Keys != {vlan} ==>
              !OtherVlansStay(Contrary(s, port), image, protectedPorts, s, vlan, port, mode, force)
    ensures !PvidStays(Contrary(s, port), image, protectedPorts, s, vlan, port, mode, force)
  {
    var fw := Contrary(s, port);
    var (r, s') := Perform(fw, image, protectedPorts, s, SetMembership(vlan, port, mode, force));
    MembershipReadsBack(fw, image, protectedPorts, s, vlan, port, mode, force);
    AcceptedThroughout(fw, image, protectedPorts, s, vlan, port, mode, force);
    TurnedRound(s, port);
    if s.vlans.Keys != {vlan} {
      assert s.vlans.Keys == {vlan} + (s.vlans.Keys - {vlan});
      var w := SomeOf(s.vlans.Keys - {vlan});
      assert PortMode(s', w, port) == PortMode(ToGeneral(fw, InInterface(s, port), port), w, port);
    }
  }

  /** Going general there changes the port's part in every VLAN, and its PVID. */
  lemma TurnedRound(s: Shell, port: int)
    requires !InGeneralMode(s, port)
    ensures var base := ToGeneral(Contrary(s, port), InInterface(s, port), port);
            && (forall w :: w in s.vlans ==> w in base.vlans && PortMode(base, w, port) != PortMode(s, w, port))
            && !PvidKept(s, base, port)
  {
    var fw, at := Contrary(s, port), InInterface(s, port);
    forall w | w in s.vlans ensures PortMode(ToGeneral(fw, at, port), w, port) != PortMode(s, w, port) {
      var part := Part(if PortMode(s, w, port) == Excluded then Tagged else Excluded, true);
      assert ToGeneral(fw, at, port).vlans[w] == Placed(s.vlans[w], port, part);
    }
  }

  /** A shell that accepts every command refuses no membership write. */
  lemma AcceptedThroughout(fw: Firmware, image: Image, protectedPorts: set<int>, s: Shell,
                           vlan: int, port: int, mode: VlanMode, force: bool)
    requires forall st, c :: fw.accepts(st, c)
    requires vlan in s.vlans && (port !in protectedPorts || force)
    ensures Perform(fw, image, protectedPorts, s, SetMembership(vlan, port, mode, force)).0 != Err(Rejected)
  {
    var s1 := Read(s);
    RunsThrough(fw, s1, InterfaceMode(port));
    RunsThrough(fw, RunUntilRefused(fw, s1, InterfaceMode(port)).1, MembershipBody(image, vlan, mode));
  }

  lemma {:induction false} RunsThrough(fw: Firmware, s: Shell, cs: seq<Command>)
    requires forall st, c :: fw.accepts(st, c)
    ensures RunUntilRefused(fw, s, cs).0 == |cs|
    decreases |cs|
  {
    if cs != [] {
      assert Step(fw, s, cs[0]).0;
      RunsThrough(fw, Step(fw, s, cs[0]).1, cs[1..]);
    }
  }

  // ----- the syslog collector table -----

  /** No two rows share a host, and no two share an index. */
  ghost predicate Distinct(rows: seq<Collector>) {
    forall i, j :: 0 <= i < j < |rows| ==> rows[i].host != rows[j].host && rows[i].index != rows[j].index
  }

  /** The switch never hands out an index already in use; otherwise it may choose freely. */
  ghost predicate AllocatesFresh(fw: Firmware) {
    forall s: Shell :: fw.freshIndex(s) !in Indices(s.collectors)
  }

  lemma {:induction false} RowForIs(rows: seq<Collector>, host: string)
    ensures match RowFor(rows, host)
            case None => forall r :: r in rows ==> r.host != host
            case Some(row) => row in rows && row.host == host
  {
    if rows != [] && rows[0].host != host {
      RowForIs(rows[1..], host);
    }
  }

  lemma DistinctTail(rows: seq<Collector>)
    requires Distinct(rows) && rows != []
    ensures Distinct(rows[1..])
    ensures forall k :: 0 < k < |rows| ==> rows[0].index != rows[k].index
  {
  }

  /** Removing an index drops at most one row and keeps the order and the indices of the others. */
  lemma {:induction false} WithoutIndexIs(rows: seq<Collector>, k: nat)
    requires Distinct(rows) && k < |rows|
    ensures WithoutIndex(rows, rows[k].index) == rows[..k] + rows[k + 1..]
  {
    if k > 0 {
      var tail := rows[1..];
      DistinctTail(rows);
      WithoutIndexIs(tail, k - 1);
      assert tail[k - 1] == rows[k];
      assert rows[..k] + rows[k + 1..] == [rows[0]] + (tail[..k - 1] + tail[k..]);
    }
  }

  lemma {:induction false} WithoutAbsent(rows: seq<Collector>, index: int)
    requires index !in Indices(rows)
    ensures WithoutIndex(rows, index) == rows
  {
    if rows != [] {
      assert rows[0] in rows && rows[0].index in Indices(rows);
      forall r | r in rows[1..] ensures r.index in Indices(rows) { assert r in rows; }
      WithoutAbsent(rows[1..], index);
    }
  }

  lemma WithoutKeepsDistinct(rows: seq<Collector>, index: int)
    requires Distinct(rows)
    ensures Distinct(WithoutIndex(rows, index))
  {
    if index in Indices(rows) {
      var r :| r in rows && r.index == index;
      var k :| 0 <= k < |rows| && rows[k] == r;
      WithoutIndexIs(rows, k);
    } else {
      WithoutAbsent(rows, index);
    }
  }

  lemma OneCommand(fw: Firmware, s: Shell, c: Command)
    ensures RunUntilRefused(fw, s, [c]) == if Step(fw, s, c).0 then (1, Step(fw, s, c).1) else (0, s)
  {
    assert [c][1..] == [];
  }

  lemma {:induction false} OtherBodiesKeepCollectors(fw: Firmware, s: Shell, body: seq<Command>)
    requires forall i :: 0 <= i < |body| ==> !body[i].LoggingAdd? && !body[i].LoggingRemove?
    ensures RunUntilRefused(fw, s, body).1.collectors == s.collectors
    decreases |body|
  {
    if body != [] && Step(fw, s, body[0]).0 {
      OtherBodiesKeepCollectors(fw, Step(fw, s, body[0]).1, body[1..]);
    }
  }

  /** The shell in which an operation's body begins. */
  function Entered(fw: Firmware, s: Shell, op: Op): Shell { RunUntilRefused(fw, s, Enter(op)).1 }

  /** One new row, with an index no other row has. */
  ghost predicate Appended(rows: seq<Collector>, after: seq<Collector>, host: string, udpPort: int, severity: int) {
    exists index :: index !in Indices(rows) && after == rows + [Collector(host, udpPort, severity, index)]
  }

  /** The only three things an operation can do to the table: nothing, append one row with an unused
      index for a host not listed, or drop the listed row of the named host. */
  lemma OpOnTable(fw: Firmware, image: Image, protectedPorts: set<int>, s: Shell, op: Op)
    requires AllocatesFresh(fw)
    ensures var rows, rows' := s.collectors, Perform(fw, image, protectedPorts, s, op).1.collectors;
            || rows' == rows
            || (op.AddCollector? && RowFor(rows, op.host).None?
                && Appended(rows, rows', op.host, op.udpPort, op.severity))
            || (op.RemoveCollector? && RowFor(rows, op.host).Some?
                && rows' == WithoutIndex(rows, RowFor(rows, op.host).value.index))
  {
    OpEffect(fw, image, protectedPorts, s, op);
    if Refusal(Read(s), protectedPorts, op).None? {
      EffectOnTable(fw, image, Read(s), op);
    }
  }

  /** The same of an operation's descent and body, once nothing has refused it. */
  lemma EffectOnTable(fw: Firmware, image: Image, s: Shell, op: Op)
    requires AllocatesFresh(fw)
    ensures var rows, rows' := s.collectors, Effect(fw, image, s, op).collectors;
            || rows' == rows
            || (op.AddCollector? && Appended(rows, rows', op.host, op.udpPort, op.severity))
            || (op.RemoveCollector? && RowFor(rows, op.host).Some?
                && rows' == WithoutIndex(rows, RowFor(rows, op.host).value.index))
  {
    DescendPushes(fw, s, Enter(op));
    BodyOnTable(fw, image, s, Entered(fw, s, op), op);
  }

  lemma BodyOnTable(fw: Firmware, image: Image, s: Shell, at: Shell, op: Op)
    requires AllocatesFresh(fw) && at.collectors == s.collectors
    ensures var rows, rows' := s.collectors, RunUntilRefused(fw, at, Body(image, s, op)).1.collectors;
            || rows' == rows
            || (op.AddCollector? && Appended(rows, rows', op.host, op.udpPort, op.severity))
            || (op.RemoveCollector? && RowFor(rows, op.host).Some?
                && rows' == WithoutIndex(rows, RowFor(rows, op.host).value.index))
  {
    if op.AddCollector? {
      AddOnTable(fw, at, op.host, op.udpPort, op.severity);
    } else if op.RemoveCollector? && RowFor(s.collectors, op.host).Some? {
      OneCommand(fw, at, LoggingRemove(RowFor(s.collectors, op.host).value.index));
    } else {
      OtherBodiesKeepCollectors(fw, at, Body(image, s, op));
    }
  }

  lemma AddOnTable(fw: Firmware, at: Shell, host: string, udpPort: int, severity: int)
    requires AllocatesFresh(fw)
    ensures var rows' := RunUntilRefused(fw, at, [LoggingAdd(host, udpPort, severity)]).1.collectors;
            rows' == at.collectors || Appended(at.collectors, rows', host, udpPort, severity)
  {
    OneCommand(fw, at, LoggingAdd(host, udpPort, severity));
    assert fw.freshIndex(at) !in Indices(at.collectors);
  }

  lemma OpKeepsDistinct(fw: Firmware, image: Image, protectedPorts: set<int>, s: Shell, op: Op)
    requires AllocatesFresh(fw) && Distinct(s.collectors)
    ensures Distinct(Perform(fw, image, protectedPorts, s, op).1.collectors)
  {
    var rows, rows' := s.collectors, Perform(fw, image, protectedPorts, s, op).1.collectors;
    OpOnTable(fw, image, protectedPorts, s, op);
    if op.RemoveCollector? && RowFor(rows, op.host).Some? {
      WithoutKeepsDistinct(rows, RowFor(rows, op.host).value.index);
    }
    if op.AddCollector? && rows' != rows {
      RowForIs(rows, op.host);
      var index :| index !in Indices(rows) && rows' == rows + [Collector(op.host, op.udpPort, op.severity, index)];
      forall i | 0 <= i < |rows| ensures rows[i].host != op.host && rows[i].index != index {
        assert rows[i] in rows && rows[i].index in Indices(rows);
      }
    }
  }

  /** A removal that returns normally has dropped exactly the named host's row, wherever it stood and
      however sparse the indices; every other row keeps its index and its place in line. */
  lemma RemoveDeletesExactlyOne(fw: Firmware, image: Image, protectedPorts: set<int>, s: Shell, host: string, k: nat)
    requires AllocatesFresh(fw) && Distinct(s.collectors)
    requires k < |s.collectors| && s.collectors[k].host == host
    ensures var (r, s') := Perform(fw, image, protectedPorts, s, RemoveCollector(host));
            (r.Ok? ==> s'.collectors == s.collectors[..k] + s.collectors[k + 1..])
            && (r.Err? ==> s'.collectors == s.collectors || s'.collectors == s.collectors[..k] + s.collectors[k + 1..])
  {
    var rows := s.collectors;
    OpOnTable(fw, image, protectedPorts, s, RemoveCollector(host));
    OpRestoresMode(fw, image, protectedPorts, s, RemoveCollector(host));
    RowForIs(rows, host);
    assert rows[k] in rows;
    var row := RowFor(rows, host).value;
    var j :| 0 <= j < |rows| && rows[j] == row;
    assert j == k;
    WithoutIndexIs(rows, k);
  }

  /** Adding a collector and then removing it, both with a normal return, restores the table. */
  lemma AddThenRemove(fw: Firmware, image: Image, protectedPorts: set<int>, s: Shell, host: string, udpPort: int,
                      severity: int)
    requires AllocatesFresh(fw) && Distinct(s.collectors)
    ensures var (added, s1) := Perform(fw, image, protectedPorts, s, AddCollector(host, udpPort, severity));
            var (removed, s2) := Perform(fw, image, protectedPorts, s1, RemoveCollector(host));
            added.Ok? && removed.Ok? ==> s2.collectors == s.collectors
  {
    var add := AddCollector(host, udpPort, severity);
    var (added, s1) := Perform(fw, image, protectedPorts, s, add);
    var (removed, s2) := Perform(fw, image, protectedPorts, s1, RemoveCollector(host));
    if added.Ok? && removed.Ok? {
      OpRestoresMode(fw, image, protectedPorts, s, add);
      OpOnTable(fw, image, protectedPorts, s, add);
      OpKeepsDistinct(fw, image, protectedPorts, s, add);
      assert RowFor(s.collectors, host).None? && RowFor(s1.collectors, host).Some?;
      var n := |s.collectors|;
      assert |s1.collectors| == n + 1 && s1.collectors[n].host == host;
      RemoveDeletesExactlyOne(fw, image, protectedPorts, s1, host, n);
      assert s1.collectors[..n] + s1.collectors[n + 1..] == s.collectors;
    }
  }

  lemma DropsDiffer(rows: seq<Collector>, j: nat, k: nat)
    requires Distinct(rows) && j < |rows| && k < |rows| && j != k
    ensures rows[..j] + rows[j + 1..] != rows[..k] + rows[k + 1..]
  {
    var i := if j < k then j else k;
    assert (rows[..j] + rows[j + 1..])[i] == rows[if i < j then i else i + 1];
    assert (rows[..k] + rows[k + 1..])[i] == rows[if i < k then i else i + 1];
  }

  /** Addressing the row by its position (1, 2, ...) removes the right row exactly when its index happens
      to equal that position. */
  lemma PositionalRemovalIff(rows: seq<Collector>, k: nat)
    requires Distinct(rows) && k < |rows|
    ensures WithoutIndex(rows, k + 1) == rows[..k] + rows[k + 1..] <==> rows[k].index == k + 1
  {
    if rows[k].index == k + 1 {
      WithoutIndexIs(rows, k);
    } else if k + 1 in Indices(rows) {
      var r :| r in rows && r.index == k + 1;
      var j :| 0 <= j < |rows| && rows[j] == r;
      WithoutIndexIs(rows, j);
      DropsDiffer(rows, j, k);
    } else {
      WithoutAbsent(rows, k + 1);
      assert |rows[..k] + rows[k + 1..]| == |rows| - 1;
    }
  }

  /** The table measured on a live switch, with indices 1 and 3: removal by position misses its row. */
  lemma PositionalRemovalMisses()
    ensures var rows := [Collector("10.1.5.1", 514, 6, 1), Collector("192.0.2.1", 514, 6, 3)];
            WithoutIndex(rows, 2) == rows
  {
    WithoutAbsent([Collector("10.1.5.1", 514, 6, 1), Collector("192.0.2.1", 514, 6, 3)], 2);
  }

  // ----- every other operation does what it was asked -----

  /** When an operation is refused before any configuration command, and with what; nothing but the record of
      readings has changed then. */
  lemma OpRefusals(fw: Firmware, image: Image, protectedPorts: set<int>, s: Shell, op: Op)
    ensures var (r, s') := Perform(fw, image, protectedPorts, s, op);
            && (r == Err(ProtectedPort) <==>
                  match op
                  case SetMembership(_, p, _, force) => p in protectedPorts && !force
                  case SetPvid(p, _, force) => p in protectedPorts && !force
                  case ResetPoe(p, force) => p in protectedPorts && !force
                  case SetPortEnabled(p, on, force) => p in protectedPorts && !force && !on
                  case SetPoe(p, on, force) => image.hasPoe && p in protectedPorts && !force && !on
                  case DeleteVlan(v, force) => v in s.vlans && !force && s.vlans[v].members * protectedPorts != {}
                  case _ => false)
            && (r == Err(Unsupported) <==>
                  match op
                  case SetPoe(_, _, _) => !image.hasPoe
                  case ResetPoe(p, force) => !image.hasPoe && (p !in protectedPorts || force)
                  case _ => false)
            && (r == Err(Precondition) <==>
                  match op
                  case SetMembership(v, p, _, force) => (p !in protectedPorts || force) && v !in s.vlans
                  case SetPvid(p, v, force) => (p !in protectedPorts || force) && v !in s.vlans
                  case DeleteVlan(v, _) => v !in s.vlans
                  case AddCollector(host, _, _) => exists row :: row in s.collectors && row.host == host
                  case RemoveCollector(host) => forall row :: row in s.collectors ==> row.host != host
                  case _ => false)
            && (r.Err? && r.error in {ProtectedPort, Unsupported, Precondition} ==>
                  SameConfig(s', s) && s'.modes == s.modes)
  {
    match op
    case AddCollector(host, _, _) => RowForIs(s.collectors, host);
    case RemoveCollector(host) => RowForIs(s.collectors, host);
    case _ =>
  }

  /** Nothing of a shell but the named parts differs: all parts are compared but VLANs, names, PVIDs, switchport
      modes, admin state, PoE and collectors where excused. */
  ghost predicate SameBut(a: Shell, b: Shell, vlans: bool, pvids: bool, disabled: bool, unpowered: bool, rows: bool) {
    && a.modes == b.modes
    && (vlans || (a.vlans == b.vlans && a.names == b.names))
    && (pvids || (a.pvids == b.pvids && a.switchport == b.switchport))
    && (disabled || a.disabled == b.disabled)
    && (unpowered || a.unpowered == b.unpowered)
    && (rows || a.collectors == b.collectors)
  }

  /** What descent and body leave of an interface operation, all of it accepted. */
  lemma InterfaceLeaves(fw: Firmware, image: Image, s: Shell, op: Op, port: int)
    requires Enter(op) == InterfaceMode(port)
    ensures var body := Body(image, Read(s), op);
            var (ok, s2) := InMode(fw, Read(s), Enter(op), body);
            var (n, at) := RunUntilRefused(fw, InInterface(s, port), body);
            ok ==> n == |body| && s2 == at.(modes := s.modes)
  {
    var s1 := Read(s);
    OpStaysInMode(image, s1, op);
    StackRestored(fw, s1, Enter(op), Body(image, s1, op));
    EntersInterface(fw, s, port);
    DescendPushes(fw, s1, Enter(op));
  }

  /** From any prior switchport mode, a PVID write that meets no refusal returns normally, with the PVID as asked
      and everything else as general mode left it. */
  lemma PvidReadsBack(fw: Firmware, image: Image, protectedPorts: set<int>, s: Shell, port: int, vlan: int, force: bool)
    requires vlan in s.vlans && (port !in protectedPorts || force)
    requires image.hasSwitchportModes || port !in s.switchport
    ensures var (r, s') := Perform(fw, image, protectedPorts, s, SetPvid(port, vlan, force));
            var base := Prepared(fw, image, InInterface(s, port), port);
            && (r == Err(Rejected) || r == Ok(()))
            && (r.Ok? ==>
                  && s'.pvids == base.pvids[port := vlan] && s'.vlans == base.vlans && s'.switchport == base.switchport
                  && SameBut(s', s, true, true, false, false, false) && s'.names == s.names)
  {
    InterfaceLeaves(fw, image, s, SetPvid(port, vlan, force), port);
    PvidCommands(fw, image, InInterface(s, port), port, vlan);
  }

  lemma PvidCommands(fw: Firmware, image: Image, s: Shell, port: int, vlan: int)
    requires image.hasSwitchportModes || port !in s.switchport
    requires s.modes != [] && s.modes[|s.modes| - 1] == Interface(port)
    ensures var body := GeneralPrelude(image) + [Pvid(vlan)];
            var (n, s') := RunUntilRefused(fw, s, body);
            var base := Prepared(fw, image, s, port);
            n == |body| ==> s' == base.(pvids := base.pvids[port := vlan])
  {
    if image.hasSwitchportModes {
      RunStep(fw, s, SwitchportGeneral, [Pvid(vlan)]);
      OneCommand(fw, ToGeneral(fw, s, port), Pvid(vlan));
    } else {
      assert GeneralPrelude(image) + [Pvid(vlan)] == [Pvid(vlan)];
      OneCommand(fw, s, Pvid(vlan));
    }
  }

  lemma PortEnabledReadsBack(fw: Firmware, image: Image, protectedPorts: set<int>, s: Shell, port: int, on: bool,
                             force: bool)
    requires port !in protectedPorts || force || on
    ensures var (r, s') := Perform(fw, image, protectedPorts, s, SetPortEnabled(port, on, force));
            && (r == Err(Rejected) || r == Ok(()))
            && (r.Ok? ==>
                  && SameBut(s', s, false, false, true, false, false)
                  && s'.disabled == if on then s.disabled - {port} else s.disabled + {port})
  {
    InterfaceLeaves(fw, image, s, SetPortEnabled(port, on, force), port);
    OneCommand(fw, InInterface(s, port), PortAdmin(on));
  }

  lemma PoeReadsBack(fw: Firmware, image: Image, protectedPorts: set<int>, s: Shell, port: int, on: bool, force: bool)
    requires image.hasPoe && (port !in protectedPorts || force || on)
    ensures var (r, s') := Perform(fw, image, protectedPorts, s, SetPoe(port, on, force));
            && (r == Err(Rejected) || r == Ok(()))
            && (r.Ok? ==>
                  && SameBut(s', s, false, false, false, true, false)
                  && s'.unpowered == if on then s.unpowered - {port} else s.unpowered + {port})
  {
    InterfaceLeaves(fw, image, s, SetPoe(port, on, force), port);
    OneCommand(fw, InInterface(s, port), PoeAdmin(on));
  }

  /** A reset that is accepted changes no configuration, and returns normally exactly if the port recovers. */
  lemma PoeResetReadsBack(fw: Firmware, image: Image, protectedPorts: set<int>, s: Shell, port: int, force: bool)
    requires image.hasPoe && (port !in protectedPorts || force)
    ensures var (r, s') := Perform(fw, image, protectedPorts, s, ResetPoe(port, force));
            && (r == Err(Rejected) || r == if fw.recovers(s', port) then Ok(()) else Err(VerificationFailed))
            && (r != Err(Rejected) ==> SameBut(s', s, false, false, false, false, false))
  {
    InterfaceLeaves(fw, image, s, ResetPoe(port, force), port);
    OneCommand(fw, InInterface(s, port), PoeReset);
  }

  /** What descent and body leave of an operation one mode deep, all of it accepted. */
  lemma OneModeLeaves(fw: Firmware, image: Image, s: Shell, op: Op, mode: Mode)
    requires Enter(op) == [EnterMode(mode)]
    ensures var body := Body(image, Read(s), op);
            var (ok, s2) := InMode(fw, Read(s), Enter(op), body);
            var (n, at) := RunUntilRefused(fw, Read(s).(modes := s.modes + [mode]), body);
            ok ==> n == |body| && s2 == at.(modes := s.modes)
  {
    var s1 := Read(s);
    OpStaysInMode(image, s1, op);
    StackRestored(fw, s1, Enter(op), Body(image, s1, op));
    OneCommand(fw, s1, EnterMode(mode));
  }

  /** A creation that meets no refusal returns normally, with the VLAN there, empty if it is new, under its name. */
  lemma VlanCreated(fw: Firmware, image: Image, protectedPorts: set<int>, s: Shell, vlan: int, name: string)
    ensures var (r, s') := Perform(fw, image, protectedPorts, s, CreateVlan(vlan, name));
            && (r == Err(Rejected) || r == Ok(()))
            && (r.Ok? ==>
                  && SameBut(s', s, true, false, false, false, false)
                  && s'.vlans == (if vlan in s.vlans then s.vlans else s.vlans[vlan := Vlan({}, {}, {})])
                  && s'.names == s.names[vlan := name])
  {
    var op, at := CreateVlan(vlan, name), Read(s).(modes := s.modes + [VlanDatabase]);
    OneModeLeaves(fw, image, s, op, VlanDatabase);
    assert Body(image, Read(s), op) == [VlanCreate(vlan)] + [VlanName(vlan, name)];
    RunStep(fw, at, VlanCreate(vlan), [VlanName(vlan, name)]);
    OneCommand(fw, WithVlan(at, vlan), VlanName(vlan, name));
    NewVlanNamed(at, vlan, name);
  }

  lemma NewVlanNamed(s: Shell, vlan: int, name: string)
    ensures WithVlan(s, vlan).names[vlan := name] == s.names[vlan := name]
  {
  }

  /** A deletion that is let past the guard and meets no refusal returns normally, with the VLAN gone and the ports
      that had it as PVID back on VLAN 1. */
  lemma VlanDeleted(fw: Firmware, image: Image, protectedPorts: set<int>, s: Shell, vlan: int, force: bool)
    requires vlan in s.vlans && (force || s.vlans[vlan].members * protectedPorts == {})
    ensures var (r, s') := Perform(fw, image, protectedPorts, s, DeleteVlan(vlan, force));
            && (r == Err(Rejected) || r == Ok(()))
            && (r.Ok? ==>
                  && SameBut(s', s, true, true, false, false, false)
                  && s'.vlans == s.vlans - {vlan} && s'.names == s.names - {vlan} && s'.switchport == s.switchport
                  && s'.pvids.Keys == s.pvids.Keys
                  && forall p :: p in s.pvids ==> s'.pvids[p] == if s.pvids[p] == vlan then 1 else s.pvids[p])
  {
    var op, at := DeleteVlan(vlan, force), Read(s).(modes := s.modes + [VlanDatabase]);
    OneModeLeaves(fw, image, s, op, VlanDatabase);
    OneCommand(fw, at, VlanDelete(vlan));
  }

  /** An addition of a host not listed that meets no refusal returns normally, with one row more. */
  lemma CollectorAdded(fw: Firmware, image: Image, protectedPorts: set<int>, s: Shell,
                       host: string, udpPort: int, severity: int)
    requires AllocatesFresh(fw) && forall row :: row in s.collectors ==> row.host != host
    ensures var (r, s') := Perform(fw, image, protectedPorts, s, AddCollector(host, udpPort, severity));
            && (r == Err(Rejected) || r == Ok(()))
            && (r.Ok? ==>
                  && SameBut(s', s, false, false, false, false, true)
                  && Appended(s.collectors, s'.collectors, host, udpPort, severity))
  {
    var op, at := AddCollector(host, udpPort, severity), Read(s).(modes := s.modes + [Config]);
    RowForIs(s.collectors, host);
    OneModeLeaves(fw, image, s, op, Config);
    OneCommand(fw, at, LoggingAdd(host, udpPort, severity));
    assert fw.freshIndex(at) !in Indices(at.collectors);
    RowForAppended(s.collectors, Collector(host, udpPort, severity, fw.freshIndex(at)));
  }

  lemma {:induction false} RowForAppended(rows: seq<Collector>, row: Collector)
    requires RowFor(rows, row.host).None?
    ensures RowFor(rows + [row], row.host) == Some(row)
  {
    if rows != [] {
      assert (rows + [row])[1..] == rows[1..] + [row];
      RowForAppended(rows[1..], row);
    }
  }

  /** A removal of a listed host that meets no refusal returns normally, with that host's row gone. */
  lemma CollectorRemoved(fw: Firmware, image: Image, protectedPorts: set<int>, s: Shell, host: string, k: nat)
    requires Distinct(s.collectors) && k < |s.collectors| && s.collectors[k].host == host
    ensures var (r, s') := Perform(fw, image, protectedPorts, s, RemoveCollector(host));
            && (r == Err(Rejected) || r == Ok(()))
            && (r.Ok? ==>
                  && SameBut(s', s, false, false, false, false, true)
                  && s'.collectors == s.collectors[..k] + s.collectors[k + 1..])
  {
    HostAt(s.collectors, host, k);
    OneModeLeaves(fw, image, s, RemoveCollector(host), Config);
    OneCommand(fw, Read(s).(modes := s.modes + [Config]), LoggingRemove(s.collectors[k].index));
    WithoutIndexIs(s.collectors, k);
    HostGone(s.collectors, k);
  }

  lemma HostAt(rows: seq<Collector>, host: string, k: nat)
    requires Distinct(rows) && k < |rows| && rows[k].host == host
    ensures RowFor(rows, host) == Some(rows[k])
  {
    RowForIs(rows, host);
    assert rows[k] in rows;
    var j :| 0 <= j < |rows| && rows[j] == RowFor(rows, host).value;
    assert j == k;
  }

  lemma HostGone(rows: seq<Collector>, k: nat)
    requires Distinct(rows) && k < |rows|
    ensures RowFor(rows[..k] + rows[k + 1..], rows[k].host).None?
  {
    var left := rows[..k] + rows[k + 1..];
    forall i | 0 <= i < |left| ensures left[i].host != rows[k].host {
      assert left[i] == rows[if i < k then i else i + 1];
    }
    RowForIs(left, rows[k].host);
  }

  /** And a shell that accepts every command refuses no operation. */
  lemma NothingRejected(fw: Firmware, image: Image, protectedPorts: set<int>, s: Shell, op: Op)
    requires forall st, c :: fw.accepts(st, c)
    ensures Perform(fw, image, protectedPorts, s, op).0 != Err(Rejected)
  {
    var s1 := Read(s);
    RunsThrough(fw, s1, Enter(op));
    RunsThrough(fw, RunUntilRefused(fw, s1, Enter(op)).1, Body(image, s1, op));
  }

  // ----- protected ports -----

  predicate Forced(op: Op) {
    match op
    case DeleteVlan(_, force) => force
    case SetMembership(_, _, _, force) => force
    case SetPvid(_, _, force) => force
    case SetPortEnabled(_, _, force) => force
    case SetPoe(_, _, force) => force
    case ResetPoe(_, force) => force
    case _ => false
  }

  /** A VLAN whose guard sees no protected port, though one is configured into it. */
  predicate Exposed(s: Shell, protectedPorts: set<int>, vlan: int) {
    && vlan in s.vlans && s.vlans[vlan].members * protectedPorts == {}
    && s.vlans[vlan].configuredOnly * protectedPorts != {}
  }

  predicate PerPort(c: Command) {
    match c
    case SwitchportGeneral => true
    case Participation(_, _) => true
    case Tagging(_, _) => true
    case Pvid(_) => true
    case PortAdmin(_) => true
    case PoeAdmin(_) => true
    case PoeReset => true
    case LoggingAdd(_, _, _) => true
    case LoggingRemove(_) => true
    case _ => false
  }

  /** Commands given for one interface leave every other port alone. */
  lemma {:induction false} OtherInterfaceSpared(fw: Firmware, s: Shell, body: seq<Command>, port: int)
    requires forall i :: 0 <= i < |body| ==> PerPort(body[i])
    requires s.modes != [] && s.modes[|s.modes| - 1] != Interface(port)
    ensures Spared(s, RunUntilRefused(fw, s, body).1, port) && PvidKept(s, RunUntilRefused(fw, s, body).1, port)
    decreases |body|
  {
    if body != [] && Step(fw, s, body[0]).0 {
      var next := Step(fw, s, body[0]).1;
      OneInterfaceCommand(fw, s, body[0], port);
      OtherInterfaceSpared(fw, next, body[1..], port);
      SparedTransitive(s, next, RunUntilRefused(fw, s, body).1, port);
    }
  }

  lemma OneInterfaceCommand(fw: Firmware, s: Shell, c: Command, port: int)
    requires PerPort(c) && s.modes != [] && s.modes[|s.modes| - 1] != Interface(port)
    ensures Step(fw, s, c).1.modes == s.modes
    ensures Spared(s, Step(fw, s, c).1, port) && PvidKept(s, Step(fw, s, c).1, port)
  {
    if s.modes[|s.modes| - 1].Interface? {
      OnPortSpares(fw, s, c, s.modes[|s.modes| - 1].port, port);
    }
  }

  lemma OnPortSpares(fw: Firmware, s: Shell, c: Command, p: int, port: int)
    requires PerPort(c) && p != port
    ensures OnPort(fw, s, c, p).modes == s.modes
    ensures Spared(s, OnPort(fw, s, c, p), port) && PvidKept(s, OnPort(fw, s, c, p), port)
  {
    match c
    case Participation(v, included) =>
      if v in s.vlans { OtherPortKept(s, v, Participating(fw, s.vlans[v], v, p, included), port); }
    case Tagging(v, tagged) =>
      if v in s.vlans { OtherPortKept(s, v, s.vlans[v].(untagged := With(s.vlans[v].untagged, p, !tagged)), port); }
    case _ =>
  }

  /** A row in which a port stands as before spares it. */
  lemma OtherPortKept(s: Shell, vlan: int, row: Vlan, port: int)
    requires vlan in s.vlans
    requires (port in row.members <==> port in s.vlans[vlan].members)
             && (port in row.untagged <==> port in s.vlans[vlan].untagged)
    requires port in row.configuredOnly <==> port in s.vlans[vlan].configuredOnly
    ensures Spared(s, s.(vlans := s.vlans[vlan := row]), port)
  {
  }

  /** Switching a port or its PoE on, or resetting PoE, takes nothing from any port. */
  lemma {:induction false} EnablingSpares(fw: Firmware, s: Shell, c: Command, port: int)
    requires c == PortAdmin(true) || c == PoeAdmin(true) || c == PoeReset
    ensures Spared(s, RunUntilRefused(fw, s, [c]).1, port) && PvidKept(s, RunUntilRefused(fw, s, [c]).1, port)
  {
    OneCommand(fw, s, c);
  }

  lemma {:induction false} CreatingSpares(fw: Firmware, s: Shell, vlan: int, name: string, port: int)
    ensures Spared(s, RunUntilRefused(fw, s, [VlanCreate(vlan), VlanName(vlan, name)]).1, port)
    ensures PvidKept(s, RunUntilRefused(fw, s, [VlanCreate(vlan), VlanName(vlan, name)]).1, port)
  {
    var a, b := VlanCreate(vlan), VlanName(vlan, name);
    assert [a, b] == [a] + [b];
    RunStep(fw, s, a, [b]);
    NewVlanSpares(s, vlan, name, port);
    if Step(fw, s, a).0 {
      OneCommand(fw, WithVlan(s, vlan), b);
      assert SameButName(WithVlan(s, vlan), RunUntilRefused(fw, s, [a, b]).1);
    }
  }

  ghost predicate SameButName(a: Shell, b: Shell) {
    a.vlans == b.vlans && a.pvids == b.pvids && a.disabled == b.disabled && a.unpowered == b.unpowered
  }

  /** Deleting a VLAN spares exactly the ports not configured into it. */
  lemma DeletingSparesIff(fw: Firmware, s: Shell, vlan: int, port: int)
    ensures Spared(s, RunUntilRefused(fw, s, [VlanDelete(vlan)]).1, port) <==>
              !(Step(fw, s, VlanDelete(vlan)).0 && vlan in s.vlans && port in s.vlans[vlan].Configured())
    ensures !(port in s.pvids && s.pvids[port] == vlan) ==>
              PvidKept(s, RunUntilRefused(fw, s, [VlanDelete(vlan)]).1, port)
  {
    OneCommand(fw, s, VlanDelete(vlan));
    if vlan in s.vlans && port in s.vlans[vlan].Configured() {
      assert ConfiguredMode(WithoutVlan(s, vlan), vlan, port) == Excluded != ConfiguredMode(s, vlan, port);
    }
  }

  /** The operation deletes the VLAN that is the port's PVID. */
  predicate DeletesPvid(s: Shell, op: Op, port: int) {
    op.DeleteVlan? && port in s.pvids && s.pvids[port] == op.vlan
  }

  /** An unforced operation, whatever the shell answers, spares every protected port, unless it deletes a VLAN
      that a protected port is configured into while no protected port participates in it; and it keeps the
      port's PVID, unless it deletes that VLAN. */
  lemma OpSparesProtected(fw: Firmware, image: Image, protectedPorts: set<int>, s: Shell, op: Op, port: int)
    requires port in protectedPorts && !Forced(op)
    requires op.DeleteVlan? ==> !Exposed(s, protectedPorts, op.vlan)
    ensures Spared(s, Perform(fw, image, protectedPorts, s, op).1, port)
    ensures !DeletesPvid(s, op, port) ==> PvidKept(s, Perform(fw, image, protectedPorts, s, op).1, port)
  {
    OpEffect(fw, image, protectedPorts, s, op);
    if RefusedUnread(image, protectedPorts, op).None? && Refusal(Read(s), protectedPorts, op).None? {
      EffectSpares(fw, image, protectedPorts, Read(s), op, port);
    }
    SameConfigSpares(s, Read(s), port);
    SameConfigSpares(Effect(fw, image, Read(s), op), Perform(fw, image, protectedPorts, s, op).1, port);
    SameConfigSpares(s, Perform(fw, image, protectedPorts, s, op).1, port);
  }

  /** Creating a VLAN takes nothing from any port, protected or not. */
  lemma UnguardedSpares(fw: Firmware, image: Image, s: Shell, vlan: int, name: string, port: int)
    ensures Spared(s, Perform(fw, image, {}, s, CreateVlan(vlan, name)).1, port)
  {
    var op := CreateVlan(vlan, name);
    assert Perform(fw, image, {}, s, op) == Perform(fw, image, {port}, s, op);
    OpSparesProtected(fw, image, {port}, s, op, port);
  }

  lemma SameConfigSpares(a: Shell, b: Shell, port: int)
    ensures SameConfig(a, b) || SameConfig(b, a) ==> Spared(a, b, port) && PvidKept(a, b, port)
  {
  }

  lemma EffectSpares(fw: Firmware, image: Image, protectedPorts: set<int>, s: Shell, op: Op, port: int)
    requires port in protectedPorts && !Forced(op)
    requires RefusedUnread(image, protectedPorts, op).None? && Refusal(s, protectedPorts, op).None?
    requires op.DeleteVlan? ==> !Exposed(s, protectedPorts, op.vlan)
    ensures Spared(s, Effect(fw, image, s, op), port)
    ensures !DeletesPvid(s, op, port) ==> PvidKept(s, Effect(fw, image, s, op), port)
  {
    DescendPushes(fw, s, Enter(op));
    var (entered, at) := RunUntilRefused(fw, s, Enter(op));
    SameConfigSpares(s, at, port);
    if entered == |Enter(op)| {
      BodySpares(fw, image, protectedPorts, s, at, op, port);
      SparedTransitive(s, at, RunUntilRefused(fw, at, Body(image, s, op)).1, port);
    }
  }

  /** The body of an admitted, unforced operation, begun in the mode it needs. */
  lemma BodySpares(fw: Firmware, image: Image, protectedPorts: set<int>, s: Shell, at: Shell, op: Op, port: int)
    requires port in protectedPorts && !Forced(op)
    requires RefusedUnread(image, protectedPorts, op).None? && Refusal(s, protectedPorts, op).None?
    requires op.DeleteVlan? ==> !Exposed(s, protectedPorts, op.vlan)
    requires SameConfig(at, s) && at.modes != [] && at.modes[|at.modes| - 1] == Enter(op)[|Enter(op)| - 1].mode
    ensures Spared(at, RunUntilRefused(fw, at, Body(image, s, op)).1, port)
    ensures !DeletesPvid(s, op, port) ==> PvidKept(at, RunUntilRefused(fw, at, Body(image, s, op)).1, port)
  {
    match op
    case CreateVlan(v, name) => CreatingSpares(fw, at, v, name, port);
    case DeleteVlan(v, _) =>
      assert port !in s.vlans[v].members * protectedPorts && port !in s.vlans[v].configuredOnly * protectedPorts;
      DeletingSparesIff(fw, at, v, port);
    case SetPortEnabled(p, true, _) => EnablingSpares(fw, at, PortAdmin(true), port);
    case SetPoe(p, true, _) => EnablingSpares(fw, at, PoeAdmin(true), port);
    case _ => OtherInterfaceSpared(fw, at, Body(image, s, op), port);
  }

  /** The shell answers `vlan database` and `no vlan` with empty output. */
  predicate TakesDeletion(fw: Firmware, s: Shell, vlan: int) {
    && fw.accepts(Read(s), EnterMode(VlanDatabase))
    && fw.accepts(Read(s).(modes := s.modes + [VlanDatabase]), VlanDelete(vlan))
  }

  /** Where the switch carries a deletion out, an unforced one spares the protected ports if and only if one of
      them participates in the VLAN right now, so that the guard sees it, or none is configured into it. */
  lemma DeletionSparesIff(fw: Firmware, image: Image, protectedPorts: set<int>, s: Shell, vlan: int)
    requires TakesDeletion(fw, s, vlan)
    ensures (forall port :: port in protectedPorts ==>
               Spared(s, Perform(fw, image, protectedPorts, s, DeleteVlan(vlan, false)).1, port))
       <==> !Exposed(s, protectedPorts, vlan)
  {
    var op := DeleteVlan(vlan, false);
    var s' := Perform(fw, image, protectedPorts, s, op).1;
    if Exposed(s, protectedPorts, vlan) {
      var port := SomeOf(s.vlans[vlan].configuredOnly * protectedPorts);
      ExposedIsDeleted(fw, image, protectedPorts, s, vlan);
      assert vlan !in s'.vlans && ConfiguredMode(s, vlan, port) != Excluded == ConfiguredMode(s', vlan, port);
    } else {
      forall port | port in protectedPorts ensures Spared(s, s', port) {
        OpSparesProtected(fw, image, protectedPorts, s, op, port);
      }
    }
  }

  /** The guard lets the deletion of an exposed VLAN through. */
  lemma ExposedIsDeleted(fw: Firmware, image: Image, protectedPorts: set<int>, s: Shell, vlan: int)
    requires TakesDeletion(fw, s, vlan) && Exposed(s, protectedPorts, vlan)
    ensures var (r, s') := Perform(fw, image, protectedPorts, s, DeleteVlan(vlan, false));
            r.Ok? && s'.vlans == s.vlans - {vlan}
  {
    var op := DeleteVlan(vlan, false);
    var at := Read(s).(modes := s.modes + [VlanDatabase]);
    OneCommand(fw, Read(s), EnterMode(VlanDatabase));
    OneCommand(fw, at, VlanDelete(vlan));
    OpStaysInMode(image, Read(s), op);
    StackRestored(fw, Read(s), Enter(op), Body(image, Read(s), op));
  }

  /** VLAN 90 as a GSM7252PS showed it (tests/fixtures/cli/gsm7252ps_show_vlan_90.txt). */
  function MeasuredVlan90(): Vlan {
    var untagged := {1, 2, 3, 4, 5, 7, 9, 13, 14, 16, 17, 18, 20, 22, 23, 24, 25, 26, 27, 30, 31, 32, 33, 37, 38, 41,
                     42, 43, 44};
    Vlan(untagged + {11, 12, 46, 47, 49}, untagged + {50, 51}, {50, 51})
  }

  /** Lines of that table: 1/0/1 in it untagged, 1/0/11 tagged. */
  lemma MeasuredLines()
    ensures 1 in MeasuredVlan90().members && 1 in MeasuredVlan90().untagged
    ensures 11 in MeasuredVlan90().members && 11 !in MeasuredVlan90().untagged
  {
  }

  /** Ports 50 and 51 are configured into it and out of it at the moment. With port 50 protected, the guard of
      an unforced deletion sees nothing, the deletion returns normally, and the configuration is gone. */
  lemma MeasuredVlanIsExposed(fw: Firmware, image: Image, s: Shell)
    requires TakesDeletion(fw, s, 90) && 90 in s.vlans && s.vlans[90] == MeasuredVlan90()
    ensures var (r, s') := Perform(fw, image, {50}, s, DeleteVlan(90, false));
            r.Ok? && ConfiguredMode(s, 90, 50) == Untagged && ConfiguredMode(s', 90, 50) == Excluded
  {
    Port50IsLatent();
    assert 50 in MeasuredVlan90().configuredOnly * {50};
    ExposedIsDeleted(fw, image, {50}, s, 90);
  }

  /** Letting port 50 into that VLAN, where it still does not participate, configures it as asked and is
      reported as failed. */
  lemma MeasuredPortReadsBackExcluded(fw: Firmware, protectedPorts: set<int>, s: Shell)
    requires (forall st, c :: fw.accepts(st, c)) && !fw.joins(90, 50)
    requires 90 in s.vlans && s.vlans[90] == MeasuredVlan90() && 50 !in s.switchport
    ensures var op := SetMembership(90, 50, Untagged, true);
            var (r, s') := Perform(fw, Image(false, true), protectedPorts, s, op);
            && r == Err(VerificationFailed)
            && ConfiguredMode(s', 90, 50) == Untagged && PortMode(s', 90, 50) == Excluded
  {
    Port50IsLatent();
    AcceptedThroughout(fw, Image(false, true), protectedPorts, s, 90, 50, Untagged, true);
    MembershipReadsBack(fw, Image(false, true), protectedPorts, s, 90, 50, Untagged, true);
    var row := s.vlans[90];
    RowAskedReads(fw, row, 90, 50, Untagged);
  }

  lemma Port50IsLatent()
    ensures 50 in MeasuredVlan90().configuredOnly && 50 in MeasuredVlan90().untagged && 50 !in MeasuredVlan90().members
    ensures MeasuredVlan90().members * {50} == {}
  {
  }

  // ----- whole runs -----

  function RunOps(fw: Firmware, image: Image, protectedPorts: set<int>, s: Shell, ops: seq<Op>): Shell
    decreases |ops|
  {
    if ops == [] then s
    else RunOps(fw, image, protectedPorts, Perform(fw, image, protectedPorts, s, ops[0]).1, ops[1..])
  }

  ghost predicate NoneExposed(s: Shell, protectedPorts: set<int>) {
    forall v :: !Exposed(s, protectedPorts, v)
  }

  /** While every protected port is spared, no VLAN becomes exposed. */
  lemma SparingKeepsNoneExposed(before: Shell, after: Shell, protectedPorts: set<int>)
    requires forall port :: port in protectedPorts ==> Spared(before, after, port)
    requires NoneExposed(before, protectedPorts)
    ensures NoneExposed(after, protectedPorts)
  {
    forall v ensures !Exposed(after, protectedPorts, v) {
      if v in after.vlans && after.vlans[v].configuredOnly * protectedPorts != {} {
        StillSeen(before, after, protectedPorts, v);
      }
    }
  }

  /** A VLAN a protected port is configured into still shows a protected port participating. */
  lemma StillSeen(before: Shell, after: Shell, protectedPorts: set<int>, vlan: int)
    requires forall port :: port in protectedPorts ==> Spared(before, after, port)
    requires !Exposed(before, protectedPorts, vlan)
    requires vlan in after.vlans && after.vlans[vlan].configuredOnly * protectedPorts != {}
    ensures after.vlans[vlan].members * protectedPorts != {}
  {
    var port := SomeOf(after.vlans[vlan].configuredOnly * protectedPorts);
    assert Spared(before, after, port)
           && ConfiguredMode(before, vlan, port) == ConfiguredMode(after, vlan, port) != Excluded;
    var seen := port;
    if port !in before.vlans[vlan].members {
      assert port in before.vlans[vlan].configuredOnly * protectedPorts;
      seen := SomeOf(before.vlans[vlan].members * protectedPorts);
    }
    assert Spared(before, after, seen) && seen in after.vlans[vlan].members * protectedPorts;
  }

  /** Over any run, against any firmware: the shell ends in the mode it began in and every read was made
      there; hosts and indices stay distinct; and if no call is forced, and no VLAN is exposed to begin with,
      every protected port is spared, and keeps its PVID unless that VLAN is among the deleted. */
  lemma {:induction false} RunKeeps(fw: Firmware, image: Image, protectedPorts: set<int>, s: Shell, ops: seq<Op>)
    ensures var s' := RunOps(fw, image, protectedPorts, s, ops);
            && s'.modes == s.modes && s.readAt <= s'.readAt
            && (forall i :: |s.readAt| <= i < |s'.readAt| ==> s'.readAt[i] == s.modes)
            && (AllocatesFresh(fw) && Distinct(s.collectors) ==> Distinct(s'.collectors))
            && ((forall op :: op in ops ==> !Forced(op)) && NoneExposed(s, protectedPorts) ==>
                  forall port :: port in protectedPorts ==>
                    Spared(s, s', port) && (KeepsPvid(s, ops, port) ==> PvidKept(s, s', port)))
    decreases |ops|
  {
    if ops != [] {
      var s1 := Perform(fw, image, protectedPorts, s, ops[0]).1;
      OpRestoresMode(fw, image, protectedPorts, s, ops[0]);
      RunKeeps(fw, image, protectedPorts, s1, ops[1..]);
      if AllocatesFresh(fw) && Distinct(s.collectors) {
        OpKeepsDistinct(fw, image, protectedPorts, s, ops[0]);
      }
      if (forall op :: op in ops ==> !Forced(op)) && NoneExposed(s, protectedPorts) {
        RunSparesFrom(fw, image, protectedPorts, s, ops);
      }
    }
  }

  lemma {:induction false} RunSparesFrom(fw: Firmware, image: Image, protectedPorts: set<int>, s: Shell, ops: seq<Op>)
    requires (forall op :: op in ops ==> !Forced(op)) && NoneExposed(s, protectedPorts)
    ensures forall port :: port in protectedPorts ==>
              Spared(s, RunOps(fw, image, protectedPorts, s, ops), port)
              && (KeepsPvid(s, ops, port) ==> PvidKept(s, RunOps(fw, image, protectedPorts, s, ops), port))
    decreases |ops|
  {
    if ops != [] {
      var s1, end := Perform(fw, image, protectedPorts, s, ops[0]).1, RunOps(fw, image, protectedPorts, s, ops);
      forall port | port in protectedPorts
        ensures Spared(s, s1, port) && (!DeletesPvid(s, ops[0], port) ==> PvidKept(s, s1, port))
      {
        OpSparesProtected(fw, image, protectedPorts, s, ops[0], port);
      }
      SparingKeepsNoneExposed(s, s1, protectedPorts);
      RunSparesFrom(fw, image, protectedPorts, s1, ops[1..]);
      forall port | port in protectedPorts
        ensures Spared(s, end, port) && (KeepsPvid(s, ops, port) ==> PvidKept(s, end, port))
      {
        SparedTransitive(s, s1, end, port);
        if KeepsPvid(s, ops, port) {
          assert ops[0] in ops && !DeletesPvid(s, ops[0], port);
          forall op | op in ops[1..] ensures !DeletesPvid(s1, op, port) { assert op in ops; }
        }
      }
    }
  }

  /** No operation of the run deletes the VLAN that is the port's PVID. */
  ghost predicate KeepsPvid(s: Shell, ops: seq<Op>, port: int) {
    forall op :: op in ops ==> !DeletesPvid(s, op, port)
  }
}
