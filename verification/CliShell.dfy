/** A FASTPATH command shell: the switch behind it, its config-mode stack and what accepted commands do
    (virtual/faces/cli.py, virtual/state.py), and CliWriter's descent into a mode and back out (cli_write.py).
    Which commands the shell accepts is left entirely open. */
module CliShell {
  import opened Models

  datatype Mode = VlanDatabase | Config | Interface(port: int)

  datatype Command =
    | EnterMode(mode: Mode)          // `vlan database`, `configure`, `interface <name>`
    | Exit
    | VlanCreate(vlan: int)
    | VlanName(vlan: int, name: string)
    | VlanDelete(vlan: int)
    | SwitchportGeneral
    | Participation(vlan: int, included: bool)
    | Tagging(vlan: int, tagged: bool)
    | Pvid(vlan: int)
    | PortAdmin(enabled: bool)       // `no shutdown`, `shutdown`
    | PoeAdmin(on: bool)             // `poe`, `no poe`
    | PoeReset
    | LoggingAdd(host: string, udpPort: int, severity: int)
    | LoggingRemove(index: int)

  datatype SwitchportMode = AccessPort | GeneralPort | TrunkPort

  /** One VLAN: the ports that are in it right now, the untagged set, and the ports configured into it that
      are not participating (`Current: Exclude`, `Configured: Include`). */
  datatype Vlan = Vlan(members: set<int>, untagged: set<int>, configuredOnly: set<int>) {
    function Configured(): set<int> { members + configuredOnly }
  }

  datatype Collector = Collector(host: string, udpPort: int, severity: int, index: int)

  datatype Shell = Shell(
    modes: seq<Mode>,                       // innermost last; [] is EXEC
    vlans: map<int, Vlan>,
    names: map<int, string>,
    switchport: map<int, SwitchportMode>,   // absent: general, as on an image without modes
    pvids: map<int, int>,
    disabled: set<int>,                     // ports shut down
    unpowered: set<int>,                    // ports with PoE switched off
    collectors: seq<Collector>,
    readAt: seq<seq<Mode>>)                 // the mode stack at every `show` so far

  /** A port's part in one VLAN: how it is configured, and whether it participates. */
  datatype Part = Part(mode: VlanMode, now: bool)

  /** The firmware: which commands are answered with empty output; the index a new collector is given; whether
      a port included in a VLAN participates at once; whether excluding one also ends a configuration that is
      not in force; what part in a VLAN, and which PVID if a new one, a port that leaves access or trunk mode
      for general mode is given; and whether a port is seen to recover from a PoE reset in time. */
  datatype Firmware = Firmware(
    accepts: (Shell, Command) -> bool,
    freshIndex: Shell -> int,
    joins: (int, int) -> bool,
    drops: (int, int) -> bool,
    general: (Shell, int, int) -> Part,
    generalPvid: (Shell, int) -> Option<int>,
    recovers: (Shell, int) -> bool)

  /** How a port is configured into a VLAN, whether or not it participates. */
  function ConfiguredMode(s: Shell, vlan: int, port: int): VlanMode {
    if vlan !in s.vlans then Excluded else ModeIn(s.vlans[vlan].Configured(), s.vlans[vlan].untagged, port)
  }

  /** `_port_mode`: how a port participates right now, which is all `show vlan` lets the reader see. */
  function PortMode(s: Shell, vlan: int, port: int): VlanMode {
    if vlan !in s.vlans then Excluded else ModeIn(s.vlans[vlan].members, s.vlans[vlan].untagged, port)
  }

  /** A port that is in no way in a VLAN, or in a VLAN that is not there, is excluded; one that is in it is
      untagged or tagged as its bit says. */
  lemma ModesMean(s: Shell, vlan: int, port: int)
    ensures PortMode(s, vlan, port) == Excluded <==> !(vlan in s.vlans && port in s.vlans[vlan].members)
    ensures PortMode(s, vlan, port) == Untagged <==>
              vlan in s.vlans && port in s.vlans[vlan].members && port in s.vlans[vlan].untagged
    ensures ConfiguredMode(s, vlan, port) == Excluded <==>
              !(vlan in s.vlans && (port in s.vlans[vlan].members || port in s.vlans[vlan].configuredOnly))
    ensures ConfiguredMode(s, vlan, port) == Untagged <==>
              && vlan in s.vlans && port in s.vlans[vlan].untagged
              && (port in s.vlans[vlan].members || port in s.vlans[vlan].configuredOnly)
  {
  }

  /** The port is configured into every VLAN as before, has left none, and is not newly shut or unpowered. */
  ghost predicate Spared(before: Shell, after: Shell, port: int) {
    && (forall v :: ConfiguredMode(after, v, port) == ConfiguredMode(before, v, port))
    && (forall v :: v in before.vlans && port in before.vlans[v].members ==>
          v in after.vlans && port in after.vlans[v].members)
    && (port in after.disabled ==> port in before.disabled)
    && (port in after.unpowered ==> port in before.unpowered)
  }

  /** The port's PVID is what it was. */
  predicate PvidKept(before: Shell, after: Shell, port: int) {
    && (port in after.pvids <==> port in before.pvids)
    && (port in before.pvids ==> after.pvids[port] == before.pvids[port])
  }

  lemma SparedTransitive(a: Shell, b: Shell, c: Shell, port: int)
    requires Spared(a, b, port) && Spared(b, c, port)
    ensures Spared(a, c, port)
    ensures PvidKept(a, b, port) && PvidKept(b, c, port) ==> PvidKept(a, c, port)
  {
  }

  /** A row with one port's participation set (`vlan participation`). */
  function Participating(fw: Firmware, row: Vlan, vlan: int, port: int, included: bool): Vlan {
    if !included then
      Vlan(row.members - {port}, row.untagged - {port},
           With(row.configuredOnly, port, port in row.configuredOnly && !fw.drops(vlan, port)))
    else if port in row.members || fw.joins(vlan, port) then
      Vlan(row.members + {port}, row.untagged + {port}, row.configuredOnly)
    else
      Vlan(row.members, row.untagged + {port}, row.configuredOnly + {port})
  }

  /** An included port is configured into the VLAN, untagged until tagging says otherwise, and takes part if it did
      or is let; an excluded one is out, its tagging forgotten, and stays configured only where that was so, out of
      force, and is kept. Nothing else in the row moves. */
  lemma ParticipatingMeans(fw: Firmware, row: Vlan, vlan: int, port: int, included: bool)
    ensures var next := Participating(fw, row, vlan, port, included);
            && (port in next.members <==> included && (port in row.members || fw.joins(vlan, port)))
            && (port in next.untagged <==> included)
            && (included ==> port in next.Configured())
            && (!included ==> (port in next.configuredOnly <==> port in row.configuredOnly && !fw.drops(vlan, port)))
            && forall p :: p != port ==>
                 && (p in next.members <==> p in row.members) && (p in next.untagged <==> p in row.untagged)
                 && (p in next.configuredOnly <==> p in row.configuredOnly)
  {
  }

  /** A row in which one port has the given part. */
  function Placed(row: Vlan, port: int, part: Part): Vlan {
    Vlan(With(row.members, port, part.mode != Excluded && part.now),
         With(row.untagged, port, part.mode == Untagged),
         With(row.configuredOnly, port, part.mode != Excluded && !part.now))
  }

  lemma PlacedMeans(row: Vlan, port: int, part: Part)
    ensures var next := Placed(row, port, part);
            && ModeIn(next.Configured(), next.untagged, port) == part.mode
            && ModeIn(next.members, next.untagged, port) == (if part.now then part.mode else Excluded)
            && !(port in next.members && port in next.configuredOnly)
            && forall p :: p != port ==>
                 && (p in next.members <==> p in row.members) && (p in next.untagged <==> p in row.untagged)
                 && (p in next.configuredOnly <==> p in row.configuredOnly)
  {
  }

  /** `switchport mode general`: a port that was not general stops following its access or trunk VLANs, and has
      in every VLAN the part the firmware's general mode gives it. */
  function ToGeneral(fw: Firmware, s: Shell, port: int): Shell {
    if InGeneralMode(s, port) then s
    else
      s.(switchport := s.switchport[port := GeneralPort],
         vlans := map v | v in s.vlans :: Placed(s.vlans[v], port, fw.general(s, v, port)),
         pvids := match fw.generalPvid(s, port)
                  case None => s.pvids
                  case Some(v) => s.pvids[port := v])
  }

  /** On an image without switchport modes every port is as in general mode. */
  predicate InGeneralMode(s: Shell, port: int) {
    port !in s.switchport || s.switchport[port] == GeneralPort
  }

  /** Deleting a VLAN takes every port that had it as PVID back to VLAN 1. */
  function WithoutVlan(s: Shell, vlan: int): Shell {
    if vlan !in s.vlans then s
    else s.(vlans := s.vlans - {vlan}, names := s.names - {vlan},
            pvids := map p | p in s.pvids :: if s.pvids[p] == vlan then 1 else s.pvids[p])
  }

  function WithVlan(s: Shell, vlan: int): Shell {
    if vlan in s.vlans then s else s.(vlans := s.vlans[vlan := Vlan({}, {}, {})], names := s.names[vlan := ""])
  }

  /** A new VLAN takes nothing from any port, whatever it is called. */
  lemma NewVlanSpares(s: Shell, vlan: int, name: string, port: int)
    ensures Spared(s, WithVlan(s, vlan), port) && Spared(s, WithVlan(s, vlan).(names := s.names[vlan := name]), port)
  {
  }

  function With(ports: set<int>, port: int, there: bool): set<int> {
    if there then ports + {port} else ports - {port}
  }

  predicate HonoursVlanCommands(s: Shell, port: int) {
    port !in s.switchport || s.switchport[port] != AccessPort
  }

  function Indices(rows: seq<Collector>): set<int> { set r | r in rows :: r.index }

  function WithoutIndex(rows: seq<Collector>, index: int): seq<Collector> {
    if rows == [] then []
    else if rows[0].index == index then rows[1..]
    else [rows[0]] + WithoutIndex(rows[1..], index)
  }

  /** What an accepted command does. Per-port VLAN commands are inert on an access port. */
  function Accepted(fw: Firmware, s: Shell, c: Command): Shell {
    match c
    case EnterMode(mode) => s.(modes := s.modes + [mode])
    case Exit => if s.modes == [] then s else s.(modes := s.modes[..|s.modes| - 1])
    case VlanCreate(v) => WithVlan(s, v)
    case VlanName(v, name) => if v in s.vlans then s.(names := s.names[v := name]) else s
    case VlanDelete(v) => WithoutVlan(s, v)
    case LoggingAdd(host, udpPort, severity) =>
      s.(collectors := s.collectors + [Collector(host, udpPort, severity, fw.freshIndex(s))])
    case LoggingRemove(index) => s.(collectors := WithoutIndex(s.collectors, index))
    case _ =>
      if s.modes == [] || !s.modes[|s.modes| - 1].Interface? then s
      else OnPort(fw, s, c, s.modes[|s.modes| - 1].port)
  }

  function OnPort(fw: Firmware, s: Shell, c: Command, port: int): Shell {
    match c
    case SwitchportGeneral => ToGeneral(fw, s, port)
    case Participation(v, included) =>
      if v in s.vlans && HonoursVlanCommands(s, port) then
        s.(vlans := s.vlans[v := Participating(fw, s.vlans[v], v, port, included)])
      else s
    case Tagging(v, tagged) =>
      if v in s.vlans && HonoursVlanCommands(s, port) then
        var row := s.vlans[v];
        s.(vlans := s.vlans[v := row.(untagged := With(row.untagged, port, !tagged))])
      else s
    case PortAdmin(enabled) => s.(disabled := With(s.disabled, port, !enabled))
    case PoeAdmin(on) => s.(unpowered := With(s.unpowered, port, !on))
    case Pvid(v) => if HonoursVlanCommands(s, port) then s.(pvids := s.pvids[port := v]) else s
    case _ => s
  }

  /** `session.run`: the answer and the shell afterwards. `exit` is never refused. */
  function Step(fw: Firmware, s: Shell, c: Command): (bool, Shell) {
    if c.Exit? || fw.accepts(s, c) then (true, Accepted(fw, s, c)) else (false, s)
  }

  // ----- `_in_mode` -----

  /** `_run` over a list, stopping at the first refusal: how many were accepted, and the shell then. */
  function RunUntilRefused(fw: Firmware, s: Shell, cs: seq<Command>): (r: (nat, Shell))
    ensures r.0 <= |cs|
    decreases |cs|
  {
    if cs == [] then (0, s)
    else
      var answer := Step(fw, s, cs[0]);
      if !answer.0 then (0, answer.1)
      else
        var rest := RunUntilRefused(fw, answer.1, cs[1..]);
        (rest.0 + 1, rest.1)
  }

  function ExitTimes(fw: Firmware, s: Shell, n: nat): Shell
    decreases n
  {
    if n == 0 then s else ExitTimes(fw, Step(fw, s, Exit).1, n - 1)
  }

  function InMode(fw: Firmware, s: Shell, enter: seq<Command>, body: seq<Command>): (bool, Shell) {
    var (entered, s1) := RunUntilRefused(fw, s, enter);
    if entered < |enter| then (false, ExitTimes(fw, s1, entered))
    else
      var (done, s2) := RunUntilRefused(fw, s1, body);
      (done == |body|, ExitTimes(fw, s2, entered))
  }

  ghost predicate Descends(enter: seq<Command>) {
    forall i :: 0 <= i < |enter| ==> enter[i].EnterMode?
  }

  ghost predicate StaysInMode(body: seq<Command>) {
    forall i :: 0 <= i < |body| ==> !body[i].EnterMode? && !body[i].Exit?
  }

  lemma {:induction false} DescendPushes(fw: Firmware, s: Shell, enter: seq<Command>)
    requires Descends(enter)
    ensures var (entered, s1) := RunUntilRefused(fw, s, enter);
            && |s1.modes| == |s.modes| + entered && s.modes <= s1.modes
            && s1 == s.(modes := s1.modes)
            && (entered == |enter| > 0 ==> s1.modes[|s1.modes| - 1] == enter[|enter| - 1].mode)
    decreases |enter|
  {
    if enter != [] && Step(fw, s, enter[0]).0 {
      DescendPushes(fw, Step(fw, s, enter[0]).1, enter[1..]);
    }
  }

  lemma OnPortKeepsModes(fw: Firmware, s: Shell, c: Command, port: int)
    ensures OnPort(fw, s, c, port).modes == s.modes && OnPort(fw, s, c, port).readAt == s.readAt
  {
  }

  lemma StepKeepsModes(fw: Firmware, s: Shell, c: Command)
    requires !c.EnterMode? && !c.Exit?
    ensures Step(fw, s, c).1.modes == s.modes && Step(fw, s, c).1.readAt == s.readAt
  {
    if s.modes != [] && s.modes[|s.modes| - 1].Interface? {
      OnPortKeepsModes(fw, s, c, s.modes[|s.modes| - 1].port);
    }
  }

  lemma {:induction false} BodyKeepsModes(fw: Firmware, s: Shell, body: seq<Command>)
    requires StaysInMode(body)
    ensures RunUntilRefused(fw, s, body).1.modes == s.modes
    ensures RunUntilRefused(fw, s, body).1.readAt == s.readAt
    decreases |body|
  {
    if body != [] && Step(fw, s, body[0]).0 {
      StepKeepsModes(fw, s, body[0]);
      BodyKeepsModes(fw, Step(fw, s, body[0]).1, body[1..]);
    }
  }

  lemma {:induction false} ExitPops(fw: Firmware, s: Shell, n: nat)
    requires n <= |s.modes|
    ensures ExitTimes(fw, s, n) == s.(modes := s.modes[..|s.modes| - n])
    decreases n
  {
    if n > 0 {
      ExitPops(fw, Step(fw, s, Exit).1, n - 1);
    } else {
      assert s.modes[..|s.modes|] == s.modes;
    }
  }

  /** Whatever is accepted or refused, in the descent or in the body, the shell is back in the mode it
      started in; and only the body can have changed anything else. */
  lemma StackRestored(fw: Firmware, s: Shell, enter: seq<Command>, body: seq<Command>)
    requires Descends(enter) && StaysInMode(body)
    ensures var (ok, s') := InMode(fw, s, enter, body);
            && s'.modes == s.modes && s'.readAt == s.readAt
            && var (entered, s1) := RunUntilRefused(fw, s, enter);
               s' == (if entered < |enter| then s else RunUntilRefused(fw, s1, body).1.(modes := s.modes))
  {
    DescendPushes(fw, s, enter);
    var (entered, s1) := RunUntilRefused(fw, s, enter);
    if entered < |enter| {
      ExitPops(fw, s1, entered);
    } else {
      BodyKeepsModes(fw, s1, body);
      ExitPops(fw, RunUntilRefused(fw, s1, body).1, entered);
    }
  }

  // ----- a shell that may ignore `exit` -----

  /** `levels` exits given, of which `honoured` tells which pop the stack: the answers are not looked at. */
  function Unwound(modes: seq<Mode>, levels: nat, honoured: nat -> bool): seq<Mode>
    decreases levels
  {
    if levels == 0 then modes
    else Unwound(if honoured(levels - 1) && modes != [] then modes[..|modes| - 1] else modes, levels - 1, honoured)
  }

  lemma {:induction false} UnwoundIs(modes: seq<Mode>, levels: nat, honoured: nat -> bool)
    requires levels <= |modes|
    ensures modes[..|modes| - levels] <= Unwound(modes, levels, honoured)
    ensures Unwound(modes, levels, honoured) == modes[..|modes| - levels]
            <==> forall i: nat :: i < levels ==> honoured(i)
    decreases levels
  {
    if levels > 0 {
      if honoured(levels - 1) {
        UnwoundIs(modes[..|modes| - 1], levels - 1, honoured);
        assert modes[..|modes| - 1][..|modes| - levels] == modes[..|modes| - levels];
      } else {
        UnwoundIs(modes, levels - 1, honoured);
        assert |modes[..|modes| - (levels - 1)]| > |modes[..|modes| - levels]|;
        assert modes[..|modes| - (levels - 1)][..|modes| - levels] == modes[..|modes| - levels];
      }
    } else {
      assert modes[..|modes|] == modes;
    }
  }

  /** The unwinding relies on `exit` being honoured, as it does not look: after any descent and any body, the
      shell is back in the mode it started in if and only if every exit given is honoured. */
  lemma StackRestoredIff(fw: Firmware, s: Shell, enter: seq<Command>, body: seq<Command>, honoured: nat -> bool)
    requires Descends(enter) && StaysInMode(body)
    ensures var (entered, s1) := RunUntilRefused(fw, s, enter);
            var s2 := if entered < |enter| then s1 else RunUntilRefused(fw, s1, body).1;
            Unwound(s2.modes, entered, honoured) == s.modes <==> forall i: nat :: i < entered ==> honoured(i)
  {
    DescendPushes(fw, s, enter);
    var (entered, s1) := RunUntilRefused(fw, s, enter);
    if entered == |enter| { BodyKeepsModes(fw, s1, body); }
    UnwoundIs(s1.modes, entered, honoured);
    assert s1.modes[..|s1.modes| - entered] == s.modes;
  }

  // ----- the source's loops -----

  class Session {
    const fw: Firmware
    var shell: Shell

    constructor (fw: Firmware, shell: Shell)
      ensures this.fw == fw && this.shell == shell
    {
      this.fw, this.shell := fw, shell;
    }

    method Run(c: Command) returns (accepted: bool)
      modifies this
      ensures (accepted, shell) == Step(fw, old(shell), c)
    {
      var answer := Step(fw, shell, c);
      accepted, shell := answer.0, answer.1;
    }

    /** `_in_mode`: counts the levels it entered and leaves exactly those, come what may. */
    method DoInMode(enter: seq<Command>, body: seq<Command>) returns (ok: bool)
      modifies this
      ensures (ok, shell) == InMode(fw, old(shell), enter, body)
    {
      var entered := 0;
      ok := true;
      while ok && entered < |enter|
        invariant 0 <= entered <= |enter|
        invariant RunUntilRefused(fw, old(shell), enter)
               == (if ok then (entered + RunUntilRefused(fw, shell, enter[entered..]).0,
                               RunUntilRefused(fw, shell, enter[entered..]).1)
                   else (entered, shell))
        invariant !ok ==> entered < |enter|
        decreases if ok then |enter| - entered + 1 else 0
      {
        assert enter[entered..][0] == enter[entered] && enter[entered..][1..] == enter[entered + 1..];
        ok := Run(enter[entered]);
        if ok { entered := entered + 1; }
      }
      if ok {
        ok := RunBody(body);
      }
      Leave(entered);
    }

    method RunBody(body: seq<Command>) returns (ok: bool)
      modifies this
      ensures ok == (RunUntilRefused(fw, old(shell), body).0 == |body|)
              && shell == RunUntilRefused(fw, old(shell), body).1
    {
      var done := 0;
      while done < |body|
        invariant 0 <= done <= |body|
        invariant RunUntilRefused(fw, old(shell), body)
               == (done + RunUntilRefused(fw, shell, body[done..]).0, RunUntilRefused(fw, shell, body[done..]).1)
      {
        assert body[done..][0] == body[done] && body[done..][1..] == body[done + 1..];
        var accepted := Run(body[done]);
        if !accepted { return false; }
        done := done + 1;
      }
      return true;
    }

    method Leave(levels: nat)
      modifies this
      ensures shell == ExitTimes(fw, old(shell), levels)
    {
      for i := 0 to levels
        invariant ExitTimes(fw, shell, levels - i) == ExitTimes(fw, old(shell), levels)
      {
        var _ := Run(Exit);
      }
    }
  }
}
