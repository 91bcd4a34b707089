/** SnmpWriter.set_vlan_membership on the switchport dialect: read, plan, issue the SETs one at
    a time, read back and compare every VLAN (snmp_write.py). The agent at the other end may
    behave in any way at all; a truthful one is the special case `Truthful`. */
module SnmpMembership {
  import opened Models
  import opened Bitmaps
  import opened Switchport

  // ----- the agent -----

  /** What an SNMP agent answers, and how each request moves its (arbitrary) state. */
  datatype Behaviour<!S> = Behaviour(
    walkVlans: S -> (seq<VlanInfo>, S),
    getMode: (S, int) -> (Option<int>, S),
    getAllowed: (S, int) -> (Octets, S),
    onSet: (S, Varbind) -> (bool, S))

  class Agent<S> {
    const dev: Behaviour<S>
    var state: S
    /** Every SET sent so far. */
    var sent: seq<Varbind>

    constructor (dev: Behaviour<S>, state: S)
      ensures this.dev == dev && this.state == state && sent == []
    {
      this.dev, this.state, this.sent := dev, state, [];
    }

    method WalkVlans() returns (rows: seq<VlanInfo>)
      modifies this`state
      ensures (rows, state) == dev.walkVlans(old(state))
    {
      var answer := dev.walkVlans(state);
      rows, state := answer.0, answer.1;
    }

    method GetMode(port: int) returns (mode: Option<int>)
      modifies this`state
      ensures (mode, state) == dev.getMode(old(state), port)
    {
      var answer := dev.getMode(state, port);
      mode, state := answer.0, answer.1;
    }

    method GetAllowed(port: int) returns (bits: Octets)
      modifies this`state
      ensures (bits, state) == dev.getAllowed(old(state), port)
    {
      var answer := dev.getAllowed(state, port);
      bits, state := answer.0, answer.1;
    }

    method Set(vb: Varbind) returns (accepted: bool)
      modifies this`state, this`sent
      ensures (accepted, state) == dev.onSet(old(state), vb)
      ensures sent == old(sent) + [vb]
    {
      var answer := dev.onSet(state, vb);
      accepted, state := answer.0, answer.1;
      sent := sent + [vb];
    }
  }

  // ----- reading -----

  /** `_port_membership`: a port's tagged and untagged VLANs across every row. */
  function PortMembership(rows: seq<VlanInfo>, port: int): Membership {
    Membership(set i | 0 <= i < |rows| && port in rows[i].taggedPorts :: rows[i].vlanId,
               set i | 0 <= i < |rows| && port in rows[i].untaggedPorts :: rows[i].vlanId)
  }

  function ListedVlans(rows: seq<VlanInfo>): set<int> {
    set i | 0 <= i < |rows| :: rows[i].vlanId
  }

  /** `_switchport_divergence` found nothing to report. */
  predicate Verified(plan: Plan, vlan: int, port: int, after: seq<VlanInfo>) {
    && vlan in ListedVlans(after)
    && PortMembership(after, port) == plan.Target()
  }

  // ----- the write, as a function of the agent's behaviour -----

  /** What a successful write saw: the first reading, its plan, and the reading that verified it. */
  datatype Receipt = Receipt(before: seq<VlanInfo>, plan: Plan, after: seq<VlanInfo>)

  datatype Finish<+S> = Finish(result: Result<Receipt>, state: S, sent: seq<Varbind>)

  /** SETs until one is refused: (all accepted, state, how many were sent). */
  function Issue<S>(dev: Behaviour<S>, s: S, vbs: seq<Varbind>): (r: (bool, S, nat))
    ensures r.2 <= |vbs| && (r.0 ==> r.2 == |vbs|) && (vbs != [] ==> r.2 > 0)
    decreases |vbs|
  {
    if vbs == [] then (true, s, 0)
    else
      var answer := dev.onSet(s, vbs[0]);
      if !answer.0 then (false, answer.1, 1)
      else
        var rest := Issue(dev, answer.1, vbs[1..]);
        (rest.0, rest.1, rest.2 + 1)
  }

  function WriteSwitchport<S>(dev: Behaviour<S>, s: S, vlan: int, port: int, mode: VlanMode,
                              rows: seq<VlanInfo>): Finish<S> {
    var (currentMode, s1) := dev.getMode(s, port);
    var (currentAllowed, s2) := dev.getAllowed(s1, port);
    match PlanMembership(vlan, port, mode, currentMode, currentAllowed, PortMembership(rows, port), ListedVlans(rows))
    case Err(e) => Finish(Err(e), s2, [])
    case Ok(plan) =>
      var issued := Issue(dev, s2, plan.varbinds);
      if !issued.0 then Finish(Err(Rejected), issued.1, plan.varbinds[..issued.2])
      else
        var (after, s3) := dev.walkVlans(issued.1);
        if Verified(plan, vlan, port, after) then Finish(Ok(Receipt(rows, plan, after)), s3, plan.varbinds)
        else Finish(Err(VerificationFailed), dev.walkVlans(s3).1, plan.varbinds)
  }

  function WriteMembership<S>(dev: Behaviour<S>, s: S, protectedPorts: set<int>,
                              vlan: int, port: int, mode: VlanMode, force: bool): Finish<S> {
    if port in protectedPorts && !force then Finish(Err(ProtectedPort), s, [])
    else
      var (rows, s1) := dev.walkVlans(s);
      if vlan !in ListedVlans(rows) then Finish(Err(Precondition), s1, [])
      else WriteSwitchport(dev, s1, vlan, port, mode, rows)
  }

  // ----- the writer -----

  lemma IssueStep<S>(dev: Behaviour<S>, s: S, vbs: seq<Varbind>, k: nat)
    requires k < |vbs| && Issue(dev, s, vbs[..k]).0
    ensures Issue(dev, s, vbs[..k + 1]).0 == dev.onSet(Issue(dev, s, vbs[..k]).1, vbs[k]).0
    ensures Issue(dev, s, vbs[..k + 1]).1 == dev.onSet(Issue(dev, s, vbs[..k]).1, vbs[k]).1
    ensures !Issue(dev, s, vbs[..k + 1]).0 ==> Issue(dev, s, vbs) == Issue(dev, s, vbs[..k + 1])
    ensures Issue(dev, s, vbs[..k + 1]).2 == k + 1
    decreases k
  {
    assert vbs[..k + 1][0] == vbs[0] && vbs[..k + 1][1..] == vbs[1..][..k];
    if k > 0 {
      assert vbs[..k][1..] == vbs[1..][..k - 1];
      IssueStep(dev, dev.onSet(s, vbs[0]).1, vbs[1..], k - 1);
    }
  }

  class SnmpWriter<S> {
    const agent: Agent<S>
    const protectedPorts: set<int>

    constructor (agent: Agent<S>, protectedPorts: set<int>)
      ensures this.agent == agent && this.protectedPorts == protectedPorts
    {
      this.agent, this.protectedPorts := agent, protectedPorts;
    }

    method SetVlanMembership(vlan: int, port: int, mode: VlanMode, force: bool) returns (r: Result<Receipt>)
      modifies agent
      ensures var finish := WriteMembership(agent.dev, old(agent.state), protectedPorts, vlan, port, mode, force);
              r == finish.result && agent.state == finish.state && agent.sent == old(agent.sent) + finish.sent
    {
      if port in protectedPorts && !force {
        return Err(ProtectedPort);
      }
      var rows := agent.WalkVlans();
      if vlan !in ListedVlans(rows) {
        return Err(Precondition);
      }
      r := SetVlanSwitchport(vlan, port, mode, rows);
    }

    /** One PDU per column, in order, stopping at the first refusal. */
    method IssueSets(vbs: seq<Varbind>) returns (accepted: bool)
      modifies agent
      ensures var issued := Issue(agent.dev, old(agent.state), vbs);
              && accepted == issued.0 && agent.state == issued.1
              && agent.sent == old(agent.sent) + vbs[..issued.2]
    {
      for k := 0 to |vbs|
        invariant Issue(agent.dev, old(agent.state), vbs[..k]).0
        invariant agent.state == Issue(agent.dev, old(agent.state), vbs[..k]).1
        invariant agent.sent == old(agent.sent) + vbs[..k]
      {
        IssueStep(agent.dev, old(agent.state), vbs, k);
        accepted := agent.Set(vbs[k]);
        if !accepted {
          return false;
        }
      }
      assert vbs[..|vbs|] == vbs;
      return true;
    }

    method SetVlanSwitchport(vlan: int, port: int, mode: VlanMode, rows: seq<VlanInfo>) returns (r: Result<Receipt>)
      modifies agent
      ensures var finish := WriteSwitchport(agent.dev, old(agent.state), vlan, port, mode, rows);
              r == finish.result && agent.state == finish.state && agent.sent == old(agent.sent) + finish.sent
    {
      var currentMode := agent.GetMode(port);
      var currentAllowed := agent.GetAllowed(port);
      var planned := PlanMembership(vlan, port, mode, currentMode, currentAllowed,
                                    PortMembership(rows, port), ListedVlans(rows));
      if planned.Err? {
        return Err(planned.error);
      }
      var plan := planned.value;
      var accepted := IssueSets(plan.varbinds);
      if !accepted {
        return Err(Rejected);
      }
      var after := agent.WalkVlans();
      if Verified(plan, vlan, port, after) {
        return Ok(Receipt(rows, plan, after));
      }
      var _ := agent.WalkVlans();
      return Err(VerificationFailed);
    }
  }

  // ----- what normal return means, whatever the agent does -----

  /** On normal return the reading taken last lists the named VLAN and shows, compared with the
      reading taken first, the request carried out and nothing else moved. */
  lemma NormalReturnIsVerified<S>(dev: Behaviour<S>, s: S, protectedPorts: set<int>,
                                  vlan: int, port: int, mode: VlanMode, force: bool)
    requires WriteMembership(dev, s, protectedPorts, vlan, port, mode, force).result.Ok?
    ensures var receipt := WriteMembership(dev, s, protectedPorts, vlan, port, mode, force).result.value;
            var was, now := PortMembership(receipt.before, port), PortMembership(receipt.after, port);
            && (port in protectedPorts ==> force)
            && receipt.before == dev.walkVlans(s).0
            && vlan in ListedVlans(receipt.before) && vlan in ListedVlans(receipt.after)
            && now == receipt.plan.Target() == Wanted(vlan, mode, was)
            && |now.untagged| == 1
            && ((ModeIn(now.All(), now.untagged, vlan) == mode) <==>
                  !(mode.Excluded? && vlan == DEFAULT_VLAN && was.untagged <= {DEFAULT_VLAN}))
            && (forall w :: w != vlan ==> (w in now.tagged <==> w in was.tagged))
            && (!mode.Untagged? ==> forall w :: w != vlan ==>
                  (w in now.untagged <==> w in was.untagged || (w == DEFAULT_VLAN && was.untagged <= {vlan})))
  {
    var (rows, s1) := dev.walkVlans(s);
    var (currentMode, s2) := dev.getMode(s1, port);
    var (currentAllowed, s3) := dev.getAllowed(s2, port);
    var was := PortMembership(rows, port);
    RequestHonoured(vlan, port, mode, currentMode, currentAllowed, was, ListedVlans(rows));
    AtMostOne(WantUntagged(vlan, mode, was.untagged));
  }

  /** Every SET names the requested port, and a refused plan sends none. */
  lemma PlannedSets<S>(dev: Behaviour<S>, s: S, vlan: int, port: int, mode: VlanMode, rows: seq<VlanInfo>)
    ensures var finish := WriteSwitchport(dev, s, vlan, port, mode, rows);
            && (finish.sent == [] <==> finish.result == Err(Unsupported))
            && forall vb :: vb in finish.sent ==> vb.port == port
  {
    var (currentMode, s1) := dev.getMode(s, port);
    var (currentAllowed, s2) := dev.getAllowed(s1, port);
    PlanShape(vlan, port, mode, currentMode, currentAllowed, PortMembership(rows, port), ListedVlans(rows));
  }

  /** A refusal by the guard, the missing-VLAN check or the planner sends no SET, and no SET
      ever names a port other than the requested one. */
  lemma RefusalsSendNothing<S>(dev: Behaviour<S>, s: S, protectedPorts: set<int>,
                               vlan: int, port: int, mode: VlanMode, force: bool)
    ensures var finish := WriteMembership(dev, s, protectedPorts, vlan, port, mode, force);
            && (finish.sent == [] <==>
                  finish.result == Err(ProtectedPort) || finish.result == Err(Precondition)
                  || finish.result == Err(Unsupported))
            && forall vb :: vb in finish.sent ==> vb.port == port
  {
    var (rows, s1) := dev.walkVlans(s);
    PlannedSets(dev, s1, vlan, port, mode, rows);
  }

  /** Readings leave the agent's state alone. */
  ghost predicate ReadsQuietly<S(!new)>(dev: Behaviour<S>) {
    && (forall s :: dev.walkVlans(s).1 == s)
    && (forall s, port :: dev.getMode(s, port).1 == s)
    && (forall s, port :: dev.getAllowed(s, port).1 == s)
  }

  /** Then the write leaves the agent where some SETs of the requested port leave it. */
  lemma WriteIsItsSets<S(!new)>(dev: Behaviour<S>, s: S, protectedPorts: set<int>,
                                vlan: int, port: int, mode: VlanMode, force: bool) returns (vbs: seq<Varbind>)
    requires ReadsQuietly(dev)
    ensures forall i :: 0 <= i < |vbs| ==> vbs[i].port == port
    ensures var finish := WriteMembership(dev, s, protectedPorts, vlan, port, mode, force);
            finish.state == Issue(dev, s, vbs).1 && (finish.result.Ok? ==> vbs != [] && Issue(dev, s, vbs).0)
  {
    vbs := [];
    var rows := dev.walkVlans(s).0;
    if (port in protectedPorts && !force) || vlan !in ListedVlans(rows) { return; }
    var currentMode, currentAllowed := dev.getMode(s, port).0, dev.getAllowed(s, port).0;
    var current, existing := PortMembership(rows, port), ListedVlans(rows);
    PlanShape(vlan, port, mode, currentMode, currentAllowed, current, existing);
    var plan := PlanMembership(vlan, port, mode, currentMode, currentAllowed, current, existing);
    if plan.Ok? { vbs := plan.value.varbinds; }
  }

  /** After a normal return from such an agent its last state is read with the named VLAN as asked, excluding
      VLAN 1 apart. */
  lemma OkIsRead<S(!new)>(dev: Behaviour<S>, s: S, protectedPorts: set<int>,
                          vlan: int, port: int, mode: VlanMode, force: bool)
    requires ReadsQuietly(dev) && WriteMembership(dev, s, protectedPorts, vlan, port, mode, force).result.Ok?
    ensures var end := WriteMembership(dev, s, protectedPorts, vlan, port, mode, force).state;
            var now := PortMembership(dev.walkVlans(end).0, port);
            ModeIn(now.All(), now.untagged, vlan) == mode || (mode == Excluded && vlan == DEFAULT_VLAN)
  {
    NormalReturnIsVerified(dev, s, protectedPorts, vlan, port, mode, force);
    ReceiptIsCurrent(dev, s, protectedPorts, vlan, port, mode, force);
  }

  /** The reading that verified a write shows the agent's last state, where readings leave it alone. */
  lemma ReceiptIsCurrent<S(!new)>(dev: Behaviour<S>, s: S, protectedPorts: set<int>,
                                  vlan: int, port: int, mode: VlanMode, force: bool)
    requires ReadsQuietly(dev) && WriteMembership(dev, s, protectedPorts, vlan, port, mode, force).result.Ok?
    ensures var finish := WriteMembership(dev, s, protectedPorts, vlan, port, mode, force);
            finish.result.value.after == dev.walkVlans(finish.state).0
  {
  }
}
