/** A truthful FASTPATH agent: Q-BRIDGE mirrors derived from the switchport columns, SETs that
    do what they say. Against it the membership write is totally correct. */
module TruthfulAgent {
  import opened Models
  import opened Bitmaps
  import opened Switchport
  import opened SnmpMembership

  /** The switchport rows of the physical ports, and the VLANs that exist. */
  datatype Table = Table(rows: map<int, PortRow>, existing: set<int>)

  /** What the mirrors show for one port. */
  function Shown(t: Table, port: int): Membership {
    if port in t.rows then Derive(t.rows[port], t.existing) else Membership({}, {})
  }

  function MirrorRow(t: Table, vlan: VlanId): VlanInfo {
    var tagged := set p | p in t.rows && vlan in Shown(t, p).tagged;
    var untagged := set p | p in t.rows && vlan in Shown(t, p).untagged;
    VlanInfo(vlan, tagged + untagged, tagged, untagged)
  }

  lemma MirrorRowMeans(t: Table, vlan: VlanId, port: int)
    ensures var row := MirrorRow(t, vlan);
            && row.vlanId == vlan && row.memberPorts == row.taggedPorts + row.untaggedPorts
            && (port in row.taggedPorts <==> vlan in Shown(t, port).tagged)
            && (port in row.untaggedPorts <==> vlan in Shown(t, port).untagged)
  {
  }

  /** The VLAN rows in ascending order, up to id `n`. */
  function MirrorUpTo(t: Table, n: nat): seq<VlanInfo>
    requires n <= 4096
  {
    if n == 0 then []
    else MirrorUpTo(t, n - 1) + (if n in t.existing then [MirrorRow(t, n)] else [])
  }

  function SetInTable(t: Table, vb: Varbind): (bool, Table) {
    if vb.port !in t.rows then (false, t)
    else match SetColumn(t.rows[vb.port], vb, t.existing)
      case None => (false, t)
      case Some(row) => (true, t.(rows := t.rows[vb.port := row]))
  }

  function WalkTable(t: Table): (seq<VlanInfo>, Table) { (MirrorUpTo(t, 4096), t) }

  function ModeInTable(t: Table, port: int): (Option<int>, Table) {
    (if port in t.rows then Some(t.rows[port].mode) else None, t)
  }

  function AllowedInTable(t: Table, port: int): (Octets, Table) {
    (if port in t.rows then t.rows[port].allowed else Encode({}, VLAN_BITMAP_BYTES), t)
  }

  function Truthful(): Behaviour<Table> {
    Behaviour(WalkTable, ModeInTable, AllowedInTable, SetInTable)
  }

  // ----- the mirrors tell the truth -----

  function UpTo(s: set<int>, n: nat): set<int> { set v | v in s && 1 <= v <= n }

  lemma {:induction false} MirrorRowsAre(t: Table, n: nat, port: int)
    requires n <= 4096
    ensures var rows := MirrorUpTo(t, n);
            && ListedVlans(rows) == UpTo(t.existing, n)
            && PortMembership(rows, port).tagged == UpTo(Shown(t, port).tagged, n)
            && PortMembership(rows, port).untagged == UpTo(Shown(t, port).untagged, n)
  {
    if n > 0 {
      MirrorRowsAre(t, n - 1, port);
      var last := if n in t.existing then [MirrorRow(t, n)] else [];
      AppendRows(MirrorUpTo(t, n - 1), last, port);
      OneRow(t, n, port);
      assert forall s: set<int> {:trigger UpTo(s, n)} :: UpTo(s, n) == UpTo(s, n - 1) + (if n in s then {n} else {});
    }
  }

  lemma OneRow(t: Table, n: VlanId, port: int)
    ensures var last := if n in t.existing then [MirrorRow(t, n)] else [];
            && ListedVlans(last) == (if n in t.existing then {n} else {})
            && PortMembership(last, port).tagged == (if n in Shown(t, port).tagged then {n} else {})
            && PortMembership(last, port).untagged == (if n in Shown(t, port).untagged then {n} else {})
  {
    assert Shown(t, port).All() <= t.existing;
    if n in t.existing {
      var last := [MirrorRow(t, n)];
      assert last[0].vlanId == n;
    }
  }

  lemma AppendRows(a: seq<VlanInfo>, b: seq<VlanInfo>, port: int)
    ensures ListedVlans(a + b) == ListedVlans(a) + ListedVlans(b)
    ensures PortMembership(a + b, port).tagged == PortMembership(a, port).tagged + PortMembership(b, port).tagged
    ensures PortMembership(a + b, port).untagged == PortMembership(a, port).untagged + PortMembership(b, port).untagged
  {
    var ab := a + b;
    assert forall i :: 0 <= i < |a| ==> ab[i] == a[i];
    assert forall i :: 0 <= i < |b| ==> ab[|a| + i] == b[i];
    assert forall i :: |a| <= i < |ab| ==> ab[i] == b[i - |a|];
  }

  lemma MirrorIsTruthful(t: Table, port: int)
    requires VlanIds(t.existing)
    ensures ListedVlans(MirrorUpTo(t, 4096)) == t.existing
    ensures PortMembership(MirrorUpTo(t, 4096), port) == Shown(t, port)
  {
    MirrorRowsAre(t, 4096, port);
    assert Shown(t, port).All() <= t.existing;
    assert forall s: set<int> {:trigger UpTo(s, 4096)} :: s <= t.existing ==> UpTo(s, 4096) == s;
  }

  function WithRow(t: Table, port: int, row: PortRow): Table { t.(rows := t.rows[port := row]) }

  lemma WithRowTwice(t: Table, port: int, a: PortRow, b: PortRow)
    ensures WithRow(WithRow(t, port, a), port, b) == WithRow(t, port, b)
    ensures port in t.rows ==> WithRow(t, port, t.rows[port]) == t
  {
  }

  /** SETs of one port run that port's row and nothing else. */
  lemma {:induction false} IssueRunsRow(t: Table, port: int, vbs: seq<Varbind>) returns (row: PortRow)
    requires port in t.rows
    requires forall i :: 0 <= i < |vbs| ==> vbs[i].port == port
    ensures var issued := Issue(Truthful(), t, vbs);
            var run := RunSets(t.rows[port], vbs, t.existing);
            && issued.0 == run.Some?
            && issued.1 == WithRow(t, port, row)
            && (run.Some? ==> row == run.value)
            && row == RunSoFar(t.rows[port], vbs, t.existing)
    decreases |vbs|
  {
    row := t.rows[port];
    WithRowTwice(t, port, row, row);
    if vbs != [] {
      TruthfulSet(t, vbs[0]);
      var next := SetColumn(row, vbs[0], t.existing);
      if next.Some? {
        row := IssueRunsRow(WithRow(t, port, next.value), port, vbs[1..]);
        WithRowTwice(t, port, next.value, row);
      }
    }
  }

  lemma TruthfulSet(t: Table, vb: Varbind)
    requires vb.port in t.rows
    ensures Truthful().onSet(t, vb)
         == match SetColumn(t.rows[vb.port], vb, t.existing)
            case None => (false, t)
            case Some(row) => (true, WithRow(t, vb.port, row))
  {
    assert Truthful().onSet(t, vb) == SetInTable(t, vb);
  }

  // ----- total correctness -----

  /** On a truthful switch the write returns normally exactly when the caller is allowed, the VLAN
      exists and some column assignment expresses the wanted membership; the port then has it, no
      other port moves, and while VLAN 1 exists an error leaves every column as it was. */
  lemma TruthfulWrite(t: Table, protectedPorts: set<int>, vlan: int, port: int, mode: VlanMode, force: bool)
    requires VlanIds(t.existing) && port in t.rows
    ensures var finish := WriteMembership(Truthful(), t, protectedPorts, vlan, port, mode, force);
            var wanted := Wanted(vlan, mode, Shown(t, port));
            && (finish.result.Ok? <==>
                  (port !in protectedPorts || force) && vlan in t.existing && Expressible(wanted, t.existing))
            && (finish.result.Ok? ==> Shown(finish.state, port) == wanted)
            && (finish.result.Err? && DEFAULT_VLAN in t.existing ==> finish.state == t)
            && OnlyPortMoved(t, finish.state, port)
  {
    MirrorIsTruthful(t, port);
    if (port !in protectedPorts || force) && vlan in t.existing {
      TruthfulSwitchport(t, vlan, port, mode);
    }
  }

  /** A port the switch does not have is never written: the first SET is refused, or the planner refuses. */
  lemma UnknownPortRejected(t: Table, protectedPorts: set<int>, vlan: int, port: int, mode: VlanMode, force: bool)
    requires VlanIds(t.existing) && port !in t.rows && vlan in t.existing && (port !in protectedPorts || force)
    ensures var finish := WriteMembership(Truthful(), t, protectedPorts, vlan, port, mode, force);
            (finish.result == Err(Rejected) || finish.result == Err(Unsupported)) && finish.state == t
  {
    MirrorIsTruthful(t, port);
    var allowed := Encode({}, VLAN_BITMAP_BYTES);
    var planned := PlanMembership(vlan, port, mode, None, allowed, Shown(t, port), t.existing);
    PlanShape(vlan, port, mode, None, allowed, Shown(t, port), t.existing);
    if planned.Ok? {
      assert Truthful().onSet(t, planned.value.varbinds[0]) == SetInTable(t, planned.value.varbinds[0]) == (false, t);
    }
  }

  ghost predicate OnlyPortMoved(before: Table, after: Table, port: int) {
    && after.existing == before.existing && after.rows.Keys == before.rows.Keys
    && forall p :: p != port ==> Shown(after, p) == Shown(before, p)
  }

  lemma WithRowMovesOnly(t: Table, port: int, row: PortRow)
    requires port in t.rows
    ensures OnlyPortMoved(t, WithRow(t, port, row), port)
    ensures Shown(WithRow(t, port, row), port) == Derive(row, t.existing)
  {
  }

  /** `after` is `before` with the plan's SETs carried out on the port's row. */
  ghost predicate RanPlan(before: Table, after: Table, vlan: int, port: int, mode: VlanMode)
    requires port in before.rows
  {
    var row := before.rows[port];
    var planned := PlanFor(row, before.existing, vlan, port, mode);
    && planned.Ok?
    && RunSets(row, planned.value.varbinds, before.existing).Some?
    && after == WithRow(before, port, RunSets(row, planned.value.varbinds, before.existing).value)
  }

  lemma TruthfulSwitchport(t: Table, vlan: int, port: int, mode: VlanMode)
    requires VlanIds(t.existing) && port in t.rows && vlan in t.existing
    ensures var finish := WriteSwitchport(Truthful(), t, vlan, port, mode, MirrorUpTo(t, 4096));
            var wanted := Wanted(vlan, mode, Shown(t, port));
            && (finish.result.Ok? <==> Expressible(wanted, t.existing))
            && (finish.result.Ok? ==> Shown(finish.state, port) == wanted)
            && (finish.result.Ok? ==> RanPlan(t, finish.state, vlan, port, mode))
            && (finish.result.Err? && DEFAULT_VLAN in t.existing ==> finish.state == t)
            && OnlyPortMoved(t, finish.state, port)
  {
    var row := t.rows[port];
    MirrorIsTruthful(t, port);
    RefusalsAreExact(row, t.existing, vlan, port, mode);
    PlanShape(vlan, port, mode, Some(row.mode), row.allowed, Derive(row, t.existing), t.existing);
    var planned := PlanFor(row, t.existing, vlan, port, mode);
    if planned.Ok? {
      PlanLands(row, t.existing, vlan, port, mode);
      IssuedPlan(t, port, vlan, planned.value);
    }
  }

  /** Issuing a plan's SETs and reading back verifies exactly when the row they run to derives the target. */
  lemma IssuedPlan(t: Table, port: int, vlan: int, plan: Plan)
    requires VlanIds(t.existing) && port in t.rows && vlan in t.existing
    requires forall i :: 0 <= i < |plan.varbinds| ==> plan.varbinds[i].port == port
    ensures var issued := Issue(Truthful(), t, plan.varbinds);
            var run := RunSets(t.rows[port], plan.varbinds, t.existing);
            && issued.0 == run.Some?
            && OnlyPortMoved(t, issued.1, port)
            && (run.Some? ==>
                  && issued.1 == WithRow(t, port, run.value)
                  && Shown(issued.1, port) == Derive(run.value, t.existing)
                  && (Verified(plan, vlan, port, MirrorUpTo(issued.1, 4096))
                      <==> Derive(run.value, t.existing) == plan.Target()))
  {
    var row := IssueRunsRow(t, port, plan.varbinds);
    var issued := Issue(Truthful(), t, plan.varbinds);
    WithRowMovesOnly(t, port, row);
    MirrorIsTruthful(issued.1, port);
    var run := RunSets(t.rows[port], plan.varbinds, t.existing);
    if run.Some? {
      WithRowMovesOnly(t, port, run.value);
    }
  }

  /** A write that returned normally, issued again, returns normally again and leaves the whole switch,
      bitmap octets included, as it is. */
  lemma ReissueChangesNothing(t: Table, protectedPorts: set<int>, vlan: int, port: int, mode: VlanMode, force: bool)
    requires VlanIds(t.existing) && port in t.rows
    requires (port !in protectedPorts || force) && vlan in t.existing
    requires PlanFor(t.rows[port], t.existing, vlan, port, mode).Ok?
             && UntaggedHome(t.rows[port], t.existing, vlan, mode)
    ensures WriteMembership(Truthful(), t, protectedPorts, vlan, port, mode, force).result.Ok?
    ensures var once := WriteMembership(Truthful(), t, protectedPorts, vlan, port, mode, force).state;
            var again := WriteMembership(Truthful(), once, protectedPorts, vlan, port, mode, force);
            again.result.Ok? && again.state == once
  {
    MirrorIsTruthful(t, port);
    TruthfulSwitchport(t, vlan, port, mode);
    var once := WriteMembership(Truthful(), t, protectedPorts, vlan, port, mode, force).state;
    var row := t.rows[port];
    RefusalsAreExact(row, t.existing, vlan, port, mode);
    ReissueIsFixpoint(row, t.existing, vlan, port, mode);
    MirrorIsTruthful(once, port);
    RefusalsAreExact(once.rows[port], t.existing, vlan, port, mode);
    PlanLands(once.rows[port], t.existing, vlan, port, mode);
    TruthfulSwitchport(once, vlan, port, mode);
    WithRowTwice(t, port, once.rows[port], once.rows[port]);
  }

  // ----- whole runs -----

  datatype Request = Request(vlan: int, port: int, mode: VlanMode, force: bool)

  function RunWrites(t: Table, protectedPorts: set<int>, requests: seq<Request>): Table
    decreases |requests|
  {
    if requests == [] then t
    else
      var q := requests[0];
      var next := WriteMembership(Truthful(), t, protectedPorts, q.vlan, q.port, q.mode, q.force).state;
      RunWrites(next, protectedPorts, requests[1..])
  }

  /** What a request does to its port's row: a matter of that row, the VLANs and the guard alone. */
  function RowWrite(row: PortRow, existing: set<int>, protectedPorts: set<int>, q: Request): PortRow {
    if (q.port in protectedPorts && !q.force) || q.vlan !in existing then row
    else match PlanFor(row, existing, q.vlan, q.port, q.mode)
      case Err(_) => row
      case Ok(plan) => RunSoFar(row, plan.varbinds, existing)
  }

  lemma WriteIsRowWrite(t: Table, protectedPorts: set<int>, q: Request)
    requires VlanIds(t.existing) && q.port in t.rows
    ensures WriteMembership(Truthful(), t, protectedPorts, q.vlan, q.port, q.mode, q.force).state
         == WithRow(t, q.port, RowWrite(t.rows[q.port], t.existing, protectedPorts, q))
  {
    var row := t.rows[q.port];
    MirrorIsTruthful(t, q.port);
    WithRowTwice(t, q.port, row, row);
    PlanShape(q.vlan, q.port, q.mode, Some(row.mode), row.allowed, Derive(row, t.existing), t.existing);
    var planned := PlanFor(row, t.existing, q.vlan, q.port, q.mode);
    if planned.Ok? {
      var _ := IssueRunsRow(t, q.port, planned.value.varbinds);
    }
  }

  /** The requests of a run that name one port, applied to that port's row. */
  function RowRun(row: PortRow, existing: set<int>, protectedPorts: set<int>, requests: seq<Request>,
                  port: int): PortRow
    decreases |requests|
  {
    if requests == [] then row
    else
      var q := requests[0];
      RowRun(if q.port == port then RowWrite(row, existing, protectedPorts, q) else row,
             existing, protectedPorts, requests[1..], port)
  }

  /** Over any run of requests, in any interleaving, each port's row ends where its own requests alone
      take it: writes to different ports do not interfere, and no VLAN comes or goes. */
  lemma {:induction false} RunIsPortwise(t: Table, protectedPorts: set<int>, requests: seq<Request>, port: int)
    requires VlanIds(t.existing) && port in t.rows
    requires forall q :: q in requests ==> q.port in t.rows
    ensures var end := RunWrites(t, protectedPorts, requests);
            && end.existing == t.existing && end.rows.Keys == t.rows.Keys
            && end.rows[port] == RowRun(t.rows[port], t.existing, protectedPorts, requests, port)
    decreases |requests|
  {
    if requests != [] {
      var q := requests[0];
      assert q in requests;
      WriteIsRowWrite(t, protectedPorts, q);
      var next := WriteMembership(Truthful(), t, protectedPorts, q.vlan, q.port, q.mode, q.force).state;
      forall r | r in requests[1..] ensures r in requests { }
      RunIsPortwise(next, protectedPorts, requests[1..], port);
    }
  }

  /** In particular a port named by no request, or only by unforced ones while protected, keeps its row. */
  lemma {:induction false} RunLeavesOthers(t: Table, protectedPorts: set<int>, requests: seq<Request>, port: int)
    requires VlanIds(t.existing) && port in t.rows
    requires forall q :: q in requests ==> q.port in t.rows
    requires forall q :: q in requests && q.port == port ==> port in protectedPorts && !q.force
    ensures RunWrites(t, protectedPorts, requests).rows.Keys == t.rows.Keys
    ensures RunWrites(t, protectedPorts, requests).rows[port] == t.rows[port]
  {
    RunIsPortwise(t, protectedPorts, requests, port);
    UntouchedRowRun(t.rows[port], t.existing, protectedPorts, requests, port);
  }

  lemma {:induction false} UntouchedRowRun(row: PortRow, existing: set<int>, protectedPorts: set<int>,
                                           requests: seq<Request>, port: int)
    requires forall q :: q in requests && q.port == port ==> port in protectedPorts && !q.force
    ensures RowRun(row, existing, protectedPorts, requests, port) == row
    decreases |requests|
  {
    if requests != [] {
      assert requests[0] in requests;
      forall r | r in requests[1..] ensures r in requests { }
      UntouchedRowRun(row, existing, protectedPorts, requests[1..], port);
    }
  }
}
