/** The FASTPATH switchport control plane: how a port's columns yield its VLAN
    membership, and the planner that turns a wanted membership into column
    writes (snmp_write.py and virtual/state.py). */
module Switchport {
  import opened Models
  import opened Bitmaps

  const DEFAULT_VLAN := 1
  const MODE_ACCESS := 1
  const MODE_TRUNK := 2
  const MODE_GENERAL := 3

  // ----- the device -----

  /** One port's row of the vendor switchport table. */
  datatype PortRow = PortRow(
    mode: int,
    access: int,
    native: int,
    allowed: Octets,
    generalUntagged: set<int>,
    generalTagged: set<int>)

  datatype Membership = Membership(tagged: set<int>, untagged: set<int>) {
    function All(): set<int> { tagged + untagged }
  }

  /** The membership the Q-BRIDGE mirrors show for a row, over the VLANs that exist. */
  function Derive(row: PortRow, existing: set<int>): Membership {
    if row.mode == MODE_ACCESS then
      Membership({}, {row.access} * existing)
    else if row.mode == MODE_TRUNK then
      Membership((Decode(row.allowed) * existing) - {row.native}, {row.native} * existing)
    else
      Membership((row.generalTagged - row.generalUntagged) * existing, row.generalUntagged * existing)
  }

  /** One SET of one column of one port. */
  datatype Varbind =
    | SetAllowed(port: int, bits: Octets)
    | SetNative(port: int, vlan: int)
    | SetAccess(port: int, vlan: int)
    | SetMode(port: int, mode: int)

  /** The row after a SET, or None for commitFailed: a native VLAN must exist. */
  function SetColumn(row: PortRow, vb: Varbind, existing: set<int>): Option<PortRow> {
    match vb
    case SetAllowed(_, bits) => Some(row.(allowed := bits))
    case SetNative(_, vlan) => if vlan in existing then Some(row.(native := vlan)) else None
    case SetAccess(_, vlan) => Some(row.(access := vlan))
    case SetMode(_, mode) => Some(row.(mode := mode))
  }

  function RunSets(row: PortRow, vbs: seq<Varbind>, existing: set<int>): Option<PortRow>
    decreases |vbs|
  {
    if vbs == [] then Some(row)
    else match SetColumn(row, vbs[0], existing)
      case None => None
      case Some(next) => RunSets(next, vbs[1..], existing)
  }

  /** Where a row stands when the SETs stop, at the end or at the first refusal. */
  function RunSoFar(row: PortRow, vbs: seq<Varbind>, existing: set<int>): PortRow
    decreases |vbs|
  {
    if vbs == [] then row
    else match SetColumn(row, vbs[0], existing)
      case None => row
      case Some(next) => RunSoFar(next, vbs[1..], existing)
  }

  // ----- the planner -----

  datatype Plan = Plan(untaggedVlan: int, taggedVlans: set<int>, varbinds: seq<Varbind>) {
    function Target(): Membership { Membership(taggedVlans, {untaggedVlan}) }
  }

  function WantTagged(vlan: int, mode: VlanMode, tagged: set<int>): set<int> {
    if mode.Tagged? then tagged + {vlan} else tagged - {vlan}
  }

  function WantUntagged(vlan: int, mode: VlanMode, untagged: set<int>): set<int> {
    if mode.Untagged? then {vlan} else untagged - {vlan}
  }

  /** The columns to write, data before the mode selector. */
  function ColumnSets(port: int, untagged: int, tagged: set<int>, currentMode: Option<int>,
                      currentAllowed: Octets, existing: set<int>): seq<Varbind> {
    if tagged == {} then
      [SetAccess(port, untagged), SetMode(port, MODE_ACCESS)]
    else
      var allowed :=
        if currentMode == Some(MODE_TRUNK) then
          EditedVlanBits(currentAllowed, {untagged} + tagged, existing - tagged - {untagged})
        else
          Encode({untagged} + tagged, VLAN_BITMAP_BYTES);
      [SetAllowed(port, allowed), SetNative(port, untagged), SetMode(port, MODE_TRUNK)]
  }

  function PlanMembership(vlan: int, port: int, mode: VlanMode, currentMode: Option<int>, currentAllowed: Octets,
                          current: Membership, existing: set<int>): Result<Plan> {
    var wantTagged := WantTagged(vlan, mode, current.tagged);
    var wantUntagged := WantUntagged(vlan, mode, current.untagged);
    if |wantUntagged| > 1 then Err(Unsupported)
    else if wantUntagged == {} && DEFAULT_VLAN in wantTagged then Err(Unsupported)
    else
      var untagged := if wantUntagged == {} then DEFAULT_VLAN else TheOnly(wantUntagged);
      Ok(Plan(untagged, wantTagged,
              ColumnSets(port, untagged, wantTagged, currentMode, currentAllowed, existing)))
  }

  /** A plan is two or three SETs, all of the requested port; a refusal is always a capability refusal. */
  lemma PlanShape(vlan: int, port: int, mode: VlanMode, currentMode: Option<int>, currentAllowed: Octets,
                  current: Membership, existing: set<int>)
    ensures match PlanMembership(vlan, port, mode, currentMode, currentAllowed, current, existing)
            case Err(e) => e == Unsupported
            case Ok(plan) =>
              2 <= |plan.varbinds| <= 3 && forall i :: 0 <= i < |plan.varbinds| ==> plan.varbinds[i].port == port
  {
  }

  /** The plan for a port the device describes truthfully. */
  function PlanFor(row: PortRow, existing: set<int>, vlan: int, port: int, mode: VlanMode): Result<Plan> {
    PlanMembership(vlan, port, mode, Some(row.mode), row.allowed, Derive(row, existing), existing)
  }

  /** Some untagged VLAN remains wanted, or the fallback VLAN exists: what a caller can see before asking. */
  predicate UntaggedHome(row: PortRow, existing: set<int>, vlan: int, mode: VlanMode) {
    WantUntagged(vlan, mode, Derive(row, existing).untagged) != {} || DEFAULT_VLAN in existing
  }

  ghost predicate VlanIds(s: set<int>) {
    forall v :: v in s ==> 1 <= v <= 8 * VLAN_BITMAP_BYTES
  }

  // ----- what a plan's target is -----

  /** An accepted target is disjoint, and contains nothing but existing VLANs and the default. */
  lemma TargetShape(row: PortRow, existing: set<int>, vlan: int, port: int, mode: VlanMode)
    requires vlan in existing
    requires PlanFor(row, existing, vlan, port, mode).Ok?
    ensures var plan := PlanFor(row, existing, vlan, port, mode).value;
            && plan.untaggedVlan !in plan.taggedVlans
            && plan.taggedVlans <= existing
            && (plan.untaggedVlan in existing || plan.untaggedVlan == DEFAULT_VLAN)
            && (plan.untaggedVlan in existing <==> UntaggedHome(row, existing, vlan, mode))
  {
    var wantUntagged := WantUntagged(vlan, mode, Derive(row, existing).untagged);
    if wantUntagged != {} { assert wantUntagged == {TheOnly(wantUntagged)}; }
  }

  /** The allowed list a plan writes names, among existing VLANs, exactly the target. */
  lemma PlannedAllowedList(row: PortRow, existing: set<int>, untagged: int, tagged: set<int>)
    requires VlanIds({untagged} + tagged)
    requires tagged != {}
    ensures var allowed := ColumnSets(0, untagged, tagged, Some(row.mode), row.allowed, existing)[0].bits;
            && Decode(allowed) * existing == ({untagged} + tagged) * existing
            && (row.mode == MODE_TRUNK ==>
                 forall v :: v !in existing + {untagged} + tagged ==>
                   (v in Decode(allowed) <==> v in Decode(row.allowed)))
  {
    if row.mode == MODE_TRUNK {
      EditFlipsOnlyNamedBits(row.allowed, {untagged} + tagged, existing - tagged - {untagged});
    } else {
      DecodeEncode({untagged} + tagged, VLAN_BITMAP_BYTES);
    }
  }

  // ----- the plan lands -----

  lemma RunCons(row: PortRow, vb: Varbind, rest: seq<Varbind>, existing: set<int>)
    ensures RunSets(row, [vb] + rest, existing)
         == match SetColumn(row, vb, existing) { case None => None case Some(next) => RunSets(next, rest, existing) }
  {
    assert ([vb] + rest)[1..] == rest;
  }

  /** The trunk form, prefix by prefix. */
  lemma TrunkSets(row: PortRow, port: int, bits: Octets, native: int, existing: set<int>)
    ensures var vbs := [SetAllowed(port, bits), SetNative(port, native), SetMode(port, MODE_TRUNK)];
            var filled := row.(allowed := bits, native := native);
            && RunSets(row, vbs[..0], existing) == Some(row)
            && RunSets(row, vbs[..1], existing) == Some(row.(allowed := bits))
            && RunSets(row, vbs[..2], existing) == (if native in existing then Some(filled) else None)
            && RunSets(row, vbs[..3], existing)
               == (if native in existing then Some(filled.(mode := MODE_TRUNK)) else None)
  {
    var a, n, m := SetAllowed(port, bits), SetNative(port, native), SetMode(port, MODE_TRUNK);
    var row1, row2 := row.(allowed := bits), row.(allowed := bits, native := native);
    assert [a, n, m][..1] == [a] + [] && [a, n, m][..2] == [a] + ([n] + [])
           && [a, n, m][..3] == [a] + ([n] + ([m] + []));
    RunCons(row, a, [], existing); RunCons(row, a, [n] + [], existing); RunCons(row, a, [n] + ([m] + []), existing);
    RunCons(row1, n, [], existing); RunCons(row1, n, [m] + [], existing);
    RunCons(row2, m, [], existing);
  }

  /** The access form, prefix by prefix. */
  lemma AccessSets(row: PortRow, port: int, access: int, existing: set<int>)
    ensures var vbs := [SetAccess(port, access), SetMode(port, MODE_ACCESS)];
            && RunSets(row, vbs[..0], existing) == Some(row)
            && RunSets(row, vbs[..1], existing) == Some(row.(access := access))
            && RunSets(row, vbs[..2], existing) == Some(row.(access := access, mode := MODE_ACCESS))
  {
    var c, m := SetAccess(port, access), SetMode(port, MODE_ACCESS);
    assert [c, m][..1] == [c] + [] && [c, m][..2] == [c] + ([m] + []);
    RunCons(row, c, [], existing); RunCons(row, c, [m] + [], existing);
    RunCons(row.(access := access), m, [], existing);
  }

  /** The row an accepted plan leaves behind. */
  function RowAfter(row: PortRow, untagged: int, tagged: set<int>, existing: set<int>): PortRow {
    if tagged == {} then row.(access := untagged, mode := MODE_ACCESS)
    else row.(allowed := ColumnSets(0, untagged, tagged, Some(row.mode), row.allowed, existing)[0].bits,
              native := untagged, mode := MODE_TRUNK)
  }

  lemma ColumnSetsRun(row: PortRow, existing: set<int>, port: int, untagged: int, tagged: set<int>)
    ensures RunSets(row, ColumnSets(port, untagged, tagged, Some(row.mode), row.allowed, existing), existing)
         == if tagged != {} && untagged !in existing then None else Some(RowAfter(row, untagged, tagged, existing))
  {
    var vbs := ColumnSets(port, untagged, tagged, Some(row.mode), row.allowed, existing);
    assert vbs[..|vbs|] == vbs;
    if tagged == {} {
      AccessSets(row, port, untagged, existing);
    } else {
      TrunkSets(row, port, vbs[0].bits, untagged, existing);
    }
  }

  lemma RowAfterDerives(row: PortRow, existing: set<int>, untagged: int, tagged: set<int>)
    requires VlanIds({untagged} + tagged)
    requires tagged <= existing && untagged !in tagged
    ensures Derive(RowAfter(row, untagged, tagged, existing), existing) == Membership(tagged, {untagged} * existing)
  {
    if tagged != {} {
      PlannedAllowedList(row, existing, untagged, tagged);
    }
  }

  /** Running an accepted plan on a truthful device leaves the port with exactly the
      planned membership, whichever mode it was in; the one obstacle is a request that leaves the
      port untagged nowhere on a switch without VLAN 1. */
  lemma PlanLands(row: PortRow, existing: set<int>, vlan: int, port: int, mode: VlanMode)
    requires VlanIds(existing) && vlan in existing
    requires PlanFor(row, existing, vlan, port, mode).Ok?
    ensures var plan := PlanFor(row, existing, vlan, port, mode).value;
            var final := RunSets(row, plan.varbinds, existing);
            final.Some? && Derive(final.value, existing) == plan.Target() <==> UntaggedHome(row, existing, vlan, mode)
  {
    var plan := PlanFor(row, existing, vlan, port, mode).value;
    TargetShape(row, existing, vlan, port, mode);
    ColumnSetsRun(row, existing, port, plan.untaggedVlan, plan.taggedVlans);
    RowAfterDerives(row, existing, plan.untaggedVlan, plan.taggedVlans);
    if plan.untaggedVlan !in existing {
      assert plan.untaggedVlan in plan.Target().untagged;
    }
  }

  /** The obstacle is real: on a switch without VLAN 1, excluding a port from the only VLAN it is untagged in
      is accepted, every SET is too, and the port ends in no VLAN at all, not in the planned one. */
  lemma FallbackToMissingVlan(port: int)
    ensures var row := PortRow(MODE_ACCESS, 10, 10, AllAllowed(), {}, {});
            var plan := PlanFor(row, {10, 20}, 10, port, Excluded);
            && !UntaggedHome(row, {10, 20}, 10, Excluded)
            && plan.Ok? && plan.value.Target() == Membership({}, {1})
            && RunSets(row, plan.value.varbinds, {10, 20}).Some?
            && Derive(RunSets(row, plan.value.varbinds, {10, 20}).value, {10, 20}) == Membership({}, {})
  {
    var row := PortRow(MODE_ACCESS, 10, 10, AllAllowed(), {}, {});
    assert Derive(row, {10, 20}) == Membership({}, {10});
    assert WantUntagged(10, Excluded, {10}) == {} && WantTagged(10, Excluded, {}) == {};
    ColumnSetsRun(row, {10, 20}, port, 1, {});
  }

  // ----- every prefix is safe -----

  ghost predicate Between(now: set<int>, before: set<int>, target: set<int>) {
    before * target <= now <= before + target
  }

  ghost predicate SafeState(now: Membership, before: Membership, target: Membership) {
    && Between(now.All(), before.All(), target.All())
    && (now.untagged == before.untagged || now.untagged <= target.untagged)
  }

  /** A port already in trunk mode, its new allowed list in place and its old native VLAN still standing. */
  lemma HalfwaySafe(row: PortRow, existing: set<int>, bits: Octets, untagged: int, tagged: set<int>)
    requires row.mode == MODE_TRUNK && tagged <= existing && untagged !in tagged
    requires Decode(bits) * existing == ({untagged} + tagged) * existing
    ensures SafeState(Derive(row.(allowed := bits), existing), Derive(row, existing), Membership(tagged, {untagged}))
  {
    var now := Derive(row.(allowed := bits), existing);
    assert now.tagged == (({untagged} + tagged) * existing) - {row.native};
  }

  lemma EndpointsSafe(before: Membership, target: Membership)
    ensures SafeState(before, before, target)
    ensures SafeState(target, before, target)
  {
  }

  /** The columns in force give the target once list and native VLAN both stand in a trunk row. */
  lemma FilledTrunkDerives(row: PortRow, existing: set<int>, untagged: int, tagged: set<int>)
    requires row.mode == MODE_TRUNK && row.native == untagged && untagged in existing
    requires tagged <= existing && untagged !in tagged
    requires Decode(row.allowed) * existing == ({untagged} + tagged) * existing
    ensures Derive(row, existing) == Membership(tagged, {untagged})
  {
  }

  lemma TrunkPrefixesSafe(row: PortRow, existing: set<int>, port: int, untagged: int, tagged: set<int>, k: nat)
    requires VlanIds({untagged} + tagged)
    requires tagged != {} && tagged <= existing && untagged !in tagged && k <= 3
    ensures var vbs := ColumnSets(port, untagged, tagged, Some(row.mode), row.allowed, existing);
            var reached := RunSets(row, vbs[..k], existing);
            reached.Some? ==>
              SafeState(Derive(reached.value, existing), Derive(row, existing), Membership(tagged, {untagged}))
  {
    var bits := ColumnSets(port, untagged, tagged, Some(row.mode), row.allowed, existing)[0].bits;
    PlannedAllowedList(row, existing, untagged, tagged);
    TrunkPrefixSafe(row, existing, port, bits, untagged, tagged, k);
  }

  lemma TrunkPrefixSafe(row: PortRow, existing: set<int>, port: int, bits: Octets, untagged: int, tagged: set<int>,
                        k: nat)
    requires tagged <= existing && untagged !in tagged && k <= 3
    requires Decode(bits) * existing == ({untagged} + tagged) * existing
    ensures var vbs := [SetAllowed(port, bits), SetNative(port, untagged), SetMode(port, MODE_TRUNK)];
            var reached := RunSets(row, vbs[..k], existing);
            reached.Some? ==>
              SafeState(Derive(reached.value, existing), Derive(row, existing), Membership(tagged, {untagged}))
  {
    TrunkSets(row, port, bits, untagged, existing);
    EndpointsSafe(Derive(row, existing), Membership(tagged, {untagged}));
    var filled := row.(allowed := bits, native := untagged);
    if row.mode == MODE_TRUNK {
      HalfwaySafe(row, existing, bits, untagged, tagged);
      if untagged in existing { FilledTrunkDerives(filled, existing, untagged, tagged); }
    } else {
      assert Derive(filled, existing) == Derive(row, existing);
    }
    if untagged in existing { FilledTrunkDerives(filled.(mode := MODE_TRUNK), existing, untagged, tagged); }
  }

  lemma AccessPrefixesSafe(row: PortRow, existing: set<int>, port: int, untagged: int, k: nat)
    requires k <= 2
    ensures var vbs := ColumnSets(port, untagged, {}, Some(row.mode), row.allowed, existing);
            var reached := RunSets(row, vbs[..k], existing);
            reached.Some? ==>
              SafeState(Derive(reached.value, existing), Derive(row, existing), Membership({}, {untagged}))
  {
    AccessSets(row, port, untagged, existing);
  }

  /** Cut the SET sequence anywhere: the port is in no VLAN it was not in before or is
      not meant to end in, keeps every VLAN common to both, and its untagged VLANs are
      the old ones or the planned one. */
  lemma EveryPrefixIsSafe(row: PortRow, existing: set<int>, vlan: int, port: int, mode: VlanMode, k: nat)
    requires VlanIds(existing) && vlan in existing
    requires PlanFor(row, existing, vlan, port, mode).Ok?
    requires k <= |PlanFor(row, existing, vlan, port, mode).value.varbinds|
    ensures var plan := PlanFor(row, existing, vlan, port, mode).value;
            var reached := RunSets(row, plan.varbinds[..k], existing);
            reached.Some? ==> SafeState(Derive(reached.value, existing), Derive(row, existing), plan.Target())
  {
    var plan := PlanFor(row, existing, vlan, port, mode).value;
    TargetShape(row, existing, vlan, port, mode);
    if plan.taggedVlans == {} {
      AccessPrefixesSafe(row, existing, port, plan.untaggedVlan, k);
    } else {
      TrunkPrefixesSafe(row, existing, port, plan.untaggedVlan, plan.taggedVlans, k);
    }
  }

  /** Had the mode been written first on a port whose stale list holds every VLAN, the port
      would for a moment join every VLAN of the switch: safe only where it belongs in all of them. */
  lemma ModeFirstOvergrants(row: PortRow, existing: set<int>, vlan: int, port: int, mode: VlanMode)
    requires row.mode != MODE_TRUNK && existing <= Decode(row.allowed)
    requires PlanFor(row, existing, vlan, port, mode).Ok?
    ensures var target := PlanFor(row, existing, vlan, port, mode).value.Target();
            var before := Derive(row, existing);
            var early := Derive(row.(mode := MODE_TRUNK), existing);
            Between(early.All(), before.All(), target.All()) <==> existing <= before.All() + target.All()
  {
    var early := Derive(row.(mode := MODE_TRUNK), existing);
    assert early.All() == existing;
    assert Derive(row, existing).All() <= existing;
  }

  /** The octets of a factory-default allowed list: VLANs 1 to 4093. */
  function AllAllowed(): Octets { seq(511, _ => 0xFF) + [0xF8] }

  lemma AllAllowedNames(v: int)
    ensures v in Decode(AllAllowed()) <==> 1 <= v <= 4093
  {
    if 1 <= v <= 4096 {
      var i, off := (v - 1) / 8, (v - 1) % 8;
      assert AllAllowed()[i] == if i < 511 then 0xFF else 0xF8;
      assert HasBit(0xFF, off) && (HasBit(0xF8, off) <==> off < 5);
      assert v == 8 * i + off + 1;
    }
  }

  /** A factory-default row: access VLAN 1, every one of the 4093 VLANs allowed. */
  function FactoryRow(): PortRow {
    PortRow(MODE_ACCESS, 1, 1, AllAllowed(), {1}, {})
  }

  lemma FactoryTagging(port: int)
    ensures var plan := PlanFor(FactoryRow(), {1, 10, 20}, 10, port, Tagged);
            plan.Ok? && plan.value.Target() == Membership({10}, {1})
  {
    var now := Derive(FactoryRow(), {1, 10, 20});
    assert now == Membership({}, {1});
    assert WantUntagged(10, Tagged, now.untagged) == {1} && WantTagged(10, Tagged, now.tagged) == {10};
  }

  /** A switch with VLANs 1, 10 and 20: tagging a factory-default port into 10 would, mode first, hand it 20. */
  lemma ModeFirstBreaksFactoryPort(port: int)
    ensures var plan := PlanFor(FactoryRow(), {1, 10, 20}, 10, port, Tagged);
            && plan.Ok? && plan.value.Target() == Membership({10}, {1})
            && !Between(Derive(FactoryRow().(mode := MODE_TRUNK), {1, 10, 20}).All(),
                        Derive(FactoryRow(), {1, 10, 20}).All(), {1, 10})
  {
    FactoryTagging(port);
    AllAllowedNames(20);
    assert 20 in Derive(FactoryRow().(mode := MODE_TRUNK), {1, 10, 20}).tagged;
  }

  // ----- refusals are exact -----

  /** The membership a request asks for, with the default VLAN standing in for "untagged nowhere". */
  function Wanted(vlan: int, mode: VlanMode, current: Membership): Membership {
    var untagged := WantUntagged(vlan, mode, current.untagged);
    Membership(WantTagged(vlan, mode, current.tagged), if untagged == {} then {DEFAULT_VLAN} else untagged)
  }

  /** Some access or trunk row derives `target`. */
  ghost predicate Expressible(target: Membership, existing: set<int>) {
    exists row: PortRow :: (row.mode == MODE_ACCESS || row.mode == MODE_TRUNK) && Derive(row, existing) == target
  }

  /** Access and trunk rows express exactly one existing untagged VLAN beside existing tagged ones. */
  lemma ExpressibleTargets(target: Membership, existing: set<int>)
    requires VlanIds(existing)
    requires target.untagged != {}
    ensures Expressible(target, existing) <==>
              |target.untagged| == 1 && target.untagged <= existing
              && target.tagged <= existing && target.tagged !! target.untagged
  {
    if Expressible(target, existing) {
      ExpressibleIsOneHome(target, existing);
    } else if |target.untagged| == 1 && target.untagged <= existing && target.tagged <= existing
        && target.tagged !! target.untagged {
      OneHomeIsExpressible(target, existing);
    }
  }

  lemma ExpressibleIsOneHome(target: Membership, existing: set<int>)
    requires Expressible(target, existing) && target.untagged != {}
    ensures |target.untagged| == 1 && target.untagged <= existing && target.tagged <= existing
            && target.tagged !! target.untagged
  {
    var row: PortRow :| (row.mode == MODE_ACCESS || row.mode == MODE_TRUNK) && Derive(row, existing) == target;
    AtMostOne(target.untagged);
  }

  lemma OneHomeIsExpressible(target: Membership, existing: set<int>)
    requires VlanIds(existing)
    requires |target.untagged| == 1 && target.untagged <= existing && target.tagged <= existing
             && target.tagged !! target.untagged
    ensures Expressible(target, existing)
  {
    var native := TheOnly(target.untagged);
    TrunkRowDerives(target.tagged, native, existing);
    assert target == Membership(target.tagged, {native});
  }

  /** The trunk row that allows exactly `tagged` beside its native VLAN. */
  lemma TrunkRowDerives(tagged: set<int>, native: int, existing: set<int>)
    requires VlanIds(existing) && tagged <= existing && native in existing && native !in tagged
    ensures Derive(PortRow(MODE_TRUNK, 0, native, Encode(tagged, VLAN_BITMAP_BYTES), {}, {}), existing)
            == Membership(tagged, {native})
  {
    DecodeEncode(tagged, VLAN_BITMAP_BYTES);
    assert (tagged * existing) - {native} == tagged && {native} * existing == {native};
  }

  /** The planner accepts exactly what the columns can express, save that a fallback to
      a missing default VLAN is accepted although nothing expresses it. */
  lemma RefusalsAreExact(row: PortRow, existing: set<int>, vlan: int, port: int, mode: VlanMode)
    requires VlanIds(existing) && vlan in existing
    ensures var plan := PlanFor(row, existing, vlan, port, mode);
            var wanted := Wanted(vlan, mode, Derive(row, existing));
            && (plan.Ok? ==> plan.value.Target() == wanted)
            && (Expressible(wanted, existing) <==> plan.Ok? && UntaggedHome(row, existing, vlan, mode))
            && (DEFAULT_VLAN in existing ==> (plan.Err? <==> !Expressible(wanted, existing)))
  {
    var current := Derive(row, existing);
    var wanted := Wanted(vlan, mode, current);
    var untagged := WantUntagged(vlan, mode, current.untagged);
    ExpressibleTargets(wanted, existing);
    assert wanted.tagged <= existing && untagged <= existing && wanted.tagged !! untagged;
    AtMostOne(untagged);
    if PlanFor(row, existing, vlan, port, mode).Ok? {
      TargetShape(row, existing, vlan, port, mode);
      assert PlanFor(row, existing, vlan, port, mode).value.Target() == wanted;
    }
  }

  // ----- what an accepted request does to each VLAN -----

  /** For whatever membership was read: the named VLAN ends as asked, except that excluding the
      default VLAN does nothing when the port would otherwise be untagged nowhere; every other VLAN
      keeps its tagging and, unless UNTAGGED was asked, its untagged state, the default fallback apart. */
  lemma RequestHonoured(vlan: int, port: int, mode: VlanMode, currentMode: Option<int>, currentAllowed: Octets,
                        current: Membership, existing: set<int>)
    requires PlanMembership(vlan, port, mode, currentMode, currentAllowed, current, existing).Ok?
    ensures var plan := PlanMembership(vlan, port, mode, currentMode, currentAllowed, current, existing).value;
            var target := plan.Target();
            && ((ModeIn(target.All(), target.untagged, vlan) == mode) <==>
                  !(mode.Excluded? && vlan == DEFAULT_VLAN && current.untagged <= {DEFAULT_VLAN}))
            && (forall w :: w != vlan ==> (w in target.tagged <==> w in current.tagged))
            && (!mode.Untagged? ==> forall w :: w != vlan ==>
                  (w in target.untagged
                   <==> w in current.untagged || (w == DEFAULT_VLAN && current.untagged <= {vlan})))
  {
    var wantUntagged := WantUntagged(vlan, mode, current.untagged);
    var target := PlanMembership(vlan, port, mode, currentMode, currentAllowed, current, existing).value.Target();
    AtMostOne(wantUntagged);
    assert target.untagged == if wantUntagged == {} then {DEFAULT_VLAN} else wantUntagged;
  }

  /** Excluding VLAN 1 from a port untagged only there is accepted and changes nothing. */
  lemma ExcludingDefaultIsIgnored(port: int)
    ensures var plan := PlanFor(FactoryRow(), {1, 10}, 1, port, Excluded);
            plan.Ok? && plan.value.Target() == Membership({}, {1}) == Derive(FactoryRow(), {1, 10})
  {
    assert WantUntagged(1, Excluded, Derive(FactoryRow(), {1, 10}).untagged) == {};
    assert PlanFor(FactoryRow(), {1, 10}, 1, port, Excluded).value.Target() == Membership({}, {1});
  }

  // ----- re-issuing, and what stays untouched -----

  lemma AlreadyNamed(named: set<int>, wanted: set<int>, existing: set<int>)
    requires named * existing == wanted && wanted <= existing
    ensures (named + wanted) - (existing - wanted) == named
  {
  }

  lemma AllowedListStable(row: PortRow, existing: set<int>, untagged: int, tagged: set<int>)
    requires VlanIds(existing) && untagged in existing && tagged <= existing && tagged != {}
    ensures var after := RowAfter(row, untagged, tagged, existing);
            EditedVlanBits(after.allowed, {untagged} + tagged, existing - tagged - {untagged}) == after.allowed
  {
    var allowed := RowAfter(row, untagged, tagged, existing).allowed;
    PlannedAllowedList(row, existing, untagged, tagged);
    var wanted := {untagged} + tagged;
    assert Decode(allowed) * existing == wanted;
    AlreadyNamed(Decode(allowed), wanted, existing);
    assert existing - tagged - {untagged} == existing - wanted;
    assert |allowed| >= VLAN_BITMAP_BYTES;
    EncodeDecode(allowed);
  }

  /** A request that has landed is accepted again, with the same target, and its SETs leave
      the whole row, bitmap octets included, as it is. */
  lemma ReissueIsFixpoint(row: PortRow, existing: set<int>, vlan: int, port: int, mode: VlanMode)
    requires VlanIds(existing) && vlan in existing
    requires PlanFor(row, existing, vlan, port, mode).Ok?
    requires UntaggedHome(row, existing, vlan, mode)
    ensures var plan := PlanFor(row, existing, vlan, port, mode).value;
            var after := RunSets(row, plan.varbinds, existing);
            && after.Some?
            && var again := PlanFor(after.value, existing, vlan, port, mode);
            && again.Ok? && again.value.Target() == plan.Target()
            && RunSets(after.value, again.value.varbinds, existing) == after
  {
    var plan := PlanFor(row, existing, vlan, port, mode).value;
    var u, t := plan.untaggedVlan, plan.taggedVlans;
    TargetShape(row, existing, vlan, port, mode);
    ColumnSetsRun(row, existing, port, u, t);
    LandedIsPlannedAgain(row, existing, vlan, port, mode, u, t);
    ColumnSetsRun(RowAfter(row, u, t, existing), existing, port, u, t);
    RowStable(row, existing, u, t);
  }

  /** The row a plan leaves behind is planned the plan's own target. */
  lemma LandedIsPlannedAgain(row: PortRow, existing: set<int>, vlan: int, port: int, mode: VlanMode, untagged: int,
                             tagged: set<int>)
    requires VlanIds(existing) && untagged in existing && tagged <= existing && untagged !in tagged
    requires Wanted(vlan, mode, Derive(row, existing)) == Membership(tagged, {untagged})
    ensures var after := RowAfter(row, untagged, tagged, existing);
            var sets := ColumnSets(port, untagged, tagged, Some(after.mode), after.allowed, existing);
            PlanFor(after, existing, vlan, port, mode) == Ok(Plan(untagged, tagged, sets))
  {
    RowAfterDerives(row, existing, untagged, tagged);
    assert {untagged} * existing == {untagged};
    WantedIsStable(vlan, mode, Derive(row, existing), untagged, tagged);
    PlannedAgain(RowAfter(row, untagged, tagged, existing), existing, vlan, port, mode, untagged, tagged);
  }

  /** A port that already has the target is planned the same target. */
  lemma PlannedAgain(row: PortRow, existing: set<int>, vlan: int, port: int, mode: VlanMode, untagged: int,
                     tagged: set<int>)
    requires Derive(row, existing) == Membership(tagged, {untagged}) && untagged !in tagged
    requires Wanted(vlan, mode, Derive(row, existing)) == Membership(tagged, {untagged})
    requires WantUntagged(vlan, mode, {untagged}) == {} || WantUntagged(vlan, mode, {untagged}) == {untagged}
    ensures PlanFor(row, existing, vlan, port, mode)
         == Ok(Plan(untagged, tagged, ColumnSets(port, untagged, tagged, Some(row.mode), row.allowed, existing)))
  {
    AtMostOne(WantUntagged(vlan, mode, {untagged}));
  }

  /** The row a plan leaves behind is the row its own columns leave behind again. */
  lemma RowStable(row: PortRow, existing: set<int>, untagged: int, tagged: set<int>)
    requires VlanIds(existing) && untagged in existing && tagged <= existing
    ensures var after := RowAfter(row, untagged, tagged, existing);
            RowAfter(after, untagged, tagged, existing) == after
  {
    if tagged != {} {
      AllowedListStable(row, existing, untagged, tagged);
    }
  }

  lemma WantedIsStable(vlan: int, mode: VlanMode, current: Membership, untagged: int, tagged: set<int>)
    requires Wanted(vlan, mode, current) == Membership(tagged, {untagged})
    requires untagged !in tagged
    ensures Wanted(vlan, mode, Membership(tagged, {untagged})) == Membership(tagged, {untagged})
    ensures WantUntagged(vlan, mode, {untagged}) == {} || WantUntagged(vlan, mode, {untagged}) == {untagged}
  {
  }

  /** A plan leaves alone every column it does not need, and in trunk mode every allowed bit of
      a VLAN that does not exist. */
  lemma UntouchedColumns(row: PortRow, existing: set<int>, vlan: int, port: int, mode: VlanMode)
    requires VlanIds(existing) && vlan in existing
    requires PlanFor(row, existing, vlan, port, mode).Ok?
    requires RunSets(row, PlanFor(row, existing, vlan, port, mode).value.varbinds, existing).Some?
    ensures var plan := PlanFor(row, existing, vlan, port, mode).value;
            var after := RunSets(row, plan.varbinds, existing).value;
            && after.generalTagged == row.generalTagged && after.generalUntagged == row.generalUntagged
            && (plan.taggedVlans == {} ==> after.allowed == row.allowed && after.native == row.native)
            && (plan.taggedVlans != {} ==> after.access == row.access)
            && (row.mode == MODE_TRUNK ==>
                  forall v :: v !in existing ==> (v in Decode(after.allowed) <==> v in Decode(row.allowed)))
  {
    var plan := PlanFor(row, existing, vlan, port, mode).value;
    TargetShape(row, existing, vlan, port, mode);
    ColumnSetsRun(row, existing, port, plan.untaggedVlan, plan.taggedVlans);
    if plan.taggedVlans != {} {
      PlannedAllowedList(row, existing, plan.untaggedVlan, plan.taggedVlans);
    }
  }

  // ----- VLANs that do not exist yet -----

  /** A port that was not a trunk and becomes one allows exactly the VLANs of its target: nothing of the list it
      carried before, which a factory port has full, is left. */
  lemma FreshListIsTheTarget(row: PortRow, existing: set<int>, vlan: int, port: int, mode: VlanMode)
    requires VlanIds(existing) && vlan in existing && row.mode != MODE_TRUNK
    requires PlanFor(row, existing, vlan, port, mode).Ok? && UntaggedHome(row, existing, vlan, mode)
    requires PlanFor(row, existing, vlan, port, mode).value.taggedVlans != {}
    ensures var plan := PlanFor(row, existing, vlan, port, mode).value;
            var after := RunSets(row, plan.varbinds, existing);
            && after.Some? && Decode(after.value.allowed) == plan.Target().All()
            && |after.value.allowed| == 512
  {
    var plan := PlanFor(row, existing, vlan, port, mode).value;
    TargetShape(row, existing, vlan, port, mode);
    ColumnSetsRun(row, existing, port, plan.untaggedVlan, plan.taggedVlans);
    DecodeEncode({plan.untaggedVlan} + plan.taggedVlans, VLAN_BITMAP_BYTES);
  }

  /** What the port will carry once further VLANs are created: what was asked and nothing more, unless it was a
      trunk before, when the VLANs its own list already allowed come with it. */
  lemma FutureVlans(row: PortRow, existing: set<int>, vlan: int, port: int, mode: VlanMode, later: set<int>)
    requires VlanIds(existing) && vlan in existing && existing <= later
    requires PlanFor(row, existing, vlan, port, mode).Ok? && UntaggedHome(row, existing, vlan, mode)
    ensures var plan := PlanFor(row, existing, vlan, port, mode).value;
            var after := RunSets(row, plan.varbinds, existing);
            && after.Some?
            && var now := Derive(after.value, later);
               && now.untagged == {plan.untaggedVlan}
               && now.tagged == plan.taggedVlans
                                + (if row.mode != MODE_TRUNK || plan.taggedVlans == {} then {}
                                   else Decode(row.allowed) * (later - existing))
  {
    var plan := PlanFor(row, existing, vlan, port, mode).value;
    var u, t := plan.untaggedVlan, plan.taggedVlans;
    TargetShape(row, existing, vlan, port, mode);
    ColumnSetsRun(row, existing, port, u, t);
    RowAfterLater(row, existing, u, t, later);
  }

  /** The VLANs a row's own list adds once `later` exist. */
  function Inherited(row: PortRow, existing: set<int>, tagged: set<int>, later: set<int>): set<int> {
    if row.mode == MODE_TRUNK && tagged != {} then Decode(row.allowed) * (later - existing) else {}
  }

  /** What the list a plan writes names, wherever it is looked at. */
  lemma PlannedListNames(row: PortRow, existing: set<int>, untagged: int, tagged: set<int>, v: int)
    requires VlanIds({untagged} + tagged) && untagged in existing && tagged != {} && tagged <= existing
    ensures v in Decode(RowAfter(row, untagged, tagged, existing).allowed)
       <==> v == untagged || v in tagged || (row.mode == MODE_TRUNK && v !in existing && v in Decode(row.allowed))
  {
    if row.mode == MODE_TRUNK {
      EditFlipsOnlyNamedBits(row.allowed, {untagged} + tagged, existing - tagged - {untagged});
    } else {
      DecodeEncode({untagged} + tagged, VLAN_BITMAP_BYTES);
    }
  }

  lemma RowAfterLater(row: PortRow, existing: set<int>, untagged: int, tagged: set<int>, later: set<int>)
    requires VlanIds({untagged} + tagged) && untagged in existing && tagged <= existing <= later && untagged !in tagged
    ensures Derive(RowAfter(row, untagged, tagged, existing), later)
         == Membership(tagged + Inherited(row, existing, tagged, later), {untagged})
  {
    var now := Derive(RowAfter(row, untagged, tagged, existing), later);
    forall v ensures v in now.tagged <==> v in tagged + Inherited(row, existing, tagged, later) {
      if tagged != {} { PlannedListNames(row, existing, untagged, tagged, v); }
    }
    assert now.untagged == {untagged};
  }

  /** The factory port of a switch with VLANs 1, 10 and 20, tagged into 10, stays out of a VLAN 30 created later. */
  lemma FactoryPortStaysOut(port: int)
    ensures var plan := PlanFor(FactoryRow(), {1, 10, 20}, 10, port, Tagged);
            plan.Ok? &&
            var after := RunSets(FactoryRow(), plan.value.varbinds, {1, 10, 20});
            after.Some? && Derive(after.value, {1, 10, 20, 30}) == Membership({10}, {1})
  {
    FactoryTagging(port);
    FutureVlans(FactoryRow(), {1, 10, 20}, 10, port, Tagged, {1, 10, 20, 30});
  }
}
