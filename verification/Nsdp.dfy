/** NsdpWriter's VLAN operations (nsdp_write.py): a VLAN_MEMBERS record carries a VLAN's whole member and
    tagged sets, and having a record is what makes a VLAN exist. */
module Nsdp {
  import opened Models

  datatype Record = Record(members: set<int>, tagged: set<int>)

  /** `_members_after`: read-modify-write of the two sets for one port. */
  function MembersAfter(current: Option<Record>, port: int, mode: VlanMode): Record {
    var was := if current.Some? then current.value else Record({}, {});
    match mode
    case Excluded => Record(was.members - {port}, was.tagged - {port})
    case Tagged => Record(was.members + {port}, was.tagged + {port})
    case Untagged => Record(was.members + {port}, was.tagged - {port})
  }

  /** `_membership_ok`. */
  predicate MembershipOk(after: Option<Record>, port: int, mode: VlanMode) {
    match after
    case None => mode == Excluded
    case Some(row) =>
      if mode == Excluded then port !in row.members
      else port in row.members && (port in row.tagged <==> mode == Tagged)
  }

  predicate Consistent(row: Record) { row.tagged <= row.members }

  /** How a port takes part in a VLAN. */
  function PortMode(row: Option<Record>, port: int): VlanMode {
    if row.None? then Excluded else ModeIn(row.value.members, row.value.members - row.value.tagged, port)
  }

  /** The check the writer makes is, on a consistent record, exactly "the port is as asked". */
  lemma OkMeansAsAsked(after: Option<Record>, port: int, mode: VlanMode)
    requires after.Some? ==> Consistent(after.value)
    ensures MembershipOk(after, port, mode) <==> PortMode(after, port) == mode
  {
  }

  /** The update moves one port as asked, keeps tagged within members, and leaves every other port alone;
      applied again it changes nothing, and asking for the old mode back undoes it. */
  lemma UpdateMovesOnePort(current: Option<Record>, port: int, mode: VlanMode)
    requires current.Some? ==> Consistent(current.value)
    ensures var row := MembersAfter(current, port, mode);
            && Consistent(row) && PortMode(Some(row), port) == mode
            && (forall p :: p != port ==> PortMode(Some(row), p) == PortMode(current, p))
            && MembersAfter(Some(row), port, mode) == row
            && MembersAfter(Some(row), port, PortMode(current, port))
               == (if current.Some? then current.value else Record({}, {}))
  {
    var was := if current.Some? then current.value else Record({}, {});
    var back := MembersAfter(Some(MembersAfter(current, port, mode)), port, PortMode(current, port));
    assert forall p :: p in back.members <==> p in was.members;
    assert forall p :: p in back.tagged <==> p in was.tagged;
  }

  /** The switch: how it takes a VLAN_MEMBERS write and a VLAN_DESTROY is its own affair. */
  datatype Firmware = Firmware(
    onMembers: (map<int, Record>, int, Record) -> map<int, Record>,
    onDestroy: (map<int, Record>, int) -> map<int, Record>)

  function Faithful(): Firmware {
    Firmware((rows: map<int, Record>, v: int, row: Record) => rows[v := row],
             (rows: map<int, Record>, v: int) => rows - {v})
  }

  function RowIn(rows: map<int, Record>, vlan: int): Option<Record> {
    if vlan in rows then Some(rows[vlan]) else None
  }

  /** The membership write as a function: result and records afterwards. No VLAN check precedes it. */
  function WriteMembership(fw: Firmware, protectedPorts: set<int>, rows: map<int, Record>,
                           vlan: int, port: int, mode: VlanMode, force: bool): (Result<()>, map<int, Record>) {
    if port in protectedPorts && !force then (Err(ProtectedPort), rows)
    else
      var after := fw.onMembers(rows, vlan, MembersAfter(RowIn(rows, vlan), port, mode));
      (if MembershipOk(RowIn(after, vlan), port, mode) then Ok(()) else Err(VerificationFailed), after)
  }

  class NsdpWriter {
    const fw: Firmware
    const protectedPorts: set<int>
    var rows: map<int, Record>

    constructor (fw: Firmware, protectedPorts: set<int>, rows: map<int, Record>)
      ensures this.fw == fw && this.protectedPorts == protectedPorts && this.rows == rows
    {
      this.fw, this.protectedPorts, this.rows := fw, protectedPorts, rows;
    }

    method SetVlanMembership(vlan: int, port: int, mode: VlanMode, force: bool) returns (r: Result<()>)
      modifies this
      ensures (r, rows) == WriteMembership(fw, protectedPorts, old(rows), vlan, port, mode, force)
      ensures port in protectedPorts && !force ==> r == Err(ProtectedPort) && rows == old(rows)
      ensures r.Ok? ==> MembershipOk(RowIn(rows, vlan), port, mode)
      ensures fw == Faithful() && (port !in protectedPorts || force) ==>
                r.Ok? && rows == old(rows)[vlan := MembersAfter(RowIn(old(rows), vlan), port, mode)]
    {
      if port in protectedPorts && !force { return Err(ProtectedPort); }
      var row := MembersAfter(RowIn(rows, vlan), port, mode);
      rows := fw.onMembers(rows, vlan, row);
      return if MembershipOk(RowIn(rows, vlan), port, mode) then Ok(()) else Err(VerificationFailed);
    }

    /** Creating a VLAN that is there is a no-op: writing an empty record would strip its members. */
    method CreateVlan(vlan: int) returns (r: Result<()>)
      modifies this
      ensures vlan in old(rows) ==> r.Ok? && rows == old(rows)
      ensures r.Ok? ==> vlan in rows
      ensures fw == Faithful() ==>
                r.Ok? && rows == if vlan in old(rows) then old(rows) else old(rows)[vlan := Record({}, {})]
    {
      if vlan in rows { return Ok(()); }
      rows := fw.onMembers(rows, vlan, Record({}, {}));
      return if vlan in rows then Ok(()) else Err(VerificationFailed);
    }

    method DeleteVlan(vlan: int, force: bool) returns (r: Result<()>)
      modifies this
      ensures !force ==> r == Err(ProtectedPort) && rows == old(rows)
      ensures r.Ok? ==> vlan !in rows
      ensures force && fw == Faithful() ==> r.Ok? && rows == old(rows) - {vlan}
    {
      if !force { return Err(ProtectedPort); }
      rows := fw.onDestroy(rows, vlan);
      return if vlan !in rows then Ok(()) else Err(VerificationFailed);
    }
  }

  /** On a faithful switch the write always succeeds, and it brings a missing VLAN into being whatever was
      asked, even that the port be excluded from it: the set of VLANs is kept exactly if the VLAN was there. */
  lemma MembershipWriteCreates(protectedPorts: set<int>, rows: map<int, Record>, vlan: int, port: int, mode: VlanMode,
                               force: bool)
    requires port !in protectedPorts || force
    ensures var (r, after) := WriteMembership(Faithful(), protectedPorts, rows, vlan, port, mode, force);
            && r.Ok? && vlan in after
            && (after.Keys == rows.Keys <==> vlan in rows)
            && (mode == Excluded && vlan !in rows ==> after[vlan] == Record({}, {}))
  {
    var row := MembersAfter(RowIn(rows, vlan), port, mode);
    assert vlan in rows[vlan := row];
    if mode == Excluded && vlan !in rows { assert row == Record({}, {}); }
  }
}
