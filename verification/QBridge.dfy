/** SnmpWriter.set_vlan_membership on the standard Q-BRIDGE tables: whole egress and untagged
    PortLists are written, in one PDU or two (snmp_write.py, protocols/snmp/write.py), to firmware
    that may untag a port of its own accord (virtual/state.py). */
module QBridge {
  import opened Models
  import opened Bitmaps

  /** One row of dot1qVlanStaticTable. */
  datatype VlanRow = VlanRow(egress: set<int>, untagged: set<int>)

  datatype Column = EgressPorts(bits: Octets) | UntaggedPorts(bits: Octets)

  // ----- the firmware -----

  /** The columns of one PDU, applied in order. Auto-untagging firmware makes every port whose egress
      bit is newly raised untagged, and lets that beat an untagged column later in the same PDU. */
  function ApplyPdu(autoUntag: bool, row: VlanRow, pdu: seq<Column>, egressSeen: bool := false): VlanRow
    decreases |pdu|
  {
    if pdu == [] then row
    else match pdu[0]
      case EgressPorts(bits) =>
        var incoming := Decode(bits);
        var untagged := if autoUntag then row.untagged + (incoming - row.egress) else row.untagged;
        ApplyPdu(autoUntag, VlanRow(incoming, untagged), pdu[1..], true)
      case UntaggedPorts(bits) =>
        var next := if autoUntag && egressSeen then row else row.(untagged := Decode(bits));
        ApplyPdu(autoUntag, next, pdu[1..], egressSeen)
  }

  function ApplyPdus(autoUntag: bool, row: VlanRow, pdus: seq<seq<Column>>): VlanRow
    decreases |pdus|
  {
    if pdus == [] then row else ApplyPdus(autoUntag, ApplyPdu(autoUntag, row, pdus[0]), pdus[1..])
  }

  // ----- what the writer sends -----

  /** `membership_bitmaps`: both columns with one port's bit moved. */
  function NewEgress(mode: VlanMode, port: int, egress: Octets, width: nat): Octets
    requires 1 <= port
  {
    SetPortBit(egress, port, mode != Excluded, width)
  }

  function NewUntagged(mode: VlanMode, port: int, untagged: Octets, width: nat): Octets
    requires 1 <= port
  {
    SetPortBit(untagged, port, mode == Untagged, width)
  }

  function Pdus(split: bool, egress: Octets, untagged: Octets): seq<seq<Column>> {
    if split then [[EgressPorts(egress)], [UntaggedPorts(untagged)]]
    else [[EgressPorts(egress), UntaggedPorts(untagged)]]
  }

  /** The row a request asks for: one port moved, every other bit (LAG and CPU bits too) as it was. */
  function WantedRow(row: VlanRow, mode: VlanMode, port: int): VlanRow {
    VlanRow(if mode == Excluded then row.egress - {port} else row.egress + {port},
            if mode == Untagged then row.untagged + {port} else row.untagged - {port})
  }

  lemma ApplyOne(autoUntag: bool, row: VlanRow, a: Column)
    ensures ApplyPdu(autoUntag, row, [a])
         == match a
            case EgressPorts(bits) =>
              VlanRow(Decode(bits), if autoUntag then row.untagged + (Decode(bits) - row.egress) else row.untagged)
            case UntaggedPorts(bits) => row.(untagged := Decode(bits))
  {
  }

  lemma ApplyTogether(autoUntag: bool, row: VlanRow, egress: Octets, untagged: Octets)
    ensures ApplyPdu(autoUntag, row, [EgressPorts(egress), UntaggedPorts(untagged)])
         == VlanRow(Decode(egress),
                    if autoUntag then row.untagged + (Decode(egress) - row.egress) else Decode(untagged))
  {
    var pdu := [EgressPorts(egress), UntaggedPorts(untagged)];
    assert pdu[1..] == [UntaggedPorts(untagged)];
    var mid := VlanRow(Decode(egress), if autoUntag then row.untagged + (Decode(egress) - row.egress)
                       else row.untagged);
    assert ApplyPdu(autoUntag, mid, [UntaggedPorts(untagged)], true)
        == if autoUntag then mid else mid.(untagged := Decode(untagged));
  }

  lemma ApplyTwo(autoUntag: bool, row: VlanRow, a: seq<Column>, b: seq<Column>)
    ensures ApplyPdus(autoUntag, row, [a, b]) == ApplyPdu(autoUntag, ApplyPdu(autoUntag, row, a), b)
  {
    assert [a, b][1..] == [b];
    var mid := ApplyPdu(autoUntag, row, a);
    assert ApplyPdus(autoUntag, mid, [b]) == ApplyPdu(autoUntag, mid, b);
  }

  lemma OnePdu(autoUntag: bool, row: VlanRow, pdu: seq<Column>)
    ensures ApplyPdus(autoUntag, row, [pdu]) == ApplyPdu(autoUntag, row, pdu)
  {
    var after := ApplyPdu(autoUntag, row, pdu);
    assert [pdu][1..] == [] && ApplyPdus(autoUntag, after, []) == after;
  }

  /** Bitmaps taken from the row itself ask for the wanted row, whatever their width. */
  lemma BitmapsAskForWanted(row: VlanRow, mode: VlanMode, port: int, egress: Octets, untagged: Octets, width: nat)
    requires 1 <= port && Decode(egress) == row.egress && Decode(untagged) == row.untagged
    ensures VlanRow(Decode(NewEgress(mode, port, egress, width)), Decode(NewUntagged(mode, port, untagged, width)))
         == WantedRow(row, mode, port)
    ensures |NewEgress(mode, port, egress, width)| >= |egress|
            && |NewUntagged(mode, port, untagged, width)| >= |untagged|
  {
    SetPortBitNames(egress, port, mode != Excluded, width);
    SetPortBitNames(untagged, port, mode == Untagged, width);
  }

  /** The row left behind by the two columns asking for `wanted`, in one PDU or two. */
  function RowWritten(autoUntag: bool, split: bool, row: VlanRow, wanted: VlanRow): VlanRow {
    if split || !autoUntag then wanted
    else VlanRow(wanted.egress, row.untagged + (wanted.egress - row.egress))
  }

  /** The row when the egress column has been written and no more. */
  function EgressWritten(autoUntag: bool, row: VlanRow, wanted: VlanRow): VlanRow {
    VlanRow(wanted.egress, if autoUntag then row.untagged + (wanted.egress - row.egress) else row.untagged)
  }

  /** However the bitmaps are spelt, the PDUs carrying them leave that row. */
  lemma PdusLeaveRow(autoUntag: bool, split: bool, row: VlanRow, egress: Octets, untagged: Octets)
    ensures ApplyPdus(autoUntag, row, Pdus(split, egress, untagged))
         == RowWritten(autoUntag, split, row, VlanRow(Decode(egress), Decode(untagged)))
  {
    if split {
      SplitLands(autoUntag, row, egress, untagged);
    } else {
      ApplyTogether(autoUntag, row, egress, untagged);
      OnePdu(autoUntag, row, [EgressPorts(egress), UntaggedPorts(untagged)]);
    }
  }

  // ----- split, combined, reversed -----

  /** Egress first, then untagged, in PDUs of their own lands exactly both bitmaps on any firmware. */
  lemma SplitLands(autoUntag: bool, row: VlanRow, egress: Octets, untagged: Octets)
    ensures ApplyPdus(autoUntag, row, Pdus(true, egress, untagged)) == VlanRow(Decode(egress), Decode(untagged))
  {
    ApplyTwo(autoUntag, row, [EgressPorts(egress)], [UntaggedPorts(untagged)]);
  }

  /** One combined PDU lands on plain firmware always, and on auto-untagging firmware exactly when
      the firmware's own choice happens to be the one asked for. */
  lemma CombinedLandsIff(autoUntag: bool, row: VlanRow, mode: VlanMode, port: int, egress: Octets, untagged: Octets)
    requires VlanRow(Decode(egress), Decode(untagged)) == WantedRow(row, mode, port)
    ensures ApplyPdus(autoUntag, row, Pdus(false, egress, untagged)) == WantedRow(row, mode, port)
       <==> (!autoUntag
             || (mode == Untagged && (port in row.untagged || port !in row.egress))
             || (mode == Tagged && port in row.egress && port !in row.untagged)
             || (mode == Excluded && port !in row.untagged))
  {
    ApplyTogether(autoUntag, row, egress, untagged);
    var pdu := [EgressPorts(egress), UntaggedPorts(untagged)];
    assert ApplyPdus(autoUntag, row, [pdu]) == ApplyPdu(autoUntag, row, pdu);
    var firmware := row.untagged + (Decode(egress) - row.egress);
    assert port in firmware <==> port in row.untagged || (mode != Excluded && port !in row.egress);
    assert forall p :: p != port ==> (p in firmware <==> p in row.untagged);
  }

  /** The reverse order fails on auto-untagging firmware exactly when tagging a port not yet in the VLAN. */
  lemma ReversedLandsIff(autoUntag: bool, row: VlanRow, mode: VlanMode, port: int, egress: Octets, untagged: Octets)
    requires VlanRow(Decode(egress), Decode(untagged)) == WantedRow(row, mode, port)
    ensures ApplyPdus(autoUntag, row, [[UntaggedPorts(untagged)], [EgressPorts(egress)]]) == WantedRow(row, mode, port)
       <==> !(autoUntag && mode == Tagged && port !in row.egress)
  {
    ApplyTwo(autoUntag, row, [UntaggedPorts(untagged)], [EgressPorts(egress)]);
    ApplyOne(autoUntag, row, UntaggedPorts(untagged));
    var mid := row.(untagged := Decode(untagged));
    ApplyOne(autoUntag, mid, EgressPorts(egress));
    var got := ApplyPdu(autoUntag, mid, [EgressPorts(egress)]);
    assert port in got.untagged <==> port in Decode(untagged) || (autoUntag && port in Decode(egress) - row.egress);
    assert forall p :: p != port ==> (p in got.untagged <==> p in Decode(untagged));
  }

  // ----- the whole operation -----

  /** The part of a port set that `get_vlans` reports: physical ports, if the switch tells which those are. */
  function Physical(keep: Option<set<int>>, ports: set<int>): set<int> {
    if keep.None? then ports else ports * keep.value
  }

  /** Whether the agent takes a PDU for a VLAN, given the rows it holds. */
  type Agent = (map<int, VlanRow>, int) -> bool

  /** A switch of this family: its firmware's habit, its physical ports, the octet width of its PortLists (None
      when the columns are not reported as octets), which PDUs its agent takes, and its VLAN rows. */
  class QBridgeSwitch {
    const autoUntag: bool
    const keep: Option<set<int>>
    const octets: Option<nat>
    const takes: Agent
    var rows: map<int, VlanRow>

    constructor (autoUntag: bool, keep: Option<set<int>>, octets: Option<nat>, takes: Agent, rows: map<int, VlanRow>)
      ensures this.autoUntag == autoUntag && this.keep == keep && this.octets == octets
      ensures this.takes == takes && this.rows == rows
    {
      this.autoUntag, this.keep, this.octets, this.takes, this.rows := autoUntag, keep, octets, takes, rows;
    }

    ghost predicate Valid()
      reads this
    {
      forall v, p :: v in rows && p in rows[v].egress + rows[v].untagged ==>
        1 <= p && (octets.Some? ==> p <= 8 * octets.value)
    }

    /** The octets a PortList column of this switch shows. */
    function Raw(ports: set<int>): Option<Octets> {
      if octets.None? then None else Some(Encode(ports, octets.value))
    }

    /** `set` and `set_many`: a refused PDU changes nothing. */
    method SetMany(vlan: int, pdu: seq<Column>) returns (taken: bool)
      modifies this`rows
      ensures taken == takes(old(rows), vlan)
      ensures rows == if !taken || vlan !in old(rows) then old(rows)
                      else old(rows)[vlan := ApplyPdu(autoUntag, old(rows)[vlan], pdu)]
    {
      taken := takes(rows, vlan);
      if taken && vlan in rows {
        rows := rows[vlan := ApplyPdu(autoUntag, rows[vlan], pdu)];
      }
    }
  }

  /** The row as `get_vlans` shows it. */
  function Shown(keep: Option<set<int>>, row: VlanRow): VlanRow {
    VlanRow(Physical(keep, row.egress), Physical(keep, row.untagged))
  }

  /** The row the bitmaps are edited from: the device's own octets, else what `get_vlans` shows. */
  function EditedFrom(octets: bool, keep: Option<set<int>>, row: VlanRow): VlanRow {
    if octets then row else Shown(keep, row)
  }

  /** The write as a function of the rows: result and rows afterwards. A refused PDU ends it, with the egress
      column written or nothing at all. */
  function WriteRows(autoUntag: bool, split: bool, octets: bool, keep: Option<set<int>>, takes: Agent,
                     protectedPorts: set<int>, rows: map<int, VlanRow>,
                     vlan: int, port: int, mode: VlanMode, force: bool)
    : (Result<()>, map<int, VlanRow>)
  {
    if port in protectedPorts && !force then (Err(ProtectedPort), rows)
    else if vlan !in rows then (Err(Precondition), rows)
    else
      var wanted := WantedRow(EditedFrom(octets, keep, rows[vlan]), mode, port);
      var after := RowWritten(autoUntag, split, rows[vlan], wanted);
      var half := rows[vlan := EgressWritten(autoUntag, rows[vlan], wanted)];
      if !takes(rows, vlan) then (Err(Rejected), rows)
      else if split && !takes(half, vlan) then (Err(Rejected), half)
      else (if Shown(keep, after) == Shown(keep, wanted) then Ok(()) else Err(VerificationFailed), rows[vlan := after])
  }

  class QBridgeWriter {
    const sw: QBridgeSwitch
    /** The model's `snmp_vlan_split_membership_writes` and PortList width. */
    const split: bool
    const width: nat
    const protectedPorts: set<int>

    constructor (sw: QBridgeSwitch, split: bool, width: nat, protectedPorts: set<int>)
      ensures this.sw == sw && this.split == split && this.width == width && this.protectedPorts == protectedPorts
    {
      this.sw, this.split, this.width, this.protectedPorts := sw, split, width, protectedPorts;
    }

    method CurrentBitmap(raw: Option<Octets>, shown: set<int>) returns (bits: Octets)
      requires forall p :: p in shown ==> 1 <= p
      ensures Decode(bits) == if raw.Some? then Decode(raw.value) else shown
    {
      if raw.Some? {
        bits := raw.value;
      } else {
        bits := EncodePortBitmap(shown, 8);
      }
    }

    /** The two columns in PDUs of their own, egress first, or in one, up to the first refusal. */
    method Send(vlan: int, egress: Octets, untagged: Octets) returns (taken: bool)
      requires vlan in sw.rows
      modifies sw`rows
      ensures var row, wanted := old(sw.rows)[vlan], VlanRow(Decode(egress), Decode(untagged));
              var half := old(sw.rows)[vlan := EgressWritten(sw.autoUntag, row, wanted)];
              && taken == (sw.takes(old(sw.rows), vlan) && (split ==> sw.takes(half, vlan)))
              && sw.rows == if taken then old(sw.rows)[vlan := RowWritten(sw.autoUntag, split, row, wanted)]
                            else if sw.takes(old(sw.rows), vlan) then half else old(sw.rows)
    {
      ghost var row := sw.rows[vlan];
      PdusLeaveRow(sw.autoUntag, split, row, egress, untagged);
      if split {
        ApplyOne(sw.autoUntag, row, EgressPorts(egress));
        taken := sw.SetMany(vlan, [EgressPorts(egress)]);
        if !taken { return; }
        taken := sw.SetMany(vlan, [UntaggedPorts(untagged)]);
        ApplyTwo(sw.autoUntag, row, [EgressPorts(egress)], [UntaggedPorts(untagged)]);
      } else {
        var pdu := [EgressPorts(egress), UntaggedPorts(untagged)];
        taken := sw.SetMany(vlan, pdu);
        OnePdu(sw.autoUntag, row, pdu);
      }
    }

    /** Returns normally exactly when every PDU is taken and the physical ports read back as asked; every PDU
        taken, with split writes, or on plain firmware, they do, and the whole row is the one asked for. */
    method SetVlanMembership(vlan: int, port: int, mode: VlanMode, force: bool) returns (r: Result<()>)
      requires sw.Valid() && 1 <= port
      modifies sw
      ensures (r, sw.rows) == WriteRows(sw.autoUntag, split, sw.octets.Some?, sw.keep, sw.takes, protectedPorts,
                                        old(sw.rows), vlan, port, mode, force)
      ensures (port !in protectedPorts || force) && vlan in old(sw.rows) && (split || !sw.autoUntag) ==>
                var wanted := WantedRow(EditedFrom(sw.octets.Some?, sw.keep, old(sw.rows)[vlan]), mode, port);
                r == Err(Rejected) || (r.Ok? && sw.rows == old(sw.rows)[vlan := wanted])
      ensures r == Err(Rejected) && !split ==> sw.rows == old(sw.rows)
    {
      if port in protectedPorts && !force { return Err(ProtectedPort); }
      if vlan !in sw.rows { return Err(Precondition); }
      var row := sw.rows[vlan];
      RawIsFaithful(sw, vlan);
      var egress := CurrentBitmap(sw.Raw(row.egress), Physical(sw.keep, row.egress));
      var untagged := CurrentBitmap(sw.Raw(row.untagged), Physical(sw.keep, row.untagged));
      BitmapsAskForWanted(EditedFrom(sw.octets.Some?, sw.keep, row), mode, port, egress, untagged, width);
      var newEgress := SetPortBitLoop(egress, port, mode != Excluded, width);
      var newUntagged := SetPortBitLoop(untagged, port, mode == Untagged, width);
      var taken := Send(vlan, newEgress, newUntagged);
      if !taken { return Err(Rejected); }
      var after := Shown(sw.keep, sw.rows[vlan]);
      var asked := Shown(sw.keep, VlanRow(Decode(newEgress), Decode(newUntagged)));
      return if after == asked then Ok(()) else Err(VerificationFailed);
    }
  }

  lemma RawIsFaithful(sw: QBridgeSwitch, vlan: int)
    requires sw.Valid() && vlan in sw.rows
    ensures sw.octets.Some? ==>
              && Decode(Encode(sw.rows[vlan].egress, sw.octets.value)) == sw.rows[vlan].egress
              && Decode(Encode(sw.rows[vlan].untagged, sw.octets.value)) == sw.rows[vlan].untagged
    ensures forall p :: p in sw.rows[vlan].egress ==> 1 <= p
    ensures forall p :: p in sw.rows[vlan].untagged ==> 1 <= p
  {
    var row := sw.rows[vlan];
    forall p | p in row.egress ensures 1 <= p { assert p in row.egress + row.untagged; }
    forall p | p in row.untagged ensures 1 <= p { assert p in row.egress + row.untagged; }
    if sw.octets.None? { return; }
    forall p | p in row.egress ensures 1 <= p <= 8 * sw.octets.value { assert p in row.egress + row.untagged; }
    forall p | p in row.untagged ensures 1 <= p <= 8 * sw.octets.value { assert p in row.egress + row.untagged; }
    DecodeEncode(row.egress, sw.octets.value);
    DecodeEncode(row.untagged, sw.octets.value);
  }

  /** Comparing only physical ports still tells a landed row from one whose requested port came out wrong,
      unless the requested port is itself none of them, when the check passes whatever was done to it. */
  lemma FilteredCheckIsExact(keep: Option<set<int>>, autoUntag: bool, row: VlanRow, mode: VlanMode, port: int,
                             egress: Octets, untagged: Octets)
    requires VlanRow(Decode(egress), Decode(untagged)) == WantedRow(row, mode, port)
    ensures var got := ApplyPdus(autoUntag, row, Pdus(false, egress, untagged));
            var wanted := WantedRow(row, mode, port);
            Shown(keep, got) == Shown(keep, wanted) <==> got == wanted || (keep.Some? && port !in keep.value)
  {
    PdusLeaveRow(autoUntag, false, row, egress, untagged);
    var got, wanted := ApplyPdus(autoUntag, row, Pdus(false, egress, untagged)), WantedRow(row, mode, port);
    assert forall p :: p != port ==> (p in got.untagged <==> p in wanted.untagged);
    if got != wanted {
      assert port in got.untagged <==> port !in wanted.untagged;
      if keep.None? || port in keep.value {
        assert port in Shown(keep, got).untagged <==> port !in Shown(keep, wanted).untagged;
      } else {
        assert Shown(keep, got).untagged == Shown(keep, wanted).untagged;
      }
    }
  }

  /** Without the device's own octets the write keeps every member exactly when the VLAN holds no port
      outside the physical ones (a LAG, say), the requested one apart; the filtered check cannot tell. */
  lemma FallbackKeepsMembersIff(keep: set<int>, row: VlanRow, mode: VlanMode, port: int)
    ensures WantedRow(Shown(Some(keep), row), mode, port) == WantedRow(row, mode, port)
       <==> row.egress + row.untagged <= keep + {port}
    ensures Shown(Some(keep), WantedRow(Shown(Some(keep), row), mode, port))
            == Shown(Some(keep), WantedRow(row, mode, port))
  {
    var narrow, full := WantedRow(Shown(Some(keep), row), mode, port), WantedRow(row, mode, port);
    assert forall p :: p != port ==> (p in narrow.egress <==> p in row.egress && p in keep);
    assert forall p :: p != port ==> (p in narrow.untagged <==> p in row.untagged && p in keep);
    assert forall p :: p != port ==>
             (p in full.egress <==> p in row.egress) && (p in full.untagged <==> p in row.untagged);
    forall p | p in row.egress + row.untagged && p !in keep && p != port ensures narrow != full {
      assert p in full.egress + full.untagged && p !in narrow.egress + narrow.untagged;
    }
  }

  /** As the GS728TPP's VLANs hold `po 1` as port 1000, which is not physical: tagging port 5 that way takes
      the LAG out of the VLAN, and the write reports success. */
  lemma FallbackDropsLag(keep: set<int>, takes: Agent, protectedPorts: set<int>)
    requires takes(map[7 := VlanRow({24, 1000}, {})], 7)
    requires 5 in keep && 24 in keep && 1000 !in keep && 5 !in protectedPorts
    ensures var rows := map[7 := VlanRow({24, 1000}, {})];
            var (r, after) :=
              WriteRows(false, false, false, Some(keep), takes, protectedPorts, rows, 7, 5, Tagged, false);
            r.Ok? && after == map[7 := VlanRow({5, 24}, {})]
  {
    var row := VlanRow({24, 1000}, {});
    assert Shown(Some(keep), row) == VlanRow({24}, {});
    assert WantedRow(VlanRow({24}, {}), Tagged, 5) == VlanRow({5, 24}, {});
  }
}
