/** Columns and VLAN membership measured on real M4300 switches (virtual/seed.py): the
    columns of every port derive exactly the membership captured beside them. */
module CapturedM4300 {
  import opened Models
  import opened Bitmaps
  import opened Switchport

  function Vlans(): set<int> { {1, 4, 5, 6, 7, 10, 20, 21, 41, 89, 90, 99, 121, 141} }

  /** Whether the capture lists one of the 24 ports as an egress member of a VLAN. */
  predicate CapturedMember(vlan: int, port: int) {
    if vlan == 1 then port <= 2 || port == 5 || 7 <= port <= 8
    else if vlan == 5 then port <= 5 || 9 <= port <= 14
    else if vlan == 10 then port <= 2 || port == 5 || 15 <= port
    else if vlan == 90 then port <= 2 || 5 <= port <= 6
    else if vlan == 4 || vlan == 21 || vlan == 89 then port <= 2
    else port <= 2 || port == 5
  }

  predicate CapturedUntagged(vlan: int, port: int) {
    if vlan == 1 then port <= 2 || 7 <= port <= 8
    else if vlan == 5 then 3 <= port <= 5 || 9 <= port <= 14
    else if vlan == 10 then 15 <= port
    else vlan == 90 && port == 6
  }

  function UplinkAllowed(): Octets { EditedVlanBits(AllAllowed(), {}, {3990, 4007}) }

  function Port5Vlans(): set<int> { {1, 5, 6, 7, 10, 20, 41, 90, 99, 121, 141} }

  /** The switchport columns of a port of the M4300-24X. */
  function SeedRow(port: int): PortRow {
    if port <= 2 then PortRow(MODE_TRUNK, 1, 1, UplinkAllowed(), {1}, {})
    else if port <= 4 then PortRow(MODE_ACCESS, 5, 5, AllAllowed(), {1}, {})
    else if port == 5 then
      PortRow(MODE_TRUNK, 90, 5, Encode(Port5Vlans(), VLAN_BITMAP_BYTES), {1, 90}, {})
    else if port == 6 then PortRow(MODE_ACCESS, 90, 5, AllAllowed(), {1}, {})
    else if port <= 8 then PortRow(MODE_ACCESS, 1, 1, AllAllowed(), {1}, {})
    else if port <= 14 then PortRow(MODE_ACCESS, 5, 1, AllAllowed(), {5}, {})
    else PortRow(MODE_ACCESS, 10, 10, AllAllowed(), {1}, {})
  }

  lemma UplinkAllows(vlan: int)
    requires 1 <= vlan <= 141
    ensures vlan in Decode(UplinkAllowed())
  {
    EditFlipsOnlyNamedBits(AllAllowed(), {}, {3990, 4007});
    AllAllowedNames(vlan);
  }

  lemma Port5Allows(vlan: int)
    requires 1 <= vlan <= 141
    ensures vlan in Decode(Encode(Port5Vlans(), VLAN_BITMAP_BYTES)) <==> vlan in Port5Vlans()
  {
    EncodeNames(Port5Vlans(), VLAN_BITMAP_BYTES, vlan);
  }

  lemma TrunkColumnsReproduceCapture(port: int, vlan: int)
    requires port == 1 || port == 2 || port == 5
    requires vlan in Vlans()
    ensures var m := Derive(SeedRow(port), Vlans());
            && (vlan in m.All() <==> CapturedMember(vlan, port))
            && (vlan in m.untagged <==> CapturedUntagged(vlan, port))
  {
    if port == 5 { Port5Allows(vlan); } else { UplinkAllows(vlan); }
  }

  /** All 24 ports, all 14 VLANs. Port 5 shows that a trunk follows its native VLAN (5), not its
      access VLAN (90), and that VLANs missing from its sparse list are not carried. */
  lemma ColumnsReproduceCapture(port: int, vlan: int)
    requires 1 <= port <= 24 && vlan in Vlans()
    ensures var m := Derive(SeedRow(port), Vlans());
            && (vlan in m.All() <==> CapturedMember(vlan, port))
            && (vlan in m.untagged <==> CapturedUntagged(vlan, port))
  {
    if port <= 2 || port == 5 {
      TrunkColumnsReproduceCapture(port, vlan);
    }
  }

  /** Port 1/0/12 of the M4300-16X as re-homed: its native VLAN 5 is untagged although its list omits it. */
  lemma NativeNeedNotBeAllowed()
    ensures var row := PortRow(MODE_TRUNK, 5, 5, EditedVlanBits(AllAllowed(), {}, {5}), {1, 4}, {});
            Derive(row, Vlans()) == Membership(Vlans() - {5}, {5})
  {
    var row := PortRow(MODE_TRUNK, 5, 5, EditedVlanBits(AllAllowed(), {}, {5}), {1, 4}, {});
    EditFlipsOnlyNamedBits(AllAllowed(), {}, {5});
    forall v | v in Vlans() - {5} ensures v in Decode(row.allowed) {
      AllAllowedNames(v);
    }
    assert Decode(row.allowed) * Vlans() == Vlans() - {5};
  }

  /** Ports 7 and 8 of that switch were as the factory leaves a port. */
  lemma FactoryRowIsCaptured()
    ensures SeedRow(7) == SeedRow(8) == FactoryRow()
  {
  }
}
