/** Wire bitmaps: octet strings whose most significant bit of octet 0 stands for
    id 1 (the PortList convention of section 5 of RFC 4363), used for ports by
    protocols/snmp/write.py and for VLANs by snmp_write.py. */
module Bitmaps {
  import opened Models

  type Octets = seq<bv8>

  const VLAN_BITMAP_BYTES := 512

  // ----- single octets -----

  /** `0x80 >> off`, written out. */
  function Mask(off: nat): bv8
    requires off < 8
  {
    if off == 0 then 0x80 else if off == 1 then 0x40 else if off == 2 then 0x20 else if off == 3 then 0x10
    else if off == 4 then 0x08 else if off == 5 then 0x04 else if off == 6 then 0x02 else 0x01
  }

  predicate HasBit(octet: bv8, off: nat)
    requires off < 8
  {
    octet & Mask(off) != 0
  }

  lemma SetBitInOctet(octet: bv8, k: nat, off: nat)
    requires k < 8 && off < 8
    ensures HasBit(octet | Mask(k), off) <==> off == k || HasBit(octet, off)
  {
  }

  lemma ClearBitInOctet(octet: bv8, k: nat, off: nat)
    requires k < 8 && off < 8
    ensures HasBit(octet & !Mask(k), off) <==> off != k && HasBit(octet, off)
  {
  }

  lemma OctetExtensionality(a: bv8, b: bv8)
    requires forall off :: 0 <= off < 8 ==> HasBit(a, off) == HasBit(b, off)
    ensures a == b
  {
    assert HasBit(a, 0) == HasBit(b, 0) && HasBit(a, 1) == HasBit(b, 1);
    assert HasBit(a, 2) == HasBit(b, 2) && HasBit(a, 3) == HasBit(b, 3);
    assert HasBit(a, 4) == HasBit(b, 4) && HasBit(a, 5) == HasBit(b, 5);
    assert HasBit(a, 6) == HasBit(b, 6) && HasBit(a, 7) == HasBit(b, 7);
  }

  // ----- octet strings as sets of ids -----

  predicate Names(bitmap: Octets, id: int) {
    1 <= id <= 8 * |bitmap| && HasBit(bitmap[(id - 1) / 8], (id - 1) % 8)
  }

  /** Which ids a bitmap names. */
  function Decode(bitmap: Octets): set<int> {
    set id | 1 <= id <= 8 * |bitmap| && Names(bitmap, id)
  }

  /** Decode is the source's double enumeration of octets and bit offsets. */
  lemma DecodeEnumerates(bitmap: Octets)
    ensures Decode(bitmap)
         == set i: int, off: int | 0 <= i < |bitmap| && 0 <= off < 8 && HasBit(bitmap[i], off) :: 8 * i + off + 1
  {
    var pairs := set i: int, off: int | 0 <= i < |bitmap| && 0 <= off < 8 && HasBit(bitmap[i], off) :: 8 * i + off + 1;
    forall id | id in Decode(bitmap) ensures id in pairs {
      var i, off := (id - 1) / 8, (id - 1) % 8;
      assert id == 8 * i + off + 1;
    }
    forall id | id in pairs ensures id in Decode(bitmap) {
      var i: int, off: int :| 0 <= i < |bitmap| && 0 <= off < 8 && HasBit(bitmap[i], off) && id == 8 * i + off + 1;
      assert (id - 1) / 8 == i && (id - 1) % 8 == off;
    }
  }

  /** Octet `i` of the bitmap naming exactly `ids`. */
  function OctetOf(ids: set<int>, i: nat): bv8 {
    (if 8 * i + 1 in ids then 0x80 else 0) | (if 8 * i + 2 in ids then 0x40 else 0) |
    (if 8 * i + 3 in ids then 0x20 else 0) | (if 8 * i + 4 in ids then 0x10 else 0) |
    (if 8 * i + 5 in ids then 0x08 else 0) | (if 8 * i + 6 in ids then 0x04 else 0) |
    (if 8 * i + 7 in ids then 0x02 else 0) | (if 8 * i + 8 in ids then 0x01 else 0)
  }

  lemma OctetOfBit(ids: set<int>, i: nat, off: nat)
    requires off < 8
    ensures HasBit(OctetOf(ids, i), off) <==> 8 * i + off + 1 in ids
  {
  }

  /** The bitmap of `width` octets naming exactly those `ids` that fit in it. */
  function Encode(ids: set<int>, width: nat): Octets {
    seq(width, (i: nat) => OctetOf(ids, i))
  }

  lemma EncodeNames(ids: set<int>, width: nat, id: int)
    ensures Names(Encode(ids, width), id) <==> 1 <= id <= 8 * width && id in ids
  {
    if 1 <= id <= 8 * width {
      var i, off := (id - 1) / 8, (id - 1) % 8;
      OctetOfBit(ids, i, off);
      assert 8 * i + off + 1 == id;
    }
  }

  /** Decoding undoes encoding, whatever the width, on the ids the width can hold. */
  lemma DecodeEncode(ids: set<int>, width: nat)
    requires forall id :: id in ids ==> 1 <= id <= 8 * width
    ensures Decode(Encode(ids, width)) == ids
  {
    forall id ensures id in Decode(Encode(ids, width)) <==> id in ids {
      EncodeNames(ids, width, id);
    }
  }

  lemma InDecode(bitmap: Octets, i: nat, off: nat)
    requires i < |bitmap| && off < 8
    ensures 8 * i + off + 1 in Decode(bitmap) <==> HasBit(bitmap[i], off)
  {
    var id := 8 * i + off + 1;
    assert (id - 1) / 8 == i && (id - 1) % 8 == off;
  }

  lemma BitAgain(bitmap: Octets, i: nat, off: nat)
    requires i < |bitmap| && off < 8
    ensures HasBit(OctetOf(Decode(bitmap), i), off) == HasBit(bitmap[i], off)
  {
    OctetOfBit(Decode(bitmap), i, off);
    InDecode(bitmap, i, off);
  }

  lemma OctetAgain(bitmap: Octets, i: nat, named: set<int>)
    requires i < |bitmap| && named == Decode(bitmap)
    ensures OctetOf(named, i) == bitmap[i]
  {
    forall off | 0 <= off < 8 ensures HasBit(OctetOf(named, i), off) == HasBit(bitmap[i], off) {
      BitAgain(bitmap, i, off);
    }
    OctetExtensionality(OctetOf(named, i), bitmap[i]);
  }

  /** Encoding undoes decoding: the named ids and the width determine every octet. */
  lemma EncodeDecode(bitmap: Octets)
    ensures Encode(Decode(bitmap), |bitmap|) == bitmap
  {
    forall i | 0 <= i < |bitmap| ensures Encode(Decode(bitmap), |bitmap|)[i] == bitmap[i] {
      OctetAgain(bitmap, i, Decode(bitmap));
    }
  }

  lemma SetBitAt(bitmap: Octets, j: nat, k: nat, i: nat, off: nat)
    requires j < |bitmap| && i < |bitmap| && k < 8 && off < 8
    ensures HasBit(bitmap[j := bitmap[j] | Mask(k)][i], off) <==> (i == j && off == k) || HasBit(bitmap[i], off)
  {
    SetBitInOctet(bitmap[j], k, off);
  }

  lemma ClearBitAt(bitmap: Octets, j: nat, k: nat, i: nat, off: nat)
    requires j < |bitmap| && i < |bitmap| && k < 8 && off < 8
    ensures HasBit(bitmap[j := bitmap[j] & !Mask(k)][i], off) <==> !(i == j && off == k) && HasBit(bitmap[i], off)
  {
    ClearBitInOctet(bitmap[j], k, off);
  }

  /** `after` differs from `bitmap` at most in the one bit of `id`, which it has exactly if `on`. */
  ghost predicate BitMoved(bitmap: Octets, after: Octets, id: int, on: bool)
    requires 1 <= id
  {
    && |after| == |bitmap|
    && forall i, off :: 0 <= i < |bitmap| && 0 <= off < 8 ==>
         (HasBit(after[i], off) <==> if id == 8 * i + off + 1 then on else HasBit(bitmap[i], off))
  }

  lemma SetMoves(bitmap: Octets, id: int, j: nat, k: nat)
    requires j < |bitmap| && k < 8 && id == 8 * j + k + 1
    ensures BitMoved(bitmap, bitmap[j := bitmap[j] | Mask(k)], id, true)
  {
    forall i, off | 0 <= i < |bitmap| && 0 <= off < 8
      ensures HasBit(bitmap[j := bitmap[j] | Mask(k)][i], off)
              <==> if id == 8 * i + off + 1 then true else HasBit(bitmap[i], off)
    {
      SetBitAt(bitmap, j, k, i, off);
    }
  }

  lemma ClearMoves(bitmap: Octets, id: int, j: nat, k: nat)
    requires j < |bitmap| && k < 8 && id == 8 * j + k + 1
    ensures BitMoved(bitmap, bitmap[j := bitmap[j] & !Mask(k)], id, false)
  {
    forall i, off | 0 <= i < |bitmap| && 0 <= off < 8
      ensures HasBit(bitmap[j := bitmap[j] & !Mask(k)][i], off)
              <==> if id == 8 * i + off + 1 then false else HasBit(bitmap[i], off)
    {
      ClearBitAt(bitmap, j, k, i, off);
    }
  }

  lemma MovedDecodes(bitmap: Octets, after: Octets, id: int, on: bool)
    requires 1 <= id <= 8 * |bitmap| && BitMoved(bitmap, after, id, on)
    ensures Decode(after) == if on then Decode(bitmap) + {id} else Decode(bitmap) - {id}
  {
    forall v | 1 <= v <= 8 * |bitmap|
      ensures Names(after, v) <==> if v == id then on else Names(bitmap, v)
    {
      var i, off := (v - 1) / 8, (v - 1) % 8;
      assert v == 8 * i + off + 1;
      assert HasBit(after[i], off) <==> if id == 8 * i + off + 1 then on else HasBit(bitmap[i], off);
    }
  }

  lemma SetOne(bitmap: Octets, id: int)
    requires 1 <= id <= 8 * |bitmap|
    ensures var j := (id - 1) / 8;
            Decode(bitmap[j := bitmap[j] | Mask((id - 1) % 8)]) == Decode(bitmap) + {id}
  {
    var j, k := (id - 1) / 8, (id - 1) % 8;
    SetMoves(bitmap, id, j, k);
    MovedDecodes(bitmap, bitmap[j := bitmap[j] | Mask(k)], id, true);
  }

  lemma ClearOne(bitmap: Octets, id: int)
    requires 1 <= id <= 8 * |bitmap|
    ensures var j := (id - 1) / 8;
            Decode(bitmap[j := bitmap[j] & !Mask((id - 1) % 8)]) == Decode(bitmap) - {id}
  {
    var j, k := (id - 1) / 8, (id - 1) % 8;
    ClearMoves(bitmap, id, j, k);
    MovedDecodes(bitmap, bitmap[j := bitmap[j] & !Mask(k)], id, false);
  }

  // ----- edits as functions of the whole octet string -----

  /** What `_edit_vlan_bits` yields when every named VLAN fits a 512-octet map. */
  function EditedVlanBits(bitmap: Octets, add: set<int>, remove: set<int>): Octets {
    Encode((Decode(bitmap) + add) - remove, Max(|bitmap|, VLAN_BITMAP_BYTES))
  }

  /** Only the named bits move and no octet is lost. */
  lemma EditFlipsOnlyNamedBits(bitmap: Octets, add: set<int>, remove: set<int>)
    requires forall v :: v in add ==> 1 <= v <= 8 * VLAN_BITMAP_BYTES
    ensures Decode(EditedVlanBits(bitmap, add, remove)) == (Decode(bitmap) + add) - remove
    ensures |EditedVlanBits(bitmap, add, remove)| >= |bitmap|
    ensures forall v :: v !in add + remove ==>
              (v in Decode(EditedVlanBits(bitmap, add, remove)) <==> v in Decode(bitmap))
  {
    DecodeEncode((Decode(bitmap) + add) - remove, Max(|bitmap|, VLAN_BITMAP_BYTES));
  }

  /** The octet count `set_port_bit` settles on. */
  function PortBitWidth(current: Octets, port: int, present: bool, width: nat): nat
    requires 1 <= port
  {
    var base := Max(8, Max(|current|, width));
    if present then Max(base, (port - 1) / 8 + 1) else base
  }

  /** write.py `set_port_bit`: one port's bit, every other one preserved. */
  function SetPortBit(current: Octets, port: int, present: bool, width: nat): Octets
    requires 1 <= port
  {
    Encode(if present then Decode(current) + {port} else Decode(current) - {port},
           PortBitWidth(current, port, present, width))
  }

  lemma SetPortBitNames(current: Octets, port: int, present: bool, width: nat)
    requires 1 <= port
    ensures Decode(SetPortBit(current, port, present, width))
         == if present then Decode(current) + {port} else Decode(current) - {port}
    ensures |SetPortBit(current, port, present, width)| >= |current|
  {
    DecodeEncode(if present then Decode(current) + {port} else Decode(current) - {port},
                 PortBitWidth(current, port, present, width));
  }

  // ----- the source's loops -----

  /** snmp_write.py `_vlan_bitmap`: a fresh 512-octet map with the given bits raised. */
  method VlanBitmap(vlans: set<int>) returns (r: Octets)
    requires forall v :: v in vlans ==> 1 <= v <= 8 * VLAN_BITMAP_BYTES
    ensures r == Encode(vlans, VLAN_BITMAP_BYTES)
  {
    var data := new bv8[VLAN_BITMAP_BYTES](i => 0);
    DecodeZeros(data[..]);
    RaiseBits(data, vlans);
    r := data[..];
    assert Decode(r) == vlans;
    EncodeDecode(r);
  }

  lemma DecodeZeros(bitmap: Octets)
    requires forall i :: 0 <= i < |bitmap| ==> bitmap[i] == 0
    ensures Decode(bitmap) == {}
  {
  }

  method AnyOf<T>(s: set<T>) returns (x: T)
    requires s != {}
    ensures x in s
  {
    x :| x in s;
  }

  method RaiseBits(data: array<bv8>, ids: set<int>)
    requires forall v :: v in ids ==> 1 <= v <= 8 * data.Length
    modifies data
    ensures Decode(data[..]) == old(Decode(data[..])) + ids
  {
    var todo := ids;
    while todo != {}
      invariant todo <= ids
      invariant Decode(data[..]) == old(Decode(data[..])) + (ids - todo)
    {
      var v := AnyOf(todo);
      ghost var was := data[..];
      SetOne(was, v);
      data[(v - 1) / 8] := data[(v - 1) / 8] | Mask((v - 1) % 8);
      assert data[..] == was[(v - 1) / 8 := was[(v - 1) / 8] | Mask((v - 1) % 8)];
      todo := todo - {v};
    }
  }

  method LowerBits(data: array<bv8>, ids: set<int>)
    requires forall v :: v in ids ==> 1 <= v <= 8 * data.Length
    modifies data
    ensures Decode(data[..]) == old(Decode(data[..])) - ids
  {
    var todo := ids;
    while todo != {}
      invariant todo <= ids
      invariant Decode(data[..]) == old(Decode(data[..])) - (ids - todo)
    {
      var v := AnyOf(todo);
      ghost var was := data[..];
      ClearOne(was, v);
      data[(v - 1) / 8] := data[(v - 1) / 8] & !Mask((v - 1) % 8);
      assert data[..] == was[(v - 1) / 8 := was[(v - 1) / 8] & !Mask((v - 1) % 8)];
      todo := todo - {v};
    }
  }

  /** snmp_write.py `_edit_vlan_bits`, for any VLAN ids from 1 up. */
  method EditVlanBits(bitmap: Octets, add: set<int>, remove: set<int>) returns (r: Octets)
    requires forall v :: v in add ==> 1 <= v
    requires forall v :: v in remove ==> 1 <= v
    ensures Decode(r) == (Decode(bitmap) + add) - remove
    ensures |r| >= |bitmap| && |r| >= VLAN_BITMAP_BYTES
    ensures (forall v :: v in add + remove ==> v <= 8 * VLAN_BITMAP_BYTES) ==>
              r == EditedVlanBits(bitmap, add, remove)
  {
    var highest := HighestOr(add + remove, 1);
    var need := Max((highest - 1) / 8 + 1, VLAN_BITMAP_BYTES);
    var size := Max(|bitmap|, need);
    var data := new bv8[size](i => 0);
    forall i | 0 <= i < |bitmap| {
      data[i] := bitmap[i];
    }
    DecodePadded(bitmap, data[..]);
    RaiseBits(data, add);
    LowerBits(data, remove);
    r := data[..];
    EncodeDecode(r);
  }

  lemma DecodePadded(bitmap: Octets, longer: Octets)
    requires |bitmap| <= |longer| && longer[..|bitmap|] == bitmap
    requires forall i :: |bitmap| <= i < |longer| ==> longer[i] == 0
    ensures Decode(longer) == Decode(bitmap)
  {
    forall id ensures id in Decode(longer) <==> id in Decode(bitmap) {
      if 1 <= id <= 8 * |longer| {
        var i := (id - 1) / 8;
        assert i < |bitmap| ==> longer[i] == longer[..|bitmap|][i];
      }
    }
  }

  method HighestOr(ids: set<int>, default: int) returns (h: int)
    requires forall v :: v in ids ==> default <= v
    ensures forall v :: v in ids ==> v <= h
    ensures h == default || h in ids
  {
    h := default;
    var todo := ids;
    while todo != {}
      invariant todo <= ids
      invariant forall v :: v in ids ==> v in todo || v <= h
      invariant h == default || h in ids
    {
      var v := AnyOf(todo);
      if h < v { h := v; }
      todo := todo - {v};
    }
  }

  /** write.py `encode_port_bitmap`: raise one bit per port, growing as needed. */
  method EncodePortBitmap(ports: set<int>, width: nat) returns (r: Octets)
    requires forall p :: p in ports ==> 1 <= p
    ensures Decode(r) == ports
    ensures |r| >= width
    ensures |r| == width || exists p :: p in ports && |r| == (p - 1) / 8 + 1
    ensures r == Encode(ports, |r|)
  {
    r := seq(width, i => 0);
    DecodeZeros(r);
    var todo := ports;
    while todo != {}
      invariant todo <= ports
      invariant Decode(r) == ports - todo
      invariant |r| >= width
      invariant |r| == width || exists p :: p in ports && |r| == (p - 1) / 8 + 1
    {
      var p := AnyOf(todo);
      ghost var was := r;
      while (p - 1) / 8 >= |r|
        invariant was <= r && forall i :: |was| <= i < |r| ==> r[i] == 0
        invariant |r| == |was| || |r| <= (p - 1) / 8 + 1
      {
        r := r + [0];
      }
      DecodePadded(was, r);
      SetOne(r, p);
      r := r[(p - 1) / 8 := r[(p - 1) / 8] | Mask((p - 1) % 8)];
      todo := todo - {p};
    }
    EncodeDecode(r);
  }

  /** write.py `set_port_bit`. */
  method SetPortBitLoop(current: Octets, port: int, present: bool, width: nat) returns (r: Octets)
    requires 1 <= port
    ensures r == SetPortBit(current, port, present, width)
  {
    var ports := Decode(current);
    if present {
      ports := ports + {port};
    } else {
      ports := ports - {port};
    }
    var target := Max(8, Max(|current|, width));
    r := EncodePortBitmap(ports, target);
    DecodeBounds(r);
    if present {
      assert port in Decode(r);
    }
  }

  lemma DecodeBounds(bitmap: Octets)
    ensures forall id :: id in Decode(bitmap) ==> 1 <= id && (id - 1) / 8 + 1 <= |bitmap|
  {
  }
}
