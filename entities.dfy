/** The entity decoders of the dispatch loop in crates/rrv-core/src/parser/mod.rs:
    the wire form of one item of each entity kind, the `count` item parsers that read it,
    and the `for` loops that turn items into entities: each entity records
    `idx = commons.len()` and then its `Common` is pushed onto `commons`. Also the level
    geometry record, which pushes no `Common`. */
module Entities {
  import opened Wire
  import opened Datatypes
  import opened Primitives
  import opened Decoders

  // ------------------------------------------------------------ wire items

  /** The tuple `count` returns per door: `((id, common), (serial, checkpoint, variant,
      size))`, with the two enum bytes still raw. */
  datatype DoorRecord = DoorRecord(id: i32, common: Common, serial: u16, checkpoint: bool,
                                   variant: u8, size: u8)

  datatype LadderRecord = LadderRecord(common: Common, height: F16)

  datatype TerminalRecord = TerminalRecord(id: i32, common: Common)

  /** Generators and disinfect stations share one wire form. */
  datatype SerialRecord = SerialRecord(id: i32, common: Common, serial: u16)

  datatype BulkheadRecord = BulkheadRecord(id: i32, common: Common, serial: u16,
                                           layers: BulkheadLayers)

  /** One resource container of any schema version; the fields a version does not have
      are `None`, and the lock byte is still raw. */
  datatype ContainerRecord = ContainerRecord(
    id: i32, common: Common, serial: u16, locker: bool,
    consumable: Option<IdentifierType>, registered: Option<bool>, lockByte: Option<u8>)

  datatype SpitterRecord = SpitterRecord(id: i32, common: Common, scale: F16)

  /** `tuple((le_i32, parse_commons))`, the prefix of every item but ladders: 24 bytes, the
      rotation index at offset 17. */
  function IdCommon(s: Input): (r: Parsed<(i32, Common)>)
    ensures Advances(s, r)
    ensures r.Ok? <==> |s| >= 24 && s[17] <= 3
    ensures r.Ok? ==> r.rest == s[24..]
  {
    var id :- LeI32(s);
    var common :- ParseCommons(id.rest);
    DropDrop(s, 4, 20);
    Ok((id.value, common.value), common.rest)
  }

  lemma IdCommonLayout(s: Input)
    requires IdCommon(s).Ok?
    ensures var r := IdCommon(s);
      && FromI32(r.value.0) == LittleEndian(s[..4])
      && ParseCommons(s[4..]) == Ok(r.value.1, s[24..])
  {
    DropDrop(s, 4, 20);
  }

  /** Door item: 29 bytes. */
  function ParseDoorRecord(s: Input): (r: Parsed<DoorRecord>)
    ensures Advances(s, r)
    ensures r.Ok? <==> |s| >= 29 && s[17] <= 3
    ensures r.Ok? ==> r.rest == s[29..]
  {
    var head :- IdCommon(s);
    var serial :- LeU16(head.rest);
    var checkpoint :- ParseReplayBool(serial.rest);
    var variant :- LeU8(checkpoint.rest);
    var size :- LeU8(variant.rest);
    DropDrop(s, 24, 5);
    Ok(DoorRecord(head.value.0, head.value.1, serial.value, checkpoint.value,
                  variant.value, size.value), size.rest)
  }

  /** The door fields in wire order, the two enum bytes still raw. */
  lemma DoorRecordLayout(s: Input)
    requires ParseDoorRecord(s).Ok?
    ensures var r := ParseDoorRecord(s);
      && IdCommon(s) == Ok((r.value.id, r.value.common), s[24..])
      && r.value.serial == LittleEndian(s[24..26])
      && (r.value.checkpoint <==> s[26] > 0)
      && r.value.variant == s[27]
      && r.value.size == s[28]
  {
    assert s[24..][..2] == s[24..26];
    DropDrop(s, 24, 2);
  }

  /** Ladder item: a `Common` and an `f16`, 22 bytes. */
  function ParseLadderRecord(s: Input): (r: Parsed<LadderRecord>)
    ensures Advances(s, r)
    ensures r.Ok? <==> |s| >= 22 && s[13] <= 3
    ensures r.Ok? ==> r.rest == s[22..]
  {
    var common :- ParseCommons(s);
    var height :- LeF16(common.rest);
    DropDrop(s, 20, 2);
    Ok(LadderRecord(common.value, height.value), height.rest)
  }

  lemma LadderRecordLayout(s: Input)
    requires ParseLadderRecord(s).Ok?
    ensures var r := ParseLadderRecord(s);
      && ParseCommons(s) == Ok(r.value.common, s[20..])
      && r.value.height.bits == LittleEndian(s[20..22])
  {
    assert s[20..][..2] == s[20..22];
  }

  /** Terminal item: 24 bytes. */
  function ParseTerminalRecord(s: Input): (r: Parsed<TerminalRecord>)
    ensures Advances(s, r)
    ensures r.Ok? <==> |s| >= 24 && s[17] <= 3
    ensures r.Ok? ==> r.rest == s[24..]
  {
    var head :- IdCommon(s);
    Ok(TerminalRecord(head.value.0, head.value.1), head.rest)
  }

  lemma TerminalRecordLayout(s: Input)
    requires ParseTerminalRecord(s).Ok?
    ensures var r := ParseTerminalRecord(s);
      IdCommon(s) == Ok((r.value.id, r.value.common), s[24..])
  {
  }

  /** Generator or disinfect station item: 26 bytes. */
  function ParseSerialRecord(s: Input): (r: Parsed<SerialRecord>)
    ensures Advances(s, r)
    ensures r.Ok? <==> |s| >= 26 && s[17] <= 3
    ensures r.Ok? ==> r.rest == s[26..]
  {
    var head :- IdCommon(s);
    var serial :- LeU16(head.rest);
    DropDrop(s, 24, 2);
    Ok(SerialRecord(head.value.0, head.value.1, serial.value), serial.rest)
  }

  lemma SerialRecordLayout(s: Input)
    requires ParseSerialRecord(s).Ok?
    ensures var r := ParseSerialRecord(s);
      && IdCommon(s) == Ok((r.value.id, r.value.common), s[24..])
      && r.value.serial == LittleEndian(s[24..26])
  {
    assert s[24..][..2] == s[24..26];
  }

  /** Bulkhead controller item: 26 bytes, then `parse_bulkhead_dc`. */
  function ParseBulkheadRecord(s: Input): (r: Parsed<BulkheadRecord>)
    ensures Advances(s, r)
    ensures |s| < 26 || s[17] > 3 ==> r.Fail?
    ensures r.Ok? <==> |s| >= 26 && s[17] <= 3 && BulkheadDc(s[26..]).Ok?
  {
    var head :- IdCommon(s);
    var serial :- LeU16(head.rest);
    DropDrop(s, 24, 2);
    var layers :- BulkheadDc(serial.rest);
    DropDrop(s, 26, |s| - 26 - |layers.rest|);
    Ok(BulkheadRecord(head.value.0, head.value.1, serial.value, layers.value), layers.rest)
  }

  lemma BulkheadRecordLayout(s: Input)
    requires ParseBulkheadRecord(s).Ok?
    ensures var r := ParseBulkheadRecord(s);
      && IdCommon(s) == Ok((r.value.id, r.value.common), s[24..])
      && r.value.serial == LeU16(s[24..]).value
      && BulkheadDc(s[26..]) == Ok(r.value.layers, r.rest)
  {
    DropDrop(s, 24, 2);
  }

  /** Resource container item of schema 0.0.1: 27 bytes, no identifier, flag or lock. */
  function ParseContainerV1(s: Input): (r: Parsed<ContainerRecord>)
    ensures Advances(s, r)
    ensures r.Ok? <==> |s| >= 27 && s[17] <= 3
    ensures r.Ok? ==> r.rest == s[27..]
  {
    var head :- IdCommon(s);
    var serial :- LeU16(head.rest);
    var locker :- ParseReplayBool(serial.rest);
    DropDrop(s, 24, 3);
    Ok(ContainerRecord(head.value.0, head.value.1, serial.value, locker.value, None, None, None),
       locker.rest)
  }

  lemma ContainerV1Layout(s: Input)
    requires ParseContainerV1(s).Ok?
    ensures var r := ParseContainerV1(s);
      && IdCommon(s) == Ok((r.value.id, r.value.common), s[24..])
      && r.value.serial == LittleEndian(s[24..26])
      && (r.value.locker <==> s[26] > 0)
      && r.value.consumable.None? && r.value.registered.None? && r.value.lockByte.None?
  {
    assert s[24..][..2] == s[24..26];
    DropDrop(s, 24, 2);
  }

  /** Schema 0.0.2 adds an identifier and a flag after the 0.0.1 fields. */
  function ParseContainerV2(s: Input): (r: Parsed<ContainerRecord>)
    ensures Advances(s, r)
    ensures |s| < 27 || s[17] > 3 ==> r.Fail?
    ensures r.Ok? <==> && |s| >= 27 && s[17] <= 3
                       && ParseReplayIdentifierType(s[27..]).Ok?
                       && |ParseReplayIdentifierType(s[27..]).rest| >= 1
  {
    var v1 :- ParseContainerV1(s);
    var consumable :- ParseReplayIdentifierType(v1.rest);
    var registered :- ParseReplayBool(consumable.rest);
    DropDrop(s, 27, |s| - 27 - |registered.rest|);
    Ok(v1.value.(consumable := Some(consumable.value), registered := Some(registered.value)),
       registered.rest)
  }

  lemma ContainerV2Layout(s: Input)
    requires ParseContainerV2(s).Ok?
    ensures var r := ParseContainerV2(s);
      && var v1 := ParseContainerV1(s);
      && v1.Ok?
      && r.value.(consumable := None, registered := None) == v1.value
      && var consumable := ParseReplayIdentifierType(s[27..]);
      && consumable.Ok? && r.value.consumable == Some(consumable.value)
      && |consumable.rest| >= 1
      && r.value.registered == Some(consumable.rest[0] > 0)
      && r.value.lockByte.None?
      && r.rest == consumable.rest[1..]
  {
    ContainerV1Layout(s);
  }

  /** Schema 0.0.3 adds one lock byte after the 0.0.2 fields. */
  function ParseContainerV3(s: Input): (r: Parsed<ContainerRecord>)
    ensures Advances(s, r)
    ensures |s| < 27 || s[17] > 3 ==> r.Fail?
    ensures r.Ok? <==> ParseContainerV2(s).Ok? && |ParseContainerV2(s).rest| >= 1
  {
    var v2 :- ParseContainerV2(s);
    var lockType :- LeU8(v2.rest);
    DropDrop(s, |s| - |v2.rest|, 1);
    Ok(v2.value.(lockByte := Some(lockType.value)), lockType.rest)
  }

  lemma ContainerV3Layout(s: Input)
    requires ParseContainerV3(s).Ok?
    ensures var r := ParseContainerV3(s);
      && var v2 := ParseContainerV2(s);
      && v2.Ok?
      && r.value.(lockByte := None) == v2.value
      && |v2.rest| >= 1
      && r.value.lockByte == Some(v2.rest[0])
      && r.rest == v2.rest[1..]
  {
    ContainerV2Layout(s);
  }

  /** Spitter item: 26 bytes. */
  function ParseSpitterRecord(s: Input): (r: Parsed<SpitterRecord>)
    ensures Advances(s, r)
    ensures r.Ok? <==> |s| >= 26 && s[17] <= 3
    ensures r.Ok? ==> r.rest == s[26..]
  {
    var head :- IdCommon(s);
    var scale :- LeF16(head.rest);
    DropDrop(s, 24, 2);
    Ok(SpitterRecord(head.value.0, head.value.1, scale.value), scale.rest)
  }

  lemma SpitterRecordLayout(s: Input)
    requires ParseSpitterRecord(s).Ok?
    ensures var r := ParseSpitterRecord(s);
      && IdCommon(s) == Ok((r.value.id, r.value.common), s[24..])
      && r.value.scale.bits == LittleEndian(s[24..26])
  {
    assert s[24..][..2] == s[24..26];
  }

  /** All item parsers leave a suffix of their input, as `count` needs. */
  lemma ItemParsers()
    ensures IsParser(ParseDoorRecord) && IsParser(ParseLadderRecord)
    ensures IsParser(ParseTerminalRecord) && IsParser(ParseSerialRecord)
    ensures IsParser(ParseBulkheadRecord) && IsParser(ParseSpitterRecord)
    ensures IsParser(ParseContainerV1) && IsParser(ParseContainerV2) && IsParser(ParseContainerV3)
  {
    forall s ensures Advances(s, ParseDoorRecord(s)) && Advances(s, ParseLadderRecord(s))
      && Advances(s, ParseTerminalRecord(s)) && Advances(s, ParseSerialRecord(s))
      && Advances(s, ParseBulkheadRecord(s)) && Advances(s, ParseSpitterRecord(s))
      && Advances(s, ParseContainerV1(s)) && Advances(s, ParseContainerV2(s))
      && Advances(s, ParseContainerV3(s)) { }
  }

  // ------------------------------------------------------- `count` of items

  function CountDoorRecords(n: nat, s: Input): (r: Parsed<seq<DoorRecord>>)
    ensures Advances(s, r)
    ensures r.Ok? ==> |r.value| == n
  {
    ItemParsers();
    Count(ParseDoorRecord, n, s)
  }

  function CountLadderRecords(n: nat, s: Input): (r: Parsed<seq<LadderRecord>>)
    ensures Advances(s, r)
    ensures r.Ok? ==> |r.value| == n
  {
    ItemParsers();
    Count(ParseLadderRecord, n, s)
  }

  function CountTerminalRecords(n: nat, s: Input): (r: Parsed<seq<TerminalRecord>>)
    ensures Advances(s, r)
    ensures r.Ok? ==> |r.value| == n
  {
    ItemParsers();
    Count(ParseTerminalRecord, n, s)
  }

  function CountSerialRecords(n: nat, s: Input): (r: Parsed<seq<SerialRecord>>)
    ensures Advances(s, r)
    ensures r.Ok? ==> |r.value| == n
  {
    ItemParsers();
    Count(ParseSerialRecord, n, s)
  }

  function CountBulkheadRecords(n: nat, s: Input): (r: Parsed<seq<BulkheadRecord>>)
    ensures Advances(s, r)
    ensures r.Ok? ==> |r.value| == n
  {
    ItemParsers();
    Count(ParseBulkheadRecord, n, s)
  }

  function CountContainersV1(n: nat, s: Input): (r: Parsed<seq<ContainerRecord>>)
    ensures Advances(s, r)
    ensures r.Ok? ==> |r.value| == n
  {
    ItemParsers();
    Count(ParseContainerV1, n, s)
  }

  function CountContainersV2(n: nat, s: Input): (r: Parsed<seq<ContainerRecord>>)
    ensures Advances(s, r)
    ensures r.Ok? ==> |r.value| == n
  {
    ItemParsers();
    Count(ParseContainerV2, n, s)
  }

  function CountContainersV3(n: nat, s: Input): (r: Parsed<seq<ContainerRecord>>)
    ensures Advances(s, r)
    ensures r.Ok? ==> |r.value| == n
  {
    ItemParsers();
    Count(ParseContainerV3, n, s)
  }

  function CountSpitterRecords(n: nat, s: Input): (r: Parsed<seq<SpitterRecord>>)
    ensures Advances(s, r)
    ensures r.Ok? ==> |r.value| == n
  {
    ItemParsers();
    Count(ParseSpitterRecord, n, s)
  }

  // --------------------------------------------------------- items to entities

  function DoorOf(it: DoorRecord, idx: nat): Door {
    Door(it.id, idx, it.serial, it.checkpoint, DoorVariantOf(it.variant), DoorSizeOf(it.size))
  }

  function LadderOf(it: LadderRecord, idx: nat): Ladder {
    Ladder(idx, it.height)
  }

  function TerminalOf(it: TerminalRecord, idx: nat): Terminal {
    Terminal(it.id, idx)
  }

  function GeneratorOf(it: SerialRecord, idx: nat): Generator {
    Generator(it.id, idx, it.serial)
  }

  function DisinfectStationOf(it: SerialRecord, idx: nat): DisinfectStation {
    DisinfectStation(it.id, idx, it.serial)
  }

  function BulkheadControllerOf(it: BulkheadRecord, idx: nat): BulkheadController {
    BulkheadController(it.id, idx, it.serial, it.layers.0, it.layers.1, it.layers.2)
  }

  /** The lock byte goes through `LockType::from_repr` with no default. */
  function ResourceContainerOf(it: ContainerRecord, idx: nat): (rc: ResourceContainer)
    ensures rc.id == it.id && rc.idx == idx && rc.serial == it.serial && rc.locker == it.locker
    ensures rc.consumableType == it.consumable && rc.registered == it.registered
    ensures it.lockByte.None? ==> rc.lockType.None?
    ensures it.lockByte.Some? ==>
      && (rc.lockType.Some? <==> it.lockByte.value <= 2)
      && (rc.lockType.Some? ==> LockTypeRepr(rc.lockType.value) == it.lockByte.value)
  {
    ResourceContainer(it.id, idx, it.serial, it.locker, it.consumable, it.registered,
                      if it.lockByte.Some? then LockTypeFromRepr(it.lockByte.value) else None)
  }

  function SpitterOf(it: SpitterRecord, idx: nat): Spitter {
    Spitter(it.id, idx, it.scale)
  }

  // Doors

  /** One iteration of the `for` loop: the entity gets `idx = commons.len()`, then its
      `Common` is pushed. */
  function PushDoor(h: Header, it: DoorRecord): Header {
    h.(doors := h.doors + [DoorOf(it, |h.commons|)], commons := h.commons + [it.common])
  }

  /** The whole loop over `items`, one push after another. */
  function AppendDoors(h: Header, items: seq<DoorRecord>): Header
    decreases |items|
  {
    if |items| == 0 then h
    else PushDoor(AppendDoors(h, items[..|items| - 1]), items[|items| - 1])
  }

  method PushDoors(h0: Header, items: seq<DoorRecord>) returns (h: Header)
    ensures h == AppendDoors(h0, items)
  {
    h := h0;
    for k := 0 to |items|
      invariant h == AppendDoors(h0, items[..k])
    {
      var it := items[k];
      h := h.(doors := h.doors + [DoorOf(it, |h.commons|)]);
      h := h.(commons := h.commons + [it.common]);
      assert items[..k + 1][..k] == items[..k];
    }
    assert items[..|items|] == items;
  }

  /** `commons` and `doors` each grow by one element per item, the `k`-th new entity is
      built from the `k`-th item with `idx` the old length of `commons` plus `k`, its
      `Common` lands at that position, and no other part of the header changes. */
  lemma {:induction false} DoorsAppended(h: Header, items: seq<DoorRecord>)
    ensures var h' := AppendDoors(h, items);
      && |h'.commons| == |h.commons| + |items|
      && h'.commons[..|h.commons|] == h.commons
      && (forall k :: 0 <= k < |items| ==> h'.commons[|h.commons| + k] == items[k].common)
      && |h'.doors| == |h.doors| + |items|
      && h'.doors[..|h.doors|] == h.doors
      && (forall k :: 0 <= k < |items| ==>
            h'.doors[|h.doors| + k] == DoorOf(items[k], |h.commons| + k))
      && h'.(doors := h.doors, commons := h.commons) == h
  {
    DoorsCommonsAppended(h, items);
    DoorsListAppended(h, items);
    DoorsOthersKept(h, items);
  }

  lemma {:induction false} DoorsCommonsAppended(h: Header, items: seq<DoorRecord>)
    ensures var h' := AppendDoors(h, items);
      && |h'.commons| == |h.commons| + |items|
      && h'.commons[..|h.commons|] == h.commons
      && (forall k :: 0 <= k < |items| ==> h'.commons[|h.commons| + k] == items[k].common)
    decreases |items|
  {
    if |items| > 0 {
      DoorsCommonsAppended(h, items[..|items| - 1]);
    }
  }

  lemma {:induction false} DoorsListAppended(h: Header, items: seq<DoorRecord>)
    ensures var h' := AppendDoors(h, items);
      && |h'.doors| == |h.doors| + |items|
      && h'.doors[..|h.doors|] == h.doors
      && (forall k :: 0 <= k < |items| ==>
            h'.doors[|h.doors| + k] == DoorOf(items[k], |h.commons| + k))
    decreases |items|
  {
    if |items| > 0 {
      DoorsCommonsAppended(h, items[..|items| - 1]);
      DoorsListAppended(h, items[..|items| - 1]);
    }
  }

  lemma {:induction false} DoorsOthersKept(h: Header, items: seq<DoorRecord>)
    ensures var h' := AppendDoors(h, items);
      h'.(doors := h.doors, commons := h.commons) == h
    decreases |items|
  {
    if |items| > 0 {
      DoorsOthersKept(h, items[..|items| - 1]);
    }
  }

  /** In terms of the index invariant: kind `DoorKind` gains the next `|items|` indices. */
  lemma DoorsGrow(h: Header, items: seq<DoorRecord>)
    ensures GrowsBy(h, AppendDoors(h, items), DoorKind, |items|)
  {
    var h' := AppendDoors(h, items);
    DoorsAppended(h, items);
    var xs, ys := DoorIdx(h.doors), DoorIdx(h'.doors);
    assert ys == xs + Run(|h.commons|, |items|) by {
      forall j | 0 <= j < |ys| ensures ys[j] == (xs + Run(|h.commons|, |items|))[j] {
        if j >= |xs| {
          var k := j - |xs|;
          assert h'.doors[|h.doors| + k] == DoorOf(items[k], |h.commons| + k);
          assert ys[j] == h'.doors[|h.doors| + k].idx == |h.commons| + k;
          assert (xs + Run(|h.commons|, |items|))[j] == Run(|h.commons|, |items|)[k];
        } else {
          assert ys[j] == h'.doors[..|h.doors|][j].idx == xs[j];
        }
      }
    }
  }

  // Ladders

  /** One iteration of the `for` loop: the entity gets `idx = commons.len()`, then its
      `Common` is pushed. */
  function PushLadder(h: Header, it: LadderRecord): Header {
    h.(ladders := h.ladders + [LadderOf(it, |h.commons|)], commons := h.commons + [it.common])
  }

  /** The whole loop over `items`, one push after another. */
  function AppendLadders(h: Header, items: seq<LadderRecord>): Header
    decreases |items|
  {
    if |items| == 0 then h
    else PushLadder(AppendLadders(h, items[..|items| - 1]), items[|items| - 1])
  }

  method PushLadders(h0: Header, items: seq<LadderRecord>) returns (h: Header)
    ensures h == AppendLadders(h0, items)
  {
    h := h0;
    for k := 0 to |items|
      invariant h == AppendLadders(h0, items[..k])
    {
      var it := items[k];
      h := h.(ladders := h.ladders + [LadderOf(it, |h.commons|)]);
      h := h.(commons := h.commons + [it.common]);
      assert items[..k + 1][..k] == items[..k];
    }
    assert items[..|items|] == items;
  }

  /** `commons` and `ladders` each grow by one element per item, the `k`-th new entity is
      built from the `k`-th item with `idx` the old length of `commons` plus `k`, its
      `Common` lands at that position, and no other part of the header changes. */
  lemma {:induction false} LaddersAppended(h: Header, items: seq<LadderRecord>)
    ensures var h' := AppendLadders(h, items);
      && |h'.commons| == |h.commons| + |items|
      && h'.commons[..|h.commons|] == h.commons
      && (forall k :: 0 <= k < |items| ==> h'.commons[|h.commons| + k] == items[k].common)
      && |h'.ladders| == |h.ladders| + |items|
      && h'.ladders[..|h.ladders|] == h.ladders
      && (forall k :: 0 <= k < |items| ==>
            h'.ladders[|h.ladders| + k] == LadderOf(items[k], |h.commons| + k))
      && h'.(ladders := h.ladders, commons := h.commons) == h
  {
    LaddersCommonsAppended(h, items);
    LaddersListAppended(h, items);
    LaddersOthersKept(h, items);
  }

  lemma {:induction false} LaddersCommonsAppended(h: Header, items: seq<LadderRecord>)
    ensures var h' := AppendLadders(h, items);
      && |h'.commons| == |h.commons| + |items|
      && h'.commons[..|h.commons|] == h.commons
      && (forall k :: 0 <= k < |items| ==> h'.commons[|h.commons| + k] == items[k].common)
    decreases |items|
  {
    if |items| > 0 {
      LaddersCommonsAppended(h, items[..|items| - 1]);
    }
  }

  lemma {:induction false} LaddersListAppended(h: Header, items: seq<LadderRecord>)
    ensures var h' := AppendLadders(h, items);
      && |h'.ladders| == |h.ladders| + |items|
      && h'.ladders[..|h.ladders|] == h.ladders
      && (forall k :: 0 <= k < |items| ==>
            h'.ladders[|h.ladders| + k] == LadderOf(items[k], |h.commons| + k))
    decreases |items|
  {
    if |items| > 0 {
      LaddersCommonsAppended(h, items[..|items| - 1]);
      LaddersListAppended(h, items[..|items| - 1]);
    }
  }

  lemma {:induction false} LaddersOthersKept(h: Header, items: seq<LadderRecord>)
    ensures var h' := AppendLadders(h, items);
      h'.(ladders := h.ladders, commons := h.commons) == h
    decreases |items|
  {
    if |items| > 0 {
      LaddersOthersKept(h, items[..|items| - 1]);
    }
  }

  /** In terms of the index invariant: kind `LadderKind` gains the next `|items|` indices. */
  lemma LaddersGrow(h: Header, items: seq<LadderRecord>)
    ensures GrowsBy(h, AppendLadders(h, items), LadderKind, |items|)
  {
    var h' := AppendLadders(h, items);
    LaddersAppended(h, items);
    var xs, ys := LadderIdx(h.ladders), LadderIdx(h'.ladders);
    assert ys == xs + Run(|h.commons|, |items|) by {
      forall j | 0 <= j < |ys| ensures ys[j] == (xs + Run(|h.commons|, |items|))[j] {
        if j >= |xs| {
          var k := j - |xs|;
          assert h'.ladders[|h.ladders| + k] == LadderOf(items[k], |h.commons| + k);
          assert ys[j] == h'.ladders[|h.ladders| + k].idx == |h.commons| + k;
          assert (xs + Run(|h.commons|, |items|))[j] == Run(|h.commons|, |items|)[k];
        } else {
          assert ys[j] == h'.ladders[..|h.ladders|][j].idx == xs[j];
        }
      }
    }
  }

  // Terminals

  /** One iteration of the `for` loop: the entity gets `idx = commons.len()`, then its
      `Common` is pushed. */
  function PushTerminal(h: Header, it: TerminalRecord): Header {
    h.(terminals := h.terminals + [TerminalOf(it, |h.commons|)], commons := h.commons + [it.common])
  }

  /** The whole loop over `items`, one push after another. */
  function AppendTerminals(h: Header, items: seq<TerminalRecord>): Header
    decreases |items|
  {
    if |items| == 0 then h
    else PushTerminal(AppendTerminals(h, items[..|items| - 1]), items[|items| - 1])
  }

  method PushTerminals(h0: Header, items: seq<TerminalRecord>) returns (h: Header)
    ensures h == AppendTerminals(h0, items)
  {
    h := h0;
    for k := 0 to |items|
      invariant h == AppendTerminals(h0, items[..k])
    {
      var it := items[k];
      h := h.(terminals := h.terminals + [TerminalOf(it, |h.commons|)]);
      h := h.(commons := h.commons + [it.common]);
      assert items[..k + 1][..k] == items[..k];
    }
    assert items[..|items|] == items;
  }

  /** `commons` and `terminals` each grow by one element per item, the `k`-th new entity is
      built from the `k`-th item with `idx` the old length of `commons` plus `k`, its
      `Common` lands at that position, and no other part of the header changes. */
  lemma {:induction false} TerminalsAppended(h: Header, items: seq<TerminalRecord>)
    ensures var h' := AppendTerminals(h, items);
      && |h'.commons| == |h.commons| + |items|
      && h'.commons[..|h.commons|] == h.commons
      && (forall k :: 0 <= k < |items| ==> h'.commons[|h.commons| + k] == items[k].common)
      && |h'.terminals| == |h.terminals| + |items|
      && h'.terminals[..|h.terminals|] == h.terminals
      && (forall k :: 0 <= k < |items| ==>
            h'.terminals[|h.terminals| + k] == TerminalOf(items[k], |h.commons| + k))
      && h'.(terminals := h.terminals, commons := h.commons) == h
  {
    TerminalsCommonsAppended(h, items);
    TerminalsListAppended(h, items);
    TerminalsOthersKept(h, items);
  }

  lemma {:induction false} TerminalsCommonsAppended(h: Header, items: seq<TerminalRecord>)
    ensures var h' := AppendTerminals(h, items);
      && |h'.commons| == |h.commons| + |items|
      && h'.commons[..|h.commons|] == h.commons
      && (forall k :: 0 <= k < |items| ==> h'.commons[|h.commons| + k] == items[k].common)
    decreases |items|
  {
    if |items| > 0 {
      TerminalsCommonsAppended(h, items[..|items| - 1]);
    }
  }

  lemma {:induction false} TerminalsListAppended(h: Header, items: seq<TerminalRecord>)
    ensures var h' := AppendTerminals(h, items);
      && |h'.terminals| == |h.terminals| + |items|
      && h'.terminals[..|h.terminals|] == h.terminals
      && (forall k :: 0 <= k < |items| ==>
            h'.terminals[|h.terminals| + k] == TerminalOf(items[k], |h.commons| + k))
    decreases |items|
  {
    if |items| > 0 {
      TerminalsCommonsAppended(h, items[..|items| - 1]);
      TerminalsListAppended(h, items[..|items| - 1]);
    }
  }

  lemma {:induction false} TerminalsOthersKept(h: Header, items: seq<TerminalRecord>)
    ensures var h' := AppendTerminals(h, items);
      h'.(terminals := h.terminals, commons := h.commons) == h
    decreases |items|
  {
    if |items| > 0 {
      TerminalsOthersKept(h, items[..|items| - 1]);
    }
  }

  /** In terms of the index invariant: kind `TerminalKind` gains the next `|items|` indices. */
  lemma TerminalsGrow(h: Header, items: seq<TerminalRecord>)
    ensures GrowsBy(h, AppendTerminals(h, items), TerminalKind, |items|)
  {
    var h' := AppendTerminals(h, items);
    TerminalsAppended(h, items);
    var xs, ys := TerminalIdx(h.terminals), TerminalIdx(h'.terminals);
    assert ys == xs + Run(|h.commons|, |items|) by {
      forall j | 0 <= j < |ys| ensures ys[j] == (xs + Run(|h.commons|, |items|))[j] {
        if j >= |xs| {
          var k := j - |xs|;
          assert h'.terminals[|h.terminals| + k] == TerminalOf(items[k], |h.commons| + k);
          assert ys[j] == h'.terminals[|h.terminals| + k].idx == |h.commons| + k;
          assert (xs + Run(|h.commons|, |items|))[j] == Run(|h.commons|, |items|)[k];
        } else {
          assert ys[j] == h'.terminals[..|h.terminals|][j].idx == xs[j];
        }
      }
    }
  }

  // Generators

  /** One iteration of the `for` loop: the entity gets `idx = commons.len()`, then its
      `Common` is pushed. */
  function PushGenerator(h: Header, it: SerialRecord): Header {
    h.(generators := h.generators + [GeneratorOf(it, |h.commons|)], commons := h.commons + [it.common])
  }

  /** The whole loop over `items`, one push after another. */
  function AppendGenerators(h: Header, items: seq<SerialRecord>): Header
    decreases |items|
  {
    if |items| == 0 then h
    else PushGenerator(AppendGenerators(h, items[..|items| - 1]), items[|items| - 1])
  }

  method PushGenerators(h0: Header, items: seq<SerialRecord>) returns (h: Header)
    ensures h == AppendGenerators(h0, items)
  {
    h := h0;
    for k := 0 to |items|
      invariant h == AppendGenerators(h0, items[..k])
    {
      var it := items[k];
      h := h.(generators := h.generators + [GeneratorOf(it, |h.commons|)]);
      h := h.(commons := h.commons + [it.common]);
      assert items[..k + 1][..k] == items[..k];
    }
    assert items[..|items|] == items;
  }

  /** `commons` and `generators` each grow by one element per item, the `k`-th new entity is
      built from the `k`-th item with `idx` the old length of `commons` plus `k`, its
      `Common` lands at that position, and no other part of the header changes. */
  lemma {:induction false} GeneratorsAppended(h: Header, items: seq<SerialRecord>)
    ensures var h' := AppendGenerators(h, items);
      && |h'.commons| == |h.commons| + |items|
      && h'.commons[..|h.commons|] == h.commons
      && (forall k :: 0 <= k < |items| ==> h'.commons[|h.commons| + k] == items[k].common)
      && |h'.generators| == |h.generators| + |items|
      && h'.generators[..|h.generators|] == h.generators
      && (forall k :: 0 <= k < |items| ==>
            h'.generators[|h.generators| + k] == GeneratorOf(items[k], |h.commons| + k))
      && h'.(generators := h.generators, commons := h.commons) == h
  {
    GeneratorsCommonsAppended(h, items);
    GeneratorsListAppended(h, items);
    GeneratorsOthersKept(h, items);
  }

  lemma {:induction false} GeneratorsCommonsAppended(h: Header, items: seq<SerialRecord>)
    ensures var h' := AppendGenerators(h, items);
      && |h'.commons| == |h.commons| + |items|
      && h'.commons[..|h.commons|] == h.commons
      && (forall k :: 0 <= k < |items| ==> h'.commons[|h.commons| + k] == items[k].common)
    decreases |items|
  {
    if |items| > 0 {
      GeneratorsCommonsAppended(h, items[..|items| - 1]);
    }
  }

  lemma {:induction false} GeneratorsListAppended(h: Header, items: seq<SerialRecord>)
    ensures var h' := AppendGenerators(h, items);
      && |h'.generators| == |h.generators| + |items|
      && h'.generators[..|h.generators|] == h.generators
      && (forall k :: 0 <= k < |items| ==>
            h'.generators[|h.generators| + k] == GeneratorOf(items[k], |h.commons| + k))
    decreases |items|
  {
    if |items| > 0 {
      GeneratorsCommonsAppended(h, items[..|items| - 1]);
      GeneratorsListAppended(h, items[..|items| - 1]);
    }
  }

  lemma {:induction false} GeneratorsOthersKept(h: Header, items: seq<SerialRecord>)
    ensures var h' := AppendGenerators(h, items);
      h'.(generators := h.generators, commons := h.commons) == h
    decreases |items|
  {
    if |items| > 0 {
      GeneratorsOthersKept(h, items[..|items| - 1]);
    }
  }

  /** In terms of the index invariant: kind `GeneratorKind` gains the next `|items|` indices. */
  lemma GeneratorsGrow(h: Header, items: seq<SerialRecord>)
    ensures GrowsBy(h, AppendGenerators(h, items), GeneratorKind, |items|)
  {
    var h' := AppendGenerators(h, items);
    GeneratorsAppended(h, items);
    var xs, ys := GeneratorIdx(h.generators), GeneratorIdx(h'.generators);
    assert ys == xs + Run(|h.commons|, |items|) by {
      forall j | 0 <= j < |ys| ensures ys[j] == (xs + Run(|h.commons|, |items|))[j] {
        if j >= |xs| {
          var k := j - |xs|;
          assert h'.generators[|h.generators| + k] == GeneratorOf(items[k], |h.commons| + k);
          assert ys[j] == h'.generators[|h.generators| + k].idx == |h.commons| + k;
          assert (xs + Run(|h.commons|, |items|))[j] == Run(|h.commons|, |items|)[k];
        } else {
          assert ys[j] == h'.generators[..|h.generators|][j].idx == xs[j];
        }
      }
    }
  }

  // DisinfectStations

  /** One iteration of the `for` loop: the entity gets `idx = commons.len()`, then its
      `Common` is pushed. */
  function PushDisinfectStation(h: Header, it: SerialRecord): Header {
    h.(disinfectStations := h.disinfectStations + [DisinfectStationOf(it, |h.commons|)], commons := h.commons + [it.common])
  }

  /** The whole loop over `items`, one push after another. */
  function AppendDisinfectStations(h: Header, items: seq<SerialRecord>): Header
    decreases |items|
  {
    if |items| == 0 then h
    else PushDisinfectStation(AppendDisinfectStations(h, items[..|items| - 1]), items[|items| - 1])
  }

  method PushDisinfectStations(h0: Header, items: seq<SerialRecord>) returns (h: Header)
    ensures h == AppendDisinfectStations(h0, items)
  {
    h := h0;
    for k := 0 to |items|
      invariant h == AppendDisinfectStations(h0, items[..k])
    {
      var it := items[k];
      h := h.(disinfectStations := h.disinfectStations + [DisinfectStationOf(it, |h.commons|)]);
      h := h.(commons := h.commons + [it.common]);
      assert items[..k + 1][..k] == items[..k];
    }
    assert items[..|items|] == items;
  }

  /** `commons` and `disinfectStations` each grow by one element per item, the `k`-th new entity is
      built from the `k`-th item with `idx` the old length of `commons` plus `k`, its
      `Common` lands at that position, and no other part of the header changes. */
  lemma {:induction false} DisinfectStationsAppended(h: Header, items: seq<SerialRecord>)
    ensures var h' := AppendDisinfectStations(h, items);
      && |h'.commons| == |h.commons| + |items|
      && h'.commons[..|h.commons|] == h.commons
      && (forall k :: 0 <= k < |items| ==> h'.commons[|h.commons| + k] == items[k].common)
      && |h'.disinfectStations| == |h.disinfectStations| + |items|
      && h'.disinfectStations[..|h.disinfectStations|] == h.disinfectStations
      && (forall k :: 0 <= k < |items| ==>
            h'.disinfectStations[|h.disinfectStations| + k] == DisinfectStationOf(items[k], |h.commons| + k))
      && h'.(disinfectStations := h.disinfectStations, commons := h.commons) == h
  {
    DisinfectStationsCommonsAppended(h, items);
    DisinfectStationsListAppended(h, items);
    DisinfectStationsOthersKept(h, items);
  }

  lemma {:induction false} DisinfectStationsCommonsAppended(h: Header, items: seq<SerialRecord>)
    ensures var h' := AppendDisinfectStations(h, items);
      && |h'.commons| == |h.commons| + |items|
      && h'.commons[..|h.commons|] == h.commons
      && (forall k :: 0 <= k < |items| ==> h'.commons[|h.commons| + k] == items[k].common)
    decreases |items|
  {
    if |items| > 0 {
      DisinfectStationsCommonsAppended(h, items[..|items| - 1]);
    }
  }

  lemma {:induction false} DisinfectStationsListAppended(h: Header, items: seq<SerialRecord>)
    ensures var h' := AppendDisinfectStations(h, items);
      && |h'.disinfectStations| == |h.disinfectStations| + |items|
      && h'.disinfectStations[..|h.disinfectStations|] == h.disinfectStations
      && (forall k :: 0 <= k < |items| ==>
            h'.disinfectStations[|h.disinfectStations| + k] == DisinfectStationOf(items[k], |h.commons| + k))
    decreases |items|
  {
    if |items| > 0 {
      DisinfectStationsCommonsAppended(h, items[..|items| - 1]);
      DisinfectStationsListAppended(h, items[..|items| - 1]);
    }
  }

  lemma {:induction false} DisinfectStationsOthersKept(h: Header, items: seq<SerialRecord>)
    ensures var h' := AppendDisinfectStations(h, items);
      h'.(disinfectStations := h.disinfectStations, commons := h.commons) == h
    decreases |items|
  {
    if |items| > 0 {
      DisinfectStationsOthersKept(h, items[..|items| - 1]);
    }
  }

  /** In terms of the index invariant: kind `DisinfectStationKind` gains the next `|items|` indices. */
  lemma DisinfectStationsGrow(h: Header, items: seq<SerialRecord>)
    ensures GrowsBy(h, AppendDisinfectStations(h, items), DisinfectStationKind, |items|)
  {
    var h' := AppendDisinfectStations(h, items);
    DisinfectStationsAppended(h, items);
    var xs, ys := DisinfectStationIdx(h.disinfectStations), DisinfectStationIdx(h'.disinfectStations);
    assert ys == xs + Run(|h.commons|, |items|) by {
      forall j | 0 <= j < |ys| ensures ys[j] == (xs + Run(|h.commons|, |items|))[j] {
        if j >= |xs| {
          var k := j - |xs|;
          assert h'.disinfectStations[|h.disinfectStations| + k] == DisinfectStationOf(items[k], |h.commons| + k);
          assert ys[j] == h'.disinfectStations[|h.disinfectStations| + k].idx == |h.commons| + k;
          assert (xs + Run(|h.commons|, |items|))[j] == Run(|h.commons|, |items|)[k];
        } else {
          assert ys[j] == h'.disinfectStations[..|h.disinfectStations|][j].idx == xs[j];
        }
      }
    }
  }

  // BulkheadControllers

  /** One iteration of the `for` loop: the entity gets `idx = commons.len()`, then its
      `Common` is pushed. */
  function PushBulkheadController(h: Header, it: BulkheadRecord): Header {
    h.(bulkheadControllers := h.bulkheadControllers + [BulkheadControllerOf(it, |h.commons|)], commons := h.commons + [it.common])
  }

  /** The whole loop over `items`, one push after another. */
  function AppendBulkheadControllers(h: Header, items: seq<BulkheadRecord>): Header
    decreases |items|
  {
    if |items| == 0 then h
    else PushBulkheadController(AppendBulkheadControllers(h, items[..|items| - 1]), items[|items| - 1])
  }

  method PushBulkheadControllers(h0: Header, items: seq<BulkheadRecord>) returns (h: Header)
    ensures h == AppendBulkheadControllers(h0, items)
  {
    h := h0;
    for k := 0 to |items|
      invariant h == AppendBulkheadControllers(h0, items[..k])
    {
      var it := items[k];
      h := h.(bulkheadControllers := h.bulkheadControllers + [BulkheadControllerOf(it, |h.commons|)]);
      h := h.(commons := h.commons + [it.common]);
      assert items[..k + 1][..k] == items[..k];
    }
    assert items[..|items|] == items;
  }

  /** `commons` and `bulkheadControllers` each grow by one element per item, the `k`-th new entity is
      built from the `k`-th item with `idx` the old length of `commons` plus `k`, its
      `Common` lands at that position, and no other part of the header changes. */
  lemma {:induction false} BulkheadControllersAppended(h: Header, items: seq<BulkheadRecord>)
    ensures var h' := AppendBulkheadControllers(h, items);
      && |h'.commons| == |h.commons| + |items|
      && h'.commons[..|h.commons|] == h.commons
      && (forall k :: 0 <= k < |items| ==> h'.commons[|h.commons| + k] == items[k].common)
      && |h'.bulkheadControllers| == |h.bulkheadControllers| + |items|
      && h'.bulkheadControllers[..|h.bulkheadControllers|] == h.bulkheadControllers
      && (forall k :: 0 <= k < |items| ==>
            h'.bulkheadControllers[|h.bulkheadControllers| + k] == BulkheadControllerOf(items[k], |h.commons| + k))
      && h'.(bulkheadControllers := h.bulkheadControllers, commons := h.commons) == h
  {
    BulkheadControllersCommonsAppended(h, items);
    BulkheadControllersListAppended(h, items);
    BulkheadControllersOthersKept(h, items);
  }

  lemma {:induction false} BulkheadControllersCommonsAppended(h: Header, items: seq<BulkheadRecord>)
    ensures var h' := AppendBulkheadControllers(h, items);
      && |h'.commons| == |h.commons| + |items|
      && h'.commons[..|h.commons|] == h.commons
      && (forall k :: 0 <= k < |items| ==> h'.commons[|h.commons| + k] == items[k].common)
    decreases |items|
  {
    if |items| > 0 {
      BulkheadControllersCommonsAppended(h, items[..|items| - 1]);
    }
  }

  lemma {:induction false} BulkheadControllersListAppended(h: Header, items: seq<BulkheadRecord>)
    ensures var h' := AppendBulkheadControllers(h, items);
      && |h'.bulkheadControllers| == |h.bulkheadControllers| + |items|
      && h'.bulkheadControllers[..|h.bulkheadControllers|] == h.bulkheadControllers
      && (forall k :: 0 <= k < |items| ==>
            h'.bulkheadControllers[|h.bulkheadControllers| + k] == BulkheadControllerOf(items[k], |h.commons| + k))
    decreases |items|
  {
    if |items| > 0 {
      BulkheadControllersCommonsAppended(h, items[..|items| - 1]);
      BulkheadControllersListAppended(h, items[..|items| - 1]);
    }
  }

  lemma {:induction false} BulkheadControllersOthersKept(h: Header, items: seq<BulkheadRecord>)
    ensures var h' := AppendBulkheadControllers(h, items);
      h'.(bulkheadControllers := h.bulkheadControllers, commons := h.commons) == h
    decreases |items|
  {
    if |items| > 0 {
      BulkheadControllersOthersKept(h, items[..|items| - 1]);
    }
  }

  /** In terms of the index invariant: kind `BulkheadControllerKind` gains the next `|items|` indices. */
  lemma BulkheadControllersGrow(h: Header, items: seq<BulkheadRecord>)
    ensures GrowsBy(h, AppendBulkheadControllers(h, items), BulkheadControllerKind, |items|)
  {
    var h' := AppendBulkheadControllers(h, items);
    BulkheadControllersAppended(h, items);
    var xs, ys := BulkheadControllerIdx(h.bulkheadControllers), BulkheadControllerIdx(h'.bulkheadControllers);
    assert ys == xs + Run(|h.commons|, |items|) by {
      forall j | 0 <= j < |ys| ensures ys[j] == (xs + Run(|h.commons|, |items|))[j] {
        if j >= |xs| {
          var k := j - |xs|;
          assert h'.bulkheadControllers[|h.bulkheadControllers| + k] == BulkheadControllerOf(items[k], |h.commons| + k);
          assert ys[j] == h'.bulkheadControllers[|h.bulkheadControllers| + k].idx == |h.commons| + k;
          assert (xs + Run(|h.commons|, |items|))[j] == Run(|h.commons|, |items|)[k];
        } else {
          assert ys[j] == h'.bulkheadControllers[..|h.bulkheadControllers|][j].idx == xs[j];
        }
      }
    }
  }

  // ResourceContainers

  /** One iteration of the `for` loop: the entity gets `idx = commons.len()`, then its
      `Common` is pushed. */
  function PushResourceContainer(h: Header, it: ContainerRecord): Header {
    h.(resourceContainers := h.resourceContainers + [ResourceContainerOf(it, |h.commons|)], commons := h.commons + [it.common])
  }

  /** The whole loop over `items`, one push after another. */
  function AppendResourceContainers(h: Header, items: seq<ContainerRecord>): Header
    decreases |items|
  {
    if |items| == 0 then h
    else PushResourceContainer(AppendResourceContainers(h, items[..|items| - 1]), items[|items| - 1])
  }

  method PushResourceContainers(h0: Header, items: seq<ContainerRecord>) returns (h: Header)
    ensures h == AppendResourceContainers(h0, items)
  {
    h := h0;
    for k := 0 to |items|
      invariant h == AppendResourceContainers(h0, items[..k])
    {
      var it := items[k];
      h := h.(resourceContainers := h.resourceContainers + [ResourceContainerOf(it, |h.commons|)]);
      h := h.(commons := h.commons + [it.common]);
      assert items[..k + 1][..k] == items[..k];
    }
    assert items[..|items|] == items;
  }

  /** `commons` and `resourceContainers` each grow by one element per item, the `k`-th new entity is
      built from the `k`-th item with `idx` the old length of `commons` plus `k`, its
      `Common` lands at that position, and no other part of the header changes. */
  lemma {:induction false} ResourceContainersAppended(h: Header, items: seq<ContainerRecord>)
    ensures var h' := AppendResourceContainers(h, items);
      && |h'.commons| == |h.commons| + |items|
      && h'.commons[..|h.commons|] == h.commons
      && (forall k :: 0 <= k < |items| ==> h'.commons[|h.commons| + k] == items[k].common)
      && |h'.resourceContainers| == |h.resourceContainers| + |items|
      && h'.resourceContainers[..|h.resourceContainers|] == h.resourceContainers
      && (forall k :: 0 <= k < |items| ==>
            h'.resourceContainers[|h.resourceContainers| + k] == ResourceContainerOf(items[k], |h.commons| + k))
      && h'.(resourceContainers := h.resourceContainers, commons := h.commons) == h
  {
    ResourceContainersCommonsAppended(h, items);
    ResourceContainersListAppended(h, items);
    ResourceContainersOthersKept(h, items);
  }

  lemma {:induction false} ResourceContainersCommonsAppended(h: Header, items: seq<ContainerRecord>)
    ensures var h' := AppendResourceContainers(h, items);
      && |h'.commons| == |h.commons| + |items|
      && h'.commons[..|h.commons|] == h.commons
      && (forall k :: 0 <= k < |items| ==> h'.commons[|h.commons| + k] == items[k].common)
    decreases |items|
  {
    if |items| > 0 {
      ResourceContainersCommonsAppended(h, items[..|items| - 1]);
    }
  }

  lemma {:induction false} ResourceContainersListAppended(h: Header, items: seq<ContainerRecord>)
    ensures var h' := AppendResourceContainers(h, items);
      && |h'.resourceContainers| == |h.resourceContainers| + |items|
      && h'.resourceContainers[..|h.resourceContainers|] == h.resourceContainers
      && (forall k :: 0 <= k < |items| ==>
            h'.resourceContainers[|h.resourceContainers| + k] == ResourceContainerOf(items[k], |h.commons| + k))
    decreases |items|
  {
    if |items| > 0 {
      ResourceContainersCommonsAppended(h, items[..|items| - 1]);
      ResourceContainersListAppended(h, items[..|items| - 1]);
    }
  }

  lemma {:induction false} ResourceContainersOthersKept(h: Header, items: seq<ContainerRecord>)
    ensures var h' := AppendResourceContainers(h, items);
      h'.(resourceContainers := h.resourceContainers, commons := h.commons) == h
    decreases |items|
  {
    if |items| > 0 {
      ResourceContainersOthersKept(h, items[..|items| - 1]);
    }
  }

  /** In terms of the index invariant: kind `ResourceContainerKind` gains the next `|items|` indices. */
  lemma ResourceContainersGrow(h: Header, items: seq<ContainerRecord>)
    ensures GrowsBy(h, AppendResourceContainers(h, items), ResourceContainerKind, |items|)
  {
    var h' := AppendResourceContainers(h, items);
    ResourceContainersAppended(h, items);
    var xs, ys := ResourceContainerIdx(h.resourceContainers), ResourceContainerIdx(h'.resourceContainers);
    assert ys == xs + Run(|h.commons|, |items|) by {
      forall j | 0 <= j < |ys| ensures ys[j] == (xs + Run(|h.commons|, |items|))[j] {
        if j >= |xs| {
          var k := j - |xs|;
          assert h'.resourceContainers[|h.resourceContainers| + k] == ResourceContainerOf(items[k], |h.commons| + k);
          assert ys[j] == h'.resourceContainers[|h.resourceContainers| + k].idx == |h.commons| + k;
          assert (xs + Run(|h.commons|, |items|))[j] == Run(|h.commons|, |items|)[k];
        } else {
          assert ys[j] == h'.resourceContainers[..|h.resourceContainers|][j].idx == xs[j];
        }
      }
    }
  }

  // Spitters

  /** One iteration of the `for` loop: the entity gets `idx = commons.len()`, then its
      `Common` is pushed. */
  function PushSpitter(h: Header, it: SpitterRecord): Header {
    h.(spitters := h.spitters + [SpitterOf(it, |h.commons|)], commons := h.commons + [it.common])
  }

  /** The whole loop over `items`, one push after another. */
  function AppendSpitters(h: Header, items: seq<SpitterRecord>): Header
    decreases |items|
  {
    if |items| == 0 then h
    else PushSpitter(AppendSpitters(h, items[..|items| - 1]), items[|items| - 1])
  }

  method PushSpitters(h0: Header, items: seq<SpitterRecord>) returns (h: Header)
    ensures h == AppendSpitters(h0, items)
  {
    h := h0;
    for k := 0 to |items|
      invariant h == AppendSpitters(h0, items[..k])
    {
      var it := items[k];
      h := h.(spitters := h.spitters + [SpitterOf(it, |h.commons|)]);
      h := h.(commons := h.commons + [it.common]);
      assert items[..k + 1][..k] == items[..k];
    }
    assert items[..|items|] == items;
  }

  /** `commons` and `spitters` each grow by one element per item, the `k`-th new entity is
      built from the `k`-th item with `idx` the old length of `commons` plus `k`, its
      `Common` lands at that position, and no other part of the header changes. */
  lemma {:induction false} SpittersAppended(h: Header, items: seq<SpitterRecord>)
    ensures var h' := AppendSpitters(h, items);
      && |h'.commons| == |h.commons| + |items|
      && h'.commons[..|h.commons|] == h.commons
      && (forall k :: 0 <= k < |items| ==> h'.commons[|h.commons| + k] == items[k].common)
      && |h'.spitters| == |h.spitters| + |items|
      && h'.spitters[..|h.spitters|] == h.spitters
      && (forall k :: 0 <= k < |items| ==>
            h'.spitters[|h.spitters| + k] == SpitterOf(items[k], |h.commons| + k))
      && h'.(spitters := h.spitters, commons := h.commons) == h
  {
    SpittersCommonsAppended(h, items);
    SpittersListAppended(h, items);
    SpittersOthersKept(h, items);
  }

  lemma {:induction false} SpittersCommonsAppended(h: Header, items: seq<SpitterRecord>)
    ensures var h' := AppendSpitters(h, items);
      && |h'.commons| == |h.commons| + |items|
      && h'.commons[..|h.commons|] == h.commons
      && (forall k :: 0 <= k < |items| ==> h'.commons[|h.commons| + k] == items[k].common)
    decreases |items|
  {
    if |items| > 0 {
      SpittersCommonsAppended(h, items[..|items| - 1]);
    }
  }

  lemma {:induction false} SpittersListAppended(h: Header, items: seq<SpitterRecord>)
    ensures var h' := AppendSpitters(h, items);
      && |h'.spitters| == |h.spitters| + |items|
      && h'.spitters[..|h.spitters|] == h.spitters
      && (forall k :: 0 <= k < |items| ==>
            h'.spitters[|h.spitters| + k] == SpitterOf(items[k], |h.commons| + k))
    decreases |items|
  {
    if |items| > 0 {
      SpittersCommonsAppended(h, items[..|items| - 1]);
      SpittersListAppended(h, items[..|items| - 1]);
    }
  }

  lemma {:induction false} SpittersOthersKept(h: Header, items: seq<SpitterRecord>)
    ensures var h' := AppendSpitters(h, items);
      h'.(spitters := h.spitters, commons := h.commons) == h
    decreases |items|
  {
    if |items| > 0 {
      SpittersOthersKept(h, items[..|items| - 1]);
    }
  }

  /** In terms of the index invariant: kind `SpitterKind` gains the next `|items|` indices. */
  lemma SpittersGrow(h: Header, items: seq<SpitterRecord>)
    ensures GrowsBy(h, AppendSpitters(h, items), SpitterKind, |items|)
  {
    var h' := AppendSpitters(h, items);
    SpittersAppended(h, items);
    var xs, ys := SpitterIdx(h.spitters), SpitterIdx(h'.spitters);
    assert ys == xs + Run(|h.commons|, |items|) by {
      forall j | 0 <= j < |ys| ensures ys[j] == (xs + Run(|h.commons|, |items|))[j] {
        if j >= |xs| {
          var k := j - |xs|;
          assert h'.spitters[|h.spitters| + k] == SpitterOf(items[k], |h.commons| + k);
          assert ys[j] == h'.spitters[|h.spitters| + k].idx == |h.commons| + k;
          assert (xs + Run(|h.commons|, |items|))[j] == Run(|h.commons|, |items|)[k];
        } else {
          assert ys[j] == h'.spitters[..|h.spitters|][j].idx == xs[j];
        }
      }
    }
  }

  // ------------------------------------------------ the invariant, kind by kind

  lemma DoorsStep(h: Header, items: seq<DoorRecord>)
    ensures Extends(h, AppendDoors(h, items))
    ensures WellIndexed(h) ==> WellIndexed(AppendDoors(h, items))
  {
    DoorsAppended(h, items);
    DoorsGrow(h, items);
    if WellIndexed(h) {
      GrowKeepsWellIndexed(h, AppendDoors(h, items), DoorKind, |items|);
    }
  }

  lemma LaddersStep(h: Header, items: seq<LadderRecord>)
    ensures Extends(h, AppendLadders(h, items))
    ensures WellIndexed(h) ==> WellIndexed(AppendLadders(h, items))
  {
    LaddersAppended(h, items);
    LaddersGrow(h, items);
    if WellIndexed(h) {
      GrowKeepsWellIndexed(h, AppendLadders(h, items), LadderKind, |items|);
    }
  }

  lemma TerminalsStep(h: Header, items: seq<TerminalRecord>)
    ensures Extends(h, AppendTerminals(h, items))
    ensures WellIndexed(h) ==> WellIndexed(AppendTerminals(h, items))
  {
    TerminalsAppended(h, items);
    TerminalsGrow(h, items);
    if WellIndexed(h) {
      GrowKeepsWellIndexed(h, AppendTerminals(h, items), TerminalKind, |items|);
    }
  }

  lemma GeneratorsStep(h: Header, items: seq<SerialRecord>)
    ensures Extends(h, AppendGenerators(h, items))
    ensures WellIndexed(h) ==> WellIndexed(AppendGenerators(h, items))
  {
    GeneratorsAppended(h, items);
    GeneratorsGrow(h, items);
    if WellIndexed(h) {
      GrowKeepsWellIndexed(h, AppendGenerators(h, items), GeneratorKind, |items|);
    }
  }

  lemma DisinfectStationsStep(h: Header, items: seq<SerialRecord>)
    ensures Extends(h, AppendDisinfectStations(h, items))
    ensures WellIndexed(h) ==> WellIndexed(AppendDisinfectStations(h, items))
  {
    DisinfectStationsAppended(h, items);
    DisinfectStationsGrow(h, items);
    if WellIndexed(h) {
      GrowKeepsWellIndexed(h, AppendDisinfectStations(h, items), DisinfectStationKind, |items|);
    }
  }

  lemma BulkheadControllersStep(h: Header, items: seq<BulkheadRecord>)
    ensures Extends(h, AppendBulkheadControllers(h, items))
    ensures WellIndexed(h) ==> WellIndexed(AppendBulkheadControllers(h, items))
  {
    BulkheadControllersAppended(h, items);
    BulkheadControllersGrow(h, items);
    if WellIndexed(h) {
      GrowKeepsWellIndexed(h, AppendBulkheadControllers(h, items), BulkheadControllerKind, |items|);
    }
  }

  lemma ResourceContainersStep(h: Header, items: seq<ContainerRecord>)
    ensures Extends(h, AppendResourceContainers(h, items))
    ensures WellIndexed(h) ==> WellIndexed(AppendResourceContainers(h, items))
  {
    ResourceContainersAppended(h, items);
    ResourceContainersGrow(h, items);
    if WellIndexed(h) {
      GrowKeepsWellIndexed(h, AppendResourceContainers(h, items), ResourceContainerKind, |items|);
    }
  }

  lemma SpittersStep(h: Header, items: seq<SpitterRecord>)
    ensures Extends(h, AppendSpitters(h, items))
    ensures WellIndexed(h) ==> WellIndexed(AppendSpitters(h, items))
  {
    SpittersAppended(h, items);
    SpittersGrow(h, items);
    if WellIndexed(h) {
      GrowKeepsWellIndexed(h, AppendSpitters(h, items), SpitterKind, |items|);
    }
  }

  // ------------------------------------------------------- the entity arms

  /** The `Doors` arm: a `u16` count, that many items, then the `for` loop. */
  function DecodeDoors(h: Header, s: Input): (r: Parsed<Header>)
    ensures Advances(s, r)
  {
    var n :- LeU16(s);
    var items :- CountDoorRecords(n.value, n.rest);
    Ok(AppendDoors(h, items.value), items.rest)
  }

  /** What a successful `Doors` record does to the header: `commons` and this kind's
      list gain one element per item the count announced, the kind takes the next indices,
      nothing else changes, and the index invariant is kept. */
  lemma DoorsArm(h: Header, s: Input)
    requires DecodeDoors(h, s).Ok?
    ensures var r := DecodeDoors(h, s);
      && LeU16(s).Ok?
      && GrowsBy(h, r.value, DoorKind, LeU16(s).value)
      && r.value.(doors := h.doors, commons := h.commons) == h
      && Extends(h, r.value)
      && (WellIndexed(h) ==> WellIndexed(r.value))
  {
    var n := LeU16(s);
    var items := CountDoorRecords(n.value, n.rest);
    DoorsAppended(h, items.value);
    DoorsGrow(h, items.value);
    DoorsStep(h, items.value);
  }

  /** A door record is guarded by its rotation byte at offset 17. */
  lemma DoorGuarded()
    ensures Guarded(ParseDoorRecord, 29, 17, 3)
    ensures forall u :: ParseDoorRecord(u).Ok? ==> ParseDoorRecord(u).rest == u[29..]
  {
    forall u ensures ParseDoorRecord(u).Ok? <==> |u| >= 29 && u[17] <= 3 { }
  }

  /** The door items parse exactly when every slot does. */
  lemma DoorSlots(n: nat, t: Input)
    ensures CountDoorRecords(n, t).Ok? <==> forall k :: 0 <= k < n ==> SlotFits(t, 29, 17, 3, k)
  {
    ItemParsers();
    DoorGuarded();
    GuardedCount(ParseDoorRecord, 29, 17, 3, n, t);
  }

  /** When a `Doors` record decodes: a truncated count fails as truncated; otherwise the
      record decodes iff the `2 + 29 * n` bytes of its `n` items are there and the rotation
      byte of every item is at most 3. */
  lemma DoorsDecodes(h: Header, s: Input)
    ensures |s| < 2 ==> DecodeDoors(h, s) == Fail(Truncated)
    ensures |s| >= 2 ==>
      var n := LeU16(s).value;
      DecodeDoors(h, s).Ok? <==> && |s| >= 2 + 29 * n
                                 && forall k :: 0 <= k < n ==> SlotFits(s[2..], 29, 17, 3, k)
  {
    if |s| >= 2 {
      var n := LeU16(s).value;
      DoorSlots(n, s[2..]);
      assert DecodeDoors(h, s).Ok? <==> CountDoorRecords(n, s[2..]).Ok?;
      if n > 0 && (forall k :: 0 <= k < n ==> SlotFits(s[2..], 29, 17, 3, k)) {
        assert SlotFits(s[2..], 29, 17, 3, n - 1);
      }
    }
  }

  /** The `Ladders` arm: a `u16` count, that many items, then the `for` loop. */
  function DecodeLadders(h: Header, s: Input): (r: Parsed<Header>)
    ensures Advances(s, r)
  {
    var n :- LeU16(s);
    var items :- CountLadderRecords(n.value, n.rest);
    Ok(AppendLadders(h, items.value), items.rest)
  }

  /** What a successful `Ladders` record does to the header: `commons` and this kind's
      list gain one element per item the count announced, the kind takes the next indices,
      nothing else changes, and the index invariant is kept. */
  lemma LaddersArm(h: Header, s: Input)
    requires DecodeLadders(h, s).Ok?
    ensures var r := DecodeLadders(h, s);
      && LeU16(s).Ok?
      && GrowsBy(h, r.value, LadderKind, LeU16(s).value)
      && r.value.(ladders := h.ladders, commons := h.commons) == h
      && Extends(h, r.value)
      && (WellIndexed(h) ==> WellIndexed(r.value))
  {
    var n := LeU16(s);
    var items := CountLadderRecords(n.value, n.rest);
    LaddersAppended(h, items.value);
    LaddersGrow(h, items.value);
    LaddersStep(h, items.value);
  }

  /** The `Terminals` arm: a `u16` count, that many items, then the `for` loop. */
  function DecodeTerminals(h: Header, s: Input): (r: Parsed<Header>)
    ensures Advances(s, r)
  {
    var n :- LeU16(s);
    var items :- CountTerminalRecords(n.value, n.rest);
    Ok(AppendTerminals(h, items.value), items.rest)
  }

  /** What a successful `Terminals` record does to the header: `commons` and this kind's
      list gain one element per item the count announced, the kind takes the next indices,
      nothing else changes, and the index invariant is kept. */
  lemma TerminalsArm(h: Header, s: Input)
    requires DecodeTerminals(h, s).Ok?
    ensures var r := DecodeTerminals(h, s);
      && LeU16(s).Ok?
      && GrowsBy(h, r.value, TerminalKind, LeU16(s).value)
      && r.value.(terminals := h.terminals, commons := h.commons) == h
      && Extends(h, r.value)
      && (WellIndexed(h) ==> WellIndexed(r.value))
  {
    var n := LeU16(s);
    var items := CountTerminalRecords(n.value, n.rest);
    TerminalsAppended(h, items.value);
    TerminalsGrow(h, items.value);
    TerminalsStep(h, items.value);
  }

  /** The `Generators` arm: a `u16` count, that many items, then the `for` loop. */
  function DecodeGenerators(h: Header, s: Input): (r: Parsed<Header>)
    ensures Advances(s, r)
  {
    var n :- LeU16(s);
    var items :- CountSerialRecords(n.value, n.rest);
    Ok(AppendGenerators(h, items.value), items.rest)
  }

  /** What a successful `Generators` record does to the header: `commons` and this kind's
      list gain one element per item the count announced, the kind takes the next indices,
      nothing else changes, and the index invariant is kept. */
  lemma GeneratorsArm(h: Header, s: Input)
    requires DecodeGenerators(h, s).Ok?
    ensures var r := DecodeGenerators(h, s);
      && LeU16(s).Ok?
      && GrowsBy(h, r.value, GeneratorKind, LeU16(s).value)
      && r.value.(generators := h.generators, commons := h.commons) == h
      && Extends(h, r.value)
      && (WellIndexed(h) ==> WellIndexed(r.value))
  {
    var n := LeU16(s);
    var items := CountSerialRecords(n.value, n.rest);
    GeneratorsAppended(h, items.value);
    GeneratorsGrow(h, items.value);
    GeneratorsStep(h, items.value);
  }

  /** The `DisinfectStations` arm: a `u16` count, that many items, then the `for` loop. */
  function DecodeDisinfectStations(h: Header, s: Input): (r: Parsed<Header>)
    ensures Advances(s, r)
  {
    var n :- LeU16(s);
    var items :- CountSerialRecords(n.value, n.rest);
    Ok(AppendDisinfectStations(h, items.value), items.rest)
  }

  /** What a successful `DisinfectStations` record does to the header: `commons` and this kind's
      list gain one element per item the count announced, the kind takes the next indices,
      nothing else changes, and the index invariant is kept. */
  lemma DisinfectStationsArm(h: Header, s: Input)
    requires DecodeDisinfectStations(h, s).Ok?
    ensures var r := DecodeDisinfectStations(h, s);
      && LeU16(s).Ok?
      && GrowsBy(h, r.value, DisinfectStationKind, LeU16(s).value)
      && r.value.(disinfectStations := h.disinfectStations, commons := h.commons) == h
      && Extends(h, r.value)
      && (WellIndexed(h) ==> WellIndexed(r.value))
  {
    var n := LeU16(s);
    var items := CountSerialRecords(n.value, n.rest);
    DisinfectStationsAppended(h, items.value);
    DisinfectStationsGrow(h, items.value);
    DisinfectStationsStep(h, items.value);
  }

  /** The `BulkheadControllers` arm: a `u16` count, that many items, then the `for` loop. */
  function DecodeBulkheadControllers(h: Header, s: Input): (r: Parsed<Header>)
    ensures Advances(s, r)
  {
    var n :- LeU16(s);
    var items :- CountBulkheadRecords(n.value, n.rest);
    Ok(AppendBulkheadControllers(h, items.value), items.rest)
  }

  /** What a successful `BulkheadControllers` record does to the header: `commons` and this kind's
      list gain one element per item the count announced, the kind takes the next indices,
      nothing else changes, and the index invariant is kept. */
  lemma BulkheadControllersArm(h: Header, s: Input)
    requires DecodeBulkheadControllers(h, s).Ok?
    ensures var r := DecodeBulkheadControllers(h, s);
      && LeU16(s).Ok?
      && GrowsBy(h, r.value, BulkheadControllerKind, LeU16(s).value)
      && r.value.(bulkheadControllers := h.bulkheadControllers, commons := h.commons) == h
      && Extends(h, r.value)
      && (WellIndexed(h) ==> WellIndexed(r.value))
  {
    var n := LeU16(s);
    var items := CountBulkheadRecords(n.value, n.rest);
    BulkheadControllersAppended(h, items.value);
    BulkheadControllersGrow(h, items.value);
    BulkheadControllersStep(h, items.value);
  }

  /** The `Vanilla.Map.ResourceContainers` arm for schema 0.0.1. */
  function DecodeContainersV1(h: Header, s: Input): (r: Parsed<Header>)
    ensures Advances(s, r)
  {
    var n :- LeU16(s);
    var items :- CountContainersV1(n.value, n.rest);
    Ok(AppendResourceContainers(h, items.value), items.rest)
  }

  /** What a successful `ContainersV1` record does to the header: `commons` and this kind's
      list gain one element per item the count announced, the kind takes the next indices,
      nothing else changes, and the index invariant is kept. */
  lemma ContainersV1Arm(h: Header, s: Input)
    requires DecodeContainersV1(h, s).Ok?
    ensures var r := DecodeContainersV1(h, s);
      && LeU16(s).Ok?
      && GrowsBy(h, r.value, ResourceContainerKind, LeU16(s).value)
      && r.value.(resourceContainers := h.resourceContainers, commons := h.commons) == h
      && Extends(h, r.value)
      && (WellIndexed(h) ==> WellIndexed(r.value))
  {
    var n := LeU16(s);
    var items := CountContainersV1(n.value, n.rest);
    ResourceContainersAppended(h, items.value);
    ResourceContainersGrow(h, items.value);
    ResourceContainersStep(h, items.value);
  }

  /** The `Vanilla.Map.ResourceContainers` arm for schema 0.0.2. */
  function DecodeContainersV2(h: Header, s: Input): (r: Parsed<Header>)
    ensures Advances(s, r)
  {
    var n :- LeU16(s);
    var items :- CountContainersV2(n.value, n.rest);
    Ok(AppendResourceContainers(h, items.value), items.rest)
  }

  /** What a successful `ContainersV2` record does to the header: `commons` and this kind's
      list gain one element per item the count announced, the kind takes the next indices,
      nothing else changes, and the index invariant is kept. */
  lemma ContainersV2Arm(h: Header, s: Input)
    requires DecodeContainersV2(h, s).Ok?
    ensures var r := DecodeContainersV2(h, s);
      && LeU16(s).Ok?
      && GrowsBy(h, r.value, ResourceContainerKind, LeU16(s).value)
      && r.value.(resourceContainers := h.resourceContainers, commons := h.commons) == h
      && Extends(h, r.value)
      && (WellIndexed(h) ==> WellIndexed(r.value))
  {
    var n := LeU16(s);
    var items := CountContainersV2(n.value, n.rest);
    ResourceContainersAppended(h, items.value);
    ResourceContainersGrow(h, items.value);
    ResourceContainersStep(h, items.value);
  }

  /** The `Vanilla.Map.ResourceContainers` arm for schema 0.0.3. */
  function DecodeContainersV3(h: Header, s: Input): (r: Parsed<Header>)
    ensures Advances(s, r)
  {
    var n :- LeU16(s);
    var items :- CountContainersV3(n.value, n.rest);
    Ok(AppendResourceContainers(h, items.value), items.rest)
  }

  /** What a successful `ContainersV3` record does to the header: `commons` and this kind's
      list gain one element per item the count announced, the kind takes the next indices,
      nothing else changes, and the index invariant is kept. */
  lemma ContainersV3Arm(h: Header, s: Input)
    requires DecodeContainersV3(h, s).Ok?
    ensures var r := DecodeContainersV3(h, s);
      && LeU16(s).Ok?
      && GrowsBy(h, r.value, ResourceContainerKind, LeU16(s).value)
      && r.value.(resourceContainers := h.resourceContainers, commons := h.commons) == h
      && Extends(h, r.value)
      && (WellIndexed(h) ==> WellIndexed(r.value))
  {
    var n := LeU16(s);
    var items := CountContainersV3(n.value, n.rest);
    ResourceContainersAppended(h, items.value);
    ResourceContainersGrow(h, items.value);
    ResourceContainersStep(h, items.value);
  }

  /** The fields each schema's item parser fills. */
  predicate ShapeV1(it: ContainerRecord) {
    it.consumable.None? && it.registered.None? && it.lockByte.None?
  }

  predicate ShapeV2(it: ContainerRecord) {
    it.consumable.Some? && it.registered.Some? && it.lockByte.None?
  }

  predicate ShapeV3(it: ContainerRecord) {
    it.consumable.Some? && it.registered.Some? && it.lockByte.Some?
  }

  lemma CountShapesV1(n: nat, s: Input)
    ensures CountContainersV1(n, s).Ok? ==>
      forall k :: 0 <= k < n ==> ShapeV1(CountContainersV1(n, s).value[k])
  {
    ItemParsers();
    forall u | ParseContainerV1(u).Ok? ensures ShapeV1(ParseContainerV1(u).value) {
      ContainerV1Layout(u);
    }
    CountAll(ParseContainerV1, ShapeV1, n, s);
  }

  lemma CountShapesV2(n: nat, s: Input)
    ensures CountContainersV2(n, s).Ok? ==>
      forall k :: 0 <= k < n ==> ShapeV2(CountContainersV2(n, s).value[k])
  {
    ItemParsers();
    forall u | ParseContainerV2(u).Ok? ensures ShapeV2(ParseContainerV2(u).value) {
      ContainerV2Layout(u);
    }
    CountAll(ParseContainerV2, ShapeV2, n, s);
  }

  lemma ContainerV3Shape(u: Input)
    requires ParseContainerV3(u).Ok?
    ensures ShapeV3(ParseContainerV3(u).value)
  {
    ContainerV3Layout(u);
    ContainerV2Layout(u);
  }

  lemma ContainerV3Shapes()
    ensures forall u :: ParseContainerV3(u).Ok? ==> ShapeV3(ParseContainerV3(u).value)
  {
    forall u | ParseContainerV3(u).Ok? ensures ShapeV3(ParseContainerV3(u).value) {
      ContainerV3Shape(u);
    }
  }

  lemma CountShapesV3(n: nat, s: Input)
    ensures CountContainersV3(n, s).Ok? ==>
      forall k :: 0 <= k < n ==> ShapeV3(CountContainersV3(n, s).value[k])
  {
    ItemParsers();
    ContainerV3Shapes();
    CountAll(ParseContainerV3, ShapeV3, n, s);
  }

  lemma AppendShapeV1(h: Header, items: seq<ContainerRecord>)
    requires forall k :: 0 <= k < |items| ==> ShapeV1(items[k])
    ensures var h' := AppendResourceContainers(h, items);
      forall k :: |h.resourceContainers| <= k < |h'.resourceContainers| ==>
        var rc := h'.resourceContainers[k];
        rc.consumableType.None? && rc.registered.None? && rc.lockType.None?
  {
    ResourceContainersAppended(h, items);
    var h' := AppendResourceContainers(h, items);
    forall k | |h.resourceContainers| <= k < |h'.resourceContainers|
      ensures var rc := h'.resourceContainers[k];
        rc.consumableType.None? && rc.registered.None? && rc.lockType.None?
    {
      var j := k - |h.resourceContainers|;
      assert h'.resourceContainers[|h.resourceContainers| + j] ==
        ResourceContainerOf(items[j], |h.commons| + j);
    }
  }

  lemma AppendShapeV2(h: Header, items: seq<ContainerRecord>)
    requires forall k :: 0 <= k < |items| ==> ShapeV2(items[k])
    ensures var h' := AppendResourceContainers(h, items);
      forall k :: |h.resourceContainers| <= k < |h'.resourceContainers| ==>
        var rc := h'.resourceContainers[k];
        rc.consumableType.Some? && rc.registered.Some? && rc.lockType.None?
  {
    ResourceContainersAppended(h, items);
    var h' := AppendResourceContainers(h, items);
    forall k | |h.resourceContainers| <= k < |h'.resourceContainers|
      ensures var rc := h'.resourceContainers[k];
        rc.consumableType.Some? && rc.registered.Some? && rc.lockType.None?
    {
      var j := k - |h.resourceContainers|;
      assert h'.resourceContainers[|h.resourceContainers| + j] ==
        ResourceContainerOf(items[j], |h.commons| + j);
    }
  }

  /** Container `base + k` was built from item `k` of schema 0.0.3. */
  predicate LockedFrom(rcs: seq<ResourceContainer>, base: nat, items: seq<ContainerRecord>, k: nat)
    requires base + |items| <= |rcs| && k < |items|
  {
    var rc := rcs[base + k];
    && rc.consumableType.Some? && rc.registered.Some?
    && items[k].lockByte.Some?
    && rc.lockType == LockTypeFromRepr(items[k].lockByte.value)
  }

  lemma AppendShapeV3(h: Header, items: seq<ContainerRecord>)
    requires forall k :: 0 <= k < |items| ==> ShapeV3(items[k])
    ensures var h' := AppendResourceContainers(h, items);
      && |h'.resourceContainers| == |h.resourceContainers| + |items|
      && forall k :: 0 <= k < |items| ==>
           LockedFrom(h'.resourceContainers, |h.resourceContainers|, items, k)
  {
    ResourceContainersAppended(h, items);
    var h' := AppendResourceContainers(h, items);
    forall k | 0 <= k < |items|
      ensures LockedFrom(h'.resourceContainers, |h.resourceContainers|, items, k)
    {
      assert ShapeV3(items[k]);
      assert h'.resourceContainers[|h.resourceContainers| + k] ==
        ResourceContainerOf(items[k], |h.commons| + k);
    }
  }

  /** Schema 0.0.1 leaves the consumable type, the registered flag and the lock type
      `None` in every container it adds. */
  lemma ContainersV1Fields(h: Header, s: Input)
    requires DecodeContainersV1(h, s).Ok?
    ensures var h' := DecodeContainersV1(h, s).value;
      forall k :: |h.resourceContainers| <= k < |h'.resourceContainers| ==>
        var rc := h'.resourceContainers[k];
        rc.consumableType.None? && rc.registered.None? && rc.lockType.None?
  {
    var n := LeU16(s);
    var items := CountContainersV1(n.value, n.rest).value;
    CountShapesV1(n.value, n.rest);
    assert DecodeContainersV1(h, s).value == AppendResourceContainers(h, items);
    AppendShapeV1(h, items);
  }

  /** Schema 0.0.2 sets the consumable type and the registered flag, not the lock type. */
  lemma ContainersV2Fields(h: Header, s: Input)
    requires DecodeContainersV2(h, s).Ok?
    ensures var h' := DecodeContainersV2(h, s).value;
      forall k :: |h.resourceContainers| <= k < |h'.resourceContainers| ==>
        var rc := h'.resourceContainers[k];
        rc.consumableType.Some? && rc.registered.Some? && rc.lockType.None?
  {
    var n := LeU16(s);
    var items := CountContainersV2(n.value, n.rest).value;
    CountShapesV2(n.value, n.rest);
    assert DecodeContainersV2(h, s).value == AppendResourceContainers(h, items);
    AppendShapeV2(h, items);
  }

  /** Schema 0.0.3 sets all three; the lock type is `LockType::from_repr` of the item's
      extra byte, so a byte above 2 gives no lock type at all. */
  lemma ContainersV3Fields(h: Header, s: Input)
    requires DecodeContainersV3(h, s).Ok?
    ensures LeU16(s).Ok? && CountContainersV3(LeU16(s).value, LeU16(s).rest).Ok?
    ensures var h' := DecodeContainersV3(h, s).value;
      var items := CountContainersV3(LeU16(s).value, LeU16(s).rest).value;
      && |h'.resourceContainers| == |h.resourceContainers| + |items|
      && forall k :: 0 <= k < |items| ==>
           LockedFrom(h'.resourceContainers, |h.resourceContainers|, items, k)
  {
    var n := LeU16(s);
    var items := CountContainersV3(n.value, n.rest).value;
    CountShapesV3(n.value, n.rest);
    assert DecodeContainersV3(h, s).value == AppendResourceContainers(h, items);
    AppendShapeV3(h, items);
  }

  /** The `Spitters` arm: a `u16` count, that many items, then the `for` loop. */
  function DecodeSpitters(h: Header, s: Input): (r: Parsed<Header>)
    ensures Advances(s, r)
  {
    var n :- LeU16(s);
    var items :- CountSpitterRecords(n.value, n.rest);
    Ok(AppendSpitters(h, items.value), items.rest)
  }

  /** What a successful `Spitters` record does to the header: `commons` and this kind's
      list gain one element per item the count announced, the kind takes the next indices,
      nothing else changes, and the index invariant is kept. */
  lemma SpittersArm(h: Header, s: Input)
    requires DecodeSpitters(h, s).Ok?
    ensures var r := DecodeSpitters(h, s);
      && LeU16(s).Ok?
      && GrowsBy(h, r.value, SpitterKind, LeU16(s).value)
      && r.value.(spitters := h.spitters, commons := h.commons) == h
      && Extends(h, r.value)
      && (WellIndexed(h) ==> WellIndexed(r.value))
  {
    var n := LeU16(s);
    var items := CountSpitterRecords(n.value, n.rest);
    SpittersAppended(h, items.value);
    SpittersGrow(h, items.value);
    SpittersStep(h, items.value);
  }

  // --------------------------------------------------------------- geometry

  /** The geometry record: dimension, vertex count (`u16`), index count (`u32`), then the
      vertices and the indices. */
  function ParseGeometry(s: Input): (r: Parsed<Geometry>)
    ensures Advances(s, r)
    ensures r.Fail? ==> r.error == Truncated
  {
    var dimension :- LeU8(s);
    var numVert :- LeU16(dimension.rest);
    var numIdx :- LeU32(numVert.rest);
    GeometryLists(dimension.value, numVert.value, numIdx.value, numIdx.rest)
  }

  /** The two lists of a geometry record, once their counts are known. */
  function GeometryLists(dimension: u8, numVert: nat, numIdx: nat, t: Input): (r: Parsed<Geometry>)
    ensures Advances(t, r)
    ensures r.Fail? ==> r.error == Truncated
    ensures (r.Ok? <==> |t| >= 12 * numVert + 2 * numIdx)
    ensures r.Ok? ==> && r.rest == t[12 * numVert + 2 * numIdx..]
                      && r.value.dimension == dimension
                      && |r.value.vertices| == numVert
                      && |r.value.indices| == numIdx
  {
    var vertices :- CountVec3(numVert, t);
    var indices :- CountU16(numIdx, vertices.rest);
    DropDrop(t, 12 * numVert, 2 * numIdx);
    Ok(Geometry(dimension, vertices.value, indices.value), indices.rest)
  }

  /** The vertices are the `f32` triples read at offsets `12 * k`, and the indices the
      `u16`s read at offsets `2 * k` after the vertices (`SlotOffset`). */
  lemma GeometryContents(dimension: u8, numVert: nat, numIdx: nat, t: Input)
    requires GeometryLists(dimension, numVert, numIdx, t).Ok?
    ensures var g := GeometryLists(dimension, numVert, numIdx, t).value;
      && (forall k :: 0 <= k < numVert ==>
            Slot(ParseVec3, 12, t, k).Ok? && g.vertices[k] == Slot(ParseVec3, 12, t, k).value)
      && (forall k :: 0 <= k < numIdx ==>
            Slot(LeU16, 2, t[12 * numVert..], k).Ok? &&
            g.indices[k] == Slot(LeU16, 2, t[12 * numVert..], k).value)
  {
    assert IsParser(ParseVec3) && Strided(ParseVec3, 12) by {
      forall u ensures Advances(u, ParseVec3(u)) { }
      forall u | ParseVec3(u).Ok? ensures |u| >= 12 && ParseVec3(u).rest == u[12..] { }
    }
    assert IsParser(LeU16) && Strided(LeU16, 2) by {
      forall u ensures Advances(u, LeU16(u)) { }
      forall u | LeU16(u).Ok? ensures |u| >= 2 && LeU16(u).rest == u[2..] { }
    }
    var vertices := Count(ParseVec3, numVert, t);
    assert vertices == CountVec3(numVert, t);
    CountSlotItems(ParseVec3, 12, numVert, t);
    RepeatedIsProduct(numVert, 12);
    var u := t[12 * numVert..];
    assert vertices.rest == u;
    assert Count(LeU16, numIdx, u) == CountU16(numIdx, u);
    CountSlotItems(LeU16, 2, numIdx, u);
  }

  /** It reads `7 + 12 * num_vert + 2 * num_idx` bytes, fails exactly when fewer are there,
      and the lists have exactly the counts read. */
  lemma GeometryLayout(s: Input)
    ensures |s| < 7 ==> ParseGeometry(s) == Fail(Truncated)
    ensures |s| >= 7 ==>
      var r := ParseGeometry(s);
      var numVert: nat := LeU16(s[1..]).value;
      var numIdx: nat := LeU32(s[3..]).value;
      var size := 7 + 12 * numVert + 2 * numIdx;
      && (r.Ok? <==> |s| >= size)
      && (r.Ok? ==> && r.rest == s[size..]
                    && r.value.dimension == s[0]
                    && |r.value.vertices| == numVert
                    && |r.value.indices| == numIdx)
  {
    if |s| >= 7 {
      var d := LeU8(s);
      assert d == Ok(s[0], s[1..]);
      DropDrop(s, 1, 2);
      var v := LeU16(s[1..]);
      assert v.rest == s[3..];
      DropDrop(s, 3, 4);
      var i := LeU32(s[3..]);
      assert i.rest == s[7..];
      var nv: nat, ni: nat := v.value, i.value;
      var g := GeometryLists(s[0], nv, ni, s[7..]);
      assert ParseGeometry(s) == g;
      if g.Ok? {
        DropDrop(s, 7, 12 * nv + 2 * ni);
      }
    }
  }

  /** `count(parse_vec3, n)`, which reads `12 * n` bytes. */
  function CountVec3(n: nat, s: Input): (r: Parsed<seq<Vec3>>)
    ensures Takes(s, r, 12 * n)
    ensures r.Ok? ==> |r.value| == n
  {
    assert IsParser(ParseVec3) by {
      forall t ensures Advances(t, ParseVec3(t)) { }
    }
    CountTakes(ParseVec3, 12, n, s);
    Count(ParseVec3, n, s)
  }

  /** `count(le_u16, n)`, which reads `2 * n` bytes. */
  function CountU16(n: nat, s: Input): (r: Parsed<seq<u16>>)
    ensures Takes(s, r, 2 * n)
    ensures r.Ok? ==> |r.value| == n
  {
    assert IsParser(LeU16) by {
      forall t ensures Advances(t, LeU16(t)) { }
    }
    CountTakes(LeU16, 2, n, s);
    Count(LeU16, n, s)
  }
}
