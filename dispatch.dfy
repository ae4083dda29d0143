/** The dispatch loop of `parse_typemap_and_header` (crates/rrv-core/src/parser/mod.rs):
    after the typemap, read a record id, resolve it with the first typemap entry that has
    it, and decode the record that entry's `(typename, version)` names, until
    `ReplayRecorder.EndOfHeader`. */
module Dispatch {
  import opened Wire
  import opened Datatypes
  import opened Types
  import opened Primitives
  import opened Decoders
  import opened Entities

  // --------------------------------------------------------- record names

  /** "ReplayRecorder.Header" */
  const RecorderHeaderName: Input :=
     [0x52, 0x65, 0x70, 0x6C, 0x61, 0x79, 0x52, 0x65, 0x63, 0x6F, 0x72, 0x64, 0x65, 0x72,
      0x2E, 0x48, 0x65, 0x61, 0x64, 0x65, 0x72]

  /** "ReplayRecorder.EndOfHeader" */
  const EndOfHeaderName: Input :=
     [0x52, 0x65, 0x70, 0x6C, 0x61, 0x79, 0x52, 0x65, 0x63, 0x6F, 0x72, 0x64, 0x65, 0x72,
      0x2E, 0x45, 0x6E, 0x64, 0x4F, 0x66, 0x48, 0x65, 0x61, 0x64, 0x65, 0x72]

  /** "Vanilla.Metadata" */
  const MetadataName: Input :=
     [0x56, 0x61, 0x6E, 0x69, 0x6C, 0x6C, 0x61, 0x2E, 0x4D, 0x65, 0x74, 0x61, 0x64, 0x61,
      0x74, 0x61]

  /** "Vanilla.Map.Geometry" */
  const GeometryName: Input :=
     [0x56, 0x61, 0x6E, 0x69, 0x6C, 0x6C, 0x61, 0x2E, 0x4D, 0x61, 0x70, 0x2E, 0x47, 0x65,
      0x6F, 0x6D, 0x65, 0x74, 0x72, 0x79]

  /** "Vanilla.Map.Geometry.EOH" */
  const GeometryEohName: Input :=
     [0x56, 0x61, 0x6E, 0x69, 0x6C, 0x6C, 0x61, 0x2E, 0x4D, 0x61, 0x70, 0x2E, 0x47, 0x65,
      0x6F, 0x6D, 0x65, 0x74, 0x72, 0x79, 0x2E, 0x45, 0x4F, 0x48]

  /** "Vanilla.Map.Doors" */
  const DoorsName: Input :=
     [0x56, 0x61, 0x6E, 0x69, 0x6C, 0x6C, 0x61, 0x2E, 0x4D, 0x61, 0x70, 0x2E, 0x44, 0x6F,
      0x6F, 0x72, 0x73]

  /** "Vanilla.Map.Ladders" */
  const LaddersName: Input :=
     [0x56, 0x61, 0x6E, 0x69, 0x6C, 0x6C, 0x61, 0x2E, 0x4D, 0x61, 0x70, 0x2E, 0x4C, 0x61,
      0x64, 0x64, 0x65, 0x72, 0x73]

  /** "Vanilla.Map.Terminals" */
  const TerminalsName: Input :=
     [0x56, 0x61, 0x6E, 0x69, 0x6C, 0x6C, 0x61, 0x2E, 0x4D, 0x61, 0x70, 0x2E, 0x54, 0x65,
      0x72, 0x6D, 0x69, 0x6E, 0x61, 0x6C, 0x73]

  /** "Vanilla.Map.Generators" */
  const GeneratorsName: Input :=
     [0x56, 0x61, 0x6E, 0x69, 0x6C, 0x6C, 0x61, 0x2E, 0x4D, 0x61, 0x70, 0x2E, 0x47, 0x65,
      0x6E, 0x65, 0x72, 0x61, 0x74, 0x6F, 0x72, 0x73]

  /** "Vanilla.Map.DisinfectStations" */
  const DisinfectStationsName: Input :=
     [0x56, 0x61, 0x6E, 0x69, 0x6C, 0x6C, 0x61, 0x2E, 0x4D, 0x61, 0x70, 0x2E, 0x44, 0x69,
      0x73, 0x69, 0x6E, 0x66, 0x65, 0x63, 0x74, 0x53, 0x74, 0x61, 0x74, 0x69, 0x6F, 0x6E,
      0x73]

  /** "Vanilla.Map.BulkheadControllers" */
  const BulkheadControllersName: Input :=
     [0x56, 0x61, 0x6E, 0x69, 0x6C, 0x6C, 0x61, 0x2E, 0x4D, 0x61, 0x70, 0x2E, 0x42, 0x75,
      0x6C, 0x6B, 0x68, 0x65, 0x61, 0x64, 0x43, 0x6F, 0x6E, 0x74, 0x72, 0x6F, 0x6C, 0x6C,
      0x65, 0x72, 0x73]

  /** "Vanilla.Map.ResourceContainers" */
  const ResourceContainersName: Input :=
     [0x56, 0x61, 0x6E, 0x69, 0x6C, 0x6C, 0x61, 0x2E, 0x4D, 0x61, 0x70, 0x2E, 0x52, 0x65,
      0x73, 0x6F, 0x75, 0x72, 0x63, 0x65, 0x43, 0x6F, 0x6E, 0x74, 0x61, 0x69, 0x6E, 0x65,
      0x72, 0x73]

  /** "Vanilla.Enemy.Spitters" */
  const SpittersName: Input :=
     [0x56, 0x61, 0x6E, 0x69, 0x6C, 0x6C, 0x61, 0x2E, 0x45, 0x6E, 0x65, 0x6D, 0x79, 0x2E,
      0x53, 0x70, 0x69, 0x74, 0x74, 0x65, 0x72, 0x73]

  /** "0.0.1" */
  const V001: Input :=
     [0x30, 0x2E, 0x30, 0x2E, 0x31]

  /** "0.0.2" */
  const V002: Input :=
     [0x30, 0x2E, 0x30, 0x2E, 0x32]

  /** "0.0.3" */
  const V003: Input :=
     [0x30, 0x2E, 0x30, 0x2E, 0x33]

  /** The arm of the `match` on `(typename, version)` a resolved record id selects. The
      arms are tried in the order the source lists them; `OtherRec` is the final
      `_ => {}`. */
  datatype RecordKind =
    | RecorderHeaderRec | EndOfHeaderRec | MetadataV1Rec | MetadataV2Rec
    | GeometryRec | GeometryEohRec | DoorsRec | LaddersRec | TerminalsRec
    | GeneratorsRec | DisinfectStationsRec | BulkheadControllersRec
    | ContainersV1Rec | ContainersV2Rec | ContainersV3Rec | SpittersRec | OtherRec

  /** Only the end-of-header name stops the loop, and exactly the pairs with no arm of
      their own fall through to `_ => {}`. */
  function Classify(t: DataType): (k: RecordKind)
    ensures k == EndOfHeaderRec <==> t.typename == EndOfHeaderName
    ensures k == OtherRec <==> !Handled(t) && t.typename != GeometryEohName
  {
    if t.typename == RecorderHeaderName then RecorderHeaderRec
    else if t.typename == EndOfHeaderName then EndOfHeaderRec
    else if t.typename == MetadataName && t.version == V001 then MetadataV1Rec
    else if t.typename == MetadataName && t.version == V002 then MetadataV2Rec
    else if t.typename == GeometryName then GeometryRec
    else if t.typename == GeometryEohName then GeometryEohRec
    else if t.typename == DoorsName then DoorsRec
    else if t.typename == LaddersName then LaddersRec
    else if t.typename == TerminalsName then TerminalsRec
    else if t.typename == GeneratorsName then GeneratorsRec
    else if t.typename == DisinfectStationsName then DisinfectStationsRec
    else if t.typename == BulkheadControllersName then BulkheadControllersRec
    else if t.typename == ResourceContainersName && t.version == V001 then ContainersV1Rec
    else if t.typename == ResourceContainersName && t.version == V002 then ContainersV2Rec
    else if t.typename == ResourceContainersName && t.version == V003 then ContainersV3Rec
    else if t.typename == SpittersName then SpittersRec
    else OtherRec
  }

  /** The `(typename, version)` pairs the loop has an arm for, other than
      `Vanilla.Map.Geometry.EOH`: the type name alone where the arm matches any version. */
  predicate Handled(t: DataType) {
    || t.typename in {RecorderHeaderName, EndOfHeaderName, GeometryName, DoorsName,
                       LaddersName, TerminalsName, GeneratorsName, DisinfectStationsName,
                       BulkheadControllersName, SpittersName}
    || (t.typename == MetadataName && t.version in {V001, V002})
    || (t.typename == ResourceContainersName && t.version in {V001, V002, V003})
  }

  /** Each arm of the `match` is taken for exactly its own type name, and for the
      metadata and resource-container arms, exactly its own version. */
  lemma ClassifyArms(t: DataType)
    ensures Classify(t) == RecorderHeaderRec <==> t.typename == RecorderHeaderName
    ensures Classify(t) == MetadataV1Rec <==> t.typename == MetadataName && t.version == V001
    ensures Classify(t) == MetadataV2Rec <==> t.typename == MetadataName && t.version == V002
    ensures Classify(t) == GeometryRec <==> t.typename == GeometryName
    ensures Classify(t) == GeometryEohRec <==> t.typename == GeometryEohName
    ensures Classify(t) == DoorsRec <==> t.typename == DoorsName
    ensures Classify(t) == LaddersRec <==> t.typename == LaddersName
    ensures Classify(t) == TerminalsRec <==> t.typename == TerminalsName
    ensures Classify(t) == GeneratorsRec <==> t.typename == GeneratorsName
    ensures Classify(t) == DisinfectStationsRec <==> t.typename == DisinfectStationsName
    ensures Classify(t) == BulkheadControllersRec <==> t.typename == BulkheadControllersName
    ensures Classify(t) == ContainersV1Rec <==> t.typename == ResourceContainersName && t.version == V001
    ensures Classify(t) == ContainersV2Rec <==> t.typename == ResourceContainersName && t.version == V002
    ensures Classify(t) == ContainersV3Rec <==> t.typename == ResourceContainersName && t.version == V003
    ensures Classify(t) == SpittersRec <==> t.typename == SpittersName
  {
  }

  // ------------------------------------------------------------ one record

  /** What one arm of the `match` does: go on with a new header, or `break`. */
  datatype Action = Next(header: Header) | Stop

  /** One arm of the `match`, after the record id has been read and resolved to `t`. */
  function DecodeRecord(t: DataType, h: Header, s: Input): (r: Parsed<Action>)
    ensures Advances(s, r)
    ensures Classify(t) == EndOfHeaderRec ==> r == Ok(Stop, s)
    ensures r.Ok? && r.value.Stop? ==> Classify(t) == EndOfHeaderRec
    ensures Classify(t) in {GeometryEohRec, OtherRec} ==> r == Ok(Next(h), s)
  {
    match Classify(t)
    case RecorderHeaderRec =>
      var version :- ParseReplayString(s);
      var master :- ParseReplayBool(version.rest);
      Ok(Next(h.(replayHeader := Some(ReplayHeader(version.value, master.value)))), master.rest)
    case EndOfHeaderRec =>
      Ok(Stop, s)
    case MetadataV1Rec =>
      var version :- ParseReplayString(s);
      Ok(Next(h.(metadata := Some(Metadata(version.value, None)))), version.rest)
    case MetadataV2Rec =>
      var version :- ParseReplayString(s);
      var compat :- ParseReplayBool(version.rest);
      Ok(Next(h.(metadata := Some(Metadata(version.value, Some(compat.value))))), compat.rest)
    case GeometryRec =>
      var geometry :- ParseGeometry(s);
      Ok(Next(h.(levelGeometry := h.levelGeometry + [geometry.value])), geometry.rest)
    case GeometryEohRec =>
      Ok(Next(h), s)
    case DoorsRec =>
      var h' :- DecodeDoors(h, s);
      Ok(Next(h'.value), h'.rest)
    case LaddersRec =>
      var h' :- DecodeLadders(h, s);
      Ok(Next(h'.value), h'.rest)
    case TerminalsRec =>
      var h' :- DecodeTerminals(h, s);
      Ok(Next(h'.value), h'.rest)
    case GeneratorsRec =>
      var h' :- DecodeGenerators(h, s);
      Ok(Next(h'.value), h'.rest)
    case DisinfectStationsRec =>
      var h' :- DecodeDisinfectStations(h, s);
      Ok(Next(h'.value), h'.rest)
    case BulkheadControllersRec =>
      var h' :- DecodeBulkheadControllers(h, s);
      Ok(Next(h'.value), h'.rest)
    case ContainersV1Rec =>
      var h' :- DecodeContainersV1(h, s);
      Ok(Next(h'.value), h'.rest)
    case ContainersV2Rec =>
      var h' :- DecodeContainersV2(h, s);
      Ok(Next(h'.value), h'.rest)
    case ContainersV3Rec =>
      var h' :- DecodeContainersV3(h, s);
      Ok(Next(h'.value), h'.rest)
    case SpittersRec =>
      var h' :- DecodeSpitters(h, s);
      Ok(Next(h'.value), h'.rest)
    case OtherRec =>
      Ok(Next(h), s)
  }

  /** The metadata record: the version string, then the old-DC flag in schema 0.0.2 only;
      nothing but `metadata` changes. */
  lemma MetadataRecord(t: DataType, h: Header, s: Input)
    requires Classify(t) in {MetadataV1Rec, MetadataV2Rec}
    ensures var r := DecodeRecord(t, h, s);
      && (r.Ok? <==> ParseReplayString(s).Ok? &&
                       (Classify(t) == MetadataV2Rec ==> |ParseReplayString(s).rest| >= 1))
      && (r.Ok? ==> && r.value.Next?
                    && r.value.header == h.(metadata := r.value.header.metadata)
                    && r.value.header.metadata.Some?
                    && r.value.header.metadata.value.version == ParseReplayString(s).value
                    && (r.value.header.metadata.value.compatabilityOldDc.Some? <==>
                          Classify(t) == MetadataV2Rec))
      && var version := ParseReplayString(s);
      && (r.Ok? && Classify(t) == MetadataV1Rec ==>
            && r.rest == version.rest
            && r.value.header.metadata.value.compatabilityOldDc == None)
      && (r.Ok? && Classify(t) == MetadataV2Rec ==>
            && r.rest == version.rest[1..]
            && r.value.header.metadata.value.compatabilityOldDc == Some(version.rest[0] > 0))
  {
  }

  /** The recorder header record: a version string and the master flag; nothing but
      `replayHeader` changes. */
  lemma RecorderHeaderRecord(t: DataType, h: Header, s: Input)
    requires Classify(t) == RecorderHeaderRec
    ensures var r := DecodeRecord(t, h, s);
      var version := ParseReplayString(s);
      && (r.Ok? <==> version.Ok? && |version.rest| >= 1)
      && (r.Ok? ==> && r.value.Next?
                    && r.value.header == h.(replayHeader := r.value.header.replayHeader)
                    && r.value.header.replayHeader == Some(ReplayHeader(version.value, version.rest[0] > 0))
                    && r.rest == version.rest[1..])
  {
  }

  /** The geometry record: one more level geometry, the one the record holds, at the end
      of the list; nothing else changes. */
  lemma GeometryRecord(t: DataType, h: Header, s: Input)
    requires Classify(t) == GeometryRec
    ensures var r := DecodeRecord(t, h, s);
      var geometry := ParseGeometry(s);
      && (r.Ok? <==> geometry.Ok?)
      && (r.Ok? ==> && r.value.Next?
                    && var h' := r.value.header;
                    && |h'.levelGeometry| == |h.levelGeometry| + 1
                    && h'.levelGeometry[..|h.levelGeometry|] == h.levelGeometry
                    && h'.levelGeometry[|h.levelGeometry|] == geometry.value
                    && h'.(levelGeometry := h.levelGeometry) == h
                    && r.rest == geometry.rest)
  {
  }

  /** The same arm as the source runs it, with the per-kind `for` loops. */
  method DecodeRecordM(t: DataType, h: Header, s: Input) returns (r: Parsed<Action>)
    ensures r == DecodeRecord(t, h, s)
  {
    match Classify(t) {
      case RecorderHeaderRec =>
        var version := ParseReplayString(s);
        if version.Fail? { return Fail(version.error); }
        var master := ParseReplayBool(version.rest);
        if master.Fail? { return Fail(master.error); }
        r := Ok(Next(h.(replayHeader := Some(ReplayHeader(version.value, master.value)))),
                master.rest);
      case EndOfHeaderRec =>
        r := Ok(Stop, s);
      case MetadataV1Rec =>
        var version := ParseReplayString(s);
        if version.Fail? { return Fail(version.error); }
        r := Ok(Next(h.(metadata := Some(Metadata(version.value, None)))), version.rest);
      case MetadataV2Rec =>
        var version := ParseReplayString(s);
        if version.Fail? { return Fail(version.error); }
        var compat := ParseReplayBool(version.rest);
        if compat.Fail? { return Fail(compat.error); }
        r := Ok(Next(h.(metadata := Some(Metadata(version.value, Some(compat.value))))),
                compat.rest);
      case GeometryRec =>
        var geometry := ParseGeometry(s);
        if geometry.Fail? { return Fail(geometry.error); }
        r := Ok(Next(h.(levelGeometry := h.levelGeometry + [geometry.value])), geometry.rest);
      case GeometryEohRec =>
        r := Ok(Next(h), s);
      case DoorsRec =>
        var n := LeU16(s);
        if n.Fail? { return Fail(n.error); }
        var items := CountDoorRecords(n.value, n.rest);
        if items.Fail? { return Fail(items.error); }
        var h' := PushDoors(h, items.value);
        r := Ok(Next(h'), items.rest);
      case LaddersRec =>
        var n := LeU16(s);
        if n.Fail? { return Fail(n.error); }
        var items := CountLadderRecords(n.value, n.rest);
        if items.Fail? { return Fail(items.error); }
        var h' := PushLadders(h, items.value);
        r := Ok(Next(h'), items.rest);
      case TerminalsRec =>
        var n := LeU16(s);
        if n.Fail? { return Fail(n.error); }
        var items := CountTerminalRecords(n.value, n.rest);
        if items.Fail? { return Fail(items.error); }
        var h' := PushTerminals(h, items.value);
        r := Ok(Next(h'), items.rest);
      case GeneratorsRec =>
        var n := LeU16(s);
        if n.Fail? { return Fail(n.error); }
        var items := CountSerialRecords(n.value, n.rest);
        if items.Fail? { return Fail(items.error); }
        var h' := PushGenerators(h, items.value);
        r := Ok(Next(h'), items.rest);
      case DisinfectStationsRec =>
        var n := LeU16(s);
        if n.Fail? { return Fail(n.error); }
        var items := CountSerialRecords(n.value, n.rest);
        if items.Fail? { return Fail(items.error); }
        var h' := PushDisinfectStations(h, items.value);
        r := Ok(Next(h'), items.rest);
      case BulkheadControllersRec =>
        var n := LeU16(s);
        if n.Fail? { return Fail(n.error); }
        var items := CountBulkheadRecords(n.value, n.rest);
        if items.Fail? { return Fail(items.error); }
        var h' := PushBulkheadControllers(h, items.value);
        r := Ok(Next(h'), items.rest);
      case ContainersV1Rec =>
        var n := LeU16(s);
        if n.Fail? { return Fail(n.error); }
        var items := CountContainersV1(n.value, n.rest);
        if items.Fail? { return Fail(items.error); }
        var h' := PushResourceContainers(h, items.value);
        r := Ok(Next(h'), items.rest);
      case ContainersV2Rec =>
        var n := LeU16(s);
        if n.Fail? { return Fail(n.error); }
        var items := CountContainersV2(n.value, n.rest);
        if items.Fail? { return Fail(items.error); }
        var h' := PushResourceContainers(h, items.value);
        r := Ok(Next(h'), items.rest);
      case ContainersV3Rec =>
        var n := LeU16(s);
        if n.Fail? { return Fail(n.error); }
        var items := CountContainersV3(n.value, n.rest);
        if items.Fail? { return Fail(items.error); }
        var h' := PushResourceContainers(h, items.value);
        r := Ok(Next(h'), items.rest);
      case SpittersRec =>
        var n := LeU16(s);
        if n.Fail? { return Fail(n.error); }
        var items := CountSpitterRecords(n.value, n.rest);
        if items.Fail? { return Fail(items.error); }
        var h' := PushSpitters(h, items.value);
        r := Ok(Next(h'), items.rest);
      case OtherRec =>
        r := Ok(Next(h), s);
    }
  }

  // ------------------------------------------------------------- the loop

  /** What the loop needs of its `match`: every arm leaves a suffix of its input. */
  ghost predicate IsArm(arm: (DataType, Header, Input) -> Parsed<Action>) {
    forall t, h, s :: Advances(s, arm(t, h, s))
  }

  /** The loop, unrolled one record at a time, for the `match` given as `arm`: read the
      id, resolve it (an id no entry has is the panic of `unwrap`), then decode the record
      it names. */
  function RecordLoop(arm: (DataType, Header, Input) -> Parsed<Action>, types: seq<DataType>,
                      h: Header, s: Input): (r: Parsed<Header>)
    requires IsArm(arm)
    ensures Advances(s, r)
    decreases |s|, 0
  {
    var id :- LeU16(s);
    match FindType(types, id.value)
    case None => Fail(UnknownTypeId)
    case Some(t) =>
      ArmAdvances(arm, t, h, id.rest);
      var r := RecordThen(arm, types, h, id.rest, arm(t, h, id.rest));
      AdvancesFrom(s, id.rest, r);
      r
  }

  /** What follows one arm of the `match` on `s`, given what the arm returned: `break`
      returns the header as it is, any other arm goes round again with the header it
      built. */
  function RecordThen(arm: (DataType, Header, Input) -> Parsed<Action>, types: seq<DataType>,
                      h: Header, s: Input, step: Parsed<Action>): (r: Parsed<Header>)
    requires IsArm(arm) && Advances(s, step)
    ensures Advances(s, r)
    decreases |s|, 1
  {
    if step.Fail? then Fail(step.error)
    else
      match step.value
      case Stop => Ok(h, step.rest)
      case Next(h') =>
        var r := RecordLoop(arm, types, h', step.rest);
        AdvancesFrom(s, step.rest, r);
        r
  }

  lemma ArmAdvances(arm: (DataType, Header, Input) -> Parsed<Action>, t: DataType, h: Header, s: Input)
    requires IsArm(arm)
    ensures Advances(s, arm(t, h, s))
  {
  }

  lemma DecodeRecordIsArm()
    ensures IsArm(DecodeRecord)
  {
    forall t, h, s ensures Advances(s, DecodeRecord(t, h, s)) { }
  }

  /** The loop of `parse_typemap_and_header` with its own `match`. */
  function HeaderLoop(types: seq<DataType>, h: Header, s: Input): (r: Parsed<Header>)
    ensures Advances(s, r)
  {
    DecodeRecordIsArm();
    RecordLoop(DecodeRecord, types, h, s)
  }

  /** The loop fails on a truncated id and on an id no entry has, and returns the header
      unchanged, after the id, when the id names the end-of-header record. */
  lemma HeaderLoopFirst(types: seq<DataType>, h: Header, s: Input)
    ensures |s| < 2 ==> HeaderLoop(types, h, s) == Fail(Truncated)
    ensures |s| >= 2 ==>
      var t := FindType(types, LeU16(s).value);
      && (t.None? ==> HeaderLoop(types, h, s) == Fail(UnknownTypeId))
      && (t.Some? && Classify(t.value) == EndOfHeaderRec ==> HeaderLoop(types, h, s) == Ok(h, s[2..]))
  {
    if |s| >= 2 {
      var t := FindType(types, LeU16(s).value);
      if t.Some? && Classify(t.value) == EndOfHeaderRec {
        DecodeRecordIsArm();
        assert RecordThen(DecodeRecord, types, h, s[2..], DecodeRecord(t.value, h, s[2..])) == Ok(h, s[2..]);
      }
    }
  }

  /** `parse_typemap_and_header` as a function of its input. */
  function TypemapAndHeader(s: Input): (r: Parsed<(Typemap, Header)>)
    ensures |s| < 2 ==> r == Fail(Truncated)
    ensures r.Ok? ==> r.value.0.entries == |r.value.0.types|
  {
    var typemap :- ParseTypemap(s);
    var header :- HeaderLoop(typemap.value.types, DefaultHeader(), typemap.rest);
    Ok((typemap.value, header.value), header.rest)
  }

  /** The header decoder starts from the default header, right after the typemap, and
      hands back the typemap it read. */
  lemma TypemapAndHeaderParts(s: Input)
    requires TypemapAndHeader(s).Ok?
    ensures var typemap := ParseTypemap(s);
      && typemap.Ok?
      && var header := HeaderLoop(typemap.value.types, DefaultHeader(), typemap.rest);
      && header.Ok?
      && TypemapAndHeader(s) == Ok((typemap.value, header.value), header.rest)
  {
  }

  /** The cursor `parse_typemap_and_header` returns lies inside its input. */
  lemma TypemapAndHeaderAdvances(s: Input)
    ensures Advances(s, TypemapAndHeader(s))
  {
    var typemap := ParseTypemap(s);
    if typemap.Ok? {
      AdvancesFrom(s, typemap.rest, HeaderLoop(typemap.value.types, DefaultHeader(), typemap.rest));
    }
  }

  /** `parse_typemap_and_header` as the source runs it: a `loop` that reassigns the cursor
      and the header until the end-of-header record. */
  method ParseTypemapAndHeader(s: Input) returns (r: Parsed<(Typemap, Header)>)
    ensures r == TypemapAndHeader(s)
  {
    var typemap := ParseTypemap(s);
    if typemap.Fail? { return Fail(typemap.error); }
    var types := typemap.value.types;
    var header := DefaultHeader();
    var i := typemap.rest;
    while true
      invariant HeaderLoop(types, header, i) == HeaderLoop(types, DefaultHeader(), typemap.rest)
      decreases |i|
    {
      var id := LeU16(i);
      if id.Fail? { return Fail(id.error); }
      var t := FindType(types, id.value);
      if t.None? { return Fail(UnknownTypeId); }
      var step := DecodeRecordM(t.value, header, id.rest);
      assert HeaderLoop(types, header, i) == RecordThen(DecodeRecord, types, header, id.rest, step);
      if step.Fail? { return Fail(step.error); }
      if step.value.Stop? {
        return Ok((typemap.value, header), step.rest);
      }
      header := step.value.header;
      i := step.rest;
    }
  }
  // -------------------------------------------------------- the invariant

  /** A record that touches neither `commons` nor an entity list keeps the invariant. */
  lemma EntitiesUnchanged(h: Header, h': Header)
    requires h'.commons == h.commons && h.levelGeometry <= h'.levelGeometry
    requires && h'.doors == h.doors && h'.ladders == h.ladders && h'.terminals == h.terminals
             && h'.generators == h.generators && h'.resourceContainers == h.resourceContainers
             && h'.disinfectStations == h.disinfectStations && h'.spitters == h.spitters
             && h'.bulkheadControllers == h.bulkheadControllers
    ensures Extends(h, h') && (WellIndexed(h) ==> WellIndexed(h'))
  {
    assert PerKind(h) == PerKind(h');
  }

  /** What a record that goes on must do: only append, and keep the index invariant. */
  predicate RecordKeeps(t: DataType, h: Header, s: Input) {
    var r := DecodeRecord(t, h, s);
    r.Ok? && r.value.Next? ==>
      && Extends(h, r.value.header)
      && (WellIndexed(h) ==> WellIndexed(r.value.header))
  }

  /** One record keeps the index invariant and only appends to the header. */
  lemma DecodeRecordKeeps(t: DataType, h: Header, s: Input)
    ensures RecordKeeps(t, h, s)
  {
    match Classify(t)
    case RecorderHeaderRec => SingletonKeeps(t, h, s);
    case MetadataV1Rec => SingletonKeeps(t, h, s);
    case MetadataV2Rec => SingletonKeeps(t, h, s);
    case GeometryRec => SingletonKeeps(t, h, s);
    case DoorsRec => DoorsRecordKeeps(t, h, s);
    case LaddersRec => LaddersRecordKeeps(t, h, s);
    case TerminalsRec => TerminalsRecordKeeps(t, h, s);
    case GeneratorsRec => GeneratorsRecordKeeps(t, h, s);
    case DisinfectStationsRec => DisinfectStationsRecordKeeps(t, h, s);
    case BulkheadControllersRec => BulkheadControllersRecordKeeps(t, h, s);
    case ContainersV1Rec => ContainersV1RecordKeeps(t, h, s);
    case ContainersV2Rec => ContainersV2RecordKeeps(t, h, s);
    case ContainersV3Rec => ContainersV3RecordKeeps(t, h, s);
    case SpittersRec => SpittersRecordKeeps(t, h, s);
    case _ =>
  }

  /** The header, metadata and geometry records leave `commons` and the entity lists as
      they are. */
  lemma SingletonKeeps(t: DataType, h: Header, s: Input)
    requires Classify(t) in {RecorderHeaderRec, MetadataV1Rec, MetadataV2Rec, GeometryRec}
    ensures RecordKeeps(t, h, s)
  {
    var r := DecodeRecord(t, h, s);
    if r.Ok? && r.value.Next? {
      EntitiesUnchanged(h, r.value.header);
    }
  }

  lemma DoorsRecordKeeps(t: DataType, h: Header, s: Input)
    requires Classify(t) == DoorsRec
    ensures RecordKeeps(t, h, s)
  {
    if DecodeDoors(h, s).Ok? {
      DoorsArm(h, s);
    }
  }

  lemma LaddersRecordKeeps(t: DataType, h: Header, s: Input)
    requires Classify(t) == LaddersRec
    ensures RecordKeeps(t, h, s)
  {
    if DecodeLadders(h, s).Ok? {
      LaddersArm(h, s);
    }
  }

  lemma TerminalsRecordKeeps(t: DataType, h: Header, s: Input)
    requires Classify(t) == TerminalsRec
    ensures RecordKeeps(t, h, s)
  {
    if DecodeTerminals(h, s).Ok? {
      TerminalsArm(h, s);
    }
  }

  lemma GeneratorsRecordKeeps(t: DataType, h: Header, s: Input)
    requires Classify(t) == GeneratorsRec
    ensures RecordKeeps(t, h, s)
  {
    if DecodeGenerators(h, s).Ok? {
      GeneratorsArm(h, s);
    }
  }

  lemma DisinfectStationsRecordKeeps(t: DataType, h: Header, s: Input)
    requires Classify(t) == DisinfectStationsRec
    ensures RecordKeeps(t, h, s)
  {
    if DecodeDisinfectStations(h, s).Ok? {
      DisinfectStationsArm(h, s);
    }
  }

  lemma BulkheadControllersRecordKeeps(t: DataType, h: Header, s: Input)
    requires Classify(t) == BulkheadControllersRec
    ensures RecordKeeps(t, h, s)
  {
    if DecodeBulkheadControllers(h, s).Ok? {
      BulkheadControllersArm(h, s);
    }
  }

  lemma ContainersV1RecordKeeps(t: DataType, h: Header, s: Input)
    requires Classify(t) == ContainersV1Rec
    ensures RecordKeeps(t, h, s)
  {
    if DecodeContainersV1(h, s).Ok? {
      ContainersV1Arm(h, s);
    }
  }

  lemma ContainersV2RecordKeeps(t: DataType, h: Header, s: Input)
    requires Classify(t) == ContainersV2Rec
    ensures RecordKeeps(t, h, s)
  {
    if DecodeContainersV2(h, s).Ok? {
      ContainersV2Arm(h, s);
    }
  }

  lemma ContainersV3RecordKeeps(t: DataType, h: Header, s: Input)
    requires Classify(t) == ContainersV3Rec
    ensures RecordKeeps(t, h, s)
  {
    if DecodeContainersV3(h, s).Ok? {
      ContainersV3Arm(h, s);
    }
  }

  lemma SpittersRecordKeeps(t: DataType, h: Header, s: Input)
    requires Classify(t) == SpittersRec
    ensures RecordKeeps(t, h, s)
  {
    if DecodeSpitters(h, s).Ok? {
      SpittersArm(h, s);
    }
  }

  /** What the loop needs of its `match` to keep the invariant: every arm that goes on
      only appends to the header and keeps it well indexed. */
  ghost predicate ArmKeeps(arm: (DataType, Header, Input) -> Parsed<Action>) {
    forall t, h, s :: arm(t, h, s).Ok? && arm(t, h, s).value.Next? ==>
      && Extends(h, arm(t, h, s).value.header)
      && (WellIndexed(h) ==> WellIndexed(arm(t, h, s).value.header))
  }

  /** The whole loop keeps the index invariant and only appends to the header, when each
      arm does. */
  lemma {:induction false} RecordLoopKeeps(arm: (DataType, Header, Input) -> Parsed<Action>,
                                           types: seq<DataType>, h: Header, s: Input)
    requires IsArm(arm) && ArmKeeps(arm)
    ensures var r := RecordLoop(arm, types, h, s);
      r.Ok? ==> Extends(h, r.value) && (WellIndexed(h) ==> WellIndexed(r.value))
    decreases |s|, 0
  {
    var id := LeU16(s);
    if id.Ok? && FindType(types, id.value).Some? {
      var t := FindType(types, id.value).value;
      ArmAdvances(arm, t, h, id.rest);
      RecordThenKeeps(arm, types, h, id.rest, arm(t, h, id.rest));
    }
  }

  lemma {:induction false} RecordThenKeeps(arm: (DataType, Header, Input) -> Parsed<Action>,
                                           types: seq<DataType>, h: Header, s: Input,
                                           step: Parsed<Action>)
    requires IsArm(arm) && ArmKeeps(arm) && Advances(s, step)
    requires step.Ok? && step.value.Next? ==>
      Extends(h, step.value.header) && (WellIndexed(h) ==> WellIndexed(step.value.header))
    ensures var r := RecordThen(arm, types, h, s, step);
      r.Ok? ==> Extends(h, r.value) && (WellIndexed(h) ==> WellIndexed(r.value))
    decreases |s|, 1
  {
    if step.Ok? && step.value.Next? {
      RecordLoopKeeps(arm, types, step.value.header, step.rest);
    }
  }

  lemma DecodeRecordArmKeeps()
    ensures ArmKeeps(DecodeRecord)
  {
    forall t, h, s ensures DecodeRecord(t, h, s).Ok? && DecodeRecord(t, h, s).value.Next? ==>
      && Extends(h, DecodeRecord(t, h, s).value.header)
      && (WellIndexed(h) ==> WellIndexed(DecodeRecord(t, h, s).value.header))
    {
      DecodeRecordKeeps(t, h, s);
      assert RecordKeeps(t, h, s);
    }
  }

  /** The loop of `parse_typemap_and_header` keeps the index invariant and only appends. */
  lemma HeaderLoopKeeps(types: seq<DataType>, h: Header, s: Input)
    ensures var r := HeaderLoop(types, h, s);
      r.Ok? ==> Extends(h, r.value) && (WellIndexed(h) ==> WellIndexed(r.value))
  {
    DecodeRecordIsArm();
    DecodeRecordArmKeeps();
    RecordLoopKeeps(DecodeRecord, types, h, s);
  }

  /** Once `parse_typemap_and_header` succeeds, every entity of every kind points at a
      `Common` of its own: the `idx` fields are exactly the positions of `commons`, each
      used once, and they grow in insertion order within each kind. In particular every
      `idx` is a valid position of `commons`. The typemap holds as many entries as its
      count says. */
  lemma DecodedHeaderWellIndexed(s: Input)
    requires TypemapAndHeader(s).Ok?
    ensures var (typemap, header) := TypemapAndHeader(s).value;
      && typemap.entries == |typemap.types|
      && WellIndexed(header)
      && |AllIdx(header)| == |header.commons|
      && (forall i, j :: 0 <= i < j < |AllIdx(header)| ==> AllIdx(header)[i] != AllIdx(header)[j])
      && (forall i :: 0 <= i < |header.doors| ==> header.doors[i].idx < |header.commons|)
      && (forall i :: 0 <= i < |header.ladders| ==> header.ladders[i].idx < |header.commons|)
      && (forall i :: 0 <= i < |header.terminals| ==> header.terminals[i].idx < |header.commons|)
      && (forall i :: 0 <= i < |header.generators| ==> header.generators[i].idx < |header.commons|)
      && (forall i :: 0 <= i < |header.resourceContainers| ==>
            header.resourceContainers[i].idx < |header.commons|)
      && (forall i :: 0 <= i < |header.disinfectStations| ==>
            header.disinfectStations[i].idx < |header.commons|)
      && (forall i :: 0 <= i < |header.bulkheadControllers| ==>
            header.bulkheadControllers[i].idx < |header.commons|)
      && (forall i :: 0 <= i < |header.spitters| ==> header.spitters[i].idx < |header.commons|)
  {
    TypemapAndHeaderParts(s);
    var typemap := ParseTypemap(s);
    HeaderLoopKeeps(typemap.value.types, DefaultHeader(), typemap.rest);
    var header := TypemapAndHeader(s).value.1;
    WellIndexedFields(header);
    WellIndexedBijective(header);
  }
}
