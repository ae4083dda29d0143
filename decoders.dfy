/** The composite readers of crates/rrv-core/src/parser/mod.rs: the tagged identifier, the
    three flag-guarded bulkhead door ids, the compressed rotation, one `Common` entry, and
    the typemap read at the start of `parse_typemap_and_header`. */
module Decoders {
  import opened Wire
  import opened Utf8
  import opened Datatypes
  import opened Types
  import opened Primitives

  // ------------------------------------------------------------ identifiers

  /** The `u16` payload of the four identifiers that carry exactly one. */
  function ShortPayload(v: IdentifierType): int {
    match v
    case AliasGear(a) => a
    case Item(x) => x
    case Enemy(x) => x
    case Vanity(x) => x
    case _ => -1
  }

  /** `parse_replay_identifier_type`: a tag byte, mapped with `unwrap_or_default`, then the
      payload of that tag. */
  function ParseReplayIdentifierType(s: Input): (r: Parsed<IdentifierType>)
    ensures Advances(s, r)
    ensures |s| == 0 ==> r == Fail(Truncated)
  {
    var tag :- LeU8(s);
    var i := tag.rest;
    match IdentifierOf(tag.value)
    case Unknown => Ok(IdentifierType.Unknown, i)
    case Gear =>
      var gear :- ParseReplayString(i);
      var alias :- LeU16(gear.rest);
      Ok(IdentifierType.Gear(gear.value, alias.value), alias.rest)
    case AliasGear =>
      var alias :- LeU16(i);
      assert i[..2] == s[1..3];
      Ok(IdentifierType.AliasGear(alias.value), alias.rest)
    case Item =>
      var id :- LeU16(i);
      assert i[..2] == s[1..3];
      Ok(IdentifierType.Item(id.value), id.rest)
    case Enemy =>
      var id :- LeU16(i);
      assert i[..2] == s[1..3];
      Ok(IdentifierType.Enemy(id.value), id.rest)
    case Vanity =>
      var id :- LeU16(i);
      assert i[..2] == s[1..3];
      Ok(IdentifierType.Vanity(id.value), id.rest)
  }

  /** What each tag reads: an unmapped tag, like tag 0, is `Unknown` and consumes the tag
      byte only; the four short tags read one `u16`; `Gear` reads a string and a `u16`. */
  lemma IdentifierLayout(s: Input)
    requires |s| > 0
    ensures var r := ParseReplayIdentifierType(s);
      && (r.Ok? ==> TagOf(r.value) == IdentifierOf(s[0]))
      && (IdentifierOf(s[0]) == Identifier.Unknown ==> r == Ok(IdentifierType.Unknown, s[1..]))
      && (IdentifierOf(s[0]) in {Identifier.AliasGear, Identifier.Item,
                                 Identifier.Enemy, Identifier.Vanity} ==>
            && Takes(s, r, 3)
            && (r.Ok? ==> ShortPayload(r.value) == LittleEndian(s[1..3])))
      && (IdentifierOf(s[0]) == Identifier.Gear ==>
            var str := ParseReplayString(s[1..]);
            && (r.Ok? <==> str.Ok? && |str.rest| >= 2)
            && (r.Ok? ==> && r.value.name == str.value
                          && r.value.alias == LittleEndian(str.rest[..2])
                          && Used(s, r) == 1 + 2 + |str.value| + 2))
  {
    var r := ParseReplayIdentifierType(s);
    var tag := IdentifierOf(s[0]);
    if tag == Identifier.Gear {
      var str := ParseReplayString(s[1..]);
      if str.Ok? && |str.rest| >= 2 {
        var alias := LeU16(str.rest);
        assert r == Ok(IdentifierType.Gear(str.value, alias.value), alias.rest);
      }
    } else if tag != Identifier.Unknown && |s| >= 3 {
      assert s[1..][..2] == s[1..3];
    }
  }

  /** An identifier the writer can produce: a gear name must be a `Writable` string. */
  predicate WritableIdentifier(v: IdentifierType) {
    v.Gear? ==> Writable(v.name)
  }

  /** Reference encoder: the tag's discriminant, then its payload. */
  function EncIdentifierType(v: IdentifierType): seq<byte> {
    [IdentifierRepr(TagOf(v))] +
    match v
    case Unknown => []
    case Gear(name, alias) => EncString(name) + EncU16(alias)
    case AliasGear(a) => EncU16(a)
    case Item(x) => EncU16(x)
    case Enemy(x) => EncU16(x)
    case Vanity(x) => EncU16(x)
  }

  lemma IdentifierRoundTrip(v: IdentifierType, t: Input)
    requires WritableIdentifier(v)
    ensures ParseReplayIdentifierType(EncIdentifierType(v) + t) == Ok(v, t)
  {
    var s := EncIdentifierType(v) + t;
    assert s[1..] == EncIdentifierType(v)[1..] + t;
    match v
    case Unknown =>
    case Gear(name, alias) =>
      assert s[1..] == EncString(name) + (EncU16(alias) + t);
      ParseReplayStringRoundTrip(name, EncU16(alias) + t);
      LeU16RoundTrip(alias, t);
    case AliasGear(a) => LeU16RoundTrip(a, t);
    case Item(x) => LeU16RoundTrip(x, t);
    case Enemy(x) => LeU16RoundTrip(x, t);
    case Vanity(x) => LeU16RoundTrip(x, t);
  }

  // ------------------------------------------------------ bulkhead door ids

  /** Main, secondary and overload door ids of one bulkhead controller. */
  type BulkheadLayers = (Option<i32>, Option<i32>, Option<i32>)

  /** Bytes one flag-guarded id takes: the flag, and four more when it is set. */
  function Width(o: Option<i32>): nat {
    if o.Some? then 5 else 1
  }

  function Present(o: Option<i32>): nat {
    if o.Some? then 1 else 0
  }

  /** One flag byte and, when it is nonzero, the `i32` that follows it. */
  function FlaggedI32(s: Input): (r: Parsed<Option<i32>>)
    ensures Advances(s, r)
    ensures r.Fail? ==> r.error == Truncated
    ensures |s| == 0 ==> r.Fail?
    ensures |s| > 0 && s[0] == 0 ==> r == Ok(None, s[1..])
    ensures |s| > 0 && s[0] > 0 ==>
      && Takes(s, r, 5)
      && (r.Ok? ==> r.value.Some? && FromI32(r.value.value) == LittleEndian(s[1..5]))
    ensures r.Ok? ==> Used(s, r) == Width(r.value)
  {
    var flag :- ParseReplayBool(s);
    if flag.value then
      var id :- LeI32(flag.rest);
      assert flag.rest[..4] == s[1..5];
      Ok(Some(id.value), id.rest)
    else Ok(None, flag.rest)
  }

  /** `parse_bulkhead_dc`: three flag-guarded ids in the order main, secondary, overload.
      Each id is present exactly when its own flag byte is nonzero, and the record takes
      three bytes plus four per id present. */
  function BulkheadDc(s: Input): (r: Parsed<BulkheadLayers>)
    ensures Advances(s, r)
    ensures r.Fail? ==> r.error == Truncated
  {
    var main :- FlaggedI32(s);
    var secondary :- FlaggedI32(main.rest);
    var ovl :- FlaggedI32(secondary.rest);
    Ok((main.value, secondary.value, ovl.value), ovl.rest)
  }

  /** Where the three flags of a decoded record are, and how much it took. */
  lemma BulkheadDcLayout(s: Input)
    requires BulkheadDc(s).Ok?
    ensures var r := BulkheadDc(s);
      var (main, secondary, ovl) := r.value;
      var p1 := Width(main);
      var p2 := p1 + Width(secondary);
      && p2 < |s|
      && (main.Some? <==> s[0] > 0)
      && (secondary.Some? <==> s[p1] > 0)
      && (ovl.Some? <==> s[p2] > 0)
      && Used(s, r) == 3 + 4 * (Present(main) + Present(secondary) + Present(ovl))
  {
    var main := FlaggedI32(s);
    var secondary := FlaggedI32(main.rest);
    assert main.rest == s[Width(main.value)..];
    assert secondary.rest == s[Width(main.value) + Width(secondary.value)..];
  }

  /** The source's step-by-step version, with the three `mut` locals. */
  method ParseBulkheadDc(s: Input) returns (r: Parsed<BulkheadLayers>)
    ensures r == BulkheadDc(s)
  {
    var mainDoorId, secondaryDoorId, overloadDoorId := None, None, None;
    var main := ParseReplayBool(s);
    if main.Fail? { return Fail(main.error); }
    var i := main.rest;
    if main.value {
      var doorId := LeI32(i);
      if doorId.Fail? { return Fail(doorId.error); }
      i := doorId.rest;
      mainDoorId := Some(doorId.value);
    }
    assert FlaggedI32(s) == Ok(mainDoorId, i);
    var secondary := ParseReplayBool(i);
    if secondary.Fail? { return Fail(secondary.error); }
    ghost var i1 := i;
    i := secondary.rest;
    if secondary.value {
      var doorId := LeI32(i);
      if doorId.Fail? { return Fail(doorId.error); }
      i := doorId.rest;
      secondaryDoorId := Some(doorId.value);
    }
    assert FlaggedI32(i1) == Ok(secondaryDoorId, i);
    var overload := ParseReplayBool(i);
    if overload.Fail? { return Fail(overload.error); }
    ghost var i2 := i;
    i := overload.rest;
    if overload.value {
      var doorId := LeI32(i);
      if doorId.Fail? { return Fail(doorId.error); }
      i := doorId.rest;
      overloadDoorId := Some(doorId.value);
    }
    assert FlaggedI32(i2) == Ok(overloadDoorId, i);
    return Ok((mainDoorId, secondaryDoorId, overloadDoorId), i);
  }

  function EncFlagged(o: Option<i32>): seq<byte> {
    if o.Some? then [1] + EncI32(o.value) else [0]
  }

  function EncBulkheadDc(v: BulkheadLayers): seq<byte> {
    EncFlagged(v.0) + EncFlagged(v.1) + EncFlagged(v.2)
  }

  lemma FlaggedRoundTrip(o: Option<i32>, t: Input)
    ensures FlaggedI32(EncFlagged(o) + t) == Ok(o, t)
  {
    if o.Some? {
      assert (EncFlagged(o) + t)[1..] == EncI32(o.value) + t;
      LeI32RoundTrip(o.value, t);
    }
  }

  lemma BulkheadDcRoundTrip(v: BulkheadLayers, t: Input)
    ensures BulkheadDc(EncBulkheadDc(v) + t) == Ok(v, t)
  {
    var s := EncBulkheadDc(v) + t;
    assert s == EncFlagged(v.0) + (EncFlagged(v.1) + (EncFlagged(v.2) + t));
    FlaggedRoundTrip(v.0, EncFlagged(v.1) + (EncFlagged(v.2) + t));
    FlaggedRoundTrip(v.1, EncFlagged(v.2) + t);
    FlaggedRoundTrip(v.2, t);
  }

  // -------------------------------------------------------------- rotation

  /** `parse_half_quat`: an index byte and three halves are read first (seven bytes); the
      index names the slot of (x, y, z, w) that is not stored, the halves fill the other
      three slots in ascending order, and the missing one is reconstructed from them. An
      index above 3 reaches `unreachable!()`. */
  function ParseHalfQuat(s: Input): (r: Parsed<Quat>)
    ensures Advances(s, r)
    ensures |s| < 7 ==> r == Fail(Truncated)
    ensures |s| >= 7 && s[0] > 3 ==> r == Fail(InvalidRotationIndex)
    ensures |s| >= 7 && s[0] <= 3 ==> r.Ok? && r.rest == s[7..]
  {
    var idx :- LeU8(s);
    var a :- LeF16(idx.rest);
    var b :- LeF16(a.rest);
    var c :- LeF16(b.rest);
    assert idx.rest == s[1..] && a.rest == s[3..] && b.rest == s[5..];
    var rec := Recovered(a.value, b.value, c.value);
    var sa, sb, sc := Stored(a.value), Stored(b.value), Stored(c.value);
    if idx.value == 0 then Ok(Quat(rec, sa, sb, sc), c.rest)
    else if idx.value == 1 then Ok(Quat(sa, rec, sb, sc), c.rest)
    else if idx.value == 2 then Ok(Quat(sa, sb, rec, sc), c.rest)
    else if idx.value == 3 then Ok(Quat(sa, sb, sc, rec), c.rest)
    else Fail(InvalidRotationIndex)
  }

  /** Where the three stored halves and the reconstructed component go. */
  lemma HalfQuatSlots(s: Input)
    requires |s| >= 7 && s[0] <= 3
    ensures var r := ParseHalfQuat(s);
      var a := LeF16(s[1..]).value;
      var b := LeF16(s[3..]).value;
      var c := LeF16(s[5..]).value;
      && r.Ok?
      && Slots(r.value)[s[0]] == Recovered(a, b, c)
      && RemoveAt(Slots(r.value), s[0]) == [Stored(a), Stored(b), Stored(c)]
  {
    DropDrop(s, 1, 2);
    DropDrop(s, 3, 2);
  }

  /** `parse_commons`: dimension byte, position, compressed rotation; twenty bytes, and
      the rotation index is the fourteenth. */
  function ParseCommons(s: Input): (r: Parsed<Common>)
    ensures Advances(s, r)
    ensures r.Ok? <==> |s| >= 20 && s[13] <= 3
    ensures r.Fail? ==> r.error == (if |s| < 20 then Truncated else InvalidRotationIndex)
    ensures r.Ok? ==> r.rest == s[20..]
  {
    var dimension :- LeU8(s);
    var position :- ParseVec3(dimension.rest);
    var rotation :- ParseHalfQuat(position.rest);
    Ok(Common(dimension.value, position.value, rotation.value), rotation.rest)
  }

  /** The fields of a decoded `Common`, in wire order. */
  lemma CommonsLayout(s: Input)
    requires ParseCommons(s).Ok?
    ensures var r := ParseCommons(s);
      && r.value.dimension == s[0]
      && ParseVec3(s[1..]) == Ok(r.value.position, s[13..])
      && ParseHalfQuat(s[13..]) == Ok(r.value.rotation, s[20..])
  {
    DropDrop(s, 1, 12);
    DropDrop(s, 13, 7);
  }

  // -------------------------------------------------------------- typemap

  /** `parse_datatype`: id, type name, version. */
  function ParseDatatype(s: Input): (r: Parsed<DataType>)
    ensures Advances(s, r)
    ensures |s| < 2 ==> r == Fail(Truncated)
  {
    var id :- LeU16(s);
    var typename :- ParseReplayString(id.rest);
    var version :- ParseReplayString(typename.rest);
    Ok(DataType(id.value, typename.value, version.value), version.rest)
  }

  /** The id, then the type name, then the version. */
  lemma DatatypeLayout(s: Input)
    requires ParseDatatype(s).Ok?
    ensures var r := ParseDatatype(s);
      && r.value.id == LittleEndian(s[..2])
      && var name := ParseReplayString(s[2..]);
      && name.Ok? && name.value == r.value.typename
      && ParseReplayString(name.rest) == Ok(r.value.version, r.rest)
  {
  }

  predicate WritableType(d: DataType) {
    Writable(d.typename) && Writable(d.version)
  }

  function EncDatatype(d: DataType): seq<byte> {
    EncU16(d.id) + EncString(d.typename) + EncString(d.version)
  }

  lemma DatatypeRoundTrip(d: DataType, t: Input)
    requires WritableType(d)
    ensures ParseDatatype(EncDatatype(d) + t) == Ok(d, t)
  {
    var s := EncDatatype(d) + t;
    assert s == EncU16(d.id) + (EncString(d.typename) + (EncString(d.version) + t));
    LeU16RoundTrip(d.id, EncString(d.typename) + (EncString(d.version) + t));
    ParseReplayStringRoundTrip(d.typename, EncString(d.version) + t);
    ParseReplayStringRoundTrip(d.version, t);
  }

  lemma DatatypeIsParser()
    ensures IsParser(ParseDatatype)
  {
    forall s ensures Advances(s, ParseDatatype(s)) { }
  }

  /** The first half of `parse_typemap_and_header`: the typemap version string, the entry
      count, and that many entries in file order. */
  function ParseTypemap(s: Input): (r: Parsed<Typemap>)
    ensures Advances(s, r)
    ensures |s| < 2 ==> r == Fail(Truncated)
    ensures r.Ok? ==> r.value.entries == |r.value.types|
  {
    var version :- ParseReplayString(s);
    var entries :- LeU16(version.rest);
    DatatypeIsParser();
    var types :- Count(ParseDatatype, entries.value, entries.rest);
    Ok(Typemap(version.value, entries.value, types.value), types.rest)
  }

  /** The version string, then the count the entries agree with. */
  lemma TypemapLayout(s: Input)
    requires ParseTypemap(s).Ok?
    ensures var r := ParseTypemap(s);
      && var version := ParseReplayString(s);
      && version.Ok? && version.value == r.value.version
      && LeU16(version.rest).Ok? && LeU16(version.rest).value == r.value.entries
  {
  }

  /** A typemap the writer can produce: the count is the number of entries and every
      string is `Writable`. */
  predicate WritableTypemap(tm: Typemap) {
    && tm.entries == |tm.types|
    && Writable(tm.version)
    && forall k :: 0 <= k < |tm.types| ==> WritableType(tm.types[k])
  }

  function EncTypemap(tm: Typemap): seq<byte> {
    EncString(tm.version) + EncU16(tm.entries) + Concat(EncDatatype, tm.types)
  }

  lemma TypemapRoundTrip(tm: Typemap, t: Input)
    requires WritableTypemap(tm)
    ensures ParseTypemap(EncTypemap(tm) + t) == Ok(tm, t)
  {
    var body := Concat(EncDatatype, tm.types) + t;
    var s := EncTypemap(tm) + t;
    assert s == EncString(tm.version) + (EncU16(tm.entries) + body);
    ParseReplayStringRoundTrip(tm.version, EncU16(tm.entries) + body);
    LeU16RoundTrip(tm.entries, body);
    DatatypeIsParser();
    forall d, u | WritableType(d) ensures ParseDatatype(EncDatatype(d) + u) == Ok(d, u) {
      DatatypeRoundTrip(d, u);
    }
    CountRoundTrip(ParseDatatype, EncDatatype, WritableType, tm.types, t);
  }
}
