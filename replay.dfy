/** The entry points of the decoder (crates/rrv-core/src/parser/mod.rs): a `u32` size,
    then that many bytes holding the typemap and the header records. */
module Replay {
  import opened Wire
  import opened Utf8
  import opened Datatypes
  import opened Types
  import opened Primitives
  import opened Decoders
  import opened Dispatch

  /** `Replay`: what `parse_replay` returns. */
  datatype Replay = Replay(typemap: Typemap, header: Header)

  // ------------------------------------------------------------- corrected

  /** `parse_replay_file_commons` without its debug block: read the size, take that many
      bytes, decode the typemap and the header from them. The cursor handed back is the
      one after the block, whatever the header decoder left unread inside it. */
  function ReplayFileCommons(s: Input): (r: Parsed<(Typemap, Header)>)
    ensures Advances(s, r)
    ensures |s| < 4 ==> r == Fail(Truncated)
    ensures |s| >= 4 && |s| < 4 + LeU32(s).value ==> r == Fail(Truncated)
  {
    var size :- LeU32(s);
    var t := size.rest;
    if |t| < size.value then Fail(Truncated)
    else
      var block := t[..size.value];
      var rest := t[size.value..];
      var inner :- TypemapAndHeader(block);
      Ok(inner.value, rest)
  }

  /** Framing: a block written behind its own size decodes on its own. Bytes after the
      block are never read, and bytes the header decoder leaves unread inside the block
      are dropped, so the caller always resumes right after the block. */
  lemma FramedBlock(p: Input, t: Input)
    requires |p| < 0x1_0000_0000
    ensures var r := ReplayFileCommons(EncU32(|p|) + p + t);
      var inner := TypemapAndHeader(p);
      && (inner.Ok? ==> r == Ok(inner.value, t))
      && (inner.Fail? ==> r == Fail(inner.error))
  {
    var s := EncU32(|p|) + p + t;
    assert s == EncU32(|p|) + (p + t);
    LeU32RoundTrip(|p|, p + t);
    assert (p + t)[..|p|] == p;
    assert (p + t)[|p|..] == t;
  }

  /** `parse_replay`. */
  function ParseReplay(s: Input): (r: Parsed<Replay>)
    ensures Advances(s, r)
    ensures r.Ok? <==> ReplayFileCommons(s).Ok?
    ensures r.Ok? ==> && r.value.typemap == ReplayFileCommons(s).value.0
                      && r.value.header == ReplayFileCommons(s).value.1
                      && r.rest == ReplayFileCommons(s).rest
  {
    var c :- ReplayFileCommons(s);
    Ok(Replay(c.value.0, c.value.1), c.rest)
  }

  /** The same as the source runs it, with the dispatch loop of `ParseTypemapAndHeader`. */
  method ParseReplayFileCommons(s: Input) returns (r: Parsed<(Typemap, Header)>)
    ensures r == ReplayFileCommons(s)
  {
    var size := LeU32(s);
    if size.Fail? { return Fail(size.error); }
    if |size.rest| < size.value { return Fail(Truncated); }
    var block := size.rest[..size.value];
    var inner := ParseTypemapAndHeader(block);
    if inner.Fail? { return Fail(inner.error); }
    r := Ok(inner.value, size.rest[size.value..]);
  }

  method ParseReplayM(s: Input) returns (r: Parsed<Replay>)
    ensures r == ParseReplay(s)
  {
    var c := ParseReplayFileCommons(s);
    if c.Fail? { return Fail(c.error); }
    r := Ok(Replay(c.value.0, c.value.1), c.rest);
  }

  /** Every replay that decodes has a well-indexed header: each entity's `idx` is a
      position of `commons` of its own, and the typemap count matches its entries. */
  lemma DecodedReplayWellIndexed(s: Input)
    requires ParseReplay(s).Ok?
    ensures var rp := ParseReplay(s).value;
      && rp.typemap.entries == |rp.typemap.types|
      && WellIndexed(rp.header)
      && |AllIdx(rp.header)| == |rp.header.commons|
  {
    var size := LeU32(s);
    DecodedHeaderWellIndexed(size.rest[..size.value]);
  }

  // ------------------------------------------------------------ as written

  /** What the debug block needs: a first bulkhead controller, its secondary door id, and
      a door with that id. The `commons` lookups it also does cannot fail on a decoded
      header (`DecodedReplayWellIndexed`). */
  predicate DebugRecordPresent(h: Header) {
    && |h.bulkheadControllers| > 0
    && h.bulkheadControllers[0].secondary.Some?
    && exists k :: 0 <= k < |h.doors| && h.doors[k].id == h.bulkheadControllers[0].secondary.value
  }

  /** `parse_replay_file_commons` with its debug block: each failing `unwrap` there is a
      panic, modelled as `MissingDebugRecord`. */
  function ReplayFileCommonsAsWritten(s: Input): (r: Parsed<(Typemap, Header)>)
    ensures r.Ok? <==> ReplayFileCommons(s).Ok? && DebugRecordPresent(ReplayFileCommons(s).value.1)
    ensures r.Ok? ==> r == ReplayFileCommons(s)
    ensures ReplayFileCommons(s).Fail? ==> r == ReplayFileCommons(s)
    ensures ReplayFileCommons(s).Ok? && !DebugRecordPresent(ReplayFileCommons(s).value.1) ==>
      r == Fail(MissingDebugRecord)
  {
    var c :- ReplayFileCommons(s);
    if DebugRecordPresent(c.value.1) then c else Fail(MissingDebugRecord)
  }

  /** "0.0.1" */
  const BlockVersion: Input := [0x30, 0x2E, 0x30, 0x2E, 0x31]

  /** The smallest well-formed header: a typemap naming only the end-of-header record,
      then that record. */
  function EndOnlyTypemap(): Typemap {
    Typemap(BlockVersion, 1, [DataType(0, EndOfHeaderName, BlockVersion)])
  }

  function EndOnlyBlock(): Input {
    EncTypemap(EndOnlyTypemap()) + EncU16(0)
  }

  function EndOnlyReplay(): Input {
    EncU32(|EndOnlyBlock()|) + EndOnlyBlock() + []
  }

  lemma BlockVersionWritable()
    ensures Writable(BlockVersion)
  {
    AsciiValid(BlockVersion);
  }

  lemma EndOfHeaderNameWritable()
    ensures Writable(EndOfHeaderName)
  {
    AsciiValid(EndOfHeaderName);
  }

  lemma EndOnlyTypemapReads()
    ensures ParseTypemap(EndOnlyBlock()) == Ok(EndOnlyTypemap(), EncU16(0))
  {
    var tm := EndOnlyTypemap();
    BlockVersionWritable();
    EndOfHeaderNameWritable();
    assert WritableTypemap(tm);
    TypemapRoundTrip(tm, EncU16(0));
  }

  lemma EndOnlyLoopStops()
    ensures HeaderLoop(EndOnlyTypemap().types, DefaultHeader(), EncU16(0)) == Ok(DefaultHeader(), [])
  {
    var types := EndOnlyTypemap().types;
    LeU16RoundTrip(0, []);
    assert EncU16(0) + [] == EncU16(0);
    assert FindType(types, 0) == Some(types[0]);
    assert Classify(types[0]) == EndOfHeaderRec;
    HeaderLoopFirst(types, DefaultHeader(), EncU16(0));
  }

  /** A replay with no bulkhead controller decodes to the empty header, but the debug
      block of the source panics on it (`first().unwrap()` on an empty list, or `find`
      over no doors). */
  lemma EndOnlyReplayPanics()
    ensures ReplayFileCommons(EndOnlyReplay()) == Ok((EndOnlyTypemap(), DefaultHeader()), [])
    ensures ReplayFileCommonsAsWritten(EndOnlyReplay()) == Fail(MissingDebugRecord)
  {
    EndOnlyTypemapReads();
    EndOnlyLoopStops();
    assert TypemapAndHeader(EndOnlyBlock()) == Ok((EndOnlyTypemap(), DefaultHeader()), []);
    assert |EndOnlyBlock()| < 0x1_0000_0000;
    FramedBlock(EndOnlyBlock(), []);
  }
}
