# rrv replay header decoder, modelled in Dafny

rrv reads replay files that a game mod records. A replay file starts with a header block: a `u32` byte count, then that many bytes. Those bytes hold:

1. a *typemap*, a version string plus a table of `(id, typename, version)` entries;
2. a sequence of *records*, each made of a `u16` type id followed by a payload whose layout is fixed by the typename and version that the id stands for.

The decoder builds a `Header` out of the records in a single loop and stops at the `ReplayRecorder.EndOfHeader` record:

- the recorder header;
- the metadata (two versions);
- the level geometry;
- doors, ladders, terminals, generators and disinfect stations;
- bulkhead controllers;
- resource containers (three versions);
- spitters.

Every entity decoder pushes the entity with `idx = commons.len()` and then pushes the entity's `Common` (dimension, position, rotation) onto the header's shared `commons` list. So `idx` is how an entity finds its own position and rotation.

This project models that decoder as in `crates/rrv-core/src/parser/mod.rs`, over the data model of `parser/datatypes.rs` and `parser/types.rs`.

- **Parser results.** A nom parser becomes a total function `Input -> Parsed<T>`. `Parsed<T>` is either `Ok(value, rest)` or `Fail(error)`, and `:-` stands for `?`. Every parser is shown to hand back a suffix of its input (`Advances`), and every fixed-width parser to consume exactly its width (`Takes`).
- **Primitives.** These are little-endian integers, and floats kept as their bit patterns. Booleans are bytes, with any nonzero byte meaning true. Strings are `u16`-prefixed and must be valid UTF-8: `Utf8.ValidUtf8` follows the well-formed byte sequences of the Unicode standard, table 3-7 of section 3.9.
- **Writers.** The repository has no writer for the format. Reference encoders (`Enc*`) are defined only so that each reader can be stated against an independent definition, as a round trip.
- **The header loop.** `Header` is a value that the loop rebuilds, the way the source mutates its local `header`.
  - The `for` loops that push entities are methods (`Entities.PushDoors`, …). Each is proved equal to a snoc-style function (`AppendDoors`, …).
  - The `loop { … }` of `parse_typemap_and_header` is the method `Dispatch.ParseTypemapAndHeader`, proved equal to the recursive `Dispatch.HeaderLoop`.
- **The main invariant.** The central one is `Datatypes.WellIndexed`: the `idx` fields of all entities, read kind by kind, partition `0 .. |commons|`, and within each kind they increase. Every arm keeps this invariant, and so every decoded header has it (`Dispatch.DecodedHeaderWellIndexed`). It follows that:
  - every `idx` can be used to index `commons`;
  - no two entities share a `Common`;
  - no `Common` is orphaned.

## Model

| member | source | states |
|---|---|---|
| Wire.Count | crates/rrv-core/src/parser/mod.rs:203 | `count(p, n)`: on success exactly `n` items, and the cursor stays inside the input |
| Wire.CountTakes | crates/rrv-core/src/parser/mod.rs:291-297 | repeating a parser that always takes `w` bytes `n` times succeeds iff `n * w` bytes are there, and takes exactly those |
| Wire.CountAll | crates/rrv-core/src/parser/mod.rs:291-297 | a property every successful item parse has holds for every item `count` returns |
| Wire.CountRoundTrip | crates/rrv-core/src/parser/mod.rs:203 | `count` over the concatenated encodings of `xs` gives back `xs` and leaves what follows |
| Wire.SlotOffset | crates/rrv-core/src/parser/mod.rs:291-297 | slot `k` of a repeated fixed-width item is the item read at byte offset `k * w` |
| Wire.CountSlots | crates/rrv-core/src/parser/mod.rs:291-297 | repeating a parser that takes `w` bytes `n` times succeeds iff each of the `n` slots parses on its own |
| Wire.SlotGuard | crates/rrv-core/src/parser/mod.rs:291-297 | for a parser that succeeds exactly when `w` bytes are there and a guard byte at offset `off` is at most a bound, slot `k` parses iff its bytes are there and its guard byte, at `k * w + off`, is within the bound |
| Wire.GuardedCount | crates/rrv-core/src/parser/mod.rs:291-297 | `count` of such a parser succeeds iff each of its `n` slots has its bytes and a guard byte within the bound |
| Wire.CountSlotItems | crates/rrv-core/src/parser/mod.rs:291-297 | on success, item `k` of the result is the value parsed in slot `k` |
| Wire.LittleEndianOfLeBytes | crates/rrv-core/src/parser/mod.rs:289 | reading `n` little-endian bytes written from `v < 256^n` gives `v` |
| Utf8.ScalarAccepted | crates/rrv-core/src/parser/mod.rs:64 | the validator accepts the UTF-8 encoding of every scalar value as one whole sequence, whatever follows |
| Utf8.EncodedScalarsValid | crates/rrv-core/src/parser/mod.rs:64 | the encoding of every string of scalar values is accepted by `from_utf8` |
| Utf8.ValidIsEncoded | crates/rrv-core/src/parser/mod.rs:64 | conversely, every accepted byte string is the encoding of some string of scalar values |
| Utf8.DecodeLead | crates/rrv-core/src/parser/mod.rs:64 | a well-formed leading sequence decodes to a scalar value whose encoding is exactly that sequence |
| Utf8.AsciiValid | crates/rrv-core/src/parser/mod.rs:64 | every ASCII byte string is valid UTF-8 |
| Primitives.LeU8 | crates/rrv-core/src/parser/mod.rs:294 | `le_u8`: succeeds iff one byte is there, returns it and drops it |
| Primitives.LeU16 | crates/rrv-core/src/parser/mod.rs:289 | `le_u16`: succeeds iff two bytes are there, their little-endian value, the rest after them |
| Primitives.LeU32 | crates/rrv-core/src/parser/mod.rs:32 | `le_u32`: the same for four bytes |
| Primitives.LeI32 | crates/rrv-core/src/parser/mod.rs:293 | `le_i32`: four bytes whose two's-complement reading is the result |
| Primitives.LeF32 | crates/rrv-core/src/parser/mod.rs:108-111 | `le_f32`: four bytes kept as the float's bit pattern |
| Primitives.LeF16 | crates/rrv-core/src/parser/mod.rs:141-144 | `le_f16`: a `u16` taken as the bits of a half-precision float |
| Primitives.ParseVec3 | crates/rrv-core/src/parser/mod.rs:108-111 | twelve bytes read in the order x, y, z |
| Primitives.ParseReplayBool | crates/rrv-core/src/parser/mod.rs:67-71 | one byte; true iff it is nonzero |
| Primitives.ParseReplayString | crates/rrv-core/src/parser/mod.rs:62-65 | short input fails as truncated, invalid UTF-8 fails as an encoding error, otherwise the `L` bytes after the length `L` are returned |
| Primitives.StringUsed | crates/rrv-core/src/parser/mod.rs:62-65 | a successful string read consumes `2 + L` bytes, where `L` is the prefix, and yields valid UTF-8 |
| Primitives.I32RoundTrip | crates/rrv-core/src/parser/mod.rs:293 | two's complement is a bijection on `i32` |
| Primitives.LeU16RoundTrip | crates/rrv-core/src/parser/mod.rs:289 | reading a written `u16` gives it back |
| Primitives.LeU32RoundTrip | crates/rrv-core/src/parser/mod.rs:32 | reading a written `u32` gives it back |
| Primitives.LeI32RoundTrip | crates/rrv-core/src/parser/mod.rs:293 | reading a written `i32` gives it back, negative values included |
| Primitives.LeF16RoundTrip | crates/rrv-core/src/parser/mod.rs:141-144 | reading written half-float bits gives them back |
| Primitives.LeF32RoundTrip | crates/rrv-core/src/parser/mod.rs:108-111 | reading written float bits gives them back |
| Primitives.ParseReplayBoolRoundTrip | crates/rrv-core/src/parser/mod.rs:67-71 | reading a written boolean gives it back |
| Primitives.ParseVec3RoundTrip | crates/rrv-core/src/parser/mod.rs:108-111 | reading a written vector gives it back |
| Primitives.ParseReplayStringRoundTrip | crates/rrv-core/src/parser/mod.rs:62-65 | reading a framed string of under 65536 bytes of UTF-8 gives it back and leaves what follows |
| Decoders.ParseReplayIdentifierType | crates/rrv-core/src/parser/mod.rs:73-106 | the identifier reader never reads past its input, and fails as truncated on empty input |
| Decoders.IdentifierLayout | crates/rrv-core/src/parser/mod.rs:73-106 | the tag byte picks the variant: `Unknown` takes one byte; alias-gear, item, enemy and vanity take a `u16` id; gear takes a string and a `u16` alias |
| Decoders.IdentifierRoundTrip | crates/rrv-core/src/parser/mod.rs:73-106 | reading a written identifier gives it back |
| Decoders.FlaggedI32 | crates/rrv-core/src/parser/mod.rs:117-122 | a zero flag byte gives `None` after one byte; a nonzero one gives `Some` of the following `i32` after five |
| Decoders.BulkheadDc | crates/rrv-core/src/parser/mod.rs:115-139 | the three flagged ids never read past the input, and the only way they fail is truncation |
| Decoders.BulkheadDcLayout | crates/rrv-core/src/parser/mod.rs:115-139 | each of main, secondary and overload is present iff its flag byte is nonzero, and the decoder uses `3 + 4 * (number present)` bytes |
| Decoders.ParseBulkheadDc | crates/rrv-core/src/parser/mod.rs:115-139 | the step-by-step version of `parse_bulkhead_dc` computes exactly `BulkheadDc` |
| Decoders.FlaggedRoundTrip | crates/rrv-core/src/parser/mod.rs:117-122 | reading a written flagged `i32` gives it back |
| Decoders.BulkheadDcRoundTrip | crates/rrv-core/src/parser/mod.rs:115-139 | reading three written flagged ids gives them back |
| Decoders.ParseHalfQuat | crates/rrv-core/src/parser/mod.rs:146-172 | fails as truncated under 7 bytes, and with the rotation-index error for a missing-slot byte above 3; otherwise succeeds after exactly 7 bytes |
| Decoders.HalfQuatSlots | crates/rrv-core/src/parser/mod.rs:148-168 | the three stored halves fill the slots other than the missing one, in order; the missing slot holds the component recovered from them |
| Decoders.ParseCommons | crates/rrv-core/src/parser/mod.rs:174-185 | succeeds iff 20 bytes are there and the rotation byte at offset 13 is at most 3; the error says which of these failed |
| Decoders.CommonsLayout | crates/rrv-core/src/parser/mod.rs:174-185 | dimension byte, then a position vector at offsets 1-12, then a half-quaternion at 13-19 |
| Decoders.ParseDatatype | crates/rrv-core/src/parser/mod.rs:187-199 | a datatype entry never reads past its input, and fails as truncated when not even the `u16` id is there |
| Decoders.DatatypeLayout | crates/rrv-core/src/parser/mod.rs:187-199 | a datatype entry is a `u16` id, a typename string and a version string |
| Decoders.DatatypeRoundTrip | crates/rrv-core/src/parser/mod.rs:187-199 | reading a written datatype entry gives it back |
| Decoders.DatatypeIsParser | crates/rrv-core/src/parser/mod.rs:187-199 | the datatype reader never reads past, or grows, its input |
| Decoders.ParseTypemap | crates/rrv-core/src/parser/mod.rs:202-209 | a decoded typemap holds exactly as many entries as its count says |
| Decoders.TypemapLayout | crates/rrv-core/src/parser/mod.rs:202-209 | the typemap is a version string, then a `u16` count of entries |
| Decoders.TypemapRoundTrip | crates/rrv-core/src/parser/mod.rs:202-209 | reading a written typemap gives it back |
| Datatypes.DoorVariantFromRepr | crates/rrv-core/src/parser/datatypes.rs:49-58 | defined exactly on bytes 0..4, and inverse to the discriminant |
| Datatypes.DoorVariantOf | crates/rrv-core/src/parser/mod.rs:304 | in-range bytes map to their variant; any other byte maps to the default `WeakDoor` |
| Datatypes.DoorSizeFromRepr | crates/rrv-core/src/parser/datatypes.rs:60-67 | defined exactly on bytes 0..2, and inverse to the discriminant |
| Datatypes.DoorSizeOf | crates/rrv-core/src/parser/mod.rs:305 | in-range bytes map to their size; any other byte maps to the default `Small` |
| Datatypes.LockTypeFromRepr | crates/rrv-core/src/parser/datatypes.rs:98-105 | defined exactly on bytes 0..2, and inverse to the discriminant |
| Datatypes.IdentifierFromRepr | crates/rrv-core/src/parser/mod.rs:75-102 | defined exactly on tag bytes 0..5, and inverse to the discriminant |
| Datatypes.IdentifierOf | crates/rrv-core/src/parser/mod.rs:75 | tag bytes outside 0..5 fall to `Unknown` |
| Datatypes.DefaultHeader | crates/rrv-core/src/parser/datatypes.rs:4-18 | `Header::default()`: no singletons, every list empty, and well-indexed |
| Datatypes.WellIndexedInBounds | crates/rrv-core/src/parser/mod.rs:301 | in a well-indexed header every `idx` indexes `commons` |
| Datatypes.WellIndexedFields | crates/rrv-core/src/parser/mod.rs:301 | the same, stated for each entity list by name |
| Datatypes.WellIndexedBijective | crates/rrv-core/src/parser/mod.rs:298-308 | the `idx` fields of all entities name each position of `commons` exactly once |
| Datatypes.GrowKeepsWellIndexed | crates/rrv-core/src/parser/mod.rs:298-308 | appending `n` entities of one kind with `idx` = the old `commons` length plus `k`, together with their `n` commons, keeps the header well-indexed |
| Types.FindType | crates/rrv-core/src/parser/mod.rs:216 | `None` iff no entry has the id; otherwise the first entry with that id |
| Types.FindTypeFirst | crates/rrv-core/src/parser/mod.rs:216 | the lookup returns the earliest entry that carries the id |
| Entities.IdCommon | crates/rrv-core/src/parser/mod.rs:293 | `(le_i32, parse_commons)` succeeds iff 24 bytes are there and the rotation byte at offset 17 is at most 3, and then consumes exactly 24 |
| Entities.IdCommonLayout | crates/rrv-core/src/parser/mod.rs:293 | an `i32` id, then a `Common` at offsets 4-23 |
| Entities.ParseDoorRecord | crates/rrv-core/src/parser/mod.rs:291-295 | a door record succeeds iff 29 bytes are there with a valid rotation byte, and then consumes exactly 29 |
| Entities.DoorRecordLayout | crates/rrv-core/src/parser/mod.rs:291-295 | id and common, then serial at 24-25, checkpoint flag at 26, variant at 27, size at 28 |
| Entities.ParseLadderRecord | crates/rrv-core/src/parser/mod.rs:313-318 | a ladder record succeeds iff 22 bytes are there and its rotation byte at offset 13 is at most 3, and then consumes exactly 22 |
| Entities.LadderRecordLayout | crates/rrv-core/src/parser/mod.rs:313-318 | a ladder is a `Common` and then an `f16` height, 22 bytes in all |
| Entities.ParseTerminalRecord | crates/rrv-core/src/parser/mod.rs:330-335 | a terminal record succeeds iff 24 bytes are there with a valid rotation byte at offset 17, and then consumes exactly 24 |
| Entities.TerminalRecordLayout | crates/rrv-core/src/parser/mod.rs:330-335 | a terminal is an id and a `Common`, 24 bytes in all |
| Entities.ParseSerialRecord | crates/rrv-core/src/parser/mod.rs:347-352 | a generator or disinfect-station record succeeds iff 26 bytes are there with a valid rotation byte at offset 17, and then consumes exactly 26 |
| Entities.SerialRecordLayout | crates/rrv-core/src/parser/mod.rs:347-352 | generators and disinfect stations are an id, a `Common` and a `u16` serial |
| Entities.ParseBulkheadRecord | crates/rrv-core/src/parser/mod.rs:383-394 | a bulkhead-controller record stays inside its input, and succeeds iff 26 bytes are there, its rotation byte at offset 17 is at most 3, and the three flagged door ids after byte 26 decode |
| Entities.BulkheadRecordLayout | crates/rrv-core/src/parser/mod.rs:383-394 | a bulkhead controller is an id, a `Common`, a serial and then the three flagged door ids |
| Entities.ParseContainerV1 | crates/rrv-core/src/parser/mod.rs:411-422 | a 0.0.1 container record succeeds iff 27 bytes are there with a valid rotation byte at offset 17, and then consumes exactly 27 |
| Entities.ContainerV1Layout | crates/rrv-core/src/parser/mod.rs:411-422 | container 0.0.1: id, common, serial and locker flag, 27 bytes; no consumable, registration or lock byte |
| Entities.ParseContainerV2 | crates/rrv-core/src/parser/mod.rs:440-456 | a 0.0.2 container record stays inside its input, and succeeds iff 27 bytes are there, its rotation byte at offset 17 is at most 3, the consumable identifier after byte 27 decodes, and one byte for the registered flag follows it |
| Entities.ContainerV2Layout | crates/rrv-core/src/parser/mod.rs:440-456 | container 0.0.2: the 0.0.1 record, then a consumable identifier and a registered flag |
| Entities.ParseContainerV3 | crates/rrv-core/src/parser/mod.rs:474-491 | a 0.0.3 container record stays inside its input, fails under 27 bytes or with a rotation byte above 3, and succeeds iff the 0.0.2 record decodes and one lock byte follows it |
| Entities.ContainerV3Layout | crates/rrv-core/src/parser/mod.rs:474-491 | container 0.0.3: the 0.0.2 record, then one lock-type byte |
| Entities.ParseSpitterRecord | crates/rrv-core/src/parser/mod.rs:510-515 | a spitter record succeeds iff 26 bytes are there with a valid rotation byte at offset 17, and then consumes exactly 26 |
| Entities.SpitterRecordLayout | crates/rrv-core/src/parser/mod.rs:510-515 | a spitter is an id, a `Common` and an `f16` scale |
| Entities.ItemParsers | crates/rrv-core/src/parser/mod.rs:291-297 | every item decoder, nine in all, stays inside its input, as `count` needs |
| Entities.CountDoorRecords | crates/rrv-core/src/parser/mod.rs:291-297 | `count` of `n` door items stays inside its input and, on success, returns exactly `n` items |
| Entities.CountLadderRecords | crates/rrv-core/src/parser/mod.rs:318 | `count` of `n` ladder items stays inside its input and, on success, returns exactly `n` items |
| Entities.CountTerminalRecords | crates/rrv-core/src/parser/mod.rs:335 | `count` of `n` terminal items stays inside its input and, on success, returns exactly `n` items |
| Entities.CountSerialRecords | crates/rrv-core/src/parser/mod.rs:352 | `count` of `n` generator or disinfect-station items stays inside its input and, on success, returns exactly `n` items |
| Entities.CountBulkheadRecords | crates/rrv-core/src/parser/mod.rs:388-394 | `count` of `n` bulkhead-controller items stays inside its input and, on success, returns exactly `n` items |
| Entities.CountContainersV1 | crates/rrv-core/src/parser/mod.rs:416-422 | `count` of `n` 0.0.1 container items stays inside its input and, on success, returns exactly `n` items |
| Entities.CountContainersV2 | crates/rrv-core/src/parser/mod.rs:445-456 | `count` of `n` 0.0.2 container items stays inside its input and, on success, returns exactly `n` items |
| Entities.CountContainersV3 | crates/rrv-core/src/parser/mod.rs:479-491 | `count` of `n` 0.0.3 container items stays inside its input and, on success, returns exactly `n` items |
| Entities.CountSpitterRecords | crates/rrv-core/src/parser/mod.rs:515 | `count` of `n` spitter items stays inside its input and, on success, returns exactly `n` items |
| Entities.PushDoors | crates/rrv-core/src/parser/mod.rs:298-308 | the door `for` loop computes `AppendDoors` |
| Entities.DoorsAppended | crates/rrv-core/src/parser/mod.rs:298-308 | the loop adds one door and one common per item: door `k` is built from item `k` with `idx` = the old `commons` length plus `k`, its common lands at that index, and every other field is unchanged |
| Entities.DoorsGrow | crates/rrv-core/src/parser/mod.rs:298-308 | the door loop is a `GrowsBy` step, so it keeps the header well-indexed |
| Entities.DecodeDoors | crates/rrv-core/src/parser/mod.rs:283-309 | decoding a `Vanilla.Map.Doors` payload never reads past it |
| Entities.DoorsArm | crates/rrv-core/src/parser/mod.rs:283-309 | a successful `Vanilla.Map.Doors` record grows the door list by its `u16` count, changes nothing else, and keeps the header well-indexed |
| Entities.DoorGuarded | crates/rrv-core/src/parser/mod.rs:291-295 | a door item succeeds exactly when its 29 bytes are there and its rotation byte at offset 17 is at most 3, and then consumes exactly 29 |
| Entities.DoorSlots | crates/rrv-core/src/parser/mod.rs:291-297 | `n` door items parse iff every one of them fits and has a valid rotation byte |
| Entities.DoorsDecodes | crates/rrv-core/src/parser/mod.rs:283-297 | a `Doors` payload under 2 bytes fails as truncated; otherwise it decodes iff the `2 + 29n` bytes of its `n` items are there and every item's rotation byte is at most 3 |
| Entities.PushLadders | crates/rrv-core/src/parser/mod.rs:319-325 | the ladder loop computes `AppendLadders` |
| Entities.LaddersAppended | crates/rrv-core/src/parser/mod.rs:319-325 | as for doors, for ladders |
| Entities.LaddersGrow | crates/rrv-core/src/parser/mod.rs:319-325 | the ladder loop is a `GrowsBy` step |
| Entities.DecodeLadders | crates/rrv-core/src/parser/mod.rs:310-326 | decoding a `Vanilla.Map.Ladders` payload never reads past it |
| Entities.LaddersArm | crates/rrv-core/src/parser/mod.rs:310-326 | as `DoorsArm`, for `Vanilla.Map.Ladders` |
| Entities.PushTerminals | crates/rrv-core/src/parser/mod.rs:336-342 | the terminal loop computes `AppendTerminals` |
| Entities.TerminalsAppended | crates/rrv-core/src/parser/mod.rs:336-342 | as for doors, for terminals |
| Entities.TerminalsGrow | crates/rrv-core/src/parser/mod.rs:336-342 | the terminal loop is a `GrowsBy` step |
| Entities.DecodeTerminals | crates/rrv-core/src/parser/mod.rs:327-343 | decoding a `Vanilla.Map.Terminals` payload never reads past it |
| Entities.TerminalsArm | crates/rrv-core/src/parser/mod.rs:327-343 | as `DoorsArm`, for `Vanilla.Map.Terminals` |
| Entities.PushGenerators | crates/rrv-core/src/parser/mod.rs:353-360 | the generator loop computes `AppendGenerators` |
| Entities.GeneratorsAppended | crates/rrv-core/src/parser/mod.rs:353-360 | as for doors, for generators |
| Entities.GeneratorsGrow | crates/rrv-core/src/parser/mod.rs:353-360 | the generator loop is a `GrowsBy` step |
| Entities.DecodeGenerators | crates/rrv-core/src/parser/mod.rs:344-361 | decoding a `Vanilla.Map.Generators` payload never reads past it |
| Entities.GeneratorsArm | crates/rrv-core/src/parser/mod.rs:344-361 | as `DoorsArm`, for `Vanilla.Map.Generators` |
| Entities.PushDisinfectStations | crates/rrv-core/src/parser/mod.rs:371-378 | the disinfect-station loop computes `AppendDisinfectStations` |
| Entities.DisinfectStationsAppended | crates/rrv-core/src/parser/mod.rs:371-378 | as for doors, for disinfect stations |
| Entities.DisinfectStationsGrow | crates/rrv-core/src/parser/mod.rs:371-378 | the disinfect-station loop is a `GrowsBy` step |
| Entities.DecodeDisinfectStations | crates/rrv-core/src/parser/mod.rs:362-379 | decoding a `Vanilla.Map.DisinfectStations` payload never reads past it |
| Entities.DisinfectStationsArm | crates/rrv-core/src/parser/mod.rs:362-379 | as `DoorsArm`, for `Vanilla.Map.DisinfectStations` |
| Entities.PushBulkheadControllers | crates/rrv-core/src/parser/mod.rs:395-405 | the bulkhead-controller loop computes `AppendBulkheadControllers` |
| Entities.BulkheadControllersAppended | crates/rrv-core/src/parser/mod.rs:395-405 | as for doors, for bulkhead controllers, with the three door ids copied over |
| Entities.BulkheadControllersGrow | crates/rrv-core/src/parser/mod.rs:395-405 | the bulkhead-controller loop is a `GrowsBy` step |
| Entities.DecodeBulkheadControllers | crates/rrv-core/src/parser/mod.rs:380-406 | decoding a `Vanilla.Map.BulkheadControllers` payload never reads past it |
| Entities.BulkheadControllersArm | crates/rrv-core/src/parser/mod.rs:380-406 | as `DoorsArm`, for `Vanilla.Map.BulkheadControllers` |
| Entities.PushResourceContainers | crates/rrv-core/src/parser/mod.rs:423-434 | the resource-container loop computes `AppendResourceContainers` |
| Entities.ResourceContainersAppended | crates/rrv-core/src/parser/mod.rs:423-434 | as for doors, for resource containers |
| Entities.ResourceContainersGrow | crates/rrv-core/src/parser/mod.rs:423-434 | the resource-container loop is a `GrowsBy` step |
| Entities.DecodeContainersV1 | crates/rrv-core/src/parser/mod.rs:407-435 | decoding a 0.0.1 `Vanilla.Map.ResourceContainers` payload never reads past it |
| Entities.ContainersV1Arm | crates/rrv-core/src/parser/mod.rs:407-435 | as `DoorsArm`, for `Vanilla.Map.ResourceContainers` 0.0.1 |
| Entities.DecodeContainersV2 | crates/rrv-core/src/parser/mod.rs:436-469 | decoding a 0.0.2 resource-container payload never reads past it |
| Entities.ContainersV2Arm | crates/rrv-core/src/parser/mod.rs:436-469 | as `DoorsArm`, for resource containers 0.0.2 |
| Entities.DecodeContainersV3 | crates/rrv-core/src/parser/mod.rs:470-506 | decoding a 0.0.3 resource-container payload never reads past it |
| Entities.ContainersV3Arm | crates/rrv-core/src/parser/mod.rs:470-506 | as `DoorsArm`, for resource containers 0.0.3 |
| Entities.ResourceContainerOf | crates/rrv-core/src/parser/mod.rs:492-505 | a container entity copies id, serial, locker flag, consumable type and registration from its record and takes the given `idx`; its lock type is absent when there is no lock byte, and otherwise present iff the byte is at most 2, with that byte as its discriminant |
| Entities.ContainersV1Fields | crates/rrv-core/src/parser/mod.rs:423-434 | containers added by a 0.0.1 record have no consumable type, registration or lock type |
| Entities.ContainersV2Fields | crates/rrv-core/src/parser/mod.rs:457-468 | containers added by a 0.0.2 record have a consumable type and a registration, but no lock type |
| Entities.ContainersV3Fields | crates/rrv-core/src/parser/mod.rs:492-505 | containers added by a 0.0.3 record carry a consumable type and a registration, and their lock type is `LockType::from_repr` of their lock byte, which is absent for bytes above 2 |
| Entities.PushSpitters | crates/rrv-core/src/parser/mod.rs:516-523 | the spitter loop computes `AppendSpitters` |
| Entities.SpittersAppended | crates/rrv-core/src/parser/mod.rs:516-523 | as for doors, for spitters |
| Entities.SpittersGrow | crates/rrv-core/src/parser/mod.rs:516-523 | the spitter loop is a `GrowsBy` step |
| Entities.DecodeSpitters | crates/rrv-core/src/parser/mod.rs:507-524 | decoding a `Vanilla.Enemy.Spitters` payload never reads past it |
| Entities.SpittersArm | crates/rrv-core/src/parser/mod.rs:507-524 | as `DoorsArm`, for `Vanilla.Enemy.Spitters` |
| Entities.ParseGeometry | crates/rrv-core/src/parser/mod.rs:260-272 | a geometry payload never reads past its input, and the only way it fails is truncation |
| Entities.GeometryLayout | crates/rrv-core/src/parser/mod.rs:260-278 | a geometry record is a dimension byte, a `u16` vertex count and a `u32` index count, then the vertices and the indices; it succeeds iff all `7 + 12v + 2i` bytes are there |
| Entities.GeometryLists | crates/rrv-core/src/parser/mod.rs:271-276 | the vertex and index lists take exactly `12v + 2i` bytes and have the declared lengths |
| Entities.GeometryContents | crates/rrv-core/src/parser/mod.rs:271-272 | vertex `k` is the vector read at offset `12k`, and index `k` is the `u16` read at offset `2k` after the vertices |
| Entities.CountVec3 | crates/rrv-core/src/parser/mod.rs:271 | `n` vectors take exactly `12n` bytes |
| Entities.CountU16 | crates/rrv-core/src/parser/mod.rs:272 | `n` indices take exactly `2n` bytes |
| Dispatch.Classify | crates/rrv-core/src/parser/mod.rs:218-525 | a record stops the loop iff its typename is `ReplayRecorder.EndOfHeader`, and falls through to `_ => {}` iff no arm handles its typename and version and it is not `Vanilla.Map.Geometry.EOH` |
| Dispatch.ClassifyArms | crates/rrv-core/src/parser/mod.rs:218-525 | each arm of the `match` is taken for exactly its own typename, and for the metadata and resource-container arms exactly its own version as well |
| Dispatch.DecodeRecord | crates/rrv-core/src/parser/mod.rs:218-525 | the end-of-header record stops without consuming anything; skipped records leave the header and the cursor as they were; only the end-of-header record stops |
| Dispatch.RecorderHeaderRecord | crates/rrv-core/src/parser/mod.rs:219-228 | the recorder header record sets only `replay_header`, to its version string and master flag, and needs one byte after the string |
| Dispatch.GeometryRecord | crates/rrv-core/src/parser/mod.rs:260-278 | a geometry record appends exactly the decoded geometry to `level_geometry` and changes nothing else |
| Dispatch.MetadataRecord | crates/rrv-core/src/parser/mod.rs:233-259 | a metadata record replaces only `metadata`, with its version string. 0.0.1 leaves the old-DC flag `None` and the cursor right after the string; 0.0.2 sets the flag to `Some` of whether the byte after the string is nonzero, and the cursor is one byte further |
| Dispatch.DecodeRecordM | crates/rrv-core/src/parser/mod.rs:218-525 | the imperative `match` computes `DecodeRecord` |
| Dispatch.DecodeRecordIsArm | crates/rrv-core/src/parser/mod.rs:218-525 | every arm of the `match` stays inside its input |
| Dispatch.RecordLoop | crates/rrv-core/src/parser/mod.rs:213-216 | one turn of the loop, for any arm that stays inside its input, never reads past the input |
| Dispatch.RecordThen | crates/rrv-core/src/parser/mod.rs:218-232 | after an arm, breaking or going round again never reads past the input |
| Dispatch.HeaderLoop | crates/rrv-core/src/parser/mod.rs:213-528 | the record loop never reads past its input |
| Dispatch.HeaderLoopFirst | crates/rrv-core/src/parser/mod.rs:213-232 | a missing type id fails, an unknown one fails as unknown, and the end-of-header record returns the header just after its id |
| Dispatch.TypemapAndHeader | crates/rrv-core/src/parser/mod.rs:201-530 | under 2 bytes the block fails as truncated, and a decoded typemap holds exactly as many entries as its count says |
| Dispatch.TypemapAndHeaderParts | crates/rrv-core/src/parser/mod.rs:201-213 | a decoded block is the typemap, then the record loop started from the default header right after it |
| Dispatch.TypemapAndHeaderAdvances | crates/rrv-core/src/parser/mod.rs:201-530 | decoding the block never reads past it |
| Dispatch.ParseTypemapAndHeader | crates/rrv-core/src/parser/mod.rs:201-530 | the `loop` with its `match` computes exactly `TypemapAndHeader` |
| Dispatch.DecodeRecordKeeps | crates/rrv-core/src/parser/mod.rs:218-525 | every arm only extends the header and keeps it well-indexed |
| Dispatch.HeaderLoopKeeps | crates/rrv-core/src/parser/mod.rs:213-528 | the whole loop only extends the header it starts from and keeps it well-indexed |
| Dispatch.DecodedHeaderWellIndexed | crates/rrv-core/src/parser/mod.rs:201-530 | every decoded header is well-indexed: each `idx` indexes `commons`, and no two entities share one; the typemap count matches its entries |
| Replay.ReplayFileCommons | crates/rrv-core/src/parser/mod.rs:31-60 | the size prefix and the block, with truncation errors; the cursor after decoding stays inside the input |
| Replay.FramedBlock | crates/rrv-core/src/parser/mod.rs:31-35 | a block written behind its size decodes exactly as the block does alone, and decoding resumes right after it, whatever the header decoder left unread inside |
| Replay.ParseReplay | crates/rrv-core/src/parser/mod.rs:25-29 | `parse_replay` succeeds iff the file commons do, and returns their typemap and header |
| Replay.ParseReplayFileCommons | crates/rrv-core/src/parser/mod.rs:31-60 | the step-by-step version computes `ReplayFileCommons` |
| Replay.ParseReplayM | crates/rrv-core/src/parser/mod.rs:25-29 | the step-by-step version computes `ParseReplay` |
| Replay.DecodedReplayWellIndexed | crates/rrv-core/src/parser/mod.rs:25-60 | every decoded replay has a well-indexed header and a consistent typemap |
| Replay.ReplayFileCommonsAsWritten | crates/rrv-core/src/parser/mod.rs:36-56 | with the debug block: succeeds iff the corrected decoder does and a first bulkhead controller has a secondary door id matching some door; otherwise it panics |
| Replay.EndOnlyReplayPanics | crates/rrv-core/src/parser/mod.rs:36-56 | the smallest well-formed replay decodes to the default header, yet the debug block panics on it |

## Left out

- Logging: the `info!` calls in `mod.rs` have no effect on results, so they are not modelled.
- Floating point: floats are kept as bit patterns. In `half_quat`, `mod.rs:149-168` recovers the missing component with `f64` arithmetic (the square root of one minus the squares, with a clamp). The model records that component as the symbolic term `Recovered(a, b, c)` of the three stored halves.
- The `glam` vector types and `nom` internals are modelled only through what the decoder uses: little-endian reads, `count`, `pair` and `tuple`.
- `Snapshot`, `Event` and `Dynamic` (`types.rs:15-25`) are not used by the header decoder, so they are not modelled.
- Reading the file and memory mapping are I/O outside the decoder; the model takes the bytes as input.
- `usize` is modelled as an unbounded `nat`. Lengths in a header are bounded by `u16`/`u32` counts, so no overflow is reachable.
- `Identifier` and `IdentifierType` are not defined in the three modelled files. The tag discriminants are taken as 0..5, in the order of the arms at `mod.rs:75-102`, and the `Default` of `Identifier` (used by `unwrap_or_default()` at `mod.rs:75`) is taken to be `Unknown`, following `datatypes.rs`, whose enums put `#[default]` on the 0 variant.
- `ResourceContainer` in `datatypes.rs:107-115` has no `consumable_type` field, yet `mod.rs:429`, `463` and `500` set one. The model follows `mod.rs` and gives the entity that field.
- Records whose typename no arm handles (`mod.rs:525`, `_ => {}`) are skipped without consuming any payload bytes, as the code does. The next id is then read from the unconsumed payload.
- Panics (`unwrap` and `unreachable!`) are modelled as `Fail` with a dedicated error: `MissingDebugRecord` for the debug block, `InvalidRotationIndex` for `mod.rs:169`, and `UnknownTypeId` for the `find(..).unwrap()` at `mod.rs:216` (`Dispatch.HeaderLoopFirst`).
- Decoders.ParseReplayIdentifierType: its own contract states only the cursor and the empty-input case. The layout is in `IdentifierLayout` and `IdentifierRoundTrip`.
- Decoders.BulkheadDc: its own contract states only the cursor and truncation. The layout is in `BulkheadDcLayout`.
- Decoders.ParseDatatype: its own contract states only the cursor and short input. The layout is in `DatatypeLayout`.
- Entities.DecodeDoors: its own contract states only the cursor. What it computes is in the matching `Arm` and `Appended` lemmas.
- Entities.DecodeLadders: its own contract states only the cursor. What it computes is in the matching `Arm` and `Appended` lemmas.
- Entities.DecodeTerminals: its own contract states only the cursor. What it computes is in the matching `Arm` and `Appended` lemmas.
- Entities.DecodeGenerators: its own contract states only the cursor. What it computes is in the matching `Arm` and `Appended` lemmas.
- Entities.DecodeDisinfectStations: its own contract states only the cursor. What it computes is in the matching `Arm` and `Appended` lemmas.
- Entities.DecodeBulkheadControllers: its own contract states only the cursor. What it computes is in the matching `Arm` and `Appended` lemmas.
- Entities.DecodeContainersV1: its own contract states only the cursor. What it computes is in the matching `Arm`, `Appended` and `Fields` lemmas.
- Entities.DecodeContainersV2: its own contract states only the cursor. What it computes is in the matching `Arm`, `Appended` and `Fields` lemmas.
- Entities.DecodeContainersV3: its own contract states only the cursor. What it computes is in the matching `Arm`, `Appended` and `Fields` lemmas.
- Entities.DecodeSpitters: its own contract states only the cursor. What it computes is in the matching `Arm` and `Appended` lemmas.
- Entities.CountDoorRecords: its own contract states only the cursor and the item count. The per-item facts are in the `*Layout` lemmas.
- Entities.CountLadderRecords: its own contract states only the cursor and the item count. The per-item facts are in the `*Layout` lemmas.
- Entities.CountTerminalRecords: its own contract states only the cursor and the item count. The per-item facts are in the `*Layout` lemmas.
- Entities.CountSerialRecords: its own contract states only the cursor and the item count. The per-item facts are in the `*Layout` lemmas.
- Entities.CountBulkheadRecords: its own contract states only the cursor and the item count. The per-item facts are in the `*Layout` lemmas.
- Entities.CountContainersV1: its own contract states only the cursor and the item count. The per-item facts are in the `*Layout` lemmas and `CountShapesV1/2/3`.
- Entities.CountContainersV2: its own contract states only the cursor and the item count. The per-item facts are in the `*Layout` lemmas and `CountShapesV1/2/3`.
- Entities.CountContainersV3: its own contract states only the cursor and the item count. The per-item facts are in the `*Layout` lemmas and `CountShapesV1/2/3`.
- Entities.CountSpitterRecords: its own contract states only the cursor and the item count. The per-item facts are in the `*Layout` lemmas.
- Entities.DoorOf: it and `LadderOf`, `TerminalOf`, `GeneratorOf`, `DisinfectStationOf`, `BulkheadControllerOf` and `SpitterOf` are the struct literals inside each arm's `for` loop (e.g. `mod.rs:299-306`). They carry no contract of their own; what they build is stated by the `*Appended` lemmas of their arms.
- Dispatch.TypemapAndHeader: its own contract states only the truncated case and the typemap count. The rest is in `TypemapAndHeaderParts`, `TypemapAndHeaderAdvances` and `DecodedHeaderWellIndexed`.
- Dispatch.RecordLoop: its own contract states only the cursor. What one turn does is in `HeaderLoopFirst` and `DecodeRecord`.
- Dispatch.RecordThen: its own contract states only the cursor, as for `RecordLoop`.
- Entities.DoorsDecodes: the exact success condition is stated for doors only. The other fixed-width kinds (ladders, terminals, generators, disinfect stations, 0.0.1 containers, spitters) satisfy it in the same way through `Wire.GuardedCount`, but it is not stated for them. Nor is the count-level success condition stated for the variable-width kinds, bulkhead controllers and 0.0.2/0.0.3 containers; for those only the per-item condition is stated (`ParseBulkheadRecord`, `ParseContainerV2`, `ParseContainerV3`).
- Dispatch.HeaderLoop: the loop's promise that it only stops at the end-of-header record is stated one record at a time (`DecodeRecord`, `HeaderLoopFirst`), not as an induction over whole record sequences.

## Findings

| source | as written | input that shows it | evidently intended | confidence | as-written member | corrected member |
|---|---|---|---|---|---|---|
| crates/rrv-core/src/parser/mod.rs:36-56 | after decoding, a debug block takes `bulkhead_controllers.first().unwrap()`, its `secondary.unwrap()`, and the door with that id (`find(..).unwrap()`), and prints them | a header with only the typemap entry `(0, "ReplayRecorder.EndOfHeader", "0.0.1")` and the record id `0`: no bulkhead controller and no door. When `info!` is enabled, the decoder panics at `first().unwrap()` (`mod.rs:36-40`); otherwise it panics at `find(..).unwrap()` (`mod.rs:41-52`), which searches an empty door list | leftover debugging; decoding should not depend on a particular level containing a bulkhead controller with a secondary door | not executed | Replay.ReplayFileCommonsAsWritten, Replay.EndOnlyReplayPanics | Replay.ReplayFileCommons |
