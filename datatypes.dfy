/** The decoded records (crates/rrv-core/src/parser/datatypes.rs), the glam values they
    hold, the identifier union the resource containers carry, and the index invariant
    that ties every entity to its entry of the shared transform table. */
module Datatypes {
  import opened Wire

  // ---------------------------------------------------------------- values

  /** An `f16` kept as its raw bit pattern (`f16::from_bits`); no rounding, NaN and
      infinities pass through. */
  datatype F16 = F16(bits: u16)

  /** An `f32` kept as its raw little-endian bit pattern. */
  datatype F32 = F32(bits: u32)

  /** glam `Vec3`. */
  datatype Vec3 = Vec3(x: F32, y: F32, z: F32)

  /** One `f64` component of a decoded rotation: either a stored half widened to `f64`
      (exact), or the reconstructed component `sqrt(clamp(1 - a² - b² - c², 0, 1))` of the
      three stored halves, kept symbolic. */
  datatype Component = Stored(half: F16) | Recovered(a: F16, b: F16, c: F16)

  /** glam `DQuat`, built with `from_xyzw`. */
  datatype Quat = Quat(x: Component, y: Component, z: Component, w: Component)

  /** The four slots of a quaternion in the order x, y, z, w. */
  function Slots(q: Quat): (cs: seq<Component>)
    ensures |cs| == 4
  {
    [q.x, q.y, q.z, q.w]
  }

  /** `s` with its `i`-th element taken out. */
  function RemoveAt<T>(s: seq<T>, i: nat): seq<T>
    requires i < |s|
  {
    s[..i] + s[i + 1..]
  }

  /** One entry of the shared transform table. */
  datatype Common = Common(dimension: u8, position: Vec3, rotation: Quat)

  // ----------------------------------------------------------------- enums

  /** The `#[repr(u8)]` enums derive `FromRepr`: a byte maps to the variant with that
      discriminant and to nothing otherwise. */
  datatype DoorVariant = WeakDoor | SecurityDoor | BulkheadDoor | BulkheadDoorMain | ApexDoor

  function DoorVariantRepr(v: DoorVariant): u8 {
    match v
    case WeakDoor => 0
    case SecurityDoor => 1
    case BulkheadDoor => 2
    case BulkheadDoorMain => 3
    case ApexDoor => 4
  }

  function DoorVariantFromRepr(b: u8): (r: Option<DoorVariant>)
    ensures r.Some? <==> b <= 4
    ensures r.Some? ==> DoorVariantRepr(r.value) == b
  {
    if b == 0 then Some(WeakDoor)
    else if b == 1 then Some(SecurityDoor)
    else if b == 2 then Some(BulkheadDoor)
    else if b == 3 then Some(BulkheadDoorMain)
    else if b == 4 then Some(ApexDoor)
    else None
  }

  /** `DoorVariant::from_repr(b).unwrap_or_default()`; the default is `WeakDoor`. */
  function DoorVariantOf(b: u8): (v: DoorVariant)
    ensures b <= 4 ==> DoorVariantRepr(v) == b
    ensures b > 4 ==> v == WeakDoor
  {
    DoorVariantFromRepr(b).GetOr(WeakDoor)
  }

  datatype DoorSize = Small | Medium | Large

  function DoorSizeRepr(v: DoorSize): u8 {
    match v
    case Small => 0
    case Medium => 1
    case Large => 2
  }

  function DoorSizeFromRepr(b: u8): (r: Option<DoorSize>)
    ensures r.Some? <==> b <= 2
    ensures r.Some? ==> DoorSizeRepr(r.value) == b
  {
    if b == 0 then Some(Small)
    else if b == 1 then Some(Medium)
    else if b == 2 then Some(Large)
    else None
  }

  /** `DoorSize::from_repr(b).unwrap_or_default()`; the default is `Small`. */
  function DoorSizeOf(b: u8): (v: DoorSize)
    ensures b <= 2 ==> DoorSizeRepr(v) == b
    ensures b > 2 ==> v == Small
  {
    DoorSizeFromRepr(b).GetOr(Small)
  }

  /** `LockType`; its first variant is called `None` in the source. */
  datatype LockType = None_ | Melee | Hack

  function LockTypeRepr(v: LockType): u8 {
    match v
    case None_ => 0
    case Melee => 1
    case Hack => 2
  }

  /** `LockType::from_repr`, used without a default: byte 0 is `Some(None_)`, a byte above
      2 is no lock type at all. */
  function LockTypeFromRepr(b: u8): (r: Option<LockType>)
    ensures r.Some? <==> b <= 2
    ensures r.Some? ==> LockTypeRepr(r.value) == b
  {
    if b == 0 then Some(None_)
    else if b == 1 then Some(Melee)
    else if b == 2 then Some(Hack)
    else None
  }

  /** The identifier tag. Its declaration is not part of this model's sources; the tags
      are taken to be 0 to 5 in this order, `Unknown` being the default. */
  datatype Identifier = Unknown | Gear | AliasGear | Item | Enemy | Vanity

  function IdentifierRepr(v: Identifier): u8 {
    match v
    case Unknown => 0
    case Gear => 1
    case AliasGear => 2
    case Item => 3
    case Enemy => 4
    case Vanity => 5
  }

  function IdentifierFromRepr(b: u8): (r: Option<Identifier>)
    ensures r.Some? <==> b <= 5
    ensures r.Some? ==> IdentifierRepr(r.value) == b
  {
    if b == 0 then Some(Identifier.Unknown)
    else if b == 1 then Some(Identifier.Gear)
    else if b == 2 then Some(Identifier.AliasGear)
    else if b == 3 then Some(Identifier.Item)
    else if b == 4 then Some(Identifier.Enemy)
    else if b == 5 then Some(Identifier.Vanity)
    else None
  }

  /** `Identifier::from_repr(b).unwrap_or_default()`. */
  function IdentifierOf(b: u8): (v: Identifier)
    ensures b <= 5 ==> IdentifierRepr(v) == b
    ensures b > 5 ==> v == Identifier.Unknown
  {
    IdentifierFromRepr(b).GetOr(Identifier.Unknown)
  }

  /** The decoded identifier: a tag with its payload. Strings are UTF-8 bytes. */
  datatype IdentifierType =
    | Unknown
    | Gear(name: Input, alias: u16)
    | AliasGear(alias: u16)
    | Item(id: u16)
    | Enemy(id: u16)
    | Vanity(id: u16)

  /** The tag of a decoded identifier. */
  function TagOf(v: IdentifierType): Identifier {
    match v
    case Unknown => Identifier.Unknown
    case Gear(_, _) => Identifier.Gear
    case AliasGear(_) => Identifier.AliasGear
    case Item(_) => Identifier.Item
    case Enemy(_) => Identifier.Enemy
    case Vanity(_) => Identifier.Vanity
  }

  // --------------------------------------------------------------- records

  datatype ReplayHeader = ReplayHeader(version: Input, master: bool)

  /** Covers schema 0.0.1 (no flag) and 0.0.2 (with the flag). */
  datatype Metadata = Metadata(version: Input, compatabilityOldDc: Option<bool>)

  datatype Geometry = Geometry(dimension: u8, vertices: seq<Vec3>, indices: seq<u16>)

  datatype Door = Door(id: i32, idx: nat, serial: u16, checkpoint: bool,
                       variant: DoorVariant, size: DoorSize)

  datatype Ladder = Ladder(idx: nat, height: F16)

  datatype Terminal = Terminal(id: i32, idx: nat)

  datatype Generator = Generator(id: i32, idx: nat, serial: u16)

  datatype ResourceContainer = ResourceContainer(
    id: i32, idx: nat, serial: u16, locker: bool,
    consumableType: Option<IdentifierType>, registered: Option<bool>, lockType: Option<LockType>)

  datatype DisinfectStation = DisinfectStation(id: i32, idx: nat, serial: u16)

  datatype BulkheadController = BulkheadController(
    id: i32, idx: nat, serial: u16, main: Option<i32>, secondary: Option<i32>, ovl: Option<i32>)

  datatype Spitter = Spitter(id: i32, idx: nat, scale: F16)

  /** The decoded header: the shared transform table `commons`, one sequence per entity
      kind, the level geometry, and the two optional singleton records. */
  datatype Header = Header(
    commons: seq<Common>,
    replayHeader: Option<ReplayHeader>,
    metadata: Option<Metadata>,
    levelGeometry: seq<Geometry>,
    doors: seq<Door>,
    ladders: seq<Ladder>,
    terminals: seq<Terminal>,
    generators: seq<Generator>,
    resourceContainers: seq<ResourceContainer>,
    disinfectStations: seq<DisinfectStation>,
    bulkheadControllers: seq<BulkheadController>,
    spitters: seq<Spitter>)

  /** `Header::default()`, the state the dispatch loop starts from. */
  function DefaultHeader(): (h: Header)
    ensures h.commons == [] && h.levelGeometry == []
    ensures h.replayHeader.None? && h.metadata.None?
    ensures forall k: Kind :: PerKind(h)[k] == []
    ensures WellIndexed(h)
  {
    Header([], None, None, [], [], [], [], [], [], [], [], [])
  }

  // ------------------------------------------------------ the index invariant

  /** The eight entity kinds that hold an index into `commons`, by position. */
  type Kind = k: nat | k < 8
  const DoorKind: Kind := 0
  const LadderKind: Kind := 1
  const TerminalKind: Kind := 2
  const GeneratorKind: Kind := 3
  const ResourceContainerKind: Kind := 4
  const DisinfectStationKind: Kind := 5
  const BulkheadControllerKind: Kind := 6
  const SpitterKind: Kind := 7

  function DoorIdx(ds: seq<Door>): seq<nat> { seq(|ds|, i requires 0 <= i < |ds| => ds[i].idx) }
  function LadderIdx(ds: seq<Ladder>): seq<nat> { seq(|ds|, i requires 0 <= i < |ds| => ds[i].idx) }
  function TerminalIdx(ds: seq<Terminal>): seq<nat> { seq(|ds|, i requires 0 <= i < |ds| => ds[i].idx) }
  function GeneratorIdx(ds: seq<Generator>): seq<nat> { seq(|ds|, i requires 0 <= i < |ds| => ds[i].idx) }
  function ResourceContainerIdx(ds: seq<ResourceContainer>): seq<nat> {
    seq(|ds|, i requires 0 <= i < |ds| => ds[i].idx)
  }
  function DisinfectStationIdx(ds: seq<DisinfectStation>): seq<nat> {
    seq(|ds|, i requires 0 <= i < |ds| => ds[i].idx)
  }
  function BulkheadControllerIdx(ds: seq<BulkheadController>): seq<nat> {
    seq(|ds|, i requires 0 <= i < |ds| => ds[i].idx)
  }
  function SpitterIdx(ds: seq<Spitter>): seq<nat> { seq(|ds|, i requires 0 <= i < |ds| => ds[i].idx) }

  /** The `idx` fields of each kind's entities, in order, one sequence per kind. */
  function PerKind(h: Header): (xss: seq<seq<nat>>)
    ensures |xss| == 8
  {
    [DoorIdx(h.doors), LadderIdx(h.ladders), TerminalIdx(h.terminals), GeneratorIdx(h.generators),
     ResourceContainerIdx(h.resourceContainers), DisinfectStationIdx(h.disinfectStations),
     BulkheadControllerIdx(h.bulkheadControllers), SpitterIdx(h.spitters)]
  }

  function Flatten(xss: seq<seq<nat>>): seq<nat> {
    if |xss| == 0 then [] else xss[0] + Flatten(xss[1..])
  }

  /** Every `idx` of the header, kind after kind. */
  function AllIdx(h: Header): seq<nat> {
    Flatten(PerKind(h))
  }

  /** `n` consecutive indices from `lo`. */
  function Run(lo: nat, n: nat): (xs: seq<nat>)
    ensures |xs| == n
  {
    seq(n, i requires 0 <= i < n => lo + i)
  }

  predicate Increasing(xs: seq<nat>) {
    forall i, j :: 0 <= i < j < |xs| ==> xs[i] < xs[j]
  }

  /** The invariant the decoder keeps: the entities' indices are exactly the positions of
      `commons`, each used once (so every entity points at a `Common` of its own), and
      within each kind the indices grow in insertion order. */
  predicate WellIndexed(h: Header) {
    Partition(PerKind(h), |h.commons|)
  }

  /** The lists `xss` together hold each of `0 .. total` exactly once, each in increasing
      order. */
  predicate Partition(xss: seq<seq<nat>>, total: nat) {
    && multiset(Flatten(xss)) == multiset(Run(0, total))
    && forall q :: 0 <= q < |xss| ==> Increasing(xss[q])
  }

  /** Every element of such lists is below `total`. */
  lemma PartitionBounded(xss: seq<seq<nat>>, total: nat)
    requires Partition(xss, total)
    ensures forall q, i :: 0 <= q < |xss| && 0 <= i < |xss[q]| ==> xss[q][i] < total
  {
    forall q, i | 0 <= q < |xss| && 0 <= i < |xss[q]| ensures xss[q][i] < total {
      var x := xss[q][i];
      InFlatten(xss, q, x);
      assert x in multiset(Run(0, total));
      RunMembers(0, total, x);
    }
  }

  lemma RunMembers(lo: nat, n: nat, x: nat)
    ensures x in Run(lo, n) <==> lo <= x < lo + n
  {
    if lo <= x < lo + n {
      assert Run(lo, n)[x - lo] == x;
    }
  }

  lemma RunSplit(n: nat, m: nat)
    ensures Run(0, n + m) == Run(0, n) + Run(n, m)
  {
  }

  /** Elements of a sequence without repetitions occur once in its multiset. */
  lemma {:induction false} DistinctOnce(xs: seq<nat>, x: nat)
    requires Increasing(xs)
    ensures multiset(xs)[x] <= 1
  {
    if |xs| > 0 {
      assert xs == [xs[0]] + xs[1..];
      assert Increasing(xs[1..]);
      DistinctOnce(xs[1..], x);
      if x == xs[0] {
        assert x !in xs[1..];
      }
    }
  }

  /** A value at two positions occurs at least twice in the multiset. */
  lemma Twice(xs: seq<nat>, i: nat, j: nat)
    requires i < j < |xs| && xs[i] == xs[j]
    ensures multiset(xs)[xs[i]] >= 2
  {
    var x := xs[i];
    assert xs == xs[..i] + [x] + xs[i + 1..j] + [x] + xs[j + 1..];
  }

  lemma {:induction false} InFlatten(xss: seq<seq<nat>>, p: nat, x: nat)
    requires p < |xss| && x in xss[p]
    ensures x in Flatten(xss)
  {
    if p > 0 {
      InFlatten(xss[1..], p - 1, x);
    }
  }

  /** Growing one of the flattened sequences grows the multiset of the whole by as much. */
  lemma {:induction false} FlattenGrow(xss: seq<seq<nat>>, yss: seq<seq<nat>>, p: nat, r: seq<nat>)
    requires |xss| == |yss| && p < |xss|
    requires yss[p] == xss[p] + r
    requires forall q :: 0 <= q < |xss| && q != p ==> yss[q] == xss[q]
    ensures multiset(Flatten(yss)) == multiset(Flatten(xss)) + multiset(r)
  {
    if p == 0 {
      assert yss[1..] == xss[1..];
    } else {
      FlattenGrow(xss[1..], yss[1..], p - 1, r);
    }
  }

  /** Every entity index is a position of `commons`: indexing `commons` with the `idx` of
      any entity of any kind is in bounds. */
  lemma WellIndexedInBounds(h: Header)
    requires WellIndexed(h)
    ensures forall x :: x in AllIdx(h) ==> x < |h.commons|
    ensures forall k: Kind, i :: 0 <= i < |PerKind(h)[k]| ==> PerKind(h)[k][i] < |h.commons|
  {
    forall x | x in AllIdx(h) ensures x < |h.commons| {
      assert x in multiset(Run(0, |h.commons|));
      RunMembers(0, |h.commons|, x);
    }
    PartitionBounded(PerKind(h), |h.commons|);
  }

  /** The same for the fields themselves, kind by kind. */
  lemma WellIndexedFields(h: Header)
    requires WellIndexed(h)
    ensures forall i :: 0 <= i < |h.doors| ==> h.doors[i].idx < |h.commons|
    ensures forall i :: 0 <= i < |h.ladders| ==> h.ladders[i].idx < |h.commons|
    ensures forall i :: 0 <= i < |h.terminals| ==> h.terminals[i].idx < |h.commons|
    ensures forall i :: 0 <= i < |h.generators| ==> h.generators[i].idx < |h.commons|
    ensures forall i :: 0 <= i < |h.resourceContainers| ==> h.resourceContainers[i].idx < |h.commons|
    ensures forall i :: 0 <= i < |h.disinfectStations| ==> h.disinfectStations[i].idx < |h.commons|
    ensures forall i :: 0 <= i < |h.bulkheadControllers| ==> h.bulkheadControllers[i].idx < |h.commons|
    ensures forall i :: 0 <= i < |h.spitters| ==> h.spitters[i].idx < |h.commons|
  {
    WellIndexedInBounds(h);
    var pk := PerKind(h);
    assert forall i :: 0 <= i < |h.doors| ==> h.doors[i].idx == pk[DoorKind][i];
    assert forall i :: 0 <= i < |h.ladders| ==> h.ladders[i].idx == pk[LadderKind][i];
    assert forall i :: 0 <= i < |h.terminals| ==> h.terminals[i].idx == pk[TerminalKind][i];
    assert forall i :: 0 <= i < |h.generators| ==> h.generators[i].idx == pk[GeneratorKind][i];
    assert forall i :: 0 <= i < |h.resourceContainers| ==>
      h.resourceContainers[i].idx == pk[ResourceContainerKind][i];
    assert forall i :: 0 <= i < |h.disinfectStations| ==>
      h.disinfectStations[i].idx == pk[DisinfectStationKind][i];
    assert forall i :: 0 <= i < |h.bulkheadControllers| ==>
      h.bulkheadControllers[i].idx == pk[BulkheadControllerKind][i];
    assert forall i :: 0 <= i < |h.spitters| ==> h.spitters[i].idx == pk[SpitterKind][i];
  }

  /** No two entities, of the same kind or of different kinds, share a `Common`, and every
      `Common` belongs to some entity; so there are exactly as many entities as entries. */
  lemma WellIndexedBijective(h: Header)
    requires WellIndexed(h)
    ensures |AllIdx(h)| == |h.commons|
    ensures forall i, j :: 0 <= i < j < |AllIdx(h)| ==> AllIdx(h)[i] != AllIdx(h)[j]
    ensures forall x :: 0 <= x < |h.commons| ==> x in AllIdx(h)
  {
    var all := AllIdx(h);
    var run := Run(0, |h.commons|);
    assert |all| == |multiset(all)| == |multiset(run)| == |run|;
    forall i, j | 0 <= i < j < |all| ensures all[i] != all[j] {
      if all[i] == all[j] {
        Twice(all, i, j);
        DistinctOnce(run, all[i]);
        assert false;
      }
    }
    forall x | 0 <= x < |h.commons| ensures x in all {
      RunMembers(0, |h.commons|, x);
      assert x in multiset(run);
    }
  }

  /** `h'` is `h` with elements appended to some of its sequences: decoding never removes
      or reorders what is already there. The singleton records may be replaced. */
  predicate Extends(h: Header, h': Header) {
    && h.commons <= h'.commons
    && h.levelGeometry <= h'.levelGeometry
    && h.doors <= h'.doors
    && h.ladders <= h'.ladders
    && h.terminals <= h'.terminals
    && h.generators <= h'.generators
    && h.resourceContainers <= h'.resourceContainers
    && h.disinfectStations <= h'.disinfectStations
    && h.bulkheadControllers <= h'.bulkheadControllers
    && h.spitters <= h'.spitters
  }

  /** What one entity decoder does to the indices: kind `k` gains the run of `n` indices
      that follows the old end of `commons`, which grows by `n`; no other kind changes. */
  predicate GrowsBy(h: Header, h': Header, k: Kind, n: nat) {
    && |h'.commons| == |h.commons| + n
    && PerKind(h') == PerKind(h)[k := PerKind(h)[k] + Run(|h.commons|, n)]
  }

  /** Such a step keeps the invariant. */
  lemma GrowKeepsWellIndexed(h: Header, h': Header, k: Kind, n: nat)
    requires WellIndexed(h)
    requires GrowsBy(h, h', k, n)
    ensures WellIndexed(h')
  {
    GrowKeepsPartition(PerKind(h), k, |h.commons|, n);
  }

  /** The invariant on the index lists alone: appending the next `n` indices to list `p`
      keeps the lists a partition of `0 .. base + n` into increasing lists. */
  lemma GrowKeepsPartition(xss: seq<seq<nat>>, p: nat, base: nat, n: nat)
    requires p < |xss| && Partition(xss, base)
    ensures Partition(xss[p := xss[p] + Run(base, n)], base + n)
  {
    var yss := xss[p := xss[p] + Run(base, n)];
    PartitionBounded(xss, base);
    FlattenGrow(xss, yss, p, Run(base, n));
    RunSplit(base, n);
    AppendRunIncreasing(xss[p], base, n);
    forall q | 0 <= q < |yss| ensures Increasing(yss[q]) {
      if q != p {
        assert yss[q] == xss[q];
      }
    }
  }

  lemma AppendRunIncreasing(xs: seq<nat>, base: nat, n: nat)
    requires Increasing(xs)
    requires forall i :: 0 <= i < |xs| ==> xs[i] < base
    ensures Increasing(xs + Run(base, n))
  {
  }
}
