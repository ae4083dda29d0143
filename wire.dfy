/** Bytes, fixed-width integers, the decode result and the `count` combinator.

    Every reader of the replay format takes the remaining input and either fails or
    returns a value together with the input that is left; this is the shape of nom's
    `IResult<&[u8], T>`, restated as the datatype `Parsed`. */
module Wire {

  type byte = x: int | 0 <= x < 0x100
  type u8 = byte
  type u16 = x: int | 0 <= x < 0x1_0000
  type u32 = x: int | 0 <= x < 0x1_0000_0000
  type i32 = x: int | -0x8000_0000 <= x < 0x8000_0000

  /** What is left of the buffer; nom's `&[u8]`. */
  type Input = seq<byte>

  datatype Option<+T> = None | Some(value: T) {
    function GetOr(default: T): T {
      match this
      case Some(v) => v
      case None => default
    }
  }

  /** Why a decode stops. The first two are nom errors; the other three are panics in the
      source (an `unwrap` on `None`, an `unreachable!()`), which the model reports as
      failures of the whole decode. */
  datatype Error =
    | Truncated             // fewer bytes remain than a field needs (nom's Eof)
    | InvalidEncoding       // a string is not UTF-8 (map_res over str::from_utf8)
    | UnknownTypeId         // a record id that no typemap entry has
    | InvalidRotationIndex  // a dropped-component index above 3
    | MissingDebugRecord    // the unwraps of the logging block (as written only)

  datatype Parsed<+T> = Ok(value: T, rest: Input) | Fail(error: Error) {
    predicate IsFailure() { Fail? }
    function PropagateFailure<U>(): Parsed<U>
      requires Fail?
    {
      Fail(error)
    }
    function Extract(): Parsed<T>
      requires Ok?
    {
      this
    }
  }

  /** A successful decode leaves a suffix of its input. */
  predicate Advances<T>(s: Input, r: Parsed<T>) {
    r.Ok? ==> |r.rest| <= |s| && r.rest == s[|s| - |r.rest|..]
  }

  /** The decode succeeds exactly when at least `n` bytes remain, and then takes `n` bytes. */
  predicate Takes<T>(s: Input, r: Parsed<T>, n: nat) {
    && (r.Ok? <==> |s| >= n)
    && (r.Ok? ==> r.rest == s[n..])
    && (r.Fail? ==> r.error == Truncated)
  }

  /** Number of bytes a successful decode consumed. */
  function Used<T>(s: Input, r: Parsed<T>): int
    requires r.Ok?
  {
    |s| - |r.rest|
  }

  ghost predicate IsParser<T>(p: Input -> Parsed<T>) {
    forall s :: Advances(s, p(s))
  }

  /** Little-endian value of a byte string, least significant byte first; the reference
      against which every integer reader is stated. */
  function LittleEndian(bs: seq<byte>): nat {
    if |bs| == 0 then 0 else bs[0] + 0x100 * LittleEndian(bs[1..])
  }

  /** The `n` least significant bytes of `v`, least significant first. */
  function LeBytes(v: nat, n: nat): (bs: seq<byte>)
    ensures |bs| == n
  {
    if n == 0 then [] else [v % 0x100] + LeBytes(v / 0x100, n - 1)
  }

  function Pow256(n: nat): (p: nat)
    ensures p > 0
  {
    if n == 0 then 1 else 0x100 * Pow256(n - 1)
  }

  lemma {:induction false} LittleEndianBound(bs: seq<byte>)
    ensures LittleEndian(bs) < Pow256(|bs|)
  {
    if |bs| > 0 {
      LittleEndianBound(bs[1..]);
    }
  }

  /** Encoding `v` in `n` bytes and reading them back gives `v`, when `v` fits. */
  lemma {:induction false} LittleEndianOfLeBytes(v: nat, n: nat)
    requires v < Pow256(n)
    ensures LittleEndian(LeBytes(v, n)) == v
  {
    if n > 0 {
      LittleEndianOfLeBytes(v / 0x100, n - 1);
      assert LeBytes(v, n)[1..] == LeBytes(v / 0x100, n - 1);
    }
  }

  /** Dropping `a` bytes and then `b` is dropping `a + b`. */
  lemma DropDrop(s: Input, a: nat, b: nat)
    requires a + b <= |s|
    ensures s[a..][b..] == s[a + b..]
  {
  }

  /** A suffix of a suffix of `s` is a suffix of `s`. */
  lemma SuffixOfSuffix(s: Input, m: Input, t: Input)
    requires |m| <= |s| && m == s[|s| - |m|..]
    requires |t| <= |m| && t == m[|m| - |t|..]
    ensures t == s[|s| - |t|..]
  {
    DropDrop(s, |s| - |m|, |m| - |t|);
  }

  /** A parser run on a suffix of `s` also leaves a suffix of `s`. */
  lemma AdvancesFrom<T>(s: Input, m: Input, r: Parsed<T>)
    requires |m| <= |s| && m == s[|s| - |m|..]
    requires Advances(m, r)
    ensures Advances(s, r)
  {
    if r.Ok? {
      SuffixOfSuffix(s, m, r.rest);
    }
  }

  /** nom's `count(p, n)`: apply `p` exactly `n` times in sequence, failing if any
      application fails. */
  function Count<T>(p: Input -> Parsed<T>, n: nat, s: Input): (r: Parsed<seq<T>>)
    requires IsParser(p)
    ensures Advances(s, r)
    ensures r.Ok? ==> |r.value| == n
    decreases n, 1
  {
    if n == 0 then Ok([], s) else CountStep(p, n, s)
  }

  /** One item, then `count` of the other `n - 1`. */
  function CountStep<T>(p: Input -> Parsed<T>, n: nat, s: Input): (r: Parsed<seq<T>>)
    requires IsParser(p) && n > 0
    ensures Advances(s, r)
    ensures r.Ok? ==> |r.value| == n
    decreases n, 0
  {
    var h :- p(s);
    var t :- Count(p, n - 1, h.rest);
    SuffixOfSuffix(s, h.rest, t.rest);
    Ok([h.value] + t.value, t.rest)
  }

  /** `count` of a fixed-width parser consumes `n` times its width. */
  lemma CountTakes<T>(p: Input -> Parsed<T>, w: nat, n: nat, s: Input)
    requires IsParser(p)
    requires forall t :: Takes(t, p(t), w)
    ensures Takes(s, Count(p, n, s), n * w)
  {
    CountTakesSum(p, w, n, s);
    RepeatedIsProduct(n, w);
  }

  /** `n` copies of `w` added up. */
  function Repeated(n: nat, w: nat): nat {
    if n == 0 then 0 else w + Repeated(n - 1, w)
  }

  lemma {:induction false} RepeatedIsProduct(n: nat, w: nat)
    ensures Repeated(n, w) == n * w
  {
    if n > 0 {
      RepeatedIsProduct(n - 1, w);
      assert n * w == w + (n - 1) * w;
    }
  }

  lemma {:induction false} CountTakesSum<T>(p: Input -> Parsed<T>, w: nat, n: nat, s: Input)
    requires IsParser(p)
    requires forall t :: Takes(t, p(t), w)
    ensures Takes(s, Count(p, n, s), Repeated(n, w))
    decreases n
  {
    if n > 0 {
      var h := p(s);
      assert Takes(s, h, w);
      var m := Repeated(n - 1, w);
      if h.Ok? {
        var t := Count(p, n - 1, h.rest);
        CountTakesSum(p, w, n - 1, h.rest);
        if t.Ok? {
          DropDrop(s, w, m);
          assert Count(p, n, s) == Ok([h.value] + t.value, t.rest);
        } else {
          assert Count(p, n, s) == Fail(t.error);
        }
      } else {
        assert Count(p, n, s) == Fail(h.error);
      }
    }
  }

  /** The `k`-th item of a list of items `w` bytes wide, read on its own. */
  function Slot<T>(p: Input -> Parsed<T>, w: nat, s: Input, k: nat): Parsed<T> {
    if Repeated(k, w) <= |s| then p(s[Repeated(k, w)..]) else Fail(Truncated)
  }

  /** Slot `k` is the item read at byte offset `k * w`. */
  lemma SlotOffset<T>(p: Input -> Parsed<T>, w: nat, s: Input, k: nat)
    ensures Slot(p, w, s, k) == if k * w <= |s| then p(s[k * w..]) else Fail(Truncated)
  {
    RepeatedIsProduct(k, w);
  }

  /** The slots after the first `w` bytes are the slots of `s` shifted by one. */
  lemma SlotShift<T>(p: Input -> Parsed<T>, w: nat, s: Input, k: nat)
    requires w <= |s|
    ensures Slot(p, w, s[w..], k) == Slot(p, w, s, k + 1)
  {
    if Repeated(k, w) <= |s| - w {
      DropDrop(s, w, Repeated(k, w));
    }
  }

  /** What `count` needs of a parser for `CountSlots`: a success is exactly `w` bytes. */
  ghost predicate Strided<T>(p: Input -> Parsed<T>, w: nat) {
    forall t :: p(t).Ok? ==> |t| >= w && p(t).rest == t[w..]
  }

  /** `count` of a parser whose successes are exactly `w` bytes long succeeds iff each of
      the `n` slots parses on its own. */
  lemma {:induction false} CountSlots<T>(p: Input -> Parsed<T>, w: nat, n: nat, s: Input)
    requires IsParser(p) && Strided(p, w)
    ensures Count(p, n, s).Ok? <==> forall k :: 0 <= k < n ==> Slot(p, w, s, k).Ok?
    decreases n
  {
    if n > 0 {
      var h := p(s);
      assert Slot(p, w, s, 0) == h;
      if h.Ok? {
        var u := h.rest;
        CountSlots(p, w, n - 1, u);
        forall k | 0 <= k < n - 1 ensures Slot(p, w, u, k) == Slot(p, w, s, k + 1) {
          SlotShift(p, w, s, k);
        }
        var t := Count(p, n - 1, u);
        if t.Ok? {
          assert Count(p, n, s).Ok?;
          forall k | 0 <= k < n ensures Slot(p, w, s, k).Ok? {
            if k > 0 { assert Slot(p, w, s, k) == Slot(p, w, u, k - 1); }
          }
        } else {
          assert Count(p, n, s).Fail?;
          var j :| 0 <= j < n - 1 && !Slot(p, w, u, j).Ok?;
          assert !Slot(p, w, s, j + 1).Ok?;
        }
      }
    }
  }

  /** A parser that succeeds exactly when `w` bytes are there and the byte at `off` is at
      most `bound`. */
  ghost predicate Guarded<T>(p: Input -> Parsed<T>, w: nat, off: nat, bound: nat) {
    off < w && forall u :: p(u).Ok? <==> |u| >= w && u[off] <= bound
  }

  /** Slot `k` of `t` has its `w` bytes, and its guard byte at offset `off` is at most
      `bound`. */
  predicate SlotFits(t: Input, w: nat, off: nat, bound: nat, k: nat)
    requires off < w
  {
    k * w + w <= |t| && t[k * w + off] <= bound
  }

  /** For such a parser, slot `k` parses iff its `w` bytes are there and its guard byte is
      at most `bound`. */
  lemma SlotGuard<T>(p: Input -> Parsed<T>, w: nat, off: nat, bound: nat, t: Input, k: nat)
    requires Guarded(p, w, off, bound)
    ensures Slot(p, w, t, k).Ok? <==> SlotFits(t, w, off, bound, k)
  {
    RepeatedIsProduct(k, w);
    if k * w <= |t| {
      var u := t[k * w..];
      if |u| >= w {
        assert u[off] == t[k * w + off];
      }
    }
  }

  /** `count` of a guarded parser succeeds iff every one of its `n` slots fits. */
  lemma GuardedCount<T>(p: Input -> Parsed<T>, w: nat, off: nat, bound: nat, n: nat, t: Input)
    requires IsParser(p) && Guarded(p, w, off, bound)
    requires forall u :: p(u).Ok? ==> p(u).rest == u[w..]
    ensures Count(p, n, t).Ok? <==> forall k :: 0 <= k < n ==> SlotFits(t, w, off, bound, k)
  {
    CountSlots(p, w, n, t);
    forall k | 0 <= k < n ensures Slot(p, w, t, k).Ok? <==> SlotFits(t, w, off, bound, k) {
      SlotGuard(p, w, off, bound, t, k);
    }
  }

  /** A successful `count` of a strided parser is its first item, `w` bytes, followed by
      the count of the rest. */
  lemma CountStrideStep<T>(p: Input -> Parsed<T>, w: nat, n: nat, s: Input)
    requires IsParser(p) && Strided(p, w)
    requires n > 0 && Count(p, n, s).Ok?
    ensures p(s).Ok? && |s| >= w && p(s).rest == s[w..]
    ensures Count(p, n - 1, s[w..]).Ok?
    ensures Count(p, n, s).value == [p(s).value] + Count(p, n - 1, s[w..]).value
    ensures Count(p, n, s).rest == Count(p, n - 1, s[w..]).rest
  {
  }

  /** ... and then returns exactly the items of the slots. */
  lemma {:induction false} CountSlotItems<T>(p: Input -> Parsed<T>, w: nat, n: nat, s: Input)
    requires IsParser(p) && Strided(p, w)
    requires Count(p, n, s).Ok?
    ensures forall k :: 0 <= k < n ==>
      Slot(p, w, s, k).Ok? && Count(p, n, s).value[k] == Slot(p, w, s, k).value
    decreases n
  {
    if n > 0 {
      CountStrideStep(p, w, n, s);
      var u := s[w..];
      var items := Count(p, n, s).value;
      var tail := Count(p, n - 1, u).value;
      CountSlotItems(p, w, n - 1, u);
      assert Slot(p, w, s, 0) == p(s);
      forall k | 0 < k < n
        ensures Slot(p, w, s, k).Ok? && items[k] == Slot(p, w, s, k).value
      {
        SlotShift(p, w, s, k - 1);
        assert items[k] == tail[k - 1];
      }
    }
  }

  /** Every item `count` returns has a property that every value of `p` has. */
  lemma {:induction false} CountAll<T>(p: Input -> Parsed<T>, ok: T -> bool, n: nat, s: Input)
    requires IsParser(p)
    requires forall u :: p(u).Ok? ==> ok(p(u).value)
    ensures Count(p, n, s).Ok? ==> forall k :: 0 <= k < n ==> ok(Count(p, n, s).value[k])
    decreases n
  {
    if n > 0 {
      var h := p(s);
      if h.Ok? {
        CountAll(p, ok, n - 1, h.rest);
      }
    }
  }

  /** Round trip of `count`: if `p` reads back each item its encoder wrote, `count`
      reads back the concatenated encodings of a whole list. */
  lemma {:induction false} CountRoundTrip<T>(p: Input -> Parsed<T>, enc: T -> seq<byte>,
                                             ok: T -> bool, xs: seq<T>, t: Input)
    requires IsParser(p)
    requires forall x, u :: ok(x) ==> p(enc(x) + u) == Ok(x, u)
    requires forall i :: 0 <= i < |xs| ==> ok(xs[i])
    ensures Count(p, |xs|, Concat(enc, xs) + t) == Ok(xs, t)
  {
    if |xs| > 0 {
      assert Concat(enc, xs) + t == enc(xs[0]) + (Concat(enc, xs[1..]) + t);
      CountRoundTrip(p, enc, ok, xs[1..], t);
      assert [xs[0]] + xs[1..] == xs;
    }
  }

  /** Concatenation of the encodings of a list, in order. */
  function Concat<T>(enc: T -> seq<byte>, xs: seq<T>): seq<byte> {
    if |xs| == 0 then [] else enc(xs[0]) + Concat(enc, xs[1..])
  }
}
