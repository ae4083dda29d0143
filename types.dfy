/** The self-describing type registry (crates/rrv-core/src/parser/types.rs): the typemap
    read before the header records, and the lookup the dispatch loop does in it. */
module Types {
  import opened Wire

  /** One registry entry: a numeric id, a type name and a schema version (UTF-8 bytes). */
  datatype DataType = DataType(id: u16, typename: Input, version: Input)

  /** `entries` is the count read from the wire; `types` the entries in file order. */
  datatype Typemap = Typemap(version: Input, entries: u16, types: seq<DataType>)

  /** `types.iter().find(|&v| v.id == id)`: the first entry with that id, if any.
      Duplicate ids are not rejected; the first one wins. */
  function FindType(types: seq<DataType>, id: u16): (r: Option<DataType>)
    ensures r.None? <==> forall k :: 0 <= k < |types| ==> types[k].id != id
    ensures r.Some? ==> r.value.id == id && FirstWithId(types, id, r.value)
  {
    if |types| == 0 then None
    else if types[0].id == id then
      assert FirstAt(types, id, 0);
      Some(types[0])
    else
      var r := FindType(types[1..], id);
      if r.Some? then
        var k: nat :| FirstAt(types[1..], id, k) && types[1..][k] == r.value;
        assert FirstAt(types, id, k + 1);
        r
      else r
  }

  /** Position `k` holds the first entry with id `id`. */
  predicate FirstAt(types: seq<DataType>, id: u16, k: nat) {
    && k < |types|
    && types[k].id == id
    && forall j :: 0 <= j < k ==> types[j].id != id
  }

  ghost predicate FirstWithId(types: seq<DataType>, id: u16, t: DataType) {
    exists k: nat :: FirstAt(types, id, k) && types[k] == t
  }

  /** The lookup is determined by the first position holding the id: whatever follows it,
      duplicates included, does not matter. */
  lemma {:induction false} FindTypeFirst(types: seq<DataType>, id: u16, k: nat)
    requires FirstAt(types, id, k)
    ensures FindType(types, id) == Some(types[k])
  {
    if k > 0 {
      FindTypeFirst(types[1..], id, k - 1);
    }
  }
}
