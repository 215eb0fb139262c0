/**
 * The record store: one storage key holding the serialised list of
 * reference records. Browser storage and JSON (de)serialisation are
 * abstracted as a storage cell whose value is missing, the empty string,
 * text that does not parse, or a stored list of records.
 */
module Storage {
  import opened Wrappers
  import opened Types
  import opened Seqs
  import opened Records
  import Seed

  /** What the storage key holds. */
  datatype Cell = Missing | EmptyText | Unparsable | Stored(refs: seq<Record>)

  /** The list `getReferences` returns for a cell, given the in-memory seed. */
  function Loaded(c: Cell, seed: seq<Record>): seq<Record>
  {
    match c
    case Stored(refs) => refs
    case _ => seed
  }

  /**
   * The cell after `getReferences`: a missing or empty value is replaced
   * by the stored seed; unparsable text is left in place.
   */
  function AfterLoad(c: Cell, seed: seq<Record>): Cell
  {
    if c.Missing? || c.EmptyText? then Stored(seed) else c
  }

  /** Loading again right after a load sees the same list and leaves the same cell. */
  lemma LoadTwice(c: Cell, seed: seq<Record>)
    ensures Loaded(AfterLoad(c, seed), seed) == Loaded(c, seed)
    ensures AfterLoad(AfterLoad(c, seed), seed) == AfterLoad(c, seed)
  {
  }

  /**
   * The list `saveReference` writes: the first record with the same id is
   * replaced in place; without one, the record is put at the front.
   * Either way, looking the id up afterwards finds exactly the record saved.
   */
  function Upsert(refs: seq<Record>, ref: Record): (r: seq<Record>)
    ensures FindById(r, ref.id) == Some(ref)
    ensures HasId(refs, ref.id) ==> |r| == |refs|
    ensures !HasId(refs, ref.id) ==> r == [ref] + refs && |r| == |refs| + 1
  {
    var existingIndex := FindIndex(refs, ref.id);
    if existingIndex > -1 then
      var r := refs[existingIndex := ref];
      assert r[existingIndex] == ref;
      assert forall k :: 0 <= k < existingIndex ==> r[k] == refs[k];
      assert HasId(r, ref.id);
      assert FindIndex(r, ref.id) == existingIndex;
      r
    else
      var r := [ref] + refs;
      assert r[0] == ref;
      assert HasId(r, ref.id);
      r
  }

  /**
   * Replacing keeps the length, puts `ref` at the position of the first
   * record with its id and leaves every other position unchanged.
   */
  lemma UpsertReplaces(refs: seq<Record>, ref: Record)
    requires HasId(refs, ref.id)
    ensures var i := FindIndex(refs, ref.id);
            var r := Upsert(refs, ref);
            && 0 <= i < |refs|
            && |r| == |refs|
            && r[i] == ref
            && forall k :: 0 <= k < |refs| && k != i ==> r[k] == refs[k]
  {
  }

  /** An upsert leaves the records of every other id where they were, or one place later. */
  lemma UpsertKeepsOthers(refs: seq<Record>, ref: Record, k: nat)
    requires k < |refs| && refs[k].id != ref.id
    ensures var r := Upsert(refs, ref);
            if HasId(refs, ref.id) then r[k] == refs[k] else r[k + 1] == refs[k]
  {
  }

  /** The filter `r => r.id !== id`. */
  function IdIsNot(id: string): Record -> bool
  {
    (r: Record) => r.id != id
  }

  /**
   * The list `deleteReference(id)` writes: every record with the id
   * filtered out, and every record of another id kept.
   */
  function Removed(refs: seq<Record>, id: string): (r: seq<Record>)
    ensures !HasId(r, id)
    ensures forall k :: 0 <= k < |refs| && refs[k].id != id ==> refs[k] in r
    ensures |r| <= |refs|
  {
    Filter(refs, IdIsNot(id))
  }

  /**
   * After a delete no record has the id, every record of another id is
   * kept as often as before, and the kept records stay in their relative
   * order (removing from a concatenation removes from each part).
   */
  lemma RemovedSpec(refs: seq<Record>, id: string, more: seq<Record>)
    ensures !HasId(Removed(refs, id), id)
    ensures forall r: Record :: r.id != id ==> multiset(Removed(refs, id))[r] == multiset(refs)[r]
    ensures Removed(refs + more, id) == Removed(refs, id) + Removed(more, id)
    ensures |Removed(refs, id)| <= |refs|
  {
    forall r: Record | r.id != id
      ensures multiset(Removed(refs, id))[r] == multiset(refs)[r]
    {
      FilterMultiset(refs, IdIsNot(id), r);
    }
    FilterAppend(refs, more, IdIsNot(id));
  }

  /** Deleting an id that is absent writes the list back unchanged. */
  lemma RemoveAbsent(refs: seq<Record>, id: string)
    requires !HasId(refs, id)
    ensures Removed(refs, id) == refs
  {
    FilterAll(refs, IdIsNot(id));
  }

  /** Deleting the same id twice is the same as deleting it once. */
  lemma RemoveTwice(refs: seq<Record>, id: string)
    ensures Removed(Removed(refs, id), id) == Removed(refs, id)
  {
    RemovedSpec(refs, id, []);
    RemoveAbsent(Removed(refs, id), id);
  }

  /** A delete shortens the list by one when exactly one record has the id. */
  lemma RemoveUnique(refs: seq<Record>, i: nat)
    requires i < |refs|
    requires forall k :: 0 <= k < |refs| && k != i ==> refs[k].id != refs[i].id
    ensures Removed(refs, refs[i].id) == refs[..i] + refs[i + 1..]
    ensures |Removed(refs, refs[i].id)| == |refs| - 1
  {
    var id := refs[i].id;
    assert refs == refs[..i] + ([refs[i]] + refs[i + 1..]);
    FilterAppend(refs[..i], [refs[i]] + refs[i + 1..], IdIsNot(id));
    FilterAppend([refs[i]], refs[i + 1..], IdIsNot(id));
    RemoveAbsent(refs[..i], id);
    RemoveAbsent(refs[i + 1..], id);
  }

  /**
   * The store of one browser: the storage cell and the seed list that was
   * generated when the application loaded (`INITIAL_SEED`). The seed is a
   * value here; see `StorageAliasing` for the source's shared array.
   */
  class ReferenceStore {
    const seed: seq<Record>
    var cell: Cell

    /** A store over the given cell, with the seed generated at instant `now`. */
    constructor (now: int, initial: Cell)
      ensures seed == Seed.SeedList(now) && cell == initial
    {
      var s := Seed.GenerateSeed(now);
      seed := s;
      cell := initial;
    }

    /**
     * `getReferences`: the stored list, or the seed when nothing usable is
     * stored. A missing or empty value is replaced by the seed; unparsable
     * text is left as it is.
     */
    method GetReferences() returns (refs: seq<Record>)
      modifies this
      ensures refs == Loaded(old(cell), seed)
      ensures cell == AfterLoad(old(cell), seed)
      ensures old(cell).Missing? || old(cell).EmptyText? ==> refs == seed && cell == Stored(seed)
      ensures old(cell).Unparsable? ==> refs == seed && cell == Unparsable
      ensures old(cell).Stored? ==> refs == old(cell).refs && cell == old(cell)
    {
      match cell
      case Missing =>
        cell := Stored(seed);
        refs := seed;
      case EmptyText =>
        cell := Stored(seed);
        refs := seed;
      case Unparsable =>
        refs := seed;
      case Stored(stored) =>
        refs := stored;
    }

    /**
     * `saveReference`: reads the list, replaces the first record with the
     * same id or puts the record in front, and stores the whole list.
     */
    method SaveReference(ref: Record)
      modifies this
      ensures cell == Stored(Upsert(Loaded(old(cell), seed), ref))
      ensures FindById(cell.refs, ref.id) == Some(ref)
      ensures HasId(Loaded(old(cell), seed), ref.id) ==> |cell.refs| == |Loaded(old(cell), seed)|
      ensures !HasId(Loaded(old(cell), seed), ref.id) ==> cell.refs == [ref] + Loaded(old(cell), seed)
    {
      var refs := GetReferences();
      var existingIndex := FindIndex(refs, ref.id);
      if existingIndex > -1 {
        refs := refs[existingIndex := ref];
      } else {
        refs := [ref] + refs;
      }
      cell := Stored(refs);
    }

    /** `deleteReference`: reads the list, filters the id out and stores the rest. */
    method DeleteReference(id: string)
      modifies this
      ensures cell == Stored(Removed(Loaded(old(cell), seed), id))
      ensures !HasId(cell.refs, id)
      ensures !HasId(Loaded(old(cell), seed), id) ==> cell.refs == Loaded(old(cell), seed)
    {
      var refs := GetReferences();
      refs := Filter(refs, IdIsNot(id));
      cell := Stored(refs);
      RemovedSpec(Loaded(old(cell), seed), id, []);
      if !HasId(Loaded(old(cell), seed), id) {
        RemoveAbsent(Loaded(old(cell), seed), id);
      }
    }

    /** `resetData`: stores the seed, whatever was stored before. */
    method ResetData()
      modifies this
      ensures cell == Stored(seed)
    {
      cell := Stored(seed);
    }
  }
}
