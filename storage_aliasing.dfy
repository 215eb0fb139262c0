/**
 * The store as the source writes it, with the one piece of shared state
 * the class in `Storage` does not have: `getReferences` returns the
 * module-level seed array itself when storage is missing, empty or
 * unparsable, and `saveReference` then updates that array in place
 * (`refs[i] = ref`, `refs.unshift(ref)`). `deleteReference` filters into
 * a new array, so it never touches the seed; `resetData` stores whatever
 * the seed array holds at that moment.
 *
 * The page state is the storage cell together with the current contents
 * of the seed array.
 */
module StorageAliasing {
  import opened Wrappers
  import opened Types
  import opened Records
  import opened Storage
  import Seed

  datatype PageState = PageState(cell: Cell, seedArray: seq<Record>)

  /** `getReferences` hands out the seed array itself, not a parsed copy. */
  predicate LoadsSeedArray(c: Cell)
  {
    !c.Stored?
  }

  /** `saveReference` as written: the upserted list is stored and, when it is the seed array, the seed changes too. */
  function SaveAsWritten(st: PageState, ref: Record): (r: PageState)
    ensures r.cell.Stored? && FindById(r.cell.refs, ref.id) == Some(ref)
    ensures LoadsSeedArray(st.cell) ==> r.seedArray == r.cell.refs
    ensures !LoadsSeedArray(st.cell) ==> r.seedArray == st.seedArray
  {
    var refs := Upsert(Loaded(st.cell, st.seedArray), ref);
    PageState(Stored(refs), if LoadsSeedArray(st.cell) then refs else st.seedArray)
  }

  /** `deleteReference` as written: `filter` builds a new array, so the seed is untouched. */
  function DeleteAsWritten(st: PageState, id: string): (r: PageState)
    ensures r.cell.Stored? && !HasId(r.cell.refs, id)
    ensures r.seedArray == st.seedArray
  {
    PageState(Stored(Removed(Loaded(st.cell, st.seedArray), id)), st.seedArray)
  }

  /** `resetData` as written: stores the current contents of the seed array. */
  function ResetAsWritten(st: PageState): (r: PageState)
    ensures r.cell == Stored(st.seedArray) && r.seedArray == st.seedArray
  {
    PageState(Stored(st.seedArray), st.seedArray)
  }

  /**
   * Over unparsable storage, saving a new record and then resetting
   * stores the seed WITH the saved record in front: the reset does not
   * discard it.
   */
  lemma ResetKeepsSavedRecord(now: int, ref: Record)
    requires !HasId(Seed.SeedList(now), ref.id)
    ensures var st := ResetAsWritten(SaveAsWritten(PageState(Unparsable, Seed.SeedList(now)), ref));
            && st.cell == Stored([ref] + Seed.SeedList(now))
            && st.cell != Stored(Seed.SeedList(now))
  {
    var seed := Seed.SeedList(now);
    assert |[ref] + seed| != |seed|;
  }

  /**
   * The same happens after first use on a fresh browser: storage was
   * missing, the save writes the list correctly, yet the seed array now
   * holds the saved record, so a later reset stores it as well.
   */
  lemma FirstSaveCorruptsSeed(now: int, ref: Record)
    requires !HasId(Seed.SeedList(now), ref.id)
    ensures var st := SaveAsWritten(PageState(Missing, Seed.SeedList(now)), ref);
            && st.cell == Stored([ref] + Seed.SeedList(now))
            && st.seedArray != Seed.SeedList(now)
            && ResetAsWritten(st).cell != Stored(Seed.SeedList(now))
  {
    var seed := Seed.SeedList(now);
    assert |[ref] + seed| != |seed|;
  }

  /** Once something is stored, the seed array is no longer handed out, and the source agrees with the corrected store. */
  lemma StoredStateAgrees(refs: seq<Record>, seedArray: seq<Record>, ref: Record)
    ensures SaveAsWritten(PageState(Stored(refs), seedArray), ref)
            == PageState(Stored(Upsert(refs, ref)), seedArray)
  {
  }
}
