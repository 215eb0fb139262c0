/**
 * The create-then-edit round trip through the form and the store, from a
 * browser with nothing stored: the page loads 25 seed records, the form
 * creates a record, and editing its notes saves it again in place.
 */
module Scenarios {
  import opened Wrappers
  import opened Types
  import opened Strings
  import opened Records
  import opened Storage
  import opened AdminForm
  import Seed

  /** A record id `ref-<t>` for a clock reading past the seed indices is not a seed id. */
  lemma ClockIdNotInSeed(loadTime: int, t: nat)
    requires Seed.SEED_SIZE < t
    ensures !HasId(Seed.SeedList(loadTime), "ref-" + Decimal(t))
  {
    var seed := Seed.SeedList(loadTime);
    forall k | 0 <= k < |seed|
      ensures seed[k].id != "ref-" + Decimal(t)
    {
      Seed.SeedListAt(loadTime, k);
      Seed.SeedIdInjective(t, k + 1);
    }
  }

  /**
   * Loads from a missing storage value, submits a new form at
   * `createTime`, reloads, loads that record into the edit form, changes
   * its notes, submits at `editTime` and reloads. The clock readings are
   * in milliseconds, so they are far past the 25 seed indices.
   */
  method CreateThenEdit(loadTime: int, createTime: nat, editTime: nat)
    returns (initial: nat, afterCreate: nat, afterEdit: nat, created: Record, edited: Record, finalRefs: seq<Record>)
    requires Seed.SEED_SIZE < createTime < editTime
    ensures initial == 25 && afterCreate == 26 && afterEdit == 26
    ensures created.id == "ref-" + Decimal(createTime)
    ensures created.createdAt == created.updatedAt == createTime
    ensures edited == created.(notes := "changed", updatedAt := editTime)
    ensures edited.createdAt == created.createdAt && edited.updatedAt > created.updatedAt
    ensures FindById(finalRefs, created.id) == Some(edited)
    ensures |finalRefs| == 26
  {
    var store := new ReferenceStore(loadTime, Missing);
    var refs := store.GetReferences();
    initial := |refs|;

    var form := INITIAL_FORM.(
      title := "Terminal Routing - Acme", customer := "Acme", orderNumber := "ORD-9",
      section := Terminal, tags := ["mesh"], notes := "ok", image := Url("https://x/y.jpg"));
    created := BuildRecord(form, createTime);
    ClockIdNotInSeed(loadTime, createTime);
    store.SaveReference(created);
    refs := store.GetReferences();
    afterCreate := |refs|;

    var editForm := LoadForEdit(INITIAL_FORM, Some(created.id), refs);
    assert editForm == FromRecord(created);
    edited := BuildRecord(editForm.(notes := "changed"), editTime);
    store.SaveReference(edited);
    finalRefs := store.GetReferences();
    afterEdit := |finalRefs|;
  }
}
