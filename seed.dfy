/**
 * The catalogue's constant lists and its seed generator: 25 records that
 * cycle through five customers, five order numbers, the seven sections
 * and the common tags, with creation times one day apart going back
 * from the moment of generation.
 */
module Seed {
  import opened Types
  import opened Strings
  import opened Seqs

  const SECTIONS: seq<Section> := [Door, Box, Saddle, Routing, Terminal, FrontView, SideView]

  const COMMON_TAGS: seq<string> := [
    "mesh", "bundling", "bend radius", "torque", "labeling", "routing",
    "clearance", "separation", "grounding", "neatness", "UL-certified"
  ]

  const CUSTOMERS: seq<string> := [
    "EcoPower Solutions", "GridSystems Global", "MegaCorp Industrial",
    "VoltGen Energy", "Vertex Manufacturing"
  ]

  const ORDERS: seq<string> := [
    "ORD-2024-001", "ORD-2024-002", "ORD-2024-055", "ORD-2023-999", "ORD-2025-010"
  ]

  const SEED_SIZE: nat := 25
  const DAY_MS: int := 86400000
  const HALF_DAY_MS: int := 43200000

  /** The section list holds every section exactly once. */
  lemma SectionsComplete()
    ensures |SECTIONS| == 7 && NoDup(SECTIONS)
    ensures forall s: Section :: s in SECTIONS
    ensures forall a, b :: a in SECTIONS && b in SECTIONS && a != b ==> SectionName(a) != SectionName(b)
  {
    forall s: Section
      ensures s in SECTIONS
    {
      match s
      case Door => assert SECTIONS[0] == s;
      case Box => assert SECTIONS[1] == s;
      case Saddle => assert SECTIONS[2] == s;
      case Routing => assert SECTIONS[3] == s;
      case Terminal => assert SECTIONS[4] == s;
      case FrontView => assert SECTIONS[5] == s;
      case SideView => assert SECTIONS[6] == s;
    }
  }

  /** The common tags are eleven distinct strings. */
  lemma CommonTagsDistinct()
    ensures |COMMON_TAGS| == 11 && NoDup(COMMON_TAGS)
  {
  }

  /** The id of the `i`-th seed record (1-based). */
  function SeedId(i: nat): string
  {
    "ref-" + Decimal(i)
  }

  /**
   * The `i`-th seed record (1-based) for a generation instant `now`, as
   * one iteration of the generator's loop builds it. `Date.now()` is read
   * once, as `now`, for both timestamps. The record carries two
   * different tags of the common list, an image of url kind, a customer
   * and order number of the fixed lists, and for `i >= 1` was created
   * strictly before it was last updated, and updated before `now`.
   */
  function SeedRecord(i: nat, now: int): (r: Record)
    ensures |r.tags| == 2 && r.tags[0] != r.tags[1]
    ensures r.tags[0] in COMMON_TAGS && r.tags[1] in COMMON_TAGS
    ensures r.image.Url?
    ensures r.customer in CUSTOMERS && r.orderNumber in ORDERS
    ensures r.section == SECTIONS[i % 7]
    ensures i >= 1 ==> r.createdAt < r.updatedAt < now
  {
    CommonTagsDistinct();
    assert i % 11 != (i + 2) % 11;
    var customer := CUSTOMERS[i % |CUSTOMERS|];
    var order := ORDERS[i % |ORDERS|];
    var section := SECTIONS[i % |SECTIONS|];
    var tags := [COMMON_TAGS[i % |COMMON_TAGS|], COMMON_TAGS[(i + 2) % |COMMON_TAGS|]];
    Record(
      SeedId(i),
      SectionName(section) + " Wiring - " + customer,
      customer,
      order,
      section,
      tags,
      "Standard " + SectionName(section) + " wiring configuration for " + customer
        + ". Inspection passed for " + Join(tags, " and ") + " requirements.",
      Url("https://picsum.photos/seed/elec-" + Decimal(i) + "/800/600?random=" + Decimal(i)),
      now - i * DAY_MS,
      now - i * HALF_DAY_MS)
  }

  /** The record builder of a generation instant, as a function of the iteration. */
  function RecordOf(now: int): nat -> Record
  {
    (i: nat) => SeedRecord(i, now)
  }

  /** The whole seed list: the records of iterations 1 to 25, in push order. */
  function SeedList(now: int): (s: seq<Record>)
    ensures |s| == SEED_SIZE
  {
    Build(SEED_SIZE, RecordOf(now))
  }

  /** Record `k` of the seed list is iteration `k + 1`. */
  lemma SeedListAt(now: int, k: nat)
    requires k < SEED_SIZE
    ensures SeedList(now)[k] == SeedRecord(k + 1, now)
  {
  }

  /** `generateSeedData`: the loop over i = 1..25 that pushes the record of each iteration. */
  method GenerateSeed(now: int) returns (seed: seq<Record>)
    ensures seed == SeedList(now)
  {
    seed := [];
    for i := 1 to SEED_SIZE + 1
      invariant seed == Build(i - 1, RecordOf(now))
    {
      var record := SeedRecord(i, now);
      BuildStep(i - 1, RecordOf(now));
      seed := seed + [record];
    }
  }

  /** Seed ids differ for different iterations. */
  lemma SeedIdInjective(i: nat, j: nat)
    requires i != j
    ensures SeedId(i) != SeedId(j)
  {
    DecimalInjective(i, j);
    assert SeedId(i)[4..] == Decimal(i);
    assert SeedId(j)[4..] == Decimal(j);
  }

  /** All 25 seed records have distinct ids. */
  lemma SeedIdsDistinct(now: int)
    ensures forall a, b :: 0 <= a < b < |SeedList(now)| ==> SeedList(now)[a].id != SeedList(now)[b].id
  {
    forall a, b | 0 <= a < b < |SeedList(now)|
      ensures SeedList(now)[a].id != SeedList(now)[b].id
    {
      SeedListAt(now, a);
      SeedListAt(now, b);
      SeedIdInjective(a + 1, b + 1);
    }
  }

  /**
   * Each seed record was created strictly before it was last updated, and
   * updated no later than the generation instant.
   */
  lemma SeedTimestamps(now: int)
    ensures forall k :: 0 <= k < |SeedList(now)| ==>
              SeedList(now)[k].createdAt < SeedList(now)[k].updatedAt <= now
  {
    forall k | 0 <= k < |SeedList(now)|
      ensures SeedList(now)[k].createdAt < SeedList(now)[k].updatedAt <= now
    {
      SeedListAt(now, k);
    }
  }

  /** Creation times strictly decrease along the seed list: record i+1 is older than record i. */
  lemma SeedOlderDownTheList(now: int)
    ensures forall a, b :: 0 <= a < b < |SeedList(now)| ==>
              SeedList(now)[a].createdAt > SeedList(now)[b].createdAt
  {
    forall a, b | 0 <= a < b < |SeedList(now)|
      ensures SeedList(now)[a].createdAt > SeedList(now)[b].createdAt
    {
      SeedListAt(now, a);
      SeedListAt(now, b);
      assert (a + 1) * DAY_MS < (b + 1) * DAY_MS;
    }
  }
}
