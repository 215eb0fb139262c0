/**
 * The detail page's queries: the record shown for a route id, and up to
 * four related records, meaning records of the same customer or sharing
 * a tag, in list order.
 */
module ReferenceDetail {
  import opened Wrappers
  import opened Types
  import opened Seqs
  import opened Records

  /** How many related records the page lists at most. */
  const RELATED_LIMIT: nat := 4

  /**
   * The shown record: the first with the route id; `None`, the not-found
   * view, exactly when no record has it.
   */
  function Shown(refs: seq<Record>, routeId: string): (o: Option<Record>)
    ensures o.None? <==> !HasId(refs, routeId)
    ensures o.Some? ==>
              && o.value.id == routeId
              && exists i :: 0 <= i < |refs| && refs[i] == o.value
                             && forall k :: 0 <= k < i ==> refs[k].id != routeId
  {
    var o := FindById(refs, routeId);
    if o.Some? then
      assert refs[FindIndex(refs, routeId)] == o.value;
      o
    else o
  }

  /** Record `r` is related to `shown`: another id, and the same customer or a shared tag. */
  predicate IsRelated(shown: Record, r: Record)
  {
    r.id != shown.id && (r.customer == shown.customer || exists t :: t in r.tags && t in shown.tags)
  }

  /** `IsRelated(shown, ·)` as the filter's callback. */
  function RelatedTo(shown: Record): Record -> bool
  {
    (r: Record) => IsRelated(shown, r)
  }

  /** The qualifying records, in list order. */
  function Qualifying(refs: seq<Record>, shown: Record): seq<Record>
  {
    Filter(refs, RelatedTo(shown))
  }

  /**
   * `related`: empty without a shown record, otherwise the first four
   * qualifying records: at most four records of the list, none with the
   * route id, each related to the shown record.
   */
  function Related(refs: seq<Record>, routeId: string): (r: seq<Record>)
    ensures |r| <= RELATED_LIMIT
    ensures !HasId(refs, routeId) ==> r == []
    ensures forall k :: 0 <= k < |r| ==> r[k] in refs && r[k].id != routeId
    ensures HasId(refs, routeId) ==> forall k :: 0 <= k < |r| ==> IsRelated(Shown(refs, routeId).value, r[k])
  {
    match Shown(refs, routeId)
    case None => []
    case Some(shown) =>
      var q := Qualifying(refs, shown);
      assert forall k :: 0 <= k < |q| ==> RelatedTo(shown)(q[k]);
      Take(q, RELATED_LIMIT)
  }

  /**
   * For a shown record, `related` is the first min(4, n) of its n
   * qualifying records;
   * when it holds fewer than four, every qualifying record of the list is
   * in it.
   */
  lemma RelatedSpec(refs: seq<Record>, routeId: string)
    requires HasId(refs, routeId)
    ensures var shown := Shown(refs, routeId).value;
            var rel := Related(refs, routeId);
            var q := Qualifying(refs, shown);
            && |rel| == (if |q| < RELATED_LIMIT then |q| else RELATED_LIMIT)
            && rel == Qualifying(refs, shown)[..|rel|]
            && (|rel| < RELATED_LIMIT ==>
                  forall k :: 0 <= k < |refs| && IsRelated(shown, refs[k]) ==> refs[k] in rel)
  {
    var shown := Shown(refs, routeId).value;
    var q := Qualifying(refs, shown);
    var rel := Related(refs, routeId);
    if |rel| < RELATED_LIMIT {
      assert rel == q;
      forall k | 0 <= k < |refs| && IsRelated(shown, refs[k])
        ensures refs[k] in rel
      {
        assert RelatedTo(shown)(refs[k]);
      }
    }
  }

  /**
   * Selection keeps list order: related records taken from a list with
   * more records after it are the first four qualifying records of the
   * front part followed by those of the rest.
   */
  lemma RelatedOrder(front: seq<Record>, back: seq<Record>, shown: Record)
    ensures Qualifying(front + back, shown) == Qualifying(front, shown) + Qualifying(back, shown)
    ensures |Qualifying(front, shown)| >= RELATED_LIMIT ==>
              Take(Qualifying(front + back, shown), RELATED_LIMIT)
              == Take(Qualifying(front, shown), RELATED_LIMIT)
  {
    FilterAppend(front, back, RelatedTo(shown));
  }
}
