/**
 * The dashboard's aggregates: the four key figures, the eight most
 * recently created records, and the first five customers with their
 * record counts.
 */
module Dashboard {
  import opened Types
  import opened Seqs
  import opened Records

  const RECENT_LIMIT: nat := 8
  const TOP_CUSTOMERS_LIMIT: nat := 5

  /** The test `r.tags.length > 0`. */
  function IsTagged(): Record -> bool
  {
    (r: Record) => |r.tags| > 0
  }

  /** The test `r.customer === cust`. */
  function HasCustomer(c: string): Record -> bool
  {
    (r: Record) => r.customer == c
  }

  /**
   * `stats`: the record count, the sizes of the sets of customers and of
   * order numbers, and the number of records with at least one tag.
   */
  function Stats(refs: seq<Record>): (k: KPIStats)
    ensures k.totalReferences == |refs|
    ensures k.uniqueCustomers <= |refs| && k.uniqueOrders <= |refs|
    ensures k.taggedStandards <= |refs|
    ensures k.taggedStandards == |refs| <==> forall i :: 0 <= i < |refs| ==> |refs[i].tags| > 0
  {
    DistinctCount(CustomerNames(refs));
    DistinctCount(OrderNumbers(refs));
    CountAll(refs, IsTagged());
    KPIStats(
      |refs|,
      |set c | c in CustomerNames(refs)|,
      |set o | o in OrderNumbers(refs)|,
      Count(refs, IsTagged()))
  }

  /**
   * The unique counts are the lengths of the duplicate-free customer and
   * order lists the page shows elsewhere.
   */
  lemma StatsSpec(refs: seq<Record>)
    ensures Stats(refs).uniqueCustomers == |Dedup(CustomerNames(refs))|
    ensures Stats(refs).uniqueOrders == |Dedup(OrderNumbers(refs))|
  {
    DistinctCount(CustomerNames(refs));
    DistinctCount(OrderNumbers(refs));
  }

  /** A list of records whose customers are all the same counts one unique customer. */
  lemma OneCustomer(refs: seq<Record>, c: string)
    requires |refs| > 0
    requires forall k :: 0 <= k < |refs| ==> refs[k].customer == c
    ensures Stats(refs).uniqueCustomers == 1
  {
    var s := set x | x in CustomerNames(refs);
    assert CustomerNames(refs)[0] == c;
    assert s == {c};
  }

  /**
   * `recent`: a sorted copy, newest first, cut to eight records. It has
   * eight records, or all of them when there are fewer, and takes each
   * record at most as often as the list holds it.
   */
  function Recent(refs: seq<Record>): (r: seq<Record>)
    ensures |r| == if |refs| < RECENT_LIMIT then |refs| else RECENT_LIMIT
    ensures NewestFirst(r)
    ensures multiset(r) <= multiset(refs)
  {
    var s := SortNewest(refs);
    var r := Take(s, RECENT_LIMIT);
    assert s == r + s[|r|..];
    r
  }

  /** No record left out of the recent list was created later than any record shown. */
  lemma RecentSpec(refs: seq<Record>)
    ensures forall k, j :: 0 <= k < |refs| && refs[k] !in Recent(refs) && 0 <= j < |Recent(refs)| ==>
              Recent(refs)[j].createdAt >= refs[k].createdAt
  {
    var s := SortNewest(refs);
    var rec := Recent(refs);
    assert rec == s[..|rec|];
    forall k | 0 <= k < |refs| && refs[k] !in rec
      ensures forall j :: 0 <= j < |rec| ==> rec[j].createdAt >= refs[k].createdAt
    {
      assert refs[k] in multiset(s);
      LeftOutNotNewer(s, |rec|, refs[k]);
    }
  }

  /** In a newest-first list, a record not among the first `n` is no newer than any of them. */
  lemma LeftOutNotNewer(s: seq<Record>, n: nat, r: Record)
    requires NewestFirst(s) && n <= |s|
    requires r in s && r !in s[..n]
    ensures forall j :: 0 <= j < n ==> s[j].createdAt >= r.createdAt
  {
    var m :| 0 <= m < |s| && s[m] == r;
    assert forall i :: 0 <= i < n ==> s[..n][i] == s[i];
  }

  /** The dashboard lists the first five distinct customers: at most five, each once, each a customer of the list. */
  function TopCustomers(refs: seq<Record>): (top: seq<string>)
    ensures |top| <= TOP_CUSTOMERS_LIMIT
    ensures NoDup(top)
    ensures forall i :: 0 <= i < |top| ==> top[i] in CustomerNames(refs)
  {
    DedupSpec(CustomerNames(refs));
    Take(Dedup(CustomerNames(refs)), TOP_CUSTOMERS_LIMIT)
  }

  /**
   * The count shown beside a customer: `references.filter(r => r.customer === cust).length`.
   * It is at most the record count, and at least one exactly for a customer of the list.
   */
  function CustomerCount(refs: seq<Record>, c: string): (n: nat)
    ensures n <= |refs|
    ensures n >= 1 <==> c in CustomerNames(refs)
  {
    var f := Filter(refs, HasCustomer(c));
    assert |f| > 0 ==> c in CustomerNames(refs) by {
      if |f| > 0 {
        assert f[0] in refs;
        var k :| 0 <= k < |refs| && refs[k] == f[0];
        assert CustomerNames(refs)[k] == c;
      }
    }
    assert c in CustomerNames(refs) ==> |f| > 0 by {
      if c in CustomerNames(refs) {
        var k :| 0 <= k < |refs| && CustomerNames(refs)[k] == c;
        CountPositive(refs, HasCustomer(c), refs[k]);
      }
    }
    Count(refs, HasCustomer(c))
  }

  /**
   * Every customer shown has a count of at least one; they follow the
   * order of first occurrence; and when fewer than five are shown, every
   * customer of the list is.
   */
  lemma TopCustomersSpec(refs: seq<Record>)
    ensures forall i :: 0 <= i < |TopCustomers(refs)| ==> CustomerCount(refs, TopCustomers(refs)[i]) >= 1
    ensures forall i, j :: 0 <= i < j < |TopCustomers(refs)| ==>
              TopCustomers(refs)[i] in CustomerNames(refs)
              && TopCustomers(refs)[j] in CustomerNames(refs)
              && FirstIndex(CustomerNames(refs), TopCustomers(refs)[i])
                 < FirstIndex(CustomerNames(refs), TopCustomers(refs)[j])
    ensures |TopCustomers(refs)| < TOP_CUSTOMERS_LIMIT ==>
              forall k :: 0 <= k < |refs| ==> refs[k].customer in TopCustomers(refs)
    ensures forall k, i :: 0 <= k < |refs| && refs[k].customer !in TopCustomers(refs) && 0 <= i < |TopCustomers(refs)| ==>
              refs[k].customer in CustomerNames(refs)
              && FirstIndex(CustomerNames(refs), TopCustomers(refs)[i])
                 < FirstIndex(CustomerNames(refs), refs[k].customer)
  {
    var names := CustomerNames(refs);
    var d := Dedup(names);
    var top := TopCustomers(refs);
    DedupSpec(names);
    forall i, j | 0 <= i < j < |top|
      ensures top[i] in names && top[j] in names
              && FirstIndex(names, top[i]) < FirstIndex(names, top[j])
    {
      assert top[i] == d[i] && top[j] == d[j];
    }
    if |top| < TOP_CUSTOMERS_LIMIT {
      forall k | 0 <= k < |refs|
        ensures refs[k].customer in top
      {
        assert names[k] in names;
      }
    }
    forall k, i | 0 <= k < |refs| && refs[k].customer !in top && 0 <= i < |top|
      ensures refs[k].customer in names
              && FirstIndex(names, top[i]) < FirstIndex(names, refs[k].customer)
    {
      var c := refs[k].customer;
      assert names[k] == c;
      assert c in d;
      var j :| 0 <= j < |d| && d[j] == c;
      assert j >= |top| by {
        assert forall m :: 0 <= m < |top| ==> top[m] == d[m];
      }
      assert top[i] == d[i];
      assert i < j;
    }
  }

  /** The count beside a customer is the number of its records: each is counted, others are not. */
  lemma CustomerCountSpec(refs: seq<Record>, c: string, more: seq<Record>)
    ensures CustomerCount(refs + more, c) == CustomerCount(refs, c) + CustomerCount(more, c)
    ensures CustomerCount([], c) == 0
    ensures forall r: Record :: CustomerCount([r], c) == if r.customer == c then 1 else 0
  {
    FilterAppend(refs, more, HasCustomer(c));
    forall r: Record
      ensures CustomerCount([r], c) == if r.customer == c then 1 else 0
    {
      assert [r][1..] == [];
    }
  }
}
