/**
 * The library page's queries: the distinct customers offered as a
 * filter, and the filtered, sorted list of records for a search text, a
 * customer filter, a section filter and a sort order.
 */
module Library {
  import opened Types
  import opened Strings
  import opened Seqs
  import opened Records

  /** The filter value that lets every customer or section through. */
  const ALL: string := "all"

  /** The sort orders the page offers. */
  datatype SortOrder = Newest | ByCustomer | ByOrder

  /** `Array.from(new Set(refs.map(r => r.customer)))`. */
  function Customers(refs: seq<Record>): (cs: seq<string>)
    ensures forall c :: c in cs <==> c in CustomerNames(refs)
  {
    DedupSpec(CustomerNames(refs));
    Dedup(CustomerNames(refs))
  }

  /**
   * The customer list names each customer of the list exactly once, names
   * nothing else, and follows the order of first occurrence.
   */
  lemma CustomersSpec(refs: seq<Record>)
    ensures NoDup(Customers(refs))
    ensures forall k :: 0 <= k < |refs| ==> refs[k].customer in Customers(refs)
    ensures forall c :: c in Customers(refs) ==> exists k :: 0 <= k < |refs| && refs[k].customer == c
    ensures forall i, j :: 0 <= i < j < |Customers(refs)| ==>
              FirstIndex(CustomerNames(refs), Customers(refs)[i])
              < FirstIndex(CustomerNames(refs), Customers(refs)[j])
  {
    var names := CustomerNames(refs);
    DedupSpec(names);
    forall k | 0 <= k < |refs|
      ensures refs[k].customer in Customers(refs)
    {
      assert names[k] in names;
    }
    forall c | c in Customers(refs)
      ensures exists k :: 0 <= k < |refs| && refs[k].customer == c
    {
      var k := FirstIndex(names, c);
      assert refs[k].customer == c;
    }
  }

  /**
   * The search test: the lower-cased query occurs in a lower-cased text
   * field or tag; an empty query matches every record.
   */
  predicate MatchesSearch(r: Record, search: string): (m: bool)
    ensures search == "" ==> m
  {
    assert ToLower("") == "";
    ContainsEmpty(ToLower(r.title));
    var q := ToLower(search);
    || Contains(ToLower(r.title), q)
    || Contains(ToLower(r.customer), q)
    || Contains(ToLower(r.orderNumber), q)
    || Contains(ToLower(r.notes), q)
    || exists t :: t in r.tags && Contains(ToLower(t), q)
  }

  /** The customer filter is `all` or names the record's customer. */
  predicate MatchesCustomer(r: Record, customerFilter: string)
  {
    customerFilter == ALL || r.customer == customerFilter
  }

  /** The section filter is `all` or names the record's section. */
  predicate MatchesSection(r: Record, sectionFilter: string)
  {
    sectionFilter == ALL || SectionName(r.section) == sectionFilter
  }

  /** The filter's callback: all three tests hold. */
  function Keep(search: string, customerFilter: string, sectionFilter: string): Record -> bool
  {
    (r: Record) =>
      MatchesSearch(r, search) && MatchesCustomer(r, customerFilter) && MatchesSection(r, sectionFilter)
  }

  /** The sort's key for the two alphabetical orders. */
  function CustomerKey(): Record -> string
  {
    (r: Record) => r.customer
  }

  function OrderKey(): Record -> string
  {
    (r: Record) => r.orderNumber
  }

  /** The records in the chosen order: a reordering of them. */
  function Sorted(s: seq<Record>, order: SortOrder): (r: seq<Record>)
    ensures multiset(r) == multiset(s)
  {
    match order
    case Newest => SortNewest(s)
    case ByCustomer => SortBy(s, CustomerKey())
    case ByOrder => SortBy(s, OrderKey())
  }

  /**
   * `filtered`: the records passing all three tests, in the chosen order.
   * It holds exactly the input records that pass, so it is no longer than
   * the input.
   */
  function Filtered(
    refs: seq<Record>, search: string, customerFilter: string, sectionFilter: string, order: SortOrder
  ): (f: seq<Record>)
    ensures forall r :: r in f <==>
              r in refs && MatchesSearch(r, search) && MatchesCustomer(r, customerFilter)
              && MatchesSection(r, sectionFilter)
    ensures |f| <= |refs|
  {
    var keep := Keep(search, customerFilter, sectionFilter);
    var kept := Filter(refs, keep);
    var f := Sorted(kept, order);
    assert |f| == |multiset(f)|;
    assert forall r :: r in f <==> r in kept by {
      forall r
        ensures r in f <==> r in kept
      {
        assert r in f <==> r in multiset(f);
        assert r in kept <==> r in multiset(kept);
      }
    }
    f
  }

  /** Each record that passes the three tests is kept as often as the input holds it, and unchanged. */
  lemma FilteredContents(
    refs: seq<Record>, search: string, customerFilter: string, sectionFilter: string, order: SortOrder)
    ensures forall r: Record :: multiset(Filtered(refs, search, customerFilter, sectionFilter, order))[r]
              == if MatchesSearch(r, search) && MatchesCustomer(r, customerFilter) && MatchesSection(r, sectionFilter)
                 then multiset(refs)[r] else 0
  {
    var keep := Keep(search, customerFilter, sectionFilter);
    var f := Filter(refs, keep);
    forall r: Record
      ensures multiset(f)[r] == if keep(r) then multiset(refs)[r] else 0
    {
      FilterMultiset(refs, keep, r);
    }
  }

  /**
   * The order: newest first by creation time, or ascending by customer or
   * by order number in code-point order.
   */
  lemma FilteredOrder(
    refs: seq<Record>, search: string, customerFilter: string, sectionFilter: string, order: SortOrder)
    ensures var f := Filtered(refs, search, customerFilter, sectionFilter, order);
            match order
            case Newest => NewestFirst(f)
            case ByCustomer => forall i, j :: 0 <= i < j < |f| ==> LexLe(f[i].customer, f[j].customer)
            case ByOrder => forall i, j :: 0 <= i < j < |f| ==> LexLe(f[i].orderNumber, f[j].orderNumber)
  {
    var f := Filtered(refs, search, customerFilter, sectionFilter, order);
    match order
    case Newest =>
    case ByCustomer =>
      forall i, j | 0 <= i < j < |f|
        ensures LexLe(f[i].customer, f[j].customer)
      {
        assert LexLe(CustomerKey()(f[i]), CustomerKey()(f[j]));
      }
    case ByOrder =>
      forall i, j | 0 <= i < j < |f|
        ensures LexLe(f[i].orderNumber, f[j].orderNumber)
      {
        assert LexLe(OrderKey()(f[i]), OrderKey()(f[j]));
      }
  }

  /** The search ignores the case of the query. */
  lemma SearchIgnoresQueryCase(r: Record, search: string)
    ensures MatchesSearch(r, search) <==> MatchesSearch(r, ToLower(search))
  {
    ToLowerIdempotent(search);
  }

  /** With no search text and both filters `all`, the result is a reordering of the whole list. */
  lemma NoFiltersKeepsAll(refs: seq<Record>, order: SortOrder)
    ensures multiset(Filtered(refs, "", ALL, ALL, order)) == multiset(refs)
    ensures |Filtered(refs, "", ALL, ALL, order)| == |refs|
  {
    var keep := Keep("", ALL, ALL);
    assert forall k :: 0 <= k < |refs| ==> keep(refs[k]);
    FilterAll(refs, keep);
  }

  /**
   * A customer filter keeps only that customer's records, and every one
   * of them that the search and the section filter let through.
   */
  lemma CustomerFilterSpec(
    refs: seq<Record>, search: string, customer: string, sectionFilter: string, order: SortOrder)
    requires customer != ALL
    ensures forall k :: 0 <= k < |Filtered(refs, search, customer, sectionFilter, order)| ==>
              Filtered(refs, search, customer, sectionFilter, order)[k].customer == customer
    ensures forall k :: 0 <= k < |refs| && refs[k].customer == customer
                        && MatchesSearch(refs[k], search) && MatchesSection(refs[k], sectionFilter) ==>
              refs[k] in Filtered(refs, search, customer, sectionFilter, order)
  {
    var f := Filtered(refs, search, customer, sectionFilter, order);
    forall k | 0 <= k < |f|
      ensures f[k].customer == customer
    {
      assert f[k] in f;
    }
  }
}
