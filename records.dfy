/**
 * Queries over a list of reference records that several parts of the
 * application share: `findIndex`/`find` by id, and the newest-first sort
 * by creation time (`sort((a, b) => b.createdAt - a.createdAt)`), and
 * the ascending sorts by a string field.
 */
module Records {
  import opened Wrappers
  import opened Types
  import opened Strings

  /** Some record in the list carries the id. */
  predicate HasId(refs: seq<Record>, id: string)
  {
    exists k :: 0 <= k < |refs| && refs[k].id == id
  }

  /** `refs.findIndex(r => r.id === id)`: the first position with the id, or -1. */
  function FindIndex(refs: seq<Record>, id: string): (i: int)
    ensures -1 <= i < |refs|
    ensures i == -1 <==> !HasId(refs, id)
    ensures 0 <= i ==> refs[i].id == id && forall k :: 0 <= k < i ==> refs[k].id != id
  {
    if refs == [] then -1
    else if refs[0].id == id then 0
    else
      var j := FindIndex(refs[1..], id);
      assert forall k :: 1 <= k < |refs| ==> refs[k] == refs[1..][k - 1];
      if j == -1 then -1 else j + 1
  }

  /** `refs.find(r => r.id === id)`: the first record with the id, if any. */
  function FindById(refs: seq<Record>, id: string): (r: Option<Record>)
    ensures r.None? <==> !HasId(refs, id)
    ensures r.Some? ==> r.value.id == id && r.value in refs
    ensures r.Some? ==> r.value == refs[FindIndex(refs, id)]
  {
    var i := FindIndex(refs, id);
    if i == -1 then None else Some(refs[i])
  }

  /** Ordered from newest to oldest creation time. */
  predicate NewestFirst(s: seq<Record>)
  {
    forall i, j :: 0 <= i < j < |s| ==> s[i].createdAt >= s[j].createdAt
  }

  /**
   * Places `x` in a newest-first list before the first record that is not
   * newer than it, so that records with equal times keep their order.
   */
  function InsertNewest(x: Record, s: seq<Record>): (r: seq<Record>)
    requires NewestFirst(s)
    ensures NewestFirst(r)
    ensures multiset(r) == multiset(s) + multiset{x}
    ensures |r| == |s| + 1
  {
    if s == [] then [x]
    else if s[0].createdAt <= x.createdAt then [x] + s
    else
      var t := InsertNewest(x, s[1..]);
      assert s == [s[0]] + s[1..];
      HeadNotOlder(s, t, x);
      [s[0]] + t
  }

  /** The head of a newest-first list is no older than a rearrangement of its tail with an older record added. */
  lemma HeadNotOlder(s: seq<Record>, t: seq<Record>, x: Record)
    requires NewestFirst(s) && |s| > 0 && x.createdAt < s[0].createdAt
    requires multiset(t) == multiset(s[1..]) + multiset{x}
    ensures forall k :: 0 <= k < |t| ==> s[0].createdAt >= t[k].createdAt
  {
    forall k | 0 <= k < |t|
      ensures s[0].createdAt >= t[k].createdAt
    {
      assert t[k] in multiset(t);
      if t[k] != x {
        assert t[k] in multiset(s[1..]);
        var m :| 0 <= m < |s[1..]| && s[1..][m] == t[k];
        assert s[m + 1] == t[k];
      }
    }
  }

  /** The newest-first sort: a permutation of its input, ordered by descending creation time. */
  function SortNewest(s: seq<Record>): (r: seq<Record>)
    ensures NewestFirst(r)
    ensures multiset(r) == multiset(s)
    ensures |r| == |s|
  {
    if s == [] then []
    else
      assert s == [s[0]] + s[1..];
      InsertNewest(s[0], SortNewest(s[1..]))
  }

  /** Ordered by ascending key in code-point lexicographic order. */
  predicate AscendingBy(s: seq<Record>, key: Record -> string)
  {
    forall i, j :: 0 <= i < j < |s| ==> LexLe(key(s[i]), key(s[j]))
  }

  /**
   * Places `x` in a list in ascending key order before the first record
   * whose key is not smaller, so that records with equal keys keep their
   * order.
   */
  function InsertBy(x: Record, s: seq<Record>, key: Record -> string): (r: seq<Record>)
    requires AscendingBy(s, key)
    ensures AscendingBy(r, key)
    ensures multiset(r) == multiset(s) + multiset{x}
    ensures |r| == |s| + 1
  {
    if s == [] then [x]
    else if LexLe(key(x), key(s[0])) then
      forall k | 0 < k < |s|
        ensures LexLe(key(x), key(s[k]))
      {
        LexLeTrans(key(x), key(s[0]), key(s[k]));
      }
      [x] + s
    else
      LexLeTotal(key(x), key(s[0]));
      var t := InsertBy(x, s[1..], key);
      assert s == [s[0]] + s[1..];
      forall k | 0 <= k < |t|
        ensures LexLe(key(s[0]), key(t[k]))
      {
        assert t[k] in multiset(t);
        if t[k] != x {
          assert t[k] in multiset(s[1..]);
          var m :| 0 <= m < |s[1..]| && s[1..][m] == t[k];
          assert s[m + 1] == t[k];
        }
      }
      [s[0]] + t
  }

  /** A sort by a string key: a permutation of its input, in ascending key order. */
  function SortBy(s: seq<Record>, key: Record -> string): (r: seq<Record>)
    ensures AscendingBy(r, key)
    ensures multiset(r) == multiset(s)
    ensures |r| == |s|
  {
    if s == [] then []
    else
      assert s == [s[0]] + s[1..];
      InsertBy(s[0], SortBy(s[1..], key), key)
  }

  /** The customer of every record, in list order (`refs.map(r => r.customer)`). */
  function CustomerNames(refs: seq<Record>): (names: seq<string>)
    ensures |names| == |refs|
    ensures forall k :: 0 <= k < |refs| ==> names[k] == refs[k].customer
  {
    seq(|refs|, k requires 0 <= k < |refs| => refs[k].customer)
  }

  /** The order number of every record, in list order. */
  function OrderNumbers(refs: seq<Record>): (orders: seq<string>)
    ensures |orders| == |refs|
    ensures forall k :: 0 <= k < |refs| ==> orders[k] == refs[k].orderNumber
  {
    seq(|refs|, k requires 0 <= k < |refs| => refs[k].orderNumber)
  }
}
