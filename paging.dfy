/** What the list endpoints share once their filters are applied: the order
    `ORDER BY <rank> DESC, created_at DESC`, the window `LIMIT limit OFFSET
    (page - 1) * limit`, and the page count `ceil(total / limit)`.

    The store does not fix the order of rows whose sort keys are equal, so a listing
    is specified as a predicate (`IsPage`) that every admissible answer satisfies. */
module Paging {
  import opened Foundation
  import opened Text

  /** Sort key of a row: `rank` is the first ORDER BY column (0 when there is
      none), `created` the creation time. Both are sorted descending. */
  datatype SortKey = SortKey(rank: int, created: int)

  /** Row `a` is listed strictly before row `b`. */
  predicate Precedes(a: SortKey, b: SortKey)
  {
    a.rank > b.rank || (a.rank == b.rank && a.created > b.created)
  }

  /** Position of a priority name in the code-point order of text: "high" < "low"
      < "normal". `ORDER BY priority DESC` therefore lists normal, then low, then high. */
  function PriorityRank(p: Priority): (rank: nat)
    ensures rank < 3
  {
    match p
    case High => 0
    case Low => 1
    case Normal => 2
  }

  /** Comparing ranks is comparing the stored priority strings. */
  lemma PriorityRankIsTextOrder(p: Priority, q: Priority)
    ensures PriorityRank(p) < PriorityRank(q) <==> LexLess(PriorityName(p), PriorityName(q))
  {
    LexLessIrreflexive(PriorityName(p));
    assert LexLess("high", "low") && LexLess("high", "normal") && LexLess("low", "normal");
    assert !LexLess("low", "high") && !LexLess("normal", "high") && !LexLess("normal", "low");
  }

  /** A candidate row of a listing: its id, its sort key and the row returned. */
  datatype Entry<T> = Entry(id: Id, key: SortKey, row: T)

  /** No later entry precedes an earlier one. */
  predicate Descending<T>(s: seq<Entry<T>>)
  {
    forall i, j :: 0 <= i < j < |s| ==> !Precedes(s[j].key, s[i].key)
  }

  /** `order` lists exactly the entries of the set, each once, in sort order. */
  predicate Arranges<T(==)>(order: seq<Entry<T>>, entries: set<Entry<T>>)
  {
    Descending(order) && multiset(order) == multiset(entries)
  }

  /** Inserts `e` in front of the first entry it precedes. */
  function Insert<T(==)>(e: Entry<T>, s: seq<Entry<T>>): (r: seq<Entry<T>>)
    ensures multiset(r) == multiset(s) + multiset{e}
  {
    if |s| == 0 then [e]
    else if Precedes(e.key, s[0].key) then [e] + s
    else
      assert s == [s[0]] + s[1..];
      [s[0]] + Insert(e, s[1..])
  }

  /** Insertion keeps a listing sorted. */
  lemma {:induction false} InsertDescending<T>(e: Entry<T>, s: seq<Entry<T>>)
    requires Descending(s)
    ensures Descending(Insert(e, s))
  {
    if |s| > 0 && !Precedes(e.key, s[0].key) {
      var tail := Insert(e, s[1..]);
      InsertDescending(e, s[1..]);
      forall k | 0 <= k < |tail|
        ensures !Precedes(tail[k].key, s[0].key)
      {
        assert tail[k] in multiset(tail);
        if tail[k] != e {
          assert tail[k] in multiset(s[1..]);
          var m :| 0 <= m < |s[1..]| && s[1..][m] == tail[k];
          assert s[m + 1] == tail[k];
        }
      }
      var r := [s[0]] + tail;
      forall i, j | 0 <= i < j < |r|
        ensures !Precedes(r[j].key, r[i].key)
      {
        if i > 0 {
          assert r[i] == tail[i - 1] && r[j] == tail[j - 1];
        } else {
          assert r[j] == tail[j - 1];
        }
      }
    }
  }

  /** Collects a set of candidate rows into a sorted listing, one at a time, in
      whatever order the store hands them over. */
  method Arrange<T(==)>(entries: set<Entry<T>>) returns (order: seq<Entry<T>>)
    ensures Arranges(order, entries)
  {
    var pending := entries;
    order := [];
    while pending != {}
      invariant pending <= entries
      invariant Descending(order)
      invariant multiset(order) == multiset(entries - pending)
      decreases |pending|
    {
      var e :| e in pending;
      InsertDescending(e, order);
      order := Insert(e, order);
      assert entries - (pending - {e}) == (entries - pending) + {e};
      assert multiset((entries - pending) + {e}) == multiset(entries - pending) + multiset{e};
      pending := pending - {e};
    }
    assert entries - pending == entries;
  }

  /** `LIMIT limit OFFSET offset` on an ordered result. */
  function Window<T>(s: seq<T>, offset: nat, limit: nat): (w: seq<T>)
    ensures |w| <= limit
    ensures |w| == if offset >= |s| then 0 else Min(limit, |s| - offset)
    ensures forall i :: 0 <= i < |w| ==> w[i] == s[offset + i]
  {
    if offset >= |s| then [] else s[offset..offset + Min(limit, |s| - offset)]
  }

  function Min(a: nat, b: nat): nat { if a <= b then a else b }

  function Rows<T>(s: seq<Entry<T>>): (rows: seq<T>)
    ensures |rows| == |s|
    ensures forall i :: 0 <= i < |s| ==> rows[i] == s[i].row
  {
    seq(|s|, i requires 0 <= i < |s| => s[i].row)
  }

  /** The rows of one page of a listing of `entries`. */
  ghost predicate IsPage<T(!new)>(entries: set<Entry<T>>, offset: nat, limit: nat, page: seq<T>)
  {
    exists order :: Arranges(order, entries) && page == Rows(Window(order, offset, limit))
  }

  /** `row` is the row of one of the candidate entries. */
  ghost predicate RowOf<T(!new)>(entries: set<Entry<T>>, row: T)
  {
    exists e :: e in entries && e.row == row
  }

  /** Rows `x` and `y` belong to candidate entries the listing may put in this order. */
  ghost predicate MayPrecede<T(!new)>(entries: set<Entry<T>>, x: T, y: T)
  {
    exists a, b :: a in entries && b in entries && a.row == x && b.row == y && !Precedes(b.key, a.key)
  }

  /** Every row of a page belongs to one of the candidate entries, the page holds at
      most `limit` rows, and its rows keep the listing order. */
  lemma PageRows<T(!new)>(entries: set<Entry<T>>, offset: nat, limit: nat, page: seq<T>)
    requires IsPage(entries, offset, limit, page)
    ensures |page| <= limit
    ensures forall i :: 0 <= i < |page| ==> RowOf(entries, page[i])
    ensures forall i, j :: 0 <= i < j < |page| ==> MayPrecede(entries, page[i], page[j])
  {
    var order :| Arranges(order, entries) && page == Rows(Window(order, offset, limit));
    var w := Window(order, offset, limit);
    forall i | 0 <= i < |page|
      ensures RowOf(entries, page[i])
    {
      assert w[i] == order[offset + i];
      assert order[offset + i] in multiset(order);
    }
    forall i, j | 0 <= i < j < |page|
      ensures MayPrecede(entries, page[i], page[j])
    {
      assert w[i] == order[offset + i] && w[j] == order[offset + j];
      assert order[offset + i] in multiset(order) && order[offset + j] in multiset(order);
    }
  }

  /** A window that starts at 0 and is at least as long as the listing holds every
      candidate row. */
  lemma FirstPageHoldsAll<T(!new)>(entries: set<Entry<T>>, limit: nat, page: seq<T>)
    requires IsPage(entries, 0, limit, page)
    requires |entries| <= limit
    ensures forall e :: e in entries ==> e.row in page
  {
    var order :| Arranges(order, entries) && page == Rows(Window(order, 0, limit));
    assert |order| == |multiset(order)| == |multiset(entries)| == |entries|;
    forall e | e in entries ensures e.row in page {
      assert e in multiset(order);
      var k :| 0 <= k < |order| && order[k] == e;
      assert page[k] == e.row;
    }
  }

  /** `OFFSET (page - 1) * limit LIMIT limit`; the store refuses a negative limit or
      a negative offset, which ends the request with a store error. */
  function Bounds(page: int, limit: int): (r: Result<(nat, nat)>)
    ensures r.Ok? <==> limit >= 0 && (page - 1) * limit >= 0
    ensures r.Ok? ==> r.value == ((page - 1) * limit, limit)
    ensures r.Err? ==> r.failure == StoreError()
  {
    var offset := (page - 1) * limit;
    if limit < 0 || offset < 0 then Err(StoreError()) else Ok((offset, limit))
  }

  /** `Math.ceil(total / limit)`; with a zero limit the division gives a value that
      JSON serialises as null, modelled as None. */
  function PageCount(total: nat, limit: nat): (pages: Option<nat>)
    ensures pages.None? <==> limit == 0
    ensures pages.Some? ==> (pages.value - 1) * limit < total <= pages.value * limit || (total == 0 && pages.value == 0)
  {
    if limit == 0 then None
    else
      var n := (total + limit - 1) / limit;
      CeilBounds(total, limit);
      Some(n)
  }

  lemma CeilBounds(total: nat, limit: nat)
    requires limit > 0
    ensures var n := (total + limit - 1) / limit;
            (total == 0 && n == 0) || ((n - 1) * limit < total <= n * limit)
  {
    var n := (total + limit - 1) / limit;
    var r := (total + limit - 1) % limit;
    assert total + limit - 1 == n * limit + r;
    assert 0 <= r < limit;
    if total == 0 {
      assert (limit - 1) / limit == 0;
    } else {
      assert n * limit == total + limit - 1 - r;
      assert (n - 1) * limit == n * limit - limit;
    }
  }
}
