/** Paged listings of the controller API (avi/inventory.go). */
module Pagination {
  import opened Prelude

  const PAGE_SIZE: nat := 200
  const MAX_PAGES: nat := 100

  /** A page envelope. An absent `results` differs from an empty one; `next` may be absent or empty. */
  datatype Page<T> = Page(count: int, next: Option<string>, results: Option<seq<T>>)

  /** The answers to GET by page number, starting at 1; None is an error. */
  type Pages<T> = nat -> Option<Page<T>>

  function Results<T>(p: Page<T>): seq<T> {
    if p.results.Some? then p.results.value else []
  }

  predicate IsLast<T>(p: Page<T>) {
    p.next.None? || p.next.value == ""
  }

  /** The results of pages 1 to k, in order. */
  function Concat<T>(get: Pages<T>, k: nat): seq<T> {
    if k == 0 then []
    else Concat(get, k - 1) + if get(k).Some? then Results(get(k).value) else []
  }

  ghost predicate Answered<T>(get: Pages<T>, k: nat) {
    forall j: nat :: 1 <= j <= k ==> get(j).Some?
  }

  // ---- listAll ----

  /** Page k is the first one without a next page, or the first one that fails. */
  ghost predicate StopsAt<T>(get: Pages<T>, k: nat) {
    && k >= 1
    && (forall j: nat :: 1 <= j < k ==> get(j).Some? && !IsLast(get(j).value))
    && (get(k).Some? ==> IsLast(get(k).value))
  }

  /** Returns the pages up to the first one without a next page, in order, or an error if one of them
      fails. Against a server that never ends its list the loop would not end either, so the page where
      it stops is given. */
  method ListAll<T>(get: Pages<T>, ghost last: nat) returns (all: Option<seq<T>>)
    requires StopsAt(get, last)
    ensures all == if get(last).None? then None else Some(Concat(get, last))
  {
    var items: seq<T> := [];
    var page: nat := 1;
    while true
      invariant 1 <= page <= last
      invariant items == Concat(get, page - 1)
      decreases last - page
    {
      var resp := get(page);
      if resp.None? {
        return None;
      }
      items := items + Results(resp.value);
      if resp.value.next.None? || resp.value.next.value == "" {
        break;
      }
      page := page + 1;
    }
    return Some(items);
  }

  // ---- listPoolRuntimeDetailPages ----

  /** Enough servers by the server's own count, a short page, or no next page. */
  predicate RuntimeDetailDone<T>(resp: Page<T>, total: nat) {
    (resp.count > 0 && total >= resp.count) || |Results(resp)| < PAGE_SIZE || IsLast(resp)
  }

  ghost predicate DoneAt<T>(get: Pages<T>, k: nat)
    requires get(k).Some?
  {
    RuntimeDetailDone(get(k).value, |Concat(get, k)|)
  }

  /** Page k ends the listing: all pages so far were answered and none before was the end. */
  ghost predicate EndsAt<T>(get: Pages<T>, k: nat) {
    && k >= 1 && Answered(get, k)
    && DoneAt(get, k)
    && forall j: nat :: 1 <= j < k ==> !DoneAt(get, j)
  }

  /** Returns the concatenation of the pages up to the first that ends the listing if that is one of the
      first hundred, and an error otherwise; never asks for more than a hundred pages. `calls` counts
      the GETs beyond the first. */
  method ListPoolRuntimeDetailPages<T>(first: Page<T>, get: Pages<T>) returns (all: Option<seq<T>>, calls: nat)
    requires get(1) == Some(first)
    ensures calls < MAX_PAGES
    ensures forall k: nat :: k <= MAX_PAGES && EndsAt(get, k) ==> all == Some(Concat(get, k)) && calls == k - 1
    ensures all.Some? ==> exists k: nat :: k <= MAX_PAGES && EndsAt(get, k)
  {
    calls := 0;
    var items := Results(first);
    assert Concat(get, 0) == [];
    assert Concat(get, 1) == items;
    if RuntimeDetailDone(first, |items|) {
      assert EndsAt(get, 1);
      return Some(items), calls;
    }
    var page: nat := 2;
    while page <= MAX_PAGES
      invariant 2 <= page <= MAX_PAGES + 1 && calls == page - 2
      invariant Answered(get, page - 1) && items == Concat(get, page - 1)
      invariant forall j: nat :: 1 <= j < page ==> !DoneAt(get, j)
    {
      calls := calls + 1;
      var resp := get(page);
      if resp.None? {
        return None, calls;
      }
      items := items + Results(resp.value);
      if RuntimeDetailDone(resp.value, |items|) {
        assert EndsAt(get, page);
        return Some(items), calls;
      }
      page := page + 1;
    }
    return None, calls;
  }

  // ---- GetPoolRuntimeDetail ----

  /** The decoded shapes of the first answer: nothing, a bare array, or an object that decodes as a page
      envelope, as {server: [...]}, as both or as neither. */
  datatype Raw<T> =
    | Nothing
    | Bare(items: seq<T>)
    | Object(page: Option<Page<T>>, server: Option<seq<T>>)

  predicate LooksPaged<T>(p: Page<T>) {
    p.results.Some? || p.next.Some? || p.count > 0
  }

  method GetPoolRuntimeDetail<T>(raw: Option<Raw<T>>, get: Pages<T>) returns (all: Option<seq<T>>, calls: nat)
    requires raw.Some? && raw.value.Object? && raw.value.page.Some? ==> get(1) == raw.value.page
    ensures calls <= MAX_PAGES
    ensures raw.None? ==> all == None
    ensures raw == Some(Nothing) ==> all == Some([])
    ensures raw.Some? && raw.value.Bare? ==> all == Some(raw.value.items) && calls == 1
    ensures raw.Some? && raw.value.Object? && (raw.value.page.None? || !LooksPaged(raw.value.page.value)) ==>
              all == raw.value.server && calls == 1
    ensures raw.Some? && raw.value.Object? && raw.value.page.Some? && LooksPaged(raw.value.page.value) ==>
              && (forall k: nat :: k <= MAX_PAGES && EndsAt(get, k) ==> all == Some(Concat(get, k)) && calls == k)
              && (all.Some? ==> exists k: nat :: k <= MAX_PAGES && EndsAt(get, k))
  {
    calls := 1;
    if raw.None? {
      return None, calls;
    }
    match raw.value
    case Nothing => all := Some([]);
    case Bare(items) => all := Some(items);
    case Object(page, server) =>
      if page.Some? && (page.value.results.Some? || page.value.next.Some? || page.value.count > 0) {
        var more: nat;
        all, more := ListPoolRuntimeDetailPages(page.value, get);
        calls := calls + more;
      } else {
        all := server;
      }
  }

  // ---- an honest server ----

  function Min(a: nat, b: nat): nat {
    if a < b then a else b
  }

  /** The server pages the list by 200: each page within it holds its stretch. The client can tell the end
      by the size of the list that the page states, whatever it says of a next page, or else by the next
      page, which it then names exactly if something is left; a page that is not the last never says
      otherwise. */
  ghost predicate Serves<T(!new)>(get: Pages<T>, list: seq<T>) {
    forall p: nat :: p >= 1 && (p == 1 || (p - 1) * PAGE_SIZE < |list|) ==> ServesPage(get, list, p)
  }

  ghost predicate ServesPage<T>(get: Pages<T>, list: seq<T>, p: nat)
    requires p >= 1 && (p == 1 || (p - 1) * PAGE_SIZE < |list|)
  {
    && get(p).Some?
    && get(p).value.results == Some(list[(p - 1) * PAGE_SIZE..Min(p * PAGE_SIZE, |list|)])
    && (get(p).value.count == |list| || (get(p).value.count == 0 && (p * PAGE_SIZE >= |list| ==> IsLast(get(p).value))))
    && (IsLast(get(p).value) ==> p * PAGE_SIZE >= |list|)
  }

  /** The last page names no next one. */
  ghost predicate EndsItself<T>(get: Pages<T>, list: seq<T>) {
    get(PageCount(|list|)).Some? ==> IsLast(get(PageCount(|list|)).value)
  }

  /** The pages of an honest server add up to a prefix of its list. */
  lemma {:induction false} HonestConcat<T(!new)>(get: Pages<T>, list: seq<T>, k: nat)
    requires Serves(get, list) && (k == 0 || k == 1 || (k - 1) * PAGE_SIZE < |list|)
    ensures Concat(get, k) == list[..Min(k * PAGE_SIZE, |list|)] && Answered(get, k)
  {
    hide Serves;
    if k > 0 {
      HonestConcat(get, list, k - 1);
      ServedPage(get, list, k);
      assert Min((k - 1) * PAGE_SIZE, |list|) == (k - 1) * PAGE_SIZE;
    }
  }

  lemma ServedPage<T(!new)>(get: Pages<T>, list: seq<T>, p: nat)
    requires Serves(get, list) && p >= 1 && (p == 1 || (p - 1) * PAGE_SIZE < |list|)
    ensures ServesPage(get, list, p)
  {
  }

  /** The listing of an honest server ends exactly where its list does. */
  lemma HonestDone<T(!new)>(get: Pages<T>, list: seq<T>, k: nat)
    requires Serves(get, list) && k >= 1 && (k == 1 || (k - 1) * PAGE_SIZE < |list|)
    ensures get(k).Some? && (DoneAt(get, k) <==> k * PAGE_SIZE >= |list|)
  {
    HonestConcat(get, list, k);
    ServedPage(get, list, k);
    hide Serves;
  }

  /** The number of pages of a list; an empty list still has one. */
  function PageCount(n: nat): nat {
    if n == 0 then 1 else (n + PAGE_SIZE - 1) / PAGE_SIZE
  }

  lemma PageCountBounds(n: nat)
    ensures PageCount(n) >= 1 && PageCount(n) * PAGE_SIZE >= n
    ensures n > 0 ==> (PageCount(n) - 1) * PAGE_SIZE < n
    ensures PageCount(n) <= MAX_PAGES <==> n <= MAX_PAGES * PAGE_SIZE
  {
  }

  lemma HonestEnd<T(!new)>(get: Pages<T>, list: seq<T>)
    requires Serves(get, list)
    ensures EndsAt(get, PageCount(|list|)) && Concat(get, PageCount(|list|)) == list
    ensures forall k: nat :: EndsAt(get, k) ==> k == PageCount(|list|)
  {
    var last := PageCount(|list|);
    PageCountBounds(|list|);
    HonestConcat(get, list, last);
    HonestDone(get, list, last);
    hide Serves;
    assert list[..|list|] == list;
    forall j: nat | 1 <= j < last ensures get(j).Some? && !DoneAt(get, j) {
      EarlierPage(j, last, |list|);
      HonestDone(get, list, j);
    }
  }

  lemma EarlierPage(j: nat, last: nat, n: nat)
    requires 1 <= j < last && (last - 1) * PAGE_SIZE < n
    ensures (j - 1) * PAGE_SIZE < n && j * PAGE_SIZE < n
  {
  }

  /** Against a server that pages a list of servers by 200 the caller gets exactly the list, in order, if
      it has at most 20000 servers, and an error otherwise. */
  method HonestPoolRuntimeDetail<T(!new)>(get: Pages<T>, list: seq<T>) returns (all: Option<seq<T>>, calls: nat)
    requires Serves(get, list)
    ensures all == if |list| <= 20000 then Some(list) else None
    ensures |list| <= 20000 ==> calls == PageCount(|list|)
    ensures calls <= MAX_PAGES
  {
    ServedPage(get, list, 1);
    HonestEnd(get, list);
    PageCountBounds(|list|);
    all, calls := GetPoolRuntimeDetail(Some(Object(get(1), None)), get);
  }

  /** listAll gets the whole list, however long it is, from such a server if the last page names no next
      one; it does not look at the size. */
  method HonestListAll<T(!new)>(get: Pages<T>, list: seq<T>) returns (all: Option<seq<T>>)
    requires Serves(get, list) && EndsItself(get, list)
    ensures all == Some(list)
  {
    ghost var last := PageCount(|list|);
    PageCountBounds(|list|);
    HonestEnd(get, list);
    forall j: nat | 1 <= j <= last ensures get(j).Some? && (IsLast(get(j).value) <==> j == last) {
      if j < last {
        EarlierPage(j, last, |list|);
      }
      ServedPage(get, list, j);
    }
    all := ListAll(get, last);
  }
}
