/** Cursor paging on the server, and the client that walks it. */
module Transactions {
  import opened Options

  datatype Transaction = Transaction(
    id: string, txHash: string, sourceAddr: string, targetAddr: string, status: string,
    amount: string, fee: string, createdAt: string, currency: string)

  datatype Page = Page(data: seq<Transaction>, nextCursor: Option<string>, hasMore: bool)

  type Filter = Transaction -> bool

  function Filtered(store: seq<Transaction>, keep: Filter): seq<Transaction> {
    if |store| == 0 then []
    else
      var front := Filtered(store[..|store| - 1], keep);
      if keep(store[|store| - 1]) then front + [store[|store| - 1]] else front
  }

  /** `findIndex`: the first position with that id. */
  function FindIndex(txs: seq<Transaction>, id: string): Option<nat> {
    if |txs| == 0 then None
    else if txs[0].id == id then Some(0)
    else
      match FindIndex(txs[1..], id)
      case None => None
      case Some(i) => Some(i + 1)
  }

  /** An empty cursor means none; a cursor that is not found starts over. */
  function StartIndex(filtered: seq<Transaction>, cursor: string, offset: nat): nat {
    if cursor != "" then
      match FindIndex(filtered, cursor)
      case None => 0
      case Some(i) => i + 1
    else offset
  }

  /** `slice`, clamped at the end. */
  function Slice(txs: seq<Transaction>, start: nat, limit: nat): seq<Transaction> {
    if start >= |txs| then [] else if start + limit >= |txs| then txs[start..] else txs[start..start + limit]
  }

  function ListTransactions(store: seq<Transaction>, keep: Filter, limit: nat, cursor: string, offset: nat): Page {
    var filtered := Filtered(store, keep);
    var start := StartIndex(filtered, cursor, offset);
    var page := Slice(filtered, start, limit);
    var hasMore := start + limit < |filtered|;
    Page(page, if hasMore && |page| > 0 then Some(page[|page| - 1].id) else None, hasMore)
  }

  predicate UsableIds(txs: seq<Transaction>) {
    && (forall i :: 0 <= i < |txs| ==> txs[i].id != "")
    && (forall i, j :: 0 <= i < j < |txs| ==> txs[i].id != txs[j].id)
  }

  /** The store only ever grows at its end. */
  predicate Grows(stores: seq<seq<Transaction>>) {
    forall i, j :: 0 <= i <= j < |stores| ==> stores[i] <= stores[j]
  }

  /** The store that fetch number `k` sees: growth stops after the last one given. */
  function At(stores: seq<seq<Transaction>>, k: nat): seq<Transaction>
    requires |stores| > 0
  {
    if k < |stores| then stores[k] else stores[|stores| - 1]
  }

  // ----- lemmas on the filtered list -----

  lemma {:induction false} FilteredConcat(a: seq<Transaction>, b: seq<Transaction>, keep: Filter)
    ensures Filtered(a + b, keep) == Filtered(a, keep) + Filtered(b, keep)
  {
    if |b| == 0 {
      assert a + b == a;
    } else {
      assert (a + b)[..|a + b| - 1] == a + b[..|b| - 1];
      FilteredConcat(a, b[..|b| - 1], keep);
    }
  }

  lemma FilteredGrows(a: seq<Transaction>, b: seq<Transaction>, keep: Filter)
    requires a <= b
    ensures Filtered(a, keep) <= Filtered(b, keep)
  {
    assert b == a + b[|a|..];
    FilteredConcat(a, b[|a|..], keep);
  }

  lemma {:induction false} FilteredUsable(store: seq<Transaction>, keep: Filter)
    requires UsableIds(store)
    ensures UsableIds(Filtered(store, keep))
    ensures forall t :: t in Filtered(store, keep) ==> t in store
  {
    if |store| > 0 {
      var front := store[..|store| - 1];
      FilteredUsable(front, keep);
      assert store == front + [store[|store| - 1]];
      var kept := Filtered(front, keep);
      assert forall i :: 0 <= i < |kept| ==> kept[i] in front;
    }
  }

  lemma {:induction false} FindIndexExact(txs: seq<Transaction>, i: nat)
    requires UsableIds(txs) && i < |txs|
    ensures FindIndex(txs, txs[i].id) == Some(i)
  {
    if i > 0 {
      FindIndexExact(txs[1..], i - 1);
    }
  }

  /** The cursor left by a page points just past that page, however much the list has grown since. */
  lemma CursorResumes(before: seq<Transaction>, after: seq<Transaction>, pos: nat)
    requires before <= after && UsableIds(after) && 0 < pos <= |before|
    ensures StartIndex(after, before[pos - 1].id, 0) == pos
  {
    assert before[pos - 1] == after[pos - 1];
    FindIndexExact(after, pos - 1);
  }

  // ----- offsets -----

  function SmallerOf(a: nat, b: nat): nat {
    if a < b then a else b
  }

  /** Without a cursor a page is the stretch from the offset on; a cursor makes the offset count for nothing. */
  lemma OffsetPage(store: seq<Transaction>, keep: Filter, limit: nat, cursor: string, offset: nat)
    ensures var list, page := Filtered(store, keep), ListTransactions(store, keep, limit, "", offset);
            && |page.data| == SmallerOf(limit, if offset < |list| then |list| - offset else 0)
            && (forall i :: 0 <= i < |page.data| ==> page.data[i] == list[offset + i])
            && (page.hasMore <==> offset + limit < |list|)
    ensures cursor != "" ==> ListTransactions(store, keep, limit, cursor, offset) == ListTransactions(store, keep, limit, cursor, 0)
  {
    hide Filtered, FindIndex, Slice;
    SliceExact(Filtered(store, keep), offset, limit);
  }

  lemma SliceExact(txs: seq<Transaction>, start: nat, limit: nat)
    ensures |Slice(txs, start, limit)| == SmallerOf(limit, if start < |txs| then |txs| - start else 0)
    ensures forall i :: 0 <= i < |Slice(txs, start, limit)| ==> Slice(txs, start, limit)[i] == txs[start + i]
  {
  }

  /** A cursor that no listed transaction has starts over. */
  lemma UnknownCursorStartsOver(store: seq<Transaction>, keep: Filter, limit: nat, cursor: string, offset: nat)
    requires cursor != "" && forall i :: 0 <= i < |Filtered(store, keep)| ==> Filtered(store, keep)[i].id != cursor
    ensures ListTransactions(store, keep, limit, cursor, offset) == ListTransactions(store, keep, limit, "", 0)
  {
    NotFound(Filtered(store, keep), cursor);
    hide Filtered, FindIndex, Slice;
  }

  lemma {:induction false} NotFound(txs: seq<Transaction>, id: string)
    requires forall i :: 0 <= i < |txs| ==> txs[i].id != id
    ensures FindIndex(txs, id) == None
  {
    if |txs| > 0 {
      NotFound(txs[1..], id);
    }
  }

  /** The first `n` pages by offset, put together. */
  function OffsetPages(store: seq<Transaction>, keep: Filter, limit: nat, n: nat): seq<Transaction> {
    if n == 0 then [] else OffsetPages(store, keep, limit, n - 1) + ListTransactions(store, keep, limit, "", (n - 1) * limit).data
  }

  /** Pages at multiples of the limit tile the list, from its start and without gap or overlap. */
  lemma {:induction false} OffsetPagesTile(store: seq<Transaction>, keep: Filter, limit: nat, n: nat)
    ensures var list := Filtered(store, keep);
            OffsetPages(store, keep, limit, n) == list[..SmallerOf(n * limit, |list|)]
  {
    hide Filtered, ListTransactions;
    NextOffset(n, limit);
    if n > 0 {
      var offset := (n - 1) * limit;
      OffsetPagesTile(store, keep, limit, n - 1);
      OffsetPage(store, keep, limit, "", offset);
      Tiles(Filtered(store, keep), offset, limit, ListTransactions(store, keep, limit, "", offset).data);
    }
  }

  lemma NextOffset(n: nat, limit: nat)
    ensures if n == 0 then n * limit == 0 else n * limit == (n - 1) * limit + limit && (n - 1) * limit >= 0
  {
  }

  lemma Tiles(list: seq<Transaction>, offset: nat, limit: nat, page: seq<Transaction>)
    requires |page| == SmallerOf(limit, if offset < |list| then |list| - offset else 0)
    requires forall i :: 0 <= i < |page| ==> page[i] == list[offset + i]
    ensures list[..SmallerOf(offset, |list|)] + page == list[..SmallerOf(offset + limit, |list|)]
  {
  }

  // ----- the client -----

  /** The moments at which the loop looks at its abort signal, around fetch number `k`. */
  datatype Moment = BeforeFetch(k: nat) | Pausing(k: nat) | AfterPage(k: nat)

  /**
   * `PaginationHelper.all` over `listTransactions`, where fetch `k` sees store `At(stores, k)` and the signal is as
   * `aborted` says. It ends. Unless aborted, with a page size of at least 1 it returns the filtered list as of the last
   * page, in order, without gap or repeat; a page size of 0 ends at once with nothing. An abort makes it return what it has,
   * a prefix of that list, or, while it pauses between pages, reject.
   */
  method All(stores: seq<seq<Transaction>>, keep: Filter, pageSize: nat, throttled: bool, aborted: Moment -> bool)
    returns (results: seq<Transaction>, fetches: nat, rejected: bool)
    requires |stores| > 0 && Grows(stores) && UsableIds(stores[|stores| - 1])
    ensures rejected ==> throttled && exists k :: aborted(Pausing(k))
    ensures fetches == 0 ==> results == [] && aborted(BeforeFetch(0))
    ensures fetches > 0 ==> results <= Filtered(At(stores, fetches - 1), keep)
    ensures (forall m :: !aborted(m)) ==>
              && !rejected && fetches > 0
              && (pageSize >= 1 ==> results == Filtered(At(stores, fetches - 1), keep))
              && (pageSize == 0 ==> results == [] && fetches == 1)
  {
    hide ListTransactions, Filtered, Grows, UsableIds, At;
    ghost var final := Filtered(stores[|stores| - 1], keep);
    results, fetches, rejected := [], 0, false;
    var cursor := "";
    var more := true;
    while more
      invariant !rejected
      invariant fetches == 0 ==> results == [] && cursor == "" && more
      invariant fetches > 0 ==> results <= Filtered(At(stores, fetches - 1), keep) && |results| <= |final|
      invariant more && fetches > 0 ==> |results| > 0 && pageSize >= 1 && cursor == results[|results| - 1].id
      invariant !more && (forall m :: !aborted(m)) && pageSize >= 1 ==> results == Filtered(At(stores, fetches - 1), keep)
      invariant !more && pageSize == 0 ==> results == [] && fetches == 1
      decreases if more then 1 else 0, |final| - |results|
    {
      if aborted(BeforeFetch(fetches)) {
        return;
      }
      var page := ListTransactions(At(stores, fetches), keep, pageSize, cursor, 0);
      PageContinues(stores, keep, pageSize, fetches, results, cursor);
      results := results + page.data;
      fetches := fetches + 1;
      cursor := if page.nextCursor.Some? then page.nextCursor.value else "";
      if cursor != "" && throttled && aborted(Pausing(fetches - 1)) {
        rejected := true;
        return;
      }
      more := cursor != "" && !aborted(AfterPage(fetches - 1));
    }
  }

  /** One fetch: it returns the next stretch of the list as it is now, and a cursor exactly when some is left. */
  lemma PageContinues(stores: seq<seq<Transaction>>, keep: Filter, pageSize: nat, k: nat, results: seq<Transaction>, cursor: string)
    requires |stores| > 0 && Grows(stores) && UsableIds(stores[|stores| - 1])
    requires if k == 0 then results == [] && cursor == ""
             else |results| > 0 && pageSize >= 1 && results <= Filtered(At(stores, k - 1), keep) && cursor == results[|results| - 1].id
    ensures var list := Filtered(At(stores, k), keep);
            var page := ListTransactions(At(stores, k), keep, pageSize, cursor, 0);
            && results + page.data <= list
            && |list| <= |Filtered(stores[|stores| - 1], keep)|
            && |page.data| <= pageSize
            && (page.hasMore && pageSize >= 1 <==> page.nextCursor.Some?)
            && (page.nextCursor.Some? ==> results + page.data != list)
            && (pageSize >= 1 && page.nextCursor.None? ==> results + page.data == list)
            && (page.nextCursor.Some? ==> |page.data| > 0 && page.nextCursor.value == page.data[|page.data| - 1].id != "")
            && (pageSize == 0 ==> page.nextCursor.None? && page.data == [])
  {
    var last := stores[|stores| - 1];
    var list := Filtered(At(stores, k), keep);
    assert At(stores, k) <= last && (k > 0 ==> At(stores, k - 1) <= At(stores, k));
    hide Filtered, At, Grows;
    FilteredUsable(last, keep);
    FilteredGrows(At(stores, k), last, keep);
    UsablePrefix(list, Filtered(last, keep));
    hide UsableIds, Slice;
    if k > 0 {
      FilteredGrows(At(stores, k - 1), At(stores, k), keep);
      CursorResumes(Filtered(At(stores, k - 1), keep), list, |results|);
    }
    assert StartIndex(list, cursor, 0) == |results|;
    PageOf(list, results, pageSize);
  }

  lemma UsablePrefix(list: seq<Transaction>, longer: seq<Transaction>)
    requires list <= longer && UsableIds(longer)
    ensures UsableIds(list)
  {
  }

  /** The slice after `results` extends it, and reaches the end when it says so. */
  lemma PageOf(list: seq<Transaction>, results: seq<Transaction>, limit: nat)
    requires results <= list && UsableIds(list)
    ensures var page := Slice(list, |results|, limit);
            && results + page <= list
            && (limit == 0 ==> page == [])
            && (|results| + limit >= |list| && limit > 0 ==> results + page == list)
            && (|results| + limit < |list| ==> |page| == limit && results + page != list)
            && |page| <= limit
            && (|page| > 0 ==> page[|page| - 1].id != "")
  {
    assert list[..|results|] == results;
  }
}
