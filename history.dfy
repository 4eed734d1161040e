/** The history list hook (src/hooks/useHistory.ts): pages of saved codes
    fetched from the back end, with the count and whether more pages exist.
    Each `invoke` is given as its outcome. */
module History {
  import opened Wrappers
  import opened Lists
  import opened StyleStore

  /** `HistoryItem`. */
  datatype HistoryItem = HistoryItem(id: int, content: string, qrType: string, labelText: Option<string>,
                                     styleJson: JsonDoc, thumbnail: Option<string>,
                                     createdAt: string, updatedAt: string)

  function ItemId(item: HistoryItem): int {
    item.id
  }

  /** `HistoryListResult`. */
  datatype ListResult = ListResult(items: seq<HistoryItem>, total: int, hasMore: bool)

  /** The arguments of the `history_list` call. */
  datatype ListQuery = ListQuery(limit: int, offset: int, search: Option<string>)

  /** What `history_list` promises (src-tauri/src/commands/history.rs):
      `has_more` is whether rows remain after this page. */
  predicate BackendPage(q: ListQuery, r: ListResult) {
    r.hasMore == (q.offset + |r.items| < r.total)
  }

  /** `search || null`: an empty term is sent as no term. */
  function SearchArg(search: Option<string>): (s: Option<string>)
    ensures s.None? <==> search.None? || search.value == ""
    ensures s.Some? ==> s == search
  {
    if search.Some? && search.value != "" then search else None
  }

  /** The list after a page arrives: the first page replaces it, any other
      page is appended. */
  function ItemsAfter(prev: seq<HistoryItem>, offset: int, page: seq<HistoryItem>): seq<HistoryItem> {
    if offset == 0 then page else prev + page
  }

  /** Fetching from offset 0 or from the end of the list, a page the back
      end answered keeps `hasMore` equal to "fewer items are loaded than
      exist". */
  lemma HasMoreMeansUnloaded(prev: seq<HistoryItem>, q: ListQuery, r: ListResult)
    requires q.offset == 0 || q.offset == |prev|
    requires BackendPage(q, r)
    ensures r.hasMore <==> |ItemsAfter(prev, q.offset, r.items)| < r.total
  {
  }

  /** The first page replaces and every later page extends, so a load-more
      never loses or reorders what was loaded. */
  lemma LoadMoreExtends(prev: seq<HistoryItem>, offset: int, page: seq<HistoryItem>)
    requires offset != 0
    ensures ItemsAfter(prev, offset, page)[..|prev|] == prev
    ensures ItemsAfter(prev, offset, page)[|prev|..] == page
  {
  }

  /** The hook's state. */
  class HistoryList {
    var items: seq<HistoryItem>
    var isLoading: bool
    var total: int
    var hasMore: bool

    constructor()
      ensures items == [] && !isLoading && total == 0 && !hasMore
    {
      items, isLoading, total, hasMore := [], false, 0, false;
    }

    /** `fetchHistory(limit, offset, search)`: it sends the query below and
        takes the page, the count and `hasMore` from the answer; on an error
        only `isLoading` changes, and loading ends either way. */
    method FetchHistory(limit: int, offset: int, search: Option<string>, outcome: Invoke<ListResult>)
      returns (query: ListQuery)
      modifies this
      ensures query == ListQuery(limit, offset, SearchArg(search))
      ensures outcome.Returned? ==>
        items == ItemsAfter(old(items), offset, outcome.value.items) &&
        total == outcome.value.total && hasMore == outcome.value.hasMore
      ensures outcome.Threw? ==> items == old(items) && total == old(total) && hasMore == old(hasMore)
      ensures !isLoading
    {
      isLoading := true;
      query := ListQuery(limit, offset, SearchArg(search));
      match outcome {
        case Returned(result) =>
          if offset == 0 {
            items := result.items;
          } else {
            items := items + result.items;
          }
          total := result.total;
          hasMore := result.hasMore;
        case Threw(_) =>
      }
      isLoading := false;
    }

    /** `saveToHistory`: the new id once the first page (`fetchHistory()`
        with its defaults: 50 items from offset 0, no search) was fetched
        again, or nothing when the save failed. A failed refetch does not
        fail the save; it leaves the list, the count and `hasMore` alone. */
    method SaveToHistory(saved: Invoke<int>, refetch: Invoke<ListResult>)
      returns (id: Option<int>, query: Option<ListQuery>)
      modifies this
      ensures saved.Threw? ==> id.None? && query.None? && isLoading == old(isLoading)
      ensures saved.Threw? ==> items == old(items) && total == old(total) && hasMore == old(hasMore)
      ensures saved.Returned? ==> id == Some(saved.value) && !isLoading
      ensures saved.Returned? ==> query == Some(ListQuery(50, 0, None))
      ensures saved.Returned? && refetch.Returned? ==>
        items == refetch.value.items && total == refetch.value.total && hasMore == refetch.value.hasMore
      ensures saved.Returned? && refetch.Threw? ==>
        items == old(items) && total == old(total) && hasMore == old(hasMore)
    {
      match saved {
        case Returned(newId) =>
          var q := FetchHistory(50, 0, None, refetch);
          id, query := Some(newId), Some(q);
        case Threw(_) =>
          id, query := None, None;
      }
    }

    /** `deleteFromHistory`: on success the item is dropped from the loaded
        list and the count goes down by one, whether or not the item was
        loaded. */
    method DeleteFromHistory(id: int, outcome: Invoke<bool>) returns (success: bool)
      modifies this`items, this`total
      ensures success <==> outcome == Returned(true)
      ensures items == if success then Without(old(items), id, ItemId) else old(items)
      ensures total == if success then old(total) - 1 else old(total)
    {
      success := false;
      match outcome {
        case Returned(ok) =>
          if ok {
            items := Without(items, id, ItemId);
            total := total - 1;
          }
          success := ok;
        case Threw(_) =>
      }
    }

    /** `clearHistory`. */
    method ClearHistory(outcome: Invoke<int>) returns (success: bool)
      modifies this`items, this`total, this`hasMore
      ensures success <==> outcome.Returned?
      ensures success ==> items == [] && total == 0 && !hasMore
      ensures !success ==> items == old(items) && total == old(total) && hasMore == old(hasMore)
    {
      match outcome {
        case Returned(_) =>
          items, total, hasMore := [], 0, false;
          success := true;
        case Threw(_) =>
          success := false;
      }
    }
  }
}
