/**
 * The search client: page-size and offset normalisation, paged search whose failure
 * yields the hits read so far, the result count, pagination metadata, the indexer
 * trigger and the ordered clean-up of the four search resources. The search service
 * is abstract; every call to it is recorded in a ghost log.
 */
module Search {
  import opened Common
  import opened Json

  /** A search hit's document: field name to value. */
  type Document = map<string, JsonValue>

  /** The four resources the client provisions on the search service. */
  datatype Resource = DataSource | Index | Skillset | Indexer

  /** `cleanUp` deletes in this order. */
  const CleanUpOrder: seq<Resource> := [DataSource, Index, Skillset, Indexer]

  /** The page size used when the caller gives none that is positive. */
  const DefaultPageSize: int := 50

  /** One call to the search service. */
  datatype SearchCall =
    | Query(query: string, top: int, skip: int, delivered: seq<Document>, threw: bool)
    | CountQuery(query: string, outcome: Outcome<nat>)
    | TriggerIndexer(ok: bool)
    | DeleteResource(resource: Resource, ok: bool)

  /** The page size a search or a pagination request uses. */
  function PageSize(pageSize: int): int
  {
    if pageSize > 0 then pageSize else DefaultPageSize
  }

  /** The number of hits a search skips. */
  function PageOffset(pageOffset: int): int
  {
    if pageOffset > 0 then pageOffset else 0
  }

  /** The page size is positive, and a positive request is honoured as given. */
  lemma PageSizeSpec(pageSize: int)
    ensures PageSize(pageSize) >= 1
    ensures pageSize >= 1 <==> PageSize(pageSize) == pageSize
  {
  }

  /** The offset is never negative, and a non-negative request is honoured as given. */
  lemma PageOffsetSpec(pageOffset: int)
    ensures PageOffset(pageOffset) >= 0
    ensures pageOffset >= 0 <==> PageOffset(pageOffset) == pageOffset
  {
  }

  /** The number of pages of `size` that `count` items fill: integer ceiling division. */
  function CeilDiv(count: nat, size: int): (pages: nat)
    requires size > 0
    ensures pages * size >= count
    ensures pages == 0 || (pages - 1) * size < count
  {
    CeilDivSpec(count, size);
    (count + size - 1) / size
  }

  /** The bounds that characterise the ceiling of `count / size`. */
  lemma CeilDivSpec(count: nat, size: int)
    requires size > 0
    ensures ((count + size - 1) / size) * size >= count
    ensures (count + size - 1) / size == 0 || ((count + size - 1) / size - 1) * size < count
  {
    var q := (count + size - 1) / size;
    var r := (count + size - 1) % size;
    assert q * size + r == count + size - 1;
    assert 0 <= r < size;
  }

  /** The pagination metadata, or the error that stands in for it. */
  datatype PaginationInfo =
    | Pagination(
        totalCount: nat,
        pageSize: int,
        totalPages: nat,
        currentPage: int,
        hasNextPage: bool,
        hasPreviousPage: bool)
    | PaginationError(error: string)

  const CountUnavailable: string := "Could not retrieve search result count"

  /** The metadata `getSearchPaginationInfo` builds from a result count (-1 when counting failed). */
  function Paginate(totalCount: int, pageSize: int, currentPage: int): PaginationInfo
  {
    if totalCount < 0 then PaginationError(CountUnavailable)
    else
      var size := PageSize(pageSize);
      var totalPages := CeilDiv(totalCount, size);
      var current := Max(0, Min(currentPage, totalPages - 1));
      Pagination(totalCount, size, totalPages, current, current < totalPages - 1, current > 0)
  }

  function Min(a: int, b: int): int { if a <= b then a else b }

  function Max(a: int, b: int): int { if a >= b then a else b }

  /** A failed count gives the error alone; a count gives the metadata for it. */
  lemma PaginateOutcome(totalCount: int, pageSize: int, currentPage: int)
    ensures Paginate(totalCount, pageSize, currentPage).PaginationError? <==> totalCount < 0
    ensures totalCount < 0 ==> Paginate(totalCount, pageSize, currentPage).error == CountUnavailable
    ensures totalCount >= 0 ==> (Paginate(totalCount, pageSize, currentPage).totalCount == totalCount
                                 && Paginate(totalCount, pageSize, currentPage).pageSize == PageSize(pageSize))
  {
  }

  /**
   * The pages cover the count exactly: every item lies on one of the pages, and the last
   * page is not empty.
   */
  lemma PagesCoverCount(totalCount: nat, pageSize: int, currentPage: int)
    ensures var info := Paginate(totalCount, pageSize, currentPage);
      info.totalPages * info.pageSize >= totalCount
      && (info.totalPages == 0 || (info.totalPages - 1) * info.pageSize < totalCount)
    ensures Paginate(totalCount, pageSize, currentPage).totalPages == 0 <==> totalCount == 0
  {
    var size := PageSize(pageSize);
    var pages := CeilDiv(totalCount, size);
    if totalCount > 0 {
      assert pages != 0;
    }
  }

  /**
   * The current page is clamped into range: 0 when there are no pages, otherwise a
   * page that exists; a requested page that exists is kept.
   */
  lemma CurrentPageClamped(totalCount: nat, pageSize: int, currentPage: int)
    ensures var info := Paginate(totalCount, pageSize, currentPage);
      0 <= info.currentPage
      && (info.totalPages == 0 ==> info.currentPage == 0)
      && (info.totalPages > 0 ==> info.currentPage < info.totalPages)
      && (0 <= currentPage < info.totalPages ==> info.currentPage == currentPage)
      && (currentPage < 0 ==> info.currentPage == 0)
      && (info.totalPages > 0 && currentPage >= info.totalPages ==> info.currentPage == info.totalPages - 1)
  {
  }

  /** There is a next page exactly when the current page is not the last, and a previous one when it is not the first. */
  lemma NavigationFlags(totalCount: nat, pageSize: int, currentPage: int)
    ensures var info := Paginate(totalCount, pageSize, currentPage);
      (info.hasNextPage <==> info.currentPage + 1 < info.totalPages)
      && (info.hasPreviousPage <==> info.currentPage >= 1)
      && (info.totalPages <= 1 ==> !info.hasNextPage && !info.hasPreviousPage)
  {
  }

  /** The shape of a `cleanUp` run: deletes in order, each one only after the previous succeeded, ending at the first failure or after the fourth. */
  predicate IsCleanUpTrace(calls: seq<SearchCall>)
  {
    1 <= |calls| <= |CleanUpOrder|
    && (forall i :: 0 <= i < |calls| ==> calls[i].DeleteResource? && calls[i].resource == CleanUpOrder[i])
    && (forall i :: 0 <= i < |calls| - 1 ==> calls[i].ok)
    && (|calls| < |CleanUpOrder| ==> !calls[|calls| - 1].ok)
  }

  /** The resources a clean-up run removed. */
  function Removed(calls: seq<SearchCall>): set<Resource>
  {
    set i | 0 <= i < |calls| && calls[i].DeleteResource? && calls[i].ok :: calls[i].resource
  }

  /** A further delete adds its resource to those removed exactly when it succeeded. */
  lemma RemovedAppend(calls: seq<SearchCall>, r: Resource, ok: bool)
    ensures Removed(calls + [DeleteResource(r, ok)]) == Removed(calls) + (if ok then {r} else {})
  {
    var all := calls + [DeleteResource(r, ok)];
    forall x | x in Removed(all)
      ensures x in Removed(calls) + (if ok then {r} else {})
    {
      var i :| 0 <= i < |all| && all[i].DeleteResource? && all[i].ok && all[i].resource == x;
      if i < |calls| {
        assert calls[i] == all[i];
      }
    }
    forall x | x in Removed(calls)
      ensures x in Removed(all)
    {
      var i :| 0 <= i < |calls| && calls[i].DeleteResource? && calls[i].ok && calls[i].resource == x;
      assert all[i] == calls[i];
    }
    if ok {
      assert all[|calls|] == DeleteResource(r, ok);
    }
  }

  /** The client of one search service. */
  class AzureSearchClient {
    /** The provisioned resources that still exist. */
    var live: set<Resource>
    /** Every call to the service, in order. */
    ghost var log: seq<SearchCall>

    constructor (provisioned: set<Resource>)
      ensures live == provisioned && log == []
    {
      live := provisioned;
      log := [];
    }

    // ---- The search service: outcomes are not determined by the model ----

    /**
     * `searchClient.search(query, options, ...)` with `top` and `skip`: the hits it
     * delivers, at most `top` of them, and whether iterating them then threw. The bound
     * is the service honouring `setTop`; the client does not count the hits itself.
     */
    method QueryService(query: string, top: int, skip: int) returns (hits: seq<Document>, threw: bool)
      requires top >= 1
      modifies this`log
      ensures |hits| <= top
      ensures log == old(log) + [Query(query, top, skip, hits, threw)]
    {
      hits := *;
      threw := *;
      if |hits| > top {
        hits := [];
      }
      log := log + [Query(query, top, skip, hits, threw)];
    }

    /** The total count of a query, or an exception. */
    method CountService(query: string) returns (r: Outcome<nat>)
      modifies this`log
      ensures log == old(log) + [CountQuery(query, r)]
    {
      r := *;
      log := log + [CountQuery(query, r)];
    }

    /** Deleting one resource; false when the service throws. */
    method Drop(resource: Resource) returns (ok: bool)
      modifies this`live, this`log
      ensures live == if ok then old(live) - {resource} else old(live)
      ensures log == old(log) + [DeleteResource(resource, ok)]
    {
      ok := *;
      if ok {
        live := live - {resource};
      }
      log := log + [DeleteResource(resource, ok)];
    }

    // ---- The client's own operations ----

    /**
     * `search(query, pageSize, pageOffset)`: the documents of the hits, in order. A
     * failure while reading the hits ends the loop and returns what was read so far.
     */
    method SearchPage(query: string, pageSize: int, pageOffset: int) returns (results: seq<Document>)
      modifies this`log
      ensures |log| == |old(log)| + 1 && log[..|old(log)|] == old(log)
      ensures log[|old(log)|].Query? && log[|old(log)|].query == query
      ensures log[|old(log)|].top == PageSize(pageSize) && log[|old(log)|].skip == PageOffset(pageOffset)
      ensures results == log[|old(log)|].delivered
      ensures |results| <= PageSize(pageSize)
    {
      var size := PageSize(pageSize);
      var offset := PageOffset(pageOffset);
      var hits, threw := QueryService(query, size, offset);
      results := [];
      for i := 0 to |hits|
        invariant results == hits[..i]
      {
        results := results + [hits[i]];
      }
      assert hits[..|hits|] == hits;
    }

    /** `search(query, maxResults)`: the first page of `maxResults` hits. */
    method Search(query: string, maxResults: int) returns (results: seq<Document>)
      modifies this`log
      ensures |log| == |old(log)| + 1 && log[..|old(log)|] == old(log)
      ensures log[|old(log)|].Query? && log[|old(log)|].query == query
      ensures log[|old(log)|].top == PageSize(maxResults) && log[|old(log)|].skip == 0
      ensures results == log[|old(log)|].delivered
      ensures |results| <= PageSize(maxResults)
    {
      results := SearchPage(query, maxResults, 0);
    }

    /** `getSearchResultCount(query)`: the count, or -1 when the service throws. */
    method GetSearchResultCount(query: string) returns (count: int)
      modifies this`log
      ensures |log| == |old(log)| + 1 && log[..|old(log)|] == old(log)
      ensures log[|old(log)|].CountQuery? && log[|old(log)|].query == query
      ensures count == match log[|old(log)|].outcome
        case Returned(n) => n
        case Threw(_) => -1
      ensures count >= -1
    {
      var r := CountService(query);
      count := match r
        case Returned(n) => n
        case Threw(_) => -1;
    }

    /** `getSearchPaginationInfo(query, pageSize, currentPage)`: the metadata for the query's count. */
    method GetSearchPaginationInfo(query: string, pageSize: int, currentPage: int) returns (info: PaginationInfo)
      modifies this`log
      ensures |log| == |old(log)| + 1 && log[..|old(log)|] == old(log)
      ensures log[|old(log)|].CountQuery? && log[|old(log)|].query == query
      ensures info == Paginate(if log[|old(log)|].outcome.Returned? then log[|old(log)|].outcome.value else -1,
                               pageSize, currentPage)
    {
      var totalCount := GetSearchResultCount(query);
      info := Paginate(totalCount, pageSize, currentPage);
    }

    /** `runIndexer()`: triggers a run; any exception is caught and reported as false. */
    method RunIndexer() returns (ok: bool)
      modifies this`log
      ensures log == old(log) + [TriggerIndexer(ok)]
    {
      ok := *;
      log := log + [TriggerIndexer(ok)];
    }

    /**
     * `cleanUp()`: deletes the data source, the index, the skillset and the indexer, in
     * that order; the first failure ends the sequence and is not reported.
     */
    method CleanUp()
      modifies this`live, this`log
      ensures |log| > |old(log)| && log[..|old(log)|] == old(log)
      ensures IsCleanUpTrace(log[|old(log)|..])
      ensures live == old(live) - Removed(log[|old(log)|..])
    {
      ghost var log0 := log;
      var i := 0;
      var ok := true;
      while i < |CleanUpOrder| && ok
        invariant 0 <= i <= |CleanUpOrder|
        invariant |log| == |log0| + i && log[..|log0|] == log0
        invariant forall k :: 0 <= k < i ==> log[|log0| + k] == DeleteResource(CleanUpOrder[k], k < i - 1 || ok)
        invariant i == 0 ==> ok
        invariant live == old(live) - Removed(log[|log0|..])
      {
        ghost var before := log;
        ok := Drop(CleanUpOrder[i]);
        assert log[|log0|..] == before[|log0|..] + [DeleteResource(CleanUpOrder[i], ok)];
        RemovedAppend(before[|log0|..], CleanUpOrder[i], ok);
        i := i + 1;
      }
      ghost var calls := log[|log0|..];
      forall k | 0 <= k < i
        ensures calls[k] == DeleteResource(CleanUpOrder[k], k < i - 1 || ok)
      {
        assert calls[k] == log[|log0| + k];
      }
    }
  }
}
