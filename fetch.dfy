/**
 * What get_info computes, stated as functions: the records one worker emits for its pages, the
 * merge of all workers, and the final table. The threads run their chunks concurrently and the
 * table is read back as an unordered collection, so running chunk 0, then chunk 1, and so on
 * gives the same rows; these functions take that order.
 *
 * Each level is a left fold over the first `n` elements of a sequence of per-element results
 * (`Collect` over items, `Chain` over pages, `Merge` over chunks), so a loop over those elements
 * keeps "the fold over the first `i`" as its invariant.
 */
module Fetch {
  import opened Wrappers
  import opened PyDict
  import opened Query
  import opened Split
  import opened Records

  /** The decoded JSON of one API response: `data.items[*].properties` and `data.paging`. */
  datatype Response = Response(items: seq<Dict>, totalItems: int, numberOfPages: int,
                               currentPage: int)

  /** `trigger_api(obj_type, querystring)`: the response to a request, or `None` when the status
      is not 200. The kind is fixed for one call of get_info, so it is part of the oracle. */
  type Oracle = QueryString -> Option<Response>

  /** What one page's items contribute before a fault, if any, stops the worker. */
  datatype PageRun = PageRun(records: seq<Record>, error: Option<Error>)

  /** What one worker contributes: its records, the requests it sent, and the fault that ended it
      early, if any. */
  datatype ChunkRun = ChunkRun(records: seq<Record>, requests: seq<QueryString>,
                               error: Option<Error>)

  /** What all workers contribute, and the faults of those that ended early. */
  datatype MergeRun = MergeRun(records: seq<Record>, requests: seq<QueryString>,
                               failures: seq<Error>)

  /** The DataFrame: its column list and its rows (each a Series with a name). */
  datatype Table = Table(columns: seq<string>, rows: seq<Record>)

  /** The value get_info returns (`None` or a DataFrame), or the fault raised in the calling
      thread. `failures` lists the faults that ended worker threads; Python prints them and
      returns the table of what was queued. */
  datatype Outcome = NoItems | Fetched(table: Table, failures: seq<Error>) | Failed(error: Error)

  /** A whole call: its outcome and every request it sent, in the sequential order. */
  datatype Run = Run(outcome: Outcome, requests: seq<QueryString>)

  // ---------------------------------------------------------------------------------------------
  // Definitions

  /** Each item of a page normalized, in order. */
  function Normalized(kind: Kind, items: seq<Dict>): (rs: seq<Result<Record, Error>>)
    ensures |rs| == |items|
  {
    if items == [] then [] else [Normalize(kind, items[0])] + Normalized(kind, items[1..])
  }

  /** Lines 107-124 over the first `n` items' results: each record is queued in order until the
      first fault, which ends the worker. */
  function Collect(results: seq<Result<Record, Error>>, n: nat): PageRun
    requires n <= |results|
  {
    if n == 0 then PageRun([], None)
    else
      var before := Collect(results, n - 1);
      if before.error.Some? then before
      else match results[n - 1]
        case Err(e) => PageRun(before.records, Some(e))
        case Ok(r) => PageRun(before.records + [r], None)
  }

  /** Lines 107-124 for one page: normalize and queue each item until one fails. */
  function PageEmit(kind: Kind, items: seq<Dict>): PageRun
  {
    Collect(Normalized(kind, items), |items|)
  }

  /** Lines 103-124 for one page: its request, and what its items contribute. */
  function PageStep(oracle: Oracle, kind: Kind, q: QueryString, page: int): ChunkRun
  {
    var request := WithPage(q, page);
    match oracle(request)
    case None => ChunkRun([], [request], Some(FetchFailed(page)))
    case Some(response) =>
      var run := PageEmit(kind, response.items);
      ChunkRun(run.records, [request], run.error)
  }

  /** A page whose request succeeds and whose every item normalizes. */
  predicate PageOk(oracle: Oracle, kind: Kind, q: QueryString, page: int)
  {
    match oracle(WithPage(q, page))
    case None => false
    case Some(response) => forall i :: 0 <= i < |response.items| ==> Normalize(kind, response.items[i]).Ok?
  }

  /** Each page of a chunk as one step of its worker, in order. */
  function Steps(oracle: Oracle, kind: Kind, q: QueryString, pages: seq<int>): (steps: seq<ChunkRun>)
    ensures |steps| == |pages|
  {
    if pages == [] then []
    else [PageStep(oracle, kind, q, pages[0])] + Steps(oracle, kind, q, pages[1..])
  }

  /** A worker's work so far, then more of it unless a fault has already stopped it. */
  function Then(before: ChunkRun, after: ChunkRun): ChunkRun
  {
    if before.error.Some? then before
    else ChunkRun(before.records + after.records, before.requests + after.requests, after.error)
  }

  /** The first `n` steps, one after another, until a fault stops them. */
  function Chain(steps: seq<ChunkRun>, n: nat): ChunkRun
    requires n <= |steps|
  {
    if n == 0 then ChunkRun([], [], None) else Then(Chain(steps, n - 1), steps[n - 1])
  }

  /** Lines 101-124: one worker, page by page, until a fault stops it. */
  function ChunkEmit(oracle: Oracle, kind: Kind, q: QueryString, pages: seq<int>): ChunkRun
  {
    Chain(Steps(oracle, kind, q, pages), |pages|)
  }

  /** The work of each worker, one per chunk. */
  function Runs(oracle: Oracle, kind: Kind, q: QueryString, chunks: seq<seq<int>>): (runs: seq<ChunkRun>)
    ensures |runs| == |chunks|
  {
    if chunks == [] then []
    else [ChunkEmit(oracle, kind, q, chunks[0])] + Runs(oracle, kind, q, chunks[1..])
  }

  /** The first `n` workers' contributions put together: every record and request in order, and
      one failure for each worker that a fault ended. */
  function Merge(runs: seq<ChunkRun>, n: nat): MergeRun
    requires n <= |runs|
  {
    if n == 0 then MergeRun([], [], [])
    else
      var before := Merge(runs, n - 1);
      var run := runs[n - 1];
      MergeRun(before.records + run.records, before.requests + run.requests,
               before.failures + (if run.error.Some? then [run.error.value] else []))
  }

  /** Lines 151-157, run one chunk after another. */
  function MergeChunks(oracle: Oracle, kind: Kind, q: QueryString, chunks: seq<seq<int>>): MergeRun
  {
    Merge(Runs(oracle, kind, q, chunks), |chunks|)
  }

  /** The requests a worker sends for its pages when nothing fails: one per page, in order. */
  function PageRequests(q: QueryString, pages: seq<int>): (r: seq<QueryString>)
    ensures |r| == |pages|
  {
    if pages == [] then []
    else PageRequests(q, pages[..|pages| - 1]) + [WithPage(q, pages[|pages| - 1])]
  }

  /** The number of items the API returns for one page. */
  function PageItems(oracle: Oracle, q: QueryString, page: int): nat
  {
    match oracle(WithPage(q, page))
    case None => 0
    case Some(response) => |response.items|
  }

  /** The number of items the API returns over the given pages. */
  function ItemCount(oracle: Oracle, q: QueryString, pages: seq<int>): nat
  {
    if pages == [] then 0
    else ItemCount(oracle, q, pages[..|pages| - 1]) + PageItems(oracle, q, pages[|pages| - 1])
  }

  /** The items the API returns for one page, none when the request fails. */
  function ItemsOn(oracle: Oracle, q: QueryString, page: int): seq<Dict>
  {
    match oracle(WithPage(q, page))
    case None => []
    case Some(response) => response.items
  }

  /** The items the API returns over the given pages, page after page. */
  function ItemsOver(oracle: Oracle, q: QueryString, pages: seq<int>): seq<Dict>
  {
    if pages == [] then []
    else ItemsOver(oracle, q, pages[..|pages| - 1]) + ItemsOn(oracle, q, pages[|pages| - 1])
  }

  /** The position of the first record whose key is `None`, or the number of records when every
      record has a name. */
  function FirstUnnamed(rows: seq<Record>): (k: nat)
    ensures k <= |rows|
    ensures forall i :: 0 <= i < k ==> rows[i].key != Null
    ensures k < |rows| ==> rows[k].key == Null
  {
    if rows == [] then 0
    else if rows[0].key == Null then 0
    else 1 + FirstUnnamed(rows[1..])
  }

  /** Lines 161-163: the table with the given columns and the rows appended in order.
      `DataFrame.append` refuses a Series whose name is `None`, which ends the call. */
  function Tabulate(columns: seq<string>, rows: seq<Record>): Result<Table, Error>
  {
    if FirstUnnamed(rows) < |rows| then Err(UnnamedRow) else Ok(Table(columns, rows))
  }

  /** Lines 127-165: the whole call. */
  function GetInfoSpec(oracle: Oracle, kind: Kind, q: QueryString, cpus: int): Run
  {
    match oracle(q)
    case None => Run(Failed(FirstFetchFailed), [q])
    case Some(first) =>
      if first.totalItems == 0 then Run(NoItems, [q])
      else
        var workers := WorkerCount(first.numberOfPages, cpus);
        match PagePartition(first.numberOfPages, workers)
        case Err(_) => Run(Failed(BadSections(workers)), [q])
        case Ok(chunks) =>
          var merged := MergeChunks(oracle, kind, q, chunks);
          if first.items == [] then Run(Failed(NoSampleItem), [q] + merged.requests)
          else match Tabulate(Keys(first.items[0]), merged.records)
            case Err(e) => Run(Failed(e), [q] + merged.requests)
            case Ok(table) => Run(Fetched(table, merged.failures), [q] + merged.requests)
  }

  // ---------------------------------------------------------------------------------------------
  // Positions

  /** Result `i` of a page is item `i` normalized. */
  lemma {:induction false} NormalizedAt(kind: Kind, items: seq<Dict>, i: nat)
    requires i < |items|
    ensures Normalized(kind, items)[i] == Normalize(kind, items[i])
  {
    if i > 0 {
      NormalizedAt(kind, items[1..], i - 1);
    }
  }

  /** Step `i` of a worker is page `i` of its chunk. */
  lemma {:induction false} StepsAt(oracle: Oracle, kind: Kind, q: QueryString, pages: seq<int>, i: nat)
    requires i < |pages|
    ensures Steps(oracle, kind, q, pages)[i] == PageStep(oracle, kind, q, pages[i])
  {
    if i > 0 {
      StepsAt(oracle, kind, q, pages[1..], i - 1);
    }
  }

  /** Two chunks that hold the same page at two positions take the same step there. */
  lemma StepsSamePage(oracle: Oracle, kind: Kind, q: QueryString, s: seq<int>, i: nat, t: seq<int>, j: nat)
    requires i < |s| && j < |t| && s[i] == t[j]
    ensures Steps(oracle, kind, q, s)[i] == Steps(oracle, kind, q, t)[j]
  {
    StepsAt(oracle, kind, q, s, i);
    StepsAt(oracle, kind, q, t, j);
  }

  /** The steps over `a + b` are those over `a`, then those over `b`. */
  lemma StepsAppend(oracle: Oracle, kind: Kind, q: QueryString, a: seq<int>, b: seq<int>)
    ensures Steps(oracle, kind, q, a + b) == Steps(oracle, kind, q, a) + Steps(oracle, kind, q, b)
  {
    StepsAppendLeft(oracle, kind, q, a, b);
    StepsAppendRight(oracle, kind, q, a, b);
    AppendPointwise(Steps(oracle, kind, q, a + b), Steps(oracle, kind, q, a), Steps(oracle, kind, q, b));
  }

  lemma StepsAppendLeft(oracle: Oracle, kind: Kind, q: QueryString, a: seq<int>, b: seq<int>)
    ensures forall i :: 0 <= i < |a| ==> Steps(oracle, kind, q, a + b)[i] == Steps(oracle, kind, q, a)[i]
  {
    forall i | 0 <= i < |a|
      ensures Steps(oracle, kind, q, a + b)[i] == Steps(oracle, kind, q, a)[i]
    {
      StepsSamePage(oracle, kind, q, a + b, i, a, i);
    }
  }

  lemma StepsAppendRight(oracle: Oracle, kind: Kind, q: QueryString, a: seq<int>, b: seq<int>)
    ensures forall i :: 0 <= i < |b| ==>
              Steps(oracle, kind, q, a + b)[|a| + i] == Steps(oracle, kind, q, b)[i]
  {
    forall i | 0 <= i < |b|
      ensures Steps(oracle, kind, q, a + b)[|a| + i] == Steps(oracle, kind, q, b)[i]
    {
      StepsSamePage(oracle, kind, q, a + b, |a| + i, b, i);
    }
  }

  /** A sequence that agrees with `left` and then with `right`, and is no longer, is their
      concatenation. */
  lemma AppendPointwise<T>(whole: seq<T>, left: seq<T>, right: seq<T>)
    requires |whole| == |left| + |right|
    requires forall i :: 0 <= i < |left| ==> whole[i] == left[i]
    requires forall i :: 0 <= i < |right| ==> whole[|left| + i] == right[i]
    ensures whole == left + right
  {
    forall i | 0 <= i < |whole|
      ensures whole[i] == (left + right)[i]
    {
      if i >= |left| {
        assert whole[|left| + (i - |left|)] == right[i - |left|];
      }
    }
  }

  /** Request `i` is the caller's query with page `i`. */
  lemma {:induction false} PageRequestsAt(q: QueryString, pages: seq<int>, i: nat)
    requires i < |pages|
    ensures PageRequests(q, pages)[i] == WithPage(q, pages[i])
  {
    if i < |pages| - 1 {
      PageRequestsAt(q, pages[..|pages| - 1], i);
    }
  }

  /** Run `i` is the worker over chunk `i`. */
  lemma {:induction false} RunsAt(oracle: Oracle, kind: Kind, q: QueryString, chunks: seq<seq<int>>, i: nat)
    requires i < |chunks|
    ensures Runs(oracle, kind, q, chunks)[i] == ChunkEmit(oracle, kind, q, chunks[i])
  {
    if i > 0 {
      RunsAt(oracle, kind, q, chunks[1..], i - 1);
    }
  }

  // ---------------------------------------------------------------------------------------------
  // One page

  /** Once a fault stops a page, the items after it change nothing. */
  lemma {:induction false} CollectStops(results: seq<Result<Record, Error>>, n: nat, m: nat)
    requires n <= m <= |results| && Collect(results, n).error.Some?
    ensures Collect(results, m) == Collect(results, n)
    decreases m
  {
    if n < m {
      CollectStops(results, n, m - 1);
    }
  }

  /** The first `n` items go through exactly when each of them normalized; then there is one
      record per item, record `i` being item `i`'s. */
  lemma {:induction false} CollectSucceeds(results: seq<Result<Record, Error>>, n: nat)
    requires n <= |results|
    ensures Collect(results, n).error == None <==> forall i :: 0 <= i < n ==> results[i].Ok?
    ensures Collect(results, n).error == None ==>
              && |Collect(results, n).records| == n
              && forall i :: 0 <= i < n ==> results[i] == Ok(Collect(results, n).records[i])
  {
    if n > 0 {
      CollectSucceeds(results, n - 1);
      if Collect(results, n - 1).error.Some? {
        var i :| 0 <= i < n - 1 && !results[i].Ok?;
      }
    }
  }

  /** A fault stops the page at the first item that fails: every item before it went through,
      their records stay, and the fault is that item's. */
  lemma {:induction false} CollectFirstFault(results: seq<Result<Record, Error>>, n: nat)
    returns (k: nat)
    requires n <= |results| && Collect(results, n).error.Some?
    ensures k < n && results[k].Err?
    ensures Collect(results, n).error == Some(results[k].error)
    ensures forall i :: 0 <= i < k ==> results[i].Ok?
    ensures Collect(results, n).records == Collect(results, k).records
  {
    if Collect(results, n - 1).error.Some? {
      k := CollectFirstFault(results, n - 1);
    } else {
      k := n - 1;
      CollectSucceeds(results, n - 1);
    }
  }

  /** Every record comes from an item that normalized to it. */
  lemma {:induction false} CollectFrom(results: seq<Result<Record, Error>>, n: nat, r: Record)
    requires n <= |results| && r in Collect(results, n).records
    ensures exists i :: 0 <= i < n && results[i] == Ok(r)
  {
    var before := Collect(results, n - 1);
    if r in before.records {
      CollectFrom(results, n - 1, r);
    }
  }

  /** A page gets through its items exactly when every item normalizes. */
  lemma PageEmitSucceeds(kind: Kind, items: seq<Dict>)
    ensures PageEmit(kind, items).error == None <==>
              forall i :: 0 <= i < |items| ==> Normalize(kind, items[i]).Ok?
  {
    CollectSucceeds(Normalized(kind, items), |items|);
    forall i | 0 <= i < |items|
      ensures Normalized(kind, items)[i] == Normalize(kind, items[i])
    {
      NormalizedAt(kind, items, i);
    }
  }

  /** A page that gets through its items emits one record per item, record `i` being item `i`
      normalized; items with equal keys stay separate records. */
  lemma PageEmitRecords(kind: Kind, items: seq<Dict>)
    requires PageEmit(kind, items).error == None
    ensures |PageEmit(kind, items).records| == |items|
    ensures forall i :: 0 <= i < |items| ==>
              Normalize(kind, items[i]) == Ok(PageEmit(kind, items).records[i])
  {
    CollectSucceeds(Normalized(kind, items), |items|);
    forall i | 0 <= i < |items|
      ensures Normalized(kind, items)[i] == Normalize(kind, items[i])
    {
      NormalizedAt(kind, items, i);
    }
  }

  /** Every record a page emits, before a fault or without one, has its identity fields removed. */
  lemma PageEmitIdentityRemoved(kind: Kind, items: seq<Dict>)
    ensures forall r :: r in PageEmit(kind, items).records ==> IdentityRemoved(kind, r)
  {
    var results := Normalized(kind, items);
    forall r | r in PageEmit(kind, items).records
      ensures IdentityRemoved(kind, r)
    {
      CollectFrom(results, |items|, r);
      var i :| 0 <= i < |items| && results[i] == Ok(r);
      NormalizedAt(kind, items, i);
      NormalizeRemovesIdentity(kind, items[i]);
    }
  }

  /** A page that goes through sends one request and emits one record per item. */
  lemma PageStepComplete(oracle: Oracle, kind: Kind, q: QueryString, page: int)
    requires PageStep(oracle, kind, q, page).error == None
    ensures PageStep(oracle, kind, q, page).requests == [WithPage(q, page)]
    ensures |PageStep(oracle, kind, q, page).records| == PageItems(oracle, q, page)
  {
    var response := oracle(WithPage(q, page));
    assert response.Some?;
    PageEmitRecords(kind, response.value.items);
  }

  /** A page that goes through queues, for each of its items in order, that item normalized. */
  lemma PageStepRecords(oracle: Oracle, kind: Kind, q: QueryString, page: int)
    requires PageStep(oracle, kind, q, page).error == None
    ensures NormalizesTo(kind, ItemsOn(oracle, q, page), PageStep(oracle, kind, q, page).records)
  {
    var response := oracle(WithPage(q, page));
    assert response.Some?;
    PageEmitRecords(kind, response.value.items);
  }

  /** A page goes through exactly when it is fine. */
  lemma PageStepSucceeds(oracle: Oracle, kind: Kind, q: QueryString, page: int)
    ensures PageStep(oracle, kind, q, page).error == None <==> PageOk(oracle, kind, q, page)
  {
    var response := oracle(WithPage(q, page));
    if response.Some? {
      PageEmitSucceeds(kind, response.value.items);
    }
  }

  // ---------------------------------------------------------------------------------------------
  // One worker

  lemma ThenAssociative(x: ChunkRun, y: ChunkRun, z: ChunkRun)
    ensures Then(Then(x, y), z) == Then(x, Then(y, z))
  {
    if x.error == None && y.error == None {
      assert (x.records + y.records) + z.records == x.records + (y.records + z.records);
      assert (x.requests + y.requests) + z.requests == x.requests + (y.requests + z.requests);
    }
  }

  /** A worker is done after `i` pages when it has run out of pages or a fault stopped it. */
  lemma ChunkEmitDone(oracle: Oracle, kind: Kind, q: QueryString, pages: seq<int>, i: nat)
    requires i <= |pages|
    requires i == |pages| || Chain(Steps(oracle, kind, q, pages), i).error.Some?
    ensures ChunkEmit(oracle, kind, q, pages) == Chain(Steps(oracle, kind, q, pages), i)
  {
    if i < |pages| {
      ChainStops(Steps(oracle, kind, q, pages), i, |pages|);
    }
  }

  /** Once a fault stops a worker, the pages after it change nothing. */
  lemma {:induction false} ChainStops(steps: seq<ChunkRun>, n: nat, m: nat)
    requires n <= m <= |steps| && Chain(steps, n).error.Some?
    ensures Chain(steps, m) == Chain(steps, n)
    decreases m
  {
    if n < m {
      ChainStops(steps, n, m - 1);
    }
  }

  /** Steps beyond the first `n` do not affect the first `n`. */
  lemma {:induction false} ChainPrefix(s: seq<ChunkRun>, t: seq<ChunkRun>, n: nat)
    requires n <= |s|
    ensures Chain(s + t, n) == Chain(s, n)
  {
    if n > 0 {
      ChainPrefix(s, t, n - 1);
      assert (s + t)[n - 1] == s[n - 1];
    }
  }

  /** Running `s` and then the first `j` steps of `t` is running `s` to the end, then those. */
  lemma {:induction false} ChainAppend(s: seq<ChunkRun>, t: seq<ChunkRun>, j: nat)
    requires j <= |t|
    ensures Chain(s + t, |s| + j) == Then(Chain(s, |s|), Chain(t, j))
  {
    var a := Chain(s, |s|);
    if j == 0 {
      ChainPrefix(s, t, |s|);
      assert a.records + [] == a.records && a.requests + [] == a.requests;
    } else {
      ChainAppend(s, t, j - 1);
      assert (s + t)[|s| + j - 1] == t[j - 1];
      ThenAssociative(a, Chain(t, j - 1), t[j - 1]);
    }
  }

  /** A worker over `a + b` does what it does over `a`, then, unless that ended in a fault, what
      it does over `b`. */
  lemma ChunkEmitAppend(oracle: Oracle, kind: Kind, q: QueryString, a: seq<int>, b: seq<int>)
    ensures ChunkEmit(oracle, kind, q, a + b) ==
              Then(ChunkEmit(oracle, kind, q, a), ChunkEmit(oracle, kind, q, b))
  {
    StepsAppend(oracle, kind, q, a, b);
    ChainOfAppend(Steps(oracle, kind, q, a), Steps(oracle, kind, q, b));
  }

  /** Running all of `s + t` is running all of `s`, then all of `t`. */
  lemma ChainOfAppend(s: seq<ChunkRun>, t: seq<ChunkRun>)
    ensures Chain(s + t, |s + t|) == Then(Chain(s, |s|), Chain(t, |t|))
  {
    ChainAppend(s, t, |t|);
  }

  /** The first `n` steps go through exactly when each of them does. */
  lemma {:induction false} ChainSucceeds(steps: seq<ChunkRun>, n: nat)
    requires n <= |steps|
    ensures Chain(steps, n).error == None <==> forall i :: 0 <= i < n ==> steps[i].error == None
  {
    if n > 0 {
      ChainSucceeds(steps, n - 1);
      if Chain(steps, n - 1).error.Some? {
        var i :| 0 <= i < n - 1 && steps[i].error != None;
      }
    }
  }

  /** Every record of a worker comes from one of its pages. */
  lemma {:induction false} ChainFrom(steps: seq<ChunkRun>, n: nat, r: Record)
    requires n <= |steps| && r in Chain(steps, n).records
    ensures exists i :: 0 <= i < n && r in steps[i].records
  {
    var before := Chain(steps, n - 1);
    if r in before.records {
      ChainFrom(steps, n - 1, r);
    }
  }

  /** When the first `n` pages go through, the worker has sent one request per page, each the
      caller's query with that page, and emitted one record per item on them. */
  lemma {:induction false} ChainComplete(oracle: Oracle, kind: Kind, q: QueryString,
                                         pages: seq<int>, n: nat)
    requires n <= |pages|
    requires Chain(Steps(oracle, kind, q, pages), n).error == None
    ensures var run := Chain(Steps(oracle, kind, q, pages), n);
            && run.requests == PageRequests(q, pages[..n])
            && |run.records| == ItemCount(oracle, q, pages[..n])
  {
    if n > 0 {
      PrefixSnoc(oracle, q, pages, n);
      ChainCompleteStep(oracle, kind, q, pages, n);
      ChainComplete(oracle, kind, q, pages, n - 1);
    }
  }

  /** The requests and items over the first `n` pages are those over the first `n - 1`, then
      page `n`'s. */
  lemma PrefixSnoc(oracle: Oracle, q: QueryString, pages: seq<int>, n: nat)
    requires 0 < n <= |pages|
    ensures PageRequests(q, pages[..n]) == PageRequests(q, pages[..n - 1]) + [WithPage(q, pages[n - 1])]
    ensures ItemCount(oracle, q, pages[..n]) == ItemCount(oracle, q, pages[..n - 1]) + PageItems(oracle, q, pages[n - 1])
  {
    assert pages[..n][..n - 1] == pages[..n - 1];
  }

  /** A worker that got through page `n` got through the pages before it, and page `n` added its
      one request and one record per item. */
  lemma ChainCompleteStep(oracle: Oracle, kind: Kind, q: QueryString, pages: seq<int>, n: nat)
    requires 0 < n <= |pages|
    requires Chain(Steps(oracle, kind, q, pages), n).error == None
    ensures var steps := Steps(oracle, kind, q, pages);
            var before, after := Chain(steps, n - 1), Chain(steps, n);
            && before.error == None
            && after.requests == before.requests + [WithPage(q, pages[n - 1])]
            && |after.records| == |before.records| + PageItems(oracle, q, pages[n - 1])
  {
    StepsAt(oracle, kind, q, pages, n - 1);
    PageStepComplete(oracle, kind, q, pages[n - 1]);
  }

  /** A worker that gets through all its pages sends exactly one request per page, each the
      caller's query with that page, and emits one record per item on those pages. */
  lemma ChunkEmitComplete(oracle: Oracle, kind: Kind, q: QueryString, pages: seq<int>)
    requires ChunkEmit(oracle, kind, q, pages).error == None
    ensures ChunkEmit(oracle, kind, q, pages).requests == PageRequests(q, pages)
    ensures |ChunkEmit(oracle, kind, q, pages).records| == ItemCount(oracle, q, pages)
  {
    ChainComplete(oracle, kind, q, pages, |pages|);
    assert pages[..|pages|] == pages;
  }

  /** A worker that got through its first `n` pages queued, for each item on them in page order,
      that item normalized. */
  lemma {:induction false} ChainRecords(oracle: Oracle, kind: Kind, q: QueryString,
                                        pages: seq<int>, n: nat)
    requires n <= |pages|
    requires Chain(Steps(oracle, kind, q, pages), n).error == None
    ensures NormalizesTo(kind, ItemsOver(oracle, q, pages[..n]), Chain(Steps(oracle, kind, q, pages), n).records)
  {
    if n == 0 {
      assert pages[..0] == [];
    } else {
      var page := pages[n - 1];
      ItemsSnoc(oracle, q, pages, n);
      ChainRecordsStep(oracle, kind, q, pages, n);
      ChainRecords(oracle, kind, q, pages, n - 1);
      PageStepRecords(oracle, kind, q, page);
      NormalizesToAppend(kind, ItemsOver(oracle, q, pages[..n - 1]),
                         Chain(Steps(oracle, kind, q, pages), n - 1).records,
                         ItemsOn(oracle, q, page), PageStep(oracle, kind, q, page).records);
    }
  }

  lemma ItemsSnoc(oracle: Oracle, q: QueryString, pages: seq<int>, n: nat)
    requires 0 < n <= |pages|
    ensures ItemsOver(oracle, q, pages[..n]) == ItemsOver(oracle, q, pages[..n - 1]) + ItemsOn(oracle, q, pages[n - 1])
  {
    assert pages[..n][..n - 1] == pages[..n - 1];
  }

  /** A worker that got through page `n` got through the pages before it, and page `n` went
      through and added its records after theirs. */
  lemma ChainRecordsStep(oracle: Oracle, kind: Kind, q: QueryString, pages: seq<int>, n: nat)
    requires 0 < n <= |pages|
    requires Chain(Steps(oracle, kind, q, pages), n).error == None
    ensures var steps := Steps(oracle, kind, q, pages);
            var step := PageStep(oracle, kind, q, pages[n - 1]);
            && Chain(steps, n - 1).error == None && step.error == None
            && Chain(steps, n).records == Chain(steps, n - 1).records + step.records
  {
    StepsAt(oracle, kind, q, pages, n - 1);
  }

  /** A worker that gets through its chunk queues, for each item on its pages in page order, that
      item normalized: one record per item, each at the item's position. */
  lemma ChunkEmitRecords(oracle: Oracle, kind: Kind, q: QueryString, pages: seq<int>)
    requires ChunkEmit(oracle, kind, q, pages).error == None
    ensures NormalizesTo(kind, ItemsOver(oracle, q, pages), ChunkEmit(oracle, kind, q, pages).records)
  {
    ChainRecords(oracle, kind, q, pages, |pages|);
    assert pages[..|pages|] == pages;
  }

  /** A worker gets through its chunk exactly when every page of it is fine. */
  lemma ChunkEmitSucceeds(oracle: Oracle, kind: Kind, q: QueryString, pages: seq<int>)
    ensures ChunkEmit(oracle, kind, q, pages).error == None <==>
              forall p :: p in pages ==> PageOk(oracle, kind, q, p)
  {
    var steps := Steps(oracle, kind, q, pages);
    ChainSucceeds(steps, |pages|);
    forall i | 0 <= i < |pages|
      ensures steps[i].error == None <==> PageOk(oracle, kind, q, pages[i])
    {
      StepsAt(oracle, kind, q, pages, i);
      PageStepSucceeds(oracle, kind, q, pages[i]);
    }
  }

  /** Every record a worker emits has its identity fields removed. */
  lemma ChunkEmitIdentityRemoved(oracle: Oracle, kind: Kind, q: QueryString, pages: seq<int>)
    ensures forall r :: r in ChunkEmit(oracle, kind, q, pages).records ==> IdentityRemoved(kind, r)
  {
    var steps := Steps(oracle, kind, q, pages);
    forall r | r in ChunkEmit(oracle, kind, q, pages).records
      ensures IdentityRemoved(kind, r)
    {
      ChainFrom(steps, |pages|, r);
      var i :| 0 <= i < |pages| && r in steps[i].records;
      StepsAt(oracle, kind, q, pages, i);
      var response := oracle(WithPage(q, pages[i]));
      PageEmitIdentityRemoved(kind, response.value.items);
    }
  }

  // ---------------------------------------------------------------------------------------------
  // All workers

  /** When none of the first `n` workers fails, their merge emits the same records and sends the
      same requests as running them one after another as a single worker. */
  lemma {:induction false} MergeNoFailure(runs: seq<ChunkRun>, n: nat)
    requires n <= |runs| && Merge(runs, n).failures == []
    ensures Chain(runs, n) == ChunkRun(Merge(runs, n).records, Merge(runs, n).requests, None)
  {
    if n > 0 {
      MergeNoFailure(runs, n - 1);
    }
  }

  /** At most one failure per worker, and none exactly when no worker fails. */
  lemma {:induction false} MergeSucceeds(runs: seq<ChunkRun>, n: nat)
    requires n <= |runs|
    ensures |Merge(runs, n).failures| <= n
    ensures Merge(runs, n).failures == [] <==> forall i :: 0 <= i < n ==> runs[i].error == None
  {
    if n > 0 {
      MergeSucceeds(runs, n - 1);
    }
  }

  /** Every merged record comes from one of the workers. */
  lemma {:induction false} MergeFrom(runs: seq<ChunkRun>, n: nat, r: Record)
    requires n <= |runs| && r in Merge(runs, n).records
    ensures exists i :: 0 <= i < n && r in runs[i].records
  {
    if r in Merge(runs, n - 1).records {
      MergeFrom(runs, n - 1, r);
    }
  }

  /** One worker over the pages of the first `n` chunks in order does what those `n` workers do
      one after another. */
  lemma {:induction false} ChunkEmitFlatten(oracle: Oracle, kind: Kind, q: QueryString,
                                            chunks: seq<seq<int>>, n: nat)
    requires n <= |chunks|
    ensures ChunkEmit(oracle, kind, q, Flatten(chunks[..n])) == Chain(Runs(oracle, kind, q, chunks), n)
  {
    if n == 0 {
      assert chunks[..0] == [];
    } else {
      ChunkEmitFlatten(oracle, kind, q, chunks, n - 1);
      assert chunks[..n][..n - 1] == chunks[..n - 1];
      ChunkEmitAppend(oracle, kind, q, Flatten(chunks[..n - 1]), chunks[n - 1]);
      RunsAt(oracle, kind, q, chunks, n - 1);
    }
  }

  /** When no worker fails, running the chunks one after another emits the same records and sends
      the same requests as one worker over all their pages in order. */
  lemma MergeChunksNoFailure(oracle: Oracle, kind: Kind, q: QueryString, chunks: seq<seq<int>>)
    requires MergeChunks(oracle, kind, q, chunks).failures == []
    ensures var whole := ChunkEmit(oracle, kind, q, Flatten(chunks));
            && whole.error == None
            && MergeChunks(oracle, kind, q, chunks).records == whole.records
            && MergeChunks(oracle, kind, q, chunks).requests == whole.requests
  {
    MergeNoFailure(Runs(oracle, kind, q, chunks), |chunks|);
    ChunkEmitFlatten(oracle, kind, q, chunks, |chunks|);
    assert chunks[..|chunks|] == chunks;
  }

  /** At most one failure per worker, and none exactly when every page of every chunk is fine. */
  lemma MergeChunksSucceeds(oracle: Oracle, kind: Kind, q: QueryString, chunks: seq<seq<int>>)
    ensures |MergeChunks(oracle, kind, q, chunks).failures| <= |chunks|
    ensures MergeChunks(oracle, kind, q, chunks).failures == [] <==>
              forall p :: p in Flatten(chunks) ==> PageOk(oracle, kind, q, p)
  {
    var runs := Runs(oracle, kind, q, chunks);
    MergeSucceeds(runs, |chunks|);
    forall i | 0 <= i < |chunks|
      ensures runs[i].error == None <==> forall p :: p in chunks[i] ==> PageOk(oracle, kind, q, p)
    {
      RunsAt(oracle, kind, q, chunks, i);
      ChunkEmitSucceeds(oracle, kind, q, chunks[i]);
    }
    forall p
      ensures p in Flatten(chunks) <==> exists i :: 0 <= i < |chunks| && p in chunks[i]
    {
      FlattenMember(chunks, p);
    }
  }

  /** Every merged record has its identity fields removed. */
  lemma MergeChunksIdentityRemoved(oracle: Oracle, kind: Kind, q: QueryString, chunks: seq<seq<int>>)
    ensures forall r :: r in MergeChunks(oracle, kind, q, chunks).records ==> IdentityRemoved(kind, r)
  {
    var runs := Runs(oracle, kind, q, chunks);
    forall r | r in MergeChunks(oracle, kind, q, chunks).records
      ensures IdentityRemoved(kind, r)
    {
      MergeFrom(runs, |chunks|, r);
      var i :| 0 <= i < |chunks| && r in runs[i].records;
      RunsAt(oracle, kind, q, chunks, i);
      ChunkEmitIdentityRemoved(oracle, kind, q, chunks[i]);
    }
  }

  // ---------------------------------------------------------------------------------------------
  // The whole call

  /** A first response reporting no items gives `None` and no request beyond the first. */
  lemma GetInfoNoItems(oracle: Oracle, kind: Kind, q: QueryString, cpus: int)
    requires oracle(q).Some? && oracle(q).value.totalItems == 0
    ensures GetInfoSpec(oracle, kind, q, cpus) == Run(NoItems, [q])
  {
  }

  /** A call that returns a table got a first response with items, split its pages, ran every
      chunk, and put the queued records into the table under the first item's keys. */
  lemma GetInfoFetched(oracle: Oracle, kind: Kind, q: QueryString, cpus: int)
    requires GetInfoSpec(oracle, kind, q, cpus).outcome.Fetched?
    ensures oracle(q).Some? && oracle(q).value.items != []
    ensures var first := oracle(q).value;
            var chunks := PagePartition(first.numberOfPages, WorkerCount(first.numberOfPages, cpus));
            && chunks.Ok?
            && var merged := MergeChunks(oracle, kind, q, chunks.value);
               GetInfoSpec(oracle, kind, q, cpus) ==
                 Run(Fetched(Table(Keys(first.items[0]), merged.records), merged.failures),
                     [q] + merged.requests)
  {
  }

  /** When no worker fails, the table holds one row per item over pages `1..numberOfPages`, in page
      order and without merging equal keys; the requests are the first one and then one per page,
      each the caller's query with that page. None of this depends on the CPU count. */
  lemma GetInfoComplete(oracle: Oracle, kind: Kind, q: QueryString, cpus: int)
    requires GetInfoSpec(oracle, kind, q, cpus).outcome.Fetched?
    requires GetInfoSpec(oracle, kind, q, cpus).outcome.failures == []
    ensures oracle(q).Some? && oracle(q).value.numberOfPages >= 1
    ensures var pages := Range(1, oracle(q).value.numberOfPages);
            var whole := ChunkEmit(oracle, kind, q, pages);
            && whole.error == None
            && GetInfoSpec(oracle, kind, q, cpus).outcome.table.rows == whole.records
            && |GetInfoSpec(oracle, kind, q, cpus).outcome.table.rows| == ItemCount(oracle, q, pages)
            && GetInfoSpec(oracle, kind, q, cpus).requests == [q] + PageRequests(q, pages)
  {
    GetInfoFetched(oracle, kind, q, cpus);
    var first := oracle(q).value;
    var n := first.numberOfPages;
    var workers := WorkerCount(n, cpus);
    var chunks := PagePartition(n, workers).value;
    MergeChunksNoFailure(oracle, kind, q, chunks);
    ArraySplitFlatten(Range(1, n), workers);
    ChunkEmitComplete(oracle, kind, q, Range(1, n));
  }

  /** The columns are the keys of the first response's first item, in order. That item is never
      normalized, so its identity fields stay columns while no row carries them. */
  lemma GetInfoColumns(oracle: Oracle, kind: Kind, q: QueryString, cpus: int)
    requires GetInfoSpec(oracle, kind, q, cpus).outcome.Fetched?
    ensures oracle(q).Some? && oracle(q).value.items != []
    ensures var table := GetInfoSpec(oracle, kind, q, cpus).outcome.table;
            && table.columns == Keys(oracle(q).value.items[0])
            && (forall f :: f in IdentityFields(kind) && Get(oracle(q).value.items[0], f).Some? ==>
                  f in table.columns)
            && forall r :: r in table.rows ==> IdentityRemoved(kind, r)
  {
    var first := oracle(q).value;
    var n := first.numberOfPages;
    var workers := WorkerCount(n, cpus);
    var chunks := PagePartition(n, workers).value;
    MergeChunksIdentityRemoved(oracle, kind, q, chunks);
    forall f | f in IdentityFields(kind)
      ensures Get(first.items[0], f).Some? ==> f in Keys(first.items[0])
    {
      GetKeys(first.items[0], f);
    }
  }

  /** Over the pages `1..n`, the request for a page in range is sent once, in that page's place. */
  lemma RangeRequestsOnce(q: QueryString, n: nat, page: int)
    requires 1 <= page <= n
    ensures var requests := PageRequests(q, Range(1, n));
            && requests[page - 1] == WithPage(q, page)
            && forall i :: 0 <= i < n && requests[i] == WithPage(q, page) ==> i == page - 1
  {
    var pages := Range(1, n);
    PageRequestsAt(q, pages, page - 1);
    forall i | 0 <= i < n && PageRequests(q, pages)[i] == WithPage(q, page)
      ensures i == page - 1
    {
      PageRequestsAt(q, pages, i);
      WithPageInjective(q, i + 1, page);
    }
  }

  /** When no worker fails, every page `1..numberOfPages` is requested exactly once after the
      first request, in page order. */
  lemma GetInfoEachPageOnce(oracle: Oracle, kind: Kind, q: QueryString, cpus: int, page: int)
    requires GetInfoSpec(oracle, kind, q, cpus).outcome.Fetched?
    requires GetInfoSpec(oracle, kind, q, cpus).outcome.failures == []
    requires 1 <= page <= oracle(q).value.numberOfPages
    ensures var later := GetInfoSpec(oracle, kind, q, cpus).requests[1..];
            && |later| == oracle(q).value.numberOfPages
            && later[page - 1] == WithPage(q, page)
            && forall i :: 0 <= i < |later| && later[i] == WithPage(q, page) ==> i == page - 1
  {
    GetInfoComplete(oracle, kind, q, cpus);
    var n := oracle(q).value.numberOfPages;
    assert GetInfoSpec(oracle, kind, q, cpus).requests[1..] == PageRequests(q, Range(1, n));
    RangeRequestsOnce(q, n, page);
  }

  /** A call that reaches the table has no worker failure exactly when every page
      `1..numberOfPages` is fetched and every item on it normalizes. */
  lemma GetInfoNoFailureIff(oracle: Oracle, kind: Kind, q: QueryString, cpus: int)
    requires GetInfoSpec(oracle, kind, q, cpus).outcome.Fetched?
    ensures oracle(q).Some?
    ensures GetInfoSpec(oracle, kind, q, cpus).outcome.failures == [] <==>
              forall p :: 1 <= p <= oracle(q).value.numberOfPages ==> PageOk(oracle, kind, q, p)
    ensures |GetInfoSpec(oracle, kind, q, cpus).outcome.failures| <=
              WorkerCount(oracle(q).value.numberOfPages, cpus)
  {
    var n := oracle(q).value.numberOfPages;
    var workers := WorkerCount(n, cpus);
    var chunks := PagePartition(n, workers).value;
    assert GetInfoSpec(oracle, kind, q, cpus).outcome.failures ==
             MergeChunks(oracle, kind, q, chunks).failures;
    MergeChunksSucceeds(oracle, kind, q, chunks);
    ArraySplitFlatten(Range(1, n), workers);
    forall p
      ensures p in Range(1, n) <==> 1 <= p <= n
    {
      InRange(1, n, p);
    }
  }

  /** The table is refused exactly when some record has no name, and then with `UnnamedRow`;
      otherwise it has the given columns and every record as a row, in order. */
  lemma TabulateNamed(columns: seq<string>, rows: seq<Record>)
    ensures Tabulate(columns, rows).Ok? <==> forall r :: r in rows ==> r.key != Null
    ensures Tabulate(columns, rows).Ok? ==> Tabulate(columns, rows).value == Table(columns, rows)
    ensures Tabulate(columns, rows).Err? ==> Tabulate(columns, rows).error == UnnamedRow
  {
    var k := FirstUnnamed(rows);
    if k < |rows| {
      assert rows[k] in rows;
    } else {
      forall r | r in rows
        ensures r.key != Null
      {
        var i :| 0 <= i < |rows| && rows[i] == r;
      }
    }
  }

  /** When no worker fails, row `i` of the table is item `i` of pages `1..numberOfPages` taken in
      page order, normalized: every item gives exactly one row, keyed by its own identity. */
  lemma GetInfoRows(oracle: Oracle, kind: Kind, q: QueryString, cpus: int)
    requires GetInfoSpec(oracle, kind, q, cpus).outcome.Fetched?
    requires GetInfoSpec(oracle, kind, q, cpus).outcome.failures == []
    ensures oracle(q).Some?
    ensures NormalizesTo(kind, ItemsOver(oracle, q, Range(1, oracle(q).value.numberOfPages)),
                         GetInfoSpec(oracle, kind, q, cpus).outcome.table.rows)
  {
    GetInfoComplete(oracle, kind, q, cpus);
    ChunkEmitRecords(oracle, kind, q, Range(1, oracle(q).value.numberOfPages));
  }

  /** Every row of a returned table has a name: a record keyed `None` (an organization whose
      `name` is JSON `null`) makes the call fail instead. */
  lemma GetInfoNamedRows(oracle: Oracle, kind: Kind, q: QueryString, cpus: int)
    requires GetInfoSpec(oracle, kind, q, cpus).outcome.Fetched?
    ensures forall r :: r in GetInfoSpec(oracle, kind, q, cpus).outcome.table.rows ==> r.key != Null
  {
    var first := oracle(q).value;
    var chunks := PagePartition(first.numberOfPages, WorkerCount(first.numberOfPages, cpus)).value;
    TabulateNamed(Keys(first.items[0]), MergeChunks(oracle, kind, q, chunks).records);
  }

  /** Once the workers have run and the first page has an item, a record without a name among the
      queued ones fails the whole call with `UnnamedRow`. */
  lemma GetInfoUnnamed(oracle: Oracle, kind: Kind, q: QueryString, cpus: int, r: Record)
    requires oracle(q).Some? && oracle(q).value.totalItems != 0 && oracle(q).value.items != []
    requires var n := oracle(q).value.numberOfPages;
             var chunks := PagePartition(n, WorkerCount(n, cpus));
             chunks.Ok? && r in MergeChunks(oracle, kind, q, chunks.value).records && r.key == Null
    ensures GetInfoSpec(oracle, kind, q, cpus).outcome == Failed(UnnamedRow)
  {
    var first := oracle(q).value;
    var chunks := PagePartition(first.numberOfPages, WorkerCount(first.numberOfPages, cpus)).value;
    TabulateNamed(Keys(first.items[0]), MergeChunks(oracle, kind, q, chunks).records);
  }
}
