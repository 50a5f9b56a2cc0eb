/**
 * get_info as the source runs it: workers put records into a shared queue page by page, the
 * caller drains the queue into the table. The concurrent threads are run here one after another,
 * chunk 0 first; each method is proved to compute what module Fetch specifies.
 */
module Coordinator {
  import opened Wrappers
  import opened PyDict
  import opened Query
  import opened Split
  import opened Records
  import opened Fetch

  /** The `queue.Queue` the workers share: a FIFO of records. */
  class RecordQueue {
    var contents: seq<Record>

    constructor ()
      ensures contents == []
    {
      contents := [];
    }

    /** `q.put(record)`. */
    method Put(r: Record)
      modifies this
      ensures contents == old(contents) + [r]
    {
      contents := contents + [r];
    }

    /** `q.empty()`. */
    method Empty() returns (empty: bool)
      ensures empty <==> contents == []
    {
      empty := contents == [];
    }

    /** `q.get()` on a queue known to be non-empty: the oldest record leaves the queue. */
    method Get() returns (r: Record)
      requires contents != []
      modifies this
      ensures r == old(contents)[0] && contents == old(contents)[1..]
    {
      r := contents[0];
      contents := contents[1..];
    }
  }

  /** Lines 92-124, `thread_func(target, pages)`: for each page, request it with the caller's
      filters and that page, and put one record per item into the queue. A fault ends the worker;
      what it queued before stays queued. Returns the requests sent and the fault, if any. */
  method ThreadFunc(oracle: Oracle, kind: Kind, query: QueryString, pages: seq<int>,
                    target: RecordQueue)
    returns (requests: seq<QueryString>, failure: Option<Error>)
    modifies target
    ensures target.contents == old(target.contents) + ChunkEmit(oracle, kind, query, pages).records
    ensures requests == ChunkEmit(oracle, kind, query, pages).requests
    ensures failure == ChunkEmit(oracle, kind, query, pages).error
  {
    ghost var steps := Steps(oracle, kind, query, pages);
    ghost var start := target.contents;
    requests, failure := [], None;
    var i := 0;
    while i < |pages| && failure == None
      invariant 0 <= i <= |pages|
      invariant target.contents == start + Chain(steps, i).records
      invariant requests == Chain(steps, i).requests && failure == Chain(steps, i).error
    {
      var request;
      AppendAssociative(start, Chain(steps, i).records, steps[i].records);
      request, failure := FetchPage(oracle, kind, query, pages, i, target);
      requests := requests + [request];
      i := i + 1;
    }
    ChunkEmitDone(oracle, kind, query, pages, i);
  }

  lemma AppendAssociative<T>(a: seq<T>, b: seq<T>, c: seq<T>)
    ensures (a + b) + c == a + (b + c)
  {
  }

  /** Lines 103-124 for one page: request it with the caller's filters and this page, then queue
      its items' records. */
  method FetchPage(oracle: Oracle, kind: Kind, query: QueryString, pages: seq<int>, i: nat,
                   target: RecordQueue)
    returns (request: QueryString, failure: Option<Error>)
    requires i < |pages|
    modifies target
    ensures target.contents == old(target.contents) + Steps(oracle, kind, query, pages)[i].records
    ensures [request] == Steps(oracle, kind, query, pages)[i].requests
    ensures failure == Steps(oracle, kind, query, pages)[i].error
  {
    StepsAt(oracle, kind, query, pages, i);
    var page := pages[i];
    request := WithPage(query, page);
    var response := oracle(request);
    if response.None? {
      failure := Some(FetchFailed(page));
      return;
    }
    failure := PutPage(kind, response.value.items, target);
  }

  /** Lines 107-124, the loop over one page's items: normalize each and put it into the queue,
      stopping at the first fault. */
  method PutPage(kind: Kind, items: seq<Dict>, target: RecordQueue) returns (failure: Option<Error>)
    modifies target
    ensures target.contents == old(target.contents) + PageEmit(kind, items).records
    ensures failure == PageEmit(kind, items).error
  {
    ghost var results := Normalized(kind, items);
    ghost var start := target.contents;
    ghost var emitted: seq<Record> := [];
    failure := None;
    var j := 0;
    while j < |items| && failure == None
      invariant 0 <= j <= |items|
      invariant target.contents == start + emitted
      invariant Collect(results, j) == PageRun(emitted, failure)
    {
      NormalizedAt(kind, items, j);
      match Normalize(kind, items[j]) {
        case Err(e) =>
          failure := Some(e);
        case Ok(record) =>
          target.Put(record);
          AppendAssociative(start, emitted, [record]);
          emitted := emitted + [record];
      }
      j := j + 1;
    }
    if j < |items| {
      CollectStops(results, j, |items|);
    }
  }

  /** Lines 161-163: a table with the given columns, then every queued record appended in queue
      order until the queue is empty. The first record named `None` is refused, which ends the
      drain; the records after it stay queued. */
  method Drain(columns: seq<string>, queue: RecordQueue) returns (result: Result<Table, Error>)
    modifies queue
    ensures result == Tabulate(columns, old(queue.contents))
    ensures var k := FirstUnnamed(old(queue.contents));
            queue.contents == if k < |old(queue.contents)| then old(queue.contents)[k + 1..] else []
  {
    ghost var all := queue.contents;
    ghost var i := 0;
    var table := Table(columns, []);
    var empty := queue.Empty();
    while !empty
      invariant i <= |all| && i <= FirstUnnamed(all)
      invariant empty <==> queue.contents == []
      invariant table == Table(columns, all[..i]) && queue.contents == all[i..]
      decreases |queue.contents|
    {
      var record := queue.Get();
      if record.key == Null {
        result := Err(UnnamedRow);
        return;
      }
      assert all[..i + 1] == all[..i] + [record];
      table := table.(rows := table.rows + [record]);
      i := i + 1;
      empty := queue.Empty();
    }
    assert all[..i] == all;
    result := Ok(table);
  }

  /** Lines 137 and 145-157: one worker per chunk over a fresh shared queue, run to completion.
      Returns the queue, the requests the workers sent and the faults that ended workers early. */
  method StartAndJoin(oracle: Oracle, kind: Kind, query: QueryString, chunks: seq<seq<int>>)
    returns (queue: RecordQueue, sent: seq<QueryString>, failures: seq<Error>)
    ensures fresh(queue)
    ensures MergeRun(queue.contents, sent, failures) == MergeChunks(oracle, kind, query, chunks)
  {
    ghost var runs := Runs(oracle, kind, query, chunks);
    queue := new RecordQueue();
    sent, failures := [], [];
    var i := 0;
    while i < |chunks|
      invariant 0 <= i <= |chunks|
      invariant fresh(queue)
      invariant Merge(runs, i).records == queue.contents
      invariant Merge(runs, i).requests == sent
      invariant Merge(runs, i).failures == failures
    {
      RunsAt(oracle, kind, query, chunks, i);
      var chunkRequests, failure := ThreadFunc(oracle, kind, query, chunks[i], queue);
      sent := sent + chunkRequests;
      failures := failures + if failure.Some? then [failure.value] else [];
      i := i + 1;
    }
  }

  /** Lines 77-165, `get_info(obj_type, querystring)` with `cpu_count()` passed in as `cpus`. */
  method GetInfo(oracle: Oracle, kind: Kind, query: QueryString, cpus: int)
    returns (outcome: Outcome, requests: seq<QueryString>)
    ensures Run(outcome, requests) == GetInfoSpec(oracle, kind, query, cpus)
    ensures oracle(query).Some? && oracle(query).value.totalItems == 0 ==>
              outcome == NoItems && requests == [query]
    ensures outcome.Fetched? && outcome.failures == [] ==>
              |outcome.table.rows| == ItemCount(oracle, query, Range(1, oracle(query).value.numberOfPages))
  {
    requests := [query];
    var first := oracle(query);
    if first.None? {
      outcome := Failed(FirstFetchFailed);
      return;
    }
    if first.value.totalItems == 0 {
      outcome := NoItems;
      return;
    }
    var pages := first.value.numberOfPages;
    var workers := WorkerCount(pages, cpus);
    var partition := PagePartition(pages, workers);
    if partition.Err? {
      outcome := Failed(BadSections(workers));
      return;
    }
    var chunks := partition.value;
    var queue, sent, failures := StartAndJoin(oracle, kind, query, chunks);
    requests := [query] + sent;
    if first.value.items == [] {
      outcome := Failed(NoSampleItem);
      return;
    }
    var drained := Drain(Keys(first.value.items[0]), queue);
    match drained {
      case Err(e) =>
        outcome := Failed(e);
      case Ok(table) =>
        outcome := Fetched(table, failures);
        if failures == [] {
          GetInfoComplete(oracle, kind, query, cpus);
        }
    }
  }

  /** Lines 168-201, `get_org`: the organization query string, then get_info. */
  method GetOrg(oracle: Oracle, cpus: int, sinceTime: int, query: Option<string>,
                name: Option<string>, domainName: Option<string>, locations: Option<string>,
                orgTypes: Option<string>, page: Param)
    returns (outcome: Outcome, requests: seq<QueryString>)
    ensures var q := OrgQuery(sinceTime, query, name, domainName, locations, orgTypes, page);
            Run(outcome, requests) == GetInfoSpec(oracle, Organizations, q, cpus)
    ensures |requests| >= 1 && requests[0].Keys == OrgKeys
  {
    var q := OrgQuery(sinceTime, query, name, domainName, locations, orgTypes, page);
    outcome, requests := GetInfo(oracle, Organizations, q, cpus);
  }

  /** Lines 204-236, `get_ppl`: the people query string, then get_info. */
  method GetPpl(oracle: Oracle, cpus: int, sinceTime: int, query: Option<string>,
                name: Option<string>, socials: Option<string>, locations: Option<string>,
                personType: Option<string>, page: Param)
    returns (outcome: Outcome, requests: seq<QueryString>)
    ensures var q := PplQuery(sinceTime, query, name, socials, locations, personType, page);
            Run(outcome, requests) == GetInfoSpec(oracle, People, q, cpus)
    ensures |requests| >= 1 && requests[0].Keys == PplKeys
  {
    var q := PplQuery(sinceTime, query, name, socials, locations, personType, page);
    outcome, requests := GetInfo(oracle, People, q, cpus);
  }
}
