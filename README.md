# cbapi fetch coordinator in Dafny

A model of the core of `cbapi`, a thin Python client for a paginated search API over
organizations and people. It covers three parts:

- `get_info(obj_type, querystring)`. It sends one request to learn the number of items and
  pages, and returns `None` when there are no items. Otherwise it splits the page range `1..N`
  over `min(N, cpu_count())` worker threads with `np.array_split`. Each worker requests its pages
  with the caller's filters and its own `page`. It turns every item's `properties` dict into a
  record keyed by the item's identity and puts it into a shared queue. The caller then drains
  the queue into a DataFrame whose columns are the keys of the first item.
- `get_org` and `get_ppl`. Each builds the fixed seven-key query string for its kind and calls
  `get_info`.
- The numpy `array_split` arithmetic the partition relies on.

Modules, in dependency order:

| file | module | what it holds |
|---|---|---|
| `wrappers.dfy` | `Wrappers` | `Option` and `Result` |
| `pydict.dfy` | `PyDict` | JSON scalars and insertion-ordered dicts (`Keys`, `Get`, `Pop`) |
| `decimal.dfy` | `Decimal` | `str(n)` on integers and its inverse `int(s)` |
| `query.dfy` | `Query` | the query strings of `get_org` / `get_ppl` and the per-page copy |
| `records.dfy` | `Records` | item normalization (lines 109-119) and the fault kinds |
| `split.dfy` | `Split` | the worker count and `np.array_split` over the page range |
| `fetch.dfy` | `Fetch` | what `get_info` computes, as functions, and the properties proved about it |
| `coordinator.dfy` | `Coordinator` | the queue class, `thread_func`, `get_info`, `get_org`, `get_ppl` as methods proved against `Fetch` |

An oracle stands in for the HTTP call. It is a function from query string to response, or to
`None` when the status is not 200. Each method in `Coordinator` is proved to compute exactly
what the `Fetch` function of the same step computes. The properties are proved about those
functions.

How faults end a call, as the code behaves:

- A fault in a worker thread is an uncaught exception: it ends only that thread, and the records
  it already queued stay queued. The caller still joins the threads and returns the table. The
  model returns `Fetched(table, failures)`, with one failure per worker that ended early.
- A failed first request (`None["data"]`), `array_split` with zero sections, `items[0]` on an
  empty first page, and `DataFrame.append` on a record named `None` raise in the calling thread.
  The model returns `Failed(error)`.
- The code takes `min(number_of_pages, cpu_count())` with no floor of 1, so `number_of_pages == 0`
  with items present reaches `array_split` with zero sections.

## Definitions

The functions that model the source carry no contract of their own beyond lengths; the lemmas
named after each state what they compute.

- `PyDict.Keys`, `PyDict.Get`, `PyDict.Pop` (cbapi/cbapi.py:110-117, 160): `list(d.keys())`,
  `d[k]` and `d.pop(k, None)`; stated by `PyDict.KeysAt`, `PyDict.GetKeys`, `PyDict.PopGet`.
- `Decimal.IntToDecimal` (cbapi/cbapi.py:103, 193): `str(n)`; stated by
  `Decimal.ParseIntToDecimal`, `Decimal.NatToDecimalDigits`, `Decimal.IntToDecimalInjective`.
- `Query.WithPage` (cbapi/cbapi.py:103): `{**querystring, "page": str(page)}`; stated by
  `Query.WithPageKeepsFilters`, `Query.WithPageReadsBack`, `Query.WithPageInjective`.
- `Records.Normalize` (cbapi/cbapi.py:110-117): an item to its record or fault; stated by
  `Records.NormalizeOrganization`, `Records.NormalizePerson`, `Records.NormalizeRemovesIdentity`.
- `Split.PagePartition` (cbapi/cbapi.py:149): `np.array_split(range(1, n + 1), workers)`; stated
  by `Split.ArraySplit`, `Split.ArraySplitPiece`, `Split.ArraySplitFlatten`,
  `Split.PagePartitionExactlyOnce`.
- `Fetch.PageEmit` (cbapi/cbapi.py:107-124), `Fetch.PageStep` (101-124), `Fetch.ChunkEmit`
  (92-124), `Fetch.MergeChunks` (145-157), `Fetch.Tabulate` (160-163) and `Fetch.GetInfoSpec`
  (127-165): one page, one worker, all workers, the table and the whole call; stated by the
  `Fetch` lemmas below and met by the `Coordinator` methods.

## Model

| member | source | states |
|---|---|---|
| Split.WorkerCount | cbapi/cbapi.py:140-143 | the thread count is the smaller of the page count and the CPU count, and at least 1 when both are |
| Split.InRange | cbapi/cbapi.py:149 | `range(1, n + 1)` holds exactly the integers from 1 to n |
| Split.FlattenMember | cbapi/cbapi.py:149 | a page is in the concatenated chunks exactly when some chunk holds it |
| Split.EachExtrasDivMod | cbapi/cbapi.py:149 | `divmod(total, sections)`: total = sections * each + extras with extras < sections |
| Split.DivPointEnd | cbapi/cbapi.py:149 | the last division point of `array_split` is the length of the array |
| Split.DivPointMonotone | cbapi/cbapi.py:149 | division points never decrease |
| Split.CutBounds | cbapi/cbapi.py:149 | division points start at 0, end at the length, stay within it, and step by each section's size |
| Split.ArraySplitPiece | cbapi/cbapi.py:149 | with sections > 0, piece i is the slice between division points i and i+1, of the section's size |
| Split.ArraySplit | cbapi/cbapi.py:149 | `array_split` is a ValueError exactly when sections <= 0, and otherwise gives exactly `sections` pieces |
| Split.Piece | cbapi/cbapi.py:149 | piece i has the size of section i |
| Split.ArraySplitFlatten | cbapi/cbapi.py:149 | the pieces concatenated in order give the array back |
| Split.FlattenPrefix | cbapi/cbapi.py:149 | the first j pieces concatenated are the array up to division point j |
| Split.ArraySplitSizes | cbapi/cbapi.py:149 | piece sizes differ by at most one, larger pieces first, and none is empty when sections <= length |
| Split.SizePositive | cbapi/cbapi.py:149 | with no more sections than elements, every section holds at least one element |
| Split.PagePartitionContiguous | cbapi/cbapi.py:149 | chunk i is the run of consecutive page numbers after division point i |
| Split.InPiece | cbapi/cbapi.py:149 | page p is in chunk i exactly when it lies between division points i and i+1 |
| Split.PiecesDisjoint | cbapi/cbapi.py:149 | no page is in two different chunks |
| Split.PagesCovered | cbapi/cbapi.py:149 | a page is in some chunk exactly when it is between 1 and the page count |
| Split.PagePartitionExactlyOnce | cbapi/cbapi.py:149 | every page from 1 to the page count is in exactly one chunk, and no other number is in any |
| Split.Owner | cbapi/cbapi.py:149 | a page past division point `from` lies in the range of some chunk at or after `from` |
| PyDict.KeysAt | cbapi/cbapi.py:160 | `list(d.keys())` lists the keys in insertion order |
| PyDict.GetKeys | cbapi/cbapi.py:110-117 | `d[k]` exists exactly when k is among the keys, and then the entry is in the dict |
| PyDict.Pop | cbapi/cbapi.py:113 | `d.pop(k, None)` leaves every other key and removes k |
| PyDict.PopGet | cbapi/cbapi.py:113-117 | after `pop(k)`, k reads as absent, every other key reads as before, and the size drops by one exactly when k was present |
| Decimal.NatToDecimalDigits | cbapi/cbapi.py:103 | `str` of a natural number is a nonempty run of decimal digits with no leading zero |
| Decimal.ParseNatToDecimal | cbapi/cbapi.py:103 | reading the digits of n back gives n |
| Decimal.ParseIntToDecimal | cbapi/cbapi.py:193 | `int(str(n)) == n` for every integer, and the text of a non-negative number is all digits |
| Decimal.IntToDecimalInjective | cbapi/cbapi.py:103 | different integers never share a decimal text |
| Query.WithPageKeepsFilters | cbapi/cbapi.py:103 | the per-page request has the caller's keys plus `page`, and every other key keeps the caller's value |
| Query.WithPageReadsBack | cbapi/cbapi.py:103 | the `page` value sent is text that reads back as the page number |
| Query.WithPageInjective | cbapi/cbapi.py:103 | two different pages never produce the same request |
| Query.OrgQuery | cbapi/cbapi.py:193-199 | the organization query string has exactly its seven keys, `updated_since` reads back as the timestamp, and each filter is its argument or `None` |
| Query.PplQuery | cbapi/cbapi.py:228-234 | the people query string has exactly its seven keys, `updated_since` reads back as the timestamp, and each filter is its argument or `None` |
| Query.OrgPageRequest | cbapi/cbapi.py:103 | a worker's organization request keeps the seven keys and every filter, and only `page` changes |
| Query.PplPageRequest | cbapi/cbapi.py:103 | a worker's people request keeps the seven keys and every filter, and only `page` changes |
| Records.NormalizeOrganization | cbapi/cbapi.py:110-113 | an organization normalizes exactly when it has `name`; the key is that name, `name` is gone, and every other field keeps its value |
| Records.NormalizePerson | cbapi/cbapi.py:110-117 | a person normalizes exactly when both names exist and `+` accepts them; a missing field is reported by its name, the key of two strings is their concatenation, both names are gone and every other field keeps its value |
| Records.NormalizeRemovesIdentity | cbapi/cbapi.py:110-119 | a normalized record of either kind carries none of its identity fields |
| Records.NormalizesToAppend | cbapi/cbapi.py:107-122 | items normalized position by position in two runs stay so when the runs are put side by side |
| Records.PeopleKeysCollide | cbapi/cbapi.py:115 | two different people can get the same key, since the names are joined without a separator |
| Fetch.CollectStops | cbapi/cbapi.py:107-124 | once an item's fault stops a worker, later items add nothing |
| Fetch.CollectSucceeds | cbapi/cbapi.py:107-124 | a page adds no fault exactly when every item normalizes, and then it queues one record per item in item order |
| Fetch.CollectFirstFault | cbapi/cbapi.py:107-124 | a faulting page reports its first failing item, after queuing the records of the items before it |
| Fetch.CollectFrom | cbapi/cbapi.py:107-124 | every queued record comes from some item of the page |
| Fetch.PageEmitSucceeds | cbapi/cbapi.py:107-119 | a page's items queue without fault exactly when every item normalizes |
| Fetch.PageEmitRecords | cbapi/cbapi.py:107-122 | a page without fault queues one record per item, each the item normalized, in order |
| Fetch.PageEmitIdentityRemoved | cbapi/cbapi.py:107-122 | no record a page queues keeps an identity field |
| Fetch.PageStepComplete | cbapi/cbapi.py:101-122 | a page that succeeds sends one request, the filters with that page, and queues one record per item |
| Fetch.PageStepSucceeds | cbapi/cbapi.py:103-119 | a page succeeds exactly when its request succeeds and all its items normalize |
| Fetch.PageStepRecords | cbapi/cbapi.py:103-122 | a page that goes through queues, for each of its items in order, that item normalized |
| Fetch.StepsAt | cbapi/cbapi.py:101 | step i of a worker is page i of its chunk |
| Fetch.StepsAppend | cbapi/cbapi.py:101 | the steps over two runs of pages are the steps over each, in order |
| Fetch.ChainStops | cbapi/cbapi.py:101-124 | once a fault ends a worker, later pages add nothing |
| Fetch.ChunkEmitAppend | cbapi/cbapi.py:101-124 | a worker over `a + b` does `a`, then `b` only if `a` did not fault |
| Fetch.ChainSucceeds | cbapi/cbapi.py:101-124 | a worker ends without fault exactly when none of its pages faults |
| Fetch.ChainFrom | cbapi/cbapi.py:101-124 | every record a worker queues comes from one of its pages |
| Fetch.ChainComplete | cbapi/cbapi.py:101-122 | a worker without fault over its first n pages sends one request per page in order, and queues as many records as those pages have items |
| Fetch.ChunkEmitComplete | cbapi/cbapi.py:101-122 | a worker without fault sends one request per page in order, and queues as many records as its pages have items |
| Fetch.ChainRecords | cbapi/cbapi.py:101-122 | a worker without fault over its first n pages queued, for each item on them in page order, that item normalized |
| Fetch.ChunkEmitRecords | cbapi/cbapi.py:101-122 | a worker without fault queues exactly one record per item of its pages, each the item at the same position normalized |
| Fetch.ChunkEmitSucceeds | cbapi/cbapi.py:101-124 | a worker ends without fault exactly when every page of its chunk succeeds |
| Fetch.ChunkEmitIdentityRemoved | cbapi/cbapi.py:101-122 | no record a worker queues keeps an identity field |
| Fetch.MergeSucceeds | cbapi/cbapi.py:151-157 | there is at most one failure per worker, and none exactly when no worker faulted |
| Fetch.MergeFrom | cbapi/cbapi.py:151-157 | every queued record comes from one of the workers |
| Fetch.MergeNoFailure | cbapi/cbapi.py:151-157 | with no failures, all workers together queue what one worker over their pages in turn would |
| Fetch.ChunkEmitFlatten | cbapi/cbapi.py:149-157 | one worker over the first n chunks concatenated does what the first n workers do in turn |
| Fetch.MergeChunksNoFailure | cbapi/cbapi.py:149-157 | with no failures, the workers queue the records and send the requests of one worker over every page |
| Fetch.MergeChunksSucceeds | cbapi/cbapi.py:149-157 | there are no failures exactly when every page of every chunk succeeds, and never more failures than chunks |
| Fetch.MergeChunksIdentityRemoved | cbapi/cbapi.py:149-157 | no queued record keeps an identity field |
| Fetch.GetInfoNoItems | cbapi/cbapi.py:127-131 | with zero total items, the call returns `None` after the first request and sends nothing more |
| Fetch.GetInfoComplete | cbapi/cbapi.py:127-165 | with no failures, the rows are the records of every page 1..N in page order, as many as the pages have items, and the requests are the first query followed by one per page |
| Fetch.GetInfoColumns | cbapi/cbapi.py:160-163 | the columns are the keys of the first item, identity fields included, while no row keeps an identity field |
| Fetch.RangeRequestsOnce | cbapi/cbapi.py:101-103 | over pages 1..n, the request for page p is sent at position p-1 and nowhere else |
| Fetch.GetInfoEachPageOnce | cbapi/cbapi.py:145-157 | with no failures, every page 1..N is requested exactly once after the first request |
| Fetch.GetInfoNoFailureIff | cbapi/cbapi.py:145-157 | a table comes with no failures exactly when every page 1..N succeeds, and never with more failures than workers |
| Fetch.FirstUnnamed | cbapi/cbapi.py:162-163 | the position of the first record named `None`: every record before it has a name, and it is the length when all have one |
| Fetch.TabulateNamed | cbapi/cbapi.py:161-163 | building the table fails, with `UnnamedRow`, exactly when some record is named `None`; otherwise it holds the columns and every record in order |
| Fetch.GetInfoFetched | cbapi/cbapi.py:127-165 | a returned table comes from a first response with items, a partition that succeeded, and every queued record, under the first item's keys |
| Fetch.GetInfoRows | cbapi/cbapi.py:101-165 | with no failures, row i is item i of pages 1..N in page order, normalized: every item gives exactly one row, keyed by its own identity |
| Fetch.GetInfoNamedRows | cbapi/cbapi.py:112-163 | every row of a returned table has a name |
| Fetch.GetInfoUnnamed | cbapi/cbapi.py:112-163 | a queued record named `None`, such as an organization whose `name` is JSON `null`, fails the whole call with `UnnamedRow` |
| Coordinator.RecordQueue.Put | cbapi/cbapi.py:122 | `target.put(record)` appends the record at the back of the queue |
| Coordinator.RecordQueue.Empty | cbapi/cbapi.py:162 | `q.empty()` is true exactly when nothing is queued |
| Coordinator.RecordQueue.Get | cbapi/cbapi.py:163 | `q.get()` returns the oldest record and removes it |
| Coordinator.PutPage | cbapi/cbapi.py:107-124 | the loop over a page's items queues what `Fetch.PageEmit` gives and reports its fault |
| Coordinator.FetchPage | cbapi/cbapi.py:103-124 | one page: the request sent, the records queued and the fault are those of that page's step |
| Coordinator.ThreadFunc | cbapi/cbapi.py:92-124 | a worker queues, sends and reports exactly what `Fetch.ChunkEmit` gives for its chunk |
| Coordinator.StartAndJoin | cbapi/cbapi.py:137-157 | the workers over all chunks leave in a fresh queue the records, requests and failures of `Fetch.MergeChunks` |
| Coordinator.Drain | cbapi/cbapi.py:160-163 | the drain gives what `Fetch.Tabulate` gives for the queued records; the queue ends empty, or holds the records after the first one named `None` |
| Coordinator.GetInfo | cbapi/cbapi.py:77-165 | the call returns and sends exactly what `Fetch.GetInfoSpec` gives; zero items gives `None` after one request; with no failures there is one row per item over pages 1..N |
| Coordinator.GetOrg | cbapi/cbapi.py:168-201 | `get_org` runs `get_info` on the organization query string, and its first request has exactly the seven keys |
| Coordinator.GetPpl | cbapi/cbapi.py:204-236 | `get_ppl` runs `get_info` on the people query string, and its first request has exactly the seven keys |

## Left out

- HTTP (`trigger_api`, lines 49-74) is replaced by an oracle from query string to decoded
  response, or `None` for a status other than 200. Headers, the API key, the URL and the
  network are outside the model.
- `set_key` / `get_key` (the module-wide credential) are not modelled: the oracle already stands
  for an authenticated API.
- `default_timestamp()` reads the clock. `get_org` and `get_ppl` take the timestamp as the
  integer `sinceTime`.
- `cpu_count()` is a parameter, `cpus`, of `GetInfo`, `GetOrg` and `GetPpl`.
- Threads, the lock and the thread-safe queue are not modelled. The workers run one after
  another, chunk 0 first, on a plain FIFO class. With concurrent workers, the records of
  different chunks can interleave in the queue. Since the table is only promised as a collection
  of rows, the model's order is one of the possible orders.
- A failed page request makes `None["data"]` raise in the worker thread. That fault is modelled
  as `FetchFailed(page)`, which ends only that worker. The printed traceback is not modelled.
- JSON values are strings, integers and `null`. Floats, booleans, lists and nested objects are
  not modelled; `Records.Plus` on any pair other than two strings or two integers is a
  `TypeMismatch`, although Python would also add two floats or concatenate two lists.
- Items are their `properties` dicts. The `"properties"` lookup on each item, and a malformed
  response without `data`, `items` or `paging`, are not modelled.
- `pd.Series(..., name=...)`, `pd.DataFrame(columns=...)` and `DataFrame.append` are modelled as
  a record (key and fields) and a table (column list and rows). pandas also widens the columns
  when a row has fields outside the header, and it aligns each row's fields to the columns.
  Neither is modelled. The one refusal modelled is a Series named `None`, which
  `DataFrame.append` rejects with a TypeError that ends the call (`UnnamedRow`).
- `dict_record.pop(...)` changes the item in place. The model computes a new dict, since
  nothing reads the item again afterwards.
- `obj_type` values other than `"organizations"` and `"people"` are not modelled. Only
  `get_org` and `get_ppl` call `get_info`, and they pass one of those two.
- `current_page` (line 134) is read and never used, so it is a field of the response and
  nothing more.
- The `requests` library drops query parameters whose value is `None`. The query strings here
  keep the key with `PNone`, as the Python dict does.
- Coordinator.FetchPage takes the chunk and an index instead of the page alone, so that its
  contract can name the worker's step for that page.
- Fetch.GetInfoEachPageOnce and Fetch.GetInfoComplete speak of the case with no failures: when
  a worker faults, its later pages are never requested.
- `setup.py` and `runtest.py` (packaging and a manual smoke run) are not part of this model.
