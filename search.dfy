/** Values shared by the query scripts: query specifications as loaded from JSON,
    the provider's match objects and the outcome of one page request. The network
    itself is not modelled: a provider is a function from a request to its outcome. */
module Search {
  import opened Opt

  /** One entry of a queries file. A field is `None` when its key is absent. */
  datatype QueryItem = QueryItem(
    query: Option<string>,
    tag: Option<string>,
    malwareName: Option<string>,
    active: Option<string>)

  /** `query_item.get('query', '')`. */
  function QueryStr(item: QueryItem): string
  {
    item.query.GetOr("")
  }

  /** `query_item.get('malware_name', query_str)`. */
  function MalwareName(item: QueryItem): string
  {
    item.malwareName.GetOr(QueryStr(item))
  }

  /** `query_item.get('tag', '')`. */
  function TagStr(item: QueryItem): string
  {
    item.tag.GetOr("")
  }

  /** A match's `timestamp`: absent or empty, one that parses (kept as its
      `YYYY-MM-DD` date), or one that `strptime` rejects. */
  datatype Timestamp = NoTimestamp | At(date: string) | Unparsable

  /** The readable fields of a match, with the scripts' `.get` defaults applied
      (`''` for a missing port, country, organisation or ISP, `[]` for hostnames);
      `ip` is `None` when the `ip_str` key is absent. */
  datatype Fields = Fields(
    ip: Option<string>,
    port: string,
    country: string,
    org: string,
    isp: string,
    hostnames: seq<string>,
    timestamp: Timestamp)

  /** A match object. `BadLocation` is an object whose `location` is not an
      object: its other fields read normally, but reading the country raises.
      `Broken` is not an object at all, so reading any field raises. */
  datatype Match = Entry(f: Fields) | BadLocation(f: Fields) | Broken

  /** What one search request for one page comes back with. */
  datatype PageOutcome =
    | Page(matches: seq<Match>, total: int)  // status 200, a JSON object with "matches"
    | NoMatchesKey                           // status 200, a JSON object without "matches"
    | HttpError                               // an error status (4xx or 5xx)
    | TransportError                          // no response: connection failure, timeout
    | Malformed                               // status 200, a body that is not JSON

  /** The matches a page outcome contributes: only a successful page has any. */
  function PageMatches(o: PageOutcome): seq<Match>
  {
    if o.Page? then o.matches else []
  }

  /** The count endpoint's reply: `total` (absent in the JSON) or a failed request. */
  datatype CountReply = Counted(total: Option<int>) | CountFailed

  /** Results per page of the search endpoint. */
  const RESULTS_PER_PAGE: int := 100

  /** `(total // 100) + (1 if total % 100 > 0 else 0)`. */
  function PagesFor(total: int): int
  {
    total / RESULTS_PER_PAGE + (if total % RESULTS_PER_PAGE > 0 then 1 else 0)
  }

  /** For a non-negative total the page count is the ceiling of total / 100;
      a negative total gives no page at all. */
  lemma PagesForIsCeiling(total: int)
    ensures total >= 0 ==> 0 <= PagesFor(total) && (PagesFor(total) - 1) * RESULTS_PER_PAGE < total <= PagesFor(total) * RESULTS_PER_PAGE
    ensures total >= 0 ==> (PagesFor(total) == 0 <==> total == 0)
    ensures total < 0 ==> PagesFor(total) <= 0
  {
  }

  /** The page numbers `1, 2, ..., n` (nothing when `n <= 0`). */
  function PageNumbers(n: int): (r: seq<int>)
    ensures |r| == if n <= 0 then 0 else n
    ensures forall k :: 0 <= k < |r| ==> r[k] == k + 1
    decreases n
  {
    if n <= 0 then [] else PageNumbers(n - 1) + [n]
  }

  /** Element `i` of a list, or `''` past its end. */
  function Pos(s: seq<string>, i: nat): string
  {
    if i < |s| then s[i] else ""
  }

  /** Fixed-width positional columns: the first `n` elements, padded with `''`
      (`xs[:n]` extended with `[''] * (n - len(xs[:n]))`). */
  function Columns(xs: seq<string>, n: nat): (r: seq<string>)
    ensures |r| == n
    ensures forall i :: 0 <= i < n ==> r[i] == Pos(xs, i)
  {
    var head := if |xs| <= n then xs else xs[..n];
    head + seq(n - |head|, _ => "")
  }

  /** The rows of a run: the rows of each query in turn, in file order
      (`pd.concat` with `ignore_index=True` over the loaded query items). */
  function ConcatMap<T>(f: QueryItem -> seq<T>, items: seq<QueryItem>): seq<T>
    decreases |items|
  {
    if items == [] then [] else ConcatMap(f, items[..|items| - 1]) + f(items[|items| - 1])
  }

  /** Running two lists of queries one after the other gives the rows of each, in turn. */
  lemma {:induction false} ConcatMapAppend<T>(f: QueryItem -> seq<T>, a: seq<QueryItem>, b: seq<QueryItem>)
    ensures ConcatMap(f, a + b) == ConcatMap(f, a) + ConcatMap(f, b)
    decreases |b|
  {
    if b == [] {
      assert a + b == a;
    } else {
      var pre := b[..|b| - 1];
      assert (a + b)[..|a + b| - 1] == a + pre;
      assert (a + b)[|a + b| - 1] == b[|b| - 1];
      ConcatMapAppend(f, a, pre);
    }
  }

  /** A row is in the run exactly when some query produced it. */
  lemma {:induction false} ConcatMapMembers<T>(f: QueryItem -> seq<T>, items: seq<QueryItem>, x: T)
    ensures x in ConcatMap(f, items) <==> exists k :: 0 <= k < |items| && x in f(items[k])
    decreases |items|
  {
    if items != [] {
      var pre := items[..|items| - 1];
      ConcatMapMembers(f, pre, x);
      if x in ConcatMap(f, items) {
        if x !in ConcatMap(f, pre) {
          assert x in f(items[|items| - 1]);
        } else {
          var k :| 0 <= k < |pre| && x in f(pre[k]);
          assert items[k] == pre[k];
        }
      } else {
        forall k | 0 <= k < |items|
          ensures x !in f(items[k])
        {
          if k < |pre| {
            assert items[k] == pre[k];
          }
        }
      }
    }
  }

  /** A queries file as `json.load` sees it. */
  datatype QueriesFile = Missing | InvalidJson | Loaded(items: seq<QueryItem>)

  /** The STIX pattern column: `f"[ipv4-addr:value = '{ip}']"`. */
  function Pattern(ip: string): string
  {
    "[ipv4-addr:value = '" + ip + "']"
  }
}
