/** shodan_query_manager_monty_test.py: the same count-then-sweep as the v1.2
    script, but a record keeps the query item's tag as given, joins hostnames with
    `", "` and takes its project label from the command line. */
module MontyTest {
  import opened Opt
  import opened Strings
  import opened Search
  import opened Sweep
  import V12

  /** One output row. */
  datatype TestHit = TestHit(
    ip: string,
    query: string,
    malwareName: string,
    tag: string,
    port: string,
    country: string,
    org: string,
    isp: string,
    hostnames: string,
    firstSeen: string,
    lastSeen: string,
    projectLabel: string)

  /** `self.project_label if self.project_label else ""`. */
  function LabelOf(given: Option<string>): string
  {
    given.GetOr("")
  }

  function TestRecord(item: QueryItem, f: Fields, today: string, given: Option<string>): TestHit
  {
    TestHit(IpOf(f), QueryStr(item), MalwareName(item), TagStr(item),
            f.port, f.country, f.org, f.isp, Join(f.hostnames, ", "), today, today, LabelOf(given))
  }

  /** The rows `perform_query` returns for one query item. */
  function QueryRecords(item: QueryItem, count: string -> CountReply, search: (string, int) -> PageOutcome,
                        today: string, given: Option<string>): seq<TestHit>
  {
    var q := QueryStr(item);
    var total := TotalResults(count(q));
    if total == 0 then []
    else
      var kept := FirstWins(Swept(search, q, PagesFor(total)));
      seq(|kept|, k requires 0 <= k < |kept| => TestRecord(item, kept[k], today, given))
  }

  method PerformQuery(item: QueryItem, count: string -> CountReply, search: (string, int) -> PageOutcome,
                      today: string, given: Option<string>)
    returns (records: seq<TestHit>, fetched: seq<int>)
    ensures records == QueryRecords(item, count, search, today, given)
    ensures fetched == V12.QueryPages(item, count)
  {
    var q := QueryStr(item);
    var total := TotalResults(count(q));
    if total == 0 {
      return [], [];
    }
    var totalPages := PagesFor(total);
    records, fetched := SweepPages(search, q, totalPages, f => TestRecord(item, f, today, given));
  }

  /** `run_queries`: nothing runs when the queries file fails to load; the
      results file is written only when some query produced rows. */
  method RunQueries(file: QueriesFile, count: string -> CountReply, search: (string, int) -> PageOutcome,
                    today: string, given: Option<string>)
    returns (loaded: bool, all: seq<TestHit>, written: bool)
    ensures loaded == file.Loaded?
    ensures all == if file.Loaded? then ConcatMap(item => QueryRecords(item, count, search, today, given), file.items) else []
    ensures written == (loaded && all != [])
  {
    if !file.Loaded? {
      return false, [], false;
    }
    var queries := file.items;
    ghost var f := item => QueryRecords(item, count, search, today, given);
    all := [];
    for i := 0 to |queries|
      invariant all == ConcatMap(f, queries[..i])
    {
      var records, _ := PerformQuery(queries[i], count, search, today, given);
      assert queries[..i + 1][..i] == queries[..i];
      all := all + records;
    }
    assert queries[..|queries|] == queries;
    loaded := true;
    written := all != [];
  }

  // ---------------------------------------------------------------------

  /** The rows of one query: one per address, non-empty and pairwise distinct,
      each built from the first readable match with that address in the order
      of first occurrence; the tag is the query item's own and the label the one given. */
  lemma QueryRecordsSpec(item: QueryItem, count: string -> CountReply, search: (string, int) -> PageOutcome,
                         today: string, given: Option<string>)
    ensures var r := QueryRecords(item, count, search, today, given);
            var total := TotalResults(count(QueryStr(item)));
            var occ := FirstOccurrences(Swept(search, QueryStr(item), PagesFor(total)));
            (total == 0 ==> r == [])
            && (total != 0 ==> |r| == |occ| && forall k :: 0 <= k < |r| ==> r[k] == TestRecord(item, occ[k], today, given))
            && (forall i, j :: 0 <= i < j < |r| ==> r[i].ip != r[j].ip)
            && (forall k :: 0 <= k < |r| ==>
                  r[k].ip != "" && r[k].tag == TagStr(item) && r[k].malwareName == MalwareName(item)
                  && r[k].firstSeen == today && r[k].lastSeen == today
                  && (given.Some? ==> r[k].projectLabel == given.value)
                  && (given.None? ==> r[k].projectLabel == ""))
  {
    var total := TotalResults(count(QueryStr(item)));
    var ms := Swept(search, QueryStr(item), PagesFor(total));
    FirstWinsIsFirstOccurrences(ms);
    FirstWinsKeys(ms);
  }

  /** The test script and the v1.2 script report the same addresses, in the
      same order, for the same provider replies: only the columns differ. */
  lemma SameAddressesAsV12(item: QueryItem, count: string -> CountReply, search: (string, int) -> PageOutcome,
                           today: string, given: Option<string>)
    ensures var r := QueryRecords(item, count, search, today, given);
            var v := V12.QueryRecords(item, count, search, today);
            |r| == |v| && forall k :: 0 <= k < |r| ==> r[k].ip == v[k].ip && r[k].query == v[k].query
  {
  }
}
