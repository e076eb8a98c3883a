/** shodan_query_manager_v1.2.py: one count request, then pages 1..ceil(total/100)
    through the shared sweep; records carry cleaned tags and hostnames in
    positional columns. */
module V12 {
  import opened Opt
  import opened Strings
  import opened Search
  import opened Sweep

  /** One output row (the constant decoration columns are left out). */
  datatype V12Hit = V12Hit(
    ip: string,
    query: string,
    malwareName: string,
    tag: string,
    tagColumns: seq<string>,       // tag1 .. tag5
    port: string,
    country: string,
    org: string,
    isp: string,
    firstSeen: string,
    lastSeen: string,
    projectLabel: string,
    pattern: string,
    hostnameColumns: seq<string>)  // hostname, hostname1 .. hostname3

  const PROJECT_LABEL: string := "CTI-IOA"

  /** `[x.strip() for x in xs if x.strip()]`. */
  function Cleaned(xs: seq<string>): (r: seq<string>)
    ensures |r| <= |xs|
    ensures forall k :: 0 <= k < |r| ==> Trimmed(r[k])
    decreases |xs|
  {
    if xs == [] then []
    else (if Strip(xs[0]) != "" then [Strip(xs[0])] else []) + Cleaned(xs[1..])
  }

  /** What the comprehension keeps of one piece: its stripped text, unless blank. */
  function KeptPiece(x: string): Option<string>
  {
    if Strip(x) != "" then Some(Strip(x)) else None
  }

  /** The cleaned list is exactly the stripped non-blank pieces, in input order. */
  lemma {:induction false} CleanedIsFilterMap(xs: seq<string>)
    ensures Cleaned(xs) == FilterMap(KeptPiece, xs)
    decreases |xs|
  {
    if xs != [] {
      CleanedIsFilterMap(xs[1..]);
      var h := if Strip(xs[0]) != "" then [Strip(xs[0])] else [];
      FilterMapStep(KeptPiece, xs, h, Cleaned(xs[1..]));
    }
  }

  /** Each cleaned piece is the stripped form of some non-blank input piece, and
      when no piece is blank, piece `i` of the output is `xs[i].strip()`. */
  lemma CleanedPieces(xs: seq<string>)
    ensures forall k :: 0 <= k < |Cleaned(xs)| ==>
              exists i :: 0 <= i < |xs| && Strip(xs[i]) != "" && Cleaned(xs)[k] == Strip(xs[i])
    ensures (forall i :: 0 <= i < |xs| ==> Strip(xs[i]) != "") ==>
              |Cleaned(xs)| == |xs| && forall i :: 0 <= i < |xs| ==> Cleaned(xs)[i] == Strip(xs[i])
  {
    CleanedIsFilterMap(xs);
    FilterMapFrom(KeptPiece, xs);
    FilterMapCount(KeptPiece, xs);
  }

  lemma CleanedKeepsOut(xs: seq<string>, c: char)
    requires forall j :: 0 <= j < |xs| ==> c !in xs[j]
    ensures forall k :: 0 <= k < |Cleaned(xs)| ==> c !in Cleaned(xs)[k]
  {
    CleanedIsFilterMap(xs);
    forall k | 0 <= k < |Cleaned(xs)|
      ensures c !in Cleaned(xs)[k]
    {
      var i := FilterMapSource(KeptPiece, xs, k);
      StripKeepsOut(xs[i], c);
    }
  }


  /** The query item's tag, split on commas and cleaned. */
  function CleanTags(item: QueryItem): seq<string>
  {
    Cleaned(Split(TagStr(item), ','))
  }

  function V12Record(item: QueryItem, f: Fields, today: string): V12Hit
  {
    var tags := CleanTags(item);
    var hosts := Cleaned(f.hostnames);
    V12Hit(IpOf(f), QueryStr(item), MalwareName(item), Join(tags, ","),
           Columns(tags, 5),
           f.port, f.country, f.org, f.isp, today, today, PROJECT_LABEL, Pattern(IpOf(f)),
           Columns(hosts, 4))
  }

  /** The rows `perform_query` returns for one query item. */
  function QueryRecords(item: QueryItem, count: string -> CountReply, search: (string, int) -> PageOutcome,
                        today: string): seq<V12Hit>
  {
    var q := QueryStr(item);
    var total := TotalResults(count(q));
    if total == 0 then []
    else
      var kept := FirstWins(Swept(search, q, PagesFor(total)));
      seq(|kept|, k requires 0 <= k < |kept| => V12Record(item, kept[k], today))
  }

  /** The pages `perform_query` requests: none for a zero count, else 1..ceil(total/100). */
  function QueryPages(item: QueryItem, count: string -> CountReply): seq<int>
  {
    var total := TotalResults(count(QueryStr(item)));
    if total == 0 then [] else PageNumbers(PagesFor(total))
  }

  method PerformQuery(item: QueryItem, count: string -> CountReply, search: (string, int) -> PageOutcome,
                      today: string)
    returns (records: seq<V12Hit>, fetched: seq<int>)
    ensures records == QueryRecords(item, count, search, today)
    ensures fetched == QueryPages(item, count)
  {
    var q := QueryStr(item);
    var total := TotalResults(count(q));
    if total == 0 {
      return [], [];
    }
    var totalPages := PagesFor(total);
    records, fetched := SweepPages(search, q, totalPages, f => V12Record(item, f, today));
  }

  /** `run_queries`: nothing runs when the queries file fails to load; the
      results file is written only when some query produced rows. */
  method RunQueries(file: QueriesFile, count: string -> CountReply, search: (string, int) -> PageOutcome,
                    today: string)
    returns (loaded: bool, all: seq<V12Hit>, written: bool)
    ensures loaded == file.Loaded?
    ensures all == if file.Loaded? then ConcatMap(item => QueryRecords(item, count, search, today), file.items) else []
    ensures written == (loaded && all != [])
  {
    if !file.Loaded? {
      return false, [], false;
    }
    var queries := file.items;
    ghost var f := item => QueryRecords(item, count, search, today);
    all := [];
    for i := 0 to |queries|
      invariant all == ConcatMap(f, queries[..i])
    {
      var records, _ := PerformQuery(queries[i], count, search, today);
      assert queries[..i + 1][..i] == queries[..i];
      all := all + records;
    }
    assert queries[..|queries|] == queries;
    loaded := true;
    written := all != [];
  }

  // ---------------------------------------------------------------------

  /** The rows of one query: one per address, non-empty and pairwise distinct;
      each is built from the first readable match with that address, in the
      order of first occurrence; dates are today and the label is constant. */
  lemma QueryRecordsSpec(item: QueryItem, count: string -> CountReply, search: (string, int) -> PageOutcome,
                         today: string)
    ensures var r := QueryRecords(item, count, search, today);
            var total := TotalResults(count(QueryStr(item)));
            var occ := FirstOccurrences(Swept(search, QueryStr(item), PagesFor(total)));
            (total == 0 ==> r == [])
            && (total != 0 ==> |r| == |occ| && forall k :: 0 <= k < |r| ==> r[k] == V12Record(item, occ[k], today))
            && (forall i, j :: 0 <= i < j < |r| ==> r[i].ip != r[j].ip)
            && (forall k :: 0 <= k < |r| ==>
                  r[k].ip != "" && r[k].query == QueryStr(item) && r[k].malwareName == MalwareName(item)
                  && r[k].firstSeen == today && r[k].lastSeen == today && r[k].projectLabel == PROJECT_LABEL)
  {
    var total := TotalResults(count(QueryStr(item)));
    var ms := Swept(search, QueryStr(item), PagesFor(total));
    FirstWinsIsFirstOccurrences(ms);
    FirstWinsKeys(ms);
  }

  /** Re-splitting the `tag` column on commas gives the cleaned tags back
      (and an empty column when there are none). */
  lemma TagRoundTrip(item: QueryItem, f: Fields, today: string)
    ensures CleanTags(item) != [] ==> Split(V12Record(item, f, today).tag, ',') == CleanTags(item)
    ensures CleanTags(item) == [] ==> V12Record(item, f, today).tag == ""
  {
    var tags := CleanTags(item);
    assert V12Record(item, f, today).tag == Join(tags, ",");
    if tags != [] {
      CleanedKeepsOut(Split(TagStr(item), ','), ',');
      SplitJoin(tags, ',');
    }
  }
}
