/** shodan-test.py: pages 1, 2, ... of the host search are requested until a
    reply ends the loop; the `ip_str` of every match read is collected into a
    set. An error status or a reply without "matches" stops the loop quietly, a
    page with fewer than 100 matches is the last one, and a failed connection,
    a body that is not JSON or a match without a readable `ip_str` ends the run
    with an exception. A page reply's `total` is `data.get("total", 0)`. */
module ShodanTest {
  import opened Opt
  import opened Search

  /** How a run ends: the final report (the unique addresses and the page
      count printed after page 1), or an exception raised while on `page`. */
  datatype SearchRun = Finished(ips: set<string>, totalPages: Option<int>) | Crashed(page: int)

  /** `result["ip_str"]` succeeds: the match is an object with that key. */
  predicate Readable(m: Match)
  {
    !m.Broken? && m.f.ip.Some?
  }

  predicate ReadsAll(ms: seq<Match>)
  {
    forall k :: 0 <= k < |ms| ==> Readable(ms[k])
  }

  /** The loop goes on to the next page after this reply: a page of at least
      100 matches, every one of them read without an exception. */
  predicate Continues(o: PageOutcome)
  {
    o.Page? && ReadsAll(o.matches) && |o.matches| >= RESULTS_PER_PAGE
  }

  /** The addresses a page's matches contribute. */
  function PageIps(ms: seq<Match>): set<string>
  {
    set k | 0 <= k < |ms| && Readable(ms[k]) :: ms[k].f.ip.value
  }

  /** The addresses of pages 1..n. */
  function IpsUpTo(search: (string, int) -> PageOutcome, q: string, n: int): set<string>
    decreases n
  {
    if n <= 0 then {} else IpsUpTo(search, q, n - 1) + PageIps(PageMatches(search(q, n)))
  }

  /** The page count printed after the first page, when it has "matches". */
  function TotalPagesOf(first: PageOutcome): Option<int>
  {
    if first.Page? then Some(PagesFor(first.total)) else None
  }

  /** `shodan_search`. The service is a function from a query and a page
      number to the reply; some page must end the loop, or the script would
      request pages forever. The pages requested are `1..lastPage`, where
      `lastPage` is the first page that does not continue the loop. */
  method ShodanSearch(search: (string, int) -> PageOutcome, q: string) returns (run: SearchRun, lastPage: int)
    requires exists p :: 1 <= p && !Continues(search(q, p))
    ensures lastPage >= 1 && !Continues(search(q, lastPage))
    ensures forall p :: 1 <= p < lastPage ==> Continues(search(q, p))
    ensures var last := search(q, lastPage);
            run.Crashed? <==> last.TransportError? || last.Malformed? || (last.Page? && !ReadsAll(last.matches))
    ensures run.Crashed? ==> run.page == lastPage
    ensures run.Finished? ==>
              run.ips == IpsUpTo(search, q, lastPage) && run.totalPages == TotalPagesOf(search(q, 1))
  {
    ghost var bound :| 1 <= bound && !Continues(search(q, bound));
    var uniqueIps: set<string> := {};
    var totalPages: Option<int> := None;
    var page := 1;
    while true
      invariant 1 <= page <= bound
      invariant forall p :: 1 <= p < page ==> Continues(search(q, p))
      invariant uniqueIps == IpsUpTo(search, q, page - 1)
      invariant totalPages == if page == 1 then None else TotalPagesOf(search(q, 1))
      decreases bound - page
    {
      var o := search(q, page);
      if page == 1 && o.Page? {
        totalPages := Some(PagesFor(o.total));
      }
      var turn, pageIps := VisitPage(o);
      if turn == Raise {
        return Crashed(page), page;
      }
      uniqueIps := uniqueIps + pageIps;
      if turn == Stop {
        break;
      }
      page := page + 1;
    }
    return Finished(uniqueIps, totalPages), page;
  }

  /** How one turn of the loop ends. */
  datatype Turn = Next | Stop | Raise

  /** The body of the loop for one reply: an error status or a reply without
      "matches" stops quietly, a failed request or a body that is not JSON
      raises, and a page is read match by match, the last one being shorter
      than 100 matches. */
  method VisitPage(o: PageOutcome) returns (turn: Turn, pageIps: set<string>)
    ensures turn == Raise <==> o.TransportError? || o.Malformed? || (o.Page? && !ReadsAll(o.matches))
    ensures turn == Next <==> Continues(o)
    ensures turn != Raise ==> pageIps == PageIps(PageMatches(o))
  {
    if o.HttpError? || o.NoMatchesKey? {
      // an error status, or "No results found."
      return Stop, {};
    }
    if o.TransportError? || o.Malformed? {
      // `requests.get` or `response.json()` raises
      return Raise, {};
    }
    var read;
    read, pageIps := ReadPage(o.matches);
    if !read {
      // `result["ip_str"]` raises
      return Raise, pageIps;
    }
    if |o.matches| < RESULTS_PER_PAGE {
      // the last page
      return Stop, pageIps;
    }
    return Next, pageIps;
  }

  /** The match loop of one page: every `ip_str` is added, unless reading one raises. */
  method ReadPage(matches: seq<Match>) returns (read: bool, pageIps: set<string>)
    ensures read == ReadsAll(matches)
    ensures read ==> pageIps == PageIps(matches)
  {
    pageIps := {};
    for k := 0 to |matches|
      invariant ReadsAll(matches[..k])
      invariant pageIps == PageIps(matches[..k])
    {
      if !Readable(matches[k]) {
        assert !ReadsAll(matches);
        return false, pageIps;
      }
      PageIpsSnoc(matches[..k], matches[k]);
      assert matches[..k + 1] == matches[..k] + [matches[k]];
      pageIps := pageIps + {matches[k].f.ip.value};
    }
    assert matches[..|matches|] == matches;
    read := true;
  }

  lemma PageIpsSnoc(ms: seq<Match>, m: Match)
    ensures PageIps(ms + [m]) == PageIps(ms) + (if Readable(m) then {m.f.ip.value} else {})
  {
    var r := ms + [m];
    assert forall k :: 0 <= k < |ms| ==> r[k] == ms[k];
    assert r[|ms|] == m;
    forall y | y in PageIps(r)
      ensures y in PageIps(ms) + (if Readable(m) then {m.f.ip.value} else {})
    {
      var k :| 0 <= k < |r| && Readable(r[k]) && r[k].f.ip.value == y;
      if k < |ms| {
        assert Readable(ms[k]) && ms[k].f.ip.value == y;
      }
    }
  }

  /** An address is reported exactly when some match on pages 1..n carries it. */
  lemma {:induction false} IpsUpToMembers(search: (string, int) -> PageOutcome, q: string, n: int, x: string)
    ensures x in IpsUpTo(search, q, n) <==>
            exists p, k :: 1 <= p <= n && 0 <= k < |PageMatches(search(q, p))|
                           && Readable(PageMatches(search(q, p))[k]) && PageMatches(search(q, p))[k].f.ip.value == x
    decreases n
  {
    if n > 0 {
      IpsUpToMembers(search, q, n - 1, x);
      var ms := PageMatches(search(q, n));
      if x in PageIps(ms) {
        var k :| 0 <= k < |ms| && Readable(ms[k]) && ms[k].f.ip.value == x;
        assert 1 <= n <= n && 0 <= k < |PageMatches(search(q, n))|;
      }
    }
  }

  /** A finished run stopped on an error status, on a reply without "matches"
      or on a short page it read in full; with a non-negative total the printed
      page count is the ceiling of total / 100. */
  lemma FinishedStops(search: (string, int) -> PageOutcome, q: string, run: SearchRun, lastPage: int)
    requires lastPage >= 1 && !Continues(search(q, lastPage))
    requires var last := search(q, lastPage);
             run.Crashed? <==> last.TransportError? || last.Malformed? || (last.Page? && !ReadsAll(last.matches))
    requires run.Finished? ==> run.totalPages == TotalPagesOf(search(q, 1))
    ensures run.Finished? ==>
              var last := search(q, lastPage);
              last.HttpError? || last.NoMatchesKey? || (last.Page? && ReadsAll(last.matches) && |last.matches| < RESULTS_PER_PAGE)
    ensures run.Finished? && run.totalPages.Some? && search(q, 1).total >= 0 ==>
              (run.totalPages.value - 1) * RESULTS_PER_PAGE < search(q, 1).total <= run.totalPages.value * RESULTS_PER_PAGE
  {
    if run.Finished? && run.totalPages.Some? {
      PagesForIsCeiling(search(q, 1).total);
    }
  }
}
