/** shodan_query_manager_monty.py: the subscription table, the `active` filter
    on the queries file, the bounded page loop of `perform_query` and the run
    that concatenates every query's records before merging them, once, into
    the seen-IP ledger. */
module Monty {
  import opened Opt
  import opened Strings
  import opened Search
  import opened Sweep
  import opened MontyFold
  import opened Ledger

  // ---------------------------------------------------------------------
  // Subscriptions

  datatype Limits = Limits(totalResultsLimit: int, pagesLimit: int)

  /** `self.subscription_limits`. */
  const SUBSCRIPTION_LIMITS: map<string, Limits> :=
    map["basic" := Limits(100, 1), "freelancer" := Limits(1000, 10), "corporate" := Limits(100000, 100)]

  /** The subscription `__init__` assigns by default. */
  const DEFAULT_SUBSCRIPTION: string := "enterprise"

  /** `determine_result_limits`: the table entry, or `None` for the `KeyError`
      that a subscription missing from the table raises. */
  function DetermineResultLimits(subscription: string): (r: Option<Limits>)
    ensures r.Some? <==> subscription == "basic" || subscription == "freelancer" || subscription == "corporate"
    ensures r.Some? ==> 1 <= r.value.pagesLimit <= r.value.totalResultsLimit
  {
    if subscription in SUBSCRIPTION_LIMITS then Some(SUBSCRIPTION_LIMITS[subscription]) else None
  }

  /** The branch of `initialize_shodan_client` on the account's plan
      (`info().get('plan', '')`, lower-cased). The else branch only logs, so
      whatever subscription was there before stays. */
  function DetectedSubscription(plan: Option<string>, current: string): string
  {
    var p := Lower(plan.GetOr(""));
    if p == "freelancer" then "freelancer" else if p == "enterprise" then "corporate" else current
  }

  /** The subscription a manager holds after `__init__` as written: detection
      runs first (the client is created on line 31) and the default assigned
      on line 48 then overwrites whatever was detected. */
  function SubscriptionAsWritten(plan: Option<string>): string
  {
    var _ := DetectedSubscription(plan, DEFAULT_SUBSCRIPTION);
    DEFAULT_SUBSCRIPTION
  }

  /** As written, no plan leads to a usable subscription: the lookup always fails. */
  lemma SubscriptionAsWrittenHasNoLimits(plan: Option<string>)
    ensures DetermineResultLimits(SubscriptionAsWritten(plan)).None?
  {
  }

  /** Even with the default assigned before detection, a plan other than
      freelancer or enterprise (here `"oss"`) keeps the missing key. */
  lemma OtherPlanKeepsMissingKey()
    ensures DetermineResultLimits(DetectedSubscription(Some("oss"), DEFAULT_SUBSCRIPTION)).None?
  {
    assert Lower("oss") == "oss";
  }

  /** The subscription evidently intended: the detected one, and `basic` (the
      else branch's own log message) for every other plan. */
  function Subscription(plan: Option<string>): (s: string)
    ensures DetermineResultLimits(s).Some?
    ensures s == "freelancer" <==> Lower(plan.GetOr("")) == "freelancer"
    ensures s == "corporate" <==> Lower(plan.GetOr("")) == "enterprise"
    ensures s == "basic" <==> Lower(plan.GetOr("")) != "freelancer" && Lower(plan.GetOr("")) != "enterprise"
  {
    DetectedSubscription(plan, "basic")
  }

  // ---------------------------------------------------------------------
  // The queries file

  /** `q.get('active', '').lower() == 'yes'`. */
  predicate IsActive(item: QueryItem)
  {
    Lower(item.active.GetOr("")) == "yes"
  }

  /** The comprehension `[q for q in queries if ...]`. */
  function ActiveOf(items: seq<QueryItem>): (r: seq<QueryItem>)
    ensures |r| <= |items|
    ensures forall q :: q in r <==> q in items && IsActive(q)
    decreases |items|
  {
    if items == [] then []
    else
      var pre := items[..|items| - 1];
      var q := items[|items| - 1];
      assert items == pre + [q];
      ActiveOf(pre) + (if IsActive(q) then [q] else [])
  }

  /** `load_queries`: the active entries in file order; entries missing keys
      are only logged; a missing file or invalid JSON gives no queries. */
  function LoadQueries(file: QueriesFile): (r: seq<QueryItem>)
    ensures !file.Loaded? ==> r == []
    ensures file.Loaded? ==> forall q :: q in r <==> q in file.items && IsActive(q)
  {
    if file.Loaded? then ActiveOf(file.items) else []
  }

  /** The filter keeps order: filtering two lists in turn is filtering their concatenation. */
  lemma {:induction false} ActiveOfAppend(a: seq<QueryItem>, b: seq<QueryItem>)
    ensures ActiveOf(a + b) == ActiveOf(a) + ActiveOf(b)
    decreases |b|
  {
    if b == [] {
      assert a + b == a;
    } else {
      var pre := b[..|b| - 1];
      var q := b[|b| - 1];
      var tail := if IsActive(q) then [q] else [];
      assert (a + b)[..|a + b| - 1] == a + pre;
      assert (a + b)[|a + b| - 1] == q;
      assert ActiveOf(a + b) == ActiveOf(a + pre) + tail;
      assert ActiveOf(b) == ActiveOf(pre) + tail;
      ActiveOfAppend(a, pre);
      assert ActiveOf(a) + ActiveOf(pre) + tail == ActiveOf(a) + (ActiveOf(pre) + tail);
    }
  }

  /** `active` matches `yes` in any letter case, and nothing else does. */
  lemma IsActiveCases(item: QueryItem)
    ensures IsActive(item) <==>
              item.active.Some? && |item.active.value| == 3
              && (item.active.value[0] == 'y' || item.active.value[0] == 'Y')
              && (item.active.value[1] == 'e' || item.active.value[1] == 'E')
              && (item.active.value[2] == 's' || item.active.value[2] == 'S')
  {
    var v := item.active.GetOr("");
    var l := Lower(v);
    if IsActive(item) {
      assert l[0] == 'y' && l[1] == 'e' && l[2] == 's';
      assert LowerChar(v[0]) == 'y' && LowerChar(v[1]) == 'e' && LowerChar(v[2]) == 's';
    } else if item.active.Some? && |v| == 3 {
      assert l != "yes";
      assert l[0] != 'y' || l[1] != 'e' || l[2] != 's';
    }
  }

  // ---------------------------------------------------------------------
  // The page loop of `perform_query`

  /** The number of matches after which the loop asks for the next page. */
  const FULL_PAGE: int := 1000

  /** The `limit` argument, `min(1000, total_results_limit // pages_limit)`;
      Python's `//` and Dafny's `/` agree for a positive divisor, and with no
      page to fetch the argument is never computed. */
  function PageSize(l: Limits): int
  {
    if l.pagesLimit <= 0 then 0
    else if l.totalResultsLimit / l.pagesLimit < FULL_PAGE then l.totalResultsLimit / l.pagesLimit
    else FULL_PAGE
  }

  /** An outcome the client raises as `shodan.APIError`: an error status, a
      failed connection or a body that is not JSON. */
  predicate ApiError(o: PageOutcome)
  {
    o.HttpError? || o.TransportError? || o.Malformed?
  }

  /** The pages requested from `page` on, given the fold so far: a raise or an
      API error ends the loop at that page, as does a page with fewer than
      1000 matches; otherwise the next page follows, up to `pages_limit`. */
  function PagesFrom(c: Context, search: (string, int, int) -> PageOutcome, size: int, pagesLimit: int,
                     page: int, acc: Acc): seq<int>
    decreases pagesLimit - page + 1
  {
    if page > pagesLimit then []
    else
      var o := search(QueryStr(c.item), page, size);
      if ApiError(o) then [page]
      else
        var next := FoldFrom(c, acc, PageMatches(o));
        if next.Failed? || |PageMatches(o)| < FULL_PAGE then [page]
        else [page] + PagesFrom(c, search, size, pagesLimit, page + 1, next)
  }

  /** The pages one query requests. */
  function Fetched(c: Context, search: (string, int, int) -> PageOutcome, l: Limits): seq<int>
  {
    PagesFrom(c, search, PageSize(l), l.pagesLimit, 1, EMPTY)
  }

  /** The matches of the given pages, in request order (an error page has none). */
  function Collected(search: (string, int, int) -> PageOutcome, q: string, size: int, pages: seq<int>): seq<Match>
    decreases |pages|
  {
    if pages == [] then []
    else Collected(search, q, size, pages[..|pages| - 1]) + PageMatches(search(q, pages[|pages| - 1], size))
  }

  /** The matches one query reads. */
  function QueryMatches(c: Context, search: (string, int, int) -> PageOutcome, l: Limits): seq<Match>
  {
    Collected(search, QueryStr(c.item), PageSize(l), Fetched(c, search, l))
  }

  /** The records `perform_query` returns: the dictionary's values in
      insertion order, or none when the query raised. */
  function QueryRows(c: Context, search: (string, int, int) -> PageOutcome, l: Limits): seq<MontyHit>
  {
    var ms := QueryMatches(c, search, l);
    FoldFromWellFormed(c, EMPTY, ms);
    Flatten(Fold(c, ms))
  }

  lemma {:induction false} CollectedAppend(search: (string, int, int) -> PageOutcome, q: string, size: int,
                                           a: seq<int>, b: seq<int>)
    ensures Collected(search, q, size, a + b) == Collected(search, q, size, a) + Collected(search, q, size, b)
    decreases |b|
  {
    if b == [] {
      assert a + b == a;
    } else {
      var pre := b[..|b| - 1];
      assert (a + b)[..|a + b| - 1] == a + pre;
      assert (a + b)[|a + b| - 1] == b[|b| - 1];
      CollectedAppend(search, q, size, a, pre);
    }
  }

  /** The pages form the run `page, page + 1, ...` within `pages_limit`, and
      at least one page is requested when `page` is within it. */
  lemma {:induction false} PagesFromRun(c: Context, search: (string, int, int) -> PageOutcome, size: int,
                                        pagesLimit: int, page: int, acc: Acc)
    ensures var r := PagesFrom(c, search, size, pagesLimit, page, acc);
            (page > pagesLimit ==> r == [])
            && (page <= pagesLimit ==> 1 <= |r| <= pagesLimit - page + 1)
            && (forall i :: 0 <= i < |r| ==> r[i] == page + i)
    decreases pagesLimit - page + 1
  {
    if page <= pagesLimit {
      var o := search(QueryStr(c.item), page, size);
      if !ApiError(o) {
        var next := FoldFrom(c, acc, PageMatches(o));
        if !(next.Failed? || |PageMatches(o)| < FULL_PAGE) {
          var rest := PagesFrom(c, search, size, pagesLimit, page + 1, next);
          PagesFromRun(c, search, size, pagesLimit, page + 1, next);
          var r := PagesFrom(c, search, size, pagesLimit, page, acc);
          assert r == [page] + rest;
          forall i | 0 <= i < |r|
            ensures r[i] == page + i
          {
            if i > 0 {
              assert r[i] == rest[i - 1];
            }
          }
        }
      }
    }
  }

  /** Every requested page but the last came back full (1000 matches or more)
      without an error. */
  lemma {:induction false} PagesFromFull(c: Context, search: (string, int, int) -> PageOutcome, size: int,
                                         pagesLimit: int, page: int, acc: Acc)
    ensures var r := PagesFrom(c, search, size, pagesLimit, page, acc);
            forall i :: 0 <= i < |r| - 1 ==>
              search(QueryStr(c.item), r[i], size).Page? && |search(QueryStr(c.item), r[i], size).matches| >= FULL_PAGE
    decreases pagesLimit - page + 1
  {
    if page <= pagesLimit {
      var q := QueryStr(c.item);
      var o := search(q, page, size);
      if !ApiError(o) {
        var next := FoldFrom(c, acc, PageMatches(o));
        if !(next.Failed? || |PageMatches(o)| < FULL_PAGE) {
          var r := PagesFrom(c, search, size, pagesLimit, page, acc);
          var rest := PagesFrom(c, search, size, pagesLimit, page + 1, next);
          PagesFromFull(c, search, size, pagesLimit, page + 1, next);
          PagesFromRun(c, search, size, pagesLimit, page + 1, next);
          assert r == [page] + rest;
          forall i | 0 <= i < |r| - 1
            ensures search(q, r[i], size).Page? && |search(q, r[i], size).matches| >= FULL_PAGE
          {
            if i > 0 {
              assert r[i] == rest[i - 1];
            }
          }
        }
      }
    }
  }

  /** Why a run of pages `r`, read from `acc` on, ended at its last page: an
      API error, a page with fewer than 1000 matches, or a raise while reading
      the matches. */
  predicate StoppedFor(c: Context, search: (string, int, int) -> PageOutcome, size: int, acc: Acc, r: seq<int>)
    requires r != []
  {
    var q := QueryStr(c.item);
    var o := search(q, r[|r| - 1], size);
    ApiError(o) || |PageMatches(o)| < FULL_PAGE || FoldFrom(c, acc, Collected(search, q, size, r)).Failed?
  }

  /** A run that ends before `pages_limit` ended for one of those reasons. */
  predicate EarlyEndExplained(c: Context, search: (string, int, int) -> PageOutcome, size: int, pagesLimit: int,
                              acc: Acc, r: seq<int>)
  {
    r != [] && r[|r| - 1] < pagesLimit ==> StoppedFor(c, search, size, acc, r)
  }

  /** The loop ends before `pages_limit` only for one of those reasons. */
  lemma {:induction false} PagesFromStop(c: Context, search: (string, int, int) -> PageOutcome, size: int,
                                         pagesLimit: int, page: int, acc: Acc)
    ensures EarlyEndExplained(c, search, size, pagesLimit, acc, PagesFrom(c, search, size, pagesLimit, page, acc))
    decreases pagesLimit - page + 1, 1
  {
    if page <= pagesLimit {
      var o := search(QueryStr(c.item), page, size);
      var next := FoldFrom(c, acc, PageMatches(o));
      if ApiError(o) || next.Failed? || |PageMatches(o)| < FULL_PAGE {
        StopHere(c, search, size, pagesLimit, page, acc);
      } else {
        StopLater(c, search, size, pagesLimit, page, acc);
      }
    }
  }

  /** A page that ends the loop is its own stop reason. */
  lemma StopHere(c: Context, search: (string, int, int) -> PageOutcome, size: int,
                 pagesLimit: int, page: int, acc: Acc)
    requires page <= pagesLimit
    requires var o := search(QueryStr(c.item), page, size);
             ApiError(o) || FoldFrom(c, acc, PageMatches(o)).Failed? || |PageMatches(o)| < FULL_PAGE
    ensures PagesFrom(c, search, size, pagesLimit, page, acc) == [page]
    ensures StoppedFor(c, search, size, acc, [page])
  {
    SinglePageCollected(search, QueryStr(c.item), size, page);
  }

  /** After a full page the stop reason is that of the pages that follow. */
  lemma {:induction false} StopLater(c: Context, search: (string, int, int) -> PageOutcome, size: int,
                  pagesLimit: int, page: int, acc: Acc)
    requires page <= pagesLimit
    requires var o := search(QueryStr(c.item), page, size);
             !ApiError(o) && !FoldFrom(c, acc, PageMatches(o)).Failed? && |PageMatches(o)| >= FULL_PAGE
    ensures EarlyEndExplained(c, search, size, pagesLimit, acc, PagesFrom(c, search, size, pagesLimit, page, acc))
    decreases pagesLimit - page + 1, 0
  {
    var next := FoldFrom(c, acc, PageMatches(search(QueryStr(c.item), page, size)));
    var rest := PagesFrom(c, search, size, pagesLimit, page + 1, next);
    PagesFromStop(c, search, size, pagesLimit, page + 1, next);
    PagesFromRun(c, search, size, pagesLimit, page + 1, next);
    assert PagesFrom(c, search, size, pagesLimit, page, acc) == [page] + rest;
    if rest != [] && rest[|rest| - 1] < pagesLimit {
      StopCarries(c, search, size, page, acc, rest);
    }
  }

  lemma SinglePageCollected(search: (string, int, int) -> PageOutcome, q: string, size: int, page: int)
    ensures Collected(search, q, size, [page]) == PageMatches(search(q, page, size))
  {
    assert [page][..0] == [];
  }

  /** The stop reason of the later pages carries over to the run that starts
      one page earlier. */
  lemma StopCarries(c: Context, search: (string, int, int) -> PageOutcome, size: int, page: int, acc: Acc,
                    rest: seq<int>)
    requires rest != []
    requires StoppedFor(c, search, size, FoldFrom(c, acc, PageMatches(search(QueryStr(c.item), page, size))), rest)
    ensures StoppedFor(c, search, size, acc, [page] + rest)
  {
    var q := QueryStr(c.item);
    var r := [page] + rest;
    var o := search(q, page, size);
    SinglePageCollected(search, q, size, page);
    CollectedAppend(search, q, size, [page], rest);
    FoldFromAppend(c, acc, PageMatches(o), Collected(search, q, size, rest));
    assert r[|r| - 1] == rest[|rest| - 1];
  }

  /** `perform_query`'s pages: `1, 2, ..., k` for some `k <= pages_limit`, with
      every page but the last a full one. */
  lemma FetchedShape(c: Context, search: (string, int, int) -> PageOutcome, l: Limits)
    ensures var r := Fetched(c, search, l);
            |r| <= (if l.pagesLimit < 0 then 0 else l.pagesLimit)
            && (l.pagesLimit >= 1 ==> |r| >= 1)
            && (forall i :: 0 <= i < |r| ==> r[i] == i + 1)
            && (forall i :: 0 <= i < |r| - 1 ==>
                  var o := search(QueryStr(c.item), r[i], PageSize(l)); o.Page? && |o.matches| >= FULL_PAGE)
  {
    PagesFromRun(c, search, PageSize(l), l.pagesLimit, 1, EMPTY);
    PagesFromFull(c, search, PageSize(l), l.pagesLimit, 1, EMPTY);
  }

  /** An API error page ends the loop but keeps what earlier pages collected:
      it adds no match, so the records are those of the pages before it. */
  lemma ErrorPageKeepsCollected(c: Context, search: (string, int, int) -> PageOutcome, l: Limits)
    requires Fetched(c, search, l) != []
    requires ApiError(search(QueryStr(c.item), Fetched(c, search, l)[|Fetched(c, search, l)| - 1], PageSize(l)))
    ensures var r := Fetched(c, search, l);
            QueryMatches(c, search, l) == Collected(search, QueryStr(c.item), PageSize(l), r[..|r| - 1])
  {
  }

  /** With the basic or freelancer limits the request size is 100; a service
      that honours it never fills a page of 1000, so at most one page is ever
      requested, whatever `pages_limit` says. */
  lemma HonouredLimitMeansOnePage(c: Context, search: (string, int, int) -> PageOutcome, subscription: string)
    requires subscription == "basic" || subscription == "freelancer"
    requires forall p :: search(QueryStr(c.item), p, 100).Page? ==> |search(QueryStr(c.item), p, 100).matches| <= 100
    ensures PageSize(DetermineResultLimits(subscription).value) == 100
    ensures |Fetched(c, search, DetermineResultLimits(subscription).value)| <= 1
  {
    var l := DetermineResultLimits(subscription).value;
    FetchedShape(c, search, l);
  }

  /** The records of one query. When a match read raises, there are none.
      Otherwise there is exactly one record per address read (the empty
      address included), in order of first occurrence, and each record is as
      `EntryFacts` says: columns from the first match, `first_seen` the least
      date, `hostnames` the union. */
  lemma QueryRowsSpec(c: Context, search: (string, int, int) -> PageOutcome, l: Limits)
    ensures var ms := QueryMatches(c, search, l);
            var rows := QueryRows(c, search, l);
            ((exists i :: 0 <= i < |ms| && Raises(ms, i)) ==> rows == [])
            && (!(exists i :: 0 <= i < |ms| && Raises(ms, i)) ==>
                  (forall k :: 0 <= k < |rows| ==> rows[k].ip in IpsOf(ms) && EntryFacts(c, ms, rows[k].ip, rows[k]))
                  && (forall ip :: ip in IpsOf(ms) ==> exists k :: 0 <= k < |rows| && rows[k].ip == ip)
                  && (forall a, b :: 0 <= a < b < |rows| ==>
                        rows[a].ip in IpsOf(ms) && rows[b].ip in IpsOf(ms)
                        && FirstIdx(ms, rows[a].ip) < FirstIdx(ms, rows[b].ip)))
  {
    var ms := QueryMatches(c, search, l);
    FoldFailsIff(c, ms);
    FoldSummary(c, ms);
    if !Fold(c, ms).Failed? {
      FlattenSummary(c, ms, Fold(c, ms));
    }
  }


  /** The match loop of one page: reads each match in turn and stops at the
      first one that raises. */
  method FoldPage(c: Context, order0: seq<string>, entries0: map<string, MontyHit>, matches: seq<Match>)
    returns (order: seq<string>, entries: map<string, MontyHit>, failed: bool)
    ensures failed == FoldFrom(c, Acc(order0, entries0), matches).Failed?
    ensures !failed ==> Acc(order, entries) == FoldFrom(c, Acc(order0, entries0), matches)
  {
    order, entries := order0, entries0;
    ghost var acc0 := Acc(order0, entries0);
    for j := 0 to |matches|
      invariant Acc(order, entries) == FoldFrom(c, acc0, matches[..j])
    {
      var m := matches[j];
      assert matches[..j + 1][..j] == matches[..j];
      if m.Broken? {
        // `result.get` on something that is not an object
        FailureIsFinal(c, acc0, matches, j);
        return order, entries, true;
      }
      var f := m.f;
      if f.timestamp.Unparsable? {
        // `datetime.strptime` rejects the timestamp
        FailureIsFinal(c, acc0, matches, j);
        return order, entries, true;
      }
      var firstSeen := if f.timestamp.At? then f.timestamp.date else c.today;
      var ip := IpOf(f);
      if ip in entries {
        var existing := entries[ip];
        if LexLess(firstSeen, existing.firstSeen) {
          existing := existing.(firstSeen := firstSeen);
        }
        existing := existing.(hostnames := existing.hostnames + HostSet(f));
        entries := entries[ip := existing];
      } else {
        if m.BadLocation? {
          // `result.get('location', {}).get(...)` on a location that is not an object
          FailureIsFinal(c, acc0, matches, j);
          return order, entries, true;
        }
        entries := entries[ip := NewHit(c, f)];
        order := order + [ip];
      }
    }
    assert matches[..|matches|] == matches;
    failed := false;
  }

  /** Once the fold has raised at some match, the query has raised. */
  lemma FailureIsFinal(c: Context, acc: Acc, ms: seq<Match>, j: int)
    requires 0 <= j < |ms| && FoldFrom(c, acc, ms[..j + 1]).Failed?
    ensures FoldFrom(c, acc, ms).Failed?
  {
    assert ms == ms[..j + 1] + ms[j + 1..];
    FoldFromAppend(c, acc, ms[..j + 1], ms[j + 1..]);
    FailedStays(c, ms[j + 1..]);
  }

  /** One pass of the page loop: request the page, read its matches, and say
      whether the loop goes on (`more`) or a read raised (`failed`). An API
      error keeps the dictionary as it was and ends the loop. */
  method FetchPage(c: Context, search: (string, int, int) -> PageOutcome, size: int, pagesLimit: int, page: int,
                   ghost before: seq<int>, order0: seq<string>, entries0: map<string, MontyHit>)
    returns (order: seq<string>, entries: map<string, MontyHit>, more: bool, failed: bool)
    requires page <= pagesLimit
    requires Acc(order0, entries0) == Fold(c, Collected(search, QueryStr(c.item), size, before))
    ensures var all := Collected(search, QueryStr(c.item), size, before + [page]);
            var rest := PagesFrom(c, search, size, pagesLimit, page, Acc(order0, entries0));
            (failed ==> !more && Fold(c, all).Failed?)
            && (!failed ==> Acc(order, entries) == Fold(c, all))
            && (more ==> rest == [page] + PagesFrom(c, search, size, pagesLimit, page + 1, Acc(order, entries)))
            && (!more ==> rest == [page])
  {
    var q := QueryStr(c.item);
    var outcome := search(q, page, size);
    assert (before + [page])[..|before|] == before;
    assert Collected(search, q, size, before + [page]) == Collected(search, q, size, before) + PageMatches(outcome);
    if ApiError(outcome) {
      assert Collected(search, q, size, before + [page]) == Collected(search, q, size, before);
      return order0, entries0, false, false;
    }
    var matches := PageMatches(outcome);
    FoldFromAppend(c, EMPTY, Collected(search, q, size, before), matches);
    order, entries, failed := FoldPage(c, order0, entries0, matches);
    more := !failed && |matches| >= FULL_PAGE;
  }

  /** The page loop of `perform_query`: pages 1..pages_limit until a short
      page, an API error or a raise. The result is the dictionary as the loop
      leaves it, or `Failed` when a match read raised. */
  method ScanPages(c: Context, l: Limits, search: (string, int, int) -> PageOutcome)
    returns (acc: Acc, fetched: seq<int>)
    ensures fetched == Fetched(c, search, l)
    ensures acc == Fold(c, QueryMatches(c, search, l))
  {
    var q := QueryStr(c.item);
    var size := PageSize(l);
    var order: seq<string> := [];
    var ipResults: map<string, MontyHit> := map[];
    fetched := [];
    var page := 1;
    while page <= l.pagesLimit
      invariant 1 <= page
      invariant Fetched(c, search, l) == fetched + PagesFrom(c, search, size, l.pagesLimit, page, Acc(order, ipResults))
      invariant Acc(order, ipResults) == Fold(c, Collected(search, q, size, fetched))
      decreases l.pagesLimit - page
    {
      var more, failed;
      ghost var prior := Acc(order, ipResults);
      order, ipResults, more, failed := FetchPage(c, search, size, l.pagesLimit, page, fetched, order, ipResults);
      if more {
        AppendAssoc(fetched, [page], PagesFrom(c, search, size, l.pagesLimit, page + 1, Acc(order, ipResults)));
      }
      fetched := fetched + [page];
      if failed {
        return Failed, fetched;
      }
      if !more {
        break;
      }
      page := page + 1;
    }
    acc := Acc(order, ipResults);
  }

  lemma AppendAssoc<T>(a: seq<T>, b: seq<T>, c: seq<T>)
    ensures a + (b + c) == (a + b) + c
  {
  }

  /** `for ip_data in ip_results.values(): results.append(ip_data)`. */
  method Values(acc: Acc) returns (rows: seq<MontyHit>)
    requires acc.Acc? && WellFormed(acc)
    ensures rows == Flatten(acc)
  {
    rows := [];
    for k := 0 to |acc.order|
      invariant |rows| == k
      invariant forall i :: 0 <= i < k ==> rows[i] == acc.entries[acc.order[i]]
    {
      rows := rows + [acc.entries[acc.order[k]]];
    }
  }

  /** `perform_query` with the limits already looked up: the page loop, then
      the dictionary's values in insertion order, or no records when a match
      read raised. */
  method PerformQuery(c: Context, l: Limits, search: (string, int, int) -> PageOutcome)
    returns (rows: seq<MontyHit>, fetched: seq<int>)
    ensures fetched == Fetched(c, search, l)
    ensures rows == QueryRows(c, search, l)
  {
    var acc;
    acc, fetched := ScanPages(c, l, search);
    FoldFromWellFormed(c, EMPTY, QueryMatches(c, search, l));
    if acc.Failed? {
      return [], fetched;
    }
    rows := Values(acc);
  }

  // ---------------------------------------------------------------------
  // `run_queries`

  /** The ledger file as `load_or_create_seen_ips` finds it. */
  datatype LedgerFile = NoLedger | UnreadableLedger | StoredLedger(rows: seq<LedgerRow>)

  /** A missing or unreadable ledger both start from an empty one. */
  function LoadOrCreate(file: LedgerFile): (r: seq<LedgerRow>)
    ensures r != [] ==> file.StoredLedger?
    ensures file.StoredLedger? ==> r == file.rows
  {
    if file.StoredLedger? then file.rows else []
  }

  /** The columns `update_seen_ips` reads from each result row. */
  function BatchOf(rows: seq<MontyHit>): (b: seq<BatchRow>)
    ensures |b| == |rows|
    ensures forall k :: 0 <= k < |b| ==>
              b[k].ip == rows[k].ip && b[k].malwareName == rows[k].malwareName
              && b[k].tag == Some(rows[k].tag)
  {
    seq(|rows|, k requires 0 <= k < |rows| => BatchRow(rows[k].ip, rows[k].malwareName, Some(rows[k].tag)))
  }

  /** Every active query's records, in query order. */
  function RunRows(queries: seq<QueryItem>, l: Limits, search: (string, int, int) -> PageOutcome, today: string,
                   projectLabel: Option<string>): seq<MontyHit>
  {
    ConcatMap(item => QueryRows(Context(item, today, projectLabel), search, l), queries)
  }

  /** A run that ends with the result table, the updated ledger and the addresses
      the ledger held before; `Aborted` is the `KeyError` of the limits lookup. */
  datatype RunOutcome = Aborted | Completed(results: seq<MontyHit>, ledger: seq<LedgerRow>, previouslySeen: set<string>)

  /** `run_queries`: load the active queries and the ledger, run every query,
      then merge the concatenated results into the ledger once. All results are
      returned and saved, previously seen addresses included. */
  method RunQueries(queriesFile: QueriesFile, ledgerFile: LedgerFile, subscription: string,
                    search: (string, int, int) -> PageOutcome, today: string, projectLabel: Option<string>)
    returns (outcome: RunOutcome)
    ensures var queries := LoadQueries(queriesFile);
            var limits := DetermineResultLimits(subscription);
            (outcome.Aborted? <==> queries != [] && limits.None?)
            && (outcome.Completed? ==>
                  (limits.None? ==> outcome.results == [])
                  && (limits.Some? ==> outcome.results == RunRows(queries, limits.value, search, today, projectLabel))
                  && outcome.ledger == MergeBatch(LoadOrCreate(ledgerFile), BatchOf(outcome.results), today)
                  && outcome.previouslySeen == Ips(LoadOrCreate(ledgerFile)))
  {
    var queries := LoadQueries(queriesFile);
    var existing := LoadOrCreate(ledgerFile);
    var limits := DetermineResultLimits(subscription);
    var aborted, all := QueryAll(queries, limits, search, today, projectLabel);
    if aborted {
      return Aborted;
    }
    var ledger := new SeenIps(existing);
    var previouslySeen := ledger.Update(BatchOf(all), today);
    return Completed(all, ledger.rows, previouslySeen);
  }

  /** `run_queries` on a manager built as written: the default assigned after
      detection leaves a subscription the table lacks, so any active query
      aborts the run, and with none the run merges nothing. */
  method RunAsWritten(plan: Option<string>, queriesFile: QueriesFile, ledgerFile: LedgerFile,
                      search: (string, int, int) -> PageOutcome, today: string, projectLabel: Option<string>)
    returns (outcome: RunOutcome)
    ensures LoadQueries(queriesFile) != [] <==> outcome.Aborted?
    ensures outcome.Completed? ==> outcome.results == [] && outcome.ledger == LoadOrCreate(ledgerFile)
  {
    SubscriptionAsWrittenHasNoLimits(plan);
    outcome := RunQueries(queriesFile, ledgerFile, SubscriptionAsWritten(plan), search, today, projectLabel);
  }

  /** `run_queries` with the subscription detected as evidently intended: the
      lookup succeeds for every plan, so the run always completes. */
  method RunWithPlan(plan: Option<string>, queriesFile: QueriesFile, ledgerFile: LedgerFile,
                     search: (string, int, int) -> PageOutcome, today: string, projectLabel: Option<string>)
    returns (outcome: RunOutcome)
    ensures outcome.Completed?
    ensures outcome.results
            == RunRows(LoadQueries(queriesFile), DetermineResultLimits(Subscription(plan)).value, search, today, projectLabel)
    ensures outcome.ledger == MergeBatch(LoadOrCreate(ledgerFile), BatchOf(outcome.results), today)
    ensures outcome.previouslySeen == Ips(LoadOrCreate(ledgerFile))
  {
    outcome := RunQueries(queriesFile, ledgerFile, Subscription(plan), search, today, projectLabel);
  }

  /** The query loop of `run_queries`: each query looks its limits up first,
      so missing limits raise at the first query. */
  method QueryAll(queries: seq<QueryItem>, limits: Option<Limits>, search: (string, int, int) -> PageOutcome,
                  today: string, projectLabel: Option<string>)
    returns (aborted: bool, all: seq<MontyHit>)
    ensures aborted <==> queries != [] && limits.None?
    ensures limits.None? ==> all == []
    ensures limits.Some? ==> all == RunRows(queries, limits.value, search, today, projectLabel)
  {
    all := [];
    for i := 0 to |queries|
      invariant limits.None? ==> i == 0 && all == []
      invariant limits.Some? ==> all == RunRows(queries[..i], limits.value, search, today, projectLabel)
    {
      if limits.None? {
        // `self.subscription_limits[self.current_subscription]` raises
        return true, [];
      }
      var rows, _ := PerformQuery(Context(queries[i], today, projectLabel), limits.value, search);
      assert queries[..i + 1][..i] == queries[..i];
      all := all + rows;
    }
    if limits.Some? {
      assert queries[..|queries|] == queries;
    }
    aborted := false;
  }
}
