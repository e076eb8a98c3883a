/** The page loop and first-wins dedup whose control flow
    shodan_query_manager_v1.2.py and shodan_query_manager_monty_test.py share
    (their `try` clauses are arranged differently but catch the same cases):
    pages 1..n are each requested once; a failed request, a body that is not
    JSON and an empty page are skipped (`continue`); the first readable match
    with a non-empty `ip_str` wins for its address and every later one is
    ignored. */
module Sweep {
  import opened Opt
  import opened Search

  /** `get_total_results`: the count endpoint's `total` (0 when absent), or 0
      when the request fails. */
  function TotalResults(reply: CountReply): (t: int)
    ensures reply.CountFailed? ==> t == 0
    ensures reply.Counted? && reply.total.None? ==> t == 0
    ensures reply.Counted? && reply.total.Some? ==> t == reply.total.value
  {
    match reply
    case Counted(total) => total.GetOr(0)
    case CountFailed => 0
  }

  /** The matches of pages 1..n, in request order. */
  function Swept(search: (string, int) -> PageOutcome, q: string, n: int): seq<Match>
    decreases n
  {
    if n <= 0 then [] else Swept(search, q, n - 1) + PageMatches(search(q, n))
  }

  /** A match the dedup can key: readable, with a non-empty `ip_str`. */
  predicate Keyed(m: Match)
  {
    m.Entry? && m.f.ip.Some? && m.f.ip.value != ""
  }

  function IpOf(f: Fields): string
  {
    f.ip.GetOr("")
  }

  function KeptIps(kept: seq<Fields>): set<string>
  {
    set k | 0 <= k < |kept| :: IpOf(kept[k])
  }

  function KeyedIps(ms: seq<Match>): set<string>
  {
    set k | 0 <= k < |ms| && Keyed(ms[k]) :: ms[k].f.ip.value
  }

  /** The `unique_ips` fold: a keyed match whose address is new is kept. */
  function FirstWins(ms: seq<Match>): seq<Fields>
    decreases |ms|
  {
    if ms == [] then []
    else
      var prev := FirstWins(ms[..|ms| - 1]);
      var m := ms[|ms| - 1];
      if Keyed(m) && m.f.ip.value !in KeptIps(prev) then prev + [m.f] else prev
  }

  /** Position `i` holds the first keyed match for its address. */
  predicate FirstOfItsIp(ms: seq<Match>, i: int)
    requires 0 <= i < |ms|
  {
    Keyed(ms[i]) && forall j :: 0 <= j < i ==> !(Keyed(ms[j]) && ms[j].f.ip == ms[i].f.ip)
  }

  /** Reference definition: the fields of exactly those matches that are the
      first keyed match for their address, in input order. */
  function FirstOccurrences(ms: seq<Match>): seq<Fields>
    decreases |ms|
  {
    if ms == [] then []
    else FirstOccurrences(ms[..|ms| - 1]) + (if FirstOfItsIp(ms, |ms| - 1) then [ms[|ms| - 1].f] else [])
  }

  method SweepPages<R>(search: (string, int) -> PageOutcome, q: string, totalPages: int, build: Fields -> R)
    returns (results: seq<R>, fetched: seq<int>)
    ensures fetched == PageNumbers(totalPages)
    ensures var kept := FirstWins(Swept(search, q, totalPages));
            |results| == |kept| && forall k :: 0 <= k < |kept| ==> results[k] == build(kept[k])
  {
    results, fetched := [], [];
    var uniqueIps: map<string, R> := map[];
    var last := if totalPages < 0 then 0 else totalPages;
    for page := 1 to last + 1
      invariant fetched == PageNumbers(page - 1)
      invariant var kept := FirstWins(Swept(search, q, page - 1));
                |results| == |kept| && (forall k :: 0 <= k < |kept| ==> results[k] == build(kept[k]))
                && uniqueIps.Keys == KeptIps(kept)
    {
      fetched := fetched + [page];
      var outcome := search(q, page);
      assert Swept(search, q, page) == Swept(search, q, page - 1) + PageMatches(outcome);
      if !outcome.Page? {
        // a request, status or JSON error: skip to the next page
        assert Swept(search, q, page) == Swept(search, q, page - 1);
        continue;
      }
      var matches := outcome.matches;
      if matches == [] {
        assert Swept(search, q, page) == Swept(search, q, page - 1);
        continue;
      }
      ghost var before := Swept(search, q, page - 1);
      results, uniqueIps := SweepMatches(before, matches, results, uniqueIps, build);
      assert before + matches == Swept(search, q, page);
    }
  }

  /** The inner loop over one page's matches: a readable match with a new,
      non-empty address is built into a record and remembered. */
  method SweepMatches<R>(ghost before: seq<Match>, matches: seq<Match>, results0: seq<R>, unique0: map<string, R>,
                         build: Fields -> R)
    returns (results: seq<R>, uniqueIps: map<string, R>)
    requires var kept := FirstWins(before);
             |results0| == |kept| && (forall k :: 0 <= k < |kept| ==> results0[k] == build(kept[k]))
             && unique0.Keys == KeptIps(kept)
    ensures var kept := FirstWins(before + matches);
            |results| == |kept| && (forall k :: 0 <= k < |kept| ==> results[k] == build(kept[k]))
            && uniqueIps.Keys == KeptIps(kept)
  {
    results, uniqueIps := results0, unique0;
    assert before + matches[..0] == before;
    for j := 0 to |matches|
      invariant var kept := FirstWins(before + matches[..j]);
                |results| == |kept| && (forall k :: 0 <= k < |kept| ==> results[k] == build(kept[k]))
                && uniqueIps.Keys == KeptIps(kept)
    {
      var m := matches[j];
      assert before + matches[..j + 1] == (before + matches[..j]) + [m];
      FirstWinsStep(before + matches[..j], m);
      ghost var kept := FirstWins(before + matches[..j]);
      if m.Entry? {
        // a match whose fields cannot be read raises and is skipped
        var ip := m.f.ip.GetOr("");
        if ip != "" && ip !in uniqueIps {
          var record := build(m.f);
          uniqueIps := uniqueIps[ip := record];
          results := results + [record];
          KeptIpsSnoc(kept, m.f);
        }
      }
    }
    assert before + matches[..|matches|] == before + matches;
  }

  /** One step of the fold, as the loop takes it. */
  lemma FirstWinsStep(ms: seq<Match>, m: Match)
    ensures FirstWins(ms + [m])
            == if Keyed(m) && m.f.ip.value !in KeptIps(FirstWins(ms)) then FirstWins(ms) + [m.f] else FirstWins(ms)
  {
    assert (ms + [m])[..|ms|] == ms;
  }

  lemma KeptIpsSnoc(kept: seq<Fields>, f: Fields)
    ensures KeptIps(kept + [f]) == KeptIps(kept) + {IpOf(f)}
  {
    var r := kept + [f];
    assert forall k :: 0 <= k < |kept| ==> r[k] == kept[k];
    assert r[|kept|] == f;
    forall y | y in KeptIps(r)
      ensures y in KeptIps(kept) + {IpOf(f)}
    {
      var k :| 0 <= k < |r| && IpOf(r[k]) == y;
      if k < |kept| {
        assert IpOf(kept[k]) == y;
      }
    }
  }

  lemma KeyedIpsSnoc(ms: seq<Match>, m: Match)
    ensures KeyedIps(ms + [m]) == KeyedIps(ms) + (if Keyed(m) then {m.f.ip.value} else {})
  {
    var r := ms + [m];
    assert forall k :: 0 <= k < |ms| ==> r[k] == ms[k];
    assert r[|ms|] == m;
    forall y | y in KeyedIps(r)
      ensures y in KeyedIps(ms) + (if Keyed(m) then {m.f.ip.value} else {})
    {
      var k :| 0 <= k < |r| && Keyed(r[k]) && r[k].f.ip.value == y;
      if k < |ms| {
        assert Keyed(ms[k]) && ms[k].f.ip.value == y;
      }
    }
  }

  /** The kept records have non-empty, pairwise distinct addresses, and their
      addresses are exactly those of the keyed matches. */
  lemma {:induction false} FirstWinsKeys(ms: seq<Match>)
    ensures var kept := FirstWins(ms);
            KeptIps(kept) == KeyedIps(ms)
            && (forall k :: 0 <= k < |kept| ==> kept[k].ip.Some? && kept[k].ip.value != "")
            && (forall i, j :: 0 <= i < j < |kept| ==> IpOf(kept[i]) != IpOf(kept[j]))
    decreases |ms|
  {
    if ms != [] {
      var pre := ms[..|ms| - 1];
      var m := ms[|ms| - 1];
      assert ms == pre + [m];
      FirstWinsKeys(pre);
      KeyedIpsSnoc(pre, m);
      var prev := FirstWins(pre);
      if Keyed(m) && m.f.ip.value !in KeptIps(prev) {
        KeptIpsSnoc(prev, m.f);
        assert forall k :: 0 <= k < |prev| ==> IpOf(prev[k]) in KeptIps(prev);
      }
    }
  }

  /** The fold computes the reference: exactly the first keyed match of each
      address is kept, in the order the matches arrived. */
  lemma {:induction false} FirstWinsIsFirstOccurrences(ms: seq<Match>)
    ensures FirstWins(ms) == FirstOccurrences(ms)
    decreases |ms|
  {
    if ms != [] {
      var n := |ms| - 1;
      var pre := ms[..n];
      var m := ms[n];
      FirstWinsIsFirstOccurrences(pre);
      FirstWinsKeys(pre);
      if Keyed(m) {
        if m.f.ip.value in KeyedIps(pre) {
          var j :| 0 <= j < |pre| && Keyed(pre[j]) && pre[j].f.ip.value == m.f.ip.value;
          assert ms[j] == pre[j];
          assert !FirstOfItsIp(ms, n);
        } else {
          forall j | 0 <= j < n
            ensures !(Keyed(ms[j]) && ms[j].f.ip == m.f.ip)
          {
            assert ms[j] == pre[j];
          }
        }
      }
    }
  }

  /** Matches whose address was already kept change nothing, however many follow. */
  lemma {:induction false} LaterDuplicatesChangeNothing(ms: seq<Match>, more: seq<Match>)
    requires forall k :: 0 <= k < |more| && Keyed(more[k]) ==> more[k].f.ip.value in KeyedIps(ms)
    ensures FirstWins(ms + more) == FirstWins(ms)
    decreases |more|
  {
    if more != [] {
      var pre := more[..|more| - 1];
      var x := more[|more| - 1];
      assert (ms + more)[..|ms + more| - 1] == ms + pre;
      assert (ms + more)[|ms + more| - 1] == x;
      LaterDuplicatesChangeNothing(ms, pre);
      FirstWinsKeys(ms);
    } else {
      assert ms + more == ms;
    }
  }

  /** A match that is unreadable or has no address is skipped on its own: the
      result is what it would be without it. */
  lemma {:induction false} UnkeyedMatchIgnored(a: seq<Match>, m: Match, b: seq<Match>)
    requires !Keyed(m)
    ensures FirstWins(a + [m] + b) == FirstWins(a + b)
    decreases |b|
  {
    if b == [] {
      assert a + [m] + b == a + [m];
      assert a + b == a;
      FirstWinsStep(a, m);
    } else {
      var pre := b[..|b| - 1];
      var x := b[|b| - 1];
      UnkeyedMatchIgnored(a, m, pre);
      assert a + [m] + b == (a + [m] + pre) + [x];
      assert a + b == (a + pre) + [x];
      FirstWinsStep(a + [m] + pre, x);
      FirstWinsStep(a + pre, x);
    }
  }
}
