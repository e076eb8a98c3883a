/** The per-query fold of shodan_query_manager_monty.py's `perform_query`:
    matches are keyed by address in an insertion-ordered dictionary; a new
    address gets a record built from its match, a repeated one only lowers
    `first_seen` and adds hostnames. A match that cannot be read, or whose
    timestamp does not parse, raises out of the whole query. */
module MontyFold {
  import opened Opt
  import opened Strings
  import opened Search
  import opened Sweep

  /** What a record takes from outside the match: the query item, today's date and
      the configured project label. */
  datatype Context = Context(item: QueryItem, today: string, projectLabel: Option<string>)

  /** One record of `ip_results` (the constant decoration columns are left out;
      `hostnames` is the `all_hostnames` set). */
  datatype MontyHit = MontyHit(
    ip: string,
    query: string,
    malwareName: string,
    tag: string,
    tagColumns: seq<string>,   // tag1 .. tag5
    hostnames: set<string>,
    port: string,
    country: string,
    org: string,
    isp: string,
    firstSeen: string,
    lastSeen: string,
    projectLabel: string,
    pattern: string)

  /** `tag.split(',')[:5]`, padded with `''` to five columns. */
  function TagColumns(item: QueryItem): (r: seq<string>)
    ensures |r| == 5
    ensures forall i :: 0 <= i < 5 ==> r[i] == Pos(Split(TagStr(item), ','), i)
  {
    Columns(Split(TagStr(item), ','), 5)
  }

  function HostSet(f: Fields): set<string>
  {
    set h | h in f.hostnames
  }

  /** The date a readable match counts as seen on: its timestamp's date, or
      today when it has none. */
  function SeenOn(f: Fields, today: string): string
  {
    if f.timestamp.At? then f.timestamp.date else today
  }

  /** The record created for an address the dictionary does not hold yet. */
  function NewHit(c: Context, f: Fields): MontyHit
  {
    MontyHit(IpOf(f), QueryStr(c.item), MalwareName(c.item), TagStr(c.item), TagColumns(c.item),
             HostSet(f), f.port, f.country, f.org, f.isp, SeenOn(f, c.today), c.today,
             c.projectLabel.GetOr(""), Pattern(IpOf(f)))
  }

  /** A repeated address: an older date replaces `first_seen`, hostnames are added. */
  function Merged(e: MontyHit, f: Fields, today: string): MontyHit
  {
    var seen := SeenOn(f, today);
    e.(firstSeen := if LexLess(seen, e.firstSeen) then seen else e.firstSeen,
       hostnames := e.hostnames + HostSet(f))
  }

  /** The dictionary (its keys in insertion order, and its values), or the
      state after an exception. */
  datatype Acc = Failed | Acc(order: seq<string>, entries: map<string, MontyHit>)

  const EMPTY: Acc := Acc([], map[])

  /** One match. Reading the address, the timestamp and the hostnames comes
      first; only a new address reads the port, the location and the rest. */
  function Step(c: Context, acc: Acc, m: Match): Acc
  {
    if acc.Failed? || m.Broken? || m.f.timestamp.Unparsable? then Failed
    else
      var ip := IpOf(m.f);
      if ip in acc.entries then Acc(acc.order, acc.entries[ip := Merged(acc.entries[ip], m.f, c.today)])
      else if m.BadLocation? then Failed
      else Acc(acc.order + [ip], acc.entries[ip := NewHit(c, m.f)])
  }

  function FoldFrom(c: Context, acc: Acc, ms: seq<Match>): Acc
    decreases |ms|
  {
    if ms == [] then acc else Step(c, FoldFrom(c, acc, ms[..|ms| - 1]), ms[|ms| - 1])
  }

  function Fold(c: Context, ms: seq<Match>): Acc
  {
    FoldFrom(c, EMPTY, ms)
  }

  /** The insertion order lists every key exactly once. */
  predicate WellFormed(acc: Acc)
  {
    acc.Acc? ==>
      (forall k :: 0 <= k < |acc.order| ==> acc.order[k] in acc.entries)
      && (forall ip :: ip in acc.entries ==> ip in acc.order)
      && (forall i, j :: 0 <= i < j < |acc.order| ==> acc.order[i] != acc.order[j])
  }

  /** `ip_results.values()` in insertion order; nothing after an exception. */
  function Flatten(acc: Acc): (rows: seq<MontyHit>)
    requires WellFormed(acc)
    ensures acc.Failed? ==> rows == []
    ensures acc.Acc? ==> |rows| == |acc.order| && forall k :: 0 <= k < |rows| ==> rows[k] == acc.entries[acc.order[k]]
  {
    if acc.Failed? then [] else seq(|acc.order|, k requires 0 <= k < |acc.order| => acc.entries[acc.order[k]])
  }

  // ---------------------------------------------------------------------
  // Reference notions over the stream of matches

  /** `m` is a match object whose address is `ip` (`ip_str`, `''` when absent). */
  predicate HasIp(m: Match, ip: string)
  {
    !m.Broken? && IpOf(m.f) == ip
  }

  function IpsOf(ms: seq<Match>): set<string>
  {
    set i | 0 <= i < |ms| && !ms[i].Broken? :: IpOf(ms[i].f)
  }

  /** Match `i` raises: it is not an object, its timestamp does not parse, or
      it is the first with its address and its location cannot be read. */
  predicate Raises(ms: seq<Match>, i: int)
    requires 0 <= i < |ms|
  {
    ms[i].Broken? || ms[i].f.timestamp.Unparsable? || (ms[i].BadLocation? && IpOf(ms[i].f) !in IpsOf(ms[..i]))
  }

  lemma IpsOfSnoc(ms: seq<Match>, m: Match)
    ensures IpsOf(ms + [m]) == IpsOf(ms) + (if m.Broken? then {} else {IpOf(m.f)})
  {
    var r := ms + [m];
    assert forall k :: 0 <= k < |ms| ==> r[k] == ms[k];
    assert r[|ms|] == m;
    forall y | y in IpsOf(r)
      ensures y in IpsOf(ms) + (if m.Broken? then {} else {IpOf(m.f)})
    {
      var k :| 0 <= k < |r| && !r[k].Broken? && IpOf(r[k].f) == y;
      if k < |ms| {
        assert !ms[k].Broken? && IpOf(ms[k].f) == y;
      }
    }
  }

  /** The position of the first match with address `ip`. */
  function FirstIdx(ms: seq<Match>, ip: string): (i: nat)
    requires ip in IpsOf(ms)
    ensures i < |ms| && HasIp(ms[i], ip)
    ensures forall j :: 0 <= j < i ==> !HasIp(ms[j], ip)
    decreases |ms|
  {
    var pre := ms[..|ms| - 1];
    IpsOfSnoc(pre, ms[|ms| - 1]);
    assert ms == pre + [ms[|ms| - 1]];
    if ip in IpsOf(pre) then
      var i := FirstIdx(pre, ip);
      assert forall j :: 0 <= j <= i ==> ms[j] == pre[j];
      i
    else
      assert forall j :: 0 <= j < |pre| ==> ms[j] == pre[j] && !HasIp(pre[j], ip);
      |ms| - 1
  }

  /** What the record for `ip` says about the matches so far: every column but
      `first_seen` and `hostnames` comes from the first match with that address;
      `first_seen` is the least of their dates; `hostnames` is the union of
      their hostname lists. */
  ghost predicate EntryFacts(c: Context, ms: seq<Match>, ip: string, e: MontyHit)
    requires ip in IpsOf(ms)
  {
    e.(firstSeen := "", hostnames := {}) == NewHit(c, ms[FirstIdx(ms, ip)].f).(firstSeen := "", hostnames := {})
    && EarliestSeen(c, ms, ip, e.firstSeen)
    && AllHostnames(ms, ip, e.hostnames)
  }

  /** `seen` is the date of some match with address `ip`, and none of them is earlier. */
  ghost predicate EarliestSeen(c: Context, ms: seq<Match>, ip: string, seen: string)
  {
    (exists i :: 0 <= i < |ms| && HasIp(ms[i], ip) && SeenOn(ms[i].f, c.today) == seen)
    && forall i :: 0 <= i < |ms| && HasIp(ms[i], ip) ==> !LexLess(SeenOn(ms[i].f, c.today), seen)
  }

  /** `hosts` is the union of the hostname lists of the matches with address `ip`. */
  ghost predicate AllHostnames(ms: seq<Match>, ip: string, hosts: set<string>)
  {
    forall h :: h in hosts <==> exists i :: 0 <= i < |ms| && HasIp(ms[i], ip) && h in ms[i].f.hostnames
  }

  /** The dictionary after the matches `ms`: one key per address, in order of
      first occurrence, each record as `EntryFacts` says. */
  ghost predicate Summarizes(c: Context, ms: seq<Match>, acc: Acc)
  {
    acc.Acc? && WellFormed(acc)
    && acc.entries.Keys == IpsOf(ms)
    && InFirstOrder(ms, acc.order)
    && (forall ip :: ip in acc.entries ==> EntryFacts(c, ms, ip, acc.entries[ip]))
  }

  /** The addresses of `order` occur in `ms`, and earlier in `order` means
      first met earlier in `ms`. */
  predicate InFirstOrder(ms: seq<Match>, order: seq<string>)
  {
    forall a, b :: 0 <= a < b < |order| ==>
      order[a] in IpsOf(ms) && order[b] in IpsOf(ms) && FirstIdx(ms, order[a]) < FirstIdx(ms, order[b])
  }

  // ---------------------------------------------------------------------
  // Lemmas

  lemma StepWellFormed(c: Context, acc: Acc, m: Match)
    requires WellFormed(acc)
    ensures WellFormed(Step(c, acc, m))
  {
  }

  lemma {:induction false} FoldFromWellFormed(c: Context, acc: Acc, ms: seq<Match>)
    requires WellFormed(acc)
    ensures WellFormed(FoldFrom(c, acc, ms))
    decreases |ms|
  {
    if ms != [] {
      FoldFromWellFormed(c, acc, ms[..|ms| - 1]);
      StepWellFormed(c, FoldFrom(c, acc, ms[..|ms| - 1]), ms[|ms| - 1]);
    }
  }

  /** Folding two runs of matches is folding the second from where the first left off. */
  lemma {:induction false} FoldFromAppend(c: Context, acc: Acc, a: seq<Match>, b: seq<Match>)
    ensures FoldFrom(c, acc, a + b) == FoldFrom(c, FoldFrom(c, acc, a), b)
    decreases |b|
  {
    if b == [] {
      assert a + b == a;
    } else {
      var pre := b[..|b| - 1];
      assert (a + b)[..|a + b| - 1] == a + pre;
      assert (a + b)[|a + b| - 1] == b[|b| - 1];
      FoldFromAppend(c, acc, a, pre);
    }
  }

  /** An exception ends the fold for good. */
  lemma {:induction false} FailedStays(c: Context, ms: seq<Match>)
    ensures FoldFrom(c, Failed, ms) == Failed
    decreases |ms|
  {
    if ms != [] {
      FailedStays(c, ms[..|ms| - 1]);
    }
  }

  lemma FirstIdxSnoc(ms: seq<Match>, m: Match, ip: string)
    requires ip in IpsOf(ms)
    ensures ip in IpsOf(ms + [m]) && FirstIdx(ms + [m], ip) == FirstIdx(ms, ip)
  {
    IpsOfSnoc(ms, m);
    assert (ms + [m])[..|ms|] == ms;
  }

  lemma FirstIdxNew(ms: seq<Match>, m: Match)
    requires !m.Broken? && IpOf(m.f) !in IpsOf(ms)
    ensures IpOf(m.f) in IpsOf(ms + [m]) && FirstIdx(ms + [m], IpOf(m.f)) == |ms|
  {
    IpsOfSnoc(ms, m);
    assert (ms + [m])[..|ms|] == ms;
  }

  /** A match with another address leaves a record's facts true. */
  lemma EntryFactsOther(c: Context, ms: seq<Match>, m: Match, ip: string, e: MontyHit)
    requires ip in IpsOf(ms) && EntryFacts(c, ms, ip, e)
    requires !HasIp(m, ip)
    ensures ip in IpsOf(ms + [m]) && EntryFacts(c, ms + [m], ip, e)
  {
    FirstIdxSnoc(ms, m, ip);
    OtherEarliest(c, ms, m, ip, e.firstSeen);
    OtherHostnames(ms, m, ip, e.hostnames);
  }

  lemma OtherEarliest(c: Context, ms: seq<Match>, m: Match, ip: string, seen: string)
    requires EarliestSeen(c, ms, ip, seen) && !HasIp(m, ip)
    ensures EarliestSeen(c, ms + [m], ip, seen)
  {
    var r := ms + [m];
    assert forall k :: 0 <= k < |ms| ==> r[k] == ms[k];
    var w :| 0 <= w < |ms| && HasIp(ms[w], ip) && SeenOn(ms[w].f, c.today) == seen;
    assert r[w] == ms[w];
  }

  lemma OtherHostnames(ms: seq<Match>, m: Match, ip: string, hosts: set<string>)
    requires AllHostnames(ms, ip, hosts) && !HasIp(m, ip)
    ensures AllHostnames(ms + [m], ip, hosts)
  {
    var r := ms + [m];
    assert forall k :: 0 <= k < |ms| ==> r[k] == ms[k];
    forall h
      ensures h in hosts <==> exists i :: 0 <= i < |r| && HasIp(r[i], ip) && h in r[i].f.hostnames
    {
      if h in hosts {
        var i :| 0 <= i < |ms| && HasIp(ms[i], ip) && h in ms[i].f.hostnames;
        assert r[i] == ms[i];
      }
    }
  }

  /** A repeated address: the merged record keeps the facts, now over one more match. */
  lemma EntryFactsMerged(c: Context, ms: seq<Match>, m: Match, e: MontyHit)
    requires !m.Broken? && IpOf(m.f) in IpsOf(ms) && EntryFacts(c, ms, IpOf(m.f), e)
    ensures IpOf(m.f) in IpsOf(ms + [m]) && EntryFacts(c, ms + [m], IpOf(m.f), Merged(e, m.f, c.today))
  {
    FirstIdxSnoc(ms, m, IpOf(m.f));
    MergedEarliest(c, ms, m, e.firstSeen);
    MergedHostnames(ms, m, e.hostnames);
  }

  /** The lesser of the dates is the earliest over one more match. */
  lemma MergedEarliest(c: Context, ms: seq<Match>, m: Match, first: string)
    requires !m.Broken? && EarliestSeen(c, ms, IpOf(m.f), first)
    ensures var seen := SeenOn(m.f, c.today);
            EarliestSeen(c, ms + [m], IpOf(m.f), if LexLess(seen, first) then seen else first)
  {
    var ip := IpOf(m.f);
    var r := ms + [m];
    var seen := SeenOn(m.f, c.today);
    var newFirst := if LexLess(seen, first) then seen else first;
    assert forall k :: 0 <= k < |ms| ==> r[k] == ms[k];
    assert r[|ms|] == m;
    var w :| 0 <= w < |ms| && HasIp(ms[w], ip) && SeenOn(ms[w].f, c.today) == first;
    assert r[w] == ms[w];
    if LexLess(seen, first) {
      assert HasIp(r[|ms|], ip) && SeenOn(r[|ms|].f, c.today) == newFirst;
      forall i | 0 <= i < |r| && HasIp(r[i], ip)
        ensures !LexLess(SeenOn(r[i].f, c.today), newFirst)
      {
        var s := SeenOn(r[i].f, c.today);
        if i == |ms| {
          LexIrreflexive(seen);
        } else {
          assert !LexLess(SeenOn(ms[i].f, c.today), first);
          if s == first {
            LexAsymmetric(seen, first);
          } else {
            LexTotal(s, first);
            LexTransitive(seen, first, s);
            LexAsymmetric(seen, s);
          }
        }
      }
    } else {
      forall i | 0 <= i < |r| && HasIp(r[i], ip)
        ensures !LexLess(SeenOn(r[i].f, c.today), newFirst)
      {
        if i < |ms| {
          assert HasIp(ms[i], ip);
        }
      }
    }
  }

  /** The hostnames of one more match are added to the union. */
  lemma MergedHostnames(ms: seq<Match>, m: Match, hosts: set<string>)
    requires !m.Broken? && AllHostnames(ms, IpOf(m.f), hosts)
    ensures AllHostnames(ms + [m], IpOf(m.f), hosts + HostSet(m.f))
  {
    var ip := IpOf(m.f);
    var r := ms + [m];
    assert forall k :: 0 <= k < |ms| ==> r[k] == ms[k];
    assert r[|ms|] == m;
    forall h
      ensures h in hosts + HostSet(m.f) <==> exists i :: 0 <= i < |r| && HasIp(r[i], ip) && h in r[i].f.hostnames
    {
      if h in hosts {
        var i :| 0 <= i < |ms| && HasIp(ms[i], ip) && h in ms[i].f.hostnames;
        assert r[i] == ms[i];
      } else if h in HostSet(m.f) {
        assert HasIp(r[|ms|], ip) && h in r[|ms|].f.hostnames;
      } else {
        forall i | 0 <= i < |r| && HasIp(r[i], ip)
          ensures h !in r[i].f.hostnames
        {
          if i < |ms| {
            assert HasIp(ms[i], ip);
          }
        }
      }
    }
  }

  /** A new address: the fresh record satisfies the facts over one more match. */
  lemma EntryFactsNew(c: Context, ms: seq<Match>, m: Match)
    requires !m.Broken? && IpOf(m.f) !in IpsOf(ms)
    ensures IpOf(m.f) in IpsOf(ms + [m]) && EntryFacts(c, ms + [m], IpOf(m.f), NewHit(c, m.f))
  {
    FirstIdxNew(ms, m);
    NewEarliest(c, ms, m);
    NewHostnames(ms, m);
  }

  lemma NewEarliest(c: Context, ms: seq<Match>, m: Match)
    requires !m.Broken? && IpOf(m.f) !in IpsOf(ms)
    ensures EarliestSeen(c, ms + [m], IpOf(m.f), SeenOn(m.f, c.today))
  {
    var ip := IpOf(m.f);
    var r := ms + [m];
    assert r[|ms|] == m;
    assert forall k :: 0 <= k < |ms| ==> r[k] == ms[k];
    assert forall k :: 0 <= k < |ms| ==> !HasIp(ms[k], ip);
    assert HasIp(r[|ms|], ip);
    LexIrreflexive(SeenOn(m.f, c.today));
  }

  lemma NewHostnames(ms: seq<Match>, m: Match)
    requires !m.Broken? && IpOf(m.f) !in IpsOf(ms)
    ensures AllHostnames(ms + [m], IpOf(m.f), HostSet(m.f))
  {
    var ip := IpOf(m.f);
    var r := ms + [m];
    assert r[|ms|] == m;
    assert forall k :: 0 <= k < |ms| ==> r[k] == ms[k];
    assert forall k :: 0 <= k < |ms| ==> !HasIp(ms[k], ip);
    forall h
      ensures h in HostSet(m.f) <==> exists i :: 0 <= i < |r| && HasIp(r[i], ip) && h in r[i].f.hostnames
    {
      if h in HostSet(m.f) {
        assert h in r[|ms|].f.hostnames;
      }
    }
  }

  /** One step that does not raise keeps the summary true. */
  lemma StepSummary(c: Context, ms: seq<Match>, acc: Acc, m: Match)
    requires Summarizes(c, ms, acc)
    requires !Step(c, acc, m).Failed?
    ensures Summarizes(c, ms + [m], Step(c, acc, m))
  {
    IpsOfSnoc(ms, m);
    StepWellFormed(c, acc, m);
    StepOrder(c, ms, acc, m);
    StepEntries(c, ms, acc, m);
  }

  /** A step keeps the order of first appearance. */
  lemma StepOrder(c: Context, ms: seq<Match>, acc: Acc, m: Match)
    requires acc.Acc? && WellFormed(acc) && acc.entries.Keys == IpsOf(ms)
    requires InFirstOrder(ms, acc.order)
    requires !Step(c, acc, m).Failed?
    ensures InFirstOrder(ms + [m], Step(c, acc, m).order)
  {
    assert forall k :: 0 <= k < |acc.order| ==> acc.order[k] in IpsOf(ms);
    if IpOf(m.f) in acc.entries {
      assert Step(c, acc, m).order == acc.order;
      OrderKept(ms, m, acc.order);
    } else {
      assert Step(c, acc, m).order == acc.order + [IpOf(m.f)];
      OrderExtended(ms, m, acc.order);
    }
  }

  /** Another match leaves the first positions of the known addresses as they were. */
  lemma OrderKept(ms: seq<Match>, m: Match, order: seq<string>)
    requires forall k :: 0 <= k < |order| ==> order[k] in IpsOf(ms)
    requires InFirstOrder(ms, order)
    ensures InFirstOrder(ms + [m], order)
  {
    forall k | 0 <= k < |order|
      ensures order[k] in IpsOf(ms + [m]) && FirstIdx(ms + [m], order[k]) == FirstIdx(ms, order[k])
    {
      FirstIdxSnoc(ms, m, order[k]);
    }
  }

  /** A new address, first met at the last position, goes after all the others. */
  lemma OrderExtended(ms: seq<Match>, m: Match, order: seq<string>)
    requires !m.Broken? && IpOf(m.f) !in IpsOf(ms)
    requires forall k :: 0 <= k < |order| ==> order[k] in IpsOf(ms)
    requires InFirstOrder(ms, order)
    ensures InFirstOrder(ms + [m], order + [IpOf(m.f)])
  {
    var next := order + [IpOf(m.f)];
    OrderKept(ms, m, order);
    FirstIdxNew(ms, m);
    forall k | 0 <= k < |order|
      ensures next[k] in IpsOf(ms + [m]) && FirstIdx(ms + [m], next[k]) < |ms|
    {
      FirstIdxSnoc(ms, m, order[k]);
    }
  }

  /** A step keeps every entry's facts, for the old addresses and the new one. */
  lemma StepEntries(c: Context, ms: seq<Match>, acc: Acc, m: Match)
    requires acc.Acc? && acc.entries.Keys == IpsOf(ms)
    requires forall ip :: ip in acc.entries ==> EntryFacts(c, ms, ip, acc.entries[ip])
    requires !Step(c, acc, m).Failed?
    ensures var next := Step(c, acc, m);
            next.entries.Keys == IpsOf(ms + [m])
            && forall x :: x in next.entries ==> EntryFacts(c, ms + [m], x, next.entries[x])
  {
    var next := Step(c, acc, m);
    StepKeys(c, ms, acc, m);
    forall x | x in next.entries
      ensures EntryFacts(c, ms + [m], x, next.entries[x])
    {
      if x in acc.entries {
        StepEntryAt(c, ms, acc, m, x, acc.entries[x]);
      } else {
        StepEntryNew(c, ms, acc, m, x);
      }
    }
  }

  /** A step records the facts of the address it adds. */
  lemma StepEntryNew(c: Context, ms: seq<Match>, acc: Acc, m: Match, x: string)
    requires acc.Acc? && acc.entries.Keys == IpsOf(ms)
    requires !Step(c, acc, m).Failed? && x in Step(c, acc, m).entries && x !in acc.entries
    ensures x in IpsOf(ms + [m]) && EntryFacts(c, ms + [m], x, Step(c, acc, m).entries[x])
  {
    IpsOfSnoc(ms, m);
    EntryFactsNew(c, ms, m);
  }

  /** A step that does not raise has read an address and holds it as a key. */
  lemma StepKeys(c: Context, ms: seq<Match>, acc: Acc, m: Match)
    requires acc.Acc? && acc.entries.Keys == IpsOf(ms)
    requires !Step(c, acc, m).Failed?
    ensures Step(c, acc, m).entries.Keys == IpsOf(ms + [m])
  {
    IpsOfSnoc(ms, m);
    assert Step(c, acc, m).entries.Keys == acc.entries.Keys + {IpOf(m.f)};
  }

  /** A step keeps the facts of an address it already held. */
  lemma StepEntryAt(c: Context, ms: seq<Match>, acc: Acc, m: Match, x: string, e: MontyHit)
    requires acc.Acc? && acc.entries.Keys == IpsOf(ms)
    requires x in acc.entries && acc.entries[x] == e && EntryFacts(c, ms, x, e)
    requires !Step(c, acc, m).Failed?
    ensures x in IpsOf(ms + [m]) && EntryFacts(c, ms + [m], x, Step(c, acc, m).entries[x])
  {
    IpsOfSnoc(ms, m);
    if x == IpOf(m.f) {
      EntryFactsMerged(c, ms, m, e);
    } else {
      EntryFactsOther(c, ms, m, x, e);
    }
  }

  /** A fold that does not raise summarises everything it read. */
  lemma {:induction false} FoldSummary(c: Context, ms: seq<Match>)
    ensures !Fold(c, ms).Failed? ==> Summarizes(c, ms, Fold(c, ms))
    decreases |ms|
  {
    if ms != [] {
      var pre := ms[..|ms| - 1];
      var m := ms[|ms| - 1];
      assert ms == pre + [m];
      FoldSummary(c, pre);
      if !Fold(c, ms).Failed? {
        assert !Fold(c, pre).Failed?;
        StepSummary(c, pre, Fold(c, pre), m);
      }
    }
  }

  /** The records of a summarizing dictionary, in insertion order: exactly
      one per address, in order of first occurrence, each as `EntryFacts` says. */
  lemma FlattenSummary(c: Context, ms: seq<Match>, acc: Acc)
    requires Summarizes(c, ms, acc)
    ensures var rows := Flatten(acc);
            (forall k :: 0 <= k < |rows| ==> rows[k].ip in IpsOf(ms) && EntryFacts(c, ms, rows[k].ip, rows[k]))
            && (forall ip :: ip in IpsOf(ms) ==> exists k :: 0 <= k < |rows| && rows[k].ip == ip)
            && (forall a, b :: 0 <= a < b < |rows| ==>
                  rows[a].ip in IpsOf(ms) && rows[b].ip in IpsOf(ms)
                  && FirstIdx(ms, rows[a].ip) < FirstIdx(ms, rows[b].ip))
  {
    EntriesCarryIp(c, ms, acc);
    FlattenIps(acc);
    FlattenFacts(c, ms, acc);
  }

  /** Every record of a summarizing dictionary carries its own key. */
  lemma EntriesCarryIp(c: Context, ms: seq<Match>, acc: Acc)
    requires acc.Acc? && acc.entries.Keys == IpsOf(ms)
    requires forall ip :: ip in acc.entries ==> EntryFacts(c, ms, ip, acc.entries[ip])
    ensures forall ip :: ip in acc.entries ==> acc.entries[ip].ip == ip
  {
    forall ip | ip in acc.entries
      ensures acc.entries[ip].ip == ip
    {
      EntryIp(c, ms, ip, acc.entries[ip]);
    }
  }

  /** When records carry their keys, the flattened records list the keys in
      insertion order, each key once. */
  lemma FlattenIps(acc: Acc)
    requires acc.Acc? && WellFormed(acc)
    requires forall ip :: ip in acc.entries ==> acc.entries[ip].ip == ip
    ensures var rows := Flatten(acc);
            (forall k :: 0 <= k < |rows| ==> rows[k].ip == acc.order[k])
            && (forall ip :: ip in acc.entries ==> exists k :: 0 <= k < |rows| && rows[k].ip == ip)
  {
    var rows := Flatten(acc);
    forall ip | ip in acc.entries
      ensures exists k :: 0 <= k < |rows| && rows[k].ip == ip
    {
      var k :| 0 <= k < |acc.order| && acc.order[k] == ip;
      assert rows[k].ip == ip;
    }
  }

  lemma FlattenFacts(c: Context, ms: seq<Match>, acc: Acc)
    requires acc.Acc? && WellFormed(acc) && acc.entries.Keys == IpsOf(ms)
    requires forall ip :: ip in acc.entries ==> EntryFacts(c, ms, ip, acc.entries[ip])
    requires forall k :: 0 <= k < |Flatten(acc)| ==> Flatten(acc)[k].ip == acc.order[k]
    ensures var rows := Flatten(acc);
            forall k :: 0 <= k < |rows| ==> rows[k].ip in IpsOf(ms) && EntryFacts(c, ms, rows[k].ip, rows[k])
  {
  }

  /** A record that satisfies `EntryFacts` for `ip` carries `ip`. */
  lemma EntryIp(c: Context, ms: seq<Match>, ip: string, e: MontyHit)
    requires ip in IpsOf(ms) && EntryFacts(c, ms, ip, e)
    ensures e.ip == ip
  {
    var i := FirstIdx(ms, ip);
    assert e.(firstSeen := "", hostnames := {}).ip == NewHit(c, ms[i].f).(firstSeen := "", hostnames := {}).ip;
  }

  /** The query raises exactly when some match raises. */
  lemma {:induction false} FoldFailsIff(c: Context, ms: seq<Match>)
    ensures Fold(c, ms).Failed? <==> exists i :: 0 <= i < |ms| && Raises(ms, i)
    decreases |ms|
  {
    if ms != [] {
      var n := |ms| - 1;
      var pre := ms[..n];
      var m := ms[n];
      FoldFailsIff(c, pre);
      assert ms[..n] == pre;
      forall i | 0 <= i < n
        ensures Raises(ms, i) == Raises(pre, i)
      {
        assert ms[..i] == pre[..i];
        assert ms[i] == pre[i];
      }
      assert Fold(c, ms) == Step(c, Fold(c, pre), m);
      if !Fold(c, pre).Failed? {
        FoldSummary(c, pre);
        assert Raises(ms, n) <==> Step(c, Fold(c, pre), m).Failed?;
      }
    }
  }
}
