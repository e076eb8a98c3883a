/** The seen-IP ledger of shodan_query_manager_monty.py: one row per address
    with first/last-seen dates, an occurrence count and comma-joined lists of
    malware names and tags, merged with each run's batch of results. */
module Ledger {
  import opened Opt
  import opened Strings

  /** One ledger row. A list cell is `None` when pandas read it as missing. */
  datatype LedgerRow = LedgerRow(
    ip: string,
    firstSeen: string,
    lastSeen: string,
    timesSeen: int,
    malwareNames: Option<string>,
    tags: Option<string>)

  /** The columns of a result row that the merge reads; `tag` is `None` for a missing cell. */
  datatype BatchRow = BatchRow(ip: string, malwareName: string, tag: Option<string>)

  /** `set(df['ip'].values)`. */
  function Ips(rows: seq<LedgerRow>): set<string>
  {
    set k | 0 <= k < |rows| :: rows[k].ip
  }

  function BatchIps(batch: seq<BatchRow>): set<string>
  {
    set k | 0 <= k < |batch| :: batch[k].ip
  }

  /** No two rows hold the same address. */
  predicate Unique(rows: seq<LedgerRow>)
  {
    forall i, j :: 0 <= i < j < |rows| ==> rows[i].ip != rows[j].ip
  }

  /** The position of the first row holding `ip` (`df['ip'].eq(ip)`, then `index[0]`). */
  function FirstRow(rows: seq<LedgerRow>, ip: string): (r: Option<nat>)
    ensures r.None? <==> ip !in Ips(rows)
    ensures r.Some? ==> r.value < |rows| && rows[r.value].ip == ip
    ensures r.Some? ==> forall j :: 0 <= j < r.value ==> rows[j].ip != ip
    decreases |rows|
  {
    if rows == [] then None
    else if rows[0].ip == ip then Some(0)
    else
      assert forall k :: 1 <= k < |rows| ==> rows[k] == rows[1..][k - 1];
      assert Ips(rows) == {rows[0].ip} + Ips(rows[1..]);
      match FirstRow(rows[1..], ip)
      case None => None
      case Some(i) => Some(i + 1)
  }

  /** The row the merge reads and writes for `ip`, if any. */
  function RowOf(rows: seq<LedgerRow>, ip: string): Option<LedgerRow>
  {
    match FirstRow(rows, ip)
    case None => None
    case Some(i) => Some(rows[i])
  }

  /** `times_seen` of that row, `0` for an address not in the ledger. */
  function TimesOf(rows: seq<LedgerRow>, ip: string): int
  {
    match RowOf(rows, ip)
    case None => 0
    case Some(r) => r.timesSeen
  }

  /** How many batch rows carry `ip`. */
  function Count(batch: seq<BatchRow>, ip: string): nat
    decreases |batch|
  {
    if batch == [] then 0
    else Count(batch[..|batch| - 1], ip) + (if batch[|batch| - 1].ip == ip then 1 else 0)
  }

  /** `cell.split(',') if pd.notna(cell) else []`. */
  function CellList(cell: Option<string>): seq<string>
  {
    if cell.Some? then Split(cell.value, ',') else []
  }

  /** The malware list after `if malware_name not in current: current.append(malware_name)`. */
  function WithName(names: seq<string>, name: string): seq<string>
  {
    if name in names then names else names + [name]
  }

  /** The tag list after `for tag in tags: if tag and tag not in current: current.append(tag)`. */
  function WithTags(current: seq<string>, tags: seq<string>): seq<string>
    decreases |tags|
  {
    if tags == [] then current
    else
      var prev := WithTags(current, tags[..|tags| - 1]);
      var t := tags[|tags| - 1];
      if t != "" && t !in prev then prev + [t] else prev
  }

  /** A known address seen again. */
  function Bumped(row: LedgerRow, b: BatchRow, today: string): LedgerRow
  {
    row.(lastSeen := today,
         timesSeen := row.timesSeen + 1,
         malwareNames := Some(Join(WithName(CellList(row.malwareNames), b.malwareName), ",")),
         tags := Some(Join(WithTags(CellList(row.tags), CellList(b.tag)), ",")))
  }

  /** A first sighting. */
  function NewRow(b: BatchRow, today: string): LedgerRow
  {
    LedgerRow(b.ip, today, today, 1, Some(b.malwareName), Some(Join(CellList(b.tag), ",")))
  }

  /** The ledger after one batch row. */
  function MergeRow(rows: seq<LedgerRow>, b: BatchRow, today: string): seq<LedgerRow>
  {
    match FirstRow(rows, b.ip)
    case Some(i) => rows[i := Bumped(rows[i], b, today)]
    case None => rows + [NewRow(b, today)]
  }

  /** The ledger after the batch rows in order. */
  function MergeBatch(rows: seq<LedgerRow>, batch: seq<BatchRow>, today: string): seq<LedgerRow>
    decreases |batch|
  {
    if batch == [] then rows
    else MergeRow(MergeBatch(rows, batch[..|batch| - 1], today), batch[|batch| - 1], today)
  }

  /** The persisted ledger, a DataFrame in the source, updated in place by
      `update_seen_ips`. */
  class SeenIps {
    var rows: seq<LedgerRow>

    constructor (initial: seq<LedgerRow>)
      ensures rows == initial
    {
      rows := initial;
    }

    /** `update_seen_ips`: merges the batch row by row and returns the addresses the
        ledger held before the call. */
    method Update(batch: seq<BatchRow>, today: string) returns (previouslySeen: set<string>)
      modifies this
      ensures previouslySeen == Ips(old(rows))
      ensures rows == MergeBatch(old(rows), batch, today)
    {
      previouslySeen := set k | 0 <= k < |rows| :: rows[k].ip;
      for i := 0 to |batch|
        invariant rows == MergeBatch(old(rows), batch[..i], today)
      {
        MergeOne(batch[i], today);
        assert batch[..i + 1][..i] == batch[..i];
      }
      assert batch[..|batch|] == batch;
    }

    /** The loop body for one batch row: a known address is bumped in place, a
        new one appended. */
    method MergeOne(b: BatchRow, today: string)
      modifies this
      ensures rows == MergeRow(old(rows), b, today)
    {
      var tags := CellList(b.tag);
      var idx := FindRow(rows, b.ip);
      if idx.Some? {
        var row := rows[idx.value];
        var names := CellList(row.malwareNames);
        if b.malwareName !in names {
          names := names + [b.malwareName];
        }
        var current := AppendTags(CellList(row.tags), tags);
        rows := rows[idx.value := row.(lastSeen := today, timesSeen := row.timesSeen + 1,
                                       malwareNames := Some(Join(names, ",")),
                                       tags := Some(Join(current, ",")))];
      } else {
        rows := rows + [LedgerRow(b.ip, today, today, 1, Some(b.malwareName), Some(Join(tags, ",")))];
      }
    }
  }

  /** The linear search behind `df['ip'].eq(ip)`, `any()` and `index[0]`. */
  method FindRow(rows: seq<LedgerRow>, ip: string) returns (idx: Option<nat>)
    ensures idx == FirstRow(rows, ip)
  {
    var k := 0;
    while k < |rows|
      invariant 0 <= k <= |rows|
      invariant forall j :: 0 <= j < k ==> rows[j].ip != ip
    {
      if rows[k].ip == ip {
        FirstRowAt(rows, ip, k);
        return Some(k);
      }
      k := k + 1;
    }
    return None;
  }

  /** The tag loop of `update_seen_ips`. */
  method AppendTags(current: seq<string>, tags: seq<string>) returns (r: seq<string>)
    ensures r == WithTags(current, tags)
  {
    r := current;
    for i := 0 to |tags|
      invariant r == WithTags(current, tags[..i])
    {
      assert tags[..i + 1][..i] == tags[..i];
      if tags[i] != "" && tags[i] !in r {
        r := r + [tags[i]];
      }
    }
    assert tags[..|tags|] == tags;
  }

  /** A position holding `ip` with no earlier one is the first row for `ip`. */
  lemma FirstRowAt(rows: seq<LedgerRow>, ip: string, i: nat)
    requires i < |rows| && rows[i].ip == ip
    requires forall j :: 0 <= j < i ==> rows[j].ip != ip
    ensures FirstRow(rows, ip) == Some(i)
  {
    assert ip in Ips(rows);
  }

  // ---------------------------------------------------------------------
  // One batch row

  /** A first sighting appends one row: both dates are today, the count is 1,
      the malware list is the row's malware name and the tag cell is the row's
      tag text unchanged (`''` for a missing tag), since joining the split text
      gives it back. */
  lemma MergeRowAbsent(rows: seq<LedgerRow>, b: BatchRow, today: string)
    requires b.ip !in Ips(rows)
    ensures MergeRow(rows, b, today)
            == rows + [LedgerRow(b.ip, today, today, 1, Some(b.malwareName), Some(b.tag.GetOr("")))]
  {
    if b.tag.Some? {
      JoinSplit(b.tag.value, ',');
    }
  }

  /** A known address: only its first row changes; that row keeps its address
      and first-seen date, its last-seen date becomes today and its count goes up by one. */
  lemma MergeRowPresent(rows: seq<LedgerRow>, b: BatchRow, today: string)
    requires b.ip in Ips(rows)
    ensures var i := FirstRow(rows, b.ip).value;
            var r := MergeRow(rows, b, today);
            |r| == |rows|
            && (forall j :: 0 <= j < |rows| && j != i ==> r[j] == rows[j])
            && r[i].ip == b.ip && r[i].firstSeen == rows[i].firstSeen
            && r[i].lastSeen == today && r[i].timesSeen == rows[i].timesSeen + 1
  {
  }

  /** The tag loop keeps the old list as a prefix, appends only non-empty tags of
      the row that were not yet present (each once), and afterwards every
      non-empty tag of the row is in the list. */
  lemma {:induction false} WithTagsSpec(current: seq<string>, tags: seq<string>)
    ensures var r := WithTags(current, tags);
            current <= r
            && (forall k :: |current| <= k < |r| ==> r[k] != "" && r[k] in tags && r[k] !in r[..k])
            && (forall t :: t in tags && t != "" ==> t in r)
    decreases |tags|
  {
    if tags != [] {
      var pre := tags[..|tags| - 1];
      var t := tags[|tags| - 1];
      WithTagsSpec(current, pre);
      var prev := WithTags(current, pre);
      var r := WithTags(current, tags);
      assert tags == pre + [t];
      if t != "" && t !in prev {
        assert r == prev + [t];
        forall k | |current| <= k < |r|
          ensures r[k] != "" && r[k] in tags && r[k] !in r[..k]
        {
          if k < |prev| {
            assert r[..k] == prev[..k];
          } else {
            assert r[..k] == prev;
          }
        }
      }
    }
  }

  lemma JoinExtends(s: string, added: seq<string>)
    ensures Join(Split(s, ',') + added, ",") == s + (if added == [] then "" else "," + Join(added, ","))
  {
    JoinSplit(s, ',');
    if added == [] {
      assert Split(s, ',') + added == Split(s, ',');
    } else {
      JoinAppend(Split(s, ','), added, ",");
    }
  }

  /** The malware cell of a known address: the name is appended, after a
      comma, exactly when it is not yet listed; otherwise the cell stays as it was. */
  lemma BumpedNames(row: LedgerRow, b: BatchRow, today: string)
    ensures var r := Bumped(row, b, today);
            (b.malwareName in CellList(row.malwareNames) ==> r.malwareNames == row.malwareNames)
            && (b.malwareName !in CellList(row.malwareNames) ==>
                  r.malwareNames == Some(if row.malwareNames.Some? then row.malwareNames.value + "," + b.malwareName
                                         else b.malwareName))
  {
    if row.malwareNames.Some? {
      if b.malwareName in CellList(row.malwareNames) {
        JoinSplit(row.malwareNames.value, ',');
      } else {
        JoinExtends(row.malwareNames.value, [b.malwareName]);
        assert Join([b.malwareName], ",") == b.malwareName;
        var v := row.malwareNames.value;
        assert v + ("," + b.malwareName) == v + "," + b.malwareName;
        assert Bumped(row, b, today).malwareNames
               == Some(Join(Split(v, ',') + [b.malwareName], ","));
      }
    }
  }

  /** The tag cell of a known address only grows: the old text stays a prefix of
      the new one, and a row whose non-empty tags are all listed leaves it as it was. */
  lemma BumpedTags(row: LedgerRow, b: BatchRow, today: string)
    ensures var r := Bumped(row, b, today);
            (row.tags.Some? ==> row.tags.value <= r.tags.value)
            && (row.tags.Some? && (forall t :: t in CellList(b.tag) && t != "" ==> t in CellList(row.tags))
                ==> r.tags == row.tags)
  {
    if row.tags.Some? {
      var s := row.tags.value;
      var cur := Split(s, ',');
      var tl := CellList(b.tag);
      var w := WithTags(cur, tl);
      WithTagsSpec(cur, tl);
      assert w == cur + w[|cur|..];
      JoinExtends(s, w[|cur|..]);
      assert Bumped(row, b, today).tags == Some(Join(w, ","));
      if forall t :: t in tl && t != "" ==> t in cur {
        assert w == cur;
        JoinSplit(s, ',');
      }
    }
  }

  /** Two ledgers that hold the same address at every position agree on where
      each address first occurs. */
  lemma FirstRowSameIps(a: seq<LedgerRow>, b: seq<LedgerRow>, ip: string)
    requires |a| == |b| && forall k :: 0 <= k < |a| ==> a[k].ip == b[k].ip
    ensures FirstRow(a, ip) == FirstRow(b, ip)
  {
    assert Ips(a) == Ips(b);
    if FirstRow(a, ip).Some? {
      FirstRowAt(b, ip, FirstRow(a, ip).value);
    }
  }

  /** What one batch row does to the row of any address. */
  lemma MergeRowRowOf(rows: seq<LedgerRow>, b: BatchRow, today: string, ip: string)
    ensures RowOf(MergeRow(rows, b, today), ip)
            == if ip != b.ip then RowOf(rows, ip)
               else match RowOf(rows, ip)
                    case None => Some(NewRow(b, today))
                    case Some(prior) => Some(Bumped(prior, b, today))
  {
    var r := MergeRow(rows, b, today);
    match FirstRow(rows, b.ip)
    case Some(i) =>
      assert r == rows[i := Bumped(rows[i], b, today)];
      FirstRowSameIps(r, rows, ip);
    case None =>
      assert r == rows + [NewRow(b, today)];
      if FirstRow(rows, ip).Some? {
        FirstRowAt(r, ip, FirstRow(rows, ip).value);
      } else if ip == b.ip {
        FirstRowAt(r, ip, |rows|);
      } else {
        IpsSnoc(rows, NewRow(b, today));
      }
  }

  // ---------------------------------------------------------------------
  // A whole batch

  lemma IpsSnoc(rows: seq<LedgerRow>, x: LedgerRow)
    ensures Ips(rows + [x]) == Ips(rows) + {x.ip}
  {
    var r := rows + [x];
    assert forall k :: 0 <= k < |rows| ==> r[k] == rows[k];
    assert r[|rows|] == x;
    forall y | y in Ips(r)
      ensures y in Ips(rows) + {x.ip}
    {
      var k :| 0 <= k < |r| && r[k].ip == y;
      if k < |rows| {
        assert rows[k].ip == y;
      }
    }
  }

  lemma BatchIpsSnoc(batch: seq<BatchRow>)
    requires batch != []
    ensures BatchIps(batch) == BatchIps(batch[..|batch| - 1]) + {batch[|batch| - 1].ip}
  {
    var pre := batch[..|batch| - 1];
    assert forall k :: 0 <= k < |pre| ==> pre[k] == batch[k];
    forall x | x in BatchIps(batch)
      ensures x in BatchIps(pre) + {batch[|batch| - 1].ip}
    {
      var k :| 0 <= k < |batch| && batch[k].ip == x;
      if k < |pre| {
        assert pre[k].ip == x;
      }
    }
  }

  lemma {:induction false} CountPositive(batch: seq<BatchRow>, ip: string)
    ensures Count(batch, ip) > 0 <==> ip in BatchIps(batch)
    decreases |batch|
  {
    if batch != [] {
      CountPositive(batch[..|batch| - 1], ip);
      BatchIpsSnoc(batch);
    }
  }

  /** After the merge the ledger holds exactly the old addresses and the batch's. */
  lemma {:induction false} MergeBatchIps(rows: seq<LedgerRow>, batch: seq<BatchRow>, today: string)
    ensures Ips(MergeBatch(rows, batch, today)) == Ips(rows) + BatchIps(batch)
    decreases |batch|
  {
    if batch != [] {
      var pre := batch[..|batch| - 1];
      var x := batch[|batch| - 1];
      var p := MergeBatch(rows, pre, today);
      MergeBatchIps(rows, pre, today);
      BatchIpsSnoc(batch);
      var r := MergeRow(p, x, today);
      match FirstRow(p, x.ip)
      case Some(i) =>
        assert r == p[i := Bumped(p[i], x, today)];
        assert forall k :: 0 <= k < |p| ==> r[k].ip == p[k].ip;
        assert Ips(r) == Ips(p);
      case None =>
        assert r == p + [NewRow(x, today)];
        IpsSnoc(p, NewRow(x, today));
    }
  }

  /** The ledger grows by exactly the number of distinct batch addresses it did
      not hold: a new address repeated in the batch gets a single row. */
  lemma {:induction false} MergeBatchLength(rows: seq<LedgerRow>, batch: seq<BatchRow>, today: string)
    ensures |MergeBatch(rows, batch, today)| == |rows| + |BatchIps(batch) - Ips(rows)|
    decreases |batch|
  {
    if batch != [] {
      var pre := batch[..|batch| - 1];
      var x := batch[|batch| - 1];
      var p := MergeBatch(rows, pre, today);
      MergeBatchLength(rows, pre, today);
      MergeBatchIps(rows, pre, today);
      BatchIpsSnoc(batch);
      MergeRowLength(p, x, today);
      if x.ip in Ips(p) {
        assert BatchIps(batch) - Ips(rows) == BatchIps(pre) - Ips(rows);
      } else {
        assert BatchIps(batch) - Ips(rows) == (BatchIps(pre) - Ips(rows)) + {x.ip};
        assert x.ip !in BatchIps(pre) - Ips(rows);
      }
    }
  }

  /** One batch row adds a row exactly when its address is new. */
  lemma MergeRowLength(rows: seq<LedgerRow>, b: BatchRow, today: string)
    ensures |MergeRow(rows, b, today)| == |rows| + if b.ip in Ips(rows) then 0 else 1
  {
  }

  /** A ledger with one row per address still has one row per address after the merge. */
  lemma {:induction false} MergeBatchUnique(rows: seq<LedgerRow>, batch: seq<BatchRow>, today: string)
    requires Unique(rows)
    ensures Unique(MergeBatch(rows, batch, today))
    decreases |batch|
  {
    if batch != [] {
      var pre := batch[..|batch| - 1];
      var x := batch[|batch| - 1];
      var p := MergeBatch(rows, pre, today);
      MergeBatchUnique(rows, pre, today);
      var r := MergeRow(p, x, today);
      match FirstRow(p, x.ip)
      case Some(i) =>
        assert r == p[i := Bumped(p[i], x, today)];
        assert forall k :: 0 <= k < |p| ==> r[k].ip == p[k].ip;
      case None =>
        assert r == p + [NewRow(x, today)];
        assert forall k :: 0 <= k < |p| ==> p[k].ip in Ips(p);
    }
  }

  /** Per address: an address the batch does not carry keeps its row unchanged;
      one it carries ends with last-seen today, a count raised by the number of
      batch rows carrying it (so two queries of one run give +2), and a
      first-seen date that is the old one, or today for an address new to the ledger. */
  lemma {:induction false} MergeBatchRowOf(rows: seq<LedgerRow>, batch: seq<BatchRow>, today: string, ip: string)
    ensures var r := RowOf(MergeBatch(rows, batch, today), ip);
            (ip !in BatchIps(batch) ==> r == RowOf(rows, ip))
            && (ip in BatchIps(batch) ==>
                  r.Some? && r.value.lastSeen == today
                  && r.value.timesSeen == TimesOf(rows, ip) + Count(batch, ip)
                  && r.value.firstSeen == (if ip in Ips(rows) then RowOf(rows, ip).value.firstSeen else today))
    decreases |batch|
  {
    if batch != [] {
      var pre := batch[..|batch| - 1];
      var x := batch[|batch| - 1];
      var p := MergeBatch(rows, pre, today);
      MergeBatchRowOf(rows, pre, today, ip);
      MergeRowRowOf(p, x, today, ip);
      BatchIpsSnoc(batch);
      CountPositive(pre, ip);
    }
  }

  /** `times_seen` as a whole: the old count (0 for a new address) plus one per batch row. */
  lemma MergeBatchTimes(rows: seq<LedgerRow>, batch: seq<BatchRow>, today: string, ip: string)
    ensures TimesOf(MergeBatch(rows, batch, today), ip) == TimesOf(rows, ip) + Count(batch, ip)
  {
    MergeBatchRowOf(rows, batch, today, ip);
    CountPositive(batch, ip);
  }

  /** Every row's first-seen date is at most its last-seen date and at most today. */
  predicate DatesOrdered(rows: seq<LedgerRow>, today: string)
  {
    forall k :: 0 <= k < |rows| ==>
      !LexLess(rows[k].lastSeen, rows[k].firstSeen) && !LexLess(today, rows[k].firstSeen)
  }

  /** first_seen <= last_seen survives a merge dated no earlier than every first sighting. */
  lemma {:induction false} MergeBatchDatesOrdered(rows: seq<LedgerRow>, batch: seq<BatchRow>, today: string)
    requires DatesOrdered(rows, today)
    ensures DatesOrdered(MergeBatch(rows, batch, today), today)
    decreases |batch|
  {
    if batch != [] {
      var pre := batch[..|batch| - 1];
      var x := batch[|batch| - 1];
      var p := MergeBatch(rows, pre, today);
      MergeBatchDatesOrdered(rows, pre, today);
      LexIrreflexive(today);
      match FirstRow(p, x.ip)
      case Some(i) =>
        assert MergeRow(p, x, today) == p[i := Bumped(p[i], x, today)];
      case None =>
        assert MergeRow(p, x, today) == p + [NewRow(x, today)];
    }
  }
}
