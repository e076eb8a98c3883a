# C2-Tracker query scripts, modelled in Dafny

C2-Tracker collects the addresses of command-and-control servers from a host
search service (Shodan). A handful of Python scripts do the work:

- `shodan_query_manager_monty.py` runs the active query specifications of a
  queries file. Each query reads a bounded number of result pages and folds
  the matches into one record per address: the earliest date, the union of
  hostnames, and every other column from the first match. It then merges all
  records of the run, once, into a persistent seen-IP ledger.
- `shodan_query_manager_v1.2.py` and `shodan_query_manager_monty_test.py`
  count the results first, then request pages `1..ceil(total/100)`. They skip
  failed, malformed and empty pages, and keep the first match of each address.
- `shodan-test.py` requests pages until a short page or an error, and
  collects the set of addresses.
- `transformqueries_v1.py` turns a Python-literal style queries file into
  JSON, and a `{malware name: [queries]}` map into numbered query
  specifications.

The network is not modelled. A provider is a function from a request (query,
page and, for the monty script, the page size) to an abstract outcome:
- a page of matches;
- a reply without `matches`;
- an error status;
- a transport failure;
- a body that is not JSON.

A match is one of three things:
- an object with its fields;
- an object whose `location` is not an object;
- something that is not an object at all.

Today's date and the account's plan are parameters. Files are already-parsed
values: a queries file is missing, invalid JSON or a list of specifications.

Modules follow the scripts:
- `Opt`, `Strings` and `Search`: shared values and Python string operations.
- `Sweep`: the page loop and first-wins dedup whose control flow v1.2 and
  monty_test share. Their text differs: v1.2 nests a second `try` around
  `response.json()` and cleans hostnames inside the match `try`.
- `V12` and `MontyTest`: their record builders and `run_queries`.
- `MontyFold`: monty's per-query dictionary fold.
- `Ledger`: the seen-IP ledger, a class updated in place.
- `Monty`: the subscription table, the queries filter, the bounded page loop
  and the run.
- `ShodanTest`: the `while True` loop of `shodan-test.py`.
- `Transform`: `process_file` and `transform_data`.

Each loop of the scripts is a Dafny method, proved against a function of its
inputs. The lemmas beside each function state what the scripts promise:
- one row per address;
- the order of first occurrence;
- earliest dates and hostname unions;
- growth-only ledger lists;
- page numbering and stop reasons;
- the shape of rewritten lines.

## Model

| member | source | states |
|---|---|---|
| Strings.RStrip | transformqueries_v1.py:8 | the result is a prefix of the line that does not end in white space, and only white space was removed |
| Strings.LStrip | transformqueries_v1.py:13 | the result is a suffix that does not start with white space, and only white space was removed |
| Strings.Strip | shodan_query_manager_v1.2.py:52 | the result has no white space at either end, and is empty exactly when the input is blank |
| Strings.StripIsSlice | shodan_query_manager_v1.2.py:52 | the result is a slice of the input with only white space before and after it |
| Strings.StripKeepsOut | shodan_query_manager_v1.2.py:52 | a character absent from a string is absent from its strip |
| Strings.Split | shodan_query_manager_monty.py:118 | splitting gives at least one piece and no piece holds the separator |
| Strings.JoinSplit | shodan_query_manager_monty.py:150 | joining the comma pieces of a text gives the text back |
| Strings.SplitJoin | shodan_query_manager_v1.2.py:108 | splitting a comma join of comma-free pieces gives the pieces back |
| Strings.Lower | shodan_query_manager_monty.py:169 | lower-casing keeps the length and lowers each ASCII letter |
| Strings.LexIrreflexive | shodan_query_manager_monty.py:232 | no date string is older than itself |
| Strings.LexTransitive | shodan_query_manager_monty.py:232 | string `<` is transitive |
| Strings.LexTotal | shodan_query_manager_monty.py:232 | of two different strings one is less |
| Strings.LexAsymmetric | shodan_query_manager_monty.py:232 | string `<` is asymmetric |
| Strings.NatToString | transformqueries_v1.py:39 | the `idx` suffix is decimal digits without a leading zero that read back as `idx` |
| Strings.NatToStringInjective | transformqueries_v1.py:39 | different numbers give different suffixes |
| Search.PagesForIsCeiling | shodan_query_manager_v1.2.py:62 | the page count is the ceiling of total / 100, zero exactly for a zero total, and none for a negative total |
| Search.PageNumbers | shodan_query_manager_v1.2.py:68 | `range(1, n + 1)` is the pages 1, 2, ..., n, and nothing when n <= 0 |
| Search.Columns | shodan_query_manager_v1.2.py:109-113 | exactly n positional columns, column i being element i or `''` |
| Search.ConcatMapAppend | shodan_query_manager_v1.2.py:158-160 | running two lists of queries in turn gives each one's rows in turn |
| Search.ConcatMapMembers | shodan_query_manager_v1.2.py:158-160 | a row is in the run's result exactly when some query produced it |
| Sweep.TotalResults | shodan_query_manager_v1.2.py:33-45 | the count is the reply's `total` when there is one, and 0 when the request fails or the reply has no `total` |
| Sweep.SweepPages | shodan_query_manager_v1.2.py:68-137 | pages 1..n are each requested once, in order, whatever they return; the records are built from the first-wins fold of the matches of all pages |
| Sweep.SweepMatches | shodan_query_manager_v1.2.py:97-133 | one page's match loop extends the records and the key set exactly as the first-wins fold does |
| Sweep.FirstWinsKeys | shodan_query_manager_v1.2.py:99-131 | the kept addresses are those of the readable matches with a non-empty address, and they are non-empty and pairwise distinct |
| Sweep.FirstWinsIsFirstOccurrences | shodan_query_manager_v1.2.py:97-131 | the fold keeps exactly the first readable match of each non-empty address, in arrival order |
| Sweep.LaterDuplicatesChangeNothing | shodan_query_manager_v1.2.py:100 | matches whose addresses are already kept change nothing |
| Sweep.UnkeyedMatchIgnored | shodan_query_manager_v1.2.py:98-133 | a match that raises, or has no address, is skipped on its own and the rest of the page is still read |
| V12.Cleaned | shodan_query_manager_v1.2.py:52 | cleaning never lengthens a list and leaves only trimmed, non-empty pieces |
| V12.CleanedIsFilterMap | shodan_query_manager_v1.2.py:52 | the cleaned list is exactly the stripped non-blank pieces, in input order |
| V12.CleanedPieces | shodan_query_manager_v1.2.py:52 | each cleaned piece is the strip of a non-blank input piece; with no blank piece, piece `i` is the strip of input `i` |
| V12.CleanedKeepsOut | shodan_query_manager_v1.2.py:52 | cleaning introduces no character, so cleaned tags hold no comma |
| V12.TagRoundTrip | shodan_query_manager_v1.2.py:51-52 | splitting the `tag` column on commas gives the cleaned tags back, and it is `''` when there are none |
| V12.PerformQuery | shodan_query_manager_v1.2.py:47-139 | a zero count requests no page and yields nothing; otherwise the records and the pages requested are as `QueryRecords` and `QueryPages` say |
| V12.QueryRecordsSpec | shodan_query_manager_v1.2.py:99-131 | one record per first occurrence of a non-empty address, in order; addresses are distinct; dates are today and the label is `CTI-IOA` |
| V12.RunQueries | shodan_query_manager_v1.2.py:141-167 | a queries file that fails to load runs nothing; otherwise every query runs, with no active filter, and the rows are concatenated in file order; a file is written exactly when there are rows |
| MontyTest.PerformQuery | shodan_query_manager_monty_test.py:40-107 | a zero count requests no page; otherwise pages 1..ceil(total/100) are requested and the records are the first-wins fold |
| MontyTest.QueryRecordsSpec | shodan_query_manager_monty_test.py:80-99 | one record per first occurrence of a non-empty address, in order; the tag is the query item's own; the label is the one given, or `''` |
| MontyTest.SameAddressesAsV12 | shodan_query_manager_monty_test.py:58-99 | for the same replies the test script and v1.2 report the same addresses in the same order |
| MontyTest.RunQueries | shodan_query_manager_monty_test.py:109-134 | a load failure runs nothing; otherwise all queries run and their rows are concatenated in file order |
| ShodanTest.ShodanSearch | shodan-test.py:7-46 | pages 1, 2, ... are requested until the first page that does not continue the loop; a run raises exactly on a transport failure, a body that is not JSON or an unreadable match; a finished run reports the union of the addresses of all pages read and the page count computed from page 1 |
| ShodanTest.VisitPage | shodan-test.py:19-45 | an error status or a reply without `matches` stops quietly; a short page read in full stops; a full page read in full continues |
| ShodanTest.ReadPage | shodan-test.py:37-38 | the match loop succeeds exactly when every match has a readable `ip_str`, and then adds all of them |
| ShodanTest.IpsUpToMembers | shodan-test.py:8-38 | an address is reported exactly when some match on the pages read carries it |
| ShodanTest.FinishedStops | shodan-test.py:21-43 | a finished run stopped on an error status, a missing `matches` or a short page; the printed page count is the ceiling of total / 100 |
| Ledger.FirstRow | shodan_query_manager_monty.py:121-126 | the first ledger position holding the address, or none exactly when the address is absent |
| Ledger.FindRow | shodan_query_manager_monty.py:121-126 | the linear search finds that first position |
| Ledger.AppendTags | shodan_query_manager_monty.py:136-138 | the tag loop computes `WithTags` |
| Ledger.SeenIps.constructor | shodan_query_manager_monty.py:91-97 | the ledger holds the rows it was loaded with |
| Ledger.SeenIps.Update | shodan_query_manager_monty.py:103-154 | the addresses returned are those the ledger held before the call, and the new rows are the old ones merged with the batch row by row |
| Ledger.SeenIps.MergeOne | shodan_query_manager_monty.py:115-152 | one batch row bumps the first row of a known address in place, or appends a row for a new one |
| Ledger.MergeRowAbsent | shodan_query_manager_monty.py:142-152 | a first sighting appends one row dated today with count 1, the row's malware name and its tag text unchanged |
| Ledger.MergeRowPresent | shodan_query_manager_monty.py:124-128 | a known address changes only its first row: first seen kept, last seen today, count plus one |
| Ledger.WithTagsSpec | shodan_query_manager_monty.py:136-138 | the old tag list stays a prefix; only non-empty tags of the row that are not yet listed are appended, each once; afterwards every non-empty tag of the row is listed |
| Ledger.BumpedNames | shodan_query_manager_monty.py:131-140 | the malware cell gains `,name` exactly when the name is not yet listed, and otherwise stays as it was |
| Ledger.BumpedTags | shodan_query_manager_monty.py:132-141 | the tag cell's old text stays a prefix of the new one, and is unchanged when the row brings no new tag |
| Ledger.MergeRowRowOf | shodan_query_manager_monty.py:115-152 | one batch row changes the row of its own address only, to a new row or the bumped old one |
| Ledger.MergeRowLength | shodan_query_manager_monty.py:124-152 | one batch row adds a ledger row exactly when its address is new |
| Ledger.MergeBatchIps | shodan_query_manager_monty.py:115-152 | afterwards the ledger holds exactly the old addresses and the batch's |
| Ledger.MergeBatchLength | shodan_query_manager_monty.py:115-152 | the ledger grows by the number of distinct batch addresses it did not hold; a new address repeated in the batch gets one row |
| Ledger.MergeBatchUnique | shodan_query_manager_monty.py:115-152 | a ledger with one row per address keeps one row per address |
| Ledger.MergeBatchRowOf | shodan_query_manager_monty.py:115-152 | an address outside the batch keeps its row; one inside ends with last seen today, the first-seen date unchanged (or today when new), and the count raised by the number of batch rows carrying it |
| Ledger.MergeBatchTimes | shodan_query_manager_monty.py:128 | `times_seen` is the old count (0 for a new address) plus one per batch row with the address |
| Ledger.MergeBatchDatesOrdered | shodan_query_manager_monty.py:127-147 | first seen <= last seen <= today survives a merge dated today |
| Monty.DetermineResultLimits | shodan_query_manager_monty.py:178-183 | the lookup succeeds exactly for basic, freelancer and corporate, with 1 <= pages limit <= results limit |
| Monty.SubscriptionAsWrittenHasNoLimits | shodan_query_manager_monty.py:31-48 | as written, the lookup fails for every plan |
| Monty.OtherPlanKeepsMissingKey | shodan_query_manager_monty.py:59-66 | a plan other than freelancer or enterprise keeps the default subscription, which the table lacks |
| Monty.Subscription | shodan_query_manager_monty.py:59-66 | the intended subscription is freelancer, corporate (for enterprise) or basic, by the plan, and always has limits |
| Monty.RunAsWritten | shodan_query_manager_monty.py:295-320 | as written, a run with any active query aborts, and a run without one returns no results and leaves the ledger as loaded |
| Monty.RunWithPlan | shodan_query_manager_monty.py:295-353 | with the intended subscription, the run always completes with every active query's records and the merged ledger |
| Monty.ActiveOf | shodan_query_manager_monty.py:169 | a specification is kept exactly when it is active |
| Monty.ActiveOfAppend | shodan_query_manager_monty.py:169 | the filter keeps file order |
| Monty.IsActiveCases | shodan_query_manager_monty.py:169 | `active` is `yes` in any letter case, and nothing else |
| Monty.LoadQueries | shodan_query_manager_monty.py:156-176 | a missing file or invalid JSON gives no queries; otherwise the active specifications, invalid ones included |
| Monty.PagesFromRun | shodan_query_manager_monty.py:203 | the pages requested are consecutive from the first and within the pages limit |
| Monty.PagesFromFull | shodan_query_manager_monty.py:262-264 | every page but the last came back with at least 1000 matches |
| Monty.PagesFromStop | shodan_query_manager_monty.py:262-268 | a loop that ends before the limit ended on an API error, a short page or a raise |
| Monty.FetchedShape | shodan_query_manager_monty.py:203-268 | the pages are 1..k with k <= pages limit, at least one page when the limit is positive, all but the last full |
| Monty.ErrorPageKeepsCollected | shodan_query_manager_monty.py:266-268 | an API error ends the loop and keeps the matches of the earlier pages |
| Monty.HonouredLimitMeansOnePage | shodan_query_manager_monty.py:208 | with basic or freelancer limits the page size is 100, so a provider honouring it gets at most one request |
| Monty.QueryRowsSpec | shodan_query_manager_monty.py:218-293 | when a match raises there are no records; otherwise one per address read, in order of first occurrence, each with the first match's columns, the least date and the union of hostnames |
| Monty.FoldPage | shodan_query_manager_monty.py:218-260 | one page's match loop computes the fold, and stops at the first match that raises |
| Monty.FailureIsFinal | shodan_query_manager_monty.py:288-293 | once a match raised, the whole query has raised |
| Monty.FetchPage | shodan_query_manager_monty.py:204-268 | one pass requests a page, folds its matches, and goes on only after a full page read without a raise |
| Monty.ScanPages | shodan_query_manager_monty.py:203-271 | the page loop requests the pages of `Fetched` and leaves the fold of their matches |
| Monty.Values | shodan_query_manager_monty.py:274-282 | the records are the dictionary's values in insertion order |
| Monty.PerformQuery | shodan_query_manager_monty.py:185-293 | the records and the pages requested are as `QueryRows` and `Fetched` say |
| Monty.LoadOrCreate | shodan_query_manager_monty.py:73-101 | a stored ledger gives exactly its rows; a missing or unreadable one is empty |
| Monty.BatchOf | shodan_query_manager_monty.py:115-118 | the merge reads each result row's address, malware name and tag, in order |
| Monty.RunQueries | shodan_query_manager_monty.py:295-353 | the run aborts exactly when there is an active query and no limits; otherwise it returns every active query's records in order, the ledger merged once with all of them, and the addresses held before |
| Monty.QueryAll | shodan_query_manager_monty.py:315-317 | the first query raises when the limits are missing; otherwise all rows are concatenated in query order |
| MontyFold.TagColumns | shodan_query_manager_monty.py:214-215 | five columns: the first five comma pieces of the tag, padded with `''` |
| MontyFold.Flatten | shodan_query_manager_monty.py:274-282 | the values in insertion order, and nothing after an exception |
| MontyFold.FoldFromWellFormed | shodan_query_manager_monty.py:228-260 | the insertion order lists every key of the dictionary exactly once |
| MontyFold.FoldFromAppend | shodan_query_manager_monty.py:203-260 | the dictionary carries over from page to page |
| MontyFold.FailedStays | shodan_query_manager_monty.py:288-293 | an exception ends the query for good |
| MontyFold.EntryFactsOther | shodan_query_manager_monty.py:218-260 | a match with another address leaves a record's facts true |
| MontyFold.EntryFactsMerged | shodan_query_manager_monty.py:228-235 | a repeated address keeps the first match's columns, the least date and the union of hostnames |
| MontyFold.EntryFactsNew | shodan_query_manager_monty.py:236-260 | a new address's record is built from its first match |
| MontyFold.StepOrder | shodan_query_manager_monty.py:228-260 | keys stay in order of first occurrence |
| MontyFold.StepSummary | shodan_query_manager_monty.py:218-260 | one match that does not raise keeps the dictionary summarising the matches read |
| MontyFold.FoldSummary | shodan_query_manager_monty.py:218-260 | a fold that does not raise has one key per address read, in order of first occurrence, each record as the summary says |
| MontyFold.FlattenSummary | shodan_query_manager_monty.py:274-282 | the flattened records are one per address, in order of first occurrence, each as the summary says |
| MontyFold.FoldFailsIff | shodan_query_manager_monty.py:218-250 | the query raises exactly when some match is not an object, has an unparsable timestamp, or is the first with its address and has an unreadable location |
| Transform.Inner | transformqueries_v1.py:20 | the outer two characters are dropped |
| Transform.Swapped | transformqueries_v1.py:21 | each `"` becomes `'`, and no `"` is left |
| Transform.Assemble | transformqueries_v1.py:23-25 | n spaces, a double quote, the text, a double quote, and a comma exactly when there was one |
| Transform.ProcessFile | transformqueries_v1.py:3-30 | the output is the kept lines, rewritten, joined by newlines |
| Transform.DroppedIff | transformqueries_v1.py:8-10 | a line is dropped exactly when it is blank or its first non-space character is `#` |
| Transform.BlankIff | transformqueries_v1.py:8-9 | a line strips to nothing exactly when it is blank |
| Transform.CommentIff | transformqueries_v1.py:9 | a non-blank line is dropped as a comment exactly when its first non-space character is `#` |
| Transform.AssembledFacts | transformqueries_v1.py:20-25 | the pieces of a requoted line, from its parts |
| Transform.KeptLine | transformqueries_v1.py:12-28 | a kept line is requoted when it holds `'` and otherwise kept stripped |
| Transform.KeptLineShape | transformqueries_v1.py:7-28 | no output line is empty, blank or a comment |
| Transform.RequotedFacts | transformqueries_v1.py:12-26 | the leading white space becomes as many spaces (a tab becomes one space); double quotes open and close; a comma exactly when the input had one; the inside is the content less its outer characters, with no `"` |
| Transform.PlainLineKept | transformqueries_v1.py:27-28 | a line without `'` is kept with its trailing white space removed |
| Transform.RequotedShape | transformqueries_v1.py:12-14 | a line with `'` is requoted, its leading white space replaced by as many spaces |
| Transform.RewrittenLines | transformqueries_v1.py:7-30 | at most as many lines as the input, each the rewrite of an input line, none empty or a comment, and all of them in order when none is dropped |
| Transform.RecordNamesDistinct | transformqueries_v1.py:39 | records of one name with different numbers carry different malware names |
| Transform.Numbered | transformqueries_v1.py:35-41 | one record per query of a name, numbered from 1 |
| Transform.TransformData | transformqueries_v1.py:32-42 | the nested loop computes `Transformed` |
| Transform.TransformedAt | transformqueries_v1.py:33-41 | one record per (name, query) pair, name by name and then query by query |
| Transform.TransformedFields | transformqueries_v1.py:36-41 | every record has tag `IOA,Lab,Monty`, is inactive, and is named `name_i` from one of the pairs |
| Transform.ConvertedQueriesInactive | transformqueries_v1.py:40 | a converted file activates nothing for the monty loader |

## Left out

- HTTP calls, `shodan.Shodan`, `api.info` and `api.search` are not modelled. The provider is a function parameter, and the plan is a parameter.
- `time.sleep`, logging, `print`, `argparse` and `main`, `load_api_key` and `os.makedirs` are left out; they do not change the data.
- CSV and JSON reading and writing are left out: `read_csv`, `to_csv`, `json.load`, `json.loads` and `json.dump`. Files are parsed values, and `run_queries` reports whether it would write.
- `datetime.strptime` is left out. A timestamp is absent, an already-parsed date, or unparsable.
- The `hostname` and `hostname1..3` columns of the monty records are left out, because they come from a set whose iteration order Python does not fix. The record keeps the hostname set.
- The constant decoration columns are left out: `labelcolour`, `pattern type` and `main observable type`.
- `Strings.Lower`: only ASCII letters are lowered, not all of Unicode.
- JSON values of the wrong type are not modelled, such as a `tag` that is not a string or `hostnames` that is not a list.
- ShodanTest.ShodanSearch: requires that some page stops the loop. Without one the script requests pages forever. It returns the last page number rather than printing.
- ShodanTest.VisitPage: an error status whose body is not JSON raises in the script when it prints the error. The model treats every error status as a quiet stop.
- Transform.ProcessFile: lines are the pieces between `\n`. Universal-newline translation of a lone `\r` is not modelled.
- The file name printing and file handling of `process_file`, and `main`, are left out.

Behaviour of the scripts worth noting:
- `times_seen` grows once per batch row, not once per run. Two queries
  reporting an address give +2.
- A ledger that fails to load gives an empty ledger, and the run goes on.
- Malware names and tags are comma-joined lists that grow by appending, not
  sets. The merge depends on the batch order.
- In the monty script an API error on a page ends the page loop; it does not
  skip to the next page.
- The monty script does not skip matches without an address. The empty
  address gets a record of its own.
- In the monty script, a match that raises empties the whole query's result.
  It is not skipped on its own.

## Findings

| source | as written | input that shows it | evidently intended | confidence | as-written member | corrected member |
|---|---|---|---|---|---|---|
| shodan_query_manager_monty.py:48 | `__init__` calls `initialize_shodan_client` (line 31), which sets `current_subscription` from the plan. Line 48 then assigns `'enterprise'`, a key the limits table lacks, so `determine_result_limits` raises `KeyError` on the first active query. Even with the order swapped, a plan other than freelancer or enterprise keeps `'enterprise'`. | any plan, e.g. `freelancer`, with one active query | the detected subscription, and `basic` otherwise, as the else branch's log line says | not executed | Monty.RunAsWritten | Monty.RunWithPlan |
