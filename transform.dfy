/** transformqueries_v1.py: a line rewrite that turns a Python-literal style
    queries file into JSON (single-quoted strings become double-quoted, blank
    and comment lines go), and the mapping of `{malware name: [queries]}` to
    numbered, inactive query specifications. */
module Transform {
  import opened Opt
  import opened Strings
  import opened Search
  import Monty

  // ---------------------------------------------------------------------
  // process_file

  /** Every character is white space (the empty string included). */
  predicate Blank(s: string)
  {
    forall k :: 0 <= k < |s| ==> IsSpace(s[k])
  }

  /** The first character that is not white space is `#`. */
  predicate CommentLine(s: string)
  {
    exists i {:trigger s[..i]} :: 0 <= i < |s| && s[i] == '#' && Blank(s[..i])
  }

  /** The number of leading white-space characters,
      `len(stripped) - len(stripped.lstrip())`. */
  function Indent(s: string): nat
  {
    |s| - |LStrip(s)|
  }

  function Spaces(n: nat): (r: string)
    ensures |r| == n && forall k :: 0 <= k < n ==> r[k] == ' '
  {
    seq(n, _ => ' ')
  }

  /** `s[1:-1]`: the outer two characters dropped (empty when there are fewer than two). */
  function Inner(s: string): (r: string)
    ensures |r| == if |s| >= 2 then |s| - 2 else 0
    ensures forall k :: 0 <= k < |r| ==> r[k] == s[k + 1]
  {
    if |s| >= 2 then s[1..|s| - 1] else ""
  }

  function SwapQuote(c: char): char
  {
    if c == '"' then '\'' else c
  }

  /** `s.replace('"', "'")`. */
  function Swapped(s: string): (r: string)
    ensures |r| == |s|
    ensures forall k :: 0 <= k < |s| ==> r[k] == SwapQuote(s[k])
    ensures '"' !in r
  {
    seq(|s|, k requires 0 <= k < |s| => SwapQuote(s[k]))
  }

  /** The stripped line, lstripped, starts with `#`. */
  predicate StartsWithHash(stripped: string)
  {
    LStrip(stripped) != [] && LStrip(stripped)[0] == '#'
  }

  /** The stripped line ends in a comma, which the rewrite sets aside
      (`stripped[n:]` ends with one exactly when `stripped` does, as a comma
      is not white space). */
  predicate HasComma(stripped: string)
  {
    stripped != [] && stripped[|stripped| - 1] == ','
  }

  /** The quoted item of a stripped line: what follows the indentation, less
      a trailing comma. */
  function Content(stripped: string): string
  {
    var n := Indent(stripped);
    if HasComma(stripped) && n < |stripped| then stripped[n..|stripped| - 1] else stripped[n..]
  }

  /** The rewrite of a stripped line that holds a `'`: the indentation becomes
      that many spaces, a trailing comma is set aside, the outer two
      characters of the rest are replaced by double quotes and any `"` inside
      becomes `'`. */
  function Requoted(stripped: string): string
  {
    Assemble(Indent(stripped), Swapped(Inner(Content(stripped))), HasComma(stripped))
  }

  /** `' ' * indent + f'"{inner}"'`, then the comma if there was one. */
  function Assemble(n: nat, mid: string, comma: bool): (r: string)
    ensures |r| == n + |mid| + 2 + (if comma then 1 else 0)
    ensures forall k :: 0 <= k < n ==> r[k] == ' '
    ensures r[n] == '"' && r[n + 1 + |mid|] == '"'
    ensures r[n + 1..n + 1 + |mid|] == mid
    ensures r[|r| - 1] == ',' <==> comma
  {
    var r := Spaces(n) + ['"'] + mid + ['"'] + (if comma then [','] else []);
    assert r[n + 1..n + 1 + |mid|] == mid;
    r
  }

  /** What the loop of `process_file` appends for one input line, if anything. */
  function RewriteLine(line: string): Option<string>
  {
    var stripped := RStrip(line);
    if stripped == [] || StartsWithHash(stripped) then None
    else if '\'' in stripped then Some(Requoted(stripped))
    else Some(stripped)
  }

  /** The kept lines, rewritten, in input order. */
  function Rewritten(lines: seq<string>): seq<string>
  {
    FilterMap(RewriteLine, lines)
  }

  /** `process_file` on the text of a file: its lines are the pieces between
      line feeds (Python's line iteration keeps the `\n`, which `rstrip`
      removes, and a final empty piece is a blank line that is dropped). */
  method ProcessFile(text: string) returns (content: string)
    ensures content == Join(Rewritten(Split(text, '\n')), "\n")
  {
    var fileLines := Split(text, '\n');
    var lines: seq<string> := [];
    for i := 0 to |fileLines|
      invariant lines == Rewritten(fileLines[..i])
    {
      assert fileLines[..i + 1][..i] == fileLines[..i];
      var r := RewriteLine(fileLines[i]);
      if r.None? {
        // blank or comment
        continue;
      }
      lines := lines + [r.value];
    }
    assert fileLines[..|fileLines|] == fileLines;
    content := Join(lines, "\n");
  }

  // ---------------------------------------------------------------------
  // Properties of the line rewrite

  /** Where the first non-space character of `s` is `j`, `s` is a comment
      exactly when that character is `#`, and `s` is not blank. */
  lemma FirstNonSpace(s: string, j: int)
    requires 0 <= j < |s| && !IsSpace(s[j])
    requires forall k :: 0 <= k < j ==> IsSpace(s[k])
    ensures !Blank(s)
    ensures CommentLine(s) <==> s[j] == '#'
  {
    if s[j] == '#' {
      assert Blank(s[..j]);
    }
    if CommentLine(s) {
      var i :| 0 <= i < |s| && s[i] == '#' && Blank(s[..i]);
      if i > j {
        assert s[..i][j] == s[j];
      }
    }
  }

  /** The first non-space character of a stripped, non-empty line is where
      its lstrip begins. */
  lemma StrippedStart(line: string)
    requires RStrip(line) != []
    ensures var t := RStrip(line);
            var j := Indent(t);
            j < |t| && !IsSpace(line[j]) && LStrip(t)[0] == line[j]
            && forall k :: 0 <= k < j ==> IsSpace(line[k])
  {
    var t := RStrip(line);
    LStripStart(t);
    forall k | 0 <= k < |t|
      ensures line[k] == t[k]
    {
    }
  }

  /** A line is dropped exactly when it is blank or its first non-space
      character is `#`. */
  lemma DroppedIff(line: string)
    ensures RewriteLine(line).None? <==> Blank(line) || CommentLine(line)
  {
    BlankIff(line);
    if RStrip(line) != [] {
      CommentIff(line);
    }
  }

  /** A line strips to nothing exactly when it is blank. */
  lemma BlankIff(line: string)
    ensures RStrip(line) == [] <==> Blank(line)
  {
    if RStrip(line) == [] {
      forall k | 0 <= k < |line|
        ensures IsSpace(line[k])
      {
      }
    }
  }

  /** A line that does not strip to nothing is a comment exactly when its
      stripped form starts with `#`. */
  lemma CommentIff(line: string)
    requires RStrip(line) != []
    ensures StartsWithHash(RStrip(line)) <==> CommentLine(line)
  {
    StrippedStart(line);
    FirstNonSpace(line, Indent(RStrip(line)));
  }

  /** The pieces of a requoted line: `n` spaces, a double quote, the content
      between its outer two characters with every `"` made `'`, a double
      quote, and the comma when the content ended in one. */
  lemma AssembledFacts(n: nat, body: string, comma: bool)
    ensures var out := Assemble(n, Swapped(Inner(body)), comma);
            n < Close(out, comma) < |out|
    ensures var out := Assemble(n, Swapped(Inner(body)), comma);
            forall k :: 0 <= k < n ==> out[k] == ' '
    ensures var out := Assemble(n, Swapped(Inner(body)), comma);
            out[n] == '"' && out[Close(out, comma)] == '"'
    ensures var out := Assemble(n, Swapped(Inner(body)), comma);
            out[|out| - 1] == ',' <==> comma
    ensures var out := Assemble(n, Swapped(Inner(body)), comma);
            Close(out, comma) - n - 1 == if |body| >= 2 then |body| - 2 else 0
    ensures var out := Assemble(n, Swapped(Inner(body)), comma);
            '"' !in out[n + 1..Close(out, comma)]
    ensures var out := Assemble(n, Swapped(Inner(body)), comma);
            forall k :: n + 1 <= k < Close(out, comma) ==> out[k] == SwapQuote(body[k - n])
  {
    var mid := Swapped(Inner(body));
    var out := Assemble(n, mid, comma);
    var close := n + 1 + |mid|;
    forall k | n + 1 <= k < close
      ensures out[k] == SwapQuote(body[k - n])
    {
      assert out[k] == out[n + 1..close][k - n - 1];
    }
  }

  /** Where the closing double quote of a rewritten line stands. */
  function Close(out: string, comma: bool): int
  {
    if comma then |out| - 2 else |out| - 1
  }

  /** What a kept line becomes, by the cases of the loop body. */
  lemma KeptLine(line: string)
    requires RewriteLine(line).Some?
    ensures var t := RStrip(line);
            t != [] && LStrip(t) != [] && !StartsWithHash(t)
            && RewriteLine(line).value == if '\'' in t then Requoted(t) else t
  {
  }

  /** Neither empty, blank nor a comment. */
  predicate Clean(s: string)
  {
    s != [] && !Blank(s) && !CommentLine(s)
  }

  /** No output line is empty, blank or a comment. */
  lemma KeptLineShape(line: string)
    requires RewriteLine(line).Some?
    ensures Clean(RewriteLine(line).value)
  {
    KeptLine(line);
    if '\'' in RStrip(line) {
      RequotedClean(RStrip(line));
    } else {
      StrippedClean(RStrip(line));
    }
  }

  /** A requoted line starts with spaces and a double quote. */
  lemma RequotedClean(t: string)
    requires LStrip(t) != []
    ensures var out := Requoted(t);
            out != [] && !Blank(out) && !CommentLine(out)
  {
    var j := Indent(t);
    RequotedFacts(t);
    FirstNonSpace(Requoted(t), j);
  }

  /** A kept line without `'` is neither blank nor a comment. */
  lemma StrippedClean(t: string)
    requires LStrip(t) != [] && LStrip(t)[0] != '#'
    ensures Clean(t)
  {
    LStripStart(t);
    FirstNonSpace(t, Indent(t));
  }

  /** The first non-space character of `t` is where its lstrip begins. */
  lemma LStripStart(t: string)
    requires LStrip(t) != []
    ensures var j := Indent(t);
            j < |t| && !IsSpace(t[j]) && LStrip(t)[0] == t[j] && forall k :: 0 <= k < j ==> IsSpace(t[k])
  {
  }

  /** The pieces of a requoted line, as positions of the stripped line `t`. */
  lemma RequotedFacts(t: string)
    requires LStrip(t) != []
    ensures Indent(t) < Close(Requoted(t), HasComma(t)) < |Requoted(t)|
    ensures forall k :: 0 <= k < Indent(t) ==> Requoted(t)[k] == ' '
    ensures Requoted(t)[Indent(t)] == '"' && Requoted(t)[Close(Requoted(t), HasComma(t))] == '"'
    ensures Requoted(t)[|Requoted(t)| - 1] == ',' <==> HasComma(t)
    ensures Close(Requoted(t), HasComma(t)) - Indent(t) - 1 == if |Content(t)| >= 2 then |Content(t)| - 2 else 0
    ensures '"' !in Requoted(t)[Indent(t) + 1..Close(Requoted(t), HasComma(t))]
    ensures forall k :: Indent(t) + 1 <= k < Close(Requoted(t), HasComma(t)) ==>
              Requoted(t)[k] == SwapQuote(Content(t)[k - Indent(t)])
  {
    AssembledFacts(Indent(t), Content(t), HasComma(t));
  }

  /** A line without `'` is kept as it is, trailing white space removed. */
  lemma PlainLineKept(line: string)
    requires RewriteLine(line).Some?
    requires '\'' !in line
    ensures RewriteLine(line) == Some(RStrip(line))
  {
    var t := RStrip(line);
    assert '\'' !in t by {
      forall k | 0 <= k < |t|
        ensures t[k] != '\''
      {
        assert t[k] == line[k];
      }
    }
  }

  /** A kept line with a `'` is requoted, and the indentation its rewrite
      turns into spaces is exactly the line's leading white space
      (`RequotedFacts` gives the rest of its shape). */
  lemma RequotedShape(line: string)
    requires RewriteLine(line).Some?
    requires '\'' in RStrip(line)
    ensures RewriteLine(line).value == Requoted(RStrip(line))
    ensures var n := Indent(RStrip(line));
            n < |line| && !IsSpace(line[n]) && forall k :: 0 <= k < n ==> IsSpace(line[k])
  {
    KeptLine(line);
    StrippedStart(line);
  }

  /** The output has at most as many lines as the input, each the rewrite of
      an input line and none of them empty, blank or a comment; with nothing
      dropped, line `i` of the output is the rewrite of line `i`. */
  lemma RewrittenLines(lines: seq<string>)
    ensures |Rewritten(lines)| <= |lines|
    ensures forall k :: 0 <= k < |Rewritten(lines)| ==>
              exists i :: 0 <= i < |lines| && RewriteLine(lines[i]) == Some(Rewritten(lines)[k])
    ensures forall k :: 0 <= k < |Rewritten(lines)| ==> Clean(Rewritten(lines)[k])
    ensures (forall i :: 0 <= i < |lines| ==> RewriteLine(lines[i]).Some?) ==>
              |Rewritten(lines)| == |lines|
              && forall i :: 0 <= i < |lines| ==> Rewritten(lines)[i] == RewriteLine(lines[i]).value
  {
    FilterMapCount(RewriteLine, lines);
    FilterMapFrom(RewriteLine, lines);
    var out := Rewritten(lines);
    forall k | 0 <= k < |out|
      ensures Clean(out[k])
    {
      var i :| 0 <= i < |lines| && RewriteLine(lines[i]) == Some(out[k]);
      KeptLineShape(lines[i]);
    }
  }

  // ---------------------------------------------------------------------
  // transform_data

  const TAG: string := "IOA,Lab,Monty"
  const INACTIVE: string := "no"

  /** The specification made for the `idx`-th query (from 1) of `name`. */
  function Record(name: string, query: string, idx: nat): QueryItem
  {
    QueryItem(Some(query), Some(TAG), Some(name + "_" + NatToString(idx)), Some(INACTIVE))
  }

  /** Two records of one name with different numbers carry different
      malware names (`name_1`, `name_2`, ... never collide). */
  lemma RecordNamesDistinct(name: string, q1: string, q2: string, i: nat, j: nat)
    requires i != j
    ensures Record(name, q1, i).malwareName != Record(name, q2, j).malwareName
  {
    var p := name + "_";
    var a, b := p + NatToString(i), p + NatToString(j);
    assert a[|p|..] == NatToString(i) && b[|p|..] == NatToString(j);
    if a == b {
      NatToStringInjective(i, j);
    }
  }

  /** The records for one name's queries, numbered from 1. */
  function Numbered(name: string, queries: seq<string>): (r: seq<QueryItem>)
    ensures |r| == |queries|
    ensures forall j :: 0 <= j < |queries| ==> r[j] == Record(name, queries[j], j + 1)
  {
    seq(|queries|, j requires 0 <= j < |queries| => Record(name, queries[j], j + 1))
  }

  /** All records, name by name in dictionary order. */
  function Transformed(data: seq<(string, seq<string>)>): seq<QueryItem>
    decreases |data|
  {
    if data == [] then []
    else
      var last := data[|data| - 1];
      Transformed(data[..|data| - 1]) + Numbered(last.0, last.1)
  }

  /** The number of queries under all names. */
  function TotalQueries(data: seq<(string, seq<string>)>): nat
    decreases |data|
  {
    if data == [] then 0 else TotalQueries(data[..|data| - 1]) + |data[|data| - 1].1|
  }

  /** Where the records of name `i` begin: after those of the names before it. */
  function Offset(data: seq<(string, seq<string>)>, i: int): nat
    requires 0 <= i <= |data|
  {
    TotalQueries(data[..i])
  }

  /** `transform_data`, over the dictionary's items in insertion order. */
  method TransformData(data: seq<(string, seq<string>)>) returns (result: seq<QueryItem>)
    ensures result == Transformed(data)
  {
    result := [];
    for i := 0 to |data|
      invariant result == Transformed(data[..i])
    {
      var (name, queries) := data[i];
      ghost var before := result;
      for j := 0 to |queries|
        invariant result == before + Numbered(name, queries[..j])
      {
        assert Numbered(name, queries[..j + 1]) == Numbered(name, queries[..j]) + [Record(name, queries[j], j + 1)];
        result := result + [Record(name, queries[j], j + 1)];
      }
      assert queries[..|queries|] == queries;
      assert data[..i + 1][..i] == data[..i];
    }
    assert data[..|data|] == data;
  }

  // ---------------------------------------------------------------------
  // Properties of transform_data

  /** One record per (name, query) pair: the output is as long as all the
      lists together, and the record for query `j` of name `i` sits right
      after the records of the names before `i`, numbered `j + 1`. */
  lemma TransformedAt(data: seq<(string, seq<string>)>)
    ensures |Transformed(data)| == TotalQueries(data)
    ensures forall i :: 0 <= i < |data| ==> Offset(data, i) + |data[i].1| <= |Transformed(data)|
    ensures forall i, j :: 0 <= i < |data| && 0 <= j < |data[i].1| ==>
              Transformed(data)[Offset(data, i) + j] == Record(data[i].0, data[i].1[j], j + 1)
  {
    TransformedLength(data);
    var out := Transformed(data);
    forall i | 0 <= i < |data|
      ensures Offset(data, i) + |data[i].1| <= |out|
    {
      OffsetBound(data, i);
    }
    forall i, j | 0 <= i < |data| && 0 <= j < |data[i].1|
      ensures out[Offset(data, i) + j] == Record(data[i].0, data[i].1[j], j + 1)
    {
      TransformedAtOne(data, i, j);
    }
  }

  /** The names after `i` only add records. */
  lemma {:induction false} OffsetBound(data: seq<(string, seq<string>)>, i: int)
    requires 0 <= i < |data|
    ensures Offset(data, i) + |data[i].1| <= TotalQueries(data)
    decreases |data|
  {
    var n := |data| - 1;
    var pre := data[..n];
    if i < n {
      OffsetBound(pre, i);
      assert data[..i] == pre[..i];
      assert data[i] == pre[i];
    } else {
      assert data[..i] == pre;
    }
  }

  lemma {:induction false} TransformedLength(data: seq<(string, seq<string>)>)
    ensures |Transformed(data)| == TotalQueries(data)
    decreases |data|
  {
    if data != [] {
      TransformedLength(data[..|data| - 1]);
    }
  }

  lemma {:induction false} TransformedAtOne(data: seq<(string, seq<string>)>, i: int, j: int)
    requires 0 <= i < |data| && 0 <= j < |data[i].1|
    ensures Offset(data, i) + j < |Transformed(data)|
            && Transformed(data)[Offset(data, i) + j] == Record(data[i].0, data[i].1[j], j + 1)
    decreases |data|
  {
    var n := |data| - 1;
    var pre := data[..n];
    var last := Numbered(data[n].0, data[n].1);
    assert Transformed(data) == Transformed(pre) + last;
    TransformedLength(pre);
    if i < n {
      TransformedAtOne(pre, i, j);
      assert data[..i] == pre[..i];
      assert Offset(data, i) == Offset(pre, i);
      assert data[i] == pre[i];
    } else {
      assert data[..i] == pre;
    }
  }

  /** Every record is tagged `IOA,Lab,Monty`, inactive, and built from one of
      the input queries. */
  lemma {:induction false} TransformedFields(data: seq<(string, seq<string>)>)
    ensures forall k :: 0 <= k < |Transformed(data)| ==>
              Transformed(data)[k].tag == Some(TAG) && Transformed(data)[k].active == Some(INACTIVE)
              && exists i, j :: 0 <= i < |data| && 0 <= j < |data[i].1|
                                && Transformed(data)[k] == Record(data[i].0, data[i].1[j], j + 1)
    decreases |data|
  {
    if data != [] {
      var n := |data| - 1;
      var pre := data[..n];
      TransformedFields(pre);
      var r := Transformed(data);
      forall k | 0 <= k < |r|
        ensures r[k].tag == Some(TAG) && r[k].active == Some(INACTIVE)
                && exists i, j :: 0 <= i < |data| && 0 <= j < |data[i].1| && r[k] == Record(data[i].0, data[i].1[j], j + 1)
      {
        if k < |Transformed(pre)| {
          var i, j :| 0 <= i < |pre| && 0 <= j < |pre[i].1| && r[k] == Record(pre[i].0, pre[i].1[j], j + 1);
          assert data[i] == pre[i];
        } else {
          var j := k - |Transformed(pre)|;
          assert r[k] == Record(data[n].0, data[n].1[j], j + 1);
        }
      }
    }
  }

  /** The converted file activates nothing: loading it with the monty loader
      selects no query. */
  lemma ConvertedQueriesInactive(data: seq<(string, seq<string>)>)
    ensures Monty.LoadQueries(Loaded(Transformed(data))) == []
  {
    var items := Transformed(data);
    TransformedFields(data);
    assert Lower(INACTIVE) == INACTIVE;
    NothingActive(items);
  }

  /** With no active query among them, the loader selects none. */
  lemma {:induction false} NothingActive(items: seq<QueryItem>)
    requires forall k :: 0 <= k < |items| ==> !Monty.IsActive(items[k])
    ensures Monty.ActiveOf(items) == []
    decreases |items|
  {
    if items != [] {
      NothingActive(items[..|items| - 1]);
    }
  }

}
