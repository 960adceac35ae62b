/**
 `extract_ascii_tables` (src/infrastructure/workers/chunkers/helpers/table_helpers.py):
 runs of two or more pipe lines become numbered placeholders.
 */
module Tables {
  import opened PythonText

  /* ---------- lines ---------- */

  /** Up to and including the first newline. */
  function FirstLine(s: string): (line: string)
    ensures line <= s && (s != "" ==> line != "")
  {
    if s == "" then "" else if s[0] == '\n' then s[..1] else
    var rest := FirstLine(s[1..]);
    assert s[..1 + |rest|] == [s[0]] + rest;
    s[..1 + |rest|]
  }

  function AfterLine(s: string): (rest: string)
    ensures s == FirstLine(s) + rest && (s != "" ==> |rest| < |s|)
  {
    s[|FirstLine(s)|..]
  }

  function SkipBlanks(s: string): string {
    if s != "" && (s[0] == ' ' || s[0] == '\t') then SkipBlanks(s[1..]) else s
  }

  /** `^[ \t]*\|[^\n]*\n`: a whole line, with its newline. */
  predicate IsTableLine(line: string) {
    line != "" && line[|line| - 1] == '\n' && SkipBlanks(line) != "" && SkipBlanks(line)[0] == '|'
  }

  /** The number of table lines at the start of the text. */
  function TableLines(s: string): nat {
    if s != "" && IsTableLine(FirstLine(s)) then 1 + TableLines(AfterLine(s)) else 0
  }

  /** The table lines at the start of the text. */
  function Block(s: string): (b: string)
    ensures b <= s && (TableLines(s) > 0 ==> b != "")
  {
    if s != "" && IsTableLine(FirstLine(s)) then
      assert s == FirstLine(s) + AfterLine(s);
      FirstLine(s) + Block(AfterLine(s))
    else ""
  }

  function AfterBlock(s: string): (rest: string)
    ensures s == Block(s) + rest
    ensures TableLines(s) > 0 ==> |rest| < |s|
  {
    hide TableLines;
    var block := Block(s);
    assert block <= s;
    s[|block|..]
  }

  /* ---------- placeholders ---------- */

  function Decimal(n: nat): (s: string)
    ensures s != "" && forall i :: 0 <= i < |s| ==> IsDigit(s[i])
  {
    var last := ['0' + (n % 10) as char];
    if n < 10 then last else Decimal(n / 10) + last
  }

  function Value(s: string): nat
    requires forall i :: 0 <= i < |s| ==> IsDigit(s[i])
  {
    if s == "" then 0 else
    assert IsDigit(s[|s| - 1]);
    10 * Value(s[..|s| - 1]) + (s[|s| - 1] as nat - '0' as nat)
  }

  const OPENING := "\0TABLE_"

  function Placeholder(n: nat): string { OPENING + Decimal(n) + "\0" }

  /* ---------- extraction ---------- */

  /** Text with placeholders from number `n` on. */
  function Sanitized(s: string, n: nat): string
    decreases |s|
  {
    if s == "" then ""
    else if TableLines(s) >= 2 then Placeholder(n) + "\n" + Sanitized(AfterBlock(s), n + 1)
    else FirstLine(s) + Sanitized(AfterLine(s), n)
  }

  /** The blocks that are taken out, as they stand in the text. */
  function Blocks(s: string): seq<string>
    decreases |s|
  {
    if s == "" then []
    else if TableLines(s) >= 2 then [Block(s)] + Blocks(AfterBlock(s))
    else Blocks(AfterLine(s))
  }

  function StripAll(blocks: seq<string>): seq<string> {
    seq(|blocks|, i requires 0 <= i < |blocks| => Strip(blocks[i]))
  }

  method ExtractAsciiTables(text: string) returns (sanitized: string, tables: seq<string>)
    ensures sanitized == Sanitized(text, 0) && tables == StripAll(Blocks(text))
  {
    hide TableLines, Placeholder, FirstLine, Block, Strip;
    var rest := text;
    sanitized, tables := "", [];
    while rest != ""
      invariant sanitized + Sanitized(rest, |tables|) == Sanitized(text, 0)
      invariant tables + StripAll(Blocks(rest)) == StripAll(Blocks(text))
      decreases |rest|
    {
      if TableLines(rest) >= 2 {
        var match_ := Block(rest);
        assert StripAll(Blocks(rest)) == [Strip(match_)] + StripAll(Blocks(AfterBlock(rest)));
        sanitized := sanitized + (Placeholder(|tables|) + "\n");
        tables := tables + [Strip(match_)];
        rest := AfterBlock(rest);
      } else {
        sanitized := sanitized + FirstLine(rest);
        rest := AfterLine(rest);
      }
    }
  }

  /* ---------- reading placeholders back ---------- */

  function Digits(s: string): (n: nat)
    ensures n <= |s| && forall i :: 0 <= i < n ==> IsDigit(s[i])
  {
    if s != "" && IsDigit(s[0]) then 1 + Digits(s[1..]) else 0
  }

  /** `\x00TABLE_(\d+)\x00` at the start of the text. */
  predicate AtPlaceholder(s: string) {
    && |s| > |OPENING| && s[..|OPENING|] == OPENING
    && var n := Digits(s[|OPENING|..]);
       n >= 1 && |OPENING| + n < |s| && s[|OPENING| + n] == '\0'
  }

  function IndexAt(s: string): nat
    requires AtPlaceholder(s)
  {
    Value(s[|OPENING|..][..Digits(s[|OPENING|..])])
  }

  function AfterPlaceholder(s: string): (rest: string)
    requires AtPlaceholder(s)
    ensures |rest| < |s|
  {
    s[|OPENING| + Digits(s[|OPENING|..]) + 1..]
  }

  /** The numbers of the placeholders, in the order they are found. */
  function Indices(s: string): seq<nat>
    decreases |s|
  {
    if s == "" then []
    else if AtPlaceholder(s) then [IndexAt(s)] + Indices(AfterPlaceholder(s))
    else Indices(s[1..])
  }

  /** Every placeholder line replaced by its block. */
  function Restore(s: string, blocks: seq<string>): string
    decreases |s|
  {
    if s == "" then ""
    else if AtPlaceholder(s) && IndexAt(s) < |blocks| then
      var rest := AfterPlaceholder(s);
      blocks[IndexAt(s)] + Restore(if rest != "" && rest[0] == '\n' then rest[1..] else rest, blocks)
    else [s[0]] + Restore(s[1..], blocks)
  }

  lemma {:induction false} ValueOfDecimal(n: nat)
    ensures Value(Decimal(n)) == n
  {
    var last := ['0' + (n % 10) as char];
    if n < 10 {
      assert last[..0] == "";
    } else {
      ValueOfDecimal(n / 10);
      assert Decimal(n)[..|Decimal(n)| - 1] == Decimal(n / 10);
    }
  }

  lemma {:induction false} DigitsUpTo(d: string, rest: string)
    requires forall i :: 0 <= i < |d| ==> IsDigit(d[i])
    requires rest != "" && !IsDigit(rest[0])
    ensures Digits(d + rest) == |d|
    decreases |d|
  {
    if d == "" {
      assert d + rest == rest;
    } else {
      assert (d + rest)[1..] == d[1..] + rest;
      DigitsUpTo(d[1..], rest);
    }
  }

  /** A placeholder is read back with its number. */
  lemma PlaceholderReads(n: nat, rest: string)
    ensures var s := Placeholder(n) + rest;
            AtPlaceholder(s) && IndexAt(s) == n && AfterPlaceholder(s) == rest
  {
    var s, d := Placeholder(n) + rest, Decimal(n);
    assert s[..|OPENING|] == OPENING;
    assert s[|OPENING|..] == d + ("\0" + rest);
    DigitsUpTo(d, "\0" + rest);
    assert s[|OPENING|..][..|d|] == d;
    ValueOfDecimal(n);
    assert s[|OPENING| + |d|] == '\0';
  }

  lemma StartsWithNul(s: string)
    ensures AtPlaceholder(s) ==> s[0] == '\0'
  {
  }

  predicate NulFree(s: string) { forall i :: 0 <= i < |s| ==> s[i] != '\0' }

  lemma {:induction false} RestorePlain(a: string, b: string, blocks: seq<string>)
    requires NulFree(a)
    ensures Restore(a + b, blocks) == a + Restore(b, blocks)
    decreases |a|
  {
    if a == "" {
      assert a + b == b;
    } else {
      assert NulFree(a[1..]) && a[0] != '\0';
      hide *;
      assert (a + b)[1..] == a[1..] + b;
      StartsWithNul(a + b);
      RestoreChar(a + b, blocks);
      RestorePlain(a[1..], b, blocks);
      HeadAndTail(a, Restore(b, blocks));
    }
  }

  lemma HeadAndTail(a: string, b: string)
    requires a != ""
    ensures (a + b)[0] == a[0] && [a[0]] + (a[1..] + b) == a + b
  {
  }

  lemma RestoreChar(s: string, blocks: seq<string>)
    requires s != "" && !AtPlaceholder(s)
    ensures Restore(s, blocks) == [s[0]] + Restore(s[1..], blocks)
  {
  }

  lemma {:induction false} IndicesPlain(a: string, b: string)
    requires NulFree(a)
    ensures Indices(a + b) == Indices(b)
    decreases |a|
  {
    hide Digits, Value;
    if a == "" {
      assert a + b == b;
    } else {
      assert (a + b)[1..] == a[1..] + b;
      IndicesPlain(a[1..], b);
      StartsWithNul(a + b);
    }
  }

  function Count(from: nat, n: nat): seq<nat> {
    seq(n, i requires 0 <= i < n => from + i)
  }

  lemma NulFreeParts(s: string)
    requires NulFree(s)
    ensures NulFree(FirstLine(s)) && NulFree(AfterLine(s)) && NulFree(Block(s)) && NulFree(AfterBlock(s))
  {
  }

  /** The placeholders in the text are those of the tables, each once, in order. */
  lemma {:induction false} OnePlaceholderPerTable(s: string, n: nat)
    requires NulFree(s)
    ensures Indices(Sanitized(s, n)) == Count(n, |Blocks(s)|)
    decreases |s|
  {
    hide Placeholder, AtPlaceholder, FirstLine, Block, TableLines;
    if s != "" {
      NulFreeParts(s);
      if TableLines(s) >= 2 {
        var rest := Sanitized(AfterBlock(s), n + 1);
        OnePlaceholderPerTable(AfterBlock(s), n + 1);
        PlaceholderReads(n, "\n" + rest);
        assert Placeholder(n) + "\n" + rest == Placeholder(n) + ("\n" + rest);
        IndicesPlain("\n", rest);
        StartsPlaceholder(n, "\n" + rest);
      } else {
        OnePlaceholderPerTable(AfterLine(s), n);
        IndicesPlain(FirstLine(s), Sanitized(AfterLine(s), n));
      }
    }
  }

  lemma StartsPlaceholder(n: nat, rest: string)
    ensures Indices(Placeholder(n) + rest) == [n] + Indices(rest)
  {
    PlaceholderReads(n, rest);
    hide AtPlaceholder, Placeholder;
  }

  /** Putting the blocks back gives the text back, so all that is lost with the tables is
      the white space at the edges of each block. */
  lemma {:induction false} RestoreGivesText(s: string, n: nat, blocks: seq<string>)
    requires NulFree(s)
    requires n + |Blocks(s)| <= |blocks| && blocks[n..n + |Blocks(s)|] == Blocks(s)
    ensures Restore(Sanitized(s, n), blocks) == s
    decreases |s|
  {
    hide Placeholder, AtPlaceholder, FirstLine, Block, TableLines;
    if s != "" {
      NulFreeParts(s);
      if TableLines(s) >= 2 {
        var rest := Sanitized(AfterBlock(s), n + 1);
        NextBlocks(Block(s), Blocks(AfterBlock(s)), n, blocks);
        RestoreGivesText(AfterBlock(s), n + 1, blocks);
        RestorePlaceholder(n, rest, blocks);
      } else {
        RestoreGivesText(AfterLine(s), n, blocks);
        RestorePlain(FirstLine(s), Sanitized(AfterLine(s), n), blocks);
      }
    }
  }

  /** Blocks that differ in white space alone restore to texts that do. */
  lemma {:induction false} RestoreSameText(t: string, a: seq<string>, b: seq<string>)
    requires |a| == |b| && forall i :: 0 <= i < |a| ==> NonSpaces(a[i]) == NonSpaces(b[i])
    ensures NonSpaces(Restore(t, a)) == NonSpaces(Restore(t, b))
    decreases |t|
  {
    hide NonSpaces, AtPlaceholder, IndexAt, AfterPlaceholder;
    if t != "" {
      if AtPlaceholder(t) && IndexAt(t) < |a| {
        var rest := AfterPlaceholder(t);
        var next := if rest != "" && rest[0] == '\n' then rest[1..] else rest;
        RestoreSameText(next, a, b);
        NonSpacesAppend(a[IndexAt(t)], Restore(next, a));
        NonSpacesAppend(b[IndexAt(t)], Restore(next, b));
      } else {
        RestoreSameText(t[1..], a, b);
        NonSpacesAppend([t[0]], Restore(t[1..], a));
        NonSpacesAppend([t[0]], Restore(t[1..], b));
      }
    }
  }

  /** What is returned, text and tables, has every character of the text other than white
      space, in order. */
  lemma RestoringTablesGivesText(s: string)
    requires NulFree(s)
    ensures NonSpaces(Restore(Sanitized(s, 0), StripAll(Blocks(s)))) == NonSpaces(s)
  {
    hide NonSpaces, Restore, Strip, Sanitized, Blocks;
    var blocks := Blocks(s);
    forall i | 0 <= i < |blocks| ensures NonSpaces(StripAll(blocks)[i]) == NonSpaces(blocks[i]) {
      NonSpacesStrip(blocks[i]);
    }
    RestoreSameText(Sanitized(s, 0), StripAll(blocks), blocks);
    assert blocks[0..0 + |blocks|] == blocks;
    RestoreGivesText(s, 0, blocks);
  }

  lemma NextBlocks(first: string, later: seq<string>, n: nat, blocks: seq<string>)
    requires n + 1 + |later| <= |blocks| && blocks[n..n + 1 + |later|] == [first] + later
    ensures blocks[n] == first && blocks[n + 1..n + 1 + |later|] == later
  {
  }

  lemma RestorePlaceholder(n: nat, rest: string, blocks: seq<string>)
    requires n < |blocks|
    ensures Restore(Placeholder(n) + "\n" + rest, blocks) == blocks[n] + Restore(rest, blocks)
  {
    hide *;
    var t := "\n" + rest;
    assert Placeholder(n) + "\n" + rest == Placeholder(n) + t;
    PlaceholderReads(n, t);
    assert t[1..] == rest;
    RestoreAt(Placeholder(n) + t, t, blocks);
  }

  lemma RestoreAt(s: string, rest: string, blocks: seq<string>)
    requires AtPlaceholder(s) && IndexAt(s) < |blocks| && AfterPlaceholder(s) == rest
    requires rest != "" && rest[0] == '\n'
    ensures Restore(s, blocks) == blocks[IndexAt(s)] + Restore(rest[1..], blocks)
  {
  }

  /* ---------- extracting again ---------- */

  lemma {:induction false} FirstLineOf(a: string, b: string)
    requires a != "" && a[|a| - 1] == '\n' && forall i :: 0 <= i < |a| - 1 ==> a[i] != '\n'
    ensures FirstLine(a + b) == a && AfterLine(a + b) == b
    decreases |a|
  {
    if |a| > 1 {
      assert (a + b)[1..] == a[1..] + b;
      FirstLineOf(a[1..], b);
    }
  }

  lemma {:induction false} FirstLineShape(s: string)
    ensures forall i :: 0 <= i < |FirstLine(s)| - 1 ==> FirstLine(s)[i] != '\n'
    ensures FirstLine(s) == s || FirstLine(s)[|FirstLine(s)| - 1] == '\n'
  {
    if s != "" && s[0] != '\n' {
      FirstLineShape(s[1..]);
      assert FirstLine(s)[1..] == FirstLine(s[1..]);
    }
  }

  /** The first line survives unless a table starts there. */
  lemma SanitizedLine(s: string, n: nat)
    requires s != "" && TableLines(s) < 2
    ensures FirstLine(Sanitized(s, n)) == FirstLine(s) && AfterLine(Sanitized(s, n)) == Sanitized(AfterLine(s), n)
  {
    var line, rest := FirstLine(s), Sanitized(AfterLine(s), n);
    FirstLineShape(s);
    if line[|line| - 1] == '\n' {
      FirstLineOf(line, rest);
    } else {
      assert AfterLine(s) == "" && line + rest == line;
    }
  }

  lemma PlaceholderLine(n: nat, rest: string)
    ensures var s := Placeholder(n) + "\n" + rest;
            s != "" && FirstLine(s) == Placeholder(n) + "\n" && AfterLine(s) == rest && !IsTableLine(FirstLine(s))
  {
    var line := Placeholder(n) + "\n";
    assert line[0] == '\0';
    FirstLineOf(line, rest);
  }

  /** A table line at the start of the sanitized text is one that stands alone. */
  lemma NoRunAtStart(s: string, n: nat)
    ensures TableLines(Sanitized(s, n)) <= TableLines(s)
    ensures TableLines(s) >= 2 ==> TableLines(Sanitized(s, n)) == 0
    decreases |s|
  {
    hide FirstLine, Placeholder, Block, IsTableLine;
    if s != "" {
      if TableLines(s) >= 2 {
        PlaceholderLine(n, Sanitized(AfterBlock(s), n + 1));
      } else {
        SanitizedLine(s, n);
        NoRunAtStart(AfterLine(s), n);
      }
    }
  }

  /** Extracting again finds nothing: no run of two pipe lines is left. */
  lemma {:induction false} NothingLeftToExtract(s: string, n: nat, m: nat)
    ensures Blocks(Sanitized(s, n)) == [] && Sanitized(Sanitized(s, n), m) == Sanitized(s, n)
    decreases |s|
  {
    var t := Sanitized(s, n);
    NoRunAtStart(s, n);
    hide FirstLine, Placeholder, Block, IsTableLine;
    if s != "" {
      if TableLines(s) >= 2 {
        var rest := Sanitized(AfterBlock(s), n + 1);
        PlaceholderLine(n, rest);
        NothingLeftToExtract(AfterBlock(s), n + 1, m);
      } else {
        SanitizedLine(s, n);
        NothingLeftToExtract(AfterLine(s), n, m);
      }
    }
  }

  /** Every run of two or more pipe lines is taken out as one table, whole. */
  lemma {:induction false} BlockIsMaximal(s: string)
    ensures TableLines(AfterBlock(s)) == 0
    decreases |s|
  {
    if s != "" && IsTableLine(FirstLine(s)) {
      BlockIsMaximal(AfterLine(s));
      assert AfterBlock(s) == AfterBlock(AfterLine(s));
    } else {
      assert AfterBlock(s) == s;
    }
  }

  /* ---------- extraction line by line ---------- */

  /** A line of a table: blanks, a bar, and any text up to the newline. */
  predicate IsPipeLine(line: string) {
    exists blanks: nat ::
      blanks + 1 < |line| && (forall i :: 0 <= i < blanks ==> line[i] == ' ' || line[i] == '\t')
      && line[blanks] == '|' && line[|line| - 1] == '\n'
      && (forall i :: 0 <= i < |line| - 1 ==> line[i] != '\n')
  }

  /** A line, with its newline, that is no table line. */
  predicate IsOtherLine(line: string) {
    && line != "" && line[|line| - 1] == '\n' && (forall i :: 0 <= i < |line| - 1 ==> line[i] != '\n')
    && !IsPipeLine(line)
  }

  lemma {:induction false} FirstLineIs(line: string, rest: string)
    requires line != "" && line[|line| - 1] == '\n' && forall i :: 0 <= i < |line| - 1 ==> line[i] != '\n'
    ensures FirstLine(line + rest) == line && AfterLine(line + rest) == rest
    decreases |line|
  {
    var s := line + rest;
    if |line| > 1 {
      assert s[1..] == line[1..] + rest;
      FirstLineIs(line[1..], rest);
      assert line == [line[0]] + line[1..];
      assert s[..|line|] == line;
    } else {
      assert s[..1] == line;
    }
    assert s[|line|..] == rest;
  }

  lemma {:induction false} SkipBlanksIs(s: string, n: nat)
    requires n < |s| && (forall i :: 0 <= i < n ==> s[i] == ' ' || s[i] == '\t') && s[n] != ' ' && s[n] != '\t'
    ensures SkipBlanks(s) == s[n..]
    decreases n
  {
    if n > 0 {
      SkipBlanksIs(s[1..], n - 1);
    }
  }

  lemma {:induction false} BlanksBefore(s: string) returns (n: nat)
    ensures n <= |s| && SkipBlanks(s) == s[n..] && forall i :: 0 <= i < n ==> s[i] == ' ' || s[i] == '\t'
  {
    if s != "" && (s[0] == ' ' || s[0] == '\t') {
      n := BlanksBefore(s[1..]);
      assert forall i :: 1 <= i < n + 1 ==> s[i] == s[1..][i - 1];
      n := n + 1;
    } else {
      n := 0;
    }
  }

  lemma PipeLineIsTableLine(line: string)
    requires line != "" && line[|line| - 1] == '\n' && forall i :: 0 <= i < |line| - 1 ==> line[i] != '\n'
    ensures IsTableLine(line) <==> IsPipeLine(line)
  {
    if IsPipeLine(line) {
      var n: nat :| n + 1 < |line| && (forall i :: 0 <= i < n ==> line[i] == ' ' || line[i] == '\t') && line[n] == '|';
      SkipBlanksIs(line, n);
    }
    if IsTableLine(line) {
      var n := BlanksBefore(line);
      assert line[n] == '|';
    }
  }

  predicate AllPipeLines(lines: seq<string>) { forall i :: 0 <= i < |lines| ==> IsPipeLine(lines[i]) }

  lemma {:induction false} LinesAreBlock(lines: seq<string>, rest: string)
    requires AllPipeLines(lines) && TableLines(rest) == 0
    ensures TableLines(Concat(lines) + rest) == |lines|
    ensures Block(Concat(lines) + rest) == Concat(lines) && AfterBlock(Concat(lines) + rest) == rest
    decreases |lines|
  {
    var s := Concat(lines) + rest;
    if lines == [] {
      assert s == rest;
      NoBlock(rest);
    } else {
      var after := Concat(lines[1..]) + rest;
      assert s == lines[0] + after;
      FirstLineIs(lines[0], after);
      PipeLineIsTableLine(lines[0]);
      LinesAreBlock(lines[1..], rest);
      hide IsTableLine, IsPipeLine, FirstLine;
      assert Block(s) == lines[0] + Block(after);
      assert s[|Concat(lines)|..] == rest;
    }
  }

  lemma NoBlock(rest: string)
    requires TableLines(rest) == 0
    ensures Block(rest) == "" && AfterBlock(rest) == rest
  {
  }

  /** Two or more table lines in a row come out as one table, whatever is behind them. */
  lemma LinesComeOutAsTable(lines: seq<string>, rest: string, n: nat)
    requires |lines| >= 2 && AllPipeLines(lines)
    requires rest == "" || exists line, more :: rest == line + more && IsOtherLine(line)
    ensures Sanitized(Concat(lines) + rest, n) == Placeholder(n) + "\n" + Sanitized(rest, n + 1)
    ensures Blocks(Concat(lines) + rest) == [Concat(lines)] + Blocks(rest)
  {
    if rest != "" {
      var line, more :| rest == line + more && IsOtherLine(line);
      FirstLineIs(line, more);
      PipeLineIsTableLine(line);
    }
    assert TableLines(rest) == 0;
    LinesAreBlock(lines, rest);
    hide TableLines, Block, Placeholder, IsPipeLine, IsOtherLine, FirstLine;
    assert Concat(lines) + rest != "";
  }

  /** A single table line stays, and so does any other line. */
  lemma LineStays(line: string, rest: string, n: nat)
    requires || IsOtherLine(line)
             || (IsPipeLine(line) && (rest == "" || exists next, more :: rest == next + more && IsOtherLine(next)))
    ensures Sanitized(line + rest, n) == line + Sanitized(rest, n)
    ensures Blocks(line + rest) == Blocks(rest)
  {
    FirstLineIs(line, rest);
    PipeLineIsTableLine(line);
    if IsPipeLine(line) && rest != "" {
      var next, more :| rest == next + more && IsOtherLine(next);
      FirstLineIs(next, more);
      PipeLineIsTableLine(next);
    }
    assert TableLines(line + rest) < 2;
    hide TableLines, Block, Placeholder, IsPipeLine, IsOtherLine, FirstLine;
  }

  /** The text of the first placeholders. */
  lemma PlaceholderText(n: nat)
    requires n < 10
    ensures Placeholder(n) == "\0TABLE_" + ["0123456789"[n]] + "\0"
  {
    assert Decimal(n) == ["0123456789"[n]];
  }
}
