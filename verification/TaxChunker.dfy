/**
 The ordered pass of `TaxCircularChunker` (src/infrastructure/workers/chunkers/tax_circular_chunker.py).
 The recursive splitter and the table summary are parameters.
 */
module TaxChunker {
  import opened Wrappers
  import opened PythonText

  /* ---------- the boundary pattern ---------- */

  predicate IsRoman(c: char) { c == 'I' || c == 'V' || c == 'X' || c == 'i' || c == 'v' || c == 'x' }

  /** The text begins with the (lower-case) word, in any case. */
  predicate StartsWith(s: string, word: string) {
    |word| <= |s| && forall i :: 0 <= i < |word| ==> Lower(s[i]) == word[i]
  }

  function Span(s: string, p: char -> bool): (n: nat)
    ensures n <= |s|
  {
    if s != "" && p(s[0]) then 1 + Span(s[1..], p) else 0
  }

  /** `\s+\d+\s*[:\-–]?`: the length of the match, or 0. */
  function ArticleRest(s: string): (n: nat)
    ensures n <= |s|
  {
    var a := Span(s, IsSpace);
    var b := a + Span(s[a..], IsDigit);
    if a == 0 || b == a then 0
    else
      var c := b + Span(s[b..], IsSpace);
      if c < |s| && (s[c] == ':' || s[c] == '-' || s[c] == '\U{2013}') then c + 1 else c
  }

  /** `\s+(?:\d+|[IVXivx]+)\b`. */
  function HeadingRest(s: string): (n: nat)
    ensures n <= |s|
  {
    var a := Span(s, IsSpace);
    var digits, roman := Span(s[a..], IsDigit), Span(s[a..], IsRoman);
    var b := a + if digits > 0 then digits else roman;
    if a == 0 || b == a || (b < |s| && IsWord(s[b])) then 0 else b
  }

  function After(s: string, word: string, rest: nat): nat
  {
    if rest == 0 then 0 else |word| + rest
  }

  /** The length of the boundary mark at the start of the text, or 0. */
  function MarkLength(s: string): (n: nat)
    ensures n <= |s|
  {
    if StartsWith(s, "article") && ArticleRest(s[7..]) > 0 then 7 + ArticleRest(s[7..])
    else if StartsWith(s, "art.") && ArticleRest(s[4..]) > 0 then 4 + ArticleRest(s[4..])
    else if StartsWith(s, "titre") && HeadingRest(s[5..]) > 0 then 5 + HeadingRest(s[5..])
    else if StartsWith(s, "chapitre") && HeadingRest(s[8..]) > 0 then 8 + HeadingRest(s[8..])
    else if StartsWith(s, "section") && HeadingRest(s[7..]) > 0 then 7 + HeadingRest(s[7..])
    else 0
  }

  /** `^` with the multiline flag. */
  predicate AtLineStart(text: string, i: nat)
    requires i <= |text|
  {
    i == 0 || text[i - 1] == '\n'
  }

  /** The start of every match of the pattern from position `i` on. */
  function Boundaries(text: string, i: nat): (starts: seq<nat>)
    requires i <= |text|
    ensures forall k :: 0 <= k < |starts| ==> i <= starts[k] < |text|
    ensures forall j, k :: 0 <= j < k < |starts| ==> starts[j] < starts[k]
    decreases |text| - i
  {
    if i == |text| then []
    else if AtLineStart(text, i) && MarkLength(text[i..]) > 0 then [i] + Boundaries(text, i + MarkLength(text[i..]))
    else Boundaries(text, i + 1)
  }

  /** What may stand in a mark after its first word. */
  predicate IsFiller(c: char) {
    IsSpace(c) || IsDigit(c) || IsRoman(c) || c == ':' || c == '-' || c == '\U{2013}'
  }

  lemma {:induction false} SpanHolds(s: string, p: char -> bool, i: nat)
    requires i < Span(s, p)
    ensures p(s[i])
  {
    if i > 0 {
      SpanHolds(s[1..], p, i - 1);
    }
  }

  lemma ArticleRestIsFiller(s: string, i: nat)
    requires i < ArticleRest(s)
    ensures IsFiller(s[i])
  {
    var a := Span(s, IsSpace);
    var b := a + Span(s[a..], IsDigit);
    var c := b + Span(s[b..], IsSpace);
    if i < a {
      SpanHolds(s, IsSpace, i);
    } else if i < b {
      SpanHolds(s[a..], IsDigit, i - a);
    } else if i < c {
      SpanHolds(s[b..], IsSpace, i - b);
    }
  }

  lemma HeadingRestIsFiller(s: string, i: nat)
    requires i < HeadingRest(s)
    ensures IsFiller(s[i])
  {
    var a := Span(s, IsSpace);
    if i < a {
      SpanHolds(s, IsSpace, i);
    } else if Span(s[a..], IsDigit) > 0 {
      SpanHolds(s[a..], IsDigit, i - a);
    } else {
      SpanHolds(s[a..], IsRoman, i - a);
    }
  }

  lemma MarkStart(s: string)
    ensures MarkLength(s) > 0 ==> s != "" && !IsFiller(s[0]) && s[0] != '\n'
  {
    hide ArticleRest, HeadingRest;
  }

  /** Inside a mark no line starts with anything but more of the same mark. */
  lemma InsideMark(s: string, i: nat)
    requires 0 < i < MarkLength(s)
    ensures s[i - 1] == '\n' ==> IsFiller(s[i])
  {
    hide ArticleRest, HeadingRest, IsFiller;
    if StartsWith(s, "article") && ArticleRest(s[7..]) > 0 {
      InsideMarkOf(s, "article", i);
      if i >= 7 { ArticleRestIsFiller(s[7..], i - 7); }
    } else if StartsWith(s, "art.") && ArticleRest(s[4..]) > 0 {
      InsideMarkOf(s, "art.", i);
      if i >= 4 { ArticleRestIsFiller(s[4..], i - 4); }
    } else if StartsWith(s, "titre") && HeadingRest(s[5..]) > 0 {
      InsideMarkOf(s, "titre", i);
      if i >= 5 { HeadingRestIsFiller(s[5..], i - 5); }
    } else if StartsWith(s, "chapitre") && HeadingRest(s[8..]) > 0 {
      InsideMarkOf(s, "chapitre", i);
      if i >= 8 { HeadingRestIsFiller(s[8..], i - 8); }
    } else {
      InsideMarkOf(s, "section", i);
      if i >= 7 { HeadingRestIsFiller(s[7..], i - 7); }
    }
  }

  lemma InsideMarkOf(s: string, word: string, i: nat)
    requires StartsWith(s, word) && 0 < i && forall k :: 0 <= k < |word| ==> word[k] != '\n'
    ensures i <= |word| ==> s[i - 1] != '\n'
  {
  }

  /** The sections start exactly at the lines that begin with a mark: skipping over each
      match misses none. */
  lemma {:induction false} BoundariesAreTheMarks(text: string, i: nat, j: nat)
    requires i <= j < |text|
    ensures j in Boundaries(text, i) <==> AtLineStart(text, j) && MarkLength(text[j..]) > 0
    decreases |text| - i
  {
    hide MarkLength;
    if AtLineStart(text, i) && MarkLength(text[i..]) > 0 {
      var n := MarkLength(text[i..]);
      if i < j < i + n {
        InsideMark(text[i..], j - i);
        MarkStart(text[j..]);
        assert text[i..][j - i] == text[j..][0] && text[i..][j - i - 1] == text[j - 1];
        assert j !in Boundaries(text, i + n);
      } else if i + n <= j {
        BoundariesAreTheMarks(text, i + n, j);
      }
    } else if i < j {
      BoundariesAreTheMarks(text, i + 1, j);
    } else {
      assert i !in Boundaries(text, i + 1);
    }
  }

  /* ---------- splitting ---------- */

  /** `text.split("\n\n")`, from the text `before` read so far. */
  function Paragraphs(before: string, text: string): seq<string>
    decreases |text|
  {
    if text == "" then [before]
    else if |text| >= 2 && text[0] == '\n' && text[1] == '\n' then [before] + Paragraphs("", text[2..])
    else Paragraphs(before + [text[0]], text[1..])
  }

  function NonBlank(parts: seq<string>): seq<string> {
    if parts == [] then []
    else if Strip(parts[0]) != "" then [parts[0]] + NonBlank(parts[1..])
    else NonBlank(parts[1..])
  }

  /** The sections from each start to the next. */
  function Sections(text: string, starts: seq<nat>): seq<string>
    requires forall k :: 0 <= k < |starts| ==> starts[k] < |text|
    requires forall j, k :: 0 <= j < k < |starts| ==> starts[j] < starts[k]
  {
    if starts == [] then []
    else [text[starts[0]..if |starts| > 1 then starts[1] else |text|]] + Sections(text, starts[1..])
  }

  function Split(text: string): seq<string> {
    var starts := Boundaries(text, 0);
    if starts == [] then NonBlank(Paragraphs("", text))
    else
      Preamble(text[..starts[0]]) + Sections(text, starts)
  }

  /** What comes before the first boundary, unless it is blank. */
  function Preamble(text: string): seq<string> {
    if Strip(text) != "" then [Strip(text)] else []
  }

  lemma NextSection(text: string, starts: seq<nat>, i: nat)
    requires forall k :: 0 <= k < |starts| ==> starts[k] < |text|
    requires forall j, k :: 0 <= j < k < |starts| ==> starts[j] < starts[k]
    requires i <= |starts|
    ensures Sections(text, starts[i..]) ==
            if i == |starts| then []
            else [text[starts[i]..if i + 1 < |starts| then starts[i + 1] else |text|]] + Sections(text, starts[i + 1..])
  {
  }

  lemma SplitAtBoundaries(text: string)
    requires Boundaries(text, 0) != []
    ensures var starts := Boundaries(text, 0);
            Split(text) == Preamble(text[..starts[0]]) + Sections(text, starts)
  {
  }

  lemma BlankPreamble()
    ensures Preamble("") == []
  {
  }

  /** `split_on_boundaries` (src/infrastructure/workers/chunkers/helpers/text_helpers.py). */
  method SplitOnBoundaries(text: string) returns (sections: seq<string>)
    ensures sections == Split(text)
  {
    hide Strip, NonBlank, Paragraphs, Boundaries, MarkLength, Sections;
    var boundaries := Boundaries(text, 0);
    if boundaries == [] {
      return NonBlank(Paragraphs("", text));
    }
    sections := [];
    if boundaries[0] > 0 {
      var preamble := Strip(text[..boundaries[0]]);
      if preamble != "" {
        sections := sections + [preamble];
      }
    }
    ghost var first := sections;
    assert first == Preamble(text[..boundaries[0]]) by {
      BlankPreamble();
    }
    hide Preamble, Split;
    assert boundaries[0..] == boundaries;
    for i := 0 to |boundaries|
      invariant sections + Sections(text, boundaries[i..]) == first + Sections(text, boundaries)
    {
      var end := if i + 1 < |boundaries| then boundaries[i + 1] else |text|;
      NextSection(text, boundaries, i);
      sections := sections + [text[boundaries[i]..end]];
    }
    NextSection(text, boundaries, |boundaries|);
    assert sections == first + Sections(text, boundaries);
    SplitAtBoundaries(text);
  }

  /* ---------- elements and chunks ---------- */

  datatype Table = Table(text: string, html: Option<string>)

  /** What the layout analysis hands over, in document order. */
  datatype Element =
    | TableBlock(table: Table)
    | TextBlock(text: string, isTitle: bool)

  datatype Chunk =
    | TextChunk(text: string, sectionHeading: string, articleHeading: Option<string>)
    | TableChunk(summary: string, sectionHeading: string, table: Table)

  /** The pieces of a section that is too long. */
  type Splitter = string -> seq<string>

  type Summary = Table -> string

  datatype Settings = Settings(chunkSize: int, splitter: Splitter, summary: Summary)

  function ArticleHeading(section: string): Option<string> {
    if MarkLength(section) > 0 then Some(Strip(section[..MarkLength(section)])) else None
  }

  function NonEmptyChunks(subs: seq<string>, heading: string, article: Option<string>): seq<Chunk> {
    if subs == [] then []
    else
      var before := NonEmptyChunks(subs[..|subs| - 1], heading, article);
      var sub := subs[|subs| - 1];
      if sub != "" then before + [TextChunk(sub, heading, article)] else before
  }

  function SectionChunks(settings: Settings, section: string, heading: string): seq<Chunk> {
    if section == "" then []
    else if |section| <= settings.chunkSize then [TextChunk(section, heading, ArticleHeading(section))]
    else NonEmptyChunks(settings.splitter(section), heading, ArticleHeading(section))
  }

  function SectionsChunks(settings: Settings, sections: seq<string>, heading: string): seq<Chunk> {
    if sections == [] then []
    else
      SectionsChunks(settings, sections[..|sections| - 1], heading)
        + SectionChunks(settings, Strip(sections[|sections| - 1]), heading)
  }

  /** `"\n\n".join(parts)`. */
  function Join(parts: seq<string>): string {
    if parts == [] then ""
    else if |parts| == 1 then parts[0]
    else Join(parts[..|parts| - 1]) + "\n\n" + parts[|parts| - 1]
  }

  function Flushed(settings: Settings, pending: seq<string>, heading: string): seq<Chunk> {
    if pending == [] then [] else SectionsChunks(settings, Split(Join(pending)), heading)
  }

  /** The pass over the elements, with the text waiting to be flushed. */
  function Chunks(settings: Settings, elements: seq<Element>, pending: seq<string>, heading: string): seq<Chunk>
    decreases |elements|
  {
    if elements == [] then Flushed(settings, pending, heading)
    else
      match elements[0]
      case TableBlock(t) =>
        Flushed(settings, pending, heading) + [TableChunk(settings.summary(t), heading, t)]
          + Chunks(settings, elements[1..], [], heading)
      case TextBlock(text, isTitle) =>
        if Strip(text) == "" then Chunks(settings, elements[1..], pending, heading)
        else Chunks(settings, elements[1..], pending + [Strip(text)], if isTitle then Strip(text) else heading)
  }

  class TaxCircularChunker {
    const settings: Settings

    constructor (settings: Settings)
      ensures this.settings == settings
    {
      this.settings := settings;
    }

    method ProcessOrdered(ordered: seq<Element>) returns (chunks: seq<Chunk>)
      ensures chunks == Chunks(settings, ordered, [], "")
    {
      hide Strip, Flushed;
      chunks := [];
      var pending: seq<string>, heading := [], "";
      for i := 0 to |ordered|
        invariant chunks + Chunks(settings, ordered[i..], pending, heading) == Chunks(settings, ordered, [], "")
      {
        assert ordered[i..][1..] == ordered[i + 1..];
        match ordered[i] {
          case TableBlock(table) =>
            var flushed := FlushText(pending, heading);
            chunks := chunks + (flushed + [TableChunk(settings.summary(table), heading, table)]);
            pending := [];
          case TextBlock(text, isTitle) =>
            var stripped := Strip(text);
            if stripped != "" {
              if isTitle {
                heading := stripped;
              }
              pending := pending + [stripped];
            }
        }
      }
      var flushed := FlushText(pending, heading);
      chunks := chunks + flushed;
    }

    method FlushText(parts: seq<string>, heading: string) returns (chunks: seq<Chunk>)
      ensures chunks == Flushed(settings, parts, heading)
    {
      if parts == [] {
        return [];
      }
      chunks := ChunkTextBlock(Join(parts), heading);
    }

    method ChunkTextBlock(text: string, heading: string) returns (chunks: seq<Chunk>)
      ensures chunks == SectionsChunks(settings, Split(text), heading)
    {
      hide Strip, Split, MarkLength;
      var sections := SplitOnBoundaries(text);
      chunks := [];
      for i := 0 to |sections|
        invariant chunks == SectionsChunks(settings, sections[..i], heading)
      {
        assert sections[..i + 1][..i] == sections[..i];
        var section := Strip(sections[i]);
        if section == "" {
          continue;
        }
        var article := if MarkLength(section) > 0 then Some(Strip(section[..MarkLength(section)])) else None;
        if |section| <= settings.chunkSize {
          chunks := chunks + [TextChunk(section, heading, article)];
        } else {
          var subs := settings.splitter(section);
          ghost var before := chunks;
          for j := 0 to |subs|
            invariant chunks == before + NonEmptyChunks(subs[..j], heading, article)
          {
            assert subs[..j + 1][..j] == subs[..j];
            if subs[j] != "" {
              chunks := chunks + [TextChunk(subs[j], heading, article)];
            }
          }
          assert subs[..|subs|] == subs;
        }
      }
      assert sections[..|sections|] == sections;
    }
  }

  /* ---------- nothing is lost, repeated or moved ---------- */

  lemma {:induction false} SectionsCover(text: string, starts: seq<nat>)
    requires forall k :: 0 <= k < |starts| ==> starts[k] < |text|
    requires forall j, k :: 0 <= j < k < |starts| ==> starts[j] < starts[k]
    requires starts != []
    ensures Concat(Sections(text, starts)) == text[starts[0]..]
  {
    if |starts| > 1 {
      SectionsCover(text, starts[1..]);
      assert text[starts[0]..starts[1]] + text[starts[1]..] == text[starts[0]..];
    } else {
      assert Sections(text, starts[1..]) == [];
    }
  }

  lemma {:induction false} ParagraphsCover(before: string, text: string)
    ensures NonSpaces(Concat(Paragraphs(before, text))) == NonSpaces(before) + NonSpaces(text)
    decreases |text|
  {
    hide IsSpace, NonSpaces;
    if text == "" {
      assert [before][1..] == [];
      assert before + "" == before;
      NonSpacesNone();
    } else if |text| >= 2 && text[0] == '\n' && text[1] == '\n' {
      ParagraphsCover("", text[2..]);
      NonSpacesNone();
      NonSpacesAppend(before, Concat(Paragraphs("", text[2..])));
      assert text == text[..2] + text[2..];
      NonSpacesAppend(text[..2], text[2..]);
      NewlinesAreSpaces(text[..2]);
    } else {
      ParagraphsCover(before + [text[0]], text[1..]);
      NonSpacesAppend(before, [text[0]]);
      NonSpacesAppend([text[0]], text[1..]);
      assert text == [text[0]] + text[1..];
    }
  }

  lemma NonSpacesNone()
    ensures NonSpaces("") == ""
  {
  }

  lemma NewlinesAreSpaces(s: string)
    requires s == "\n\n"
    ensures NonSpaces(s) == ""
  {
    NonSpacesOfSpaces(s);
  }

  lemma {:induction false} NonBlankCovers(parts: seq<string>)
    ensures NonSpaces(Concat(NonBlank(parts))) == NonSpaces(Concat(parts))
  {
    hide IsSpace, NonSpaces, Strip;
    if parts != [] {
      NonBlankCovers(parts[1..]);
      NonSpacesStrip(parts[0]);
      NonSpacesNone();
      NonSpacesAppend(parts[0], Concat(parts[1..]));
      NonSpacesAppend(parts[0], Concat(NonBlank(parts[1..])));
    }
  }

  /** Splitting keeps every character but white space, in order. */
  lemma SplitKeepsText(text: string)
    ensures NonSpaces(Concat(Split(text))) == NonSpaces(text)
  {
    hide NonSpaces, Strip, Boundaries, NonBlank, Paragraphs;
    var starts := Boundaries(text, 0);
    if starts == [] {
      ParagraphsCover("", text);
      NonSpacesNone();
      NonBlankCovers(Paragraphs("", text));
    } else {
      var preamble := text[..starts[0]];
      SectionsCover(text, starts);
      hide Sections, Preamble;
      assert text == preamble + text[starts[0]..];
      PreambleCovers(preamble, Sections(text, starts));
      NonSpacesAppend(preamble, text[starts[0]..]);
    }
  }

  lemma PreambleCovers(preamble: string, sections: seq<string>)
    ensures NonSpaces(Concat(Preamble(preamble) + sections)) == NonSpaces(preamble) + NonSpaces(Concat(sections))
  {
    hide NonSpaces, Strip;
    NonSpacesStrip(preamble);
    NonSpacesNone();
    if Strip(preamble) == "" {
      assert Preamble(preamble) + sections == sections;
    } else {
      assert ([Strip(preamble)] + sections)[1..] == sections;
      NonSpacesAppend(Strip(preamble), Concat(sections));
    }
  }

  /* ---------- the cuts ---------- */

  predicate HasBreak(s: string) {
    exists i :: 0 <= i < |s| - 1 && s[i] == '\n' && s[i + 1] == '\n'
  }

  predicate EndsLine(s: string) { s != "" && s[|s| - 1] == '\n' }

  lemma JoinCons(first: string, rest: seq<string>)
    requires rest != []
    ensures Join([first] + rest) == first + "\n\n" + Join(rest)
    decreases |rest|
  {
    var all, n := [first] + rest, |rest| - 1;
    assert all[..|all| - 1] == [first] + rest[..n];
    if n == 0 {
      assert rest[..n] == [];
    } else {
      JoinCons(first, rest[..n]);
    }
  }

  /** The parts between leftmost breaks: none holds one, and none but the last ends a line. */
  predicate AreParagraphs(parts: seq<string>) {
    && parts != []
    && (forall i :: 0 <= i < |parts| ==> !HasBreak(parts[i]))
    && (forall i :: 0 <= i < |parts| - 1 ==> !EndsLine(parts[i]))
  }

  lemma OneMorePart(first: string, rest: seq<string>)
    requires !HasBreak(first) && !EndsLine(first) && AreParagraphs(rest)
    ensures AreParagraphs([first] + rest)
  {
  }

  lemma OneMoreChar(before: string, c: char)
    requires !HasBreak(before) && !(EndsLine(before) && c == '\n')
    ensures !HasBreak(before + [c]) && (EndsLine(before + [c]) <==> c == '\n')
  {
  }

  /** Without a mark the text is cut at each break of two newlines, the leftmost first; put
      together again with the breaks the parts are the text. */
  lemma {:induction false} ParagraphsAre(before: string, text: string)
    requires !HasBreak(before) && !(EndsLine(before) && text != "" && text[0] == '\n')
    ensures AreParagraphs(Paragraphs(before, text)) && Join(Paragraphs(before, text)) == before + text
    decreases |text|
  {
    hide HasBreak, EndsLine, AreParagraphs, Paragraphs, Join;
    if text == "" {
      OnePart(before);
    } else if |text| >= 2 && text[0] == '\n' && text[1] == '\n' {
      EmptyPart();
      ParagraphsAre("", text[2..]);
      AtBreak(before, text);
    } else {
      OneMoreChar(before, text[0]);
      ParagraphsAre(before + [text[0]], text[1..]);
      AtChar(before, text);
    }
  }

  lemma BreakIsCut(before: string, text: string)
    requires |text| >= 2 && text[0] == '\n' && text[1] == '\n'
    ensures Paragraphs(before, text) == [before] + Paragraphs("", text[2..])
  {
  }

  lemma BreakIsPutBack(before: string, text: string, rest: string)
    requires |text| >= 2 && text[0] == '\n' && text[1] == '\n' && rest == "" + text[2..]
    ensures before + "\n\n" + rest == before + text
  {
    assert rest == text[2..];
    assert text == text[..2] + rest;
    assert text[..2] == "\n\n";
  }

  lemma AtBreak(before: string, text: string)
    requires |text| >= 2 && text[0] == '\n' && text[1] == '\n' && !HasBreak(before) && !EndsLine(before)
    requires AreParagraphs(Paragraphs("", text[2..])) && Join(Paragraphs("", text[2..])) == "" + text[2..]
    ensures AreParagraphs(Paragraphs(before, text)) && Join(Paragraphs(before, text)) == before + text
  {
    var rest := Paragraphs("", text[2..]);
    hide *;
    PartsExist(rest);
    BreakIsCut(before, text);
    OneMorePart(before, rest);
    JoinCons(before, rest);
    BreakIsPutBack(before, text, Join(rest));
  }

  lemma AtChar(before: string, text: string)
    requires text != "" && !(|text| >= 2 && text[0] == '\n' && text[1] == '\n')
    ensures Paragraphs(before, text) == Paragraphs(before + [text[0]], text[1..])
    ensures before + [text[0]] + text[1..] == before + text
  {
  }

  lemma OnePart(part: string)
    requires !HasBreak(part)
    ensures AreParagraphs(Paragraphs(part, "")) && Join(Paragraphs(part, "")) == part + ""
  {
  }

  lemma EmptyPart()
    ensures !HasBreak("") && !EndsLine("")
  {
  }

  lemma PartsExist(parts: seq<string>)
    requires AreParagraphs(parts)
    ensures parts != []
  {
  }

  lemma {:induction false} NonBlankAre(parts: seq<string>)
    ensures forall p :: p in NonBlank(parts) <==> p in parts && Strip(p) != ""
  {
    hide Strip;
    if parts != [] {
      NonBlankAre(parts[1..]);
      assert forall p :: p in parts <==> p == parts[0] || p in parts[1..];
    }
  }

  /** Section `k` goes from its mark to the next, the last one to the end. */
  lemma {:induction false} SectionIs(text: string, starts: seq<nat>, k: nat)
    requires forall k :: 0 <= k < |starts| ==> starts[k] < |text|
    requires forall j, k :: 0 <= j < k < |starts| ==> starts[j] < starts[k]
    requires k < |starts|
    ensures |Sections(text, starts)| == |starts|
    ensures Sections(text, starts)[k] ==
            if k == |starts| - 1 then text[starts[k]..] else text[starts[k]..starts[k + 1]]
    decreases k, |starts|
  {
    SectionCount(text, starts);
    if k > 0 {
      SectionIs(text, starts[1..], k - 1);
    }
  }

  lemma {:induction false} SectionCount(text: string, starts: seq<nat>)
    requires forall k :: 0 <= k < |starts| ==> starts[k] < |text|
    requires forall j, k :: 0 <= j < k < |starts| ==> starts[j] < starts[k]
    ensures |Sections(text, starts)| == |starts|
  {
    if starts != [] {
      SectionCount(text, starts[1..]);
    }
  }

  /** A chunk of a section: the whole of it if it is no longer than the chunk size, else a
      piece that the splitter makes of it. */
  predicate IsPiece(settings: Settings, section: string, heading: string, c: Chunk) {
    && c.TextChunk? && c.text != "" && section != ""
    && c.sectionHeading == heading && c.articleHeading == ArticleHeading(section)
    && if |section| <= settings.chunkSize then c.text == section else c.text in settings.splitter(section)
  }

  lemma {:induction false} NonEmptyAre(subs: seq<string>, heading: string, article: Option<string>, c: Chunk)
    ensures c in NonEmptyChunks(subs, heading, article) <==>
            && c.TextChunk? && c.text != "" && c.text in subs
            && c.sectionHeading == heading && c.articleHeading == article
  {
    if subs != [] {
      var init := subs[..|subs| - 1];
      NonEmptyAre(init, heading, article, c);
      assert subs == init + [subs[|subs| - 1]];
    }
  }

  lemma SectionChunksAre(settings: Settings, section: string, heading: string, c: Chunk)
    ensures c in SectionChunks(settings, section, heading) <==> IsPiece(settings, section, heading, c)
  {
    hide ArticleHeading;
    NonEmptyAre(settings.splitter(section), heading, ArticleHeading(section), c);
  }

  /** The chunks are the pieces of the stripped sections, and nothing else. */
  lemma {:induction false} ChunksAreThePieces(settings: Settings, sections: seq<string>, heading: string, c: Chunk)
    ensures c in SectionsChunks(settings, sections, heading) <==>
            exists k :: 0 <= k < |sections| && IsPiece(settings, Strip(sections[k]), heading, c)
  {
    hide IsPiece, SectionChunks, Strip;
    if sections != [] {
      var n := |sections| - 1;
      ChunksAreThePieces(settings, sections[..n], heading, c);
      SectionChunksAre(settings, Strip(sections[n]), heading, c);
      assert forall k :: 0 <= k < n ==> sections[..n][k] == sections[k];
    }
  }

  /** A table is one chunk, with the summary made for it. */
  lemma {:induction false} TablesHaveTheirSummary(settings: Settings, elements: seq<Element>, pending: seq<string>,
                                                  heading: string, c: Chunk)
    requires c in Chunks(settings, elements, pending, heading) && c.TableChunk?
    ensures c.summary == settings.summary(c.table)
    decreases |elements|
  {
    hide Strip, Split, SectionsChunks;
    if pending != [] && c in Flushed(settings, pending, heading) {
      ChunksAreThePieces(settings, Split(Join(pending)), heading, c);
    } else if elements != [] {
      match elements[0]
      case TableBlock(t) =>
        if c != TableChunk(settings.summary(t), heading, t) {
          TablesHaveTheirSummary(settings, elements[1..], [], heading, c);
        }
      case TextBlock(text, isTitle) =>
        if Strip(text) == "" {
          TablesHaveTheirSummary(settings, elements[1..], pending, heading, c);
        } else {
          TablesHaveTheirSummary(settings, elements[1..], pending + [Strip(text)],
                                 if isTitle then Strip(text) else heading, c);
        }
    }
  }

  /** A document as it reads: its characters other than white space, and its tables, each
      under its section heading. */
  datatype Token = Char(c: char, heading: string) | WholeTable(table: Table, heading: string)

  function Chars(s: string, heading: string): (r: seq<Token>)
    ensures |r| == |s| && forall i :: 0 <= i < |s| ==> r[i] == Char(s[i], heading)
  {
    seq(|s|, i requires 0 <= i < |s| => Char(s[i], heading))
  }

  lemma CharsAppend(a: string, b: string, heading: string)
    ensures Chars(a + b, heading) == Chars(a, heading) + Chars(b, heading)
  {
  }

  function ChunkTokens(chunks: seq<Chunk>): seq<Token> {
    if chunks == [] then []
    else
      ChunkTokens(chunks[..|chunks| - 1]) +
      match chunks[|chunks| - 1]
      case TextChunk(text, heading, _) => Chars(NonSpaces(text), heading)
      case TableChunk(_, heading, table) => [WholeTable(table, heading)]
  }

  /** The heading after this element: a title that is not blank sets it. */
  function NextHeading(e: Element, heading: string): string {
    if e.TextBlock? && e.isTitle && Strip(e.text) != "" then Strip(e.text) else heading
  }

  /** The heading in force where the text at hand is flushed: before the next table, or at
      the end. Text takes the last title of its own block, even one that comes after it. */
  function FlushHeading(elements: seq<Element>, heading: string): string {
    if elements == [] || elements[0].TableBlock? then heading
    else FlushHeading(elements[1..], NextHeading(elements[0], heading))
  }

  function ElementTokens(elements: seq<Element>, heading: string): seq<Token>
    decreases |elements|
  {
    if elements == [] then []
    else
      (match elements[0]
       case TextBlock(text, _) => Chars(NonSpaces(text), FlushHeading(elements, heading))
       case TableBlock(table) => [WholeTable(table, heading)])
      + ElementTokens(elements[1..], NextHeading(elements[0], heading))
  }

  lemma {:induction false} ChunkTokensAppend(a: seq<Chunk>, b: seq<Chunk>)
    ensures ChunkTokens(a + b) == ChunkTokens(a) + ChunkTokens(b)
    decreases |b|
  {
    hide NonSpaces;
    if b == [] {
      assert a + b == a;
    } else {
      assert (a + b)[..|a + b| - 1] == a + b[..|b| - 1];
      ChunkTokensAppend(a, b[..|b| - 1]);
    }
  }

  /** The section is short enough, or the splitter neither loses nor repeats text of it. */
  predicate Clean(settings: Settings, section: string) {
    |section| <= settings.chunkSize || NonSpaces(Concat(settings.splitter(section))) == NonSpaces(section)
  }

  lemma {:induction false} SubsKeepText(subs: seq<string>, heading: string, article: Option<string>)
    ensures ChunkTokens(NonEmptyChunks(subs, heading, article)) == Chars(NonSpaces(Concat(subs)), heading)
  {
    hide *;
    if subs == [] {
      NoSubs(heading, article);
    } else {
      var init, sub := subs[..|subs| - 1], subs[|subs| - 1];
      SubsKeepText(init, heading, article);
      assert subs == init + [sub];
      ConcatSnoc(init, sub);
      NonSpacesAppend(Concat(init), sub);
      CharsAppend(NonSpaces(Concat(init)), NonSpaces(sub), heading);
      NextSub(init, sub, heading, article);
      ChunkTokensAppend(NonEmptyChunks(init, heading, article), [TextChunk(sub, heading, article)]);
      OneChunk(sub, heading, article);
    }
  }

  lemma NoSubs(heading: string, article: Option<string>)
    ensures ChunkTokens(NonEmptyChunks([], heading, article)) == Chars(NonSpaces(Concat([])), heading)
  {
  }

  /** An empty piece makes no chunk, which says the same as a chunk without text. */
  lemma NextSub(subs: seq<string>, sub: string, heading: string, article: Option<string>)
    ensures var before := NonEmptyChunks(subs, heading, article);
            ChunkTokens(NonEmptyChunks(subs + [sub], heading, article)) ==
            ChunkTokens(before + [TextChunk(sub, heading, article)])
  {
  }

  lemma SectionKeepsText(settings: Settings, section: string, heading: string)
    requires Clean(settings, section)
    ensures ChunkTokens(SectionChunks(settings, section, heading)) == Chars(NonSpaces(section), heading)
  {
    hide NonSpaces, NonEmptyChunks, ArticleHeading;
    NonSpacesNone();
    if section != "" {
      var article := ArticleHeading(section);
      if |section| <= settings.chunkSize {
        OneChunk(section, heading, article);
      } else {
        SubsKeepText(settings.splitter(section), heading, article);
      }
    }
  }

  lemma OneChunk(text: string, heading: string, article: Option<string>)
    ensures ChunkTokens([TextChunk(text, heading, article)]) == Chars(NonSpaces(text), heading)
  {
  }

  lemma {:induction false} SectionsKeepText(settings: Settings, sections: seq<string>, heading: string)
    requires forall i :: 0 <= i < |sections| ==> Clean(settings, Strip(sections[i]))
    ensures ChunkTokens(SectionsChunks(settings, sections, heading)) == Chars(NonSpaces(Concat(sections)), heading)
  {
    hide NonSpaces, Strip, Clean, SectionChunks, ChunkTokens;
    NonSpacesNone();
    if sections == [] {
      NoTokens();
    } else {
      var init, last := sections[..|sections| - 1], sections[|sections| - 1];
      SectionsKeepText(settings, init, heading);
      SectionKeepsText(settings, Strip(last), heading);
      ChunkTokensAppend(SectionsChunks(settings, init, heading), SectionChunks(settings, Strip(last), heading));
      NonSpacesStrip(last);
      assert sections == init + [last];
      ConcatSnoc(init, last);
      NonSpacesAppend(Concat(init), last);
      CharsAppend(NonSpaces(Concat(init)), NonSpaces(last), heading);
    }
  }

  lemma NoTokens()
    ensures ChunkTokens([]) == []
  {
  }

  lemma JoinKeepsText(parts: seq<string>, last: string)
    ensures NonSpaces(Join(parts + [last])) == NonSpaces(Join(parts)) + NonSpaces(last)
  {
    hide NonSpaces;
    NonSpacesNone();
    if parts == [] {
      assert parts + [last] == [last];
    } else {
      assert (parts + [last])[..|parts|] == parts;
      NonSpacesAppend(Join(parts) + "\n\n", last);
      NonSpacesAppend(Join(parts), "\n\n");
      NewlinesAreSpaces("\n\n");
    }
  }

  predicate FlushIsClean(settings: Settings, pending: seq<string>) {
    var sections := Split(Join(pending));
    forall i :: 0 <= i < |sections| ==> Clean(settings, Strip(sections[i]))
  }

  lemma FlushKeepsText(settings: Settings, pending: seq<string>, heading: string)
    requires FlushIsClean(settings, pending)
    ensures ChunkTokens(Flushed(settings, pending, heading)) == Chars(NonSpaces(Join(pending)), heading)
  {
    hide NonSpaces, Split, SectionsChunks, ChunkTokens, Clean, Strip;
    NonSpacesNone();
    NoTokens();
    if pending != [] {
      SectionsKeepText(settings, Split(Join(pending)), heading);
      SplitKeepsText(Join(pending));
    }
  }

  /** Every block that the pass flushes is split cleanly. */
  predicate AllClean(settings: Settings, elements: seq<Element>, pending: seq<string>)
    decreases |elements|
  {
    if elements == [] then FlushIsClean(settings, pending)
    else
      match elements[0]
      case TableBlock(_) => FlushIsClean(settings, pending) && AllClean(settings, elements[1..], [])
      case TextBlock(text, _) =>
        AllClean(settings, elements[1..], if Strip(text) == "" then pending else pending + [Strip(text)])
  }

  lemma {:induction false} PassKeepsDocument(settings: Settings, elements: seq<Element>, pending: seq<string>,
                                             heading: string)
    requires AllClean(settings, elements, pending)
    ensures ChunkTokens(Chunks(settings, elements, pending, heading)) ==
            Chars(NonSpaces(Join(pending)), FlushHeading(elements, heading)) + ElementTokens(elements, heading)
    decreases |elements|
  {
    hide NonSpaces, Strip, Flushed, ChunkTokens, FlushIsClean, Join;
    NonSpacesNone();
    if elements == [] {
      FlushKeepsText(settings, pending, heading);
    } else {
      match elements[0]
      case TableBlock(t) =>
        PassKeepsDocument(settings, elements[1..], [], heading);
        FlushKeepsText(settings, pending, heading);
        TableStep(settings, elements, pending, heading, t);
      case TextBlock(text, isTitle) =>
        NonSpacesStrip(text);
        if Strip(text) == "" {
          PassKeepsDocument(settings, elements[1..], pending, heading);
        } else {
          PassKeepsDocument(settings, elements[1..], pending + [Strip(text)], if isTitle then Strip(text) else heading);
          JoinKeepsText(pending, Strip(text));
          CharsAppend(NonSpaces(Join(pending)), NonSpaces(text), FlushHeading(elements, heading));
        }
    }
  }

  lemma TableStep(settings: Settings, elements: seq<Element>, pending: seq<string>, heading: string, t: Table)
    requires elements != [] && elements[0] == TableBlock(t)
    requires ChunkTokens(Flushed(settings, pending, heading)) == Chars(NonSpaces(Join(pending)), heading)
    requires ChunkTokens(Chunks(settings, elements[1..], [], heading)) ==
             Chars(NonSpaces(Join([])), FlushHeading(elements[1..], heading)) + ElementTokens(elements[1..], heading)
    ensures ChunkTokens(Chunks(settings, elements, pending, heading)) ==
            Chars(NonSpaces(Join(pending)), FlushHeading(elements, heading)) + ElementTokens(elements, heading)
  {
    AtTable(settings, elements, pending, heading, t);
    var later := FlushHeading(elements[1..], heading);
    NothingPending(later);
    hide *;
    var flushed := Flushed(settings, pending, heading);
    var table := TableChunk(settings.summary(t), heading, t);
    var rest := Chunks(settings, elements[1..], [], heading);
    OneTable(table.summary, heading, t);
    TokensOfThree(flushed, [table], rest);
    Rearrange(Chars(NonSpaces(Join(pending)), heading), [WholeTable(t, heading)],
              Chars(NonSpaces(Join([])), later), ElementTokens(elements[1..], heading));
  }

  lemma TokensOfThree(a: seq<Chunk>, b: seq<Chunk>, c: seq<Chunk>)
    ensures ChunkTokens(a + b + c) == ChunkTokens(a) + ChunkTokens(b) + ChunkTokens(c)
  {
    hide ChunkTokens;
    ChunkTokensAppend(a + b, c);
    ChunkTokensAppend(a, b);
  }

  lemma Rearrange(a: seq<Token>, b: seq<Token>, none: seq<Token>, c: seq<Token>)
    requires none == []
    ensures a + b + (none + c) == a + (b + c)
  {
    assert none + c == c;
  }

  lemma AtTable(settings: Settings, elements: seq<Element>, pending: seq<string>, heading: string, t: Table)
    requires elements != [] && elements[0] == TableBlock(t)
    ensures Chunks(settings, elements, pending, heading) ==
            Flushed(settings, pending, heading) + [TableChunk(settings.summary(t), heading, t)]
              + Chunks(settings, elements[1..], [], heading)
    ensures ElementTokens(elements, heading) == [WholeTable(t, heading)] + ElementTokens(elements[1..], heading)
    ensures FlushHeading(elements, heading) == heading
  {
    hide Flushed, Strip;
  }

  lemma NothingPending(heading: string)
    ensures Chars(NonSpaces(Join([])), heading) == []
  {
  }

  lemma OneTable(summary: string, heading: string, t: Table)
    ensures ChunkTokens([TableChunk(summary, heading, t)]) == [WholeTable(t, heading)]
  {
  }

  /** When no section is too long for one chunk (or the splitter is clean on those that
      are), the chunks read as the document does: every character other than white space
      once and in order, every table whole and in its place, and each under its heading. */
  lemma ChunksKeepDocument(settings: Settings, elements: seq<Element>)
    requires AllClean(settings, elements, [])
    ensures ChunkTokens(Chunks(settings, elements, [], "")) == ElementTokens(elements, "")
  {
    PassKeepsDocument(settings, elements, [], "");
    NothingPending(FlushHeading(elements, ""));
    hide *;
    assert [] + ElementTokens(elements, "") == ElementTokens(elements, "");
  }

  /* ---------- text under the title in force at it ---------- */

  /** The document as a reader has it: all text under the last title before it (a title
      under itself). */
  function InForceTokens(elements: seq<Element>, heading: string): seq<Token>
    decreases |elements|
  {
    if elements == [] then []
    else
      var next := NextHeading(elements[0], heading);
      (match elements[0]
       case TextBlock(text, _) => Chars(NonSpaces(text), next)
       case TableBlock(table) => [WholeTable(table, heading)])
      + InForceTokens(elements[1..], next)
  }

  /** No text is followed in its own block, that is before the next table, by titles that
      end in another heading than the one in force at it. */
  predicate TitlesLead(elements: seq<Element>, heading: string)
    decreases |elements|
  {
    elements == [] ||
    (var next := NextHeading(elements[0], heading);
     && TitlesLead(elements[1..], next)
     && (elements[0].TextBlock? && NonSpaces(elements[0].text) != "" ==> FlushHeading(elements, heading) == next))
  }

  lemma SameCharsSameHeading(s: string, a: string, b: string)
    ensures Chars(s, a) == Chars(s, b) <==> s == "" || a == b
  {
    if s != "" && Chars(s, a) == Chars(s, b) {
      assert Chars(s, a)[0].heading == a && Chars(s, b)[0].heading == b;
    }
  }

  lemma SameHeadSameTail(a: seq<Token>, b: seq<Token>, c: seq<Token>, d: seq<Token>)
    requires |a| == |b|
    ensures a + c == b + d <==> a == b && c == d
  {
    if a + c == b + d {
      assert a == (a + c)[..|a|] && b == (b + d)[..|b|];
      assert c == (a + c)[|a|..] && d == (b + d)[|b|..];
    }
  }

  /** The pass puts every text under the title in force at it exactly when titles lead their
      blocks. */
  lemma {:induction false} TextIsUnderItsTitleExactlyWhen(elements: seq<Element>, heading: string)
    ensures ElementTokens(elements, heading) == InForceTokens(elements, heading) <==> TitlesLead(elements, heading)
    decreases |elements|
  {
    hide NonSpaces, FlushHeading, NextHeading, Chars;
    if elements != [] {
      var next := NextHeading(elements[0], heading);
      TextIsUnderItsTitleExactlyWhen(elements[1..], next);
      match elements[0]
      case TextBlock(text, _) =>
        var words, flushed := NonSpaces(text), FlushHeading(elements, heading);
        SameCharsSameHeading(words, flushed, next);
        SameHeadSameTail(Chars(words, flushed), Chars(words, next),
                         ElementTokens(elements[1..], next), InForceTokens(elements[1..], next));
      case TableBlock(table) =>
        SameHeadSameTail([WholeTable(table, heading)], [WholeTable(table, heading)],
                         ElementTokens(elements[1..], next), InForceTokens(elements[1..], next));
    }
  }

  /** So the chunks read as the titled document does exactly when titles lead. */
  lemma ChunksReadAsTitledExactlyWhen(settings: Settings, elements: seq<Element>)
    requires AllClean(settings, elements, [])
    ensures ChunkTokens(Chunks(settings, elements, [], "")) == InForceTokens(elements, "") <==>
            TitlesLead(elements, "")
  {
    ChunksKeepDocument(settings, elements);
    TextIsUnderItsTitleExactlyWhen(elements, "");
  }

  lemma {:induction false} ShortTextHasNoMark(text: string, i: nat)
    requires i <= |text| <= 4 && text[0..] != "art." && (text == "" || text[0] != '\n')
    ensures Boundaries(text, i) == []
    decreases |text| - i
  {
    if i < |text| {
      ShortTextHasNoMark(text, i + 1);
    }
  }

  lemma TwoParagraphs()
    ensures Split("a\n\nB") == ["a", "B"]
  {
    var text := "a\n\nB";
    assert |text| == 4 && text[0] == 'a' && text[1] == '\n';
    ShortTextHasNoMark(text, 0);
    ParagraphsOfText(text);
    assert Strip("a") == "a" && Strip("B") == "B";
    hide Boundaries, Paragraphs, Strip;
    assert ["a", "B"][1..] == ["B"] && ["B"][1..] == [];
  }

  lemma ParagraphsOfText(text: string)
    requires text == "a\n\nB"
    ensures Paragraphs("", text) == ["a", "B"]
  {
    assert text[1..] == "\n\nB" && text[1..][2..] == "B" && "B"[1..] == "";
    assert "" + ['a'] == "a" && "" + ['B'] == "B";
    assert Paragraphs("", "B") == ["B"];
    assert Paragraphs("a", "\n\nB") == ["a", "B"];
  }

  lemma PassOfTwo(settings: Settings, a: string, b: string)
    requires Strip(a) == a != "" && Strip(b) == b != ""
    ensures Chunks(settings, [TextBlock(a, false), TextBlock(b, true)], [], "") == Flushed(settings, [a, b], b)
  {
    hide Strip, Flushed;
    var first, second := TextBlock(a, false), TextBlock(b, true);
    assert [first, second][1..] == [second] && [second][1..] == [];
    assert [] + [a] == [a] && [a] + [b] == [a, b];
    assert Chunks(settings, [], [a, b], b) == Flushed(settings, [a, b], b);
    assert Chunks(settings, [second], [a], "") == Flushed(settings, [a, b], b);
  }

  lemma TwoSections(settings: Settings, a: string, b: string, heading: string)
    requires Strip(a) == a != "" && Strip(b) == b != "" && MarkLength(a) == MarkLength(b) == 0
    requires |a| <= settings.chunkSize && |b| <= settings.chunkSize
    ensures SectionsChunks(settings, [a, b], heading) == [TextChunk(a, heading, None), TextChunk(b, heading, None)]
  {
    hide Strip, MarkLength;
    assert [a, b][..1] == [a] && [a][..0] == [];
    assert SectionsChunks(settings, [a], heading) == [TextChunk(a, heading, None)];
  }

  /** A text and then a title, with no table between: the chunk of the text carries the
      title that comes after it. */
  lemma LaterTitleCanWin(settings: Settings)
    requires settings.chunkSize >= 1
    ensures Chunks(settings, [TextBlock("a", false), TextBlock("B", true)], [], "") ==
            [TextChunk("a", "B", None), TextChunk("B", "B", None)]
  {
    assert Strip("a") == "a" && Strip("B") == "B" && MarkLength("a") == 0 && MarkLength("B") == 0;
    assert ["a", "B"][..1] == ["a"] && Join(["a", "B"]) == "a" + "\n\n" + "B" == "a\n\nB";
    hide Strip, MarkLength, Split, Chunks, SectionsChunks, Join;
    TwoParagraphs();
    PassOfTwo(settings, "a", "B");
    TwoSections(settings, "a", "B", "B");
  }

  /* ---------- the marks, written out ---------- */

  predicate DigitChar(c: char) { '0' <= c <= '9' }

  predicate RomanChar(c: char) { c == 'I' || c == 'V' || c == 'X' || c == 'i' || c == 'v' || c == 'x' }

  predicate WordLetter(c: char) { DigitChar(c) || 'a' <= c <= 'z' || 'A' <= c <= 'Z' || c == '_' }

  /** The text begins with the word, in any case. */
  predicate BeginsWith(s: string, word: string) {
    |word| <= |s| && forall i :: 0 <= i < |word| ==>
      s[i] == word[i] || ('a' <= word[i] <= 'z' && s[i] as int == word[i] as int - 32)
  }

  /** From `i` on there is white space up to `a`, which is more than `i`, and then something. */
  predicate WhiteUpTo(s: string, i: nat, a: nat) {
    i < a < |s| && (forall k :: i <= k < a ==> IsSpace(s[k])) && !IsSpace(s[a])
  }

  /** White space up to `a`, digits up to `b`, white space, if there is any, up to `c`, and a
      colon, hyphen or dash, if there is one: `n` is where that ends. */
  predicate ArticleParts(s: string, i: nat, a: nat, b: nat, c: nat, n: nat) {
    && a < b <= c <= |s| && WhiteUpTo(s, i, a)
    && (forall k :: a <= k < b ==> DigitChar(s[k])) && (b < |s| ==> !DigitChar(s[b]))
    && (forall k :: b <= k < c ==> IsSpace(s[k])) && (c < |s| ==> !IsSpace(s[c]))
    && n == if c < |s| && (s[c] == ':' || s[c] == '-' || s[c] == '\U{2013}') then c + 1 else c
  }

  predicate ArticleNumber(s: string, i: nat, n: nat) {
    exists a, b, c :: 0 <= a < b <= c <= |s| && ArticleParts(s, i, a, b, c, n)
  }

  /** White space up to `a`, and then digits or roman numerals with no further word
      character. */
  predicate HeadingParts(s: string, i: nat, a: nat, n: nat) {
    && a < n <= |s| && WhiteUpTo(s, i, a)
    && ((forall k :: a <= k < n ==> DigitChar(s[k])) || (forall k :: a <= k < n ==> RomanChar(s[k])))
    && (n < |s| ==> !WordLetter(s[n]))
  }

  predicate HeadingNumber(s: string, i: nat, n: nat) { exists a :: 0 <= a < |s| && HeadingParts(s, i, a, n) }

  /** A mark of `n` characters: one of five words, and its number. */
  predicate IsMark(s: string, n: nat) {
    || (BeginsWith(s, "article") && ArticleNumber(s, 7, n))
    || (BeginsWith(s, "art.") && ArticleNumber(s, 4, n))
    || (BeginsWith(s, "titre") && HeadingNumber(s, 5, n))
    || (BeginsWith(s, "chapitre") && HeadingNumber(s, 8, n))
    || (BeginsWith(s, "section") && HeadingNumber(s, 7, n))
  }

  lemma {:induction false} SpanIs(s: string, i: nat, end: nat, p: char -> bool)
    requires i <= end <= |s| && (forall k :: i <= k < end ==> p(s[k])) && (end < |s| ==> !p(s[end]))
    ensures Span(s[i..], p) == end - i
    decreases end - i
  {
    if i < end {
      assert s[i..][1..] == s[i + 1..];
      SpanIs(s, i + 1, end, p);
    }
  }

  lemma {:induction false} SpanEnds(s: string, i: nat, p: char -> bool)
    requires i <= |s|
    ensures var end := i + Span(s[i..], p);
            && end <= |s| && (forall k :: i <= k < end ==> p(s[k])) && (end < |s| ==> !p(s[end]))
    decreases |s| - i
  {
    if i < |s| && p(s[i]) {
      assert s[i..][1..] == s[i + 1..];
      SpanEnds(s, i + 1, p);
    }
  }

  lemma ArticleScanFromStart(s: string, a: nat, b: nat, c: nat)
    requires a <= b <= c <= |s|
    requires a == Span(s, IsSpace) && b == a + Span(s[a..], IsDigit) && c == b + Span(s[b..], IsSpace)
    ensures a == 0 || b == a ==> ArticleRest(s) == 0
    ensures a > 0 && b > a && c < |s| && (s[c] == ':' || s[c] == '-' || s[c] == '\U{2013}') ==> ArticleRest(s) == c + 1
    ensures a > 0 && b > a && !(c < |s| && (s[c] == ':' || s[c] == '-' || s[c] == '\U{2013}')) ==> ArticleRest(s) == c
  {
    hide Span;
  }

  /** The parts of an article number that the scan finds. */
  lemma ArticleScan(s: string, i: nat, a: nat, b: nat, c: nat)
    requires i <= a <= b <= c <= |s|
    requires a == i + Span(s[i..], IsSpace) && b == a + Span(s[a..], IsDigit) && c == b + Span(s[b..], IsSpace)
    ensures ArticleRest(s[i..]) ==
            if a == i || b == a then 0
            else if c < |s| && (s[c] == ':' || s[c] == '-' || s[c] == '\U{2013}') then c + 1 - i
            else c - i
  {
    hide Span, ArticleRest;
    assert s[i..][a - i..] == s[a..] && s[i..][b - i..] == s[b..];
    assert c < |s| ==> s[i..][c - i] == s[c];
    ArticleScanFromStart(s[i..], a - i, b - i, c - i);
  }

  /** Where the scan stops. */
  lemma WhiteSpan(s: string, i: nat, a: nat)
    requires i <= |s|
    ensures WhiteUpTo(s, i, a) <==> a == i + Span(s[i..], IsSpace) && i < a < |s|
  {
    SpanEnds(s, i, IsSpace);
    if WhiteUpTo(s, i, a) {
      SpanIs(s, i, a, IsSpace);
    }
  }

  lemma ArticlePartsAre(s: string, i: nat, a: nat, b: nat, c: nat, n: nat)
    requires ArticleParts(s, i, a, b, c, n)
    ensures ArticleRest(s[i..]) == n - i && n > i
  {
    WhiteSpan(s, i, a);
    SpanIs(s, a, b, IsDigit);
    SpanIs(s, b, c, IsSpace);
    ArticleScan(s, i, a, b, c);
    hide ArticleRest, Span;
  }

  lemma ArticlePartsExist(s: string, i: nat) returns (a: nat, b: nat, c: nat)
    requires i <= |s| && ArticleRest(s[i..]) > 0
    ensures ArticleParts(s, i, a, b, c, i + ArticleRest(s[i..]))
  {
    a := i + Span(s[i..], IsSpace);
    SpanEnds(s, i, IsSpace);
    b := a + Span(s[a..], IsDigit);
    SpanEnds(s, a, IsDigit);
    c := b + Span(s[b..], IsSpace);
    SpanEnds(s, b, IsSpace);
    ArticleScan(s, i, a, b, c);
    hide ArticleRest, Span;
    assert IsDigit(s[a]);
  }

  lemma ArticleNumberIs(s: string, i: nat, n: nat)
    requires i <= |s| && n > i
    ensures ArticleRest(s[i..]) == n - i <==> ArticleNumber(s, i, n)
  {
    hide ArticleRest, ArticleParts;
    if ArticleNumber(s, i, n) {
      var a, b, c :| 0 <= a < b <= c <= |s| && ArticleParts(s, i, a, b, c, n);
      ArticlePartsAre(s, i, a, b, c, n);
    }
    if ArticleRest(s[i..]) == n - i {
      var a, b, c := ArticlePartsExist(s, i);
      ArticlePartsOrdered(s, i, a, b, c, n);
    }
  }

  lemma ArticlePartsOrdered(s: string, i: nat, a: nat, b: nat, c: nat, n: nat)
    requires ArticleParts(s, i, a, b, c, n)
    ensures a < b <= c <= |s|
  {
  }

  lemma HeadingScan(s: string, i: nat, a: nat)
    requires i <= a <= |s| && a == i + Span(s[i..], IsSpace)
    ensures var digits, roman := Span(s[a..], IsDigit), Span(s[a..], IsRoman);
            var b := a + if digits > 0 then digits else roman;
            && b <= |s|
            && HeadingRest(s[i..]) == if a == i || b == a || (b < |s| && IsWord(s[b])) then 0 else b - i
  {
    assert s[i..][a - i..] == s[a..];
    var digits, roman := Span(s[a..], IsDigit), Span(s[a..], IsRoman);
    var b := a + if digits > 0 then digits else roman;
    assert b < |s| ==> s[i..][b - i] == s[b];
  }

  lemma HeadingPartsAre(s: string, i: nat, a: nat, n: nat)
    requires HeadingParts(s, i, a, n)
    ensures HeadingRest(s[i..]) == n - i && n > i
  {
    WhiteSpan(s, i, a);
    HeadingScan(s, i, a);
    DigitIsNoSpace(s[a]);
    if n < |s| {
      DigitIsNoSpace(s[n]);
    }
    if DigitChar(s[a]) {
      SpanIs(s, a, n, IsDigit);
    } else {
      SpanIs(s, a, a, IsDigit);
      SpanIs(s, a, n, IsRoman);
    }
    hide HeadingRest, Span;
  }

  lemma HeadingPartsExist(s: string, i: nat) returns (a: nat)
    requires i <= |s| && HeadingRest(s[i..]) > 0
    ensures HeadingParts(s, i, a, i + HeadingRest(s[i..]))
  {
    a := i + Span(s[i..], IsSpace);
    SpanEnds(s, i, IsSpace);
    SpanEnds(s, a, IsDigit);
    SpanEnds(s, a, IsRoman);
    HeadingScan(s, i, a);
    hide HeadingRest, Span;
  }

  lemma HeadingNumberIs(s: string, i: nat, n: nat)
    requires i <= |s| && n > i
    ensures HeadingRest(s[i..]) == n - i <==> HeadingNumber(s, i, n)
  {
    hide HeadingRest;
    if HeadingNumber(s, i, n) {
      var a :| 0 <= a < |s| && HeadingParts(s, i, a, n);
      HeadingPartsAre(s, i, a, n);
    }
    if HeadingRest(s[i..]) == n - i {
      var a := HeadingPartsExist(s, i);
    }
  }

  lemma SameBeginning(s: string, word: string)
    requires forall k :: 0 <= k < |word| ==> 'a' <= word[k] <= 'z' || word[k] == '.'
    ensures StartsWith(s, word) <==> BeginsWith(s, word)
  {
  }

  lemma FiveWords()
    ensures |"article"| == 7 && |"art."| == 4 && |"titre"| == 5 && |"chapitre"| == 8 && |"section"| == 7
    ensures forall k :: 0 <= k < 7 ==> 'a' <= "article"[k] <= 'z'
    ensures forall k :: 0 <= k < 4 ==> 'a' <= "art."[k] <= 'z' || "art."[k] == '.'
    ensures forall k :: 0 <= k < 5 ==> 'a' <= "titre"[k] <= 'z'
    ensures forall k :: 0 <= k < 8 ==> 'a' <= "chapitre"[k] <= 'z'
    ensures forall k :: 0 <= k < 7 ==> 'a' <= "section"[k] <= 'z'
  {
  }

  lemma OneWord(s: string)
    ensures !(BeginsWith(s, "article") && BeginsWith(s, "art."))
    ensures BeginsWith(s, "titre") ==> !BeginsWith(s, "article") && !BeginsWith(s, "art.")
    ensures BeginsWith(s, "chapitre") ==>
              !BeginsWith(s, "article") && !BeginsWith(s, "art.") && !BeginsWith(s, "titre")
    ensures BeginsWith(s, "section") ==>
              && !BeginsWith(s, "article") && !BeginsWith(s, "art.") && !BeginsWith(s, "titre")
              && !BeginsWith(s, "chapitre")
  {
    assert "article"[0] == 'a' && "article"[3] == 'i' && "art."[0] == 'a' && "art."[3] == '.';
    assert "titre"[0] == 't' && "chapitre"[0] == 'c' && "section"[0] == 's';
    FiveWords();
  }

  /** The mark at the front of a text goes exactly as far as it is written. */
  lemma MarkIsWritten(s: string, n: nat)
    requires n > 0
    ensures MarkLength(s) == n <==> IsMark(s, n)
  {
    FiveWords();
    OneWord(s);
    SameBeginning(s, "article");
    SameBeginning(s, "art.");
    SameBeginning(s, "titre");
    SameBeginning(s, "chapitre");
    SameBeginning(s, "section");
    WordFits(s);
    hide StartsWith, BeginsWith, ArticleRest, HeadingRest, ArticleNumber, HeadingNumber;
    if BeginsWith(s, "article") {
      ArticleFrom(s, 7, n);
    } else if BeginsWith(s, "art.") {
      ArticleFrom(s, 4, n);
    } else if BeginsWith(s, "titre") {
      HeadingFrom(s, 5, n);
    } else if BeginsWith(s, "chapitre") {
      HeadingFrom(s, 8, n);
    } else if BeginsWith(s, "section") {
      HeadingFrom(s, 7, n);
    }
  }

  lemma ArticleFrom(s: string, i: nat, n: nat)
    requires i <= |s|
    ensures ArticleNumber(s, i, n) <==> n > i && ArticleRest(s[i..]) == n - i
  {
    if n > i {
      ArticleNumberIs(s, i, n);
    }
    hide ArticleRest;
  }

  lemma HeadingFrom(s: string, i: nat, n: nat)
    requires i <= |s|
    ensures HeadingNumber(s, i, n) <==> n > i && HeadingRest(s[i..]) == n - i
  {
    if n > i {
      HeadingNumberIs(s, i, n);
    }
    hide HeadingRest;
  }

  /** A section that fits becomes one chunk, under its own mark without the white space at
      its ends, or without an article when it begins with none. */
  lemma ChunkCarriesItsMark(settings: Settings, section: string, heading: string, n: nat)
    requires section != "" && |section| <= settings.chunkSize && n <= |section|
    ensures n > 0 && IsMark(section, n) ==>
              SectionChunks(settings, section, heading) == [TextChunk(section, heading, Some(Strip(section[..n])))]
    ensures (forall m :: 0 < m <= |section| ==> !IsMark(section, m)) ==>
              SectionChunks(settings, section, heading) == [TextChunk(section, heading, None)]
  {
    hide IsMark, MarkLength;
    if n > 0 {
      MarkIsWritten(section, n);
    }
    if MarkLength(section) > 0 {
      MarkIsWritten(section, MarkLength(section));
    }
  }

  /** Boundaries are the line starts at which a mark is written. */
  lemma BoundariesAreWritten(text: string, j: nat)
    requires j < |text|
    ensures j in Boundaries(text, 0) <==>
            (j == 0 || text[j - 1] == '\n') && exists n :: 0 < n <= |text| && IsMark(text[j..], n)
  {
    hide MarkLength, IsMark;
    BoundariesAreTheMarks(text, 0, j);
    forall n | 0 < n <= |text| ensures MarkLength(text[j..]) == n <==> IsMark(text[j..], n) {
      MarkIsWritten(text[j..], n);
    }
    if MarkLength(text[j..]) > 0 {
      assert IsMark(text[j..], MarkLength(text[j..]));
    }
  }

  lemma WordFits(s: string)
    ensures BeginsWith(s, "article") || BeginsWith(s, "section") ==> |s| >= 7
    ensures BeginsWith(s, "art.") ==> |s| >= 4
    ensures BeginsWith(s, "titre") ==> |s| >= 5
    ensures BeginsWith(s, "chapitre") ==> |s| >= 8
  {
    FiveWords();
  }

  lemma DigitIsNoSpace(c: char)
    ensures IsDigit(c) ==> !IsSpace(c)
    ensures IsRoman(c) ==> !IsSpace(c) && !IsDigit(c)
    ensures IsDigit(c) == DigitChar(c) && IsRoman(c) == RomanChar(c) && IsWord(c) == WordLetter(c)
    ensures IsDigit(c) || IsRoman(c) ==> IsWord(c)
  {
  }
}
