/** Server-sent events: the printer (schemas/commands.py), the line-based parser (control/worker_client.py) and the
    incremental parser (sdk/typescript/src/index.ts). Framing as in section 9.2.6 of the WHATWG HTML Living Standard.
    An event is the text of its payload; reading that as JSON is not part of this model. Python's parser is fed by the
    HTTP client's line iterator, whose lines are those of `str.splitlines`. */
module Sse {
  import opened Bytes

  datatype Language = Python | TypeScript

  // ---- lines ----

  function NextNewline(s: string): (k: nat)
    ensures k <= |s| && (k < |s| ==> s[k] == '\n') && forall i :: 0 <= i < k ==> s[i] != '\n'
  {
    if s == "" || s[0] == '\n' then 0 else 1 + NextNewline(s[1..])
  }

  function ChopReturn(s: string): string {
    if s != "" && s[|s| - 1] == '\r' then s[..|s| - 1] else s
  }

  /** The text split at every LF or CRLF. */
  function Lines(s: string): (r: seq<string>)
    ensures r != []
    decreases |s|
  {
    var k := NextNewline(s);
    if k == |s| then [s] else [ChopReturn(s[..k])] + Lines(s[k + 1..])
  }

  /** What ends a line for the Python client, which cuts its response the way `str.splitlines` does. */
  predicate Separator(c: char) {
    var n := c as int;
    10 <= n <= 13 || 28 <= n <= 30 || n in {0x85, 0x2028, 0x2029}
  }

  function NextSeparator(s: string): (k: nat)
    ensures k <= |s| && (k < |s| ==> Separator(s[k])) && forall i :: 0 <= i < k ==> !Separator(s[i])
  {
    if s == "" || Separator(s[0]) then 0 else 1 + NextSeparator(s[1..])
  }

  /** The end of the line that the separator at `k` ends; CRLF is one separator. */
  function AfterSeparator(s: string, k: nat): (n: nat)
    requires k < |s|
    ensures k < n <= |s|
  {
    if s[k] == '\r' && k + 1 < |s| && s[k + 1] == '\n' then k + 2 else k + 1
  }

  /** The text split at every separator, without a last empty line. */
  function SplitLines(s: string): seq<string>
    decreases |s|
  {
    var k := NextSeparator(s);
    if s == "" then [] else if k == |s| then [s] else [s[..k]] + SplitLines(s[AfterSeparator(s, k)..])
  }

  /** The lines each language reads. */
  function Cut(lang: Language, s: string): seq<string> {
    if lang.Python? then SplitLines(s) else Lines(s)
  }

  // ---- white space ----

  /** White space in both languages: the space and tab characters, and Unicode's separators. */
  predicate CommonSpace(c: char) {
    var n := c as int;
    || 9 <= n <= 13 || n == 32 || n == 0xA0 || n == 0x1680 || 0x2000 <= n <= 0x200A
    || n in {0x2028, 0x2029, 0x202F, 0x205F, 0x3000}
  }

  predicate Space(lang: Language, c: char) {
    match lang
    case Python => CommonSpace(c) || 28 <= c as int <= 31 || c as int == 0x85
    case TypeScript => CommonSpace(c) || c as int == 0xFEFF
  }

  /** Where the two languages differ on white space: Python knows four separators of its own and the next line character,
      TypeScript the byte order mark. Both know the ASCII characters. */
  lemma SpacesDiffer(c: char)
    ensures Space(Python, c) && !Space(TypeScript, c) <==> c as int in {0x1C, 0x1D, 0x1E, 0x1F, 0x85}
    ensures Space(TypeScript, c) && !Space(Python, c) <==> c as int == 0xFEFF
    ensures c as int < 0x1C ==> (Space(Python, c) <==> c as int in {9, 10, 11, 12, 13})
    ensures 0x20 <= c as int < 0x85 ==> (Space(Python, c) <==> c == ' ')
  {
  }

  function TrimLeft(lang: Language, s: string): (t: string)
    ensures |t| <= |s|
  {
    if s != "" && Space(lang, s[0]) then TrimLeft(lang, s[1..]) else s
  }

  function TrimRight(lang: Language, s: string): (t: string)
    ensures |t| <= |s|
  {
    if s != "" && Space(lang, s[|s| - 1]) then TrimRight(lang, s[..|s| - 1]) else s
  }

  /** What is kept of the text after "data:": Python strips it on the left, TypeScript on both sides. */
  function Strip(lang: Language, s: string): (t: string)
    ensures |t| <= |s|
  {
    if lang.Python? then TrimLeft(lang, s) else TrimRight(lang, TrimLeft(lang, s))
  }

  function StripBreaks(s: string): (t: string)
    ensures |t| <= |s|
  {
    if s != "" && s[|s| - 1] in {'\r', '\n'} then StripBreaks(s[..|s| - 1]) else s
  }

  /** Python strips what is left of a line break. */
  function Raw(lang: Language, s: string): (t: string)
    ensures |t| <= |s|
  {
    if lang.Python? then StripBreaks(s) else s
  }

  // ---- the line-based reading ----

  const DATA := "data:"

  function Join(ds: seq<string>): string {
    if ds == [] then "" else if |ds| == 1 then ds[0] else Join(ds[..|ds| - 1]) + "\n" + ds[|ds| - 1]
  }

  /** The event of a block with these data lines. TypeScript drops an event without text. */
  function Event(lang: Language, ds: seq<string>): seq<string> {
    if ds == [] || (lang.TypeScript? && Join(ds) == "") then [] else [Join(ds)]
  }

  /** The events of a text given as lines, when the data lines `ds` are pending. */
  function Fold(lang: Language, lines: seq<string>, ds: seq<string>): seq<string>
    decreases |lines|
  {
    if lines == [] then Event(lang, ds) else
      var l := Raw(lang, lines[0]);
      if DATA <= l then Fold(lang, lines[1..], ds + [Strip(lang, l[5..])])
      else if l == "" then Event(lang, ds) + Fold(lang, lines[1..], [])
      else Fold(lang, lines[1..], ds)
  }

  /** `_parse_sse`. */
  method ParseLines(lines: seq<string>) returns (out: seq<string>)
    ensures out == Fold(Python, lines, [])
  {
    hide StripBreaks, TrimLeft, Fold, Event, Join;
    out := [];
    var ds := [];
    FoldStarts(lines);
    for i := 0 to |lines|
      invariant Fold(Python, lines, []) == out + Fold(Python, lines[i..], ds)
    {
      FoldLine(lines, i, out, ds);
      AddEvent(out, ds);
      var l := StripBreaks(lines[i]);
      if DATA <= l {
        ds := ds + [TrimLeft(Python, l[5..])];
      } else if l == "" && ds != [] {
        out := out + [Join(ds)];
        ds := [];
      }
    }
    FoldEnds(lines, ds);
    AddEvent(out, ds);
    if ds != [] {
      out := out + [Join(ds)];
    }
  }

  lemma FoldStarts(lines: seq<string>)
    ensures Fold(Python, lines, []) == [] + Fold(Python, lines[0..], [])
  {
    assert lines[0..] == lines;
  }

  lemma FoldLine(lines: seq<string>, i: nat, out: seq<string>, ds: seq<string>)
    requires i < |lines|
    ensures var l := StripBreaks(lines[i]);
            out + Fold(Python, lines[i..], ds) ==
            if DATA <= l then out + Fold(Python, lines[i + 1..], ds + [TrimLeft(Python, l[5..])])
            else if l == "" then out + Event(Python, ds) + Fold(Python, lines[i + 1..], [])
            else out + Fold(Python, lines[i + 1..], ds)
  {
    hide StripBreaks, TrimLeft, Event;
    assert lines[i..][1..] == lines[i + 1..];
  }

  lemma FoldEnds(lines: seq<string>, ds: seq<string>)
    ensures Fold(Python, lines[|lines|..], ds) == Event(Python, ds)
  {
  }

  lemma AddEvent(out: seq<string>, ds: seq<string>)
    ensures out + Event(Python, ds) == if ds == [] then out else out + [Join(ds)]
  {
  }

  // ---- the incremental parser ----

  /** The length of the match of \r?\n\r?\n at `i`, or zero. */
  function MatchAt(s: string, i: nat): (m: nat)
    ensures m > 0 ==> i + m <= |s|
  {
    var j := if i < |s| && s[i] == '\r' then i + 1 else i;
    if j >= |s| || s[j] != '\n' then 0 else
      var k := if j + 1 < |s| && s[j + 1] == '\r' then j + 2 else j + 1;
      if k >= |s| || s[k] != '\n' then 0 else k + 1 - i
  }

  /** The first match at or after `i`, or the end of the text. */
  function FirstBreak(s: string, i: nat): (b: nat)
    requires i <= |s|
    ensures i <= b <= |s| && (b < |s| ==> MatchAt(s, b) > 0) && forall j :: i <= j < b ==> MatchAt(s, j) == 0
    decreases |s| - i
  {
    if i == |s| || MatchAt(s, i) > 0 then i else FirstBreak(s, i + 1)
  }

  /** The values of a block's data lines. */
  function DataOf(lines: seq<string>): seq<string> {
    if lines == [] then []
    else (if DATA <= lines[0] then [Strip(TypeScript, lines[0][5..])] else []) + DataOf(lines[1..])
  }

  /** The event of a block, if it has one. */
  function Emit(block: string): seq<string> {
    Event(TypeScript, DataOf(Lines(block)))
  }

  /** The events of a whole text, block by block. */
  function Blocks(s: string): seq<string>
    decreases |s|
  {
    var b := FirstBreak(s, 0);
    if b == |s| then Emit(s) else Emit(s[..b]) + Blocks(s[b + MatchAt(s, b)..])
  }

  /** A match within the text does not depend on what follows it. */
  lemma MatchIsStable(s: string, more: string, i: nat)
    ensures MatchAt(s, i) > 0 ==> MatchAt(s + more, i) == MatchAt(s, i)
    ensures MatchAt(s, i) == 0 && MatchAt(s + more, i) > 0 ==> i + MatchAt(s + more, i) > |s|
  {
  }

  /** More text does not change the first match. */
  lemma BreakIsStable(s: string, more: string)
    requires FirstBreak(s, 0) < |s|
    ensures FirstBreak(s + more, 0) == FirstBreak(s, 0)
    ensures MatchAt(s + more, FirstBreak(s, 0)) == MatchAt(s, FirstBreak(s, 0))
  {
    hide FirstBreak;
    var b, t := FirstBreak(s, 0), s + more;
    MatchIsStable(s, more, b);
    forall j | 0 <= j < b
      ensures MatchAt(t, j) == 0
    {
      MatchIsStable(s, more, j);
      assert MatchAt(s, j) == 0;
    }
  }

  /** How more text after a block is read. */
  lemma BlockIsRead(buffer: string, rest: string)
    requires FirstBreak(buffer, 0) < |buffer|
    ensures var b := FirstBreak(buffer, 0);
            Blocks(buffer + rest) == Emit(buffer[..b]) + Blocks(buffer[b + MatchAt(buffer, b)..] + rest)
  {
    hide FirstBreak, MatchAt, Emit;
    var b := FirstBreak(buffer, 0);
    BreakIsStable(buffer, rest);
    assert (buffer + rest)[..b] == buffer[..b];
    assert (buffer + rest)[b + MatchAt(buffer, b)..] == buffer[b + MatchAt(buffer, b)..] + rest;
  }

  lemma LastBlock(buffer: string)
    requires FirstBreak(buffer, 0) == |buffer|
    ensures Blocks(buffer) == Emit(buffer)
  {
  }

  /** The inner loop: the finished blocks are read, whatever text follows. */
  method Drain(text: string, ghost rest: string) returns (out: seq<string>, buffer: string)
    ensures out + Blocks(buffer + rest) == Blocks(text + rest)
    ensures FirstBreak(buffer, 0) == |buffer|
  {
    hide FirstBreak, MatchAt, Emit, Blocks;
    out, buffer := [], text;
    while FirstBreak(buffer, 0) < |buffer|
      invariant out + Blocks(buffer + rest) == Blocks(text + rest)
      decreases |buffer|
    {
      var b := FirstBreak(buffer, 0);
      BlockIsRead(buffer, rest);
      out := out + Emit(buffer[..b]);
      buffer := buffer[b + MatchAt(buffer, b)..];
    }
  }

  lemma NextChunk(buffer: string, chunks: seq<string>, i: nat)
    requires i < |chunks|
    ensures buffer + Concat(chunks[i..]) == buffer + chunks[i] + Concat(chunks[i + 1..])
  {
    assert chunks[i..][1..] == chunks[i + 1..];
  }

  lemma NoChunk(buffer: string, chunks: seq<string>)
    ensures buffer + Concat(chunks[|chunks|..]) == buffer
  {
  }

  /** `parseSse`: the same events however the text is cut into chunks. */
  method ParseChunks(chunks: seq<string>) returns (out: seq<string>)
    ensures out == Blocks(Concat(chunks))
  {
    out := [];
    var buffer := "";
    assert buffer + Concat(chunks[0..]) == Concat(chunks) by {
      assert chunks[0..] == chunks;
    }
    assert FirstBreak(buffer, 0) == |buffer|;
    hide FirstBreak, MatchAt, Emit, Blocks, Blank, Concat;
    for i := 0 to |chunks|
      invariant out + Blocks(buffer + Concat(chunks[i..])) == Blocks(Concat(chunks))
      invariant FirstBreak(buffer, 0) == |buffer|
    {
      NextChunk(buffer, chunks, i);
      var more, left := Drain(buffer + chunks[i], Concat(chunks[i + 1..]));
      out, buffer := out + more, left;
    }
    NoChunk(buffer, chunks);
    LastBlock(buffer);
    if !Blank(buffer) {
      out := out + Emit(buffer);
    } else {
      BlankIsSilent(buffer);
    }
  }

  predicate Blank(s: string) {
    forall i :: 0 <= i < |s| ==> Space(TypeScript, s[i])
  }

  lemma BlankLineHasNoData(s: string, k: nat)
    requires Blank(s) && k <= |s|
    ensures !(DATA <= s[..k]) && !(DATA <= ChopReturn(s[..k])) && Blank(s[k..]) && (k < |s| ==> Blank(s[k + 1..]))
  {
    assert DATA[0] == 'd' && !Space(TypeScript, 'd');
    hide Space;
    var l := ChopReturn(s[..k]);
    assert l != "" ==> l[0] == s[0];
  }

  lemma {:induction false} BlankHasNoData(s: string)
    requires Blank(s)
    ensures DataOf(Lines(s)) == []
    decreases |s|
  {
    var k := NextNewline(s);
    BlankLineHasNoData(s, k);
    hide Strip, Blank, ChopReturn;
    if k == |s| {
      assert s[..k] == s;
      assert Lines(s)[1..] == [];
    } else {
      BlankHasNoData(s[k + 1..]);
      assert Lines(s)[1..] == Lines(s[k + 1..]);
    }
  }

  lemma BlankIsSilent(s: string)
    requires Blank(s)
    ensures Emit(s) == []
  {
    BlankHasNoData(s);
  }
}
