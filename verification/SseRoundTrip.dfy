/** Printed events are read back, by both parsers and for exactly the payloads that fit on a line. */
module SseRoundTrip {
  import opened Bytes
  import opened Sse
  import opened SseLaws

  datatype Printed = Printed(kind: string, payload: string)

  /** `to_sse`, with the line ends the transport may turn into CRLF. */
  function Print(e: Printed, crlf: bool): string {
    "event: " + e.kind + LineEnd(crlf) + "data: " + e.payload + LineEnd(crlf) + LineEnd(crlf)
  }

  function Stream(es: seq<Printed>, crlf: bool): string {
    if es == [] then "" else Print(es[0], crlf) + Stream(es[1..], crlf)
  }

  function Payloads(es: seq<Printed>): seq<string> {
    if es == [] then [] else [es[0].payload] + Payloads(es[1..])
  }

  predicate OneLine(s: string) {
    '\n' !in s && (s == "" || s[|s| - 1] != '\r')
  }

  /** A text without anything that ends a line in Python. */
  predicate Unbroken(s: string) {
    forall i :: 0 <= i < |s| ==> !Separator(s[i])
  }

  /** A text that is one line to the language. */
  predicate Whole(lang: Language, s: string) {
    if lang.Python? then Unbroken(s) else OneLine(s)
  }

  /** A payload that fits on a line and has no white space to lose. */
  predicate Clean(lang: Language, p: string) {
    && Whole(lang, p)
    && (p != "" ==> !Space(lang, p[0]))
    && (lang.TypeScript? ==> p != "" && !Space(lang, p[|p| - 1]))
  }

  /** What a language's parser makes of a text. */
  function Read(lang: Language, s: string): seq<string> {
    Fold(lang, Cut(lang, s), [])
  }

  // ---- lines of a printed event ----

  lemma {:induction false} LineOf(s: string)
    requires '\n' !in s
    ensures NextNewline(s) == |s| && Lines(s) == [s]
  {
    assert forall k :: 0 <= k < |s| ==> s[k] in s;
  }

  lemma PrintedLines(e: Printed, crlf: bool, rest: string)
    requires OneLine(e.kind) && OneLine(e.payload)
    ensures Lines(Print(e, crlf) + rest) == ["event: " + e.kind, "data: " + e.payload, ""] + Lines(rest)
  {
    hide Lines, LineEnd;
    var a, b, end := "event: " + e.kind, "data: " + e.payload, LineEnd(crlf);
    LineOf(a);
    LineOf(b);
    EmptyLine(crlf, rest);
    LinesAppend(b, crlf, end + rest);
    LinesAppend(a, crlf, b + end + (end + rest));
    Shape("event: ", e.kind, "data: ", e.payload, end, rest);
    hide Closed;
    assert [a] + ([b] + ([""] + Lines(rest))) == [a, b, ""] + Lines(rest);
  }

  lemma UnbrokenIsOneLine(s: string)
    requires Unbroken(s)
    ensures OneLine(s)
  {
  }

  lemma SplitAt(s: string, k: nat)
    requires k < |s| && Separator(s[k]) && forall i :: 0 <= i < k ==> !Separator(s[i])
    ensures NextSeparator(s) == k && SplitLines(s) == [s[..k]] + SplitLines(s[AfterSeparator(s, k)..])
  {
  }

  lemma SplitAppend(x: string, crlf: bool, y: string)
    requires Unbroken(x)
    ensures SplitLines(x + LineEnd(crlf) + y) == [x] + SplitLines(y)
  {
    hide SplitLines, NextSeparator;
    var e := LineEnd(crlf);
    var s := x + e + y;
    SliceOfAppend(x, e, y, |x|);
    assert s[|x|] == e[0] && Separator(e[0]);
    if crlf {
      assert s[|x| + 1] == e[1];
    }
    SplitAt(s, |x|);
    assert s[..|x|] == x;
  }

  lemma SplitThree(a: string, b: string, crlf: bool, rest: string)
    requires Unbroken(a) && Unbroken(b)
    ensures var end := LineEnd(crlf); SplitLines(a + end + (b + end + (end + rest))) == [a, b, ""] + SplitLines(rest)
  {
    hide SplitLines, LineEnd, NextSeparator;
    var end := LineEnd(crlf);
    assert Unbroken("");
    hide Unbroken;
    SplitAppend("", crlf, rest);
    assert "" + end + rest == end + rest;
    SplitAppend(b, crlf, end + rest);
    SplitAppend(a, crlf, b + end + (end + rest));
  }

  lemma PrintedSplitLines(e: Printed, crlf: bool, rest: string)
    requires Unbroken(e.kind) && Unbroken(e.payload)
    ensures SplitLines(Print(e, crlf) + rest) == ["event: " + e.kind, "data: " + e.payload, ""] + SplitLines(rest)
  {
    var a, b := "event: " + e.kind, "data: " + e.payload;
    assert Unbroken(a) && Unbroken(b);
    hide SplitLines, LineEnd, Unbroken;
    SplitThree(a, b, crlf, rest);
    Shape("event: ", e.kind, "data: ", e.payload, LineEnd(crlf), rest);
  }

  lemma Shape(p: string, kind: string, q: string, payload: string, end: string, rest: string)
    ensures p + kind + end + q + payload + end + end + rest == p + kind + end + (q + payload + end + (end + rest))
  {
  }

  lemma PrintedCut(lang: Language, e: Printed, crlf: bool, rest: string)
    requires Whole(lang, e.kind) && Whole(lang, e.payload)
    ensures Cut(lang, Print(e, crlf) + rest) == ["event: " + e.kind, "data: " + e.payload, ""] + Cut(lang, rest)
  {
    hide Print, Lines, SplitLines, OneLine, Unbroken;
    if lang.Python? {
      PrintedSplitLines(e, crlf, rest);
    } else {
      PrintedLines(e, crlf, rest);
    }
  }

  lemma WholeIsOneLine(lang: Language, s: string)
    requires Whole(lang, s)
    ensures OneLine(s)
  {
    if lang.Python? {
      UnbrokenIsOneLine(s);
    }
  }

  lemma NothingRead(lang: Language)
    ensures Read(lang, "") == []
  {
    NoLine();
  }

  lemma FoldPrinted(lang: Language, kind: string, payload: string, rest: seq<string>)
    requires OneLine(kind) && OneLine(payload)
    ensures Fold(lang, ["event: " + kind, "data: " + payload, ""] + rest, []) ==
            Event(lang, [Strip(lang, " " + payload)]) + Fold(lang, rest, [])
  {
    var a, b := "event: " + kind, "data: " + payload;
    assert a[0] == 'e' && |a| >= 7 && |b| >= 6;
    assert Raw(lang, a) == a && Raw(lang, b) == b;
    assert !(DATA <= a);
    assert DATA <= b && b[5..] == " " + payload;
    assert Raw(lang, "") == "" && Event(lang, []) == [];
    hide Strip, Event, Raw;
    var lines, ds := [a, b, ""] + rest, [Strip(lang, " " + payload)];
    assert lines[1..] == [b, ""] + rest;
    assert Fold(lang, lines, []) == Fold(lang, [b, ""] + rest, []);
    assert ([b, ""] + rest)[1..] == [""] + rest && [] + ds == ds;
    assert Fold(lang, [b, ""] + rest, []) == Fold(lang, [""] + rest, ds);
    assert ([""] + rest)[1..] == rest;
  }

  lemma CleanIsKept(lang: Language, p: string)
    requires Clean(lang, p)
    ensures Event(lang, [Strip(lang, " " + p)]) == [p]
  {
    assert (" " + p)[1..] == p;
    assert TrimLeft(lang, " " + p) == TrimLeft(lang, p) == p;
    assert Strip(lang, " " + p) == p;
    assert Join([p]) == p;
  }

  lemma {:induction false} RoundTrip(lang: Language, es: seq<Printed>, crlf: bool)
    requires forall e :: e in es ==> Whole(lang, e.kind) && Clean(lang, e.payload)
    ensures Read(lang, Stream(es, crlf)) == Payloads(es)
    decreases |es|
  {
    hide Whole, Print, Cut;
    if es == [] {
      NothingRead(lang);
    } else {
      var rest := Stream(es[1..], crlf);
      PrintedCut(lang, es[0], crlf, rest);
      WholeIsOneLine(lang, es[0].kind);
      WholeIsOneLine(lang, es[0].payload);
      FoldPrinted(lang, es[0].kind, es[0].payload, Cut(lang, rest));
      CleanIsKept(lang, es[0].payload);
      RoundTrip(lang, es[1..], crlf);
    }
  }

  // ---- several data lines ----

  function DataLines(ds: seq<string>): seq<string> {
    if ds == [] then [] else DataLines(ds[..|ds| - 1]) + ["data: " + ds[|ds| - 1]]
  }

  lemma {:induction false} FoldDataLines(lang: Language, ds: seq<string>, rest: seq<string>)
    requires forall d :: d in ds ==> OneLine(d) && Strip(lang, " " + d) == d
    ensures Fold(lang, DataLines(ds) + rest, []) == Fold(lang, rest, ds)
    decreases |ds|
  {
    hide Fold, Strip, Raw, Event;
    if ds == [] {
      assert DataLines(ds) + rest == rest;
    } else {
      var d, front := ds[|ds| - 1], ds[..|ds| - 1];
      FoldDataLines(lang, front, ["data: " + d] + rest);
      assert DataLines(ds) + rest == DataLines(front) + (["data: " + d] + rest);
      OneDataLine(lang, d, rest, front);
      assert front + [d] == ds;
    }
  }

  lemma OneDataLine(lang: Language, d: string, rest: seq<string>, ds: seq<string>)
    requires OneLine(d) && Strip(lang, " " + d) == d
    ensures Fold(lang, ["data: " + d] + rest, ds) == Fold(lang, rest, ds + [d])
  {
    var l := "data: " + d;
    assert Raw(lang, l) == l && DATA <= l && l[5..] == " " + d;
    hide Strip, Raw, Event;
    assert ([l] + rest)[1..] == rest;
  }

  /** The space behind the colon is not needed, and other fields are passed over. */
  lemma SpaceIsOptional(lang: Language, d: string, other: string, rest: seq<string>, ds: seq<string>)
    requires OneLine(d) && Strip(lang, d) == d
    requires OneLine(other) && other != "" && other[0] != 'd'
    ensures Fold(lang, ["data:" + d] + rest, ds) == Fold(lang, rest, ds + [d])
    ensures Fold(lang, [other] + rest, ds) == Fold(lang, rest, ds)
  {
    var l := "data:" + d;
    assert l[4] == ':';
    assert Raw(lang, l) == l && DATA <= l && l[5..] == d;
    assert Raw(lang, other) == other && !(DATA <= other);
    hide Strip, Raw, Event;
    assert ([l] + rest)[1..] == rest && ([other] + rest)[1..] == rest;
  }

  lemma {:induction false} JoinedLines(ds: seq<string>)
    requires ds != [] && forall d :: d in ds ==> OneLine(d)
    ensures Lines(Join(ds)) == ds
    decreases |ds|
  {
    var d, front := ds[|ds| - 1], ds[..|ds| - 1];
    assert d in ds && forall e :: e in front ==> e in ds;
    LineOf(d);
    if front == [] {
      assert ds == [d];
    } else {
      JoinedLines(front);
      JoinIsClosed(front);
      LinesAppend(Join(front), false, d);
      assert front + [d] == ds;
    }
  }

  lemma JoinIsClosed(ds: seq<string>)
    requires ds != [] && forall d :: d in ds ==> OneLine(d)
    ensures Closed(Join(ds), false)
  {
    var d := ds[|ds| - 1];
    assert d in ds;
  }

  /** A block with several data lines is one event, whose lines they are. */
  lemma SeveralDataLines(lang: Language, ds: seq<string>, rest: seq<string>)
    requires |ds| > 1 && forall d :: d in ds ==> Clean(lang, d)
    ensures exists e :: Fold(lang, DataLines(ds) + [""] + rest, []) == [e] + Fold(lang, rest, []) && Lines(e) == ds
  {
    forall d | d in ds
      ensures OneLine(d) && Strip(lang, " " + d) == d
    {
      WholeIsOneLine(lang, d);
      CleanIsKept(lang, d);
      assert Join([Strip(lang, " " + d)]) == Strip(lang, " " + d);
    }
    FoldDataLines(lang, ds, [""] + rest);
    assert DataLines(ds) + [""] + rest == DataLines(ds) + ([""] + rest);
    assert ([""] + rest)[1..] == rest && Raw(lang, "") == "";
    JoinedLines(ds);
    assert Join(ds) != "";
    assert Fold(lang, DataLines(ds) + [""] + rest, []) == [Join(ds)] + Fold(lang, rest, []);
  }

  /** A payload as the printer makes it: a JSON object without line feeds. Other control characters are escaped, but
      U+0085, U+2028 and U+2029 are not. */
  predicate JsonObject(p: string) {
    |p| >= 2 && p[0] == '{' && p[|p| - 1] == '}' && '\n' !in p
  }

  lemma JsonIsClean(p: string)
    requires JsonObject(p)
    ensures Clean(TypeScript, p) && (Clean(Python, p) <==> Unbroken(p))
  {
  }

  /** However a stream of printed events is cut into chunks and whichever line ends it has, the incremental parser
      returns the payloads; so does the line-based one, if no payload contains a separator. */
  lemma ParsersAgree(es: seq<Printed>, crlf: bool, chunks: seq<string>)
    requires forall e :: e in es ==> OneLine(e.kind) && JsonObject(e.payload)
    requires Concat(chunks) == Stream(es, crlf)
    ensures Blocks(Concat(chunks)) == Payloads(es)
    ensures (forall e :: e in es ==> Unbroken(e.kind) && Unbroken(e.payload)) ==>
              Read(Python, Concat(chunks)) == Blocks(Concat(chunks))
  {
    forall e | e in es
      ensures Whole(TypeScript, e.kind) && Clean(TypeScript, e.payload)
      ensures Unbroken(e.kind) && Unbroken(e.payload) ==> Whole(Python, e.kind) && Clean(Python, e.payload)
    {
      JsonIsClean(e.payload);
    }
    hide Blocks, Clean, Fold, Stream, Payloads, Unbroken, Concat;
    BlocksAreLines(Concat(chunks));
    RoundTrip(TypeScript, es, crlf);
    if forall e :: e in es ==> Unbroken(e.kind) && Unbroken(e.payload) {
      RoundTrip(Python, es, crlf);
    }
  }

  // ---- only these payloads survive ----

  function Size(ls: seq<string>): nat {
    if ls == [] then 0 else |ls[0]| + Size(ls[1..])
  }

  lemma {:induction false} SizeOfLines(s: string)
    ensures Size(Lines(s)) + |Lines(s)| <= |s| + 1
    decreases |s|
  {
    var k := NextNewline(s);
    if k == |s| {
      assert Lines(s)[1..] == [];
    } else {
      ChopIsShorter(s[..k]);
      LinesAt(s, k);
      hide Lines, ChopReturn, NextNewline;
      SizeOfLines(s[k + 1..]);
      assert Lines(s)[1..] == Lines(s[k + 1..]);
    }
  }

  lemma JoinSnoc(ds: seq<string>, d: string)
    ensures |Join(ds + [d])| <= |Join(ds)| + 1 + |d| && (ds == [] ==> Join(ds + [d]) == d)
  {
    if ds != [] {
      assert (ds + [d])[..|ds|] == ds;
    }
  }

  /** No event is larger than the lines it is read from. */
  lemma {:induction false} FoldBound(lang: Language, lines: seq<string>, ds: seq<string>, q: string)
    requires q in Fold(lang, lines, ds)
    ensures |q| <= |Join(ds)| + Size(lines)
    decreases |lines|
  {
    if lines != [] {
      var l := Raw(lang, lines[0]);
      if DATA <= l {
        JoinSnoc(ds, Strip(lang, l[5..]));
        FoldBound(lang, lines[1..], ds + [Strip(lang, l[5..])], q);
      } else if l == "" {
        if q in Fold(lang, lines[1..], []) {
          FoldBound(lang, lines[1..], [], q);
        }
      } else {
        FoldBound(lang, lines[1..], ds, q);
      }
    }
  }

  lemma {:induction false} LinesAtEnd(s: string)
    requires |s| >= 2 && s[|s| - 2] == s[|s| - 1] == '\n'
    ensures |Lines(s)| >= 3
    decreases |s|
  {
    var k := NextNewline(s);
    if k == |s| - 2 {
      assert s[k + 1..] == "\n";
      EmptyLine(false, "");
      NoLine();
      assert LineEnd(false) + "" == "\n";
    } else {
      LinesAtEnd(s[k + 1..]);
    }
  }

  lemma {:induction false} StripBreaksKeeps(s: string, n: nat)
    requires 0 < n <= |s| && s[n - 1] !in {'\r', '\n'}
    ensures |StripBreaks(s)| >= n && StripBreaks(s) <= s
  {
    if |s| > n {
      StripBreaksKeeps(s[..|s| - 1], n);
    }
  }

  /** What is read from the first line of a payload. */
  lemma DataLineBound(lang: Language, line: string)
    requires |line| >= 6 && line[..6] == "data: "
    ensures var l := Raw(lang, line); DATA <= l && |Strip(lang, l[5..])| <= |line| - 6
  {
    var l := Raw(lang, line);
    assert line[5] == ' ';
    StripBreaksKeeps(line, 6);
    assert l[..6] == line[..6];
    assert l[5..][0] == ' ';
  }

  lemma FoldFirst(lang: Language, kind: string, b: string)
    requires OneLine(kind)
    ensures Fold(lang, Lines("event: " + kind + LineEnd(false) + b), []) == Fold(lang, Lines(b), [])
  {
    var a := "event: " + kind;
    LineOf(a);
    LinesAppend(a, false, b);
    assert a[0] == 'e';
    assert Raw(lang, a) == a;
    hide Raw, Strip;
    assert ([a] + Lines(b))[1..] == Lines(b);
  }

  lemma NewlineBehindData(p: string, b: string)
    requires b == "data: " + p + "\n\n"
    ensures 6 <= NextNewline(b) <= 6 + |p| && b[..6] == "data: "
  {
    assert b[6 + |p|] == '\n';
    assert b[0] == 'd' && b[1] == 'a' && b[2] == 't' && b[3] == 'a' && b[4] == ':' && b[5] == ' ';
  }

  lemma FirstNewline(p: string, b: string)
    requires b == "data: " + p + "\n\n"
    ensures 6 <= NextNewline(b) <= 6 + |p|
    ensures ChopReturn(b[..NextNewline(b)])[..6] == "data: "
    ensures !OneLine(p) && NextNewline(b) == 6 + |p| ==> |ChopReturn(b[..NextNewline(b)])| < 6 + |p|
  {
    hide NextNewline;
    NewlineBehindData(p, b);
    var k := NextNewline(b);
    ChopKeepsData(b, k);
    if k == 6 + |p| {
      assert forall i :: 0 <= i < |p| ==> p[i] == b[6 + i];
      assert p != "" ==> b[k - 1] == p[|p| - 1];
    }
  }

  lemma ChopKeepsData(b: string, k: nat)
    requires 6 <= k <= |b| && b[..6] == "data: "
    ensures |ChopReturn(b[..k])| >= 6 && ChopReturn(b[..k])[..6] == "data: "
  {
    var line := b[..k];
    assert line[..6] == b[..6];
    assert line[5] == b[..6][5] == ' ';
  }

  lemma RestIsSmall(s: string)
    requires s != "" && s[|s| - 1] == '\n' && (|s| >= 2 ==> s[|s| - 2] == '\n')
    ensures Size(Lines(s)) <= if |s| == 1 then 0 else |s| - 2
  {
    SizeOfLines(s);
    if |s| == 1 {
      assert s == LineEnd(false) + "";
      EmptyLine(false, "");
      NoLine();
    } else {
      LinesAtEnd(s);
    }
  }

  lemma FoldData(lang: Language, first: string, rest: seq<string>, q: string)
    requires |first| >= 6 && first[..6] == "data: "
    requires q in Fold(lang, [first] + rest, [])
    ensures |q| <= |first| - 6 + Size(rest)
  {
    hide Strip, Raw;
    DataLineBound(lang, first);
    var d := Strip(lang, Raw(lang, first)[5..]);
    assert ([first] + rest)[1..] == rest;
    assert [] + [d] == [d];
    assert Join([d]) == d;
    FoldBound(lang, rest, [d], q);
  }

  lemma PrintIs(kind: string, p: string, b: string)
    requires b == "data: " + p + "\n\n"
    ensures Print(Printed(kind, p), false) == "event: " + kind + LineEnd(false) + b
  {
  }

  lemma CutBound(lang: Language, p: string, b: string, q: string)
    requires b == "data: " + p + "\n\n" && !OneLine(p)
    requires q in Fold(lang, Lines(b), [])
    ensures |q| < |p|
  {
    hide Lines, Fold;
    FirstNewline(p, b);
    var k := NextNewline(b);
    LinesAt(b, k);
    var n := |b|;
    assert n == |p| + 8;
    assert b[n - 1] == '\n' && b[n - 2] == '\n';
    hide *;
    var rest := b[k + 1..];
    FoldData(lang, ChopReturn(b[..k]), Lines(rest), q);
    RestIsSmall(rest);
    ChopIsShorter(b[..k]);
  }

  lemma ChopIsShorter(s: string)
    ensures |ChopReturn(s)| <= |s|
  {
  }

  // ---- the same for Python's lines ----

  lemma {:induction false} SizeOfSplitLines(s: string)
    ensures Size(SplitLines(s)) <= |s|
    ensures |s| >= 1 && s[|s| - 1] == '\n' ==> Size(SplitLines(s)) <= |s| - 1
    ensures |s| >= 2 && s[|s| - 2] == s[|s| - 1] == '\n' ==> Size(SplitLines(s)) <= |s| - 2
    decreases |s|
  {
    var k := NextSeparator(s);
    if k < |s| {
      var rest := s[AfterSeparator(s, k)..];
      SizeOfSplitLines(rest);
      assert SplitLines(s)[1..] == SplitLines(rest);
      assert rest != "" ==> rest[|rest| - 1] == s[|s| - 1];
      assert |rest| >= 2 ==> rest[|rest| - 2] == s[|s| - 2];
    }
  }

  lemma FirstSeparator(p: string, b: string)
    requires b == "data: " + p + "\n\n" && !Unbroken(p)
    ensures 6 <= NextSeparator(b) < 6 + |p|
  {
    var k := NextSeparator(b);
    var i :| 0 <= i < |p| && Separator(p[i]);
    assert b[6 + i] == p[i];
    assert forall j :: 0 <= j < 6 ==> !Separator(b[j]);
  }

  lemma SplitBound(p: string, b: string, q: string)
    requires b == "data: " + p + "\n\n" && !Unbroken(p)
    requires q in Fold(Python, SplitLines(b), [])
    ensures |q| < |p|
  {
    FirstSeparator(p, b);
    var k := NextSeparator(b);
    var n := AfterSeparator(b, k);
    SplitAt(b, k);
    assert |b| == |p| + 8 && b[|b| - 1] == '\n' && b[|b| - 2] == '\n';
    assert b[..k][..6] == "data: ";
    var rest := b[n..];
    assert rest[|rest| - 1] == '\n';
    assert |rest| >= 2 ==> rest[|rest| - 2] == '\n';
    hide *;
    FoldData(Python, b[..k], SplitLines(rest), q);
    SizeOfSplitLines(rest);
  }

  lemma FoldFirstSplit(kind: string, b: string)
    requires Unbroken(kind)
    ensures Fold(Python, SplitLines("event: " + kind + LineEnd(false) + b), []) == Fold(Python, SplitLines(b), [])
  {
    var a := "event: " + kind;
    assert Unbroken(a);
    UnbrokenIsOneLine(kind);
    SplitAppend(a, false, b);
    assert a[0] == 'e';
    assert Raw(Python, a) == a;
    hide Raw, Strip, SplitLines;
    assert ([a] + SplitLines(b))[1..] == SplitLines(b);
  }

  /** A payload that takes more than a line comes back shorter, whatever is in it. */
  lemma LongPayloadIsCut(lang: Language, kind: string, p: string, q: string)
    requires Whole(lang, kind) && !Whole(lang, p)
    requires q in Read(lang, Print(Printed(kind, p), false))
    ensures |q| < |p|
  {
    hide Fold, Lines, SplitLines, Print, LineEnd, Unbroken, OneLine;
    var b := "data: " + p + "\n\n";
    PrintIs(kind, p, b);
    if lang.Python? {
      FoldFirstSplit(kind, b);
      SplitBound(p, b, q);
    } else {
      FoldFirst(lang, kind, b);
      CutBound(lang, p, b, q);
    }
  }

  lemma {:induction false} TrimIsShorter(lang: Language, p: string)
    ensures TrimLeft(lang, " " + p) == TrimLeft(lang, p)
    ensures p != "" && Space(lang, p[0]) ==> |TrimLeft(lang, p)| < |p|
    ensures p != "" && Space(lang, p[|p| - 1]) ==> |TrimRight(lang, p)| < |p|
  {
    assert (" " + p)[1..] == p;
  }

  /** The parser returns a printed payload exactly when it is clean. */
  lemma SurvivesIff(lang: Language, kind: string, p: string)
    requires Whole(lang, kind)
    ensures Read(lang, Print(Printed(kind, p), false)) == [p] <==> Clean(lang, p)
  {
    var text := Print(Printed(kind, p), false);
    if !Whole(lang, p) {
      if Read(lang, text) == [p] {
        assert p in Read(lang, text);
        LongPayloadIsCut(lang, kind, p, p);
        assert false;
      }
    } else {
      hide Print, Whole, Cut;
      PrintedCut(lang, Printed(kind, p), false, "");
      assert text + "" == text;
      NothingRead(lang);
      WholeIsOneLine(lang, kind);
      WholeIsOneLine(lang, p);
      FoldPrinted(lang, kind, p, Cut(lang, ""));
      if Clean(lang, p) {
        CleanIsKept(lang, p);
      } else {
        UncleanIsLost(lang, p);
      }
    }
  }

  /** On a single JSON object the two clients agree exactly when it contains no separator. Without control characters,
      which a JSON dump escapes, that is exactly when U+0085, U+2028 and U+2029 are not in it; an object with U+2028
      survives in TypeScript and not in Python. */
  lemma ClientsAgreeIff(kind: string, p: string)
    requires Unbroken(kind) && JsonObject(p)
    ensures var text := Print(Printed(kind, p), false);
            Read(TypeScript, text) == [p] && (Read(Python, text) == [p] <==> Unbroken(p))
    ensures (forall i :: 0 <= i < |p| ==> p[i] as int >= 0x20) ==>
              (Read(Python, Print(Printed(kind, p), false)) == [p] <==>
               forall i :: 0 <= i < |p| ==> p[i] as int !in {0x85, 0x2028, 0x2029})
    ensures JsonObject("{\U{2028}}") && !Unbroken("{\U{2028}}")
  {
    UnbrokenIsOneLine(kind);
    JsonIsClean(p);
    SurvivesIff(TypeScript, kind, p);
    SurvivesIff(Python, kind, p);
    var q := "{\U{2028}}";
    assert q[1] as int == 0x2028;
  }

  lemma UncleanIsLost(lang: Language, p: string)
    requires Whole(lang, p) && !Clean(lang, p)
    ensures Event(lang, [Strip(lang, " " + p)]) != [p]
  {
    TrimIsShorter(lang, p);
    var s := Strip(lang, " " + p);
    assert Join([s]) == s;
    if p != "" {
      assert |s| < |p|;
    }
  }
}
