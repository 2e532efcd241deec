/** What the two event parsers agree on, and which payloads survive the printer. */
module SseLaws {
  import opened Bytes
  import opened Sse

  // ---- lines of a text put together ----

  /** A line end, with or without a carriage return. */
  function LineEnd(crlf: bool): (e: string)
    ensures |e| == (if crlf then 2 else 1) && e[|e| - 1] == '\n' && (crlf ==> e[0] == '\r')
  {
    if crlf then "\r\n" else "\n"
  }

  /** A text that a line end can follow without merging with it. */
  predicate Closed(x: string, crlf: bool) {
    crlf || x == "" || x[|x| - 1] != '\r'
  }

  lemma NextNewlineIs(s: string, k: nat)
    requires k < |s| && s[k] == '\n' && forall i :: 0 <= i < k ==> s[i] != '\n'
    ensures NextNewline(s) == k
  {
  }

  lemma LinesAt(s: string, k: nat)
    requires k < |s| && s[k] == '\n' && forall i :: 0 <= i < k ==> s[i] != '\n'
    ensures Lines(s) == [ChopReturn(s[..k])] + Lines(s[k + 1..])
  {
    NextNewlineIs(s, k);
  }

  lemma SliceOfAppend(x: string, e: string, y: string, k: nat)
    requires k <= |x|
    ensures (x + e + y)[k..] == x[k..] + e + y && (x + e + y)[..k] == x[..k]
    ensures forall i :: 0 <= i < |x| ==> (x + e + y)[i] == x[i]
    ensures forall i :: 0 <= i < |e| ==> (x + e + y)[|x| + i] == e[i]
    ensures (x + e + y)[|x| + |e|..] == y
  {
  }

  lemma ChopAtEnd(x: string, crlf: bool)
    requires Closed(x, crlf)
    ensures ChopReturn((x + LineEnd(crlf))[..|x| + |LineEnd(crlf)| - 1]) == x
  {
  }

  lemma LineAppend(x: string, crlf: bool, y: string)
    requires Closed(x, crlf) && NextNewline(x) == |x|
    ensures Lines(x + LineEnd(crlf) + y) == [x] + Lines(y)
  {
    hide Lines, ChopReturn, LineEnd;
    var s, e := x + LineEnd(crlf) + y, LineEnd(crlf);
    var n := |x| + |e| - 1;
    SliceOfAppend(x, e, y, |x|);
    ChopAtEnd(x, crlf);
    assert s[..n] == (x + e)[..n];
    assert s[n] == e[|e| - 1];
    if crlf {
      assert s[|x|] == e[0];
    }
    LinesAt(s, n);
  }

  lemma {:induction false} LinesAppend(x: string, crlf: bool, y: string)
    requires Closed(x, crlf)
    ensures Lines(x + LineEnd(crlf) + y) == Lines(x) + Lines(y)
    decreases |x|
  {
    hide LineEnd, ChopReturn;
    var s, e, k := x + LineEnd(crlf) + y, LineEnd(crlf), NextNewline(x);
    if k == |x| {
      LineAppend(x, crlf, y);
    } else {
      hide Lines, NextNewline;
      SliceOfAppend(x, e, y, k);
      SliceOfAppend(x, e, y, k + 1);
      LinesAt(x, k);
      LinesAt(s, k);
      LinesAppend(x[k + 1..], crlf, y);
      Regroup3([ChopReturn(x[..k])], Lines(x[k + 1..]), Lines(y));
    }
  }

  lemma Regroup3(a: seq<string>, b: seq<string>, c: seq<string>)
    ensures a + (b + c) == a + b + c
  {
  }

  // ---- the incremental parser reads lines ----

  lemma MatchShifts(s: string, n: nat, i: nat)
    requires n <= |s|
    ensures MatchAt(s[n..], i) == MatchAt(s, n + i)
  {
  }

  /** The text starts with a line end, or is empty. */
  predicate StartsBlank(s: string) {
    s == "" || s[0] == '\n' || (|s| >= 2 && s[0] == '\r' && s[1] == '\n')
  }

  lemma FirstLineIsBlankIff(s: string)
    ensures Lines(s)[0] == "" <==> StartsBlank(s)
  {
    var k := NextNewline(s);
    assert Lines(s)[0] == if k == |s| then s else ChopReturn(s[..k]);
    hide Lines, NextNewline;
    if 0 < k < |s| {
      assert s[0] != '\n';
    }
  }

  lemma NoLine()
    ensures Lines("") == [""]
  {
  }

  lemma SliceTwice(s: string, b: nat, n: nat)
    requires n <= b <= |s|
    ensures s[..b][n..] == s[n..b] == s[n..][..b - n]
  {
  }

  lemma BlankLineIsMatch(s: string, k: nat, c: nat)
    requires k + 1 + c <= |s| && s[k] == '\n' && StartsBlank(s[k + 1..k + 1 + c])
    requires c > 0 || MatchAt(s, k + 1) > 0
    ensures MatchAt(s, k) > 0
  {
  }

  predicate NoMatch(s: string, b: nat) {
    forall j :: 0 <= j < b ==> MatchAt(s, j) == 0
  }

  lemma NoMatchBehind(s: string, n: nat, b: nat)
    requires n <= b <= |s| && NoMatch(s, b)
    ensures NoMatch(s[n..], b - n) && MatchAt(s[n..], b - n) == MatchAt(s, b)
  {
    forall j | 0 <= j <= b - n
      ensures MatchAt(s[n..], j) == MatchAt(s, n + j)
    {
      MatchShifts(s, n, j);
    }
  }

  /** The line behind a line end is not blank, if the text goes on. */
  lemma NextLineIsNotBlank(s: string, k: nat, b: nat)
    requires k < b <= |s| && NoMatch(s, b) && s[k] == '\n'
    ensures var l := Lines(s[k + 1..b]); |l| > 1 || MatchAt(s, b) > 0 ==> |l[0]| > 0
  {
    hide Lines, MatchAt, StartsBlank;
    FirstLineIsBlankIff(s[k + 1..b]);
    if k + 1 == b {
      assert s[k + 1..b] == "";
      NoLine();
    }
    if StartsBlank(s[k + 1..b]) && (k + 1 < b || MatchAt(s, b) > 0) {
      BlankLineIsMatch(s, k, b - k - 1);
      assert false;
    }
  }

  /** No line but the first is blank; neither is the last one, if `closed`. */
  predicate Inner(l: seq<string>, closed: bool) {
    forall i :: 1 <= i < |l| && (closed || i < |l| - 1) ==> |l[i]| > 0
  }

  lemma InnerCons(first: string, l: seq<string>, closed: bool)
    requires l != [] && Inner(l, closed) && (|l| > 1 || closed ==> |l[0]| > 0)
    ensures Inner([first] + l, closed)
  {
  }

  lemma InnerOne(s: string, closed: bool)
    requires NextNewline(s) == |s|
    ensures Inner(Lines(s), closed)
  {
  }

  /** Before the first break no line is blank, but for the first one and, at the end of the text, the last one. */
  lemma {:induction false} InnerLines(s: string, b: nat)
    requires b <= |s| && NoMatch(s, b)
    ensures Inner(Lines(s[..b]), MatchAt(s, b) > 0)
    decreases b
  {
    hide Lines, NextNewline, ChopReturn, MatchAt, NoMatch, Inner;
    var k := NextNewline(s[..b]);
    if k < b {
      LinesAt(s[..b], k);
      NoMatchBehind(s, k + 1, b);
      InnerLines(s[k + 1..], b - k - 1);
      SliceTwice(s, b, k + 1);
      NextLineIsNotBlank(s, k, b);
      InnerCons(ChopReturn(s[..b][..k]), Lines(s[k + 1..b]), MatchAt(s, b) > 0);
    } else {
      InnerOne(s[..b], MatchAt(s, b) > 0);
    }
  }

  lemma {:induction false} FoldRun(a: seq<string>, b: seq<string>, ds: seq<string>)
    requires (a == [] || |a[0]| > 0) && Inner(a, true)
    ensures Fold(TypeScript, a + b, ds) == Fold(TypeScript, b, ds + DataOf(a))
    decreases |a|
  {
    hide Strip, Event;
    if a == [] {
      assert a + b == b && ds + DataOf(a) == ds;
    } else {
      assert (a + b)[0] == a[0] && (a + b)[1..] == a[1..] + b;
      var more := if DATA <= a[0] then [Strip(TypeScript, a[0][5..])] else [];
      assert DataOf(a) == more + DataOf(a[1..]);
      FoldRun(a[1..], b, ds + more);
      hide DataOf;
      Regroup3(ds, more, DataOf(a[1..]));
      assert ds + [] == ds;
    }
  }

  lemma FoldBlock(block: seq<string>, rest: seq<string>)
    requires block != [] && Inner(block, true)
    ensures Fold(TypeScript, block + rest, []) == Fold(TypeScript, rest, DataOf(block))
  {
    if block[0] == "" {
      assert (block + rest)[1..] == block[1..] + rest;
      FoldRun(block[1..], rest, []);
      assert [] + DataOf(block[1..]) == DataOf(block);
    } else {
      FoldRun(block, rest, []);
      assert [] + DataOf(block) == DataOf(block);
    }
  }

  lemma {:induction false} DataOfSnoc(a: seq<string>, l: string)
    requires !(DATA <= l)
    ensures DataOf(a + [l]) == DataOf(a)
    decreases |a|
  {
    if a == [] {
      assert [l][1..] == [];
    } else {
      assert (a + [l])[1..] == a[1..] + [l];
      DataOfSnoc(a[1..], l);
    }
  }

  lemma FoldLastBlock(block: seq<string>)
    requires block != [] && Inner(block, false)
    ensures Fold(TypeScript, block, []) == Event(TypeScript, DataOf(block))
  {
    var n := |block| - 1;
    var last := block[n];
    assert block == block[..n] + [last];
    if last == "" {
      DataOfSnoc(block[..n], last);
      if n > 0 {
        FoldBlock(block[..n], [last]);
      }
      assert [last][1..] == [];
    } else {
      assert block + [] == block;
      FoldBlock(block, []);
    }
  }

  /** A match consists of two line ends. */
  lemma MatchIsTwoEnds(s: string, b: nat) returns (c1: bool, c2: bool)
    requires MatchAt(s, b) > 0
    ensures c1 == (s[b] == '\r') && MatchAt(s, b) == |LineEnd(c1)| + |LineEnd(c2)|
    ensures s == s[..b] + LineEnd(c1) + (LineEnd(c2) + s[b + MatchAt(s, b)..])
  {
    c1 := s[b] == '\r';
    c2 := s[b + |LineEnd(c1)|] == '\r';
    var n := b + |LineEnd(c1)|;
    assert s[b..n] == LineEnd(c1);
    assert s[n..b + MatchAt(s, b)] == LineEnd(c2);
  }

  /** Where a block ends, the text falls into the block's lines, an empty line and the lines of the rest. */
  lemma LinesAtBreak(s: string)
    requires FirstBreak(s, 0) < |s|
    ensures var b := FirstBreak(s, 0); Lines(s) == Lines(s[..b]) + [""] + Lines(s[b + MatchAt(s, b)..])
  {
    hide FirstBreak, Lines, NextNewline, ChopReturn, LineEnd;
    var b := FirstBreak(s, 0);
    var c1, c2 := MatchIsTwoEnds(s, b);
    var x, y := s[..b], s[b + MatchAt(s, b)..];
    ClosedBeforeMatch(s, b, c1);
    hide MatchAt, Closed;
    LinesAppend(x, c1, LineEnd(c2) + y);
    EmptyLine(c2, y);
    Regroup3(Lines(x), [""], Lines(y));
  }

  lemma EmptyLine(crlf: bool, y: string)
    ensures Lines(LineEnd(crlf) + y) == [""] + Lines(y)
  {
    hide Lines;
    NoLine();
    LinesAppend("", crlf, y);
    assert "" + LineEnd(crlf) + y == LineEnd(crlf) + y;
  }

  lemma ClosedBeforeMatch(s: string, b: nat, crlf: bool)
    requires b < |s| && MatchAt(s, b) > 0 && crlf == (s[b] == '\r') && (b > 0 ==> MatchAt(s, b - 1) == 0)
    ensures Closed(s[..b], crlf)
  {
  }

  /** Searching for blank lines in a growing buffer reads the same events as going through the text line by line. */
  lemma {:induction false} BlocksAreLines(s: string)
    ensures Blocks(s) == Fold(TypeScript, Lines(s), [])
    decreases |s|
  {
    hide FirstBreak, Lines, DataOf, Event;
    var b := FirstBreak(s, 0);
    InnerLines(s, b);
    if b == |s| {
      assert s[..b] == s;
      FoldLastBlock(Lines(s));
    } else {
      var y := s[b + MatchAt(s, b)..];
      LinesAtBreak(s);
      var block := Lines(s[..b]);
      assert Lines(s) == block + ([""] + Lines(y));
      FoldBlock(block, [""] + Lines(y));
      assert ([""] + Lines(y))[1..] == Lines(y);
      BlocksAreLines(y);
    }
  }
}
