/** A command's captured output: the head and the tail of a stream, within a limit (worker/commands.py). */
module BoundedOutput {
  import opened Bytes

  function Min(a: int, b: int): int {
    if a < b then a else b
  }

  /** The last `n` bytes, or all of them. */
  function Last(s: seq<Byte>, n: nat): seq<Byte> {
    s[|s| - Min(|s|, n)..]
  }

  /** The first bytes of a stream, half the limit at most. */
  function Head(limit: nat, s: seq<Byte>): seq<Byte> {
    s[..Min(|s|, limit / 2)]
  }

  /** The last bytes of what follows the head, as many as the other half of the limit allows. */
  function Tail(limit: nat, s: seq<Byte>): seq<Byte> {
    Last(s[|Head(limit, s)|..], limit - limit / 2)
  }

  function Dropped(limit: nat, s: seq<Byte>): nat {
    if |s| > limit then |s| - limit else 0
  }

  function Marker(dropped: nat): (m: seq<Byte>)
    ensures m != []
  {
    Ascii("\n... [") + Decimal(dropped) + Ascii(" bytes truncated] ...\n")
  }

  /** The text, before it is decoded. */
  function Shown(limit: nat, s: seq<Byte>, truncated: bool): seq<Byte> {
    if truncated then Head(limit, s) + Marker(Dropped(limit, s)) + Tail(limit, s) else Head(limit, s)
  }

  /** Whether a sequence of writes sets the flag when `n` bytes came before: a write sets it by finding the head full
      or overflowing it, be it an empty one. */
  predicate Flags(limit: nat, n: nat, chunks: seq<seq<Byte>>)
    decreases |chunks|
  {
    if chunks == [] then false
    else n >= limit / 2 || n + |chunks[0]| > limit / 2 || Flags(limit, n + |chunks[0]|, chunks[1..])
  }

  class Output {
    const limit: nat
    const headLimit: nat
    const tailLimit: nat
    var head: seq<Byte>
    var tail: seq<Byte>
    var total: nat
    var truncated: bool
    /** Everything written so far. */
    ghost var stream: seq<Byte>

    ghost predicate Valid()
      reads this
    {
      && headLimit == limit / 2 && tailLimit == limit - headLimit
      && head == Head(limit, stream)
      && tail == Tail(limit, stream)
      && total == |stream|
      && FlagFits(limit, stream, truncated)
    }

    constructor (limit: nat)
      ensures Valid() && this.limit == limit && stream == [] && !truncated
    {
      this.limit := limit;
      headLimit := limit / 2;
      tailLimit := limit - limit / 2;
      head, tail, total, truncated, stream := [], [], 0, false, [];
    }

    method Write(data: seq<Byte>)
      requires Valid()
      modifies this
      ensures Valid() && stream == old(stream) + data
      ensures truncated == (old(truncated) || Flags(limit, |old(stream)|, [data]))
    {
      hide Head, Tail, Last, Flags;
      FlagsOne(limit, |stream|, data);
      WriteSplits(limit, stream, data);
      WriteSplits(limit, stream + data, []);
      stream := stream + data;
      total := total + |data|;
      var rest := data;
      if |head| < headLimit {
        var take := Min(|data|, headLimit - |head|);
        head := head + data[..take];
        rest := data[take..];
        if rest == [] {
          return;
        }
      }
      truncated := true;
      tail := tail + rest;
      if |tail| > tailLimit {
        tail := tail[|tail| - tailLimit..];
      }
      LastIs(old(tail) + rest, tailLimit);
    }

    /** The chunks of a stream, written as they arrive. */
    method Pump(chunks: seq<seq<Byte>>)
      requires Valid()
      modifies this
      ensures Valid() && stream == old(stream) + Concat(chunks)
      ensures truncated == (old(truncated) || Flags(limit, |old(stream)|, chunks))
    {
      hide Head, Tail, Last;
      ghost var s := stream;
      for i := 0 to |chunks|
        invariant Valid() && stream == s + Concat(chunks[..i])
        invariant truncated == (old(truncated) || Flags(limit, |s|, chunks[..i]))
      {
        assert chunks[..i + 1] == chunks[..i] + [chunks[i]];
        ConcatSnoc(chunks[..i], chunks[i]);
        FlagsSnoc(limit, |s|, chunks[..i], chunks[i]);
        Write(chunks[i]);
      }
      assert chunks[..|chunks|] == chunks;
    }

    method Text() returns (text: seq<Byte>)
      requires Valid()
      ensures text == Shown(limit, stream, truncated)
      ensures text == if !truncated then head else head + Marker(|stream| - |head| - |tail|) + tail
    {
      hide Head, Tail, Last, Marker;
      HeadAndTail(limit, stream);
      if !truncated {
        return head;
      }
      var dropped := total - |head| - |tail|;
      text := head + Marker(dropped) + tail;
    }
  }

  /** What is known of the flag without knowing the chunks. */
  predicate FlagFits(limit: nat, s: seq<Byte>, truncated: bool) {
    (truncated ==> |s| >= limit / 2) && (|s| > limit / 2 ==> truncated)
  }

  lemma LastIs(s: seq<Byte>, n: nat)
    ensures Last(s, n) == if |s| > n then s[|s| - n..] else s
  {
  }

  lemma LastAppend(a: seq<Byte>, b: seq<Byte>, n: nat)
    ensures Last(Last(a, n) + b, n) == Last(a + b, n)
  {
  }

  lemma HeadSplits(limit: nat, s: seq<Byte>, data: seq<Byte>)
    ensures |Head(limit, s)| == Min(|s|, limit / 2)
    ensures var take := Min(|data|, limit / 2 - |Head(limit, s)|);
            && Head(limit, s + data) == Head(limit, s) + data[..take]
            && (s + data)[|Head(limit, s + data)|..] == s[|Head(limit, s)|..] + data[take..]
  {
  }

  /** How one write extends the head and the tail. */
  lemma WriteSplits(limit: nat, s: seq<Byte>, data: seq<Byte>)
    ensures |Head(limit, s)| == Min(|s|, limit / 2)
    ensures var take := Min(|data|, limit / 2 - |Head(limit, s)|);
            && Head(limit, s + data) == Head(limit, s) + data[..take]
            && Tail(limit, s + data) == Last(Tail(limit, s) + data[take..], limit - limit / 2)
    ensures |s| <= limit / 2 ==> Tail(limit, s) == []
  {
    hide Last, Head;
    HeadSplits(limit, s, data);
    var take := Min(|data|, limit / 2 - |Head(limit, s)|);
    LastAppend(s[|Head(limit, s)|..], data[take..], limit - limit / 2);
    if |s| <= limit / 2 {
      LastIs(s[|s|..], limit - limit / 2);
    }
  }

  lemma LastIsSuffix(s: seq<Byte>, n: nat)
    ensures |Last(s, n)| == Min(|s|, n) && s[|s| - |Last(s, n)|..] == Last(s, n)
  {
  }

  lemma Parts(s: seq<Byte>, h: nat, t: nat)
    requires h + t <= |s|
    ensures s[..h] + s[h..|s| - t] + s[h..][|s| - h - t..] == s
  {
  }

  /** Head and tail are a prefix and a suffix of the stream, and within the limit nothing is dropped. */
  lemma HeadAndTail(limit: nat, s: seq<Byte>)
    ensures |Head(limit, s)| + |Tail(limit, s)| + Dropped(limit, s) == |s|
    ensures |Head(limit, s)| + |Tail(limit, s)| <= limit
    ensures Head(limit, s) + s[|Head(limit, s)|..|s| - |Tail(limit, s)|] + Tail(limit, s) == s
  {
    hide Last;
    var h := |Head(limit, s)|;
    LastIsSuffix(s[h..], limit - limit / 2);
    Parts(s, h, |Tail(limit, s)|);
  }

  /** The text is the stream itself exactly when the flag is not set, or when the dropped bytes happen to spell the
      marker that replaces them. */
  lemma TextIsExactIff(limit: nat, s: seq<Byte>, truncated: bool)
    requires FlagFits(limit, s, truncated)
    ensures Shown(limit, s, truncated) == s <==>
            !truncated || s[|Head(limit, s)|..|s| - |Tail(limit, s)|] == Marker(Dropped(limit, s))
  {
    HeadAndTail(limit, s);
    if truncated {
      var h, t, m := Head(limit, s), Tail(limit, s), Marker(Dropped(limit, s));
      if h + m + t == s {
        assert s[|h|..|s| - |t|] == (h + m + t)[|h|..|h| + |m|] == m;
      }
    }
  }

  // ---- the flag ----

  lemma FlagsOne(limit: nat, n: nat, data: seq<Byte>)
    ensures Flags(limit, n, [data]) <==> n >= limit / 2 || n + |data| > limit / 2
  {
  }

  lemma {:induction false} FlagsSnoc(limit: nat, n: nat, chunks: seq<seq<Byte>>, c: seq<Byte>)
    ensures Flags(limit, n, chunks + [c]) == (Flags(limit, n, chunks) || Flags(limit, n + |Concat(chunks)|, [c]))
    decreases |chunks|
  {
    if chunks == [] {
      assert chunks + [c] == [c];
    } else {
      assert (chunks + [c])[1..] == chunks[1..] + [c];
      FlagsSnoc(limit, n + |chunks[0]|, chunks[1..], c);
    }
  }

  /** The flag is set exactly when the head overflows or a write starts with the head full. */
  lemma {:induction false} FlagsIff(limit: nat, chunks: seq<seq<Byte>>)
    ensures Flags(limit, 0, chunks) <==>
            || |Concat(chunks)| > limit / 2
            || exists i :: 0 <= i < |chunks| && |Concat(chunks[..i])| >= limit / 2
    decreases |chunks|
  {
    if chunks != [] {
      var before, c := chunks[..|chunks| - 1], chunks[|chunks| - 1];
      assert chunks == before + [c];
      FlagsIff(limit, before);
      FlagsSnoc(limit, 0, before, c);
      ConcatSnoc(before, c);
      forall i | 0 <= i < |before|
        ensures chunks[..i] == before[..i]
      {
      }
    }
  }

  /** With no empty writes the flag depends on the stream alone. */
  lemma {:induction false} FlagIgnoresChunking(limit: nat, n: nat, chunks: seq<seq<Byte>>)
    requires forall i :: 0 <= i < |chunks| ==> chunks[i] != []
    requires n < limit / 2 || n == 0
    ensures Flags(limit, n, chunks) <==> n + |Concat(chunks)| > limit / 2
    decreases |chunks|
  {
    if chunks != [] && n + |chunks[0]| < limit / 2 {
      FlagIgnoresChunking(limit, n + |chunks[0]|, chunks[1..]);
    } else if |chunks| > 1 {
      assert Concat(chunks[1..]) == chunks[1] + Concat(chunks[1..][1..]);
    }
  }

  /** An empty write can set it: the same bytes in other chunks give another flag. */
  lemma EmptyWriteSetsFlag(limit: nat, s: seq<Byte>)
    requires limit >= 2 && |s| == limit / 2
    ensures Concat([s, []]) == Concat([s]) && !Flags(limit, 0, [s]) && Flags(limit, 0, [s, []])
  {
    assert [s] + [[]] == [s, []];
    ConcatSnoc([s], []);
    FlagsSnoc(limit, 0, [s], []);
    assert Concat([s]) == s + [] == s;
  }
}
