/** Single files through tar archives, without buffering them (utils/tarstream.py). */
module Tar {
  import opened Bytes
  import opened TarHeader

  const CHUNK := 65536

  function Padding(size: nat): seq<Byte> {
    var rem := size % BLOCK;
    if rem != 0 then Zeros(BLOCK - rem) else []
  }

  /** `size + (-size % BLOCK)`. */
  function Padded(size: nat): nat {
    var n: int := size;
    size + (-n) % BLOCK
  }

  lemma PaddingAgrees(size: nat)
    ensures size + |Padding(size)| == Padded(size) && Padded(size) % BLOCK == 0 && Padded(size) - size < BLOCK
  {
    var q, rem := size / BLOCK, size % BLOCK;
    Remainder(q, rem);
    hide Zeros;
    if rem == 0 {
      Remainder(-q, 0);
    } else {
      Remainder(-q - 1, BLOCK - rem);
      Remainder(q + 1, 0);
    }
  }

  lemma Remainder(q: int, rem: nat)
    requires rem < BLOCK
    ensures (q * BLOCK + rem) % BLOCK == rem
  {
  }

  /** How a stream ends. */
  datatype End = Done | Exceeded | Mismatch | NoRegularFile | IsDirectory | Premature | InvalidArchive

  // ---- writing ----

  /** The chunks that are passed on: all of them, or those before the declared size is exceeded. */
  function Accepted(content: seq<seq<Byte>>, sent: nat, size: nat): (n: nat)
    ensures n <= |content|
    decreases |content|
  {
    if content == [] || sent + |content[0]| > size then 0 else 1 + Accepted(content[1..], sent + |content[0]|, size)
  }

  /** The archive is complete exactly when the body has the declared size. */
  method SingleFileTar(header: seq<Byte>, content: seq<seq<Byte>>, size: nat)
    returns (out: seq<seq<Byte>>, end: End)
    ensures end == Done <==> |Concat(content)| == size
    ensures end == Done ==> Concat(out) == header + Concat(content) + Padding(size) + Zeros(2 * BLOCK)
    ensures end == Exceeded <==> |Concat(content)| > size
    ensures end == Mismatch <==> |Concat(content)| < size
    ensures end != Done ==> Concat(out) == header + Concat(content[..Accepted(content, 0, size)])
  {
    out := [header];
    var sent := 0;
    assert Concat(out) == header;
    for i := 0 to |content|
      invariant sent == |Concat(content[..i])| <= size
      invariant Concat(out) == header + Concat(content[..i])
      invariant Accepted(content, 0, size) == i + Accepted(content[i..], sent, size)
    {
      assert content[i..][1..] == content[i + 1..];
      assert content[..i + 1] == content[..i] + [content[i]];
      ConcatSnoc(content[..i], content[i]);
      sent := sent + |content[i]|;
      if sent > size {
        Longer(content, i + 1);
        return out, Exceeded;
      }
      ConcatSnoc(out, content[i]);
      out := out + [content[i]];
    }
    assert content[..|content|] == content;
    if sent != size {
      return out, Mismatch;
    }
    ConcatSnoc(out, Padding(size));
    out := out + [Padding(size)];
    ConcatSnoc(out, Zeros(2 * BLOCK));
    out := out + [Zeros(2 * BLOCK)];
    end := Done;
  }

  lemma Longer(content: seq<seq<Byte>>, n: nat)
    requires n <= |content|
    ensures |Concat(content[..n])| <= |Concat(content)|
  {
    ConcatAppend(content[..n], content[n..]);
    assert content == content[..n] + content[n..];
  }

  // ---- reading ----

  function Min(a: int, b: int): int {
    if a < b then a else b
  }

  /** A source of chunks with read-ahead. */
  class Buffer {
    var source: seq<seq<Byte>>
    var buf: seq<Byte>
    var eof: bool

    /** Everything still to be read. */
    ghost function Rest(): seq<Byte>
      reads this
    {
      buf + Concat(source)
    }

    ghost predicate Valid()
      reads this
    {
      eof ==> source == []
    }

    constructor (source: seq<seq<Byte>>)
      ensures Valid() && Rest() == Concat(source)
    {
      this.source, buf, eof := source, [], false;
    }

    /** The next `n` bytes, or what is left. */
    method Read(n: nat) returns (out: seq<Byte>)
      requires Valid()
      modifies this
      ensures Valid()
      ensures var m := Min(n, old(|Rest()|)); out == old(Rest())[..m] && Rest() == old(Rest())[m..]
    {
      ghost var rest := Rest();
      while |buf| < n && !eof
        invariant Valid() && Rest() == rest
        decreases |source|, !eof
      {
        if source == [] {
          eof := true;
          break;
        }
        buf, source := buf + source[0], source[1..];
      }
      var m := Min(n, |buf|);
      out := buf[..m];
      buf := buf[m..];
    }

    method Skip(n: int)
      requires Valid()
      modifies this
      ensures Valid()
      ensures Rest() == old(Rest())[if n < 0 then 0 else Min(n, old(|Rest()|))..]
    {
      ghost var rest := Rest();
      var left := n;
      while left > 0
        invariant Valid() && n >= 0 ==> 0 <= left <= n && n - left <= |rest| && Rest() == rest[n - left..]
        invariant Valid() && (n < 0 ==> left == n && Rest() == rest)
      {
        var chunk := Read(Min(left, CHUNK));
        if chunk == [] {
          return;
        }
        left := left - |chunk|;
      }
    }
  }

  /** What reading a whole archive yields, and how it ends. */
  datatype Outcome = Outcome(content: seq<Byte>, end: End)

  function Extract(s: seq<Byte>): Outcome
    decreases |s|
  {
    var n := Min(BLOCK, |s|);
    var rest := s[n..];
    match Parse(s[..n])
    case NoEntry => Outcome([], NoRegularFile)
    case Invalid => Outcome([], InvalidArchive)
    case Entry(Regular, size) => Outcome(rest[..Min(size, |rest|)], if size <= |rest| then Done else Premature)
    case Entry(Directory, _) => Outcome([], IsDirectory)
    case Entry(Other, size) => if n == 0 then Outcome([], NoRegularFile) else Extract(rest[Min(Padded(size), |rest|)..])
  }

  /** The result depends on the bytes of the archive, not on how they are cut into chunks. */
  method FirstRegularFile(archive: seq<seq<Byte>>) returns (out: seq<seq<Byte>>, end: End)
    ensures Outcome(Concat(out), end) == Extract(Concat(archive))
  {
    var buf := new Buffer(archive);
    out := [];
    while true
      invariant buf.Valid() && fresh(buf) && out == []
      invariant Extract(buf.Rest()) == Extract(Concat(archive))
      decreases |buf.Rest()|
    {
      ghost var rest := buf.Rest();
      var header := buf.Read(BLOCK);
      match Parse(header)
      case NoEntry => return out, NoRegularFile;
      case Invalid => return out, InvalidArchive;
      case Entry(Regular, size) =>
        out, end := Content(buf, size);
        return;
      case Entry(Directory, _) => return out, IsDirectory;
      case Entry(Other, size) =>
        assert |header| == BLOCK;
        buf.Skip(Padded(size));
    }
  }

  lemma Advance(s: seq<Byte>, a: nat, m: nat)
    requires a + m <= |s|
    ensures s[..a] + s[a..][..m] == s[..a + m] && s[a..][m..] == s[a + m..]
  {
  }

  /** The chunk read next is passed on; `left` is what the source had left before. */
  lemma PassOn(rest: seq<Byte>, out: seq<seq<Byte>>, sent: nat, left: seq<Byte>, m: nat)
    requires sent <= |rest| && Concat(out) == rest[..sent] && left == rest[sent..] && m <= |left|
    ensures Concat(out + [left[..m]]) == rest[..sent + m] && left[m..] == rest[sent + m..]
  {
    hide Concat;
    Advance(rest, sent, m);
    ConcatSnoc(out, left[..m]);
  }

  /** The loop over a regular file's content, and the skip behind it. */
  method Content(buf: Buffer, size: nat) returns (out: seq<seq<Byte>>, end: End)
    requires buf.Valid()
    modifies buf
    ensures buf.Valid()
    ensures var rest := old(buf.Rest());
            Outcome(Concat(out), end) == Outcome(rest[..Min(size, |rest|)], if size <= |rest| then Done else Premature)
  {
    ghost var rest := buf.Rest();
    out := [];
    assert Concat(out) == [];
    hide Concat, Buffer.Rest, Buffer.Valid, Padded;
    var remaining := size;
    ghost var sent := 0;
    while remaining > 0
      invariant buf.Valid() && 0 <= remaining && sent + remaining == size && sent <= |rest|
      invariant buf.Rest() == rest[sent..] && Concat(out) == rest[..sent]
      decreases remaining
    {
      ghost var left := buf.Rest();
      var chunk := buf.Read(Min(remaining, CHUNK));
      PassOn(rest, out, sent, left, |chunk|);
      if chunk == [] {
        break;
      }
      remaining := remaining - |chunk|;
      sent := sent + |chunk|;
      out := out + [chunk];
    }
    if remaining > 0 {
      return out, Premature;
    }
    buf.Skip(Padded(size) - size);
    end := Done;
  }

  // ---- round trip ----

  /** An entry that precedes the real one: a pax header (types `x` and `g`), a GNU long name (`L` and `K`), or anything
      else that is neither a file nor a directory. */
  datatype Extension = Extension(header: Header, payload: seq<Byte>) {
    predicate Valid() {
      && header.Valid() && header.size == |payload|
      && header.kind !in {0, 48, 53, 55}
    }

    function Bytes(): seq<Byte>
      requires Valid()
    {
      header.Block() + payload + Padding(|payload|)
    }
  }

  function Extensions(es: seq<Extension>): seq<Byte>
    requires forall e :: e in es ==> e.Valid()
  {
    if es == [] then [] else es[0].Bytes() + Extensions(es[1..])
  }

  lemma ExtensionIsSkipped(e: Extension, s: seq<Byte>)
    requires e.Valid()
    ensures Extract(e.Bytes() + s) == Extract(s)
    ensures |e.Bytes()| % BLOCK == 0
  {
    hide Header.Block, KindOf, UpToNul, Parse;
    ParseOfBlock(e.header);
    PaddingAgrees(|e.payload|);
    var t := e.Bytes() + s;
    assert t[..BLOCK] == e.header.Block();
    assert t[BLOCK..][Padded(|e.payload|)..] == s;
  }

  lemma {:induction false} ExtensionsAreSkipped(es: seq<Extension>, s: seq<Byte>)
    requires forall e :: e in es ==> e.Valid()
    ensures Extract(Extensions(es) + s) == Extract(s)
    ensures |Extensions(es)| % BLOCK == 0
    decreases |es|
  {
    hide Extract, Padding, Header.Block, KindOf, UpToNul, Header.Valid, Extension.Valid, Extension.Bytes;
    if es == [] {
      assert Extensions(es) + s == s;
    } else {
      ExtensionIsSkipped(es[0], Extensions(es[1..]) + s);
      ExtensionsAreSkipped(es[1..], s);
      assert Extensions(es) + s == es[0].Bytes() + (Extensions(es[1..]) + s);
    }
  }

  /** The archive of one file, as SingleFileTar completes it. */
  function Archive(es: seq<Extension>, h: Header, content: seq<Byte>): seq<Byte>
    requires forall e :: e in es ==> e.Valid()
    requires h.Valid() && h.size == |content|
  {
    Extensions(es) + h.Block() + content + Padding(|content|) + Zeros(2 * BLOCK)
  }

  /** An entry for a file, by its type byte. */
  predicate IsFile(h: Header) {
    h.kind in {48, 55} || (h.kind == 0 && !Slashed(UpToNul(h.name)))
  }

  predicate NamesDirectory(h: Header) {
    h.kind == 53 || (h.kind == 0 && Slashed(UpToNul(h.name)))
  }

  lemma ReadingStops(h: Header, s: seq<Byte>)
    requires h.Valid() && IsFile(h)
    ensures Extract(h.Block() + s) ==
            Outcome(s[..Min(h.size, |s|)], if h.size <= |s| then Done else Premature)
  {
    hide Header.Block, UpToNul, Parse, KindOf, Slashed;
    ParseOfBlock(h);
    var t := h.Block() + s;
    assert t[..BLOCK] == h.Block();
    assert t[BLOCK..] == s;
  }

  /** Whatever the extension entries and the chunks of the archive, reading it gives the content back. */
  lemma RoundTrip(es: seq<Extension>, h: Header, content: seq<Byte>, archive: seq<seq<Byte>>)
    requires forall e :: e in es ==> e.Valid()
    requires h.Valid() && IsFile(h) && h.size == |content|
    requires Concat(archive) == Archive(es, h, content)
    ensures Extract(Concat(archive)) == Outcome(content, Done)
    ensures |Concat(archive)| % BLOCK == 0
  {
    hide Extract, Padding, Header.Block, KindOf, UpToNul, Header.Valid, Extension.Valid, Extension.Bytes, Extensions;
    var s := content + Padding(|content|) + Zeros(2 * BLOCK);
    assert Concat(archive) == Extensions(es) + (h.Block() + s);
    ExtensionsAreSkipped(es, h.Block() + s);
    ReadingStops(h, s);
    PaddingAgrees(|content|);
  }

  /** Reading refuses a directory: whatever extension entries come before it and whatever follows, nothing is returned. */
  lemma DirectoriesAreRefused(es: seq<Extension>, h: Header, s: seq<Byte>)
    requires forall e :: e in es ==> e.Valid()
    requires h.Valid() && NamesDirectory(h)
    ensures Extract(Extensions(es) + (h.Block() + s)) == Outcome([], IsDirectory)
  {
    hide Extensions, Header.Block, UpToNul, Parse, KindOf, Slashed, Header.Valid, Extension.Valid;
    ExtensionsAreSkipped(es, h.Block() + s);
    ParseOfBlock(h);
    assert (h.Block() + s)[..BLOCK] == h.Block();
  }

  /** A damaged header is an error, wherever it comes, and nothing is returned for it. */
  lemma DamagedArchiveIsRefused(es: seq<Extension>, h: Header, i: nat, b: Byte, s: seq<Byte>)
    requires forall e :: e in es ==> e.Valid()
    requires h.Valid() && i < BLOCK && !(148 <= i < 156) && b != h.Block()[i]
    ensures Extract(Extensions(es) + (h.Block()[i := b] + s)) == Outcome([], InvalidArchive)
  {
    hide Extensions, Header.Block, Parse, Header.Valid, Extension.Valid;
    var bad := h.Block()[i := b];
    ExtensionsAreSkipped(es, bad + s);
    DamageIsNoticed(h, i, b);
    assert (bad + s)[..BLOCK] == bad;
  }

  /** After extension entries alone there is no file, whether the archive ends with zero blocks or is cut short. */
  lemma NothingIsFound(es: seq<Extension>, s: seq<Byte>)
    requires forall e :: e in es ==> e.Valid()
    requires |s| < BLOCK || s[..BLOCK] == Zeros(BLOCK)
    ensures Extract(Extensions(es) + s) == Outcome([], NoRegularFile)
  {
    hide Extensions, Extension.Valid;
    ExtensionsAreSkipped(es, s);
    assert |s| < BLOCK ==> s[..|s|] == s;
  }

  /** An archive cut off inside the content is noticed, after what there was of it has been passed on. */
  lemma TruncationIsNoticed(es: seq<Extension>, h: Header, content: seq<Byte>, n: nat)
    requires forall e :: e in es ==> e.Valid()
    requires h.Valid() && IsFile(h) && h.size == |content| && n < |content|
    ensures Extract(Archive(es, h, content)[..|Extensions(es)| + BLOCK + n]) == Outcome(content[..n], Premature)
  {
    hide Extract, Padding, Header.Block, KindOf, UpToNul, Header.Valid, Extension.Valid, Extension.Bytes, Extensions;
    var cut := Archive(es, h, content)[..|Extensions(es)| + BLOCK + n];
    assert cut == Extensions(es) + (h.Block() + content[..n]);
    ExtensionsAreSkipped(es, h.Block() + content[..n]);
    ReadingStops(h, content[..n]);
  }
}
