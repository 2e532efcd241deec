/** The header block of a tar entry, as Python's tarfile writes and reads it for utils/tarstream.py: the ustar
    interchange format of the pax utility, IEEE Std 1003.1. */
module TarHeader {
  import opened Bytes

  const BLOCK := 512

  function Zeros(n: nat): (z: seq<Byte>)
    ensures |z| == n && forall i :: 0 <= i < n ==> z[i] == 0
  {
    seq(n, _ => 0)
  }

  // ---- numbers ----

  function Pow8(k: nat): (p: nat)
    ensures p > 0
  {
    if k == 0 then 1 else 8 * Pow8(k - 1)
  }

  /** `k` octal digits. */
  function Octal(n: nat, k: nat): (s: seq<Byte>)
    ensures |s| == k && forall i :: 0 <= i < k ==> IsDigit(s[i])
  {
    if k == 0 then [] else
      var digit: Byte := 48 + n % 8;
      Octal(n / 8, k - 1) + [digit]
  }

  /** The digits, from the most significant one. */
  lemma {:induction false} OctalIs(n: nat, k: nat, i: nat)
    requires i < k
    ensures Octal(n, k)[i] == 48 + n / Pow8(k - 1 - i) % 8
    decreases k
  {
    if i < k - 1 {
      OctalIs(n / 8, k - 1, i);
      DivideTwice(n, Pow8(k - 2 - i));
    } else {
      assert Pow8(0) == 1;
    }
  }

  lemma DivideTwice(n: nat, p: nat)
    requires p > 0
    ensures n / 8 / p == n / (8 * p)
  {
    var q, r := n / 8 / p, n / 8 % p;
    assert n / 8 == p * q + r;
    assert n == (8 * p) * q + (8 * r + n % 8);
    DivModUnique(n, 8 * p, q, 8 * r + n % 8);
  }

  predicate IsDigit(b: Byte) {
    48 <= b < 56
  }

  function Value(s: seq<Byte>): nat {
    if s == [] then 0 else 8 * Value(s[..|s| - 1]) + (if IsDigit(s[|s| - 1]) then s[|s| - 1] - 48 else 0)
  }

  lemma {:induction false} ValueOfOctal(n: nat, k: nat)
    requires n < Pow8(k)
    ensures Value(Octal(n, k)) == n
  {
    if k > 0 {
      ValueOfOctal(n / 8, k - 1);
      var s, high := Octal(n, k), Octal(n / 8, k - 1);
      assert s == high + [48 + n % 8];
      assert s[..|s| - 1] == high;
      assert Value(s) == 8 * (n / 8) + n % 8;
    }
  }

  function UpToNul(s: seq<Byte>): seq<Byte> {
    if s == [] || s[0] == 0 then [] else [s[0]] + UpToNul(s[1..])
  }

  lemma {:induction false} UpToNulStops(s: seq<Byte>, rest: seq<Byte>)
    requires forall i :: 0 <= i < |s| ==> s[i] != 0
    ensures UpToNul(s + [0] + rest) == s
  {
    var t := s + [0] + rest;
    if s != [] {
      UpToNulStops(s[1..], rest);
      assert t[1..] == s[1..] + [0] + rest;
    }
  }

  predicate IsSpace(b: Byte) {
    b == 32 || 9 <= b <= 13 || 28 <= b <= 31
  }

  function Strip(s: seq<Byte>): seq<Byte>
    decreases |s|
  {
    if s == [] then []
    else if IsSpace(s[0]) then Strip(s[1..])
    else if IsSpace(s[|s| - 1]) then Strip(s[..|s| - 1])
    else s
  }

  /** A number field: octal digits up to a NUL, with white space around them; an empty field is zero. */
  function Number(field: seq<Byte>): int {
    var s := Strip(UpToNul(field));
    if forall i :: 0 <= i < |s| ==> IsDigit(s[i]) then Value(s) else -1
  }

  /** A number field as it is written: zero-padded octal digits and a NUL. */
  function Field(n: nat, width: nat): (s: seq<Byte>)
    requires width > 0
    ensures |s| == width
  {
    Octal(n, width - 1) + [0]
  }

  lemma NumberOfOctal(n: nat, k: nat, rest: seq<Byte>)
    requires n < Pow8(k)
    ensures Number(Octal(n, k) + [0] + rest) == n
  {
    var s := Octal(n, k);
    UpToNulStops(s, rest);
    assert Strip(s) == s;
    ValueOfOctal(n, k);
  }

  lemma NumberOfField(n: nat, width: nat)
    requires width > 0 && n < Pow8(width - 1)
    ensures Number(Field(n, width)) == n
  {
    NumberOfOctal(n, width - 1, []);
    assert Field(n, width) == Octal(n, width - 1) + [0] + [];
  }

  lemma NumberOfZeros(n: nat)
    ensures Number(Zeros(n)) == 0
  {
  }

  // ---- the block ----

  /** What a header says. Long names and large numbers are in extension entries before it. */
  datatype Header = Header(name: seq<Byte>, mode: nat, uid: nat, gid: nat, size: nat, mtime: nat, kind: Byte,
                           link: seq<Byte>, owner: seq<Byte>, prefix: seq<Byte>)
  {
    predicate Valid() {
      && |name| == 100 && mode < Pow8(7) && uid < Pow8(7) && gid < Pow8(7) && size < Pow8(11) && mtime < Pow8(11)
      && |link| == 100 && |owner| == 72 && |prefix| == 155
    }

    /** The fields before the checksum. */
    function Front(): (s: seq<Byte>)
      requires Valid()
      ensures |s| == 148
    {
      name + Field(mode, 8) + Field(uid, 8) + Field(gid, 8) + Field(size, 12) + Field(mtime, 12)
    }

    /** The fields after it: type, link name, magic and owner names, two device numbers, prefix, padding. */
    function Back(): (s: seq<Byte>)
      requires Valid()
      ensures |s| == 356
    {
      [kind] + link + owner + Zeros(8) + Zeros(8) + prefix + Zeros(12)
    }

    function Block(): (s: seq<Byte>)
      requires Valid()
      ensures |s| == BLOCK
    {
      Front() + Octal(Checksum(Front(), Back()), 6) + [0, 32] + Back()
    }
  }

  function Unsigned(s: seq<Byte>): nat {
    if s == [] then 0 else Unsigned(s[..|s| - 1]) + s[|s| - 1]
  }

  /** The sum some old archivers wrote, of signed bytes. */
  function Signed(s: seq<Byte>): int {
    if s == [] then 0 else Signed(s[..|s| - 1]) + s[|s| - 1] - (if s[|s| - 1] >= 128 then 256 else 0)
  }

  /** The checksum of a block: its own field counts as eight spaces. */
  function Checksum(front: seq<Byte>, back: seq<Byte>): nat {
    256 + Unsigned(front) + Unsigned(back)
  }

  lemma {:induction false} SumIsSmall(s: seq<Byte>)
    ensures Unsigned(s) <= 255 * |s|
  {
    if s != [] {
      SumIsSmall(s[..|s| - 1]);
    }
  }

  datatype Kind = Regular | Directory | Other

  datatype Parsed = NoEntry | Invalid | Entry(kind: Kind, size: nat)

  function KindOf(kind: Byte, name: seq<Byte>): Kind {
    if kind == 48 || kind == 55 then Regular
    else if kind == 53 then Directory
    else if kind != 0 then Other
    else if name != [] && name[|name| - 1] == 47 then Directory  // a directory in the oldest format
    else Regular
  }

  /** `_parse_header`: no entry at the end of the archive, an error for a damaged block. */
  function Parse(block: seq<Byte>): Parsed {
    if |block| < BLOCK || block == Zeros(BLOCK) then NoEntry
    else if |block| > BLOCK then Invalid
    else
      var front, back := block[..148], block[156..];
      var checksum := Number(block[148..156]);
      if checksum < 0 || (checksum != Checksum(front, back) && checksum != 256 + Signed(front) + Signed(back)) then Invalid
      else if Number(block[100..108]) < 0 || Number(block[108..116]) < 0 || Number(block[116..124]) < 0
           || Number(block[124..136]) < 0 || Number(block[136..148]) < 0
           || Number(block[329..337]) < 0 || Number(block[337..345]) < 0 then Invalid
      else Entry(KindOf(block[156], UpToNul(block[..100])), Number(block[124..136]))
  }

  lemma Pow8Values()
    ensures Pow8(6) == 0x40000
  {
    assert Pow8(2) == 64;
    assert Pow8(4) == 4096;
  }

  lemma Middle(a: seq<Byte>, b: seq<Byte>, c: seq<Byte>)
    ensures (a + b + c)[|a|..|a| + |b|] == b
  {
  }

  lemma FrontFields(h: Header)
    requires h.Valid()
    ensures var f := h.Front();
            && f[..100] == h.name && f[100..108] == Field(h.mode, 8) && f[108..116] == Field(h.uid, 8)
            && f[116..124] == Field(h.gid, 8) && f[124..136] == Field(h.size, 12) && f[136..148] == Field(h.mtime, 12)
  {
  }

  lemma BackFields(h: Header)
    requires h.Valid()
    ensures var b := h.Back(); b[0] == h.kind && b[173..181] == Zeros(8) && b[181..189] == Zeros(8)
  {
    assert h.Back() == ([h.kind] + h.link + h.owner) + Zeros(8) + (Zeros(8) + h.prefix + Zeros(12));
    Middle([h.kind] + h.link + h.owner, Zeros(8), Zeros(8) + h.prefix + Zeros(12));
    assert h.Back() == ([h.kind] + h.link + h.owner + Zeros(8)) + Zeros(8) + (h.prefix + Zeros(12));
    Middle([h.kind] + h.link + h.owner + Zeros(8), Zeros(8), h.prefix + Zeros(12));
  }

  /** A name ending in a slash. */
  predicate Slashed(name: seq<Byte>) {
    name != [] && name[|name| - 1] == 47
  }

  lemma KindIs(kind: Byte, name: seq<Byte>)
    ensures KindOf(kind, name) == Regular <==> kind in {48, 55} || (kind == 0 && !Slashed(name))
    ensures KindOf(kind, name) == Directory <==> kind == 53 || (kind == 0 && Slashed(name))
  {
  }

  /** What is written is what is read: the size, and by the type byte a file (`0`, `7`, or NUL), a directory (`5`, or NUL
      with a name that ends in a slash) or neither. */
  lemma ParseOfBlock(h: Header)
    requires h.Valid()
    ensures var e := Parse(h.Block());
            && e.Entry? && e.size == h.size && e.kind == KindOf(h.kind, UpToNul(h.name))
            && (e.kind == Regular <==> h.kind in {48, 55} || (h.kind == 0 && !Slashed(UpToNul(h.name))))
            && (e.kind == Directory <==> h.kind == 53 || (h.kind == 0 && Slashed(UpToNul(h.name))))
  {
    KindIs(h.kind, UpToNul(h.name));
    hide Octal, Number, Unsigned, Signed, UpToNul, KindOf, Slashed, Field, Pow8, Header.Front, Header.Back;
    var f, b, block := h.Front(), h.Back(), h.Block();
    var sum := Octal(Checksum(f, b), 6);
    assert block[..148] == f;
    assert block[156..] == b;
    assert block[148..156] == sum + [0] + [32];
    assert IsDigit(block[148]);
    FrontFields(h);
    BackFields(h);
    SumIsSmall(f);
    SumIsSmall(b);
    Pow8Values();
    NumberOfOctal(Checksum(f, b), 6, [32]);
    NumberOfField(h.mode, 8);
    NumberOfField(h.uid, 8);
    NumberOfField(h.gid, 8);
    NumberOfField(h.size, 12);
    NumberOfField(h.mtime, 12);
    NumberOfZeros(8);
    assert block[..100] == f[..100];
    assert block[100..108] == f[100..108];
    assert block[108..116] == f[108..116];
    assert block[116..124] == f[116..124];
    assert block[124..136] == f[124..136];
    assert block[136..148] == f[136..148];
    assert block[329..337] == b[173..181];
    assert block[337..345] == b[181..189];
    assert block[156] == b[0];
  }

  // ---- where things stand, and what the checksum is for ----

  lemma {:induction false} UnsignedAppend(a: seq<Byte>, b: seq<Byte>)
    ensures Unsigned(a + b) == Unsigned(a) + Unsigned(b)
    decreases |b|
  {
    if b == [] {
      assert a + b == a;
    } else {
      UnsignedAppend(a, b[..|b| - 1]);
      assert (a + b)[..|a + b| - 1] == a + b[..|b| - 1];
    }
  }

  /** Eight spaces, which stand in for the checksum while it is computed. */
  const SPACES: seq<Byte> := [32, 32, 32, 32, 32, 32, 32, 32]

  lemma {:induction false} SumOfSpaces(n: nat)
    requires n <= 8
    ensures Unsigned(SPACES[..n]) == 32 * n
  {
    if n > 0 {
      SumOfSpaces(n - 1);
      assert SPACES[..n][..n - 1] == SPACES[..n - 1];
    }
  }

  /** Where the fields stand: the numbers in octal with a NUL behind them, the type byte at 156, and at 148 the sum of
      all 512 bytes, taken with spaces in its place. */
  lemma BlockIs(h: Header)
    requires h.Valid()
    ensures var b := h.Block();
            && b[..100] == h.name && b[100..107] == Octal(h.mode, 7) && b[108..115] == Octal(h.uid, 7)
            && b[116..123] == Octal(h.gid, 7) && b[124..135] == Octal(h.size, 11) && b[136..147] == Octal(h.mtime, 11)
            && b[156] == h.kind && b[157..257] == h.link
            && b[148..154] == Octal(Unsigned(b[..148] + SPACES + b[156..]), 6) && b[154] == 0 && b[155] == 32
  {
    var f, k, b := h.Front(), h.Back(), h.Block();
    FrontFields(h);
    hide Octal, Unsigned, Header.Front;
    assert b[..148] == f && b[156..] == k;
    assert b[..100] == f[..100] && b[100..108] == f[100..108] && b[108..116] == f[108..116];
    assert b[116..124] == f[116..124] && b[124..136] == f[124..136] && b[136..148] == f[136..148];
    assert b[100..107] == b[100..108][..7] && b[108..115] == b[108..116][..7] && b[116..123] == b[116..124][..7];
    assert b[124..135] == b[124..136][..11] && b[136..147] == b[136..148][..11];
    assert b[157..257] == k[1..101];
    UnsignedAppend(f, SPACES);
    UnsignedAppend(f + SPACES, k);
    SumOfSpaces(8);
    assert SPACES[..8] == SPACES;
  }

  function High(s: seq<Byte>): nat {
    if s == [] then 0 else High(s[..|s| - 1]) + if s[|s| - 1] >= 128 then 1 else 0
  }

  lemma {:induction false} SignedIs(s: seq<Byte>)
    ensures Signed(s) == Unsigned(s) - 256 * High(s)
  {
    if s != [] {
      SignedIs(s[..|s| - 1]);
    }
  }

  lemma {:induction false} UnsignedUpdate(s: seq<Byte>, i: nat, b: Byte)
    requires i < |s|
    ensures Unsigned(s[i := b]) == Unsigned(s) - s[i] + b
    decreases |s|
  {
    var t := s[i := b];
    if i < |s| - 1 {
      UnsignedUpdate(s[..|s| - 1], i, b);
      assert t[..|t| - 1] == s[..|s| - 1][i := b];
    } else {
      assert t[..|t| - 1] == s[..|s| - 1];
    }
  }

  lemma SumsDiffer(sum: int, d: int, high: nat)
    requires d != 0 && -256 < d < 256
    ensures sum + d != sum && sum + d - 256 * high != sum
  {
  }

  /** A header in which any one byte outside the checksum has been changed is noticed. */
  lemma DamageIsNoticed(h: Header, i: nat, b: Byte)
    requires h.Valid() && i < BLOCK && !(148 <= i < 156) && b != h.Block()[i]
    ensures Parse(h.Block()[i := b]) == Invalid
  {
    var f, k, block := h.Front(), h.Back(), h.Block();
    var bad := block[i := b];
    hide Octal, Number, Unsigned, Signed, UpToNul, KindOf, Field, Pow8, Header.Front, Header.Back, High;
    var sum := Octal(Checksum(f, k), 6);
    assert block[..148] == f && block[156..] == k && block[148..156] == sum + [0] + [32];
    assert IsDigit(block[148]) && bad[148] == block[148];
    assert bad[148..156] == block[148..156];
    SumIsSmall(f);
    SumIsSmall(k);
    Pow8Values();
    NumberOfOctal(Checksum(f, k), 6, [32]);
    var f', k' := bad[..148], bad[156..];
    SumsChange(f, k, f', k', i, b);
    hide *;
    WrongSumIsInvalid(bad, Checksum(f, k));
  }

  lemma SumsChange(f: seq<Byte>, k: seq<Byte>, f': seq<Byte>, k': seq<Byte>, i: nat, b: Byte)
    requires |f| == 148 && |k| == 356 && i < BLOCK && !(148 <= i < 156)
    requires if i < 148 then f' == f[i := b] && k' == k && f[i] != b else f' == f && k' == k[i - 156 := b] && k[i - 156] != b
    ensures Checksum(f', k') != Checksum(f, k) && 256 + Signed(f') + Signed(k') != Checksum(f, k)
  {
    hide Unsigned, Signed, High;
    if i < 148 {
      UnsignedUpdate(f, i, b);
    } else {
      UnsignedUpdate(k, i - 156, b);
    }
    SignedIs(f');
    SignedIs(k');
    SumsDiffer(Checksum(f, k), Checksum(f', k') - Checksum(f, k), High(f') + High(k'));
  }

  lemma WrongSumIsInvalid(block: seq<Byte>, sum: nat)
    requires |block| == BLOCK && block[148] != 0 && Number(block[148..156]) == sum
    requires Checksum(block[..148], block[156..]) != sum && 256 + Signed(block[..148]) + Signed(block[156..]) != sum
    ensures Parse(block) == Invalid
  {
    hide Number, Checksum, Signed;
  }

  // ---- what the reader tolerates, and what not ----

  predicate Blank(s: seq<Byte>) {
    forall i :: 0 <= i < |s| ==> s[i] in {9, 10, 11, 12, 13, 28, 29, 30, 31, 32}
  }

  lemma {:induction false} StripIs(a: seq<Byte>, s: seq<Byte>, b: seq<Byte>)
    requires Blank(a) && Blank(b) && s != [] && !IsSpace(s[0]) && !IsSpace(s[|s| - 1])
    ensures Strip(a + s + b) == s
    decreases |a| + |b|
  {
    var t := a + s + b;
    if a != [] {
      assert t[0] == a[0] && t[1..] == a[1..] + s + b;
      StripIs(a[1..], s, b);
    } else if b != [] {
      assert t[0] == s[0] && t[|t| - 1] == b[|b| - 1] && t[..|t| - 1] == a + s + b[..|b| - 1];
      StripIs(a, s, b[..|b| - 1]);
    } else {
      assert t == s;
    }
  }

  /** White space around the digits of a number field changes nothing. */
  lemma SpacesAreIgnored(a: seq<Byte>, n: nat, k: nat, b: seq<Byte>, rest: seq<Byte>)
    requires Blank(a) && Blank(b) && k > 0 && n < Pow8(k)
    ensures Number(a + Octal(n, k) + b + [0] + rest) == n
  {
    var s := Octal(n, k);
    UpToNulStops(a + s + b, rest);
    StripIs(a, s, b);
    ValueOfOctal(n, k);
  }

  lemma {:induction false} StripKeepsFirst(s: seq<Byte>)
    requires s != [] && !IsSpace(s[0])
    ensures Strip(s) != [] && Strip(s)[0] == s[0]
    decreases |s|
  {
    if IsSpace(s[|s| - 1]) {
      StripKeepsFirst(s[..|s| - 1]);
    }
  }

  /** A number field that starts with anything but a digit, white space or NUL makes the whole header invalid. */
  lemma BadNumberIsInvalid(block: seq<Byte>, field: nat)
    requires |block| == BLOCK && field in {100, 108, 116, 124, 136, 148, 329, 337}
    requires block[field] != 0 && !Blank([block[field]]) && !(48 <= block[field] < 56)
    ensures Parse(block) == Invalid
  {
    var width := if field in {124, 136} then 12 else 8;
    var f := block[field..field + width];
    assert f[0] == block[field] && block != Zeros(BLOCK);
    assert [block[field]][0] == block[field];
    var s := UpToNul(f);
    assert s[0] == f[0];
    StripKeepsFirst(s);
    assert Number(f) == -1;
    hide Number, Checksum, Signed, UpToNul, Strip;
  }

  /** A block whose checksum is the sum of signed bytes, as some old archivers wrote it, is read like any other. */
  lemma ParseOfSignedBlock(h: Header)
    requires h.Valid() && 256 + Signed(h.Front()) + Signed(h.Back()) >= 0
    ensures var sum: nat := 256 + Signed(h.Front()) + Signed(h.Back());
            Parse(h.Front() + Octal(sum, 6) + [0, 32] + h.Back()) == Parse(h.Block())
  {
    hide Octal, Number, Unsigned, Signed, UpToNul, KindOf, Field, Pow8, Header.Front, Header.Back, High;
    var f, b := h.Front(), h.Back();
    var sum: nat := 256 + Signed(f) + Signed(b);
    SignedIs(f);
    SignedIs(b);
    SumIsSmall(f);
    SumIsSmall(b);
    Pow8Values();
    SameBlock(f, b, sum, Checksum(f, b));
  }

  lemma SameBlock(f: seq<Byte>, b: seq<Byte>, sum1: nat, sum2: nat)
    requires |f| == 148 && |b| == 356 && sum1 < Pow8(6) && sum2 < Pow8(6)
    requires sum1 == 256 + Signed(f) + Signed(b) && sum2 == Checksum(f, b)
    ensures Parse(f + Octal(sum1, 6) + [0, 32] + b) == Parse(f + Octal(sum2, 6) + [0, 32] + b)
  {
    SumIsRead(f, b, sum1);
    SumIsRead(f, b, sum2);
    hide *;
    var x, y := f + Octal(sum1, 6) + [0, 32] + b, f + Octal(sum2, 6) + [0, 32] + b;
    ParseIs(x, f, b, sum1);
    ParseIs(y, f, b, sum2);
  }

  /** What the reader makes of a block with the right checksum, from what stands before and behind it. */
  function Fields(f: seq<Byte>, b: seq<Byte>): Parsed
    requires |f| == 148 && |b| == 356
  {
    if Number(f[100..108]) < 0 || Number(f[108..116]) < 0 || Number(f[116..124]) < 0 || Number(f[124..136]) < 0
       || Number(f[136..148]) < 0 || Number(b[173..181]) < 0 || Number(b[181..189]) < 0 then Invalid
    else Entry(KindOf(b[0], UpToNul(f[..100])), Number(f[124..136]))
  }

  lemma ParseIs(x: seq<Byte>, f: seq<Byte>, b: seq<Byte>, sum: nat)
    requires |f| == 148 && |b| == 356 && |x| == BLOCK && x[..148] == f && x[156..] == b
    requires Number(x[148..156]) == sum && x[148] != 0
    requires sum == Checksum(f, b) || sum == 256 + Signed(f) + Signed(b)
    ensures Parse(x) == Fields(f, b)
  {
    hide Number, Unsigned, Checksum, Signed, UpToNul, KindOf;
    assert x[..100] == f[..100] && x[100..108] == f[100..108] && x[108..116] == f[108..116];
    assert x[116..124] == f[116..124] && x[124..136] == f[124..136] && x[136..148] == f[136..148];
    assert x[329..337] == b[173..181] && x[337..345] == b[181..189] && x[156] == b[0];
  }

  lemma SumIsRead(f: seq<Byte>, b: seq<Byte>, sum: nat)
    requires |f| == 148 && |b| == 356 && sum < Pow8(6)
    ensures var x := f + Octal(sum, 6) + [0, 32] + b;
            |x| == BLOCK && x[..148] == f && x[156..] == b && Number(x[148..156]) == sum && x[148] != 0
  {
    hide Number;
    var x := f + Octal(sum, 6) + [0, 32] + b;
    assert x[148..156] == Octal(sum, 6) + [0] + [32];
    NumberOfOctal(sum, 6, [32]);
    assert IsDigit(x[148]);
  }
}
