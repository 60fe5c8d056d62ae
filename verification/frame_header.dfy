/**
 The 32-byte ROCKETBX frame header: the TypeScript builder and parser, the C++ builder,
 and exactly which file names survive the trip.
 */
module FrameHeader {
  import opened Prelude

  const HEADER_SIZE: nat := 32
  const SIZE_OFFSET: nat := 8
  const KIND_OFFSET: nat := 16
  const NAME_OFFSET: nat := 17
  const NAME_MAX: nat := 15
  const WORD64: nat := 0x1_0000_0000_0000_0000

  /** A JavaScript string is a sequence of UTF-16 code units. */
  newtype unit = x: int | 0 <= x < 0x1_0000

  type Text = seq<unit>

  datatype FrameKind = SessionFrame | PayloadFrame

  datatype ParsedHeader = ParsedHeader(fileSize: nat, filename: Text, kind: FrameKind)

  datatype HeaderError = TooShort | BadMagic | InvalidKind | NameOverflow

  const MAGIC: seq<byte> := [0x52, 0x4f, 0x43, 0x4b, 0x45, 0x54, 0x42, 0x58]

  function KindByte(kind: FrameKind): byte {
    match kind
    case SessionFrame => 1
    case PayloadFrame => 2
  }

  function KindOf(b: byte): Option<FrameKind> {
    if b == 1 then Some(SessionFrame) else if b == 2 then Some(PayloadFrame) else None
  }

  // ----- Little-endian sizes -----

  function LittleEndian(n: nat, k: nat): (bytes: seq<byte>)
    ensures |bytes| == k
  {
    if k == 0 then [] else [(n % 256) as byte] + LittleEndian(n / 256, k - 1)
  }

  function FromLittleEndian(bytes: seq<byte>): nat {
    if bytes == [] then 0 else bytes[0] as nat + 256 * FromLittleEndian(bytes[1..])
  }

  function Pow256(k: nat): (p: nat)
    ensures p > 0
  {
    if k == 0 then 1 else 256 * Pow256(k - 1)
  }

  lemma {:induction false} LittleEndianRoundTrip(n: nat, k: nat)
    requires n < Pow256(k)
    ensures FromLittleEndian(LittleEndian(n, k)) == n
  {
    if k > 0 {
      LittleEndianRoundTrip(n / 256, k - 1);
      assert LittleEndian(n, k)[1..] == LittleEndian(n / 256, k - 1);
    }
  }

  lemma Factor(p: nat, h: nat)
    ensures 256 * (p * h) == (256 * p) * h
  {
  }

  /** The lower bytes come first. */
  lemma {:induction false} LowBytesFirst(low: seq<byte>, high: seq<byte>)
    ensures FromLittleEndian(low + high) == FromLittleEndian(low) + Pow256(|low|) * FromLittleEndian(high)
  {
    if low == [] {
      assert low + high == high;
    } else {
      LowBytesFirst(low[1..], high);
      assert (low + high)[1..] == low[1..] + high;
      var p, h, rest := Pow256(|low| - 1), FromLittleEndian(high), FromLittleEndian(low[1..]);
      assert FromLittleEndian(low + high) == low[0] as nat + 256 * FromLittleEndian(low[1..] + high);
      assert FromLittleEndian(low) == low[0] as nat + 256 * rest && Pow256(|low|) == 256 * p;
      hide FromLittleEndian, Pow256;
      Factor(p, h);
    }
  }

  lemma EightBytesHoldAWord()
    ensures Pow256(8) == WORD64
  {
    assert Pow256(4) == 0x1_0000_0000;
    assert Pow256(8) == 256 * 256 * 256 * 256 * Pow256(4);
  }

  // ----- Names: UTF-8 out, one character per byte in -----

  predicate IsHigh(u: unit) {
    0xD800 <= u < 0xDC00
  }

  predicate IsLow(u: unit) {
    0xDC00 <= u < 0xE000
  }

  /** A surrogate pair takes two code units. */
  predicate PairAt(s: Text) {
    |s| > 1 && IsHigh(s[0]) && IsLow(s[1])
  }

  function Units(s: Text): (n: nat)
    requires s != []
    ensures 1 <= n <= |s|
  {
    if PairAt(s) then 2 else 1
  }

  function ThreeByteChar(u: int): (b: seq<byte>)
    requires 0x800 <= u < 0x1_0000
    ensures |b| == 3 && 0xE0 <= b[0] < 0xF0
  {
    [(0xE0 + u / 0x1000) as byte, (0x80 + u / 64 % 64) as byte, (0x80 + u % 64) as byte]
  }

  /** The UTF-8 bytes of the first character; a lone surrogate becomes U+FFFD. */
  function CharBytes(s: Text): seq<byte>
    requires s != []
  {
    var u := s[0] as int;
    if u < 0x80 then [u as byte]
    else if u < 0x800 then [(0xC0 + u / 64) as byte, (0x80 + u % 64) as byte]
    else if PairAt(s) then
      var p := 0x10000 + (u - 0xD800) * 0x400 + (s[1] as int - 0xDC00);
      [(0xF0 + p / 0x40000) as byte, (0x80 + p / 0x1000 % 64) as byte,
       (0x80 + p / 64 % 64) as byte, (0x80 + p % 64) as byte]
    else if IsHigh(s[0]) || IsLow(s[0]) then [0xEF, 0xBF, 0xBD]
    else ThreeByteChar(u)
  }

  /** `TextEncoder.encode`. */
  function Encode(s: Text): seq<byte> {
    if s == [] then [] else CharBytes(s) + Encode(s[Units(s)..])
  }

  /** `String.fromCharCode` of each byte up to the first NUL. */
  function NameFrom(bytes: seq<byte>): Text {
    if bytes == [] || bytes[0] == 0 then [] else [bytes[0] as unit] + NameFrom(bytes[1..])
  }

  function Kept(name: Text): Text {
    name[..Min(|name|, NAME_MAX)]
  }

  /** What the header can carry faithfully: ASCII without NUL. */
  predicate PlainAscii(name: Text) {
    forall i :: 0 <= i < |name| ==> 0 < name[i] < 0x80
  }

  function Zeros(n: nat): (z: seq<byte>)
    ensures |z| == n && forall i :: 0 <= i < n ==> z[i] == 0
  {
    seq(n, _ => 0 as byte)
  }

  /** The header a builder means to write, for a name already encoded. */
  function HeaderBytes(size: nat, kind: FrameKind, name: seq<byte>): (h: seq<byte>)
    requires |name| <= NAME_MAX
    ensures |h| == HEADER_SIZE
  {
    MAGIC + LittleEndian(size, 8) + [KindByte(kind)] + name + Zeros(NAME_MAX - |name|)
  }

  /** Successive `setUint8` calls from an offset on. */
  method Store(buf: array<byte>, at: nat, data: seq<byte>)
    requires at + |data| <= buf.Length
    modifies buf
    ensures buf[..] == old(buf[..at]) + data + old(buf[at + |data|..])
  {
    for i := 0 to |data|
      invariant buf[..at] == old(buf[..at]) && buf[at..at + i] == data[..i]
      invariant buf[at + i..] == old(buf[at + i..])
    {
      buf[at + i] := data[i];
    }
  }

  /** `buildHeader`: an encoded name longer than 15 bytes makes `setUint8` throw. */
  method BuildHeader(size: nat, kind: FrameKind, filename: Text) returns (r: Result<seq<byte>, HeaderError>)
    ensures r == Built(size, kind, filename)
  {
    hide Encode, LittleEndian, KindByte, Kept;
    var buf := new byte[HEADER_SIZE](_ => 0 as byte);
    assert buf[..] == Zeros(HEADER_SIZE);
    Store(buf, 0, MAGIC);
    assert buf[..] == MAGIC + Zeros(24);
    Store(buf, SIZE_OFFSET, LittleEndian(size, 8));
    assert buf[..] == MAGIC + LittleEndian(size, 8) + Zeros(16);
    assert buf[..KIND_OFFSET] == MAGIC + LittleEndian(size, 8) && buf[NAME_OFFSET..] == Zeros(NAME_MAX);
    Store(buf, KIND_OFFSET, [KindByte(kind)]);
    assert buf[..] == MAGIC + LittleEndian(size, 8) + [KindByte(kind)] + Zeros(NAME_MAX);
    var nameBytes := Encode(Kept(filename));
    if NAME_OFFSET + |nameBytes| > HEADER_SIZE {
      return Err(NameOverflow);
    }
    Store(buf, NAME_OFFSET, nameBytes);
    assert buf[..] == HeaderBytes(size, kind, nameBytes);
    r := Ok(buf[..]);
  }

  function Built(size: nat, kind: FrameKind, filename: Text): Result<seq<byte>, HeaderError> {
    var name := Encode(Kept(filename));
    if |name| > NAME_MAX then Err(NameOverflow) else Ok(HeaderBytes(size, kind, name))
  }

  function Parsed(bytes: seq<byte>): Result<ParsedHeader, HeaderError> {
    if |bytes| < HEADER_SIZE then Err(TooShort)
    else if bytes[..SIZE_OFFSET] != MAGIC then Err(BadMagic)
    else
      match KindOf(bytes[KIND_OFFSET])
      case None => Err(InvalidKind)
      case Some(kind) =>
        Ok(ParsedHeader(FromLittleEndian(bytes[SIZE_OFFSET..KIND_OFFSET]),
                        NameFrom(bytes[NAME_OFFSET..HEADER_SIZE]), kind))
  }

  method ParseHeader(bytes: seq<byte>) returns (r: Result<ParsedHeader, HeaderError>)
    ensures r == Parsed(bytes)
  {
    if |bytes| < HEADER_SIZE {
      return Err(TooShort);
    }
    var magic: seq<byte> := [];
    for i := 0 to 8
      invariant magic == bytes[..i]
    {
      magic := magic + [bytes[i]];
    }
    if magic != MAGIC {
      return Err(BadMagic);
    }
    var kind := KindOf(bytes[KIND_OFFSET]);
    if kind.None? {
      return Err(InvalidKind);
    }
    var filename: Text := [];
    var field := bytes[NAME_OFFSET..HEADER_SIZE];
    assert field[HEADER_SIZE - NAME_OFFSET..] == [];
    for i := NAME_OFFSET to HEADER_SIZE
      invariant filename + NameFrom(field[i - NAME_OFFSET..]) == NameFrom(field)
    {
      var code := bytes[i];
      assert field[i - NAME_OFFSET..][1..] == field[i + 1 - NAME_OFFSET..];
      if code == 0 {
        assert filename == NameFrom(field);
        break;
      }
      filename := filename + [code as unit];
    }
    assert filename == NameFrom(field);
    r := Ok(ParsedHeader(FromLittleEndian(bytes[SIZE_OFFSET..KIND_OFFSET]), filename, kind.value));
  }

  /** `fill_file_header`: a C string, cut after 15 bytes. */
  method FillFileHeader(size: nat, kind: FrameKind, filename: seq<byte>) returns (header: seq<byte>)
    ensures header == HeaderBytes(size, kind, CString(filename)[..Min(|CString(filename)|, NAME_MAX)])
  {
    var len := 0;
    while len < |filename| && filename[len] != 0
      invariant len <= |filename|
      invariant CString(filename) == filename[..len] + CString(filename[len..])
    {
      assert filename[len..][1..] == filename[len + 1..];
      len := len + 1;
    }
    assert CString(filename) == filename[..len];
    var copy := Min(len, NAME_MAX);
    header := MAGIC + LittleEndian(size, 8) + [KindByte(kind)] + filename[..copy] + Zeros(NAME_MAX - copy);
  }

  function CString(s: seq<byte>): (r: seq<byte>)
    ensures |r| <= |s|
  {
    if s == [] || s[0] == 0 then [] else [s[0]] + CString(s[1..])
  }

  // ----- What survives -----

  lemma CharGrows(s: Text)
    requires s != []
    ensures |CharBytes(s)| >= Units(s) && (|CharBytes(s)| == Units(s) <==> s[0] < 0x80)
    ensures Units(s) == 1 || (s[0] >= 0x80 && s[1] >= 0x80)
    ensures s[0] != 0 ==> forall i :: 0 <= i < |CharBytes(s)| ==> CharBytes(s)[i] != 0
  {
  }

  lemma {:induction false} EncodeGrows(s: Text)
    ensures |Encode(s)| >= |s|
    ensures |Encode(s)| == |s| <==> forall i :: 0 <= i < |s| ==> s[i] < 0x80
    decreases |s|
  {
    if s != [] {
      CharGrows(s);
      hide CharBytes;
      var step, next := Units(s), s[Units(s)..];
      EncodeGrows(next);
      assert forall i :: step <= i < |s| ==> s[i] == next[i - step];
      assert forall i :: 0 <= i < |next| ==> next[i] == s[i + step];
      hide Encode;
    }
  }

  lemma {:induction false} EncodeHasNoNul(s: Text)
    requires forall i :: 0 <= i < |s| ==> s[i] != 0
    ensures forall i :: 0 <= i < |Encode(s)| ==> Encode(s)[i] != 0
    decreases |s|
  {
    if s != [] {
      CharGrows(s);
      hide CharBytes;
      EncodeHasNoNul(s[Units(s)..]);
    }
  }

  lemma {:induction false} NameFromHasNoNul(bytes: seq<byte>)
    ensures forall i :: 0 <= i < |NameFrom(bytes)| ==> NameFrom(bytes)[i] != 0
  {
    if bytes != [] && bytes[0] != 0 {
      NameFromHasNoNul(bytes[1..]);
    }
  }

  lemma {:induction false} NameFromPadded(name: seq<byte>, n: nat)
    requires forall i :: 0 <= i < |name| ==> name[i] != 0
    ensures |NameFrom(name + Zeros(n))| == |name|
    ensures forall i :: 0 <= i < |name| ==> NameFrom(name + Zeros(n))[i] == name[i] as unit
  {
    if name == [] {
      assert name + Zeros(n) == Zeros(n);
    } else {
      assert (name + Zeros(n))[1..] == name[1..] + Zeros(n);
      NameFromPadded(name[1..], n);
    }
  }

  lemma {:induction false} AsciiEncodesAsItself(s: Text)
    requires forall i :: 0 <= i < |s| ==> s[i] < 0x80
    ensures |Encode(s)| == |s| && forall i :: 0 <= i < |s| ==> Encode(s)[i] as int == s[i] as int
  {
    if s != [] {
      assert forall i :: 0 <= i < |s| - 1 ==> s[1..][i] == s[i + 1];
      AsciiEncodesAsItself(s[1..]);
    }
  }

  lemma FieldsOfHeaderBytes(size: nat, kind: FrameKind, name: seq<byte>)
    requires |name| <= NAME_MAX
    ensures var h := HeaderBytes(size, kind, name);
      && h[..SIZE_OFFSET] == MAGIC
      && h[SIZE_OFFSET..KIND_OFFSET] == LittleEndian(size, 8)
      && h[KIND_OFFSET] == KindByte(kind)
      && h[NAME_OFFSET..HEADER_SIZE] == name + Zeros(NAME_MAX - |name|)
  {
  }

  lemma ParsedOfHeaderBytes(size: nat, kind: FrameKind, name: seq<byte>)
    requires size < WORD64 && |name| <= NAME_MAX
    ensures Parsed(HeaderBytes(size, kind, name))
         == Ok(ParsedHeader(size, NameFrom(name + Zeros(NAME_MAX - |name|)), kind))
  {
    FieldsOfHeaderBytes(size, kind, name);
    EightBytesHoldAWord();
    LittleEndianRoundTrip(size, 8);
  }

  /** For every size and kind, a name comes back (cut to 15 units) exactly when what is kept of it is
      plain ASCII; any other name is refused or comes back different. */
  lemma HeaderRoundTrip(size: nat, kind: FrameKind, name: Text)
    requires size < WORD64
    ensures var header := Built(size, kind, name);
      (header.Ok? && Parsed(header.value) == Ok(ParsedHeader(size, Kept(name), kind))) <==> PlainAscii(Kept(name))
  {
    var kept := Kept(name);
    var bytes := Encode(kept);
    EncodeGrows(kept);
    if |bytes| <= NAME_MAX {
      ParsedOfHeaderBytes(size, kind, bytes);
      NameFromHasNoNul(bytes + Zeros(NAME_MAX - |bytes|));
      if forall i :: 0 <= i < |kept| ==> kept[i] != 0 {
        EncodeHasNoNul(kept);
        NameFromPadded(bytes, NAME_MAX - |bytes|);
        if PlainAscii(kept) {
          AsciiEncodesAsItself(kept);
          assert NameFrom(bytes + Zeros(NAME_MAX - |bytes|)) == kept;
        }
      }
    }
  }

  /** Both languages write the same header for a name the header can carry. */
  lemma SameHeaderInBothLanguages(size: nat, kind: FrameKind, name: Text, bytes: seq<byte>)
    requires PlainAscii(name) && |bytes| == |name| && forall i :: 0 <= i < |name| ==> bytes[i] as int == name[i] as int
    ensures Built(size, kind, name) == Ok(HeaderBytes(size, kind, CString(bytes)[..Min(|CString(bytes)|, NAME_MAX)]))
  {
    CStringOfNulFree(bytes);
    AsciiEncodesAsItself(Kept(name));
    assert Encode(Kept(name)) == bytes[..Min(|bytes|, NAME_MAX)];
  }

  lemma {:induction false} CStringOfNulFree(s: seq<byte>)
    requires forall i :: 0 <= i < |s| ==> s[i] != 0
    ensures CString(s) == s
  {
    if s != [] {
      CStringOfNulFree(s[1..]);
    }
  }

  /** For plain names, headers tell size, kind and kept name apart. */
  lemma DifferentFieldsDifferentHeaders(s1: nat, k1: FrameKind, n1: Text, s2: nat, k2: FrameKind, n2: Text)
    requires s1 < WORD64 && s2 < WORD64 && PlainAscii(Kept(n1)) && PlainAscii(Kept(n2))
    ensures Built(s1, k1, n1) == Built(s2, k2, n2) <==> s1 == s2 && k1 == k2 && Kept(n1) == Kept(n2)
  {
    HeaderRoundTrip(s1, k1, n1);
    HeaderRoundTrip(s2, k2, n2);
  }

  /** Beyond plain names headers do collide: every lone surrogate is encoded as U+FFFD. */
  lemma LoneSurrogatesCollide(size: nat, kind: FrameKind, a: unit, b: unit)
    requires (IsHigh(a) || IsLow(a)) && (IsHigh(b) || IsLow(b))
    ensures Built(size, kind, [a]) == Built(size, kind, [b])
  {
    assert Kept([a]) == [a] && Kept([b]) == [b];
    assert [a][1..] == [] && [b][1..] == [];
    assert Encode([a]) == [0xEF, 0xBF, 0xBD] + Encode([]) == Encode([b]);
  }

  // ----- Which headers are accepted -----

  lemma {:induction false} WordOfBytes(bytes: seq<byte>)
    ensures FromLittleEndian(bytes) < Pow256(|bytes|)
    ensures LittleEndian(FromLittleEndian(bytes), |bytes|) == bytes
  {
    if bytes != [] {
      WordOfBytes(bytes[1..]);
      var n := FromLittleEndian(bytes[1..]);
      assert FromLittleEndian(bytes) == bytes[0] as nat + 256 * n;
      assert (bytes[0] as nat + 256 * n) / 256 == n && (bytes[0] as nat + 256 * n) % 256 == bytes[0] as nat;
      assert [bytes[0]] + bytes[1..] == bytes;
    }
  }

  lemma {:induction false} NameEndsAtNul(bytes: seq<byte>)
    ensures var n := |NameFrom(bytes)|;
      && n <= |bytes| && (n < |bytes| ==> bytes[n] == 0)
      && forall i :: 0 <= i < n ==> NameFrom(bytes)[i] as int == bytes[i] as int != 0
  {
    if bytes != [] && bytes[0] != 0 {
      NameEndsAtNul(bytes[1..]);
    }
  }

  /** The parser accepts exactly what starts like a header that could be built, with that header's size and kind, and
      takes the name up to the first NUL; everything else gets the error of its first fault. */
  lemma AcceptedIffBuilt(bytes: seq<byte>, size: nat, kind: FrameKind)
    ensures (Parsed(bytes).Ok? && Parsed(bytes).value.fileSize == size && Parsed(bytes).value.kind == kind) <==>
      |bytes| >= HEADER_SIZE && size < WORD64 && bytes[..NAME_OFFSET] == HeaderBytes(size, kind, [])[..NAME_OFFSET]
    ensures Parsed(bytes).Ok? ==>
      var name, n := bytes[NAME_OFFSET..HEADER_SIZE], |Parsed(bytes).value.filename|;
      && n <= NAME_MAX && (n < NAME_MAX ==> name[n] == 0)
      && forall i :: 0 <= i < n ==> Parsed(bytes).value.filename[i] as int == name[i] as int != 0
    ensures Parsed(bytes) == Err(TooShort) <==> |bytes| < 32
    ensures Parsed(bytes) == Err(BadMagic) <==> |bytes| >= 32 && bytes[..8] != MAGIC
    ensures Parsed(bytes) == Err(InvalidKind) <==> |bytes| >= 32 && bytes[..8] == MAGIC && bytes[16] !in {1, 2}
  {
    if |bytes| >= HEADER_SIZE {
      EightBytesHoldAWord();
      WordOfBytes(bytes[SIZE_OFFSET..KIND_OFFSET]);
      NameEndsAtNul(bytes[NAME_OFFSET..HEADER_SIZE]);
      FieldsOfHeaderBytes(size, kind, []);
      var h := HeaderBytes(size, kind, []);
      hide HeaderBytes;
      FrontOfHeader(bytes);
      FrontOfHeader(h);
      if size < WORD64 {
        LittleEndianRoundTrip(size, 8);
      }
    }
  }

  lemma FrontOfHeader(h: seq<byte>)
    requires |h| >= HEADER_SIZE
    ensures h[..NAME_OFFSET] == h[..SIZE_OFFSET] + h[SIZE_OFFSET..KIND_OFFSET] + [h[KIND_OFFSET]]
    ensures h[..NAME_OFFSET][..SIZE_OFFSET] == h[..SIZE_OFFSET]
    ensures h[..NAME_OFFSET][SIZE_OFFSET..KIND_OFFSET] == h[SIZE_OFFSET..KIND_OFFSET]
    ensures h[..NAME_OFFSET][KIND_OFFSET] == h[KIND_OFFSET]
  {
  }

  // ----- UTF-8 read back -----

  /** The text with every lone surrogate replaced by U+FFFD. */
  function Scrubbed(s: Text): Text {
    if s == [] then [] else CharScrubbed(s) + Scrubbed(s[Units(s)..])
  }

  function CharScrubbed(s: Text): Text
    requires s != []
  {
    if PairAt(s) then [s[0], s[1]] else if IsHigh(s[0]) || IsLow(s[0]) then [0xFFFD] else [s[0]]
  }

  function Tail6(b: byte): int {
    b as int % 64
  }

  /** The pair of code units for a code point from 0x10000 on. */
  function Surrogates(point: int): Text {
    var p := (point - 0x10000) % 0x100000;
    [(0xD800 + p / 0x400) as unit, (0xDC00 + p % 0x400) as unit]
  }

  /** A reader of UTF-8 (section 3 of RFC 3629) for bytes that are well formed; it stops at a torn character. */
  function Decoded(b: seq<byte>): Text {
    if b == [] then []
    else if b[0] < 0x80 then [b[0] as unit] + Decoded(b[1..])
    else if b[0] < 0xE0 && |b| >= 2 then [((b[0] as int % 32) * 64 + Tail6(b[1])) as unit] + Decoded(b[2..])
    else if 0xE0 <= b[0] < 0xF0 && |b| >= 3 then
      [((b[0] as int % 16) * 4096 + Tail6(b[1]) * 64 + Tail6(b[2])) as unit] + Decoded(b[3..])
    else if 0xF0 <= b[0] && |b| >= 4 then
      Surrogates((b[0] as int % 8) * 0x40000 + Tail6(b[1]) * 4096 + Tail6(b[2]) * 64 + Tail6(b[3])) + Decoded(b[4..])
    else []
  }

  lemma TwoBytes(u: int)
    requires 0x80 <= u < 0x800
    ensures (0xC0 + u / 64) % 32 * 64 + (0x80 + u % 64) % 64 == u
  {
  }

  lemma ThreeBytes(u: int)
    requires 0x800 <= u < 0x1_0000
    ensures var b := ThreeByteChar(u); (b[0] as int % 16) * 4096 + Tail6(b[1]) * 64 + Tail6(b[2]) == u
  {
    var q := u / 64;
    assert u == q * 64 + u % 64 && q / 64 == u / 0x1000;
    assert q == q / 64 * 64 + q % 64;
  }

  lemma FourBytes(p: int)
    requires 0x1_0000 <= p < 0x11_0000
    ensures (0xF0 + p / 0x40000) % 8 * 0x40000 + (0x80 + p / 0x1000 % 64) % 64 * 4096
            + (0x80 + p / 64 % 64) % 64 * 64 + (0x80 + p % 64) % 64 == p
  {
    assert p / 64 / 64 == p / 0x1000 && p / 0x1000 / 64 == p / 0x40000;
  }

  lemma DecodedByLead(b: seq<byte>)
    ensures |b| >= 2 && 0x80 <= b[0] < 0xE0 ==>
      Decoded(b) == [((b[0] as int % 32) * 64 + Tail6(b[1])) as unit] + Decoded(b[2..])
    ensures |b| >= 3 && 0xE0 <= b[0] < 0xF0 ==>
      Decoded(b)
      == [((b[0] as int % 16) * 4096 + Tail6(b[1]) * 64 + Tail6(b[2])) as unit] + Decoded(b[3..])
  {
  }

  lemma ReadTwo(u: int, rest: seq<byte>)
    requires 0x80 <= u < 0x800
    ensures Decoded([(0xC0 + u / 64) as byte, (0x80 + u % 64) as byte] + rest) == [u as unit] + Decoded(rest)
  {
    TwoBytes(u);
    var b := [(0xC0 + u / 64) as byte, (0x80 + u % 64) as byte] + rest;
    assert b[2..] == rest;
    hide Decoded;
    DecodedByLead(b);
  }

  lemma ReadThree(u: int, rest: seq<byte>)
    requires 0x800 <= u < 0x1_0000
    ensures Decoded(ThreeByteChar(u) + rest) == [u as unit] + Decoded(rest)
  {
    hide Decoded, ThreeByteChar;
    var b := ThreeByteChar(u) + rest;
    assert b[3..] == rest;
    ThreeBytes(u);
    DecodedByLead(b);
  }

  lemma ReadFour(p: int, rest: seq<byte>)
    requires 0x1_0000 <= p < 0x11_0000
    ensures Decoded([(0xF0 + p / 0x40000) as byte, (0x80 + p / 0x1000 % 64) as byte,
                     (0x80 + p / 64 % 64) as byte, (0x80 + p % 64) as byte] + rest)
         == Surrogates(p) + Decoded(rest)
  {
    FourBytes(p);
    var b := [(0xF0 + p / 0x40000) as byte, (0x80 + p / 0x1000 % 64) as byte,
              (0x80 + p / 64 % 64) as byte, (0x80 + p % 64) as byte] + rest;
    assert b[4..] == rest;
    hide Surrogates;
  }

  lemma PairOfPoint(high: unit, low: unit)
    requires IsHigh(high) && IsLow(low)
    ensures Surrogates(0x10000 + (high as int - 0xD800) * 0x400 + (low as int - 0xDC00)) == [high, low]
  {
    var a, b := high as int - 0xD800, low as int - 0xDC00;
    assert (a * 0x400 + b) / 0x400 == a && (a * 0x400 + b) % 0x400 == b;
  }

  lemma CharReadsBack(s: Text, rest: seq<byte>)
    requires s != []
    ensures Decoded(CharBytes(s) + rest) == CharScrubbed(s) + Decoded(rest)
  {
    hide Decoded, Surrogates;
    var u := s[0] as int;
    if u < 0x80 {
      ReadOne(u as byte, rest);
    } else if u < 0x800 {
      ReadTwo(u, rest);
    } else if PairAt(s) {
      PairOfPoint(s[0], s[1]);
      ReadFour(0x10000 + (u - 0xD800) * 0x400 + (s[1] as int - 0xDC00), rest);
    } else if IsHigh(s[0]) || IsLow(s[0]) {
      assert ThreeByteChar(0xFFFD) == [0xEF, 0xBF, 0xBD];
      ReadThree(0xFFFD, rest);
    } else {
      ReadThree(u, rest);
    }
  }

  lemma ReadOne(b: byte, rest: seq<byte>)
    requires b < 0x80
    ensures Decoded([b] + rest) == [b as unit] + Decoded(rest)
  {
    assert ([b] + rest)[1..] == rest;
  }

  /** What `Encode` writes reads back as the text, lone surrogates apart, whatever follows. */
  lemma {:induction false} EncodedReadsBack(s: Text, rest: seq<byte>)
    ensures Decoded(Encode(s) + rest) == Scrubbed(s) + Decoded(rest)
    decreases |s|
  {
    hide Decoded, CharBytes, CharScrubbed, Units;
    if s == [] {
      assert Encode(s) + rest == rest && Scrubbed(s) + Decoded(rest) == Decoded(rest);
    } else {
      var next := s[Units(s)..];
      CharReadsBack(s, Encode(next) + rest);
      EncodedReadsBack(next, rest);
      assert CharBytes(s) + (Encode(next) + rest) == Encode(s) + rest;
      assert CharScrubbed(s) + (Scrubbed(next) + Decoded(rest)) == Scrubbed(s) + Decoded(rest);
    }
  }

  // ----- When two headers are the same -----

  /** The text without the NULs at its end. */
  function NulsCut(s: Text): Text {
    if s == [] || s[|s| - 1] != 0 then s else NulsCut(s[..|s| - 1])
  }

  lemma {:induction false} ZerosReadAsNuls(s: Text, n: nat)
    ensures NulsCut(s + Decoded(Zeros(n))) == NulsCut(s)
  {
    if n == 0 {
      assert s + Decoded(Zeros(0)) == s;
    } else {
      assert Zeros(n)[1..] == Zeros(n - 1);
      DecodedZeros(n - 1);
      DecodedZeros(n);
      var t := s + Decoded(Zeros(n));
      assert t[..|t| - 1] == s + Decoded(Zeros(n - 1)) && t[|t| - 1] == 0;
      ZerosReadAsNuls(s, n - 1);
    }
  }

  lemma {:induction false} DecodedZeros(n: nat)
    ensures |Decoded(Zeros(n))| == n && forall i :: 0 <= i < n ==> Decoded(Zeros(n))[i] == 0
  {
    if n > 0 {
      assert Zeros(n)[1..] == Zeros(n - 1);
      DecodedZeros(n - 1);
    }
  }

  lemma {:induction false} EncodeOfScrubbed(s: Text)
    ensures Encode(Scrubbed(s)) == Encode(s)
    decreases |s|
  {
    if s != [] {
      var next := Scrubbed(s[Units(s)..]);
      EncodeOfScrubbed(s[Units(s)..]);
      var t := Scrubbed(s);
      assert t == CharScrubbed(s) + next && Units(t) == |CharScrubbed(s)|;
      assert t[Units(t)..] == next && CharBytes(t) == CharBytes(s);
    }
  }

  lemma {:induction false} EncodeOfNul(s: Text)
    ensures Encode(s + [0]) == Encode(s) + [0]
    decreases |s|
  {
    if s == [] {
      assert ([] + [0])[1..] == [];
      assert Encode([0]) == CharBytes([0]) + Encode([]);
    } else {
      var t := s + [0];
      assert t[0] == s[0] && (|s| > 1 ==> t[1] == s[1]) && (|s| == 1 ==> t[1] == 0);
      assert Units(t) == Units(s) && CharBytes(t) == CharBytes(s);
      assert t[Units(t)..] == s[Units(s)..] + [0];
      EncodeOfNul(s[Units(s)..]);
    }
  }

  /** The encoded text, filled up with zeros, depends on the text without its last NULs alone. */
  lemma {:induction false} FilledUp(s: Text, n: nat)
    requires |Encode(s)| <= n
    ensures |Encode(NulsCut(s))| <= n
    ensures Encode(s) + Zeros(n - |Encode(s)|) == Encode(NulsCut(s)) + Zeros(n - |Encode(NulsCut(s))|)
    decreases |s|
  {
    hide Encode;
    if s != [] && s[|s| - 1] == 0 {
      var front := s[..|s| - 1];
      assert s == front + [0];
      EncodeOfNul(front);
      FilledUp(front, n);
      var k := |Encode(front)|;
      assert Encode(front) + [0] + Zeros(n - k - 1) == Encode(front) + Zeros(n - k);
    }
  }

  /** What a header says of a name: what is kept of it, lone surrogates as U+FFFD, without NULs at the end. */
  function Carried(name: Text): Text {
    NulsCut(Scrubbed(Kept(name)))
  }

  /** The name field of a header. */
  function NameField(t: Text): seq<byte>
    requires |Encode(t)| <= NAME_MAX
  {
    Encode(t) + Zeros(NAME_MAX - |Encode(t)|)
  }

  lemma FieldTells(t: Text)
    requires |Encode(t)| <= NAME_MAX
    ensures NulsCut(Decoded(NameField(t))) == NulsCut(Scrubbed(t))
  {
    EncodedReadsBack(t, Zeros(NAME_MAX - |Encode(t)|));
    ZerosReadAsNuls(Scrubbed(t), NAME_MAX - |Encode(t)|);
  }

  lemma FieldDependsOn(t: Text)
    requires |Encode(t)| <= NAME_MAX
    ensures |Encode(NulsCut(Scrubbed(t)))| <= NAME_MAX && NameField(t) == NameField(NulsCut(Scrubbed(t)))
  {
    hide Encode, NulsCut, Scrubbed, Zeros;
    EncodeOfScrubbed(t);
    FilledUp(Scrubbed(t), NAME_MAX);
  }

  lemma NameFieldIff(a: Text, b: Text)
    requires |Encode(a)| <= NAME_MAX && |Encode(b)| <= NAME_MAX
    ensures NameField(a) == NameField(b) <==> NulsCut(Scrubbed(a)) == NulsCut(Scrubbed(b))
  {
    hide *;
    FieldTells(a);
    FieldTells(b);
    FieldDependsOn(a);
    FieldDependsOn(b);
  }

  /** For all names that can be built into a header: two headers are the same exactly when size, kind and what they
      carry of the name are. */
  lemma SameHeaderIff(s1: nat, k1: FrameKind, n1: Text, s2: nat, k2: FrameKind, n2: Text)
    requires s1 < WORD64 && s2 < WORD64 && Built(s1, k1, n1).Ok? && Built(s2, k2, n2).Ok?
    ensures Built(s1, k1, n1) == Built(s2, k2, n2) <==> s1 == s2 && k1 == k2 && Carried(n1) == Carried(n2)
  {
    var a, b := Encode(Kept(n1)), Encode(Kept(n2));
    NameFieldIff(Kept(n1), Kept(n2));
    ParsedOfHeaderBytes(s1, k1, a);
    ParsedOfHeaderBytes(s2, k2, b);
    FieldsOfHeaderBytes(s1, k1, a);
    FieldsOfHeaderBytes(s2, k2, b);
    hide Parsed, Encode;
    if s1 == s2 && k1 == k2 && NameField(Kept(n1)) == NameField(Kept(n2)) {
      NameAtTheEnd(s1, k1, a);
      NameAtTheEnd(s2, k2, b);
    }
  }

  lemma NameAtTheEnd(size: nat, kind: FrameKind, name: seq<byte>)
    requires |name| <= NAME_MAX
    ensures HeaderBytes(size, kind, name)
         == MAGIC + LittleEndian(size, 8) + [KindByte(kind)] + (name + Zeros(NAME_MAX - |name|))
  {
  }
}
