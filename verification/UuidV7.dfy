/** Deterministic UUIDv7 generation (section 5.7 of RFC 9562): 48 bits of milliseconds, the
    version, 12 bits of sequence, the variant and 62 bits of an entropy hash. */
module UuidV7 {
  import opened Text

  const NANOS_PER_MILLI := 1_000_000

  function UnixMilli(t: int): int { t / NANOS_PER_MILLI }

  /** `x` shifted right by `k` bytes. */
  function ShiftBytes(x: int, k: nat): int
    decreases k
  {
    if k == 0 then x else ShiftBytes(x / 256, k - 1)
  }

  function ByteAt(x: int, k: nat): (b: int)
    ensures 0 <= b < 256
  {
    ShiftBytes(x, k) % 256
  }

  /** Byte `j` of 16.  The version and variant bits do not overlap what they are joined with,
      so joining is addition. */
  function LayoutByte(ms: int, sequence: nat, node: nat, j: nat): (b: int)
    requires j < 16
    ensures 0 <= b < 256
  {
    if j < 6 then ByteAt(ms, 5 - j)
    else if j == 6 then 0x70 + ByteAt(sequence, 1) % 16
    else if j == 7 then ByteAt(sequence, 0)
    else if j == 8 then 0x80 + ByteAt(node, 7) % 64
    else ByteAt(node, 15 - j)
  }

  predicate IsBytes(b: seq<int>) {
    |b| == 16 && forall i :: 0 <= i < 16 ==> 0 <= b[i] < 256
  }

  function Layout(ms: int, sequence: nat, node: nat): (b: seq<int>)
    ensures IsBytes(b)
  {
    seq(16, j requires 0 <= j < 16 => LayoutByte(ms, sequence, node, j))
  }

  function Digit(n: int): char
    requires 0 <= n < 16
  {
    if n < 10 then '0' + n as char else 'a' + (n - 10) as char
  }

  predicate IsDash(p: nat) { p == 8 || p == 13 || p == 18 || p == 23 }

  /** Groups of 4, 2, 2, 2 and 6 bytes in hexadecimal, joined by dashes: the number of dashes
      before position `p`. */
  function Dashes(p: nat): nat {
    if p < 8 then 0 else if p < 13 then 1 else if p < 18 then 2 else if p < 23 then 3 else 4
  }

  function FormatChar(b: seq<int>, p: nat): char
    requires IsBytes(b) && p < 36
  {
    if IsDash(p) then '-'
    else
      var q := p - Dashes(p);
      if q % 2 == 0 then Digit(b[q / 2] / 16) else Digit(b[q / 2] % 16)
  }

  function Format(b: seq<int>): string
    requires IsBytes(b)
  {
    seq(36, p requires 0 <= p < 36 => FormatChar(b, p))
  }

  /** Where the two digits of byte `j` stand in the string. */
  function Position(j: nat): nat {
    2 * j + if j < 4 then 0 else if j < 6 then 1 else if j < 8 then 2 else if j < 10 then 3 else 4
  }

  lemma FormatAt(b: seq<int>, j: nat)
    requires IsBytes(b) && j < 16
    ensures Format(b)[Position(j)] == Digit(b[j] / 16)
    ensures Format(b)[Position(j) + 1] == Digit(b[j] % 16)
  {
  }

  /** FNV-1a over 64 bits. */
  const FNV_PRIME: bv64 := 1099511628211
  const FNV_OFFSET: bv64 := 14695981039346656037

  function FnvStep(hash: bv64, b: bv8): bv64 { (hash ^ (b as bv64)) * FNV_PRIME }

  function Fnv(hash: bv64, bytes: seq<bv8>): bv64 {
    if bytes == [] then hash else FnvStep(Fnv(hash, bytes[..|bytes| - 1]), bytes[|bytes| - 1])
  }

  /** The inputs of the hash besides the sequence number. */
  datatype Entropy = Entropy(headerHash: seq<bv8>, chainId: seq<bv8>, moduleName: seq<bv8>)

  function SequenceBytes(sequence: nat): seq<bv8> {
    seq(8, i requires 0 <= i < 8 => ByteAt(sequence, 7 - i) as bv8)
  }

  /** The hash of one byte string: header hash, chain, module and sequence number end to end. */
  function Node(e: Entropy, sequence: nat): nat {
    Fnv(FNV_OFFSET, e.headerHash + e.chainId + e.moduleName + SequenceBytes(sequence)) as nat
  }

  /** Hashing piece by piece is hashing the whole. */
  lemma {:induction false} FnvConcat(hash: bv64, a: seq<bv8>, b: seq<bv8>)
    ensures Fnv(Fnv(hash, a), b) == Fnv(hash, a + b)
    decreases |b|
  {
    if b == [] {
      assert a + b == a;
    } else {
      var n := |b| - 1;
      FnvConcat(hash, a, b[..n]);
      assert (a + b)[..|a + b| - 1] == a + b[..n];
    }
  }

  method HashBytes(start: bv64, bytes: seq<bv8>) returns (hash: bv64)
    ensures hash == Fnv(start, bytes)
  {
    hash := start;
    for i := 0 to |bytes|
      invariant hash == Fnv(start, bytes[..i])
    {
      assert bytes[..i + 1][..i] == bytes[..i];
      hash := FnvStep(hash, bytes[i]);
    }
    assert bytes[..|bytes|] == bytes;
  }

  method HashEntropy(e: Entropy, sequence: nat) returns (hash: nat)
    ensures hash == Node(e, sequence)
  {
    hide Fnv, SequenceBytes;
    var h := HashBytes(FNV_OFFSET, e.headerHash);
    h := HashBytes(h, e.chainId);
    FnvConcat(FNV_OFFSET, e.headerHash, e.chainId);
    h := HashBytes(h, e.moduleName);
    FnvConcat(FNV_OFFSET, e.headerHash + e.chainId, e.moduleName);
    h := HashBytes(h, SequenceBytes(sequence));
    FnvConcat(FNV_OFFSET, e.headerHash + e.chainId + e.moduleName, SequenceBytes(sequence));
    return h as nat;
  }

  function Generate(t: int, e: Entropy, sequence: nat): string {
    Format(Layout(UnixMilli(t), sequence, Node(e, sequence)))
  }

  lemma LayoutOf(b: seq<int>, ms: int, sequence: nat, node: nat)
    requires |b| == 16 && forall j :: 0 <= j < 16 ==> b[j] == LayoutByte(ms, sequence, node, j)
    ensures b == Layout(ms, sequence, node)
  {
    hide LayoutByte;
  }

  method GenerateUUIDv7WithEntropy(t: int, e: Entropy, sequence: nat) returns (s: string)
    ensures s == Generate(t, e, sequence)
    ensures IsValidUUIDv7(s)
  {
    hide ByteAt, Format, Node, IsValidUUIDv7;
    var ms := UnixMilli(t);
    var node := HashEntropy(e, sequence);
    var uuid := new int[16];
    for i := 0 to 6
      invariant forall j :: 0 <= j < i ==> uuid[j] == LayoutByte(ms, sequence, node, j)
    {
      uuid[i] := ByteAt(ms, 5 - i);
    }
    uuid[6] := 0x70 + ByteAt(sequence, 1) % 16;
    uuid[7] := ByteAt(sequence, 0);
    uuid[8] := 0x80 + ByteAt(node, 7) % 64;
    for i := 9 to 16
      invariant forall j :: 0 <= j < i ==> uuid[j] == LayoutByte(ms, sequence, node, j)
    {
      uuid[i] := ByteAt(node, 15 - i);
    }
    LayoutOf(uuid[..], ms, sequence, node);
    GeneratedIsValid(ms, sequence, node);
    s := Format(uuid[..]);
  }

  predicate IsHex(c: char) { '0' <= c <= '9' || 'a' <= c <= 'f' }

  predicate IsValidUUIDv7(s: string) {
    && |s| == 36
    && (forall p :: 0 <= p < 36 ==> if IsDash(p) then s[p] == '-' else IsHex(s[p]))
    && s[14] == '7'
    && s[19] in "89ab"
  }

  /** Version 7 and the variant bits 10. */
  predicate IsMarked(b: seq<int>) { IsBytes(b) && b[6] / 16 == 7 && b[8] / 64 == 2 }

  lemma MarkedIsValid(b: seq<int>)
    requires IsMarked(b)
    ensures IsValidUUIDv7(Format(b))
  {
    forall p | 0 <= p < 36 && !IsDash(p) ensures IsHex(FormatChar(b, p)) {
    }
    FormatAt(b, 6);
    FormatAt(b, 8);
    assert 8 <= b[8] / 16 < 12;
  }

  lemma GeneratedIsValid(ms: int, sequence: nat, node: nat)
    ensures IsValidUUIDv7(Format(Layout(ms, sequence, node)))
  {
    MarkedIsValid(Layout(ms, sequence, node));
  }

  function Value(c: char): (n: int)
    requires IsHex(c)
    ensures 0 <= n < 16 && Digit(n) == c
  {
    if c <= '9' then c as int - '0' as int else c as int - 'a' as int + 10
  }

  /** The bytes that a string of the pattern spells. */
  function Parse(s: string): (b: seq<int>)
    requires IsValidUUIDv7(s)
    ensures IsBytes(b)
  {
    seq(16, j requires 0 <= j < 16 => ParsedByte(s, j))
  }

  function ParsedByte(s: string, j: nat): (b: int)
    requires IsValidUUIDv7(s) && j < 16
    ensures 0 <= b < 256 && b / 16 == Value(s[Position(j)]) && b % 16 == Value(s[Position(j) + 1])
  {
    16 * Value(s[Position(j)]) + Value(s[Position(j) + 1])
  }

  lemma ParsedIsMarked(s: string)
    requires IsValidUUIDv7(s)
    ensures IsMarked(Parse(s))
  {
    var b := Parse(s);
    assert b[6] == ParsedByte(s, 6) && b[8] == ParsedByte(s, 8);
    assert Position(6) == 14 && Position(8) == 19;
  }

  lemma FormatOfParsed(s: string)
    requires IsValidUUIDv7(s)
    ensures Format(Parse(s)) == s
  {
    var b := Parse(s);
    forall p | 0 <= p < 36 ensures s[p] == FormatChar(b, p) {
      if !IsDash(p) {
        var j := (p - Dashes(p)) / 2;
        assert Position(j) == p || Position(j) + 1 == p;
        assert b[j] == ParsedByte(s, j);
      }
    }
  }

  /** The pattern accepts exactly what sixteen bytes with these marks spell. */
  lemma ValidIffFormatted(s: string)
    ensures IsValidUUIDv7(s) <==> exists b :: IsMarked(b) && s == Format(b)
  {
    hide Format, Parse;
    if IsValidUUIDv7(s) {
      ParsedIsMarked(s);
      FormatOfParsed(s);
    }
    if b :| IsMarked(b) && s == Format(b) {
      MarkedIsValid(b);
    }
  }

  lemma FormatIsInjective(b: seq<int>, b': seq<int>)
    requires IsBytes(b) && IsBytes(b') && Format(b) == Format(b')
    ensures b == b'
  {
    forall j | 0 <= j < 16 ensures b[j] == b'[j] {
      FormatAt(b, j);
      FormatAt(b', j);
    }
  }

  /** Equal strings carry equal milliseconds (48 bits) and equal sequence numbers (12 bits). */
  lemma GeneratedIsInjective(ms: int, sequence: nat, node: nat, ms': int, sequence': nat, node': nat)
    requires Format(Layout(ms, sequence, node)) == Format(Layout(ms', sequence', node'))
    ensures forall k :: 0 <= k < 6 ==> ByteAt(ms, k) == ByteAt(ms', k)
    ensures sequence % 4096 == sequence' % 4096
  {
    var b, b' := Layout(ms, sequence, node), Layout(ms', sequence', node');
    FormatIsInjective(b, b');
    forall k | 0 <= k < 6 ensures ByteAt(ms, k) == ByteAt(ms', k) {
      assert b[5 - k] == b'[5 - k];
    }
    assert b[6] == b'[6] && b[7] == b'[7];
    LowBits(sequence);
    LowBits(sequence');
  }

  lemma LowBits(sequence: nat)
    ensures sequence % 4096 == ByteAt(sequence, 1) % 16 * 256 + ByteAt(sequence, 0)
  {
    assert ShiftBytes(sequence, 1) == ShiftBytes(sequence / 256, 0) == sequence / 256;
  }

  function Pow256(n: nat): nat { if n == 0 then 1 else 256 * Pow256(n - 1) }

  /** The most significant byte in which two numbers differ orders them. */
  lemma {:induction false} FirstDifference(a: nat, b: nat, n: nat) returns (k: nat)
    requires a < b < Pow256(n)
    ensures k < n && ByteAt(a, k) < ByteAt(b, k)
    ensures forall j :: k < j < n ==> ByteAt(a, j) == ByteAt(b, j)
    decreases n
  {
    if a / 256 == b / 256 {
      k := 0;
      forall j | 0 < j < n ensures ByteAt(a, j) == ByteAt(b, j) {
      }
    } else {
      k := FirstDifference(a / 256, b / 256, n - 1);
      forall j | k + 1 < j < n ensures ByteAt(a, j) == ByteAt(b, j) {
        assert ByteAt(a, j) == ByteAt(a / 256, j - 1) && ByteAt(b, j) == ByteAt(b / 256, j - 1);
      }
      k := k + 1;
    }
  }

  lemma PrefixAgrees(b: seq<int>, b': seq<int>, j: nat)
    requires IsBytes(b) && IsBytes(b')
    requires j < 16 && forall i :: 0 <= i < j ==> b[i] == b'[i]
    ensures forall p :: 0 <= p < Position(j) ==> Format(b)[p] == Format(b')[p]
  {
    forall p | 0 <= p < Position(j) ensures FormatChar(b, p) == FormatChar(b', p) {
      if !IsDash(p) {
        assert (p - Dashes(p)) / 2 < j;
      }
    }
  }

  /** Strings are ordered as their bytes are. */
  lemma FormatIsMonotone(b: seq<int>, b': seq<int>, j: nat)
    requires IsBytes(b) && IsBytes(b')
    requires j < 16 && b[j] < b'[j] && forall i :: 0 <= i < j ==> b[i] == b'[i]
    ensures Less(Format(b), Format(b'))
  {
    PrefixAgrees(b, b', j);
    FormatAt(b, j);
    FormatAt(b', j);
    if b[j] / 16 < b'[j] / 16 {
      LessAt(Format(b), Format(b'), Position(j));
    } else {
      LessAt(Format(b), Format(b'), Position(j) + 1);
    }
  }

  const MILLIS_LIMIT := 0x1_0000_0000_0000

  /** String order follows millisecond order, whatever the sequence numbers and hashes. */
  lemma GeneratedIsOrdered(ms: nat, sequence: nat, node: nat, ms': nat, sequence': nat, node': nat)
    requires ms < ms' < MILLIS_LIMIT
    ensures Less(Format(Layout(ms, sequence, node)), Format(Layout(ms', sequence', node')))
  {
    var b, b' := Layout(ms, sequence, node), Layout(ms', sequence', node');
    assert Pow256(6) == MILLIS_LIMIT;
    var k := FirstDifference(ms, ms', 6);
    var j := 5 - k;
    assert b[j] == ByteAt(ms, k) && b'[j] == ByteAt(ms', k);
    forall i | 0 <= i < j ensures b[i] == b'[i] {
      assert b[i] == ByteAt(ms, 5 - i) && b'[i] == ByteAt(ms', 5 - i);
    }
    FormatIsMonotone(b, b', j);
  }

  /** Numbers below 2^48 with the same six bytes are equal. */
  lemma BytesDetermine(a: nat, b: nat)
    requires a < MILLIS_LIMIT && b < MILLIS_LIMIT
    requires forall k :: 0 <= k < 6 ==> ByteAt(a, k) == ByteAt(b, k)
    ensures a == b
  {
    assert Pow256(6) == MILLIS_LIMIT;
    if a < b {
      var k := FirstDifference(a, b, 6);
    } else if b < a {
      var k := FirstDifference(b, a, 6);
    }
  }

  /** No millisecond saw more than 4096 creations: entry `k` of `births` is the millisecond in
      which sequence number `k` was used. */
  predicate RateLimited(births: seq<int>) {
    && (forall i :: 0 <= i < |births| ==> 0 <= births[i] < MILLIS_LIMIT)
    && (forall i, j :: 0 <= i < j < |births| ==> births[i] <= births[j])
    && (forall i, j :: 0 <= i < j < |births| && j - i >= 4096 ==> births[i] < births[j])
  }

  lemma CongruentGap(a: nat, b: nat)
    requires a < b && a % 4096 == b % 4096
    ensures b - a >= 4096
  {
  }

  /** Uniqueness over a run, independent of the hash: no two creations share an identifier. */
  lemma RunIsCollisionFree(births: seq<int>, first: nat, i: nat, j: nat, node: nat, node': nat)
    requires RateLimited(births)
    requires i < j < |births|
    ensures Format(Layout(births[i], first + i, node)) != Format(Layout(births[j], first + j, node'))
  {
    if Format(Layout(births[i], first + i, node)) == Format(Layout(births[j], first + j, node')) {
      GeneratedIsInjective(births[i], first + i, node, births[j], first + j, node');
      BytesDetermine(births[i], births[j]);
      CongruentGap(first + i, first + j);
    }
  }

  // ---------------------------------------------------------------- reading an identifier

  /** The number that bytes `0` to `n - 1` spell, most significant first. */
  function BigEndian(b: seq<int>, n: nat): int
    requires n <= |b|
  {
    if n == 0 then 0 else 256 * BigEndian(b, n - 1) + b[n - 1]
  }

  /** The bytes of a number, most significant first, spell its low part. */
  lemma BytesSpell(b: seq<int>, x: nat)
    requires |b| >= 6 && forall j :: 0 <= j < 6 ==> b[j] == ByteAt(x, 5 - j)
    requires x < 0x1_0000_0000_0000
    ensures BigEndian(b, 6) == x
  {
    SpellFrom(b, x, 6);
  }

  lemma {:induction false} SpellFrom(b: seq<int>, x: nat, n: nat)
    requires n <= 6 <= |b| && forall j :: 0 <= j < 6 ==> b[j] == ByteAt(x, 5 - j)
    requires x < 0x1_0000_0000_0000
    ensures BigEndian(b, n) == ShiftBytes(x, 6 - n)
    decreases n
  {
    if n == 0 {
      assert ShiftBytes(x, 6) == x / 0x1_0000_0000_0000;
    } else {
      SpellFrom(b, x, n - 1);
      ShiftOnce(x, 6 - n);
      assert b[n - 1] == ByteAt(x, 6 - n);
    }
  }

  lemma {:induction false} ShiftOnce(x: int, k: nat)
    ensures ShiftBytes(x, k + 1) == ShiftBytes(x, k) / 256
    decreases k
  {
    if k > 0 {
      ShiftOnce(x / 256, k - 1);
    }
  }

  /** What an identifier says: 48 bits of milliseconds, of which a nanosecond time has one in a
      million, 12 bits of the sequence number and 62 bits of the hash. */
  lemma IdentifierTells(t: int, e: Entropy, sequence: nat)
    requires 0 <= t / 1_000_000 < 0x1_0000_0000_0000
    ensures IsValidUUIDv7(Generate(t, e, sequence))
    ensures var b := Parse(Generate(t, e, sequence));
            && BigEndian(b, 6) == t / 1_000_000 && b[6] % 16 * 256 + b[7] == sequence % 4096
            && var hash := Fnv(FNV_OFFSET, e.headerHash + e.chainId + e.moduleName + SequenceBytes(sequence)) as nat;
               b[8] % 64 == ByteAt(hash, 7) % 64 && forall j :: 9 <= j < 16 ==> b[j] == ByteAt(hash, 15 - j)
  {
    hide Fnv, Format, Parse, BigEndian, ShiftBytes, SequenceBytes;
    var layout := Layout(UnixMilli(t), sequence, Node(e, sequence));
    MarkedIsValid(layout);
    FormatOfParsed(Format(layout));
    FormatIsInjective(Parse(Format(layout)), layout);
    BytesSpell(layout, t / 1_000_000);
    LowBits(sequence);
  }
}
