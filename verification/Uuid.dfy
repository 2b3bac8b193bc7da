/** UUID version 5 from a serial number, over an abstract SHA-1. */
module Uuid {
  import opened Options

  type Digest = h: seq<bv8> | |h| == 20 witness seq(20, _ => 0)

  const NAMESPACE_DNS: seq<bv8> := [
    0x6b, 0xa7, 0xb8, 0x10, 0x9d, 0xad, 0x11, 0xd1, 0x80, 0xb4, 0x00, 0xc0, 0x4f, 0xd4, 0x30, 0xc8
  ]

  function HexDigit(n: bv8): char {
    if n == 0 then '0' else if n == 1 then '1' else if n == 2 then '2' else if n == 3 then '3'
    else if n == 4 then '4' else if n == 5 then '5' else if n == 6 then '6' else if n == 7 then '7'
    else if n == 8 then '8' else if n == 9 then '9' else if n == 10 then 'a' else if n == 11 then 'b'
    else if n == 12 then 'c' else if n == 13 then 'd' else if n == 14 then 'e' else 'f'
  }

  /** The digit of a value below 16 in its place among the sixteen. */
  lemma HexDigits(n: nat)
    requires n < 16
    ensures HexDigit(n as bv8) == "0123456789abcdef"[n]
  {}

  function HexValue(c: char): Option<bv8> {
    if c == '0' then Some(0) else if c == '1' then Some(1) else if c == '2' then Some(2)
    else if c == '3' then Some(3) else if c == '4' then Some(4) else if c == '5' then Some(5)
    else if c == '6' then Some(6) else if c == '7' then Some(7) else if c == '8' then Some(8)
    else if c == '9' then Some(9) else if c == 'a' then Some(10) else if c == 'b' then Some(11)
    else if c == 'c' then Some(12) else if c == 'd' then Some(13) else if c == 'e' then Some(14)
    else if c == 'f' then Some(15) else None
  }

  function HexByte(b: bv8): (char, char) { (HexDigit(b >> 4), HexDigit(b & 0x0F)) }

  function HexPair(hi: char, lo: char): Option<bv8> {
    match (HexValue(hi), HexValue(lo))
    case (Some(h), Some(l)) => Some((h << 4) | l)
    case _ => None
  }

  /** Two characters for each element. */
  function Render<T>(digits: T -> (char, char), xs: seq<T>): (s: string)
    ensures |s| == 2 * |xs|
  {
    if xs == [] then []
    else
      var d := digits(xs[|xs| - 1]);
      Render(digits, xs[..|xs| - 1]) + [d.0, d.1]
  }

  function Read<T>(value: (char, char) -> Option<T>, s: string): (r: Option<seq<T>>)
    ensures r.Some? ==> |s| == 2 * |r.value|
  {
    if s == [] then Some([])
    else if |s| == 1 then None
    else
      var n := |s| - 2;
      match (Read(value, s[..n]), value(s[n], s[n + 1]))
      case (Some(init), Some(x)) => Some(init + [x])
      case _ => None
  }

  /** Two lower-case digits a byte. */
  function Hex(bytes: seq<bv8>): (s: string)
    ensures |s| == 2 * |bytes|
  {
    Render(HexByte, bytes)
  }

  function ParseHex(s: string): (r: Option<seq<bv8>>)
    ensures r.Some? ==> |s| == 2 * |r.value|
  {
    Read(HexPair, s)
  }

  /** Section 3 of RFC 4122: 8-4-4-4-12 hexadecimal digits. */
  function Print(bytes: seq<bv8>): string
    requires |bytes| == 16
  {
    Dashed(Hex(bytes[0..4]), Hex(bytes[4..6]), Hex(bytes[6..8]), Hex(bytes[8..10]), Hex(bytes[10..16]))
  }

  function Dashed(a: string, b: string, c: string, d: string, e: string): string {
    a + "-" + b + "-" + c + "-" + d + "-" + e
  }

  lemma DashedParts(a: string, b: string, c: string, d: string, e: string)
    requires |a| == 8 && |b| == |c| == |d| == 4 && |e| == 12
    ensures var s := Dashed(a, b, c, d, e);
            && HasUuidForm(s)
            && s[0..8] == a && s[9..13] == b && s[14..18] == c && s[19..23] == d && s[24..36] == e
  {}

  predicate HasUuidForm(s: string) {
    |s| == 36 && s[8] == s[13] == s[18] == s[23] == '-'
  }

  /** The namespace is the one that appendix C of RFC 4122 gives for names of the domain system. */
  lemma NamespaceText()
    ensures Print(NAMESPACE_DNS) == "6ba7b810-9dad-11d1-80b4-00c04fd430c8"
  {
    NamespaceGroups();
    NamespaceFirstGroup();
    NamespaceMiddleGroups();
    NamespaceLastGroup();
  }

  lemma NamespaceGroups()
    ensures NAMESPACE_DNS[0..4] == [0x6b, 0xa7] + [0xb8, 0x10] && NAMESPACE_DNS[4..6] == [0x9d, 0xad]
    ensures NAMESPACE_DNS[6..8] == [0x11, 0xd1] && NAMESPACE_DNS[8..10] == [0x80, 0xb4]
    ensures NAMESPACE_DNS[10..16] == [0x00, 0xc0] + [0x4f, 0xd4] + [0x30, 0xc8]
  {}

  lemma NamespaceFirstGroup()
    ensures Hex([0x6b, 0xa7] + [0xb8, 0x10]) == "6ba7b810"
  {
    HexTwo([], 0x6b, 0xa7);
    HexTwo([0x6b, 0xa7], 0xb8, 0x10);
  }

  lemma NamespaceMiddleGroups()
    ensures Hex([0x9d, 0xad]) == "9dad" && Hex([0x11, 0xd1]) == "11d1" && Hex([0x80, 0xb4]) == "80b4"
  {
    HexTwo([], 0x9d, 0xad);
    HexTwo([], 0x11, 0xd1);
    HexTwo([], 0x80, 0xb4);
  }

  lemma NamespaceLastGroup()
    ensures Hex([0x00, 0xc0] + [0x4f, 0xd4] + [0x30, 0xc8]) == "00c04fd430c8"
  {
    HexTwo([], 0x00, 0xc0);
    HexTwo([0x00, 0xc0], 0x4f, 0xd4);
    HexTwo([0x00, 0xc0] + [0x4f, 0xd4], 0x30, 0xc8);
  }

  lemma HexTwo(bytes: seq<bv8>, a: bv8, b: bv8)
    ensures Hex(bytes + [a, b]) == Hex(bytes) + [HexByte(a).0, HexByte(a).1, HexByte(b).0, HexByte(b).1]
    ensures Hex([a, b]) == [HexByte(a).0, HexByte(a).1, HexByte(b).0, HexByte(b).1]
  {
    RenderTwo(HexByte, bytes, a, b);
    RenderTwo(HexByte, [], a, b);
    assert [] + [a, b] == [a, b];
  }

  lemma RenderTwo<T>(digits: T -> (char, char), xs: seq<T>, a: T, b: T)
    ensures Render(digits, xs + [a, b]) ==
            Render(digits, xs) + [digits(a).0, digits(a).1, digits(b).0, digits(b).1]
  {
    assert (xs + [a, b])[..|xs| + 1] == xs + [a];
    assert (xs + [a])[..|xs|] == xs;
  }

  /** An independent reader of that form. */
  function Parse(s: string): Option<seq<bv8>> {
    if !HasUuidForm(s) then None
    else
      match (ParseHex(s[0..8]), ParseHex(s[9..13]), ParseHex(s[14..18]), ParseHex(s[19..23]), ParseHex(s[24..36]))
      case (Some(a), Some(b), Some(c), Some(d), Some(e)) => Some(a + b + c + d + e)
      case _ => None
  }

  /** The first 16 hash bytes with the version (section 4.1.3) and variant (section 4.1.1) bits replaced. */
  function Stamp(hash: Digest): (r: seq<bv8>)
    ensures |r| == 16
  {
    hash[..16][6 := (hash[6] & 0x0F) | 0x50][8 := (hash[8] & 0x3F) | 0x80]
  }

  lemma NibbleRoundTrip(b: bv8)
    ensures HexValue(HexDigit(b >> 4)) == Some(b >> 4)
    ensures HexValue(HexDigit(b & 0x0F)) == Some(b & 0x0F)
    ensures ((b >> 4) << 4) | (b & 0x0F) == b
  {
    assert b >> 4 < 16 && b & 0x0F < 16;
  }

  /** What is read back element by element is read back as a whole. */
  lemma {:induction false} ReadRendered<T>(digits: T -> (char, char), value: (char, char) -> Option<T>, xs: seq<T>)
    requires forall i :: 0 <= i < |xs| ==> value(digits(xs[i]).0, digits(xs[i]).1) == Some(xs[i])
    ensures Read(value, Render(digits, xs)) == Some(xs)
  {
    if xs != [] {
      var init := xs[..|xs| - 1];
      ReadRendered(digits, value, init);
      var s := Render(digits, xs);
      assert s[..|s| - 2] == Render(digits, init);
      assert xs == init + [xs[|xs| - 1]];
    }
  }

  lemma HexRoundTrip(bytes: seq<bv8>)
    ensures ParseHex(Hex(bytes)) == Some(bytes)
  {
    forall i | 0 <= i < |bytes| ensures HexPair(HexByte(bytes[i]).0, HexByte(bytes[i]).1) == Some(bytes[i]) {
      NibbleRoundTrip(bytes[i]);
    }
    ReadRendered(HexByte, HexPair, bytes);
  }

  lemma PrintRoundTrip(bytes: seq<bv8>)
    requires |bytes| == 16
    ensures HasUuidForm(Print(bytes)) && Parse(Print(bytes)) == Some(bytes)
  {
    var a, b, c, d, e := bytes[0..4], bytes[4..6], bytes[6..8], bytes[8..10], bytes[10..16];
    HexRoundTrip(a); HexRoundTrip(b); HexRoundTrip(c); HexRoundTrip(d); HexRoundTrip(e);
    ParseDashed(Hex(a), Hex(b), Hex(c), Hex(d), Hex(e), a, b, c, d, e);
    Rejoin(bytes);
  }

  lemma ParseDashed(a: string, b: string, c: string, d: string, e: string,
                    x: seq<bv8>, y: seq<bv8>, z: seq<bv8>, v: seq<bv8>, w: seq<bv8>)
    requires |a| == 8 && |b| == |c| == |d| == 4 && |e| == 12
    requires ParseHex(a) == Some(x) && ParseHex(b) == Some(y) && ParseHex(c) == Some(z)
    requires ParseHex(d) == Some(v) && ParseHex(e) == Some(w)
    ensures HasUuidForm(Dashed(a, b, c, d, e))
    ensures Parse(Dashed(a, b, c, d, e)) == Some(x + y + z + v + w)
  {
    DashedParts(a, b, c, d, e);
  }

  lemma Rejoin(bytes: seq<bv8>)
    requires |bytes| == 16
    ensures bytes[0..4] + bytes[4..6] + bytes[6..8] + bytes[8..10] + bytes[10..16] == bytes
  {}

  /** The hash bits that survive: all of the first 16 bytes but the six version and variant bits. */
  ghost predicate SameFreeBits(g: Digest, h: Digest) {
    && (forall i :: 0 <= i < 16 && i != 6 && i != 8 ==> g[i] == h[i])
    && g[6] & 0x0F == h[6] & 0x0F
    && g[8] & 0x3F == h[8] & 0x3F
  }

  lemma StampBits(hash: Digest)
    ensures var u := Stamp(hash);
            && (forall i :: 0 <= i < 16 && i != 6 && i != 8 ==> u[i] == hash[i])
            && u[6] >> 4 == 5 && u[6] & 0x0F == hash[6] & 0x0F
            && u[8] >> 6 == 2 && u[8] & 0x3F == hash[8] & 0x3F
  {
    StampedByte(hash[6]);
    StampedByte(hash[8]);
  }

  lemma StampedByte(b: bv8)
    ensures ((b & 0x0F) | 0x50) >> 4 == 5 && ((b & 0x0F) | 0x50) & 0x0F == b & 0x0F
    ensures ((b & 0x3F) | 0x80) >> 6 == 2 && ((b & 0x3F) | 0x80) & 0x3F == b & 0x3F
  {}

  lemma PrintInjective(x: seq<bv8>, y: seq<bv8>)
    requires |x| == |y| == 16
    ensures Print(x) == Print(y) <==> x == y
  {
    PrintRoundTrip(x);
    PrintRoundTrip(y);
  }

  lemma StampedBytesEqual(a: bv8, b: bv8)
    ensures (a & 0x0F) | 0x50 == (b & 0x0F) | 0x50 <==> a & 0x0F == b & 0x0F
    ensures (a & 0x3F) | 0x80 == (b & 0x3F) | 0x80 <==> a & 0x3F == b & 0x3F
  {}

  /** Sequences with two elements replaced. */
  lemma PatchedEqual<T>(x: seq<T>, y: seq<T>, i: nat, j: nat, a: T, b: T, c: T, d: T)
    requires |x| == |y| && i < j < |x|
    ensures x[i := a][j := b] == y[i := c][j := d] <==>
            a == c && b == d && forall k :: 0 <= k < |x| && k != i && k != j ==> x[k] == y[k]
  {
    var u, v := x[i := a][j := b], y[i := c][j := d];
    if u == v {
      assert u[i] == v[i] && u[j] == v[j];
      assert forall k :: 0 <= k < |x| && k != i && k != j ==> u[k] == x[k] && v[k] == y[k];
    }
  }

  lemma StampEqual(g: Digest, h: Digest)
    ensures Stamp(g) == Stamp(h) <==> SameFreeBits(g, h)
  {
    StampedBytesEqual(g[6], h[6]);
    StampedBytesEqual(g[8], h[8]);
    PatchedEqual(g[..16], h[..16], 6, 8, (g[6] & 0x0F) | 0x50, (g[8] & 0x3F) | 0x80,
                 (h[6] & 0x0F) | 0x50, (h[8] & 0x3F) | 0x80);
  }

  /** Two hashes give the same text exactly when they agree on the bits the format leaves free. */
  lemma TextDeterminesFreeBits(g: Digest, h: Digest)
    ensures Print(Stamp(g)) == Print(Stamp(h)) <==> SameFreeBits(g, h)
  {
    PrintInjective(Stamp(g), Stamp(h));
    StampEqual(g, h);
  }

  /** The version digit is 5 and the variant digit is one of 8, 9, a, b. */
  lemma VersionAndVariantDigits(hash: Digest)
    ensures var s := Print(Stamp(hash)); |s| == 36 && s[14] == '5' && s[19] in ['8', '9', 'a', 'b']
  {
    var u := Stamp(hash);
    var s := Print(u);
    StampBits(hash);
    FirstDigit(u[6..8]);
    FirstDigit(u[8..10]);
    DashedParts(Hex(u[0..4]), Hex(u[4..6]), Hex(u[6..8]), Hex(u[8..10]), Hex(u[10..16]));
    assert s[14] == Hex(u[6..8])[0] && s[19] == Hex(u[8..10])[0];
    VariantNibble(u[8]);
  }

  lemma VariantNibble(b: bv8)
    requires b >> 6 == 2
    ensures b >> 4 == 8 || b >> 4 == 9 || b >> 4 == 10 || b >> 4 == 11
  {}

  lemma FirstDigit(pair: seq<bv8>)
    requires |pair| == 2
    ensures Hex(pair)[0] == HexDigit(pair[0] >> 4)
  {
    assert pair[..1] == [pair[0]];
    assert [pair[0]][..0] == [];
    assert Hex([pair[0]])[0] == HexByte(pair[0]).0;
  }

  /** `formatBytes`: appends the bytes [start, end) to the stream. */
  method FormatBytes(stream: string, bytes: array<bv8>, start: nat, end: nat) returns (out: string)
    requires start <= end <= bytes.Length
    ensures out == stream + Hex(bytes[start..end])
  {
    out := stream;
    var i := start;
    while i < end
      invariant start <= i <= end && out == stream + Hex(bytes[start..i])
    {
      assert bytes[start..i + 1][..i - start] == bytes[start..i];
      var digits := HexByte(bytes[i]);
      out := out + [digits.0, digits.1];
      i := i + 1;
    }
  }

  method Format(bytes: array<bv8>) returns (uuid: string)
    requires bytes.Length == 16
    ensures uuid == Print(bytes[..])
  {
    ghost var u := bytes[..];
    assert bytes[0..4] == u[0..4] && bytes[4..6] == u[4..6] && bytes[6..8] == u[6..8];
    assert bytes[8..10] == u[8..10] && bytes[10..16] == u[10..16];
    uuid := FormatBytes("", bytes, 0, 4);
    assert uuid == Hex(u[0..4]);
    uuid := FormatBytes(uuid + "-", bytes, 4, 6);
    assert uuid == Hex(u[0..4]) + "-" + Hex(u[4..6]);
    uuid := FormatBytes(uuid + "-", bytes, 6, 8);
    uuid := FormatBytes(uuid + "-", bytes, 8, 10);
    uuid := FormatBytes(uuid + "-", bytes, 10, 16);
  }

  /** `sha1` answers `None` when the hash computation fails. */
  method GenerateUuidV5(serialNumber: seq<bv8>, sha1: seq<bv8> -> Option<Digest>) returns (uuid: string)
    ensures uuid == "" <==> serialNumber == [] || sha1(NAMESPACE_DNS + serialNumber) == None
    ensures uuid != "" ==> Parse(uuid) == Some(Stamp(sha1(NAMESPACE_DNS + serialNumber).value))
    ensures uuid != "" ==> HasUuidForm(uuid) && uuid[14] == '5' && uuid[19] in ['8', '9', 'a', 'b']
  {
    if serialNumber == [] {
      return "";
    }
    var data := NAMESPACE_DNS + serialNumber;
    var result := sha1(data);
    if result == None {
      return "";
    }
    var hash: Digest := result.value;
    var uuidBytes := new bv8[16](i requires 0 <= i < 16 => hash[i]);
    uuidBytes[6] := (uuidBytes[6] & 0x0F) | 0x50;
    uuidBytes[8] := (uuidBytes[8] & 0x3F) | 0x80;
    assert uuidBytes[..] == Stamp(hash);
    uuid := Format(uuidBytes);
    PrintRoundTrip(Stamp(hash));
    VersionAndVariantDigits(hash);
  }
}
