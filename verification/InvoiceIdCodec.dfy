/** Invoice ids as 128-bit numbers (library/src/invoice.rs:514-544) and as unpadded URL-safe base64 text, section 5 of
    RFC 4648 (server/src/server/api/types/invoice_id.rs:23-64). */
module InvoiceIdCodec {
  import opened Prelude
  import opened Invoices

  // ---------------------------------------------------------------------------
  // Big-endian bytes
  // ---------------------------------------------------------------------------

  function Pow256(n: nat): (r: nat)
    ensures r > 0
  {
    if n == 0 then 1 else 256 * Pow256(n - 1)
  }

  function ToBytes(v: nat, n: nat): (bs: seq<u8>)
    ensures |bs| == n
  {
    if n == 0 then [] else ToBytes(v / 256, n - 1) + [v % 256]
  }

  function FromBytes(bs: seq<u8>): nat
  {
    if |bs| == 0 then 0 else FromBytes(bs[..|bs| - 1]) * 256 + bs[|bs| - 1]
  }

  lemma {:induction false} FromToBytes(v: nat, n: nat)
    requires v < Pow256(n)
    ensures FromBytes(ToBytes(v, n)) == v
  {
    if n > 0 {
      assert v / 256 < Pow256(n - 1);
      FromToBytes(v / 256, n - 1);
      assert ToBytes(v, n)[..n - 1] == ToBytes(v / 256, n - 1);
    }
  }

  lemma {:induction false} ToFromBytes(bs: seq<u8>)
    ensures ToBytes(FromBytes(bs), |bs|) == bs
    ensures FromBytes(bs) < Pow256(|bs|)
  {
    if |bs| > 0 {
      var init, last := bs[..|bs| - 1], bs[|bs| - 1];
      ToFromBytes(init);
      assert FromBytes(bs) / 256 == FromBytes(init) && FromBytes(bs) % 256 == last;
      assert bs == init + [last];
    }
  }

  lemma {:induction false} FromBytesConcat(a: seq<u8>, b: seq<u8>)
    ensures FromBytes(a + b) == FromBytes(a) * Pow256(|b|) + FromBytes(b)
  {
    if |b| == 0 {
      assert a + b == a;
    } else {
      var init, last := b[..|b| - 1], b[|b| - 1];
      FromBytesConcat(a, init);
      assert (a + b)[..|a + b| - 1] == a + init;
      Distribute(FromBytes(a), Pow256(|init|), FromBytes(init));
    }
  }

  lemma Distribute(x: nat, p: nat, y: nat)
    ensures (x * p + y) * 256 == x * (256 * p) + y * 256
  {
  }

  lemma PowersOfInterest()
    ensures Pow256(4) == U32_LIMIT && Pow256(8) == U64_LIMIT && Pow256(16) == U128_LIMIT
  {
    assert Pow256(2) == 0x1_0000;
    assert Pow256(4) == U32_LIMIT;
    assert Pow256(6) == 0x1_0000_0000_0000;
    assert Pow256(8) == U64_LIMIT;
    assert Pow256(10) == 0x1_0000_0000_0000_0000_0000;
    assert Pow256(12) == 0x1_0000_0000_0000_0000_0000_0000;
    assert Pow256(14) == 0x1_0000_0000_0000_0000_0000_0000_0000;
  }

  // ---------------------------------------------------------------------------
  // 128-bit numbers
  // ---------------------------------------------------------------------------

  /** Major index, minor index and creation height, one after the other. */
  function IdBytes(id: InvoiceId): (bs: seq<u8>)
    ensures |bs| == 16
  {
    ToBytes(id.subIndex.major, 4) + ToBytes(id.subIndex.minor, 4) + ToBytes(id.creationHeight, 8)
  }

  lemma BytesFit(bs: seq<u8>)
    ensures |bs| == 4 ==> FromBytes(bs) < U32_LIMIT
    ensures |bs| == 8 ==> FromBytes(bs) < U64_LIMIT
    ensures |bs| == 16 ==> FromBytes(bs) < U128_LIMIT
  {
    ToFromBytes(bs);
    PowersOfInterest();
  }

  function Pack(id: InvoiceId): u128
  {
    BytesFit(IdBytes(id));
    FromBytes(IdBytes(id))
  }

  function Unpack(v: u128): InvoiceId
  {
    var bs := ToBytes(v, 16);
    BytesFit(bs[..4]); BytesFit(bs[4..8]); BytesFit(bs[8..16]);
    InvoiceId(SubIndex(FromBytes(bs[..4]), FromBytes(bs[4..8])), FromBytes(bs[8..16]))
  }

  lemma PackIsPositional(id: InvoiceId)
    ensures Pack(id) == (id.subIndex.major * U32_LIMIT + id.subIndex.minor) * U64_LIMIT + id.creationHeight
  {
    PowersOfInterest();
    var a, b, c := ToBytes(id.subIndex.major, 4), ToBytes(id.subIndex.minor, 4), ToBytes(id.creationHeight, 8);
    FromToBytes(id.subIndex.major, 4);
    FromToBytes(id.subIndex.minor, 4);
    FromToBytes(id.creationHeight, 8);
    FromBytesConcat(a, b);
    FromBytesConcat(a + b, c);
  }

  /** Packing keeps the lexicographic order of ids, strictly. */
  lemma PackKeepsOrder(a: InvoiceId, b: InvoiceId)
    ensures CompareInts(Pack(a), Pack(b)) == CompareInvoiceId(a, b)
  {
    PackIsPositional(a);
    PackIsPositional(b);
    var m, n := a.subIndex.major * U32_LIMIT + a.subIndex.minor, b.subIndex.major * U32_LIMIT + b.subIndex.minor;
    assert CompareInts(m, n) == CompareSubIndex(a.subIndex, b.subIndex);
  }

  lemma UnpackPack(id: InvoiceId)
    ensures Unpack(Pack(id)) == id
  {
    PowersOfInterest();
    ToFromBytes(IdBytes(id));
    var bs := IdBytes(id);
    assert bs[..4] == ToBytes(id.subIndex.major, 4);
    assert bs[4..8] == ToBytes(id.subIndex.minor, 4);
    assert bs[8..16] == ToBytes(id.creationHeight, 8);
    FromToBytes(id.subIndex.major, 4);
    FromToBytes(id.subIndex.minor, 4);
    FromToBytes(id.creationHeight, 8);
  }

  /** Every 128-bit number is the packing of exactly one id. */
  lemma PackUnpack(v: u128)
    ensures Pack(Unpack(v)) == v
    ensures IdBytes(Unpack(v)) == ToBytes(v, 16)
  {
    PowersOfInterest();
    var bs := ToBytes(v, 16);
    ToFromBytes(bs[..4]);
    ToFromBytes(bs[4..8]);
    ToFromBytes(bs[8..16]);
    assert bs == bs[..4] + bs[4..8] + bs[8..16];
    FromToBytes(v, 16);
  }

  /** Copy bytes into an array from a position on. */
  method CopyInto(a: array<u8>, at: nat, src: seq<u8>)
    requires at + |src| <= a.Length
    modifies a
    ensures a[..] == old(a[..])[..at] + src + old(a[..])[at + |src|..]
  {
    for i := 0 to |src|
      invariant a[..] == old(a[..])[..at] + src[..i] + old(a[..])[at + i..]
    {
      a[at + i] := src[i];
    }
    assert src[..|src|] == src;
  }

  method ToU128(id: InvoiceId) returns (v: u128)
    ensures v == Pack(id)
  {
    var bytes := new u8[16](_ => 0);
    CopyInto(bytes, 0, ToBytes(id.subIndex.major, 4));
    CopyInto(bytes, 4, ToBytes(id.subIndex.minor, 4));
    CopyInto(bytes, 8, ToBytes(id.creationHeight, 8));
    assert bytes[..] == IdBytes(id);
    BytesFit(IdBytes(id));
    v := FromBytes(bytes[..]);
  }

  method FromU128(v: u128) returns (id: InvoiceId)
    ensures id == Unpack(v)
  {
    var bytes := ToBytes(v, 16);
    var major, minor, height := new u8[4](_ => 0), new u8[4](_ => 0), new u8[8](_ => 0);
    CopyInto(major, 0, bytes[..4]);
    CopyInto(minor, 0, bytes[4..8]);
    CopyInto(height, 0, bytes[8..16]);
    assert major[..] == bytes[..4] && minor[..] == bytes[4..8] && height[..] == bytes[8..16];
    BytesFit(bytes[..4]); BytesFit(bytes[4..8]); BytesFit(bytes[8..16]);
    id := InvoiceId(SubIndex(FromBytes(major[..]), FromBytes(minor[..])), FromBytes(height[..]));
  }

  // ---------------------------------------------------------------------------
  // Base64
  // ---------------------------------------------------------------------------

  type Sextet = x: int | 0 <= x < 64

  function Symbol(n: Sextet): char
  {
    if n < 26 then 'A' + n as char
    else if n < 52 then 'a' + (n - 26) as char
    else if n < 62 then '0' + (n - 52) as char
    else if n == 62 then '-' else '_'
  }

  function Value(c: char): Option<Sextet>
  {
    if 'A' <= c <= 'Z' then Some(c as int - 'A' as int)
    else if 'a' <= c <= 'z' then Some(c as int - 'a' as int + 26)
    else if '0' <= c <= '9' then Some(c as int - '0' as int + 52)
    else if c == '-' then Some(62)
    else if c == '_' then Some(63)
    else None
  }

  const UPPER: string := "ABCDEFGHIJKLMNOPQRSTUVWXYZ"
  const LOWER: string := "abcdefghijklmnopqrstuvwxyz"
  const DIGITS: string := "0123456789"

  /** The URL-safe alphabet of section 5 of RFC 4648. */
  const ALPHABET: string := UPPER + LOWER + DIGITS + "-_"

  lemma UpperIs(n: nat)
    requires n < 26
    ensures |UPPER| == 26 && UPPER[n] as int == 65 + n
  {
  }

  lemma LowerIs(n: nat)
    requires n < 26
    ensures |LOWER| == 26 && LOWER[n] as int == 97 + n
  {
  }

  lemma DigitsAre(n: nat)
    requires n < 10
    ensures |DIGITS| == 10 && DIGITS[n] as int == 48 + n
  {
  }

  lemma SymbolIs(n: Sextet)
    ensures |ALPHABET| == 64 && Symbol(n) == ALPHABET[n]
  {
    UpperIs(if n < 26 then n else 0);
    LowerIs(if 26 <= n < 52 then n - 26 else 0);
    DigitsAre(if 52 <= n < 62 then n - 52 else 0);
  }

  /** The symbols are those of the alphabet, each standing for its position; no other character is a symbol. */
  lemma AlphabetIs(n: Sextet, c: char)
    ensures |ALPHABET| == 64
    ensures Symbol(n) == ALPHABET[n]
    ensures Value(c) == Some(n) <==> c == ALPHABET[n]
    ensures Value(c).None? <==> c !in ALPHABET
  {
    SymbolIs(n);
    if Value(c).Some? {
      SymbolIs(Value(c).value);
    } else if c in ALPHABET {
      var k: nat :| k < |ALPHABET| && ALPHABET[k] == c;
      SymbolIs(k);
    }
  }

  function Symbols(vs: seq<Sextet>): string
  {
    seq(|vs|, i requires 0 <= i < |vs| => Symbol(vs[i]))
  }

  /** None if a symbol is outside the alphabet. */
  function Values(s: string): (r: Option<seq<Sextet>>)
    ensures r.Some? ==> |r.value| == |s|
  {
    if |s| == 0 then Some([])
    else
      match (Values(s[..|s| - 1]), Value(s[|s| - 1]))
      case (Some(vs), Some(v)) => Some(vs + [v])
      case _ => None
  }

  /** Three bytes as four sextets, most significant bits first. */
  function Group(b0: int, b1: int, b2: int): (vs: seq<Sextet>)
    requires 0 <= b0 < 256 && 0 <= b1 < 256 && 0 <= b2 < 256
    ensures |vs| == 4
    ensures ((vs[0] as int * 64 + vs[1]) * 64 + vs[2]) * 64 + vs[3] == (b0 * 256 + b1) * 256 + b2
  {
    [b0 / 4, b0 % 4 * 16 + b1 / 16, b1 % 16 * 4 + b2 / 64, b2 % 64]
  }

  function Ungroup(v0: int, v1: int, v2: int, v3: int): (bs: seq<u8>)
    requires 0 <= v0 < 64 && 0 <= v1 < 64 && 0 <= v2 < 64 && 0 <= v3 < 64
    ensures |bs| == 3
    ensures (bs[0] as int * 256 + bs[1]) * 256 + bs[2] == ((v0 * 64 + v1) * 64 + v2) * 64 + v3
  {
    [v0 * 4 + v1 / 16, v1 % 16 * 16 + v2 / 4, v2 % 4 * 64 + v3]
  }

  /** Three bytes become four sextets; one or two left over become two or three, their spare bits zero. */
  function Sextets(bs: seq<u8>): seq<Sextet>
  {
    if |bs| == 0 then []
    else if |bs| == 1 then Group(bs[0], 0, 0)[..2]
    else if |bs| == 2 then Group(bs[0], bs[1], 0)[..3]
    else Group(bs[0], bs[1], bs[2]) + Sextets(bs[3..])
  }

  /** None for a lone last sextet, or spare bits that are not zero. */
  function Octets(vs: seq<Sextet>): Option<seq<u8>>
  {
    if |vs| == 0 then Some([])
    else if |vs| == 1 then None
    else if |vs| == 2 then (if vs[1] % 16 == 0 then Some(Ungroup(vs[0], vs[1], 0, 0)[..1]) else None)
    else if |vs| == 3 then (if vs[2] % 4 == 0 then Some(Ungroup(vs[0], vs[1], vs[2], 0)[..2]) else None)
    else
      match Octets(vs[4..])
      case None => None
      case Some(rest) => Some(Ungroup(vs[0], vs[1], vs[2], vs[3]) + rest)
  }

  lemma UngroupGroup(b0: u8, b1: u8, b2: u8)
    ensures var vs := Group(b0, b1, b2); Ungroup(vs[0], vs[1], vs[2], vs[3]) == [b0, b1, b2]
    ensures b2 == 0 ==> Group(b0, b1, b2)[2] % 4 == 0 && Group(b0, b1, b2)[3] == 0
    ensures b1 == b2 == 0 ==> Group(b0, b1, b2)[1] % 16 == 0 && Group(b0, b1, b2)[2] == 0
  {
    var vs := Group(b0, b1, b2);
    var bs := Ungroup(vs[0], vs[1], vs[2], vs[3]);
    assert bs[0] == b0 && bs[1] == b1 && bs[2] == b2;
  }

  lemma GroupUngroup(v0: Sextet, v1: Sextet, v2: Sextet, v3: Sextet)
    ensures var bs := Ungroup(v0, v1, v2, v3); Group(bs[0], bs[1], bs[2]) == [v0, v1, v2, v3]
    ensures v3 == 0 && v2 % 4 == 0 ==> Ungroup(v0, v1, v2, v3)[2] == 0
    ensures v2 == v3 == 0 && v1 % 16 == 0 ==> Ungroup(v0, v1, v2, v3)[1] == 0
  {
    var bs := Ungroup(v0, v1, v2, v3);
    QuotientAndRest(v0, v1 / 16);
    QuotientAndRest(v1 % 16, v2 / 4);
    QuotientAndRest(v2 % 4, v3);
    assert bs[0] / 4 == v0 && bs[0] % 4 == v1 / 16;
    assert bs[1] / 16 == v1 % 16 && bs[1] % 16 == v2 / 4;
    assert bs[2] / 64 == v2 % 4 && bs[2] % 64 == v3;
  }

  lemma QuotientAndRest(q: nat, r: nat)
    ensures r < 4 ==> (q * 4 + r) / 4 == q && (q * 4 + r) % 4 == r
    ensures r < 16 ==> (q * 16 + r) / 16 == q && (q * 16 + r) % 16 == r
    ensures r < 64 ==> (q * 64 + r) / 64 == q && (q * 64 + r) % 64 == r
  {
  }

  lemma {:induction false} ValuesOfSymbols(vs: seq<Sextet>)
    ensures Values(Symbols(vs)) == Some(vs)
  {
    if |vs| > 0 {
      var init := vs[..|vs| - 1];
      ValuesOfSymbols(init);
      assert Symbols(vs)[..|vs| - 1] == Symbols(init);
      assert vs == init + [vs[|vs| - 1]];
    }
  }

  lemma {:induction false} SymbolsOfValues(s: string)
    requires Values(s).Some?
    ensures Symbols(Values(s).value) == s
  {
    if |s| > 0 {
      var init, c := s[..|s| - 1], s[|s| - 1];
      SymbolsOfValues(init);
      assert Symbols(Values(init).value + [Value(c).value]) == Symbols(Values(init).value) + [Symbol(Value(c).value)];
      assert s == init + [c];
    }
  }

  lemma {:induction false} OctetsOfSextets(bs: seq<u8>)
    ensures Octets(Sextets(bs)) == Some(bs)
  {
    if |bs| >= 3 {
      UngroupGroup(bs[0], bs[1], bs[2]);
      OctetsOfSextets(bs[3..]);
      assert Sextets(bs)[4..] == Sextets(bs[3..]);
      assert bs == [bs[0], bs[1], bs[2]] + bs[3..];
    } else if |bs| == 2 {
      UngroupGroup(bs[0], bs[1], 0);
      assert bs == [bs[0], bs[1], 0][..2];
    } else if |bs| == 1 {
      UngroupGroup(bs[0], 0, 0);
      assert bs == [bs[0], 0, 0][..1];
    }
  }

  lemma {:induction false} SextetsOfOctets(vs: seq<Sextet>)
    requires Octets(vs).Some?
    ensures Sextets(Octets(vs).value) == vs
  {
    if |vs| >= 4 {
      GroupUngroup(vs[0], vs[1], vs[2], vs[3]);
      SextetsOfOctets(vs[4..]);
      assert Octets(vs).value[3..] == Octets(vs[4..]).value;
      assert vs == [vs[0], vs[1], vs[2], vs[3]] + vs[4..];
    } else if |vs| == 3 {
      GroupUngroup(vs[0], vs[1], vs[2], 0);
      assert vs == [vs[0], vs[1], vs[2], 0][..3];
    } else if |vs| == 2 {
      GroupUngroup(vs[0], vs[1], 0, 0);
      assert vs == [vs[0], vs[1], 0, 0][..2];
    }
  }

  function Encode(bs: seq<u8>): string { Symbols(Sextets(bs)) }

  function Decode(s: string): Option<seq<u8>>
  {
    match Values(s)
    case None => None
    case Some(vs) => Octets(vs)
  }

  /** Decoding undoes encoding, for every byte string. */
  lemma DecodeEncode(bs: seq<u8>)
    ensures Decode(Encode(bs)) == Some(bs)
  {
    ValuesOfSymbols(Sextets(bs));
    OctetsOfSextets(bs);
  }

  /** Encoding undoes decoding: no two texts decode to the same bytes. */
  lemma EncodeDecode(s: string)
    requires Decode(s).Some?
    ensures Encode(Decode(s).value) == s
  {
    SymbolsOfValues(s);
    SextetsOfOctets(Values(s).value);
  }

  // ---------------------------------------------------------------------------
  // Printed ids
  // ---------------------------------------------------------------------------

  datatype ParseError = TooLong(bytes: nat) | TooShort(bytes: nat) | InvalidCharacters

  function Print(id: InvoiceId): string { Encode(ToBytes(Pack(id), 16)) }

  function Parse(s: string): Result<InvoiceId, ParseError>
  {
    match Decode(s)
    case None => Err(InvalidCharacters)
    case Some(bytes) =>
      if |bytes| > 16 then Err(TooLong(|bytes|))
      else if |bytes| < 16 then Err(TooShort(|bytes|))
      else BytesFit(bytes); Ok(Unpack(FromBytes(bytes)))
  }

  /** Parsing undoes printing. */
  lemma ParsePrint(id: InvoiceId)
    ensures Parse(Print(id)) == Ok(id)
  {
    var bytes := ToBytes(Pack(id), 16);
    DecodeEncode(bytes);
    PowersOfInterest();
    FromToBytes(Pack(id), 16);
    UnpackPack(id);
  }

  /** Printing undoes parsing: an accepted text is the one its id prints as. */
  lemma PrintParse(s: string)
    requires Parse(s).Ok?
    ensures Print(Parse(s).value) == s
  {
    var bytes := Decode(s).value;
    EncodeDecode(s);
    BytesFit(bytes);
    PackUnpack(FromBytes(bytes));
    ToFromBytes(bytes);
  }

  lemma {:induction false} EncodedLength(bs: seq<u8>)
    ensures |Encode(bs)| == (4 * |bs| + 2) / 3
  {
    if |bs| >= 3 { EncodedLength(bs[3..]); }
  }

  /** Exactly the printed ids are accepted, all of 22 symbols. */
  lemma AcceptedIffPrinted(s: string)
    ensures Parse(s).Ok? <==> exists id :: Print(id) == s
    ensures Parse(s).Ok? ==> |s| == 22
  {
    if Parse(s).Ok? {
      PrintParse(s);
      EncodedLength(ToBytes(Pack(Parse(s).value), 16));
    }
    if id :| Print(id) == s { ParsePrint(id); }
  }

  /** Any other text is refused: as the encoding of too many or too few bytes, or as no encoding at all. */
  lemma RefusedFor(s: string, e: ParseError)
    ensures Parse(s) == Err(e) <==>
            match e
            case TooLong(n) => n > 16 && exists bs :: |bs| == n && Encode(bs) == s
            case TooShort(n) => n < 16 && exists bs :: |bs| == n && Encode(bs) == s
            case InvalidCharacters => forall bs :: Encode(bs) != s
  {
    DecodedIff(s);
    if bs :| Encode(bs) == s { DecodeEncode(bs); }
  }

  lemma DecodedIff(s: string)
    ensures forall bs :: Decode(s) == Some(bs) <==> Encode(bs) == s
  {
    forall bs
      ensures Decode(s) == Some(bs) <==> Encode(bs) == s
    {
      if Decode(s) == Some(bs) { EncodeDecode(s); }
      if Encode(bs) == s { DecodeEncode(bs); }
    }
  }
}
