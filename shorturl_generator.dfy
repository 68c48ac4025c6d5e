/**
 * The short-code generator of internal/app/generators/shorturl_generator.go:
 * SHA-256 of the link followed by the decimal owner id, reduced to a uint64,
 * written in decimal, base58-encoded, cut to 8 characters. SHA-256 and the
 * base58 library are parameters (a Codec); everything between them is modelled.
 */
module ShortURLGenerator {
  import opened Optional
  import opened Bytes
  import opened ErrorUtil

  type Digest = s: seq<uint8> | |s| == 32 witness seq(32, _ => 0)

  /** What base58.BitcoinEncoding.Encode hands back: the encoded text and an error. */
  datatype Encoding = Encoding(text: string, err: Option<Error>)

  /**
   * The two library calls: sha256Of (SHA-256 of the string's bytes) and
   * base58Encoded (the itchyny/base58-go Bitcoin encoding of a byte slice).
   */
  datatype Codec = Codec(sha256: string -> Digest, base58: seq<uint8> -> Encoding)

  const SHORT_LINK_LENGTH: nat := 8

  predicate IsDigit(c: char)
  {
    '0' <= c <= '9'
  }

  predicate AllDigits(s: string)
  {
    forall i :: 0 <= i < |s| ==> IsDigit(s[i])
  }

  function DigitChar(d: nat): (c: char)
    requires d < 10
    ensures IsDigit(c) && c as int - '0' as int == d
  {
    ('0' as int + d) as char
  }

  /** strconv.Itoa, and fmt's %d, of a non-negative integer. */
  function Decimal(n: nat): (s: string)
    ensures |s| >= 1
    ensures |s| == 1 <==> n < 10
  {
    if n < 10 then [DigitChar(n)] else Decimal(n / 10) + [DigitChar(n % 10)]
  }

  /** The number a string of decimal digits denotes. */
  function ParseDecimal(s: string): nat
    requires AllDigits(s)
  {
    if s == [] then 0 else ParseDecimal(s[..|s| - 1]) * 10 + (s[|s| - 1] as int - '0' as int)
  }

  /** Decimal writes digits only, with no leading zero unless the number is 0. */
  lemma {:induction false} DecimalCanonical(n: nat)
    ensures AllDigits(Decimal(n))
    ensures |Decimal(n)| > 1 ==> Decimal(n)[0] != '0'
    ensures Decimal(n)[0] == '0' <==> n == 0
  {
    if n >= 10 {
      DecimalCanonical(n / 10);
      var s := Decimal(n);
      assert s == Decimal(n / 10) + [DigitChar(n % 10)];
      assert s[0] == Decimal(n / 10)[0];
      forall i | 0 <= i < |s| ensures IsDigit(s[i]) {
        if i < |s| - 1 { assert s[i] == Decimal(n / 10)[i]; }
      }
    }
  }

  /** Reading back the decimal rendering gives the number. */
  lemma {:induction false} DecimalRoundTrip(n: nat)
    ensures AllDigits(Decimal(n)) && ParseDecimal(Decimal(n)) == n
  {
    DecimalCanonical(n);
    if n >= 10 {
      var s := Decimal(n);
      assert s[..|s| - 1] == Decimal(n / 10);
      DecimalRoundTrip(n / 10);
    } else {
      assert Decimal(n)[..0] == [];
    }
  }

  /** The rendering is injective: distinct numbers have distinct decimal forms. */
  lemma DecimalInjective(m: nat, n: nat)
    requires Decimal(m) == Decimal(n)
    ensures m == n
  {
    DecimalRoundTrip(m);
    DecimalRoundTrip(n);
  }

  /** The string that is hashed: the link immediately followed by the decimal owner id. */
  function HashInput(initialLink: string, userID: uint32): (r: string)
    ensures |r| == |initialLink| + |Decimal(userID)|
    ensures r[..|initialLink|] == initialLink && r[|initialLink|..] == Decimal(userID)
  {
    initialLink + Decimal(userID)
  }

  /**
   * big.Int.SetBytes(digest).Uint64(): the low 64 bits of the digest read
   * big-endian, which are its last 8 bytes.
   */
  function Low64(d: Digest): (n: nat)
    ensures n < UINT64_MODULUS
    ensures n == BigEndian(d[24..])
  {
    LowBytes(d, 8);
    Pow256Eight();
    BigEndian(d) % UINT64_MODULUS
  }

  /** []byte(fmt.Sprintf("%d", n)): the ASCII bytes of the decimal rendering. */
  function Rendered(n: nat): (bs: seq<uint8>)
    ensures |bs| == |Decimal(n)|
    ensures forall i :: 0 <= i < |bs| ==> '0' as int <= bs[i] <= '9' as int && bs[i] == Decimal(n)[i] as int
  {
    DecimalCanonical(n);
    var s := Decimal(n);
    seq(|s|, i requires 0 <= i < |s| => s[i] as int)
  }

  /** The base58 encoding of the rendered number derived from (link, owner). */
  function EncodedNumber(codec: Codec, initialLink: string, userID: uint32): Encoding
  {
    codec.base58(Rendered(Low64(codec.sha256(HashInput(initialLink, userID)))))
  }

  /** The slice finalString[:8] does not panic. */
  predicate Generable(codec: Codec, initialLink: string, userID: uint32)
  {
    |EncodedNumber(codec, initialLink, userID).text| >= SHORT_LINK_LENGTH
  }

  /** GenerateShortLink: the 8-character prefix of the encoding, and the encoder's error. */
  function GenerateShortLink(initialLink: string, userID: uint32, codec: Codec): (r: (string, Option<Error>))
    requires Generable(codec, initialLink, userID)
    ensures |r.0| == SHORT_LINK_LENGTH
    ensures r.0 <= EncodedNumber(codec, initialLink, userID).text
    ensures r.1 == EncodedNumber(codec, initialLink, userID).err
  {
    var e := EncodedNumber(codec, initialLink, userID);
    (e.text[..SHORT_LINK_LENGTH], e.err)
  }

  /** The rendered bytes are the canonical decimal digits of the number. */
  lemma RenderedIsCanonical(n: nat)
    ensures |Rendered(n)| > 1 ==> Rendered(n)[0] != '0' as int
    ensures AllDigits(Decimal(n)) && ParseDecimal(Decimal(n)) == n
  {
    DecimalRoundTrip(n);
  }

  /** The code is a function of the hashed string alone: equal inputs, equal codes. */
  lemma SameHashInputSameLink(codec: Codec, l1: string, u1: uint32, l2: string, u2: uint32)
    requires HashInput(l1, u1) == HashInput(l2, u2)
    requires Generable(codec, l1, u1)
    ensures Generable(codec, l2, u2)
    ensures GenerateShortLink(l1, u1, codec) == GenerateShortLink(l2, u2, codec)
  {
  }

  /** For one link, distinct owners hash distinct strings. */
  lemma OwnerSeparation(initialLink: string, u1: uint32, u2: uint32)
    requires u1 != u2
    ensures HashInput(initialLink, u1) != HashInput(initialLink, u2)
  {
    if HashInput(initialLink, u1) == HashInput(initialLink, u2) {
      var n := |initialLink|;
      assert HashInput(initialLink, u1)[n..] == Decimal(u1);
      assert HashInput(initialLink, u2)[n..] == Decimal(u2);
      DecimalInjective(u1, u2);
    }
  }

  /**
   * Across links the separation fails: there is no separator between link and
   * id, so ("x1", 2) and ("x", 12) hash the same string and get the same code.
   */
  lemma ConcatenationCollides(codec: Codec)
    requires Generable(codec, "x1", 2)
    ensures HashInput("x1", 2) == HashInput("x", 12)
    ensures GenerateShortLink("x1", 2, codec) == GenerateShortLink("x", 12, codec)
  {
    assert Decimal(12) == Decimal(1) + [DigitChar(2)];
    assert HashInput("x1", 2) == HashInput("x", 12);
    SameHashInputSameLink(codec, "x1", 2, "x", 12);
  }
}
