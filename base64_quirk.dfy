/** What the base64 branch of `formatUUID` does with a canonical UUID: the
    byte loop (src/uuid-generator.js:323-328) walks the hyphenated string two
    characters at a time, so it never reads the characters at 9 and 19, and
    the pairs starting at 12 and 22 end in a hyphen. The result is 16 byte
    values that are not the UUID's 16 bytes. */
module Base64Quirk {
  import opened Wrappers
  import opened UuidFormat
  import Base64

  /** The characters the byte loop looks at in a canonical UUID: the even
      indices, of which only 8 and 18 hold hyphens. */
  predicate EvenIndicesAsCanonical(u: string)
  {
    && |u| == 36 && u[8] == '-' && u[18] == '-'
    && u[0] != '-' && u[2] != '-' && u[4] != '-' && u[6] != '-' && u[10] != '-' && u[12] != '-'
    && u[14] != '-' && u[16] != '-' && u[20] != '-' && u[22] != '-' && u[24] != '-' && u[26] != '-'
    && u[28] != '-' && u[30] != '-' && u[32] != '-' && u[34] != '-'
  }

  lemma CanonicalEvenIndices(u: string)
    requires IsCanonical(u)
    ensures EvenIndicesAsCanonical(u)
  {
  }

  /** The index at which the byte loop reads its `k`-th value in a
      canonical UUID: every even index except the hyphens at 8 and 18. */
  function PairStart(k: int): int
  {
    if k < 4 then 2 * k else if k < 8 then 2 * k + 2 else 2 * k + 4
  }

  lemma PairValuesFrom28(u: string)
    requires EvenIndicesAsCanonical(u)
    ensures PairValues(u, 28) == [ReadPair(u, 28)] + ([ReadPair(u, 30)] + ([ReadPair(u, 32)] + [ReadPair(u, 34)]))
  {
    PairValuesStep(u, 34);
    assert PairValues(u, 36) == [];
    PairValuesStep(u, 32);
    PairValuesStep(u, 30);
    PairValuesStep(u, 28);
  }

  lemma PairValuesFrom20(u: string)
    requires EvenIndicesAsCanonical(u)
    ensures PairValues(u, 20) == [ReadPair(u, 20)] + ([ReadPair(u, 22)] + ([ReadPair(u, 24)] + ([ReadPair(u, 26)] + PairValues(u, 28))))
  {
    PairValuesStep(u, 26);
    PairValuesStep(u, 24);
    PairValuesStep(u, 22);
    PairValuesStep(u, 20);
  }

  lemma PairValuesFrom10(u: string)
    requires EvenIndicesAsCanonical(u)
    ensures PairValues(u, 10) == [ReadPair(u, 10)] + ([ReadPair(u, 12)] + ([ReadPair(u, 14)] + ([ReadPair(u, 16)] + PairValues(u, 20))))
  {
    PairValuesSkip(u, 18);
    PairValuesStep(u, 16);
    PairValuesStep(u, 14);
    PairValuesStep(u, 12);
    PairValuesStep(u, 10);
  }

  lemma PairValuesFrom0(u: string)
    requires EvenIndicesAsCanonical(u)
    ensures PairValues(u, 0) == [ReadPair(u, 0)] + ([ReadPair(u, 2)] + ([ReadPair(u, 4)] + ([ReadPair(u, 6)] + PairValues(u, 10))))
  {
    PairValuesSkip(u, 8);
    PairValuesStep(u, 6);
    PairValuesStep(u, 4);
    PairValuesStep(u, 2);
    PairValuesStep(u, 0);
  }

  /** Four reads in a row, starting with the `n`-th, followed by `rest`. */
  predicate IsQuad(u: string, vs: seq<Option<nat>>, n: nat, rest: seq<Option<nat>>)
    requires EvenIndicesAsCanonical(u) && n <= 12
  {
    vs == [ReadPair(u, PairStart(n))] + ([ReadPair(u, PairStart(n + 1))] + ([ReadPair(u, PairStart(n + 2))] + ([ReadPair(u, PairStart(n + 3))] + rest)))
  }

  /** Four quadruples of reads make the sixteen reads of the loop. */
  lemma QuadsCombine(u: string, v0: seq<Option<nat>>, v10: seq<Option<nat>>, v20: seq<Option<nat>>, v28: seq<Option<nat>>)
    requires EvenIndicesAsCanonical(u)
    requires IsQuad(u, v0, 0, v10) && IsQuad(u, v10, 4, v20) && IsQuad(u, v20, 8, v28) && IsQuad(u, v28, 12, [])
    ensures |v0| == 16
    ensures forall k :: 0 <= k < 16 ==> v0[k] == ReadPair(u, PairStart(k))
  {
    forall k | 0 <= k < 16 ensures v0[k] == ReadPair(u, PairStart(k)) {
      if k >= 4 { assert v0[k] == v10[k - 4]; }
      if k >= 8 { assert v10[k - 4] == v20[k - 8]; }
      if k >= 12 { assert v20[k - 8] == v28[k - 12]; }
    }
  }

  /** The byte loop reads a canonical UUID at the 16 indices 0, 2, 4, 6, 10,
      12, 14, 16, 20, 22, 24, ..., 34: every even index except the hyphens at
      8 and 18. */
  lemma PairValuesOfCanonical(u: string)
    requires IsCanonical(u)
    ensures |PairValues(u, 0)| == 16
    ensures forall k :: 0 <= k < 16 ==> PairValues(u, 0)[k] == ReadPair(u, PairStart(k))
  {
    CanonicalEvenIndices(u);
    PairValuesFrom0(u);
    PairValuesFrom10(u);
    PairValuesFrom20(u);
    PairValuesFrom28(u);
    QuadsCombine(u, PairValues(u, 0), PairValues(u, 10), PairValues(u, 20), PairValues(u, 28));
  }

  /** The `k`-th byte of a canonical UUID, read from its hex digits. */
  lemma UuidByteAt(u: string, k: int)
    requires IsCanonical(u) && 0 <= k < 16
    ensures IsHexDigit(u[DigitPosition(2 * k)]) && IsHexDigit(u[DigitPosition(2 * k + 1)])
    ensures UuidBytes(u)[k] == 16 * HexDigitValue(u[DigitPosition(2 * k)]) + HexDigitValue(u[DigitPosition(2 * k + 1)])
  {
    HexDigitsOfCanonical(u);
  }

  /** The `k`-th byte value the loop hands to `btoa`. */
  lemma LoopByteAt(u: string, k: int)
    requires IsCanonical(u) && 0 <= k < 16
    ensures |Base64Input(u)| == 16
    ensures Base64Input(u)[k] == CharCode(ReadPair(u, PairStart(k)))
  {
    PairValuesOfCanonical(u);
    PairValuesAreBytes(u, 0);
  }

  /** Two hex digits read as one byte. */
  lemma ReadHexPair(u: string, i: nat)
    requires i + 2 <= |u| && IsHexDigit(u[i]) && IsHexDigit(u[i + 1])
    ensures CharCode(ReadPair(u, i)) == 16 * HexDigitValue(u[i]) + HexDigitValue(u[i + 1])
  {
  }

  /** A hex digit followed by a hyphen: `parseInt` stops at the hyphen. */
  lemma ReadHexBeforeHyphen(u: string, i: nat)
    requires i + 2 <= |u| && IsHexDigit(u[i]) && u[i + 1] == '-'
    ensures CharCode(ReadPair(u, i)) == HexDigitValue(u[i])
  {
  }

  /** Outside the second and fourth groups the loop reads the UUID's own
      bytes. */
  lemma LoopBytesAgree(u: string, k: int)
    requires IsCanonical(u) && 0 <= k < 16 && k != 4 && k != 5 && k != 8 && k != 9
    ensures |Base64Input(u)| == 16
    ensures Base64Input(u)[k] == UuidBytes(u)[k]
  {
    LoopByteAt(u, k);
    UuidByteAt(u, k);
    assert PairStart(k) == DigitPosition(2 * k) && PairStart(k) + 1 == DigitPosition(2 * k + 1);
    ReadHexPair(u, PairStart(k));
  }

  /** The two hex digits of a byte. */
  lemma ByteDigits(hi: nat, lo: nat)
    requires hi < 16 && lo < 16
    ensures (16 * hi + lo) / 16 == hi && (16 * hi + lo) % 16 == lo
  {
  }

  /** In the second group (the four digits after the first hyphen) and the
      fourth, the loop starts one character late: its first byte straddles
      two of the UUID's bytes and its second is the last digit alone. */
  lemma LoopBytesShifted(u: string, k: int)
    requires IsCanonical(u) && (k == 4 || k == 8)
    ensures |Base64Input(u)| == 16
    ensures Base64Input(u)[k] == UuidBytes(u)[k] % 16 * 16 + UuidBytes(u)[k + 1] / 16
    ensures Base64Input(u)[k + 1] == UuidBytes(u)[k + 1] % 16
  {
    var p := PairStart(k);
    assert DigitPosition(2 * k + 1) == p && DigitPosition(2 * k + 2) == p + 1;
    assert DigitPosition(2 * k) == p - 1 && DigitPosition(2 * k + 3) == p + 2;
    assert PairStart(k + 1) == p + 2 && IsHyphenPosition(p + 3);
    LoopByteAt(u, k);
    LoopByteAt(u, k + 1);
    UuidByteAt(u, k);
    UuidByteAt(u, k + 1);
    ReadHexPair(u, p);
    ReadHexBeforeHyphen(u, p + 2);
    ByteDigits(HexDigitValue(u[p - 1]), HexDigitValue(u[p]));
    ByteDigits(HexDigitValue(u[p + 1]), HexDigitValue(u[p + 2]));
  }

  /** The 16 values the base64 branch encodes, against the UUID's 16 bytes:
      equal at 12 positions, shifted by one hex digit at 4 and 8, and the
      lone trailing digit at 5 and 9. */
  lemma Base64BytesOfCanonical(u: string)
    requires IsCanonical(u)
    ensures var b, t := Base64Input(u), UuidBytes(u);
      && |b| == 16
      && (forall k :: 0 <= k < 16 && k != 4 && k != 5 && k != 8 && k != 9 ==> b[k] == t[k])
      && b[4] == t[4] % 16 * 16 + t[5] / 16 && b[5] == t[5] % 16
      && b[8] == t[8] % 16 * 16 + t[9] / 16 && b[9] == t[9] % 16
  {
    LoopByteAt(u, 0);
    forall k | 0 <= k < 16 && k != 4 && k != 5 && k != 8 && k != 9
      ensures Base64Input(u)[k] == UuidBytes(u)[k]
    {
      LoopBytesAgree(u, k);
    }
    LoopBytesShifted(u, 4);
    LoopBytesShifted(u, 8);
  }

  /** The base64 branch encodes what the loop collected. */
  lemma Base64Branch(u: string, s: Settings, toBinary: string -> string)
    requires s.format == "base64"
    ensures Format(u, s, toBinary) == Base64.Encode(Base64Input(u))
  {
  }

  /** The base64 rendering of a canonical UUID: 24 characters ending in
      `==` (16 bytes leave one byte over), which decode to the loop's 16
      values. */
  lemma Base64Format(u: string, s: Settings, toBinary: string -> string)
    requires IsCanonical(u) && s.format == "base64"
    ensures var r := Format(u, s, toBinary);
      && |r| == 24 && r[22] == '=' && r[23] == '=' && Base64.IsSymbol(r[21])
      && Base64.Decode(r) == Some(Base64Input(u))
  {
    var bs := Base64Input(u);
    LoopByteAt(u, 0);
    Base64Branch(u, s, toBinary);
    Base64.EncodeLength(bs);
    Base64.EncodeDoublePadded(bs);
    Base64.DecodeEncode(bs);
  }

  /** A read of two characters depends on those two characters only. */
  lemma ReadPairLocal(u: string, v: string, i: nat)
    requires i + 2 <= |u| && i + 2 <= |v| && u[i] == v[i] && u[i + 1] == v[i + 1]
    ensures ReadPair(u, i) == ReadPair(v, i)
  {
  }

  /** The loop never reads the first digit of the second group (index 9)
      nor that of the fourth (index 19): UUIDs differing only there have
      the same base64 rendering. */
  lemma Base64IgnoresSkippedDigits(u: string, v: string, s: Settings, toBinary: string -> string)
    requires IsCanonical(u) && IsCanonical(v) && s.format == "base64"
    requires forall i :: 0 <= i < 36 && i != 9 && i != 19 ==> u[i] == v[i]
    ensures Format(u, s, toBinary) == Format(v, s, toBinary)
  {
    LoopByteAt(u, 0);
    LoopByteAt(v, 0);
    forall k | 0 <= k < 16 ensures Base64Input(u)[k] == Base64Input(v)[k] {
      LoopByteAt(u, k);
      LoopByteAt(v, k);
      ReadPairLocal(u, v, PairStart(k));
    }
    assert Base64Input(u) == Base64Input(v);
    Base64Branch(u, s, toBinary);
    Base64Branch(v, s, toBinary);
  }

  /** Hence the base64 format is not injective: changing the digit at index
      9 to one of another value gives another UUID, with another fifth
      byte, and the same rendering. */
  lemma Base64NotInjective(u: string, c: char, s: Settings, toBinary: string -> string)
    requires IsCanonical(u) && s.format == "base64"
    requires IsHexDigit(c) && IsHexDigit(u[9]) && HexDigitValue(c) != HexDigitValue(u[9])
    ensures IsCanonical(u[9 := c])
    ensures UuidBytes(u[9 := c])[4] != UuidBytes(u)[4]
    ensures Format(u[9 := c], s, toBinary) == Format(u, s, toBinary)
  {
    var v := u[9 := c];
    assert IsCanonical(v) by {
      forall i | 0 <= i < 36 ensures if IsHyphenPosition(i) then v[i] == '-' else IsHexDigit(v[i]) {
        if i != 9 { assert v[i] == u[i]; }
      }
    }
    UuidByteAt(u, 4);
    UuidByteAt(v, 4);
    assert DigitPosition(8) == 9 && DigitPosition(9) == 10;
    Base64IgnoresSkippedDigits(v, u, s, toBinary);
  }

  /** Bytes 8 and 9 as the loop reads them and as the UUID holds them, in
      terms of the digits at 19 to 22. */
  lemma FourthGroupBytes(u: string)
    requires IsCanonical(u)
    ensures IsHexDigit(u[19]) && IsHexDigit(u[20]) && IsHexDigit(u[21]) && IsHexDigit(u[22])
    ensures |Base64Input(u)| == 16
    ensures Base64Input(u)[8] == 16 * HexDigitValue(u[20]) + HexDigitValue(u[21])
    ensures Base64Input(u)[9] == HexDigitValue(u[22])
    ensures UuidBytes(u)[8] == 16 * HexDigitValue(u[19]) + HexDigitValue(u[20])
    ensures UuidBytes(u)[9] == 16 * HexDigitValue(u[21]) + HexDigitValue(u[22])
  {
    LoopByteAt(u, 8);
    LoopByteAt(u, 9);
    UuidByteAt(u, 8);
    UuidByteAt(u, 9);
    assert PairStart(8) == 20 && PairStart(9) == 22;
    assert DigitPosition(16) == 19 && DigitPosition(17) == 20 && DigitPosition(18) == 21 && DigitPosition(19) == 22;
    assert IsHyphenPosition(23);
    ReadHexPair(u, 20);
    ReadHexBeforeHyphen(u, 22);
  }

  /** With a variant digit of 8 or above, bytes 8 and 9 cannot both come
      out right. */
  lemma LoopBytesNotUuidBytes(u: string)
    requires IsCanonical(u) && IsHexDigit(u[19]) && HexDigitValue(u[19]) >= 8
    ensures Base64Input(u) != UuidBytes(u)
  {
    FourthGroupBytes(u);
    var a, b, c, d := HexDigitValue(u[19]), HexDigitValue(u[20]), HexDigitValue(u[21]), HexDigitValue(u[22]);
    assert 16 * b + c != 16 * a + b || d != 16 * c + d;
  }

  /** What the base64 format encodes is never the UUID's 16 bytes when the
      variant digit (index 19) is 8 or above, as it is for every UUID of the
      RFC 4122 variant. */
  lemma Base64NotUuidBytes(u: string, s: Settings, toBinary: string -> string)
    requires IsCanonical(u) && s.format == "base64"
    requires IsHexDigit(u[19]) && HexDigitValue(u[19]) >= 8
    ensures Base64.Decode(Format(u, s, toBinary)) != Some(UuidBytes(u))
  {
    Base64Format(u, s, toBinary);
    LoopBytesNotUuidBytes(u);
  }
}
