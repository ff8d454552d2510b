/** Base64 as `btoa` produces it: the encoding of section 4 of RFC 4648
    (alphabet `A`-`Z`, `a`-`z`, `0`-`9`, `+`, `/`, with `=` padding),
    applied to a string whose character codes are all below 256, i.e. to a
    sequence of bytes. `Decode` is the inverse the RFC describes; it is not
    used by the generator and serves as the reference for `Encode`. */
module Base64 {
  import opened Wrappers

  type Byte = x: int | 0 <= x < 256

  /** The characters of the base64 alphabet. */
  predicate IsSymbol(c: char)
  {
    'A' <= c <= 'Z' || 'a' <= c <= 'z' || '0' <= c <= '9' || c == '+' || c == '/'
  }

  /** The 6-bit value a symbol stands for. */
  function SymbolValue(c: char): (v: int)
    requires IsSymbol(c)
    ensures 0 <= v < 64
  {
    if 'A' <= c <= 'Z' then c as int - 'A' as int
    else if 'a' <= c <= 'z' then c as int - 'a' as int + 26
    else if '0' <= c <= '9' then c as int - '0' as int + 52
    else if c == '+' then 62
    else 63
  }

  /** The symbol of a 6-bit value (Table 1 of RFC 4648). */
  function Symbol(v: int): (c: char)
    requires 0 <= v < 64
    ensures IsSymbol(c) && SymbolValue(c) == v
  {
    if v < 26 then ('A' as int + v) as char
    else if v < 52 then ('a' as int + v - 26) as char
    else if v < 62 then ('0' as int + v - 52) as char
    else if v == 62 then '+'
    else '/'
  }

  /** One group of the encoding: the four symbols of the 24 bits `x y z`,
      of which only the first `n` bytes are real; a group of one byte ends
      in `==` and a group of two in `=`. */
  function Group(x: Byte, y: Byte, z: Byte, n: int): (r: string)
    requires 1 <= n <= 3
    requires n < 2 ==> y == 0
    requires n < 3 ==> z == 0
    ensures |r| == 4 && IsSymbol(r[0]) && IsSymbol(r[1])
    ensures r[2] == '=' <==> n == 1
    ensures r[3] == '=' <==> n < 3
    ensures r[2] != '=' ==> IsSymbol(r[2])
    ensures r[3] != '=' ==> IsSymbol(r[3])
    ensures n == 3 ==> '=' !in r
  {
    var s0, s1, s2, s3 := x / 4, x % 4 * 16 + y / 16, y % 16 * 4 + z / 64, z % 64;
    [Symbol(s0), Symbol(s1), if n == 1 then '=' else Symbol(s2), if n < 3 then '=' else Symbol(s3)]
  }

  /** Every group of three bytes becomes four symbols; a final group of one
      or two bytes is padded with `==` or `=`. */
  function Encode(bs: seq<Byte>): (r: string)
    ensures |r| % 4 == 0 && (|r| == 0 <==> |bs| == 0) && (|bs| > 0 ==> |r| >= 4)
    decreases |bs|
  {
    if |bs| == 0 then ""
    else if |bs| == 1 then Group(bs[0], 0, 0, 1)
    else if |bs| == 2 then Group(bs[0], bs[1], 0, 2)
    else Group(bs[0], bs[1], bs[2], 3) + Encode(bs[3..])
  }

  /** The encoding uses only the alphabet and the pad character. */
  lemma {:induction false} EncodeAlphabet(bs: seq<Byte>)
    ensures forall i :: 0 <= i < |Encode(bs)| ==> IsSymbol(Encode(bs)[i]) || Encode(bs)[i] == '='
    decreases |bs|
  {
    if |bs| > 3 {
      EncodeAlphabet(bs[3..]);
      var g, t := Group(bs[0], bs[1], bs[2], 3), Encode(bs[3..]);
      assert Encode(bs) == g + t;
      forall i | 0 <= i < |g + t| ensures IsSymbol((g + t)[i]) || (g + t)[i] == '=' {
        if i >= 4 { assert (g + t)[i] == t[i - 4]; }
      }
    }
  }

  /** Four symbols for every started group of three bytes. */
  lemma {:induction false} EncodeLength(bs: seq<Byte>)
    ensures |Encode(bs)| == (|bs| + 2) / 3 * 4
    decreases |bs|
  {
    if |bs| >= 3 {
      var n := |bs[3..]|;
      EncodeLength(bs[3..]);
      assert (n + 3 + 2) / 3 == (n + 2) / 3 + 1;
      assert Encode(bs) == Group(bs[0], bs[1], bs[2], 3) + Encode(bs[3..]);
    }
  }

  /** Past the first group, the encoding is the encoding of the rest. */
  lemma EncodeTail(bs: seq<Byte>)
    requires |bs| > 3
    ensures Encode(bs) == Group(bs[0], bs[1], bs[2], 3) + Encode(bs[3..])
    ensures |Encode(bs[3..])| >= 4
  {
  }

  /** The last characters of a concatenation are those of its right part. */
  lemma EndOfAppend(g: string, t: string, k: int)
    requires 1 <= k <= |t|
    ensures (g + t)[|g + t| - k] == t[|t| - k]
  {
  }

  /** A whole number of groups needs no padding. */
  lemma {:induction false} EncodeUnpadded(bs: seq<Byte>)
    requires |bs| % 3 == 0
    ensures '=' !in Encode(bs)
    decreases |bs|
  {
    if |bs| > 0 {
      EncodeUnpadded(bs[3..]);
      assert Encode(bs) == Group(bs[0], bs[1], bs[2], 3) + Encode(bs[3..]);
    }
  }

  /** One byte left over: the encoding ends in a symbol and `==`. */
  lemma {:induction false} EncodeDoublePadded(bs: seq<Byte>)
    requires |bs| % 3 == 1
    ensures var r := Encode(bs); |r| >= 4 && r[|r| - 1] == '=' && r[|r| - 2] == '=' && IsSymbol(r[|r| - 3])
    decreases |bs|
  {
    if |bs| > 3 {
      EncodeDoublePadded(bs[3..]);
      EncodeTail(bs);
      var g, t := Group(bs[0], bs[1], bs[2], 3), Encode(bs[3..]);
      EndOfAppend(g, t, 1);
      EndOfAppend(g, t, 2);
      EndOfAppend(g, t, 3);
    }
  }

  /** Two bytes left over: the encoding ends in a symbol and `=`. */
  lemma {:induction false} EncodeSinglePadded(bs: seq<Byte>)
    requires |bs| % 3 == 2
    ensures var r := Encode(bs); |r| >= 4 && r[|r| - 1] == '=' && IsSymbol(r[|r| - 2])
    decreases |bs|
  {
    if |bs| > 3 {
      EncodeSinglePadded(bs[3..]);
      EncodeTail(bs);
      var g, t := Group(bs[0], bs[1], bs[2], 3), Encode(bs[3..]);
      EndOfAppend(g, t, 1);
      EndOfAppend(g, t, 2);
    }
  }

  /** The test vectors of section 10 of RFC 4648 of at most one group, on
      the bytes of `foo`. */
  lemma RfcOneGroupVectors()
    ensures Encode([]) == ""
    ensures Encode([102]) == "Zg=="
    ensures Encode([102, 111]) == "Zm8="
    ensures Encode([102, 111, 111]) == "Zm9v"
  {
    assert [102, 111, 111][3..] == [];
  }

  /** The remaining test vectors of section 10 of RFC 4648, on the bytes of
      `foobar`: the first group, then the rest encoded on its own. */
  lemma RfcTestVectors()
    ensures Encode([102, 111, 111, 98]) == "Zm9vYg=="
    ensures Encode([102, 111, 111, 98, 97]) == "Zm9vYmE="
    ensures Encode([102, 111, 111, 98, 97, 114]) == "Zm9vYmFy"
  {
    RfcOneGroupVectors();
    var foo: seq<Byte> := [102, 111, 111];
    assert Encode(foo + [98]) == "Zm9v" + Encode([98]) by { assert (foo + [98])[3..] == [98]; }
    assert Encode(foo + [98, 97]) == "Zm9v" + Encode([98, 97]) by { assert (foo + [98, 97])[3..] == [98, 97]; }
    assert Encode(foo + [98, 97, 114]) == "Zm9v" + Encode([98, 97, 114]) by { assert (foo + [98, 97, 114])[3..] == [98, 97, 114]; }
    assert [98, 97, 114][3..] == [];
  }

  /** Decoding: groups of four symbols, the last of which may end in `=` or
      `==`; anything else is rejected. */
  function Decode(s: string): Option<seq<Byte>>
    decreases |s|
  {
    if |s| == 0 then Some([])
    else if |s| < 4 || !IsSymbol(s[0]) || !IsSymbol(s[1]) then None
    else
      var a, b := SymbolValue(s[0]), SymbolValue(s[1]);
      if |s| == 4 && s[2] == '=' && s[3] == '=' then Some([a * 4 + b / 16])
      else if !IsSymbol(s[2]) then None
      else
        var c := SymbolValue(s[2]);
        if |s| == 4 && s[3] == '=' then Some([a * 4 + b / 16, b % 16 * 16 + c / 4])
        else if !IsSymbol(s[3]) then None
        else
          var d := SymbolValue(s[3]);
          match Decode(s[4..])
          case None => None
          case Some(rest) => Some([a * 4 + b / 16, b % 16 * 16 + c / 4, c % 4 * 64 + d] + rest)
  }

  /** The bit arithmetic of one group: the four 6-bit values of three bytes
      give the bytes back. */
  lemma GroupRoundTrip(x: Byte, y: Byte, z: Byte)
    ensures x / 4 * 4 + (x % 4 * 16 + y / 16) / 16 == x
    ensures (x % 4 * 16 + y / 16) % 16 * 16 + (y % 16 * 4 + z / 64) / 4 == y
    ensures (y % 16 * 4 + z / 64) % 4 * 64 + z % 64 == z
  {
    var s1, s2 := x % 4 * 16 + y / 16, y % 16 * 4 + z / 64;
    assert s1 / 16 == x % 4 && s1 % 16 == y / 16;
    assert s2 / 4 == y % 16 && s2 % 4 == z / 64;
  }

  lemma DecodeOneByteGroup(x: Byte)
    ensures Decode(Group(x, 0, 0, 1)) == Some([x])
  {
    GroupRoundTrip(x, 0, 0);
    var g := Group(x, 0, 0, 1);
    assert SymbolValue(g[0]) == x / 4 && SymbolValue(g[1]) == x % 4 * 16;
  }

  lemma DecodeTwoByteGroup(x: Byte, y: Byte)
    ensures Decode(Group(x, y, 0, 2)) == Some([x, y])
  {
    GroupRoundTrip(x, y, 0);
    var g := Group(x, y, 0, 2);
    assert SymbolValue(g[0]) == x / 4 && SymbolValue(g[1]) == x % 4 * 16 + y / 16;
    assert SymbolValue(g[2]) == y % 16 * 4;
  }

  lemma DecodeFullGroup(x: Byte, y: Byte, z: Byte, t: string, rest: seq<Byte>)
    requires Decode(t) == Some(rest)
    ensures Decode(Group(x, y, z, 3) + t) == Some([x, y, z] + rest)
  {
    GroupRoundTrip(x, y, z);
    var g := Group(x, y, z, 3);
    var s := g + t;
    assert s[..4] == g && s[4..] == t;
    assert SymbolValue(s[0]) == x / 4 && SymbolValue(s[1]) == x % 4 * 16 + y / 16;
    assert SymbolValue(s[2]) == y % 16 * 4 + z / 64 && SymbolValue(s[3]) == z % 64;
  }

  /** Decoding an encoding gives back the bytes. */
  lemma {:induction false} DecodeEncode(bs: seq<Byte>)
    ensures Decode(Encode(bs)) == Some(bs)
    decreases |bs|
  {
    if |bs| == 1 {
      DecodeOneByteGroup(bs[0]);
      assert bs == [bs[0]];
    } else if |bs| == 2 {
      DecodeTwoByteGroup(bs[0], bs[1]);
      assert bs == [bs[0], bs[1]];
    } else if |bs| >= 3 {
      DecodeEncode(bs[3..]);
      DecodeFullGroup(bs[0], bs[1], bs[2], Encode(bs[3..]), bs[3..]);
      assert bs == [bs[0], bs[1], bs[2]] + bs[3..];
    }
  }

  /** Different byte sequences have different encodings. */
  lemma EncodeInjective(a: seq<Byte>, b: seq<Byte>)
    requires Encode(a) == Encode(b)
    ensures a == b
  {
    DecodeEncode(a);
    DecodeEncode(b);
  }
}
