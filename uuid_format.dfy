/** `formatUUID` (src/uuid-generator.js:297-348): renders a UUID string under
    the result-format select and the case and line radio buttons. The DOM
    reads become a `Settings` value; the `binary` branch, which goes through
    a floating-point number, is the parameter `toBinary`. */
module UuidFormat {
  import opened Wrappers
  import opened Strings
  import Base64

  // ---------------------------------------------------------------------------
  // Canonical UUID strings
  // ---------------------------------------------------------------------------

  predicate IsHexDigit(c: char)
  {
    '0' <= c <= '9' || 'a' <= c <= 'f' || 'A' <= c <= 'F'
  }

  function HexDigitValue(c: char): (v: nat)
    requires IsHexDigit(c)
    ensures v < 16
  {
    if '0' <= c <= '9' then c as int - '0' as int
    else if 'a' <= c <= 'f' then c as int - 'a' as int + 10
    else c as int - 'A' as int + 10
  }

  /** The positions of the four hyphens of `xxxxxxxx-xxxx-xxxx-xxxx-xxxxxxxxxxxx`. */
  predicate IsHyphenPosition(i: int)
  {
    i == 8 || i == 13 || i == 18 || i == 23
  }

  /** The 36-character form the identifier library returns: 32 hex digits
      in groups of 8, 4, 4, 4 and 12, separated by hyphens. */
  predicate IsCanonical(u: string)
  {
    |u| == 36 && forall i :: 0 <= i < 36 ==> if IsHyphenPosition(i) then u[i] == '-' else IsHexDigit(u[i])
  }

  /** Position in a canonical UUID of the `j`-th hex digit. */
  function DigitPosition(j: int): int
  {
    if j < 8 then j else if j < 12 then j + 1 else if j < 16 then j + 2 else if j < 20 then j + 3 else j + 4
  }

  /** The 16 bytes a canonical UUID stands for: its 32 hex digits, hyphens
      removed, read two at a time. */
  function UuidBytes(u: string): (bs: seq<Base64.Byte>)
    requires IsCanonical(u)
    ensures |bs| == 16
  {
    var h := ReplaceAll(u, '-', "");
    HexDigitsOfCanonical(u);
    seq(16, k requires 0 <= k < 16 => 16 * HexDigitValue(h[2 * k]) + HexDigitValue(h[2 * k + 1]))
  }

  lemma RemoveHyphensThenPiece(p: string, q: string)
    requires '-' !in q
    ensures ReplaceAll(p + "-" + q, '-', "") == ReplaceAll(p, '-', "") + q
  {
    assert ReplaceAll("-", '-', "") == "" + ReplaceAll([], '-', "");
    ReplaceAllAppend(p, "-", '-', "");
    ReplaceAllAppend(p + "-", q, '-', "");
    ReplaceAllAbsent(q, '-', "");
  }

  /** A canonical UUID is its five groups of hex digits joined by hyphens. */
  lemma CanonicalGroups(u: string)
    requires IsCanonical(u)
    ensures u == u[..8] + "-" + u[9..13] + "-" + u[14..18] + "-" + u[19..23] + "-" + u[24..]
    ensures '-' !in u[..8] && '-' !in u[9..13] && '-' !in u[14..18] && '-' !in u[19..23] && '-' !in u[24..]
  {
    assert forall i :: 0 <= i < 36 && !IsHyphenPosition(i) ==> u[i] != '-';
  }

  lemma GroupsDigitAt(u: string, h: string)
    requires IsCanonical(u)
    requires h == u[..8] + u[9..13] + u[14..18] + u[19..23] + u[24..]
    ensures forall j :: 0 <= j < 32 ==> h[j] == u[DigitPosition(j)] && IsHexDigit(h[j])
  {
    forall j | 0 <= j < 32 ensures h[j] == u[DigitPosition(j)] && IsHexDigit(h[j]) {
      assert !IsHyphenPosition(DigitPosition(j));
    }
  }

  /** Removing the hyphens of a canonical UUID leaves its 32 hex digits, in order. */
  lemma HexDigitsOfCanonical(u: string)
    requires IsCanonical(u)
    ensures var h := ReplaceAll(u, '-', "");
      && h == u[..8] + u[9..13] + u[14..18] + u[19..23] + u[24..]
      && |h| == 32
      && forall j :: 0 <= j < 32 ==> h[j] == u[DigitPosition(j)] && IsHexDigit(h[j])
  {
    var a, b, c, d, e := u[..8], u[9..13], u[14..18], u[19..23], u[24..];
    CanonicalGroups(u);
    ReplaceAllAbsent(a, '-', "");
    RemoveHyphensThenPiece(a, b);
    RemoveHyphensThenPiece(a + "-" + b, c);
    RemoveHyphensThenPiece(a + "-" + b + "-" + c, d);
    RemoveHyphensThenPiece(a + "-" + b + "-" + c + "-" + d, e);
    GroupsDigitAt(u, a + b + c + d + e);
  }

  // ---------------------------------------------------------------------------
  // parseInt(text, 16) and the base64 byte loop
  // ---------------------------------------------------------------------------

  /** `parseInt(t, 16)` for the strings of at most two characters the byte
      loop passes: the value of the leading hex digits, `None` (NaN) when
      `t` does not start with one. */
  function ParseHex(t: string): (r: Option<nat>)
    requires |t| <= 2
    ensures r.Some? <==> t != [] && IsHexDigit(t[0])
    ensures r.Some? ==> r.value < 256
  {
    if |t| == 0 || !IsHexDigit(t[0]) then None
    else if |t| == 2 && IsHexDigit(t[1]) then Some(16 * HexDigitValue(t[0]) + HexDigitValue(t[1]))
    else Some(HexDigitValue(t[0]))
  }

  function Min(a: int, b: int): int { if a < b then a else b }

  /** The numbers the base64 branch pushes, from index `i` on:
      `parseInt(uuid.substring(i, i + 2), 16)` for `i, i + 2, ...` below the
      length, skipping an index whose character is `'-'`. */
  function PairValues(u: string, i: nat): seq<Option<nat>>
    decreases |u| - i
  {
    if i >= |u| then []
    else (if u[i] == '-' then [] else [ParseHex(u[i..Min(i + 2, |u|)])]) + PairValues(u, i + 2)
  }

  /** Every collected number is a byte value. */
  lemma {:induction false} PairValuesAreBytes(u: string, i: nat)
    ensures forall k :: 0 <= k < |PairValues(u, i)| && PairValues(u, i)[k].Some? ==> PairValues(u, i)[k].value < 256
    decreases |u| - i
  {
    if i < |u| {
      PairValuesAreBytes(u, i + 2);
    }
  }

  /** The loop of src/uuid-generator.js:323-328. */
  method CollectPairValues(u: string) returns (uuidBytes: seq<Option<nat>>)
    ensures uuidBytes == PairValues(u, 0)
  {
    uuidBytes := [];
    var i: nat := 0;
    while i < |u|
      invariant uuidBytes + PairValues(u, i) == PairValues(u, 0)
      decreases |u| - i
    {
      ghost var rest := PairValues(u, i + 2);
      if u[i] != '-' {
        var v := ParseHex(u[i..Min(i + 2, |u|)]);
        assert PairValues(u, i) == [v] + rest;
        uuidBytes := uuidBytes + [v];
      } else {
        assert PairValues(u, i) == rest;
      }
      i := i + 2;
    }
  }

  /** `String.fromCharCode(v)` as one byte; NaN becomes the code 0. */
  function CharCode(v: Option<nat>): Base64.Byte
    requires v.Some? ==> v.value < 256
  {
    if v.Some? then v.value else 0
  }

  /** The bytes `btoa` receives: the character codes of the collected numbers. */
  function CharCodes(vs: seq<Option<nat>>): (bs: seq<Base64.Byte>)
    requires forall k :: 0 <= k < |vs| && vs[k].Some? ==> vs[k].value < 256
    ensures |bs| == |vs|
  {
    seq(|vs|, k requires 0 <= k < |vs| => CharCode(vs[k]))
  }

  // ---------------------------------------------------------------------------
  // formatUUID
  // ---------------------------------------------------------------------------

  /** What the base64 branch hands to `btoa`: one character code per value
      the byte loop collected, `NaN` becoming 0. */
  function Base64Input(u: string): seq<Base64.Byte>
  {
    PairValuesAreBytes(u, 0);
    CharCodes(PairValues(u, 0))
  }

  /** The formatting controls: the result-format select's value, and the
      value of the checked case and line radio buttons (`None` when no radio
      of the group is checked). */
  datatype Settings = Settings(format: string, caseRadio: Option<string>, lineRadio: Option<string>)

  /** The case option, `'lower'` when no case radio is checked. */
  function CaseOption(s: Settings): string { s.caseRadio.GetOr("lower") }

  /** The line option, `'keep'` when no line radio is checked. */
  function LineOption(s: Settings): string { s.lineRadio.GetOr("keep") }

  /** `formatUUID(u)` under settings `s`; `toBinary(h)` stands for
      `parseInt(h, 16).toString(2)`. */
  function Format(u: string, s: Settings, toBinary: string -> string): string
  {
    if s.format == "string" then
      var cased := Fold(u, CaseOption(s) == "upper");
      if LineOption(s) == "remove" then ReplaceAll(cased, '-', "") else cased
    else if s.format == "hex" then ReplaceAll(u, '-', "")
    else if s.format == "binary" then toBinary(ReplaceAll(u, '-', ""))
    else if s.format == "base64" then Base64.Encode(Base64Input(u))
    else u
  }

  /** `formatUUID`, step by step as the source does it: the format switch,
      then case conversion, then line handling, the last two for the
      `string` format only. */
  method FormatUUID(u: string, s: Settings, toBinary: string -> string) returns (formatted: string)
    ensures formatted == Format(u, s, toBinary)
  {
    var caseOption, lineOption := CaseOption(s), LineOption(s);
    formatted := u;
    if s.format == "hex" {
      formatted := ReplaceAll(u, '-', "");
    } else if s.format == "binary" {
      formatted := toBinary(ReplaceAll(u, '-', ""));
    } else if s.format == "base64" {
      var uuidBytes := CollectPairValues(u);
      PairValuesAreBytes(u, 0);
      formatted := Base64.Encode(CharCodes(uuidBytes));
    }
    if s.format == "string" {
      if caseOption == "upper" {
        formatted := ToUpper(formatted);
      } else {
        formatted := ToLower(formatted);
      }
    }
    if lineOption == "remove" && s.format == "string" {
      formatted := ReplaceAll(formatted, '-', "");
    }
  }

  // ---------------------------------------------------------------------------
  // Properties of the string and hex formats
  // ---------------------------------------------------------------------------

  /** The hex format removes every hyphen and keeps every other character,
      in its case and as often as it occurs; a canonical UUID gives its 32
      hex digits in order. */
  lemma HexFormat(u: string, s: Settings, toBinary: string -> string)
    requires s.format == "hex"
    ensures var r := Format(u, s, toBinary);
      && '-' !in r
      && |r| == |u| - multiset(u)['-']
      && (forall x :: x != '-' ==> multiset(r)[x] == multiset(u)[x])
      && (IsCanonical(u) ==>
            r == u[..8] + u[9..13] + u[14..18] + u[19..23] + u[24..]
            && |r| == 32
            && forall j :: 0 <= j < 32 ==> IsHexDigit(r[j]))
  {
    RemoveAllLength(u, '-');
    forall x | x != '-'
      ensures multiset(Format(u, s, toBinary))[x] == multiset(u)[x]
    {
      RemoveAllKeepsOthers(u, '-', x);
    }
    if IsCanonical(u) {
      HexDigitsOfCanonical(u);
    }
  }

  /** With the line option not `remove`, the string format changes only the
      case of letters: upper for `upper`, lower for anything else; hyphens
      stay where they are, so a canonical UUID stays canonical. */
  lemma StringFormatKeepsLayout(u: string, s: Settings, toBinary: string -> string)
    requires s.format == "string" && LineOption(s) != "remove"
    ensures var r := Format(u, s, toBinary);
      && |r| == |u|
      && (forall i :: 0 <= i < |u| ==> r[i] == if CaseOption(s) == "upper" then UpperChar(u[i]) else LowerChar(u[i]))
      && (forall i :: 0 <= i < |u| ==> (r[i] == '-' <==> u[i] == '-'))
      && (CaseOption(s) == "upper" ==> forall i :: 0 <= i < |r| ==> !IsAsciiLower(r[i]))
      && (CaseOption(s) != "upper" ==> forall i :: 0 <= i < |r| ==> !IsAsciiUpper(r[i]))
      && (IsCanonical(u) ==> IsCanonical(r))
  {
  }

  /** With the line option `remove`, the string format is the hex format
      with the case option applied. */
  lemma StringRemoveIsFoldedHex(u: string, s: Settings, toBinary: string -> string)
    requires s.format == "string" && LineOption(s) == "remove"
    ensures Format(u, s, toBinary) == Fold(Format(u, s.(format := "hex"), toBinary), CaseOption(s) == "upper")
  {
    FoldCommutesWithHyphenRemoval(u, CaseOption(s) == "upper");
  }

  /** The case and line radios matter only for the string format; an
      unrecognised format returns the UUID unchanged. */
  lemma OnlyStringFormatUsesCaseAndLine(u: string, s: Settings, t: Settings, toBinary: string -> string)
    requires s.format == t.format != "string"
    ensures Format(u, s, toBinary) == Format(u, t, toBinary)
    ensures s.format !in {"hex", "binary", "base64"} ==> Format(u, s, toBinary) == u
  {
  }

  /** With no case radio and no line radio checked, the string format is the
      lower-cased, hyphenated UUID. */
  lemma MissingRadiosDefault(u: string, toBinary: string -> string)
    ensures Format(u, Settings("string", None, None), toBinary) == ToLower(u)
  {
  }

  // ---------------------------------------------------------------------------
  // Properties of the base64 format
  // ---------------------------------------------------------------------------

  /** `parseInt(u.substring(i, i + 2), 16)`. */
  function ReadPair(u: string, i: nat): Option<nat>
    requires i + 2 <= |u|
  {
    ParseHex(u[i..i + 2])
  }

  lemma PairValuesSkip(u: string, i: nat)
    requires i < |u| && u[i] == '-'
    ensures PairValues(u, i) == PairValues(u, i + 2)
  {
    assert PairValues(u, i) == [] + PairValues(u, i + 2);
  }

  lemma PairValuesStep(u: string, i: nat)
    requires i + 2 <= |u| && u[i] != '-'
    ensures PairValues(u, i) == [ReadPair(u, i)] + PairValues(u, i + 2)
  {
  }
}
