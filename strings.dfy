/** The JavaScript string operations the generator relies on, on `seq<char>`:
    `replace(/c/g, rep)`, ASCII `toUpperCase`/`toLowerCase`, `Array.join`,
    the decimal rendering of a number in a template literal; and `split`,
    the partner of `join` that reads joined text back into its lines. */
module Strings {

  // ---------------------------------------------------------------------------
  // replace(/c/g, rep)
  // ---------------------------------------------------------------------------

  /** `s.replace(/c/g, rep)`: every occurrence of the character `c` replaced by `rep`. */
  function ReplaceAll(s: string, c: char, rep: string): (r: string)
    ensures c !in rep ==> c !in r
    ensures |rep| == 1 ==> |r| == |s|
    decreases |s|
  {
    if s == [] then [] else (if s[0] == c then rep else [s[0]]) + ReplaceAll(s[1..], c, rep)
  }

  /** A character found neither in `s` nor in `rep` is not in the result. */
  lemma {:induction false} ReplaceAllKeepsAbsent(s: string, c: char, rep: string, x: char)
    requires x !in s && x !in rep
    ensures x !in ReplaceAll(s, c, rep)
    decreases |s|
  {
    if s != [] {
      ReplaceAllKeepsAbsent(s[1..], c, rep, x);
      assert ReplaceAll(s, c, rep) == (if s[0] == c then rep else [s[0]]) + ReplaceAll(s[1..], c, rep);
    }
  }

  /** Removing every `c` shortens the string by the number of its occurrences. */
  lemma {:induction false} RemoveAllLength(s: string, c: char)
    ensures |ReplaceAll(s, c, "")| == |s| - multiset(s)[c]
    decreases |s|
  {
    if s != [] {
      RemoveAllLength(s[1..], c);
      assert s == [s[0]] + s[1..];
    }
  }

  /** Removing every `c` keeps every other character exactly as often as it
      occurs in `s`. */
  lemma {:induction false} RemoveAllKeepsOthers(s: string, c: char, x: char)
    requires x != c
    ensures multiset(ReplaceAll(s, c, ""))[x] == multiset(s)[x]
    decreases |s|
  {
    if s != [] {
      RemoveAllKeepsOthers(s[1..], c, x);
      assert s == [s[0]] + s[1..];
      assert ReplaceAll(s, c, "") == (if s[0] == c then "" else [s[0]]) + ReplaceAll(s[1..], c, "");
    }
  }

  /** Replacing distributes over concatenation. */
  lemma {:induction false} ReplaceAllAppend(a: string, b: string, c: char, rep: string)
    ensures ReplaceAll(a + b, c, rep) == ReplaceAll(a, c, rep) + ReplaceAll(b, c, rep)
    decreases |a|
  {
    if a == [] {
      assert a + b == b;
    } else {
      assert (a + b)[1..] == a[1..] + b;
      ReplaceAllAppend(a[1..], b, c, rep);
    }
  }

  /** A string without `c` is left as it is. */
  lemma {:induction false} ReplaceAllAbsent(s: string, c: char, rep: string)
    requires c !in s
    ensures ReplaceAll(s, c, rep) == s
    decreases |s|
  {
    if s != [] {
      ReplaceAllAbsent(s[1..], c, rep);
    }
  }

  /** With a one-character replacement every position is kept: `c` becomes `d`,
      every other character stays. */
  lemma {:induction false} ReplaceAllAt(s: string, c: char, d: char, i: int)
    requires 0 <= i < |s|
    ensures |ReplaceAll(s, c, [d])| == |s|
    ensures ReplaceAll(s, c, [d])[i] == if s[i] == c then d else s[i]
    decreases |s|
  {
    if i > 0 {
      ReplaceAllAt(s[1..], c, d, i - 1);
    }
  }

  // ---------------------------------------------------------------------------
  // toUpperCase / toLowerCase (ASCII letters)
  // ---------------------------------------------------------------------------

  predicate IsAsciiLower(c: char) { 'a' <= c <= 'z' }
  predicate IsAsciiUpper(c: char) { 'A' <= c <= 'Z' }

  function UpperChar(c: char): (d: char)
    ensures !IsAsciiLower(d)
    ensures IsAsciiLower(c) || d == c
  {
    if IsAsciiLower(c) then (c as int - 32) as char else c
  }

  function LowerChar(c: char): (d: char)
    ensures !IsAsciiUpper(d)
    ensures IsAsciiUpper(c) || d == c
  {
    if IsAsciiUpper(c) then (c as int + 32) as char else c
  }

  /** `s.toUpperCase()` restricted to ASCII letters. */
  function ToUpper(s: string): (r: string)
    ensures |r| == |s|
    ensures forall i :: 0 <= i < |s| ==> r[i] == UpperChar(s[i])
    decreases |s|
  {
    if s == [] then [] else [UpperChar(s[0])] + ToUpper(s[1..])
  }

  /** `s.toLowerCase()` restricted to ASCII letters. */
  function ToLower(s: string): (r: string)
    ensures |r| == |s|
    ensures forall i :: 0 <= i < |s| ==> r[i] == LowerChar(s[i])
    decreases |s|
  {
    if s == [] then [] else [LowerChar(s[0])] + ToLower(s[1..])
  }

  /** The case mapping chosen by a flag: upper when `upper`, lower otherwise. */
  function Fold(s: string, upper: bool): string
  {
    if upper then ToUpper(s) else ToLower(s)
  }

  /** Case folding never produces a character that is not a letter: one
      that is neither a letter nor in `s` is not in the result. */
  lemma FoldKeepsAbsent(s: string, upper: bool, x: char)
    requires x !in s && !IsAsciiLower(x) && !IsAsciiUpper(x)
    ensures x !in Fold(s, upper)
  {
  }

  /** Case folding and removing every hyphen can be done in either order:
      folding never creates or destroys a hyphen. */
  lemma {:induction false} FoldCommutesWithHyphenRemoval(s: string, upper: bool)
    ensures ReplaceAll(Fold(s, upper), '-', "") == Fold(ReplaceAll(s, '-', ""), upper)
    decreases |s|
  {
    if s != [] {
      FoldCommutesWithHyphenRemoval(s[1..], upper);
      var f := Fold(s, upper);
      assert f == [f[0]] + Fold(s[1..], upper);
      assert f[0] == '-' <==> s[0] == '-';
      if s[0] == '-' {
        assert ReplaceAll(s, '-', "") == ReplaceAll(s[1..], '-', "");
      } else {
        assert ReplaceAll(s, '-', "") == [s[0]] + ReplaceAll(s[1..], '-', "");
        assert Fold([s[0]] + ReplaceAll(s[1..], '-', ""), upper)
            == [f[0]] + Fold(ReplaceAll(s[1..], '-', ""), upper);
      }
    }
  }

  // ---------------------------------------------------------------------------
  // Array.prototype.join and String.prototype.split
  // ---------------------------------------------------------------------------

  /** `parts.join(sep)`: the empty array gives the empty string. */
  function Join(parts: seq<string>, sep: string): (r: string)
    decreases |parts|
  {
    if |parts| == 0 then ""
    else if |parts| == 1 then parts[0]
    else parts[0] + sep + Join(parts[1..], sep)
  }

  /** `s.split(sep)` for a one-character separator: the pieces between
      separators, so `""` gives `[""]`. */
  function Split(s: string, sep: char): (r: seq<string>)
    ensures |r| >= 1
    ensures |r| == multiset(s)[sep] + 1
    decreases |s|
  {
    if s == [] then [""]
    else
      assert s == [s[0]] + s[1..];
      var rest := Split(s[1..], sep);
      if s[0] == sep then [""] + rest
      else [[s[0]] + rest[0]] + rest[1..]
  }

  lemma {:induction false} SplitWithoutSeparator(p: string, sep: char)
    requires sep !in p
    ensures Split(p, sep) == [p]
    decreases |p|
  {
    if p != [] {
      SplitWithoutSeparator(p[1..], sep);
      assert [p[0]] + p[1..] == p;
    }
  }

  lemma {:induction false} SplitAfterPiece(p: string, t: string, sep: char)
    requires sep !in p
    ensures Split(p + [sep] + t, sep) == [p] + Split(t, sep)
    decreases |p|
  {
    if p == [] {
      assert p + [sep] + t == [sep] + t;
      assert ([sep] + t)[1..] == t;
    } else {
      SplitAfterPiece(p[1..], t, sep);
      assert (p + [sep] + t)[1..] == p[1..] + [sep] + t;
      assert [p[0]] + p[1..] == p;
    }
  }

  /** Splitting joined text on its separator gives back the joined pieces,
      provided no piece contains the separator. */
  lemma {:induction false} SplitJoin(parts: seq<string>, sep: char)
    requires |parts| >= 1
    requires forall k :: 0 <= k < |parts| ==> sep !in parts[k]
    ensures Split(Join(parts, [sep]), sep) == parts
    decreases |parts|
  {
    if |parts| == 1 {
      SplitWithoutSeparator(parts[0], sep);
    } else {
      SplitJoin(parts[1..], sep);
      SplitAfterPiece(parts[0], Join(parts[1..], [sep]), sep);
      assert [parts[0]] + parts[1..] == parts;
    }
  }

  /** Joining `n` separator-free pieces puts exactly `n - 1` separators in the text. */
  lemma {:induction false} JoinSeparatorCount(parts: seq<string>, sep: char)
    requires |parts| >= 1
    requires forall k :: 0 <= k < |parts| ==> sep !in parts[k]
    ensures multiset(Join(parts, [sep]))[sep] == |parts| - 1
  {
    SplitJoin(parts, sep);
  }

  // ---------------------------------------------------------------------------
  // Decimal rendering of a non-negative integer (`${i}`)
  // ---------------------------------------------------------------------------

  function DigitChar(d: nat): (c: char)
    requires d < 10
    ensures '0' <= c <= '9'
  {
    ('0' as int + d) as char
  }

  /** The decimal digits of `n`, most significant first, without leading zeros. */
  function DecimalString(n: nat): (r: string)
    ensures 1 <= |r|
    ensures |r| == 1 <==> n < 10
    ensures forall i :: 0 <= i < |r| ==> '0' <= r[i] <= '9'
    decreases n
  {
    if n < 10 then [DigitChar(n)] else DecimalString(n / 10) + [DigitChar(n % 10)]
  }

  /** Different numbers have different decimal renderings. */
  lemma {:induction false} DecimalStringInjective(a: nat, b: nat)
    requires DecimalString(a) == DecimalString(b)
    ensures a == b
    decreases a
  {
    var s := DecimalString(a);
    if a >= 10 {
      assert b >= 10;
      var p := DecimalString(a / 10);
      var q := DecimalString(b / 10);
      assert s[..|s| - 1] == p && s[..|s| - 1] == q;
      assert s[|s| - 1] == DigitChar(a % 10) == DigitChar(b % 10);
      DecimalStringInjective(a / 10, b / 10);
    } else {
      assert s[0] == DigitChar(a) == DigitChar(b);
    }
  }

  /** The number a string of decimal digits denotes, most significant
      digit first. */
  function DigitsValue(r: string): nat
    requires forall i :: 0 <= i < |r| ==> '0' <= r[i] <= '9'
  {
    if r == [] then 0 else DigitsValue(r[..|r| - 1]) * 10 + (r[|r| - 1] as int - '0' as int)
  }

  /** The decimal rendering denotes the number it renders. */
  lemma {:induction false} DecimalStringValue(n: nat)
    ensures DigitsValue(DecimalString(n)) == n
    decreases n
  {
    var r := DecimalString(n);
    if n >= 10 {
      DecimalStringValue(n / 10);
      assert r[..|r| - 1] == DecimalString(n / 10);
    }
  }
}
