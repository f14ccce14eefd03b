/** The string operations of JavaScript that the handlers use: `trim`, `split`
    on a one-character separator, ASCII `toLowerCase`, `startsWith`, `parseInt`,
    and the decimal rendering of an integer inside a template literal. */
module Text {
  import opened Json

  /** ECMAScript StrWhiteSpaceChar: WhiteSpace and LineTerminator code points,
      the characters `trim` removes and `parseInt` skips. */
  predicate IsSpace(c: char) {
    var n := c as int;
    n == 0x09 || n == 0x0A || n == 0x0B || n == 0x0C || n == 0x0D || n == 0x20
    || n == 0xA0 || n == 0x1680 || (0x2000 <= n <= 0x200A) || n == 0x2028
    || n == 0x2029 || n == 0x202F || n == 0x205F || n == 0x3000 || n == 0xFEFF
  }

  predicate AllSpace(s: string) {
    forall i :: 0 <= i < |s| ==> IsSpace(s[i])
  }

  /** The length of the longest all-whitespace prefix. */
  function LeadingSpaces(s: string): (k: nat)
    ensures k <= |s| && forall i :: 0 <= i < k ==> IsSpace(s[i])
    ensures k == |s| || !IsSpace(s[k])
  {
    if s != [] && IsSpace(s[0]) then
      1 + LeadingSpaces(s[1..])
    else 0
  }

  /** The length of the longest all-whitespace suffix. */
  function TrailingSpaces(s: string): (k: nat)
    ensures k <= |s| && forall i :: |s| - k <= i < |s| ==> IsSpace(s[i])
    ensures k == |s| || !IsSpace(s[|s| - k - 1])
  {
    if s != [] && IsSpace(s[|s| - 1]) then
      1 + TrailingSpaces(s[..|s| - 1])
    else 0
  }

  /** `String.prototype.trimStart`, as `parseInt` applies it. */
  function TrimStart(s: string): string {
    s[LeadingSpaces(s)..]
  }

  /** `String.prototype.trim`. */
  function Trim(s: string): (r: string)
    ensures |r| <= |s|
    ensures r == [] || (!IsSpace(r[0]) && !IsSpace(r[|r| - 1]))
  {
    var t := TrimStart(s);
    t[..|t| - TrailingSpaces(t)]
  }

  lemma {:induction false} LeadingSpacesOfPadded(p: string, r: string)
    requires AllSpace(p)
    requires r == [] || !IsSpace(r[0])
    ensures LeadingSpaces(p + r) == |p|
    decreases |p|
  {
    if p == [] {
      assert p + r == r;
    } else {
      assert (p + r)[1..] == p[1..] + r;
      LeadingSpacesOfPadded(p[1..], r);
    }
  }

  lemma {:induction false} TrailingSpacesOfPadded(r: string, q: string)
    requires AllSpace(q)
    requires r == [] || !IsSpace(r[|r| - 1])
    ensures TrailingSpaces(r + q) == |q|
    decreases |q|
  {
    if q == [] {
      assert r + q == r;
    } else {
      assert (r + q)[..|r + q| - 1] == r + q[..|q| - 1];
      TrailingSpacesOfPadded(r, q[..|q| - 1]);
    }
  }

  /** `trim` removes exactly the surrounding whitespace: padding a string that has
      no whitespace at either end and trimming gives the string back. */
  lemma TrimPadded(p: string, r: string, q: string)
    requires AllSpace(p) && AllSpace(q)
    requires r == [] || (!IsSpace(r[0]) && !IsSpace(r[|r| - 1]))
    ensures Trim(p + r + q) == r
  {
    if r == [] {
      assert p + r + q == p + q;
      if q == [] {
        assert p + q == p + [];
        LeadingSpacesOfPadded(p, []);
      } else {
        LeadingSpacesOfPadded(p, []);
        assert AllSpace(p + q);
        LeadingSpacesAll(p + q);
      }
    } else {
      assert p + r + q == p + (r + q);
      LeadingSpacesOfPadded(p, r + q);
      assert TrimStart(p + r + q) == r + q;
      TrailingSpacesOfPadded(r, q);
      assert (r + q)[..|r + q| - |q|] == r;
    }
  }

  lemma {:induction false} LeadingSpacesAll(s: string)
    requires AllSpace(s)
    ensures LeadingSpaces(s) == |s|
    decreases |s|
  {
    if s != [] {
      LeadingSpacesAll(s[1..]);
    }
  }

  /** `String.prototype.split(sep)` for a one-character separator: the pieces
      between successive separators, one more piece than separators. */
  function Split(s: string, sep: char): (r: seq<string>)
    ensures |r| >= 1
    ensures forall i :: 0 <= i < |r| ==> sep !in r[i]
    ensures Join(r, sep) == s
    decreases |s|
  {
    if s == [] then [""]
    else
      var rest := Split(s[1..], sep);
      if s[0] == sep then
        assert Join([""] + rest, sep) == [sep] + Join(rest, sep) by {
          assert ([""] + rest)[1..] == rest;
        }
        [""] + rest
      else
        var r := [[s[0]] + rest[0]] + rest[1..];
        assert Join(r, sep) == [s[0]] + Join(rest, sep) by {
          if |rest| > 1 {
            assert r[1..] == rest[1..];
          }
        }
        r
  }

  /** `Array.prototype.join(sep)` of a non-empty list of pieces. */
  function Join(parts: seq<string>, sep: char): string
    requires |parts| >= 1
    decreases |parts|
  {
    if |parts| == 1 then parts[0] else parts[0] + [sep] + Join(parts[1..], sep)
  }

  lemma {:induction false} SplitNoSeparator(a: string, sep: char)
    requires sep !in a
    ensures Split(a, sep) == [a]
    decreases |a|
  {
    if a != [] {
      SplitNoSeparator(a[1..], sep);
      assert [a[0]] + a[1..] == a;
    }
  }

  lemma {:induction false} SplitAfterPiece(a: string, sep: char, t: string)
    requires sep !in a
    ensures Split(a + [sep] + t, sep) == [a] + Split(t, sep)
    decreases |a|
  {
    if a == [] {
      assert a + [sep] + t == [sep] + t;
      assert ([sep] + t)[1..] == t;
    } else {
      assert (a + [sep] + t)[1..] == a[1..] + [sep] + t;
      SplitAfterPiece(a[1..], sep, t);
      assert [a[0]] + a[1..] == a;
    }
  }

  /** Splitting a joined list of separator-free pieces gives the pieces back. */
  lemma {:induction false} SplitJoin(parts: seq<string>, sep: char)
    requires |parts| >= 1
    requires forall i :: 0 <= i < |parts| ==> sep !in parts[i]
    ensures Split(Join(parts, sep), sep) == parts
    decreases |parts|
  {
    if |parts| == 1 {
      SplitNoSeparator(parts[0], sep);
    } else {
      SplitJoin(parts[1..], sep);
      SplitAfterPiece(parts[0], sep, Join(parts[1..], sep));
      assert [parts[0]] + parts[1..] == parts;
    }
  }

  /** `p` is the text of `s` before its first `sep`: all of `s` when there is
      none. At most one `p` qualifies (FirstPieceUnique). */
  predicate FirstPiece(s: string, sep: char, p: string) {
    sep !in p && (p == s || StartsWith(s, p + [sep]))
  }

  /** A first piece is a prefix free of `sep`, followed by `sep` or the end. */
  lemma FirstPieceBounds(s: string, sep: char, p: string)
    requires FirstPiece(s, sep, p)
    ensures |p| <= |s| && p == s[..|p|]
    ensures forall i :: 0 <= i < |p| ==> s[i] != sep
    ensures |p| < |s| ==> s[|p|] == sep
  {
    if p != s {
      assert (p + [sep])[..|p|] == p;
    }
  }

  lemma FirstPieceUnique(s: string, sep: char, p: string, q: string)
    requires FirstPiece(s, sep, p) && FirstPiece(s, sep, q)
    ensures p == q
  {
    FirstPieceBounds(s, sep, p);
    FirstPieceBounds(s, sep, q);
    assert |p| == |q|;
  }

  /** The first piece of a split is the text before the first separator, and
      the remaining pieces are the split of the text after it. */
  lemma SplitFirst(s: string, sep: char)
    ensures var ps := Split(s, sep); FirstPiece(s, sep, ps[0])
    ensures var ps := Split(s, sep); |ps| == 1 <==> sep !in s
    ensures var ps := Split(s, sep); |ps| > 1 ==> |ps[0]| < |s| && Split(s[|ps[0]| + 1..], sep) == ps[1..]
  {
    var ps := Split(s, sep);
    if |ps| > 1 {
      var rest := Join(ps[1..], sep);
      assert s == ps[0] + [sep] + rest;
      assert s[|ps[0]|] == sep;
      assert s[|ps[0]| + 1..] == rest;
      assert (ps[0] + [sep] + rest)[..|ps[0]| + 1] == ps[0] + [sep];
      SplitJoin(ps[1..], sep);
    }
  }

  /** `toLowerCase` on one character; only A-Z are mapped (see README). */
  function LowerChar(c: char): char {
    if 'A' <= c <= 'Z' then (c as int + 32) as char else c
  }

  function ToLower(s: string): (r: string)
    ensures |r| == |s|
    ensures forall i :: 0 <= i < |s| ==> r[i] == LowerChar(s[i])
  {
    seq(|s|, i requires 0 <= i < |s| => LowerChar(s[i]))
  }

  /** A text lower-cases to a word of small letters exactly when it spells the
      word with each letter in either case. */
  lemma ToLowerMatches(s: string, w: string)
    requires forall i :: 0 <= i < |w| ==> 'a' <= w[i] <= 'z'
    ensures ToLower(s) == w <==>
              |s| == |w| && forall i :: 0 <= i < |s| ==> s[i] == w[i] || s[i] as int == w[i] as int - 32
  {
    if |s| == |w| && forall i :: 0 <= i < |s| ==> s[i] == w[i] || s[i] as int == w[i] as int - 32 {
      forall i | 0 <= i < |s|
        ensures ToLower(s)[i] == w[i]
      {
        if s[i] != w[i] {
          assert 'A' <= s[i] <= 'Z';
        }
      }
    }
  }

  predicate StartsWith(s: string, prefix: string) {
    |prefix| <= |s| && s[..|prefix|] == prefix
  }

  predicate IsDecDigit(c: char) { '0' <= c <= '9' }

  predicate IsHexDigit(c: char) {
    IsDecDigit(c) || 'a' <= c <= 'f' || 'A' <= c <= 'F'
  }

  predicate IsDigitOf(c: char, base: nat) {
    if base == 16 then IsHexDigit(c) else IsDecDigit(c)
  }

  function DigitValue(c: char): (v: nat)
    requires IsHexDigit(c)
    ensures v < 16 && (IsDecDigit(c) ==> v < 10)
  {
    if IsDecDigit(c) then c as int - '0' as int
    else if 'a' <= c <= 'f' then c as int - 'a' as int + 10
    else c as int - 'A' as int + 10
  }

  /** The number of leading digits of the given base. */
  function LeadingDigits(s: string, base: nat): (k: nat)
    ensures k <= |s|
    ensures forall i :: 0 <= i < k ==> IsDigitOf(s[i], base)
    ensures k == |s| || !IsDigitOf(s[k], base)
  {
    if s != [] && IsDigitOf(s[0], base) then 1 + LeadingDigits(s[1..], base) else 0
  }

  /** The value of a numeral, most significant digit first. */
  function DigitsValue(d: string, base: nat): nat
    requires forall i :: 0 <= i < |d| ==> IsDigitOf(d[i], base)
  {
    if d == [] then 0
    else
      var prefix, last := d[..|d| - 1], d[|d| - 1];
      assert IsDigitOf(last, base);
      assert forall i :: 0 <= i < |prefix| ==> prefix[i] == d[i];
      var high := DigitsValue(prefix, base);
      NatProduct(high, base);
      high * base + DigitValue(last)
  }

  lemma NatProduct(a: nat, b: nat)
    ensures a * b >= 0
  {
  }

  /** `parseInt(s, 10)` or `parseInt(s)` (radix omitted: a "0x" or "0X" prefix
      after the sign selects base 16). */
  datatype Radix = Radix10 | RadixAuto

  /** `parseInt`: skip leading whitespace, take an optional sign and the leading
      digits; None stands for NaN, when there is no digit. */
  function ParseInt(s: string, radix: Radix): (r: Option<int>)
    ensures r.None? <==> (var u := Unsigned(TrimStart(s));
                           var hex := IsHexPrefixed(u, radix);
                           LeadingDigits(if hex then u[2..] else u, if hex then 16 else 10) == 0)
  {
    var t := TrimStart(s);
    var neg := t != [] && t[0] == '-';
    var u := Unsigned(t);
    var hex := IsHexPrefixed(u, radix);
    var base := if hex then 16 else 10;
    var body := if hex then u[2..] else u;
    var k := LeadingDigits(body, base);
    if k == 0 then None
    else
      var v: int := DigitsValue(body[..k], base);
      Some(if neg then -v else v)
  }

  /** Without a radix a "0x" prefix selects base 16. */
  lemma ParseIntHexPrefix()
    ensures ParseInt(" -0x1F", RadixAuto) == Some(-31)
  {
    SignedHexText();
    assert IsHexPrefixed("0x1F", RadixAuto);
    assert "0x1F"[2..] == "1F";
    HexDigits1F();
  }

  /** With radix 10 the same text reads as 0, the digit before the 'x'. */
  lemma ParseIntHexPrefixRadix10()
    ensures ParseInt(" -0x1F", Radix10) == Some(0)
  {
    SignedHexText();
    assert !IsHexPrefixed("0x1F", Radix10);
    assert LeadingDigits("0x1F", 10) == 1;
    assert "0x1F"[..1] == "0";
    assert DigitsValue("0", 10) == 0 by {
      assert "0"[..0] == "";
    }
  }

  lemma SignedHexText()
    ensures TrimStart(" -0x1F") == "-0x1F" && Unsigned("-0x1F") == "0x1F"
  {
    assert " -0x1F"[1..] == "-0x1F";
  }

  lemma HexDigits1F()
    ensures LeadingDigits("1F", 16) == 2 && "1F"[..2] == "1F" && DigitsValue("1F", 16) == 31
  {
    assert "1F"[..1] == "1";
    assert DigitsValue("1", 16) == 1 by {
      assert "1"[..0] == "";
    }
  }

  /** The text after an optional leading sign. */
  function Unsigned(t: string): string {
    if t != [] && (t[0] == '-' || t[0] == '+') then t[1..] else t
  }

  predicate IsHexPrefixed(u: string, radix: Radix) {
    radix == RadixAuto && |u| >= 2 && u[0] == '0' && (u[1] == 'x' || u[1] == 'X')
  }

  /** `parseInt(v, 10)` of any value: the value is converted to a string first.
      An array converts to its elements joined by commas, so its first element
      decides; null, undefined, booleans and objects give NaN. */
  function ParseIntValue(v: JsValue): (r: Option<int>)
    ensures v.Str? ==> r == ParseInt(v.s, Radix10)
    ensures v.Num? ==> r == Some(v.n)
    ensures v.Arr? && v.items != [] ==> r == ParseIntValue(v.items[0])
    ensures v.Undefined? || v.Null? || v.Bool? || v.Obj? || v == Arr([]) ==> r.None?
  {
    match v
    case Str(s) => ParseInt(s, Radix10)
    case Num(n) => Some(n)
    case Arr(items) => if items == [] then None else ParseIntValue(items[0])
    case _ => None
  }

  function DigitChar(d: nat): (c: char)
    requires d < 10
    ensures IsDecDigit(c) && DigitValue(c) == d
  {
    ('0' as int + d) as char
  }

  /** The decimal numeral of a natural number, without leading zeros. */
  function NatToString(n: nat): (r: string)
    ensures |r| >= 1
    ensures forall i :: 0 <= i < |r| ==> IsDecDigit(r[i])
    ensures DigitsValue(r, 10) == n
    ensures r[0] == '0' ==> n == 0
  {
    if n < 10 then
      var r := [DigitChar(n)];
      assert r[..0] == [];
      r
    else
      var h := NatToString(n / 10);
      var r := h + [DigitChar(n % 10)];
      assert r[..|r| - 1] == h;
      r
  }

  /** `${n}` for an integer n. */
  function IntToString(n: int): (r: string)
    ensures |r| >= 1 && (r[0] == '-' <==> n < 0)
    ensures forall i :: 0 <= i < |r| && (i > 0 || n >= 0) ==> IsDecDigit(r[i])
  {
    if n < 0 then "-" + NatToString(-n) else NatToString(n)
  }

  /** `parseInt` reads back the numeral of any integer, after any whitespace and
      before any text that does not continue the numeral. */
  lemma ParseIntOfIntToString(p: string, n: int, rest: string, radix: Radix)
    requires AllSpace(p)
    requires rest == [] || !IsDecDigit(rest[0])
    requires radix == RadixAuto ==> rest == [] || (rest[0] != 'x' && rest[0] != 'X')
    ensures ParseInt(p + IntToString(n) + rest, radix) == Some(n)
  {
    var numeral := NatToString(if n < 0 then -n else n);
    var sign := if n < 0 then "-" else "";
    assert IntToString(n) == sign + numeral;
    ParseIntOfMagnitude(p, n, sign, numeral, rest, radix);
  }

  /** The step of ParseIntOfIntToString on the sign and digits of n. */
  lemma ParseIntOfMagnitude(p: string, n: int, sign: string, numeral: string, rest: string, radix: Radix)
    requires AllSpace(p)
    requires numeral == NatToString(if n < 0 then -n else n) && sign == (if n < 0 then "-" else "")
    requires rest == [] || !IsDecDigit(rest[0])
    requires radix == RadixAuto ==> rest == [] || (rest[0] != 'x' && rest[0] != 'X')
    ensures ParseInt(p + (sign + numeral) + rest, radix) == Some(n)
  {
    Regroup(p, sign, numeral, rest);
    ParseIntOfSignedNumeral(p, sign, numeral, rest, radix);
  }

  /** Any integer's numeral, alone, reads back as that integer. */
  lemma ParseIntOfNumeral(n: int, radix: Radix)
    ensures ParseInt(IntToString(n), radix) == Some(n)
  {
    ParseIntOfIntToString("", n, "", radix);
    Unpadded(IntToString(n));
  }

  /** Empty strings around a string leave it unchanged. */
  lemma Unpadded(x: string)
    ensures "" + x == x && x + "" == x && "" + x + "" == x
  {
  }

  /** The groupings of four concatenated strings. */
  lemma Regroup(a: string, b: string, c: string, d: string)
    ensures a + (b + c) + d == a + b + c + d == a + (b + c + d)
  {
  }

  /** Blanks, an optional sign, decimal digits and text that does not continue
      them: `parseInt` reads the signed value of the digits. */
  lemma ParseIntOfSignedNumeral(p: string, sign: string, numeral: string, rest: string, radix: Radix)
    requires AllSpace(p)
    requires sign == "" || sign == "-" || sign == "+"
    requires |numeral| >= 1 && forall i :: 0 <= i < |numeral| ==> IsDecDigit(numeral[i])
    requires rest == [] || !IsDecDigit(rest[0])
    requires radix == RadixAuto ==> rest == [] || (rest[0] != 'x' && rest[0] != 'X')
    ensures var v: int := DigitsValue(numeral, 10);
            ParseInt(p + sign + numeral + rest, radix) == Some(if sign == "-" then -v else v)
  {
    Regroup(p, sign, numeral, rest);
    var t := sign + numeral + rest;
    SignedStart(sign, numeral, rest);
    LeadingSpacesOfPadded(p, t);
    UnsignedOfSigned(sign, numeral, rest);
    NumeralNotHexPrefixed(numeral, rest, radix);
    LeadingDigitsOfNumeral(numeral, rest);
    PrefixOfConcat(numeral, rest);
    ParseIntBySign(p + t, radix, sign == "-", numeral, rest);
  }

  lemma SignedStart(sign: string, numeral: string, rest: string)
    requires sign == "" || sign == "-" || sign == "+"
    requires numeral != [] && IsDecDigit(numeral[0])
    ensures var t := sign + numeral + rest; t != [] && !IsSpace(t[0])
  {
    var t := sign + numeral + rest;
    assert t[0] == (if sign == "" then numeral[0] else sign[0]);
  }

  lemma PrefixOfConcat(a: string, b: string)
    ensures (a + b)[..|a|] == a
  {
  }

  /** A sign, a numeral and any text: the sign is what `Unsigned` strips. */
  lemma UnsignedOfSigned(sign: string, numeral: string, rest: string)
    requires sign == "" || sign == "-" || sign == "+"
    requires numeral != [] && IsDecDigit(numeral[0])
    ensures var t := sign + numeral + rest;
            && Unsigned(t) == numeral + rest
            && (t != [] && t[0] == '-' <==> sign == "-")
  {
    var t := sign + numeral + rest;
    if sign != "" {
      assert t == [sign[0]] + (numeral + rest);
      assert t[1..] == numeral + rest;
    } else {
      assert t == numeral + rest;
      assert t[0] == numeral[0];
    }
  }

  lemma NumeralNotHexPrefixed(numeral: string, rest: string, radix: Radix)
    requires |numeral| >= 1 && forall i :: 0 <= i < |numeral| ==> IsDecDigit(numeral[i])
    requires radix == RadixAuto ==> rest == [] || (rest[0] != 'x' && rest[0] != 'X')
    ensures !IsHexPrefixed(numeral + rest, radix)
  {
    var u := numeral + rest;
    if radix == RadixAuto && |u| >= 2 {
      if |numeral| >= 2 {
        assert u[1] == numeral[1];
      } else {
        assert u[1] == rest[0];
      }
    }
  }

  /** `parseInt` of a text whose unsigned part starts with a decimal numeral. */
  lemma ParseIntBySign(s: string, radix: Radix, neg: bool, numeral: string, rest: string)
    requires var t := TrimStart(s); (t != [] && t[0] == '-') == neg
    requires Unsigned(TrimStart(s)) == numeral + rest
    requires !IsHexPrefixed(numeral + rest, radix)
    requires forall i :: 0 <= i < |numeral| ==> IsDecDigit(numeral[i])
    requires |numeral| >= 1 && LeadingDigits(numeral + rest, 10) == |numeral|
    requires (numeral + rest)[..|numeral|] == numeral
    ensures var v: int := DigitsValue(numeral, 10); ParseInt(s, radix) == Some(if neg then -v else v)
  {
    var u := Unsigned(TrimStart(s));
    var k := LeadingDigits(u, 10);
    assert k == |numeral| && u[..k] == numeral;
  }

  lemma {:induction false} LeadingDigitsOfNumeral(d: string, rest: string)
    requires forall i :: 0 <= i < |d| ==> IsDecDigit(d[i])
    requires rest == [] || !IsDecDigit(rest[0])
    ensures LeadingDigits(d + rest, 10) == |d|
    decreases |d|
  {
    if d == [] {
      assert d + rest == rest;
    } else {
      assert (d + rest)[1..] == d[1..] + rest;
      LeadingDigitsOfNumeral(d[1..], rest);
    }
  }
}
