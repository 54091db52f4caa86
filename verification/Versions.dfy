// Versions: their order, and their written form.
module Versions {
  import opened Options
  import opened Lexicographic

  // The constructor asserts more than one segment.
  type Version = v: seq<int> | |v| > 1 witness [0, 0]

  // ---------------------------------------------------------------- compare

  // The difference at the first position where both have a segment and they differ, else the
  // difference in length.
  function Difference(a: seq<int>, b: seq<int>): int {
    if a == [] || b == [] then |a| - |b|
    else if a[0] != b[0] then a[0] - b[0]
    else Difference(a[1..], b[1..])
  }

  method Compare(a: seq<int>, b: seq<int>) returns (r: int)
    ensures r == Difference(a, b)
  {
    var minSize := if |a| < |b| then |a| else |b|;
    var pos := 0;
    while pos < minSize
      invariant pos <= minSize && Difference(a, b) == Difference(a[pos..], b[pos..])
    {
      var diff := a[pos] - b[pos];
      if diff == 0 {
        assert a[pos..][1..] == a[pos + 1..] && b[pos..][1..] == b[pos + 1..];
        pos := pos + 1;
      } else {
        return diff;
      }
    }
    return |a| - |b|;
  }

  // compare decides the lexicographic order; 0 means equal segments.
  lemma {:induction false} CompareIsLexicographic(a: seq<int>, b: seq<int>)
    ensures Difference(a, b) < 0 <==> Less(a, b)
    ensures Difference(a, b) > 0 <==> Less(b, a)
    ensures Difference(a, b) == 0 <==> a == b
  {
    if a != [] && b != [] && a[0] == b[0] {
      CompareIsLexicographic(a[1..], b[1..]);
      assert a == [a[0]] + a[1..] && b == [b[0]] + b[1..];
    }
  }

  // compare is a total order: antisymmetric, transitive, and 0 only for equal versions.
  lemma CompareIsTotalOrder(a: seq<int>, b: seq<int>, c: seq<int>)
    ensures Difference(a, b) <= 0 || Difference(b, a) <= 0
    ensures Difference(a, b) <= 0 && Difference(b, a) <= 0 ==> a == b
    ensures Difference(a, b) <= 0 && Difference(b, c) <= 0 ==> Difference(a, c) <= 0
    ensures (Difference(a, b) < 0) == (Difference(b, a) > 0)
  {
    CompareIsLexicographic(a, b);
    CompareIsLexicographic(b, a);
    CompareIsLexicographic(b, c);
    CompareIsLexicographic(a, c);
    Trichotomy(a, b);
    if Less(a, b) { Asymmetric(a, b); }
    if Less(a, b) && Less(b, c) { Transitive(a, b, c); }
  }

  // ---------------------------------------------------------------- numbers in text

  function Digit(d: int): char
    requires 0 <= d < 10
  {
    '0' + d as char
  }

  predicate IsDigit(c: char) { '0' <= c <= '9' }

  function NatText(n: nat): string {
    if n < 10 then [Digit(n)] else NatText(n / 10) + [Digit(n % 10)]
  }

  function IntText(n: int): string { if n < 0 then ['-'] + NatText(-n) else NatText(n) }

  // White space that parseInt skips.
  predicate IsSpace(c: char) {
    c in {' ', '\t', '\n', '\r', '\U{000B}', '\U{000C}', '\U{00A0}', '\U{1680}', '\U{2028}', '\U{2029}',
          '\U{202F}', '\U{205F}', '\U{3000}', '\U{FEFF}'}
    || '\U{2000}' <= c <= '\U{200A}'
  }

  function SkipSpace(s: string): string { if s != [] && IsSpace(s[0]) then SkipSpace(s[1..]) else s }

  // The value of a digit character in a radix of up to 16, if it is one.
  function DigitValue(c: char, radix: nat): Option<nat> {
    var v := if IsDigit(c) then (c - '0') as int
             else if 'a' <= c <= 'f' then 10 + (c - 'a') as int
             else if 'A' <= c <= 'F' then 10 + (c - 'A') as int
             else 16;
    if v < radix then Some(v) else None
  }

  // How many characters at the front are digits.
  function DigitCount(s: string, radix: nat): (n: nat)
    ensures n <= |s| && forall i | 0 <= i < n :: DigitValue(s[i], radix).Some?
  {
    if s == [] || DigitValue(s[0], radix).None? then 0 else 1 + DigitCount(s[1..], radix)
  }

  function Value(s: string, radix: nat): int
    requires forall i | 0 <= i < |s| :: DigitValue(s[i], radix).Some?
  {
    if s == [] then 0 else radix * Value(s[..|s| - 1], radix) + DigitValue(s[|s| - 1], radix).value
  }

  function ParseDigits(s: string, radix: nat): Option<int> {
    var n := DigitCount(s, radix);
    if n == 0 then None else Some(Value(s[..n], radix))
  }

  predicate IsHex(s: string) { |s| >= 2 && s[0] == '0' && (s[1] == 'x' || s[1] == 'X') }

  function ParseNat(s: string): Option<int> { if IsHex(s) then ParseDigits(s[2..], 16) else ParseDigits(s, 10) }

  // JavaScript's parseInt with no radix: leading white space, sign, 0x, digits; the rest is ignored.
  function ParseInt(s: string): Option<int> {
    var t := SkipSpace(s);
    if t != [] && t[0] == '-' then
      (match ParseNat(t[1..]) case None => None case Some(n) => Some(-n))
    else if t != [] && t[0] == '+' then
      (match ParseNat(t[1..]) case None => None case Some(n) => Some(n))
    else
      (match ParseNat(t) case None => None case Some(n) => Some(n))
  }

  lemma {:induction false} NatTextIsDecimal(n: nat)
    ensures |NatText(n)| >= 1 && forall i | 0 <= i < |NatText(n)| :: IsDigit(NatText(n)[i])
    ensures forall i | 0 <= i < |NatText(n)| :: DigitValue(NatText(n)[i], 10).Some?
    ensures Value(NatText(n), 10) == n
  {
    if n < 10 {
      assert Value(NatText(n)[..0], 10) == 0;
    } else {
      NatTextIsDecimal(n / 10);
      var t := NatText(n);
      assert t[..|t| - 1] == NatText(n / 10);
    }
  }

  lemma {:induction false} AllDigits(s: string)
    requires forall i | 0 <= i < |s| :: DigitValue(s[i], 10).Some?
    ensures DigitCount(s, 10) == |s|
  {
    if s != [] { AllDigits(s[1..]); }
  }

  lemma ParseDigitsOfText(n: nat)
    ensures ParseDigits(NatText(n), 10) == Some(n)
  {
    NatTextIsDecimal(n);
    AllDigits(NatText(n));
    assert NatText(n)[..|NatText(n)|] == NatText(n);
  }

  lemma ParseNatOfText(n: nat)
    ensures ParseNat(NatText(n)) == Some(n)
  {
    ParseDigitsOfText(n);
    assert !IsHex(NatText(n)) by {
      NatTextIsDecimal(n);
      if |NatText(n)| >= 2 { assert IsDigit(NatText(n)[1]); }
    }
  }

  lemma NatTextStart(n: nat)
    ensures NatText(n) != [] && IsDigit(NatText(n)[0]) && SkipSpace(NatText(n)) == NatText(n)
    ensures '.' !in NatText(n)
  {
    NatTextIsDecimal(n);
    assert IsDigit(NatText(n)[0]);
    forall i | 0 <= i < |NatText(n)| ensures NatText(n)[i] != '.' { assert IsDigit(NatText(n)[i]); }
  }

  lemma ParseIntOfText(n: int)
    ensures ParseInt(IntText(n)) == Some(n)
    ensures '.' !in IntText(n)
  {
    var m := if n < 0 then -n else n;
    NatTextStart(m);
    ParseNatOfText(m);
    if n < 0 { assert IntText(n)[1..] == NatText(m); }
  }

  // ---------------------------------------------------------------- parse and asString

  function Split(s: string): (parts: seq<string>)
    ensures |parts| >= 1
  {
    if s == [] then [[]]
    else
      var rest := Split(s[1..]);
      if s[0] == '.' then [[]] + rest else [[s[0]] + rest[0]] + rest[1..]
  }

  function Join(parts: seq<string>): string {
    if parts == [] then [] else if |parts| == 1 then parts[0] else parts[0] + ['.'] + Join(parts[1..])
  }

  lemma {:induction false} SplitFirst(p: string, s: string)
    requires '.' !in p
    ensures Split(p + ['.'] + s) == [p] + Split(s)
    ensures Split(p) == [p]
  {
    if p == [] {
      assert p + ['.'] + s == ['.'] + s;
    } else {
      SplitFirst(p[1..], s);
      assert (p + ['.'] + s)[1..] == p[1..] + ['.'] + s;
      assert p == [p[0]] + p[1..];
    }
  }

  lemma {:induction false} SplitJoin(parts: seq<string>)
    requires |parts| >= 1 && forall i | 0 <= i < |parts| :: '.' !in parts[i]
    ensures Split(Join(parts)) == parts
  {
    if |parts| == 1 {
      SplitFirst(parts[0], []);
    } else {
      SplitJoin(parts[1..]);
      SplitFirst(parts[0], Join(parts[1..]));
      assert parts == [parts[0]] + parts[1..];
    }
  }

  function AsString(v: seq<int>): string { Join(seq(|v|, i requires 0 <= i < |v| => IntText(v[i]))) }

  function ParseAll(parts: seq<string>): Option<seq<int>> {
    if parts == [] then Some([])
    else match (ParseInt(parts[0]), ParseAll(parts[1..]))
      case (Some(n), Some(rest)) => Some([n] + rest)
      case _ => None
  }

  function Parse(s: string): (r: Option<seq<int>>)
    ensures r.Some? ==> |r.value| > 1
  {
    var parts := Split(s);
    if |parts| <= 1 then None
    else
      ParseAllLength(parts);
      ParseAll(parts)
  }

  lemma {:induction false} ParseAllLength(parts: seq<string>)
    ensures ParseAll(parts).Some? ==> |ParseAll(parts).value| == |parts|
  {
    if parts != [] { ParseAllLength(parts[1..]); }
  }

  lemma {:induction false} ParseAllTexts(parts: seq<string>, v: seq<int>)
    requires |parts| == |v| && forall i | 0 <= i < |v| :: parts[i] == IntText(v[i])
    ensures ParseAll(parts) == Some(v)
  {
    if v != [] {
      ParseAllTexts(parts[1..], v[1..]);
      ParseIntOfText(v[0]);
      assert v == [v[0]] + v[1..];
    }
  }

  // A written version reads back as itself.
  lemma ParseOfAsString(v: Version)
    ensures Parse(AsString(v)) == Some(v)
  {
    var parts := seq(|v|, i requires 0 <= i < |v| => IntText(v[i]));
    forall i | 0 <= i < |parts| ensures '.' !in parts[i] { ParseIntOfText(v[i]); }
    SplitJoin(parts);
    ParseAllTexts(parts, v);
  }

  // ---------------------------------------------------------------- the texts themselves

  // A number is written in decimal digits without leading zeros, after a minus if it is negative.
  lemma {:induction false} NatTextIsPlain(n: nat)
    ensures var t := NatText(n);
            && t != [] && (forall i | 0 <= i < |t| :: IsDigit(t[i])) && Value(t, 10) == n
            && (n > 0 ==> t[0] != '0') && (n == 0 ==> t == "0")
  {
    NatTextIsDecimal(n);
    if n >= 10 {
      NatTextIsPlain(n / 10);
      NatTextIsDecimal(n / 10);
    }
  }

  lemma IntTextIsPlain(n: int)
    ensures n >= 0 ==> IntText(n) == NatText(n)
    ensures n < 0 ==> IntText(n) == "-" + NatText(-n)
  {
  }

  // The text of a version is the texts of its segments between dots.
  lemma AsStringIs(v: Version)
    ensures |Split(AsString(v))| == |v| && forall i | 0 <= i < |v| :: Split(AsString(v))[i] == IntText(v[i])
  {
    var parts := seq(|v|, i requires 0 <= i < |v| => IntText(v[i]));
    forall i | 0 <= i < |parts| ensures '.' !in parts[i] { ParseIntOfText(v[i]); }
    SplitJoin(parts);
  }

  lemma {:induction false} JoinOfSplit(s: string)
    ensures Join(Split(s)) == s
  {
    if s != [] {
      var rest := Split(s[1..]);
      JoinOfSplit(s[1..]);
      if s[0] == '.' {
        assert ([[]] + rest)[1..] == rest;
      } else if |rest| > 1 {
        var whole := [[s[0]] + rest[0]] + rest[1..];
        assert whole[1..] == rest[1..];
        assert Join(whole) == [s[0]] + rest[0] + ['.'] + Join(rest[1..]);
        assert Join(rest) == rest[0] + ['.'] + Join(rest[1..]);
        Prepended(s[0], rest[0], ['.'] + Join(rest[1..]));
      }
      assert s == [s[0]] + s[1..];
    }
  }

  lemma Prepended(c: char, a: string, b: string)
    ensures [c] + a + b == [c] + (a + b)
  {
  }

  // A text is read as a version exactly if it has a dot and a number can be read at the start of
  // each part; these numbers are the segments.
  lemma ParseIff(s: string, v: seq<int>)
    ensures Parse(s) == Some(v) <==>
              |Split(s)| > 1 && |v| == |Split(s)| && forall i | 0 <= i < |v| :: ParseInt(Split(s)[i]) == Some(v[i])
  {
    ParseAllIff(Split(s), v);
  }

  lemma {:induction false} ParseAllIff(parts: seq<string>, v: seq<int>)
    ensures ParseAll(parts) == Some(v) <==>
              |v| == |parts| && forall i | 0 <= i < |v| :: ParseInt(parts[i]) == Some(v[i])
  {
    if parts != [] && v != [] {
      ParseAllIff(parts[1..], v[1..]);
      assert v == [v[0]] + v[1..];
      assert forall i | 0 < i < |v| :: v[i] == v[1..][i - 1];
      assert forall i | 0 < i < |parts| :: parts[i] == parts[1..][i - 1];
      assert forall i | 0 <= i < |v| - 1 :: v[1..][i] == v[i + 1];
      assert forall i | 0 <= i < |parts| - 1 :: parts[1..][i] == parts[i + 1];
    } else if parts != [] {
      ParseAllLength(parts);
    }
  }

  lemma {:induction false} SpacesSkipped(spaces: string, t: string)
    requires (forall i | 0 <= i < |spaces| :: IsSpace(spaces[i])) && (t != [] ==> !IsSpace(t[0]))
    ensures SkipSpace(spaces + t) == t
  {
    if spaces == [] {
      assert spaces + t == t;
    } else {
      assert (spaces + t)[1..] == spaces[1..] + t;
      SpacesSkipped(spaces[1..], t);
    }
  }

  lemma {:induction false} DigitsCounted(digits: string, rest: string)
    requires (forall i | 0 <= i < |digits| :: IsDigit(digits[i])) && (rest != [] ==> !IsDigit(rest[0]))
    ensures DigitCount(digits + rest, 10) == |digits|
  {
    if digits == [] {
      assert digits + rest == rest;
    } else {
      assert (digits + rest)[1..] == digits[1..] + rest;
      DigitsCounted(digits[1..], rest);
    }
  }

  // A number is read from the digits at the start, whatever follows them; none without a digit.
  lemma DigitsRead(digits: string, rest: string)
    requires forall i | 0 <= i < |digits| :: IsDigit(digits[i])
    requires (rest != [] ==> !IsDigit(rest[0])) && !IsHex(digits + rest)
    ensures ParseNat(digits + rest) == if digits == "" then None else Some(Value(digits, 10))
  {
    DigitsCounted(digits, rest);
    assert (digits + rest)[..|digits|] == digits;
    BodyReads(digits + rest, digits);
  }

  // White space and one sign before it are read over.
  lemma SignedReads(spaces: string, sign: string, body: string)
    requires forall i | 0 <= i < |spaces| :: IsSpace(spaces[i])
    requires sign == "" || sign == "-" || sign == "+"
    requires sign + body != [] ==> !IsSpace((sign + body)[0])
    requires sign == "" && body != [] ==> body[0] != '-' && body[0] != '+'
    ensures ParseInt(spaces + (sign + body))
         == match ParseNat(body) case None => None case Some(n) => Some(if sign == "-" then -n else n)
  {
    SpacesSkipped(spaces, sign + body);
    SignReads(spaces + (sign + body), sign, body);
  }

  lemma SignReads(s: string, sign: string, body: string)
    requires (sign == "" || sign == "-" || sign == "+") && SkipSpace(s) == sign + body
    requires sign == "" && body != [] ==> body[0] != '-' && body[0] != '+'
    ensures ParseInt(s)
         == match ParseNat(body) case None => None case Some(n) => Some(if sign == "-" then -n else n)
  {
    if sign == "" {
      assert sign + body == body;
    } else {
      assert (sign + body)[0] == sign[0] && (sign + body)[1..] == body;
    }
  }

  lemma BodyReads(body: string, digits: string)
    requires !IsHex(body) && |digits| <= |body| && body[..|digits|] == digits && DigitCount(body, 10) == |digits|
    requires forall i | 0 <= i < |digits| :: DigitValue(digits[i], 10).Some?
    ensures ParseNat(body) == if digits == "" then None else Some(Value(digits, 10))
  {
  }

  // White space, by code point: tab to carriage return, the space, the no-break space, and those
  // of the general category "space separator" or line end that JavaScript knows.
  lemma SpacesAre(c: char)
    ensures IsSpace(c) <==>
              || 9 <= c as int <= 13 || c as int in {32, 160, 5760, 8239, 8287, 12288, 65279}
              || 8192 <= c as int <= 8202 || c as int == 8232 || c as int == 8233
  {
  }

  // After 0x the digits are hexadecimal.
  lemma {:induction false} HexDigitsCounted(digits: string, rest: string)
    requires forall i | 0 <= i < |digits| :: DigitValue(digits[i], 16).Some?
    requires rest != [] ==> DigitValue(rest[0], 16).None?
    ensures DigitCount(digits + rest, 16) == |digits|
  {
    if digits == [] {
      assert digits + rest == rest;
    } else {
      assert (digits + rest)[1..] == digits[1..] + rest;
      HexDigitsCounted(digits[1..], rest);
    }
  }

  lemma HexRead(digits: string, rest: string)
    requires forall i | 0 <= i < |digits| :: DigitValue(digits[i], 16).Some?
    requires rest != [] ==> DigitValue(rest[0], 16).None?
    ensures ParseNat("0x" + (digits + rest)) == if digits == "" then None else Some(Value(digits, 16))
    ensures ParseNat("0X" + (digits + rest)) == ParseNat("0x" + (digits + rest))
  {
    HexDigitsCounted(digits, rest);
    assert ("0x" + (digits + rest))[2..] == digits + rest == ("0X" + (digits + rest))[2..];
    assert (digits + rest)[..|digits|] == digits;
  }

  // The digits and their values.
  lemma DigitsAre(c: char, radix: nat)
    requires radix == 10 || radix == 16
    ensures IsDigit(c) ==> DigitValue(c, radix) == Some((c as int) - 48)
    ensures radix == 16 && c in "abcdef" ==> DigitValue(c, radix) == Some((c as int) - 87)
    ensures radix == 16 && c in "ABCDEF" ==> DigitValue(c, radix) == Some((c as int) - 55)
    ensures !IsDigit(c) && (radix == 16 ==> c !in "abcdefABCDEF") ==> DigitValue(c, radix).None?
    ensures IsDigit(c) <==> 48 <= c as int <= 57
  {
    HexLetters(c);
  }

  lemma HexLetters(c: char)
    ensures c in "abcdef" <==> 'a' <= c <= 'f'
    ensures c in "ABCDEF" <==> 'A' <= c <= 'F'
  {
    var l, u := "abcdef", "ABCDEF";
    assert forall i | 0 <= i < 6 :: l[i] as int == 97 + i && u[i] as int == 65 + i;
    if 'a' <= c <= 'f' { assert l[c as int - 97] == c; }
    if 'A' <= c <= 'F' { assert u[c as int - 65] == c; }
  }

  // Some texts.
  lemma WrittenVersions()
    ensures AsString([1, 10, 0]) == "1.10.0" && AsString([0, -2]) == "0.-2"
  {
    assert IntText(1) == "1" && IntText(10) == "10" && IntText(0) == "0" && IntText(-2) == "-2";
    var a, b := ["1", "10", "0"], ["0", "-2"];
    assert Join(a[1..][1..]) == "0";
    assert Join(a[1..]) == "10.0";
    assert Join(b[1..]) == "-2";
    var v, w := [1, 10, 0], [0, -2];
    assert seq(|v|, i requires 0 <= i < |v| => IntText(v[i])) == a;
    assert seq(|w|, i requires 0 <= i < |w| => IntText(w[i])) == b;
  }
}
