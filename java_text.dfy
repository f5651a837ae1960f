/**
 * The Java string operations the dispatchers rely on: String.trim,
 * StringUtils.isBlank, the three replaceAll calls (collapsing "/+", removing
 * the context path, removing brackets), Arrays.toString on a String[],
 * toLowerFirstCase, and Integer.valueOf / Integer.toString.
 */
module JavaText {
  import opened Outcomes

  // ---------------------------------------------------------------------------
  // String.trim and StringUtils.isBlank
  // ---------------------------------------------------------------------------

  /** The characters String.trim removes: every code point up to U+0020. */
  predicate IsTrimmed(c: char) { c <= ' ' }

  function TrimStart(s: string): (r: string)
    ensures |r| <= |s|
  {
    if s != [] && IsTrimmed(s[0]) then TrimStart(s[1..]) else s
  }

  function TrimEnd(s: string): (r: string)
    ensures |r| <= |s|
  {
    if s != [] && IsTrimmed(s[|s| - 1]) then TrimEnd(s[..|s| - 1]) else s
  }

  /** Dropping the leading trimmed characters leaves a suffix that starts
      with a kept character. */
  lemma {:induction false} TrimStartSpec(s: string)
    ensures var r := TrimStart(s);
            && r == s[|s| - |r|..]
            && (r == [] || !IsTrimmed(r[0]))
            && (forall i :: 0 <= i < |s| - |r| ==> IsTrimmed(s[i]))
  {
    if s != [] && IsTrimmed(s[0]) {
      TrimStartSpec(s[1..]);
      var r := TrimStart(s);
      forall i | 0 <= i < |s| - |r| ensures IsTrimmed(s[i]) {
        if i > 0 { assert s[i] == s[1..][i - 1]; }
      }
    }
  }

  /** Dropping the trailing trimmed characters leaves a prefix that ends
      with a kept character. */
  lemma {:induction false} TrimEndSpec(s: string)
    ensures var r := TrimEnd(s);
            && r == s[..|r|]
            && (r == [] || !IsTrimmed(r[|r| - 1]))
            && (forall i :: |r| <= i < |s| ==> IsTrimmed(s[i]))
  {
    if s != [] && IsTrimmed(s[|s| - 1]) {
      TrimEndSpec(s[..|s| - 1]);
    }
  }

  /** String.trim(). */
  function Trim(s: string): string {
    TrimEnd(TrimStart(s))
  }

  /** Character.isWhitespace of Java 8 (Unicode 6.2): the space, line and
      paragraph separators other than the no-break spaces, and the controls
      U+0009..U+000D, U+001C..U+001F. U+180E is still a space separator there. */
  predicate IsWhitespace(c: char) {
    c == ' ' || ('\t' <= c <= '\r') || ('\U{1C}' <= c <= '\U{1F}')
    || c == '\U{1680}' || c == '\U{180E}' || ('\U{2000}' <= c <= '\U{2006}') || ('\U{2008}' <= c <= '\U{200A}')
    || c == '\U{2028}' || c == '\U{2029}' || c == '\U{205F}' || c == '\U{3000}'
  }

  /** StringUtils.isBlank on a non-null string: empty or whitespace only. */
  predicate IsBlank(s: string) {
    s == [] || (IsWhitespace(s[0]) && IsBlank(s[1..]))
  }

  /** How many leading characters trim drops. */
  function TrimOffset(s: string): nat
    ensures TrimOffset(s) <= |s|
  {
    |s| - |TrimStart(s)|
  }

  /** What trim leaves is the stretch of s that starts and ends with a
      character above U+0020, with only trimmed characters around it. */
  lemma TrimSpec(s: string)
    ensures var t, a := Trim(s), TrimOffset(s);
      && a + |t| <= |s| && t == s[a..a + |t|]
      && (forall i :: 0 <= i < a ==> IsTrimmed(s[i]))
      && (forall i :: a + |t| <= i < |s| ==> IsTrimmed(s[i]))
      && (t == [] || (!IsTrimmed(t[0]) && !IsTrimmed(t[|t| - 1])))
  {
    var u := TrimStart(s);
    var t := TrimEnd(u);
    var a := |s| - |u|;
    TrimStartSpec(s);
    TrimEndSpec(u);
    assert t == s[a..a + |t|];
    if t != [] {
      assert t[0] == u[0];
    }
  }

  // ---------------------------------------------------------------------------
  // replaceAll("/+", "/"): collapse every run of slashes into one
  // ---------------------------------------------------------------------------

  predicate NoDoubleSlash(s: string) {
    forall i :: 0 <= i < |s| - 1 ==> !(s[i] == '/' && s[i + 1] == '/')
  }

  function CollapseSlashes(s: string): (r: string)
    ensures |r| <= |s|
    ensures s != [] ==> r != [] && r[0] == s[0]
  {
    if |s| < 2 then s
    else if s[0] == '/' && s[1] == '/' then CollapseSlashes(s[1..])
    else [s[0]] + CollapseSlashes(s[1..])
  }

  /** Removing every slash from a string: the part collapsing must not touch. */
  function Unslashed(s: string): (r: string)
    ensures forall i :: 0 <= i < |r| ==> r[i] != '/'
  {
    if s == [] then []
    else (if s[0] == '/' then [] else [s[0]]) + Unslashed(s[1..])
  }

  /** The collapsed string never contains "//". */
  lemma {:induction false} CollapseHasNoDoubleSlash(s: string)
    ensures NoDoubleSlash(CollapseSlashes(s))
  {
    if |s| >= 2 {
      CollapseHasNoDoubleSlash(s[1..]);
    }
  }

  /** A string without "//" is left as it is, and only such strings are. */
  lemma {:induction false} CollapseFixedPoints(s: string)
    ensures CollapseSlashes(s) == s <==> NoDoubleSlash(s)
  {
    CollapseHasNoDoubleSlash(s);
    if |s| >= 2 && NoDoubleSlash(s) {
      assert NoDoubleSlash(s[1..]) by {
        forall i | 0 <= i < |s[1..]| - 1 ensures !(s[1..][i] == '/' && s[1..][i + 1] == '/') {
          assert s[1..][i] == s[i + 1] && s[1..][i + 1] == s[i + 2];
        }
      }
      CollapseFixedPoints(s[1..]);
    }
  }

  /** Normalising twice is normalising once. */
  lemma CollapseIdempotent(s: string)
    ensures CollapseSlashes(CollapseSlashes(s)) == CollapseSlashes(s)
  {
    CollapseHasNoDoubleSlash(s);
    CollapseFixedPoints(CollapseSlashes(s));
  }

  /** Collapsing removes slashes only: every other character survives in order. */
  lemma {:induction false} CollapseKeepsOtherCharacters(s: string)
    ensures Unslashed(CollapseSlashes(s)) == Unslashed(s)
  {
    if |s| >= 2 {
      CollapseKeepsOtherCharacters(s[1..]);
      if s[0] == '/' && s[1] == '/' {
        assert Unslashed(s) == Unslashed(s[1..]);
      } else {
        var t := CollapseSlashes(s[1..]);
        assert ([s[0]] + t)[1..] == t;
        assert Unslashed([s[0]] + t) == (if s[0] == '/' then [] else [s[0]]) + Unslashed(t);
      }
    }
  }

  /** A slash before a leading slash is dropped. */
  lemma CollapseDropsDoubledSlash(t: string)
    requires t != [] && t[0] == '/'
    ensures CollapseSlashes("/" + t) == CollapseSlashes(t)
  {
    assert ("/" + t)[1..] == t;
  }

  /** A prefix without "//" that does not end in a slash is kept as it is,
      and collapsing continues with the rest. */
  lemma {:induction false} CollapseAppend(x: string, y: string)
    requires x != [] && NoDoubleSlash(x) && x[|x| - 1] != '/'
    ensures CollapseSlashes(x + y) == x + CollapseSlashes(y)
    decreases |x|
  {
    if |x| == 1 {
      if y != [] {
        assert (x + y)[1..] == y;
      }
    } else {
      assert (x + y)[1..] == x[1..] + y;
      assert NoDoubleSlash(x[1..]) by {
        forall i | 0 <= i < |x[1..]| - 1 ensures !(x[1..][i] == '/' && x[1..][i + 1] == '/') {
          assert x[1..][i] == x[i + 1] && x[1..][i + 1] == x[i + 2];
        }
      }
      CollapseAppend(x[1..], y);
      assert [x[0]] + x[1..] == x;
    }
  }

  /** Runs of any length collapse to one slash. */
  lemma CollapseExample()
    ensures CollapseSlashes("/a//b///c") == "/a/b/c"
  {
  }

  // ---------------------------------------------------------------------------
  // replaceAll(contextPath, ""): remove every occurrence, scanning left to right
  // ---------------------------------------------------------------------------

  predicate OccursAt(s: string, p: string, i: nat) {
    i + |p| <= |s| && s[i..i + |p|] == p
  }

  ghost predicate Occurs(s: string, p: string) {
    exists i: nat :: OccursAt(s, p, i)
  }

  /** Every non-overlapping occurrence of p, found from the left, is deleted;
      an empty p leaves s as it is (the empty pattern matches with an empty
      replacement at every position). */
  function RemoveAll(s: string, p: string): (r: string)
    ensures |r| <= |s|
    decreases |s|
  {
    if p == [] || |s| < |p| then s
    else if s[..|p|] == p then RemoveAll(s[|p|..], p)
    else [s[0]] + RemoveAll(s[1..], p)
  }

  /** Where p does not occur, nothing is removed. */
  lemma {:induction false} RemoveAllAbsent(s: string, p: string)
    requires !Occurs(s, p)
    ensures RemoveAll(s, p) == s
    decreases |s|
  {
    if p != [] && |s| >= |p| {
      assert !OccursAt(s, p, 0);
      assert !Occurs(s[1..], p) by {
        forall i: nat | i + |p| <= |s[1..]| ensures !OccursAt(s[1..], p, i) {
          assert s[1..][i..i + |p|] == s[i + 1..i + 1 + |p|];
          assert !OccursAt(s, p, i + 1);
        }
      }
      RemoveAllAbsent(s[1..], p);
    }
  }

  /** p cannot occur in a string that lacks one of p's characters. */
  lemma MissingCharacterNoOccurrence(s: string, p: string, c: char)
    requires c in p && c !in s
    ensures !Occurs(s, p)
  {
    var k :| 0 <= k < |p| && p[k] == c;
    forall i: nat ensures !OccursAt(s, p, i) {
      if i + |p| <= |s| {
        assert s[i..i + |p|][k] == s[i + k];
      }
    }
  }

  /** A context prefix is stripped from a path in which it does not occur again. */
  lemma RemoveContextPrefix(p: string, rest: string)
    requires p != [] && !Occurs(rest, p)
    ensures RemoveAll(p + rest, p) == rest
  {
    assert (p + rest)[..|p|] == p;
    assert (p + rest)[|p|..] == rest;
    RemoveAllAbsent(rest, p);
  }

  // ---------------------------------------------------------------------------
  // Arrays.toString(values).replaceAll("\\[|\\]", "")
  // ---------------------------------------------------------------------------

  predicate IsBracket(c: char) { c == '[' || c == ']' }

  function StripBrackets(s: string): (r: string)
    ensures |r| <= |s|
    ensures forall i :: 0 <= i < |r| ==> !IsBracket(r[i])
  {
    if s == [] then []
    else (if IsBracket(s[0]) then [] else [s[0]]) + StripBrackets(s[1..])
  }

  function Join(values: seq<string>, sep: string): string {
    if values == [] then ""
    else if |values| == 1 then values[0]
    else values[0] + sep + Join(values[1..], sep)
  }

  /** Arrays.toString of a non-null String[] without null elements. */
  function ArrayToString(values: seq<string>): string {
    "[" + Join(values, ", ") + "]"
  }

  /** The text doDispatch binds for one request parameter. */
  function BoundText(values: seq<string>): string {
    StripBrackets(ArrayToString(values))
  }

  lemma {:induction false} StripBracketsAppend(a: string, b: string)
    ensures StripBrackets(a + b) == StripBrackets(a) + StripBrackets(b)
  {
    if a == [] {
      assert a + b == b;
    } else {
      assert (a + b)[0] == a[0];
      assert (a + b)[1..] == a[1..] + b;
      StripBracketsAppend(a[1..], b);
    }
  }

  lemma {:induction false} StripBracketsBracketFree(s: string)
    requires forall i :: 0 <= i < |s| ==> !IsBracket(s[i])
    ensures StripBrackets(s) == s
  {
    if s != [] {
      StripBracketsBracketFree(s[1..]);
    }
  }

  /** The bound text is the values joined by ", " with every bracket removed;
      a single value without brackets is passed unchanged. */
  lemma BoundTextSpec(values: seq<string>)
    ensures BoundText(values) == StripBrackets(Join(values, ", "))
    ensures |values| == 1 && (forall i :: 0 <= i < |values[0]| ==> !IsBracket(values[0][i]))
      ==> BoundText(values) == values[0]
  {
    var j := Join(values, ", ");
    StripBracketsAppend("[", j + "]");
    StripBracketsAppend(j, "]");
    assert "[" + j + "]" == "[" + (j + "]");
    if |values| == 1 && (forall i :: 0 <= i < |values[0]| ==> !IsBracket(values[0][i])) {
      StripBracketsBracketFree(values[0]);
    }
  }

  // ---------------------------------------------------------------------------
  // toLowerFirstCase: chars[0] += 32 on a UTF-16 char array
  // ---------------------------------------------------------------------------

  /** A Java char is a 16-bit unit and `+= 32` wraps modulo 2^16. A Dafny char
      is a Unicode scalar value, so a simple name is admitted only when its first
      character is a single UTF-16 unit that stays outside the surrogate range
      after the shift. */
  predicate ShiftableHead(s: string) {
    s == [] || (s[0] as int < 0x1_0000 && !(0xD800 <= (s[0] as int + 32) % 0x1_0000 < 0xE000))
  }

  type SimpleName = s: string | ShiftableHead(s) witness ""

  function LowerFirst(s: SimpleName): (r: Result<string>) {
    if s == [] then Err(IndexOutOfBounds)
    else Ok([((s[0] as int + 32) % 0x1_0000) as char] + s[1..])
  }

  /** toLowerFirstCase: copy into a char array, add 32 to element 0, copy back. */
  method ToLowerFirstCase(simpleName: SimpleName) returns (r: Result<string>)
    ensures r == LowerFirst(simpleName)
    ensures r.Err? <==> simpleName == []
    ensures r.Err? ==> r.error == IndexOutOfBounds
    ensures r.Ok? ==> |r.value| == |simpleName| && r.value[1..] == simpleName[1..]
    ensures r.Ok? ==> r.value[0] as int == (simpleName[0] as int + 32) % 0x1_0000
  {
    var chars := new char[|simpleName|](i requires 0 <= i < |simpleName| => simpleName[i]);
    if chars.Length == 0 {
      return Err(IndexOutOfBounds);
    }
    chars[0] := ((chars[0] as int + 32) % 0x1_0000) as char;
    assert chars[1..] == simpleName[1..];
    r := Ok(chars[..]);
    assert r.value == [chars[0]] + chars[1..];
  }

  /** On a capital ASCII initial the shift is lower-casing ("TestController"
      becomes "testController"); on a small ASCII initial it yields a
      C1 control character instead, so it is not Character.toLowerCase. */
  lemma LowerFirstOnAsciiLetters(s: SimpleName)
    requires s != []
    ensures 'A' <= s[0] <= 'Z' ==> LowerFirst(s) == Ok([(s[0] as int - 'A' as int + 'a' as int) as char] + s[1..])
    ensures 'a' <= s[0] <= 'z' ==> 0x81 <= LowerFirst(s).value[0] as int <= 0x9A
  {
  }

  // ---------------------------------------------------------------------------
  // Integer.valueOf(String) and Integer.toString(int)
  // ---------------------------------------------------------------------------

  const INT_MIN: int := -0x8000_0000
  const INT_MAX: int := 0x7FFF_FFFF

  predicate IsDigit(c: char) { '0' <= c <= '9' }

  predicate AllDigits(s: string) {
    forall i :: 0 <= i < |s| ==> IsDigit(s[i])
  }

  /** The value of a decimal digit string, most significant digit first. */
  function DigitsValue(s: string): nat
    requires AllDigits(s)
  {
    if s == [] then 0 else DigitsValue(s[..|s| - 1]) * 10 + (s[|s| - 1] as int - '0' as int)
  }

  /** Integer.parseInt(s, 10): an optional sign, at least one digit, and a
      value in the 32-bit range; anything else is a NumberFormatException. */
  function ParseInt(s: string): (r: Result<int>)
    ensures r.Ok? ==> INT_MIN <= r.value <= INT_MAX
    ensures r.Err? ==> r.error == NumberFormat
  {
    if s == [] then Err(NumberFormat)
    else
      var signed := s[0] == '-' || s[0] == '+';
      var body := if signed then s[1..] else s;
      if body == [] || !AllDigits(body) then Err(NumberFormat)
      else
        var v: int := if s[0] == '-' then 0 - (DigitsValue(body) as int) else DigitsValue(body);
        if INT_MIN <= v <= INT_MAX then Ok(v) else Err(NumberFormat)
  }

  function DigitChar(d: nat): char
    requires d < 10
  {
    ('0' as int + d) as char
  }

  function NatToString(n: nat): (r: string)
    ensures r != [] && AllDigits(r)
  {
    if n < 10 then [DigitChar(n)] else NatToString(n / 10) + [DigitChar(n % 10)]
  }

  /** Integer.toString(int). */
  function IntToString(n: int): string {
    if n < 0 then "-" + NatToString(-n) else NatToString(n)
  }

  lemma {:induction false} NatToStringValue(n: nat)
    ensures DigitsValue(NatToString(n)) == n
  {
    if n >= 10 {
      var t := NatToString(n / 10);
      var s := t + [DigitChar(n % 10)];
      assert s[..|s| - 1] == t;
      NatToStringValue(n / 10);
    }
  }

  /** Printing a 32-bit integer and parsing the text back gives the integer. */
  lemma IntRoundTrip(n: int)
    requires INT_MIN <= n <= INT_MAX
    ensures ParseInt(IntToString(n)) == Ok(n)
  {
    if n < 0 {
      NatToStringValue(-n);
      assert ("-" + NatToString(-n))[1..] == NatToString(-n);
    } else {
      NatToStringValue(n);
    }
  }

  // ---------------------------------------------------------------------------
  // The strings Double.valueOf(String) accepts (its value is not modelled)
  // ---------------------------------------------------------------------------

  predicate IsHexDigit(c: char) { IsDigit(c) || ('a' <= c <= 'f') || ('A' <= c <= 'F') }

  /** Where the run of decimal digits starting at i ends. */
  function DigitRun(s: string, i: nat): (e: nat)
    requires i <= |s|
    ensures i <= e <= |s| && (e == |s| || !IsDigit(s[e]))
    ensures forall k :: i <= k < e ==> IsDigit(s[k])
    decreases |s| - i
  {
    if i < |s| && IsDigit(s[i]) then DigitRun(s, i + 1) else i
  }

  /** Where the run of hexadecimal digits starting at i ends. */
  function HexRun(s: string, i: nat): (e: nat)
    requires i <= |s|
    ensures i <= e <= |s| && (e == |s| || !IsHexDigit(s[e]))
    ensures forall k :: i <= k < e ==> IsHexDigit(s[k])
    decreases |s| - i
  {
    if i < |s| && IsHexDigit(s[i]) then HexRun(s, i + 1) else i
  }

  /** Digits after an optional sign. */
  predicate SignedInteger(t: string) {
    var u := if t != [] && (t[0] == '+' || t[0] == '-') then t[1..] else t;
    u != [] && AllDigits(u)
  }

  predicate IsFloatSuffix(c: char) { c == 'f' || c == 'F' || c == 'd' || c == 'D' }

  /** What may follow a significand: an exponent (a marker and a signed
      integer, optional unless `required`), then an optional suffix f/F/d/D. */
  predicate ExponentAndSuffix(t: string, markers: string, required: bool) {
    var body := if t != [] && IsFloatSuffix(t[|t| - 1]) then t[..|t| - 1] else t;
    if body == [] then !required else body[0] in markers && SignedInteger(body[1..])
  }

  /** An unsigned decimal floating-point literal: digits with an optional
      fraction, or a fraction alone, then the exponent and suffix. */
  predicate DecimalFloat(u: string) {
    var a := DigitRun(u, 0);
    if a < |u| && u[a] == '.' then
      var b := DigitRun(u, a + 1);
      (a > 0 || b > a + 1) && ExponentAndSuffix(u[b..], "eE", false)
    else a > 0 && ExponentAndSuffix(u[a..], "eE", false)
  }

  /** An unsigned hexadecimal floating-point literal, whose binary exponent is required. */
  predicate HexFloat(u: string) {
    && |u| >= 2 && u[0] == '0' && (u[1] == 'x' || u[1] == 'X')
    && var a := HexRun(u, 2);
       if a < |u| && u[a] == '.' then
         var b := HexRun(u, a + 1);
         (a > 2 || b > a + 1) && ExponentAndSuffix(u[b..], "pP", true)
       else a > 2 && ExponentAndSuffix(u[a..], "pP", true)
  }

  /** Double.valueOf: after trim, an optional sign and then NaN, Infinity, or a
      decimal or hexadecimal floating-point literal; anything else throws
      NumberFormatException. */
  predicate DoubleSyntax(s: string) {
    var t := Trim(s);
    var u := if t != [] && (t[0] == '+' || t[0] == '-') then t[1..] else t;
    u == "NaN" || u == "Infinity" || DecimalFloat(u) || HexFloat(u)
  }

  lemma {:induction false} DigitRunAll(s: string, i: nat)
    requires i <= |s| && forall k :: i <= k < |s| ==> IsDigit(s[k])
    ensures DigitRun(s, i) == |s|
    decreases |s| - i
  {
    if i < |s| { DigitRunAll(s, i + 1); }
  }

  /** A string whose first and last characters are above U+0020 is its own trim. */
  lemma TrimUntouched(s: string)
    requires s != [] && !IsTrimmed(s[0]) && !IsTrimmed(s[|s| - 1])
    ensures Trim(s) == s
  {
    assert TrimStart(s) == s;
    assert TrimEnd(s) == s;
  }

  /** Every text Integer.valueOf accepts, Double.valueOf accepts too. */
  lemma IntegerTextIsDouble(s: string)
    requires ParseInt(s).Ok?
    ensures DoubleSyntax(s)
  {
    TrimUntouched(s);
    var u := if s[0] == '+' || s[0] == '-' then s[1..] else s;
    assert AllDigits(u);
    DigitRunAll(u, 0);
    assert u[|u|..] == [];
  }
}
