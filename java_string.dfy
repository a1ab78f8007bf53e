/**
 * The parts of `java.lang.String`, `Integer` and Commons Lang `NumberUtils` that the
 * plugins rely on, stated over `seq<char>`.  Lengths and the order of strings count UTF-16
 * code units, as Java does; case mapping and digit tests are ASCII-only.
 */
module JavaString {

  /** A Java `String` reference, which may be null. */
  datatype NString = Null | Str(s: string)

  /** The text that string concatenation produces for a possibly-null reference. */
  function Show(n: NString): string
  {
    match n
    case Null => "null"
    case Str(s) => s
  }

  // ---------------------------------------------------------------------------
  // trim()

  /** `String.trim()` drops every character whose code is at most U+0020. */
  predicate IsSpace(c: char)
  {
    c <= ' '
  }

  function TrimStart(s: string): (r: string)
    ensures |r| <= |s| && r == s[|s| - |r|..]
    ensures r != [] ==> !IsSpace(r[0])
    ensures forall i :: 0 <= i < |s| - |r| ==> IsSpace(s[i])
  {
    if s != [] && IsSpace(s[0]) then
      var r := TrimStart(s[1..]);
      assert forall i :: 1 <= i < |s| - |r| ==> s[i] == s[1..][i - 1];
      r
    else s
  }

  function TrimEnd(s: string): (r: string)
    ensures |r| <= |s| && r == s[..|r|]
    ensures r != [] ==> !IsSpace(r[|r| - 1])
    ensures forall i :: |r| <= i < |s| ==> IsSpace(s[i])
  {
    if s != [] && IsSpace(s[|s| - 1]) then TrimEnd(s[..|s| - 1]) else s
  }

  /** `s.trim()`: the result neither starts nor ends with a space, and it is empty exactly when `s` is blank. */
  function Trim(s: string): (r: string)
    ensures |r| <= |s|
    ensures r != [] ==> !IsSpace(r[0]) && !IsSpace(r[|r| - 1])
    ensures r == [] <==> forall i :: 0 <= i < |s| ==> IsSpace(s[i])
  {
    TrimBlank(s);
    TrimEnd(TrimStart(s))
  }

  /** Trimming both ends leaves nothing exactly when every character is a space. */
  lemma TrimBlank(s: string)
    ensures TrimEnd(TrimStart(s)) == [] <==> forall i :: 0 <= i < |s| ==> IsSpace(s[i])
  {
    var t := TrimStart(s);
    if t != [] {
      assert t[0] == s[|s| - |t|];
    }
  }

  /** A string that neither starts nor ends with a space is its own trim. */
  lemma TrimKeeps(s: string)
    requires s != [] && !IsSpace(s[0]) && !IsSpace(s[|s| - 1])
    ensures Trim(s) == s
  {
    assert TrimStart(s) == s;
    assert TrimEnd(s) == s;
  }

  /** Trimming a trimmed string changes nothing. */
  lemma TrimIdempotent(s: string)
    ensures Trim(Trim(s)) == Trim(s)
  {
    var r := Trim(s);
    if r != [] {
      assert TrimStart(r) == r;
      assert TrimEnd(r) == r;
    }
  }

  // ---------------------------------------------------------------------------
  // startsWith, contains, toLowerCase, equalsIgnoreCase

  predicate StartsWith(s: string, prefix: string)
  {
    |prefix| <= |s| && s[..|prefix|] == prefix
  }

  /** `t` occurs in `s` starting at index `i`. */
  predicate OccursAt(s: string, t: string, i: int)
  {
    0 <= i && i + |t| <= |s| && s[i..i + |t|] == t
  }

  predicate Contains(s: string, t: string)
  {
    exists i | 0 <= i <= |s| - |t| :: OccursAt(s, t, i)
  }

  function ToLowerChar(c: char): char
  {
    if 'A' <= c <= 'Z' then (c as int + 32) as char else c
  }

  function ToLower(s: string): string
  {
    seq(|s|, i requires 0 <= i < |s| => ToLowerChar(s[i]))
  }

  predicate EqualsIgnoreCase(a: string, b: string)
  {
    ToLower(a) == ToLower(b)
  }

  /** Lower-casing never creates or removes a character that is not an upper-case letter. */
  lemma ToLowerKeeps(s: string, c: char)
    requires !('A' <= c <= 'Z') && !('a' <= c <= 'z')
    ensures c in ToLower(s) <==> c in s
  {
    if c in s {
      var i :| 0 <= i < |s| && s[i] == c;
      assert ToLower(s)[i] == c;
    }
    if c in ToLower(s) {
      var i :| 0 <= i < |s| && ToLower(s)[i] == c;
      assert s[i] == c;
    }
  }

  // ---------------------------------------------------------------------------
  // replace(CharSequence, CharSequence)

  /** `s.replace(target, replacement)`: every occurrence, scanning left to right without overlap. */
  function Replace(s: string, target: string, replacement: string): string
    requires target != []
    decreases |s|
  {
    if |s| < |target| then s
    else if s[..|target|] == target then replacement + Replace(s[|target|..], target, replacement)
    else [s[0]] + Replace(s[1..], target, replacement)
  }

  /** A string in which the target never occurs comes back unchanged. */
  lemma {:induction false} ReplaceAbsent(s: string, target: string, replacement: string)
    requires target != [] && !Contains(s, target)
    ensures Replace(s, target, replacement) == s
  {
    if |s| >= |target| {
      assert !OccursAt(s, target, 0);
      assert !Contains(s[1..], target) by {
        forall i | OccursAt(s[1..], target, i) ensures OccursAt(s, target, i + 1) {
          assert s[1..][i..i + |target|] == s[i + 1..i + 1 + |target|];
        }
      }
      ReplaceAbsent(s[1..], target, replacement);
    }
  }

  /** A target whose first character is missing from `s` cannot occur in `s`. */
  lemma AbsentByFirstChar(s: string, target: string)
    requires target != [] && target[0] !in s
    ensures !Contains(s, target)
  {
  }

  /** Text before the first occurrence is copied, the occurrence replaced, and the scan goes on after it. */
  lemma {:induction false} ReplaceAfterPlainText(p: string, target: string, replacement: string, q: string)
    requires target != [] && target[0] !in p
    ensures Replace(p + target + q, target, replacement) == p + replacement + Replace(q, target, replacement)
  {
    var s := p + target + q;
    if p == [] {
      assert s[..|target|] == target;
      assert s[|target|..] == q;
    } else {
      assert s[0] == p[0] != target[0];
      assert s[1..] == p[1..] + target + q;
      assert Replace(s, target, replacement) == [p[0]] + Replace(s[1..], target, replacement);
      ReplaceAfterPlainText(p[1..], target, replacement, q);
      assert p == [p[0]] + p[1..];
    }
  }

  // ---------------------------------------------------------------------------
  // Digits: NumberUtils.isDigits, Integer.parseInt, Integer.toString

  predicate IsDigit(c: char)
  {
    '0' <= c <= '9'
  }

  predicate AllDigits(s: string)
  {
    forall i :: 0 <= i < |s| ==> IsDigit(s[i])
  }

  /** `NumberUtils.isDigits`: not empty, and every character a digit. */
  predicate IsDigits(s: string)
  {
    s != [] && AllDigits(s)
  }

  /** `Integer.parseInt` of a digit string (without the 32-bit range check). */
  function DigitsValue(s: string): nat
    requires AllDigits(s)
  {
    if s == [] then 0 else 10 * DigitsValue(s[..|s| - 1]) + (s[|s| - 1] as int - '0' as int)
  }

  function DigitChar(d: nat): (c: char)
    requires d < 10
    ensures IsDigit(c)
  {
    ('0' as int + d) as char
  }

  /** Decimal text of a natural number, most significant digit first. */
  function NatToString(n: nat): (s: string)
    ensures IsDigits(s)
  {
    if n < 10 then [DigitChar(n)] else NatToString(n / 10) + [DigitChar(n % 10)]
  }

  /** `Integer.toString`: a minus sign before the digits of a negative number. */
  function IntToString(i: int): string
  {
    if i < 0 then "-" + NatToString(-i) else NatToString(i)
  }

  /** Parsing the decimal text of a number gives the number back. */
  lemma {:induction false} NatToStringRoundTrip(n: nat)
    ensures DigitsValue(NatToString(n)) == n
  {
    if n >= 10 {
      var s := NatToString(n);
      assert s[..|s| - 1] == NatToString(n / 10);
      NatToStringRoundTrip(n / 10);
    }
  }

  /** Different numbers have different decimal texts. */
  lemma IntToStringInjective(a: int, b: int)
    requires IntToString(a) == IntToString(b)
    ensures a == b
  {
    assert (a < 0) == (IntToString(a)[0] == '-');
    assert (b < 0) == (IntToString(b)[0] == '-');
    if a < 0 {
      assert NatToString(-a) == IntToString(a)[1..];
      assert NatToString(-b) == IntToString(b)[1..];
      NatToStringRoundTrip(-a);
      NatToStringRoundTrip(-b);
    } else {
      NatToStringRoundTrip(a);
      NatToStringRoundTrip(b);
    }
  }

  /** The decimal text of a number never contains a left brace. */
  lemma NoBraceInNumber(i: int)
    ensures '{' !in IntToString(i)
  {
    var d := NatToString(if i < 0 then -i else i);
    assert forall k :: 0 <= k < |d| ==> d[k] != '{';
  }

  // ---------------------------------------------------------------------------
  // split("=", 2)

  function IndexOf(s: string, c: char): (i: nat)
    requires c in s
    ensures i < |s| && s[i] == c && c !in s[..i]
  {
    if s[0] == c then 0 else 1 + IndexOf(s[1..], c)
  }

  /**
   * `s.split(sep, 2)` for a one-character literal separator: the whole string when the
   * separator is absent, otherwise the text before and after its first occurrence.
   */
  function SplitOnce(s: string, sep: char): (parts: seq<string>)
    ensures 1 <= |parts| <= 2
    ensures |parts| == 2 <==> sep in s
    ensures |parts| == 1 ==> parts[0] == s
    ensures |parts| == 2 ==> s == parts[0] + [sep] + parts[1] && sep !in parts[0]
  {
    if sep !in s then [s]
    else
      var i := IndexOf(s, sep);
      assert s == s[..i] + [sep] + s[i + 1..];
      [s[..i], s[i + 1..]]
  }

  // ---------------------------------------------------------------------------
  // UTF-16: what length() counts and compareTo compares

  /**
   * The UTF-16 code units of one character: the character itself below U+10000, and
   * otherwise its high and low surrogate.
   */
  function CodeUnits(c: char): (u: seq<int>)
    ensures |u| == (if c as int < 0x10000 then 1 else 2)
    ensures 0 <= u[0] < 0x10000 && (0xD800 <= u[0] < 0xDC00 <==> |u| == 2)
  {
    var n := c as int;
    if n < 0x10000 then [n] else [0xD800 + (n - 0x10000) / 0x400, 0xDC00 + (n - 0x10000) % 0x400]
  }

  /** The UTF-16 code units of a string, the units Java stores. */
  function Utf16(s: string): seq<int>
  {
    if s == [] then [] else CodeUnits(s[0]) + Utf16(s[1..])
  }

  /** `String.length()`: the number of UTF-16 code units. */
  function Length(s: string): nat
  {
    |Utf16(s)|
  }

  /**
   * A string is at least as long as it has characters and at most twice that, and exactly
   * that long when no character lies above U+FFFF.
   */
  lemma {:induction false} LengthBounds(s: string)
    ensures |s| <= Length(s) <= 2 * |s|
    ensures (forall i :: 0 <= i < |s| ==> s[i] as int < 0x10000) ==> Length(s) == |s|
  {
    if s != [] {
      LengthBounds(s[1..]);
      if forall i :: 0 <= i < |s| ==> s[i] as int < 0x10000 {
        assert forall i :: 0 <= i < |s[1..]| ==> s[1..][i] as int < 0x10000 by {
          forall i | 0 <= i < |s[1..]| ensures s[1..][i] as int < 0x10000 {
            assert s[1..][i] == s[i + 1];
          }
        }
      }
    }
  }

  /** A character's units followed by anything decide the character and the rest. */
  lemma CodeUnitsPrefix(c: char, d: char, x: seq<int>, y: seq<int>)
    requires CodeUnits(c) + x == CodeUnits(d) + y
    ensures c == d && x == y
  {
    var u, v := CodeUnits(c), CodeUnits(d);
    assert u[0] == (CodeUnits(c) + x)[0] == v[0];
    assert |u| == |v|;
    if |u| == 2 {
      var m, n := c as int - 0x10000, d as int - 0x10000;
      assert u[1] == (CodeUnits(c) + x)[1] == v[1];
      assert m / 0x400 == n / 0x400 && m % 0x400 == n % 0x400;
      assert m == m / 0x400 * 0x400 + m % 0x400;
      assert n == n / 0x400 * 0x400 + n % 0x400;
    }
    assert x == (u + x)[|u|..] == (v + y)[|v|..] == y;
  }

  /** Different strings have different UTF-16 units. */
  lemma {:induction false} Utf16Injective(a: string, b: string)
    requires Utf16(a) == Utf16(b)
    ensures a == b
  {
    if a != [] && b != [] {
      CodeUnitsPrefix(a[0], b[0], Utf16(a[1..]), Utf16(b[1..]));
      Utf16Injective(a[1..], b[1..]);
      assert a == [a[0]] + a[1..] && b == [b[0]] + b[1..];
    }
  }

  /** Lexicographic order of code units, a proper prefix first. */
  predicate UnitsLess(a: seq<int>, b: seq<int>)
    decreases |a|
  {
    if a == [] then b != []
    else if b == [] then false
    else if a[0] != b[0] then a[0] < b[0]
    else UnitsLess(a[1..], b[1..])
  }

  lemma {:induction false} UnitsLessIrreflexive(a: seq<int>)
    ensures !UnitsLess(a, a)
  {
    if a != [] {
      UnitsLessIrreflexive(a[1..]);
    }
  }

  lemma {:induction false} UnitsLessTransitive(a: seq<int>, b: seq<int>, c: seq<int>)
    requires UnitsLess(a, b) && UnitsLess(b, c)
    ensures UnitsLess(a, c)
    decreases |a|
  {
    if a != [] && b != [] && c != [] && a[0] == b[0] && b[0] == c[0] {
      UnitsLessTransitive(a[1..], b[1..], c[1..]);
    }
  }

  lemma {:induction false} UnitsLessTotal(a: seq<int>, b: seq<int>)
    requires !UnitsLess(a, b) && !UnitsLess(b, a)
    ensures a == b
    decreases |a|
  {
    if a != [] && b != [] {
      UnitsLessTotal(a[1..], b[1..]);
      assert a == [a[0]] + a[1..] && b == [b[0]] + b[1..];
    }
  }

  /** `a.compareTo(b) < 0`: lexicographic order of the UTF-16 code units. */
  predicate StrLess(a: string, b: string)
  {
    UnitsLess(Utf16(a), Utf16(b))
  }

  lemma StrLessIrreflexive(a: string)
    ensures !StrLess(a, a)
  {
    UnitsLessIrreflexive(Utf16(a));
  }

  lemma StrLessTransitive(a: string, b: string, c: string)
    requires StrLess(a, b) && StrLess(b, c)
    ensures StrLess(a, c)
  {
    UnitsLessTransitive(Utf16(a), Utf16(b), Utf16(c));
  }

  /** Two strings that compare equal (`compareTo` returns 0) are the same string. */
  lemma StrLessTotal(a: string, b: string)
    requires !StrLess(a, b) && !StrLess(b, a)
    ensures a == b
  {
    UnitsLessTotal(Utf16(a), Utf16(b));
    Utf16Injective(a, b);
  }

  /** A character above U+FFFF sorts before U+FFFF, since its high surrogate is smaller. */
  lemma SurrogateSortsFirst()
    ensures StrLess("\U{10000}", "\U{FFFF}")
  {
    assert Utf16("\U{10000}") == [0xD800, 0xDC00];
    assert Utf16("\U{FFFF}") == [0xFFFF];
  }
}
