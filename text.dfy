/** String helpers shared by the model: decimal rendering of integers, ASCII case
    folding, the whitespace classes of Java and JavaScript, substring search and
    per-character rewriting (the shape of every `replace(/c/g, ...)` in the scripts). */
module Text {

  // ---------------------------------------------------------------- digits

  predicate IsDigit(c: char) { '0' <= c <= '9' }

  predicate AllDigits(s: string) { forall i :: 0 <= i < |s| ==> IsDigit(s[i]) }

  function DigitChar(d: nat): char
    requires d < 10
  {
    ('0' as int + d) as char
  }

  function DigitValue(c: char): nat
    requires IsDigit(c)
  {
    c as int - '0' as int
  }

  function Pow10(k: nat): nat
  {
    if k == 0 then 1 else 10 * Pow10(k - 1)
  }

  /** Decimal form of a natural number, as Java's `String.valueOf(long)` and
      JavaScript's number-to-string give it for non-negative integers. */
  function NatToString(n: nat): (s: string)
    ensures |s| >= 1 && AllDigits(s)
    ensures n >= 10 ==> s[0] != '0'
    decreases n
  {
    if n < 10 then [DigitChar(n)] else NatToString(n / 10) + [DigitChar(n % 10)]
  }

  /** Decimal form of any integer: a leading '-' for negative values. */
  function IntToString(n: int): string
  {
    if n < 0 then "-" + NatToString(-n) else NatToString(n)
  }

  /** The number a string of decimal digits denotes (leading zeros allowed). */
  function DigitsValue(s: string): nat
    requires AllDigits(s)
    decreases |s|
  {
    if |s| == 0 then 0 else 10 * DigitsValue(s[..|s| - 1]) + DigitValue(s[|s| - 1])
  }

  lemma {:induction false} NatToStringValue(n: nat)
    ensures DigitsValue(NatToString(n)) == n
    decreases n
  {
    if n >= 10 {
      var s := NatToString(n / 10);
      var t := s + [DigitChar(n % 10)];
      assert t[..|t| - 1] == s;
      NatToStringValue(n / 10);
    }
  }

  /** Indexing a concatenation. */
  lemma ConcatAt(x: string, y: string, i: nat)
    requires i < |x| + |y|
    ensures (x + y)[i] == if i < |x| then x[i] else y[i - |x|]
  {
  }

  /** A common prefix cancels. */
  lemma PrefixCancel(p: string, x: string, y: string)
    requires p + x == p + y
    ensures x == y
  {
    assert x == (p + x)[|p|..];
    assert y == (p + y)[|p|..];
  }

  /** A run of digits followed by text that does not start with a digit splits uniquely. */
  lemma DigitRunSplit(x: string, y: string, x2: string, y2: string)
    requires AllDigits(x) && AllDigits(x2)
    requires y != [] && !IsDigit(y[0]) && y2 != [] && !IsDigit(y2[0])
    requires x + y == x2 + y2
    ensures x == x2 && y == y2
  {
    var i := if |x| < |x2| then |x| else |x2|;
    ConcatAt(x, y, i);
    ConcatAt(x2, y2, i);
    assert |x| == |x2|;
    assert x == (x + y)[..|x|];
    assert x2 == (x2 + y2)[..|x2|];
    assert y == (x + y)[|x|..];
    assert y2 == (x2 + y2)[|x2|..];
  }

  /** Rendering is injective: the decimal form determines the number. */
  lemma NatToStringInjective(a: nat, b: nat)
    requires NatToString(a) == NatToString(b)
    ensures a == b
  {
    NatToStringValue(a);
    NatToStringValue(b);
  }

  lemma {:induction false} NatToStringLength(n: nat, k: nat)
    requires Pow10(k) <= n < Pow10(k + 1)
    ensures |NatToString(n)| == k + 1
    decreases k
  {
    if k > 0 {
      NatToStringLength(n / 10, k - 1);
    }
  }

  lemma {:induction false} NatToStringAtMost(n: nat, k: nat)
    requires 1 <= k && n < Pow10(k)
    ensures |NatToString(n)| <= k
    decreases k
  {
    if n >= 10 {
      NatToStringAtMost(n / 10, k - 1);
    }
  }

  lemma {:induction false} DigitsBelow(s: string)
    requires AllDigits(s)
    ensures DigitsValue(s) < Pow10(|s|)
    decreases |s|
  {
    if |s| > 0 {
      DigitsBelow(s[..|s| - 1]);
    }
  }

  lemma {:induction false} Pow10Monotone(i: nat, j: nat)
    ensures i <= j ==> Pow10(i) <= Pow10(j)
    decreases j
  {
    if i < j {
      Pow10Monotone(i, j - 1);
    }
  }

  /** A digit string reading at least 10^k has more than k digits. */
  lemma DigitsLengthAtLeast(s: string, k: nat)
    requires AllDigits(s) && DigitsValue(s) >= Pow10(k)
    ensures |s| > k
  {
    DigitsBelow(s);
    Pow10Monotone(|s|, k);
  }

  function Repeat(c: char, m: nat): (s: string)
    ensures |s| == m && forall i :: 0 <= i < m ==> s[i] == c
  {
    if m == 0 then [] else [c] + Repeat(c, m - 1)
  }

  lemma {:induction false} ZerosValue(m: nat)
    ensures AllDigits(Repeat('0', m)) && DigitsValue(Repeat('0', m)) == 0
  {
    if m > 0 {
      var z := Repeat('0', m);
      assert z[..m - 1] == Repeat('0', m - 1);
      ZerosValue(m - 1);
    }
  }

  lemma {:induction false} LeadingZerosValue(m: nat, t: string)
    requires AllDigits(t)
    ensures AllDigits(Repeat('0', m) + t)
    ensures DigitsValue(Repeat('0', m) + t) == DigitsValue(t)
    decreases |t|
  {
    var u := Repeat('0', m) + t;
    if |t| == 0 {
      assert u == Repeat('0', m);
      ZerosValue(m);
    } else {
      assert u[..|u| - 1] == Repeat('0', m) + t[..|t| - 1];
      LeadingZerosValue(m, t[..|t| - 1]);
    }
  }

  /** Java's `String.format("%06d", n)` for 0 <= n < 1000000: six digits,
      zero-padded on the left, that read back as n. */
  function ZeroPad6(n: nat): (s: string)
    requires n < 1000000
    ensures |s| == 6 && AllDigits(s) && DigitsValue(s) == n
  {
    assert Pow10(6) == 1000000;
    NatToStringAtMost(n, 6);
    NatToStringValue(n);
    LeadingZerosValue(6 - |NatToString(n)|, NatToString(n));
    Repeat('0', 6 - |NatToString(n)|) + NatToString(n)
  }

  // ---------------------------------------------------------------- case

  function UpperChar(c: char): char
  {
    if 'a' <= c <= 'z' then (c as int - 32) as char else c
  }

  function LowerChar(c: char): char
  {
    if 'A' <= c <= 'Z' then (c as int + 32) as char else c
  }

  /** `toUpperCase()` restricted to the ASCII letters. */
  function Upper(s: string): string
  {
    seq(|s|, i requires 0 <= i < |s| => UpperChar(s[i]))
  }

  /** `toLowerCase(Locale.ROOT)` restricted to the ASCII letters. */
  function Lower(s: string): string
  {
    seq(|s|, i requires 0 <= i < |s| => LowerChar(s[i]))
  }

  /** Java's `equalsIgnoreCase` on ASCII text. */
  predicate EqualsIgnoreCase(a: string, b: string)
  {
    Upper(a) == Upper(b)
  }

  // ---------------------------------------------------------------- whitespace

  /** Java's `Character.isWhitespace`: space separators other than the
      no-break ones, the ASCII controls 9-13 and 28-31, line and paragraph separators. */
  predicate IsJavaWhitespace(c: char)
  {
    c == ' ' || ('\t' <= c <= '\r') || ('\U{1C}' <= c <= '\U{1F}')
    || c == '\U{1680}' || ('\U{2000}' <= c <= '\U{2006}') || ('\U{2008}' <= c <= '\U{200A}')
    || c == '\U{2028}' || c == '\U{2029}' || c == '\U{205F}' || c == '\U{3000}'
  }

  /** Java's `String.isBlank`: empty or whitespace only. */
  predicate IsBlank(s: string)
  {
    forall i :: 0 <= i < |s| ==> IsJavaWhitespace(s[i])
  }

  /** The characters JavaScript's `trim` removes (WhiteSpace and LineTerminator). */
  predicate IsJsWhitespace(c: char)
  {
    ('\t' <= c <= '\r') || c == ' ' || c == '\U{A0}' || c == '\U{1680}'
    || ('\U{2000}' <= c <= '\U{200A}') || c == '\U{2028}' || c == '\U{2029}'
    || c == '\U{202F}' || c == '\U{205F}' || c == '\U{3000}' || c == '\U{FEFF}'
  }

  function TrimStart(s: string): string
  {
    if |s| > 0 && IsJsWhitespace(s[0]) then TrimStart(s[1..]) else s
  }

  function TrimEnd(s: string): string
  {
    if |s| > 0 && IsJsWhitespace(s[|s| - 1]) then TrimEnd(s[..|s| - 1]) else s
  }

  /** JavaScript's `String.prototype.trim`. */
  function JsTrim(s: string): string
  {
    TrimEnd(TrimStart(s))
  }

  lemma {:induction false} TrimStartEmpty(s: string)
    ensures TrimStart(s) == [] <==> forall i :: 0 <= i < |s| ==> IsJsWhitespace(s[i])
    decreases |s|
  {
    if |s| > 0 && IsJsWhitespace(s[0]) {
      TrimStartEmpty(s[1..]);
      assert forall i :: 1 <= i < |s| ==> s[i] == s[1..][i - 1];
    }
  }

  lemma {:induction false} TrimEndEmpty(s: string)
    ensures TrimEnd(s) == [] <==> forall i :: 0 <= i < |s| ==> IsJsWhitespace(s[i])
    decreases |s|
  {
    if |s| > 0 && IsJsWhitespace(s[|s| - 1]) {
      TrimEndEmpty(s[..|s| - 1]);
    }
  }

  lemma {:induction false} TrimStartSuffix(s: string)
    ensures |TrimStart(s)| <= |s| && TrimStart(s) == s[|s| - |TrimStart(s)|..]
    ensures TrimStart(s) != [] ==> !IsJsWhitespace(TrimStart(s)[0])
    decreases |s|
  {
    if |s| > 0 && IsJsWhitespace(s[0]) {
      TrimStartSuffix(s[1..]);
    }
  }

  /** A trimmed string is empty exactly when the original holds only whitespace. */
  lemma JsTrimEmpty(s: string)
    ensures JsTrim(s) == [] <==> forall i :: 0 <= i < |s| ==> IsJsWhitespace(s[i])
  {
    var t := TrimStart(s);
    TrimStartSuffix(s);
    TrimStartEmpty(s);
    TrimEndEmpty(t);
    var k := |s| - |t|;
    assert forall i :: k <= i < |s| ==> s[i] == t[i - k];
    if t != [] {
      assert !IsJsWhitespace(t[0]);
    }
  }

  // ---------------------------------------------------------------- search

  /** Java's `String.contains`: `sub` occurs somewhere in `s` (the empty string always does). */
  predicate Contains(s: string, sub: string)
  {
    exists i :: 0 <= i <= |s| - |sub| && OccursAt(s, sub, i)
  }

  /** `sub` occurs in `s` starting at index `i`. */
  predicate OccursAt(s: string, sub: string, i: int)
  {
    0 <= i && i + |sub| <= |s| && s[i..i + |sub|] == sub
  }

  predicate StartsWith(s: string, prefix: string)
  {
    |prefix| <= |s| && s[..|prefix|] == prefix
  }

  /** `s[i..j]` is a run of decimal digits that reads back as `v`. */
  predicate DigitsAt(s: string, i: nat, j: nat, v: nat)
  {
    i <= j <= |s| && AllDigits(s[i..j]) && DigitsValue(s[i..j]) == v
  }

  // ---------------------------------------------------------------- rewriting

  /** Rewrites every character of `s` through `f` and concatenates the pieces. */
  function MapChars(s: string, f: char -> string): string
    decreases |s|
  {
    if s == [] then [] else f(s[0]) + MapChars(s[1..], f)
  }

  /** The rewrite of `replace(/c/g, rep)`. */
  function Replacing(c: char, rep: string): char -> string
  {
    x => if x == c then rep else [x]
  }

  /** JavaScript's `s.replace(/c/g, rep)` for a one-character pattern. */
  function ReplaceAll(s: string, c: char, rep: string): string
  {
    MapChars(s, Replacing(c, rep))
  }

  lemma {:induction false} MapCharsAppend(a: string, b: string, f: char -> string)
    ensures MapChars(a + b, f) == MapChars(a, f) + MapChars(b, f)
    decreases |a|
  {
    if a == [] {
      assert a + b == b;
    } else {
      assert (a + b)[0] == a[0];
      assert (a + b)[1..] == a[1..] + b;
      MapCharsAppend(a[1..], b, f);
    }
  }

  lemma MapCharsSingle(x: char, f: char -> string)
    ensures MapChars([x], f) == f(x)
  {
    assert [x][1..] == [];
  }

  /** Replacing a character that does not occur changes nothing. */
  lemma {:induction false} ReplaceAbsent(s: string, c: char, rep: string)
    requires c !in s
    ensures ReplaceAll(s, c, rep) == s
    decreases |s|
  {
    if s != [] {
      assert s[0] != c;
      assert c !in s[1..];
      ReplaceAbsent(s[1..], c, rep);
    }
  }

  /** If no piece produced by `f` holds `c`, neither does the rewritten string. */
  lemma {:induction false} MapCharsAvoids(s: string, f: char -> string, c: char)
    requires forall x :: c !in f(x)
    ensures c !in MapChars(s, f)
    decreases |s|
  {
    if s != [] {
      MapCharsAvoids(s[1..], f, c);
    }
  }
}
