/** The string operations the JavaScript sources lean on: `includes`,
    `toLowerCase`/`toUpperCase` (ASCII letters only), `trim`, `join`,
    `split(sep)[1]`, and integer <-> decimal text conversion. */
module Text {
  import opened Base

  predicate IsPrefix(p: string, s: string) {
    |p| <= |s| && s[..|p|] == p
  }

  /** `s.includes(t)`, computed by scanning `s` left to right. */
  predicate Includes(s: string, t: string)
    decreases |s|
  {
    IsPrefix(t, s) || (|s| > 0 && Includes(s[1..], t))
  }

  /** `t` occurs in `s` starting at index `i`. */
  predicate OccursAt(s: string, t: string, i: int) {
    0 <= i && i + |t| <= |s| && s[i..i + |t|] == t
  }

  /** The scan agrees with the positional definition of a substring. */
  lemma {:induction false} IncludesIff(s: string, t: string)
    ensures Includes(s, t) <==> exists i :: OccursAt(s, t, i)
    decreases |s|
  {
    if IsPrefix(t, s) {
      assert OccursAt(s, t, 0);
    } else if |s| > 0 {
      IncludesIff(s[1..], t);
      if Includes(s[1..], t) {
        var j :| OccursAt(s[1..], t, j);
        assert s[j + 1..j + 1 + |t|] == s[1..][j..j + |t|];
        assert OccursAt(s, t, j + 1);
      }
      if exists i :: OccursAt(s, t, i) {
        var i :| OccursAt(s, t, i);
        assert i != 0;
        assert s[1..][i - 1..i - 1 + |t|] == s[i..i + |t|];
        assert OccursAt(s[1..], t, i - 1);
      }
    } else {
      assert forall i :: !OccursAt(s, t, i);
    }
  }

  lemma IncludesEmpty(s: string)
    ensures Includes(s, "")
  {
    assert IsPrefix("", s);
  }

  lemma IncludesItself(s: string)
    ensures Includes(s, s)
  {
    assert IsPrefix(s, s);
  }

  /** Prepending text never hides an occurrence. */
  lemma {:induction false} IncludesAfter(p: string, x: string, t: string)
    requires Includes(x, t)
    ensures Includes(p + x, t)
    decreases |p|
  {
    if |p| > 0 {
      IncludesAfter(p[1..], x, t);
      assert (p + x)[1..] == p[1..] + x;
    } else {
      assert p + x == x;
    }
  }

  /** Appending text never hides an occurrence. */
  lemma {:induction false} IncludesBefore(x: string, q: string, t: string)
    requires Includes(x, t)
    ensures Includes(x + q, t)
    decreases |x|
  {
    if IsPrefix(t, x) {
      assert (x + q)[..|t|] == x[..|t|];
    } else {
      IncludesBefore(x[1..], q, t);
      assert (x + q)[1..] == x[1..] + q;
    }
  }

  lemma IncludesMiddle(p: string, t: string, q: string)
    ensures Includes(p + t + q, t)
  {
    IncludesItself(t);
    IncludesBefore(t, q, t);
    IncludesAfter(p, t + q, t);
    assert p + t + q == p + (t + q);
  }

  /** An occurrence inside an occurrence is an occurrence. */
  lemma IncludesTransitive(s: string, m: string, t: string)
    requires Includes(s, m) && Includes(m, t)
    ensures Includes(s, t)
  {
    IncludesIff(s, m);
    IncludesIff(m, t);
    var i :| OccursAt(s, m, i);
    var k :| OccursAt(m, t, k);
    forall j | 0 <= j < |t|
      ensures s[i + k + j] == t[j]
    {
      assert t[j] == m[k + j] == s[i..i + |m|][k + j];
    }
    assert s[i + k..i + k + |t|] == t;
    assert OccursAt(s, t, i + k);
    IncludesIff(s, t);
  }

  /* ---------- case mapping (ASCII letters; other characters unchanged) ---------- */

  function LowerChar(c: char): char {
    if 'A' <= c <= 'Z' then (c as int + 32) as char else c
  }

  function UpperChar(c: char): char {
    if 'a' <= c <= 'z' then (c as int - 32) as char else c
  }

  function Lower(s: string): (r: string)
    ensures |r| == |s|
    ensures forall i :: 0 <= i < |s| ==> r[i] == LowerChar(s[i])
  {
    seq(|s|, i requires 0 <= i < |s| => LowerChar(s[i]))
  }

  function Upper(s: string): (r: string)
    ensures |r| == |s|
    ensures forall i :: 0 <= i < |s| ==> r[i] == UpperChar(s[i])
  {
    seq(|s|, i requires 0 <= i < |s| => UpperChar(s[i]))
  }

  /* ---------- String.prototype.trim ---------- */

  /** The ECMAScript WhiteSpace and LineTerminator code points. */
  const JsSpaceChars: set<char> := {
    '\t', '\n', '\r', ' ', '\U{000B}', '\U{000C}', '\U{00A0}', '\U{1680}',
    '\U{2000}', '\U{2001}', '\U{2002}', '\U{2003}', '\U{2004}', '\U{2005}',
    '\U{2006}', '\U{2007}', '\U{2008}', '\U{2009}', '\U{200A}',
    '\U{2028}', '\U{2029}', '\U{202F}', '\U{205F}', '\U{3000}', '\U{FEFF}'
  }

  predicate IsJsSpace(c: char) {
    c in JsSpaceChars
  }

  /* The trimming functions are written for any character class `sp`, so that
     their proofs never unfold the (large) white-space table, and they carry no
     contracts of their own: their properties are lemmas, so that a caller that
     only passes trimmed text along does not pay for them. */

  predicate AllIn(s: string, sp: char -> bool) {
    forall i :: 0 <= i < |s| ==> sp(s[i])
  }

  predicate AllSpace(s: string) {
    AllIn(s, IsJsSpace)
  }

  function TrimStartBy(s: string, sp: char -> bool): string
    decreases |s|
  {
    if |s| > 0 && sp(s[0]) then TrimStartBy(s[1..], sp) else s
  }

  function TrimEndBy(s: string, sp: char -> bool): string
    decreases |s|
  {
    if |s| > 0 && sp(s[|s| - 1]) then TrimEndBy(s[..|s| - 1], sp) else s
  }

  /** Trimming the start drops a prefix of `sp` characters and stops at the first other one. */
  lemma {:induction false} TrimStartBySpec(s: string, sp: char -> bool)
    ensures var r := TrimStartBy(s, sp);
      && |r| <= |s| && r == s[|s| - |r|..]
      && AllIn(s[..|s| - |r|], sp)
      && (r == "" || !sp(r[0]))
    decreases |s|
  {
    if |s| > 0 && sp(s[0]) {
      TrimStartBySpec(s[1..], sp);
      var r := TrimStartBy(s[1..], sp);
      assert s[1..][|s| - 1 - |r|..] == s[|s| - |r|..];
      var p := s[..|s| - |r|];
      forall i | 0 <= i < |p| ensures sp(p[i]) {
        if i > 0 {
          assert p[i] == s[1..][..|s| - 1 - |r|][i - 1];
        }
      }
    }
  }

  /** Trimming the end drops a suffix of `sp` characters and stops at the last other one. */
  lemma {:induction false} TrimEndBySpec(s: string, sp: char -> bool)
    ensures var r := TrimEndBy(s, sp);
      && |r| <= |s| && r == s[..|r|]
      && AllIn(s[|r|..], sp)
      && (r == "" || !sp(r[|r| - 1]))
    decreases |s|
  {
    if |s| > 0 && sp(s[|s| - 1]) {
      var s' := s[..|s| - 1];
      TrimEndBySpec(s', sp);
      var r := TrimEndBy(s', sp);
      assert s'[..|r|] == s[..|r|];
      var q := s[|r|..];
      forall i | 0 <= i < |q| ensures sp(q[i]) {
        if i < |s| - 1 - |r| {
          assert q[i] == s'[|r|..][i];
        }
      }
    }
  }

  function TrimBy(s: string, sp: char -> bool): string {
    TrimEndBy(TrimStartBy(s, sp), sp)
  }

  /** Both-ends trimming yields a slice of `s`, with no `sp` character at
      either end, that is empty exactly when `s` is all `sp`. */
  lemma TrimBySpec(s: string, sp: char -> bool)
    ensures var r := TrimBy(s, sp);
      && (r == "" || (!sp(r[0]) && !sp(r[|r| - 1])))
      && (r == "" <==> AllIn(s, sp))
      && (exists a :: OccursAt(s, r, a))
  {
    var u := TrimStartBy(s, sp);
    var r := TrimEndBy(u, sp);
    TrimStartBySpec(s, sp);
    TrimEndBySpec(u, sp);
    TrimSlice(s, sp);
    TrimEmptyIff(s, sp);
    if r != "" {
      assert r[0] == u[0];
    }
  }

  lemma TrimSlice(s: string, sp: char -> bool)
    ensures OccursAt(s, TrimEndBy(TrimStartBy(s, sp), sp), |s| - |TrimStartBy(s, sp)|)
  {
    var u := TrimStartBy(s, sp);
    var r := TrimEndBy(u, sp);
    TrimStartBySpec(s, sp);
    TrimEndBySpec(u, sp);
    PrefixOfSuffix(s, |s| - |u|, |r|);
  }

  lemma PrefixOfSuffix(s: string, a: int, k: int)
    requires 0 <= a <= |s| && 0 <= k <= |s| - a
    ensures OccursAt(s, s[a..][..k], a)
  {
    assert s[a..][..k] == s[a..a + k];
  }

  lemma TrimEmptyIff(s: string, sp: char -> bool)
    ensures TrimEndBy(TrimStartBy(s, sp), sp) == "" <==> AllIn(s, sp)
  {
    var u := TrimStartBy(s, sp);
    var a := |s| - |u|;
    TrimStartBySpec(s, sp);
    TrimEndBySpec(u, sp);
    if TrimEndBy(u, sp) == "" {
      assert u[0..] == u;
      assert u == "";
      forall i | 0 <= i < |s| ensures sp(s[i]) {
        assert s[i] == s[..a][i];
      }
    }
    if AllIn(s, sp) {
      assert u == "";
    }
  }

  /** `s.trimStart()` */
  function TrimStart(s: string): string {
    TrimStartBy(s, IsJsSpace)
  }

  /** `s.trim()`; `TrimSpec` states what it returns. */
  function Trim(s: string): string {
    TrimBy(s, IsJsSpace)
  }

  /** The trimmed text is a slice of `s` that neither starts nor ends with
      white space, and it is empty exactly when `s` is white space throughout. */
  lemma TrimSpec(s: string)
    ensures var r := Trim(s);
      && (exists a :: OccursAt(s, r, a))
      && (r == "" || (!IsJsSpace(r[0]) && !IsJsSpace(r[|r| - 1])))
      && (r == "" <==> AllSpace(s))
  {
    TrimBySpec(s, IsJsSpace);
  }

  /* ---------- Array.prototype.join ---------- */

  function Join(parts: seq<string>, sep: string): string
    decreases |parts|
  {
    if |parts| == 0 then ""
    else if |parts| == 1 then parts[0]
    else parts[0] + sep + Join(parts[1..], sep)
  }

  /** Every joined part appears in the joined text. */
  lemma {:induction false} JoinIncludesPart(parts: seq<string>, sep: string, i: int)
    requires 0 <= i < |parts|
    ensures Includes(Join(parts, sep), parts[i])
    decreases |parts|
  {
    if |parts| == 1 {
      IncludesItself(parts[0]);
    } else if i == 0 {
      IncludesMiddle("", parts[0], sep + Join(parts[1..], sep));
      assert "" + parts[0] + (sep + Join(parts[1..], sep)) == Join(parts, sep);
    } else {
      JoinIncludesPart(parts[1..], sep, i - 1);
      IncludesAfter(parts[0] + sep, Join(parts[1..], sep), parts[i]);
    }
  }

  /* ---------- String.prototype.split ---------- */

  /** The text of `s` before its first `sep`, or all of `s` when it has none. */
  function UpTo(s: string, sep: char): (r: string)
    ensures IsPrefix(r, s) && sep !in r
    ensures |r| < |s| ==> s[|r|] == sep
    decreases |s|
  {
    if |s| == 0 || s[0] == sep then "" else [s[0]] + UpTo(s[1..], sep)
  }

  /** `s.split(sep)[1]`: the text between the first and the second `sep`, or
      `undefined` (`None`) when `s` has no `sep`. */
  function SecondField(s: string, sep: char): (r: Option<string>)
    ensures r.None? <==> sep !in s
    ensures r.Some? ==> sep !in r.value
  {
    var head := UpTo(s, sep);
    if |head| == |s| then
      assert head == s;
      None
    else
      assert s[|head|] == sep;
      Some(UpTo(s[|head| + 1..], sep))
  }

  /** A text without `sep` is its own first field, whatever follows the `sep`. */
  lemma {:induction false} UpToOfFields(a: string, sep: char, rest: string)
    requires sep !in a
    ensures UpTo(a + [sep] + rest, sep) == a
    decreases |a|
  {
    if |a| > 0 {
      assert (a + [sep] + rest)[1..] == a[1..] + [sep] + rest;
      UpToOfFields(a[1..], sep, rest);
    }
  }

  /** A text without `sep` is its own first field. */
  lemma UpToWhole(b: string, sep: char)
    requires sep !in b
    ensures UpTo(b, sep) == b
  {
  }

  /** Splitting `a sep b` or `a sep b sep rest` gives back `b` as the second field. */
  lemma SecondFieldOfFields(a: string, b: string, sep: char, rest: string)
    requires sep !in a && sep !in b
    ensures SecondField(a + [sep] + b, sep) == Some(b)
    ensures SecondField(a + [sep] + b + [sep] + rest, sep) == Some(b)
  {
    var s := a + [sep] + b;
    UpToOfFields(a, sep, b);
    assert s[|a| + 1..] == b;
    UpToWhole(b, sep);
    var t := a + [sep] + b + [sep] + rest;
    UpToOfFields(a, sep, b + [sep] + rest);
    assert t == a + [sep] + (b + [sep] + rest);
    assert t[|a| + 1..] == b + [sep] + rest;
    UpToOfFields(b, sep, rest);
  }

  /* ---------- decimal text ---------- */

  predicate IsDigit(c: char) {
    '0' <= c <= '9'
  }

  predicate AllDigits(s: string) {
    forall i :: 0 <= i < |s| ==> IsDigit(s[i])
  }

  function DigitChar(d: int): (c: char)
    requires 0 <= d < 10
    ensures IsDigit(c) && c as int - '0' as int == d
  {
    (d + '0' as int) as char
  }

  /** `String(n)` for a non-negative integer. */
  function NatToString(n: nat): (r: string)
    ensures |r| >= 1 && AllDigits(r)
    ensures r[0] == '0' ==> n == 0
    decreases n
  {
    if n < 10 then [DigitChar(n)] else NatToString(n / 10) + [DigitChar(n % 10)]
  }

  /** `String(n)`, or the `${n}` interpolation. */
  function IntToString(n: int): string {
    if n < 0 then "-" + NatToString(-n) else NatToString(n)
  }

  /** The value of a run of decimal digits. */
  function DigitsValue(s: string): nat
    requires AllDigits(s)
    decreases |s|
  {
    if |s| == 0 then 0
    else DigitsValue(s[..|s| - 1]) * 10 + (s[|s| - 1] as int - '0' as int)
  }

  /** The maximal prefix of decimal digits. */
  function LeadingDigits(s: string): (r: string)
    ensures IsPrefix(r, s) && AllDigits(r)
    ensures |r| < |s| ==> !IsDigit(s[|r|])
    decreases |s|
  {
    if |s| > 0 && IsDigit(s[0]) then [s[0]] + LeadingDigits(s[1..]) else ""
  }

  /** Rendering a natural number and reading the digits back gives the number. */
  lemma {:induction false} NatToStringRoundTrip(n: nat)
    ensures DigitsValue(NatToString(n)) == n
    decreases n
  {
    if n >= 10 {
      NatToStringRoundTrip(n / 10);
      var s := NatToString(n);
      assert s[..|s| - 1] == NatToString(n / 10);
    }
  }

  /** A digit run followed by a non-digit (or nothing) is read up to the non-digit. */
  lemma {:induction false} LeadingDigitsOfDigits(s: string, t: string)
    requires AllDigits(s)
    requires t == "" || !IsDigit(t[0])
    ensures LeadingDigits(s + t) == s
    decreases |s|
  {
    if |s| > 0 {
      LeadingDigitsOfDigits(s[1..], t);
      assert (s + t)[1..] == s[1..] + t;
    } else {
      assert s + t == t;
    }
  }
}
