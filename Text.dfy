/**
 * The handful of Python string operations the application relies on: character classes,
 * `strip`, `split` on one separator character, counting a character, and the decimal
 * text of integers that `str(n)` and `int(s)` convert between.
 *
 * Whitespace is the set Python's `str.isspace()` accepts, which `strip()`, the regex class
 * `\s` and `int()` all use. Digits are ASCII: `\d` and `int()` also accept other decimal
 * digits, which this model leaves out.
 */
module Text {
  import opened Wrappers

  /**
   * Python's whitespace: tab, line feed, vertical tab, form feed and carriage return; the
   * four information separators U+001C to U+001F; space; next line; no-break space; and
   * the Unicode space and line separators.
   */
  predicate IsSpace(c: char) {
    || '\t' <= c <= '\r'
    || '\U{1C}' <= c <= ' '
    || c == '\U{85}' || c == '\U{A0}' || c == '\U{1680}'
    || '\U{2000}' <= c <= '\U{200A}'
    || c == '\U{2028}' || c == '\U{2029}' || c == '\U{202F}' || c == '\U{205F}' || c == '\U{3000}'
  }

  predicate IsDigit(c: char) {
    '0' <= c <= '9'
  }

  predicate IsLetter(c: char) {
    'a' <= c <= 'z' || 'A' <= c <= 'Z'
  }

  predicate AllSpace(s: string) {
    forall i :: 0 <= i < |s| ==> IsSpace(s[i])
  }

  predicate AllDigits(s: string) {
    forall i :: 0 <= i < |s| ==> IsDigit(s[i])
  }

  /** Every character of `s` in positions `lo..hi` is whitespace. */
  predicate SpacesIn(s: string, lo: int, hi: int)
    requires 0 <= lo <= hi <= |s|
  {
    forall i :: lo <= i < hi ==> IsSpace(s[i])
  }

  /** Every character of `s` in positions `lo..hi` is a digit. */
  predicate DigitsIn(s: string, lo: int, hi: int)
    requires 0 <= lo <= hi <= |s|
  {
    forall i :: lo <= i < hi ==> IsDigit(s[i])
  }

  /** The first position at or after `k` that does not hold whitespace (`|s|` if none). */
  function SkipSpaces(s: string, k: nat): (j: nat)
    requires k <= |s|
    ensures k <= j <= |s| && SpacesIn(s, k, j)
    ensures j < |s| ==> !IsSpace(s[j])
    decreases |s| - k
  {
    if k < |s| && IsSpace(s[k]) then SkipSpaces(s, k + 1) else k
  }

  /** No whitespace at either end: the shape of everything `strip()` returns. */
  predicate Stripped(s: string) {
    s == [] || (!IsSpace(s[0]) && !IsSpace(s[|s| - 1]))
  }

  /** Python's `s.lstrip()`: the suffix left after dropping leading whitespace. */
  function StripLeft(s: string): (r: string)
    ensures |r| <= |s| && r == s[|s| - |r|..]
    ensures AllSpace(s[..|s| - |r|])
    ensures r == [] || !IsSpace(r[0])
  {
    if s != [] && IsSpace(s[0]) then StripLeft(s[1..]) else s
  }

  /** Python's `s.rstrip()`: the prefix left after dropping trailing whitespace. */
  function StripRight(s: string): (r: string)
    ensures |r| <= |s| && r == s[..|r|]
    ensures AllSpace(s[|r|..])
    ensures r == [] || !IsSpace(r[|r| - 1])
  {
    if s != [] && IsSpace(s[|s| - 1]) then
      var r := StripRight(s[..|s| - 1]);
      SpaceSuffix(s, |r|);
      r
    else s
  }

  /** A whitespace suffix of all but the last character, and a last whitespace character. */
  lemma SpaceSuffix(s: string, k: nat)
    requires s != [] && k <= |s| - 1 && IsSpace(s[|s| - 1]) && AllSpace(s[..|s| - 1][k..])
    ensures AllSpace(s[k..])
  {
    forall i | 0 <= i < |s| - k ensures IsSpace(s[k..][i]) {
      if i < |s| - 1 - k {
        assert s[k..][i] == s[..|s| - 1][k..][i];
      }
    }
  }

  /** Python's `s.strip()`. */
  function Strip(s: string): (r: string)
    ensures Stripped(r)
    ensures r == [] <==> AllSpace(s)
    ensures Stripped(s) ==> r == s
  {
    var right := StripRight(s);
    assert right == [] ==> s[|right|..] == s;
    StripLeft(right)
  }

  /** `strip()` only removes characters, so a character absent before is absent after. */
  lemma StripAvoids(s: string, c: char)
    requires c !in s
    ensures c !in Strip(s)
  {
    var right := StripRight(s);
    SliceAvoids(s, 0, |right|, c);
    var r := StripLeft(right);
    SliceAvoids(right, |right| - |r|, |right|, c);
  }

  lemma SliceAvoids(s: string, i: nat, j: nat, c: char)
    requires i <= j <= |s| && c !in s
    ensures c !in s[i..j]
  {
    assert forall k :: 0 <= k < j - i ==> s[i..j][k] == s[i + k];
  }

  /** `lstrip` removes a whitespace prefix and stops at the first other character. */
  lemma {:induction false} StripLeftSpaces(a: string, b: string)
    requires AllSpace(a)
    requires b == [] || !IsSpace(b[0])
    ensures StripLeft(a + b) == b
  {
    if a == [] {
      assert a + b == b;
    } else {
      assert (a + b)[1..] == a[1..] + b;
      StripLeftSpaces(a[1..], b);
    }
  }

  /** `rstrip` removes a whitespace suffix and stops at the last other character. */
  lemma {:induction false} StripRightSpaces(a: string, b: string)
    requires a == [] || !IsSpace(a[|a| - 1])
    requires AllSpace(b)
    ensures StripRight(a + b) == a
  {
    if b == [] {
      assert a + b == a;
    } else {
      assert (a + b)[..|a + b| - 1] == a + b[..|b| - 1];
      StripRightSpaces(a, b[..|b| - 1]);
    }
  }

  /** `strip` removes whitespace padding around text that has none at its ends. */
  lemma StripPadded(pre: string, t: string, post: string)
    requires AllSpace(pre) && AllSpace(post) && t != [] && Stripped(t)
    ensures Strip(pre + t + post) == t
  {
    assert (pre + t)[|pre + t| - 1] == t[|t| - 1];
    StripRightSpaces(pre + t, post);
    StripLeftSpaces(pre, t);
  }

  /** Every text is its stripped core with whitespace on either side. */
  lemma StripParts(t: string) returns (pre: string, post: string)
    ensures AllSpace(pre) && AllSpace(post)
    ensures t == pre + Strip(t) + post
  {
    var right := StripRight(t);
    var u := StripLeft(right);
    assert u == Strip(t);
    pre, post := right[..|right| - |u|], t[|right|..];
    SliceJoin(right, |right| - |u|);
    SliceJoin(t, |right|);
  }

  lemma SliceJoin<T>(s: seq<T>, k: nat)
    requires k <= |s|
    ensures s == s[..k] + s[k..]
  {
  }

  /** Whitespace in front of a text does not survive `strip()`. */
  lemma StripSpaceCons(c: char, t: string)
    requires IsSpace(c)
    ensures Strip([c] + t) == Strip(t)
  {
    if !AllSpace(t) {
      var pre, post := StripParts(t);
      var u := Strip(t);
      ConsAssoc([c], t, pre, u, post);
      AllSpaceCons(c, pre);
      StripPadded([c] + pre, u, post);
    } else {
      AllSpaceCons(c, t);
    }
  }

  lemma ConsAssoc<T>(a: seq<T>, t: seq<T>, x: seq<T>, y: seq<T>, z: seq<T>)
    requires t == x + y + z
    ensures a + t == (a + x) + y + z
  {
  }

  lemma SnocAssoc<T>(t: seq<T>, a: seq<T>, x: seq<T>, y: seq<T>, z: seq<T>)
    requires t == x + y + z
    ensures t + a == x + y + (z + a)
  {
  }

  lemma AllSpaceCons(c: char, t: string)
    requires IsSpace(c) && AllSpace(t)
    ensures AllSpace([c] + t)
  {
    forall i | 0 <= i < |[c] + t| ensures IsSpace(([c] + t)[i]) {
      if i > 0 {
        assert ([c] + t)[i] == t[i - 1];
      }
    }
  }

  /** Whitespace behind a text does not survive `strip()`. */
  lemma StripSpaceSnoc(t: string, c: char)
    requires IsSpace(c)
    ensures Strip(t + [c]) == Strip(t)
  {
    if !AllSpace(t) {
      var pre, post := StripParts(t);
      var u := Strip(t);
      SnocAssoc(t, [c], pre, u, post);
      StripPadded(pre, u, post + [c]);
    } else {
      assert AllSpace(t + [c]);
    }
  }

  /** Python's `sep.join(parts)` for a one-character separator. */
  function Join(parts: seq<string>, sep: char): string
  {
    if |parts| == 0 then []
    else if |parts| == 1 then parts[0]
    else parts[0] + [sep] + Join(parts[1..], sep)
  }

  /**
   * Python's `s.split(sep)` for a one-character separator: the pieces between the
   * separators, kept even when empty, so that joining them back gives `s` again.
   */
  function SplitOn(s: string, sep: char): (parts: seq<string>)
    ensures |parts| >= 1
    ensures forall i :: 0 <= i < |parts| ==> sep !in parts[i]
    ensures Join(parts, sep) == s
  {
    if s == [] then [[]]
    else
      var rest := SplitOn(s[1..], sep);
      if s[0] == sep then
        assert ([[]] + rest)[1..] == rest;
        [[]] + rest
      else
        var parts := [[s[0]] + rest[0]] + rest[1..];
        assert parts[1..] == rest[1..];
        assert |rest| > 1 ==> Join(rest, sep) == rest[0] + [sep] + Join(rest[1..], sep);
        parts
  }

  /** A piece without the separator in it is not split. */
  lemma {:induction false} SplitWithoutSep(p: string, sep: char)
    requires sep !in p
    ensures SplitOn(p, sep) == [p]
  {
    if p != [] {
      assert p[1..] + [] == p[1..];
      SplitWithoutSep(p[1..], sep);
    }
  }

  /** Splitting stops at the first separator. */
  lemma {:induction false} SplitAtFirstSep(p: string, sep: char, t: string)
    requires sep !in p
    ensures SplitOn(p + [sep] + t, sep) == [p] + SplitOn(t, sep)
  {
    var s := p + [sep] + t;
    if p == [] {
      assert s[1..] == t;
    } else {
      assert s[1..] == p[1..] + [sep] + t;
      SplitAtFirstSep(p[1..], sep, t);
      assert [p[0]] + p[1..] == p;
    }
  }

  /** A separator at the end of a text opens a new, empty last piece. */
  lemma {:induction false} SplitSnocSep(t: string, sep: char)
    ensures SplitOn(t + [sep], sep) == SplitOn(t, sep) + [[]]
  {
    if t == [] {
      assert [sep][1..] == [];
    } else {
      var ps, ps' := SplitOn(t, sep), SplitOn(t + [sep], sep);
      assert (t + [sep])[1..] == t[1..] + [sep];
      SplitSnocSep(t[1..], sep);
      var rest, rest' := SplitOn(t[1..], sep), SplitOn(t[1..] + [sep], sep);
      assert rest' == rest + [[]];
      if t[0] != sep {
        assert ps == [[t[0]] + rest[0]] + rest[1..];
        assert rest'[0] == rest[0] && rest'[1..] == rest[1..] + [[]];
        assert ps' == [[t[0]] + rest'[0]] + rest'[1..];
      }
    }
  }

  /** Any other character at the end of a text extends the last piece. */
  lemma {:induction false} SplitSnocOther(t: string, c: char, sep: char)
    requires c != sep
    ensures var ps := SplitOn(t, sep);
      SplitOn(t + [c], sep) == ps[..|ps| - 1] + [ps[|ps| - 1] + [c]]
  {
    var ps, ps' := SplitOn(t, sep), SplitOn(t + [c], sep);
    if t == [] {
      assert [c][1..] == [];
    } else {
      assert (t + [c])[1..] == t[1..] + [c];
      SplitSnocOther(t[1..], c, sep);
      var rest, rest' := SplitOn(t[1..], sep), SplitOn(t[1..] + [c], sep);
      var n := |rest|;
      if t[0] != sep {
        assert ps == [[t[0]] + rest[0]] + rest[1..];
        assert ps' == [[t[0]] + rest'[0]] + rest'[1..];
        ExtendAfterHead([t[0]], rest, rest', c);
      } else {
        assert ps == [[]] + rest;
        assert ps' == [[]] + rest';
        ExtendAfterEmpty(rest, rest', c);
      }
    }
  }

  /** Extending the last piece commutes with gluing a prefix onto the first piece. */
  lemma ExtendAfterHead<T>(h: seq<T>, rest: seq<seq<T>>, rest': seq<seq<T>>, c: T)
    requires |rest| >= 1 && rest' == rest[..|rest| - 1] + [rest[|rest| - 1] + [c]]
    ensures var ps := [h + rest[0]] + rest[1..];
      [h + rest'[0]] + rest'[1..] == ps[..|ps| - 1] + [ps[|ps| - 1] + [c]]
  {
    var n := |rest|;
    var ps := [h + rest[0]] + rest[1..];
    assert |ps| == n;
    if n == 1 {
      assert rest' == [rest[0] + [c]];
      assert h + (rest[0] + [c]) == (h + rest[0]) + [c];
    } else {
      assert rest'[0] == rest[0];
      assert rest'[1..] == rest[1..n - 1] + [rest[n - 1] + [c]];
      assert ps[..n - 1] == [h + rest[0]] + rest[1..n - 1];
      assert ps[n - 1] == rest[n - 1];
    }
  }

  /** Extending the last piece commutes with an empty piece in front. */
  lemma ExtendAfterEmpty<T>(rest: seq<seq<T>>, rest': seq<seq<T>>, c: T)
    requires |rest| >= 1 && rest' == rest[..|rest| - 1] + [rest[|rest| - 1] + [c]]
    ensures var ps := [[]] + rest;
      [[]] + rest' == ps[..|ps| - 1] + [ps[|ps| - 1] + [c]]
  {
    var e: seq<T> := [];
    var ps, n := [e] + rest, |rest|;
    assert ps[..n] == [e] + rest[..n - 1];
    assert ps[n] == rest[n - 1];
    assert [e] + rest' == ([e] + rest[..n - 1]) + [rest[n - 1] + [c]];
  }

  /** The other round trip: splitting what was joined gives back the pieces. */
  lemma {:induction false} SplitJoin(parts: seq<string>, sep: char)
    requires |parts| >= 1
    requires forall i :: 0 <= i < |parts| ==> sep !in parts[i]
    ensures SplitOn(Join(parts, sep), sep) == parts
  {
    if |parts| == 1 {
      SplitWithoutSep(parts[0], sep);
    } else {
      SplitJoin(parts[1..], sep);
      SplitAtFirstSep(parts[0], sep, Join(parts[1..], sep));
      assert [parts[0]] + parts[1..] == parts;
    }
  }

  lemma Join2(a: string, b: string, sep: char)
    ensures Join([a, b], sep) == a + [sep] + b
  {
    assert [a, b][1..] == [b];
  }

  lemma Join3(a: string, b: string, c: string, sep: char)
    ensures Join([a, b, c], sep) == a + [sep] + b + [sep] + c
  {
    assert [a, b, c][1..] == [b, c];
    assert [b, c][1..] == [c];
    assert Join([b, c], sep) == b + [sep] + c;
  }

  /** A join of pieces begins with the first piece. */
  lemma JoinFirst(parts: seq<string>, sep: char)
    requires |parts| >= 1 && parts[0] != []
    ensures Join(parts, sep) != [] && Join(parts, sep)[0] == parts[0][0]
  {
    if |parts| >= 2 {
      assert Join(parts, sep) == parts[0] + [sep] + Join(parts[1..], sep);
    }
  }

  /** A join of pieces ends with the last piece. */
  lemma {:induction false} JoinLast(parts: seq<string>, sep: char)
    requires |parts| >= 1 && parts[|parts| - 1] != []
    ensures var t, p := Join(parts, sep), parts[|parts| - 1]; t != [] && t[|t| - 1] == p[|p| - 1]
  {
    if |parts| >= 2 {
      JoinLast(parts[1..], sep);
      assert parts[1..][|parts| - 2] == parts[|parts| - 1];
    }
  }

  /** The first piece of a split is a prefix up to the first separator, so it starts like `s`. */
  lemma SplitFirstPiece(s: string, sep: char)
    requires s != [] && s[0] != sep
    ensures var p := SplitOn(s, sep)[0]; p != [] && p[0] == s[0]
  {
  }

  /** Python's `s.count(c)` for one character. */
  function Count(s: string, c: char): nat
  {
    if s == [] then 0 else (if s[0] == c then 1 else 0) + Count(s[1..], c)
  }

  lemma {:induction false} CountAppend(a: string, b: string, c: char)
    ensures Count(a + b, c) == Count(a, c) + Count(b, c)
  {
    if a != [] {
      assert (a + b)[1..] == a[1..] + b;
      CountAppend(a[1..], b, c);
    } else {
      assert a + b == b;
    }
  }

  lemma {:induction false} CountAbsent(s: string, c: char)
    ensures Count(s, c) == 0 <==> c !in s
  {
    if s != [] {
      CountAbsent(s[1..], c);
      assert s == [s[0]] + s[1..];
    }
  }

  /** `s.split(c)` has one piece more than `s` has separators. */
  lemma {:induction false} SplitCount(s: string, c: char)
    ensures |SplitOn(s, c)| == Count(s, c) + 1
  {
    if s != [] {
      SplitCount(s[1..], c);
    }
  }

  function DigitChar(d: nat): (c: char)
    requires d < 10
    ensures IsDigit(c)
  {
    ('0' as int + d) as char
  }

  function DigitValue(c: char): (d: nat)
    requires IsDigit(c)
    ensures d < 10 && DigitChar(d) == c
  {
    c as int - '0' as int
  }

  /** Python's `str(n)` for a natural number: its decimal digits, most significant first. */
  function NatToString(n: nat): (s: string)
    ensures |s| >= 1 && AllDigits(s)
  {
    if n < 10 then [DigitChar(n)] else NatToString(n / 10) + [DigitChar(n % 10)]
  }

  /** Python's `str(n)` for an integer. */
  function IntToString(n: int): (s: string)
    ensures |s| >= 1 && (s[0] == '-' <==> n < 0)
    ensures forall i :: 1 <= i < |s| ==> IsDigit(s[i])
  {
    if n < 0 then "-" + NatToString(-n) else NatToString(n)
  }

  /** The number a string of decimal digits denotes. */
  function DigitsValue(s: string): nat
    requires AllDigits(s)
  {
    if s == [] then 0 else DigitsValue(s[..|s| - 1]) * 10 + DigitValue(s[|s| - 1])
  }

  lemma {:induction false} NatToStringValue(n: nat)
    ensures DigitsValue(NatToString(n)) == n
  {
    var s := NatToString(n);
    if n >= 10 {
      NatToStringValue(n / 10);
      assert s[..|s| - 1] == NatToString(n / 10);
    }
  }

  /**
   * Python's `int(s)` for a decimal string: surrounding whitespace, an optional sign and
   * at least one digit; anything else is `None`, where Python raises `ValueError`.
   */
  function ParseInt(s: string): Option<int> {
    ParseSigned(Strip(s))
  }

  /** `int` on text already stripped: an optional sign followed by at least one digit. */
  function ParseSigned(t: string): Option<int> {
    if t != [] && (t[0] == '-' || t[0] == '+') then
      var digits := t[1..];
      if digits != [] && AllDigits(digits) then
        var v: int := DigitsValue(digits);
        Some(if t[0] == '-' then -v else v)
      else None
    else if t != [] && AllDigits(t) then Some(DigitsValue(t))
    else None
  }

  lemma ParseUnsigned(digits: string)
    requires |digits| >= 1 && AllDigits(digits)
    ensures ParseInt(digits) == Some(DigitsValue(digits) as int)
  {
    DigitsStripped(digits);
    SignedDigits(digits);
  }

  /** `int` ignores whitespace around the digits. */
  lemma ParsePadded(pre: string, digits: string, post: string)
    requires AllSpace(pre) && AllSpace(post) && |digits| >= 1 && AllDigits(digits)
    ensures ParseInt(pre + digits + post) == Some(DigitsValue(digits) as int)
  {
    DigitsStripped(digits);
    StripPadded(pre, digits, post);
    SignedDigits(digits);
  }

  lemma DigitsStripped(digits: string)
    requires |digits| >= 1 && AllDigits(digits)
    ensures Stripped(digits)
  {
    assert IsDigit(digits[0]) && IsDigit(digits[|digits| - 1]);
  }

  lemma SignedDigits(digits: string)
    requires |digits| >= 1 && AllDigits(digits)
    ensures ParseSigned(digits) == Some(DigitsValue(digits) as int)
  {
    assert IsDigit(digits[0]);
  }

  lemma ParseNegative(s: string)
    requires |s| >= 2 && s[0] == '-' && AllDigits(s[1..])
    ensures ParseInt(s) == Some(-(DigitsValue(s[1..]) as int))
  {
    assert Stripped(s) by {
      assert IsDigit(s[1..][|s| - 2]);
    }
  }

  /** `int(str(n)) == n`. */
  lemma {:induction false} ParseIntShow(n: int)
    ensures ParseInt(IntToString(n)) == Some(n)
  {
    var s := IntToString(n);
    if n < 0 {
      var digits := NatToString(-n);
      assert s == "-" + digits;
      assert s[1..] == digits;
      NatToStringValue(-n);
      assert DigitsValue(s[1..]) == -n;
      ParseNegative(s);
    } else {
      var digits := NatToString(n);
      assert s == digits;
      NatToStringValue(n);
      ParseUnsigned(digits);
    }
  }
}
