/** The Python `str` operations the modelled code relies on: `split`/`join`
    on a one-character separator, `strip` of one character, substring
    containment, ASCII lower-casing, and decimal `str(int)` / `int(str)`. */
module Strings {
  import opened Wrappers

  /** Index of the first occurrence of `c` in `s`. */
  function FirstIndex(s: string, c: char): (i: nat)
    requires c in s
    ensures i < |s| && s[i] == c && c !in s[..i]
  {
    if s[0] == c then 0
    else
      var j := FirstIndex(s[1..], c);
      assert s[..j + 1] == [s[0]] + s[1..][..j];
      1 + j
  }

  /** Any position that holds `c` with no earlier `c` is the first index. */
  lemma FirstIndexUnique(s: string, c: char, k: nat)
    requires k < |s| && s[k] == c && c !in s[..k]
    ensures FirstIndex(s, c) == k
  {
    var i := FirstIndex(s, c);
    assert forall j | 0 <= j < k :: s[j] == s[..k][j];
    assert forall j | 0 <= j < i :: s[j] == s[..i][j];
  }

  /** Python `s.split(c)`: always at least one part, none containing `c`. */
  function Split(s: string, c: char): (parts: seq<string>)
    ensures |parts| >= 1
    ensures forall i | 0 <= i < |parts| :: c !in parts[i]
    decreases |s|
  {
    if c in s then
      var i := FirstIndex(s, c);
      [s[..i]] + Split(s[i + 1..], c)
    else
      [s]
  }

  /** Python `sep.join(parts)`. */
  function Join(parts: seq<string>, sep: string): string
  {
    if |parts| == 0 then ""
    else if |parts| == 1 then parts[0]
    else parts[0] + sep + Join(parts[1..], sep)
  }

  /** Joining the parts of a split gives the original string back. */
  lemma {:induction false} JoinSplit(s: string, c: char)
    ensures Join(Split(s, c), [c]) == s
    decreases |s|
  {
    if c in s {
      var i := FirstIndex(s, c);
      var rest := Split(s[i + 1..], c);
      JoinSplit(s[i + 1..], c);
      var parts := [s[..i]] + rest;
      assert parts[0] == s[..i] && parts[1..] == rest;
      assert s == s[..i] + [c] + s[i + 1..];
    }
  }

  /** A separator-free head followed by the separator splits off as the
      first part. */
  lemma SplitHead(p: string, c: char, rest: string)
    requires c !in p
    ensures Split(p + [c] + rest, c) == [p] + Split(rest, c)
  {
    var s := p + [c] + rest;
    assert s[..|p|] == p;
    FirstIndexUnique(s, c, |p|);
    assert s[|p| + 1..] == rest;
  }

  /** Splitting a join of separator-free parts recovers the parts. */
  lemma {:induction false} SplitJoin(parts: seq<string>, c: char)
    requires |parts| >= 1
    requires forall i | 0 <= i < |parts| :: c !in parts[i]
    ensures Split(Join(parts, [c]), c) == parts
    decreases |parts|
  {
    if |parts| > 1 {
      SplitHead(parts[0], c, Join(parts[1..], [c]));
      SplitJoin(parts[1..], c);
      assert parts == [parts[0]] + parts[1..];
    }
  }

  /** Drops every leading `c` (Python `lstrip`). */
  function StripLeft(s: string, c: char): (r: string)
    ensures |r| <= |s| && r == s[|s| - |r|..]
    ensures forall i | 0 <= i < |s| - |r| :: s[i] == c
    ensures |r| > 0 ==> r[0] != c
  {
    if |s| > 0 && s[0] == c then StripLeft(s[1..], c) else s
  }

  /** Drops every trailing `c` (Python `rstrip`). */
  function StripRight(s: string, c: char): (r: string)
    ensures |r| <= |s| && r == s[..|r|]
    ensures forall i | |r| <= i < |s| :: s[i] == c
    ensures |r| > 0 ==> r[|r| - 1] != c
  {
    if |s| > 0 && s[|s| - 1] == c then StripRight(s[..|s| - 1], c) else s
  }

  /** Python `s.strip(c)` for a single character `c`. */
  function Strip(s: string, c: char): string
  {
    StripRight(StripLeft(s, c), c)
  }

  /** `n` copies of `c`. */
  function Repeat(c: char, n: nat): (r: string)
    ensures |r| == n && forall i | 0 <= i < n :: r[i] == c
  {
    seq(n, _ => c)
  }

  lemma {:induction false} StripLeftPadding(u: string, c: char, m: nat)
    requires |u| == 0 || u[0] != c
    ensures StripLeft(Repeat(c, m) + u, c) == u
  {
    if m > 0 {
      var s := Repeat(c, m) + u;
      assert s[1..] == Repeat(c, m - 1) + u;
      StripLeftPadding(u, c, m - 1);
    } else {
      assert Repeat(c, 0) + u == u;
    }
  }

  lemma {:induction false} StripRightPadding(t: string, c: char, n: nat)
    requires |t| == 0 || t[|t| - 1] != c
    ensures StripRight(t + Repeat(c, n), c) == t
  {
    if n > 0 {
      var s := t + Repeat(c, n);
      assert s[..|s| - 1] == t + Repeat(c, n - 1);
      StripRightPadding(t, c, n - 1);
    } else {
      assert t + Repeat(c, 0) == t;
    }
  }

  /** `strip` removes exactly the padding: a string that neither starts nor
      ends with `c`, padded by any number of `c` on either side, strips back
      to itself; all-padding strips to "". */
  lemma StripPadding(t: string, c: char, m: nat, n: nat)
    requires |t| == 0 || (t[0] != c && t[|t| - 1] != c)
    ensures Strip(Repeat(c, m) + t + Repeat(c, n), c) == t
  {
    if |t| > 0 {
      assert Repeat(c, m) + t + Repeat(c, n) == Repeat(c, m) + (t + Repeat(c, n));
      StripLeftPadding(t + Repeat(c, n), c, m);
      StripRightPadding(t, c, n);
    } else {
      assert Repeat(c, m) + t + Repeat(c, n) == Repeat(c, m + n) + t;
      StripLeftPadding(t, c, m + n);
    }
  }

  /** Stripping is idempotent. */
  lemma StripIdempotent(s: string, c: char)
    ensures Strip(Strip(s, c), c) == Strip(s, c)
  {
    var r := Strip(s, c);
    assert |r| > 0 ==> r[0] == StripLeft(s, c)[0];
  }

  /** Python `sub in s` for strings. */
  predicate Contains(s: string, sub: string)
    decreases |s|
  {
    sub <= s || (|s| > 0 && Contains(s[1..], sub))
  }

  /** ASCII lower-casing of one character. */
  function LowerChar(ch: char): char
  {
    if 'A' <= ch <= 'Z' then (ch as int + 32) as char else ch
  }

  /** Python `s.lower()` restricted to ASCII letters. */
  function ToLower(s: string): (r: string)
    ensures |r| == |s| && forall i | 0 <= i < |s| :: r[i] == LowerChar(s[i])
  {
    seq(|s|, i requires 0 <= i < |s| => LowerChar(s[i]))
  }

  predicate IsDigit(ch: char)
  {
    '0' <= ch <= '9'
  }

  predicate AllDigits(s: string)
  {
    forall i | 0 <= i < |s| :: IsDigit(s[i])
  }

  function DigitChar(d: nat): (ch: char)
    requires d < 10
    ensures IsDigit(ch) && ch as int - '0' as int == d
  {
    ('0' as int + d) as char
  }

  /** Decimal text of a natural number, without leading zeros. */
  function NatToString(n: nat): (r: string)
    ensures |r| >= 1 && AllDigits(r)
  {
    if n < 10 then [DigitChar(n)] else NatToString(n / 10) + [DigitChar(n % 10)]
  }

  /** Python `str()` of a bool. */
  function BoolText(b: bool): string
  {
    if b then "True" else "False"
  }

  /** Python `str(i)` for an int. */
  function IntToString(i: int): string
  {
    if i < 0 then "-" + NatToString(-i) else NatToString(i)
  }

  /** Value of a string of decimal digits. */
  function DigitsValue(s: string): nat
    requires AllDigits(s)
  {
    if |s| == 0 then 0
    else DigitsValue(s[..|s| - 1]) * 10 + (s[|s| - 1] as int - '0' as int)
  }

  /** Python `str.isspace()` on one character: the ASCII whitespace and
      separator controls, NEL, no-break space and the Unicode space and
      line/paragraph separators. `strip()` and `int()` skip the same set. */
  predicate IsSpace(ch: char)
  {
    var c := ch as int;
    (0x09 <= c <= 0x0D) || (0x1C <= c <= 0x20) || c == 0x85 || c == 0xA0 || c == 0x1680
    || (0x2000 <= c <= 0x200A) || c == 0x2028 || c == 0x2029 || c == 0x202F || c == 0x205F
    || c == 0x3000
  }

  predicate AllSpace(s: string)
  {
    forall i | 0 <= i < |s| :: IsSpace(s[i])
  }

  /** Python `s.strip()`. */
  function TrimSpace(s: string): (r: string)
    ensures |r| <= |s|
    ensures |r| > 0 ==> !IsSpace(r[0]) && !IsSpace(r[|r| - 1])
    decreases |s|
  {
    if |s| > 0 && IsSpace(s[0]) then TrimSpace(s[1..])
    else if |s| > 0 && IsSpace(s[|s| - 1]) then TrimSpace(s[..|s| - 1])
    else s
  }

  lemma {:induction false} AllSpaceTrims(s: string)
    requires AllSpace(s)
    ensures TrimSpace(s) == []
    decreases |s|
  {
    if |s| > 0 {
      AllSpaceTrims(s[1..]);
    }
  }

  /** Text whose ends are not whitespace is left alone by `strip()`. */
  lemma TrimSpaceClean(t: string)
    requires |t| == 0 || (!IsSpace(t[0]) && !IsSpace(t[|t| - 1]))
    ensures TrimSpace(t) == t
  {
  }

  /** `strip()` removes exactly the surrounding whitespace: text whose ends
      are not whitespace comes back unchanged from any padding. */
  lemma {:induction false} TrimSpacePadding(pre: string, t: string, post: string)
    requires AllSpace(pre) && AllSpace(post)
    requires |t| == 0 || (!IsSpace(t[0]) && !IsSpace(t[|t| - 1]))
    ensures TrimSpace(pre + t + post) == t
    decreases |pre| + |post|
  {
    var s := pre + t + post;
    if |t| == 0 {
      assert AllSpace(s) by {
        forall i | 0 <= i < |s| ensures IsSpace(s[i]) {
          if i < |pre| { assert s[i] == pre[i]; } else { assert s[i] == post[i - |pre|]; }
        }
      }
      AllSpaceTrims(s);
    } else if |pre| > 0 {
      assert s[0] == pre[0];
      assert s[1..] == pre[1..] + t + post;
      TrimSpacePadding(pre[1..], t, post);
    } else if |post| > 0 {
      assert s == t + post;
      assert s[0] == t[0];
      assert s[|s| - 1] == post[|post| - 1];
      assert s[..|s| - 1] == pre + t + post[..|post| - 1];
      TrimSpacePadding(pre, t, post[..|post| - 1]);
    } else {
      assert s == t;
      TrimSpaceClean(t);
    }
  }

  /** The digit part of a base-10 integer literal: ASCII digits, with
      single underscores allowed between two digits. */
  predicate DigitGroups(b: string)
  {
    && |b| > 0 && IsDigit(b[0]) && IsDigit(b[|b| - 1])
    && forall i | 0 <= i < |b| :: IsDigit(b[i]) || (b[i] == '_' && i + 1 < |b| && IsDigit(b[i + 1]))
  }

  /** The digits of `b`, underscores removed. */
  function DropUnderscores(b: string): (r: string)
    requires forall i | 0 <= i < |b| :: IsDigit(b[i]) || b[i] == '_'
    ensures AllDigits(r)
  {
    if |b| == 0 then []
    else if b[|b| - 1] == '_' then DropUnderscores(b[..|b| - 1])
    else DropUnderscores(b[..|b| - 1]) + [b[|b| - 1]]
  }

  /** A literal once `strip()` has run: an optional sign, then the digit
      groups. */
  function ParseLiteral(t: string): (r: Result<int, PyError>)
    ensures r.Ok? ==> |t| > 0
    ensures r.Err? ==> r.error.ValueError?
  {
    var signed := |t| > 0 && (t[0] == '-' || t[0] == '+');
    var b := if signed then t[1..] else t;
    if DigitGroups(b) then
      var v: int := DigitsValue(DropUnderscores(b));
      Ok(if signed && t[0] == '-' then -v else v)
    else
      Err(ValueError("invalid literal for int()"))
  }

  /** Python `int(s)` in base 10: surrounding whitespace is skipped, then
      an optional sign and the digit groups; anything else raises
      `ValueError`. */
  function ParseInt(s: string): (r: Result<int, PyError>)
    ensures AllSpace(s) ==> r.Err?
    ensures r.Err? ==> r.error.ValueError?
  {
    assert AllSpace(s) ==> TrimSpace(s) == [] by {
      if AllSpace(s) { AllSpaceTrims(s); }
    }
    ParseLiteral(TrimSpace(s))
  }

  /** Digits without underscores are their own digit string. */
  lemma {:induction false} DropUnderscoresDigits(b: string)
    requires AllDigits(b)
    ensures DropUnderscores(b) == b
    decreases |b|
  {
    if |b| > 0 {
      DropUnderscoresDigits(b[..|b| - 1]);
      assert b == b[..|b| - 1] + [b[|b| - 1]];
    }
  }

  /** An underscore between two digit runs is dropped. */
  lemma {:induction false} DropUnderscoresJoin(x: string, y: string)
    requires AllDigits(x) && AllDigits(y)
    ensures DropUnderscores(x + "_" + y) == x + y
    decreases |y|
  {
    var b := x + "_" + y;
    if |y| == 0 {
      assert b[..|b| - 1] == x;
      DropUnderscoresDigits(x);
    } else {
      assert b[..|b| - 1] == x + "_" + y[..|y| - 1];
      DropUnderscoresJoin(x, y[..|y| - 1]);
      assert x + y == x + y[..|y| - 1] + [y[|y| - 1]];
    }
  }

  /** Unsigned digits without underscores parse to their value. */
  lemma PlainDigits(c: string)
    requires |c| > 0 && AllDigits(c)
    ensures ParseInt(c) == Ok(DigitsValue(c))
  {
    assert IsDigit(c[0]) && IsDigit(c[|c| - 1]);
    TrimSpaceClean(c);
    LiteralDigits(c);
  }

  lemma LiteralDigits(c: string)
    requires |c| > 0 && AllDigits(c)
    ensures ParseLiteral(c) == Ok(DigitsValue(c))
  {
    assert IsDigit(c[0]) && IsDigit(c[|c| - 1]);
    assert DigitGroups(c);
    DropUnderscoresDigits(c);
  }

  lemma LiteralNegative(s: string)
    requires |s| > 1 && s[0] == '-' && AllDigits(s[1..])
    ensures ParseLiteral(s) == Ok(-(DigitsValue(s[1..]) as int))
  {
    var d := s[1..];
    assert IsDigit(d[0]) && IsDigit(d[|d| - 1]);
    assert DigitGroups(d);
    DropUnderscoresDigits(d);
  }

  /** `int()` ignores whitespace around the literal: `int(" 42\n")` is
      `int("42")`. */
  lemma ParseIntSpaces(pre: string, t: string, post: string)
    requires AllSpace(pre) && AllSpace(post)
    requires |t| == 0 || (!IsSpace(t[0]) && !IsSpace(t[|t| - 1]))
    ensures ParseInt(pre + t + post) == ParseInt(t)
  {
    TrimSpacePadding(pre, t, post);
    TrimSpaceClean(t);
  }

  lemma GroupedIsGroups(x: string, y: string)
    requires |x| > 0 && |y| > 0 && AllDigits(x) && AllDigits(y)
    ensures DigitGroups(x + "_" + y)
  {
    var b := x + "_" + y;
    assert b[0] == x[0] && b[|b| - 1] == y[|y| - 1];
    forall i | 0 <= i < |b|
      ensures IsDigit(b[i]) || (b[i] == '_' && i + 1 < |b| && IsDigit(b[i + 1]))
    {
      if i < |x| {
        assert b[i] == x[i];
      } else if i == |x| {
        assert b[i + 1] == y[0];
      } else {
        assert b[i] == y[i - |x| - 1];
      }
    }
  }

  /** A single underscore between digit runs is a separator: `int("4_2")`
      is `int("42")`. */
  lemma ParseIntGrouped(x: string, y: string)
    requires |x| > 0 && |y| > 0 && AllDigits(x) && AllDigits(y)
    ensures ParseInt(x + "_" + y) == ParseInt(x + y) == Ok(DigitsValue(x + y))
  {
    var b := x + "_" + y;
    assert b[0] == x[0] && b[|b| - 1] == y[|y| - 1];
    TrimSpaceClean(b);
    GroupedIsGroups(x, y);
    DropUnderscoresJoin(x, y);
    assert ParseInt(b) == Ok(DigitsValue(x + y));
    PlainDigits(x + y);
  }

  /** Underscores may not lead, trail or double up: `int("_1")`, `int("1_")`
      and `int("1__2")` raise. */
  lemma ParseIntBadUnderscores(x: string, y: string)
    requires |x| > 0 && |y| > 0 && AllDigits(x) && AllDigits(y)
    ensures ParseInt("_" + x).Err? && ParseInt(x + "_").Err? && ParseInt(x + "__" + y).Err?
  {
    var a := "_" + x;
    assert a[0] == '_' && a[|a| - 1] == x[|x| - 1];
    TrimSpaceClean(a);
    var b := x + "_";
    assert b[0] == x[0] && b[|b| - 1] == '_';
    TrimSpaceClean(b);
    var c := x + "__" + y;
    assert c[0] == x[0] && c[|c| - 1] == y[|y| - 1];
    TrimSpaceClean(c);
    assert c[|x|] == '_' && c[|x| + 1] == '_';
    assert !DigitGroups(c);
  }

  lemma {:induction false} DigitsOfNat(n: nat)
    ensures DigitsValue(NatToString(n)) == n
  {
    if n >= 10 {
      var p := NatToString(n / 10);
      var r := NatToString(n);
      assert r[..|r| - 1] == p;
      DigitsOfNat(n / 10);
    }
  }

  /** `int(str(i)) == i`: the decimal rendering parses back. */
  lemma ParseIntToString(i: int)
    ensures ParseInt(IntToString(i)) == Ok(i)
  {
    var n: nat := if i < 0 then -i else i;
    var d := NatToString(n);
    DigitsOfNat(n);
    if i < 0 {
      var s := "-" + d;
      assert s[|s| - 1] == d[|d| - 1] && IsDigit(d[|d| - 1]);
      TrimSpaceClean(s);
      assert s[1..] == d;
      LiteralNegative(s);
    } else {
      PlainDigits(d);
    }
  }

  /** Python's `<` on `str`: lexicographic by code point, a proper prefix
      being smaller. */
  predicate StrLess(a: string, b: string)
    decreases |a|
  {
    if |a| == 0 then |b| > 0
    else if |b| == 0 then false
    else if a[0] != b[0] then a[0] < b[0]
    else StrLess(a[1..], b[1..])
  }

  /** String order is a strict total order: exactly one of `a < b`, `a == b`,
      `b < a` holds. */
  lemma {:induction false} StrLessTrichotomy(a: string, b: string)
    ensures StrLess(a, b) || a == b || StrLess(b, a)
    ensures !(StrLess(a, b) && StrLess(b, a))
    ensures !(StrLess(a, b) && a == b)
    decreases |a|
  {
    if |a| > 0 && |b| > 0 && a[0] == b[0] {
      StrLessTrichotomy(a[1..], b[1..]);
      assert a == [a[0]] + a[1..] && b == [b[0]] + b[1..];
    }
  }
}
