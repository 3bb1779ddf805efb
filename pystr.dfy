/**
 * The parts of Python's `str` behaviour the application relies on, restricted to ASCII:
 * `strip`, `split`, `join`, `isdigit`, `isalnum`, `lower`, `upper`, `replace(x, "", 1)`,
 * removal of a set of characters, `int()` of a digit string and `str()` of an integer.
 */
module PyStr {
  import opened Wrappers

  // ---------------------------------------------------------------- whitespace and strip

  /** The ASCII characters `str.strip()` removes. */
  predicate IsSpace(c: char) {
    c == ' ' || c == '\t' || c == '\n' || c == '\r' || c == '\U{000B}' || c == '\U{000C}'
  }

  predicate AllSpace(s: string) {
    forall i :: 0 <= i < |s| ==> IsSpace(s[i])
  }

  /** A string `strip()` leaves unchanged: it neither starts nor ends with whitespace. */
  predicate IsStripped(s: string) {
    s == [] || (!IsSpace(s[0]) && !IsSpace(s[|s| - 1]))
  }

  function LStrip(s: string): string
    decreases |s|
  {
    if s != [] && IsSpace(s[0]) then LStrip(s[1..]) else s
  }

  function RStrip(s: string): string
    decreases |s|
  {
    if s != [] && IsSpace(s[|s| - 1]) then RStrip(s[..|s| - 1]) else s
  }

  /** Python `s.strip()`. */
  function Strip(s: string): string {
    RStrip(LStrip(s))
  }

  lemma {:induction false} LStripProps(s: string)
    ensures var r := LStrip(s);
      |r| <= |s| && r == s[|s| - |r|..] && (r == [] || !IsSpace(r[0])) && AllSpace(s[..|s| - |r|])
    decreases |s|
  {
    if s != [] && IsSpace(s[0]) {
      LStripProps(s[1..]);
      var r := LStrip(s);
      assert s[..|s| - |r|] == [s[0]] + s[1..][..|s| - 1 - |r|];
    }
  }

  lemma {:induction false} RStripProps(s: string)
    ensures var r := RStrip(s);
      |r| <= |s| && r == s[..|r|] && (r == [] || !IsSpace(r[|r| - 1])) && AllSpace(s[|r|..])
    decreases |s|
  {
    if s != [] && IsSpace(s[|s| - 1]) {
      RStripProps(s[..|s| - 1]);
      var r := RStrip(s);
      assert s[|r|..] == s[..|s| - 1][|r|..] + [s[|s| - 1]];
    }
  }

  lemma StripProps(s: string)
    ensures IsStripped(Strip(s))
    ensures Strip(s) == [] <==> AllSpace(s)
    ensures |Strip(s)| <= |s|
  {
    var l := LStrip(s);
    var r := RStrip(l);
    LStripProps(s);
    RStripProps(l);
    if r != [] {
      assert r[0] == l[0] == s[|s| - |l|];
      assert !AllSpace(s);
    }
    if r == [] {
      assert l[|r|..] == l;
      assert l == [];
      assert s[..|s| - |l|] == s;
    }
  }

  /** The stripped text sits inside the original, after the leading whitespace. */
  lemma StripInside(s: string)
    ensures var k := |s| - |LStrip(s)|;
      0 <= k && k + |Strip(s)| <= |s| && s == s[..k] + Strip(s) + s[k + |Strip(s)|..]
  {
    var l := LStrip(s);
    LStripProps(s);
    RStripProps(l);
    var k := |s| - |l|;
    var r := Strip(s);
    assert s[k..k + |r|] == r;
    assert s == s[..k] + s[k..k + |r|] + s[k + |r|..];
  }

  /** A stripped string is its own strip: `strip` is idempotent. */
  lemma StripOfStripped(s: string)
    requires IsStripped(s)
    ensures Strip(s) == s
  {
  }

  lemma StripIdempotent(s: string)
    ensures Strip(Strip(s)) == Strip(s)
  {
    StripProps(s);
  }

  /** Stripping keeps a character class out if it was out of the input. */
  lemma StripKeepsOut(s: string, c: char)
    requires c !in s
    ensures c !in Strip(s)
  {
    var l := LStrip(s);
    LStripProps(s);
    RStripProps(l);
  }

  // ---------------------------------------------------------------- split and join

  lemma ConsSlice<T>(s: seq<T>)
    requires s != []
    ensures [s[0]] + s[1..] == s
  {
  }

  /** Python `sep.join(parts)` for a one-character separator. */
  function Join(parts: seq<string>, sep: char): (r: string)
    decreases |parts|
  {
    if parts == [] then []
    else if |parts| == 1 then parts[0]
    else parts[0] + [sep] + Join(parts[1..], sep)
  }

  /** Python `s.split(sep)` for a one-character separator: never an empty list. */
  function Split(s: string, sep: char): (r: seq<string>)
    ensures |r| >= 1
    decreases |s|
  {
    if s == [] then [[]]
    else if s[0] == sep then [[]] + Split(s[1..], sep)
    else
      var rest := Split(s[1..], sep);
      [[s[0]] + rest[0]] + rest[1..]
  }

  lemma {:induction false} SplitPiecesFree(s: string, sep: char)
    ensures forall i :: 0 <= i < |Split(s, sep)| ==> sep !in Split(s, sep)[i]
    decreases |s|
  {
    if s != [] {
      SplitPiecesFree(s[1..], sep);
    }
  }

  lemma JoinCons(p: string, ps: seq<string>, sep: char)
    requires ps != []
    ensures Join([p] + ps, sep) == p + [sep] + Join(ps, sep)
  {
    assert ([p] + ps)[1..] == ps;
  }

  lemma {:induction false} JoinSnoc(ps: seq<string>, p: string, sep: char)
    requires ps != []
    ensures Join(ps + [p], sep) == Join(ps, sep) + [sep] + p
    decreases |ps|
  {
    if |ps| == 1 {
      assert (ps + [p])[1..] == [p];
    } else {
      JoinSnoc(ps[1..], p, sep);
      assert (ps + [p])[1..] == ps[1..] + [p];
    }
  }

  /** Joining the pieces of a split gives back the original string. */
  lemma {:induction false} JoinSplit(s: string, sep: char)
    ensures Join(Split(s, sep), sep) == s
    decreases |s|
  {
    if s != [] {
      JoinSplit(s[1..], sep);
      ConsSlice(s);
      if s[0] == sep {
        JoinCons([], Split(s[1..], sep), sep);
      } else {
        JoinSplitStep(s[0], Split(s[1..], sep), sep);
      }
    }
  }

  lemma JoinSplitStep(c: char, rest: seq<string>, sep: char)
    requires rest != []
    ensures Join([[c] + rest[0]] + rest[1..], sep) == [c] + Join(rest, sep)
  {
    if |rest| > 1 {
      JoinCons([c] + rest[0], rest[1..], sep);
      JoinCons(rest[0], rest[1..], sep);
      ConsSlice(rest);
    }
  }

  lemma SplitNoSep(s: string, sep: char)
    requires sep !in s
    ensures Split(s, sep) == [s]
    decreases |s|
  {
    if s != [] {
      SplitNoSep(s[1..], sep);
      assert [s[0]] + s[1..] == s;
    }
  }

  lemma SplitAppend(a: string, sep: char, b: string)
    requires sep !in a
    ensures Split(a + [sep] + b, sep) == [a] + Split(b, sep)
    decreases |a|
  {
    if a == [] {
      assert a + [sep] + b == [sep] + b;
      assert ([sep] + b)[1..] == b;
    } else {
      var s := a + [sep] + b;
      assert s[1..] == a[1..] + [sep] + b;
      SplitAppend(a[1..], sep, b);
      assert [a[0]] + a[1..] == a;
    }
  }

  /** Splitting the join of separator-free pieces gives the pieces back. */
  lemma {:induction false} SplitJoin(parts: seq<string>, sep: char)
    requires parts != []
    requires forall i :: 0 <= i < |parts| ==> sep !in parts[i]
    ensures Split(Join(parts, sep), sep) == parts
    decreases |parts|
  {
    if |parts| == 1 {
      SplitNoSep(parts[0], sep);
    } else {
      SplitJoin(parts[1..], sep);
      SplitAppend(parts[0], sep, Join(parts[1..], sep));
      assert [parts[0]] + parts[1..] == parts;
    }
  }

  lemma JoinNoSepInside(parts: seq<string>, sep: char, c: char)
    requires c != sep
    requires forall i :: 0 <= i < |parts| ==> c !in parts[i]
    ensures c !in Join(parts, sep)
    decreases |parts|
  {
    if |parts| > 1 {
      JoinNoSepInside(parts[1..], sep, c);
    }
  }

  // ---------------------------------------------------------------- searching

  /** Index of the first occurrence of `c`, or -1. */
  function IndexOf(s: string, c: char): (r: int)
    ensures -1 <= r < |s|
    decreases |s|
  {
    if s == [] then -1
    else if s[0] == c then 0
    else
      var k := IndexOf(s[1..], c);
      if k == -1 then -1 else k + 1
  }

  lemma {:induction false} IndexOfProps(s: string, c: char)
    ensures var r := IndexOf(s, c);
      (r == -1 <==> c !in s) && (r >= 0 ==> s[r] == c && c !in s[..r])
    decreases |s|
  {
    if s != [] && s[0] != c {
      IndexOfProps(s[1..], c);
      var k := IndexOf(s[1..], c);
      if k >= 0 {
        assert s[..k + 1] == [s[0]] + s[1..][..k];
      }
    }
  }

  /** Index of the last occurrence of `c`, or -1. */
  function LastIndexOf(s: string, c: char): (r: int)
    ensures -1 <= r < |s|
    decreases |s|
  {
    if s == [] then -1
    else if s[|s| - 1] == c then |s| - 1
    else LastIndexOf(s[..|s| - 1], c)
  }

  lemma {:induction false} LastIndexOfProps(s: string, c: char)
    ensures var r := LastIndexOf(s, c);
      (r == -1 <==> c !in s) && (r >= 0 ==> s[r] == c && c !in s[r + 1..])
    decreases |s|
  {
    if s != [] && s[|s| - 1] != c {
      LastIndexOfProps(s[..|s| - 1], c);
      var k := LastIndexOf(s, c);
      if k >= 0 {
        assert s[k + 1..] == s[..|s| - 1][k + 1..] + [s[|s| - 1]];
      } else {
        assert s == s[..|s| - 1] + [s[|s| - 1]];
      }
    }
  }

  /** The last `c` of `x + [c] + y` is the one after `x` when `y` holds none. */
  lemma {:induction false} LastIndexOfAppend(x: string, c: char, y: string)
    requires c !in y
    ensures LastIndexOf(x + [c] + y, c) == |x|
    decreases |y|
  {
    var s := x + [c] + y;
    if y != [] {
      assert s[..|s| - 1] == x + [c] + y[..|y| - 1];
      LastIndexOfAppend(x, c, y[..|y| - 1]);
    }
  }

  /** Python `s.rsplit(c, 1)` when `c` occurs: the text before and after the last `c`. */
  function RSplitOnce(s: string, c: char): Option<(string, string)> {
    var k := LastIndexOf(s, c);
    if k < 0 then None else Some((s[..k], s[k + 1..]))
  }

  lemma RSplitOnceProps(s: string, c: char)
    ensures var r := RSplitOnce(s, c);
      (r.None? <==> c !in s) && (r.Some? ==> r.value.0 + [c] + r.value.1 == s && c !in r.value.1)
  {
    LastIndexOfProps(s, c);
    var k := LastIndexOf(s, c);
    if k >= 0 {
      assert s == s[..k] + [c] + s[k + 1..];
    }
  }

  /** Splitting at the last `c` of `x + [c] + y`, when `y` holds none, gives back `x` and `y`. */
  lemma RSplitOnceAppend(x: string, c: char, y: string)
    requires c !in y
    ensures RSplitOnce(x + [c] + y, c) == Some((x, y))
  {
    var t := x + [c] + y;
    LastIndexOfAppend(x, c, y);
    assert t[..|x|] == x && t[|x| + 1..] == y;
  }

  /** Python `t in s` for strings. */
  predicate Contains(s: string, t: string)
    decreases |s|
  {
    t <= s || (s != [] && Contains(s[1..], t))
  }

  /** An occurrence of `t` at index `i` of `s` makes `t in s` true. */
  lemma {:induction false} ContainsAt(s: string, t: string, i: nat)
    requires i + |t| <= |s| && s[i..i + |t|] == t
    ensures Contains(s, t)
    decreases i
  {
    if i == 0 {
      assert s[..|t|] == t;
    } else {
      assert s[1..][i - 1..i - 1 + |t|] == s[i..i + |t|];
      ContainsAt(s[1..], t, i - 1);
    }
  }

  // ---------------------------------------------------------------- character classes

  predicate IsDigit(c: char) { '0' <= c <= '9' }
  predicate IsUpperChar(c: char) { 'A' <= c <= 'Z' }
  predicate IsLowerChar(c: char) { 'a' <= c <= 'z' }
  predicate IsAlnumChar(c: char) { IsDigit(c) || IsUpperChar(c) || IsLowerChar(c) }

  predicate AllDigits(s: string) {
    forall i :: 0 <= i < |s| ==> IsDigit(s[i])
  }

  /** Python `s.isdigit()` on ASCII text: non-empty and all digits. */
  predicate IsDigits(s: string) {
    |s| > 0 && AllDigits(s)
  }

  /** Python `s.isalnum()` on ASCII text. */
  predicate IsAlnum(s: string) {
    |s| > 0 && forall i :: 0 <= i < |s| ==> IsAlnumChar(s[i])
  }

  function LowerChar(c: char): char {
    if IsUpperChar(c) then (c as int + 32) as char else c
  }

  function UpperChar(c: char): char {
    if IsLowerChar(c) then (c as int - 32) as char else c
  }

  /** Python `s.lower()` on ASCII text. */
  function Lower(s: string): (r: string)
    ensures |r| == |s|
    ensures forall i :: 0 <= i < |s| ==> r[i] == LowerChar(s[i])
  {
    seq(|s|, i requires 0 <= i < |s| => LowerChar(s[i]))
  }

  /** Python `s.upper()` on ASCII text. */
  function Upper(s: string): (r: string)
    ensures |r| == |s|
    ensures forall i :: 0 <= i < |s| ==> r[i] == UpperChar(s[i])
  {
    seq(|s|, i requires 0 <= i < |s| => UpperChar(s[i]))
  }

  // ---------------------------------------------------------------- removal

  /** `s` with every character of `cs` removed (a chain of `replace(c, "")`). */
  function RemoveChars(s: string, cs: set<char>): (r: string)
    ensures |r| <= |s|
    decreases |s|
  {
    if s == [] then []
    else if s[0] in cs then RemoveChars(s[1..], cs)
    else [s[0]] + RemoveChars(s[1..], cs)
  }

  lemma {:induction false} RemoveCharsFree(s: string, cs: set<char>)
    ensures forall i :: 0 <= i < |RemoveChars(s, cs)| ==> RemoveChars(s, cs)[i] !in cs
    decreases |s|
  {
    if s != [] {
      RemoveCharsFree(s[1..], cs);
    }
  }

  lemma {:induction false} RemoveCharsNone(s: string, cs: set<char>)
    requires forall i :: 0 <= i < |s| ==> s[i] !in cs
    ensures RemoveChars(s, cs) == s
    decreases |s|
  {
    if s != [] {
      RemoveCharsNone(s[1..], cs);
      assert [s[0]] + s[1..] == s;
    }
  }

  /** Python `s.replace(c, "", 1)`: the first occurrence of `c` removed. */
  function RemoveFirst(s: string, c: char): string
    decreases |s|
  {
    if s == [] then []
    else if s[0] == c then s[1..]
    else [s[0]] + RemoveFirst(s[1..], c)
  }

  lemma {:induction false} RemoveFirstAbsent(s: string, c: char)
    requires c !in s
    ensures RemoveFirst(s, c) == s
    decreases |s|
  {
    if s != [] {
      RemoveFirstAbsent(s[1..], c);
      ConsSlice(s);
    }
  }

  /** Removing the first `c` from `a + [c] + b` where `a` has none leaves `a + b`. */
  lemma {:induction false} RemoveFirstSkip(a: string, b: string, c: char)
    requires c !in a
    ensures RemoveFirst(a + [c] + b, c) == a + b
    decreases |a|
  {
    if a == [] {
      assert a + [c] + b == [c] + b;
    } else {
      RemoveFirstSkip(a[1..], b, c);
      assert (a + [c] + b)[1..] == a[1..] + [c] + b;
      ConsSlice(a);
    }
  }

  lemma {:induction false} RemoveCharsAppend(a: string, b: string, cs: set<char>)
    ensures RemoveChars(a + b, cs) == RemoveChars(a, cs) + RemoveChars(b, cs)
    decreases |a|
  {
    if a != [] {
      RemoveCharsAppend(a[1..], b, cs);
      assert (a + b)[1..] == a[1..] + b;
    } else {
      assert a + b == b;
    }
  }

  lemma LowerAppend(a: string, b: string)
    ensures Lower(a + b) == Lower(a) + Lower(b)
  {
  }

  /** Removing the same characters twice removes nothing more. */
  lemma RemoveCharsIdempotent(s: string, cs: set<char>)
    ensures RemoveChars(RemoveChars(s, cs), cs) == RemoveChars(s, cs)
  {
    RemoveCharsFree(s, cs);
    RemoveCharsNone(RemoveChars(s, cs), cs);
  }

  lemma LowerIdempotent(s: string)
    ensures Lower(Lower(s)) == Lower(s)
  {
  }

  lemma {:induction false} LowerLStrip(s: string)
    ensures LStrip(Lower(s)) == Lower(LStrip(s))
    decreases |s|
  {
    if s != [] && IsSpace(s[0]) {
      assert Lower(s)[1..] == Lower(s[1..]);
      LowerLStrip(s[1..]);
    }
  }

  lemma {:induction false} LowerRStrip(s: string)
    ensures RStrip(Lower(s)) == Lower(RStrip(s))
    decreases |s|
  {
    if s != [] && IsSpace(s[|s| - 1]) {
      assert Lower(s)[..|s| - 1] == Lower(s[..|s| - 1]);
      LowerRStrip(s[..|s| - 1]);
    }
  }

  /** Lower-casing and stripping commute: whitespace is neither upper nor lower case. */
  lemma LowerStripCommute(s: string)
    ensures Strip(Lower(s)) == Lower(Strip(s))
  {
    LowerLStrip(s);
    LowerRStrip(LStrip(s));
  }

  /** Lower-casing commutes with removing characters that are not letters. */
  lemma {:induction false} LowerRemoveCommute(s: string, cs: set<char>)
    requires forall c | c in cs :: !IsUpperChar(c) && !IsLowerChar(c)
    ensures Lower(RemoveChars(s, cs)) == RemoveChars(Lower(s), cs)
    decreases |s|
  {
    if s != [] {
      LowerRemoveCommute(s[1..], cs);
      assert Lower(s)[1..] == Lower(s[1..]);
      assert Lower(s)[0] in cs <==> s[0] in cs;
      if s[0] !in cs {
        assert Lower([s[0]] + RemoveChars(s[1..], cs)) == [LowerChar(s[0])] + Lower(RemoveChars(s[1..], cs));
      }
    }
  }

  /** Lower-casing and then removing non-letters is idempotent. */
  lemma LowerRemoveIdempotent(s: string, cs: set<char>)
    requires forall c | c in cs :: !IsUpperChar(c) && !IsLowerChar(c)
    ensures RemoveChars(Lower(RemoveChars(Lower(s), cs)), cs) == RemoveChars(Lower(s), cs)
  {
    LowerRemoveCommute(Lower(s), cs);
    LowerIdempotent(s);
    RemoveCharsIdempotent(Lower(s), cs);
  }

  lemma {:induction false} UpperRemoveCommute(s: string, cs: set<char>)
    requires forall c | c in cs :: !IsUpperChar(c) && !IsLowerChar(c)
    ensures Upper(RemoveChars(s, cs)) == RemoveChars(Upper(s), cs)
    decreases |s|
  {
    if s != [] {
      UpperRemoveCommute(s[1..], cs);
      assert Upper(s)[1..] == Upper(s[1..]);
      assert Upper(s)[0] in cs <==> s[0] in cs;
      if s[0] !in cs {
        assert Upper([s[0]] + RemoveChars(s[1..], cs)) == [UpperChar(s[0])] + Upper(RemoveChars(s[1..], cs));
      }
    }
  }

  lemma UpperIdempotent(s: string)
    ensures Upper(Upper(s)) == Upper(s)
  {
  }

  /** Lower-casing forgets an earlier upper-casing. */
  lemma LowerOfUpper(s: string)
    ensures Lower(Upper(s)) == Lower(s)
  {
  }

  /** A character survives removal exactly when it was there and is not removed. */
  lemma {:induction false} RemoveCharsMembers(s: string, cs: set<char>, c: char)
    ensures c in RemoveChars(s, cs) <==> c in s && c !in cs
    decreases |s|
  {
    if s != [] {
      RemoveCharsMembers(s[1..], cs, c);
      assert c in s <==> c == s[0] || c in s[1..];
    }
  }

  /** Removing a set after one of its subsets is removing the set. */
  lemma {:induction false} RemoveCharsSubsumed(s: string, small: set<char>, big: set<char>)
    requires small <= big
    ensures RemoveChars(RemoveChars(s, small), big) == RemoveChars(s, big)
    decreases |s|
  {
    if s != [] {
      RemoveCharsSubsumed(s[1..], small, big);
    }
  }

  // ---------------------------------------------------------------- integers in decimal

  function DigitVal(c: char): (d: nat)
    requires IsDigit(c)
    ensures d < 10
  {
    c as int - '0' as int
  }

  function DigitChar(d: nat): (c: char)
    requires d < 10
    ensures IsDigit(c) && DigitVal(c) == d
  {
    ('0' as int + d) as char
  }

  /** Python `int(s)` for a string of ASCII digits (leading zeros allowed; "" is 0). */
  function DigitsValue(s: string): nat
    requires AllDigits(s)
    decreases |s|
  {
    if s == [] then 0 else 10 * DigitsValue(s[..|s| - 1]) + DigitVal(s[|s| - 1])
  }

  lemma DigitsValue2(a: char, b: char)
    requires IsDigit(a) && IsDigit(b)
    ensures DigitsValue([a, b]) == 10 * DigitVal(a) + DigitVal(b)
  {
    assert [a, b][..1] == [a];
    DigitsValue1(a);
  }

  lemma DigitsValue1(a: char)
    requires IsDigit(a)
    ensures DigitsValue([a]) == DigitVal(a)
  {
    assert [a][..0] == [];
  }

  /** Python `str(n)` for a natural number. */
  function NatToString(n: nat): (r: string)
    ensures IsDigits(r)
    decreases n
  {
    if n < 10 then [DigitChar(n)] else NatToString(n / 10) + [DigitChar(n % 10)]
  }

  /** Python `str(i)` for an integer. */
  function IntToString(i: int): string {
    if i < 0 then "-" + NatToString(-i) else NatToString(i)
  }

  /** The decimal text `str(int)` produces: digits without a leading zero, or "0". */
  predicate CanonicalDigits(s: string) {
    IsDigits(s) && (s[0] != '0' || |s| == 1)
  }

  lemma {:induction false} NatToStringValue(n: nat)
    ensures DigitsValue(NatToString(n)) == n
    decreases n
  {
    if n >= 10 {
      NatToStringValue(n / 10);
      var s := NatToString(n);
      assert s[..|s| - 1] == NatToString(n / 10);
    }
  }

  lemma {:induction false} NatToStringCanonical(n: nat)
    ensures CanonicalDigits(NatToString(n))
    decreases n
  {
    if n >= 10 {
      NatToStringCanonical(n / 10);
      if n / 10 < 10 {
        assert NatToString(n)[0] == DigitChar(n / 10);
      }
    }
  }

  lemma {:induction false} LeadingNonZeroPositive(s: string)
    requires IsDigits(s) && s[0] != '0'
    ensures DigitsValue(s) > 0
    decreases |s|
  {
    if |s| > 1 {
      LeadingNonZeroPositive(s[..|s| - 1]);
    }
  }

  /** Canonical digit strings are exactly the strings `str` produces. */
  lemma {:induction false} CanonicalRoundTrip(s: string)
    requires CanonicalDigits(s)
    ensures NatToString(DigitsValue(s)) == s
    decreases |s|
  {
    var n := DigitsValue(s);
    if |s| > 1 {
      var p := s[..|s| - 1];
      LeadingNonZeroPositive(p);
      CanonicalRoundTrip(p);
      assert n / 10 == DigitsValue(p) && n % 10 == DigitVal(s[|s| - 1]);
      assert s == p + [s[|s| - 1]];
    } else {
      assert s[..|s| - 1] == [];
      assert n == 10 * DigitsValue(s[..|s| - 1]) + DigitVal(s[|s| - 1]);
      assert n == DigitVal(s[0]);
      assert s == [DigitChar(n)];
    }
  }

  lemma IntToStringShape(i: int)
    ensures var t := IntToString(i);
      t != [] && ',' !in t && ' ' !in t && '.' !in t && IsStripped(t)
  {
    var t := IntToString(i);
    NatToStringCanonical(if i < 0 then -i else i);
  }
}
