/**
 * The fragment of Python's `str` semantics that the bot relies on:
 * `isspace`, `strip`, `isdigit`, `int()`, `split(sep)`, `replace`,
 * `startswith`, the `in` substring test and `lower`.
 * Strings are sequences of Unicode scalar values, as Python's are.
 */
module PyText {
  import opened Wrappers

  /** `c.isspace()` for the characters Python classifies as whitespace. */
  predicate IsSpace(c: char) {
    || c == ' '
    || ('\t' <= c <= '\r')
    || ('\U{1c}' <= c <= '\U{1f}')
    || c == '\U{85}' || c == '\U{a0}' || c == '\U{1680}'
    || ('\U{2000}' <= c <= '\U{200a}')
    || c == '\U{2028}' || c == '\U{2029}' || c == '\U{202f}'
    || c == '\U{205f}' || c == '\U{3000}'
  }

  predicate IsAsciiDigit(c: char) {
    '0' <= c <= '9'
  }

  predicate AllDigits(s: string) {
    forall i :: 0 <= i < |s| ==> IsAsciiDigit(s[i])
  }

  /** `s.isdigit()`: non-empty and made of digits only. */
  predicate IsDigitString(s: string) {
    |s| > 0 && AllDigits(s)
  }

  function DigitValue(c: char): nat
    requires IsAsciiDigit(c)
  {
    c as int - '0' as int
  }

  function DigitChar(d: nat): (c: char)
    requires d < 10
    ensures IsAsciiDigit(c) && DigitValue(c) == d
  {
    ('0' as int + d) as char
  }

  /** The value of a decimal numeral, most significant digit first. */
  function DigitsValue(s: string): nat
    requires AllDigits(s)
  {
    if s == [] then 0 else DigitsValue(s[..|s| - 1]) * 10 + DigitValue(s[|s| - 1])
  }

  /** `str(n)` for a natural number: the shortest decimal numeral. */
  function NatToDigits(n: nat): (s: string)
    ensures IsDigitString(s)
    ensures |s| > 1 ==> s[0] != '0'
  {
    if n < 10 then [DigitChar(n)] else NatToDigits(n / 10) + [DigitChar(n % 10)]
  }

  /** Reading back the numeral `str(n)` gives `n`. */
  lemma {:induction false} DigitsRoundTrip(n: nat)
    ensures DigitsValue(NatToDigits(n)) == n
  {
    if n >= 10 {
      var s := NatToDigits(n / 10);
      var t := s + [DigitChar(n % 10)];
      assert t[..|t| - 1] == s;
      DigitsRoundTrip(n / 10);
    }
  }

  /** Leading zeros do not change the value of a numeral. */
  lemma {:induction false} LeadingZero(s: string)
    requires AllDigits(s)
    ensures AllDigits("0" + s) && DigitsValue("0" + s) == DigitsValue(s)
  {
    if s != [] {
      var t := "0" + s;
      assert t[..|t| - 1] == "0" + s[..|s| - 1];
      LeadingZero(s[..|s| - 1]);
    }
  }

  /** `s.startswith(p)` */
  predicate StartsWith(s: string, p: string) {
    |p| <= |s| && s[..|p|] == p
  }

  /** `sub` occurs in `s` starting at index `i`. */
  predicate OccursAt(s: string, sub: string, i: int) {
    0 <= i && i + |sub| <= |s| && s[i..i + |sub|] == sub
  }

  /** `sub in s` */
  predicate Contains(s: string, sub: string) {
    exists i | 0 <= i <= |s| :: OccursAt(s, sub, i)
  }

  /** `s.lstrip()`: drops the leading whitespace. */
  function LStrip(s: string): (r: string)
    ensures |r| <= |s|
  {
    if s != [] && IsSpace(s[0]) then LStrip(s[1..]) else s
  }

  /** `s.rstrip()`: drops the trailing whitespace. */
  function RStrip(s: string): (r: string)
    ensures |r| <= |s|
  {
    if s != [] && IsSpace(s[|s| - 1]) then RStrip(s[..|s| - 1]) else s
  }

  /** `s.strip()` */
  function Strip(s: string): (r: string)
    ensures |r| <= |s|
  {
    RStrip(LStrip(s))
  }

  /** `lstrip` removes exactly the maximal whitespace prefix. */
  lemma {:induction false} LStripShape(s: string)
    ensures var r := LStrip(s);
      && r == s[|s| - |r|..]
      && (r == [] || !IsSpace(r[0]))
      && (forall k :: 0 <= k < |s| - |r| ==> IsSpace(s[k]))
  {
    if s != [] && IsSpace(s[0]) {
      LStripShape(s[1..]);
    }
  }

  /** `rstrip` removes exactly the maximal whitespace suffix. */
  lemma {:induction false} RStripShape(s: string)
    ensures var r := RStrip(s);
      && r == s[..|r|]
      && (r == [] || !IsSpace(r[|r| - 1]))
      && (forall k :: |r| <= k < |s| ==> IsSpace(s[k]))
  {
    if s != [] && IsSpace(s[|s| - 1]) {
      RStripShape(s[..|s| - 1]);
    }
  }

  /** `r` sits in `s` at index `i` with only whitespace around it. */
  predicate PaddedAt(s: string, r: string, i: int) {
    && OccursAt(s, r, i)
    && (forall k | 0 <= k < i :: IsSpace(s[k]))
    && (forall k | i + |r| <= k < |s| :: IsSpace(s[k]))
  }

  /** `r` is what `s.strip()` must be: a slice of `s` with only whitespace
    * around it and no whitespace at either of its own ends. */
  predicate IsStripOf(s: string, r: string) {
    && (r == [] || (!IsSpace(r[0]) && !IsSpace(r[|r| - 1])))
    && exists i | 0 <= i <= |s| :: PaddedAt(s, r, i)
  }

  /** The strip of `s` is a contiguous slice of `s` with no whitespace at
    * either end, and only whitespace was cut off. */
  lemma StripShape(s: string)
    ensures IsStripOf(s, Strip(s))
  {
    LStripShape(s);
    var l := LStrip(s);
    RStripShape(l);
    var r := RStrip(l);
    var i := |s| - |l|;
    assert s[i..][..|r|] == s[i..i + |r|];
    forall k | i + |r| <= k < |s|
      ensures IsSpace(s[k])
    {
      assert s[k] == l[k - i];
    }
    assert PaddedAt(s, r, i);
  }

  /** At most one string has the shape of a strip of `s`. */
  lemma StripShapeUnique(s: string, r1: string, r2: string)
    requires IsStripOf(s, r1) && IsStripOf(s, r2)
    ensures r1 == r2
  {
    var i1 :| 0 <= i1 <= |s| && PaddedAt(s, r1, i1);
    var i2 :| 0 <= i2 <= |s| && PaddedAt(s, r2, i2);
    if r1 != [] && r2 != [] {
      assert s[i1] == r1[0] && s[i2] == r2[0];
      assert i1 == i2;
      assert s[i1 + |r1| - 1] == r1[|r1| - 1] && s[i2 + |r2| - 1] == r2[|r2| - 1];
      assert |r1| == |r2|;
    }
  }

  /** `s.strip()` is exactly the string of that shape. */
  lemma StripCharacterised(s: string, r: string)
    ensures Strip(s) == r <==> IsStripOf(s, r)
  {
    StripShape(s);
    if IsStripOf(s, r) {
      StripShapeUnique(s, Strip(s), r);
    }
  }

  /** Whitespace added at either end does not change the strip. */
  lemma StripPadding(w1: string, t: string, w2: string)
    requires forall k | 0 <= k < |w1| :: IsSpace(w1[k])
    requires forall k | 0 <= k < |w2| :: IsSpace(w2[k])
    ensures Strip(w1 + t + w2) == Strip(t)
  {
    var r := Strip(t);
    var s := w1 + t + w2;
    StripShape(t);
    var i :| 0 <= i <= |t| && PaddedAt(t, r, i);
    var j := |w1| + i;
    assert s[j..j + |r|] == t[i..i + |r|];
    forall k | 0 <= k < j
      ensures IsSpace(s[k])
    {
      if k >= |w1| {
        assert s[k] == t[k - |w1|];
      }
    }
    forall k | j + |r| <= k < |s|
      ensures IsSpace(s[k])
    {
      if k < |w1| + |t| {
        assert s[k] == t[k - |w1|];
      } else {
        assert s[k] == w2[k - |w1| - |t|];
      }
    }
    assert PaddedAt(s, r, j);
    StripCharacterised(s, r);
  }

  /** A string without whitespace at either end is its own strip. */
  lemma StripNoSpace(s: string)
    requires s == [] || (!IsSpace(s[0]) && !IsSpace(s[|s| - 1]))
    ensures Strip(s) == s
  {
  }

  /** Python's `int(s)` on a `str`: surrounding whitespace, an optional sign
    * and at least one ASCII digit; anything else raises `ValueError`. */
  function ParseInt(s: string): Option<int> {
    var t := Strip(s);
    if |t| > 0 && (t[0] == '+' || t[0] == '-') then
      var body := t[1..];
      if IsDigitString(body) then
        Some(if t[0] == '-' then -(DigitsValue(body) as int) else DigitsValue(body))
      else None
    else if IsDigitString(t) then Some(DigitsValue(t))
    else None
  }

  /** `int(str(n)) == n` */
  lemma ParseIntOfDigits(s: string)
    requires IsDigitString(s)
    ensures ParseInt(s) == Some(DigitsValue(s))
  {
    StripNoSpace(s);
  }

  /** `s.replace(a, b)` for single characters. */
  function Replace(s: string, a: char, b: char): (r: string)
    ensures |r| == |s|
  {
    if s == [] then [] else [if s[0] == a then b else s[0]] + Replace(s[1..], a, b)
  }

  /** Each character equal to `a` becomes `b`; every other one stays. */
  lemma {:induction false} ReplaceAt(s: string, a: char, b: char, i: int)
    requires 0 <= i < |s|
    ensures Replace(s, a, b)[i] == if s[i] == a then b else s[i]
  {
    if i > 0 {
      ReplaceAt(s[1..], a, b, i - 1);
    }
  }

  /** `s.split(sep)` for a one-character separator. */
  function Split(s: string, sep: char): (parts: seq<string>)
    ensures |parts| >= 1
  {
    if s == [] then [[]]
    else
      var rest := Split(s[1..], sep);
      if s[0] == sep then [[]] + rest else [[s[0]] + rest[0]] + rest[1..]
  }

  /** `sep.join(parts)` */
  function Join(parts: seq<string>, sep: char): string
    requires |parts| >= 1
  {
    if |parts| == 1 then parts[0] else parts[0] + [sep] + Join(parts[1..], sep)
  }

  /** Joining the pieces of a split gives back the original string. */
  lemma {:induction false} SplitJoin(s: string, sep: char)
    ensures Join(Split(s, sep), sep) == s
  {
    if s != [] {
      var rest := Split(s[1..], sep);
      SplitJoin(s[1..], sep);
      if s[0] == sep {
        assert Split(s, sep)[1..] == rest;
      } else if |rest| == 1 {
        assert Join(Split(s, sep), sep) == [s[0]] + rest[0];
      } else {
        var parts := Split(s, sep);
        assert parts[1..] == rest[1..];
        assert Join(parts, sep) == [s[0]] + rest[0] + [sep] + Join(rest[1..], sep);
      }
    }
  }

  /** A separator-free prefix extends the first piece of the split. */
  lemma {:induction false} SplitPrefix(a: string, t: string, sep: char)
    requires sep !in a
    ensures Split(a + t, sep) == [a + Split(t, sep)[0]] + Split(t, sep)[1..]
  {
    if a != [] {
      var at := a + t;
      assert at[0] == a[0] && at[1..] == a[1..] + t;
      SplitPrefix(a[1..], t, sep);
      var rest := Split(at[1..], sep);
      assert rest == [a[1..] + Split(t, sep)[0]] + Split(t, sep)[1..];
      assert Split(at, sep) == [[a[0]] + rest[0]] + rest[1..];
      assert [a[0]] + rest[0] == a + Split(t, sep)[0];
      assert rest[1..] == Split(t, sep)[1..];
    } else {
      var st := Split(t, sep);
      assert a + t == t;
      assert a + st[0] == st[0];
      assert [st[0]] + st[1..] == st;
    }
  }

  /** Splitting `a + sep + b` with separator-free `a`, `b` gives exactly `[a, b]`. */
  lemma SplitTwo(a: string, b: string, sep: char)
    requires sep !in a && sep !in b
    ensures Split(a + [sep] + b, sep) == [a, b]
  {
    var tail := [sep] + b;
    assert tail[0] == sep && tail[1..] == b;
    SplitPrefix(b, [], sep);
    assert b + [] == b;
    assert Split(b, sep) == [b];
    assert Split(tail, sep) == [[], b];
    SplitPrefix(a, tail, sep);
    assert a + [sep] + b == a + tail;
    assert Split(a + tail, sep) == [a + []] + [b];
    assert a + [] == a;
  }

  /** `c.lower()` for ASCII and the basic Cyrillic block. */
  function LowerChar(c: char): char {
    if 'A' <= c <= 'Z' then (c as int + 32) as char
    else if '\U{410}' <= c <= '\U{42f}' then (c as int + 0x20) as char
    else if '\U{400}' <= c <= '\U{40f}' then (c as int + 0x50) as char
    else c
  }

  /** `s.lower()` */
  function Lower(s: string): (r: string)
    ensures |r| == |s|
  {
    if s == [] then [] else [LowerChar(s[0])] + Lower(s[1..])
  }

  /** `lower()` works character by character. */
  lemma {:induction false} LowerAt(s: string, i: int)
    requires 0 <= i < |s|
    ensures Lower(s)[i] == LowerChar(s[i])
  {
    if i > 0 {
      LowerAt(s[1..], i - 1);
    }
  }

  /** `lower()` keeps whitespace and non-whitespace apart. */
  lemma LowerCharSpace(c: char)
    ensures IsSpace(LowerChar(c)) <==> IsSpace(c)
    ensures LowerChar(LowerChar(c)) == LowerChar(c)
  {
  }

  /** `lower()` is idempotent. */
  lemma LowerIdempotent(s: string)
    ensures Lower(Lower(s)) == Lower(s)
  {
    forall i | 0 <= i < |s|
      ensures Lower(Lower(s))[i] == Lower(s)[i]
    {
      LowerAt(Lower(s), i);
      LowerAt(s, i);
      LowerCharSpace(s[i]);
    }
  }

  /** Lowering keeps a padded slice padded. */
  lemma LowerPadded(s: string, r: string, i: int)
    requires PaddedAt(s, r, i)
    ensures PaddedAt(Lower(s), Lower(r), i)
  {
    var ls, lr := Lower(s), Lower(r);
    forall k | 0 <= k < |s|
      ensures ls[k] == LowerChar(s[k]) && (IsSpace(ls[k]) <==> IsSpace(s[k]))
    {
      LowerAt(s, k);
      LowerCharSpace(s[k]);
    }
    forall k | 0 <= k < |r|
      ensures lr[k] == ls[i + k]
    {
      LowerAt(r, k);
      assert r[k] == s[i + k];
    }
    assert ls[i..i + |r|] == lr;
  }

  /** `s.lower().strip() == s.strip().lower()` */
  lemma StripLower(s: string)
    ensures Strip(Lower(s)) == Lower(Strip(s))
  {
    var r := Strip(s);
    StripShape(s);
    var i :| 0 <= i <= |s| && PaddedAt(s, r, i);
    LowerPadded(s, r, i);
    if r != [] {
      LowerAt(r, 0);
      LowerAt(r, |r| - 1);
      LowerCharSpace(r[0]);
      LowerCharSpace(r[|r| - 1]);
    }
    StripCharacterised(Lower(s), Lower(r));
  }

  /** `a, b = map(int, s.split(':'))`: exactly two pieces, each an `int()`;
    * `None` where Python raises. */
  function TwoInts(s: string): Option<(int, int)> {
    var parts := Split(s, ':');
    if |parts| != 2 then None
    else match (ParseInt(parts[0]), ParseInt(parts[1]))
      case (Some(a), Some(b)) => Some((a, b))
      case _ => None
  }

  /** A separator-free string splits into itself. */
  lemma SplitNone(s: string, sep: char)
    requires sep !in s
    ensures Split(s, sep) == [s]
  {
    SplitPrefix(s, [], sep);
    assert s + [] == s;
  }

  /** Two numerals joined by ':' read back as their values. */
  lemma TwoIntsOfNumerals(a: string, b: string)
    requires IsDigitString(a) && IsDigitString(b)
    ensures TwoInts(a + ":" + b) == Some((DigitsValue(a), DigitsValue(b)))
  {
    assert ':' !in a && ':' !in b by {
      assert forall i :: 0 <= i < |a| ==> IsAsciiDigit(a[i]);
      assert forall i :: 0 <= i < |b| ==> IsAsciiDigit(b[i]);
    }
    SplitTwo(a, b, ':');
    ParseIntOfDigits(a);
    ParseIntOfDigits(b);
  }

  /** `int()` accepts only whitespace, a sign and ASCII digits. */
  lemma ParseIntChars(p: string)
    requires ParseInt(p).Some?
    ensures forall k :: 0 <= k < |p| ==> IsSpace(p[k]) || IsAsciiDigit(p[k]) || p[k] == '+' || p[k] == '-'
  {
    LStripShape(p);
    var l := LStrip(p);
    RStripShape(l);
    var t := RStrip(l);
    var i := |p| - |l|;
    forall k | 0 <= k < |p|
      ensures IsSpace(p[k]) || IsAsciiDigit(p[k]) || p[k] == '+' || p[k] == '-'
    {
      if i <= k < i + |t| {
        assert p[k] == l[k - i] == t[k - i];
        if |t| > 0 && (t[0] == '+' || t[0] == '-') {
          if k > i {
            assert t[k - i] == t[1..][k - i - 1];
          }
        }
      } else if k >= i + |t| {
        assert p[k] == l[k - i];
      }
    }
  }

  /** Replacing a character that does not occur changes nothing. */
  lemma ReplaceAbsent(s: string, a: char, b: char)
    requires a !in s
    ensures Replace(s, a, b) == s
  {
    forall i | 0 <= i < |s|
      ensures Replace(s, a, b)[i] == s[i]
    {
      ReplaceAt(s, a, b, i);
    }
  }
}
