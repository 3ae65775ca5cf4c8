/** The string operations of Python's `str` that the normalisers use: `strip`,
    `casefold`, `count`, `split` and `join` with a one-character separator, and
    the test `str(int(s)) == s`. */
module PyText {
  import opened Values

  /** `c.isspace()`: the characters Python's `str.strip()` removes. */
  predicate IsSpace(c: char) {
    var n := c as int;
    (9 <= n <= 13) || (28 <= n <= 32) || n == 0x85 || n == 0xA0 || n == 0x1680
    || (0x2000 <= n <= 0x200A) || n == 0x2028 || n == 0x2029 || n == 0x202F
    || n == 0x205F || n == 0x3000
  }

  function LStrip(s: string): (r: string)
    ensures |r| <= |s| && r == s[|s| - |r|..]
    ensures forall k :: 0 <= k < |s| - |r| ==> IsSpace(s[k])
    ensures r == [] || !IsSpace(r[0])
  {
    if s != [] && IsSpace(s[0]) then LStrip(s[1..]) else s
  }

  function RStrip(s: string): (r: string)
    ensures |r| <= |s| && r == s[..|r|]
    ensures forall k :: |r| <= k < |s| ==> IsSpace(s[k])
    ensures r == [] || !IsSpace(r[|r| - 1])
  {
    if s != [] && IsSpace(s[|s| - 1]) then RStrip(s[..|s| - 1]) else s
  }

  /** `s.strip()`: `s` without leading and trailing whitespace. */
  function Strip(s: string): (r: string)
    ensures |r| <= |s|
    ensures r == [] || (!IsSpace(r[0]) && !IsSpace(r[|r| - 1]))
  {
    RStrip(LStrip(s))
  }

  /** Letters, digits and the dash are no whitespace. */
  lemma WordCharNotSpace(c: char)
    requires 'a' <= c <= 'z' || 'A' <= c <= 'Z' || '0' <= c <= '9' || c == '-'
    ensures !IsSpace(c)
  {
  }

  /** A string with no whitespace at either end is its own strip. */
  lemma StripNoop(s: string)
    requires s == [] || (!IsSpace(s[0]) && !IsSpace(s[|s| - 1]))
    ensures LStrip(s) == s && RStrip(s) == s
    ensures Strip(s) == s
  {
  }

  /** `strip()` keeps the slice of the text that starts after the leading
      whitespace `lstrip()` drops, and what follows that slice is whitespace. */
  lemma StripSpec(s: string)
    ensures var i := |s| - |LStrip(s)|;
            i + |Strip(s)| <= |s| && Strip(s) == s[i..i + |Strip(s)|]
            && (forall k :: 0 <= k < i ==> IsSpace(s[k]))
            && (forall k :: i + |Strip(s)| <= k < |s| ==> IsSpace(s[k]))
  {
    var l := LStrip(s);
    var r := RStrip(l);
    var i := |s| - |l|;
    assert r == s[i..i + |r|];
    forall k | i + |r| <= k < |s|
      ensures IsSpace(s[k])
    {
      assert s[k] == l[k - i];
    }
  }

  lemma StripIdempotent(s: string)
    ensures Strip(Strip(s)) == Strip(s)
  {
    StripNoop(Strip(s));
  }

  /** A string ending in a non-space character keeps that last character. */
  lemma StripKeepsLast(s: string)
    requires s != [] && !IsSpace(s[|s| - 1])
    ensures Strip(s) != [] && Strip(s)[|Strip(s)| - 1] == s[|s| - 1]
  {
    var l := LStrip(s);
    assert l != [] && l[|l| - 1] == s[|s| - 1];
  }

  /** A non-space character anywhere in `s` leaves `s.strip()` non-empty. */
  lemma StripNonEmpty(s: string, c: char)
    requires c in s && !IsSpace(c)
    ensures Strip(s) != []
  {
    var k :| 0 <= k < |s| && s[k] == c;
    StripSpec(s);
  }

  function Lower(c: char): char {
    if 'A' <= c <= 'Z' then (c as int + 32) as char else c
  }

  /** `s.casefold()` on ASCII letters (see README for the rest of Unicode). */
  function CaseFold(s: string): (r: string)
    ensures |r| == |s|
  {
    seq(|s|, k requires 0 <= k < |s| => Lower(s[k]))
  }

  lemma CaseFoldNoUpper(s: string)
    requires forall k :: 0 <= k < |s| ==> !('A' <= s[k] <= 'Z')
    ensures CaseFold(s) == s
  {
  }

  /** `s.count(c)` for a one-character `c`. */
  function Count(s: string, c: char): nat {
    if s == [] then 0 else (if s[0] == c then 1 else 0) + Count(s[1..], c)
  }

  lemma {:induction false} CountConcat(a: string, b: string, c: char)
    ensures Count(a + b, c) == Count(a, c) + Count(b, c)
  {
    if a != [] {
      var ab := a + b;
      assert ab != [] && ab[0] == a[0] && ab[1..] == a[1..] + b;
      CountConcat(a[1..], b, c);
      assert Count(ab, c) == (if a[0] == c then 1 else 0) + Count(a[1..] + b, c);
    } else {
      assert a + b == b;
    }
  }

  lemma {:induction false} CountPositive(s: string, c: char)
    requires Count(s, c) > 0
    ensures c in s
  {
    if s[0] != c {
      CountPositive(s[1..], c);
    }
  }

  /** `s[:-1]`. */
  function DropLast(s: string): (r: string)
    ensures |r| == if s == [] then 0 else |s| - 1
  {
    if s == [] then [] else s[..|s| - 1]
  }

  lemma CountDropLast(s: string, c: char)
    requires s != []
    ensures Count(s, c) == Count(DropLast(s), c) + (if s[|s| - 1] == c then 1 else 0)
  {
    assert s == DropLast(s) + [s[|s| - 1]];
    CountConcat(DropLast(s), [s[|s| - 1]], c);
  }

  /** `s.split(c)` for a one-character `c`: the pieces between the occurrences
      of `c`, one more than there are occurrences. */
  function SplitOn(s: string, c: char): (r: seq<string>)
    ensures |r| == Count(s, c) + 1
    ensures forall k :: 0 <= k < |r| ==> c !in r[k] && |r[k]| <= |s|
  {
    if s == [] then [""]
    else if s[0] == c then [""] + SplitOn(s[1..], c)
    else
      var t := SplitOn(s[1..], c);
      [[s[0]] + t[0]] + t[1..]
  }

  /** `c.join(xs)`. */
  function JoinWith(xs: seq<string>, c: char): string {
    if xs == [] then ""
    else if |xs| == 1 then xs[0]
    else xs[0] + [c] + JoinWith(xs[1..], c)
  }

  lemma {:induction false} JoinSnoc(xs: seq<string>, y: string, c: char)
    requires xs != []
    ensures JoinWith(xs + [y], c) == JoinWith(xs, c) + [c] + y
  {
    if |xs| > 1 {
      assert (xs + [y])[1..] == xs[1..] + [y];
      JoinSnoc(xs[1..], y, c);
    }
  }

  /** Joining the pieces restores the string. */
  lemma {:induction false} JoinSplit(s: string, c: char)
    ensures JoinWith(SplitOn(s, c), c) == s
  {
    if s != [] {
      JoinSplit(s[1..], c);
      var t := SplitOn(s[1..], c);
      if s[0] != c {
        if |t| > 1 {
          assert ([[s[0]] + t[0]] + t[1..])[1..] == t[1..];
          assert JoinWith(t, c) == t[0] + [c] + JoinWith(t[1..], c);
        }
      }
    }
  }

  lemma {:induction false} SplitPieceFree(x: string, c: char)
    requires c !in x
    ensures SplitOn(x, c) == [x]
  {
    if x != [] {
      SplitPieceFree(x[1..], c);
      assert [x[0]] + x[1..] == x;
    }
  }

  lemma {:induction false} SplitPieceThenSep(x: string, rest: string, c: char)
    requires c !in x
    ensures SplitOn(x + [c] + rest, c) == [x] + SplitOn(rest, c)
  {
    if x == [] {
      assert x + [c] + rest == [c] + rest;
      assert ([c] + rest)[1..] == rest;
    } else {
      var s := x + [c] + rest;
      assert s[0] == x[0] && s[1..] == x[1..] + [c] + rest;
      SplitPieceThenSep(x[1..], rest, c);
      assert [x[0]] + x[1..] == x;
    }
  }

  /** Splitting a join of separator-free pieces gives the pieces back. */
  lemma {:induction false} SplitJoin(xs: seq<string>, c: char)
    requires xs != []
    requires forall k :: 0 <= k < |xs| ==> c !in xs[k]
    ensures SplitOn(JoinWith(xs, c), c) == xs
  {
    if |xs| == 1 {
      SplitPieceFree(xs[0], c);
    } else {
      SplitJoin(xs[1..], c);
      SplitPieceThenSep(xs[0], JoinWith(xs[1..], c), c);
    }
  }

  /** A join of separator-free pieces holds one separator fewer than pieces. */
  lemma CountJoin(xs: seq<string>, c: char)
    requires xs != []
    requires forall k :: 0 <= k < |xs| ==> c !in xs[k]
    ensures Count(JoinWith(xs, c), c) == |xs| - 1
  {
    SplitJoin(xs, c);
  }

  // ---------------------------------------------------------------------------
  // `str(cand) == s` for `cand = int(s)`: int() accepts signs, spaces, digit
  // separators and non-ASCII digits, but str() of the result is always the
  // canonical decimal form, so the test holds exactly for canonical strings.

  predicate IsDigit(c: char) {
    '0' <= c <= '9'
  }

  /** The value of a decimal digit; other characters count as zero. */
  function DigitValue(c: char): (d: nat)
    ensures IsDigit(c) ==> d == c as int - '0' as int
  {
    if IsDigit(c) then c as int - '0' as int else 0
  }

  /** The value of a string of decimal digits. */
  function DigitsValue(s: string): nat {
    if s == [] then 0 else DigitsValue(s[..|s| - 1]) * 10 + DigitValue(s[|s| - 1])
  }

  /** Digits without a superfluous leading zero. */
  function ParseNat(s: string): Option<nat> {
    if s != [] && (forall k :: 0 <= k < |s| ==> IsDigit(s[k])) && (|s| == 1 || s[0] != '0')
    then Some(DigitsValue(s))
    else None
  }

  /** The int `cand` with `str(cand) == s`, if there is one. */
  function ParseInt(s: string): Option<int> {
    if s != [] && s[0] == '-' then
      match ParseNat(s[1..])
      case Some(n) => if n == 0 then None else Some(0 - n)
      case None => None
    else
      match ParseNat(s)
      case Some(n) => Some(n)
      case None => None
  }

  lemma {:induction false} DigitsOfNat(n: nat)
    ensures DigitsValue(NatToString(n)) == n
  {
    if n >= 10 {
      DigitsOfNat(n / 10);
      var s := NatToString(n);
      assert s[..|s| - 1] == NatToString(n / 10);
    }
  }

  lemma {:induction false} LeadingDigitPositive(s: string)
    requires s != [] && (forall k :: 0 <= k < |s| ==> IsDigit(s[k])) && s[0] != '0'
    ensures DigitsValue(s) >= 1
  {
    if |s| > 1 {
      LeadingDigitPositive(s[..|s| - 1]);
    }
  }

  lemma {:induction false} NatOfDigits(s: string)
    requires ParseNat(s).Some?
    ensures NatToString(ParseNat(s).value) == s
  {
    var v := DigitsValue(s);
    if |s| == 1 {
      assert s[..0] == [] && DigitsValue([]) == 0;
      assert v == s[0] as int - '0' as int;
      assert Digit(v) == s[0];
    } else {
      var t := s[..|s| - 1];
      assert t[0] == s[0];
      assert ParseNat(t).Some?;
      NatOfDigits(t);
      LeadingDigitPositive(t);
      assert v / 10 == DigitsValue(t) && v % 10 == s[|s| - 1] as int - '0' as int;
      assert Digit(v % 10) == s[|s| - 1];
      assert NatToString(v) == t + [s[|s| - 1]];
      assert t + [s[|s| - 1]] == s;
    }
  }

  /** Every int's decimal rendering is accepted and denotes that int. */
  lemma ParseIntOfString(i: int)
    ensures ParseInt(IntToString(i)) == Some(i)
  {
    var n: nat := if i < 0 then -i else i;
    var d := NatToString(n);
    DigitsOfNat(n);
    assert ParseNat(d) == Some(n);
    if i < 0 {
      assert IntToString(i)[1..] == d;
    }
  }

  /** Whatever is accepted re-renders to exactly the input. */
  lemma ParseIntSound(s: string)
    requires ParseInt(s).Some?
    ensures IntToString(ParseInt(s).value) == s
  {
    if s[0] == '-' {
      NatOfDigits(s[1..]);
      assert s == "-" + s[1..];
    } else {
      NatOfDigits(s);
    }
  }

  /** `s` passes the test `str(int(s)) == s` with result `i` exactly when `s` is
      `str(i)`. */
  lemma CanonicalInt(s: string, i: int)
    ensures ParseInt(s) == Some(i) <==> IntToString(i) == s
  {
    if ParseInt(s) == Some(i) {
      ParseIntSound(s);
    }
    if IntToString(i) == s {
      ParseIntOfString(i);
    }
  }
}
