/** The handful of Python `str` operations the scripts rely on, on ASCII:
    `strip`, `rstrip` and `strip` with a character set, `split` on one
    character, `join`, `lower`, `isdigit`, `startswith`/`endswith`, `count`,
    and `str()` of integers. */
module Text {

  /** The characters `str.strip()` removes, restricted to ASCII: space, tab,
      line feed, vertical tab, form feed, carriage return and the four
      separators 0x1C to 0x1F. */
  const Whitespace: set<char> :=
    {' ', '\t', '\n', '\r', '\U{000B}', '\U{000C}', '\U{001C}', '\U{001D}', '\U{001E}', '\U{001F}'}

  /** `s.lstrip(chars)`: drop the longest prefix made of characters in `chars`. */
  function LStrip(s: string, chars: set<char>): (r: string)
    ensures |r| <= |s| && r == s[|s| - |r|..]
    ensures forall i | 0 <= i < |s| - |r| :: s[i] in chars
    ensures r == [] || r[0] !in chars
  {
    if s != [] && s[0] in chars then LStrip(s[1..], chars) else s
  }

  /** `s.rstrip(chars)`: drop the longest suffix made of characters in `chars`. */
  function RStrip(s: string, chars: set<char>): (r: string)
    ensures |r| <= |s| && r == s[..|r|]
    ensures forall i | |r| <= i < |s| :: s[i] in chars
    ensures r == [] || r[|r| - 1] !in chars
  {
    if s != [] && s[|s| - 1] in chars then RStrip(s[..|s| - 1], chars) else s
  }

  /** `s.strip(chars)`: neither end of the result is in `chars`. */
  function Strip(s: string, chars: set<char>): (r: string)
    ensures Bare(r, chars)
  {
    var l := LStrip(s, chars);
    var r := RStrip(l, chars);
    assert r == l[..|r|];
    r
  }

  /** Every string is its stripped core between two runs of stripped
      characters. */
  lemma StripSplit(s: string, chars: set<char>) returns (a: string, b: string)
    ensures s == a + Strip(s, chars) + b
    ensures AllIn(a, chars) && AllIn(b, chars)
  {
    var l := LStrip(s, chars);
    var r := RStrip(l, chars);
    a := s[..|s| - |l|];
    b := l[|r|..];
    LStripSplit(s, chars);
    RStripSplit(l, chars);
    var c := Strip(s, chars);
    assert c == r;
    Assoc(a, c, b);
  }

  lemma Assoc(a: string, c: string, b: string)
    ensures a + (c + b) == a + c + b
  {
  }

  lemma LStripSplit(s: string, chars: set<char>)
    ensures s == s[..|s| - |LStrip(s, chars)|] + LStrip(s, chars)
    ensures AllIn(s[..|s| - |LStrip(s, chars)|], chars)
  {
    var l := LStrip(s, chars);
    PrefixAllIn(s, |s| - |l|, chars);
  }

  lemma PrefixAllIn(s: string, m: nat, chars: set<char>)
    requires m <= |s|
    requires forall i | 0 <= i < m :: s[i] in chars
    ensures s == s[..m] + s[m..]
    ensures AllIn(s[..m], chars)
  {
    assert forall i | 0 <= i < m :: s[..m][i] == s[i];
  }

  lemma RStripSplit(s: string, chars: set<char>)
    ensures s == RStrip(s, chars) + s[|RStrip(s, chars)|..]
    ensures AllIn(s[|RStrip(s, chars)|..], chars)
  {
    var r := RStrip(s, chars);
    var b := s[|r|..];
    assert forall i | 0 <= i < |b| :: b[i] == s[|r| + i];
  }

  /** Trailing characters from the stripped set do not change the result. */
  lemma StripIgnoresPadding(p: string, ws: string, chars: set<char>)
    requires AllIn(ws, chars)
    ensures Strip(p + ws, chars) == Strip(p, chars)
  {
    var a, b := StripSplit(p, chars);
    var c := Strip(p, chars);
    assert p + ws == a + c + (b + ws);
    StripPadded(a, c, b + ws, chars);
  }

  /** Stripping never introduces a character. */
  lemma StripKeeps(s: string, chars: set<char>, c: char)
    requires c !in s
    ensures c !in Strip(s, chars)
  {
    var a, b := StripSplit(s, chars);
    var r := Strip(s, chars);
    forall i | 0 <= i < |r| ensures r[i] != c {
      assert r[i] == (a + r + b)[|a| + i];
    }
  }

  /** Concatenation keeps every character inside a set. */
  lemma AllInAppend(a: string, b: string, chars: set<char>)
    requires AllIn(a, chars) && AllIn(b, chars)
    ensures AllIn(a + b, chars)
  {
    assert forall i | |a| <= i < |a + b| :: (a + b)[i] == b[i - |a|];
  }

  /** A join uses only characters of its separator and its parts. */
  lemma {:induction false} AllInJoin(sep: string, parts: seq<string>, chars: set<char>)
    requires AllIn(sep, chars) && forall i | 0 <= i < |parts| :: AllIn(parts[i], chars)
    ensures AllIn(Join(sep, parts), chars)
  {
    if |parts| > 1 {
      AllInJoin(sep, parts[1..], chars);
      AllInAppend(parts[0], sep, chars);
      AllInAppend(parts[0] + sep, Join(sep, parts[1..]), chars);
    }
  }

  /** `s.strip()`. */
  function Trim(s: string): string {
    Strip(s, Whitespace)
  }

  /** Neither end of `s` is in `chars`: `strip(chars)` leaves it alone. */
  predicate Bare(s: string, chars: set<char>) {
    s == [] || (s[0] !in chars && s[|s| - 1] !in chars)
  }

  predicate AllIn(s: string, chars: set<char>) {
    forall i | 0 <= i < |s| :: s[i] in chars
  }

  /** `strip` removes exactly the padding: whatever padding of characters in
      `chars` surrounds a bare string, stripping gives that string back. */
  lemma StripPadded(a: string, c: string, b: string, chars: set<char>)
    requires AllIn(a, chars) && AllIn(b, chars) && Bare(c, chars)
    ensures Bare(Strip(a + c + b, chars), chars)
    ensures Strip(a + c + b, chars) == c
  {
    if c == [] {
      assert a + c + b == a + b;
      LStripPrefix(a + b, [], chars);
      assert a + b + [] == a + b;
    } else {
      assert a + c + b == a + (c + b);
      LStripPrefix(a, c + b, chars);
      RStripSuffix(c, b, chars);
    }
  }

  lemma {:induction false} LStripPrefix(a: string, t: string, chars: set<char>)
    requires AllIn(a, chars) && (t == [] || t[0] !in chars)
    ensures LStrip(a + t, chars) == t
  {
    if a == [] {
      assert a + t == t;
    } else {
      assert (a + t)[1..] == a[1..] + t;
      LStripPrefix(a[1..], t, chars);
    }
  }

  lemma {:induction false} RStripSuffix(t: string, b: string, chars: set<char>)
    requires AllIn(b, chars) && (t == [] || t[|t| - 1] !in chars)
    ensures RStrip(t + b, chars) == t
  {
    if b == [] {
      assert t + b == t;
    } else {
      assert (t + b)[..|t + b| - 1] == t + b[..|b| - 1];
      RStripSuffix(t, b[..|b| - 1], chars);
    }
  }

  /** `sep.join(parts)`. */
  function Join(sep: string, parts: seq<string>): string {
    if |parts| == 0 then ""
    else if |parts| == 1 then parts[0]
    else parts[0] + sep + Join(sep, parts[1..])
  }

  /** The join of non-empty parts starts with the first part's first
      character and ends with the last part's last character. */
  lemma {:induction false} JoinEnds(sep: string, parts: seq<string>)
    requires |parts| >= 1 && forall i | 0 <= i < |parts| :: parts[i] != []
    ensures Join(sep, parts) != []
    ensures Join(sep, parts)[0] == parts[0][0]
    ensures Join(sep, parts)[|Join(sep, parts)| - 1] == parts[|parts| - 1][|parts[|parts| - 1]| - 1]
  {
    if |parts| > 1 {
      JoinEnds(sep, parts[1..]);
    }
  }

  /** A join starts with its first part. */
  lemma JoinStart(sep: string, parts: seq<string>)
    requires |parts| >= 1
    ensures |parts[0]| <= |Join(sep, parts)| && Join(sep, parts)[..|parts[0]|] == parts[0]
  {
    if |parts| > 1 {
      assert Join(sep, parts) == parts[0] + (sep + Join(sep, parts[1..]));
    }
  }

  /** Joining one more part appends the separator and the part. */
  lemma {:induction false} JoinSnoc(sep: string, parts: seq<string>, x: string)
    requires |parts| >= 1
    ensures Join(sep, parts + [x]) == Join(sep, parts) + sep + x
  {
    if |parts| > 1 {
      assert (parts + [x])[1..] == parts[1..] + [x];
      JoinSnoc(sep, parts[1..], x);
    }
  }

  /** Text appended to a join belongs to its last part. */
  lemma {:induction false} JoinExtendLast(sep: string, parts: seq<string>, x: string)
    requires |parts| >= 1
    ensures Join(sep, parts[..|parts| - 1] + [parts[|parts| - 1] + x]) == Join(sep, parts) + x
  {
    var n := |parts| - 1;
    if n == 0 {
      assert parts[..n] + [parts[n] + x] == [parts[0] + x];
    } else {
      assert parts == parts[..n] + [parts[n]];
      JoinSnoc(sep, parts[..n], parts[n]);
      JoinSnoc(sep, parts[..n], parts[n] + x);
    }
  }

  /** `s.split(sep)` for a one-character separator: the pieces between the
      separators, in order; there is always at least one piece. */
  function Split(s: string, sep: char): (r: seq<string>)
    ensures |r| == Count(s, sep) + 1
    ensures forall i | 0 <= i < |r| :: sep !in r[i]
    ensures Join([sep], r) == s
  {
    if s == [] then [""]
    else
      var rest := Split(s[1..], sep);
      if s[0] == sep then
        assert ([""] + rest)[1..] == rest;
        [""] + rest
      else
        JoinExtendFirst([sep], [s[0]], rest);
        [[s[0]] + rest[0]] + rest[1..]
  }

  lemma JoinExtendFirst(sep: string, x: string, parts: seq<string>)
    requires |parts| >= 1
    ensures Join(sep, [x + parts[0]] + parts[1..]) == x + Join(sep, parts)
  {
    var q := [x + parts[0]] + parts[1..];
    if |parts| > 1 {
      assert q[1..] == parts[1..];
    }
  }

  /** Splitting on a separator undoes joining with it, when no part contains
      the separator. */
  lemma {:induction false} SplitJoin(parts: seq<string>, sep: char)
    requires |parts| >= 1
    requires forall i | 0 <= i < |parts| :: sep !in parts[i]
    ensures Split(Join([sep], parts), sep) == parts
  {
    if |parts| == 1 {
      SplitNoSep(parts[0], sep);
    } else {
      SplitJoin(parts[1..], sep);
      assert Join([sep], parts) == parts[0] + ([sep] + Join([sep], parts[1..]));
      SplitAfterPiece(parts[0], Join([sep], parts[1..]), sep);
    }
  }

  lemma {:induction false} SplitNoSep(x: string, sep: char)
    requires sep !in x
    ensures Split(x, sep) == [x]
  {
    if x != [] {
      SplitNoSep(x[1..], sep);
      assert [x[0]] + x[1..] == x;
    }
  }

  lemma {:induction false} SplitAfterPiece(x: string, y: string, sep: char)
    requires sep !in x
    ensures Split(x + ([sep] + y), sep) == [x] + Split(y, sep)
  {
    var s := x + ([sep] + y);
    if x == [] {
      assert s == [sep] + y && s[1..] == y;
      SplitAtSep(s, sep);
    } else {
      assert s[0] == x[0] && s[1..] == x[1..] + ([sep] + y);
      SplitAtOther(s, sep);
      SplitAfterPiece(x[1..], y, sep);
      ExtendFirstPiece(x, Split(y, sep));
    }
  }

  lemma SplitAtSep(s: string, sep: char)
    requires s != [] && s[0] == sep
    ensures Split(s, sep) == [""] + Split(s[1..], sep)
  {
  }

  lemma SplitAtOther(s: string, sep: char)
    requires s != [] && s[0] != sep
    ensures Split(s, sep) == [[s[0]] + Split(s[1..], sep)[0]] + Split(s[1..], sep)[1..]
  {
  }

  lemma ExtendFirstPiece(x: string, t: seq<string>)
    requires x != []
    ensures var rest := [x[1..]] + t; [[x[0]] + rest[0]] + rest[1..] == [x] + t
  {
    assert [x[0]] + x[1..] == x;
    assert ([x[1..]] + t)[1..] == t;
  }

  /** Joining pieces free of a character with that character uses it once
      between every two pieces. */
  lemma CountJoin(parts: seq<string>, sep: char)
    requires |parts| >= 1
    requires forall i | 0 <= i < |parts| :: sep !in parts[i]
    ensures Count(Join([sep], parts), sep) == |parts| - 1
  {
    SplitJoin(parts, sep);
  }

  /** Python's `str.count` for one character. */
  function Count(s: string, c: char): (n: nat)
    ensures n <= |s|
    ensures n == 0 <==> c !in s
  {
    if s == [] then 0 else (if s[0] == c then 1 else 0) + Count(s[1..], c)
  }

  lemma {:induction false} CountAppend(a: string, b: string, c: char)
    ensures Count(a + b, c) == Count(a, c) + Count(b, c)
  {
    if a == [] {
      assert a + b == b;
    } else {
      assert (a + b)[1..] == a[1..] + b;
      CountAppend(a[1..], b, c);
    }
  }

  predicate StartsWith(s: string, prefix: string) {
    |prefix| <= |s| && s[..|prefix|] == prefix
  }

  predicate EndsWith(s: string, suffix: string) {
    |suffix| <= |s| && s[|s| - |suffix|..] == suffix
  }

  function LowerChar(c: char): char {
    if 'A' <= c <= 'Z' then (c as int + 32) as char else c
  }

  /** `s.lower()` on ASCII letters; every other character is kept. */
  function Lower(s: string): (r: string)
    ensures |r| == |s|
    ensures forall i | 0 <= i < |s| :: r[i] == LowerChar(s[i])
  {
    if s == [] then [] else [LowerChar(s[0])] + Lower(s[1..])
  }

  /** Lower-casing twice is lower-casing once. */
  lemma LowerIdempotent(s: string)
    ensures Lower(Lower(s)) == Lower(s)
  {
  }

  predicate IsDigit(c: char) { '0' <= c <= '9' }

  /** `s.isdigit()` on ASCII: non-empty and all decimal digits. */
  predicate IsDigits(s: string) {
    |s| > 0 && forall i | 0 <= i < |s| :: IsDigit(s[i])
  }

  function DigitChar(d: nat): char
    requires d < 10
  {
    ('0' as int + d) as char
  }

  /** The value of a string of decimal digits. */
  function ParseNat(s: string): nat
    requires forall i | 0 <= i < |s| :: IsDigit(s[i])
  {
    if s == [] then 0 else 10 * ParseNat(s[..|s| - 1]) + DigitValue(s[|s| - 1])
  }

  function DigitValue(c: char): (d: nat)
    requires IsDigit(c)
    ensures d < 10 && DigitChar(d) == c
  {
    c as int - '0' as int
  }

  /** `str(n)` for a non-negative integer: decimal digits without leading
      zeros that read back as n. */
  function NatToString(n: nat): (r: string)
    ensures IsDigits(r)
    ensures r[0] == '0' ==> n == 0
    ensures ParseNat(r) == n
  {
    if n < 10 then [DigitChar(n)]
    else
      var r := NatToString(n / 10) + [DigitChar(n % 10)];
      assert r[..|r| - 1] == NatToString(n / 10);
      r
  }

  /** `str(i)` for any integer. */
  function IntToString(i: int): (r: string)
    ensures r != []
  {
    if i < 0 then "-" + NatToString(-i) else NatToString(i)
  }

  /** `f"{n:02d}"`: at least two digits, zero-padded, same value; a one-digit
      number gets exactly one leading zero and a wider one none. */
  function Pad2(n: nat): (r: string)
    ensures IsDigits(r) && |r| >= 2
    ensures ParseNat(r) == n
    ensures n < 10 ==> |r| == 2 && r[0] == '0'
    ensures n >= 10 ==> r == NatToString(n)
  {
    if n < 10 then
      var r := "0" + NatToString(n);
      assert r[..1] == "0";
      r
    else NatToString(n)
  }

  /** `[x] * n` and `x * n`. */
  function Repeat<T>(x: T, n: nat): (r: seq<T>)
    ensures |r| == n
    ensures forall i | 0 <= i < n :: r[i] == x
  {
    if n == 0 then [] else [x] + Repeat(x, n - 1)
  }

  lemma RepeatSnoc<T>(x: T, n: nat)
    ensures Repeat(x, n + 1) == Repeat(x, n) + [x]
  {
  }
}
