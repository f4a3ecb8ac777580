/** The string operations the pages share: ASCII case folding,
    String.prototype.trim, substring search (`includes`), `split`/`join`,
    `slice(0, n)`, decimal rendering of integers (`String(n)`) and the
    character-by-character ordering that the default `Array.prototype.sort`
    uses (on code units, which agree with characters inside the Basic
    Multilingual Plane). */
module Strings {

  // ---------------------------------------------------------------------
  // Case folding (toLowerCase over ASCII letters)
  // ---------------------------------------------------------------------

  predicate IsUpper(c: char) { 'A' <= c <= 'Z' }

  predicate IsLowerAlnum(c: char) { 'a' <= c <= 'z' || '0' <= c <= '9' }

  function LowerChar(c: char): (d: char)
    ensures !IsUpper(d)
    ensures IsUpper(c) ==> d as int == c as int + 32
    ensures !IsUpper(c) ==> d == c
  {
    if IsUpper(c) then (c as int + 32) as char else c
  }

  function Lower(s: string): (r: string)
    ensures |r| == |s|
    ensures forall i :: 0 <= i < |s| ==> r[i] == LowerChar(s[i])
  {
    seq(|s|, i requires 0 <= i < |s| => LowerChar(s[i]))
  }

  /** A string is lower-case when no character is an upper-case letter. */
  predicate IsLowerCase(s: string) {
    forall i :: 0 <= i < |s| ==> !IsUpper(s[i])
  }

  lemma LowerIsLowerCase(s: string)
    ensures IsLowerCase(Lower(s))
    ensures Lower(Lower(s)) == Lower(s)
  {
  }

  lemma LowerOfLowerCase(s: string)
    requires IsLowerCase(s)
    ensures Lower(s) == s
  {
  }

  // ---------------------------------------------------------------------
  // trim(): the white space and line terminators of ECMAScript
  // ---------------------------------------------------------------------

  predicate IsSpace(c: char) {
    var u := c as int;
    u == 0x09 || u == 0x0A || u == 0x0B || u == 0x0C || u == 0x0D || u == 0x20
    || u == 0xA0 || u == 0x1680 || (0x2000 <= u <= 0x200A)
    || u == 0x2028 || u == 0x2029 || u == 0x202F || u == 0x205F
    || u == 0x3000 || u == 0xFEFF
  }

  /** Where the text starts: the first index from `i` on that is not white
      space, or the end. */
  function LeadingSpace(s: string, i: nat): (k: nat)
    requires i <= |s|
    ensures i <= k <= |s|
    ensures k == |s| || !IsSpace(s[k])
    decreases |s| - i
  {
    if i < |s| && IsSpace(s[i]) then LeadingSpace(s, i + 1) else i
  }

  /** Where the text ends: the end of `s[lo..hi]` once the white space at
      its end is dropped. */
  function TrailingSpace(s: string, lo: nat, hi: nat): (e: nat)
    requires lo <= hi <= |s|
    ensures lo <= e <= hi
    ensures e == lo || !IsSpace(s[e - 1])
    decreases hi - lo
  {
    if lo < hi && IsSpace(s[hi - 1]) then TrailingSpace(s, lo, hi - 1) else hi
  }

  /** Only white space is skipped at the start. */
  lemma {:induction false} LeadingSpaces(s: string, i: nat)
    requires i <= |s|
    ensures forall j :: i <= j < LeadingSpace(s, i) ==> IsSpace(s[j])
    decreases |s| - i
  {
    if i < |s| && IsSpace(s[i]) {
      LeadingSpaces(s, i + 1);
    }
  }

  /** Only white space is dropped at the end. */
  lemma {:induction false} TrailingSpaces(s: string, lo: nat, hi: nat)
    requires lo <= hi <= |s|
    ensures forall j :: TrailingSpace(s, lo, hi) <= j < hi ==> IsSpace(s[j])
    decreases hi - lo
  {
    if lo < hi && IsSpace(s[hi - 1]) {
      TrailingSpaces(s, lo, hi - 1);
    }
  }

  /** A string is trimmed when it neither starts nor ends with white space. */
  predicate IsTrimmed(s: string) {
    s == [] || (!IsSpace(s[0]) && !IsSpace(s[|s| - 1]))
  }

  /** String.prototype.trim: white space removed from both ends. */
  function Trim(s: string): (r: string)
    ensures IsTrimmed(r)
    ensures |r| <= |s|
  {
    var k := LeadingSpace(s, 0);
    s[k..TrailingSpace(s, k, |s|)]
  }

  /** What trim keeps is one stretch of the string, and everything before
      and after that stretch is white space. */
  lemma TrimShape(s: string)
    ensures var k := LeadingSpace(s, 0);
      var e := TrailingSpace(s, k, |s|);
      && Trim(s) == s[k..e]
      && (forall j :: 0 <= j < k ==> IsSpace(s[j]))
      && (forall j :: e <= j < |s| ==> IsSpace(s[j]))
  {
    var k := LeadingSpace(s, 0);
    LeadingSpaces(s, 0);
    TrailingSpaces(s, k, |s|);
  }

  lemma TrimOfTrimmed(s: string)
    requires IsTrimmed(s)
    ensures Trim(s) == s
  {
    assert LeadingSpace(s, 0) == 0;
    assert TrailingSpace(s, 0, |s|) == |s|;
    assert s[0..|s|] == s;
  }

  /** Trimming only removes characters: everything left was there before. */
  lemma TrimWithin(s: string, c: char)
    requires c in Trim(s)
    ensures c in s
  {
    var k := LeadingSpace(s, 0);
    var r := Trim(s);
    var i :| 0 <= i < |r| && r[i] == c;
    assert s[k + i] == c;
  }

  /** White space in front of a trimmed string is all that trimming removes. */
  lemma TrimLeadingSpace(c: char, t: string)
    requires IsSpace(c) && IsTrimmed(t)
    ensures Trim([c] + t) == t
  {
    var u := [c] + t;
    assert LeadingSpace(u, 1) == 1;
    assert LeadingSpace(u, 0) == 1;
    assert TrailingSpace(u, 1, |u|) == |u|;
    assert u[1..|u|] == t;
  }

  lemma LowerKeepsTrimmed(s: string)
    requires IsTrimmed(s)
    ensures IsTrimmed(Lower(s))
  {
  }

  /** Lowercasing works character by character, so it distributes over
      concatenation. */
  lemma LowerConcat(a: string, b: string)
    ensures Lower(a + b) == Lower(a) + Lower(b)
  {
  }

  /** Lowercasing introduces no character that is not a lowercase letter. */
  lemma LowerWithin(s: string, c: char)
    requires c in Lower(s)
    requires !('a' <= c <= 'z')
    ensures c in s
  {
    var i :| 0 <= i < |s| && Lower(s)[i] == c;
    assert s[i] == c;
  }

  // ---------------------------------------------------------------------
  // includes(): substring search
  // ---------------------------------------------------------------------

  predicate Contains<T(==)>(hay: seq<T>, needle: seq<T>)
    decreases |hay|
  {
    needle <= hay || (hay != [] && Contains(hay[1..], needle))
  }

  lemma {:induction false} ContainsAppendRight<T>(a: seq<T>, b: seq<T>, needle: seq<T>)
    requires Contains(a, needle)
    ensures Contains(a + b, needle)
    decreases |a|
  {
    if needle <= a {
      assert needle <= a + b by {
        assert (a + b)[..|needle|] == a[..|needle|];
      }
    } else {
      ContainsAppendRight(a[1..], b, needle);
      assert (a + b)[1..] == a[1..] + b;
    }
  }

  lemma {:induction false} ContainsAppendLeft<T>(a: seq<T>, b: seq<T>, needle: seq<T>)
    requires Contains(b, needle)
    ensures Contains(a + b, needle)
    decreases |a|
  {
    if a == [] {
      assert a + b == b;
    } else {
      ContainsAppendLeft(a[1..], b, needle);
      assert (a + b)[1..] == a[1..] + b;
    }
  }

  /** Every piece of a concatenation is found inside it. */
  lemma ContainsPiece<T>(a: seq<T>, m: seq<T>, b: seq<T>, needle: seq<T>)
    requires Contains(m, needle)
    ensures Contains(a + m + b, needle)
  {
    ContainsAppendRight(m, b, needle);
    ContainsAppendLeft(a, m + b, needle);
    assert a + m + b == a + (m + b);
  }

  // ---------------------------------------------------------------------
  // split() and join() on a one-character separator
  // ---------------------------------------------------------------------

  function IndexOf(s: string, c: char): (k: nat)
    requires c in s
    ensures k < |s| && s[k] == c && c !in s[..k]
  {
    if s[0] == c then 0 else 1 + IndexOf(s[1..], c)
  }

  function Split(s: string, sep: char): (parts: seq<string>)
    ensures |parts| >= 1
    ensures forall i :: 0 <= i < |parts| ==> sep !in parts[i]
    decreases |s|
  {
    if sep in s then
      var k := IndexOf(s, sep);
      [s[..k]] + Split(s[k + 1..], sep)
    else
      [s]
  }

  function Join(parts: seq<string>, sep: string): string
  {
    if |parts| == 0 then ""
    else if |parts| == 1 then parts[0]
    else parts[0] + sep + Join(parts[1..], sep)
  }

  /** Joining the pieces of a split with the separator gives the string back. */
  lemma {:induction false} JoinSplit(s: string, sep: char)
    ensures Join(Split(s, sep), [sep]) == s
    decreases |s|
  {
    if sep in s {
      var k := IndexOf(s, sep);
      var tail := s[k + 1..];
      var rest := Split(tail, sep);
      JoinSplit(tail, sep);
      var parts := [s[..k]] + rest;
      assert Split(s, sep) == parts;
      assert parts[0] == s[..k] && parts[1..] == rest;
      assert Join(parts, [sep]) == s[..k] + [sep] + Join(rest, [sep]);
      assert s == s[..k] + [sep] + tail;
    }
  }

  /** The first separator of `p + [sep] + tail` is the one after `p`
      when `p` has none. */
  lemma {:induction false} IndexOfAfter(p: string, sep: char, tail: string)
    requires sep !in p
    ensures IndexOf(p + [sep] + tail, sep) == |p|
    decreases |p|
  {
    if p != [] {
      assert (p + [sep] + tail)[1..] == p[1..] + [sep] + tail;
      IndexOfAfter(p[1..], sep, tail);
    }
  }

  /** Splitting a join of separator-free pieces gives the pieces back. */
  lemma {:induction false} SplitJoin(parts: seq<string>, sep: char)
    requires |parts| >= 1
    requires forall i :: 0 <= i < |parts| ==> sep !in parts[i]
    ensures Split(Join(parts, [sep]), sep) == parts
    decreases |parts|
  {
    if |parts| > 1 {
      var p := parts[0];
      var tail := Join(parts[1..], [sep]);
      var s := p + [sep] + tail;
      IndexOfAfter(p, sep, tail);
      assert s[..|p|] == p;
      assert s[|p| + 1..] == tail;
      SplitJoin(parts[1..], sep);
      assert [p] + parts[1..] == parts;
    }
  }

  // ---------------------------------------------------------------------
  // slice(0, n)
  // ---------------------------------------------------------------------

  function Take(s: string, n: nat): (r: string)
    ensures |r| <= n && |r| <= |s|
    ensures r <= s
    ensures |s| <= n ==> r == s
    ensures n < |s| ==> r == s[..n]
  {
    if |s| <= n then s else s[..n]
  }

  // ---------------------------------------------------------------------
  // String(n) for integers
  // ---------------------------------------------------------------------

  predicate IsDigit(c: char) { '0' <= c <= '9' }

  function DigitChar(d: nat): (c: char)
    requires d < 10
    ensures IsDigit(c) && c as int - '0' as int == d
  {
    ('0' as int + d) as char
  }

  function NatToString(n: nat): (s: string)
    ensures |s| >= 1
    ensures forall i :: 0 <= i < |s| ==> IsDigit(s[i])
    ensures |s| > 1 ==> s[0] != '0'
    decreases n
  {
    if n < 10 then [DigitChar(n)] else NatToString(n / 10) + [DigitChar(n % 10)]
  }

  function IntToString(n: int): (s: string)
  {
    if n < 0 then "-" + NatToString(-n) else NatToString(n)
  }

  /** The value of a string of decimal digits. */
  function DigitsValue(s: string): nat
    requires forall i :: 0 <= i < |s| ==> IsDigit(s[i])
  {
    if s == [] then 0
    else
      assert IsDigit(s[|s| - 1]);
      DigitsValue(s[..|s| - 1]) * 10 + (s[|s| - 1] as int - '0' as int)
  }

  lemma {:induction false} NatToStringValue(n: nat)
    ensures DigitsValue(NatToString(n)) == n
    decreases n
  {
    if n >= 10 {
      NatToStringValue(n / 10);
      var s := NatToString(n);
      assert s[..|s| - 1] == NatToString(n / 10);
    }
  }

  /** Only negative numbers print with a leading minus sign. */
  lemma IntToStringSign(n: int)
    ensures (IntToString(n)[0] == '-') == (n < 0)
  {
    if n >= 0 {
      assert IsDigit(IntToString(n)[0]);
    }
  }

  lemma NatToStringInjective(a: nat, b: nat)
    requires NatToString(a) == NatToString(b)
    ensures a == b
  {
    NatToStringValue(a);
    NatToStringValue(b);
  }

  lemma NegativeToString(n: int)
    requires n < 0
    ensures IntToString(n)[1..] == NatToString(-n)
  {
    assert IntToString(n) == "-" + NatToString(-n);
  }

  /** Different numbers print differently. */
  lemma IntToStringInjective(m: int, n: int)
    requires IntToString(m) == IntToString(n)
    ensures m == n
  {
    IntToStringSign(m);
    IntToStringSign(n);
    if m < 0 {
      NegativeToString(m);
      NegativeToString(n);
      NatToStringInjective(-m, -n);
    } else {
      NatToStringInjective(m, n);
    }
  }

  // ---------------------------------------------------------------------
  // Character order of strings (default sort)
  // ---------------------------------------------------------------------

  predicate StrLess(a: string, b: string)
  {
    if a == [] then b != []
    else if b == [] then false
    else a[0] < b[0] || (a[0] == b[0] && StrLess(a[1..], b[1..]))
  }

  lemma {:induction false} StrLessIrreflexive(a: string)
    ensures !StrLess(a, a)
  {
    if a != [] {
      StrLessIrreflexive(a[1..]);
    }
  }

  lemma {:induction false} StrLessTransitive(a: string, b: string, c: string)
    requires StrLess(a, b) && StrLess(b, c)
    ensures StrLess(a, c)
  {
    if a != [] && b != [] && c != [] && a[0] == b[0] == c[0] {
      StrLessTransitive(a[1..], b[1..], c[1..]);
    }
  }

  lemma {:induction false} StrLessTotal(a: string, b: string)
    requires a != b
    ensures StrLess(a, b) || StrLess(b, a)
  {
    if a != [] && b != [] && a[0] == b[0] {
      assert a == [a[0]] + a[1..] && b == [b[0]] + b[1..];
      StrLessTotal(a[1..], b[1..]);
    }
  }
}
