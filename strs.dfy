/** String helpers standing for the Python `str` operations the source uses:
    `startswith`, `endswith`, `in`, `join`, `split`, `strip`, `lower`, `str(n)` and
    `int(s)`. Strings are sequences of characters; only ASCII case and ASCII white
    space are modelled. */
module Strs {
  import opened Wrappers

  predicate StartsWith(s: string, prefix: string) {
    |prefix| <= |s| && s[..|prefix|] == prefix
  }

  predicate EndsWith(s: string, suffix: string) {
    |suffix| <= |s| && s[|s| - |suffix|..] == suffix
  }

  /** `sub` occurs somewhere in `s`. */
  predicate OccursAt(s: string, sub: string, i: int) {
    0 <= i && i + |sub| <= |s| && s[i..i + |sub|] == sub
  }

  /** Python's `sub in s`. */
  predicate Contains(s: string, sub: string) {
    exists i :: 0 <= i <= |s| - |sub| && OccursAt(s, sub, i)
  }

  /** Python's `sep.join(parts)`. */
  function Join(parts: seq<string>, sep: string): string
    decreases |parts|
  {
    if |parts| == 0 then ""
    else if |parts| == 1 then parts[0]
    else parts[0] + sep + Join(parts[1..], sep)
  }

  /** Python's `s.split(sep)[0]`: the text before the first occurrence of `sep`,
      or all of `s` when `sep` does not occur. */
  function BeforeFirst(s: string, sep: string): (r: string)
    requires |sep| > 0
    ensures StartsWith(s, r)
    ensures r == s || StartsWith(s[|r|..], sep)
    ensures forall i :: 0 <= i < |r| ==> !StartsWith(s[i..], sep)
    decreases |s|
  {
    if StartsWith(s, sep) then ""
    else if s == [] then ""
    else
      var rest := BeforeFirst(s[1..], sep);
      assert forall i :: 1 <= i <= |s| ==> s[i..] == s[1..][i - 1..];
      [s[0]] + rest
  }

  /** Python's `s.split(c)` for a one-character separator. */
  function Split(s: string, c: char): (r: seq<string>)
    ensures |r| >= 1
    ensures forall i :: 0 <= i < |r| ==> c !in r[i]
    decreases |s|
  {
    var piece := BeforeFirst(s, [c]);
    assert forall i :: 0 <= i < |piece| ==> piece[i] != c by {
      forall i | 0 <= i < |piece| ensures piece[i] != c {
        assert piece[i] == s[i] && !StartsWith(s[i..], [c]);
      }
    }
    if piece == s then [s]
    else [piece] + Split(s[|piece| + 1..], c)
  }

  /** Splitting and joining again with the same separator gives back the input. */
  lemma {:induction false} JoinSplit(s: string, c: char)
    ensures Join(Split(s, c), [c]) == s
    decreases |s|
  {
    var piece := BeforeFirst(s, [c]);
    if piece != s {
      JoinSplit(s[|piece| + 1..], c);
      var rest := Split(s[|piece| + 1..], c);
      assert Split(s, c) == [piece] + rest;
      assert ([piece] + rest)[1..] == rest;
      assert s[|piece|] == c;
      assert s == piece + [c] + s[|piece| + 1..];
    }
  }

  /** The text of `a + sep + b` before its first `sep` is `a` when no occurrence of
      `sep` can start inside `a`, that is when `sep`'s first character does not
      occur in `a`. */
  lemma BeforeFirstAt(a: string, sep: string, b: string)
    requires |sep| > 0 && sep[0] !in a
    ensures BeforeFirst(a + sep + b, sep) == a
  {
    var s := a + sep + b;
    var r := BeforeFirst(s, sep);
    assert s[|a|..][..|sep|] == sep;
    assert s[..|a|] == a;
  }

  /** The exact condition for the text of `a + sep + b` before its first `sep` to
      be `a`: no occurrence of `sep` starts inside `a`, which is to say `sep` does
      not occur in `a` followed by all but the last character of `sep`. */
  lemma BeforeFirstAtIff(a: string, sep: string, b: string)
    requires |sep| > 0
    ensures BeforeFirst(a + sep + b, sep) == a <==> !Contains(a + sep[..|sep| - 1], sep)
  {
    var s := a + sep + b;
    var t := a + sep[..|sep| - 1];
    var r := BeforeFirst(s, sep);
    assert s[..|t|] == t;
    forall i | 0 <= i < |a| ensures StartsWith(s[i..], sep) <==> OccursAt(t, sep, i) {
      assert i + |sep| <= |t|;
      assert s[i..][..|sep|] == s[i..i + |sep|] == s[..|t|][i..i + |sep|];
    }
    if Contains(t, sep) {
      var i :| 0 <= i <= |t| - |sep| && OccursAt(t, sep, i);
      assert StartsWith(s[i..], sep);
    } else {
      assert s[|a|..][..|sep|] == sep;
      assert |r| == |a|;
      assert s[..|a|] == a;
    }
  }

  /** The text before the first `c` holds no `c`. */
  lemma BeforeFirstExcludes(s: string, c: char)
    ensures c !in BeforeFirst(s, [c])
  {
    var piece := BeforeFirst(s, [c]);
    forall i | 0 <= i < |piece| ensures piece[i] != c {
      assert piece[i] == s[i] && !StartsWith(s[i..], [c]);
    }
  }

  /** Splitting `a + [c] + b` on `c`, when `c` does not occur in `a`, gives `a`
      followed by the pieces of `b`. */
  lemma SplitAt(a: string, c: char, b: string)
    requires c !in a
    ensures Split(a + [c] + b, c) == [a] + Split(b, c)
  {
    var s := a + [c] + b;
    BeforeFirstAt(a, [c], b);
    assert s[|a| + 1..] == b;
  }

  /** A character a suffix of `s` starts with occurs in `s`. */
  lemma StartsWithIn(s: string, i: nat, c: char)
    requires i <= |s| && StartsWith(s[i..], [c])
    ensures c in s
  {
    assert s[i] == s[i..][0];
  }

  /** A string without the separator does not split. */
  lemma SplitNone(s: string, c: char)
    requires c !in s
    ensures Split(s, c) == [s]
  {
    var r := BeforeFirst(s, [c]);
    if r != s {
      StartsWithIn(s, |r|, c);
    }
  }

  /** Joining pieces free of the separator and splitting again gives back the
      pieces. */
  lemma {:induction false} SplitJoin(parts: seq<string>, c: char)
    requires |parts| >= 1
    requires forall k :: 0 <= k < |parts| ==> c !in parts[k]
    ensures Split(Join(parts, [c]), c) == parts
    decreases |parts|
  {
    if |parts| == 1 {
      SplitNone(parts[0], c);
    } else {
      SplitJoin(parts[1..], c);
      SplitAt(parts[0], c, Join(parts[1..], [c]));
      assert parts == [parts[0]] + parts[1..];
    }
  }

  const Whitespace: set<char> := {' ', '\t', '\n', '\r', '\U{000B}', '\U{000C}', '\U{001C}', '\U{001D}', '\U{001E}', '\U{001F}'}

  /** Python's `s.lstrip(chars)`. */
  function StripLeft(s: string, chars: set<char>): (r: string)
    ensures EndsWith(s, r)
    ensures r == [] || r[0] !in chars
    ensures forall i :: 0 <= i < |s| - |r| ==> s[i] in chars
    decreases |s|
  {
    if s != [] && s[0] in chars then StripLeft(s[1..], chars) else s
  }

  /** Python's `s.rstrip(chars)`. */
  function StripRight(s: string, chars: set<char>): (r: string)
    ensures StartsWith(s, r)
    ensures r == [] || r[|r| - 1] !in chars
    ensures forall i :: |r| <= i < |s| ==> s[i] in chars
    decreases |s|
  {
    if s != [] && s[|s| - 1] in chars then StripRight(s[..|s| - 1], chars) else s
  }

  /** One leading character of `chars` followed by one that is not: only the
      first is removed. */
  lemma StripLeftOne(s: string, chars: set<char>)
    requires |s| >= 2 && s[0] in chars && s[1] !in chars
    ensures StripLeft(s, chars) == s[1..]
  {
    assert s[1..][0] == s[1];
  }

  /** One trailing character of `chars` preceded by one that is not: only the
      last is removed. */
  lemma StripRightOne(s: string, chars: set<char>)
    requires |s| >= 2 && s[|s| - 1] in chars && s[|s| - 2] !in chars
    ensures StripRight(s, chars) == s[..|s| - 1]
  {
    var t := s[..|s| - 1];
    assert t[|t| - 1] == s[|s| - 2];
  }

  /** `r` is the slice of `s` at `i`, and everything before and after it is in
      `chars`. */
  predicate SliceBetween(s: string, chars: set<char>, r: string, i: int) {
    OccursAt(s, r, i) && (forall j :: 0 <= j < i ==> s[j] in chars) &&
    (forall j :: i + |r| <= j < |s| ==> s[j] in chars)
  }

  /** Stripping both ends keeps the slice of `s` that starts where `lstrip`
      stopped, between characters of `chars` only. */
  lemma StripSlice(s: string, chars: set<char>)
    ensures var left := StripLeft(s, chars);
      SliceBetween(s, chars, StripRight(left, chars), |s| - |left|)
  {
    var left := StripLeft(s, chars);
    var r := StripRight(left, chars);
    var i := |s| - |left|;
    assert s[i..] == left;
    assert s[i..i + |r|] == left[..|r|] == r;
    forall j | i + |r| <= j < |s| ensures s[j] in chars {
      assert s[j] == left[j - i];
    }
  }

  /** Python's `s.strip(chars)`: the slice of `s` left after removing every leading
      and trailing character in `chars`. */
  function Strip(s: string, chars: set<char>): (r: string)
    ensures r == [] || (r[0] !in chars && r[|r| - 1] !in chars)
    ensures exists i :: OccursAt(s, r, i)
    ensures exists i :: SliceBetween(s, chars, r, i)
  {
    var left := StripLeft(s, chars);
    StripSlice(s, chars);
    StripRight(left, chars)
  }

  function LowerChar(c: char): char {
    if 'A' <= c <= 'Z' then (c as int - 'A' as int + 'a' as int) as char else c
  }

  /** Python's `s.lower()` on ASCII letters. */
  function Lower(s: string): (r: string)
    ensures |r| == |s|
    ensures forall i :: 0 <= i < |s| ==> r[i] == LowerChar(s[i])
  {
    seq(|s|, i requires 0 <= i < |s| => LowerChar(s[i]))
  }

  predicate IsDigit(c: char) { '0' <= c <= '9' }

  function DigitChar(d: nat): char
    requires d < 10
  {
    ('0' as int + d) as char
  }

  /** The value of a string of decimal digits. */
  function DigitsValue(s: string): nat
    requires forall i :: 0 <= i < |s| ==> IsDigit(s[i])
    decreases |s|
  {
    if s == [] then 0
    else
      assert IsDigit(s[|s| - 1]);
      DigitsValue(s[..|s| - 1]) * 10 + (s[|s| - 1] as int - '0' as int)
  }

  /** Python's `str(n)` for a natural number. */
  function NatToString(n: nat): (r: string)
    ensures |r| >= 1
    ensures forall i :: 0 <= i < |r| ==> IsDigit(r[i])
    decreases n
  {
    if n < 10 then [DigitChar(n)] else NatToString(n / 10) + [DigitChar(n % 10)]
  }

  /** Python's `str(i)` for an integer. */
  function IntToString(i: int): string {
    if i < 0 then "-" + NatToString(-i) else NatToString(i)
  }

  /** Python's `int(s)` on an optional sign followed by decimal digits; anything else
      is a ValueError, here None. */
  function ParseInt(s: string): (r: Option<int>)
    ensures r.Some? ==> |s| >= 1
  {
    var body := if s != [] && (s[0] == '+' || s[0] == '-') then s[1..] else s;
    if body == [] || exists i :: 0 <= i < |body| && !IsDigit(body[i]) then None
    else if s[0] == '-' then Some(0 - DigitsValue(body) as int)
    else Some(DigitsValue(body))
  }

  /** `str(n)` reads back as `n`. */
  lemma {:induction false} NatToStringValue(n: nat)
    ensures DigitsValue(NatToString(n)) == n
    decreases n
  {
    if n >= 10 {
      NatToStringValue(n / 10);
      var s := NatToString(n);
      assert s[..|s| - 1] == NatToString(n / 10);
    }
  }

  /** `int(str(n)) == n` for a natural number. */
  lemma ParseNatToString(n: nat)
    ensures ParseInt(NatToString(n)) == Some(n)
  {
    var d := NatToString(n);
    NatToStringValue(n);
    assert IsDigit(d[0]);
  }

  /** `int("-" + str(n)) == -n`. */
  lemma ParseNegatedNatToString(n: nat)
    ensures ParseInt("-" + NatToString(n)) == Some(-(n as int))
  {
    var d := NatToString(n);
    var s := "-" + d;
    NatToStringValue(n);
    assert s[0] == '-' && s[1..] == d;
  }

  /** `int(str(i)) == i`. */
  lemma ParseIntToString(i: int)
    ensures ParseInt(IntToString(i)) == Some(i)
  {
    if i < 0 {
      ParseNegatedNatToString(-i);
    } else {
      ParseNatToString(i);
    }
  }
}
