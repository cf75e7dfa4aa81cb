/** The Python string operations the pipeline relies on, over `string` (a `seq<char>`). */
module Text {

  /** Number of occurrences of `c` in `s`. */
  function Count(s: string, c: char): nat
  {
    if s == [] then 0 else Count(s[..|s| - 1], c) + (if s[|s| - 1] == c then 1 else 0)
  }

  lemma {:induction false} CountZero(s: string, c: char)
    ensures Count(s, c) == 0 <==> c !in s
  {
    if s != [] {
      CountZero(s[..|s| - 1], c);
      assert s == s[..|s| - 1] + [s[|s| - 1]];
    }
  }

  /** `sep.join(xs)`: the pieces with `sep` between consecutive ones and nowhere else. */
  function Join(xs: seq<string>, sep: string): string
  {
    if |xs| == 0 then ""
    else if |xs| == 1 then xs[0]
    else Join(xs[..|xs| - 1], sep) + sep + xs[|xs| - 1]
  }

  lemma JoinSnoc(xs: seq<string>, x: string, sep: string)
    requires xs != []
    ensures Join(xs + [x], sep) == Join(xs, sep) + sep + x
  {
    assert (xs + [x])[..|xs|] == xs;
  }

  /** `s.split(sep)` for a one-character separator: always at least one piece. */
  function Split(s: string, sep: char): (parts: seq<string>)
    ensures |parts| == Count(s, sep) + 1
    ensures forall k :: 0 <= k < |parts| ==> sep !in parts[k]
  {
    if s == [] then [[]]
    else
      var init := Split(s[..|s| - 1], sep);
      var c := s[|s| - 1];
      if c == sep then init + [[]]
      else init[..|init| - 1] + [init[|init| - 1] + [c]]
  }

  /** Extending the last piece extends the join by the same characters. */
  lemma JoinExtendLast(xs: seq<string>, c: char, sep: string)
    requires xs != []
    ensures Join(xs[..|xs| - 1] + [xs[|xs| - 1] + [c]], sep) == Join(xs, sep) + [c]
  {
    var m := |xs|;
    var ys := xs[..m - 1] + [xs[m - 1] + [c]];
    assert ys[..m - 1] == xs[..m - 1];
    if m > 1 {
      assert Join(ys, sep) == Join(xs[..m - 1], sep) + sep + (xs[m - 1] + [c]);
    }
  }

  /** Splitting and joining again with the same separator gives back the text. */
  lemma {:induction false} SplitJoin(s: string, sep: char)
    ensures Join(Split(s, sep), [sep]) == s
  {
    if s != [] {
      var init := Split(s[..|s| - 1], sep);
      SplitJoin(s[..|s| - 1], sep);
      var c := s[|s| - 1];
      assert s == s[..|s| - 1] + [c];
      if c == sep {
        JoinSnoc(init, [], [sep]);
      } else {
        JoinExtendLast(init, c, [sep]);
      }
    }
  }

  /** The text after the last `sep`, or all of `s` when it has none: `s.split(sep)[-1]`. */
  function LastSegment(s: string, sep: char): string
  {
    var parts := Split(s, sep);
    parts[|parts| - 1]
  }

  /** How the last segment changes when a character is added at the end. */
  lemma LastSegmentSnoc(s: string, sep: char, c: char)
    ensures LastSegment(s + [c], sep) == if c == sep then [] else LastSegment(s, sep) + [c]
  {
    var u := s + [c];
    assert u[..|u| - 1] == s && u[|u| - 1] == c;
  }

  /** The last segment is a suffix of the text without `sep`, preceded by `sep` unless it is all of the text. */
  lemma {:induction false} LastSegmentIsSuffix(s: string, sep: char)
    ensures sep !in LastSegment(s, sep)
    ensures |LastSegment(s, sep)| <= |s|
    ensures s[|s| - |LastSegment(s, sep)|..] == LastSegment(s, sep)
    ensures |LastSegment(s, sep)| < |s| ==> s[|s| - |LastSegment(s, sep)| - 1] == sep
  {
    if s != [] {
      var init := s[..|s| - 1];
      var c := s[|s| - 1];
      assert s == init + [c];
      LastSegmentIsSuffix(init, sep);
      LastSegmentSnoc(init, sep, c);
      if c != sep {
        var l := LastSegment(init, sep);
        assert s[|s| - |l| - 1..] == init[|init| - |l|..] + [c];
      }
    }
  }

  /** The text after the last separator is the last segment. */
  lemma {:induction false} LastSegmentAfter(s: string, sep: char, t: string)
    requires sep !in t
    ensures LastSegment(s + [sep] + t, sep) == t
  {
    var u := s + [sep] + t;
    if t == [] {
      assert u[..|u| - 1] == s;
    } else {
      var t' := t[..|t| - 1];
      assert u[..|u| - 1] == s + [sep] + t';
      assert t == t' + [t[|t| - 1]];
      LastSegmentAfter(s, sep, t');
    }
  }

  /** The code points Python's `str.isspace` accepts. */
  const SpaceCodes: set<int> := {9, 10, 11, 12, 13, 28, 29, 30, 31, 32, 0x85, 0xA0, 0x1680, 0x2000, 0x2001, 0x2002, 0x2003, 0x2004, 0x2005, 0x2006, 0x2007, 0x2008, 0x2009, 0x200A, 0x2028, 0x2029, 0x202F, 0x205F, 0x3000}

  /** Python's `str.isspace` for one character. */
  predicate IsSpace(c: char)
  {
    c as int in SpaceCodes
  }

  /** Every character of `s` before position `i` or from position `j` on is whitespace. */
  predicate SpaceOutside(s: string, i: int, j: int)
  {
    forall k :: 0 <= k < |s| && (k < i || j <= k) ==> IsSpace(s[k])
  }

  /** Where the text starts once the whitespace from position `k` on is skipped. */
  function SkipSpace(s: string, k: nat): (i: nat)
    requires k <= |s|
    decreases |s| - k
    ensures k <= i <= |s|
    ensures forall m :: k <= m < i ==> IsSpace(s[m])
    ensures i < |s| ==> !IsSpace(s[i])
  {
    if k < |s| && IsSpace(s[k]) then SkipSpace(s, k + 1) else k
  }

  /** Where the text ends once the whitespace before position `j`, back to `lo`, is dropped. */
  function DropSpace(s: string, lo: nat, j: nat): (e: nat)
    requires lo <= j <= |s|
    decreases j
    ensures lo <= e <= j
    ensures forall m :: e <= m < j ==> IsSpace(s[m])
    ensures e > lo ==> !IsSpace(s[e - 1])
  {
    if j > lo && IsSpace(s[j - 1]) then DropSpace(s, lo, j - 1) else j
  }

  /**
   * `s.strip()`: the part of `s` between its leading and its trailing whitespace. It starts
   * where the leading whitespace ends, everything of `s` outside it is whitespace, and it
   * neither starts nor ends with whitespace.
   */
  function Strip(s: string): (r: string)
    ensures var i := SkipSpace(s, 0);
      i + |r| <= |s| && r == s[i..i + |r|] && SpaceOutside(s, i, i + |r|)
    ensures r != [] ==> !IsSpace(r[0]) && !IsSpace(r[|r| - 1])
  {
    var i := SkipSpace(s, 0);
    var e := DropSpace(s, i, |s|);
    assert e == i || !IsSpace(s[e - 1]);
    s[i..e]
  }

  /** Stripping only removes characters. */
  lemma StripChars(s: string, c: char)
    requires c in Strip(s)
    ensures c in s
  {
    var r := Strip(s);
    var i := SkipSpace(s, 0);
    var k :| 0 <= k < |r| && r[k] == c;
    assert s[i + k] == c;
  }

  /** No character of `s` is whitespace. */
  predicate NoSpace(s: string)
  {
    forall k :: 0 <= k < |s| ==> !IsSpace(s[k])
  }

  /** Text without whitespace is its own strip. */
  lemma StripNoSpace(s: string)
    requires NoSpace(s)
    ensures Strip(s) == s
  {
    assert SkipSpace(s, 0) == 0;
    assert DropSpace(s, 0, |s|) == |s|;
  }

  /** The pieces of a split are made of the text's characters, so whitespace-free text has whitespace-free pieces. */
  lemma {:induction false} SplitNoSpace(s: string, sep: char)
    requires NoSpace(s)
    ensures forall k :: 0 <= k < |Split(s, sep)| ==> NoSpace(Split(s, sep)[k])
  {
    if s != [] {
      var init := s[..|s| - 1];
      assert NoSpace(init);
      SplitNoSpace(init, sep);
    }
  }

  /** Replace every `a` by `b`: `s.replace(a, b)` for one-character arguments. */
  function Replace(s: string, a: char, b: char): (r: string)
    ensures |r| == |s|
    ensures a != b ==> a !in r
    ensures forall k :: 0 <= k < |s| && s[k] != a ==> r[k] == s[k]
    ensures forall k :: 0 <= k < |s| && s[k] == a ==> r[k] == b
  {
    seq(|s|, k requires 0 <= k < |s| => if s[k] == a then b else s[k])
  }

  predicate IsAsciiLower(c: char) { 'a' <= c <= 'z' }
  predicate IsAsciiUpper(c: char) { 'A' <= c <= 'Z' }
  predicate IsAsciiLetter(c: char) { IsAsciiLower(c) || IsAsciiUpper(c) }

  function ToUpperChar(c: char): char
  {
    if IsAsciiLower(c) then (c as int - 32) as char else c
  }

  function ToLowerChar(c: char): char
  {
    if IsAsciiUpper(c) then (c as int + 32) as char else c
  }

  /** `s.upper()` on ASCII letters; every other character is kept. */
  function Upper(s: string): (r: string)
    ensures |r| == |s|
    ensures forall k :: 0 <= k < |s| ==> !IsAsciiLower(r[k]) && (IsAsciiLetter(r[k]) <==> IsAsciiLetter(s[k]))
    ensures forall k :: 0 <= k < |s| && !IsAsciiLower(s[k]) ==> r[k] == s[k]
    ensures forall k :: 0 <= k < |s| && IsAsciiLower(s[k]) ==> r[k] == (s[k] as int - 32) as char
  {
    seq(|s|, k requires 0 <= k < |s| => ToUpperChar(s[k]))
  }

  /** Upper-casing twice changes nothing more. */
  lemma UpperIdempotent(s: string)
    ensures Upper(Upper(s)) == Upper(s)
  {
  }

  /** How `str.title` rewrites `c`, given whether the character before it was a letter. */
  function TitleChar(c: char, afterLetter: bool): char
  {
    if !IsAsciiLetter(c) then c else if afterLetter then ToLowerChar(c) else ToUpperChar(c)
  }

  /** Whether position `k` of `s` follows a letter, `prevCased` telling what preceded `s`. */
  predicate AfterLetter(s: string, k: nat, prevCased: bool)
    requires k < |s|
  {
    if k == 0 then prevCased else IsAsciiLetter(s[k - 1])
  }

  /** `str.title` after a character that was (`prevCased`) or was not a letter. */
  function TitleFrom(s: string, prevCased: bool): (r: string)
    ensures |r| == |s|
    ensures forall k :: 0 <= k < |s| ==> r[k] == TitleChar(s[k], AfterLetter(s, k, prevCased))
  {
    if s == [] then []
    else
      var rest := TitleFrom(s[1..], IsAsciiLetter(s[0]));
      TitleStep(s, prevCased, rest);
      [TitleChar(s[0], prevCased)] + rest
  }

  /** The title-casing of the rest of the text, after the first character, completes that of the whole. */
  lemma TitleStep(s: string, prevCased: bool, rest: string)
    requires s != [] && |rest| == |s| - 1
    requires forall k :: 0 <= k < |s| - 1 ==> rest[k] == TitleChar(s[1..][k], AfterLetter(s[1..], k, IsAsciiLetter(s[0])))
    ensures forall k :: 0 <= k < |s| ==>
      ([TitleChar(s[0], prevCased)] + rest)[k] == TitleChar(s[k], AfterLetter(s, k, prevCased))
  {
    var out := [TitleChar(s[0], prevCased)] + rest;
    forall k | 1 <= k < |s|
      ensures out[k] == TitleChar(s[k], AfterLetter(s, k, prevCased))
    {
      assert out[k] == rest[k - 1] && s[1..][k - 1] == s[k];
      assert AfterLetter(s[1..], k - 1, IsAsciiLetter(s[0])) == AfterLetter(s, k, prevCased);
    }
  }

  /** `s.title()`: a letter is upper-cased when it starts a word and lower-cased otherwise. */
  function Title(s: string): string
  {
    TitleFrom(s, false)
  }

  /** Decimal digits of `n`, as `str(n)` gives them. */
  function NatToString(n: nat): (r: string)
    ensures r != [] && forall k :: 0 <= k < |r| ==> '0' <= r[k] <= '9'
  {
    var d := ['0' + (n % 10) as char];
    if n < 10 then d else NatToString(n / 10) + d
  }

  /** The number a string of decimal digits denotes, most significant digit first. */
  function DecimalValue(s: string): nat
    requires forall k :: 0 <= k < |s| ==> '0' <= s[k] <= '9'
  {
    if s == [] then 0 else DecimalValue(s[..|s| - 1]) * 10 + (s[|s| - 1] as int - '0' as int)
  }

  /** The digits `str(n)` gives read back as `n`, and only 0 itself starts with '0'. */
  lemma {:induction false} NatToStringValue(n: nat)
    ensures DecimalValue(NatToString(n)) == n
    ensures NatToString(n)[0] == '0' ==> n == 0
  {
    var r := NatToString(n);
    var d := ['0' + (n % 10) as char];
    if n >= 10 {
      NatToStringValue(n / 10);
      assert r == NatToString(n / 10) + d;
      assert r[..|r| - 1] == NatToString(n / 10);
    }
  }
}
