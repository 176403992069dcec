/**
 * The string primitives of Python and JavaScript that the newsletter code relies on:
 * lower-casing, whitespace stripping, `in`, `str.replace`, `re.sub(r'\s+', ' ', ...)`,
 * `split`, `join`, slicing and decimal rendering of integers.
 *
 * Character classes are the ASCII ones: whitespace is space, tab, line feed,
 * carriage return, vertical tab, form feed and the separators 0x1C..0x1F;
 * lower-casing maps `A`..`Z` only.
 */
module Strings {
  import opened Seqs

  // ---------------------------------------------------------------------------
  // Character classes
  // ---------------------------------------------------------------------------

  predicate IsSpace(c: char) {
    || c == ' ' || c == '\t' || c == '\n' || c == '\r' || c == '\U{0B}' || c == '\U{0C}'
    || '\U{1C}' <= c <= '\U{1F}'
  }

  predicate IsAsciiDigit(c: char) { '0' <= c <= '9' }

  predicate IsAsciiUpper(c: char) { 'A' <= c <= 'Z' }

  predicate IsAsciiLetter(c: char) { 'a' <= c <= 'z' || 'A' <= c <= 'Z' }

  predicate IsHexDigit(c: char) { '0' <= c <= '9' || 'a' <= c <= 'f' || 'A' <= c <= 'F' }

  function HexDigitValue(c: char): (v: nat)
    requires IsHexDigit(c)
    ensures v < 16
  {
    if '0' <= c <= '9' then c as int - '0' as int
    else if 'a' <= c <= 'f' then c as int - 'a' as int + 10
    else c as int - 'A' as int + 10
  }

  function LowerChar(c: char): (r: char)
    ensures !IsAsciiUpper(r)
    ensures !IsAsciiUpper(c) ==> r == c
  {
    if IsAsciiUpper(c) then (c as int - 'A' as int + 'a' as int) as char else c
  }

  /** `s.lower()` / `s.toLowerCase()` on the ASCII letters. */
  function Lower(s: string): (r: string)
    ensures |r| == |s|
    ensures forall i :: 0 <= i < |s| ==> r[i] == LowerChar(s[i])
  {
    seq(|s|, i requires 0 <= i < |s| => LowerChar(s[i]))
  }

  lemma LowerAppend(a: string, b: string)
    ensures Lower(a + b) == Lower(a) + Lower(b)
  {
    assert forall i :: 0 <= i < |a + b| ==> Lower(a + b)[i] == (Lower(a) + Lower(b))[i];
  }

  // ---------------------------------------------------------------------------
  // Prefixes, suffixes, substrings
  // ---------------------------------------------------------------------------

  predicate StartsWith(s: string, p: string) { |p| <= |s| && s[..|p|] == p }

  predicate EndsWith(s: string, p: string) { |p| <= |s| && s[|s| - |p|..] == p }

  /** Python's `w in t` for strings: `w` occurs as a contiguous piece of `t`. */
  function Contains(t: string, w: string): (r: bool)
    ensures r ==> |w| <= |t|
    ensures r ==> forall c :: c in w ==> c in t
    decreases |t|
  {
    |w| <= |t| && (t[..|w|] == w || Contains(t[1..], w))
  }

  lemma {:induction false} ContainsAppend(a: string, b: string, w: string)
    requires Contains(a, w)
    ensures Contains(a + b, w)
    decreases |a|
  {
    if (a + b)[..|w|] != w {
      assert a[..|w|] == (a + b)[..|w|];
      ContainsAppend(a[1..], b, w);
      assert (a + b)[1..] == a[1..] + b;
    }
  }

  /** Python's `s[:n]` for any integer `n`, negative ones counting from the end. */
  function PrefixTo<T>(s: seq<T>, n: int): (r: seq<T>)
    ensures n >= 0 ==> |r| == if n < |s| then n else |s|
    ensures n < 0 ==> |r| == if |s| + n > 0 then |s| + n else 0
    ensures r == s[..|r|]
  {
    if n >= 0 then (if n < |s| then s[..n] else s)
    else (if |s| + n > 0 then s[..|s| + n] else [])
  }

  // ---------------------------------------------------------------------------
  // Stripping
  // ---------------------------------------------------------------------------

  /** `s.lstrip()`: drop the leading whitespace. */
  function LStrip(s: string): (r: string)
    ensures |r| <= |s| && r == s[|s| - |r|..]
    ensures r == [] || !IsSpace(r[0])
    ensures forall i :: 0 <= i < |s| - |r| ==> IsSpace(s[i])
    decreases |s|
  {
    if s != [] && IsSpace(s[0]) then LStrip(s[1..]) else s
  }

  /** `s.rstrip()`: drop the trailing whitespace. */
  function RStrip(s: string): (r: string)
    ensures |r| <= |s| && r == s[..|r|]
    ensures r == [] || !IsSpace(r[|r| - 1])
    ensures forall i :: |r| <= i < |s| ==> IsSpace(s[i])
    decreases |s|
  {
    if s != [] && IsSpace(s[|s| - 1]) then RStrip(s[..|s| - 1]) else s
  }

  /** `s.strip()`: the part of `s` between its leading and trailing whitespace. */
  function Strip(s: string): (r: string)
    ensures r == [] || (!IsSpace(r[0]) && !IsSpace(r[|r| - 1]))
    ensures |s| - |LStrip(s)| + |r| <= |s|
    ensures r == s[|s| - |LStrip(s)|..|s| - |LStrip(s)| + |r|]
  {
    RStrip(LStrip(s))
  }

  /** A text of whitespace only strips to nothing. */
  lemma {:induction false} StripAllSpace(s: string)
    requires forall c :: c in s ==> IsSpace(c)
    ensures LStrip(s) == [] && Strip(s) == []
    decreases |s|
  {
    if s != [] {
      assert s[0] in s;
      assert forall c :: c in s[1..] ==> c in s;
      StripAllSpace(s[1..]);
    }
  }

  lemma StripNoSpaceEnds(s: string)
    requires s == [] || (!IsSpace(s[0]) && !IsSpace(s[|s| - 1]))
    ensures Strip(s) == s
  {
  }

  /** `s.lstrip(c)`: drop every leading `c`. */
  function LStripChar(s: string, c: char): (r: string)
    ensures |r| <= |s| && r == s[|s| - |r|..]
    ensures r == [] || r[0] != c
    ensures forall i :: 0 <= i < |s| - |r| ==> s[i] == c
    decreases |s|
  {
    if s != [] && s[0] == c then LStripChar(s[1..], c) else s
  }

  /** `s.rstrip(c)`: drop every trailing `c`. */
  function RStripChar(s: string, c: char): (r: string)
    ensures |r| <= |s| && r == s[..|r|]
    ensures r == [] || r[|r| - 1] != c
    ensures forall i :: |r| <= i < |s| ==> s[i] == c
    decreases |s|
  {
    if s != [] && s[|s| - 1] == c then RStripChar(s[..|s| - 1], c) else s
  }

  // ---------------------------------------------------------------------------
  // Replacement
  // ---------------------------------------------------------------------------

  /**
   * Python's `s.replace(pat, sub)`: scanning from the left, every occurrence of
   * `pat` that does not overlap an earlier replaced one becomes `sub`.
   */
  function Replace(s: string, pat: string, sub: string): (r: string)
    requires pat != []
    ensures forall c :: c in r ==> c in s || c in sub
    decreases |s|
  {
    if |s| < |pat| then s
    else if s[..|pat|] == pat then sub + Replace(s[|pat|..], pat, sub)
    else [s[0]] + Replace(s[1..], pat, sub)
  }

  lemma {:induction false} ReplaceCharAppend(a: string, b: string, c: char, sub: string)
    ensures Replace(a + b, [c], sub) == Replace(a, [c], sub) + Replace(b, [c], sub)
    decreases |a|
  {
    if a != [] {
      assert (a + b)[1..] == a[1..] + b;
      assert (a + b)[..1] == a[..1] == [a[0]];
      ReplaceCharAppend(a[1..], b, c, sub);
      if a[0] == c {
        assert Replace(a, [c], sub) == sub + Replace(a[1..], [c], sub);
        assert Replace(a + b, [c], sub) == sub + Replace(a[1..] + b, [c], sub);
      } else {
        assert Replace(a, [c], sub) == [a[0]] + Replace(a[1..], [c], sub);
        assert Replace(a + b, [c], sub) == [a[0]] + Replace(a[1..] + b, [c], sub);
      }
    } else {
      assert a + b == b;
    }
  }

  /** Replacing a character by a text that does not contain it removes it. */
  lemma {:induction false} ReplaceCharRemoves(s: string, c: char, sub: string)
    requires c !in sub
    ensures c !in Replace(s, [c], sub)
    decreases |s|
  {
    if s != [] {
      ReplaceCharRemoves(s[1..], c, sub);
    }
  }

  /** Replacing a character that does not occur changes nothing. */
  lemma {:induction false} ReplaceCharAbsent(s: string, c: char, sub: string)
    requires c !in s
    ensures Replace(s, [c], sub) == s
    decreases |s|
  {
    if s != [] {
      assert s[..1] == [s[0]];
      ReplaceCharAbsent(s[1..], c, sub);
    }
  }

  /** A pattern whose first character does not occur is never found. */
  lemma {:induction false} ReplaceAbsent(s: string, pat: string, sub: string)
    requires pat != [] && pat[0] !in s
    ensures Replace(s, pat, sub) == s
    decreases |s|
  {
    if |s| >= |pat| {
      assert s[..|pat|][0] != pat[0];
      assert s[1..][..0] == [];
      ReplaceAbsent(s[1..], pat, sub);
      assert s == [s[0]] + s[1..];
    }
  }

  /** The first occurrence of a pattern, with nothing before it that could start one, is replaced. */
  lemma {:induction false} ReplaceFirst(a: string, pat: string, sub: string, b: string)
    requires pat != [] && pat[0] !in a
    ensures Replace(a + pat + b, pat, sub) == a + sub + Replace(b, pat, sub)
    decreases |a|
  {
    var tail := Replace(b, pat, sub);
    if a == [] {
      assert a + pat + b == pat + b;
      ReplaceAtPattern(pat, sub, b);
      assert a + sub + tail == sub + tail;
    } else {
      var rest := a[1..];
      ConsSplit(a, pat);
      SeqAssoc([a[0]], rest + pat, b);
      ReplacePastChar(a[0], rest + pat + b, pat, sub);
      ReplaceFirst(rest, pat, sub, b);
      ConsSplit(a, sub);
      SeqAssoc([a[0]], rest + sub, tail);
    }
  }

  /** A text that starts with the pattern has it replaced first. */
  lemma ReplaceAtPattern(pat: string, sub: string, b: string)
    requires pat != []
    ensures Replace(pat + b, pat, sub) == sub + Replace(b, pat, sub)
  {
    var s := pat + b;
    assert s[..|pat|] == pat && s[|pat|..] == b;
  }

  /** A character that cannot start the pattern is kept. */
  lemma ReplacePastChar(x: char, t: string, pat: string, sub: string)
    requires pat != [] && x != pat[0]
    requires |t| + 1 >= |pat|
    ensures Replace([x] + t, pat, sub) == [x] + Replace(t, pat, sub)
  {
    var s := [x] + t;
    assert s[..|pat|][0] == x;
    assert s[1..] == t;
  }

  /** `str.replace` never introduces a character that neither the text nor the replacement has. */
  lemma ReplaceKeepsOut(s: string, pat: string, sub: string, d: char)
    requires pat != [] && d !in s && d !in sub
    ensures d !in Replace(s, pat, sub)
  {
  }

  // ---------------------------------------------------------------------------
  // Whitespace collapsing: re.sub(r'\s+', ' ', s)
  // ---------------------------------------------------------------------------

  /** No two neighbouring characters are both whitespace. */
  ghost predicate NoDoubleSpace(s: string) {
    forall i, j :: 0 <= i < j < |s| && j == i + 1 ==> !(IsSpace(s[i]) && IsSpace(s[j]))
  }

  /** Every maximal run of whitespace in `s` becomes one space. */
  function Collapse(s: string): (r: string)
    ensures NoDoubleSpace(r)
    ensures forall x :: x in r ==> x == ' ' || x in s
    ensures forall x :: x in r && IsSpace(x) ==> x == ' '
    ensures s != [] ==> r != [] && r[0] == (if IsSpace(s[0]) then ' ' else s[0])
    ensures s == [] ==> r == []
    decreases |s|
  {
    if s == [] then []
    else if IsSpace(s[0]) then
      var rest := LStrip(s);
      assert forall c :: c in rest ==> c in s;
      [' '] + Collapse(rest)
    else
      [s[0]] + Collapse(s[1..])
  }

  lemma NoDoubleSpaceSlice(s: string, i: nat, j: nat)
    requires NoDoubleSpace(s) && i <= j <= |s|
    ensures NoDoubleSpace(s[i..j])
  {
    forall k, l | 0 <= k && l == k + 1 && l < j - i
      ensures !(IsSpace(s[i..j][k]) && IsSpace(s[i..j][l]))
    {
      assert s[i..j][k] == s[i + k] && s[i..j][l] == s[i + l];
    }
  }

  /** Text whose only whitespace is single spaces is its own collapse. */
  lemma {:induction false} CollapseNormal(s: string)
    requires NoDoubleSpace(s)
    requires forall x :: x in s && IsSpace(x) ==> x == ' '
    ensures Collapse(s) == s
    decreases |s|
  {
    if s != [] {
      var rest := s[1..];
      assert s == [s[0]] + rest;
      NoDoubleSpaceSlice(s, 1, |s|);
      assert forall x :: x in rest ==> x in s;
      CollapseNormal(rest);
      if IsSpace(s[0]) {
        assert s[0] in s;
        if rest != [] {
          assert !IsSpace(s[1]);
        }
        assert LStrip(s) == rest;
      }
    }
  }

  /** Text already in normal form is left as it is. */
  lemma SqueezeNormal(s: string)
    requires NoDoubleSpace(s)
    requires forall x :: x in s && IsSpace(x) ==> x == ' '
    requires s == [] || (!IsSpace(s[0]) && !IsSpace(s[|s| - 1]))
    ensures Squeeze(s) == s
  {
    CollapseNormal(s);
    StripNoSpaceEnds(s);
  }

  /** `re.sub(r'\s+', ' ', s).strip()`: the normal form of running text. */
  function Squeeze(s: string): (r: string)
    ensures NoDoubleSpace(r)
    ensures r == [] || (!IsSpace(r[0]) && !IsSpace(r[|r| - 1]))
    ensures forall x :: x in r ==> x == ' ' || x in s
  {
    SqueezeSlice(Collapse(s));
    Strip(Collapse(s))
  }

  lemma SqueezeSlice(c: string)
    requires NoDoubleSpace(c)
    ensures NoDoubleSpace(Strip(c))
    ensures forall x :: x in Strip(c) ==> x in c
  {
    var i := |c| - |LStrip(c)|;
    var r := Strip(c);
    NoDoubleSpaceSlice(c, i, i + |r|);
  }

  // ---------------------------------------------------------------------------
  // Splitting and joining
  // ---------------------------------------------------------------------------

  /** `sep.join(parts)`. */
  function Join(sep: string, parts: seq<string>): string
    decreases |parts|
  {
    if parts == [] then []
    else if |parts| == 1 then parts[0]
    else parts[0] + sep + Join(sep, parts[1..])
  }

  /** `s.split(c)` for a one-character separator: always at least one piece. */
  function SplitOn(s: string, c: char): (r: seq<string>)
    ensures |r| >= 1
    ensures forall k :: 0 <= k < |r| ==> c !in r[k]
    decreases |s|
  {
    if s == [] then [[]]
    else
      var rest := SplitOn(s[1..], c);
      if s[0] == c then [[]] + rest
      else [[s[0]] + rest[0]] + rest[1..]
  }

  /** Every piece of a split is made of characters of the text. */
  lemma {:induction false} SplitOnFrom(s: string, c: char, k: nat)
    requires k < |SplitOn(s, c)|
    ensures forall x :: x in SplitOn(s, c)[k] ==> x in s
    decreases |s|
  {
    if s != [] {
      var rest := SplitOn(s[1..], c);
      if s[0] == c {
        if k > 0 {
          SplitOnFrom(s[1..], c, k - 1);
        }
      } else if k > 0 {
        SplitOnFrom(s[1..], c, k);
      } else {
        SplitOnFrom(s[1..], c, 0);
      }
    }
  }

  /** Splitting and then joining with the same separator gives the text back. */
  lemma {:induction false} JoinSplit(s: string, c: char)
    ensures Join([c], SplitOn(s, c)) == s
    decreases |s|
  {
    if s != [] {
      var rest := SplitOn(s[1..], c);
      JoinSplit(s[1..], c);
      if s[0] == c {
        assert SplitOn(s, c) == [[]] + rest;
      } else {
        var r := SplitOn(s, c);
        assert r == [[s[0]] + rest[0]] + rest[1..];
        if |rest| == 1 {
          assert Join([c], r) == [s[0]] + rest[0];
        } else {
          assert r[1..] == rest[1..];
          assert Join([c], rest) == rest[0] + [c] + Join([c], rest[1..]);
        }
      }
    }
  }

  lemma {:induction false} SplitPieceFree(p: string, c: char)
    requires c !in p
    ensures SplitOn(p, c) == [p]
    decreases |p|
  {
    if p != [] {
      assert forall x :: x in p[1..] ==> x in p;
      SplitPieceFree(p[1..], c);
      assert [p[0]] + p[1..] == p;
    }
  }

  lemma {:induction false} SplitPieceThen(p: string, q: string, c: char)
    requires c !in p
    ensures SplitOn(p + [c] + q, c) == [p] + SplitOn(q, c)
    decreases |p|
  {
    if p == [] {
      assert p + [c] + q == [c] + q;
      assert ([c] + q)[1..] == q;
    } else {
      assert (p + [c] + q)[1..] == p[1..] + [c] + q;
      assert (p + [c] + q)[0] == p[0] != c;
      assert forall x :: x in p[1..] ==> x in p;
      SplitPieceThen(p[1..], q, c);
      assert [p[0]] + p[1..] == p;
    }
  }

  /** Joining pieces free of the separator and splitting again gives the pieces back. */
  lemma {:induction false} SplitJoin(parts: seq<string>, c: char)
    requires parts != []
    requires forall k :: 0 <= k < |parts| ==> c !in parts[k]
    ensures SplitOn(Join([c], parts), c) == parts
    decreases |parts|
  {
    if |parts| == 1 {
      SplitPieceFree(parts[0], c);
    } else {
      SplitJoin(parts[1..], c);
      SplitPieceThen(parts[0], Join([c], parts[1..]), c);
      assert [parts[0]] + parts[1..] == parts;
    }
  }

  lemma JoinTwo(sep: string, a: string, b: string)
    ensures Join(sep, [a, b]) == a + sep + b
  {
    assert [a, b][1..] == [b];
  }

  lemma StartsWithAppend(a: string, b: string)
    ensures StartsWith(a + b, a)
  {
    assert (a + b)[..|a|] == a;
  }

  /** The leading run of non-whitespace characters. */
  function WordAtStart(s: string): (w: string)
    ensures |w| <= |s| && w == s[..|w|]
    ensures forall c :: c in w ==> !IsSpace(c)
    ensures |w| < |s| ==> IsSpace(s[|w|])
    ensures s != [] && !IsSpace(s[0]) ==> w != []
    decreases |s|
  {
    if s == [] || IsSpace(s[0]) then [] else [s[0]] + WordAtStart(s[1..])
  }

  /** A non-empty run of non-whitespace characters. */
  predicate IsWord(w: string) {
    w != [] && forall c :: c in w ==> !IsSpace(c)
  }

  /** `s.split()` with no separator: the maximal runs of non-whitespace. */
  function SplitWords(s: string): (r: seq<string>)
    ensures forall k :: 0 <= k < |r| ==> IsWord(r[k])
    decreases |s|
  {
    if s == [] then []
    else if IsSpace(s[0]) then SplitWords(s[1..])
    else
      var w := WordAtStart(s);
      assert IsWord(w);
      [w] + SplitWords(s[|w|..])
  }

  // ---------------------------------------------------------------------------
  // Integers as decimal text: str(n) / f"{n}"
  // ---------------------------------------------------------------------------

  function DigitChar(d: nat): (c: char)
    requires d < 10
    ensures IsAsciiDigit(c) && c as int - '0' as int == d
  {
    ('0' as int + d) as char
  }

  /** The decimal rendering of a non-negative integer, with no leading zero. */
  function NatToString(n: nat): (r: string)
    ensures r != []
    ensures forall k :: 0 <= k < |r| ==> IsAsciiDigit(r[k])
    ensures |r| > 1 ==> r[0] != '0'
    decreases n
  {
    if n < 10 then [DigitChar(n)] else NatToString(n / 10) + [DigitChar(n % 10)]
  }

  /** `str(n)` for an integer: a minus sign before the digits of a negative one. */
  function IntToString(n: int): (r: string)
    ensures r != []
    ensures n >= 0 ==> r == NatToString(n)
    ensures n < 0 ==> r[0] == '-' && r[1..] == NatToString(-n)
  {
    if n < 0 then "-" + NatToString(-n) else NatToString(n)
  }

  /** The value of a string of decimal digits. */
  function DecimalValue(s: string): nat
    requires forall k :: 0 <= k < |s| ==> IsAsciiDigit(s[k])
    decreases |s|
  {
    if s == [] then 0
    else
      assert IsAsciiDigit(s[|s| - 1]);
      DecimalValue(s[..|s| - 1]) * 10 + (s[|s| - 1] as int - '0' as int)
  }

  /** Reading back the decimal rendering gives the number. */
  lemma {:induction false} DecimalRoundTrip(n: nat)
    ensures DecimalValue(NatToString(n)) == n
    decreases n
  {
    if n >= 10 {
      DecimalRoundTrip(n / 10);
      var s := NatToString(n);
      assert s[..|s| - 1] == NatToString(n / 10);
    }
  }

  // ---------------------------------------------------------------------------
  // Searching
  // ---------------------------------------------------------------------------

  /** The index of the first `c` in `s`, or -1. */
  function FirstIndexOf(s: string, c: char): (i: int)
    ensures -1 <= i < |s|
    ensures i >= 0 ==> s[i] == c
    ensures forall k :: 0 <= k < |s| && (i < 0 || k < i) ==> s[k] != c
    decreases |s|
  {
    if s == [] then -1
    else if s[0] == c then 0
    else
      var j := FirstIndexOf(s[1..], c);
      if j < 0 then -1 else j + 1
  }

  /** The index of the last `c` in `s`, or -1. */
  function LastIndexOf(s: string, c: char): (i: int)
    ensures -1 <= i < |s|
    ensures i >= 0 ==> s[i] == c
    ensures forall k :: i < k < |s| ==> s[k] != c
    decreases |s|
  {
    if s == [] then -1
    else if s[|s| - 1] == c then |s| - 1
    else LastIndexOf(s[..|s| - 1], c)
  }

  // ---------------------------------------------------------------------------
  // Filtering characters
  // ---------------------------------------------------------------------------

  /** The characters of `s` for which `keep` holds, in order (`re.sub(r'[^...]', '', s)`). */
  function Keep(s: string, keep: char -> bool): (r: string)
    ensures |r| <= |s|
    ensures forall c :: c in r ==> c in s && keep(c)
    decreases |s|
  {
    if s == [] then []
    else (if keep(s[0]) then [s[0]] else []) + Keep(s[1..], keep)
  }

  lemma {:induction false} KeepAppend(a: string, b: string, keep: char -> bool)
    ensures Keep(a + b, keep) == Keep(a, keep) + Keep(b, keep)
    decreases |a|
  {
    if a != [] {
      var head := if keep(a[0]) then [a[0]] else [];
      ConsSplit(a, b);
      KeepAppend(a[1..], b, keep);
      calc {
        Keep(a + b, keep);
        head + Keep(a[1..] + b, keep);
        head + (Keep(a[1..], keep) + Keep(b, keep));
        { SeqAssoc(head, Keep(a[1..], keep), Keep(b, keep)); }
        Keep(a, keep) + Keep(b, keep);
      }
    } else {
      assert a + b == b;
    }
  }

  /** Keeping every character that passes the filter finds one exactly when one occurs. */
  lemma {:induction false} KeepEmpty(s: string, keep: char -> bool)
    ensures Keep(s, keep) == [] <==> forall c :: c in s ==> !keep(c)
    decreases |s|
  {
    if s != [] {
      KeepEmpty(s[1..], keep);
      assert forall c :: c in s <==> c == s[0] || c in s[1..];
    }
  }

  /** How many characters of `s` pass `keep`, counted from the last one back. */
  function Count(s: string, keep: char -> bool): (n: nat)
    ensures n <= |s|
    decreases |s|
  {
    if s == [] then 0
    else Count(s[..|s| - 1], keep) + (if keep(s[|s| - 1]) then 1 else 0)
  }

  /** Filtering leaves exactly as many characters as pass the filter. */
  lemma {:induction false} KeepCount(s: string, keep: char -> bool)
    ensures |Keep(s, keep)| == Count(s, keep)
    decreases |s|
  {
    if s != [] {
      var init, last := s[..|s| - 1], s[|s| - 1];
      assert s == init + [last];
      KeepAppend(init, [last], keep);
      KeepCount(init, keep);
      assert Keep([last], keep) == (if keep(last) then [last] else []) + Keep([], keep);
    }
  }
}
