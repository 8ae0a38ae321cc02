/**
  The Python string builtins the ingestion code relies on, written as pure sequence functions:
  str.strip(), str.lower(), str.endswith(), the `in` test for substrings, str.split(sep),
  sep.join(parts), str.splitlines() and the decimal formatting of an int in an f-string.
 */
module Strings {

  // ---------- str.strip() ----------

  /** Python's str.isspace() for one character: what str.strip() removes when called without an argument. */
  predicate IsSpace(c: char)
  {
    ('\t' <= c <= '\r') || ('\U{1C}' <= c <= '\U{1F}') || c == ' ' || c == '\U{85}' || c == '\U{A0}'
    || c == '\U{1680}' || ('\U{2000}' <= c <= '\U{200A}') || c == '\U{2028}' || c == '\U{2029}'
    || c == '\U{202F}' || c == '\U{205F}' || c == '\U{3000}'
  }

  /** The number of whitespace characters s starts with. */
  function LeadingSpaces(s: string): (n: nat)
    ensures n <= |s|
    ensures forall k :: 0 <= k < n ==> IsSpace(s[k])
    ensures n < |s| ==> !IsSpace(s[n])
  {
    if |s| > 0 && IsSpace(s[0]) then 1 + LeadingSpaces(s[1..]) else 0
  }

  /** The number of whitespace characters s ends with. */
  function TrailingSpaces(s: string): (n: nat)
    ensures n <= |s|
    ensures forall k :: |s| - n <= k < |s| ==> IsSpace(s[k])
    ensures n < |s| ==> !IsSpace(s[|s| - n - 1])
  {
    if |s| > 0 && IsSpace(s[|s| - 1]) then 1 + TrailingSpaces(s[..|s| - 1]) else 0
  }

  /**
    Python's s.strip(): the slice of s that neither starts nor ends with whitespace, and what
    lies before and after it in s is all whitespace.
   */
  function Strip(s: string): (r: string)
    ensures r == [] || (!IsSpace(r[0]) && !IsSpace(r[|r| - 1]))
    ensures var i := LeadingSpaces(s);
      && i + |r| <= |s| && r == s[i..i + |r|]
      && (forall k :: 0 <= k < i ==> IsSpace(s[k]))
      && (forall k :: i + |r| <= k < |s| ==> IsSpace(s[k]))
  {
    var i := LeadingSpaces(s);
    var j := TrailingSpaces(s[i..]);
    assert s[i..][..|s[i..]| - j] == s[i..|s| - j];
    s[i..|s| - j]
  }

  // ---------- str.lower(), str.endswith(), substring test ----------

  /** Lower-casing of one character (ASCII letters only). */
  function LowerChar(c: char): char
  {
    if 'A' <= c <= 'Z' then (c as int + 32) as char else c
  }

  /** Python's s.lower(), restricted to ASCII letters. */
  function Lower(s: string): string
  {
    seq(|s|, i requires 0 <= i < |s| => LowerChar(s[i]))
  }

  /** Python's s.endswith(suffix). */
  predicate EndsWith(s: string, suffix: string)
  {
    |suffix| <= |s| && s[|s| - |suffix|..] == suffix
  }

  /** sub occurs in s starting at index i. */
  predicate OccursAt(s: string, sub: string, i: nat)
  {
    i + |sub| <= |s| && s[i..i + |sub|] == sub
  }

  /** Python's `sub in s` for strings, scanning s from the left. */
  predicate Contains(s: string, sub: string)
    decreases |s|
  {
    (|sub| <= |s| && s[..|sub|] == sub) || (|s| > 0 && Contains(s[1..], sub))
  }

  /** The scan finds sub exactly when sub occurs somewhere in s. */
  lemma {:induction false} ContainsAt(s: string, sub: string)
    ensures Contains(s, sub) <==> exists i: nat :: OccursAt(s, sub, i)
    decreases |s|
  {
    if |s| > 0 {
      ContainsAt(s[1..], sub);
      if exists i: nat :: OccursAt(s, sub, i) {
        var i: nat :| OccursAt(s, sub, i);
        if i > 0 {
          assert s[1..][i - 1..i - 1 + |sub|] == s[i..i + |sub|];
          assert OccursAt(s[1..], sub, i - 1);
        }
      }
      if Contains(s[1..], sub) {
        var i: nat :| OccursAt(s[1..], sub, i);
        assert s[i + 1..i + 1 + |sub|] == s[1..][i..i + |sub|];
        assert OccursAt(s, sub, i + 1);
      }
      if |sub| <= |s| && s[..|sub|] == sub {
        assert OccursAt(s, sub, 0);
      }
    } else {
      if |sub| == 0 {
        assert OccursAt(s, sub, 0);
      }
    }
  }

  // ---------- str.split(sep) and sep.join(parts) ----------

  /**
    Python's s.split(sep) for a one-character separator: the pieces between separators,
    including empty ones; an empty string gives [""].
   */
  function Split(s: string, sep: char): (parts: seq<string>)
    ensures |parts| >= 1
  {
    if s == [] then [""]
    else
      var rest := Split(s[1..], sep);
      if s[0] == sep then [""] + rest
      else [[s[0]] + rest[0]] + rest[1..]
  }

  /** Python's sep.join(parts). */
  function JoinWith(sep: string, parts: seq<string>): string
  {
    if |parts| == 0 then ""
    else if |parts| == 1 then parts[0]
    else parts[0] + sep + JoinWith(sep, parts[1..])
  }

  /** Joining one more part adds the separator and that part at the end. */
  lemma {:induction false} JoinSnoc(sep: string, parts: seq<string>, x: string)
    requires |parts| >= 1
    ensures JoinWith(sep, parts + [x]) == JoinWith(sep, parts) + sep + x
  {
    if |parts| == 1 {
      assert (parts + [x])[1..] == [x];
    } else {
      JoinSnoc(sep, parts[1..], x);
      assert (parts + [x])[1..] == parts[1..] + [x];
    }
  }

  /** Where parts[k] starts in sep.join(parts): the earlier parts, each followed by the separator. */
  function JoinOffset(sep: string, parts: seq<string>, k: nat): nat
    requires k <= |parts|
  {
    if k == 0 then 0 else |parts[0]| + |sep| + JoinOffset(sep, parts[1..], k - 1)
  }

  /** Text found at i in s is found at |p| + i in p + s. */
  lemma OccursAfter(p: string, s: string, sub: string, i: nat)
    requires OccursAt(s, sub, i)
    ensures OccursAt(p + s, sub, |p| + i)
  {
    assert (p + s)[|p| + i..|p| + i + |sub|] == s[i..i + |sub|];
  }

  /** What follows h where h + t occurs is t. */
  lemma OccursInside(s: string, h: string, t: string, i: nat)
    requires OccursAt(s, h + t, i)
    ensures OccursAt(s, t, i + |h|)
  {
    assert s[i + |h|..i + |h| + |t|] == s[i..i + |h| + |t|][|h|..];
  }

  /**
    Every part stands in the joined text at its offset, followed by the separator unless it is the
    last.
   */
  lemma {:induction false} JoinHasParts(sep: string, parts: seq<string>, k: nat)
    requires k < |parts|
    ensures OccursAt(JoinWith(sep, parts), parts[k], JoinOffset(sep, parts, k))
    ensures k + 1 < |parts| ==> OccursAt(JoinWith(sep, parts), sep, JoinOffset(sep, parts, k) + |parts[k]|)
  {
    var j := JoinWith(sep, parts);
    if |parts| == 1 {
      assert j == parts[0];
      assert j[0..|parts[0]|] == j;
    } else {
      var rest := JoinWith(sep, parts[1..]);
      var head := parts[0] + sep;
      assert j == head + rest;
      if k == 0 {
        assert j[..|parts[0]|] == parts[0];
        assert j[|parts[0]|..|parts[0]| + |sep|] == sep;
      } else {
        var at := JoinOffset(sep, parts[1..], k - 1);
        assert JoinOffset(sep, parts, k) == |head| + at;
        JoinHasParts(sep, parts[1..], k - 1);
        assert parts[1..][k - 1] == parts[k];
        OccursAfter(head, rest, parts[k], at);
        if k + 1 < |parts| {
          OccursAfter(head, rest, sep, at + |parts[k]|);
        }
      }
    }
  }

  /** Each part starts exactly one separator after the end of the previous one. */
  lemma {:induction false} JoinOffsetStep(sep: string, parts: seq<string>, k: nat)
    requires k + 1 < |parts|
    ensures JoinOffset(sep, parts, k + 1) == JoinOffset(sep, parts, k) + |parts[k]| + |sep|
  {
    if k > 0 {
      JoinOffsetStep(sep, parts[1..], k - 1);
      assert parts[1..][k - 1] == parts[k];
    }
  }


  /** No piece of a split contains the separator. */
  lemma {:induction false} SplitPartsAvoidSep(s: string, sep: char)
    ensures forall k :: 0 <= k < |Split(s, sep)| ==> sep !in Split(s, sep)[k]
  {
    if s != [] {
      SplitPartsAvoidSep(s[1..], sep);
    }
  }

  /** A prefix of the first part comes out in front of the whole joined text. */
  lemma JoinOfCons(sep: string, head: string, x: string, tail: seq<string>)
    ensures JoinWith(sep, [head + x] + tail) == head + JoinWith(sep, [x] + tail)
  {
    if |tail| > 0 {
      assert ([head + x] + tail)[1..] == tail;
      assert ([x] + tail)[1..] == tail;
    }
  }

  /** Joining the pieces with the separator gives back the string: "|".join(s.split("|")) == s. */
  lemma {:induction false} JoinSplit(s: string, sep: char)
    ensures JoinWith([sep], Split(s, sep)) == s
  {
    if s != [] {
      JoinSplit(s[1..], sep);
      var rest := Split(s[1..], sep);
      if s[0] == sep {
        assert ([""] + rest)[1..] == rest;
        assert s == [sep] + s[1..];
      } else {
        assert rest == [rest[0]] + rest[1..];
        JoinOfCons([sep], [s[0]], rest[0], rest[1..]);
        assert s == [s[0]] + s[1..];
      }
    }
  }

  /** A string without the separator splits into itself alone. */
  lemma {:induction false} SplitWithoutSep(s: string, sep: char)
    requires sep !in s
    ensures Split(s, sep) == [s]
  {
    if s != [] {
      SplitWithoutSep(s[1..], sep);
      assert s == [s[0]] + s[1..];
    }
  }

  /** One step of the split: how the first character of the string extends the pieces. */
  lemma SplitCons(ch: char, t: string, sep: char)
    ensures Split([ch] + t, sep)
      == if ch == sep then [""] + Split(t, sep) else [[ch] + Split(t, sep)[0]] + Split(t, sep)[1..]
  {
    assert ([ch] + t)[0] == ch && ([ch] + t)[1..] == t;
  }

  /** Splitting distributes over a separator: (a + sep + b).split(sep) == a.split(sep) + b.split(sep). */
  lemma {:induction false} SplitAtSep(a: string, b: string, sep: char)
    ensures Split(a + [sep] + b, sep) == Split(a, sep) + Split(b, sep)
  {
    if a == [] {
      assert a + [sep] + b == [sep] + b;
      SplitCons(sep, b, sep);
    } else {
      var t := a[1..] + [sep] + b;
      var ra := Split(a[1..], sep);
      var rb := Split(b, sep);
      var st := Split(t, sep);
      assert Split(a + [sep] + b, sep) == if a[0] == sep then [""] + st else [[a[0]] + st[0]] + st[1..] by {
        assert a + [sep] + b == [a[0]] + t;
        SplitCons(a[0], t, sep);
      }
      assert Split(a, sep) == if a[0] == sep then [""] + ra else [[a[0]] + ra[0]] + ra[1..] by {
        assert a == [a[0]] + a[1..];
        SplitCons(a[0], a[1..], sep);
      }
      assert st == ra + rb by {
        SplitAtSep(a[1..], b, sep);
      }
      ExtendFirstPiece(a[0], ra, rb, sep);
    }
  }

  /** One split step on pieces ra followed by rb only touches ra. */
  lemma ExtendFirstPiece(c: char, ra: seq<string>, rb: seq<string>, sep: char)
    requires |ra| >= 1
    ensures (if c == sep then [""] + (ra + rb) else [[c] + (ra + rb)[0]] + (ra + rb)[1..])
      == (if c == sep then [""] + ra else [[c] + ra[0]] + ra[1..]) + rb
  {
    if c != sep {
      assert (ra + rb)[0] == ra[0] && (ra + rb)[1..] == ra[1..] + rb;
    }
  }

  /** Splitting the joined pieces gives them back, provided no piece holds the separator. */
  lemma {:induction false} SplitJoin(parts: seq<string>, sep: char)
    requires |parts| >= 1
    requires forall k :: 0 <= k < |parts| ==> sep !in parts[k]
    ensures Split(JoinWith([sep], parts), sep) == parts
  {
    SplitWithoutSep(parts[0], sep);
    if |parts| > 1 {
      SplitJoin(parts[1..], sep);
      SplitAtSep(parts[0], JoinWith([sep], parts[1..]), sep);
      assert parts == [parts[0]] + parts[1..];
    }
  }

  // ---------- str.splitlines() ----------

  /** The characters str.splitlines() treats as line boundaries ("\r\n" counts as one boundary). */
  predicate IsLineBreak(c: char)
  {
    c == '\n' || c == '\r' || c == '\U{0B}' || c == '\U{0C}' || ('\U{1C}' <= c <= '\U{1E}')
    || c == '\U{85}' || c == '\U{2028}' || c == '\U{2029}'
  }

  /** The index of the first line boundary in s, or |s| when there is none. */
  function FirstBreak(s: string): (i: nat)
    ensures i <= |s|
    ensures forall k :: 0 <= k < i ==> !IsLineBreak(s[k])
    ensures i < |s| ==> IsLineBreak(s[i])
  {
    if s == [] then 0 else if IsLineBreak(s[0]) then 0 else 1 + FirstBreak(s[1..])
  }

  /** Where the line after the first boundary starts: "\r\n" is skipped as one boundary. */
  function NextStart(s: string): (next: nat)
    requires FirstBreak(s) < |s|
    ensures FirstBreak(s) < next <= |s|
    ensures forall k :: FirstBreak(s) <= k < next ==> IsLineBreak(s[k])
  {
    var i := FirstBreak(s);
    if s[i] == '\r' && i + 1 < |s| && s[i + 1] == '\n' then i + 2 else i + 1
  }

  /** Python's s.splitlines(): the lines of s without their terminators; a final terminator opens no new line. */
  function SplitLines(s: string): seq<string>
    decreases |s|
  {
    if s == [] then []
    else if FirstBreak(s) == |s| then [s]
    else [s[..FirstBreak(s)]] + SplitLines(s[NextStart(s)..])
  }

  /** No line holds a boundary character. */
  lemma {:induction false} SplitLinesHaveNoBreaks(s: string)
    ensures forall l :: l in SplitLines(s) ==> forall k :: 0 <= k < |l| ==> !IsLineBreak(l[k])
    decreases |s|
  {
    if s != [] && FirstBreak(s) < |s| {
      var i, next := FirstBreak(s), NextStart(s);
      var rest := SplitLines(s[next..]);
      SplitLinesHaveNoBreaks(s[next..]);
      assert SplitLines(s) == [s[..i]] + rest;
      forall l | l in SplitLines(s)
        ensures forall k :: 0 <= k < |l| ==> !IsLineBreak(l[k])
      {
        if l != s[..i] {
          assert l in rest;
        }
      }
    }
  }

  /** A character outside the first boundary run lies in the first line or in the rest. */
  lemma SplitAround(s: string, i: nat, next: nat, ch: char)
    requires i <= next <= |s|
    requires forall k :: i <= k < next ==> IsLineBreak(s[k])
    requires !IsLineBreak(ch)
    ensures ch in s <==> ch in s[..i] || ch in s[next..]
  {
    assert s == s[..i] + s[i..next] + s[next..];
    assert ch !in s[i..next];
  }

  /** ch occurs in one of the lines. */
  ghost predicate InSomeLine(lines: seq<string>, ch: char)
  {
    exists l :: l in lines && ch in l
  }

  /** A character is in some line of a list headed by one line exactly when it is in that line or in some later one. */
  lemma InSomeLineCons(line: string, rest: seq<string>, ch: char)
    ensures InSomeLine([line] + rest, ch) <==> ch in line || InSomeLine(rest, ch)
  {
    if InSomeLine([line] + rest, ch) {
      var l :| l in [line] + rest && ch in l;
      if l != line {
        assert l in rest;
      }
    }
    if ch in line {
      assert line in [line] + rest;
    }
    if InSomeLine(rest, ch) {
      var l :| l in rest && ch in l;
      assert l in [line] + rest;
    }
  }

  /** A character that is not a boundary occurs in s exactly when it occurs in one of its lines. */
  lemma {:induction false} SplitLinesKeepChar(s: string, ch: char)
    requires !IsLineBreak(ch)
    ensures ch in s <==> InSomeLine(SplitLines(s), ch)
    decreases |s|
  {
    if s != [] {
      var i := FirstBreak(s);
      if i == |s| {
        InSomeLineCons(s, [], ch);
        assert SplitLines(s) == [s] + [];
      } else {
        var next := NextStart(s);
        var rest := SplitLines(s[next..]);
        SplitLinesKeepChar(s[next..], ch);
        SplitAround(s, i, next, ch);
        InSomeLineCons(s[..i], rest, ch);
        assert SplitLines(s) == [s[..i]] + rest;
      }
    }
  }

  // ---------- decimal formatting of an int ----------

  predicate IsDigits(s: string)
  {
    forall k :: 0 <= k < |s| ==> '0' <= s[k] <= '9'
  }

  function DigitChar(d: nat): char
    requires d < 10
  {
    ('0' as int + d) as char
  }

  /** The decimal text of n, as an f-string writes it: at least one digit and nothing else. */
  function NatToString(n: nat): (r: string)
    ensures |r| >= 1 && IsDigits(r)
    ensures n >= 10 ==> r[0] != '0'
    decreases n
  {
    if n < 10 then [DigitChar(n)] else NatToString(n / 10) + [DigitChar(n % 10)]
  }

  /** Python's int(s) for a string of decimal digits. */
  function DigitsValue(s: string): nat
    requires IsDigits(s)
    decreases |s|
  {
    if s == [] then 0 else DigitsValue(s[..|s| - 1]) * 10 + (s[|s| - 1] as int - '0' as int)
  }

  /** Reading the formatted number back gives the number: int(str(n)) == n. */
  lemma {:induction false} NatToStringRoundTrip(n: nat)
    ensures DigitsValue(NatToString(n)) == n
    decreases n
  {
    if n >= 10 {
      NatToStringRoundTrip(n / 10);
      var s := NatToString(n);
      assert s[..|s| - 1] == NatToString(n / 10);
    }
  }

  /** Different numbers are formatted differently. */
  lemma NatToStringInjective(m: nat, n: nat)
    requires NatToString(m) == NatToString(n)
    ensures m == n
  {
    NatToStringRoundTrip(m);
    NatToStringRoundTrip(n);
  }

  // ---------- cancelling common pieces of equal strings ----------

  /** Equal strings that share a prefix agree on what follows it. */
  lemma CancelPrefix(a: string, x: string, y: string)
    requires a + x == a + y
    ensures x == y
  {
    assert x == (a + x)[|a|..];
    assert y == (a + y)[|a|..];
  }

  /** Equal strings that share a suffix agree on what precedes it. */
  lemma CancelSuffix(x: string, y: string, b: string)
    requires x + b == y + b
    ensures x == y
  {
    assert x == (x + b)[..|x|];
    assert y == (y + b)[..|y|];
  }

  /** The index of the first occurrence of c in s. */
  function IndexOf(s: string, c: char): (i: nat)
    requires c in s
    ensures i < |s| && s[i] == c && c !in s[..i]
  {
    if s[0] == c then 0 else 1 + IndexOf(s[1..], c)
  }

  /** The first c of x + [c] + y is the one after x, when x has none. */
  lemma {:induction false} IndexOfAfter(x: string, y: string, c: char)
    requires c !in x
    ensures IndexOf(x + [c] + y, c) == |x|
  {
    if x != [] {
      IndexOfAfter(x[1..], y, c);
      assert (x + [c] + y)[1..] == x[1..] + [c] + y;
    }
  }

  /** Two strings split at the first occurrence of c into equal pieces on both sides. */
  lemma CancelAtFirst(x: string, y: string, x': string, y': string, c: char)
    requires c !in x && c !in x'
    requires x + [c] + y == x' + [c] + y'
    ensures x == x' && y == y'
  {
    var s := x + [c] + y;
    IndexOfAfter(x, y, c);
    IndexOfAfter(x', y', c);
    assert x == s[..|x|] && x' == (x' + [c] + y')[..|x'|];
    assert y == s[|x| + 1..] && y' == (x' + [c] + y')[|x'| + 1..];
  }
}
