/**
  pathlib's PurePosixPath, as far as the ingestion code uses it: parsing a string into a path,
  rendering a path as a string, the `/` operator, and the name, suffix and stem of a path.
 */
module Paths {
  import opened Strings

  /** A parsed POSIX path: whether it starts at the root, and its components in order. */
  datatype PurePath = PurePath(absolute: bool, parts: seq<string>)

  /** A component pathlib keeps: not empty, not ".", and free of the separator. */
  predicate IsComponent(x: string)
  {
    x != "" && x != "." && '/' !in x
  }

  /** A path as pathlib holds it: every component is a real component. */
  predicate IsNormal(p: PurePath)
  {
    forall k :: 0 <= k < |p.parts| ==> IsComponent(p.parts[k])
  }

  /** The pieces of a split on '/' that pathlib keeps: empty pieces and "." are dropped, the rest keep their order. */
  function KeepComponents(pieces: seq<string>): (r: seq<string>)
    ensures forall k :: 0 <= k < |r| ==> r[k] in pieces && r[k] != "" && r[k] != "."
  {
    if pieces == [] then []
    else (if pieces[0] == "" || pieces[0] == "." then [] else [pieces[0]]) + KeepComponents(pieces[1..])
  }

  /** Path(s): consecutive, leading and trailing separators and "." components leave no component. */
  function Parse(s: string): (p: PurePath)
    ensures IsNormal(p)
    ensures p.absolute <==> |s| > 0 && s[0] == '/'
  {
    SplitPartsAvoidSep(s, '/');
    PurePath(|s| > 0 && s[0] == '/', KeepComponents(Split(s, '/')))
  }

  /** str(p): the components joined by '/', after a '/' for an absolute path; "." for the empty relative path. */
  function Str(p: PurePath): string
  {
    if p.absolute then "/" + JoinWith("/", p.parts)
    else if p.parts == [] then "."
    else JoinWith("/", p.parts)
  }

  /** p / s: an absolute s replaces p, a relative one appends its components. */
  function Div(p: PurePath, s: string): (r: PurePath)
    ensures IsNormal(p) ==> IsNormal(r)
  {
    var q := Parse(s);
    if q.absolute then q else PurePath(p.absolute, p.parts + q.parts)
  }

  /** p.name: the last component, or "" when there is none. */
  function Name(p: PurePath): string
  {
    if p.parts == [] then "" else p.parts[|p.parts| - 1]
  }

  /** The index of the last '.' in s, or -1 when there is none (Python's s.rfind('.')). */
  function LastDot(s: string): (i: int)
    ensures -1 <= i < |s|
    ensures i >= 0 ==> s[i] == '.'
    ensures forall k :: i < k < |s| ==> s[k] != '.'
  {
    if s == [] then -1 else if s[|s| - 1] == '.' then |s| - 1 else LastDot(s[..|s| - 1])
  }

  /** p.suffix: from the last '.' of the name on, unless that dot starts or ends the name. */
  function Suffix(p: PurePath): (r: string)
    ensures r == [] || (|r| >= 2 && r[0] == '.' && '.' !in r[1..])
    ensures EndsWith(Name(p), r)
    ensures r != [] <==>
      var n := Name(p);
      n != [] && n[|n| - 1] != '.' && exists i :: 0 < i < |n| && n[i] == '.'
  {
    var n := Name(p);
    var i := LastDot(n);
    if 0 < i < |n| - 1 then n[i..] else ""
  }

  /**
    A name made of a non-empty stem and an extension holding one '.', at its start, followed by at
    least one character, has that extension as its suffix.
   */
  lemma SuffixOfExtension(absolute: bool, dirs: seq<string>, stem: string, ext: string)
    requires stem != [] && |ext| >= 2 && ext[0] == '.' && '.' !in ext[1..]
    ensures Suffix(PurePath(absolute, dirs + [stem + ext])) == ext
  {
    var n := stem + ext;
    assert n[|stem|] == '.';
    assert n[|n| - 1] == ext[|ext| - 1] == ext[1..][|ext| - 2];
    assert n[|stem|..] == ext;
  }

  /** p.stem: the name without its suffix. */
  function Stem(p: PurePath): string
  {
    var n := Name(p);
    var i := LastDot(n);
    if 0 < i < |n| - 1 then n[..i] else n
  }

  /** The stem followed by the suffix is the name again, and a non-empty suffix leaves a non-empty stem. */
  lemma StemAndSuffix(p: PurePath)
    ensures Stem(p) + Suffix(p) == Name(p)
    ensures Suffix(p) != [] ==> Stem(p) != []
  {
  }

  /** Dropping nothing: a sequence of real components is kept as it is. */
  lemma {:induction false} KeepAllComponents(parts: seq<string>)
    requires forall k :: 0 <= k < |parts| ==> IsComponent(parts[k])
    ensures KeepComponents(parts) == parts
  {
    if parts != [] {
      KeepAllComponents(parts[1..]);
      assert parts == [parts[0]] + parts[1..];
    }
  }

  /** Joining a leading "" before the pieces does not change what is kept. */
  lemma KeepAfterEmpty(pieces: seq<string>)
    ensures KeepComponents([""] + pieces) == KeepComponents(pieces)
  {
    assert ([""] + pieces)[1..] == pieces;
  }

  /** A single component parses to a relative path of that one component. */
  lemma ParseComponent(x: string)
    requires IsComponent(x)
    ensures Parse(x) == PurePath(false, [x])
  {
    SplitWithoutSep(x, '/');
    assert KeepComponents([x]) == [x] + KeepComponents([]);
  }

  /** Rendering a path and parsing the text gives the same path back: Path(str(p)) == p. */
  lemma ParseStr(p: PurePath)
    requires IsNormal(p)
    ensures Parse(Str(p)) == p
  {
    var s := Str(p);
    if p.parts == [] {
      if p.absolute {
        assert s == "/" + "" && s == [] + ['/'] + [];
        SplitAtSep([], [], '/');
        assert Split(s, '/') == ["", ""];
        assert KeepComponents(["", ""]) == [] + KeepComponents([""]);
      } else {
        assert s == ".";
        SplitWithoutSep(s, '/');
        assert KeepComponents(["."]) == [] + KeepComponents([]);
      }
    } else {
      var j := JoinWith("/", p.parts);
      SplitJoin(p.parts, '/');
      KeepAllComponents(p.parts);
      assert "/" == ['/'];
      if p.absolute {
        assert s == [] + ['/'] + j;
        SplitAtSep([], j, '/');
        KeepAfterEmpty(Split(j, '/'));
      } else {
        assert s == j;
        JoinStartsWithFirst(p.parts);
        var first := p.parts[0];
        assert IsComponent(first) && first[0] in first;
        assert s[0] == first[0];
      }
    }
  }

  /** The joined text starts with the first component. */
  lemma JoinStartsWithFirst(parts: seq<string>)
    requires |parts| >= 1
    ensures |JoinWith("/", parts)| >= |parts[0]| && JoinWith("/", parts)[..|parts[0]|] == parts[0]
  {
  }

  /** Joining a plain file name to a directory gives a path whose name is that file name. */
  lemma NameOfDiv(dir: PurePath, base: string)
    requires IsComponent(base)
    ensures Name(Div(dir, base)) == base
    ensures Div(dir, base) == PurePath(dir.absolute, dir.parts + [base])
  {
    ParseComponent(base);
  }
}
