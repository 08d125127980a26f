/** The string functions of Go's standard library the models rest on: `TrimSpace`, `Trim`, `Split`
    and `Join`, and when a list survives being stored as one joined string. */
module GoStrings {

  /** The characters `unicode.IsSpace` accepts. */
  const SPACES: set<char> :=
    {'\U{09}', '\U{0A}', '\U{0B}', '\U{0C}', '\U{0D}', '\U{20}', '\U{85}', '\U{A0}', '\U{1680}',
     '\U{2000}', '\U{2001}', '\U{2002}', '\U{2003}', '\U{2004}', '\U{2005}', '\U{2006}', '\U{2007}',
     '\U{2008}', '\U{2009}', '\U{200A}', '\U{2028}', '\U{2029}', '\U{202F}', '\U{205F}', '\U{3000}'}

  function TrimLeft(s: string, cut: set<char>): (r: string)
    ensures r == "" || r[0] !in cut
    ensures forall c :: c in r ==> c in s
  {
    if s != "" && s[0] in cut then TrimLeft(s[1..], cut) else s
  }

  function TrimRight(s: string, cut: set<char>): (r: string)
    ensures r == "" || r[|r| - 1] !in cut
    ensures r <= s
  {
    if s != "" && s[|s| - 1] in cut then TrimRight(s[..|s| - 1], cut) else s
  }

  function Trim(s: string, cut: set<char>): (r: string)
    ensures r == "" || (r[0] !in cut && r[|r| - 1] !in cut)
    ensures forall c :: c in r ==> c in s
  {
    TrimRight(TrimLeft(s, cut), cut)
  }

  function TrimSpace(s: string): (r: string)
    ensures forall c :: c in r ==> c in s
    ensures TrimSpaceAgain(r)
  {
    Trim(s, SPACES)
  }

  /** Nothing is left to trim. */
  predicate TrimSpaceAgain(s: string) {
    s == "" || (s[0] !in SPACES && s[|s| - 1] !in SPACES)
  }

  lemma {:induction false} TrimLeftCuts(s: string, cut: set<char>) returns (i: nat)
    ensures i <= |s| && TrimLeft(s, cut) == s[i..] && forall c :: c in s[..i] ==> c in cut
  {
    i := 0;
    if s != "" && s[0] in cut {
      var rest := TrimLeftCuts(s[1..], cut);
      i := rest + 1;
      assert s[..i] == [s[0]] + s[1..][..rest];
    }
  }

  lemma {:induction false} TrimRightCuts(s: string, cut: set<char>)
    ensures var n := |TrimRight(s, cut)|;
            n <= |s| && TrimRight(s, cut) == s[..n] && forall c :: c in s[n..] ==> c in cut
  {
    if s != "" && s[|s| - 1] in cut {
      var front := s[..|s| - 1];
      TrimRightCuts(front, cut);
      var n := |TrimRight(front, cut)|;
      assert s[n..] == front[n..] + [s[|s| - 1]];
    }
  }

  /** Trimming takes characters of the cutset from both ends and no other, until none is left there. */
  lemma TrimCuts(s: string, cut: set<char>) returns (i: nat, j: nat)
    ensures i <= j <= |s| && Trim(s, cut) == s[i..j]
    ensures forall c :: c in s[..i] || c in s[j..] ==> c in cut
    ensures i < j ==> s[i] !in cut && s[j - 1] !in cut
  {
    i := TrimLeftCuts(s, cut);
    var rest := TrimLeft(s, cut);
    TrimRightCuts(rest, cut);
    j := i + |Trim(s, cut)|;
    assert s[j..] == rest[|Trim(s, cut)|..];
  }

  lemma TrimmedIsFixed(s: string)
    requires TrimSpaceAgain(s)
    ensures TrimSpace(s) == s
  {
  }

  function Split(s: string, sep: char): (r: seq<string>)
    ensures |r| >= 1
    ensures forall part :: part in r ==> sep !in part && forall c :: c in part ==> c in s
  {
    if s == "" then [""]
    else
      var rest := Split(s[1..], sep);
      if s[0] == sep then [""] + rest else [[s[0]] + rest[0]] + rest[1..]
  }

  function Join(parts: seq<string>, sep: char): string {
    if parts == [] then ""
    else if |parts| == 1 then parts[0]
    else parts[0] + [sep] + Join(parts[1..], sep)
  }

  lemma {:induction false} SplitOne(part: string, sep: char)
    requires sep !in part
    ensures Split(part, sep) == [part]
  {
    if part != "" {
      SplitOne(part[1..], sep);
      assert part == [part[0]] + part[1..];
    }
  }

  lemma {:induction false} SplitFirst(part: string, sep: char, rest: string)
    requires sep !in part
    ensures Split(part + [sep] + rest, sep) == [part] + Split(rest, sep)
  {
    var s := part + [sep] + rest;
    if part == "" {
      assert s[1..] == rest;
    } else {
      SplitFirst(part[1..], sep, rest);
      assert s[1..] == part[1..] + [sep] + rest;
      assert part == [part[0]] + part[1..];
    }
  }

  lemma {:induction false} SplitJoin(parts: seq<string>, sep: char)
    requires parts != [] && forall part :: part in parts ==> sep !in part
    ensures Split(Join(parts, sep), sep) == parts
  {
    if |parts| == 1 {
      SplitOne(parts[0], sep);
    } else {
      SplitJoin(parts[1..], sep);
      SplitFirst(parts[0], sep, Join(parts[1..], sep));
    }
  }

  /** The lists a joined string can stand for. */
  predicate Storable(parts: seq<string>, sep: char) {
    forall i :: 0 <= i < |parts| ==> parts[i] != "" && sep !in parts[i]
  }

  lemma {:induction false} JoinEnds(parts: seq<string>, sep: char)
    requires parts != [] && Storable(parts, sep)
    ensures var s := Join(parts, sep); s != "" && s[0] == parts[0][0] && s[|s| - 1] != sep
  {
    if |parts| > 1 {
      JoinEnds(parts[1..], sep);
    }
  }

  /** A stored list comes back as it was: split(trim(join(parts))) is the identity on non-empty
      lists of non-empty parts that do not contain the separator. */
  lemma RoundTrip(parts: seq<string>, sep: char)
    requires parts != [] && Storable(parts, sep)
    ensures Join(parts, sep) != ""
    ensures Split(Trim(Join(parts, sep), {sep}), sep) == parts
  {
    JoinEnds(parts, sep);
    SplitJoin(parts, sep);
  }
}
