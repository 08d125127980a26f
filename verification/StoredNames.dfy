/** What a list of names becomes when it is stored joined by a separator and read back, for any names:
    a name that holds the separator comes apart. */
module StoredNames {
  import opened Sequences
  import opened GoStrings
  import opened Names

  /** All parts of all names. */
  function SplitAll(names: seq<string>, sep: char): seq<string> {
    if names == [] then [] else Split(names[0], sep) + SplitAll(names[1..], sep)
  }

  /** A character before the separator belongs to the first part. */
  function Grow(c: char, parts: seq<string>): seq<string>
    requires parts != []
  {
    [[c] + parts[0]] + parts[1..]
  }

  lemma SplitStep(c: char, s: string, sep: char)
    ensures Split([c] + s, sep) == if c == sep then [""] + Split(s, sep) else Grow(c, Split(s, sep))
  {
    assert ([c] + s)[1..] == s;
  }

  lemma GrowConcat(c: char, a: seq<string>, b: seq<string>)
    requires a != []
    ensures Grow(c, a + b) == Grow(c, a) + b
  {
    assert (a + b)[1..] == a[1..] + b;
  }

  lemma {:induction false} SplitConcat(a: string, sep: char, b: string)
    ensures Split(a + [sep] + b, sep) == Split(a, sep) + Split(b, sep)
  {
    if a == "" {
      assert a + [sep] + b == [sep] + b;
      SplitStep(sep, b, sep);
    } else {
      SplitConcat(a[1..], sep, b);
      SplitConcatStep(a[0], a[1..], sep, b);
      assert a == [a[0]] + a[1..];
    }
  }

  lemma SplitConcatStep(c: char, rest: string, sep: char, b: string)
    requires Split(rest + [sep] + b, sep) == Split(rest, sep) + Split(b, sep)
    ensures Split([c] + rest + [sep] + b, sep) == Split([c] + rest, sep) + Split(b, sep)
  {
    hide Split, Grow;
    assert [c] + rest + [sep] + b == [c] + (rest + [sep] + b);
    SplitStep(c, rest, sep);
    SplitStep(c, rest + [sep] + b, sep);
    if c == sep {
      assert [""] + (Split(rest, sep) + Split(b, sep)) == [""] + Split(rest, sep) + Split(b, sep);
    } else {
      GrowConcat(c, Split(rest, sep), Split(b, sep));
    }
  }

  lemma {:induction false} SplitJoined(names: seq<string>, sep: char)
    requires names != []
    ensures Split(Join(names, sep), sep) == SplitAll(names, sep)
  {
    if |names| == 1 {
      assert SplitAll(names, sep) == Split(names[0], sep) + [];
    } else {
      SplitJoined(names[1..], sep);
      SplitConcat(names[0], sep, Join(names[1..], sep));
    }
  }

  lemma {:induction false} SplitAllConcat(a: seq<string>, b: seq<string>, sep: char)
    ensures SplitAll(a + b, sep) == SplitAll(a, sep) + SplitAll(b, sep)
  {
    if a == [] {
      assert a + b == b;
    } else {
      SplitAllConcat(a[1..], b, sep);
      assert (a + b)[1..] == a[1..] + b;
    }
  }

  lemma {:induction false} SplitAllPlain(names: seq<string>, sep: char)
    requires forall name :: name in names ==> sep !in name
    ensures SplitAll(names, sep) == names
  {
    if names != [] {
      SplitOne(names[0], sep);
      SplitAllPlain(names[1..], sep);
      assert names == [names[0]] + names[1..];
    }
  }

  // ----- blanks at the ends do not matter -----

  lemma {:induction false} TrimNamesConcat(a: seq<string>, b: seq<string>)
    ensures TrimNames(a + b) == TrimNames(a) + TrimNames(b)
  {
    hide TrimSpace;
    if b == [] {
      assert a + b == a;
    } else {
      var front := b[..|b| - 1];
      TrimNamesConcat(a, front);
      assert (a + b)[..|a + b| - 1] == a + front;
    }
  }

  lemma TrimNamesBlank(names: seq<string>)
    ensures TrimNames([""] + names) == TrimNames(names) == TrimNames(names + [""])
  {
    TrimNamesConcat([""], names);
    TrimNamesConcat(names, [""]);
    assert TrimNames([""]) == [] by { assert [""][..0] == []; }
  }

  lemma {:induction false} TrimLeftHarmless(s: string, sep: char)
    ensures TrimNames(Split(TrimLeft(s, {sep}), sep)) == TrimNames(Split(s, sep))
  {
    if s != "" && s[0] == sep {
      TrimLeftHarmless(s[1..], sep);
      TrimNamesBlank(Split(s[1..], sep));
    }
  }

  lemma {:induction false} TrimRightHarmless(s: string, sep: char)
    ensures TrimNames(Split(TrimRight(s, {sep}), sep)) == TrimNames(Split(s, sep))
  {
    if s != "" && s[|s| - 1] == sep {
      var front := s[..|s| - 1];
      TrimRightHarmless(front, sep);
      SplitConcat(front, sep, "");
      assert front + [sep] + "" == s;
      TrimNamesBlank(Split(front, sep));
    }
  }

  // ----- reading back -----

  lemma {:induction false} UniqConcat(a: seq<string>, b: seq<string>)
    ensures Uniq(a + b) == Uniq(a) + Filter(Uniq(b), x => x !in a)
  {
    if b == [] {
      assert a + b == a;
    } else {
      var front, last := b[..|b| - 1], b[|b| - 1];
      UniqConcat(a, front);
      assert (a + b)[..|a + b| - 1] == a + front && (a + b)[|a + b| - 1] == last;
      UniqMembers(a + front);
      UniqMembers(front);
      if last !in front {
        assert (Uniq(front) + [last])[..|Uniq(front)|] == Uniq(front);
      }
    }
  }

  /** The names a stored list holds when it is read back. */
  function ReadBack(names: seq<string>, sep: char): seq<string> {
    if names == [] then [] else Normalize(Split(Trim(Join(names, sep), {sep}), sep))
  }

  lemma ReadBackParts(names: seq<string>, sep: char)
    ensures ReadBack(names, sep) == Normalize(SplitAll(names, sep))
  {
    if names != [] {
      TrimRightHarmless(TrimLeft(Join(names, sep), {sep}), sep);
      TrimLeftHarmless(Join(names, sep), sep);
      SplitJoined(names, sep);
    }
  }

  /** Names without the separator stay where they are; behind them come the new parts of the others. */
  lemma ReadBackConcat(plain: seq<string>, names: seq<string>, sep: char)
    requires Clean(plain) && forall name :: name in plain ==> sep !in name
    ensures ReadBack(plain + names, sep) == plain + Filter(ReadBack(names, sep), x => x !in plain)
  {
    ReadBackParts(plain + names, sep);
    ReadBackParts(names, sep);
    SplitAllConcat(plain, names, sep);
    SplitAllPlain(plain, sep);
    TrimNamesConcat(plain, SplitAll(names, sep));
    TrimNamesFixed(plain);
    UniqConcat(plain, TrimNames(SplitAll(names, sep)));
    NormalizeFixesClean(plain);
  }

  lemma ReadBackPlain(names: seq<string>, sep: char)
    requires Clean(names) && forall name :: name in names ==> sep !in name
    ensures ReadBack(names, sep) == names
  {
    ReadBackParts(names, sep);
    SplitAllPlain(names, sep);
    NormalizeFixesClean(names);
  }
}
