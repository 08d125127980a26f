/** Lists of names as the gateway normalises them: trimmed, non-blank, first occurrence kept. */
module Names {
  import opened Sequences
  import opened GoStrings

  function TrimNames(models: seq<string>): seq<string> {
    if models == [] then []
    else
      var front, name := TrimNames(models[..|models| - 1]), TrimSpace(models[|models| - 1]);
      if name != "" then front + [name] else front
  }

  /** Keeps the first occurrence of each name. */
  function Uniq(names: seq<string>): seq<string> {
    if names == [] then []
    else
      var front, last := Uniq(names[..|names| - 1]), names[|names| - 1];
      if last in front then front else front + [last]
  }

  function Normalize(models: seq<string>): seq<string> {
    Uniq(TrimNames(models))
  }

  /** Trimmed, non-empty and without repetition. */
  ghost predicate Clean(names: seq<string>) {
    Distinct(names) && forall name :: name in names ==> name != "" && TrimSpaceAgain(name)
  }

  lemma {:induction false} TrimNamesMembers(models: seq<string>)
    ensures forall name :: name in TrimNames(models) <==>
              name != "" && exists i :: 0 <= i < |models| && TrimSpace(models[i]) == name
  {
    if models != [] {
      var front, last := models[..|models| - 1], |models| - 1;
      TrimNamesMembers(front);
      forall name
        ensures name in TrimNames(models) <==>
                  name != "" && exists i :: 0 <= i < |models| && TrimSpace(models[i]) == name
      {
        if i :| 0 <= i < |models| && TrimSpace(models[i]) == name {
          assert i < last ==> front[i] == models[i];
        }
        if name in TrimNames(front) {
          var i :| 0 <= i < |front| && TrimSpace(front[i]) == name;
          assert TrimSpace(models[i]) == name;
        }
        assert TrimSpace(models[last]) == TrimSpace(models[|models| - 1]);
      }
    }
  }

  lemma {:induction false} UniqMembers(names: seq<string>)
    ensures Distinct(Uniq(names)) && forall name :: name in Uniq(names) <==> name in names
  {
    if names != [] {
      UniqMembers(names[..|names| - 1]);
      assert names == names[..|names| - 1] + [names[|names| - 1]];
    }
  }

  /** A normalised list is clean and holds exactly the non-blank names, trimmed. */
  lemma NormalizeIsClean(models: seq<string>)
    ensures Clean(Normalize(models))
    ensures forall name :: name in Normalize(models) <==>
              name != "" && exists i :: 0 <= i < |models| && TrimSpace(models[i]) == name
  {
    TrimNamesMembers(models);
    UniqMembers(TrimNames(models));
  }

  /** Normalising is the identity on clean lists, hence idempotent. */
  lemma {:induction false} NormalizeFixesClean(names: seq<string>)
    requires Clean(names)
    ensures Normalize(names) == names
  {
    if names != [] {
      var front, last := names[..|names| - 1], names[|names| - 1];
      assert names == front + [last];
      NormalizeFixesClean(front);
      TrimNamesFixed(names);
      TrimNamesFixed(front);
    }
  }

  lemma {:induction false} TrimNamesFixed(names: seq<string>)
    requires forall name :: name in names ==> name != "" && TrimSpaceAgain(name)
    ensures TrimNames(names) == names
  {
    if names != [] {
      var front, last := names[..|names| - 1], names[|names| - 1];
      forall name | name in front
        ensures name in names
      {
        var i :| 0 <= i < |front| && front[i] == name;
        assert names[i] == name;
      }
      TrimNamesFixed(front);
      TrimmedIsFixed(last);
    }
  }
}
