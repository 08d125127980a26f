/** Reconciling a channel's model list with what its upstream offers: the ordered-set algebra on
    model names, and the detect / auto-sync / apply / ignore machine that keeps its pending lists
    incrementally. */
module UpstreamModels {
  import opened Sequences
  import opened GoStrings
  import opened Names
  import opened StoredNames

  const REGEX_PREFIX := "regex:"

  // ----- ordered sets of model names -----

  function Merge(base: seq<string>, appended: seq<string>): seq<string> {
    var merged := Normalize(base);
    merged + Filter(Normalize(appended), name => name !in merged)
  }

  function Subtract(base: seq<string>, removed: seq<string>): seq<string> {
    var names := Normalize(removed);
    Filter(Normalize(base), name => name !in names)
  }

  function Intersect(base: seq<string>, allowed: seq<string>): seq<string> {
    var names := Normalize(allowed);
    Filter(Normalize(base), name => name in names)
  }

  /** A name picked for both lists stays. */
  function ApplySelected(origin: seq<string>, add: seq<string>, remove: seq<string>): seq<string> {
    var adds := Normalize(add);
    Subtract(Merge(origin, adds), Subtract(Normalize(remove), adds))
  }

  /** The second loop of mergeModelNames, with its `seen` set. */
  method AppendUnseen(base: seq<string>, extra: seq<string>) returns (merged: seq<string>)
    requires Distinct(extra)
    ensures merged == base + Filter(extra, name => name !in base)
  {
    merged := base;
    var seen := set name | name in merged;
    for i := 0 to |extra|
      invariant merged == base + Filter(extra[..i], name => name !in base)
      invariant forall name :: name in seen <==> name in base || name in extra[..i]
    {
      var name := extra[i];
      assert extra[..i + 1][..i] == extra[..i];
      assert name !in extra[..i];
      if name !in seen {
        seen := seen + {name};
        merged := merged + [name];
      }
    }
    assert extra[..|extra|] == extra;
  }

  method MergeModelNames(base: seq<string>, appended: seq<string>) returns (merged: seq<string>)
    ensures merged == Merge(base, appended)
  {
    hide Normalize, Filter;
    NormalizeIsClean(appended);
    merged := AppendUnseen(Normalize(base), Normalize(appended));
  }

  lemma FilterIsClean(names: seq<string>, keep: string -> bool)
    requires Clean(names)
    ensures Clean(Filter(names, keep))
  {
    FilterDistinct(names, keep);
    FilterMembers(names, keep);
  }

  lemma SubtractMembers(a: seq<string>, b: seq<string>)
    ensures Clean(Subtract(a, b))
    ensures forall name :: name in Subtract(a, b) <==> name in Normalize(a) && name !in Normalize(b)
  {
    var left, right := Normalize(a), Normalize(b);
    NormalizeIsClean(a);
    hide Normalize;
    FilterIsClean(left, name => name !in right);
    FilterMembers(left, name => name !in right);
  }

  lemma IntersectMembers(a: seq<string>, b: seq<string>)
    ensures Clean(Intersect(a, b))
    ensures forall name :: name in Intersect(a, b) <==> name in Normalize(a) && name in Normalize(b)
  {
    var left, right := Normalize(a), Normalize(b);
    NormalizeIsClean(a);
    hide Normalize;
    FilterIsClean(left, name => name in right);
    FilterMembers(left, name => name in right);
  }

  lemma MergeMembers(a: seq<string>, b: seq<string>)
    ensures Clean(Merge(a, b)) && Normalize(a) <= Merge(a, b)
    ensures forall name :: name in Merge(a, b) <==> name in Normalize(a) || name in Normalize(b)
  {
    var left, right := Normalize(a), Normalize(b);
    NormalizeIsClean(a);
    NormalizeIsClean(b);
    hide Normalize;
    FilterIsClean(right, name => name !in left);
    FilterMembers(right, name => name !in left);
    var extra := Filter(right, name => name !in left);
    forall i, j | 0 <= i < |left| && 0 <= j < |extra|
      ensures left[i] != extra[j]
    {
      assert left[i] in left && extra[j] in extra;
    }
  }

  /** The algebra in set terms: contents and cleanness of the four operations. */
  lemma Algebra(a: seq<string>, b: seq<string>)
    ensures Clean(Merge(a, b)) && Clean(Subtract(a, b)) && Clean(Intersect(a, b))
    ensures forall name :: name in Merge(a, b) <==> name in Normalize(a) || name in Normalize(b)
    ensures forall name :: name in Subtract(a, b) <==> name in Normalize(a) && name !in Normalize(b)
    ensures forall name :: name in Intersect(a, b) <==> name in Normalize(a) && name in Normalize(b)
    ensures Normalize(a) <= Merge(a, b)
  {
    hide Normalize, Merge, Subtract, Intersect;
    MergeMembers(a, b);
    SubtractMembers(a, b);
    IntersectMembers(a, b);
  }

  /** Selected changes: everything added is there even if it was also selected for removal, and the
      surviving original names keep their order in front. */
  lemma AddWins(origin: seq<string>, add: seq<string>, remove: seq<string>)
    ensures Clean(ApplySelected(origin, add, remove))
    ensures forall name :: name in ApplySelected(origin, add, remove) <==>
              name in Normalize(add) || (name in Normalize(origin) && name !in Normalize(remove))
  {
    var adds, removes := Normalize(add), Normalize(remove);
    NormalizeIsClean(add);
    NormalizeIsClean(remove);
    NormalizeFixesClean(adds);
    NormalizeFixesClean(removes);
    Algebra(origin, adds);
    Algebra(removes, adds);
    NormalizeFixesClean(Merge(origin, adds));
    NormalizeFixesClean(Subtract(removes, adds));
    Algebra(Merge(origin, adds), Subtract(removes, adds));
  }

  // ----- the pending changes -----

  /** What a detection compares against: the upstream list, the sources and targets of the
      redirect mapping, and the evaluation of an ignore pattern on a name. */
  datatype Env = Env(upstream: seq<string>, sources: set<string>, targets: set<string>,
                     matches: (string, string) -> bool)

  predicate Hits(env: Env, rule: string, name: string) {
    if REGEX_PREFIX <= rule then env.matches(TrimSpace(rule[|REGEX_PREFIX|..]), name)
    else rule == name
  }

  predicate IgnoredBy(env: Env, rules: seq<string>, name: string) {
    exists rule :: rule in rules && Hits(env, rule, name)
  }

  function PendingAdd(env: Env, local: seq<string>, ignored: seq<string>): seq<string> {
    var names, rules := Normalize(local), Normalize(ignored);
    Normalize(Filter(Normalize(env.upstream),
                     name => name !in names && name !in env.targets && !IgnoredBy(env, rules, name)))
  }

  function PendingRemove(env: Env, local: seq<string>): seq<string> {
    var offered := Normalize(env.upstream);
    Normalize(Filter(Normalize(local), name => name !in env.sources && name !in offered))
  }

  /** The stored row: the comma-joined model list and the update settings. */
  datatype Row = Row(models: string, detected: seq<string>, removed: seq<string>, ignored: seq<string>,
                     lastCheck: int, autoSync: bool)

  function Models(models: string): seq<string> {
    if models == "" then [] else Split(Trim(models, {','}), ',')
  }

  function AddOf(env: Env, row: Row): seq<string> {
    PendingAdd(env, Models(row.models), row.ignored)
  }

  function RemoveOf(env: Env, row: Row): seq<string> {
    PendingRemove(env, Models(row.models))
  }

  /** The stored pending lists are, as sequences, what a detection would compute now. */
  ghost predicate Fresh(env: Env, row: Row) {
    row.detected == AddOf(env, row) && row.removed == RemoveOf(env, row)
  }

  function TooSoon(row: Row, force: bool, now: int, minInterval: int): bool {
    !force && row.lastCheck > 0 && now - row.lastCheck < minInterval
  }

  /** One check of the channel; `fetched` is false when the upstream could not be asked. */
  function Detect(env: Env, row: Row, force: bool, allowAuto: bool, fetched: bool, now: int, minInterval: int): Row {
    if TooSoon(row, force, now, minInterval) then row
    else if !fetched then row.(lastCheck := now)
    else
      var add, origin := AddOf(env, row), Normalize(Models(row.models));
      if allowAuto && row.autoSync && |add| > 0 then
        var merged := Merge(origin, add);
        row.(models := if |merged| > |origin| then Join(merged, ',') else row.models,
             detected := [], removed := RemoveOf(env, row), lastCheck := now)
      else
        row.(detected := add, removed := RemoveOf(env, row), lastCheck := now)
  }

  /** The selected names that really are pending. */
  function Selected(input: seq<string>, pending: seq<string>): seq<string> {
    Intersect(input, Normalize(pending))
  }

  function NextModels(models: string, add: seq<string>, remove: seq<string>): string {
    var origin := Normalize(Models(models));
    var next := ApplySelected(origin, add, remove);
    if origin != next then Join(next, ',') else models
  }

  function NextRules(ignored: seq<string>, add: seq<string>, ignore: seq<string>): seq<string> {
    var rules := Merge(ignored, ignore);
    if |add| > 0 then Subtract(rules, add) else rules
  }

  /** What an administrator picks from the pending lists. */
  datatype Choice = Choice(add: seq<string>, ignore: seq<string>, remove: seq<string>, at: int)

  /** Applying a selection; only names that are pending count. */
  function ApplyChanges(row: Row, choice: Choice): Row {
    var add, ignore := Selected(choice.add, row.detected), Selected(choice.ignore, row.detected);
    var remove := Subtract(Selected(choice.remove, row.removed), add);
    row.(models := NextModels(row.models, add, remove),
         ignored := NextRules(row.ignored, add, ignore),
         detected := Subtract(Normalize(row.detected), add + ignore),
         removed := Subtract(Normalize(row.removed), remove),
         lastCheck := choice.at)
  }

  class Channel {
    var models: string
    var detected: seq<string>
    var removed: seq<string>
    var ignored: seq<string>
    var lastCheck: int
    var autoSync: bool

    ghost function Contents(): Row
      reads this
    {
      Row(models, detected, removed, ignored, lastCheck, autoSync)
    }

    constructor (row: Row)
      ensures Contents() == row
    {
      models, detected, removed, ignored := row.models, row.detected, row.removed, row.ignored;
      lastCheck, autoSync := row.lastCheck, row.autoSync;
    }

    /** checkAndPersistChannelUpstreamModelUpdates. `stored` says whether the database takes the changed row;
        the fields are the stored ones. */
    method Check(env: Env, force: bool, allowAuto: bool, fetched: bool, now: int, minInterval: int, stored: bool)
      returns (changed: bool, autoAdded: nat)
      modifies this
      ensures Contents() == React(env, old(Contents()), Checked(force, allowAuto, fetched, now, stored), minInterval)
      ensures var due := force || old(lastCheck) <= 0 || now - old(lastCheck) >= minInterval;
              && autoAdded == (if due && fetched && allowAuto && old(autoSync) then |AddOf(env, old(Contents()))|
                               else 0)
              && (changed <==> stored && autoAdded > 0)
    {
      ghost var row := Contents();
      changed, autoAdded := false, 0;
      if !force {
        if lastCheck > 0 && now - lastCheck < minInterval {
          return;
        }
      }
      var pendingAdd, pendingRemove := PendingAdd(env, Models(models), ignored), PendingRemove(env, Models(models));
      if !fetched {
        if stored {
          lastCheck := now;
        }
        return;
      }
      var newModels, newDetected := models, pendingAdd;
      if allowAuto && autoSync && |pendingAdd| > 0 {
        var origin := Normalize(Models(models));
        var merged := MergeModelNames(origin, pendingAdd);
        MergedIsLonger(env, row);
        if |merged| > |origin| {
          newModels := Join(merged, ',');
          autoAdded := |merged| - |origin|;
          changed := true;
        }
        newDetected := [];
      }
      if !stored {
        return false, autoAdded;
      }
      models, detected, removed, lastCheck := newModels, newDetected, pendingRemove, now;
    }

    /** applyChannelUpstreamModelUpdates, with `stored` as above. */
    method Apply(addInput: seq<string>, ignoreInput: seq<string>, removeInput: seq<string>, now: int, stored: bool)
      returns (added: seq<string>, dropped: seq<string>, changed: bool)
      modifies this
      ensures var choice := Choice(addInput, ignoreInput, removeInput, now);
              Contents() == if stored then ApplyChanges(old(Contents()), choice) else old(Contents())
      ensures added == if stored then Selected(addInput, old(detected)) else []
      ensures dropped == if stored then Subtract(Selected(removeInput, old(removed)), added) else []
      ensures changed <==> stored && NextList(old(Contents()), Choice(addInput, ignoreInput, removeInput, now)) !=
                                     Normalize(Models(old(models)))
    {
      hide Normalize, Filter, Join, Models, ApplySelected, Merge;
      var pendingAdd, pendingRemove := Normalize(detected), Normalize(removed);
      added := Intersect(addInput, pendingAdd);
      var ignore := Intersect(ignoreInput, pendingAdd);
      dropped := Subtract(Intersect(removeInput, pendingRemove), added);

      var origin := Normalize(Models(models));
      var next := ApplySelected(origin, added, dropped);
      changed := origin != next;
      if !stored {
        return [], [], false;
      }
      if changed {
        models := Join(next, ',');
      }
      var rules := MergeModelNames(ignored, ignore);
      ignored := rules;
      if |added| > 0 {
        ignored := Subtract(ignored, added);
      }
      detected := Subtract(pendingAdd, added + ignore);
      removed := Subtract(pendingRemove, dropped);
      lastCheck := now;
    }
  }

  /** Names a comma-joined list can hold. */
  predicate CommaFree(names: seq<string>) {
    forall name :: name in names ==> ',' !in name
  }

  /** Names that are not read as a pattern once they are ignored. */
  predicate PatternFree(names: seq<string>) {
    forall name :: name in names ==> !(REGEX_PREFIX <= name)
  }

  /** A selection against a pending list is clean and normalised lists stay as they are. */
  lemma SelectionIsClean(pending: seq<string>, input: seq<string>)
    ensures var names := Normalize(pending); var picked := Selected(input, pending);
            && Clean(names) && Normalize(names) == names
            && Clean(picked) && Normalize(picked) == picked
            && (forall name :: name in picked <==> name in Normalize(input) && name in names)
  {
    NormalizeIsClean(pending);
    NormalizeFixesClean(Normalize(pending));
    Algebra(input, Normalize(pending));
    NormalizeFixesClean(Intersect(input, Normalize(pending)));
  }

  // ----- storing and reading back -----

  lemma ModelsCommaFree(models: string)
    ensures forall name :: name in Normalize(Models(models)) ==> ',' !in name
  {
    NormalizeIsClean(Models(models));
    forall name | name in Normalize(Models(models))
      ensures ',' !in name
    {
      var i :| 0 <= i < |Models(models)| && TrimSpace(Models(models)[i]) == name;
      assert Models(models)[i] in Models(models);
    }
  }

  /** A clean comma-free list survives being stored. */
  lemma StoredBack(names: seq<string>)
    requires Clean(names) && forall name :: name in names ==> ',' !in name
    ensures Normalize(Models(Join(names, ','))) == names
  {
    NormalizeFixesClean(names);
    if names != [] {
      forall i | 0 <= i < |names|
        ensures names[i] != "" && ',' !in names[i]
      {
        assert names[i] in names;
      }
      RoundTrip(names, ',');
    }
  }

  lemma PendingMembers(env: Env, row: Row)
    ensures AddOf(env, row) == Filter(Normalize(env.upstream), name =>
              name !in Normalize(Models(row.models)) && name !in env.targets &&
              !IgnoredBy(env, Normalize(row.ignored), name))
    ensures RemoveOf(env, row) ==
            Filter(Normalize(Models(row.models)), name => name !in env.sources && name !in Normalize(env.upstream))
    ensures Clean(AddOf(env, row)) && Clean(RemoveOf(env, row))
    ensures forall name :: name in AddOf(env, row) <==>
              name in Normalize(env.upstream) && name !in Normalize(Models(row.models))
              && name !in env.targets && !IgnoredBy(env, Normalize(row.ignored), name)
    ensures forall name :: name in RemoveOf(env, row) <==>
              name in Normalize(Models(row.models)) && name !in env.sources && name !in Normalize(env.upstream)
  {
    var names, rules, offered := Normalize(Models(row.models)), Normalize(row.ignored), Normalize(env.upstream);
    var add := name => name !in names && name !in env.targets && !IgnoredBy(env, rules, name);
    var remove := name => name !in env.sources && name !in offered;
    NormalizeIsClean(env.upstream);
    NormalizeIsClean(Models(row.models));
    FilterIsClean(offered, add);
    FilterIsClean(names, remove);
    FilterMembers(offered, add);
    FilterMembers(names, remove);
    NormalizeFixesClean(Filter(offered, add));
    NormalizeFixesClean(Filter(names, remove));
    FilterSame(offered, add, name =>
              name !in Normalize(Models(row.models)) && name !in env.targets &&
              !IgnoredBy(env, Normalize(row.ignored), name));
    FilterSame(names, remove, name => name !in env.sources && name !in Normalize(env.upstream));
  }

  /** What is pending for adding is not local, so a merge puts it behind the local names. */
  lemma MergedIsLonger(env: Env, row: Row)
    ensures Merge(Normalize(Models(row.models)), AddOf(env, row)) == Normalize(Models(row.models)) + AddOf(env, row)
  {
    var origin, add := Normalize(Models(row.models)), AddOf(env, row);
    PendingMembers(env, row);
    NormalizeIsClean(Models(row.models));
    NormalizeFixesClean(origin);
    NormalizeFixesClean(add);
    FilterAll(add, name => name !in origin);
  }

  /** Auto-sync: the merged list is stored faithfully. */
  lemma MergedStoresBack(env: Env, row: Row)
    requires CommaFree(AddOf(env, row))
    ensures var merged := Merge(Normalize(Models(row.models)), AddOf(env, row));
            && merged == Normalize(Models(row.models)) + AddOf(env, row)
            && Normalize(Models(Join(merged, ','))) == merged
  {
    var origin, add := Normalize(Models(row.models)), AddOf(env, row);
    PendingMembers(env, row);
    MergedIsLonger(env, row);
    NormalizeIsClean(Models(row.models));
    NormalizeFixesClean(origin);
    NormalizeFixesClean(add);
    Algebra(origin, add);
    ModelsCommaFree(row.models);
    StoredBack(Merge(origin, add));
  }

  // ----- the pending lists stay what a detection would compute -----

  /** A detection that reaches the upstream makes the row fresh, whatever was stored before: always
      when it only records, and when it auto-syncs exactly if the names it adds can be stored. */
  lemma DetectMakesFresh(env: Env, row: Row, force: bool, allowAuto: bool, now: int, minInterval: int)
    requires !TooSoon(row, force, now, minInterval)
    ensures Fresh(env, Detect(env, row, force, allowAuto, true, now, minInterval)) <==>
            !(allowAuto && row.autoSync) || CommaFree(AddOf(env, row))
  {
    var after := Detect(env, row, force, allowAuto, true, now, minInterval);
    var add := AddOf(env, row);
    if allowAuto && row.autoSync && |add| > 0 {
      if CommaFree(add) {
        MergedStoresBack(env, row);
        AutoSyncLeavesNothing(env, row);
      } else {
        var name :| name in add && ',' in name;
        PendingMembers(env, row);
        PendingMembers(env, after);
        ModelsCommaFree(after.models);
        assert name in AddOf(env, after);
      }
    }
  }

  lemma AutoSyncLeavesNothing(env: Env, row: Row)
    requires CommaFree(AddOf(env, row))
    ensures var after := row.(models := Join(Merge(Normalize(Models(row.models)), AddOf(env, row)), ','));
            AddOf(env, after) == [] && RemoveOf(env, after) == RemoveOf(env, row)
  {
    var local, add := Normalize(Models(row.models)), AddOf(env, row);
    var after := row.(models := Join(Merge(local, add), ','));
    MergedStoresBack(env, row);
    PendingMembers(env, row);
    PendingMembers(env, after);
    NoMembers(AddOf(env, after));
    var offered := Normalize(env.upstream);
    var stale := name => name !in env.sources && name !in offered;
    FilterConcat(local, add, stale);
    FilterNone(add, stale);
    assert Filter(local, stale) + [] == Filter(local, stale);
  }

  /** What is read back of the names picked for adding: a name with a comma comes apart. */
  function Pieces(row: Row, choice: Choice): seq<string> {
    ReadBack(Selected(choice.add, row.detected), ',')
  }

  /** The local names an application keeps, in their order. */
  function KeptModels(row: Row, choice: Choice): seq<string> {
    var remove := Selected(choice.remove, row.removed);
    Filter(Normalize(Models(row.models)), name => name !in remove)
  }

  /** What is picked is pending: for adding it is upstream and not local, for removal the other way round. */
  lemma PickedMembers(env: Env, row: Row, choice: Choice)
    requires Fresh(env, row)
    ensures var local, offered := Normalize(Models(row.models)), Normalize(env.upstream);
            var add, ignore := Selected(choice.add, row.detected), Selected(choice.ignore, row.detected);
            var remove := Selected(choice.remove, row.removed);
            && Clean(local) && Clean(add) && Clean(ignore) && Clean(remove)
            && (forall name :: name in add || name in ignore ==> name in row.detected)
            && (forall name :: name in row.detected ==> name in offered && name !in local)
            && (forall name :: name in remove ==> name in row.removed)
            && (forall name :: name in row.removed ==> name in local && name !in offered)
            && Normalize(row.detected) == row.detected && Normalize(row.removed) == row.removed
            && Subtract(remove, add) == remove
  {
    PendingMembers(env, row);
    NormalizeIsClean(Models(row.models));
    NormalizeFixesClean(row.detected);
    NormalizeFixesClean(row.removed);
    SelectionIsClean(row.detected, choice.add);
    SelectionIsClean(row.detected, choice.ignore);
    SelectionIsClean(row.removed, choice.remove);
    var add, remove := Selected(choice.add, row.detected), Selected(choice.remove, row.removed);
    FilterAll(remove, name => name !in add);
  }

  /** The new list before it is stored. */
  lemma NextNames(env: Env, row: Row, choice: Choice)
    requires Fresh(env, row)
    ensures var add, remove := Selected(choice.add, row.detected), Selected(choice.remove, row.removed);
            ApplySelected(Normalize(Models(row.models)), add, Subtract(remove, add)) == KeptModels(row, choice) + add
  {
    var local, add := Normalize(Models(row.models)), Selected(choice.add, row.detected);
    var remove := Selected(choice.remove, row.removed);
    PickedMembers(env, row, choice);
    NormalizeFixesClean(local);
    NormalizeFixesClean(add);
    NormalizeFixesClean(remove);
    FilterAll(add, name => name !in local);
    assert Merge(local, add) == local + add;
    Algebra(local, add);
    NormalizeFixesClean(local + add);
    FilterConcat(local, add, name => name !in remove);
    FilterAll(add, name => name !in remove);
  }

  /** Under `Fresh`, the model list after an application, read back from storage: the kept names in their order,
      then what became of the added ones. */
  lemma AppliedModels(env: Env, row: Row, choice: Choice)
    requires Fresh(env, row)
    ensures var kept := KeptModels(row, choice);
            && Clean(kept) && Clean(Pieces(row, choice))
            && Normalize(Models(ApplyChanges(row, choice).models)) ==
               kept + Filter(Pieces(row, choice), name => name !in kept)
    ensures CommaFree(Selected(choice.add, row.detected)) ==>
              && Pieces(row, choice) == Selected(choice.add, row.detected)
              && Normalize(Models(ApplyChanges(row, choice).models)) ==
                 KeptModels(row, choice) + Selected(choice.add, row.detected)
  {
    var local, add, kept := Normalize(Models(row.models)), Selected(choice.add, row.detected), KeptModels(row, choice);
    var remove := Selected(choice.remove, row.removed);
    PickedMembers(env, row, choice);
    NextNames(env, row, choice);
    FilterIsClean(local, name => name !in remove);
    FilterMembers(local, name => name !in remove);
    ModelsCommaFree(row.models);
    ReadBackConcat(kept, add, ',');
    NormalizeIsClean(Split(Trim(Join(add, ','), {','}), ','));
    hide Normalize, ReadBack, Merge, Subtract;
    StoredList(env, row, choice);
    if CommaFree(add) {
      ReadBackPlain(add, ',');
      FilterAll(add, name => name !in kept);
    }
  }

  /** Storing the new list, or leaving the old one, comes to the same. */
  lemma StoredList(env: Env, row: Row, choice: Choice)
    requires Fresh(env, row)
    ensures var add := Selected(choice.add, row.detected);
            Normalize(Models(ApplyChanges(row, choice).models)) == ReadBack(KeptModels(row, choice) + add, ',')
  {
    var local, add, kept := Normalize(Models(row.models)), Selected(choice.add, row.detected), KeptModels(row, choice);
    PickedMembers(env, row, choice);
    NextNames(env, row, choice);
    var next := kept + add;
    if local == next {
      ModelsCommaFree(row.models);
      ReadBackPlain(local, ',');
    } else if next == [] {
      assert Models("") == [] && Normalize([]) == [];
    } else {
      JoinedIsNotEmpty(env, row, choice);
    }
  }

  lemma JoinedIsNotEmpty(env: Env, row: Row, choice: Choice)
    requires Fresh(env, row)
    ensures var next := KeptModels(row, choice) + Selected(choice.add, row.detected);
            next != [] ==> Join(next, ',') != ""
  {
    var local, remove := Normalize(Models(row.models)), Selected(choice.remove, row.removed);
    PickedMembers(env, row, choice);
    FilterMembers(local, name => name !in remove);
    var next := KeptModels(row, choice) + Selected(choice.add, row.detected);
    if next != [] {
      assert next[0] in next;
    }
  }

  lemma RuleMembers(row: Row, choice: Choice)
    ensures var add, ignore := Selected(choice.add, row.detected), Selected(choice.ignore, row.detected);
            var rules := Normalize(ApplyChanges(row, choice).ignored);
            forall rule :: rule in rules <==> (rule in Normalize(row.ignored) || rule in ignore) && rule !in add
  {
    var add, ignore := Selected(choice.add, row.detected), Selected(choice.ignore, row.detected);
    var rules := Merge(row.ignored, ignore);
    SelectionIsClean(row.detected, choice.add);
    SelectionIsClean(row.detected, choice.ignore);
    Algebra(row.ignored, ignore);
    NormalizeFixesClean(rules);
    Algebra(rules, add);
    NormalizeFixesClean(Subtract(rules, add));
  }

  predicate HiddenBefore(env: Env, row: Row, name: string) {
    IgnoredBy(env, Normalize(row.ignored), name)
  }

  predicate HiddenAfter(env: Env, row: Row, choice: Choice, name: string) {
    var add, ignore := Selected(choice.add, row.detected), Selected(choice.ignore, row.detected);
    IgnoredBy(env, Normalize(NextRules(row.ignored, add, ignore)), name)
  }

  /** Each offered name that is neither local nor a redirect target is settled by the application, being read back
      as local or hidden by the new rules, exactly if it was picked or was hidden before. */
  ghost predicate SettlesPicked(env: Env, row: Row, choice: Choice) {
    var add, ignore := Selected(choice.add, row.detected), Selected(choice.ignore, row.detected);
    forall name :: name in Normalize(env.upstream) && name !in Normalize(Models(row.models)) && name !in env.targets ==>
      (name in Pieces(row, choice) || HiddenAfter(env, row, choice, name) <==>
       name in add || name in ignore || HiddenBefore(env, row, name))
  }

  /** What becomes local is known upstream, as a redirect source, or was local. */
  ghost predicate LeavesNothingStale(env: Env, row: Row, choice: Choice) {
    forall name :: name in Pieces(row, choice) ==>
      name in KeptModels(row, choice) || name in env.sources || name in Normalize(env.upstream)
  }

  ghost predicate Harmless(env: Env, row: Row, choice: Choice) {
    SettlesPicked(env, row, choice) && LeavesNothingStale(env, row, choice)
  }

  lemma AfterRow(env: Env, row: Row, choice: Choice)
    requires Fresh(env, row)
    ensures var after := ApplyChanges(row, choice);
            var add, ignore := Selected(choice.add, row.detected), Selected(choice.ignore, row.detected);
            && after.detected == Filter(AddOf(env, row), name => name !in add && name !in ignore)
            && after.removed == Filter(RemoveOf(env, row), name => name !in Selected(choice.remove, row.removed))
  {
    var add, ignore := Selected(choice.add, row.detected), Selected(choice.ignore, row.detected);
    var remove := Selected(choice.remove, row.removed);
    PickedMembers(env, row, choice);
    GoneMembers(add, ignore);
    NormalizeFixesClean(remove);
    FilterSame(row.detected, name => name !in Normalize(add + ignore), name => name !in add && name !in ignore);
    FilterSame(row.removed, name => name !in Normalize(Subtract(remove, add)), name => name !in remove);
  }

  lemma LocalAfter(env: Env, row: Row, choice: Choice, name: string)
    requires Fresh(env, row)
    ensures name in Normalize(Models(ApplyChanges(row, choice).models)) <==>
            name in KeptModels(row, choice) || name in Pieces(row, choice)
    ensures name in Normalize(env.upstream) ==>
              (name in KeptModels(row, choice) <==> name in Normalize(Models(row.models)))
  {
    var remove, kept := Selected(choice.remove, row.removed), KeptModels(row, choice);
    AppliedModels(env, row, choice);
    PickedMembers(env, row, choice);
    FilterMembers(Normalize(Models(row.models)), name => name !in remove);
    FilterMembers(Pieces(row, choice), name => name !in kept);
  }

  /** The stored additions stay what a detection would find exactly when the application settles what was picked. */
  lemma DetectedStaysExactly(env: Env, row: Row, choice: Choice)
    requires Fresh(env, row)
    ensures ApplyChanges(row, choice).detected == AddOf(env, ApplyChanges(row, choice)) <==>
            SettlesPicked(env, row, choice)
  {
    var after := ApplyChanges(row, choice);
    var local, next, offered := Normalize(Models(row.models)), Normalize(Models(after.models)), Normalize(env.upstream);
    var add, ignore := Selected(choice.add, row.detected), Selected(choice.ignore, row.detected);
    AfterRow(env, row, choice);
    PendingMembers(env, row);
    PendingMembers(env, after);
    var before := name => name !in local && name !in env.targets && !HiddenBefore(env, row, name);
    var left := name => name !in add && name !in ignore;
    var both := name => before(name) && left(name);
    var now' := name => name !in next && name !in env.targets && !IgnoredBy(env, Normalize(after.ignored), name);
    hide Normalize, Models, Pieces, Selected, KeptModels, ApplyChanges, NextRules, Fresh;
    FilterSame(offered, before,
               name => name !in local && name !in env.targets && !IgnoredBy(env, Normalize(row.ignored), name));
    FilterTwice(offered, before, left, both);
    FilterAgree(offered, both, now');
    forall name | name in offered
      ensures both(name) == now'(name) <==>
              (name !in local && name !in env.targets ==>
                 (name in Pieces(row, choice) || HiddenAfter(env, row, choice, name) <==>
                  name in add || name in ignore || HiddenBefore(env, row, name)))
    {
      LocalAfter(env, row, choice, name);
    }
  }

  lemma GoneMembers(add: seq<string>, ignore: seq<string>)
    requires Clean(add) && Clean(ignore)
    ensures forall name :: name in Normalize(add + ignore) <==> name in add || name in ignore
  {
    TrimNamesFixed(add + ignore);
    UniqMembers(add + ignore);
  }

  /** The local names an application keeps account for the stored removals, what it adds for the rest. */
  lemma RemoveSplits(env: Env, row: Row, choice: Choice)
    requires Fresh(env, row)
    ensures var after, kept := ApplyChanges(row, choice), KeptModels(row, choice);
            RemoveOf(env, after) == after.removed + Filter(Filter(Pieces(row, choice), name => name !in kept),
              name => name !in env.sources && name !in Normalize(env.upstream))
  {
    var after := ApplyChanges(row, choice);
    var local, offered := Normalize(Models(row.models)), Normalize(env.upstream);
    var picked, keptNames := Selected(choice.remove, row.removed), KeptModels(row, choice);
    var extra := Filter(Pieces(row, choice), name => name !in keptNames);
    var stale, kept := name => name !in env.sources && name !in offered, name => name !in picked;
    var both := name => name !in env.sources && name !in offered && name !in picked;
    assert keptNames == Filter(local, kept);
    hide Normalize, Models, Pieces, Selected, KeptModels, ApplyChanges, RemoveOf, AddOf, Filter, Fresh;
    AfterRow(env, row, choice);
    AppliedModels(env, row, choice);
    PendingMembers(env, row);
    PendingMembers(env, after);
    FilterConcat(keptNames, extra, stale);
    FilterTwice(local, kept, stale, both);
    FilterTwice(local, stale, kept, both);
    FilterSame(extra, stale, name => name !in env.sources && name !in Normalize(env.upstream));
  }

  lemma NoneLeft(names: seq<string>, kept: seq<string>, stale: string -> bool)
    ensures Filter(Filter(names, name => name !in kept), stale) == [] <==>
            forall name :: name in names ==> name in kept || !stale(name)
  {
    FilterMembers(names, name => name !in kept);
    FilterMembers(Filter(names, name => name !in kept), stale);
    NoMembers(Filter(Filter(names, name => name !in kept), stale));
  }

  lemma RemovedStaysExactly(env: Env, row: Row, choice: Choice)
    requires Fresh(env, row)
    ensures ApplyChanges(row, choice).removed == RemoveOf(env, ApplyChanges(row, choice)) <==>
            LeavesNothingStale(env, row, choice)
  {
    hide Normalize, Pieces, KeptModels, ApplyChanges, RemoveOf, Filter, Fresh;
    RemoveSplits(env, row, choice);
    NoneLeft(Pieces(row, choice), KeptModels(row, choice),
             name => name !in env.sources && name !in Normalize(env.upstream));
  }

  /** Applying a selection keeps the row fresh, so the incrementally maintained lists are, element for element,
      what asking the upstream again would give, if and only if it is harmless. */
  lemma ApplyKeepsFresh(env: Env, row: Row, choice: Choice)
    requires Fresh(env, row)
    ensures Fresh(env, ApplyChanges(row, choice)) <==> Harmless(env, row, choice)
  {
    DetectedStaysExactly(env, row, choice);
    RemovedStaysExactly(env, row, choice);
  }

  // ----- when an application is harmless -----

  /** The new rules hide, of the names still open, what the old ones hid and what was picked to be ignored. */
  ghost predicate HidesAsPicked(env: Env, row: Row, choice: Choice) {
    var add, ignore := Selected(choice.add, row.detected), Selected(choice.ignore, row.detected);
    forall name :: name in Normalize(env.upstream) && name !in Normalize(Models(row.models)) && name !in env.targets &&
                   name !in add ==>
      (HiddenAfter(env, row, choice, name) <==> HiddenBefore(env, row, name) || name in ignore)
  }

  /** For names a comma-joined list can hold, it all depends on the rules. */
  lemma RulesDecide(env: Env, row: Row, choice: Choice)
    requires Fresh(env, row) && CommaFree(Selected(choice.add, row.detected))
    ensures Harmless(env, row, choice) <==> HidesAsPicked(env, row, choice)
  {
    AppliedModels(env, row, choice);
    PickedMembers(env, row, choice);
    hide Normalize, Models, Selected, KeptModels, Fresh, HiddenAfter, HiddenBefore, Pieces;
    assert LeavesNothingStale(env, row, choice);
  }

  lemma RulesAfter(env: Env, row: Row, choice: Choice)
    ensures var add, ignore := Selected(choice.add, row.detected), Selected(choice.ignore, row.detected);
            forall rule :: rule in Normalize(NextRules(row.ignored, add, ignore)) <==>
              (rule in Normalize(row.ignored) || rule in ignore) && rule !in add
  {
    RuleMembers(row, choice);
  }

  lemma RulesHit(env: Env, before: seq<string>, add: seq<string>, ignore: seq<string>, rules: seq<string>, name: string)
    requires forall rule :: rule in rules <==> (rule in before || rule in ignore) && rule !in add
    requires PatternFree(add) && PatternFree(ignore) && name !in add
    ensures IgnoredBy(env, rules, name) <==> IgnoredBy(env, before, name) || name in ignore
  {
    if rule :| rule in before && Hits(env, rule, name) {
      assert rule in rules;
    }
    if name in ignore {
      assert name in rules && Hits(env, name, name);
    }
  }

  /** Picking no name that reads as a pattern changes the rules only for the picked names. */
  lemma PlainPicksHide(env: Env, row: Row, choice: Choice, name: string)
    requires var add, ignore := Selected(choice.add, row.detected), Selected(choice.ignore, row.detected);
             PatternFree(add) && PatternFree(ignore) && name !in add
    ensures HiddenAfter(env, row, choice, name) <==>
            HiddenBefore(env, row, name) || name in Selected(choice.ignore, row.detected)
  {
    var add, ignore := Selected(choice.add, row.detected), Selected(choice.ignore, row.detected);
    RulesAfter(env, row, choice);
    RulesHit(env, Normalize(row.ignored), add, ignore, Normalize(NextRules(row.ignored, add, ignore)), name);
  }

  lemma AddedIsNotHidden(env: Env, row: Row, choice: Choice, name: string)
    requires Fresh(env, row) && name in Selected(choice.add, row.detected)
    requires PatternFree(Selected(choice.ignore, row.detected))
    ensures !HiddenAfter(env, row, choice, name)
  {
    var add, ignore := Selected(choice.add, row.detected), Selected(choice.ignore, row.detected);
    PickedMembers(env, row, choice);
    PendingMembers(env, row);
    RulesAfter(env, row, choice);
    var rules := Normalize(NextRules(row.ignored, add, ignore));
    hide Normalize, Models, Selected, AddOf, NextRules, RemoveOf;
    forall rule | rule in rules ensures !Hits(env, rule, name) {
      if rule in Normalize(row.ignored) {
        assert !IgnoredBy(env, Normalize(row.ignored), name);
      }
    }
  }

  /** An added name with a comma comes apart in storage, so it is pending again right away unless the new rules
      hide it. */
  lemma CommaNameReturns(env: Env, row: Row, choice: Choice, name: string)
    requires Fresh(env, row) && name in Selected(choice.add, row.detected) && ',' in name
    ensures var after := ApplyChanges(row, choice);
            && name !in after.detected
            && (name in AddOf(env, after) <==> !HiddenAfter(env, row, choice, name))
  {
    hide Normalize, Models, Selected, AddOf, RemoveOf, Filter, NextRules, NextModels, Merge, Subtract;
    var after := ApplyChanges(row, choice);
    var add, ignore := Selected(choice.add, row.detected), Selected(choice.ignore, row.detected);
    PickedMembers(env, row, choice);
    AfterRow(env, row, choice);
    PendingMembers(env, row);
    PendingMembers(env, after);
    ModelsCommaFree(after.models);
    FilterMembers(AddOf(env, row), n => n !in add && n !in ignore);
  }

  /** As long as no picked name reads as a pattern, it all depends on the commas. */
  lemma CommasDecide(env: Env, row: Row, choice: Choice)
    requires Fresh(env, row)
    requires PatternFree(Selected(choice.add, row.detected)) && PatternFree(Selected(choice.ignore, row.detected))
    ensures Harmless(env, row, choice) <==> CommaFree(Selected(choice.add, row.detected))
  {
    var add := Selected(choice.add, row.detected);
    if CommaFree(add) {
      RulesDecide(env, row, choice);
      forall name | name !in add
        ensures HiddenAfter(env, row, choice, name) <==>
                HiddenBefore(env, row, name) || name in Selected(choice.ignore, row.detected)
      {
        PlainPicksHide(env, row, choice, name);
      }
    } else {
      var name :| name in add && ',' in name;
      CommaNameReturns(env, row, choice, name);
      AddedIsNotHidden(env, row, choice, name);
      ApplyKeepsFresh(env, row, choice);
    }
  }

  /** Ignoring a name that reads as a pattern hides what it matches from the next detection, while the stored list
      keeps it. */
  lemma PatternNameHidesMore(env: Env, row: Row, choice: Choice, pattern: string, name: string)
    requires Fresh(env, row)
    requires pattern in Selected(choice.ignore, row.detected) && pattern !in Selected(choice.add, row.detected)
    requires Hits(env, pattern, name) && name in row.detected
    requires name !in Selected(choice.ignore, row.detected) && name !in Selected(choice.add, row.detected)
    ensures var after := ApplyChanges(row, choice);
            name in after.detected && name !in AddOf(env, after)
  {
    var after := ApplyChanges(row, choice);
    var add, ignore := Selected(choice.add, row.detected), Selected(choice.ignore, row.detected);
    AfterRow(env, row, choice);
    PendingMembers(env, after);
    FilterMembers(AddOf(env, row), n => n !in add && n !in ignore);
    RuleMembers(row, choice);
    assert pattern in Normalize(after.ignored);
  }

  // ----- at literal inputs -----

  function Offering(names: seq<string>, matches: (string, string) -> bool): Env {
    Env(names, {}, {}, matches)
  }

  /** A channel without models, after a check that found all these names. */
  function Found(names: seq<string>): Row {
    Row("", names, [], [], 1, false)
  }

  lemma FoundIsFresh(names: seq<string>, matches: (string, string) -> bool)
    requires Clean(names)
    ensures Fresh(Offering(names, matches), Found(names))
  {
    var env, row := Offering(names, matches), Found(names);
    NormalizeFixesClean(names);
    assert Normalize([]) == [] && Models("") == [];
    PendingMembers(env, row);
    FilterAll(names, name => name !in Normalize(Models(row.models)) && name !in env.targets &&
                             !IgnoredBy(env, Normalize(row.ignored), name));
    NoMembers(RemoveOf(env, row));
  }

  lemma Picks(names: seq<string>, input: seq<string>, name: string)
    requires Clean(names) && Clean(input)
    ensures name in Selected(input, names) <==> name in input && name in names
  {
    SelectionIsClean(names, input);
    NormalizeFixesClean(names);
    NormalizeFixesClean(input);
  }

  lemma LiteralNames(env: Env)
    ensures Clean(["a,b"]) && Clean(["regex:x", "m"]) && Clean(["regex:x"]) && Clean([])
    ensures env.matches("x", "m") ==> Hits(env, "regex:x", "m")
  {
    assert "regex:x"[|REGEX_PREFIX|..] == "x";
    TrimmedIsFixed("x");
  }

  /** Adding the model "a,b" makes a fresh row stale: the name is pending again. */
  lemma CommaExample()
    ensures var env, row := Offering(["a,b"], (p, n) => false), Found(["a,b"]);
            var after := ApplyChanges(row, Choice(["a,b"], [], [], 2));
            && Fresh(env, row) && !Fresh(env, after)
            && "a,b" in AddOf(env, after) && "a,b" !in after.detected
  {
    hide Normalize, Models, Filter, ApplyChanges, Fresh, Selected, AddOf, RemoveOf, Clean, HiddenAfter;
    var names := ["a,b"];
    var env, row, choice := Offering(names, (p, n) => false), Found(names), Choice(names, [], [], 2);
    LiteralNames(env);
    FoundIsFresh(names, (p, n) => false);
    Picks(names, names, "a,b");
    forall name ensures name !in Selected([], names) {
      Picks(names, [], name);
    }
    AddedIsNotHidden(env, row, choice, "a,b");
    CommaNameReturns(env, row, choice, "a,b");
    assert AddOf(env, ApplyChanges(row, choice)) != ApplyChanges(row, choice).detected;
    NotFresh(env, ApplyChanges(row, choice));
  }

  lemma NotFresh(env: Env, row: Row)
    requires AddOf(env, row) != row.detected
    ensures !Fresh(env, row)
  {
  }

  /** Ignoring the model "regex:x", where the pattern x matches the model "m", hides "m" as well. */
  lemma PatternExample()
    ensures var matches := (p: string, n: string) => p == "x" && n == "m";
            var env, row := Offering(["regex:x", "m"], matches), Found(["regex:x", "m"]);
            var after := ApplyChanges(row, Choice([], ["regex:x"], [], 2));
            && Fresh(env, row) && !Fresh(env, after)
            && "m" in after.detected && "m" !in AddOf(env, after)
  {
    hide Normalize, Models, Filter, ApplyChanges, Fresh, Selected, AddOf, RemoveOf, Clean, Hits;
    var matches := (p: string, n: string) => p == "x" && n == "m";
    var names, ignore := ["regex:x", "m"], ["regex:x"];
    var env, row, choice := Offering(names, matches), Found(names), Choice([], ignore, [], 2);
    LiteralNames(env);
    FoundIsFresh(names, matches);
    Picks(names, ignore, "regex:x");
    Picks(names, ignore, "m");
    Picks(names, [], "regex:x");
    Picks(names, [], "m");
    PatternNameHidesMore(env, row, choice, "regex:x", "m");
    NotFresh(env, ApplyChanges(row, choice));
  }

  // ----- what a check and an application store -----

  /** A stored check, case by case: nothing while it is throttled; only its time when the upstream cannot be asked; else
      the pending lists, and with an auto-sync the pending additions behind the local names. */
  lemma CheckStores(env: Env, row: Row, force: bool, allowAuto: bool, fetched: bool, at: int, minInterval: int)
    ensures var after := React(env, row, Checked(force, allowAuto, fetched, at, true), minInterval);
            var local, add := Normalize(Models(row.models)), AddOf(env, row);
            if !force && row.lastCheck > 0 && at - row.lastCheck < minInterval then after == row
            else if !fetched then after == row.(lastCheck := at)
            else if allowAuto && row.autoSync && add != [] then
              after == Row(Join(local + add, ','), [], RemoveOf(env, row), row.ignored, at, true)
            else after == Row(row.models, add, RemoveOf(env, row), row.ignored, at, row.autoSync)
    ensures React(env, row, Checked(force, allowAuto, fetched, at, false), minInterval) == row
  {
    MergedIsLonger(env, row);
    hide Normalize, PendingAdd, PendingRemove, Models, Merge;
  }

  /** What is pending, rule by rule: a rule that starts with "regex:" is a pattern, any other stands for itself. */
  lemma PendingRuleByRule(env: Env, row: Row, name: string)
    ensures name in AddOf(env, row) <==>
            && name in Normalize(env.upstream) && name !in Normalize(Models(row.models)) && name !in env.targets
            && forall rule :: rule in Normalize(row.ignored) ==>
                 if "regex:" <= rule then !env.matches(TrimSpace(rule[6..]), name) else rule != name
    ensures name in RemoveOf(env, row) <==>
            name in Normalize(Models(row.models)) && name !in env.sources && name !in Normalize(env.upstream)
  {
    PendingMembers(env, row);
    hide Normalize, Models, TrimSpace, AddOf, RemoveOf;
  }

  /** What an application of any selection leaves on any row, member by member. */
  lemma ApplicationStores(env: Env, row: Row, choice: Choice, name: string)
    ensures var after := React(env, row, Applied(choice, true), 0);
            var detected, removed := Normalize(row.detected), Normalize(row.removed);
            var adds := name in Normalize(choice.add) && name in detected;
            var ignores := name in Normalize(choice.ignore) && name in detected;
            var removes := name in Normalize(choice.remove) && name in removed && !adds;
            && (name in after.detected <==> name in detected && !adds && !ignores)
            && (name in after.removed <==> name in removed && !removes)
            && (name in Normalize(after.ignored) <==> (name in Normalize(row.ignored) || ignores) && !adds)
            && (name in NextList(row, choice) <==> adds || (name in Normalize(Models(row.models)) && !removes))
            && after.models == (if NextList(row, choice) == Normalize(Models(row.models)) then row.models
                                else Join(NextList(row, choice), ','))
            && after.lastCheck == choice.at && after.autoSync == row.autoSync
    ensures React(env, row, Applied(choice, false), 0) == row
  {
    var add, ignore := Selected(choice.add, row.detected), Selected(choice.ignore, row.detected);
    var remove := Selected(choice.remove, row.removed);
    SelectionIsClean(row.detected, choice.add);
    SelectionIsClean(row.detected, choice.ignore);
    SelectionIsClean(row.removed, choice.remove);
    SubtractMembers(remove, add);
    SubtractMembers(Normalize(row.detected), add + ignore);
    SubtractMembers(Normalize(row.removed), Subtract(remove, add));
    NormalizeFixesClean(Subtract(remove, add));
    GoneMembers(add, ignore);
    RuleMembers(row, choice);
    NormalizeIsClean(Models(row.models));
    NormalizeFixesClean(Normalize(Models(row.models)));
    AddWins(Normalize(Models(row.models)), add, Subtract(remove, add));
    hide Normalize, Models, Merge, Subtract, Intersect, Filter, ApplySelected, Selected, NextRules;
  }

  /** The model list an application makes, before it is stored. */
  function NextList(row: Row, choice: Choice): seq<string> {
    var add := Selected(choice.add, row.detected);
    ApplySelected(Normalize(Models(row.models)), add, Subtract(Selected(choice.remove, row.removed), add))
  }

  // ----- whole runs -----

  /** `stored` is false when the database refuses the changed row: then it stays as it was. */
  datatype Event =
    | Checked(force: bool, allowAuto: bool, fetched: bool, at: int, stored: bool)
    | Applied(choice: Choice, stored: bool)

  function React(env: Env, row: Row, event: Event, minInterval: int): Row {
    match event
    case Checked(force, allowAuto, fetched, at, stored) =>
      if stored then Detect(env, row, force, allowAuto, fetched, at, minInterval) else row
    case Applied(choice, stored) => if stored then ApplyChanges(row, choice) else row
  }

  /** An event that leaves a fresh row fresh. */
  ghost predicate Keeps(env: Env, row: Row, event: Event, minInterval: int) {
    match event
    case Checked(force, allowAuto, fetched, at, stored) =>
      stored && fetched && !TooSoon(row, force, at, minInterval) && allowAuto && row.autoSync ==>
        CommaFree(AddOf(env, row))
    case Applied(choice, stored) => stored ==> Harmless(env, row, choice)
  }

  lemma StepStaysFresh(env: Env, row: Row, event: Event, minInterval: int)
    requires Fresh(env, row)
    ensures Fresh(env, React(env, row, event, minInterval)) <==> Keeps(env, row, event, minInterval)
  {
    hide Fresh, Harmless, ApplyChanges;
    match event
    case Checked(force, allowAuto, fetched, at, stored) =>
      if stored && fetched && !TooSoon(row, force, at, minInterval) {
        DetectMakesFresh(env, row, force, allowAuto, at, minInterval);
      } else {
        FreshAnyTime(env, row, at);
      }
    case Applied(choice, stored) =>
      if stored {
        ApplyKeepsFresh(env, row, choice);
      }
  }

  lemma FreshAnyTime(env: Env, row: Row, at: int)
    ensures Fresh(env, row.(lastCheck := at)) <==> Fresh(env, row)
  {
  }

  function Run(env: Env, row: Row, events: seq<Event>, minInterval: int): Row
    decreases events
  {
    if events == [] then row else Run(env, React(env, row, events[0], minInterval), events[1..], minInterval)
  }

  ghost predicate FreshThroughout(env: Env, row: Row, events: seq<Event>, minInterval: int)
    decreases events
  {
    && Fresh(env, row)
    && (events != [] ==> FreshThroughout(env, React(env, row, events[0], minInterval), events[1..], minInterval))
  }

  ghost predicate KeepsThroughout(env: Env, row: Row, events: seq<Event>, minInterval: int)
    decreases events
  {
    events != [] ==>
      && Keeps(env, row, events[0], minInterval)
      && KeepsThroughout(env, React(env, row, events[0], minInterval), events[1..], minInterval)
  }

  /** Through checks (forced, throttled, failed, auto-syncing) and applications of any selection, in any order,
      a fresh row is fresh after every event if and only if no auto-sync adds a name with a comma and every
      application is harmless. */
  lemma {:induction false} RunsStayFresh(env: Env, row: Row, events: seq<Event>, minInterval: int)
    requires Fresh(env, row)
    ensures FreshThroughout(env, row, events, minInterval) <==> KeepsThroughout(env, row, events, minInterval)
    ensures FreshThroughout(env, row, events, minInterval) ==> Fresh(env, Run(env, row, events, minInterval))
    decreases events
  {
    hide Fresh, Keeps, React;
    if events != [] {
      var next := React(env, row, events[0], minInterval);
      StepStaysFresh(env, row, events[0], minInterval);
      if Fresh(env, next) {
        RunsStayFresh(env, next, events[1..], minInterval);
      }
    }
  }

  /** What a caller can check without knowing the rules: no name that is added holds a comma, and no name that is
      picked reads as a pattern. */
  ghost predicate PlainEvent(env: Env, row: Row, event: Event) {
    match event
    case Checked(_, allowAuto, _, _, _) => allowAuto && row.autoSync ==> CommaFree(AddOf(env, row))
    case Applied(choice, _) =>
      var add, ignore := Selected(choice.add, row.detected), Selected(choice.ignore, row.detected);
      CommaFree(add) && PatternFree(add) && PatternFree(ignore)
  }

  ghost predicate PlainThroughout(env: Env, row: Row, events: seq<Event>, minInterval: int)
    decreases events
  {
    events != [] ==>
      && PlainEvent(env, row, events[0])
      && PlainThroughout(env, React(env, row, events[0], minInterval), events[1..], minInterval)
  }

  lemma PlainEventKeeps(env: Env, row: Row, event: Event, minInterval: int)
    requires Fresh(env, row) && PlainEvent(env, row, event)
    ensures Keeps(env, row, event, minInterval)
  {
    hide Harmless, Selected, AddOf, Fresh;
    if event.Applied? {
      CommasDecide(env, row, event.choice);
    }
  }

  lemma {:induction false} PlainRunsStayFresh(env: Env, row: Row, events: seq<Event>, minInterval: int)
    requires Fresh(env, row) && PlainThroughout(env, row, events, minInterval)
    ensures FreshThroughout(env, row, events, minInterval)
    decreases events
  {
    hide Fresh, Keeps, React, PlainEvent;
    if events != [] {
      PlainEventKeeps(env, row, events[0], minInterval);
      StepStaysFresh(env, row, events[0], minInterval);
      PlainRunsStayFresh(env, React(env, row, events[0], minInterval), events[1..], minInterval);
    }
  }

  /** Everything that is pending. */
  function Everything(row: Row, now: int): Choice {
    Choice(row.detected, [], row.removed, now)
  }

  lemma EverythingIsGone(env: Env, row: Row, now: int)
    requires Fresh(env, row)
    ensures var done := ApplyChanges(row, Everything(row, now)); done.detected == [] && done.removed == []
  {
    var choice := Everything(row, now);
    PickedMembers(env, row, choice);
    AfterRow(env, row, choice);
    SelectionIsClean(row.detected, row.detected);
    SelectionIsClean(row.removed, row.removed);
    var done := ApplyChanges(row, choice);
    FilterNone(row.detected,
               name => name !in Selected(choice.add, row.detected) && name !in Selected([], row.detected));
    FilterNone(row.removed, name => name !in Selected(choice.remove, row.removed));
  }

  /** Applying everything that is pending leaves nothing to detect, so the next check finds two empty lists, if and
      only if the application is harmless. Then every upstream model is local, a redirect target or ignored, and
      every local model is upstream or a redirect source. */
  lemma ApplyAllConverges(env: Env, row: Row, now: int, later: int, minInterval: int)
    requires Fresh(env, row)
    ensures var done := ApplyChanges(row, Everything(row, now));
            var again := Detect(env, done, true, false, true, later, minInterval);
            && again.models == done.models
            && (again.detected == [] && again.removed == [] <==> Harmless(env, row, Everything(row, now)))
    ensures Harmless(env, row, Everything(row, now)) ==>
            var done := ApplyChanges(row, Everything(row, now));
            && (forall name :: name in Normalize(env.upstream) ==>
                  name in Normalize(Models(done.models)) || name in env.targets ||
                  IgnoredBy(env, Normalize(done.ignored), name))
            && (forall name :: name in Normalize(Models(done.models)) ==>
                  name in env.sources || name in Normalize(env.upstream))
  {
    hide ApplyChanges, Harmless, AddOf, RemoveOf;
    var done := ApplyChanges(row, Everything(row, now));
    EverythingIsGone(env, row, now);
    ApplyKeepsFresh(env, row, Everything(row, now));
    PendingMembers(env, done);
  }
}
