/** What each operation on a stored multi-key channel does to its slots, and exactly when that is what the operation
    is for. */
module MultiKeyEffects {
  import opened Sequences
  import opened GoStrings
  import opened Names
  import opened Wrappers
  import opened MultiKey

  /** The count is that of the text, and no status lies beyond it. */
  ghost predicate Valid(parse: string -> Option<seq<string>>, s: State) {
    s.size == |Counted(parse, s.text)| && forall i :: i in s.marks.status ==> i < s.size
  }

  /** Whatever is stored is valid, whatever was before. */
  lemma UpdateIsValid(parse: string -> Option<seq<string>>, s: State, newText: string)
    ensures Valid(parse, UpdateOn(parse, s, newText))
  {
    hide Counted;
  }

  lemma ApplyKeepsValid(parse: string -> Option<seq<string>>, s: State, op: Operation)
    requires Valid(parse, s)
    ensures Valid(parse, Apply(parse, s, op))
  {
    match op
    case Append(input) => UpdateIsValid(parse, s, AppendedText(parse, s.text, input));
    case Replace(text) => UpdateIsValid(parse, s, text);
    case Manage(action) => ManageKeepsValid(parse, s, action);
  }

  lemma RelistIsValid(parse: string -> Option<seq<string>>, s: State, slots: seq<Slot>)
    ensures Valid(parse, Relist(parse, s, slots))
  {
    UpdateIsValid(parse, s.(marks := MarksOf(slots)), Join(KeysOf(slots), '\n'));
  }

  lemma ManageKeepsValid(parse: string -> Option<seq<string>>, s: State, action: Action)
    requires Valid(parse, s)
    ensures Valid(parse, ManageOn(parse, s, action))
  {
    hide UpdateOn, Valid, MarkOn, Without, Kept, NoneAuto, EnabledIn, DisabledAt, MarksOf, SlotsOf, Join, KeysOf;
    match action
    case DisableKey(index) =>
      if Accepts(s, index) {
        var status := s.marks.status[index.value := MANUALLY_DISABLED];
        UpdateIsValid(parse, s.(marks := s.marks.(status := status)), s.text);
      }
    case EnableKey(index) =>
      if Accepts(s, index) {
        var gone := {index.value};
        var marks := Marks(s.marks.status - gone, s.marks.time - gone, s.marks.reason - gone);
        UpdateIsValid(parse, s.(marks := marks), s.text);
      }
    case EnableAll => UpdateIsValid(parse, s.(marks := NO_MARKS), s.text);
    case DisableAll =>
      var status := DisabledAt(s.marks.status, EnabledIn(s.marks.status, s.size));
      UpdateIsValid(parse, s.(marks := s.marks.(status := status)), s.text);
    case DeleteKey(index) =>
      if Accepts(s, index) {
        RelistIsValid(parse, s, Without(SlotsOf(parse, s), index.value));
      }
    case DeleteDisabled => RelistIsValid(parse, s, Kept(SlotsOf(parse, s)));
    case Mark(usingKey, status, reason, at) => MarkKeepsValid(parse, s, usingKey, status, reason, at);
  }

  lemma MarkKeepsValid(parse: string -> Option<seq<string>>, s: State, usingKey: string, status: int, reason: string,
                       at: int)
    requires Valid(parse, s)
    ensures Valid(parse, MarkOn(parse, s, usingKey, status, reason, at))
  {
    hide GetKeys, EmptyArray, AnyEnabled, Assemble, Bracketed;
    KeyIndexed(GetKeys(parse, s.text), usingKey);
  }

  lemma KeyIndexed(keys: seq<string>, key: string)
    ensures key in keys <==> IndexOf(keys, key) < |keys|
  {
  }

  lemma UpdateShows(parse: string -> Option<seq<string>>, s: State, newText: string)
    ensures var t := UpdateOn(parse, s, newText); SlotsOf(parse, t) == Assemble(GetKeys(parse, t.text), s.marks)
  {
    hide GetKeys, Counted;
  }

  /** Replacing the slots by fewer of them works exactly if the joined keys read back; otherwise other keys are left. */
  lemma RelistExactly(parse: string -> Option<seq<string>>, s: State, slots: seq<Slot>)
    requires slots != [] && |slots| < |SlotsOf(parse, s)|
    ensures SlotsOf(parse, Relist(parse, s, slots)) == slots <==> Joins(parse, KeysOf(slots))
    ensures KeysOf(SlotsOf(parse, Relist(parse, s, slots))) == KeysOf(slots) <==> Joins(parse, KeysOf(slots))
  {
    hide GetKeys, Joins, Join, MarksOf, Within, Assemble, KeysOf;
    var keys := KeysOf(slots);
    var t := Relist(parse, s, slots);
    UpdateShows(parse, s.(marks := MarksOf(slots)), Join(keys, '\n'));
    AssembleKeys(GetKeys(parse, t.text), MarksOf(slots));
    ReadsBackExactly(parse, keys);
    MarksHold(slots);
    assert |keys| == |slots| by { KeysCount(slots); }
    assert t.text == if Join(keys, '\n') == "" then s.text else Join(keys, '\n') by { hide Counted; }
  }

  lemma KeysCount(slots: seq<Slot>)
    ensures |KeysOf(slots)| == |slots|
  {
  }

  /** What a deletion needs in order to leave the keys it should: that they read back from the text they are joined to.
      Deleting all keys at once leaves the old text. */
  predicate Restores(parse: string -> Option<seq<string>>, slots: seq<Slot>, action: Action) {
    match action
    case DeleteKey(index) => InRange(slots, index) && |slots| > 1 ==> Joins(parse, KeysOf(Without(slots, index.value)))
    case DeleteDisabled => NoneAuto(slots) || Kept(slots) == [] || Joins(parse, KeysOf(Kept(slots)))
    case _ => true
  }

  /** A key without a status, a time or a reason. */
  function Untouched(key: string): Slot {
    Slot(key, 1, None, None)
  }

  lemma {:induction false} KeptMeans(slots: seq<Slot>)
    ensures var left := Filter(slots, (slot: Slot) => slot.status != 3);
            && |Kept(slots)| == |left|
            && forall i :: 0 <= i < |left| ==>
                 Kept(slots)[i] == if left[i].status == 1 then Untouched(left[i].key) else left[i]
  {
    if slots != [] {
      KeptMeans(slots[..|slots| - 1]);
    }
  }

  /** The actions on a list of slots, slot by slot: 1 is enabled, 2 disabled by hand, 3 automatically. */
  lemma ActionsMean(slots: seq<Slot>, action: Action)
    ensures var after := Act(slots, action);
            match action
            case DisableKey(index) =>
              && |after| == |slots|
              && forall i :: 0 <= i < |slots| ==>
                   after[i] == if index == Some(i) then slots[i].(status := 2) else slots[i]
            case EnableKey(index) =>
              && |after| == |slots|
              && forall i :: 0 <= i < |slots| ==>
                   after[i] == if index == Some(i) then Untouched(slots[i].key) else slots[i]
            case EnableAll => |after| == |slots| && forall i :: 0 <= i < |slots| ==> after[i] == Untouched(slots[i].key)
            case DisableAll =>
              && |after| == |slots|
              && forall i :: 0 <= i < |slots| ==>
                   after[i] == if slots[i].status == 1 then slots[i].(status := 2) else slots[i]
            case DeleteKey(index) =>
              if index.None? || index.value < 0 || index.value >= |slots| || |slots| == 1 then after == slots
              else
                && |after| == |slots| - 1
                && forall i :: 0 <= i < |after| ==> after[i] == slots[if i < index.value then i else i + 1]
            case DeleteDisabled => DeletedMean(slots, after)
            case Mark(usingKey, status, reason, at) =>
              && |after| == |slots|
              && forall i :: 0 <= i < |slots| ==>
                   after[i] ==
                   if slots[i].key != usingKey || (exists j :: 0 <= j < i && slots[j].key == usingKey) then slots[i]
                   else if status == 1 then slots[i].(status := 1)
                   else Slot(usingKey, status, Some(at), Some(reason))
  {
    hide DeletedMean, Filter, Kept, IndexOf, NoneAuto, KeysOf;
    match action
    case DeleteDisabled => SlotsDeleted(slots);
    case EnableAll => AllEnabled(slots);
    case Mark(usingKey, status, reason, at) => MarkMeans(slots, usingKey, status, reason, at);
    case _ =>
  }

  /** All keys enabled anew if there is none to keep, else those that are not automatically disabled, in order. */
  ghost predicate DeletedMean(slots: seq<Slot>, after: seq<Slot>) {
    var left := Filter(slots, (slot: Slot) => slot.status != 3);
    if forall i :: 0 <= i < |slots| ==> slots[i].status != 3 then after == slots
    else if left == [] then |after| == |slots| && forall i :: 0 <= i < |slots| ==> after[i] == Untouched(slots[i].key)
    else
      && |after| == |left|
      && forall i :: 0 <= i < |left| ==> after[i] == if left[i].status == 1 then Untouched(left[i].key) else left[i]
  }

  lemma SlotsDeleted(slots: seq<Slot>)
    ensures DeletedMean(slots, Act(slots, DeleteDisabled))
  {
    KeptMeans(slots);
    KeptAll(slots);
    AllEnabled(slots);
    hide Filter, Kept, KeysOf, FreshAll;
  }

  lemma AllEnabled(slots: seq<Slot>)
    ensures |FreshAll(KeysOf(slots))| == |slots|
    ensures forall i :: 0 <= i < |slots| ==> FreshAll(KeysOf(slots))[i] == Untouched(slots[i].key)
  {
  }

  lemma MarkMeans(slots: seq<Slot>, usingKey: string, status: int, reason: string, at: int)
    ensures var after := Act(slots, Mark(usingKey, status, reason, at));
            && |after| == |slots|
            && forall i :: 0 <= i < |slots| ==>
                 after[i] ==
                 if slots[i].key != usingKey || (exists j :: 0 <= j < i && slots[j].key == usingKey) then slots[i]
                 else if status == 1 then slots[i].(status := 1)
                 else Slot(usingKey, status, Some(at), Some(reason))
  {
    var k := IndexOf(KeysOf(slots), usingKey);
    assert forall i :: 0 <= i < |slots| ==> KeysOf(slots)[i] == slots[i].key;
    hide IndexOf;
    if k < |slots| {
      assert slots[k].key == usingKey;
    } else {
      forall i | 0 <= i < |slots| ensures slots[i].key != usingKey {
        assert KeysOf(slots)[i] != usingKey;
      }
    }
  }

  /** The stored channel does to its slots what the action does to a list of slots, if and only if the remaining keys
      read back; otherwise it is left with other keys. */
  lemma ActsExactly(parse: string -> Option<seq<string>>, s: State, action: Action)
    requires Valid(parse, s)
    ensures var before, after := SlotsOf(parse, s), SlotsOf(parse, ManageOn(parse, s, action));
            && (after == Act(before, action) <==> Restores(parse, before, action))
            && (KeysOf(after) == KeysOf(Act(before, action)) <==> Restores(parse, before, action))
  {
    hide Joins, GetKeys, Counted, Valid, MarksOf, Kept;
    match action
    case DeleteKey(index) => DeletesExactly(parse, s, index);
    case DeleteDisabled => FiltersExactly(parse, s);
    case Mark(usingKey, status, reason, at) => MarksExactly(parse, s, usingKey, status, reason, at);
    case DisableAll => DisablesAll(parse, s);
    case EnableAll =>
      UpdateShows(parse, s.(marks := NO_MARKS), s.text);
      AssembleKeys(GetKeys(parse, s.text), s.marks);
      AssembleNothing(GetKeys(parse, s.text), NO_MARKS);
    case DisableKey(index) => DisablesOne(parse, s, index);
    case EnableKey(index) => EnablesOne(parse, s, index);
  }

  lemma CountCovers(parse: string -> Option<seq<string>>, s: State)
    requires Valid(parse, s)
    ensures |GetKeys(parse, s.text)| == |SlotsOf(parse, s)| <= s.size
    ensures s.size == |SlotsOf(parse, s)| || SlotsOf(parse, s) == []
    ensures KeysOf(SlotsOf(parse, s)) == GetKeys(parse, s.text)
  {
    hide GetKeys;
    AssembleKeys(GetKeys(parse, s.text), s.marks);
  }

  lemma DisablesOne(parse: string -> Option<seq<string>>, s: State, index: Option<int>)
    requires Valid(parse, s)
    ensures SlotsOf(parse, ManageOn(parse, s, Action.DisableKey(index))) ==
            Act(SlotsOf(parse, s), Action.DisableKey(index))
  {
    hide GetKeys, UpdateOn, Counted, Valid;
    CountCovers(parse, s);
    if Accepts(s, index) {
      var marks := s.marks.(status := s.marks.status[index.value := MANUALLY_DISABLED]);
      UpdateShows(parse, s.(marks := marks), s.text);
      SameText(parse, s.(marks := marks));
    }
  }

  lemma EnablesOne(parse: string -> Option<seq<string>>, s: State, index: Option<int>)
    requires Valid(parse, s)
    ensures SlotsOf(parse, ManageOn(parse, s, Action.EnableKey(index))) ==
            Act(SlotsOf(parse, s), Action.EnableKey(index))
  {
    hide GetKeys, UpdateOn, Counted, Valid;
    CountCovers(parse, s);
    if Accepts(s, index) {
      var gone := {index.value};
      var marks := Marks(s.marks.status - gone, s.marks.time - gone, s.marks.reason - gone);
      UpdateShows(parse, s.(marks := marks), s.text);
      SameText(parse, s.(marks := marks));
    }
  }

  lemma SameText(parse: string -> Option<seq<string>>, s: State)
    ensures UpdateOn(parse, s, s.text).text == s.text
  {
  }

  lemma DisablesAll(parse: string -> Option<seq<string>>, s: State)
    requires Valid(parse, s)
    ensures SlotsOf(parse, ManageOn(parse, s, DisableAll)) == Act(SlotsOf(parse, s), DisableAll)
  {
    hide GetKeys, UpdateOn, Counted, Valid;
    CountCovers(parse, s);
    var enabled := EnabledIn(s.marks.status, s.size);
    var marks := s.marks.(status := DisabledAt(s.marks.status, enabled));
    UpdateShows(parse, s.(marks := marks), s.text);
    SameText(parse, s.(marks := marks));
    var slots := SlotsOf(parse, s);
    forall i | 0 <= i < |slots| ensures slots[i].status == ENABLED <==> i in enabled {
    }
  }

  lemma MarksExactly(parse: string -> Option<seq<string>>, s: State, usingKey: string, status: int, reason: string,
                     at: int)
    ensures SlotsOf(parse, MarkOn(parse, s, usingKey, status, reason, at)) ==
            Act(SlotsOf(parse, s), Mark(usingKey, status, reason, at))
  {
    hide GetKeys, AnyEnabled, IndexOf, Assemble;
    var keys := GetKeys(parse, s.text);
    AssembleKeys(keys, s.marks);
    KeyIndexed(keys, usingKey);
    if usingKey in keys {
      AssembleMarked(keys, s.marks, IndexOf(keys, usingKey), status, at, reason);
    }
  }

  /** What a relay's report makes of the channel's own status: with a listed key, it is disabled exactly when no key is
      left enabled, and enabled again with a key; a report without a key to look up is taken over, one about a key that
      is not listed changes nothing. */
  lemma StatusAfterReport(parse: string -> Option<seq<string>>, s: State, usingKey: string, status: int, reason: string,
                          at: int)
    ensures var t := ManageOn(parse, s, Mark(usingKey, status, reason, at));
            var keys, slots := GetKeys(parse, s.text), SlotsOf(parse, t);
            t.status ==
              if keys == [] then status
              else if usingKey !in keys then if usingKey == "" then status else s.status
              else if forall i :: 0 <= i < |slots| ==> slots[i].status != 1 then 3
              else if status == 1 then 1 else s.status
  {
    hide GetKeys, IndexOf, Assemble;
  }

  /** Nothing else touches the channel's own status. */
  lemma StatusStays(parse: string -> Option<seq<string>>, s: State, op: Operation)
    requires !(op.Manage? && op.action.Mark?)
    ensures Apply(parse, s, op).status == s.status
  {
    hide GetKeys, Counted, Join, NewKeys, ExistingKeys, MarksOf, Kept, Without, NoneAuto, Assemble;
  }

  lemma DeletesExactly(parse: string -> Option<seq<string>>, s: State, index: Option<int>)
    requires Valid(parse, s)
    ensures var slots := SlotsOf(parse, s);
            var after, target := SlotsOf(parse, ManageOn(parse, s, Action.DeleteKey(index))),
                                 Act(slots, Action.DeleteKey(index));
            && (after == target <==> Restores(parse, slots, Action.DeleteKey(index)))
            && (KeysOf(after) == KeysOf(target) <==> Restores(parse, slots, Action.DeleteKey(index)))
  {
    hide GetKeys, Joins, Relist, SlotsOf, Valid, KeysOf;
    CountCovers(parse, s);
    var slots := SlotsOf(parse, s);
    if InRange(slots, index) && |slots| > 1 {
      RelistExactly(parse, s, Without(slots, index.value));
    }
  }

  lemma FiltersExactly(parse: string -> Option<seq<string>>, s: State)
    ensures var slots := SlotsOf(parse, s);
            var after, target := SlotsOf(parse, ManageOn(parse, s, DeleteDisabled)), Act(slots, DeleteDisabled);
            && (after == target <==> Restores(parse, slots, DeleteDisabled))
            && (KeysOf(after) == KeysOf(target) <==> Restores(parse, slots, DeleteDisabled))
  {
    hide GetKeys, Joins, KeysOf, Kept, NoneAuto;
    var slots := SlotsOf(parse, s);
    KeptAll(slots);
    if !NoneAuto(slots) {
      if Kept(slots) == [] {
        RebuildNothing();
        UpdateShows(parse, s.(marks := NO_MARKS), "");
        AssembleKeys(GetKeys(parse, s.text), s.marks);
        AssembleNothing(GetKeys(parse, s.text), NO_MARKS);
      } else {
        RelistExactly(parse, s, Kept(slots));
      }
    }
  }

  // ----- appending and creating -----

  /** What an append needs in order to list the old keys and then the new ones. A channel without a text takes the
      input as it is; one whose text is bracketed but no JSON array forgets its keys, so the input must repeat them. */
  predicate Appends(parse: string -> Option<seq<string>>, text: string, input: string) {
    var keys := GetKeys(parse, text);
    if text == "" then GetKeys(parse, input) == NewKeys([], input)
    else if Bracketed(text) && parse(TrimSpace(text)).None? then
      var all := NewKeys([], input);
      var joined := Join(all, '\n');
      || all == []
      || (if Bracketed(joined) && parse(TrimSpace(joined)).Some? then parse(TrimSpace(joined)).value else all) ==
         keys + NewKeys(keys, input)
    else Joins(parse, keys + NewKeys(keys, input)) || Join(keys + NewKeys(keys, input), '\n') == ""
  }

  /** The keys read after an append are the old ones followed by the new ones if and only if that holds. */
  lemma AppendsExactly(parse: string -> Option<seq<string>>, text: string, input: string)
    ensures var keys, stored := GetKeys(parse, text), AppendedText(parse, text, input);
            GetKeys(parse, if stored == "" then text else stored) == keys + NewKeys(keys, input) <==>
            Appends(parse, text, input)
  {
    var keys := GetKeys(parse, text);
    hide TrimSpace, NewKeys, Trim, Split, Joins;
    if text == "" {
      assert [] + NewKeys([], input) == NewKeys([], input);
      if input == "" {
        NoInput();
      }
    } else if Bracketed(text) && parse(TrimSpace(text)).None? {
      LostAppends(parse, text, input);
    } else {
      AppendSeesExactly(parse, text);
      SeenAppends(parse, text, input);
    }
  }

  lemma LostAppends(parse: string -> Option<seq<string>>, text: string, input: string)
    requires text != "" && Bracketed(text) && parse(TrimSpace(text)).None?
    ensures var keys, stored := GetKeys(parse, text), AppendedText(parse, text, input);
            GetKeys(parse, if stored == "" then text else stored) == keys + NewKeys(keys, input) <==>
            Appends(parse, text, input)
  {
    hide NewKeys, GetKeys, Joins, Trim, Split, TrimSpace;
    var keys, all := GetKeys(parse, text), NewKeys([], input);
    assert [] + all == all;
    assert AppendedText(parse, text, input) == Join(all, '\n');
    if all == [] {
      NothingNew(keys, input);
    } else {
      NewKeysJoin(parse, input);
    }
    hide AppendedText, ExistingKeys, Join;
  }

  lemma NoInput()
    ensures NewKeys([], "") == []
  {
    assert TrimNames([""]) == [];
  }

  lemma NothingNew(keys: seq<string>, input: string)
    requires NewKeys([], input) == []
    ensures NewKeys(keys, input) == []
  {
    NewKeysFit([], input);
    NewKeysFit(keys, input);
    NoMembers(NewKeys(keys, input));
    NoTrimmed();
    forall key | key in NewKeys(keys, input) ensures key in NewKeys([], input) {
    }
  }

  lemma NoTrimmed()
    ensures TrimNames([]) == []
  {
  }

  /** The new keys alone, read back. */
  lemma NewKeysJoin(parse: string -> Option<seq<string>>, input: string)
    requires NewKeys([], input) != []
    ensures var all := NewKeys([], input);
            var joined := Join(all, '\n');
            && joined != ""
            && GetKeys(parse, joined) ==
               if Bracketed(joined) && parse(TrimSpace(joined)).Some? then parse(TrimSpace(joined)).value else all
  {
    NewKeysFit([], input);
    RoundTrip(NewKeys([], input), '\n');
  }

  lemma SeenAppends(parse: string -> Option<seq<string>>, text: string, input: string)
    requires text != "" && ExistingKeys(parse, text) == GetKeys(parse, text)
    ensures var keys := GetKeys(parse, text);
            var all := keys + NewKeys(keys, input);
            GetKeys(parse, if Join(all, '\n') == "" then text else Join(all, '\n')) == all <==>
            Joins(parse, all) || Join(all, '\n') == ""
  {
    var keys := GetKeys(parse, text);
    var new' := NewKeys(keys, input);
    var all := keys + new';
    hide GetKeys, NewKeys, Joins;
    ReadsBackExactly(parse, all);
    NewKeysFit(keys, input);
    if new' == [] {
      assert all == keys;
    } else {
      assert all[|all| - 1] == new'[|new'| - 1];
      JoinsLast(all, '\n');
    }
  }

  /** Nothing is kept for these indices. */
  predicate Unmarked(marks: Marks, from: nat, to: nat) {
    forall i :: from <= i < to ==>
      i !in marks.time && i !in marks.reason && (i in marks.status ==> marks.status[i] == ENABLED)
  }

  /** An append adds enabled keys without a past and changes nothing else, if and only if the keys read back and nothing
      is kept for the indices the new ones get. */
  lemma AppendSlotsExactly(parse: string -> Option<seq<string>>, s: State, input: string)
    ensures var keys := GetKeys(parse, s.text);
            var new' := NewKeys(keys, input);
            SlotsOf(parse, Apply(parse, s, Append(input))) == SlotsOf(parse, s) + FreshAll(new') <==>
            Appends(parse, s.text, input) && Unmarked(s.marks, |keys|, |keys| + |new'|)
  {
    hide GetKeys, NewKeys, Appends, AppendedText, KeysOf, Assemble, Unmarked, FreshAll;
    var keys := GetKeys(parse, s.text);
    var new' := NewKeys(keys, input);
    var stored := AppendedText(parse, s.text, input);
    var after := UpdateOn(parse, s, stored);
    AppendsExactly(parse, s.text, input);
    UpdateShows(parse, s, stored);
    StoredText(parse, s, stored);
    ExtendsExactly(keys, new', s.marks);
    AssembleKeys(GetKeys(parse, after.text), s.marks);
    ExtendedKeys(keys, new', s.marks);
  }

  lemma StoredText(parse: string -> Option<seq<string>>, s: State, newText: string)
    ensures UpdateOn(parse, s, newText).text == if newText == "" then s.text else newText
  {
  }

  lemma ExtendsExactly(keys: seq<string>, extra: seq<string>, marks: Marks)
    ensures Assemble(keys + extra, marks) == Assemble(keys, marks) + FreshAll(extra) <==>
            Unmarked(marks, |keys|, |keys| + |extra|)
  {
    var left, right := Assemble(keys + extra, marks), Assemble(keys, marks) + FreshAll(extra);
    assert |left| == |right| && forall i :: 0 <= i < |keys| ==> left[i] == right[i];
    forall i | |keys| <= i < |keys| + |extra|
      ensures left[i] == right[i] <==>
              i !in marks.time && i !in marks.reason && (i in marks.status ==> marks.status[i] == ENABLED)
    {
      assert left[i] == SlotAt(extra[i - |keys|], i, marks) && right[i] == Fresh(extra[i - |keys|]);
    }
  }

  lemma ExtendedKeys(keys: seq<string>, extra: seq<string>, marks: Marks)
    ensures KeysOf(Assemble(keys, marks) + FreshAll(extra)) == keys + extra
  {
  }

  lemma {:induction false} CleanKeysHoldNoNewline(lines: seq<string>)
    requires forall line :: line in lines ==> '\n' !in line
    ensures forall key :: key in CleanKeys(lines) ==> '\n' !in key
  {
    if lines != [] {
      assert lines[|lines| - 1] in lines;
      forall line | line in lines[..|lines| - 1] ensures line in lines {
      }
      CleanKeysHoldNoNewline(lines[..|lines| - 1]);
    }
  }

  /** The keys of a new channel are its non-empty lines, in order and trimmed. */
  lemma {:induction false} CleanKeysAre(lines: seq<string>)
    ensures var kept := Filter(lines, line => line != "");
            && |CleanKeys(lines)| == |kept|
            && forall i :: 0 <= i < |kept| ==> CleanKeys(lines)[i] == TrimSpace(kept[i])
  {
    hide TrimSpace;
    if lines != [] {
      CleanKeysAre(lines[..|lines| - 1]);
    }
  }

  /** A channel created from pasted lines has the keys it counts if and only if they read back; unless they are taken
      for a JSON array, that is if and only if neither the first nor the last of the non-empty lines is blank. */
  lemma CreatedExactly(parse: string -> Option<seq<string>>, input: string)
    ensures var s, keys := Created(input), CleanKeys(Split(input, '\n'));
            && (s.text != "" && GetKeys(parse, s.text) == keys <==> Joins(parse, keys))
            && (!Bracketed(s.text) ==> (Joins(parse, keys) <==> keys != [] && keys[0] != "" && keys[|keys| - 1] != ""))
  {
    var keys := CleanKeys(Split(input, '\n'));
    ReadsBackExactly(parse, keys);
    CleanKeysHoldNoNewline(Split(input, '\n'));
    hide CleanKeys, Split, Trim, TrimSpace, GetKeys, Bracketed;
    if keys != [] {
      JoinsLast(keys, '\n');
    }
  }

  /** Then it is valid, and every key is enabled. */
  lemma CreatedIsValid(parse: string -> Option<seq<string>>, input: string)
    requires Joins(parse, CleanKeys(Split(input, '\n')))
    ensures Valid(parse, Created(input)) && SlotsOf(parse, Created(input)) == FreshAll(CleanKeys(Split(input, '\n')))
  {
    var keys := CleanKeys(Split(input, '\n'));
    ReadsBackExactly(parse, keys);
    hide CleanKeys, Split, GetKeys, Joins, Counted;
    AssembleNothing(keys, NO_MARKS);
  }
}
