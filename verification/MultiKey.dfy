/** Multi-key channels: a newline-joined key text and three sparse index-keyed maps (status, disable
    time, disable reason) that every management action re-indexes by hand. The maps refine a plain
    sequence of slots, one per key. */
module MultiKey {
  import opened Sequences
  import opened GoStrings
  import opened Names
  import opened Wrappers

  const ENABLED := 1
  const MANUALLY_DISABLED := 2
  const AUTO_DISABLED := 3
  const DEFAULT_PAGE_SIZE := 50

  function Get<V>(m: map<int, V>, i: int): Option<V> {
    if i in m then Some(m[i]) else None
  }

  // ----- the key text -----

  predicate Bracketed(text: string) {
    TrimSpace(text) != "" && TrimSpace(text)[0] == '['
  }

  /** `parse` reads a JSON array of raw values; a text that starts with a bracket is given to it. */
  function GetKeys(parse: string -> Option<seq<string>>, text: string): seq<string> {
    if text == "" then []
    else if Bracketed(text) && parse(TrimSpace(text)).Some? then parse(TrimSpace(text)).value
    else Split(Trim(text, {'\n'}), '\n')
  }

  /** Keys a newline-joined text can hold, wherever they end up in the list. */
  ghost predicate Holdable(keys: seq<string>) {
    Storable(keys, '\n') && forall i :: 0 <= i < |keys| ==> !Bracketed(keys[i])
  }

  lemma {:induction false} TrimLeftConcat(a: string, b: string, cut: set<char>)
    ensures TrimLeft(a + b, cut) == if TrimLeft(a, cut) == "" then TrimLeft(b, cut) else TrimLeft(a, cut) + b
  {
    if a == "" {
      assert a + b == b;
    } else if a[0] in cut {
      TrimLeftConcat(a[1..], b, cut);
      assert (a + b)[1..] == a[1..] + b;
    }
  }

  lemma {:induction false} TrimRightKeeps(s: string, cut: set<char>)
    requires s != "" && s[0] !in cut
    ensures TrimRight(s, cut) != "" && TrimRight(s, cut)[0] == s[0]
  {
    if s[|s| - 1] in cut {
      TrimRightKeeps(s[..|s| - 1], cut);
    }
  }

  /** Whether a text is bracketed shows after trimming on the left. */
  lemma BracketedLeft(text: string)
    ensures Bracketed(text) <==> TrimLeft(text, SPACES) != "" && TrimLeft(text, SPACES)[0] == '['
  {
    if TrimLeft(text, SPACES) != "" {
      TrimRightKeeps(TrimLeft(text, SPACES), SPACES);
    }
  }

  lemma {:induction false} JoinNotBracketed(keys: seq<string>)
    requires forall i :: 0 <= i < |keys| ==> !Bracketed(keys[i])
    ensures !Bracketed(Join(keys, '\n'))
  {
    BracketedLeft(Join(keys, '\n'));
    if |keys| >= 1 {
      BracketedLeft(keys[0]);
    }
    if |keys| > 1 {
      var rest := Join(keys[1..], '\n');
      JoinNotBracketed(keys[1..]);
      BracketedLeft(rest);
      TrimLeftConcat(keys[0], ['\n'] + rest, SPACES);
      assert ("\n" + rest)[1..] == rest;
      assert keys[0] + ['\n'] + rest == keys[0] + (['\n'] + rest);
    }
  }

  /** Joining and reading back gives the same keys, without consulting the JSON parser. */
  lemma KeysRoundTrip(parse: string -> Option<seq<string>>, keys: seq<string>)
    requires Holdable(keys)
    ensures GetKeys(parse, Join(keys, '\n')) == keys
    ensures keys == [] ==> Join(keys, '\n') == ""
    ensures keys != [] ==> Join(keys, '\n') != "" && !Bracketed(Join(keys, '\n'))
  {
    if keys != [] {
      RoundTrip(keys, '\n');
      JoinNotBracketed(keys);
    }
  }

  /** Only the first key decides whether the text looks like a JSON array, unless it is blank. */
  lemma FirstKeyDecides(keys: seq<string>)
    requires keys != [] && TrimSpace(keys[0]) != ""
    ensures Bracketed(Join(keys, '\n')) <==> Bracketed(keys[0])
  {
    if |keys| > 1 {
      var rest := ['\n'] + Join(keys[1..], '\n');
      BracketedLeft(keys[0]);
      BracketedLeft(Join(keys, '\n'));
      TrimLeftConcat(keys[0], rest, SPACES);
      assert Join(keys, '\n') == keys[0] + rest;
    }
  }

  /** Any keys without newlines come back, provided the first is neither blank nor bracketed. */
  lemma FirstKeyRoundTrip(parse: string -> Option<seq<string>>, keys: seq<string>)
    requires Storable(keys, '\n') && keys != [] && TrimSpace(keys[0]) != "" && !Bracketed(keys[0])
    ensures GetKeys(parse, Join(keys, '\n')) == keys
  {
    FirstKeyDecides(keys);
    RoundTrip(keys, '\n');
  }

  /** A list whose joined text gives it back. Unless the text is taken for a JSON array, which must then list the same
      keys, no key may hold a newline and neither the first nor the last may be empty. */
  predicate Joins(parse: string -> Option<seq<string>>, keys: seq<string>) {
    var text := Join(keys, '\n');
    && keys != [] && text != ""
    && if Bracketed(text) && parse(TrimSpace(text)).Some? then parse(TrimSpace(text)).value == keys
       else (forall key :: key in keys ==> '\n' !in key) && keys[0] != "" && keys[|keys| - 1] != ""
  }

  lemma {:induction false} JoinSplit(s: string, sep: char)
    ensures Join(Split(s, sep), sep) == s
  {
    if s != "" {
      JoinSplit(s[1..], sep);
      var rest := Split(s[1..], sep);
      if s[0] == sep {
        assert ([""] + rest)[1..] == rest;
      } else {
        assert ([[s[0]] + rest[0]] + rest[1..])[1..] == rest[1..];
      }
    }
  }

  lemma {:induction false} JoinsLast(keys: seq<string>, sep: char)
    requires keys != []
    ensures var text, first, last := Join(keys, sep), keys[0], keys[|keys| - 1];
            && (text == "" <==> keys == [""])
            && (first == "" && |keys| > 1 ==> text[0] == sep)
            && (last == "" && |keys| > 1 ==> text[|text| - 1] == sep)
            && (first != "" ==> text[0] == first[0])
            && (last != "" ==> text != "" && text[|text| - 1] == last[|last| - 1])
  {
    if |keys| > 1 {
      JoinsLast(keys[1..], sep);
    }
  }

  lemma TrimKeeps(s: string, sep: char)
    ensures Trim(s, {sep}) == s <==> s == "" || (s[0] != sep && s[|s| - 1] != sep)
  {
  }

  /** Keys split from a text and joined again come back exactly if the ends of the text are no newlines. */
  lemma SplitsExactly(keys: seq<string>)
    requires keys != []
    ensures Join(keys, '\n') != "" && Split(Trim(Join(keys, '\n'), {'\n'}), '\n') == keys <==>
            (forall key :: key in keys ==> '\n' !in key) && keys[0] != "" && keys[|keys| - 1] != ""
  {
    var text := Join(keys, '\n');
    JoinsLast(keys, '\n');
    TrimKeeps(text, '\n');
    if (forall key :: key in keys ==> '\n' !in key) && keys[0] != "" && keys[|keys| - 1] != "" {
      assert keys[0] in keys && keys[|keys| - 1] in keys;
      SplitJoin(keys, '\n');
    } else if text != "" && Split(Trim(text, {'\n'}), '\n') == keys {
      JoinSplit(Trim(text, {'\n'}), '\n');
    }
  }

  /** The exact condition under which keys survive being stored, for any keys. */
  lemma ReadsBackExactly(parse: string -> Option<seq<string>>, keys: seq<string>)
    ensures Join(keys, '\n') != "" && GetKeys(parse, Join(keys, '\n')) == keys <==> Joins(parse, keys)
  {
    hide TrimSpace, Trim, Split;
    if keys != [] {
      SplitsExactly(keys);
    }
  }

  lemma HoldableJoins(parse: string -> Option<seq<string>>, keys: seq<string>)
    requires Holdable(keys) && keys != []
    ensures Joins(parse, keys)
  {
    KeysRoundTrip(parse, keys);
    ReadsBackExactly(parse, keys);
  }

  /** A JSON array without elements: no key is read from it, but one is counted. */
  predicate EmptyArray(parse: string -> Option<seq<string>>, text: string) {
    text != "" && Bracketed(text) && parse(TrimSpace(text)) == Some([])
  }

  /** What Update counts. */
  function Counted(parse: string -> Option<seq<string>>, text: string): (keys: seq<string>)
    ensures keys == GetKeys(parse, text) || GetKeys(parse, text) == []
  {
    if EmptyArray(parse, text) then Split(Trim(text, {'\n'}), '\n') else GetKeys(parse, text)
  }

  // ----- the slots behind the maps -----

  datatype Slot = Slot(key: string, status: int, time: Option<int>, reason: Option<string>)

  /** The three maps, by key index. */
  datatype Marks = Marks(status: map<int, int>, time: map<int, int>, reason: map<int, string>)

  function SlotAt(key: string, i: int, marks: Marks): Slot {
    Slot(key, Get(marks.status, i).GetOr(ENABLED), Get(marks.time, i), Get(marks.reason, i))
  }

  function Assemble(keys: seq<string>, marks: Marks): (slots: seq<Slot>)
    ensures |slots| == |keys|
  {
    seq(|keys|, i requires 0 <= i < |keys| => SlotAt(keys[i], i, marks))
  }

  ghost predicate Within(n: nat, marks: Marks) {
    && (forall i :: i in marks.status ==> 0 <= i < n)
    && (forall i :: i in marks.time ==> 0 <= i < n)
    && (forall i :: i in marks.reason ==> 0 <= i < n)
  }

  function Put<V>(m: map<int, V>, i: int, v: Option<V>): map<int, V> {
    if v.Some? then m[i := v.value] else m
  }

  /** Adding a key at the end with its re-indexed entries adds its slot at the end. */
  lemma AssembleGrows(keys: seq<string>, marks: Marks, marks': Marks, slot: Slot)
    requires Within(|keys|, marks)
    requires marks'.status == Put(marks.status, |keys|, if slot.status == ENABLED then None else Some(slot.status))
    requires marks'.time == Put(marks.time, |keys|, slot.time)
    requires marks'.reason == Put(marks.reason, |keys|, slot.reason)
    ensures Within(|keys| + 1, marks')
    ensures Assemble(keys + [slot.key], marks') == Assemble(keys, marks) + [slot]
  {
  }

  const NO_MARKS := Marks(map[], map[], map[])

  /** The maps as a rebuild from a list of slots leaves them. */
  function MarksOf(slots: seq<Slot>): Marks {
    if slots == [] then NO_MARKS
    else
      var last := |slots| - 1;
      PutSlot(MarksOf(slots[..last]), last, slots[last])
  }

  function PutSlot(marks: Marks, i: nat, slot: Slot): Marks {
    Marks(Put(marks.status, i, if slot.status == ENABLED then None else Some(slot.status)),
          Put(marks.time, i, slot.time), Put(marks.reason, i, slot.reason))
  }

  lemma KeysGrow(slots: seq<Slot>, slot: Slot)
    ensures KeysOf(slots + [slot]) == KeysOf(slots) + [slot.key]
  {
  }

  lemma MarksGrow(slots: seq<Slot>, slot: Slot)
    ensures MarksOf(slots + [slot]) == PutSlot(MarksOf(slots), |slots|, slot)
    ensures KeysOf(slots + [slot]) == KeysOf(slots) + [slot.key]
  {
    hide PutSlot, KeysOf;
    KeysGrow(slots, slot);
    assert (slots + [slot])[..|slots|] == slots;
  }

  /** The rebuilt maps hold the slots. */
  lemma {:induction false} MarksHold(slots: seq<Slot>)
    ensures Within(|slots|, MarksOf(slots)) && Assemble(KeysOf(slots), MarksOf(slots)) == slots
  {
    if slots != [] {
      var front, last := slots[..|slots| - 1], slots[|slots| - 1];
      MarksHold(front);
      MarksGrow(front, last);
      assert front + [last] == slots;
      hide MarksOf, Within;
      AssembleGrows(KeysOf(front), MarksOf(front), MarksOf(slots), last);
    } else {
      assert Assemble([], NO_MARKS) == [];
    }
  }

  function Fresh(key: string): Slot {
    Slot(key, ENABLED, None, None)
  }

  function FreshAll(keys: seq<string>): seq<Slot> {
    seq(|keys|, i requires 0 <= i < |keys| => Fresh(keys[i]))
  }

  function KeysOf(slots: seq<Slot>): seq<string> {
    seq(|slots|, i requires 0 <= i < |slots| => slots[i].key)
  }

  /** delete_disabled_keys forgets leftovers of enabled keys on the way. */
  function Tidy(slot: Slot): Slot {
    if slot.status == ENABLED then Fresh(slot.key) else slot
  }

  function Kept(slots: seq<Slot>): seq<Slot> {
    if slots == [] then []
    else
      var front, last := Kept(slots[..|slots| - 1]), slots[|slots| - 1];
      if last.status == AUTO_DISABLED then front else front + [Tidy(last)]
  }

  predicate NoneAuto(slots: seq<Slot>) {
    forall i :: 0 <= i < |slots| ==> slots[i].status != AUTO_DISABLED
  }

  function DisableEnabled(slots: seq<Slot>): seq<Slot> {
    seq(|slots|, i requires 0 <= i < |slots| =>
      if slots[i].status == ENABLED then slots[i].(status := MANUALLY_DISABLED) else slots[i])
  }

  predicate InRange(slots: seq<Slot>, index: Option<int>) {
    index.Some? && 0 <= index.value < |slots|
  }

  /** The first place of a key in a list, or the length of the list. */
  function IndexOf(keys: seq<string>, key: string): (k: nat)
    ensures k <= |keys| && (k < |keys| ==> keys[k] == key)
    ensures forall i :: 0 <= i < k ==> keys[i] != key
  {
    if keys == [] then 0
    else if keys[0] == key then 0
    else 1 + IndexOf(keys[1..], key)
  }

  /** The management actions, and `Mark`: a relay that disables or re-enables the key it used. */
  datatype Action =
    | DisableKey(index: Option<int>)
    | EnableKey(index: Option<int>)
    | EnableAll
    | DisableAll
    | DeleteKey(index: Option<int>)
    | DeleteDisabled
    | Mark(usingKey: string, status: int, reason: string, at: int)

  function Act(slots: seq<Slot>, action: Action): seq<Slot> {
    match action
    case DisableKey(index) =>
      if InRange(slots, index) then slots[index.value := slots[index.value].(status := MANUALLY_DISABLED)] else slots
    case EnableKey(index) =>
      if InRange(slots, index) then slots[index.value := Fresh(slots[index.value].key)] else slots
    case EnableAll => FreshAll(KeysOf(slots))
    case DisableAll => DisableEnabled(slots)
    case DeleteKey(index) =>
      if InRange(slots, index) && |slots| > 1 then slots[..index.value] + slots[index.value + 1..] else slots
    case DeleteDisabled =>
      if NoneAuto(slots) then slots
      else if Kept(slots) == [] then FreshAll(KeysOf(slots))
      else Kept(slots)
    case Mark(usingKey, status, reason, at) =>
      var k := IndexOf(KeysOf(slots), usingKey);
      if k == |slots| then slots
      else if status == ENABLED then slots[k := slots[k].(status := ENABLED)]
      else slots[k := Slot(usingKey, status, Some(at), Some(reason))]
  }

  // ----- the stored channel -----

  /** The key text, its number of keys as last counted, the maps and the channel's own status. */
  datatype State = State(text: string, size: nat, marks: Marks, status: int)

  /** What a multi-key channel goes through: a management action, or an update that appends or replaces keys. */
  datatype Operation = Manage(action: Action) | Append(input: string) | Replace(text: string)

  function SlotsOf(parse: string -> Option<seq<string>>, s: State): seq<Slot> {
    Assemble(GetKeys(parse, s.text), s.marks)
  }

  function Below(status: map<int, int>, size: nat): map<int, int> {
    map i | i in status && i < size :: status[i]
  }

  /** Storing recounts the keys and drops statuses beyond them. An empty key text is not stored: the row keeps the
      text it has. */
  function UpdateOn(parse: string -> Option<seq<string>>, s: State, newText: string): State {
    var text := if newText == "" then s.text else newText;
    var size := |Counted(parse, text)|;
    State(text, size, s.marks.(status := Below(s.marks.status, size)), s.status)
  }

  /** The channel after these slots replace its own. */
  function Relist(parse: string -> Option<seq<string>>, s: State, slots: seq<Slot>): State {
    UpdateOn(parse, s.(marks := MarksOf(slots)), Join(KeysOf(slots), '\n'))
  }

  /** An index the actions accept: they go by the stored count. */
  predicate Accepts(s: State, index: Option<int>) {
    index.Some? && 0 <= index.value < s.size
  }

  function EnabledIn(status: map<int, int>, size: nat): set<int> {
    set i | 0 <= i < size && (i !in status || status[i] == ENABLED)
  }

  function DisabledAt(status: map<int, int>, indices: set<int>): map<int, int> {
    status + map i | i in indices :: MANUALLY_DISABLED
  }

  function MarkedAt(marks: Marks, k: nat, status: int, reason: string, at: int): Marks {
    if status == ENABLED then marks.(status := marks.status - {k})
    else Marks(marks.status[k := status], marks.time[k := at], marks.reason[k := reason])
  }

  /** A relay's report. A channel whose last enabled key goes is disabled itself. */
  function MarkOn(parse: string -> Option<seq<string>>, s: State, usingKey: string, status: int, reason: string,
                  at: int): State
  {
    var keys := GetKeys(parse, s.text);
    if usingKey !in keys then if keys == [] || usingKey == "" then s.(status := status) else s
    else
      var marks := MarkedAt(s.marks, IndexOf(keys, usingKey), status, reason, at);
      s.(marks := marks, status := if !AnyEnabled(Assemble(keys, marks)) then AUTO_DISABLED
                                   else if status == ENABLED then ENABLED else s.status)
  }

  /** The stored channel after a management action. */
  function ManageOn(parse: string -> Option<seq<string>>, s: State, action: Action): State {
    match action
    case DisableKey(index) =>
      if !Accepts(s, index) then s
      else UpdateOn(parse, s.(marks := s.marks.(status := s.marks.status[index.value := MANUALLY_DISABLED])), s.text)
    case EnableKey(index) =>
      if !Accepts(s, index) then s
      else
        var gone := {index.value};
        UpdateOn(parse, s.(marks := Marks(s.marks.status - gone, s.marks.time - gone, s.marks.reason - gone)), s.text)
    case EnableAll => UpdateOn(parse, s.(marks := NO_MARKS), s.text)
    case DisableAll =>
      var enabled := EnabledIn(s.marks.status, s.size);
      if enabled == {} then s
      else UpdateOn(parse, s.(marks := s.marks.(status := DisabledAt(s.marks.status, enabled))), s.text)
    case DeleteKey(index) =>
      if !Accepts(s, index) || Without(SlotsOf(parse, s), index.value) == [] then s
      else Relist(parse, s, Without(SlotsOf(parse, s), index.value))
    case DeleteDisabled =>
      if NoneAuto(SlotsOf(parse, s)) then s else Relist(parse, s, Kept(SlotsOf(parse, s)))
    case Mark(usingKey, status, reason, at) => MarkOn(parse, s, usingKey, status, reason, at)
  }

  /** The text an append stores: what it takes for the existing keys, then the new ones; on a channel without a text
      the input as it is. */
  function AppendedText(parse: string -> Option<seq<string>>, text: string, input: string): string {
    if text == "" then input
    else var existing := ExistingKeys(parse, text); Join(existing + NewKeys(existing, input), '\n')
  }

  function Apply(parse: string -> Option<seq<string>>, s: State, op: Operation): State {
    match op
    case Manage(action) => ManageOn(parse, s, action)
    case Append(input) => UpdateOn(parse, s, AppendedText(parse, s.text, input))
    case Replace(text) => UpdateOn(parse, s, text)
  }

  function RunOn(parse: string -> Option<seq<string>>, s: State, ops: seq<Operation>): State {
    if ops == [] then s else Apply(parse, RunOn(parse, s, ops[..|ops| - 1]), ops[|ops| - 1])
  }

  /** The trimmed lines of the pasted keys. Only empty lines are skipped, and before they are trimmed. */
  function CleanKeys(lines: seq<string>): seq<string> {
    if lines == [] then []
    else
      var front, last := CleanKeys(lines[..|lines| - 1]), lines[|lines| - 1];
      if last == "" then front else front + [TrimSpace(last)]
  }

  function Created(input: string): State {
    var keys := CleanKeys(Split(input, '\n'));
    State(Join(keys, '\n'), |keys|, NO_MARKS, ENABLED)
  }

  predicate AnyEnabled(slots: seq<Slot>) {
    exists i :: 0 <= i < |slots| && slots[i].status == ENABLED
  }

  method HasEnabledKey(keys: seq<string>, marks: Marks) returns (any: bool)
    ensures any <==> AnyEnabled(Assemble(keys, marks))
  {
    ghost var slots := Assemble(keys, marks);
    for i := 0 to |keys|
      invariant forall j :: 0 <= j < i ==> slots[j].status != ENABLED
    {
      if i !in marks.status || marks.status[i] == ENABLED {
        assert slots[i].status == ENABLED;
        return true;
      }
    }
    return false;
  }

  /** What an append takes for the existing keys: a text that starts with a bracket and is no JSON array has none. */
  function ExistingKeys(parse: string -> Option<seq<string>>, text: string): seq<string> {
    if Bracketed(text) then
      if parse(TrimSpace(text)).Some? then parse(TrimSpace(text)).value else []
    else Split(Trim(text, {'\n'}), '\n')
  }

  /** An append sees the keys everything else sees, unless the text starts with a bracket without being a JSON array:
      then it sees none. */
  lemma AppendSeesExactly(parse: string -> Option<seq<string>>, text: string)
    requires text != ""
    ensures ExistingKeys(parse, text) == GetKeys(parse, text) <==> !(Bracketed(text) && parse(TrimSpace(text)).None?)
    ensures Bracketed(text) && parse(TrimSpace(text)).None? ==>
              ExistingKeys(parse, text) == [] && GetKeys(parse, text) != []
  {
  }

  /** The trimmed non-blank lines of an input. */
  method TrimmedLines(lines: seq<string>) returns (trimmed: seq<string>)
    ensures trimmed == TrimNames(lines)
  {
    trimmed := [];
    for i := 0 to |lines|
      invariant trimmed == TrimNames(lines[..i])
    {
      assert lines[..i + 1][..i] == lines[..i];
      var key := TrimSpace(lines[i]);
      if key != "" {
        trimmed := trimmed + [key];
      }
    }
    assert lines[..|lines|] == lines;
  }

  method SeenKeys(existing: seq<string>) returns (seen: set<string>)
    ensures forall key :: key in seen <==> key in TrimNames(existing)
  {
    seen := {};
    for i := 0 to |existing|
      invariant forall key :: key in seen <==> key in TrimNames(existing[..i])
    {
      assert existing[..i + 1][..i] == existing[..i];
      var normalized := TrimSpace(existing[i]);
      if normalized != "" {
        seen := seen + {normalized};
      }
    }
    assert existing[..|existing|] == existing;
  }

  function NotYet(keys: seq<string>, known: seq<string>): seq<string> {
    Filter(Uniq(keys), key => key !in known)
  }

  lemma NotYetNone(known: seq<string>)
    ensures NotYet([], known) == []
  {
  }

  lemma NotYetNew(existing: seq<string>, input: string)
    ensures NewKeys(existing, input) == NotYet(TrimNames(Split(input, '\n')), TrimNames(existing))
  {
    var known := TrimNames(existing);
    FilterSame(Normalize(Split(input, '\n')), key => key !in TrimNames(existing), key => key !in known);
  }

  lemma NotYetNext(keys: seq<string>, i: nat, known: seq<string>)
    requires i < |keys|
    ensures var before := NotYet(keys[..i], known);
            NotYet(keys[..i + 1], known) == if keys[i] in known || keys[i] in before then before else before + [keys[i]]
  {
    assert keys[..i + 1][..i] == keys[..i];
    UniqMembers(keys[..i]);
    FilterMembers(Uniq(keys[..i]), key => key !in known);
  }

  /** The loops that turn the input of an append into the keys it adds. */
  method DedupedKeys(existing: seq<string>, input: string) returns (deduped: seq<string>)
    ensures deduped == NewKeys(existing, input)
  {
    hide TrimSpace, Split, TrimNames, NotYet;
    var lines := Split(input, '\n');
    var newKeys := TrimmedLines(lines);
    var seen := SeenKeys(existing);
    ghost var known := TrimNames(existing);
    deduped := [];
    assert newKeys[..0] == [];
    NotYetNone(known);
    for i := 0 to |newKeys|
      invariant deduped == NotYet(newKeys[..i], known)
      invariant forall key :: key in seen <==> key in known || key in deduped
    {
      NotYetNext(newKeys, i, known);
      TrimmedLine(lines, newKeys[i]);
      var normalized := TrimSpace(newKeys[i]);
      if normalized != "" && normalized !in seen {
        seen := seen + {normalized};
        deduped := deduped + [normalized];
      }
    }
    assert newKeys[..|newKeys|] == newKeys;
    NotYetNew(existing, input);
  }

  lemma AssembleAt(keys: seq<string>, marks: Marks)
    ensures forall i :: 0 <= i < |keys| ==> Assemble(keys, marks)[i] == SlotAt(keys[i], i, marks)
  {
  }

  /** Keys that come from the old list stay holdable. */
  lemma StillHoldable(keys: seq<string>, remaining: seq<string>)
    requires Holdable(keys)
    requires forall i :: 0 <= i < |remaining| ==> remaining[i] in keys
    ensures Holdable(remaining)
  {
  }

  lemma {:induction false} KeptComesFrom(slots: seq<Slot>)
    ensures forall i :: 0 <= i < |Kept(slots)| ==> Kept(slots)[i].key in KeysOf(slots)
  {
    if slots != [] {
      var front := slots[..|slots| - 1];
      KeptComesFrom(front);
      assert KeysOf(slots) == KeysOf(front) + [slots[|slots| - 1].key];
    }
  }

  /** Deleting keys that can be held leaves keys that can be held, and so are read back. */
  lemma DeletesReadBack(parse: string -> Option<seq<string>>, slots: seq<Slot>, action: Action)
    requires Holdable(KeysOf(slots)) && (action.DeleteKey? || action.DeleteDisabled?)
    ensures Holdable(KeysOf(Act(slots, action)))
    ensures Act(slots, action) != [] ==> Joins(parse, KeysOf(Act(slots, action)))
  {
    var keys, after := KeysOf(slots), KeysOf(Act(slots, action));
    KeptComesFrom(slots);
    forall i | 0 <= i < |after|
      ensures after[i] in keys
    {
      if action.DeleteKey? && InRange(slots, action.index) && |slots| > 1 {
        assert after[i] == keys[if i < action.index.value then i else i + 1];
      }
    }
    StillHoldable(keys, after);
    if Act(slots, action) != [] {
      HoldableJoins(parse, after);
    }
  }

  lemma AssembleNothing(keys: seq<string>, marks: Marks)
    requires Within(0, marks)
    ensures Assemble(keys, marks) == FreshAll(keys)
  {
  }

  lemma AssembleKeys(keys: seq<string>, marks: Marks)
    ensures KeysOf(Assemble(keys, marks)) == keys
  {
  }

  lemma {:induction false} KeptAll(slots: seq<Slot>)
    ensures |Kept(slots)| <= |slots|
    ensures |Kept(slots)| == |slots| <==> NoneAuto(slots)
  {
    if slots != [] {
      KeptAll(slots[..|slots| - 1]);
    }
  }

  lemma WithoutNone(k: nat)
    ensures Without([], k) == []
  {
  }

  lemma WithoutGrows(slots: seq<Slot>, i: nat, k: nat)
    requires i < |slots|
    ensures Without(slots[..i + 1], k) == if i == k then Without(slots[..i], k) else Without(slots[..i], k) + [slots[i]]
  {
  }

  /** The loop of delete_key: everything but `keyIndex`, re-indexed. */
  method ReindexWithout(keys: seq<string>, marks: Marks, keyIndex: nat)
    returns (remaining: seq<string>, newMarks: Marks)
    ensures var slots := Without(Assemble(keys, marks), keyIndex);
            remaining == KeysOf(slots) && newMarks == MarksOf(slots) && |remaining| == |slots|
  {
    hide Assemble, Without, KeysOf, MarksOf;
    ghost var slots := Assemble(keys, marks);
    AssembleAt(keys, marks);
    assert Without(slots[..0], keyIndex) == [] by { WithoutNone(keyIndex); }
    RebuildNothing();
    remaining, newMarks := [], Marks(map[], map[], map[]);
    for i := 0 to |keys|
      invariant |Without(slots[..i], keyIndex)| == |remaining|
      invariant remaining == KeysOf(Without(slots[..i], keyIndex))
      invariant newMarks == MarksOf(Without(slots[..i], keyIndex))
    {
      WithoutGrows(slots, i, keyIndex);
      if i != keyIndex {
        var newIndex := |remaining|;
        MarksGrow(Without(slots[..i], keyIndex), slots[i]);
        remaining := remaining + [keys[i]];
        var status := Get(marks.status, i);
        if status == Some(ENABLED) {
          status := None;
        }
        newMarks := newMarks.(status := Put(newMarks.status, newIndex, status));
        newMarks := newMarks.(time := Put(newMarks.time, newIndex, Get(marks.time, i)));
        newMarks := newMarks.(reason := Put(newMarks.reason, newIndex, Get(marks.reason, i)));
      }
    }
    assert slots[..|keys|] == slots;
  }

  lemma RebuildNothing()
    ensures KeysOf([]) == [] && MarksOf([]) == Marks(map[], map[], map[])
  {
  }

  lemma KeptGrows(slots: seq<Slot>, i: nat)
    requires i < |slots|
    ensures Kept(slots[..i + 1]) ==
            if slots[i].status == AUTO_DISABLED then Kept(slots[..i]) else Kept(slots[..i]) + [Tidy(slots[i])]
  {
    assert slots[..i + 1][..i] == slots[..i] && slots[..i + 1][i] == slots[i];
  }

  /** The loop of delete_disabled_keys: everything but the auto-disabled keys, re-indexed. */
  method ReindexKept(keys: seq<string>, marks: Marks)
    returns (remaining: seq<string>, newMarks: Marks,
             deletedCount: nat)
    ensures var slots := Kept(Assemble(keys, marks)); remaining == KeysOf(slots) && newMarks == MarksOf(slots)
    ensures deletedCount + |Kept(Assemble(keys, marks))| == |keys|
  {
    hide Bracketed, Assemble, Kept, KeysOf, MarksOf;
    ghost var slots := Assemble(keys, marks);
    AssembleAt(keys, marks);
    assert Kept(slots[..0]) == [] by { KeptAll(slots[..0]); }
    RebuildNothing();
    remaining, newMarks, deletedCount := [], Marks(map[], map[], map[]), 0;
    for i := 0 to |keys|
      invariant deletedCount + |remaining| == i && |Kept(slots[..i])| == |remaining|
      invariant remaining == KeysOf(Kept(slots[..i])) && newMarks == MarksOf(Kept(slots[..i]))
    {
      KeptGrows(slots, i);
      var current := if i in marks.status then marks.status[i] else ENABLED;
      if current == AUTO_DISABLED {
        deletedCount := deletedCount + 1;
      } else {
        var newIndex := |remaining|;
        MarksGrow(Kept(slots[..i]), Tidy(slots[i]));
        remaining := remaining + [keys[i]];
        if current != ENABLED {
          newMarks := newMarks.(status := newMarks.status[newIndex := current]);
          newMarks := newMarks.(time := Put(newMarks.time, newIndex, Get(marks.time, i)));
          newMarks := newMarks.(reason := Put(newMarks.reason, newIndex, Get(marks.reason, i)));
        }
      }
    }
    assert slots[..|keys|] == slots;
  }

  lemma AssembleMarked(keys: seq<string>, marks: Marks,
                       k: nat, newStatus: int, at: int, why: string)
    requires k < |keys|
    ensures var slots := Assemble(keys, marks);
            && slots[k].key == keys[k]
            && Assemble(keys, marks.(status := marks.status - {k})) == slots[k := slots[k].(status := ENABLED)]
            && Assemble(keys, Marks(marks.status[k := newStatus], marks.time[k := at], marks.reason[k := why])) ==
               slots[k := Slot(keys[k], newStatus, Some(at), Some(why))]
  {
  }

  method FindKey(keys: seq<string>, usingKey: string) returns (keyIndex: int)
    ensures keyIndex == if usingKey in keys then IndexOf(keys, usingKey) else -1
    ensures usingKey in keys <==> IndexOf(keys, usingKey) < |keys|
  {
    keyIndex := -1;
    for i := 0 to |keys|
      invariant keyIndex == -1
      invariant forall j :: 0 <= j < i ==> keys[j] != usingKey
    {
      if keys[i] == usingKey {
        keyIndex := i;
        break;
      }
    }
  }

  function Without(slots: seq<Slot>, k: nat): seq<Slot> {
    if k < |slots| then slots[..k] + slots[k + 1..] else slots
  }

  /** The keys an append adds: the trimmed non-blank lines, first occurrences, not yet listed. */
  function NewKeys(existing: seq<string>, input: string): seq<string> {
    Filter(Normalize(Split(input, '\n')), key => key !in TrimNames(existing))
  }

  lemma TrimmedLine(lines: seq<string>, key: string)
    requires key in TrimNames(lines)
    ensures key != "" && TrimSpace(key) == key
    ensures exists i :: 0 <= i < |lines| && TrimSpace(lines[i]) == key
  {
    TrimNamesMembers(lines);
    TrimmedIsFixed(key);
  }

  /** Appended keys are trimmed, pairwise distinct, new, and can be held. */
  lemma NewKeysFit(existing: seq<string>, input: string)
    ensures var keys := NewKeys(existing, input);
            && Distinct(keys)
            && (forall key :: key in keys <==>
                  key in TrimNames(Split(input, '\n')) && key !in TrimNames(existing))
            && (forall key :: key in keys ==> key != "" && TrimSpace(key) == key)
            && Storable(keys, '\n')
            && ((forall line :: line in Split(input, '\n') ==> !Bracketed(line)) ==> Holdable(keys))
  {
    var lines, keys := Split(input, '\n'), NewKeys(existing, input);
    UniqMembers(TrimNames(lines));
    FilterMembers(Normalize(lines), key => key !in TrimNames(existing));
    FilterDistinct(Normalize(lines), key => key !in TrimNames(existing));
    forall key | key in keys
      ensures key != "" && TrimSpace(key) == key && '\n' !in key
      ensures exists line :: line in lines && TrimSpace(line) == key
    {
      TrimmedLine(lines, key);
      var i :| 0 <= i < |lines| && TrimSpace(lines[i]) == key;
      assert lines[i] in lines;
    }
    forall i | 0 <= i < |keys|
      ensures keys[i] in keys
    {
    }
  }

  /** Whatever the input, an append leaves the existing keys where they are, so every status index still
      names the same key, and reading the new text gives them followed by the added ones. */
  lemma AppendKeepsPrefix(parse: string -> Option<seq<string>>, existing: seq<string>, input: string)
    requires Storable(existing, '\n') && existing != [] && TrimSpace(existing[0]) != "" && !Bracketed(existing[0])
    ensures GetKeys(parse, Join(existing + NewKeys(existing, input), '\n')) == existing + NewKeys(existing, input)
  {
    NewKeysFit(existing, input);
    FirstKeyRoundTrip(parse, existing + NewKeys(existing, input));
  }

  /** Appending the same input again adds nothing. */
  lemma AppendTwice(existing: seq<string>, input: string)
    ensures NewKeys(existing + NewKeys(existing, input), input) == []
  {
    var first := NewKeys(existing, input);
    NewKeysFit(existing, input);
    NewKeysFit(existing + first, input);
    TrimNamesMembers(existing);
    TrimNamesMembers(existing + first);
    NoMembers(NewKeys(existing + first, input));
    forall key | key in TrimNames(Split(input, '\n'))
      ensures key in TrimNames(existing + first)
    {
      TrimmedLine(Split(input, '\n'), key);
      if key in first {
        var i :| 0 <= i < |first| && first[i] == key;
        assert (existing + first)[|existing| + i] == key;
      } else {
        var i :| 0 <= i < |existing| && TrimSpace(existing[i]) == key;
        assert (existing + first)[i] == existing[i];
      }
    }
  }

  // ----- what the status view shows -----

  /** One line of the status view; a disabled key shows its time and reason, an enabled one does not. */
  datatype KeyStatus = KeyStatus(index: nat, status: int, time: int, reason: string)

  function StatusOf(slot: Slot, i: nat): KeyStatus {
    if slot.status != ENABLED then KeyStatus(i, slot.status, slot.time.GetOr(0), slot.reason.GetOr(""))
    else KeyStatus(i, ENABLED, 0, "")
  }

  function Statuses(slots: seq<Slot>): seq<KeyStatus> {
    seq(|slots|, i requires 0 <= i < |slots| => StatusOf(slots[i], i))
  }

  /** What is shown for the i-th key: its status, and unless that is 1 what is kept of its disabling. */
  lemma StatusesMean(slots: seq<Slot>, i: nat)
    requires i < |slots|
    ensures |Statuses(slots)| == |slots|
    ensures Statuses(slots)[i] ==
            KeyStatus(i, slots[i].status,
                      if slots[i].status != 1 && slots[i].time.Some? then slots[i].time.value else 0,
                      if slots[i].status != 1 && slots[i].reason.Some? then slots[i].reason.value else "")
  {
  }

  function Matching(all: seq<KeyStatus>, filter: Option<int>): seq<KeyStatus> {
    if filter.None? then all else Filter(all, (k: KeyStatus) => k.status == filter.value)
  }

  function TotalPages(n: nat, size: nat): nat
    requires size > 0
  {
    if n == 0 then 1 else (n + size - 1) / size
  }

  function Offset(page: nat, size: nat): nat
    requires page > 0
  {
    (page - 1) * size
  }

  function PageOf<T>(all: seq<T>, page: nat, size: nat): seq<T>
    requires page > 0 && size > 0
  {
    var start := Offset(page, size);
    if start >= |all| then []
    else if start + size <= |all| then all[start..start + size]
    else all[start..]
  }

  method CountPages(total: nat, pageSize: nat) returns (totalPages: nat)
    requires pageSize > 0
    ensures totalPages == TotalPages(total, pageSize) && totalPages >= 1
  {
    PagesReach(total, pageSize);
    totalPages := (total + pageSize - 1) / pageSize;
    if totalPages == 0 {
      totalPages := 1;
    }
  }

  method TakePage<T>(filtered: seq<T>, wantedPage: int, pageSize: nat)
    returns (list: seq<T>, page: nat, totalPages: nat)
    requires pageSize > 0
    ensures totalPages == TotalPages(|filtered|, pageSize)
    ensures page == (if wantedPage <= 0 then 1 else if wantedPage <= totalPages then wantedPage else totalPages)
    ensures 1 <= page <= totalPages
    ensures list == PageOf(filtered, page, pageSize)
  {
    hide TotalPages, Offset;
    var total := |filtered|;
    page := if wantedPage <= 0 then 1 else wantedPage;
    totalPages := CountPages(total, pageSize);
    if page > totalPages {
      page := totalPages;
    }
    var start := Offset(page, pageSize);
    var end := start + pageSize;
    if end > total {
      end := total;
    }
    list := [];
    if start < total {
      list := filtered[start..end];
    }
  }

  lemma MatchingNone()
    ensures forall filter :: Matching([], filter) == []
  {
  }

  lemma MatchingGrows(all: seq<KeyStatus>, next: KeyStatus, wanted: int)
    ensures |Matching(all + [next], Some(wanted))| ==
            |Matching(all, Some(wanted))| + if next.status == wanted then 1 else 0
  {
    assert (all + [next])[..|all|] == all;
  }

  method CollectStatuses(keys: seq<string>, marks: Marks)
    returns (all: seq<KeyStatus>, enabled: nat, manual: nat, auto: nat)
    ensures all == Statuses(Assemble(keys, marks))
    ensures enabled == |Matching(all, Some(ENABLED))|
    ensures manual == |Matching(all, Some(MANUALLY_DISABLED))|
    ensures auto == |Matching(all, Some(AUTO_DISABLED))|
  {
    hide Matching;
    all, enabled, manual, auto := [], 0, 0, 0;
    MatchingNone();
    for i := 0 to |keys|
      invariant |all| == i && forall j :: 0 <= j < i ==> all[j] == StatusOf(SlotAt(keys[j], j, marks), j)
      invariant enabled == |Matching(all, Some(ENABLED))|
      invariant manual == |Matching(all, Some(MANUALLY_DISABLED))|
      invariant auto == |Matching(all, Some(AUTO_DISABLED))|
    {
      var current := if i in marks.status then marks.status[i] else ENABLED;
      if current == ENABLED {
        enabled := enabled + 1;
      } else if current == MANUALLY_DISABLED {
        manual := manual + 1;
      } else if current == AUTO_DISABLED {
        auto := auto + 1;
      }
      var shownTime, shownReason := 0, "";
      if current != ENABLED {
        shownTime := if i in marks.time then marks.time[i] else 0;
        shownReason := if i in marks.reason then marks.reason[i] else "";
      }
      var next := KeyStatus(i, current, shownTime, shownReason);
      MatchingGrows(all, next, ENABLED);
      MatchingGrows(all, next, MANUALLY_DISABLED);
      MatchingGrows(all, next, AUTO_DISABLED);
      all := all + [next];
    }
  }

  method SelectStatus(all: seq<KeyStatus>, wanted: int) returns (filtered: seq<KeyStatus>)
    ensures filtered == Matching(all, Some(wanted))
  {
    filtered := [];
    for i := 0 to |all|
      invariant filtered == Matching(all[..i], Some(wanted))
    {
      assert all[..i + 1][..i] == all[..i];
      if all[i].status == wanted {
        filtered := filtered + [all[i]];
      }
    }
    assert all[..|all|] == all;
  }

  lemma PagesReach(n: nat, size: nat)
    requires size > 0
    ensures TotalPages(n, size) >= 1 && TotalPages(n, size) * size >= n
    ensures n > 0 ==> (TotalPages(n, size) - 1) * size < n
    ensures n == 0 ==> TotalPages(n, size) == 1
  {
    if n > 0 {
      var q, r := (n + size - 1) / size, (n + size - 1) % size;
      assert q * size + r == n + size - 1;
    }
  }

  function FirstPages<T>(all: seq<T>, size: nat, k: nat): seq<T>
    requires size > 0
  {
    if k == 0 then [] else FirstPages(all, size, k - 1) + PageOf(all, k, size)
  }

  lemma {:induction false} FirstPagesArePrefix<T>(all: seq<T>, size: nat, k: nat)
    requires size > 0
    ensures FirstPages(all, size, k) == if k * size <= |all| then all[..k * size] else all
  {
    if k > 0 {
      FirstPagesArePrefix(all, size, k - 1);
      assert (k - 1) * size + size == k * size;
    }
  }

  /** Putting all pages after each other gives the whole list, each entry once. */
  lemma PagesCover<T>(all: seq<T>, size: nat)
    requires size > 0
    ensures FirstPages(all, size, TotalPages(|all|, size)) == all
  {
    FirstPagesArePrefix(all, size, TotalPages(|all|, size));
    PagesReach(|all|, size);
  }
}
