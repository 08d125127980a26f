/** What the status view of a multi-key channel shows, as a plain sequence of records, and exactly
    when the operations on the channel behave on it like list operations. */
module MultiKeyView {
  import opened Sequences
  import opened GoStrings
  import opened Names
  import opened MultiKey
  import opened MultiKeyChannel
  import opened MultiKeyEffects
  import opened Wrappers

  datatype Record = Record(key: string, status: int, time: int, reason: string)

  function Show(slot: Slot): Record {
    if slot.status == ENABLED then Record(slot.key, ENABLED, 0, "")
    else Record(slot.key, slot.status, slot.time.GetOr(0), slot.reason.GetOr(""))
  }

  function View(slots: seq<Slot>): seq<Record> {
    seq(|slots|, i requires 0 <= i < |slots| => Show(slots[i]))
  }

  /** The view is what get_key_status shows, with the key in place of its index. */
  lemma ViewIsShown(slots: seq<Slot>, i: nat)
    requires i < |slots|
    ensures |View(slots)| == |slots|
    ensures var shown := Statuses(slots)[i];
            View(slots)[i] == Record(slots[i].key, shown.status, shown.time, shown.reason)
  {
  }

  function RecordKeys(records: seq<Record>): seq<string> {
    seq(|records|, i requires 0 <= i < |records| => records[i].key)
  }

  /** The actions as anyone would write them on a list of records. */
  function Plain(records: seq<Record>, action: Action): seq<Record> {
    match action
    case DisableKey(index) =>
      if index.Some? && 0 <= index.value < |records| then
        records[index.value := records[index.value].(status := MANUALLY_DISABLED)]
      else records
    case EnableKey(index) =>
      if index.Some? && 0 <= index.value < |records| then
        records[index.value := Record(records[index.value].key, ENABLED, 0, "")]
      else records
    case EnableAll => Enabled(RecordKeys(records))
    case DisableAll =>
      seq(|records|, i requires 0 <= i < |records| =>
        if records[i].status == ENABLED then records[i].(status := MANUALLY_DISABLED) else records[i])
    case DeleteKey(index) =>
      if index.Some? && 0 <= index.value < |records| && |records| > 1 then
        records[..index.value] + records[index.value + 1..]
      else records
    case DeleteDisabled => Filter(records, (r: Record) => r.status != AUTO_DISABLED)
    case Mark(usingKey, status, reason, at) =>
      var k := IndexOf(RecordKeys(records), usingKey);
      if k == |records| then records
      else if status == ENABLED then records[k := Record(usingKey, ENABLED, 0, "")]
      else records[k := Record(usingKey, status, at, reason)]
  }

  function Enabled(keys: seq<string>): seq<Record> {
    seq(|keys|, i requires 0 <= i < |keys| => Record(keys[i], ENABLED, 0, ""))
  }

  /** New keys for old ones, place by place; a place that is new is enabled. */
  function Rekeyed(records: seq<Record>, keys: seq<string>): seq<Record> {
    seq(|keys|, i requires 0 <= i < |keys| =>
      if i < |records| then records[i].(key := keys[i]) else Record(keys[i], ENABLED, 0, ""))
  }

  function PlainApply(parse: string -> Option<seq<string>>, records: seq<Record>, op: Operation): seq<Record> {
    match op
    case Manage(action) => Plain(records, action)
    case Append(input) => records + Enabled(NewKeys(RecordKeys(records), input))
    case Replace(text) => if text == "" then records else Rekeyed(records, GetKeys(parse, text))
  }

  /** A time or reason left behind at an enabled key: hidden now, shown again once it is disabled. */
  predicate Leftover(slot: Slot) {
    slot.status == ENABLED && (slot.time.GetOr(0) != 0 || slot.reason.GetOr("") != "")
  }

  predicate AllAuto(slots: seq<Slot>) {
    slots != [] && forall i :: 0 <= i < |slots| ==> slots[i].status == AUTO_DISABLED
  }

  // ----- the actions on slots -----

  /** The two ways in which an action on slots departs from the plain list: it uncovers a leftover, or it
      deletes every key. */
  predicate Uncovers(slots: seq<Slot>, action: Action) {
    match action
    case DisableKey(index) => InRange(slots, index) && Leftover(slots[index.value])
    case DisableAll => exists i :: 0 <= i < |slots| && Leftover(slots[i])
    case DeleteDisabled => AllAuto(slots)
    case _ => false
  }

  lemma {:induction false} KeptShows(slots: seq<Slot>)
    ensures View(Kept(slots)) == Filter(View(slots), (r: Record) => r.status != AUTO_DISABLED)
    ensures Kept(slots) == [] <==> slots == [] || AllAuto(slots)
    ensures NoneAuto(slots) ==> View(Kept(slots)) == View(slots)
  {
    if slots != [] {
      var front := slots[..|slots| - 1];
      KeptShows(front);
      assert View(slots)[..|slots| - 1] == View(front);
      assert AllAuto(slots) <==> (front == [] || AllAuto(front)) && slots[|slots| - 1].status == AUTO_DISABLED;
    }
  }

  lemma ViewKeys(slots: seq<Slot>)
    ensures RecordKeys(View(slots)) == KeysOf(slots)
  {
  }

  lemma DeleteDisabledShows(slots: seq<Slot>)
    ensures View(Act(slots, DeleteDisabled)) == Plain(View(slots), DeleteDisabled) <==> !AllAuto(slots)
    ensures AllAuto(slots) ==>
              && Plain(View(slots), DeleteDisabled) == []
              && View(Act(slots, DeleteDisabled)) == Plain(View(slots), EnableAll)
  {
    KeptShows(slots);
    if AllAuto(slots) {
      assert |View(Act(slots, DeleteDisabled))| == |slots|;
      assert |Plain(View(slots), DeleteDisabled)| == 0;
    }
  }

  lemma DisableShows(slots: seq<Slot>, index: Option<int>)
    ensures View(Act(slots, Action.DisableKey(index))) == Plain(View(slots), Action.DisableKey(index)) <==>
            !Uncovers(slots, Action.DisableKey(index))
  {
    if InRange(slots, index) {
      var i, action := index.value, Action.DisableKey(index);
      assert View(Act(slots, action))[i] == Show(slots[i].(status := MANUALLY_DISABLED));
      assert Plain(View(slots), action)[i] == Show(slots[i]).(status := MANUALLY_DISABLED);
    }
  }

  lemma DisableAllShows(slots: seq<Slot>)
    ensures View(Act(slots, DisableAll)) == Plain(View(slots), DisableAll) <==> !Uncovers(slots, DisableAll)
  {
    var after, plain := View(Act(slots, DisableAll)), Plain(View(slots), DisableAll);
    assert forall i :: 0 <= i < |slots| ==> (after[i] == plain[i] <==> !Leftover(slots[i]));
  }

  lemma MarkShows(slots: seq<Slot>, usingKey: string, status: int, reason: string, at: int)
    ensures var action := Mark(usingKey, status, reason, at); View(Act(slots, action)) == Plain(View(slots), action)
  {
    ViewKeys(slots);
  }

  lemma EnableAllShows(slots: seq<Slot>)
    ensures View(Act(slots, EnableAll)) == Plain(View(slots), EnableAll)
  {
  }

  lemma ActShows(slots: seq<Slot>, action: Action)
    ensures View(Act(slots, action)) == Plain(View(slots), action) <==> !Uncovers(slots, action)
  {
    match action
    case DisableKey(index) => DisableShows(slots, index);
    case DisableAll => DisableAllShows(slots);
    case DeleteDisabled => DeleteDisabledShows(slots);
    case EnableAll => EnableAllShows(slots);
    case Mark(usingKey, status, reason, at) => MarkShows(slots, usingKey, status, reason, at);
    case _ =>
  }

  /** A deletion never leaves the plain list with other keys than the slots, unless it takes all. */
  lemma ActShowsKeys(slots: seq<Slot>, action: Action)
    requires action.DeleteKey? || (action.DeleteDisabled? && !AllAuto(slots))
    ensures RecordKeys(Plain(View(slots), action)) == KeysOf(Act(slots, action))
  {
    ActShows(slots, action);
    ViewKeys(Act(slots, action));
  }

  // ----- the operations on a stored channel -----

  /** No key that is not there is stored as disabled. */
  predicate NoneHidden(marks: Marks, from: nat, to: nat) {
    forall i :: from <= i < to && i in marks.status ==> marks.status[i] == ENABLED
  }

  /** When an operation on a stored channel is the list operation it should be: an action uncovers no leftover, does not
      take all keys at once, and leaves keys that read back; an append likewise. */
  predicate Faithful(parse: string -> Option<seq<string>>, s: State, op: Operation) {
    var slots := SlotsOf(parse, s);
    match op
    case Manage(action) => !Uncovers(slots, action) && Restores(parse, slots, action)
    case Append(input) =>
      Appends(parse, s.text, input) && NoneHidden(s.marks, |slots|, |slots| + |NewKeys(KeysOf(slots), input)|)
    case Replace(text) => text == "" || NoneHidden(s.marks, |slots|, |GetKeys(parse, text)|)
  }

  /** Each operation does to the view of a stored channel what it does to a plain list of records, exactly when it is
      faithful. */
  lemma ViewAgrees(parse: string -> Option<seq<string>>, s: State, op: Operation)
    requires Valid(parse, s)
    ensures View(SlotsOf(parse, Apply(parse, s, op))) == PlainApply(parse, View(SlotsOf(parse, s)), op) <==>
            Faithful(parse, s, op)
  {
    match op
    case Manage(action) => ManageAgrees(parse, s, action);
    case Append(input) => AppendAgrees(parse, s, input);
    case Replace(text) => ReplaceAgrees(parse, s, text);
  }

  lemma ManageAgrees(parse: string -> Option<seq<string>>, s: State, action: Action)
    requires Valid(parse, s)
    ensures View(SlotsOf(parse, ManageOn(parse, s, action))) == Plain(View(SlotsOf(parse, s)), action) <==>
            !Uncovers(SlotsOf(parse, s), action) && Restores(parse, SlotsOf(parse, s), action)
  {
    hide Valid, SlotsOf, ManageOn, Act, Plain, KeysOf, View, RecordKeys, Joins;
    var slots, after := SlotsOf(parse, s), SlotsOf(parse, ManageOn(parse, s, action));
    ActsExactly(parse, s, action);
    ActShows(slots, action);
    if !Restores(parse, slots, action) {
      KeptShows(slots);
      NothingKept(slots);
      ActShowsKeys(slots, action);
      ViewKeys(after);
    }
  }

  lemma NothingKept(slots: seq<Slot>)
    ensures AllAuto(slots) ==> Kept(slots) == []
  {
    KeptShows(slots);
  }

  /** After an update the view shows the keys of the new text with the old marks. */
  lemma RekeyedShows(keys: seq<string>, next: seq<string>, marks: Marks)
    ensures View(Assemble(next, marks)) == Rekeyed(View(Assemble(keys, marks)), next) <==>
            NoneHidden(marks, |keys|, |next|)
  {
    var left, right := View(Assemble(next, marks)), Rekeyed(View(Assemble(keys, marks)), next);
    forall i | 0 <= i < |next|
      ensures left[i] == right[i] <==> i < |keys| || (i in marks.status ==> marks.status[i] == ENABLED)
    {
      assert left[i] == Show(SlotAt(next[i], i, marks));
      assert i < |keys| ==> View(Assemble(keys, marks))[i] == Show(SlotAt(keys[i], i, marks));
    }
  }

  lemma ReplaceAgrees(parse: string -> Option<seq<string>>, s: State, text: string)
    requires Valid(parse, s)
    ensures var op := Replace(text);
            View(SlotsOf(parse, Apply(parse, s, op))) == PlainApply(parse, View(SlotsOf(parse, s)), op) <==>
            Faithful(parse, s, op)
  {
    hide GetKeys, Counted, Assemble, View, Rekeyed, NoneHidden, KeysOf;
    UpdateShows(parse, s, text);
    StoredText(parse, s, text);
    RekeyedShows(GetKeys(parse, s.text), GetKeys(parse, text), s.marks);
    CountCovers(parse, s);
  }

  lemma AppendedRecords(records: seq<Record>, keys: seq<string>, extra: seq<string>)
    requires RecordKeys(records) == keys
    ensures records + Enabled(extra) == Rekeyed(records, keys + extra)
  {
    var left, right := records + Enabled(extra), Rekeyed(records, keys + extra);
    assert |records| == |RecordKeys(records)|;
    assert forall i :: 0 <= i < |records| ==> RecordKeys(records)[i] == records[i].key;
  }

  lemma RekeyedKeys(records: seq<Record>, keys: seq<string>)
    ensures RecordKeys(Rekeyed(records, keys)) == keys
  {
  }

  lemma AppendAgrees(parse: string -> Option<seq<string>>, s: State, input: string)
    requires Valid(parse, s)
    ensures var op := Append(input);
            View(SlotsOf(parse, Apply(parse, s, op))) == PlainApply(parse, View(SlotsOf(parse, s)), op) <==>
            Faithful(parse, s, op)
  {
    hide GetKeys, Assemble, View, Rekeyed, NoneHidden, KeysOf, RecordKeys, Enabled, NewKeys, Appends, AppendedText,
         Valid, UpdateOn;
    var keys, stored := GetKeys(parse, s.text), AppendedText(parse, s.text, input);
    var all := keys + NewKeys(keys, input);
    CountCovers(parse, s);
    ViewKeys(SlotsOf(parse, s));
    UpdateShows(parse, s, stored);
    StoredText(parse, s, stored);
    AppendsExactly(parse, s.text, input);
    AppendedRecords(View(SlotsOf(parse, s)), keys, NewKeys(keys, input));
    RekeyedKeys(View(SlotsOf(parse, s)), all);
    RekeyedShows(keys, all, s.marks);
    var after := GetKeys(parse, UpdateOn(parse, s, stored).text);
    AssembleKeys(after, s.marks);
    ViewKeys(Assemble(after, s.marks));
  }

  /** delete_disabled_keys is the filter on the view if and only if there is nothing to delete, or something is left and
      reads back from the text it is joined to. On a channel whose keys are all auto-disabled it deletes nothing,
      because the empty key text is not stored, and every key comes back enabled. */
  lemma DeleteDisabledAgrees(parse: string -> Option<seq<string>>, s: State)
    requires Valid(parse, s)
    ensures var slots, after := SlotsOf(parse, s), SlotsOf(parse, ManageOn(parse, s, DeleteDisabled));
            && (View(after) == Filter(View(slots), (r: Record) => r.status != AUTO_DISABLED) <==>
                NoneAuto(slots) || (!AllAuto(slots) && Joins(parse, KeysOf(Kept(slots)))))
            && (AllAuto(slots) ==> View(after) == Enabled(RecordKeys(View(slots))))
  {
    hide Valid, SlotsOf, ManageOn, KeysOf, View, RecordKeys, Joins;
    var slots := SlotsOf(parse, s);
    ManageAgrees(parse, s, DeleteDisabled);
    ActsExactly(parse, s, DeleteDisabled);
    KeptShows(slots);
    DeleteDisabledShows(slots);
    NoneOrAll(slots);
  }

  lemma NoneOrAll(slots: seq<Slot>)
    ensures NoneAuto(slots) ==> !AllAuto(slots)
  {
    if slots != [] {
      assert slots[0].status == AUTO_DISABLED || slots[0].status != AUTO_DISABLED;
    }
  }

  // ----- whole runs -----

  /** The view is the plain list before and after every operation. */
  ghost predicate AgreesThroughout(parse: string -> Option<seq<string>>, s: State, records: seq<Record>,
                                   ops: seq<Operation>)
    decreases ops
  {
    && View(SlotsOf(parse, s)) == records
    && (ops != [] ==>
          AgreesThroughout(parse, Apply(parse, s, ops[0]), PlainApply(parse, records, ops[0]), ops[1..]))
  }

  ghost predicate FaithfulThroughout(parse: string -> Option<seq<string>>, s: State, ops: seq<Operation>)
    decreases ops
  {
    ops != [] ==>
      Faithful(parse, s, ops[0]) && FaithfulThroughout(parse, Apply(parse, s, ops[0]), ops[1..])
  }

  /** Under every sequence of management actions, relay reports, appends and replacements the view is the plain list of
      records all along if and only if every operation is faithful where it stands. */
  lemma {:induction false} RunsAgree(parse: string -> Option<seq<string>>, s: State, ops: seq<Operation>)
    requires Valid(parse, s)
    ensures AgreesThroughout(parse, s, View(SlotsOf(parse, s)), ops) <==> FaithfulThroughout(parse, s, ops)
    decreases ops
  {
    if ops != [] {
      hide Valid, Faithful, View, SlotsOf, Apply, PlainApply;
      var next := Apply(parse, s, ops[0]);
      ViewAgrees(parse, s, ops[0]);
      ApplyKeepsValid(parse, s, ops[0]);
      RunsAgree(parse, next, ops[1..]);
      DisagreeAtOnce(parse, next, PlainApply(parse, View(SlotsOf(parse, s)), ops[0]), ops[1..]);
    }
  }

  lemma DisagreeAtOnce(parse: string -> Option<seq<string>>, s: State, records: seq<Record>, ops: seq<Operation>)
    ensures AgreesThroughout(parse, s, records, ops) ==> View(SlotsOf(parse, s)) == records
  {
  }

  lemma {:induction false} RunSplits(parse: string -> Option<seq<string>>, s: State, ops: seq<Operation>)
    requires ops != []
    ensures RunOn(parse, s, ops) == RunOn(parse, Apply(parse, s, ops[0]), ops[1..])
  {
    hide Apply;
    if |ops| == 1 {
      assert ops[..0] == [] && ops[1..] == [];
      assert RunOn(parse, s, ops[..0]) == s;
    } else {
      RunSplits(parse, s, ops[..|ops| - 1]);
      assert ops[..|ops| - 1][1..] == ops[1..][..|ops| - 2];
    }
  }

  function PlainRun(parse: string -> Option<seq<string>>, records: seq<Record>, ops: seq<Operation>): seq<Record>
    decreases ops
  {
    if ops == [] then records else PlainRun(parse, PlainApply(parse, records, ops[0]), ops[1..])
  }

  lemma {:induction false} AgreesAtTheEnd(parse: string -> Option<seq<string>>, s: State, records: seq<Record>,
                                          ops: seq<Operation>)
    requires AgreesThroughout(parse, s, records, ops)
    ensures View(SlotsOf(parse, RunOn(parse, s, ops))) == PlainRun(parse, records, ops)
    decreases ops
  {
    hide Apply, PlainApply, SlotsOf, View;
    if ops != [] {
      RunSplits(parse, s, ops);
      AgreesAtTheEnd(parse, Apply(parse, s, ops[0]), PlainApply(parse, records, ops[0]), ops[1..]);
    }
  }

  /** The channel as an object, after any such run, shows the plain list. */
  method PerformShown(c: Channel, ops: seq<Operation>)
    requires Valid(c.parse, c.Contents())
    modifies c
    ensures Valid(c.parse, c.Contents()) && c.Contents() == RunOn(c.parse, old(c.Contents()), ops)
    ensures FaithfulThroughout(c.parse, old(c.Contents()), ops) ==>
              View(c.Slots()) == PlainRun(c.parse, View(old(c.Slots())), ops)
  {
    hide Valid, FaithfulThroughout, AgreesThroughout, View, Apply;
    ghost var before := c.Contents();
    RunsAgree(c.parse, before, ops);
    RunKeepsValid(c.parse, before, ops);
    if FaithfulThroughout(c.parse, before, ops) {
      AgreesAtTheEnd(c.parse, before, View(SlotsOf(c.parse, before)), ops);
    }
    c.Perform(ops);
  }

  lemma {:induction false} RunKeepsValid(parse: string -> Option<seq<string>>, s: State, ops: seq<Operation>)
    requires Valid(parse, s)
    ensures Valid(parse, RunOn(parse, s, ops))
  {
    if ops != [] {
      RunKeepsValid(parse, s, ops[..|ops| - 1]);
      hide Valid, Apply;
      ApplyKeepsValid(parse, RunOn(parse, s, ops[..|ops| - 1]), ops[|ops| - 1]);
    }
  }

  // ----- where leftovers come from -----

  ghost predicate NoLeftovers(slots: seq<Slot>) {
    forall i :: 0 <= i < |slots| ==> !Leftover(slots[i])
  }

  lemma {:induction false} KeptHasNoLeftovers(slots: seq<Slot>)
    ensures NoLeftovers(Kept(slots))
  {
    if slots != [] {
      KeptHasNoLeftovers(slots[..|slots| - 1]);
    }
  }

  lemma ActLeavesNone(slots: seq<Slot>, action: Action)
    requires NoLeftovers(slots) && !(action.Mark? && action.status == ENABLED)
    ensures NoLeftovers(Act(slots, action))
  {
    KeptHasNoLeftovers(slots);
  }

  /** The count is right, every mark belongs to a listed key, and no enabled key has a time or a reason. */
  ghost predicate Tidied(parse: string -> Option<seq<string>>, s: State) {
    && !EmptyArray(parse, s.text) && Valid(parse, s)
    && Within(|GetKeys(parse, s.text)|, s.marks)
    && NoLeftovers(SlotsOf(parse, s))
  }

  /** Operations that leave the keys they should, do not re-enable a key on a relay's report, and do not shorten the
      list by replacing it. */
  predicate Careful(parse: string -> Option<seq<string>>, s: State, op: Operation) {
    match op
    case Manage(action) => Restores(parse, SlotsOf(parse, s), action) && !(action.Mark? && action.status == ENABLED)
    case Append(input) => Appends(parse, s.text, input) && (s.text == "" ==> !EmptyArray(parse, input))
    case Replace(text) =>
      text == "" || (!EmptyArray(parse, text) && |GetKeys(parse, s.text)| <= |GetKeys(parse, text)|)
  }

  lemma UpdateStaysWithin(parse: string -> Option<seq<string>>, s: State, newText: string, n: nat)
    requires Within(n, s.marks)
    ensures var t := UpdateOn(parse, s, newText);
            n <= |GetKeys(parse, t.text)| ==> Within(|GetKeys(parse, t.text)|, t.marks)
  {
    hide GetKeys, Counted;
  }

  /** A re-enabling relay, a shortening replacement and keys that do not read back are the only sources of leftovers. */
  lemma LeftoversComeFrom(parse: string -> Option<seq<string>>, s: State, op: Operation)
    requires Tidied(parse, s) && Careful(parse, s, op)
    ensures Tidied(parse, Apply(parse, s, op))
  {
    match op
    case Manage(action) => ManageStaysTidied(parse, s, action);
    case Append(input) => UpdateStaysTidied(parse, s, op, AppendedText(parse, s.text, input));
    case Replace(text) => UpdateStaysTidied(parse, s, op, text);
  }

  lemma LongerHasNoLeftovers(keys: seq<string>, next: seq<string>, marks: Marks)
    requires Within(|keys|, marks) && NoLeftovers(Assemble(keys, marks)) && |keys| <= |next|
    ensures NoLeftovers(Assemble(next, marks))
  {
    var old', new' := Assemble(keys, marks), Assemble(next, marks);
    forall i | 0 <= i < |next| ensures !Leftover(new'[i]) {
      assert new'[i] == SlotAt(next[i], i, marks);
      if i < |keys| {
        assert old'[i] == SlotAt(keys[i], i, marks) && !Leftover(old'[i]);
      }
    }
  }

  lemma UpdateStaysTidied(parse: string -> Option<seq<string>>, s: State, op: Operation, newText: string)
    requires Tidied(parse, s) && Careful(parse, s, op)
    requires op == Replace(newText) || (op.Append? && newText == AppendedText(parse, s.text, op.input))
    ensures Tidied(parse, UpdateOn(parse, s, newText))
  {
    assert op.Append? && s.text == "" ==> newText == op.input;
    hide Counted, Assemble, AppendedText, NoLeftovers, Within, Appends, NewKeys, Valid, GetKeys;
    var t := UpdateOn(parse, s, newText);
    if op.Append? {
      AppendsExactly(parse, s.text, op.input);
      if s.text != "" {
        AppendedIsNoEmptyArray(parse, s.text, op.input);
      }
    }
    StoredText(parse, s, newText);
    UpdateIsValid(parse, s, newText);
    UpdateShows(parse, s, newText);
    UpdateStaysWithin(parse, s, newText, |GetKeys(parse, s.text)|);
    LongerHasNoLeftovers(GetKeys(parse, s.text), GetKeys(parse, t.text), s.marks);
  }

  lemma AppendedIsNoEmptyArray(parse: string -> Option<seq<string>>, text: string, input: string)
    requires text != "" && !EmptyArray(parse, text) && Appends(parse, text, input)
    ensures !EmptyArray(parse, AppendedText(parse, text, input))
  {
    AppendsExactly(parse, text, input);
    assert GetKeys(parse, text) != [];
    hide Appends, AppendedText, NewKeys;
  }

  lemma ManageStaysTidied(parse: string -> Option<seq<string>>, s: State, action: Action)
    requires Tidied(parse, s) && Restores(parse, SlotsOf(parse, s), action)
    requires !(action.Mark? && action.status == ENABLED)
    ensures Tidied(parse, ManageOn(parse, s, action))
  {
    var slots := SlotsOf(parse, s);
    ActsExactly(parse, s, action);
    ActLeavesNone(slots, action);
    ManageKeepsValid(parse, s, action);
    ManageStaysWithin(parse, s, action);
    hide EmptyArray, Valid, Within, GetKeys, ManageOn, Act, Restores;
  }

  lemma ManageStaysWithin(parse: string -> Option<seq<string>>, s: State, action: Action)
    requires !EmptyArray(parse, s.text) && Valid(parse, s) && Within(|GetKeys(parse, s.text)|, s.marks)
    requires Restores(parse, SlotsOf(parse, s), action)
    ensures var t := ManageOn(parse, s, action);
            !EmptyArray(parse, t.text) && Within(|GetKeys(parse, t.text)|, t.marks)
  {
    CountCovers(parse, s);
    assert s.size == |GetKeys(parse, s.text)|;
    hide GetKeys, EmptyArray, Counted, Joins, KeysOf, Kept, MarksOf, NoneAuto, Assemble, MarkOn, EnabledIn, DisabledAt,
         UpdateOn, Within;
    match action
    case DeleteKey(index) =>
      if InRange(SlotsOf(parse, s), index) && |SlotsOf(parse, s)| > 1 {
        RelistStaysWithin(parse, s, Without(SlotsOf(parse, s), index.value));
      }
    case DeleteDisabled =>
      if NoneAuto(SlotsOf(parse, s)) {
      } else if Kept(SlotsOf(parse, s)) != [] {
        RelistStaysWithin(parse, s, Kept(SlotsOf(parse, s)));
      } else {
        ClearStaysWithin(parse, s);
      }
    case Mark(usingKey, status, reason, at) => MarkStaysWithin(parse, s, usingKey, status, reason, at);
    case DisableKey(_) => EditStaysWithin(parse, s, action);
    case EnableKey(_) => EditStaysWithin(parse, s, action);
    case EnableAll => EditStaysWithin(parse, s, action);
    case DisableAll => EditStaysWithin(parse, s, action);
  }

  lemma MarkStaysWithin(parse: string -> Option<seq<string>>, s: State, usingKey: string, status: int, reason: string,
                        at: int)
    requires Within(|GetKeys(parse, s.text)|, s.marks)
    ensures var t := MarkOn(parse, s, usingKey, status, reason, at);
            t.text == s.text && Within(|GetKeys(parse, s.text)|, t.marks)
  {
    hide GetKeys, AnyEnabled, Assemble, IndexOf;
    KeyIndexed(GetKeys(parse, s.text), usingKey);
  }

  /** The actions that only change marks. */
  lemma EditStaysWithin(parse: string -> Option<seq<string>>, s: State, action: Action)
    requires action.DisableKey? || action.EnableKey? || action.EnableAll? || action.DisableAll?
    requires s.size == |GetKeys(parse, s.text)| && Within(s.size, s.marks)
    ensures var t := ManageOn(parse, s, action);
            t.text == s.text && Within(|GetKeys(parse, s.text)|, t.marks)
  {
    hide GetKeys, Counted, SlotsOf, Relist, Kept, Without, NoneAuto, MarkOn;
  }

  lemma ClearStaysWithin(parse: string -> Option<seq<string>>, s: State)
    ensures var t := Relist(parse, s, []);
            t.text == s.text && Within(|GetKeys(parse, t.text)|, t.marks)
  {
    RebuildNothing();
    hide GetKeys, Counted;
  }

  lemma RelistStaysWithin(parse: string -> Option<seq<string>>, s: State, slots: seq<Slot>)
    requires Joins(parse, KeysOf(slots))
    ensures var t := Relist(parse, s, slots);
            !EmptyArray(parse, t.text) && Within(|GetKeys(parse, t.text)|, t.marks)
  {
    ReadsBackExactly(parse, KeysOf(slots));
    MarksHold(slots);
    KeysCount(slots);
    assert !EmptyArray(parse, Join(KeysOf(slots), '\n'));
    hide GetKeys, EmptyArray, Counted, Joins, KeysOf, MarksOf, Join;
  }

  /** So the view is the plain list throughout every run that never re-enables a key on a relay's report, never shortens
      the list by replacing it, never deletes all keys at once, and whose keys read back. */
  ghost predicate CarefulThroughout(parse: string -> Option<seq<string>>, s: State, ops: seq<Operation>)
    decreases ops
  {
    ops != [] ==>
      && Careful(parse, s, ops[0]) && !(ops[0] == Manage(DeleteDisabled) && AllAuto(SlotsOf(parse, s)))
      && CarefulThroughout(parse, Apply(parse, s, ops[0]), ops[1..])
  }

  lemma CarefulIsFaithful(parse: string -> Option<seq<string>>, s: State, op: Operation)
    requires Tidied(parse, s) && Careful(parse, s, op)
    ensures Faithful(parse, s, op) <==> !(op == Manage(DeleteDisabled) && AllAuto(SlotsOf(parse, s)))
  {
    hide GetKeys, Joins, EmptyArray, NewKeys, Appends;
    CountCovers(parse, s);
  }

  lemma {:induction false} CarefulRunsAgree(parse: string -> Option<seq<string>>, s: State, ops: seq<Operation>)
    requires Tidied(parse, s) && CarefulThroughout(parse, s, ops)
    ensures FaithfulThroughout(parse, s, ops) && AgreesThroughout(parse, s, View(SlotsOf(parse, s)), ops)
    decreases ops
  {
    RunsAgree(parse, s, ops);
    hide Careful, Faithful, Apply, View, Valid;
    if ops != [] {
      CarefulIsFaithful(parse, s, ops[0]);
      LeftoversComeFrom(parse, s, ops[0]);
      hide Tidied;
      CarefulRunsAgree(parse, Apply(parse, s, ops[0]), ops[1..]);
    }
  }
}
