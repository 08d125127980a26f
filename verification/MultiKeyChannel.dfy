/** The multi-key channel as the object the management actions, relays and updates change in place. */
module MultiKeyChannel {
  import opened Sequences
  import opened GoStrings
  import opened Wrappers
  import opened MultiKey
  import opened MultiKeyEffects

  class Channel {
    const parse: string -> Option<seq<string>>
    var text: string
    var channelStatus: int
    var size: nat
    var statusList: map<int, int>
    var disabledTime: map<int, int>
    var disabledReason: map<int, string>

    function CurrentMarks(): Marks
      reads this
    {
      Marks(statusList, disabledTime, disabledReason)
    }

    ghost function Contents(): State
      reads this
    {
      State(text, size, CurrentMarks(), channelStatus)
    }

    ghost function Slots(): seq<Slot>
      reads this
    {
      SlotsOf(parse, Contents())
    }

    /** The multi_to_single mode of AddChannel for ordinary keys. */
    constructor (parse: string -> Option<seq<string>>, input: string)
      ensures this.parse == parse && Contents() == Created(input)
    {
      var lines := Split(input, '\n');
      var cleanKeys: seq<string> := [];
      assert lines[..0] == [];
      for i := 0 to |lines|
        invariant cleanKeys == CleanKeys(lines[..i])
      {
        assert lines[..i + 1][..i] == lines[..i];
        if lines[i] != "" {
          var key := TrimSpace(lines[i]);
          cleanKeys := cleanKeys + [key];
        }
      }
      assert lines[..|lines|] == lines;
      this.parse := parse;
      size := |cleanKeys|;
      text := Join(cleanKeys, '\n');
      channelStatus := ENABLED;
      statusList, disabledTime, disabledReason := map[], map[], map[];
    }

    method Update(newText: string)
      modifies this
      ensures Contents() == UpdateOn(parse, old(Contents()), newText)
    {
      var keyText := if newText != "" then newText else text;
      var keys: seq<string> := [];
      if keyText != "" {
        if Bracketed(keyText) && parse(TrimSpace(keyText)).Some? {
          keys := parse(TrimSpace(keyText)).value;
        }
        if |keys| == 0 {
          keys := Split(Trim(keyText, {'\n'}), '\n');
        }
      }
      size := |keys|;
      statusList := map i | i in statusList && i < size :: statusList[i];
      if newText != "" {
        text := newText;
      }
    }

    method DisableKey(index: Option<int>) returns (ok: bool)
      modifies this
      ensures Contents() == ManageOn(parse, old(Contents()), Action.DisableKey(index))
      ensures Valid(parse, old(Contents())) ==> Slots() == Act(old(Slots()), Action.DisableKey(index))
      ensures ok == Accepts(old(Contents()), index)
    {
      hide UpdateOn, GetKeys, Counted, Act, Assemble, Valid;
      ActsIfValid(parse, Contents(), Action.DisableKey(index));
      if index.None? || index.value < 0 || index.value >= size {
        return false;
      }
      statusList := statusList[index.value := MANUALLY_DISABLED];
      Update(text);
      ok := true;
    }

    method EnableKey(index: Option<int>) returns (ok: bool)
      modifies this
      ensures Contents() == ManageOn(parse, old(Contents()), Action.EnableKey(index))
      ensures Valid(parse, old(Contents())) ==> Slots() == Act(old(Slots()), Action.EnableKey(index))
      ensures ok == Accepts(old(Contents()), index)
    {
      hide UpdateOn, GetKeys, Counted, Act, Assemble, Valid;
      ActsIfValid(parse, Contents(), Action.EnableKey(index));
      if index.None? || index.value < 0 || index.value >= size {
        return false;
      }
      statusList := statusList - {index.value};
      disabledTime := disabledTime - {index.value};
      disabledReason := disabledReason - {index.value};
      Update(text);
      ok := true;
    }

    method EnableAllKeys()
      modifies this
      ensures Contents() == ManageOn(parse, old(Contents()), EnableAll)
      ensures Valid(parse, old(Contents())) ==> Slots() == Act(old(Slots()), EnableAll)
    {
      hide UpdateOn, GetKeys, Counted, Act, Assemble, Valid;
      ActsIfValid(parse, Contents(), EnableAll);
      statusList, disabledTime, disabledReason := map[], map[], map[];
      Update(text);
    }

    method DisableAllKeys() returns (disabledCount: nat)
      modifies this
      ensures Contents() == ManageOn(parse, old(Contents()), DisableAll)
      ensures Valid(parse, old(Contents())) ==> Slots() == Act(old(Slots()), DisableAll)
      ensures disabledCount == |EnabledIn(old(statusList), old(size))|
    {
      hide UpdateOn, EnabledIn, DisabledAt, GetKeys, Counted, Act, Assemble, Valid;
      ActsIfValid(parse, Contents(), DisableAll);
      disabledCount := 0;
      ghost var before := statusList;
      EnabledNone(before);
      for i := 0 to size
        invariant text == old(text) && size == old(size) && channelStatus == old(channelStatus)
        invariant disabledTime == old(disabledTime) && disabledReason == old(disabledReason)
        invariant statusList == DisabledAt(before, EnabledIn(before, i))
        invariant disabledCount == |EnabledIn(before, i)|
      {
        EnabledNext(before, i);
        var status := if i in statusList then statusList[i] else ENABLED;
        if status == ENABLED {
          statusList := statusList[i := MANUALLY_DISABLED];
          disabledCount := disabledCount + 1;
        }
      }
      if disabledCount != 0 {
        Update(text);
      }
    }

    /** Removal of a slot by rebuilding the maps, unless nothing would be left. */
    method DeleteKey(index: Option<int>) returns (ok: bool)
      modifies this
      ensures Contents() == ManageOn(parse, old(Contents()), Action.DeleteKey(index))
      ensures Valid(parse, old(Contents())) ==>
                (Slots() == Act(old(Slots()), Action.DeleteKey(index)) <==>
                 Restores(parse, old(Slots()), Action.DeleteKey(index)))
      ensures ok == (Accepts(old(Contents()), index) && Without(old(Slots()), index.value) != [])
    {
      hide GetKeys, Join, Assemble, KeysOf, MarksOf, Without, UpdateOn, Counted, Act, Valid, Restores;
      ActsIfValid(parse, Contents(), Action.DeleteKey(index));
      if index.None? || index.value < 0 || index.value >= size {
        return false;
      }
      var remaining, newMarks := ReindexWithout(GetKeys(parse, text), CurrentMarks(), index.value);
      if |remaining| == 0 {
        return false;
      }
      size := |remaining|;
      statusList, disabledTime, disabledReason := newMarks.status, newMarks.time, newMarks.reason;
      RecountForgets(parse, old(Contents()), Contents(), Join(remaining, '\n'));
      Update(Join(remaining, '\n'));
      ok := true;
    }

    /** The auto-disabled slots go by rebuilding the maps; when all do, the text is not stored. */
    method DeleteDisabledKeys() returns (deletedCount: nat)
      modifies this
      ensures Contents() == ManageOn(parse, old(Contents()), DeleteDisabled)
      ensures Valid(parse, old(Contents())) ==>
                (Slots() == Act(old(Slots()), DeleteDisabled) <==> Restores(parse, old(Slots()), DeleteDisabled))
      ensures deletedCount == |old(Slots())| - |Kept(old(Slots()))|
    {
      hide GetKeys, Join, Assemble, Kept, KeysOf, MarksOf, UpdateOn, NoneAuto, Counted, Act, Valid, Restores;
      ActsIfValid(parse, Contents(), DeleteDisabled);
      var keys := GetKeys(parse, text);
      var remaining, newMarks;
      remaining, newMarks, deletedCount := ReindexKept(keys, CurrentMarks());
      KeptAll(Slots());
      if deletedCount == 0 {
        return;
      }
      size := |remaining|;
      statusList, disabledTime, disabledReason := newMarks.status, newMarks.time, newMarks.reason;
      RecountForgets(parse, old(Contents()), Contents(), Join(remaining, '\n'));
      Update(Join(remaining, '\n'));
    }

    /** handlerMultiKeyUpdate. */
    method MarkKey(usingKey: string, status: int, reason: string, now: int)
      modifies this
      ensures Contents() == MarkOn(parse, old(Contents()), usingKey, status, reason, now)
      ensures Slots() == Act(old(Slots()), Mark(usingKey, status, reason, now))
      ensures var keys := GetKeys(parse, old(text));
              channelStatus ==
                if keys == [] then status
                else if usingKey !in keys then if usingKey == "" then status else old(channelStatus)
                else if forall i :: 0 <= i < |Slots()| ==> Slots()[i].status != 1 then 3
                else if status == 1 then 1 else old(channelStatus)
    {
      hide GetKeys, Assemble, IndexOf, AnyEnabled, Act;
      MarksExactly(parse, Contents(), usingKey, status, reason, now);
      StatusAfterReport(parse, Contents(), usingKey, status, reason, now);
      var keys := GetKeys(parse, text);
      if |keys| == 0 {
        channelStatus := status;
        return;
      }
      var keyIndex := FindKey(keys, usingKey);
      if keyIndex < 0 {
        if usingKey != "" {
          return;
        }
        channelStatus := status;
        return;
      }
      if status == ENABLED {
        statusList := statusList - {keyIndex};
      } else {
        statusList := statusList[keyIndex := status];
        disabledReason := disabledReason[keyIndex := reason];
        disabledTime := disabledTime[keyIndex := now];
      }
      var any := HasEnabledKey(keys, CurrentMarks());
      if !any {
        channelStatus := AUTO_DISABLED;
      } else if status == ENABLED {
        channelStatus := ENABLED;
      }
    }

    /** get_key_status: one page of the (filtered) statuses, and the counts over all keys. */
    method KeyStatusPage(wantedPage: int, wantedSize: int, filter: Option<int>)
      returns (list: seq<KeyStatus>, total: nat, page: nat, pageSize: nat, totalPages: nat,
               enabled: nat, manual: nat, auto: nat)
      ensures pageSize == (if wantedSize <= 0 then 50 else wantedSize)
      ensures total == |Matching(Statuses(Slots()), filter)| && totalPages == TotalPages(total, pageSize)
      ensures page == (if wantedPage <= 0 then 1 else if wantedPage <= totalPages then wantedPage else totalPages)
      ensures 1 <= page <= totalPages
      ensures list == PageOf(Matching(Statuses(Slots()), filter), page, pageSize)
      ensures enabled == |Matching(Statuses(Slots()), Some(1))|
      ensures manual == |Matching(Statuses(Slots()), Some(2))|
      ensures auto == |Matching(Statuses(Slots()), Some(3))|
    {
      hide GetKeys, TotalPages, Assemble, Statuses, PageOf, Filter;
      pageSize := if wantedSize <= 0 then DEFAULT_PAGE_SIZE else wantedSize;
      var all: seq<KeyStatus>;
      all, enabled, manual, auto := CollectStatuses(GetKeys(parse, text), CurrentMarks());
      var filtered := all;
      if filter.Some? {
        filtered := SelectStatus(all, filter.value);
      }
      total := |filtered|;
      list, page, totalPages := TakePage(filtered, wantedPage, pageSize);
    }

    /** The append branch of UpdateChannel for ordinary keys, one per input line. */
    method AppendKeys(input: string)
      modifies this
      ensures Contents() == Apply(parse, old(Contents()), Append(input))
      ensures var keys := GetKeys(parse, old(text));
              var new' := NewKeys(keys, input);
              Slots() == old(Slots()) + FreshAll(new') <==>
              Appends(parse, old(text), input) && Unmarked(old(CurrentMarks()), |keys|, |keys| + |new'|)
    {
      hide Join, Split, Trim, UpdateOn, NewKeys, GetKeys, Assemble, Appends, Unmarked, FreshAll;
      AppendSlotsExactly(parse, Contents(), input);
      var newText := input;
      if text != "" {
        var existing: seq<string> := [];
        if Bracketed(text) {
          if parse(TrimSpace(text)).Some? {
            existing := parse(TrimSpace(text)).value;
          }
        } else {
          existing := Split(Trim(text, {'\n'}), '\n');
        }
        var deduped := DedupedKeys(existing, input);
        newText := Join(existing + deduped, '\n');
      }
      Update(newText);
    }

    /** Any operations, one after the other. */
    method Perform(ops: seq<Operation>)
      modifies this
      ensures Contents() == RunOn(parse, old(Contents()), ops)
    {
      hide Apply, ManageOn, UpdateOn;
      assert ops[..0] == [];
      for i := 0 to |ops|
        invariant Contents() == RunOn(parse, old(Contents()), ops[..i])
      {
        assert ops[..i + 1][..i] == ops[..i];
        PerformOne(ops[i]);
      }
      assert ops[..|ops|] == ops;
    }

    method PerformOne(op: Operation)
      modifies this
      ensures Contents() == Apply(parse, old(Contents()), op)
    {
      hide ManageOn, UpdateOn, Act, Valid, GetKeys, Assemble, Restores, Appends, Unmarked;
      match op {
        case Append(input) => AppendKeys(input);
        case Replace(newText) => Update(newText);
        case Manage(action) =>
          match action {
            case DisableKey(index) => var _ := DisableKey(index);
            case EnableKey(index) => var _ := EnableKey(index);
            case EnableAll => EnableAllKeys();
            case DisableAll => var _ := DisableAllKeys();
            case DeleteKey(index) => var _ := DeleteKey(index);
            case DeleteDisabled => var _ := DeleteDisabledKeys();
            case Mark(usingKey, status, reason, at) =>
              MarkKey(usingKey, status, reason, at);
              MarkIsManaged(parse, old(Contents()), usingKey, status, reason, at);
          }
      }
    }
  }

  lemma ActsIfValid(parse: string -> Option<seq<string>>, s: State, action: Action)
    ensures Valid(parse, s) ==>
              (SlotsOf(parse, ManageOn(parse, s, action)) == Act(SlotsOf(parse, s), action) <==>
               Restores(parse, SlotsOf(parse, s), action))
  {
    if Valid(parse, s) {
      ActsExactly(parse, s, action);
    }
  }

  lemma MarkIsManaged(parse: string -> Option<seq<string>>, s: State, usingKey: string, status: int, reason: string,
                      at: int)
    ensures ManageOn(parse, s, Mark(usingKey, status, reason, at)) == MarkOn(parse, s, usingKey, status, reason, at)
  {
  }

  /** What was counted before an update does not matter. */
  lemma RecountForgets(parse: string -> Option<seq<string>>, s: State, t: State, newText: string)
    requires t.text == s.text && t.status == s.status
    ensures UpdateOn(parse, t, newText) == UpdateOn(parse, s.(marks := t.marks), newText)
  {
  }

  lemma EnabledNext(status: map<int, int>, i: nat)
    ensures var enabled, found := EnabledIn(status, i), i !in status || status[i] == ENABLED;
            var now := DisabledAt(status, enabled);
            && (found <==> i !in now || now[i] == ENABLED)
            && EnabledIn(status, i + 1) == (if found then enabled + {i} else enabled) && i !in enabled
            && DisabledAt(status, enabled + {i}) == now[i := MANUALLY_DISABLED]
  {
  }

  lemma EnabledNone(status: map<int, int>)
    ensures EnabledIn(status, 0) == {} && DisabledAt(status, {}) == status
  {
  }
}
