/** Runs of a multi-key channel at literal inputs whose view is not the plain list of records. */
module MultiKeyExamples {
  import opened Sequences
  import opened GoStrings
  import opened Names
  import opened MultiKey
  import opened MultiKeyEffects
  import opened MultiKeyView
  import opened Wrappers

  /** A key anyone would paste. */
  predicate Ordinary(key: string) {
    key != "" && '\n' !in key && !Bracketed(key) && TrimSpaceAgain(key)
  }

  lemma OrdinaryStart(key: string)
    requires key != "" && key[0] !in SPACES && key[0] != '['
    ensures !Bracketed(key)
  {
    BracketedLeft(key);
  }

  lemma Letters()
    ensures Ordinary("a") && Ordinary("b") && Ordinary("c")
  {
    hide Bracketed;
    OrdinaryStart("a");
    OrdinaryStart("b");
    OrdinaryStart("c");
  }

  lemma JoinTwo(a: string, b: string)
    ensures Join([a], '\n') == a && Join([a, b], '\n') == a + ['\n'] + b
  {
    assert [a, b][1..] == [b];
  }

  lemma JoinThree(a: string, b: string, c: string)
    ensures Join([a, b, c], '\n') == a + ['\n'] + (b + ['\n'] + c)
  {
    JoinTwo(b, c);
    assert [a, b, c][1..] == [b, c];
  }

  lemma JoinedText(parse: string -> Option<seq<string>>, keys: seq<string>)
    requires keys != [] && keys[0] != "" && keys[|keys| - 1] != ""
    requires forall i :: 0 <= i < |keys| ==> '\n' !in keys[i] && !Bracketed(keys[i])
    ensures var text := Join(keys, '\n');
            text != "" && GetKeys(parse, text) == Counted(parse, text) == ExistingKeys(parse, text) == keys
  {
    JoinNotBracketed(keys);
    hide Bracketed, TrimSpace;
    assert Joins(parse, keys);
    ReadsBackExactly(parse, keys);
    AppendSeesExactly(parse, Join(keys, '\n'));
  }

  lemma RunThree(parse: string -> Option<seq<string>>, s: State, records: seq<Record>, a: Operation, b: Operation,
                 c: Operation)
    ensures RunOn(parse, s, [a, b, c]) == Apply(parse, Apply(parse, Apply(parse, s, a), b), c)
    ensures PlainRun(parse, records, [a, b, c]) ==
            PlainApply(parse, PlainApply(parse, PlainApply(parse, records, a), b), c)
  {
    hide Apply, PlainApply;
    assert [a, b, c][..2] == [a, b] && [a, b][..1] == [a] && [a][..0] == [];
    assert [a, b, c][1..] == [b, c] && [b, c][1..] == [c] && [c][1..] == [];
    assert RunOn(parse, s, [a]) == Apply(parse, s, a);
    assert RunOn(parse, s, [a, b]) == Apply(parse, RunOn(parse, s, [a]), b);
    var x, y := PlainApply(parse, records, a), PlainApply(parse, PlainApply(parse, records, a), b);
    assert PlainRun(parse, y, [c]) == PlainApply(parse, y, c);
    assert PlainRun(parse, x, [b, c]) == PlainRun(parse, y, [c]);
  }

  // ----- keys that do not read back -----

  /** The keys "a", "" and "b", the first of them auto-disabled. */
  const FIRST_DOWN := State("a\n\nb", 3, Marks(map[0 := AUTO_DISABLED], map[0 := 7], map[0 := "quota"]), ENABLED)

  const BLANK_FIRST := [Fresh(""), Fresh("b")]

  lemma NoBracket()
    ensures !Bracketed("")
  {
  }

  lemma BlankInTheMiddle(parse: string -> Option<seq<string>>)
    ensures Valid(parse, FIRST_DOWN)
    ensures SlotsOf(parse, FIRST_DOWN) == [Slot("a", AUTO_DISABLED, Some(7), Some("quota"))] + BLANK_FIRST
  {
    hide GetKeys, Counted, Bracketed, Join;
    Letters();
    NoBracket();
    JoinThree("a", "", "b");
    assert "a" + ['\n'] + ("" + ['\n'] + "b") == "a\n\nb";
    JoinedText(parse, ["a", "", "b"]);
  }

  /** A text that starts with a newline has no blank key there. */
  lemma LeadingNewline(parse: string -> Option<seq<string>>, key: string)
    requires Ordinary(key)
    ensures GetKeys(parse, ['\n'] + key) == [key]
  {
    var text := ['\n'] + key;
    assert text[1..] == key;
    BracketedLeft(text);
    BracketedLeft(key);
    assert !Bracketed(text) by { assert TrimLeft(text, SPACES) == TrimLeft(key, SPACES); }
    hide Bracketed, TrimSpace;
    assert key[0] in key && key[|key| - 1] in key;
    TrimKeeps(key, '\n');
    assert TrimLeft(text, {'\n'}) == TrimLeft(key, {'\n'});
    SplitOne(key, '\n');
  }

  lemma BlankSlots()
    ensures KeysOf(BLANK_FIRST) == ["", "b"] && MarksOf(BLANK_FIRST) == NO_MARKS
  {
    assert BLANK_FIRST[..1] == [Fresh("")] && [Fresh("")][..0] == [];
    assert MarksOf([Fresh("")]) == NO_MARKS;
  }

  lemma BlankFirst(parse: string -> Option<seq<string>>, s: State)
    ensures SlotsOf(parse, Relist(parse, s, BLANK_FIRST)) == [Fresh("b")]
  {
    hide GetKeys, Bracketed, Join, KeysOf, Counted, MarksOf;
    Letters();
    JoinTwo("", "b");
    assert "" + ['\n'] + "b" == ['\n'] + "b";
    LeadingNewline(parse, "b");
    BlankSlots();
    UpdateShows(parse, s.(marks := NO_MARKS), ['\n'] + "b");
  }

  lemma DropFirst(down: Slot)
    requires down.status == AUTO_DISABLED
    ensures var slots := [down] + BLANK_FIRST;
            Kept(slots) == Without(slots, 0) == BLANK_FIRST && !NoneAuto(slots) && !AllAuto(slots)
  {
    var slots := [down] + BLANK_FIRST;
    assert slots[0].status == AUTO_DISABLED && slots[1].status == ENABLED;
    assert slots[..2] == [down, Fresh("")] && [down, Fresh("")][..1] == [down] && [down][..0] == [];
    assert Kept([down]) == [];
    assert Kept([down, Fresh("")]) == [Fresh("")];
  }

  /** With the text "a\n\nb" and the first key auto-disabled, deleting the disabled keys, or the first key, leaves
      the one key "b" and not the blank one before it. */
  lemma BlankKeyIsLost(parse: string -> Option<seq<string>>, op: Operation)
    requires op == Manage(DeleteDisabled) || op == Manage(Action.DeleteKey(Some(0)))
    ensures Valid(parse, FIRST_DOWN) && !AllAuto(SlotsOf(parse, FIRST_DOWN))
    ensures View(SlotsOf(parse, Apply(parse, FIRST_DOWN, op))) == [Record("b", ENABLED, 0, "")]
    ensures PlainApply(parse, View(SlotsOf(parse, FIRST_DOWN)), op) ==
            [Record("", ENABLED, 0, ""), Record("b", ENABLED, 0, "")]
  {
    hide SlotsOf, Valid, Relist, Kept, Without, NoneAuto, AllAuto;
    var slots := SlotsOf(parse, FIRST_DOWN);
    BlankInTheMiddle(parse);
    BlankFirst(parse, FIRST_DOWN);
    DropFirst(slots[0]);
    KeptShows(slots);
    assert View(BLANK_FIRST) == [Record("", ENABLED, 0, ""), Record("b", ENABLED, 0, "")];
    assert View(slots)[1..] == View(BLANK_FIRST);
    assert View(slots)[..0] + View(slots)[1..] == View(slots)[1..];
  }

  // ----- marks that outlive their key -----

  lemma OneNewKey(old': string, new': string)
    requires Ordinary(old') && Ordinary(new') && old' != new'
    ensures NewKeys([old'], new') == [new']
  {
    hide Bracketed, TrimSpace, Normalize;
    SplitOne(new', '\n');
    NormalizeFixesClean([new']);
    TrimNamesFixed([old']);
    hide Split, TrimNames;
    FilterAll([new'], key => key !in TrimNames([old']));
  }

  /** A list whose second place holds the past of a key that is or was there. */
  function WithPast(keys: seq<string>, status: map<int, int>): State {
    State(Join(keys, '\n'), |keys|, Marks(status, map[1 := 7], map[1 := "quota"]), ENABLED)
  }

  lemma WithPastShows(parse: string -> Option<seq<string>>, a: string, b: string, status: map<int, int>)
    requires Ordinary(a) && Ordinary(b)
    requires forall i :: i in status ==> i == 1
    ensures var s := WithPast([a, b], status);
            && Valid(parse, s)
            && SlotsOf(parse, s) == [Fresh(a), Slot(b, Get(status, 1).GetOr(ENABLED), Some(7), Some("quota"))]
  {
    hide GetKeys, Counted, Bracketed, Join;
    JoinedText(parse, [a, b]);
  }

  lemma Shortened(parse: string -> Option<seq<string>>, a: string, b: string, status: map<int, int>)
    requires Ordinary(a) && Ordinary(b) && forall i :: i in status ==> i == 1
    ensures Apply(parse, WithPast([a, b], status), Replace(a)) == WithPast([a], map[])
    ensures GetKeys(parse, a) == [a]
  {
    hide GetKeys, Counted, Bracketed, Join;
    JoinTwo(a, b);
    JoinedText(parse, [a]);
  }

  lemma Lengthened(parse: string -> Option<seq<string>>, a: string, c: string)
    requires Ordinary(a) && Ordinary(c) && a != c
    ensures Apply(parse, WithPast([a], map[]), Append(c)) == WithPast([a, c], map[])
  {
    hide GetKeys, Counted, Bracketed, Join, NewKeys, ExistingKeys;
    JoinedText(parse, [a]);
    JoinedText(parse, [a, c]);
    OneNewKey(a, c);
    assert [a] + [c] == [a, c];
  }

  lemma Disabled(parse: string -> Option<seq<string>>, a: string, c: string)
    requires Ordinary(a) && Ordinary(c)
    ensures Apply(parse, WithPast([a, c], map[]), Manage(Action.DisableKey(Some(1)))) ==
            WithPast([a, c], map[1 := MANUALLY_DISABLED])
  {
    hide GetKeys, Counted, Bracketed, Join;
    JoinedText(parse, [a, c]);
  }

  /** What should become of the records. */
  lemma PlainHistory(parse: string -> Option<seq<string>>)
    requires GetKeys(parse, "a") == ["a"] && NewKeys(["a"], "c") == ["c"]
    ensures var records := [Record("a", ENABLED, 0, ""), Record("b", AUTO_DISABLED, 7, "quota")];
            PlainApply(parse, PlainApply(parse, PlainApply(parse, records, Replace("a")), Append("c")),
                       Manage(Action.DisableKey(Some(1)))) ==
            [Record("a", ENABLED, 0, ""), Record("c", MANUALLY_DISABLED, 0, "")]
  {
    hide GetKeys, NewKeys;
    var records := [Record("a", ENABLED, 0, ""), Record("b", AUTO_DISABLED, 7, "quota")];
    var x := PlainApply(parse, records, Replace("a"));
    assert x == [Record("a", ENABLED, 0, "")];
    assert RecordKeys(x) == ["a"];
    assert PlainApply(parse, x, Append("c")) == [Record("a", ENABLED, 0, ""), Record("c", ENABLED, 0, "")];
  }

  /** The key "b" is auto-disabled; the list is replaced by "a" alone, "c" is appended and disabled by hand. It shows
      the time and reason of "b". */
  lemma ShorteningLeavesTrace(parse: string -> Option<seq<string>>)
    ensures var s := WithPast(["a", "b"], map[1 := AUTO_DISABLED]);
            var ops := [Replace("a"), Append("c"), Manage(Action.DisableKey(Some(1)))];
            && Valid(parse, s)
            && View(SlotsOf(parse, RunOn(parse, s, ops))) ==
               [Record("a", ENABLED, 0, ""), Record("c", MANUALLY_DISABLED, 7, "quota")]
            && PlainRun(parse, View(SlotsOf(parse, s)), ops) ==
               [Record("a", ENABLED, 0, ""), Record("c", MANUALLY_DISABLED, 0, "")]
  {
    hide Apply, SlotsOf, Valid, RunOn, PlainRun, PlainApply, WithPast, NewKeys, GetKeys, Ordinary;
    var s := WithPast(["a", "b"], map[1 := AUTO_DISABLED]);
    var records := View(SlotsOf(parse, s));
    Letters();
    WithPastShows(parse, "a", "b", map[1 := AUTO_DISABLED]);
    Shortened(parse, "a", "b", map[1 := AUTO_DISABLED]);
    Lengthened(parse, "a", "c");
    Disabled(parse, "a", "c");
    WithPastShows(parse, "a", "c", map[1 := MANUALLY_DISABLED]);
    OneNewKey("a", "c");
    RunThree(parse, s, records, Replace("a"), Append("c"), Manage(Action.DisableKey(Some(1))));
    assert records == [Record("a", ENABLED, 0, ""), Record("b", AUTO_DISABLED, 7, "quota")];
    PlainHistory(parse);
  }

  lemma ReenabledStates(parse: string -> Option<seq<string>>, key: string)
    requires Ordinary(key)
    ensures var s := State(key, 1, NO_MARKS, ENABLED);
            var down := State(key, 1, Marks(map[0 := AUTO_DISABLED], map[0 := 7], map[0 := "quota"]), AUTO_DISABLED);
            var up := State(key, 1, Marks(map[], map[0 := 7], map[0 := "quota"]), ENABLED);
            var last := State(key, 1, Marks(map[0 := MANUALLY_DISABLED], map[0 := 7], map[0 := "quota"]), ENABLED);
            && Valid(parse, s) && SlotsOf(parse, s) == [Fresh(key)]
            && Apply(parse, s, Manage(Mark(key, AUTO_DISABLED, "quota", 7))) == down
            && Apply(parse, down, Manage(Mark(key, ENABLED, "", 8))) == up
            && Apply(parse, up, Manage(Action.DisableKey(Some(0)))) == last
            && SlotsOf(parse, last) == [Slot(key, MANUALLY_DISABLED, Some(7), Some("quota"))]
  {
    hide GetKeys, Counted, Bracketed, Join;
    JoinTwo(key, key);
    JoinedText(parse, [key]);
    assert IndexOf([key], key) == 0;
    var marks := Marks(map[], map[0 := 7], map[0 := "quota"]);
    assert Assemble([key], marks)[0].status == ENABLED;
  }

  lemma OneKey(records: seq<Record>, key: string)
    requires |records| == 1 && records[0].key == key
    ensures IndexOf(RecordKeys(records), key) == 0
  {
    assert RecordKeys(records) == [key];
  }

  /** A key a relay disabled and later re-enabled shows the old time and reason when it is next disabled by hand. */
  lemma ReenablingLeavesTrace(parse: string -> Option<seq<string>>)
    ensures var s := State("a", 1, NO_MARKS, ENABLED);
            var ops := [Manage(Mark("a", AUTO_DISABLED, "quota", 7)), Manage(Mark("a", ENABLED, "", 8)),
                        Manage(Action.DisableKey(Some(0)))];
            && Valid(parse, s)
            && View(SlotsOf(parse, RunOn(parse, s, ops))) == [Record("a", MANUALLY_DISABLED, 7, "quota")]
            && PlainRun(parse, View(SlotsOf(parse, s)), ops) == [Record("a", MANUALLY_DISABLED, 0, "")]
  {
    hide Apply, SlotsOf, Valid, RunOn, PlainRun, Ordinary;
    var s := State("a", 1, NO_MARKS, ENABLED);
    var first, second := Mark("a", AUTO_DISABLED, "quota", 7), Mark("a", ENABLED, "", 8);
    Letters();
    ReenabledStates(parse, "a");
    var x := View([Fresh("a")]);
    assert x == [Record("a", ENABLED, 0, "")];
    RunThree(parse, s, x, Manage(first), Manage(second), Manage(Action.DisableKey(Some(0))));
    var y := Plain(x, first);
    assert y == [Record("a", AUTO_DISABLED, 7, "quota")] by { OneKey(x, "a"); }
    assert Plain(y, second) == x by { OneKey(y, "a"); }
  }
}
