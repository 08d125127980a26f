/** Filling in what the gateway derives for a page of model records: one pass over the price list serves all
    records with a matching rule, one query all exact records, and the result is that of treating each alone. */
module EnrichModels {
  import opened Sequences

  const EXACT := 0
  const PREFIX := 1
  const CONTAINS := 2
  const SUFFIX := 3

  datatype BoundChannel = BoundChannel(name: string, kind: int)
  datatype Pricing = Pricing(model: string, endpoints: seq<string>, groups: seq<string>, quotaType: int)

  /** The text stored for the endpoints: given, or the encoding of a list. */
  datatype Endpoints = Text(text: string) | Encoded(types: seq<string>)

  datatype Model = NoModel | Model(name: string, rule: int, endpoints: Endpoints, bound: seq<BoundChannel>,
                                   groups: seq<string>, quotas: seq<int>, matched: seq<string>, count: int)

  /** The price list, the caches by model name, and the channels bound to each model. */
  datatype Source = Source(pricings: seq<Pricing>, endpoints: map<string, seq<string>>,
                           groups: map<string, seq<string>>, quotas: map<string, int>,
                           bound: map<string, seq<BoundChannel>>)

  // ----- one record at a time -----

  predicate HasSuffix(s: string, part: string) {
    |part| <= |s| && s[|s| - |part|..] == part
  }

  predicate FoundAt(s: string, part: string, i: nat) {
    i + |part| <= |s| && s[i..i + |part|] == part
  }

  predicate Contains(s: string, part: string) {
    exists i :: 0 <= i <= |s| && FoundAt(s, part, i)
  }

  predicate Matches(m: Model, name: string)
    requires m.Model?
  {
    if m.rule == PREFIX then m.name <= name
    else if m.rule == SUFFIX then HasSuffix(name, m.name)
    else m.rule == CONTAINS && Contains(name, m.name)
  }

  /** The price entries a record matches, in their order. */
  function Hits(m: Model, pricings: seq<Pricing>): seq<Pricing>
    requires m.Model?
  {
    Filter(pricings, (p: Pricing) => Matches(m, p.model))
  }

  function Names(hits: seq<Pricing>): seq<string> {
    seq(|hits|, i requires 0 <= i < |hits| => hits[i].model)
  }

  function EndpointsOf(hits: seq<Pricing>): set<string> {
    set p, e | p in hits && e in p.endpoints :: e
  }

  function GroupsOf(hits: seq<Pricing>): set<string> {
    set p, g | p in hits && g in p.groups :: g
  }

  function QuotasOf(hits: seq<Pricing>): set<int> {
    set p | p in hits :: p.quotaType
  }

  function BoundTo(bound: map<string, seq<BoundChannel>>, name: string): seq<BoundChannel> {
    if name in bound then bound[name] else []
  }

  function ChannelsOf(bound: map<string, seq<BoundChannel>>, names: seq<string>): set<BoundChannel> {
    set n, c | n in names && c in BoundTo(bound, n) :: c
  }

  ghost predicate Enumerates<T(!new)>(s: seq<T>, elements: set<T>) {
    (forall x :: x in s <==> x in elements) && forall i, j :: 0 <= i < j < |s| ==> s[i] != s[j]
  }

  ghost predicate Ascending(s: seq<int>) {
    forall i, j :: 0 <= i < j < |s| ==> s[i] < s[j]
  }

  /** What an exact record gets: its own cached entries, and its endpoints unless they were given. */
  ghost predicate EnrichedExact(src: Source, before: Model, after: Model)
    requires before.Model?
  {
    var types := if before.name != "" && before.name in src.endpoints then src.endpoints[before.name] else [];
    after == before.(
      endpoints := if before.endpoints == Text("") then Encoded(types) else before.endpoints,
      bound := BoundTo(src.bound, before.name),
      groups := if before.name != "" && before.name in src.groups then src.groups[before.name] else [],
      quotas := if before.name in src.quotas then [src.quotas[before.name]] else [])
  }

  /** What a record with a rule gets: the unions over the price entries it matches, in any order but the
      quota types in theirs; where there is nothing to unite, the record keeps what it had. */
  ghost predicate EnrichedRule(src: Source, before: Model, after: Model)
    requires before.Model?
  {
    var hits := Hits(before, src.pricings);
    var channels := ChannelsOf(src.bound, Names(hits));
    && after.Model? && after.name == before.name && after.rule == before.rule
    && after.matched == Names(hits) && after.count == |hits|
    && (if hits != [] && before.endpoints == Text("")
        then after.endpoints.Encoded? && Enumerates(after.endpoints.types, EndpointsOf(hits))
        else after.endpoints == before.endpoints)
    && (if hits != [] then Enumerates(after.groups, GroupsOf(hits)) else after.groups == before.groups)
    && (if hits != [] then Enumerates(after.quotas, QuotasOf(hits)) && Ascending(after.quotas)
        else after.quotas == before.quotas)
    && (if channels != {} then Enumerates(after.bound, channels) else after.bound == before.bound)
  }

  ghost predicate Enriched(src: Source, before: Model, after: Model) {
    if before == NoModel then after == NoModel
    else if before.rule == EXACT then EnrichedExact(src, before, after)
    else EnrichedRule(src, before, after)
  }

  // ----- all records together -----

  /** The unions collected per record index. */
  datatype Sets = Sets(names: map<nat, seq<string>>, endpoints: map<nat, set<string>>, groups: map<nat, set<string>>,
                       quotas: map<nat, set<int>>)

  function Elements<T>(s: seq<T>): set<T> {
    set x | x in s
  }

  function AddHit(s: Sets, idx: nat, p: Pricing): Sets {
    Sets(s.names[idx := (if idx in s.names then s.names[idx] else []) + [p.model]],
         s.endpoints[idx := (if idx in s.endpoints then s.endpoints[idx] else {}) + Elements(p.endpoints)],
         s.groups[idx := (if idx in s.groups then s.groups[idx] else {}) + Elements(p.groups)],
         s.quotas[idx := (if idx in s.quotas then s.quotas[idx] else {}) + {p.quotaType}])
  }

  ghost predicate HoldsAt(s: Sets, idx: nat, hits: seq<Pricing>) {
    if hits == [] then idx !in s.names && idx !in s.endpoints && idx !in s.groups && idx !in s.quotas
    else
      && idx in s.names && s.names[idx] == Names(hits)
      && idx in s.endpoints && s.endpoints[idx] == EndpointsOf(hits)
      && idx in s.groups && s.groups[idx] == GroupsOf(hits)
      && idx in s.quotas && s.quotas[idx] == QuotasOf(hits)
  }

  lemma AddHitHolds(s: Sets, idx: nat, hits: seq<Pricing>, p: Pricing)
    requires HoldsAt(s, idx, hits)
    ensures HoldsAt(AddHit(s, idx, p), idx, hits + [p])
  {
    assert Names(hits + [p]) == Names(hits) + [p.model];
    assert EndpointsOf(hits + [p]) == EndpointsOf(hits) + Elements(p.endpoints);
    assert GroupsOf(hits + [p]) == GroupsOf(hits) + Elements(p.groups);
    assert QuotasOf(hits + [p]) == QuotasOf(hits) + {p.quotaType};
  }

  lemma AddHitElsewhere(s: Sets, idx: nat, p: Pricing, other: nat, hits: seq<Pricing>)
    requires other != idx
    ensures HoldsAt(AddHit(s, idx, p), other, hits) <==> HoldsAt(s, other, hits)
  {
  }

  ghost predicate Rules(models: seq<Model>, rules: seq<nat>) {
    && (forall j :: 0 <= j < |rules| ==> rules[j] < |models| && models[rules[j]].Model?)
    && (forall j, k :: 0 <= j < k < |rules| ==> rules[j] != rules[k])
  }

  /** Matches every price entry against every record with a rule. */
  method Collect(models: seq<Model>, rules: seq<nat>, pricings: seq<Pricing>) returns (s: Sets)
    requires Rules(models, rules)
    ensures forall j :: 0 <= j < |rules| ==> HoldsAt(s, rules[j], Hits(models[rules[j]], pricings))
  {
    s := Sets(map[], map[], map[], map[]);
    for k := 0 to |pricings|
      invariant forall j :: 0 <= j < |rules| ==> HoldsAt(s, rules[j], Hits(models[rules[j]], pricings[..k]))
    {
      assert pricings[..k + 1][..k] == pricings[..k];
      for i := 0 to |rules|
        invariant forall j :: 0 <= j < i ==> HoldsAt(s, rules[j], Hits(models[rules[j]], pricings[..k + 1]))
        invariant forall j :: i <= j < |rules| ==> HoldsAt(s, rules[j], Hits(models[rules[j]], pricings[..k]))
      {
        hide HoldsAt, Matches, AddHit;
        var p, m := pricings[k], models[rules[i]];
        if Matches(m, p.model) {
          AddHitHolds(s, rules[i], Hits(m, pricings[..k]), p);
          forall j | 0 <= j < |rules| && j != i
            ensures forall hits :: HoldsAt(AddHit(s, rules[i], p), rules[j], hits) <==> HoldsAt(s, rules[j], hits)
          {
            forall hits ensures HoldsAt(AddHit(s, rules[i], p), rules[j], hits) <==> HoldsAt(s, rules[j], hits) {
              AddHitElsewhere(s, rules[i], p, rules[j], hits);
            }
          }
          s := AddHit(s, rules[i], p);
        }
      }
    }
    assert pricings[..|pricings|] == pricings;
  }

  // ----- the key under which channels are told apart -----

  function Digits(n: nat): (s: string)
    ensures s != "" && forall c :: c in s ==> '0' <= c <= '9'
  {
    if n < 10 then [('0' as int + n) as char] else Digits(n / 10) + [('0' as int + n % 10) as char]
  }

  function Itoa(n: int): string {
    if n < 0 then "-" + Digits(-n) else Digits(n)
  }

  function ValueOf(s: string): int {
    if s == "" then 0 else ValueOf(s[..|s| - 1]) * 10 + s[|s| - 1] as int - '0' as int
  }

  lemma {:induction false} DigitsBack(n: nat)
    ensures ValueOf(Digits(n)) == n
  {
    if n >= 10 {
      DigitsBack(n / 10);
      assert Digits(n)[..|Digits(n)| - 1] == Digits(n / 10);
    }
  }

  lemma ItoaLooks(n: int)
    ensures |Itoa(n)| > 0 && (Itoa(n)[0] == '-' <==> n < 0) && '_' !in Itoa(n)
    ensures ValueOf(if n < 0 then Itoa(n)[1..] else Itoa(n)) == if n < 0 then -n else n
  {
    DigitsBack(if n < 0 then -n else n);
    assert n >= 0 ==> Itoa(n)[0] in Itoa(n);
  }

  lemma ItoaInjective(a: int, b: int)
    requires Itoa(a) == Itoa(b)
    ensures a == b
  {
    ItoaLooks(a);
    ItoaLooks(b);
  }

  function Key(c: BoundChannel): string {
    c.name + "_" + Itoa(c.kind)
  }

  /** The last underscore of a key is the one put there. */
  lemma LastUnderscore(c: BoundChannel)
    ensures |Key(c)| > |c.name| && Key(c)[|c.name|] == '_' && Key(c)[..|c.name|] == c.name
    ensures Key(c)[|c.name| + 1..] == Itoa(c.kind)
    ensures forall k :: |c.name| < k < |Key(c)| ==> Key(c)[k] != '_'
  {
    ItoaLooks(c.kind);
    hide Itoa;
    forall k | |c.name| < k < |Key(c)| ensures Key(c)[k] != '_' {
      assert Key(c)[k] == Itoa(c.kind)[k - |c.name| - 1];
    }
  }

  /** Even for names with underscores and digits in them, no two channels share a key. */
  lemma KeyInjective(c: BoundChannel, d: BoundChannel)
    requires Key(c) == Key(d)
    ensures c == d
  {
    hide Key, Itoa;
    LastUnderscore(c);
    LastUnderscore(d);
    assert |c.name| == |d.name|;
    ItoaInjective(c.kind, d.kind);
  }

  lemma MoreChannels(bound: map<string, seq<BoundChannel>>, names: seq<string>, k: nat)
    requires k < |names|
    ensures ChannelsOf(bound, names[..k + 1]) == ChannelsOf(bound, names[..k]) + Elements(BoundTo(bound, names[k]))
  {
    assert names[..k + 1] == names[..k] + [names[k]];
  }

  /** Every channel filed under its key, and nothing else. */
  ghost predicate Filed(byKey: map<string, BoundChannel>, channels: set<BoundChannel>) {
    && (forall key :: key in byKey ==> Key(byKey[key]) == key && byKey[key] in channels)
    && (forall c :: c in channels ==> Key(c) in byKey)
  }

  method FileRow(byKey: map<string, BoundChannel>, row: seq<BoundChannel>, ghost channels: set<BoundChannel>)
    returns (filed: map<string, BoundChannel>)
    requires Filed(byKey, channels)
    ensures Filed(filed, channels + Elements(row))
  {
    hide Key;
    filed := byKey;
    for i := 0 to |row|
      invariant Filed(filed, channels + Elements(row[..i]))
    {
      assert row[..i + 1] == row[..i] + [row[i]];
      filed := filed[Key(row[i]) := row[i]];
    }
    assert row[..|row|] == row;
  }

  /** The channels of all these models, each once. */
  method UniteChannels(bound: map<string, seq<BoundChannel>>, names: seq<string>) returns (channels: seq<BoundChannel>)
    ensures Enumerates(channels, ChannelsOf(bound, names))
  {
    var byKey: map<string, BoundChannel> := map[];
    for k := 0 to |names|
      invariant Filed(byKey, ChannelsOf(bound, names[..k]))
    {
      MoreChannels(bound, names, k);
      byKey := FileRow(byKey, BoundTo(bound, names[k]), ChannelsOf(bound, names[..k]));
    }
    assert names[..|names|] == names;
    channels := ListFiled(byKey, ChannelsOf(bound, names));
  }

  method ListFiled(byKey: map<string, BoundChannel>, ghost channels: set<BoundChannel>) returns (s: seq<BoundChannel>)
    requires Filed(byKey, channels)
    ensures Enumerates(s, channels)
  {
    hide Key;
    s := [];
    var keys := byKey.Keys;
    while keys != {}
      invariant keys <= byKey.Keys
      invariant forall c :: c in s <==> c in channels && Key(c) !in keys
      invariant forall i, j :: 0 <= i < j < |s| ==> s[i] != s[j]
    {
      var key :| key in keys;
      keys := keys - {key};
      forall c | c in channels && Key(c) == key ensures c == byKey[key] {
        KeyInjective(c, byKey[key]);
      }
      s := s + [byKey[key]];
    }
  }

  // ----- sets as lists -----

  /** In no particular order, as a range over a map gives them. */
  method ListOf(elements: set<string>) returns (s: seq<string>)
    ensures Enumerates(s, elements)
  {
    s := [];
    var rest := elements;
    while rest != {}
      invariant rest <= elements && Enumerates(s, elements - rest)
    {
      var x :| x in rest;
      rest := rest - {x};
      s := s + [x];
    }
  }

  /** The insertion step: what was before the place stays before it. */
  function InsertAt(s: seq<int>, i: nat, x: int): seq<int>
    requires i <= |s|
  {
    s[..i] + [x] + s[i..]
  }

  lemma InsertAscending(s: seq<int>, i: nat, x: int)
    requires Ascending(s) && i <= |s|
    requires (forall j :: 0 <= j < i ==> s[j] < x) && (i < |s| ==> x < s[i])
    ensures Ascending(InsertAt(s, i, x))
    ensures forall y :: y in InsertAt(s, i, x) <==> y in s || y == x
  {
    var t := InsertAt(s, i, x);
    assert forall j :: 0 <= j < |t| ==> t[j] == if j < i then s[j] else if j == i then x else s[j - 1];
    forall y ensures y in t <==> y in s || y == x {
      if y in s {
        var j :| 0 <= j < |s| && s[j] == y;
        assert t[if j < i then j else j + 1] == y;
      }
      assert t[i] == x;
    }
  }

  method InsertSorted(s: seq<int>, x: int) returns (t: seq<int>)
    requires Ascending(s) && x !in s
    ensures Ascending(t) && forall y :: y in t <==> y in s || y == x
  {
    var i := 0;
    while i < |s| && s[i] < x
      invariant 0 <= i <= |s| && forall j :: 0 <= j < i ==> s[j] < x
    {
      i := i + 1;
    }
    assert i < |s| ==> s[i] in s;
    InsertAscending(s, i, x);
    t := InsertAt(s, i, x);
  }

  lemma NotEmpty(s: set<int>)
    ensures s == {} || exists x :: x in s
  {
    if forall x :: x !in s {
      assert s == {};
    }
  }

  method SortedInts(elements: set<int>) returns (s: seq<int>)
    ensures Enumerates(s, elements) && Ascending(s)
  {
    s := [];
    var rest := elements;
    while rest != {}
      invariant rest <= elements
      invariant forall y :: y in s <==> y in elements && y !in rest
      invariant Ascending(s)
    {
      NotEmpty(rest);
      var x :| x in rest;
      rest := rest - {x};
      s := InsertSorted(s, x);
    }
  }

  // ----- writing back -----

  function Batch(bound: map<string, seq<BoundChannel>>, names: set<string>): map<string, seq<BoundChannel>> {
    map n | n in names && n in bound :: bound[n]
  }

  lemma BatchIsEnough(bound: map<string, seq<BoundChannel>>, names: seq<string>, asked: set<string>)
    requires forall n :: n in names ==> n in asked
    ensures ChannelsOf(Batch(bound, asked), names) == ChannelsOf(bound, names)
  {
    forall n | n in names ensures BoundTo(Batch(bound, asked), n) == BoundTo(bound, n) {
    }
  }

  method FillExact(src: Source, m: Model, channels: map<string, seq<BoundChannel>>) returns (filled: Model)
    requires m.Model? && BoundTo(channels, m.name) == BoundTo(src.bound, m.name)
    ensures EnrichedExact(src, m, filled)
  {
    filled := m;
    if m.endpoints == Text("") {
      var types := if m.name != "" && m.name in src.endpoints then src.endpoints[m.name] else [];
      filled := filled.(endpoints := Encoded(types));
    }
    filled := filled.(bound := BoundTo(channels, m.name),
                      groups := if m.name != "" && m.name in src.groups then src.groups[m.name] else [],
                      quotas := if m.name in src.quotas then [src.quotas[m.name]] else []);
  }

  method FillRule(src: Source, idx: nat, m: Model, s: Sets, channels: map<string, seq<BoundChannel>>)
    returns (filled: Model)
    requires m.Model? && HoldsAt(s, idx, Hits(m, src.pricings))
    requires ChannelsOf(channels, Names(Hits(m, src.pricings))) == ChannelsOf(src.bound, Names(Hits(m, src.pricings)))
    ensures EnrichedRule(src, m, filled)
  {
    filled := m;
    if idx in s.endpoints && m.endpoints == Text("") {
      var types := ListOf(s.endpoints[idx]);
      filled := filled.(endpoints := Encoded(types));
    }
    if idx in s.groups {
      var groups := ListOf(s.groups[idx]);
      filled := filled.(groups := groups);
    }
    if idx in s.quotas {
      var quotas := SortedInts(s.quotas[idx]);
      filled := filled.(quotas := quotas);
    }
    var names := if idx in s.names then s.names[idx] else [];
    var bound := UniteChannels(channels, names);
    if |bound| > 0 {
      filled := filled.(bound := bound);
      assert bound[0] in bound;
    }
    filled := filled.(matched := names, count := |names|);
  }

  predicate IsExact(m: Model) {
    m.Model? && m.rule == EXACT
  }

  predicate IsRule(m: Model) {
    m.Model? && m.rule != EXACT
  }

  /** The names of the exact records, and the indices of the others, ascending. */
  method Split(models: seq<Model>) returns (exact: set<string>, rules: seq<nat>)
    ensures forall k :: 0 <= k < |models| && IsExact(models[k]) ==> models[k].name in exact
    ensures forall k :: k in rules <==> 0 <= k < |models| && IsRule(models[k])
    ensures Rules(models, rules)
  {
    exact, rules := {}, [];
    for i := 0 to |models|
      invariant forall k :: 0 <= k < i && IsExact(models[k]) ==> models[k].name in exact
      invariant forall k :: k in rules <==> 0 <= k < i && IsRule(models[k])
      invariant forall k, l :: 0 <= k < l < |rules| ==> rules[k] < rules[l]
    {
      if models[i].Model? {
        if models[i].rule == EXACT {
          exact := exact + {models[i].name};
        } else {
          assert forall k :: 0 <= k < |rules| ==> rules[k] in rules;
          rules := rules + [i];
        }
      }
    }
    assert forall k :: 0 <= k < |rules| ==> rules[k] in rules;
  }

  method FillAllExact(src: Source, models: array<Model>, exact: set<string>)
    requires forall k :: 0 <= k < models.Length && IsExact(models[k]) ==> models[k].name in exact
    modifies models
    ensures forall k :: 0 <= k < models.Length ==>
              if IsExact(old(models[k])) then Enriched(src, old(models[k]), models[k]) else models[k] == old(models[k])
  {
    hide EnrichedExact;
    var channels := Batch(src.bound, exact);
    for i := 0 to models.Length
      invariant forall k :: 0 <= k < i ==>
                  if IsExact(old(models[k])) then Enriched(src, old(models[k]), models[k])
                  else models[k] == old(models[k])
      invariant forall k :: i <= k < models.Length ==> models[k] == old(models[k])
    {
      if models[i].Model? && models[i].rule == EXACT {
        models[i] := FillExact(src, models[i], channels);
      }
    }
  }

  method FillAllRules(src: Source, models: array<Model>, rules: seq<nat>)
    requires Rules(models[..], rules) && forall j :: 0 <= j < |rules| ==> IsRule(models[rules[j]])
    modifies models
    ensures forall j :: 0 <= j < |rules| ==> Enriched(src, old(models[rules[j]]), models[rules[j]])
    ensures forall k :: 0 <= k < models.Length && k !in rules ==> models[k] == old(models[k])
  {
    hide EnrichedRule, HoldsAt, Hits;
    var s := Collect(models[..], rules, src.pricings);
    var asked := set j, n | 0 <= j < |rules| && rules[j] in s.names && n in s.names[rules[j]] :: n;
    var channels := Batch(src.bound, asked);
    for i := 0 to |rules|
      invariant forall j :: 0 <= j < i ==> Enriched(src, old(models[rules[j]]), models[rules[j]])
      invariant forall j :: i <= j < |rules| ==> models[rules[j]] == old(models[rules[j]])
      invariant forall k :: 0 <= k < models.Length && k !in rules ==> models[k] == old(models[k])
    {
      var idx, m := rules[i], models[rules[i]];
      assert HoldsAt(s, rules[i], Hits(old(models[..])[rules[i]], src.pricings));
      AskedFor(s, rules, i, Hits(m, src.pricings));
      BatchIsEnough(src.bound, Names(Hits(m, src.pricings)), asked);
      var filled := FillRule(src, idx, m, s, channels);
      models[idx] := filled;
    }
  }

  lemma AskedFor(s: Sets, rules: seq<nat>, i: nat, hits: seq<Pricing>)
    requires i < |rules| && HoldsAt(s, rules[i], hits)
    ensures var asked := set j, n | 0 <= j < |rules| && rules[j] in s.names && n in s.names[rules[j]] :: n;
            forall n :: n in Names(hits) ==> n in asked
  {
  }

  /** Exact records first, then all records with a rule: together as if each had been treated alone. */
  method Enrich(src: Source, models: array<Model>)
    modifies models
    ensures forall i :: 0 <= i < models.Length ==> Enriched(src, old(models[i]), models[i])
  {
    hide EnrichedExact, EnrichedRule;
    var exact, rules := Split(models[..]);
    FillAllExact(src, models, exact);
    if |rules| == 0 {
      return;
    }
    assert forall j :: 0 <= j < |rules| ==> rules[j] in rules;
    FillAllRules(src, models, rules);
  }

  // ----- how much the contract leaves open -----

  lemma {:induction false} EnumeratedOnce<T(!new)>(s: seq<T>, elements: set<T>)
    requires Enumerates(s, elements)
    ensures multiset(s) == multiset(elements)
  {
    if s == [] {
      assert elements == {};
    } else {
      var front, x := s[..|s| - 1], s[|s| - 1];
      assert s == front + [x];
      forall y ensures y in front <==> y in elements - {x} {
        if y in front {
          var i :| 0 <= i < |front| && front[i] == y;
          assert s[i] != s[|s| - 1];
        }
      }
      EnumeratedOnce(front, elements - {x});
      assert elements == elements - {x} + {x};
    }
  }

  lemma LastIsGreatest(s: seq<int>)
    requires Ascending(s) && s != []
    ensures Ascending(s[..|s| - 1]) && forall x :: x in s ==> x <= s[|s| - 1]
    ensures forall x :: x in s[..|s| - 1] <==> x in s && x != s[|s| - 1]
  {
    assert s == s[..|s| - 1] + [s[|s| - 1]];
    assert forall i :: 0 <= i < |s| - 1 ==> s[..|s| - 1][i] == s[i];
  }

  lemma Moves(s: seq<int>, t: seq<int>, i: nat)
    requires (forall x :: x in s ==> x in t) && i < |s|
    ensures s[i] in t && t != []
  {
    var x := s[i];
    assert x in s;
    assert x in t;
  }

  lemma {:induction false} AscendingIsUnique(s: seq<int>, t: seq<int>)
    requires Ascending(s) && Ascending(t) && forall x :: x in s <==> x in t
    ensures s == t
  {
    hide Ascending;
    if s != [] {
      Moves(s, t, |s| - 1);
    }
    if t != [] {
      Moves(t, s, |t| - 1);
      LastIsGreatest(s);
      LastIsGreatest(t);
      var a, b, front, rest := s[|s| - 1], t[|t| - 1], s[..|s| - 1], t[..|t| - 1];
      assert b <= a && a <= b;
      forall x ensures x in front <==> x in rest {
        assert x in s <==> x in t;
        assert x in front <==> x in s && x != a;
        assert x in rest <==> x in t && x != b;
      }
      AscendingIsUnique(front, rest);
      assert s == front + [a] && t == rest + [b];
    }
  }

  /** Two results for the same record differ at most in the order of endpoints, groups and channels. */
  lemma EnrichedIsDetermined(src: Source, before: Model, x: Model, y: Model)
    requires before.Model? && Enriched(src, before, x) && Enriched(src, before, y)
    ensures (x.name, x.rule, x.matched, x.count, x.quotas) == (y.name, y.rule, y.matched, y.count, y.quotas)
    ensures multiset(x.groups) == multiset(y.groups) && multiset(x.bound) == multiset(y.bound)
    ensures x.endpoints == y.endpoints ||
            (x.endpoints.Encoded? && y.endpoints.Encoded? && multiset(x.endpoints.types) == multiset(y.endpoints.types))
  {
    if before.rule != EXACT {
      var hits := Hits(before, src.pricings);
      var channels := ChannelsOf(src.bound, Names(hits));
      hide Enumerates, Ascending, Hits, ChannelsOf, EndpointsOf, GroupsOf, QuotasOf;
      if hits != [] {
        EnumeratedOnce(x.groups, GroupsOf(hits));
        EnumeratedOnce(y.groups, GroupsOf(hits));
        SameMembers(x.quotas, y.quotas, QuotasOf(hits));
        AscendingIsUnique(x.quotas, y.quotas);
        if before.endpoints == Text("") {
          EnumeratedOnce(x.endpoints.types, EndpointsOf(hits));
          EnumeratedOnce(y.endpoints.types, EndpointsOf(hits));
        }
      }
      if channels != {} {
        EnumeratedOnce(x.bound, channels);
        EnumeratedOnce(y.bound, channels);
      }
    }
  }

  lemma SameMembers(s: seq<int>, t: seq<int>, elements: set<int>)
    requires Enumerates(s, elements) && Enumerates(t, elements)
    ensures forall x :: x in s <==> x in t
  {
  }

  /** A record with a rule is matched by exactly those entries of the price list, and no unknown rule matches. */
  lemma HitsExactly(m: Model, pricings: seq<Pricing>, p: Pricing)
    requires m.Model?
    ensures p in Hits(m, pricings) <==> p in pricings && Matches(m, p.model)
    ensures m.rule !in {PREFIX, CONTAINS, SUFFIX} ==> Hits(m, pricings) == []
  {
    var keep := (p: Pricing) => Matches(m, p.model);
    FilterMembers(pricings, keep);
    NoMembers(Hits(m, pricings));
  }

  // ----- the rules and the unions, name by name -----

  lemma SuffixMeans(name: string, part: string)
    ensures HasSuffix(name, part) <==> exists front :: name == front + part
  {
    if HasSuffix(name, part) {
      assert name == name[..|name| - |part|] + part;
    }
    if front :| name == front + part {
      assert name[|name| - |part|..] == part;
    }
  }

  lemma PrefixMeans(name: string, part: string)
    ensures part <= name <==> exists rest :: name == part + rest
  {
    if part <= name {
      assert name == part + name[|part|..];
    }
  }

  predicate Around(name: string, front: string, part: string, rest: string) {
    name == front + part + rest
  }

  lemma ContainsMeans(name: string, part: string)
    ensures Contains(name, part) <==> exists front, rest :: Around(name, front, part, rest)
  {
    if Contains(name, part) {
      var i :| 0 <= i <= |name| && FoundAt(name, part, i);
      assert Around(name, name[..i], part, name[i + |part|..]);
    }
    if front, rest :| Around(name, front, part, rest) {
      assert name[|front|..|front| + |part|] == part;
      assert FoundAt(name, part, |front|);
    }
  }

  /** What the three rules mean: the name of the record begins the name of the entry, is somewhere in it, or ends it. */
  lemma RulesMean(m: Model, name: string)
    requires m.Model?
    ensures Matches(m, name) <==>
            || (m.rule == 1 && exists rest :: name == m.name + rest)
            || (m.rule == 2 && exists front, rest :: Around(name, front, m.name, rest))
            || (m.rule == 3 && exists front :: name == front + m.name)
  {
    PrefixMeans(name, m.name);
    ContainsMeans(name, m.name);
    SuffixMeans(name, m.name);
    hide HasSuffix, Contains, Around;
  }

  /** Some entry of the price list that the record matches satisfies this. */
  ghost predicate SomeHit(m: Model, pricings: seq<Pricing>, has: Pricing -> bool)
    requires m.Model?
  {
    exists p :: p in pricings && Matches(m, p.model) && has(p)
  }

  /** A record with a rule, member by member. */
  lemma RuleRecord(src: Source, before: Model, after: Model)
    requires before.Model? && before.rule != 0 && Enriched(src, before, after)
    ensures after.Model? && (after.name, after.rule) == (before.name, before.rule)
    ensures after.matched == Names(Filter(src.pricings, (p: Pricing) => Matches(before, p.model)))
    ensures after.count == |after.matched|
    ensures var some := SomeHit(before, src.pricings, p => true);
            && (some && before.endpoints == Text("") ==> after.endpoints.Encoded? && forall e ::
                  e in after.endpoints.types <==> SomeHit(before, src.pricings, (p: Pricing) => e in p.endpoints))
            && (!(some && before.endpoints == Text("")) ==> after.endpoints == before.endpoints)
            && (some ==> forall g ::
                  g in after.groups <==> SomeHit(before, src.pricings, (p: Pricing) => g in p.groups))
            && (some ==> Ascending(after.quotas) && forall q ::
                  q in after.quotas <==> SomeHit(before, src.pricings, (p: Pricing) => p.quotaType == q))
            && (!some ==> after.groups == before.groups && after.quotas == before.quotas)
            && (forall c :: c in after.bound <==> if HasChannel(src, before) then BoundBy(src, before, c)
                                                  else c in before.bound)
  {
    var hits := Hits(before, src.pricings);
    assert forall p :: p in hits <==> p in src.pricings && Matches(before, p.model) by {
      FilterMembers(src.pricings, (p: Pricing) => Matches(before, p.model));
    }
    NoMembers(hits);
    HitChannels(src, before);
    hide Matches, Hits;
  }

  /** A channel bound to some model the record matches. */
  ghost predicate BoundBy(src: Source, m: Model, c: BoundChannel)
    requires m.Model?
  {
    exists p :: p in src.pricings && Matches(m, p.model) && c in BoundTo(src.bound, p.model)
  }

  ghost predicate HasChannel(src: Source, m: Model)
    requires m.Model?
  {
    exists c :: BoundBy(src, m, c)
  }

  lemma HitChannels(src: Source, m: Model)
    requires m.Model?
    ensures var channels := ChannelsOf(src.bound, Names(Hits(m, src.pricings)));
            && (forall c :: c in channels <==> BoundBy(src, m, c))
            && (channels != {} <==> HasChannel(src, m))
  {
    var hits := Hits(m, src.pricings);
    var names, channels := Names(hits), ChannelsOf(src.bound, Names(hits));
    FilterMembers(src.pricings, (p: Pricing) => Matches(m, p.model));
    hide Matches, Hits;
    forall c | c in channels ensures BoundBy(src, m, c) {
      var n :| n in names && c in BoundTo(src.bound, n);
      var i :| 0 <= i < |names| && names[i] == n;
      assert hits[i] in hits;
    }
    forall c | BoundBy(src, m, c) ensures c in channels {
      var p :| p in src.pricings && Matches(m, p.model) && c in BoundTo(src.bound, p.model);
      assert p in hits;
      var i :| 0 <= i < |hits| && hits[i] == p;
      assert names[i] in names;
    }
    if c :| c in channels {
      assert BoundBy(src, m, c);
    }
  }

  /** An exact record takes its own entries, and nothing of the others. */
  lemma ExactRecord(src: Source, before: Model, after: Model)
    requires before.Model? && before.rule == 0 && Enriched(src, before, after)
    ensures after.Model? && (after.name, after.rule) == (before.name, 0)
    ensures (after.matched, after.count) == (before.matched, before.count)
    ensures after.bound == if before.name in src.bound then src.bound[before.name] else []
    ensures after.quotas == if before.name in src.quotas then [src.quotas[before.name]] else []
    ensures after.groups == if before.name in src.groups && before.name != "" then src.groups[before.name] else []
    ensures before.endpoints != Text("") ==> after.endpoints == before.endpoints
    ensures before.endpoints == Text("") ==>
              after.endpoints ==
              Encoded(if before.name in src.endpoints && before.name != "" then src.endpoints[before.name] else [])
  {
  }

  /** A missing record stays missing. */
  lemma MissingRecord(src: Source, after: Model)
    ensures Enriched(src, NoModel, after) <==> after == NoModel
  {
  }
}
