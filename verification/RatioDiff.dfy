/** The price comparison shown before synchronising: local prices against those of every upstream channel, then
    pruned of everything that shows no difference. */
module RatioDiff {
  import opened Sequences
  import opened Prices
  import opened Wrappers

  const NUMERIC := ["model_ratio", "completion_ratio", "cache_ratio", "create_cache_ratio", "image_ratio",
                    "audio_ratio", "audio_completion_ratio", "model_price"]
  const FIELDS := NUMERIC + ["billing_mode", "billing_expr"]
  const SAME := Text("same")

  datatype Channel = Channel(name: string, data: Data)
  datatype Item = Item(current: Value, upstreams: map<string, Value>, confidence: map<string, bool>)

  /** Field name to item, and model name to such a row. */
  type Row = map<string, Item>
  type Differences = map<string, Row>

  // ----- what one channel offers for one field of one model -----

  function PricesIn(data: Data, field: string): Table {
    if field in data then data[field] else map[]
  }

  function Normalize(field: string, v: Value): Value {
    if field in NUMERIC then AsFloat(v) else v
  }

  predicate Offers(data: Data, field: string, model: string) {
    model in PricesIn(data, field)
  }

  /** The normalised price, or Nil where there is none. */
  function Price(data: Data, field: string, model: string): Value {
    if Offers(data, field, model) then Normalize(field, PricesIn(data, field)[model]) else Nil
  }

  predicate Real(v: Value) {
    v != Nil && v != SAME
  }

  /** What the comparison prints for a channel. */
  function Shown(current: Value, data: Data, field: string, model: string): Value {
    var price := Price(data, field, model);
    if Offers(data, field, model) && ValuesEqual(current, price) then SAME
    else if price == Nil && current == Nil then SAME
    else price
  }

  predicate Differs(current: Value, data: Data, field: string, model: string) {
    if current != Nil then Offers(data, field, model) && !ValuesEqual(current, Price(data, field, model))
    else Real(Shown(current, data, field, model))
  }

  /** Prices that a gateway reports for models it knows nothing about are not to be trusted. */
  predicate Trusted(data: Data, model: string) {
    !(&& Offers(data, "model_ratio", model) && Offers(data, "completion_ratio", model)
      && var m, c := AsFloat(PricesIn(data, "model_ratio")[model]), AsFloat(PricesIn(data, "completion_ratio")[model]);
      && m.Number? && c.Number? && NearlyEqual(m.x, 37.5) && NearlyEqual(c.x, 1.0))
  }

  // ----- the whole comparison -----

  function Names(channels: seq<Channel>): set<string> {
    set i | 0 <= i < |channels| :: channels[i].name
  }

  /** The last channel of that name: it overwrites what earlier ones of the same name wrote. */
  function Last(channels: seq<Channel>, name: string): (i: nat)
    requires name in Names(channels)
    ensures i < |channels| && channels[i].name == name
    ensures forall j :: i < j < |channels| ==> channels[j].name != name
  {
    var n := |channels| - 1;
    if channels[n].name == name then n else Last(channels[..n], name)
  }

  function ModelsIn(data: Data, fields: seq<string>): set<string> {
    set f, m | f in fields && m in PricesIn(data, f) :: m
  }

  function ChannelModels(channels: seq<Channel>): set<string> {
    set c, m | c in channels && m in ModelsIn(c.data, FIELDS) :: m
  }

  function AllModels(local: Data, channels: seq<Channel>): set<string> {
    ModelsIn(local, FIELDS) + ChannelModels(channels)
  }

  /** A judgement on every channel, filed under its name. */
  function ByName<T>(channels: seq<Channel>, judge: Data -> T): map<string, T> {
    map c | c in Names(channels) :: judge(channels[Last(channels, c)].data)
  }

  function UpstreamsOf(current: Value, channels: seq<Channel>, field: string, model: string): map<string, Value> {
    ByName(channels, (data: Data) => Shown(current, data, field, model))
  }

  function ConfidenceOf(channels: seq<Channel>, model: string): map<string, bool> {
    ByName(channels, (data: Data) => Trusted(data, model))
  }

  predicate Included(local: Data, channels: seq<Channel>, field: string, model: string) {
    var current := Price(local, field, model);
    exists i :: 0 <= i < |channels| &&
      if current != Nil then Differs(current, channels[i].data, field, model)
      else Offers(channels[i].data, field, model)
  }

  function ItemOf(local: Data, channels: seq<Channel>, field: string, model: string): Item {
    var current := Price(local, field, model);
    Item(current, UpstreamsOf(current, channels, field, model), ConfidenceOf(channels, model))
  }

  function RowOf(local: Data, channels: seq<Channel>, fields: seq<string>, model: string): Row {
    map f | f in fields && Included(local, channels, f, model) :: ItemOf(local, channels, f, model)
  }

  function RowsOf(local: Data, channels: seq<Channel>, models: set<string>): Differences {
    map m | m in models && RowOf(local, channels, FIELDS, m) != map[] :: RowOf(local, channels, FIELDS, m)
  }

  function Raw(local: Data, channels: seq<Channel>): Differences {
    RowsOf(local, channels, AllModels(local, channels))
  }

  // ----- pruning -----

  predicate ShowsReal(d: Differences, model: string, field: string, name: string) {
    model in d && field in d[model] && name in d[model][field].upstreams && Real(d[model][field].upstreams[name])
  }

  function Live(d: Differences): set<string> {
    set m, f, c | m in d && f in d[m] && c in d[m][f].upstreams && Real(d[m][f].upstreams[c]) :: c
  }

  function PruneItem(item: Item, live: set<string>): Item {
    Item(item.current, map c | c in item.upstreams && c in live :: item.upstreams[c],
         map c | c in item.confidence && (c in live || c !in item.upstreams) :: item.confidence[c])
  }

  predicate AllSame(upstreams: map<string, Value>) {
    forall c :: c in upstreams ==> upstreams[c] == SAME
  }

  function PruneRow(row: Row, live: set<string>): Row {
    map f | f in row && !AllSame(PruneItem(row[f], live).upstreams) :: PruneItem(row[f], live)
  }

  function Prune(d: Differences, live: set<string>): Differences {
    map m | m in d && PruneRow(d[m], live) != map[] :: PruneRow(d[m], live)
  }

  function Compare(local: Data, channels: seq<Channel>): Differences {
    Prune(Raw(local, channels), Live(Raw(local, channels)))
  }

  // ----- the passes -----

  lemma MoreFields(data: Data, fields: seq<string>, k: nat)
    requires k < |fields|
    ensures ModelsIn(data, fields[..k + 1]) == ModelsIn(data, fields[..k]) + PricesIn(data, fields[k]).Keys
  {
    assert fields[..k + 1] == fields[..k] + [fields[k]];
  }

  method GatherFrom(data: Data, fields: seq<string>, known: set<string>) returns (models: set<string>)
    ensures models == known + ModelsIn(data, fields)
  {
    models := known;
    for k := 0 to |fields|
      invariant models == known + ModelsIn(data, fields[..k])
    {
      MoreFields(data, fields, k);
      models := models + PricesIn(data, fields[k]).Keys;
    }
    assert fields[..|fields|] == fields;
  }

  lemma MoreChannels(channels: seq<Channel>, i: nat)
    requires i < |channels|
    ensures ChannelModels(channels[..i + 1]) == ChannelModels(channels[..i]) + ModelsIn(channels[i].data, FIELDS)
  {
    assert channels[..i + 1] == channels[..i] + [channels[i]];
  }

  method GatherModels(local: Data, channels: seq<Channel>) returns (models: set<string>)
    ensures models == AllModels(local, channels)
  {
    hide ModelsIn;
    models := GatherFrom(local, FIELDS, {});
    for i := 0 to |channels|
      invariant models == AllModels(local, channels[..i])
    {
      MoreChannels(channels, i);
      models := GatherFrom(channels[i].data, FIELDS, models);
    }
    assert channels[..|channels|] == channels;
  }

  /** Adding a channel overwrites the entry of its name and leaves the others. */
  lemma AddChannel<T>(channels: seq<Channel>, i: nat, judge: Data -> T)
    requires i < |channels|
    ensures ByName(channels[..i + 1], judge) ==
            ByName(channels[..i], judge)[channels[i].name := judge(channels[i].data)]
  {
    var more := channels[..i + 1];
    assert more[..i] == channels[..i];
    forall name
      ensures name in Names(more) <==> name in Names(channels[..i]) || name == more[i].name
      ensures name in Names(more) ==>
        Last(more, name) == if more[i].name == name then i else Last(channels[..i], name)
    {
      assert forall j :: 0 <= j < i ==> more[j] == channels[..i][j];
    }
  }

  lemma NoChannels<T>(channels: seq<Channel>, judge: Data -> T)
    requires channels == []
    ensures ByName(channels, judge) == map[]
  {
  }

  function TrustIn(data: Data, models: set<string>): map<string, bool> {
    map m | m in models :: Trusted(data, m)
  }

  function Judged(channels: seq<Channel>, models: set<string>): map<string, map<string, bool>> {
    ByName(channels, (data: Data) => TrustIn(data, models))
  }

  lemma TrustedMeans(data: Data, model: string)
    ensures var ratios, completions := PricesIn(data, "model_ratio"), PricesIn(data, "completion_ratio");
            Trusted(data, model) <==>
            !(&& |ratios| > 0 && |completions| > 0 && model in ratios && model in completions
              && var m, c := AsFloat(ratios[model]), AsFloat(completions[model]);
              && m.Number? && c.Number? && NearlyEqual(m.x, 37.5) && NearlyEqual(c.x, 1.0))
  {
  }

  method JudgeChannel(data: Data, models: set<string>) returns (trusted: map<string, bool>)
    ensures trusted == TrustIn(data, models)
  {
    hide Trusted;
    trusted := map[];
    var ratios, completions := PricesIn(data, "model_ratio"), PricesIn(data, "completion_ratio");
    var judge := |ratios| > 0 && |completions| > 0;
    var rest := models;
    while rest != {}
      invariant rest <= models
      invariant trusted == TrustIn(data, models - rest)
    {
      var m :| m in rest;
      rest := rest - {m};
      trusted := trusted[m := true];
      if judge && m in ratios && m in completions {
        var r, c := AsFloat(ratios[m]), AsFloat(completions[m]);
        if r.Number? && c.Number? && NearlyEqual(r.x, 37.5) && NearlyEqual(c.x, 1.0) {
          trusted := trusted[m := false];
        }
      }
      TrustedMeans(data, m);
    }
  }

  method JudgeConfidence(channels: seq<Channel>, models: set<string>) returns (judged: map<string, map<string, bool>>)
    ensures judged == Judged(channels, models)
  {
    hide ByName, TrustIn;
    judged := map[];
    NoChannels(channels[..0], (data: Data) => TrustIn(data, models));
    for i := 0 to |channels|
      invariant judged == Judged(channels[..i], models)
    {
      var trusted := JudgeChannel(channels[i].data, models);
      judged := judged[channels[i].name := trusted];
      AddChannel(channels, i, (data: Data) => TrustIn(data, models));
    }
    assert channels[..|channels|] == channels;
  }

  lemma NoNames(channels: seq<Channel>)
    ensures Names(channels[..0]) == {}
  {
  }

  lemma AddName(channels: seq<Channel>, i: nat)
    requires i < |channels|
    ensures Names(channels[..i + 1]) == Names(channels[..i]) + {channels[i].name} && channels[i].name in Names(channels)
  {
    assert channels[..i + 1] == channels[..i] + [channels[i]];
  }

  function Picked(judged: map<string, map<string, bool>>, names: set<string>, model: string): map<string, bool> {
    map c | c in names && c in judged && model in judged[c] :: judged[c][model]
  }

  lemma PickedAll(channels: seq<Channel>, models: set<string>, model: string)
    requires model in models
    ensures Picked(Judged(channels, models), Names(channels), model) == ConfidenceOf(channels, model)
    ensures forall c :: c in Names(channels) ==> c in Judged(channels, models) && model in Judged(channels, models)[c]
  {
  }

  lemma RowGrows(local: Data, channels: seq<Channel>, fields: seq<string>, k: nat, model: string)
    requires k < |fields|
    ensures var row := RowOf(local, channels, fields[..k], model);
            RowOf(local, channels, fields[..k + 1], model) ==
            if Included(local, channels, fields[k], model)
            then row[fields[k] := ItemOf(local, channels, fields[k], model)] else row
  {
    hide Included, ItemOf;
    assert fields[..k + 1] == fields[..k] + [fields[k]];
  }

  lemma Nothing(local: Data, channels: seq<Channel>, model: string)
    ensures RowOf(local, channels, [], model) == map[] && RowsOf(local, channels, {}) == map[]
  {
  }

  lemma RowsGrow(local: Data, channels: seq<Channel>, models: set<string>, model: string)
    requires model !in models
    ensures var row := RowOf(local, channels, FIELDS, model);
            RowsOf(local, channels, models + {model}) ==
            if row != map[] then RowsOf(local, channels, models)[model := row] else RowsOf(local, channels, models)
  {
    hide RowOf;
  }

  /** One field of one model, over all channels. */
  method CompareField(current: Value, channels: seq<Channel>, field: string, model: string,
                      judged: map<string, map<string, bool>>, models: set<string>)
    returns (upstreams: map<string, Value>, confidence: map<string, bool>, offered: bool, different: bool)
    requires judged == Judged(channels, models) && model in models
    ensures upstreams == UpstreamsOf(current, channels, field, model)
    ensures confidence == ConfidenceOf(channels, model)
    ensures offered <==> exists i :: 0 <= i < |channels| && Offers(channels[i].data, field, model)
    ensures different <==> exists i :: 0 <= i < |channels| && Differs(current, channels[i].data, field, model)
  {
    hide ByName, Judged, Names, Trusted, Normalize;
    upstreams, confidence, offered, different := map[], map[], false, false;
    NoChannels(channels[..0], (data: Data) => Shown(current, data, field, model));
    PickedAll(channels, models, model);
    assert Names(channels[..0]) == {} by { NoNames(channels); }
    for i := 0 to |channels|
      invariant upstreams == UpstreamsOf(current, channels[..i], field, model)
      invariant confidence == Picked(judged, Names(channels[..i]), model)
      invariant offered <==> exists j :: 0 <= j < i && Offers(channels[j].data, field, model)
      invariant different <==> exists j :: 0 <= j < i && Differs(current, channels[j].data, field, model)
    {
      var upstream := Nil;
      var table := PricesIn(channels[i].data, field);
      if model in table {
        upstream := Normalize(field, table[model]);
        offered := true;
        if current != Nil && !ValuesEqual(current, upstream) {
          different := true;
        } else if ValuesEqual(current, upstream) {
          upstream := SAME;
        }
      }
      if upstream == Nil && current == Nil {
        upstream := SAME;
      }
      if current == Nil && upstream != Nil && upstream != SAME {
        different := true;
      }
      AddName(channels, i);
      upstreams := upstreams[channels[i].name := upstream];
      confidence := confidence[channels[i].name := judged[channels[i].name][model]];
      AddChannel(channels, i, (data: Data) => Shown(current, data, field, model));
    }
    assert channels[..|channels|] == channels;
  }

  method CompareModel(local: Data, channels: seq<Channel>, fields: seq<string>, model: string,
                      judged: map<string, map<string, bool>>, models: set<string>) returns (row: Row)
    requires judged == Judged(channels, models) && model in models
    ensures row == RowOf(local, channels, fields, model)
  {
    hide RowOf, UpstreamsOf, ConfidenceOf, Judged;
    row := map[];
    assert fields[..0] == [];
    Nothing(local, channels, model);
    for k := 0 to |fields|
      invariant row == RowOf(local, channels, fields[..k], model)
    {
      var field := fields[k];
      var current := Nil;
      if model in PricesIn(local, field) {
        current := Normalize(field, PricesIn(local, field)[model]);
      }
      var upstreams, confidence, offered, different := CompareField(current, channels, field, model, judged, models);
      var shouldInclude := if current != Nil then different else offered;
      if shouldInclude {
        row := row[field := Item(current, upstreams, confidence)];
      }
      RowGrows(local, channels, fields, k, model);
    }
    assert fields[..|fields|] == fields;
  }

  method CompareModels(local: Data, channels: seq<Channel>, models: set<string>, judged: map<string, map<string, bool>>)
    returns (d: Differences)
    requires judged == Judged(channels, models)
    ensures d == RowsOf(local, channels, models)
  {
    hide RowOf, RowsOf, Judged;
    d := map[];
    Nothing(local, channels, "");
    assert models - models == {};
    var rest := models;
    while rest != {}
      invariant rest <= models
      invariant d == RowsOf(local, channels, models - rest)
    {
      var m :| m in rest;
      ghost var done := models - rest;
      rest := rest - {m};
      var row := CompareModel(local, channels, FIELDS, m, judged, models);
      RowsGrow(local, channels, done, m);
      assert done + {m} == models - rest;
      if row != map[] {
        d := d[m := row];
      }
    }
    assert models - rest == models;
  }

  method FindLive(d: Differences) returns (live: set<string>)
    ensures live == Live(d)
  {
    live := {};
    var models := d.Keys;
    while models != {}
      invariant models <= d.Keys
      invariant live == set m, f, c | m in d && m !in models && f in d[m] && c in d[m][f].upstreams &&
                                      Real(d[m][f].upstreams[c]) :: c
    {
      var m :| m in models;
      models := models - {m};
      ghost var before := live;
      var fields := d[m].Keys;
      while fields != {}
        invariant fields <= d[m].Keys
        invariant live == before + set f, c | f in d[m] && f !in fields && c in d[m][f].upstreams &&
                                              Real(d[m][f].upstreams[c]) :: c
      {
        var f :| f in fields;
        fields := fields - {f};
        ghost var already := live;
        var names := d[m][f].upstreams.Keys;
        while names != {}
          invariant names <= d[m][f].upstreams.Keys
          invariant live == already + set c | c in d[m][f].upstreams && c !in names && Real(d[m][f].upstreams[c])
        {
          var c :| c in names;
          names := names - {c};
          if d[m][f].upstreams[c] != Nil && d[m][f].upstreams[c] != SAME {
            live := live + {c};
          }
        }
      }
    }
  }

  method DropIdle(item: Item, live: set<string>) returns (pruned: Item)
    ensures pruned == PruneItem(item, live)
  {
    pruned := item;
    var names := item.upstreams.Keys;
    while names != {}
      invariant names <= item.upstreams.Keys
      invariant pruned == PruneItem(item, live + names)
    {
      var c :| c in names;
      names := names - {c};
      if c !in live {
        pruned := pruned.(upstreams := pruned.upstreams - {c}, confidence := pruned.confidence - {c});
      }
    }
    assert live + {} == live;
  }

  method CheckAllSame(upstreams: map<string, Value>) returns (allSame: bool)
    ensures allSame <==> AllSame(upstreams)
  {
    var names := upstreams.Keys;
    while names != {}
      invariant names <= upstreams.Keys
      invariant forall c :: c in upstreams && c !in names ==> upstreams[c] == SAME
    {
      var c :| c in names;
      names := names - {c};
      if upstreams[c] != SAME {
        return false;
      }
    }
    return true;
  }

  method PruneFields(row: Row, live: set<string>) returns (pruned: Row)
    ensures pruned == PruneRow(row, live)
  {
    hide PruneItem, AllSame;
    pruned := row;
    var fields := row.Keys;
    while fields != {}
      invariant fields <= row.Keys
      invariant pruned == map f | f in row && (f in fields || !AllSame(PruneItem(row[f], live).upstreams)) ::
                            if f in fields then row[f] else PruneItem(row[f], live)
    {
      var f :| f in fields;
      fields := fields - {f};
      var item := DropIdle(row[f], live);
      var allSame := CheckAllSame(item.upstreams);
      if |item.upstreams| == 0 || allSame {
        EmptyIsSame(item.upstreams);
        pruned := pruned - {f};
      } else {
        pruned := pruned[f := item];
      }
    }
  }

  lemma EmptyIsSame(upstreams: map<string, Value>)
    ensures |upstreams| == 0 ==> AllSame(upstreams)
  {
  }

  function PartlyPruned(d: Differences, live: set<string>, left: set<string>): Differences {
    map m | m in d && (m in left || PruneRow(d[m], live) != map[]) ::
      if m in left then d[m] else PruneRow(d[m], live)
  }

  lemma PartlyEnds(d: Differences, live: set<string>)
    ensures PartlyPruned(d, live, d.Keys) == d && PartlyPruned(d, live, {}) == Prune(d, live)
  {
    hide PruneRow;
  }

  lemma PartlyStep(d: Differences, live: set<string>, left: set<string>, m: string)
    requires m in d && m in left
    ensures var row := PruneRow(d[m], live);
            PartlyPruned(d, live, left - {m}) ==
            if row == map[] then PartlyPruned(d, live, left) - {m} else PartlyPruned(d, live, left)[m := row]
  {
    hide PruneRow;
  }

  method PruneModels(d: Differences, live: set<string>) returns (pruned: Differences)
    ensures pruned == Prune(d, live)
  {
    hide PruneRow, PartlyPruned;
    pruned := d;
    var models := d.Keys;
    PartlyEnds(d, live);
    while models != {}
      invariant models <= d.Keys
      invariant pruned == PartlyPruned(d, live, models)
    {
      var m :| m in models;
      PartlyStep(d, live, models, m);
      models := models - {m};
      var row := PruneFields(d[m], live);
      if |row| == 0 {
        pruned := pruned - {m};
      } else {
        pruned := pruned[m := row];
      }
    }
  }

  /** The three passes together. */
  method BuildDifferences(local: Data, channels: seq<Channel>) returns (d: Differences)
    ensures d == Compare(local, channels)
  {
    var models := GatherModels(local, channels);
    var judged := JudgeConfidence(channels, models);
    d := CompareModels(local, channels, models, judged);
    var live := FindLive(d);
    d := PruneModels(d, live);
  }

  // ----- what the result shows -----

  /** The question the comparison answers. */
  predicate OffersOther(local: Data, data: Data, field: string, model: string) {
    Offers(data, field, model) && !ValuesEqual(Price(local, field, model), Price(data, field, model))
  }

  lemma OfferedModel(data: Data, fields: seq<string>, field: string, model: string)
    requires field in fields && Offers(data, field, model)
    ensures model in ModelsIn(data, fields)
  {
  }

  lemma RawAt(local: Data, channels: seq<Channel>, model: string, field: string)
    ensures var d := Raw(local, channels);
            (model in d && field in d[model] <==> field in FIELDS && Included(local, channels, field, model)) &&
            (model in d && field in d[model] ==> d[model][field] == ItemOf(local, channels, field, model))
  {
    if field in FIELDS && Included(local, channels, field, model) {
      var i :| 0 <= i < |channels| && Offers(channels[i].data, field, model);
      OfferedModel(channels[i].data, FIELDS, field, model);
      assert channels[i] in channels;
      assert field in RowOf(local, channels, FIELDS, model);
    }
  }

  lemma PruneAt(d: Differences, live: set<string>, model: string, field: string)
    ensures var p := Prune(d, live);
            (model in p && field in p[model] <==>
             model in d && field in d[model] && !AllSame(PruneItem(d[model][field], live).upstreams)) &&
            (model in p && field in p[model] ==> p[model][field] == PruneItem(d[model][field], live)) &&
            (model in p ==> p[model] != map[])
  {
    if model in d && field in d[model] && !AllSame(PruneItem(d[model][field], live).upstreams) {
      assert field in PruneRow(d[model], live);
    }
  }

  lemma LiveAt(d: Differences, name: string)
    ensures name in Live(d) <==> exists m, f :: ShowsReal(d, m, f, name)
  {
    if name in Live(d) {
      var m, f, c :| m in d && f in d[m] && c in d[m][f].upstreams && Real(d[m][f].upstreams[c]) && c == name;
      assert ShowsReal(d, m, f, name);
    }
  }

  /** Pruning keeps every real value and invents none. */
  lemma PruneKeepsReal(d: Differences, model: string, field: string, name: string)
    ensures ShowsReal(Prune(d, Live(d)), model, field, name) <==> ShowsReal(d, model, field, name)
  {
    PruneAt(d, Live(d), model, field);
    if ShowsReal(d, model, field, name) {
      LiveAt(d, name);
      var kept := PruneItem(d[model][field], Live(d)).upstreams;
      assert name in kept && kept[name] != SAME;
    }
  }

  lemma PruneKeepsLive(d: Differences)
    ensures Live(Prune(d, Live(d))) == Live(d)
  {
    forall name ensures name in Live(Prune(d, Live(d))) <==> name in Live(d) {
      LiveAt(d, name);
      LiveAt(Prune(d, Live(d)), name);
      forall m, f ensures ShowsReal(Prune(d, Live(d)), m, f, name) <==> ShowsReal(d, m, f, name) {
        PruneKeepsReal(d, m, f, name);
      }
    }
  }

  /** A real value appears exactly where the (last) channel of that name offers one that is not equal to
      the local price, and it is that value, next to that local price. */
  lemma RealValuesExactly(local: Data, channels: seq<Channel>, model: string, field: string, name: string)
    ensures var d := Compare(local, channels);
            ShowsReal(d, model, field, name) <==>
            && field in FIELDS && name in Names(channels)
            && var data := channels[Last(channels, name)].data;
            && OffersOther(local, data, field, model) && Real(Price(data, field, model))
    ensures var d := Compare(local, channels);
            ShowsReal(d, model, field, name) ==>
            && d[model][field].upstreams[name] == Price(channels[Last(channels, name)].data, field, model)
            && d[model][field].current == Price(local, field, model)
  {
    RawAt(local, channels, model, field);
    var raw := Raw(local, channels);
    PruneKeepsReal(raw, model, field, name);
    PruneAt(raw, Live(raw), model, field);
  }

  /** The number a value stands for; integers count as numbers in the fields that hold numbers. */
  function NumberIn(field: string, v: Value): Option<real> {
    match v
    case Number(x) => Some(x)
    case Integer(n) => if field == "billing_mode" || field == "billing_expr" then None else Some(n as real)
    case _ => None
  }

  predicate KnownField(field: string) {
    || field == "model_ratio" || field == "completion_ratio" || field == "cache_ratio" || field == "create_cache_ratio"
    || field == "image_ratio" || field == "audio_ratio" || field == "audio_completion_ratio" || field == "model_price"
    || field == "billing_mode" || field == "billing_expr"
  }

  lemma KnownFields(field: string)
    ensures field in FIELDS <==> KnownField(field)
    ensures field in NUMERIC <==> KnownField(field) && field != "billing_mode" && field != "billing_expr"
  {
    assert FIELDS[8] == "billing_mode" && FIELDS[9] == "billing_expr";
    assert forall i :: 0 <= i < 8 ==> FIELDS[i] == NUMERIC[i];
    assert NUMERIC[0] == "model_ratio" && NUMERIC[1] == "completion_ratio" && NUMERIC[2] == "cache_ratio";
    assert NUMERIC[3] == "create_cache_ratio" && NUMERIC[4] == "image_ratio" && NUMERIC[5] == "audio_ratio";
    assert NUMERIC[6] == "audio_completion_ratio" && NUMERIC[7] == "model_price";
  }

  /** A value as it is shown. */
  function Shape(field: string, v: Value): Value {
    if NumberIn(field, v).Some? then Number(NumberIn(field, v).value) else v
  }

  /** When two prices differ: two numbers by at least 1e-9, anything else by not being the same. */
  predicate Apart(field: string, a: Value, b: Value) {
    var x, y := NumberIn(field, a), NumberIn(field, b);
    if x.Some? && y.Some? then x.value - y.value >= 0.000000001 || y.value - x.value >= 0.000000001 else a != b
  }

  lemma ApartExactly(field: string, a: Value, b: Value)
    requires KnownField(field)
    ensures ValuesEqual(Normalize(field, a), Normalize(field, b)) <==> !Apart(field, a, b)
  {
    KnownFields(field);
  }

  /** What a channel whose name no other has shows, in terms of the tables as they were read. A real price appears
      exactly where it is apart from the local one, or there is none; in the fields that hold numbers, as a number. */
  lemma ShownExactly(local: Data, channels: seq<Channel>, i: nat, field: string, model: string)
    requires i < |channels| && forall j :: 0 <= j < |channels| && j != i ==> channels[j].name != channels[i].name
    requires field in channels[i].data && model in channels[i].data[field]
    requires channels[i].data[field][model] != Nil && channels[i].data[field][model] != Text("same")
    ensures var d, offered, name := Compare(local, channels), channels[i].data[field][model], channels[i].name;
            var current := if field in local && model in local[field] then local[field][model] else Nil;
            && (ShowsReal(d, model, field, name) <==> KnownField(field) && Apart(field, current, offered))
            && (ShowsReal(d, model, field, name) ==>
                  && d[model][field].upstreams[name] == Shape(field, offered)
                  && d[model][field].current == Shape(field, current))
  {
    var name, data := channels[i].name, channels[i].data;
    var current := if field in local && model in local[field] then local[field][model] else Nil;
    RealValuesExactly(local, channels, model, field, name);
    KnownFields(field);
    if KnownField(field) {
      ReadAs(local, field, model);
      ReadAs(data, field, model);
    }
    assert name in Names(channels) && Last(channels, name) == i by {
      LastOfUnique(channels, i);
    }
    hide Compare, Last, FIELDS, NUMERIC, Price, ValuesEqual, Normalize, Apart, Names, ShowsReal;
    if KnownField(field) {
      ApartExactly(field, current, data[field][model]);
    }
  }

  lemma LastOfUnique(channels: seq<Channel>, i: nat)
    requires i < |channels| && forall j :: 0 <= j < |channels| && j != i ==> channels[j].name != channels[i].name
    ensures channels[i].name in Names(channels) && Last(channels, channels[i].name) == i
  {
  }

  /** A price as it was read. */
  lemma ReadAs(data: Data, field: string, model: string)
    requires KnownField(field)
    ensures var listed := field in data && model in data[field];
            && (Offers(data, field, model) <==> listed)
            && Price(data, field, model) == Normalize(field, if listed then data[field][model] else Nil)
            && Price(data, field, model) == Shape(field, if listed then data[field][model] else Nil)
            && (Real(Price(data, field, model)) <==>
                  listed && data[field][model] != Nil && data[field][model] != Text("same"))
  {
    KnownFields(field);
    hide FIELDS, NUMERIC;
  }

  /** Nothing is shown for a channel that does not list the model, or lists it without a price. */
  lemma NothingShown(local: Data, channels: seq<Channel>, i: nat, field: string, model: string)
    requires i < |channels| && forall j :: 0 <= j < |channels| && j != i ==> channels[j].name != channels[i].name
    requires !(field in channels[i].data && model in channels[i].data[field]) ||
             channels[i].data[field][model] == Nil || channels[i].data[field][model] == Text("same")
    ensures !ShowsReal(Compare(local, channels), model, field, channels[i].name)
  {
    var name := channels[i].name;
    RealValuesExactly(local, channels, model, field, name);
    assert name in Names(channels) && Last(channels, name) == i;
    hide Compare;
  }

  /** A channel is distrusted for a model exactly when it prices it with the pair 37.5 and 1, up to 1e-9. */
  lemma DistrustedExactly(data: Data, model: string)
    ensures !Trusted(data, model) <==>
            && "model_ratio" in data && model in data["model_ratio"]
            && "completion_ratio" in data && model in data["completion_ratio"]
            && NumberIn("model_ratio", data["model_ratio"][model]).Some?
            && NumberIn("completion_ratio", data["completion_ratio"][model]).Some?
            && -0.000000001 < NumberIn("model_ratio", data["model_ratio"][model]).value - 37.5 < 0.000000001
            && -0.000000001 < NumberIn("completion_ratio", data["completion_ratio"][model]).value - 1.0 < 0.000000001
  {
  }

  /** An item lists exactly the live names, each with what is printed for it and whether it is trusted. */
  ghost predicate Lists(item: Item, live: set<string>, channels: seq<Channel>, field: string, model: string) {
    && item.upstreams.Keys == item.confidence.Keys == live <= Names(channels)
    && forall name :: name in live ==>
         var data := channels[Last(channels, name)].data;
         && item.upstreams[name] == Shown(item.current, data, field, model)
         && item.confidence[name] == Trusted(data, model)
  }

  /** Everything else about the result. */
  lemma ListedExactly(local: Data, channels: seq<Channel>, model: string, field: string)
    ensures var d := Compare(local, channels);
            model in d && field in d[model] ==> Lists(d[model][field], Live(d), channels, field, model)
  {
    hide Raw, Live, Prune, Included, Shown, Trusted, Last;
    var raw := Raw(local, channels);
    RawAt(local, channels, model, field);
    PruneAt(raw, Live(raw), model, field);
    PruneKeepsLive(raw);
    forall name | name in Live(raw) ensures name in Names(channels) {
      LiveAt(raw, name);
      var m, f :| ShowsReal(raw, m, f, name);
      RawAt(local, channels, m, f);
    }
  }

  /** No empty row, no item that only says "same", and no channel without a real difference somewhere. */
  ghost predicate NoneIdle(d: Differences, row: Row) {
    && row != map[]
    && (forall f :: f in row ==> !AllSame(row[f].upstreams))
    && (forall f, c :: f in row && c in row[f].upstreams ==> exists m1, f1 :: ShowsReal(d, m1, f1, c))
  }

  lemma NothingIdle(local: Data, channels: seq<Channel>, model: string)
    ensures var d := Compare(local, channels); model in d ==> NoneIdle(d, d[model])
  {
    hide Raw, Live, Prune, ShowsReal, Last, Shown, Trusted, PruneItem, AllSame;
    var d := Compare(local, channels);
    if model in d {
      var row: Row := d[model];
      PruneAt(Raw(local, channels), Live(Raw(local, channels)), model, "");
      forall f | f in row
        ensures !AllSame(row[f].upstreams)
        ensures forall c :: c in row[f].upstreams ==> exists m1, f1 :: ShowsReal(d, m1, f1, c)
      {
        PruneAt(Raw(local, channels), Live(Raw(local, channels)), model, f);
        ListedExactly(local, channels, model, f);
        forall c | c in row[f].upstreams ensures exists m1, f1 :: ShowsReal(d, m1, f1, c) {
          LiveAt(d, c);
        }
      }
    }
  }

  lemma PruneRowAgain(row: Row, live: set<string>)
    ensures PruneRow(PruneRow(row, live), live) == PruneRow(row, live)
  {
    hide AllSame;
    forall f | f in row ensures PruneItem(PruneItem(row[f], live), live) == PruneItem(row[f], live) {
    }
  }

  /** One pruning is enough: the result is a fixed point. */
  lemma PruneAgain(d: Differences)
    ensures var once := Prune(d, Live(d)); Prune(once, Live(once)) == once
  {
    hide Live, PruneRow;
    PruneKeepsLive(d);
    forall m | m in d ensures PruneRow(PruneRow(d[m], Live(d)), Live(d)) == PruneRow(d[m], Live(d)) {
      PruneRowAgain(d[m], Live(d));
    }
  }

  function DataOf(channels: seq<Channel>, name: string): Data
    requires name in Names(channels)
  {
    channels[Last(channels, name)].data
  }

  /** A real price that is not equal to the local one. */
  predicate OffersRealOther(local: Data, data: Data, field: string, model: string) {
    OffersOther(local, data, field, model) && Real(Price(data, field, model))
  }

  /** Somewhere the data offers a real price that is not equal to the local one. */
  ghost predicate HasRealDifference(local: Data, data: Data) {
    exists f, m :: f in FIELDS && OffersRealOther(local, data, f, m)
  }

  /** The channels that stay listed, in terms of what they offer. */
  lemma LiveExactly(local: Data, channels: seq<Channel>, name: string)
    ensures name in Live(Compare(local, channels)) <==>
            name in Names(channels) && HasRealDifference(local, DataOf(channels, name))
  {
    hide Compare, Live, Last, Real, Price;
    var d := Compare(local, channels);
    LiveAt(d, name);
    forall m, f
      ensures ShowsReal(d, m, f, name) <==>
              name in Names(channels) && f in FIELDS && OffersRealOther(local, DataOf(channels, name), f, m)
    {
      RealValuesExactly(local, channels, m, f, name);
    }
  }

  /** What makes an item without a real value survive: the local price differs from something offered, but nothing
      offered is a real other price, and a channel that differs elsewhere has no price to show here. */
  ghost predicate NothingToTake(local: Data, channels: seq<Channel>, field: string, model: string) {
    && field in FIELDS && Price(local, field, model) != Nil && Included(local, channels, field, model)
    && (forall c :: c in Names(channels) ==> !OffersRealOther(local, DataOf(channels, c), field, model))
    && exists c :: c in Names(channels) && HasRealDifference(local, DataOf(channels, c)) &&
                   Price(DataOf(channels, c), field, model) == Nil
  }

  /** For any prices: exactly where the result has an item with a real value, and exactly where one without. */
  lemma ItemsExactly(local: Data, channels: seq<Channel>, model: string, field: string)
    ensures var d := Compare(local, channels);
            (exists c :: ShowsReal(d, model, field, c)) <==>
            field in FIELDS &&
            exists c :: c in Names(channels) && OffersRealOther(local, DataOf(channels, c), field, model)
    ensures var d := Compare(local, channels);
            (model in d && field in d[model] && forall c :: !ShowsReal(d, model, field, c)) <==>
            NothingToTake(local, channels, field, model)
  {
    var d := Compare(local, channels);
    forall c
      ensures ShowsReal(d, model, field, c) <==>
              field in FIELDS && c in Names(channels) && OffersRealOther(local, DataOf(channels, c), field, model)
    {
      RealValuesExactly(local, channels, model, field, c);
    }
    if forall c :: !ShowsReal(d, model, field, c) {
      NoRealItem(local, channels, model, field);
    }
  }

  /** An included item shows nothing but nulls and "same" when no real other price is offered. */
  lemma ShownWithoutReal(local: Data, channels: seq<Channel>, field: string, model: string, name: string)
    requires name in Names(channels) && !OffersRealOther(local, DataOf(channels, name), field, model)
    ensures var current, data := Price(local, field, model), DataOf(channels, name);
            Shown(current, data, field, model) != SAME <==> current != Nil && Price(data, field, model) == Nil
  {
    hide Normalize, Last;
  }

  lemma NoRealItem(local: Data, channels: seq<Channel>, model: string, field: string)
    requires forall c :: !ShowsReal(Compare(local, channels), model, field, c)
    ensures var d := Compare(local, channels);
            model in d && field in d[model] <==> NothingToTake(local, channels, field, model)
  {
    var raw, current := Raw(local, channels), Price(local, field, model);
    RawAt(local, channels, model, field);
    PruneAt(raw, Live(raw), model, field);
    PruneKeepsLive(raw);
    hide Raw, Prune, Live, Included, Last, Shown, Price, HasRealDifference, Real, RowOf;
    if field in FIELDS && Included(local, channels, field, model) {
      var kept := PruneItem(raw[model][field], Live(raw)).upstreams;
      forall c | c in Names(channels)
        ensures !OffersRealOther(local, DataOf(channels, c), field, model)
        ensures c in kept <==> c in Live(raw)
        ensures c in kept ==> (kept[c] != SAME <==> current != Nil && Price(DataOf(channels, c), field, model) == Nil)
        ensures c in Live(raw) <==> HasRealDifference(local, DataOf(channels, c))
      {
        RealValuesExactly(local, channels, model, field, c);
        ShownWithoutReal(local, channels, field, model, c);
        LiveExactly(local, channels, c);
      }
    }
  }

  /** No channel offers an explicit null or the word "same" as a price. */
  ghost predicate Ordinary(channels: seq<Channel>) {
    forall i, f, m :: 0 <= i < |channels| && Offers(channels[i].data, f, m) ==> Real(Price(channels[i].data, f, m))
  }

  lemma OrdinaryOffers(local: Data, channels: seq<Channel>, field: string, model: string)
    requires Ordinary(channels) && Distinct(seq(|channels|, i requires 0 <= i < |channels| => channels[i].name))
    ensures (exists i :: 0 <= i < |channels| && OffersOther(local, channels[i].data, field, model)) <==>
            exists c :: c in Names(channels) && OffersRealOther(local, DataOf(channels, c), field, model)
    ensures !NothingToTake(local, channels, field, model)
  {
    hide Normalize, Price, ValuesEqual, HasRealDifference;
    var names := seq(|channels|, i requires 0 <= i < |channels| => channels[i].name);
    forall i | 0 <= i < |channels| ensures DataOf(channels, channels[i].name) == channels[i].data {
      var last := Last(channels, channels[i].name);
      assert names[i] == names[last];
    }
    forall i | 0 <= i < |channels| && OffersOther(local, channels[i].data, field, model)
      ensures OffersRealOther(local, DataOf(channels, channels[i].name), field, model)
    {
    }
  }

  /** Then the result has an item exactly where some channel offers a price not equal to the local one,
      and every item shows a real value. */
  lemma OrdinaryItems(local: Data, channels: seq<Channel>, model: string, field: string)
    requires Ordinary(channels) && Distinct(seq(|channels|, i requires 0 <= i < |channels| => channels[i].name))
    ensures var d := Compare(local, channels);
            (model in d && field in d[model] <==>
             field in FIELDS &&
             exists i :: 0 <= i < |channels| && OffersOther(local, channels[i].data, field, model)) &&
            (model in d && field in d[model] ==> exists c :: ShowsReal(d, model, field, c))
  {
    hide Compare, NothingToTake, Ordinary, OffersOther, OffersRealOther, Last;
    OrdinaryOffers(local, channels, field, model);
    ItemsExactly(local, channels, model, field);
  }

  /** At literal prices: an explicit null is shown as a difference although there is no value to take over. */
  lemma NullSurvives()
    ensures var local: Data := map["model_ratio" := map["a" := Number(1.0), "b" := Number(1.0)]];
            var channels := [Channel("up", map["model_ratio" := map["a" := Nil, "b" := Number(2.0)]])];
            var d := Compare(local, channels);
            "a" in d && "model_ratio" in d["a"] && forall c :: !ShowsReal(d, "a", "model_ratio", c)
  {
    hide Compare, Last;
    var local: Data := map["model_ratio" := map["a" := Number(1.0), "b" := Number(1.0)]];
    var data: Data := map["model_ratio" := map["a" := Nil, "b" := Number(2.0)]];
    var channels := [Channel("up", data)];
    assert Names(channels) == {"up"} by { assert channels[0].name == "up"; }
    assert DataOf(channels, "up") == data;
    assert OffersRealOther(local, data, "model_ratio", "b");
    assert HasRealDifference(local, data);
    assert Differs(Price(local, "model_ratio", "a"), channels[0].data, "model_ratio", "a");
    ItemsExactly(local, channels, "a", "model_ratio");
  }
}
