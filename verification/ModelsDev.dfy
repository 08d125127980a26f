/** Price import from models.dev: of all providers of a model one candidate is selected, and its prices
    become ratios rounded to six digits. Floating-point numbers are reals. */
module ModelsDev {
  import opened Prices
  import opened QuotaMath
  import opened Wrappers

  datatype Cost = Cost(input: Option<real>, output: Option<real>, cacheRead: Option<real>)
  datatype Candidate = Candidate(provider: string, input: real, output: Option<real>, cacheRead: Option<real>)
  datatype Import = Imported(data: Data) | NotDecoded | Empty | NoValidEntries

  /** Provider name to model name to cost. */
  type Upstream = map<string, map<string, Cost>>

  // ----- the order of names -----

  predicate Before(a: string, b: string) {
    b != [] && (a == [] || a[0] < b[0] || (a[0] == b[0] && Before(a[1..], b[1..])))
  }

  /** Names are ordered by the first character in which they differ, and a beginning comes before the whole. */
  lemma {:induction false} BeforeMeans(a: string, b: string)
    ensures Before(a, b) <==>
            exists k: nat :: k <= |a| && k < |b| && a[..k] == b[..k] && (k == |a| || a[k] < b[k])
  {
    if b != [] && a != [] && a[0] == b[0] {
      BeforeMeans(a[1..], b[1..]);
      if k: nat :| k <= |a[1..]| && k < |b[1..]| && a[1..][..k] == b[1..][..k] &&
                   (k == |a[1..]| || a[1..][k] < b[1..][k]) {
        assert a[..k + 1] == [a[0]] + a[1..][..k] && b[..k + 1] == [b[0]] + b[1..][..k];
      }
      if k: nat :| k <= |a| && k < |b| && a[..k] == b[..k] && (k == |a| || a[k] < b[k]) {
        assert k > 0;
        assert a[1..][..k - 1] == a[..k][1..] && b[1..][..k - 1] == b[..k][1..];
      }
    } else if b != [] {
      assert a[..0] == b[..0];
      if k: nat :| k <= |a| && k < |b| && a[..k] == b[..k] && (k == |a| || a[k] < b[k]) {
        assert a != [] && k > 0 ==> a[..k][0] == b[..k][0];
      }
    }
  }

  lemma {:induction false} BeforeIsTotal(a: string, b: string)
    ensures Before(a, b) || a == b || Before(b, a)
    ensures !(Before(a, b) && Before(b, a)) && !Before(a, a)
  {
    if a != [] && b != [] {
      BeforeIsTotal(a[1..], b[1..]);
      assert a == [a[0]] + a[1..] && b == [b[0]] + b[1..];
    }
    if a != [] {
      BeforeIsTotal(a[1..], a[1..]);
    }
  }

  lemma {:induction false} BeforeChains(a: string, b: string, c: string)
    requires Before(a, b) && Before(b, c)
    ensures Before(a, c)
  {
    if a != [] && a[0] == b[0] && b[0] == c[0] {
      BeforeChains(a[1..], b[1..], c[1..]);
    }
  }

  ghost predicate Ascending(names: seq<string>) {
    forall i, j :: 0 <= i < j < |names| ==> Before(names[i], names[j])
  }

  method SortedKeys(keys: set<string>) returns (order: seq<string>)
    ensures Ascending(order) && forall k :: k in order <==> k in keys
  {
    order := [];
    var rest := keys;
    while rest != {}
      invariant rest <= keys
      invariant Ascending(order) && forall k :: k in order <==> k in keys - rest
    {
      var k :| k in rest;
      rest := rest - {k};
      var i := 0;
      while i < |order| && Before(order[i], k)
        invariant 0 <= i <= |order|
        invariant forall j :: 0 <= j < i ==> Before(order[j], k)
      {
        i := i + 1;
      }
      InsertAscending(order, i, k);
      order := order[..i] + [k] + order[i..];
    }
  }

  lemma InsertAscending(order: seq<string>, i: nat, k: string)
    requires Ascending(order) && k !in order && i <= |order|
    requires forall j :: 0 <= j < i ==> Before(order[j], k)
    requires i < |order| ==> !Before(order[i], k)
    ensures Ascending(order[..i] + [k] + order[i..])
    ensures forall x :: x in order[..i] + [k] + order[i..] <==> x in order || x == k
  {
    forall j | i <= j < |order| ensures Before(k, order[j]) {
      BeforeIsTotal(order[i], k);
      if i < j {
        BeforeChains(k, order[i], order[j]);
      }
    }
    assert order == order[..i] + order[i..];
  }

  // ----- selecting a candidate -----

  predicate Valid(cost: real) {
    cost >= 0.0
  }

  function BuildCandidate(provider: string, cost: Cost): Option<Candidate> {
    if cost.input == None || !Valid(cost.input.value) then None
    else if cost.output.Some? && !Valid(cost.output.value) then None
    else if cost.input.value == 0.0 && cost.output.Some? && cost.output.value > 0.0 then None
    else
      var cacheRead := if cost.cacheRead.Some? && Valid(cost.cacheRead.value) then cost.cacheRead else None;
      Some(Candidate(provider, cost.input.value, cost.output, cacheRead))
  }

  /** What is refused is a missing or negative price, and a price for output of free input, which no ratio to the
      input price can express; everything else is kept as it is, but for a negative cache price. */
  lemma RefusedExactly(provider: string, cost: Cost)
    ensures BuildCandidate(provider, cost) == None <==>
            || cost.input == None || cost.input.value < 0.0
            || (cost.output.Some? && (cost.output.value < 0.0 || (cost.input.value == 0.0 && cost.output.value != 0.0)))
    ensures BuildCandidate(provider, cost).Some? ==>
              var c := BuildCandidate(provider, cost).value;
              && (c.provider, Some(c.input), c.output) == (provider, cost.input, cost.output)
              && c.cacheRead == (if cost.cacheRead.Some? && cost.cacheRead.value < 0.0 then None else cost.cacheRead)
              && (c.input != 0.0 || c.output == None || c.output.value == 0.0)
  {
  }

  predicate ShouldReplace(current: Candidate, next: Candidate) {
    if (current.input > 0.0) != (next.input > 0.0) then next.input > 0.0
    else if next.input > 0.0 && !NearlyEqual(next.input, current.input) then next.input < current.input
    else Before(next.provider, current.provider)
  }

  /** What the providers, in this order, validly offer for a model. */
  function Candidates(upstream: Upstream, order: seq<string>, model: string): seq<Candidate> {
    if order == [] then []
    else
      var earlier, p := Candidates(upstream, order[..|order| - 1], model), order[|order| - 1];
      if p in upstream && model in upstream[p] && BuildCandidate(p, upstream[p][model]).Some?
      then earlier + [BuildCandidate(p, upstream[p][model]).value]
      else earlier
  }

  function Best(candidates: seq<Candidate>): Option<Candidate> {
    if candidates == [] then None
    else
      var current, next := Best(candidates[..|candidates| - 1]), candidates[|candidates| - 1];
      if current == None || ShouldReplace(current.value, next) then Some(next) else current
  }

  method Select(upstream: Upstream, order: seq<string>) returns (selected: map<string, Candidate>)
    requires forall p :: p in order ==> p in upstream
    ensures forall m :: if m in selected then Best(Candidates(upstream, order, m)) == Some(selected[m])
                        else Best(Candidates(upstream, order, m)) == None
  {
    selected := map[];
    for k := 0 to |order|
      invariant forall m :: if m in selected then Best(Candidates(upstream, order[..k], m)) == Some(selected[m])
                            else Best(Candidates(upstream, order[..k], m)) == None
    {
      assert order[..k + 1][..k] == order[..k];
      ghost var before := selected;
      var models := upstream[order[k]].Keys;
      while models != {}
        invariant models <= upstream[order[k]].Keys
        invariant forall m :: m !in upstream[order[k]] || m in models ==>
                    (m in selected <==> m in before) && (m in before ==> selected[m] == before[m])
        invariant forall m :: m in upstream[order[k]] && m !in models ==>
                    if m in selected then Best(Candidates(upstream, order[..k + 1], m)) == Some(selected[m])
                    else Best(Candidates(upstream, order[..k + 1], m)) == None
      {
        var m :| m in models;
        models := models - {m};
        var candidate := BuildCandidate(order[k], upstream[order[k]][m]);
        NextProvider(upstream, order, k, m);
        if candidate.Some? && (m !in selected || ShouldReplace(selected[m], candidate.value)) {
          selected := selected[m := candidate.value];
        }
      }
      forall m | m !in upstream[order[k]]
        ensures Candidates(upstream, order[..k + 1], m) == Candidates(upstream, order[..k], m)
      {
      }
    }
    assert order[..|order|] == order;
  }

  lemma NextProvider(upstream: Upstream, order: seq<string>, k: nat, m: string)
    requires k < |order| && order[k] in upstream && m in upstream[order[k]]
    ensures var current := Best(Candidates(upstream, order[..k], m));
            var next := BuildCandidate(order[k], upstream[order[k]][m]);
            Best(Candidates(upstream, order[..k + 1], m)) ==
            if next.Some? && (current == None || ShouldReplace(current.value, next.value)) then next else current
  {
    assert order[..k + 1][..k] == order[..k];
    var earlier := Candidates(upstream, order[..k], m);
    var next := BuildCandidate(order[k], upstream[order[k]][m]);
    if next.Some? {
      assert (earlier + [next.value])[..|earlier|] == earlier;
    }
  }

  ghost predicate InProviderOrder(candidates: seq<Candidate>) {
    forall i, j :: 0 <= i < j < |candidates| ==> Before(candidates[i].provider, candidates[j].provider)
  }

  /** The candidates are exactly the valid offers, and follow the order of the providers. */
  lemma {:induction false} CandidatesExactly(upstream: Upstream, order: seq<string>, model: string)
    requires Ascending(order)
    ensures var cs := Candidates(upstream, order, model);
            InProviderOrder(cs) &&
            (forall c :: c in cs <==> c.provider in order && c.provider in upstream && model in upstream[c.provider] &&
                                      BuildCandidate(c.provider, upstream[c.provider][model]) == Some(c))
  {
    if order != [] {
      var front, p := order[..|order| - 1], order[|order| - 1];
      CandidatesExactly(upstream, front, model);
      assert order == front + [p];
      var earlier := Candidates(upstream, front, model);
      forall i | 0 <= i < |earlier| ensures Before(earlier[i].provider, p) {
        assert earlier[i] in earlier;
        var k :| 0 <= k < |front| && front[k] == earlier[i].provider;
        assert order[k] == front[k];
      }
    }
  }

  /** The selection prefers a price to no price, misses the cheapest price by less than EPSILON however long the
      list, although near-equality is not transitive, and takes the first provider among equal prices. */
  lemma {:induction false} BestIsCheapest(candidates: seq<Candidate>)
    requires InProviderOrder(candidates)
    ensures Best(candidates) == None <==> candidates == []
    ensures candidates != [] ==>
              var best := Best(candidates).value;
              && best in candidates
              && (forall c :: c in candidates && c.input > 0.0 ==> 0.0 < best.input < c.input + EPSILON)
              && (forall c :: c in candidates && c.input == best.input ==>
                    c == best || Before(best.provider, c.provider))
  {
    hide Before;
    if candidates != [] {
      var n := |candidates| - 1;
      var front, next := candidates[..n], candidates[n];
      BestIsCheapest(front);
      assert candidates == front + [next];
      assert forall c :: c in candidates <==> c in front || c == next;
      if front != [] {
        var current := Best(front).value;
        forall c | c in front ensures Before(c.provider, next.provider) {
          var i :| 0 <= i < n && front[i] == c;
          assert candidates[i] == c;
        }
        BeforeIsTotal(current.provider, next.provider);
      }
    }
  }

  /** Near-equality is not transitive, so comparing with the current choice only is not enough by itself. */
  lemma NearlyEqualIsNotTransitive()
    ensures exists a, b, c :: NearlyEqual(a, b) && NearlyEqual(b, c) && !NearlyEqual(a, c)
  {
    var a, b, c := 1.0, 1.0 + EPSILON * 0.75, 1.0 + EPSILON * 1.5;
    assert NearlyEqual(a, b) && NearlyEqual(b, c) && !NearlyEqual(a, c);
  }

  /** It is the order of the providers that keeps the choice from drifting: visited in another order, the
      tie-break by name can walk away from the cheapest price. */
  lemma UnorderedDrifts()
    ensures exists candidates: seq<Candidate> ::
      && |candidates| == 3 && (forall c: Candidate :: c in candidates ==> c.input > 0.0)
      && Best(candidates).Some?
      && exists c: Candidate :: c in candidates && Best(candidates).value.input >= c.input + EPSILON
  {
    var x := Candidate("c", 1.0, None, None);
    var y := Candidate("b", 1.0 + EPSILON * 0.75, None, None);
    var z := Candidate("a", 1.0 + EPSILON * 1.5, None, None);
    var candidates := [x, y, z];
    assert candidates[..2] == [x, y] && [x, y][..1] == [x] && [x][..0] == [];
    assert Best([x]) == Some(x);
    assert Best([x, y]) == Some(y);
    assert Best(candidates) == Some(z);
    assert x in candidates;
  }

  // ----- prices as ratios -----

  const USD := 500.0
  const INPUT_COST_RATIO_BASE := 1000.0

  function RoundRatio(value: real): real {
    Round(value * 1000000.0) as real / 1000000.0
  }

  function ModelRatio(c: Candidate): real {
    if c.input == 0.0 then 0.0 else RoundRatio(c.input * USD / INPUT_COST_RATIO_BASE)
  }

  /** A ratio to the input price. */
  function Relative(price: real, input: real): real
    requires input != 0.0
  {
    RoundRatio(price / input)
  }

  function ModelTable(selected: map<string, Candidate>): Table {
    map m | m in selected :: Number(ModelRatio(selected[m]))
  }

  function CompletionTable(selected: map<string, Candidate>): Table {
    map m | m in selected && selected[m].input != 0.0 && selected[m].output.Some? ::
      Number(Relative(selected[m].output.value, selected[m].input))
  }

  function CacheTable(selected: map<string, Candidate>): Table {
    map m | m in selected && selected[m].input != 0.0 && selected[m].cacheRead.Some? ::
      Number(Relative(selected[m].cacheRead.value, selected[m].input))
  }

  lemma TablesGrow(selected: map<string, Candidate>, m: string, c: Candidate)
    requires m !in selected
    ensures var more := selected[m := c];
      && ModelTable(more) == ModelTable(selected)[m := Number(ModelRatio(c))]
      && CompletionTable(more) == (if c.input != 0.0 && c.output.Some?
                                   then CompletionTable(selected)[m := Number(Relative(c.output.value, c.input))]
                                   else CompletionTable(selected))
      && CacheTable(more) == (if c.input != 0.0 && c.cacheRead.Some?
                              then CacheTable(selected)[m := Number(Relative(c.cacheRead.value, c.input))]
                              else CacheTable(selected))
  {
    hide ModelRatio, Relative;
  }

  lemma NoTables()
    ensures ModelTable(map[]) == map[] && CompletionTable(map[]) == map[] && CacheTable(map[]) == map[]
  {
  }

  method FillTables(selected: map<string, Candidate>) returns (models: Table, completions: Table, caches: Table)
    ensures models == ModelTable(selected) && completions == CompletionTable(selected) && caches == CacheTable(selected)
  {
    hide RoundRatio, Relative, ModelTable, CompletionTable, CacheTable;
    assert selected - selected.Keys == map[];
    NoTables();
    models, completions, caches := map[], map[], map[];
    var rest := selected.Keys;
    while rest != {}
      invariant rest <= selected.Keys
      invariant models == ModelTable(selected - rest)
      invariant completions == CompletionTable(selected - rest) && caches == CacheTable(selected - rest)
    {
      var m :| m in rest;
      ghost var done := selected - rest;
      rest := rest - {m};
      var c := selected[m];
      assert selected - rest == done[m := c];
      TablesGrow(done, m, c);
      if c.input == 0.0 {
        models := models[m := Number(0.0)];
      } else {
        models := models[m := Number(RoundRatio(c.input * USD / INPUT_COST_RATIO_BASE))];
        if c.output.Some? {
          completions := completions[m := Number(Relative(c.output.value, c.input))];
        }
        if c.cacheRead.Some? {
          caches := caches[m := Number(Relative(c.cacheRead.value, c.input))];
        }
      }
    }
    assert selected - {} == selected;
  }

  function WithTable(data: Data, field: string, table: Table): Data {
    if |table| > 0 then data[field := table] else data
  }

  function DataFrom(models: Table, completions: Table, caches: Table): Data {
    var data := WithTable(WithTable(map[], "model_ratio", models), "completion_ratio", completions);
    WithTable(data, "cache_ratio", caches)
  }

  function DataOf(selected: map<string, Candidate>): Data {
    DataFrom(ModelTable(selected), CompletionTable(selected), CacheTable(selected))
  }

  ghost predicate Selects(upstream: Upstream, order: seq<string>, selected: map<string, Candidate>) {
    && Ascending(order) && (forall p :: p in order <==> p in upstream)
    && forall m :: if m in selected then Best(Candidates(upstream, order, m)) == Some(selected[m])
                   else Best(Candidates(upstream, order, m)) == None
  }

  /** `decoded` is the answer of models.dev, if it can be decoded. */
  method Convert(decoded: Option<Upstream>) returns (r: Import)
    ensures r == NotDecoded <==> decoded == None
    ensures r == Empty <==> decoded == Some(map[])
    ensures r == NoValidEntries <==>
              decoded.Some? && decoded.value != map[] && forall m, c :: !Offer(decoded.value, m, c)
    ensures r.Imported? ==> forall m :: ImportsAs(decoded.value, r.data, m)
  {
    hide Ascending, Best, Candidates, Offer, ImportsAs, Before, ModelTable, CompletionTable, CacheTable;
    if decoded == None {
      return NotDecoded;
    }
    var upstream := decoded.value;
    if |upstream| == 0 {
      return Empty;
    }
    var order := SortedKeys(upstream.Keys);
    var selected := Select(upstream, order);
    assert Selects(upstream, order, selected);
    hide Selects;
    SelectsSome(upstream, order, selected);
    if |selected| == 0 {
      return NoValidEntries;
    }
    var models, completions, caches := FillTables(selected);
    var data: Data := map[];
    if |models| > 0 {
      data := data["model_ratio" := models];
    }
    if |completions| > 0 {
      data := data["completion_ratio" := completions];
    }
    if |caches| > 0 {
      data := data["cache_ratio" := caches];
    }
    assert data == DataFrom(models, completions, caches);
    forall m ensures ImportsAs(upstream, data, m) {
      ImportMeans(upstream, order, selected, m);
    }
    return Imported(data);
  }

  predicate Offer(upstream: Upstream, model: string, c: Candidate) {
    c.provider in upstream && model in upstream[c.provider] &&
    BuildCandidate(c.provider, upstream[c.provider][model]) == Some(c)
  }

  /** The selection in terms of the offers alone. */
  lemma SelectionMeans(upstream: Upstream, order: seq<string>, selected: map<string, Candidate>, m: string)
    requires Selects(upstream, order, selected)
    ensures m in selected <==> exists c :: Offer(upstream, m, c)
    ensures m in selected ==>
      && Offer(upstream, m, selected[m])
      && (forall c :: Offer(upstream, m, c) && c.input > 0.0 ==> 0.0 < selected[m].input < c.input + EPSILON)
      && (forall c :: Offer(upstream, m, c) && c.input == selected[m].input ==>
            c == selected[m] || Before(selected[m].provider, c.provider))
  {
    hide Best, Candidates, BuildCandidate, Before;
    var cs := Candidates(upstream, order, m);
    CandidatesExactly(upstream, order, m);
    BestIsCheapest(cs);
    assert forall c :: c in cs <==> Offer(upstream, m, c);
    if cs != [] {
      assert cs[0] in cs;
    }
  }

  /** A price written as a ratio to the input price, itself written as a model ratio, comes back within this bound. */
  function Bound(input: real, price: real): real
    requires input > 0.0
  {
    0.0000005 * input + 0.000001 * (price / input) + 0.0000000000005
  }

  lemma RoundRatioNear(v: real)
    ensures -0.0000005 <= RoundRatio(v) - v <= 0.0000005
  {
    RoundIsNearest(v * 1000000.0, Round(v * 1000000.0));
  }

  lemma Expand(a: real, b: real, p: real, q: real)
    ensures Times(a + p, b + q) == Times(a, b) + Times(a, q) + Times(b, p) + Times(p, q)
  {
  }

  lemma Within(a: real, q: real, e: real)
    requires 0.0 <= a && Abs(q) <= e
    ensures Abs(Times(a, q)) <= Times(a, e)
  {
  }

  lemma Square(p: real, q: real, e: real)
    requires Abs(p) <= e && Abs(q) <= e
    ensures Abs(Times(p, q)) <= Times(e, e)
  {
    Within(Abs(p), q, e);
    TimesMonotone(Abs(p), e, e);
    assert Abs(Times(p, q)) == Abs(Times(Abs(p), q));
  }

  lemma ProductBound(a: real, b: real, x: real, y: real, e: real)
    requires 0.0 <= a && 0.0 <= b && Abs(x - a) <= e && Abs(y - b) <= e
    ensures Abs(Times(x, y) - Times(a, b)) <= Times(a, e) + Times(b, e) + Times(e, e)
  {
    hide Times;
    Expand(a, b, x - a, y - b);
    Within(a, y - b, e);
    Within(b, x - a, e);
    Square(x - a, y - b, e);
  }

  lemma Shares(input: real, price: real)
    requires input > 0.0 && price >= 0.0
    ensures input * USD / INPUT_COST_RATIO_BASE == input / 2.0
    ensures price / input >= 0.0 && Times(input / 2.0, price / input) == price / 2.0
  {
    assert input * (price / input) == price;
  }

  const HALF_DIGIT := 0.0000005

  lemma BoundIs(input: real, price: real)
    requires input > 0.0 && price >= 0.0
    ensures Times(input / 2.0, HALF_DIGIT) + Times(price / input, HALF_DIGIT) + Times(HALF_DIGIT, HALF_DIGIT) <=
            Bound(input, price) / 2.0
  {
  }

  /** Charging by the imported ratios reproduces every price within that bound. */
  lemma PriceComesBack(c: Candidate, price: real)
    requires c.input > 0.0 && price >= 0.0
    ensures Abs(2.0 * ModelRatio(c) - c.input) <= 0.000001
    ensures Abs(2.0 * Times(ModelRatio(c), Relative(price, c.input)) - price) <= Bound(c.input, price)
  {
    hide Times, RoundRatio, Bound;
    Shares(c.input, price);
    RoundRatioNear(c.input / 2.0);
    RoundRatioNear(price / c.input);
    ProductBound(c.input / 2.0, price / c.input, ModelRatio(c), Relative(price, c.input), HALF_DIGIT);
    BoundIs(c.input, price);
  }

  /** A price below one millionth rounds to a ratio of zero: such a model is imported as free, although it is not. */
  lemma FreeExactly(c: Candidate)
    requires c.input >= 0.0
    ensures ModelRatio(c) == 0.0 <==> c.input < 0.000001
  {
    if c.input != 0.0 {
      var x := c.input * USD / INPUT_COST_RATIO_BASE * 1000000.0;
      assert x == c.input * 500000.0;
      RoundIsNearest(x, 0);
    }
  }

  /** What is imported for a model with these prices: half the input price up to a millionth, the ratios from which the
      other prices come back within the bound, and no ratio for a price that is not offered or for a free model. */
  ghost predicate RatiosOf(data: Data, m: string, c: Candidate) {
    && m in TableIn(data, "model_ratio") && TableIn(data, "model_ratio")[m].Number?
    && var ratio := TableIn(data, "model_ratio")[m].x;
    && (c.input <= 0.0 ==> ratio == 0.0)
    && (c.input > 0.0 ==> Abs(2.0 * ratio - c.input) <= 0.000001)
    && PriceIn(data, "completion_ratio", m, ratio, c.input, c.output)
    && PriceIn(data, "cache_ratio", m, ratio, c.input, c.cacheRead)
  }

  ghost predicate PriceIn(data: Data, field: string, m: string, ratio: real, input: real, price: Option<real>) {
    if input <= 0.0 || price == None then m !in TableIn(data, field)
    else
      && m in TableIn(data, field) && TableIn(data, field)[m].Number?
      && Abs(2.0 * Times(ratio, TableIn(data, field)[m].x) - price.value) <= Bound(input, price.value)
  }

  function TableIn(data: Data, field: string): Table {
    if field in data then data[field] else map[]
  }

  /** An offer to be selected: a price rather than none, the cheapest up to EPSILON, the first provider among equals. */
  ghost predicate Selectable(upstream: Upstream, m: string, c: Candidate) {
    && Offer(upstream, m, c)
    && (forall o :: Offer(upstream, m, o) && o.input > 0.0 ==> 0.0 < c.input < o.input + EPSILON)
    && (forall o :: Offer(upstream, m, o) && o.input == c.input ==> o == c || Before(c.provider, o.provider))
  }

  /** The import lists a model in its three tables by the ratios of a selectable offer, and in none without an offer. */
  ghost predicate ImportsAs(upstream: Upstream, data: Data, m: string) {
    && (forall f :: f in data ==> f == "model_ratio" || f == "completion_ratio" || f == "cache_ratio")
    && (forall f :: f in data ==> data[f] != map[])
    && if exists c :: Offer(upstream, m, c)
       then exists c :: Selectable(upstream, m, c) && RatiosOf(data, m, c)
       else forall f :: f in data ==> m !in data[f]
  }

  lemma DataFromTables(models: Table, completions: Table, caches: Table)
    ensures var data := DataFrom(models, completions, caches);
            && TableIn(data, "model_ratio") == models
            && TableIn(data, "completion_ratio") == completions
            && TableIn(data, "cache_ratio") == caches
            && (forall f :: f in data ==> data[f] != map[])
            && (forall f :: f in data ==> f == "model_ratio" || f == "completion_ratio" || f == "cache_ratio")
  {
  }

  lemma TablesIn(selected: map<string, Candidate>)
    ensures var data := DataOf(selected);
            && TableIn(data, "model_ratio") == ModelTable(selected)
            && TableIn(data, "completion_ratio") == CompletionTable(selected)
            && TableIn(data, "cache_ratio") == CacheTable(selected)
            && (forall f :: f in data ==> data[f] != map[])
            && (forall f :: f in data ==> f == "model_ratio" || f == "completion_ratio" || f == "cache_ratio")
  {
    hide ModelTable, CompletionTable, CacheTable, DataFrom, TableIn;
    DataFromTables(ModelTable(selected), CompletionTable(selected), CacheTable(selected));
  }

  lemma SelectedRatios(selected: map<string, Candidate>, m: string)
    requires m in selected && selected[m].input >= 0.0
    requires selected[m].output.Some? ==> selected[m].output.value >= 0.0
    requires selected[m].cacheRead.Some? ==> selected[m].cacheRead.value >= 0.0
    ensures RatiosOf(DataOf(selected), m, selected[m])
  {
    var c := selected[m];
    TablesIn(selected);
    if c.input > 0.0 {
      PriceComesBack(c, 0.0);
      if c.output.Some? {
        PriceComesBack(c, c.output.value);
      }
      if c.cacheRead.Some? {
        PriceComesBack(c, c.cacheRead.value);
      }
    }
    hide DataOf, Bound, Times, RoundRatio, Relative;
  }

  /** The import in terms of the offers alone. */
  lemma ImportMeans(upstream: Upstream, order: seq<string>, selected: map<string, Candidate>, m: string)
    requires Selects(upstream, order, selected)
    ensures ImportsAs(upstream, DataOf(selected), m)
  {
    hide DataOf, Selects, RatiosOf, Offer, Before, ModelTable, CompletionTable, CacheTable;
    SelectionMeans(upstream, order, selected, m);
    TablesIn(selected);
    if m in selected {
      OfferIsValid(upstream, m, selected[m]);
      SelectedRatios(selected, m);
      assert Selectable(upstream, m, selected[m]);
    } else {
      NotListed(selected, m);
    }
  }

  lemma NotListed(selected: map<string, Candidate>, m: string)
    requires m !in selected
    ensures forall f :: f in DataOf(selected) ==> m !in DataOf(selected)[f]
  {
    hide DataOf;
    TablesIn(selected);
    forall f | f in DataOf(selected) ensures m !in DataOf(selected)[f] {
      assert DataOf(selected)[f] == TableIn(DataOf(selected), f);
    }
  }

  lemma OfferIsValid(upstream: Upstream, m: string, c: Candidate)
    requires Offer(upstream, m, c)
    ensures c.input >= 0.0
    ensures c.output.Some? ==> c.output.value >= 0.0
    ensures c.cacheRead.Some? ==> c.cacheRead.value >= 0.0
  {
  }

  lemma SelectsSome(upstream: Upstream, order: seq<string>, selected: map<string, Candidate>)
    requires Selects(upstream, order, selected)
    ensures selected == map[] <==> forall m, c :: !Offer(upstream, m, c)
  {
    hide Selects, Offer;
    if m :| m in selected {
      SelectionMeans(upstream, order, selected, m);
      var c :| Offer(upstream, m, c);
    } else {
      assert selected == map[];
      forall m, c ensures !Offer(upstream, m, c) {
        SelectionMeans(upstream, order, selected, m);
      }
    }
  }
}
