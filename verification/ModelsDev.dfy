/** Choosing one price per model out of the models.dev catalogue: the cheapest
    non-zero input cost, compared with a tolerance that is not transitive. */
module ModelsDev {
  import opened Options
  import opened PricingDiff

  /** Prices in USD per million tokens. JSON has no NaN and no infinities. */
  datatype Cost = Cost(input: Option<real>, output: Option<real>, cacheRead: Option<real>)

  datatype Candidate = Candidate(provider: string, input: real, output: Option<real>, cacheRead: Option<real>)

  /** Provider name to model name to cost. */
  type Catalogue = map<string, map<string, Cost>>

  /** `buildModelsDevCandidate`. */
  function BuildCandidate(provider: string, cost: Cost): Option<Candidate> {
    if cost.input.None? || cost.input.value < 0.0 then None
    else if cost.output.Some? && cost.output.value < 0.0 then None
    else if cost.input.value == 0.0 && cost.output.Some? && cost.output.value > 0.0 then None
    else
      var cacheRead := if cost.cacheRead.Some? && cost.cacheRead.value >= 0.0 then cost.cacheRead else None;
      Some(Candidate(provider, cost.input.value, cost.output, cacheRead))
  }

  /** Go's `<` on strings. */
  predicate Less(a: string, b: string) {
    b != "" && (a == "" || a[0] < b[0] || (a[0] == b[0] && Less(a[1..], b[1..])))
  }

  lemma {:induction false} LessIsStrict(a: string, b: string)
    requires Less(a, b)
    ensures !Less(b, a) && a != b
  {
    if a != "" && a[0] == b[0] {
      LessIsStrict(a[1..], b[1..]);
    }
  }

  lemma {:induction false} NotLessItself(a: string)
    ensures !Less(a, a)
  {
    if a != "" {
      NotLessItself(a[1..]);
    }
  }

  lemma {:induction false} LessIsTransitive(a: string, b: string, c: string)
    requires Less(a, b) && Less(b, c)
    ensures Less(a, c)
  {
    if a != "" && a[0] == b[0] == c[0] {
      LessIsTransitive(a[1..], b[1..], c[1..]);
    }
  }

  lemma {:induction false} LessIsTotal(a: string, b: string)
    ensures Less(a, b) || Less(b, a) || a == b
  {
    if a != "" && b != "" && a[0] == b[0] {
      LessIsTotal(a[1..], b[1..]);
      assert a == [a[0]] + a[1..] && b == [b[0]] + b[1..];
    }
  }

  /** `shouldReplaceModelsDevCandidate`. */
  predicate ShouldReplace(current: Candidate, next: Candidate) {
    if (current.input > 0.0) != (next.input > 0.0) then next.input > 0.0
    else if next.input > 0.0 && !NearlyEqual(next.input, current.input) then next.input < current.input
    else Less(next.provider, current.provider)
  }

  /** What one provider offers for a model. */
  function Offer(data: Catalogue, provider: string, model: string): Option<Candidate> {
    if provider in data && model in data[provider] then BuildCandidate(provider, data[provider][model]) else None
  }

  /** A provider's offer is its entry for the model, if the input price is there, no price
      is negative and a free input has no priced output; a negative cache price is left out. */
  lemma OfferIff(data: Catalogue, provider: string, model: string, c: Candidate)
    ensures Offer(data, provider, model) == Some(c) <==>
      provider in data && model in data[provider] &&
      var cost := data[provider][model];
      c.provider == provider && cost.input == Some(c.input) && cost.output == c.output &&
      c.input >= 0.0 && (c.output.Some? ==> c.output.value >= 0.0 && (c.input == 0.0 ==> c.output.value == 0.0)) &&
      (if c.cacheRead.Some? then cost.cacheRead == c.cacheRead && c.cacheRead.value >= 0.0
       else cost.cacheRead.Some? ==> cost.cacheRead.value < 0.0)
  {
  }

  function Choose(current: Option<Candidate>, offer: Option<Candidate>): Option<Candidate> {
    if offer.None? then current
    else if current.None? || ShouldReplace(current.value, offer.value) then offer
    else current
  }

  /** The choice for one model after the first `n` providers. */
  function Pick(data: Catalogue, providers: seq<string>, n: nat, model: string): Option<Candidate>
    requires n <= |providers|
  {
    if n == 0 then None
    else Choose(Pick(data, providers, n - 1, model), Offer(data, providers[n - 1], model))
  }

  predicate Ascending(xs: seq<string>) {
    forall i, j :: 0 <= i < j < |xs| ==> Less(xs[i], xs[j])
  }

  // ----- what the choice means -----

  /** `c` is a best offer of the first `n` providers: it is one of them, it is
      non-zero if any is, it is within the tolerance of the cheapest non-zero one,
      and among free offers it is the first by name. */
  predicate IsBest(data: Catalogue, providers: seq<string>, n: nat, model: string, c: Candidate)
    requires n <= |providers|
  {
    (exists i :: 0 <= i < n && Offer(data, providers[i], model) == Some(c)) &&
    forall i :: 0 <= i < n && Offer(data, providers[i], model).Some? ==>
      var d := Offer(data, providers[i], model).value;
      (d.input > 0.0 ==> c.input > 0.0 && c.input < d.input + EPSILON) &&
      (c.input == 0.0 ==> !Less(d.provider, c.provider))
  }

  lemma ChooseKeepsBest(data: Catalogue, providers: seq<string>, n: nat, model: string)
    requires n < |providers| && Ascending(providers)
    requires var p := Pick(data, providers, n, model);
      if p.Some? then IsBest(data, providers, n, model, p.value)
      else forall i :: 0 <= i < n ==> Offer(data, providers[i], model).None?
    ensures var p := Pick(data, providers, n + 1, model);
      if p.Some? then IsBest(data, providers, n + 1, model, p.value)
      else forall i :: 0 <= i < n + 1 ==> Offer(data, providers[i], model).None?
  {
    var p, offer := Pick(data, providers, n, model), Offer(data, providers[n], model);
    NotLessItself(providers[n]);
    if p.Some? && offer.Some? {
      var c, d := p.value, offer.value;
      var i :| 0 <= i < n && Offer(data, providers[i], model) == Some(c);
      assert c.provider == providers[i] && d.provider == providers[n];
      LessIsStrict(c.provider, d.provider);
      var next := Pick(data, providers, n + 1, model);
      assert next == Some(if ShouldReplace(c, d) then d else c);
    }
  }

  lemma {:induction false} PickIsBest(data: Catalogue, providers: seq<string>, n: nat, model: string)
    requires n <= |providers| && Ascending(providers)
    ensures var p := Pick(data, providers, n, model);
      if p.Some? then IsBest(data, providers, n, model, p.value)
      else forall i :: 0 <= i < n ==> Offer(data, providers[i], model).None?
  {
    if n > 0 {
      PickIsBest(data, providers, n - 1, model);
      ChooseKeepsBest(data, providers, n - 1, model);
    }
  }

  // ----- the selection, as the code runs it -----

  /** sort.Strings on the keys of a map: inserts each key before the first greater one. */
  method SortedKeys<T>(data: map<string, T>) returns (keys: seq<string>)
    ensures Ascending(keys) && forall k :: k in keys <==> k in data
  {
    keys := [];
    var todo := data.Keys;
    while todo != {}
      invariant todo <= data.Keys && Ascending(keys)
      invariant forall k :: k in keys <==> k in data && k !in todo
      decreases todo
    {
      var key :| key in todo;
      todo := todo - {key};
      var i := 0;
      while i < |keys| && Less(keys[i], key)
        invariant 0 <= i <= |keys| && forall j :: 0 <= j < i ==> Less(keys[j], key)
      {
        i := i + 1;
      }
      InsertKeepsAscending(keys, i, key);
      keys := keys[..i] + [key] + keys[i..];
    }
  }

  lemma InsertKeepsAscending(keys: seq<string>, i: nat, key: string)
    requires Ascending(keys) && key !in keys && i <= |keys|
    requires (forall j :: 0 <= j < i ==> Less(keys[j], key)) && (i < |keys| ==> !Less(keys[i], key))
    ensures Ascending(keys[..i] + [key] + keys[i..])
    ensures forall k :: k in keys[..i] + [key] + keys[i..] <==> k in keys || k == key
  {
    forall j | i <= j < |keys| ensures Less(key, keys[j]) {
      LessIsTotal(keys[i], key);
      if i < j {
        LessIsTransitive(key, keys[i], keys[j]);
      }
    }
    var all := keys[..i] + [key] + keys[i..];
    assert keys == keys[..i] + keys[i..];
    forall a, b | 0 <= a < b < |all| ensures Less(all[a], all[b]) {
      if a < i && b > i {
        assert all[b] == keys[b - 1];
      }
    }
  }

  function Current(selected: map<string, Candidate>, m: string): Option<Candidate> {
    if m in selected then Some(selected[m]) else None
  }

  /** The providers of a catalogue in ascending order. */
  predicate OrderOf(providers: seq<string>, data: Catalogue) {
    Ascending(providers) && (forall p :: p in providers ==> p in data) && (forall p :: p in data ==> p in providers)
  }

  /** A catalogue has only one order, so the choice does not depend on map iteration. */
  lemma OrderIsUnique(xs: seq<string>, ys: seq<string>, data: Catalogue)
    requires OrderOf(xs, data) && OrderOf(ys, data)
    ensures xs == ys
  {
    AscendingIsUnique(xs, ys);
  }

  lemma TailMembers(xs: seq<string>)
    requires Ascending(xs) && xs != []
    ensures forall x :: x in xs[1..] <==> x in xs && x != xs[0]
  {
    forall x ensures x in xs[1..] <==> x in xs && x != xs[0] {
      if x in xs[1..] {
        var i :| 0 <= i < |xs| - 1 && xs[1..][i] == x;
        assert Less(xs[0], xs[i + 1]);
        NotLessItself(xs[0]);
      }
    }
  }

  lemma {:induction false} AscendingIsUnique(xs: seq<string>, ys: seq<string>)
    requires Ascending(xs) && Ascending(ys) && forall x :: x in xs <==> x in ys
    ensures xs == ys
  {
    assert ys == [] || ys[0] in ys;
    assert xs == [] || xs[0] in xs;
    if xs == [] {
    } else {
      assert xs[0] in ys && ys[0] in xs;
      var j :| 0 <= j < |ys| && ys[j] == xs[0];
      var k :| 0 <= k < |xs| && xs[k] == ys[0];
      if j > 0 && k > 0 {
        LessIsStrict(ys[0], ys[j]);
      }
      assert xs[0] == ys[0];
      TailMembers(xs);
      TailMembers(ys);
      AscendingIsUnique(xs[1..], ys[1..]);
    }
  }

  /** Order-free meaning: an offer, non-zero whenever some offer is, and within the
      tolerance of every non-zero offer. */
  predicate IsCheapest(data: Catalogue, model: string, c: Candidate) {
    (exists p :: p in data && Offer(data, p, model) == Some(c)) &&
    (forall p :: p in data && Offer(data, p, model).Some? && Offer(data, p, model).value.input > 0.0 ==>
       c.input > 0.0 && c.input < Offer(data, p, model).value.input + EPSILON)
  }

  lemma PickIsCheapest(data: Catalogue, providers: seq<string>, model: string)
    requires OrderOf(providers, data)
    ensures var pick := Pick(data, providers, |providers|, model);
      if pick.Some? then IsCheapest(data, model, pick.value)
      else forall p :: p in data ==> Offer(data, p, model).None?
  {
    PickIsBest(data, providers, |providers|, model);
    var pick := Pick(data, providers, |providers|, model);
    if pick.Some? {
      var i :| 0 <= i < |providers| && Offer(data, providers[i], model) == pick;
      assert providers[i] in data;
      forall p | p in data && Offer(data, p, model).Some? && Offer(data, p, model).value.input > 0.0
        ensures pick.value.input > 0.0 && pick.value.input < Offer(data, p, model).value.input + EPSILON
      {
        var j :| 0 <= j < |providers| && providers[j] == p;
      }
    } else {
      forall p | p in data ensures Offer(data, p, model).None? {
        var j :| 0 <= j < |providers| && providers[j] == p;
      }
    }
  }

  /** The loop of `convertModelsDevToRatioData`: providers in order, the models of a
      provider in any order. */
  method Select(data: Catalogue) returns (selected: map<string, Candidate>)
    ensures forall providers, m :: OrderOf(providers, data) ==>
      Current(selected, m) == Pick(data, providers, |providers|, m)
    ensures forall m :: m in selected ==> IsCheapest(data, m, selected[m])
    ensures forall m, p :: m !in selected && p in data ==> Offer(data, p, m).None?
  {
    var order := SortedKeys(data);
    selected := map[];
    for n := 0 to |order|
      invariant forall m :: Current(selected, m) == Pick(data, order, n, m)
    {
      selected := SelectFrom(data, order[n], selected);
    }
    forall providers, m | OrderOf(providers, data)
      ensures Current(selected, m) == Pick(data, providers, |providers|, m)
    {
      OrderIsUnique(providers, order, data);
    }
    forall m ensures m in selected ==> IsCheapest(data, m, selected[m])
             ensures forall p :: m !in selected && p in data ==> Offer(data, p, m).None? {
      PickIsCheapest(data, order, m);
      assert Current(selected, m) == Pick(data, order, |order|, m);
    }
  }

  method SelectFrom(data: Catalogue, provider: string, before: map<string, Candidate>)
    returns (selected: map<string, Candidate>)
    requires provider in data
    ensures forall m :: Current(selected, m) == Choose(Current(before, m), Offer(data, provider, m))
  {
    selected := before;
    var todo := data[provider].Keys;
    while todo != {}
      invariant todo <= data[provider].Keys
      invariant forall m :: m in todo ==> Current(selected, m) == Current(before, m)
      invariant forall m :: m !in todo ==> Current(selected, m) == Choose(Current(before, m), Offer(data, provider, m))
      decreases todo
    {
      var model :| model in todo;
      todo := todo - {model};
      var offer := BuildCandidate(provider, data[provider][model]);
      if offer.Some? && (model !in selected || ShouldReplace(selected[model], offer.value)) {
        selected := selected[model := offer.value];
      }
    }
  }

  /** The order matters: in descending order the tie-break drifts upwards, each step
      within the tolerance, to a price that is not. */
  lemma DescendingOrderDrifts(model: string)
    ensures
      var price := (x: real) => map[model := Cost(Some(x), None, None)];
      var data := map["a" := price(1.0 + 1.5 * EPSILON), "b" := price(1.0 + 0.8 * EPSILON), "c" := price(1.0)];
      var pick := Pick(data, ["c", "b", "a"], 3, model);
      pick.Some? && pick.value.input >= Offer(data, "c", model).value.input + EPSILON
  {
    var price := (x: real) => map[model := Cost(Some(x), None, None)];
    var data := map["a" := price(1.0 + 1.5 * EPSILON), "b" := price(1.0 + 0.8 * EPSILON), "c" := price(1.0)];
    var order := ["c", "b", "a"];
    assert Less("b", "c") && Less("a", "b");
    assert Pick(data, order, 1, model) == Offer(data, "c", model);
    assert Pick(data, order, 2, model) == Offer(data, "b", model);
    assert Pick(data, order, 3, model) == Offer(data, "a", model);
  }
}
