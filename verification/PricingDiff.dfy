/** Comparing local prices with those of several upstream channels, field by field,
    and pruning channels and entries that show no difference. */
module PricingDiff {

  const EPSILON: real := 0.000000001

  const FIELDS: seq<string> := [
    "model_ratio", "completion_ratio", "cache_ratio", "create_cache_ratio", "image_ratio",
    "audio_ratio", "audio_completion_ratio", "model_price", "billing_mode", "billing_expr"]

  /** A decoded JSON value; `Null` is Go's nil. */
  datatype Value = Null | Num(x: real) | Str(s: string) | Flag(b: bool)

  const SAME: Value := Str("same")

  predicate NearlyEqual(a: real, b: real) {
    if a > b then a - b < EPSILON else b - a < EPSILON
  }

  /** `valuesEqual`. */
  predicate ValuesEqual(a: Value, b: Value) {
    if a.Num? && b.Num? then NearlyEqual(a.x, b.x) else a == b
  }

  /** A table per field, from model name to value. */
  type Prices = map<string, map<string, Value>>

  datatype Channel = Channel(name: string, data: Prices)

  datatype Item = Item(current: Value, upstreams: map<string, Value>, confidence: map<string, bool>)

  type Row = map<string, Item>
  type Table = map<string, Row>

  predicate Has(data: Prices, field: string, model: string) {
    field in data && model in data[field]
  }

  function Get(data: Prices, field: string, model: string): Value {
    if Has(data, field, model) then data[field][model] else Null
  }

  function Column(data: Prices, field: string): map<string, Value> {
    if field in data then data[field] else map[]
  }

  // ----- the passes, as values -----

  /** 37.5 with completion 1 is the default of an unconfigured site, unless one of the
      two tables is missing altogether. */
  predicate Trusted(ch: Channel, model: string) {
    var ratios, completions := Column(ch.data, "model_ratio"), Column(ch.data, "completion_ratio");
    !(|ratios| > 0 && |completions| > 0 && model in ratios && model in completions &&
      ratios[model].Num? && completions[model].Num? &&
      NearlyEqual(ratios[model].x, 37.5) && NearlyEqual(completions[model].x, 1.0))
  }

  /** What the entry shows for one channel. */
  function Shown(local: Value, ch: Channel, field: string, model: string): Value {
    if Has(ch.data, field, model) then
      if ValuesEqual(local, ch.data[field][model]) then SAME else ch.data[field][model]
    else if local == Null then SAME
    else Null
  }

  predicate IsReal(v: Value) {
    v != Null && v != SAME
  }

  /** The two ways in which a channel raises `hasDifference`. */
  predicate Differs(local: Value, ch: Channel, field: string, model: string) {
    if local != Null then Has(ch.data, field, model) && !ValuesEqual(local, ch.data[field][model])
    else IsReal(Shown(local, ch, field, model))
  }

  /** The entry's values after the first `n` channels; a later equal name wins. */
  function ShownBy(local: Value, channels: seq<Channel>, n: nat, field: string, model: string): map<string, Value>
    requires n <= |channels|
  {
    if n == 0 then map[]
    else
      var rest := ShownBy(local, channels, n - 1, field, model);
      rest[channels[n - 1].name := Shown(local, channels[n - 1], field, model)]
  }

  function TrustedBy(channels: seq<Channel>, n: nat, model: string): map<string, bool>
    requires n <= |channels|
  {
    if n == 0 then map[]
    else TrustedBy(channels, n - 1, model)[channels[n - 1].name := Trusted(channels[n - 1], model)]
  }

  predicate Included(local: Value, channels: seq<Channel>, field: string, model: string) {
    if local != Null then exists i :: 0 <= i < |channels| && Differs(local, channels[i], field, model)
    else exists i :: 0 <= i < |channels| && Has(channels[i].data, field, model)
  }

  function FullItem(local: Prices, channels: seq<Channel>, field: string, model: string): Item {
    Item(Get(local, field, model),
         ShownBy(Get(local, field, model), channels, |channels|, field, model),
         TrustedBy(channels, |channels|, model))
  }

  /** The second pass, on the first `n` fields of one model. */
  function FullRow(local: Prices, channels: seq<Channel>, model: string, n: nat): Row
    requires n <= |FIELDS|
  {
    if n == 0 then map[]
    else
      var row, field := FullRow(local, channels, model, n - 1), FIELDS[n - 1];
      if Included(Get(local, field, model), channels, field, model)
      then row[field := FullItem(local, channels, field, model)]
      else row
  }

  function FullTable(local: Prices, channels: seq<Channel>, models: set<string>): Table {
    map model | model in models && FullRow(local, channels, model, |FIELDS|) != map[] ::
      FullRow(local, channels, model, |FIELDS|)
  }

  function RowDiffers(row: Row): set<string> {
    set field, name | field in row && name in row[field].upstreams && IsReal(row[field].upstreams[name]) :: name
  }

  function TableDiffers(table: Table): set<string> {
    set model, name | model in table && name in RowDiffers(table[model]) :: name
  }

  function PruneItem(item: Item, keep: set<string>): Item {
    Item(item.current,
         map name | name in item.upstreams && name in keep :: item.upstreams[name],
         map name | name in item.confidence && name in keep :: item.confidence[name])
  }

  predicate Interesting(item: Item) {
    exists name :: name in item.upstreams && item.upstreams[name] != SAME
  }

  function PruneRow(row: Row, keep: set<string>): Row {
    map field | field in row && Interesting(PruneItem(row[field], keep)) :: PruneItem(row[field], keep)
  }

  function PruneTable(table: Table, keep: set<string>): Table {
    map model | model in table && PruneRow(table[model], keep) != map[] :: PruneRow(table[model], keep)
  }

  function ModelsOf(data: Prices): set<string> {
    set field, model | field in FIELDS && model in Column(data, field) :: model
  }

  function AllModels(local: Prices, channels: seq<Channel>): set<string> {
    ModelsOf(local) + (set ch, model | ch in channels && model in ModelsOf(ch.data) :: model)
  }

  /** `buildDifferences`. */
  function Differences(local: Prices, channels: seq<Channel>): Table {
    var full := FullTable(local, channels, AllModels(local, channels));
    PruneTable(full, TableDiffers(full))
  }

  // ----- the passes, as the code runs them -----

  method CollectModels(local: Prices, channels: seq<Channel>) returns (models: set<string>)
    ensures models == AllModels(local, channels)
  {
    models := ModelsOf(local);
    for i := 0 to |channels|
      invariant models == AllModels(local, channels[..i])
    {
      assert channels[..i + 1] == channels[..i] + [channels[i]];
      models := models + ModelsOf(channels[i].data);
    }
    assert channels[..|channels|] == channels;
  }

  /** The loop over channels that fills one entry. */
  method FillItem(local: Value, channels: seq<Channel>, field: string, model: string)
    returns (included: bool, item: Item)
    ensures included == Included(local, channels, field, model)
    ensures item ==
      Item(local, ShownBy(local, channels, |channels|, field, model), TrustedBy(channels, |channels|, model))
  {
    hide Shown, Differs, Trusted, Has;
    var shown: map<string, Value>, trusted: map<string, bool> := map[], map[];
    var hasUpstream, hasDifference := false, false;
    for i := 0 to |channels|
      invariant shown == ShownBy(local, channels, i, field, model)
      invariant trusted == TrustedBy(channels, i, model)
      invariant hasUpstream <==> exists j :: 0 <= j < i && Has(channels[j].data, field, model)
      invariant hasDifference <==> exists j :: 0 <= j < i && Differs(local, channels[j], field, model)
    {
      var ch := channels[i];
      var value, differs := ShowOne(local, ch, field, model);
      hasUpstream := hasUpstream || Has(ch.data, field, model);
      hasDifference := hasDifference || differs;
      shown := shown[ch.name := value];
      trusted := trusted[ch.name := Trusted(ch, model)];
    }
    included := if local != Null then hasDifference else hasUpstream;
    item := Item(local, shown, trusted);
  }

  /** The branches for one channel, in the code's order. */
  method ShowOne(local: Value, ch: Channel, field: string, model: string) returns (value: Value, differs: bool)
    ensures value == Shown(local, ch, field, model) && differs == Differs(local, ch, field, model)
  {
    value, differs := Null, false;
    if Has(ch.data, field, model) {
      value := ch.data[field][model];
      if local != Null && !ValuesEqual(local, value) {
        differs := true;
      } else if ValuesEqual(local, value) {
        value := SAME;
      }
    }
    if value == Null && local == Null {
      value := SAME;
    }
    if local == Null && value != Null && value != SAME {
      differs := true;
    }
  }

  method FillRow(local: Prices, channels: seq<Channel>, model: string) returns (row: Row)
    ensures row == FullRow(local, channels, model, |FIELDS|)
  {
    row := map[];
    for n := 0 to |FIELDS|
      invariant row == FullRow(local, channels, model, n)
    {
      var included, item := FillItem(Get(local, FIELDS[n], model), channels, FIELDS[n], model);
      if included {
        row := row[FIELDS[n] := item];
      }
    }
  }

  method FillTable(local: Prices, channels: seq<Channel>, models: set<string>) returns (table: Table)
    ensures table == FullTable(local, channels, models)
  {
    table := map[];
    var todo := models;
    while todo != {}
      invariant todo <= models
      invariant table == FullTable(local, channels, models - todo)
      decreases todo
    {
      var model :| model in todo;
      var row := FillRow(local, channels, model);
      assert models - (todo - {model}) == models - todo + {model};
      todo := todo - {model};
      if row != map[] {
        table := table[model := row];
      }
    }
    assert models - todo == models;
  }

  method FindDiffering(table: Table) returns (keep: set<string>)
    ensures keep == TableDiffers(table)
  {
    keep := {};
    var todo := table.Keys;
    while todo != {}
      invariant todo <= table.Keys
      invariant forall name :: name in keep <==>
        exists model :: model in table && model !in todo && name in RowDiffers(table[model])
      decreases todo
    {
      var model :| model in todo;
      todo := todo - {model};
      keep := keep + RowDiffers(table[model]);
    }
  }

  method Prune(full: Table, keep: set<string>) returns (table: Table)
    ensures table == PruneTable(full, keep)
  {
    hide PruneRow;
    table := full;
    var todo := full.Keys;
    while todo != {}
      invariant todo <= full.Keys && todo <= table.Keys <= full.Keys
      invariant forall model :: model in full && model !in todo ==>
        (model in table <==> PruneRow(full[model], keep) != map[])
      invariant forall model :: model in table ==>
        table[model] == if model in todo then full[model] else PruneRow(full[model], keep)
      decreases todo
    {
      var model :| model in todo;
      todo := todo - {model};
      var row := PruneRow(table[model], keep);
      table := if row == map[] then table - {model} else table[model := row];
    }
  }

  /** `buildDifferences`: fill, find the channels that differ, prune. Models are
      visited in any order. */
  method BuildDifferences(local: Prices, channels: seq<Channel>) returns (table: Table)
    ensures table == Differences(local, channels)
  {
    var models := CollectModels(local, channels);
    var full := FillTable(local, channels, models);
    var keep := FindDiffering(full);
    table := Prune(full, keep);
  }

  // ----- what the result means -----

  predicate DistinctNames(channels: seq<Channel>) {
    forall i, j :: 0 <= i < j < |channels| ==> channels[i].name != channels[j].name
  }

  /** No upstream value is null or the text that marks equality. */
  ghost predicate Clean(channels: seq<Channel>) {
    forall i, field, model :: 0 <= i < |channels| && Has(channels[i].data, field, model) ==>
      IsReal(channels[i].data[field][model])
  }

  /** A channel quotes a value that is not equal to the local one. */
  predicate Quotes(local: Prices, ch: Channel, field: string, model: string) {
    Has(ch.data, field, model) && !ValuesEqual(Get(local, field, model), ch.data[field][model])
  }

  /** Numbers are equal within a billionth, anything else as it is. */
  lemma QuotesIff(local: Prices, ch: Channel, field: string, model: string)
    ensures Quotes(local, ch, field, model) <==>
      field in ch.data && model in ch.data[field] &&
      var mine := if field in local && model in local[field] then local[field][model] else Null;
      var theirs := ch.data[field][model];
      mine != theirs && !(mine.Num? && theirs.Num? && -0.000000001 < mine.x - theirs.x < 0.000000001)
  {
  }

  /** Only a model ratio of 37.5 with a completion ratio of 1 is not trusted. */
  lemma TrustedIff(ch: Channel, model: string)
    ensures !Trusted(ch, model) <==>
      "model_ratio" in ch.data && model in ch.data["model_ratio"] &&
      "completion_ratio" in ch.data && model in ch.data["completion_ratio"] &&
      var ratio, completion := ch.data["model_ratio"][model], ch.data["completion_ratio"][model];
      ratio.Num? && 37.499999999 < ratio.x < 37.500000001 &&
      completion.Num? && 0.999999999 < completion.x < 1.000000001
  {
  }

  /** A quote the table can show: not null and not the text that marks equality. */
  predicate RealQuote(local: Prices, ch: Channel, field: string, model: string) {
    Quotes(local, ch, field, model) && IsReal(ch.data[field][model])
  }

  /** A channel that is not pruned. */
  ghost predicate Survivor(local: Prices, ch: Channel) {
    exists model, field :: field in FIELDS && RealQuote(local, ch, field, model)
  }

  lemma {:induction false} ShownByAt(local: Value, channels: seq<Channel>, n: nat, field: string, model: string, i: nat)
    requires DistinctNames(channels) && i < n <= |channels|
    ensures channels[i].name in ShownBy(local, channels, n, field, model)
    ensures ShownBy(local, channels, n, field, model)[channels[i].name] == Shown(local, channels[i], field, model)
    ensures channels[i].name in TrustedBy(channels, n, model)
    ensures TrustedBy(channels, n, model)[channels[i].name] == Trusted(channels[i], model)
  {
    if i < n - 1 {
      ShownByAt(local, channels, n - 1, field, model, i);
    }
  }

  lemma {:induction false} ShownByNames(local: Value, channels: seq<Channel>, n: nat, field: string, model: string,
                                        name: string)
    requires n <= |channels|
    ensures name in ShownBy(local, channels, n, field, model) <==> exists i :: 0 <= i < n && channels[i].name == name
    ensures name in TrustedBy(channels, n, model) <==> exists i :: 0 <= i < n && channels[i].name == name
  {
    if n > 0 {
      ShownByNames(local, channels, n - 1, field, model, name);
    }
  }

  lemma {:induction false} FullRowAt(local: Prices, channels: seq<Channel>, model: string, n: nat, field: string)
    requires n <= |FIELDS|
    ensures var row := FullRow(local, channels, model, n);
      (field in row <==> field in FIELDS[..n] && Included(Get(local, field, model), channels, field, model)) &&
      (field in row ==> row[field] == FullItem(local, channels, field, model))
  {
    if n > 0 {
      FullRowAt(local, channels, model, n - 1, field);
      assert FIELDS[..n] == FIELDS[..n - 1] + [FIELDS[n - 1]];
    }
  }

  function Full(local: Prices, channels: seq<Channel>): Table {
    FullTable(local, channels, AllModels(local, channels))
  }

  /** The unpruned table holds exactly the included entries. */
  lemma FullAt(local: Prices, channels: seq<Channel>, model: string, field: string)
    ensures var t := Full(local, channels);
      (model in t && field in t[model] <==>
         field in FIELDS && Included(Get(local, field, model), channels, field, model)) &&
      (model in t && field in t[model] ==> t[model][field] == FullItem(local, channels, field, model))
  {
    FullRowAt(local, channels, model, |FIELDS|, field);
    assert FIELDS[..|FIELDS|] == FIELDS;
    if field in FIELDS && Included(Get(local, field, model), channels, field, model) {
      IncludedIsKnown(local, channels, model, field);
    }
  }

  lemma IncludedIsKnown(local: Prices, channels: seq<Channel>, model: string, field: string)
    requires field in FIELDS && Included(Get(local, field, model), channels, field, model)
    ensures model in AllModels(local, channels)
  {
    var i :| 0 <= i < |channels| && Has(channels[i].data, field, model);
    assert Has(channels[i].data, field, model);
    assert model in Column(channels[i].data, field);
    assert channels[i] in channels && model in ModelsOf(channels[i].data);
  }

  /** Pruning keeps an entry exactly when it was there and a surviving channel shows
      something other than equality. */
  lemma PruneAt(full: Table, keep: set<string>, model: string, field: string)
    ensures var t := PruneTable(full, keep);
      (model in t && field in t[model] <==>
         model in full && field in full[model] && Interesting(PruneItem(full[model][field], keep))) &&
      (model in t && field in t[model] ==> t[model][field] == PruneItem(full[model][field], keep))
  {
    if model in full && field in full[model] && Interesting(PruneItem(full[model][field], keep)) {
      assert field in PruneRow(full[model], keep);
    }
  }

  predicate ShowsReal(full: Table, model: string, field: string, name: string) {
    model in full && field in full[model] &&
    name in full[model][field].upstreams && IsReal(full[model][field].upstreams[name])
  }

  /** Being a surviving channel. */
  lemma SurvivesIff(full: Table, name: string)
    ensures name in TableDiffers(full) <==> exists model, field :: ShowsReal(full, model, field, name)
  {
    if name in TableDiffers(full) {
      var model :| model in full && name in RowDiffers(full[model]);
      var field :|
        && field in full[model] && name in full[model][field].upstreams
        && IsReal(full[model][field].upstreams[name]);
      assert ShowsReal(full, model, field, name);
    }
    if model, field :| ShowsReal(full, model, field, name) {
      assert name in RowDiffers(full[model]);
    }
  }

  /** A channel that quotes a real difference shows it, and survives. */
  lemma QuoterSurvives(local: Prices, channels: seq<Channel>, i: nat, model: string, field: string)
    requires DistinctNames(channels) && field in FIELDS
    requires i < |channels| && RealQuote(local, channels[i], field, model)
    ensures channels[i].name in TableDiffers(Full(local, channels))
  {
    var full, v := Full(local, channels), Get(local, field, model);
    assert Differs(v, channels[i], field, model);
    FullAt(local, channels, model, field);
    ShownByAt(v, channels, |channels|, field, model, i);
    assert ShowsReal(full, model, field, channels[i].name);
    SurvivesIff(full, channels[i].name);
  }

  /** A channel is kept in the table exactly when it quotes a real difference somewhere. */
  lemma SurvivorIff(local: Prices, channels: seq<Channel>, i: nat)
    requires DistinctNames(channels) && i < |channels|
    ensures channels[i].name in TableDiffers(Full(local, channels)) <==> Survivor(local, channels[i])
  {
    var full, name := Full(local, channels), channels[i].name;
    if name in TableDiffers(full) {
      SurvivesIff(full, name);
      var model, field :| ShowsReal(full, model, field, name);
      FullAt(local, channels, model, field);
      ShownByAt(Get(local, field, model), channels, |channels|, field, model, i);
      assert RealQuote(local, channels[i], field, model);
    }
    if model, field :| field in FIELDS && RealQuote(local, channels[i], field, model) {
      QuoterSurvives(local, channels, i, model, field);
    }
  }

  ghost predicate Quoted(local: Prices, channels: seq<Channel>, model: string, field: string) {
    exists i :: 0 <= i < |channels| && Quotes(local, channels[i], field, model)
  }

  /** Some channel of the table shows something other than equality in this entry. */
  ghost predicate SurvivorShows(local: Prices, channels: seq<Channel>, model: string, field: string) {
    exists i :: 0 <= i < |channels| && Survivor(local, channels[i]) &&
      Shown(Get(local, field, model), channels[i], field, model) != SAME
  }

  lemma InterestingIff(local: Prices, channels: seq<Channel>, model: string, field: string)
    requires DistinctNames(channels)
    ensures Interesting(PruneItem(FullItem(local, channels, field, model), TableDiffers(Full(local, channels)))) <==>
      SurvivorShows(local, channels, model, field)
  {
    var v, keep := Get(local, field, model), TableDiffers(Full(local, channels));
    var item := PruneItem(FullItem(local, channels, field, model), keep);
    if name :| name in item.upstreams && item.upstreams[name] != SAME {
      ShownByNames(v, channels, |channels|, field, model, name);
      var i :| 0 <= i < |channels| && channels[i].name == name;
      ShownByAt(v, channels, |channels|, field, model, i);
      SurvivorIff(local, channels, i);
    }
    if i :| 0 <= i < |channels| && Survivor(local, channels[i]) && Shown(v, channels[i], field, model) != SAME {
      ShownByAt(v, channels, |channels|, field, model, i);
      SurvivorIff(local, channels, i);
      assert item.upstreams[channels[i].name] != SAME;
    }
  }

  /** What is kept, for all inputs: a quoted entry in which a surviving channel shows
      something other than equality. So the promise that quoted entries are kept fails
      exactly for those in which no surviving channel does. */
  lemma KeptIff(local: Prices, channels: seq<Channel>, model: string, field: string)
    requires DistinctNames(channels) && field in FIELDS
    ensures var t := Differences(local, channels);
      model in t && field in t[model] <==>
      Quoted(local, channels, model, field) && SurvivorShows(local, channels, model, field)
  {
    var full := Full(local, channels);
    PruneAt(full, TableDiffers(full), model, field);
    FullAt(local, channels, model, field);
    InterestingIff(local, channels, model, field);
    if SurvivorShows(local, channels, model, field) {
      IncludedIffQuoted(local, channels, model, field);
    }
  }

  /** Among entries that show anything, inclusion and quotation agree. */
  lemma IncludedIffQuoted(local: Prices, channels: seq<Channel>, model: string, field: string)
    requires SurvivorShows(local, channels, model, field)
    ensures Included(Get(local, field, model), channels, field, model) <==> Quoted(local, channels, model, field)
  {
    var v := Get(local, field, model);
    if i :| 0 <= i < |channels| && Quotes(local, channels[i], field, model) {
      assert Has(channels[i].data, field, model) && (v != Null ==> Differs(v, channels[i], field, model));
    }
    if v == Null {
      var i :| 0 <= i < |channels| && Survivor(local, channels[i]) && Shown(v, channels[i], field, model) != SAME;
      assert Quotes(local, channels[i], field, model);
    } else if i :| 0 <= i < |channels| && Differs(v, channels[i], field, model) {
      assert Quotes(local, channels[i], field, model);
    }
  }

  /** The promise: an entry is kept exactly when some channel quotes a value that is not
      equal to the local one. It holds for every entry with a quote that can be shown. */
  lemma KeptIffQuoted(local: Prices, channels: seq<Channel>, model: string, field: string)
    requires DistinctNames(channels) && Clean(channels) && field in FIELDS
    ensures var t := Differences(local, channels);
      model in t && field in t[model] <==> Quoted(local, channels, model, field)
  {
    KeptIff(local, channels, model, field);
    if i :| 0 <= i < |channels| && Quotes(local, channels[i], field, model) {
      assert RealQuote(local, channels[i], field, model);
      assert Survivor(local, channels[i]);
    }
  }

  /** Every entry lists the same channels: exactly those that quote a real difference
      somewhere, each with what it shows there and whether it is trusted. */
  lemma EntriesListTheQuoters(local: Prices, channels: seq<Channel>, model: string, field: string, i: nat)
    requires DistinctNames(channels) && i < |channels|
    requires var t := Differences(local, channels); model in t && field in t[model]
    ensures var item := Differences(local, channels)[model][field];
      var name := channels[i].name;
      item.current == Get(local, field, model) &&
      (name in item.upstreams <==> Survivor(local, channels[i])) &&
      (name in item.confidence <==> name in item.upstreams) &&
      (name in item.upstreams ==>
         item.confidence[name] == Trusted(channels[i], model) &&
         item.upstreams[name] ==
           if Quotes(local, channels[i], field, model) then channels[i].data[field][model]
           else if Has(channels[i].data, field, model) || item.current == Null then Str("same")
           else Null)
  {
    var full := Full(local, channels);
    PruneAt(full, TableDiffers(full), model, field);
    FullAt(local, channels, model, field);
    ShownByAt(Get(local, field, model), channels, |channels|, field, model, i);
    SurvivorIff(local, channels, i);
  }

  /** No model is listed without an entry, and no entry without a channel. */
  lemma NothingEmpty(local: Prices, channels: seq<Channel>, model: string)
    requires model in Differences(local, channels)
    ensures Differences(local, channels)[model] != map[]
    ensures forall field :: field in Differences(local, channels)[model] ==>
      Interesting(Differences(local, channels)[model][field])
  {
    var full := Full(local, channels);
    forall field | field in Differences(local, channels)[model]
      ensures Interesting(Differences(local, channels)[model][field])
    {
      PruneAt(full, TableDiffers(full), model, field);
    }
  }

  /** One channel that never shows anything but equality or absence leaves nothing. */
  lemma NothingRealNothingKept(local: Prices, ch: Channel)
    requires forall field, model :: !IsReal(Shown(Get(local, field, model), ch, field, model))
    ensures Differences(local, [ch]) == map[]
  {
    var full := Full(local, [ch]);
    forall name ensures name !in TableDiffers(full) {
      SurvivesIff(full, name);
      forall model, field ensures !ShowsReal(full, model, field, name) {
        FullAt(local, [ch], model, field);
        ShownByNames(Get(local, field, model), [ch], 1, field, model, name);
        ShownByAt(Get(local, field, model), [ch], 1, field, model, 0);
      }
    }
    forall model | model in full ensures PruneRow(full[model], TableDiffers(full)) == map[] {}
  }

  /** A null upstream value differs from every local value, yet its entry is dropped. */
  lemma NullQuoteIsDropped(model: string, field: string, v: Value)
    requires field in FIELDS && v != Null
    ensures var local, ch := map[field := map[model := v]], Channel("c", map[field := map[model := Null]]);
      Quotes(local, ch, field, model) && Differences(local, [ch]) == map[]
  {
    NothingRealNothingKept(map[field := map[model := v]], Channel("c", map[field := map[model := Null]]));
  }

  /** An upstream text that reads "same" is taken for equality and dropped. */
  lemma SameTextIsDropped(model: string, field: string)
    requires field in FIELDS
    ensures var local, ch := map[], Channel("c", map[field := map[model := SAME]]);
      Quotes(local, ch, field, model) && Differences(local, [ch]) == map[]
  {
    NothingRealNothingKept(map[], Channel("c", map[field := map[model := SAME]]));
  }
}
