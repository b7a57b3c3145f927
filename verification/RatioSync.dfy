/** The price comparison between the local settings and the upstream channels.
    The handler first builds, for every model and every pricing field, an item
    with what each channel says, and then prunes channels and items that show no
    difference.  The result is proved equal to its declarative meaning: a value is
    shown as a difference exactly when the channel supplies it and it is not equal
    to the local one. */
module RatioSync {
  import opened Basics

  // ---------------------------------------------------------------- values

  /** A decoded value; prices are reals, `Int` is any whole-number type. */
  datatype Value = Float(amount: real) | Int(count: int) | Str(string) | Bool(bool) | Nil

  const SAME := Str("same")
  /** What one side publishes: per field, a value per model. */
  type Data = map<string, map<string, Value>>

  datatype Channel = Channel(name: string, data: Data)

  datatype Item = Item(current: Value, upstreams: map<string, Value>, confidence: map<string, bool>)

  type Differences = map<string, map<string, Item>>

  const NUMERIC := ["model_ratio", "completion_ratio", "cache_ratio", "create_cache_ratio", "image_ratio",
                    "audio_ratio", "audio_completion_ratio", "model_price"]
  const FIELDS := NUMERIC + ["billing_mode", "billing_expr"]

  predicate ValuesEqual(a: Value, b: Value) {
    if a.Float? && b.Float? then NearlyEqual(a.amount, b.amount) else a == b
  }

  function AsFloat(v: Value): Option<real> {
    match v
    case Float(x) => Some(x)
    case Int(n) => Some(n as real)
    case _ => None
  }

  function Normalize(field: string, v: Value): Value {
    if field in NUMERIC && AsFloat(v).Some? then Float(AsFloat(v).value) else v
  }

  function Column(data: Data, field: string): map<string, Value> {
    if field in data then data[field] else map[]
  }

  function Supplied(data: Data, field: string, model: string): Option<Value> {
    if model in Column(data, field) then Some(Normalize(field, Column(data, field)[model])) else None
  }

  function Local(data: Data, field: string, model: string): Value {
    var s := Supplied(data, field, model);
    if s.Some? then s.value else Nil
  }

  // ------------------------------------------------- the declarative meaning

  /** The data of the last channel of that name; later channels overwrite earlier ones. */
  function Last(channels: seq<Channel>, name: string): Option<Data> {
    if channels == [] then None
    else if channels[|channels| - 1].name == name then Some(channels[|channels| - 1].data)
    else Last(channels[..|channels| - 1], name)
  }

  /** What the channels of that name say. */
  function Told(channels: seq<Channel>, field: string, model: string, name: string): Option<Value> {
    if Last(channels, name).Some? then Supplied(Last(channels, name).value, field, model) else None
  }

  /** The value is news: it is given and the local value is missing or not equal to it.
      The word "same" is the mark for no news and can never be shown as a value. */
  predicate News(current: Value, given: Option<Value>) {
    && given.Some? && given.value != Nil && given.value != SAME
    && (current == Nil || !ValuesEqual(current, given.value))
  }

  predicate Differs(local: Data, channels: seq<Channel>, field: string, model: string, name: string) {
    field in FIELDS && News(Local(local, field, model), Told(channels, field, model, name))
  }

  /** The channel has something to show for some model and field. */
  ghost predicate HasNews(local: Data, channels: seq<Channel>, name: string) {
    exists model, field :: Differs(local, channels, field, model, name)
  }

  /** A channel's prices for a model are not to be trusted: the placeholder pair. */
  predicate Placeholder(data: Data, model: string) {
    var ratios, completions := Column(data, "model_ratio"), Column(data, "completion_ratio");
    && model in ratios && model in completions
    && AsFloat(ratios[model]).Some? && AsFloat(completions[model]).Some?
    && NearlyEqual(AsFloat(ratios[model]).value, 37.5) && NearlyEqual(AsFloat(completions[model]).value, 1.0)
  }

  // -------------------------------------------------------------- one item

  /** What is stored for a channel: the news, nothing, or the mark. */
  function Stored(current: Value, given: Option<Value>): Value {
    var v := if given.None? then Nil else if ValuesEqual(current, given.value) then SAME else given.value;
    if v == Nil && current == Nil then SAME else v
  }

  /** A stored value is news exactly when the channel has news, and then it is that. */
  lemma StoredIsNews(current: Value, given: Option<Value>)
    ensures Stored(current, given) != Nil && Stored(current, given) != SAME <==> News(current, given)
    ensures News(current, given) ==> Stored(current, given) == given.value
  {
    if given.Some? && current == Nil { assert ValuesEqual(current, given.value) <==> given.value == Nil; }
  }

  /** In the price fields whole and other numbers compare as numbers, up to epsilon; in the
      two other fields a value is news exactly when it is not the same. */
  lemma NewsOfNumbers(field: string, n: int, x: real)
    ensures field in FIELDS && field !in {"billing_mode", "billing_expr"} ==>
              (News(Normalize(field, Int(n)), Some(Normalize(field, Float(x))))
               <==> n as real - x >= 0.000000001 || x - n as real >= 0.000000001)
    ensures field in {"billing_mode", "billing_expr"} ==>
              News(Normalize(field, Int(n)), Some(Normalize(field, Float(x))))
  {
    NumericFields(field);
  }

  lemma NumericFields(field: string)
    ensures field in FIELDS ==> (field in NUMERIC <==> field !in {"billing_mode", "billing_expr"})
    ensures field in {"billing_mode", "billing_expr"} ==> field !in NUMERIC
  {
    assert forall i :: 0 <= i < |NUMERIC| ==> NUMERIC[i][0] != 'b';
  }

  /** A model ratio of 37.5 with a completion ratio of 1, and nothing else, is distrusted. */
  lemma PlaceholderIff(model: string, ratio: real, completion: real)
    ensures var ratios, completions := map[model := Float(ratio)], map[model := Float(completion)];
            Placeholder(map["model_ratio" := ratios, "completion_ratio" := completions], model)
            <==> -0.000000001 < ratio - 37.5 < 0.000000001 && -0.000000001 < completion - 1.0 < 0.000000001
  {
  }

  function Names(channels: seq<Channel>): set<string> {
    set i | 0 <= i < |channels| :: channels[i].name
  }

  lemma {:induction false} LastFound(channels: seq<Channel>, name: string)
    ensures Last(channels, name).Some? <==> name in Names(channels)
  {
    if channels != [] {
      var rest := channels[..|channels| - 1];
      LastFound(rest, name);
      assert forall i :: 0 <= i < |rest| ==> rest[i] == channels[i];
    }
  }

  /** Some channel changes the local value (also one that is overwritten, or to nothing). */
  ghost predicate Changed(current: Value, channels: seq<Channel>, field: string, model: string) {
    exists i :: 0 <= i < |channels| && Changes(current, Supplied(channels[i].data, field, model))
  }

  predicate Changes(current: Value, given: Option<Value>) {
    given.Some? &&
       if current == Nil then given.value != Nil && given.value != SAME else !ValuesEqual(current, given.value)
  }

  ghost predicate Given(channels: seq<Channel>, field: string, model: string) {
    exists i :: 0 <= i < |channels| && Supplied(channels[i].data, field, model).Some?
  }

  /** The item is built: a local value that some channel changes, or no local value
      and some channel that gives one. */
  ghost predicate Included(local: Data, channels: seq<Channel>, field: string, model: string) {
    var current := Local(local, field, model);
    if current != Nil then Changed(current, channels, field, model) else Given(channels, field, model)
  }

  /** The upstream values of an item: one entry per name, that of its last channel. */
  ghost predicate Upstreams(local: Data, channels: seq<Channel>, field: string, model: string,
                            ups: map<string, Value>) {
    && (forall name :: name in ups <==> Last(channels, name).Some?)
    && (forall name :: name in ups ==>
          ups[name] == Stored(Local(local, field, model), Supplied(Last(channels, name).value, field, model)))
  }

  ghost predicate Confidences(channels: seq<Channel>, model: string, conf: map<string, bool>) {
    && (forall name :: name in conf <==> Last(channels, name).Some?)
    && (forall name :: name in conf ==> conf[name] == !Placeholder(Last(channels, name).value, model))
  }

  /** The trust table: per name and model, whether the last channel of that name is believed. */
  ghost predicate Trusts(channels: seq<Channel>, models: set<string>, trust: map<string, map<string, bool>>) {
    && (forall name :: name in trust <==> Last(channels, name).Some?)
    && (forall name, model :: name in trust && model in models ==>
          model in trust[name] && trust[name][model] == !Placeholder(Last(channels, name).value, model))
  }

  lemma LastNext(channels: seq<Channel>, i: nat, name: string)
    requires i < |channels|
    ensures Last(channels[..i + 1], name)
         == if channels[i].name == name then Some(channels[i].data) else Last(channels[..i], name)
  {
    assert channels[..i + 1][..i] == channels[..i];
  }

  /** One channel against the local value. */
  method Compare(current: Value, data: Data, field: string, model: string)
    returns (value: Value, gave: bool, changed: bool)
    ensures value == Stored(current, Supplied(data, field, model))
    ensures gave <==> Supplied(data, field, model).Some?
    ensures changed <==> Changes(current, Supplied(data, field, model))
  {
    value, gave, changed := Nil, false, false;
    if model in Column(data, field) {
      value := Normalize(field, Column(data, field)[model]);
      gave := true;
      if current != Nil && !ValuesEqual(current, value) {
        changed := true;
      } else if ValuesEqual(current, value) {
        value := SAME;
      }
    }
    if value == Nil && current == Nil { value := SAME; }
    if current == Nil && value != Nil && value != SAME { changed := true; }
  }

  lemma GrowUpstreams(local: Data, channels: seq<Channel>, i: nat, field: string, model: string,
                      ups: map<string, Value>)
    requires i < |channels| && Upstreams(local, channels[..i], field, model, ups)
    ensures Upstreams(local, channels[..i + 1], field, model,
              ups[channels[i].name := Stored(Local(local, field, model), Supplied(channels[i].data, field, model))])
  {
    forall name ensures Last(channels[..i + 1], name)
       == if channels[i].name == name then Some(channels[i].data) else Last(channels[..i], name) {
      LastNext(channels, i, name);
    }
  }

  /** The loop over the channels for one model and field. */
  method BuildItem(local: Data, channels: seq<Channel>, trust: map<string, map<string, bool>>,
                   field: string, model: string)
    returns (item: Item, included: bool)
    requires Trusts(channels, {model}, trust)
    ensures item.current == Local(local, field, model)
    ensures Upstreams(local, channels, field, model, item.upstreams)
    ensures Confidences(channels, model, item.confidence)
    ensures included <==> Included(local, channels, field, model)
  {
    var current := Nil;
    if model in Column(local, field) { current := Normalize(field, Column(local, field)[model]); }
    var ups: map<string, Value> := map[];
    var conf: map<string, bool> := map[];
    var hasUpstream, hasDifference := false, false;
    for i := 0 to |channels|
      invariant Upstreams(local, channels[..i], field, model, ups)
      invariant forall name :: name in conf <==> name in ups
      invariant forall name :: name in conf ==> name in trust && conf[name] == trust[name][model]
      invariant hasUpstream <==> Given(channels[..i], field, model)
      invariant hasDifference <==> Changed(current, channels[..i], field, model)
    {
      var channel := channels[i];
      var value, gave, changed := Compare(current, channel.data, field, model);
      hasUpstream := hasUpstream || gave;
      hasDifference := hasDifference || changed;
      Named(channels, i);
      GrowUpstreams(local, channels, i, field, model, ups);
      ups := ups[channel.name := value];
      conf := conf[channel.name := trust[channel.name][model]];
      GrowGiven(channels, i, field, model);
      GrowChanged(current, channels, i, field, model);
    }
    assert channels[..|channels|] == channels;
    included := false;
    if current != Nil {
      if hasDifference { included := true; }
    } else {
      if hasUpstream { included := true; }
    }
    item := Item(current, ups, conf);
  }

  lemma Named(channels: seq<Channel>, i: nat)
    requires i < |channels|
    ensures Last(channels, channels[i].name).Some?
  {
    LastFound(channels, channels[i].name);
  }

  lemma GrowGiven(channels: seq<Channel>, i: nat, field: string, model: string)
    requires i < |channels|
    ensures Given(channels[..i + 1], field, model)
         <==> Given(channels[..i], field, model) || Supplied(channels[i].data, field, model).Some?
  {
    if Given(channels[..i], field, model) {
      var k :| 0 <= k < i && Supplied(channels[..i][k].data, field, model).Some?;
      assert channels[..i + 1][k] == channels[k];
    }
    if Given(channels[..i + 1], field, model) {
      var k :| 0 <= k < i + 1 && Supplied(channels[..i + 1][k].data, field, model).Some?;
      if k < i { assert channels[..i][k] == channels[k]; }
    }
    assert channels[..i + 1][i] == channels[i];
  }

  lemma GrowChanged(current: Value, channels: seq<Channel>, i: nat, field: string, model: string)
    requires i < |channels|
    ensures Changed(current, channels[..i + 1], field, model)
         <==> Changed(current, channels[..i], field, model)
              || Changes(current, Supplied(channels[i].data, field, model))
  {
    if Changed(current, channels[..i], field, model) {
      var k :| 0 <= k < i && Changes(current, Supplied(channels[..i][k].data, field, model));
      assert channels[..i + 1][k] == channels[k];
    }
    if Changed(current, channels[..i + 1], field, model) {
      var k :| 0 <= k < i + 1 && Changes(current, Supplied(channels[..i + 1][k].data, field, model));
      if k < i { assert channels[..i][k] == channels[k]; }
    }
    assert channels[..i + 1][i] == channels[i];
  }

  // ----------------------------------------------------------- build phase

  ghost predicate Covers(models: set<string>, data: Data) {
    forall field, model :: field in FIELDS && model in Column(data, field) ==> model in models
  }

  predicate Mentions(data: Data, model: string) {
    exists k :: 0 <= k < |FIELDS| && model in Column(data, FIELDS[k])
  }

  /** The models that the local data or some channel mentions, and no others. */
  method CollectModels(local: Data, channels: seq<Channel>) returns (models: set<string>)
    ensures Covers(models, local)
    ensures forall i :: 0 <= i < |channels| ==> Covers(models, channels[i].data)
    ensures forall model :: model in models ==>
              Mentions(local, model) || exists i :: 0 <= i < |channels| && Mentions(channels[i].data, model)
  {
    models := AddModels(local, {});
    for i := 0 to |channels|
      invariant Covers(models, local)
      invariant forall k :: 0 <= k < i ==> Covers(models, channels[k].data)
      invariant forall model :: model in models ==>
                  Mentions(local, model) || exists k :: 0 <= k < i && Mentions(channels[k].data, model)
    {
      models := AddModels(channels[i].data, models);
    }
  }

  method AddModels(data: Data, before: set<string>) returns (models: set<string>)
    ensures before <= models
    ensures Covers(models, data)
    ensures forall model :: model in models ==> model in before || Mentions(data, model)
  {
    models := before;
    for k := 0 to |FIELDS|
      invariant before <= models
      invariant forall model :: model in models ==> model in before || Mentions(data, model)
      invariant forall j, model :: 0 <= j < k && model in Column(data, FIELDS[j]) ==> model in models
    {
      models := models + Column(data, FIELDS[k]).Keys;
    }
  }

  /** A model nobody mentions has no item. */
  lemma UnknownModel(local: Data, channels: seq<Channel>, models: set<string>, field: string, model: string)
    requires Covers(models, local) && (forall i :: 0 <= i < |channels| ==> Covers(models, channels[i].data))
    requires field in FIELDS && model !in models
    ensures !Included(local, channels, field, model)
  {
    forall i | 0 <= i < |channels| ensures Supplied(channels[i].data, field, model).None? {
      assert Covers(models, channels[i].data);
    }
  }

  /** The check that a channel's prices are real: with both ratio tables present, a
      model with the placeholder pair is not trusted. */
  method CheckTrust(channels: seq<Channel>, models: set<string>) returns (trust: map<string, map<string, bool>>)
    ensures Trusts(channels, models, trust)
  {
    trust := map[];
    for i := 0 to |channels|
      invariant Trusts(channels[..i], models, trust)
    {
      var believed := TrustChannel(channels[i].data, models);
      trust := trust[channels[i].name := believed];
      forall name ensures Last(channels[..i + 1], name)
         == if channels[i].name == name then Some(channels[i].data) else Last(channels[..i], name) {
        LastNext(channels, i, name);
      }
    }
    assert channels[..|channels|] == channels;
  }

  method TrustChannel(data: Data, models: set<string>) returns (believed: map<string, bool>)
    ensures believed.Keys == models
    ensures forall model :: model in models ==> believed[model] == !Placeholder(data, model)
  {
    believed := map[];
    var ratios, completions := Column(data, "model_ratio"), Column(data, "completion_ratio");
    var rest := models;
    while rest != {}
      invariant rest <= models && believed.Keys == models - rest
      invariant forall model :: model in believed ==> believed[model] == !Placeholder(data, model)
    {
      var model :| model in rest;
      var trusted := true;
      if |ratios| > 0 && |completions| > 0 && model in ratios && model in completions {
        var ratio, completion := AsFloat(ratios[model]), AsFloat(completions[model]);
        if ratio.Some? && completion.Some? && NearlyEqual(ratio.value, 37.5) && NearlyEqual(completion.value, 1.0) {
          trusted := false;
        }
      }
      believed := believed[model := trusted];
      rest := rest - {model};
    }
  }

  ghost predicate ItemFor(local: Data, channels: seq<Channel>, field: string, model: string, item: Item) {
    && item.current == Local(local, field, model)
    && Upstreams(local, channels, field, model, item.upstreams)
    && Confidences(channels, model, item.confidence)
  }

  ghost predicate RowBuilt(local: Data, channels: seq<Channel>, model: string, row: map<string, Item>) {
    && (forall field :: field in row <==> field in FIELDS && Included(local, channels, field, model))
    && (forall field :: field in row ==> ItemFor(local, channels, field, model, row[field]))
  }

  method BuildRow(local: Data, channels: seq<Channel>, trust: map<string, map<string, bool>>, model: string)
    returns (row: map<string, Item>)
    requires Trusts(channels, {model}, trust)
    ensures RowBuilt(local, channels, model, row)
  {
    row := map[];
    for k := 0 to |FIELDS|
      invariant forall field :: field in row <==> field in FIELDS[..k] && Included(local, channels, field, model)
      invariant forall field :: field in row ==> ItemFor(local, channels, field, model, row[field])
    {
      var item, included := BuildItem(local, channels, trust, FIELDS[k], model);
      assert FIELDS[..k + 1] == FIELDS[..k] + [FIELDS[k]];
      if included { row := row[FIELDS[k] := item]; }
    }
    assert FIELDS[..|FIELDS|] == FIELDS;
  }

  function RowOf(d: Differences, model: string): map<string, Item> {
    if model in d then d[model] else map[]
  }

  ghost predicate NoEmptyRow(d: Differences) {
    forall model :: model in d ==> d[model] != map[]
  }

  ghost predicate Built(local: Data, channels: seq<Channel>, d: Differences) {
    && NoEmptyRow(d)
    && (forall model :: RowBuilt(local, channels, model, RowOf(d, model)))
  }

  method Build(local: Data, channels: seq<Channel>) returns (d: Differences)
    ensures Built(local, channels, d)
  {
    var models := CollectModels(local, channels);
    d := BuildRows(local, channels, models);
  }

  method BuildRows(local: Data, channels: seq<Channel>, models: set<string>) returns (d: Differences)
    requires Covers(models, local) && (forall i :: 0 <= i < |channels| ==> Covers(models, channels[i].data))
    ensures Built(local, channels, d)
  {
    var trust := CheckTrust(channels, models);
    d := map[];
    var rest := models;
    while rest != {}
      invariant rest <= models && d.Keys !! rest && d.Keys <= models
      invariant NoEmptyRow(d)
      invariant forall model :: model in models - rest ==> RowBuilt(local, channels, model, RowOf(d, model))
    {
      var model :| model in rest;
      var row := BuildRow(local, channels, trust, model);
      ghost var was := d;
      if row != map[] { d := d[model := row]; }
      assert RowOf(d, model) == row;
      assert forall other :: other != model ==> RowOf(d, other) == RowOf(was, other);
      rest := rest - {model};
    }
    forall model ensures RowBuilt(local, channels, model, RowOf(d, model)) {
      if model !in models { UnknownRow(local, channels, models, model); }
    }
  }

  lemma UnknownRow(local: Data, channels: seq<Channel>, models: set<string>, model: string)
    requires Covers(models, local) && (forall i :: 0 <= i < |channels| ==> Covers(models, channels[i].data))
    requires model !in models
    ensures RowBuilt(local, channels, model, map[])
  {
    forall field | field in FIELDS ensures !Included(local, channels, field, model) {
      UnknownModel(local, channels, models, field, model);
    }
  }

  // ----------------------------------------------------------- prune phase

  predicate IsNews(v: Value) {
    v != Nil && v != SAME
  }

  predicate ShownIn(item: Item, name: string) {
    name in item.upstreams && IsNews(item.upstreams[name])
  }

  ghost predicate ShownInRow(row: map<string, Item>, name: string) {
    exists field :: field in row && ShownIn(row[field], name)
  }

  ghost predicate ShownSomewhere(d: Differences, name: string) {
    exists model :: model in d && ShownInRow(d[model], name)
  }

  method MarkItem(item: Item, before: set<string>) returns (marked: set<string>)
    ensures forall name :: name in marked <==> name in before || ShownIn(item, name)
  {
    marked := before;
    var rest := item.upstreams.Keys;
    while rest != {}
      invariant rest <= item.upstreams.Keys
      invariant forall name :: name in marked <==> name in before || (name !in rest && ShownIn(item, name))
    {
      var name :| name in rest;
      if item.upstreams[name] != Nil && item.upstreams[name] != SAME { marked := marked + {name}; }
      rest := rest - {name};
    }
  }

  method MarkRow(row: map<string, Item>, before: set<string>) returns (marked: set<string>)
    ensures forall name :: name in marked <==> name in before || ShownInRow(row, name)
  {
    marked := before;
    var rest := row.Keys;
    while rest != {}
      invariant rest <= row.Keys
      invariant forall name :: name in marked <==> name in before || ShownInRow(row - rest, name)
    {
      var field :| field in rest;
      ghost var was := marked;
      marked := MarkItem(row[field], marked);
      forall name
        ensures ShownInRow(row - (rest - {field}), name)
             <==> ShownInRow(row - rest, name) || ShownIn(row[field], name)
      {
        GrowShownInRow(row, rest, field, name);
      }
      rest := rest - {field};
    }
    assert row - rest == row;
  }

  lemma GrowShownInRow(row: map<string, Item>, rest: set<string>, field: string, name: string)
    requires rest <= row.Keys && field in rest
    ensures ShownInRow(row - (rest - {field}), name) <==> ShownInRow(row - rest, name) || ShownIn(row[field], name)
  {
    var more := row - (rest - {field});
    if ShownInRow(row - rest, name) {
      var f :| f in row - rest && ShownIn((row - rest)[f], name);
      assert f in more && ShownIn(more[f], name);
    }
    if ShownIn(row[field], name) { assert field in more && ShownIn(more[field], name); }
    if ShownInRow(more, name) {
      var f :| f in more && ShownIn(more[f], name);
      if f != field { assert f in row - rest && ShownIn((row - rest)[f], name); }
    }
  }

  method MarkChannels(d: Differences) returns (marked: set<string>)
    ensures forall name :: name in marked <==> ShownSomewhere(d, name)
  {
    marked := {};
    var rest := d.Keys;
    while rest != {}
      invariant rest <= d.Keys
      invariant forall name :: name in marked <==> ShownSomewhere(d - rest, name)
    {
      var model :| model in rest;
      marked := MarkRow(d[model], marked);
      forall name
        ensures ShownSomewhere(d - (rest - {model}), name)
             <==> ShownSomewhere(d - rest, name) || ShownInRow(d[model], name)
      {
        GrowShownSomewhere(d, rest, model, name);
      }
      rest := rest - {model};
    }
    assert d - rest == d;
  }

  lemma GrowShownSomewhere(d: Differences, rest: set<string>, model: string, name: string)
    requires rest <= d.Keys && model in rest
    ensures ShownSomewhere(d - (rest - {model}), name) <==> ShownSomewhere(d - rest, name) || ShownInRow(d[model], name)
  {
    var more := d - (rest - {model});
    if ShownSomewhere(d - rest, name) {
      var m :| m in d - rest && ShownInRow((d - rest)[m], name);
      assert m in more && ShownInRow(more[m], name);
    }
    if ShownInRow(d[model], name) { assert model in more && ShownInRow(more[model], name); }
    if ShownSomewhere(more, name) {
      var m :| m in more && ShownInRow(more[m], name);
      if m != model { assert m in d - rest && ShownInRow((d - rest)[m], name); }
    }
  }

  /** The item without the channels that have nothing to show anywhere. */
  function Cut(item: Item, marked: set<string>): Item {
    Item(item.current,
         map name | name in item.upstreams && name in marked :: item.upstreams[name],
         map name | name in item.confidence && name in marked :: item.confidence[name])
  }

  /** Something other than the mark is left. */
  predicate Keeps(item: Item, marked: set<string>) {
    exists name :: name in item.upstreams && name in marked && item.upstreams[name] != SAME
  }

  method PruneItem(item: Item, marked: set<string>) returns (cut: Item, keep: bool)
    requires item.confidence.Keys == item.upstreams.Keys
    ensures cut == Cut(item, marked)
    ensures keep <==> Keeps(item, marked)
  {
    var ups, conf := item.upstreams, item.confidence;
    var rest := item.upstreams.Keys;
    while rest != {}
      invariant rest <= item.upstreams.Keys
      invariant ups == map name | name in item.upstreams && (name in rest || name in marked) :: item.upstreams[name]
      invariant conf == map name | name in item.confidence && (name in rest || name in marked) :: item.confidence[name]
    {
      var name :| name in rest;
      if name !in marked { ups := ups - {name}; conf := conf - {name}; }
      rest := rest - {name};
    }
    cut := Item(item.current, ups, conf);
    assert cut == Cut(item, marked);
    var allSame := AllSame(ups);
    keep := !(|ups| == 0 || allSame);
    if Keeps(item, marked) {
      var name :| name in item.upstreams && name in marked && item.upstreams[name] != SAME;
      assert name in ups;
    }
  }

  method AllSame(ups: map<string, Value>) returns (all: bool)
    ensures all <==> forall name :: name in ups ==> ups[name] == SAME
  {
    all := true;
    var rest := ups.Keys;
    while rest != {}
      invariant rest <= ups.Keys
      invariant forall name :: name in ups && name !in rest ==> ups[name] == SAME
    {
      var name :| name in rest;
      if ups[name] != SAME { return false; }
      rest := rest - {name};
    }
  }

  ghost predicate SameNames(row: map<string, Item>) {
    forall field :: field in row ==> row[field].confidence.Keys == row[field].upstreams.Keys
  }

  predicate FieldPruned(row: map<string, Item>, marked: set<string>, cut: map<string, Item>, field: string) {
    && (field in cut <==> field in row && Keeps(row[field], marked))
    && (field in cut ==> cut[field] == Cut(row[field], marked))
  }

  ghost predicate RowPruned(row: map<string, Item>, marked: set<string>, cut: map<string, Item>) {
    forall field :: FieldPruned(row, marked, cut, field)
  }

  method PruneRow(row: map<string, Item>, marked: set<string>) returns (cut: map<string, Item>)
    requires SameNames(row)
    ensures RowPruned(row, marked, cut)
  {
    cut := row;
    var rest := row.Keys;
    while rest != {}
      invariant rest <= row.Keys && rest <= cut.Keys
      invariant forall field :: field in rest ==> cut[field] == row[field]
      invariant forall field :: field !in rest ==> FieldPruned(row, marked, cut, field)
    {
      var field :| field in rest;
      var item, keep := PruneItem(row[field], marked);
      if keep { cut := cut[field := item]; } else { cut := cut - {field}; }
      rest := rest - {field};
    }
  }

  ghost predicate PrunedAt(d: Differences, marked: set<string>, cut: Differences, model: string) {
    RowPruned(RowOf(d, model), marked, RowOf(cut, model))
  }

  ghost predicate Pruned(d: Differences, marked: set<string>, cut: Differences) {
    && NoEmptyRow(cut)
    && (forall model :: PrunedAt(d, marked, cut, model))
  }

  function WithRow(d: Differences, model: string, row: map<string, Item>): Differences {
    if |row| == 0 then d - {model} else d[model := row]
  }

  lemma WithRowPruned(d: Differences, marked: set<string>, cut: Differences, model: string,
                      row: map<string, Item>, other: string)
    requires RowPruned(RowOf(d, model), marked, row)
    requires other != model ==> PrunedAt(d, marked, cut, other)
    ensures PrunedAt(d, marked, WithRow(cut, model, row), other)
  {
    if other == model {
      assert RowOf(WithRow(cut, model, row), other) == row;
    } else {
      assert RowOf(WithRow(cut, model, row), other) == RowOf(cut, other);
    }
  }

  method Prune(d: Differences, marked: set<string>) returns (cut: Differences)
    requires forall model :: model in d ==> SameNames(d[model])
    requires NoEmptyRow(d)
    ensures Pruned(d, marked, cut)
  {
    cut := d;
    var rest := d.Keys;
    assert forall model :: model !in rest ==> RowOf(d, model) == map[];
    while rest != {}
      invariant rest <= d.Keys && rest <= cut.Keys
      invariant NoEmptyRow(cut)
      invariant forall model :: model in rest ==> cut[model] == d[model]
      invariant forall model :: model !in rest ==> PrunedAt(d, marked, cut, model)
    {
      var model :| model in rest;
      var row := PruneRow(d[model], marked);
      assert RowOf(d, model) == d[model];
      forall other | other !in rest - {model} ensures PrunedAt(d, marked, WithRow(cut, model, row), other) {
        WithRowPruned(d, marked, cut, model, row, other);
      }
      if |row| == 0 { cut := cut - {model}; } else { cut := cut[model := row]; }
      rest := rest - {model};
    }
  }

  // ----------------------------------------------------------- the theorem

  lemma {:induction false} LastIndex(channels: seq<Channel>, name: string) returns (i: nat)
    requires Last(channels, name).Some?
    ensures i < |channels| && channels[i].name == name && channels[i].data == Last(channels, name).value
    ensures forall k :: i < k < |channels| ==> channels[k].name != name
  {
    var n := |channels| - 1;
    if channels[n].name == name {
      i := n;
    } else {
      i := LastIndex(channels[..n], name);
    }
  }

  lemma DifferenceIsIncluded(local: Data, channels: seq<Channel>, field: string, model: string, name: string)
    requires Differs(local, channels, field, model, name)
    ensures Included(local, channels, field, model)
  {
    var i := LastIndex(channels, name);
    assert Changes(Local(local, field, model), Supplied(channels[i].data, field, model));
  }

  /** In a built item a channel is shown exactly when it differs, with its own value. */
  lemma ItemShows(local: Data, channels: seq<Channel>, field: string, model: string, item: Item, name: string)
    requires field in FIELDS && ItemFor(local, channels, field, model, item)
    ensures ShownIn(item, name) <==> Differs(local, channels, field, model, name)
    ensures ShownIn(item, name) ==> Some(item.upstreams[name]) == Supplied(Last(channels, name).value, field, model)
  {
    if name in item.upstreams {
      StoredIsNews(Local(local, field, model), Supplied(Last(channels, name).value, field, model));
    }
  }

  lemma MarkedIff(local: Data, channels: seq<Channel>, d: Differences, name: string)
    requires Built(local, channels, d)
    ensures ShownSomewhere(d, name) <==> HasNews(local, channels, name)
  {
    if ShownSomewhere(d, name) {
      var model :| model in d && ShownInRow(d[model], name);
      var field :| field in d[model] && ShownIn(d[model][field], name);
      assert RowBuilt(local, channels, model, RowOf(d, model));
      ItemShows(local, channels, field, model, d[model][field], name);
    }
    if HasNews(local, channels, name) {
      var model, field :| Differs(local, channels, field, model, name);
      DifferenceIsIncluded(local, channels, field, model, name);
      assert RowBuilt(local, channels, model, RowOf(d, model));
      ItemShows(local, channels, field, model, d[model][field], name);
      assert ShownInRow(d[model], name);
    }
  }

  predicate Has(d: Differences, model: string, field: string) {
    model in d && field in d[model]
  }

  predicate Shows(d: Differences, model: string, field: string, name: string) {
    Has(d, model, field) && ShownIn(d[model][field], name)
  }

  /** The item stays although no channel differs in it: some channel changes the local
      value, but to nothing or to the mark, or is overwritten by a later channel of its
      name, and a channel that differs elsewhere says nothing here. */
  ghost predicate Hollow(local: Data, channels: seq<Channel>, field: string, model: string) {
    var current := Local(local, field, model);
    && field in FIELDS && current != Nil && Changed(current, channels, field, model)
    && exists name :: Silent(local, channels, field, model, name)
  }

  ghost predicate Silent(local: Data, channels: seq<Channel>, field: string, model: string, name: string) {
    && HasNews(local, channels, name) && Last(channels, name).Some?
    && Supplied(Last(channels, name).value, field, model) in {None, Some(Nil)}
  }

  ghost predicate AnyDiffers(local: Data, channels: seq<Channel>, field: string, model: string) {
    exists name :: Differs(local, channels, field, model, name)
  }

  ghost predicate Phases(local: Data, channels: seq<Channel>, built: Differences, marked: set<string>, d: Differences) {
    && Built(local, channels, built)
    && (forall name :: name in marked <==> HasNews(local, channels, name))
    && Pruned(built, marked, d)
  }

  lemma StaysWhenBuilt(local: Data, channels: seq<Channel>, built: Differences, marked: set<string>, d: Differences,
                       model: string, field: string)
    requires Phases(local, channels, built, marked, d)
    ensures Has(d, model, field) <==> Has(built, model, field) && Keeps(built[model][field], marked)
    ensures Has(d, model, field) ==> d[model][field] == Cut(built[model][field], marked)
    ensures Has(built, model, field) <==> field in FIELDS && Included(local, channels, field, model)
    ensures Has(built, model, field) ==> ItemFor(local, channels, field, model, built[model][field])
  {
    assert RowBuilt(local, channels, model, RowOf(built, model));
    assert PrunedAt(built, marked, d, model);
    assert FieldPruned(RowOf(built, model), marked, RowOf(d, model), field);
  }

  lemma ShowsIff(local: Data, channels: seq<Channel>, built: Differences, marked: set<string>, d: Differences,
                 model: string, field: string, name: string)
    requires Phases(local, channels, built, marked, d)
    ensures Shows(d, model, field, name) <==> Differs(local, channels, field, model, name)
    ensures Shows(d, model, field, name) ==>
              Some(d[model][field].upstreams[name]) == Told(channels, field, model, name)
  {
    StaysWhenBuilt(local, channels, built, marked, d, model, field);
    if Has(built, model, field) {
      ItemShows(local, channels, field, model, built[model][field], name);
    }
    if Differs(local, channels, field, model, name) {
      DifferenceIsIncluded(local, channels, field, model, name);
      assert name in marked && ShownIn(built[model][field], name);
    }
  }

  lemma KeptHasReason(local: Data, channels: seq<Channel>, field: string, model: string, item: Item,
                      marked: set<string>)
    requires field in FIELDS
    ensures Included(local, channels, field, model) && ItemFor(local, channels, field, model, item)
            && Keeps(item, marked) && (forall name :: name in marked ==> HasNews(local, channels, name))
            ==> AnyDiffers(local, channels, field, model) || Hollow(local, channels, field, model)
  {
    if Included(local, channels, field, model) && ItemFor(local, channels, field, model, item)
       && Keeps(item, marked) && (forall name :: name in marked ==> HasNews(local, channels, name))
    {
      var name :| name in item.upstreams && name in marked && item.upstreams[name] != SAME;
      StoredIsNews(Local(local, field, model), Supplied(Last(channels, name).value, field, model));
      if item.upstreams[name] == Nil {
        assert Silent(local, channels, field, model, name);
      } else {
        assert Differs(local, channels, field, model, name);
      }
    }
  }

  lemma ReasonIsKept(local: Data, channels: seq<Channel>, field: string, model: string, item: Item, marked: set<string>)
    requires field in FIELDS && ItemFor(local, channels, field, model, item)
    requires forall name :: HasNews(local, channels, name) ==> name in marked
    requires AnyDiffers(local, channels, field, model) || Hollow(local, channels, field, model)
    ensures Keeps(item, marked)
  {
    if AnyDiffers(local, channels, field, model) {
      var name :| Differs(local, channels, field, model, name);
      ItemShows(local, channels, field, model, item, name);
      assert name in marked;
    } else {
      var name :| Silent(local, channels, field, model, name);
      assert name in item.upstreams && name in marked && item.upstreams[name] == Nil;
    }
  }

  lemma ReasonIsIncluded(local: Data, channels: seq<Channel>, field: string, model: string)
    requires AnyDiffers(local, channels, field, model) || Hollow(local, channels, field, model)
    ensures field in FIELDS && Included(local, channels, field, model)
  {
    if AnyDiffers(local, channels, field, model) {
      var name :| Differs(local, channels, field, model, name);
      DifferenceIsIncluded(local, channels, field, model, name);
    }
  }

  lemma StaysIff(local: Data, channels: seq<Channel>, built: Differences, marked: set<string>, d: Differences,
                 model: string, field: string)
    requires Phases(local, channels, built, marked, d)
    ensures Has(d, model, field) <==> AnyDiffers(local, channels, field, model) || Hollow(local, channels, field, model)
  {
    StaysWhenBuilt(local, channels, built, marked, d, model, field);
    if Has(d, model, field) {
      KeptHasReason(local, channels, field, model, built[model][field], marked);
    } else if AnyDiffers(local, channels, field, model) || Hollow(local, channels, field, model) {
      ReasonIsIncluded(local, channels, field, model);
      ReasonIsKept(local, channels, field, model, built[model][field], marked);
    }
  }

  /** What remains of an item: the channels that differ somewhere and nothing else,
      each with the confidence of its own prices. */
  ghost predicate Tidy(local: Data, channels: seq<Channel>, field: string, model: string, item: Item) {
    && item.current == Local(local, field, model)
    && (forall name :: name in item.upstreams <==> HasNews(local, channels, name))
    && item.confidence.Keys == item.upstreams.Keys
    && (forall name :: name in item.confidence ==>
          Last(channels, name).Some? && item.confidence[name] == !Placeholder(Last(channels, name).value, model))
    && exists name :: name in item.upstreams && item.upstreams[name] != SAME
  }

  lemma StaysTidy(local: Data, channels: seq<Channel>, built: Differences, marked: set<string>, d: Differences,
                  model: string, field: string)
    requires Phases(local, channels, built, marked, d) && Has(d, model, field)
    ensures Tidy(local, channels, field, model, d[model][field])
  {
    StaysWhenBuilt(local, channels, built, marked, d, model, field);
    CutIsTidy(local, channels, field, model, built[model][field], marked);
  }

  lemma CutIsTidy(local: Data, channels: seq<Channel>, field: string, model: string, was: Item, marked: set<string>)
    requires ItemFor(local, channels, field, model, was) && Keeps(was, marked)
    requires forall name :: name in marked <==> HasNews(local, channels, name)
    ensures Tidy(local, channels, field, model, Cut(was, marked))
  {
    forall name | name in marked ensures Last(channels, name).Some? { NewsIsFound(local, channels, name); }
    CutNames(was, marked);
    CutConfidences(channels, model, was, marked);
    CutKeeps(was, marked);
  }

  lemma CutNames(was: Item, marked: set<string>)
    requires forall name :: name in marked ==> name in was.upstreams
    ensures forall name :: name in Cut(was, marked).upstreams <==> name in marked
  {
  }

  lemma CutConfidences(channels: seq<Channel>, model: string, was: Item, marked: set<string>)
    requires Confidences(channels, model, was.confidence) && was.confidence.Keys == was.upstreams.Keys
    ensures var item := Cut(was, marked);
            && item.confidence.Keys == item.upstreams.Keys
            && forall name :: name in item.confidence ==>
                 Last(channels, name).Some? && item.confidence[name] == !Placeholder(Last(channels, name).value, model)
  {
  }

  lemma CutKeeps(was: Item, marked: set<string>)
    requires Keeps(was, marked)
    ensures var item := Cut(was, marked); exists name :: name in item.upstreams && item.upstreams[name] != SAME
  {
    var name :| name in was.upstreams && name in marked && was.upstreams[name] != SAME;
    assert name in Cut(was, marked).upstreams;
  }

  lemma NewsIsFound(local: Data, channels: seq<Channel>, name: string)
    requires HasNews(local, channels, name)
    ensures Last(channels, name).Some?
  {
    var m, f :| Differs(local, channels, f, m, name);
  }

  /** The whole comparison.  A value is shown as a difference for a model, field and
      channel exactly when the last channel of that name supplies it and the local value
      is missing or not equal to it: pruning loses none and building invents none.  What
      remains are tidy items and no empty rows. */
  method BuildDifferences(local: Data, channels: seq<Channel>) returns (d: Differences)
    ensures forall model, field, name :: Shows(d, model, field, name) <==> Differs(local, channels, field, model, name)
    ensures forall model, field, name :: Shows(d, model, field, name) ==>
              Some(d[model][field].upstreams[name]) == Told(channels, field, model, name)
    ensures forall model, field :: Has(d, model, field)
              <==> AnyDiffers(local, channels, field, model) || Hollow(local, channels, field, model)
    ensures forall model, field :: Has(d, model, field) ==> Tidy(local, channels, field, model, d[model][field])
    ensures NoEmptyRow(d)
  {
    var built := Build(local, channels);
    var marked := MarkChannels(built);
    forall name ensures name in marked <==> HasNews(local, channels, name) {
      MarkedIff(local, channels, built, name);
    }
    BuiltSameNames(local, channels, built);
    d := Prune(built, marked);
    forall model, field, name
      ensures Shows(d, model, field, name) <==> Differs(local, channels, field, model, name)
      ensures Shows(d, model, field, name) ==>
                Some(d[model][field].upstreams[name]) == Told(channels, field, model, name)
    {
      ShowsIff(local, channels, built, marked, d, model, field, name);
    }
    forall model, field
      ensures Has(d, model, field)
           <==> AnyDiffers(local, channels, field, model) || Hollow(local, channels, field, model)
    {
      StaysIff(local, channels, built, marked, d, model, field);
    }
    forall model, field | Has(d, model, field) ensures Tidy(local, channels, field, model, d[model][field]) {
      StaysTidy(local, channels, built, marked, d, model, field);
    }
  }

  lemma BuiltSameNames(local: Data, channels: seq<Channel>, d: Differences)
    requires Built(local, channels, d)
    ensures forall model :: model in d ==> SameNames(d[model])
  {
    forall model, field | model in d && field in d[model]
      ensures d[model][field].confidence.Keys == d[model][field].upstreams.Keys
    {
      assert RowBuilt(local, channels, model, RowOf(d, model));
      assert ItemFor(local, channels, field, model, d[model][field]);
    }
  }

  // ------------------------------------------------------- hollow items

  predicate DistinctNames(channels: seq<Channel>) {
    forall i, j :: 0 <= i < j < |channels| ==> channels[i].name != channels[j].name
  }

  /** No channel supplies nothing, or the word that is used as the mark. */
  predicate PlainValues(channels: seq<Channel>, field: string, model: string) {
    forall i :: 0 <= i < |channels| ==> Supplied(channels[i].data, field, model) !in {Some(Nil), Some(SAME)}
  }

  /** With distinct names and plain values no item is hollow: every item left shows a difference. */
  lemma NoHollowItems(local: Data, channels: seq<Channel>, field: string, model: string)
    requires DistinctNames(channels) && PlainValues(channels, field, model)
    ensures Hollow(local, channels, field, model) ==> AnyDiffers(local, channels, field, model)
  {
    if Hollow(local, channels, field, model) {
      var i :| 0 <= i < |channels| && Changes(Local(local, field, model), Supplied(channels[i].data, field, model));
      Named(channels, i);
      var k := LastIndex(channels, channels[i].name);
      assert k == i;
      assert Differs(local, channels, field, model, channels[i].name);
    }
  }

  /** A channel that publishes null for one model and a new price for another keeps an
      item in which nothing differs. */
  lemma NullLeavesHollowItem(a: string, b: string)
    requires a != b
    ensures var local := map["model_ratio" := map[a := Float(1.0), b := Float(1.0)]];
            var channels := [Channel("up", map["model_ratio" := map[a := Nil, b := Float(2.0)]])];
            && Hollow(local, channels, "model_ratio", a)
            && !AnyDiffers(local, channels, "model_ratio", a)
  {
    var f := "model_ratio";
    assert FIELDS[0] == f && NUMERIC[0] == f;
    var local: Data := map[f := map[a := Float(1.0), b := Float(1.0)]];
    var data: Data := map[f := map[a := Nil, b := Float(2.0)]];
    var channels := [Channel("up", data)];
    assert Last(channels, "up") == Some(data);
    assert Differs(local, channels, f, b, "up");
    assert Silent(local, channels, f, a, "up");
    assert Changes(Local(local, f, a), Supplied(channels[0].data, f, a));
    forall name ensures !Differs(local, channels, f, a, name) {
      assert channels[..0] == [];
      if name != "up" { assert Last(channels, name) == None; }
    }
  }

  /** So does a channel that publishes the word used as the mark, next to a channel that
      differs elsewhere. */
  lemma MarkLeavesHollowItem(a: string, b: string)
    requires a != b
    ensures var local := map["model_ratio" := map[a := Float(1.0), b := Float(1.0)]];
            var channels := [Channel("one", map["model_ratio" := map[a := SAME]]),
                             Channel("two", map["model_ratio" := map[b := Float(2.0)]])];
            && Hollow(local, channels, "model_ratio", a)
            && !AnyDiffers(local, channels, "model_ratio", a)
  {
    var f := "model_ratio";
    assert FIELDS[0] == f && NUMERIC[0] == f;
    var local: Data := map[f := map[a := Float(1.0), b := Float(1.0)]];
    var one: Data := map[f := map[a := SAME]];
    var two: Data := map[f := map[b := Float(2.0)]];
    var channels := [Channel("one", one), Channel("two", two)];
    LastOfTwo("one", one, "two", two);
    assert Differs(local, channels, f, b, "two");
    assert Silent(local, channels, f, a, "two");
    assert Changes(Local(local, f, a), Supplied(channels[0].data, f, a));
    forall name ensures !Differs(local, channels, f, a, name) { }
  }

  /** And so do two channels of one name, the first with a new price that the second,
      which differs elsewhere, takes back by saying nothing. */
  lemma SharedNameLeavesHollowItem(a: string, b: string)
    requires a != b
    ensures var local := map["model_ratio" := map[a := Float(1.0), b := Float(1.0)]];
            var channels := [Channel("up", map["model_ratio" := map[a := Float(2.0)]]),
                             Channel("up", map["model_ratio" := map[b := Float(2.0)]])];
            && Hollow(local, channels, "model_ratio", a)
            && !AnyDiffers(local, channels, "model_ratio", a)
  {
    var f := "model_ratio";
    assert FIELDS[0] == f && NUMERIC[0] == f;
    var local: Data := map[f := map[a := Float(1.0), b := Float(1.0)]];
    var one: Data := map[f := map[a := Float(2.0)]];
    var two: Data := map[f := map[b := Float(2.0)]];
    var channels := [Channel("up", one), Channel("up", two)];
    LastOfTwo("up", one, "up", two);
    assert Differs(local, channels, f, b, "up");
    assert Silent(local, channels, f, a, "up");
    assert Changes(Local(local, f, a), Supplied(channels[0].data, f, a));
    forall name ensures !Differs(local, channels, f, a, name) { }
  }

  lemma LastOfTwo(one: string, first: Data, two: string, second: Data)
    ensures forall name :: Last([Channel(one, first), Channel(two, second)], name)
                        == if name == two then Some(second) else if name == one then Some(first) else None
  {
    var channels := [Channel(one, first), Channel(two, second)];
    assert channels[..1] == [Channel(one, first)] && channels[..1][..0] == [];
    forall name
      ensures Last(channels, name) == if name == two then Some(second) else if name == one then Some(first) else None
    {
      assert Last(channels[..1], name) == if name == one then Some(first) else Last(channels[..1][..0], name);
    }
  }
}
