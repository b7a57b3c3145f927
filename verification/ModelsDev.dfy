/** The choice among the providers of the models.dev price list.  The handler sorts
    the providers, walks them in that order and keeps, per model, one candidate; the
    comparison treats prices closer than an epsilon as equal, which is not transitive.
    Proved: what is kept is a valid candidate, priced whenever any candidate is priced,
    and less than epsilon above every priced one; and it does not depend on the order
    in which the maps are walked. */
module ModelsDev {
  import opened Basics

  /** A price as decoded: a number, or one of the floating-point non-numbers. */
  datatype Price = Finite(amount: real) | NotFinite

  datatype Cost = Cost(input: Option<Price>, output: Option<Price>, cacheRead: Option<Price>)

  datatype Candidate = Candidate(provider: string, input: real, output: Option<Price>, cacheRead: Option<Price>)

  /** Per provider, the models it offers and their costs. */
  type Feed = map<string, map<string, Cost>>

  // -------------------------------------------------------- the order of names

  predicate Less(a: string, b: string) {
    b != [] && (a == [] || a[0] < b[0] || (a[0] == b[0] && Less(a[1..], b[1..])))
  }

  lemma {:induction false} LessIrreflexive(a: string)
    ensures !Less(a, a)
  {
    if a != [] { LessIrreflexive(a[1..]); }
  }

  lemma {:induction false} LessTransitive(a: string, b: string, c: string)
    requires Less(a, b) && Less(b, c)
    ensures Less(a, c)
  {
    if a != [] && a[0] == b[0] && b[0] == c[0] { LessTransitive(a[1..], b[1..], c[1..]); }
  }

  lemma {:induction false} LessTotal(a: string, b: string)
    ensures Less(a, b) || Less(b, a) || a == b
  {
    if a != [] && b != [] && a[0] == b[0] {
      LessTotal(a[1..], b[1..]);
      if a[1..] == b[1..] { assert a == [a[0]] + a[1..] && b == [b[0]] + b[1..]; }
    }
  }

  ghost predicate Ascending(s: seq<string>) {
    forall i, j :: 0 <= i < j < |s| ==> Less(s[i], s[j])
  }

  function Elements(s: seq<string>): set<string> {
    set i | 0 <= i < |s| :: s[i]
  }

  predicate Distinct(s: seq<string>) {
    forall i, j :: 0 <= i < j < |s| ==> s[i] != s[j]
  }

  function Insert(x: string, s: seq<string>): seq<string> {
    if s == [] then [x] else if Less(x, s[0]) then [x] + s else [s[0]] + Insert(x, s[1..])
  }

  /** The library sort on strings. */
  function Sorted(s: seq<string>): seq<string> {
    if s == [] then [] else Insert(s[0], Sorted(s[1..]))
  }

  lemma {:induction false} InsertElements(x: string, s: seq<string>)
    ensures Elements(Insert(x, s)) == {x} + Elements(s)
  {
    if s == [] {
      HeadElements([x]);
    } else {
      HeadElements(s);
      if Less(x, s[0]) {
        HeadElements([x] + s);
      } else {
        InsertElements(x, s[1..]);
        HeadElements([s[0]] + Insert(x, s[1..]));
      }
    }
  }

  lemma HeadElements(s: seq<string>)
    requires s != []
    ensures Elements(s) == {s[0]} + Elements(s[1..])
  {
    forall y | y in Elements(s) ensures y in {s[0]} + Elements(s[1..]) {
      var i :| 0 <= i < |s| && s[i] == y;
      if i > 0 { assert s[1..][i - 1] == y; }
    }
    forall y | y in Elements(s[1..]) ensures y in Elements(s) {
      var i :| 0 <= i < |s| - 1 && s[1..][i] == y;
      assert s[i + 1] == y;
    }
  }

  lemma FirstIsLeast(s: seq<string>, y: string)
    requires Ascending(s) && s != [] && y in Elements(s) && y != s[0]
    ensures Less(s[0], y)
  {
    var i :| 0 <= i < |s| && s[i] == y;
  }

  /** An ascending list with a smaller head in front is ascending. */
  lemma PrependAscends(x: string, s: seq<string>)
    requires Ascending(s) && (forall y :: y in Elements(s) ==> Less(x, y))
    ensures Ascending([x] + s)
  {
    forall i, j | 0 <= i < j < |s| + 1 ensures Less(([x] + s)[i], ([x] + s)[j]) {
      assert s[j - 1] in Elements(s);
    }
  }

  lemma {:induction false} InsertAscends(x: string, s: seq<string>)
    requires Ascending(s) && x !in Elements(s)
    ensures Ascending(Insert(x, s))
  {
    if s != [] {
      HeadElements(s);
      if Less(x, s[0]) {
        forall y | y in Elements(s) ensures Less(x, y) {
          if y != s[0] { FirstIsLeast(s, y); LessTransitive(x, s[0], y); }
        }
        PrependAscends(x, s);
      } else {
        InsertAscends(x, s[1..]);
        InsertElements(x, s[1..]);
        LessTotal(x, s[0]);
        forall y | y in Elements(Insert(x, s[1..])) ensures Less(s[0], y) {
          if y != x { TailAbove(s, y); }
        }
        PrependAscends(s[0], Insert(x, s[1..]));
      }
    }
  }

  lemma TailAbove(s: seq<string>, y: string)
    requires Ascending(s) && s != [] && y in Elements(s[1..])
    ensures Less(s[0], y)
  {
    var i :| 0 <= i < |s| - 1 && s[1..][i] == y;
    assert s[i + 1] == y;
  }

  lemma {:induction false} SortedIsAscending(s: seq<string>)
    requires Distinct(s)
    ensures Ascending(Sorted(s)) && Elements(Sorted(s)) == Elements(s)
  {
    if s != [] {
      SortedIsAscending(s[1..]);
      HeadElements(s);
      InsertElements(s[0], Sorted(s[1..]));
      assert s[0] !in Elements(s[1..]) by { DistinctHead(s); }
      InsertAscends(s[0], Sorted(s[1..]));
    }
  }

  lemma DistinctHead(s: seq<string>)
    requires Distinct(s) && s != []
    ensures s[0] !in Elements(s[1..])
  {
    forall i | 0 <= i < |s| - 1 ensures s[1..][i] != s[0] { assert s[1..][i] == s[i + 1]; }
  }

  /** Only one ascending list has given elements. */
  lemma {:induction false} AscendingIsUnique(a: seq<string>, b: seq<string>)
    requires Ascending(a) && Ascending(b) && Elements(a) == Elements(b)
    ensures a == b
  {
    if a == [] {
      if b != [] { HeadElements(b); }
    } else {
      HeadElements(a);
      if b != [] {
        HeadElements(b);
        if a[0] != b[0] {
          FirstIsLeast(a, b[0]); FirstIsLeast(b, a[0]);
          LessTransitive(a[0], b[0], a[0]); LessIrreflexive(a[0]);
        }
        TailElements(a); TailElements(b);
        AscendingIsUnique(a[1..], b[1..]);
        assert a == [a[0]] + a[1..] && b == [b[0]] + b[1..];
      }
    }
  }

  lemma TailElements(s: seq<string>)
    requires Ascending(s) && s != []
    ensures Elements(s[1..]) == Elements(s) - {s[0]}
  {
    HeadElements(s);
    LessIrreflexive(s[0]);
    if s[0] in Elements(s[1..]) { TailAbove(s, s[0]); }
  }

  // ------------------------------------------------------------- candidates

  predicate Usable(p: Price) {
    p.Finite? && p.amount >= 0.0
  }

  function Build(provider: string, cost: Cost): (c: Option<Candidate>)
    ensures c.Some? <==> Convertible(cost)
    ensures c.Some? ==>
              && c.value.provider == provider && Some(Finite(c.value.input)) == cost.input && c.value.input >= 0.0
              && c.value.output == cost.output
              && (c.value.cacheRead.Some? <==> cost.cacheRead.Some? && Usable(cost.cacheRead.value))
              && (c.value.cacheRead.Some? ==> c.value.cacheRead == cost.cacheRead)
  {
    if cost.input.None? then None
    else if !Usable(cost.input.value) then None
    else
      var input := cost.input.value.amount;
      if cost.output.Some? && !Usable(cost.output.value) then None
      else if input == 0.0 && cost.output.Some? && cost.output.value.amount > 0.0 then None
      else
        var cacheRead := if cost.cacheRead.Some? && Usable(cost.cacheRead.value) then cost.cacheRead else None;
        Some(Candidate(provider, input, cost.output, cacheRead))
  }

  /** The costs can be expressed as ratios of the input price. */
  predicate Convertible(cost: Cost) {
    && cost.input.Some? && Usable(cost.input.value)
    && (cost.output.Some? ==> Usable(cost.output.value)
                              && (cost.input.value.amount > 0.0 || cost.output.value.amount == 0.0))
  }

  /** What a provider offers for a model, when it can be used. */
  function Offer(feed: Feed, provider: string, model: string): Option<Candidate> {
    if provider in feed && model in feed[provider] then Build(provider, feed[provider][model]) else None
  }

  predicate Replaces(current: Candidate, next: Candidate) {
    var currentPriced, nextPriced := current.input > 0.0, next.input > 0.0;
    if currentPriced != nextPriced then nextPriced
    else if nextPriced && !NearlyEqual(next.input, current.input) then next.input < current.input
    else Less(next.provider, current.provider)
  }

  function Better(current: Option<Candidate>, next: Option<Candidate>): Option<Candidate> {
    if next.None? then current
    else if current.None? || Replaces(current.value, next.value) then next
    else current
  }

  /** The candidate kept for a model after walking the providers in the given order. */
  function Pick(feed: Feed, providers: seq<string>, model: string): Option<Candidate> {
    if providers == [] then None
    else
      var n := |providers| - 1;
      Better(Pick(feed, providers[..n], model), Offer(feed, providers[n], model))
  }

  // -------------------------------------------------- what the choice is worth

  /** c is an offer; it is priced if d is, less than epsilon above d, and below d if d's
      provider comes first by name.  Among free offers the first name wins. */
  predicate NoWorse(c: Candidate, d: Candidate) {
    && (d.input > 0.0 ==> 0.0 < c.input < d.input + EPSILON)
    && (d.input > 0.0 && Less(d.provider, c.provider) ==> c.input < d.input)
    && (c.input == 0.0 ==> !Less(d.provider, c.provider))
  }

  ghost predicate Chosen(feed: Feed, providers: seq<string>, model: string, c: Candidate) {
    && c.provider in Elements(providers) && Offer(feed, c.provider, model) == Some(c)
    && forall p :: p in Elements(providers) && Offer(feed, p, model).Some? ==> NoWorse(c, Offer(feed, p, model).value)
  }

  /** With providers in ascending order the tie-breaker never fires: a later candidate
      replaces the kept one only for being priced or cheaper by at least epsilon. */
  lemma TieBreakerIdle(current: Candidate, next: Candidate)
    requires Less(current.provider, next.provider) && current.input >= 0.0 && next.input >= 0.0
    ensures Replaces(current, next)
         <==> (current.input == 0.0 < next.input || 0.0 < next.input <= current.input - EPSILON)
  {
    if Less(next.provider, current.provider) {
      LessTransitive(current.provider, next.provider, current.provider);
      LessIrreflexive(current.provider);
    }
  }

  lemma OfferIsSound(feed: Feed, provider: string, model: string)
    ensures Offer(feed, provider, model).Some? ==>
              Offer(feed, provider, model).value.provider == provider && Offer(feed, provider, model).value.input >= 0.0
  {
  }

  lemma LastElement(s: seq<string>)
    requires s != []
    ensures Elements(s) == Elements(s[..|s| - 1]) + {s[|s| - 1]}
  {
    var n := |s| - 1;
    forall y | y in Elements(s) ensures y in Elements(s[..n]) + {s[n]} {
      var i :| 0 <= i < |s| && s[i] == y;
      if i < n { assert s[..n][i] == y; }
    }
    forall y | y in Elements(s[..n]) ensures y in Elements(s) {
      var i :| 0 <= i < n && s[..n][i] == y;
      assert s[i] == y;
    }
  }

  /** One more provider, later by name than all before. */
  lemma BetterChosen(feed: Feed, before: seq<string>, last: string, model: string, c: Candidate, d: Candidate)
    requires Chosen(feed, before, model, c) && Offer(feed, last, model) == Some(d)
    requires forall p :: p in Elements(before) ==> Less(p, last)
    ensures Chosen(feed, before + [last], model, if Replaces(c, d) then d else c)
  {
    var all := before + [last];
    LastElement(all);
    assert all[..|all| - 1] == before;
    OfferIsSound(feed, last, model);
    OfferIsSound(feed, c.provider, model);
    TieBreakerIdle(c, d);
    LessIrreflexive(last);
    forall p | p in Elements(all) && Offer(feed, p, model).Some?
      ensures NoWorse(if Replaces(c, d) then d else c, Offer(feed, p, model).value)
    {
      OfferIsSound(feed, p, model);
      var e := Offer(feed, p, model).value;
      if p in Elements(before) {
        assert NoWorse(c, e);
        LessIrreflexive(p);
      } else {
        assert p == last;
        if Less(last, c.provider) { LessTransitive(last, c.provider, last); }
      }
    }
  }

  /** Walking ascending providers: something is kept exactly when someone makes a usable
      offer, and it is well chosen among all of them. */
  lemma {:induction false} PickIsChosen(feed: Feed, providers: seq<string>, model: string)
    requires Ascending(providers)
    ensures Pick(feed, providers, model).Some? <==>
              exists p :: p in Elements(providers) && Offer(feed, p, model).Some?
    ensures Pick(feed, providers, model).Some? ==> Chosen(feed, providers, model, Pick(feed, providers, model).value)
  {
    if providers != [] {
      var n := |providers| - 1;
      var before, last := providers[..n], providers[n];
      assert providers == before + [last];
      PickIsChosen(feed, before, model);
      LastElement(providers);
      var c, d := Pick(feed, before, model), Offer(feed, last, model);
      if d.Some? {
        if c.Some? {
          forall p | p in Elements(before) ensures Less(p, last) { }
          BetterChosen(feed, before, last, model, c.value, d.value);
        } else {
          OfferIsSound(feed, last, model);
          LessIrreflexive(last);
        }
      } else if c.Some? {
        assert Chosen(feed, providers, model, c.value);
      }
    }
  }

  /** The choice does not depend on the order in which the providers are listed before sorting. */
  lemma PickIsIndependent(feed: Feed, one: seq<string>, other: seq<string>, model: string)
    requires Distinct(one) && Distinct(other) && Elements(one) == Elements(other)
    ensures Pick(feed, Sorted(one), model) == Pick(feed, Sorted(other), model)
  {
    SortedIsAscending(one);
    SortedIsAscending(other);
    AscendingIsUnique(Sorted(one), Sorted(other));
  }

  // ---------------------------------------------------------- the walk itself

  function Kept(selected: map<string, Candidate>, model: string): Option<Candidate> {
    if model in selected then Some(selected[model]) else None
  }

  /** One provider: its models, each once, in the given order. */
  method SelectProvider(feed: Feed, provider: string, names: seq<string>, before: map<string, Candidate>)
    returns (selected: map<string, Candidate>)
    requires provider in feed && Distinct(names) && Elements(names) == feed[provider].Keys
    ensures forall model :: Kept(selected, model) == Better(Kept(before, model), Offer(feed, provider, model))
  {
    selected := before;
    for i := 0 to |names|
      invariant forall model :: Kept(selected, model)
                  == if model in names[..i] then Better(Kept(before, model), Offer(feed, provider, model))
                     else Kept(before, model)
    {
      var name := names[i];
      assert name in Elements(names);
      assert name !in names[..i];
      var candidate := Build(provider, feed[provider][name]);
      if candidate.Some? {
        if name !in selected || Replaces(selected[name], candidate.value) {
          selected := selected[name := candidate.value];
        }
      }
      assert names[..i + 1] == names[..i] + [name];
    }
    assert names[..|names|] == names;
    forall model | model in feed[provider] ensures model in names { assert model in Elements(names); }
  }

  /** The selection over the whole feed, whatever order the maps are walked in. */
  method Select(feed: Feed, listed: seq<string>, names: map<string, seq<string>>)
    returns (selected: map<string, Candidate>)
    requires Distinct(listed) && Elements(listed) == feed.Keys
    requires names.Keys == feed.Keys
    requires forall p :: p in feed ==> Distinct(names[p]) && Elements(names[p]) == feed[p].Keys
    ensures forall model :: Kept(selected, model) == Pick(feed, Sorted(listed), model)
    ensures forall model :: model in selected <==> exists p :: p in feed && Offer(feed, p, model).Some?
    ensures forall model :: model in selected ==> Chosen(feed, Sorted(listed), model, selected[model])
  {
    var providers := Sorted(listed);
    SortedIsAscending(listed);
    selected := map[];
    for i := 0 to |providers|
      invariant forall model :: Kept(selected, model) == Pick(feed, providers[..i], model)
    {
      assert providers[i] in Elements(providers);
      var sortedNames := Sorted(names[providers[i]]);
      SortedIsAscending(names[providers[i]]);
      AscendingIsDistinct(sortedNames);
      selected := SelectProvider(feed, providers[i], sortedNames, selected);
      assert providers[..i + 1][..i] == providers[..i];
    }
    assert providers[..|providers|] == providers;
    forall model
      ensures model in selected <==> exists p :: p in feed && Offer(feed, p, model).Some?
      ensures model in selected ==> Chosen(feed, providers, model, selected[model])
    {
      PickIsChosen(feed, providers, model);
      assert Kept(selected, model) == Pick(feed, providers, model);
    }
  }

  lemma AscendingIsDistinct(s: seq<string>)
    requires Ascending(s)
    ensures Distinct(s)
  {
    forall i, j | 0 <= i < j < |s| ensures s[i] != s[j] { LessIrreflexive(s[i]); }
  }

  // ------------------------------------------------- when it is the cheapest

  /** The prices on offer for a model, in the order of the providers. */
  function Prices(feed: Feed, providers: seq<string>, model: string): seq<real> {
    if providers == [] then []
    else
      var n := |providers| - 1;
      var rest, offer := Prices(feed, providers[..n], model), Offer(feed, providers[n], model);
      if offer.Some? then rest + [offer.value.input] else rest
  }

  /** The price kept after walking prices in the order of their providers' names. */
  function Walk(prices: seq<real>): real {
    if prices == [] then 0.0
    else
      var n := |prices| - 1;
      var kept, next := Walk(prices[..n]), prices[n];
      if kept == 0.0 || 0.0 < next <= kept - EPSILON then next else kept
  }

  /** With providers in ascending order only the prices and their order matter. */
  lemma {:induction false} PickWalks(feed: Feed, providers: seq<string>, model: string)
    requires Ascending(providers)
    ensures Pick(feed, providers, model).Some? <==> Prices(feed, providers, model) != []
    ensures Pick(feed, providers, model).Some? ==>
              Pick(feed, providers, model).value.input == Walk(Prices(feed, providers, model))
    ensures forall i :: 0 <= i < |Prices(feed, providers, model)| ==> Prices(feed, providers, model)[i] >= 0.0
  {
    if providers != [] {
      var n := |providers| - 1;
      var before := providers[..n];
      PickWalks(feed, before, model);
      PickIsChosen(feed, before, model);
      var kept, next, rest := Pick(feed, before, model), Offer(feed, providers[n], model), Prices(feed, before, model);
      OfferIsSound(feed, providers[n], model);
      if next.Some? {
        assert (rest + [next.value.input])[..|rest|] == rest;
        if kept.Some? {
          OfferIsSound(feed, kept.value.provider, model);
          TieBreakerIdle(kept.value, next.value);
        }
      }
    }
  }

  ghost predicate Cheapest(price: real, prices: seq<real>) {
    forall p :: p in prices && p > 0.0 ==> 0.0 < price <= p
  }

  /** No other price lies less than epsilon above the lowest. */
  ghost predicate LowestStandsApart(prices: seq<real>) {
    forall low, p :: low in prices && low > 0.0 && Cheapest(low, prices) && p in prices && p > low ==>
      p >= low + EPSILON
  }

  lemma {:induction false} WalkIsClose(prices: seq<real>)
    requires forall p :: p in prices ==> p >= 0.0
    ensures prices != [] ==> Walk(prices) in prices
    ensures forall p :: p in prices && p > 0.0 ==> 0.0 < Walk(prices) < p + EPSILON
  {
    if prices != [] {
      var n := |prices| - 1;
      assert prices == prices[..n] + [prices[n]];
      assert forall p :: p in prices[..n] ==> p in prices;
      WalkIsClose(prices[..n]);
    }
  }

  lemma {:induction false} WalkKeepsFirst(first: real, rest: seq<real>)
    requires first > 0.0 && forall p :: p in rest && p > 0.0 ==> p > first - EPSILON
    ensures Walk([first] + rest) == first
  {
    var all := [first] + rest;
    if rest == [] {
      assert all[..0] == [];
    } else {
      var n := |rest| - 1;
      assert all[..|all| - 1] == [first] + rest[..n];
      assert rest[n] in rest && forall p :: p in rest[..n] ==> p in rest;
      WalkKeepsFirst(first, rest[..n]);
    }
  }

  lemma {:induction false} LowestExists(prices: seq<real>, p: real) returns (low: real)
    requires p in prices && p > 0.0
    ensures low in prices && low > 0.0 && Cheapest(low, prices)
  {
    var n := |prices| - 1;
    assert prices == prices[..n] + [prices[n]];
    if q :| q in prices[..n] && q > 0.0 {
      low := LowestExists(prices[..n], q);
      if 0.0 < prices[n] < low { low := prices[n]; }
    } else {
      low := prices[n];
    }
  }

  /** Walked first, a price close above the lowest stays. */
  lemma CloseIsKept(prices: seq<real>, low: real, p: real) returns (order: seq<real>)
    requires low in prices && low > 0.0 && Cheapest(low, prices) && p in prices && low < p < low + EPSILON
    ensures multiset(order) == multiset(prices) && Walk(order) == p && low in order
  {
    var i :| 0 <= i < |prices| && prices[i] == p;
    var rest := prices[..i] + prices[i + 1..];
    order := [p] + rest;
    assert prices == prices[..i] + [p] + prices[i + 1..];
    assert forall q :: q in rest ==> q in prices;
    WalkKeepsFirst(p, rest);
    assert low in rest by {
      var k :| 0 <= k < |prices| && prices[k] == low;
      assert if k < i then prices[..i][k] == low else prices[i + 1..][k - i - 1] == low;
    }
  }

  lemma ApartIsCheapest(order: seq<real>, prices: seq<real>)
    requires (forall p :: p in prices ==> p >= 0.0) && LowestStandsApart(prices) && multiset(order) == multiset(prices)
    ensures Cheapest(Walk(order), order)
  {
    forall p ensures p in order <==> p in prices { assert p in multiset(order) <==> p in multiset(prices); }
    WalkIsClose(order);
    if p :| p in order && p > 0.0 {
      var low := LowestExists(prices, p);
      assert Walk(order) == low;
    }
  }

  // ---------------------------------------------- every order of prices occurs

  /** The i-th of an endless row of names. */
  function NameOf(i: nat): string {
    if i == 0 then "" else "a" + NameOf(i - 1)
  }

  lemma {:induction false} NamesAscend(i: nat, j: nat)
    requires i < j
    ensures Less(NameOf(i), NameOf(j))
  {
    if i > 0 { NamesAscend(i - 1, j - 1); }
  }

  function Names(n: nat): (s: seq<string>)
    ensures |s| == n && forall i :: 0 <= i < n ==> s[i] == NameOf(i)
  {
    if n == 0 then [] else Names(n - 1) + [NameOf(n - 1)]
  }

  lemma NamesAreAscending(n: nat)
    ensures Ascending(Names(n))
  {
    forall i, j | 0 <= i < j < n ensures Less(Names(n)[i], Names(n)[j]) { NamesAscend(i, j); }
  }

  function PriceOnly(model: string, price: real): map<string, Cost> {
    map[model := Cost(Some(Finite(price)), None, None)]
  }

  /** A feed in which the i-th name offers the model at the i-th price. */
  function FeedOf(prices: seq<real>, model: string): Feed {
    if prices == [] then map[]
    else
      var n := |prices| - 1;
      FeedOf(prices[..n], model)[NameOf(n) := PriceOnly(model, prices[n])]
  }

  lemma {:induction false} FeedHasNames(prices: seq<real>, model: string)
    ensures FeedOf(prices, model).Keys == Elements(Names(|prices|))
  {
    if prices != [] {
      var n := |prices| - 1;
      FeedHasNames(prices[..n], model);
      LastElement(Names(n + 1));
      assert Names(n + 1)[..n] == Names(n);
    }
  }

  /** A name that comes later leaves the offers of the earlier ones alone. */
  lemma {:induction false} PricesFrame(feed: Feed, providers: seq<string>, model: string,
                                       name: string, costs: map<string, Cost>)
    requires name !in providers
    ensures Prices(feed[name := costs], providers, model) == Prices(feed, providers, model)
  {
    if providers != [] { PricesFrame(feed, providers[..|providers| - 1], model, name, costs); }
  }

  lemma PricesNext(feed: Feed, providers: seq<string>, model: string, name: string, price: real)
    requires name !in providers && price >= 0.0
    ensures Prices(feed[name := PriceOnly(model, price)], providers + [name], model)
         == Prices(feed, providers, model) + [price]
  {
    var all := providers + [name];
    assert all[..|all| - 1] == providers;
    PricesFrame(feed, providers, model, name, PriceOnly(model, price));
  }

  lemma LaterNameIsNew(n: nat)
    ensures NameOf(n) !in Names(n)
  {
    forall i | 0 <= i < n ensures Names(n)[i] != NameOf(n) {
      NamesAscend(i, n);
      LessIrreflexive(NameOf(n));
    }
  }

  lemma {:induction false} FeedHasPrices(prices: seq<real>, model: string)
    requires forall p :: p in prices ==> p >= 0.0
    ensures Prices(FeedOf(prices, model), Names(|prices|), model) == prices
  {
    if prices != [] {
      var n := |prices| - 1;
      var front := prices[..n];
      assert prices == front + [prices[n]] && prices[n] in prices;
      assert forall p :: p in front ==> p in prices;
      FeedHasPrices(front, model);
      LaterNameIsNew(n);
      PricesNext(FeedOf(front, model), Names(n), model, NameOf(n), prices[n]);
    }
  }

  /** The sorted providers of the feed offer the model at these prices, in some order. */
  ghost predicate OffersAt(feed: Feed, providers: seq<string>, model: string, prices: seq<real>) {
    && Ascending(providers) && Elements(providers) == feed.Keys
    && multiset(Prices(feed, providers, model)) == multiset(prices)
  }

  ghost predicate KeepsCheapest(feed: Feed, providers: seq<string>, model: string) {
    var kept := Pick(feed, providers, model);
    kept.Some? ==> Cheapest(kept.value.input, Prices(feed, providers, model))
  }

  ghost predicate AlwaysKeepsCheapest(prices: seq<real>) {
    forall feed, providers, model :: OffersAt(feed, providers, model, prices) ==> KeepsCheapest(feed, providers, model)
  }

  /** The documented policy is the cheapest priced offer.  Over all feeds that offer a model
      at given prices, whatever their providers are called, that is what is kept, exactly
      when no other price lies less than epsilon above the lowest. */
  lemma KeepsCheapestIff(prices: seq<real>)
    requires forall p :: p in prices ==> p >= 0.0
    ensures AlwaysKeepsCheapest(prices) <==> LowestStandsApart(prices)
  {
    if LowestStandsApart(prices) {
      forall feed, providers, model | OffersAt(feed, providers, model, prices)
        ensures KeepsCheapest(feed, providers, model)
      {
        PickWalks(feed, providers, model);
        ApartIsCheapest(Prices(feed, providers, model), prices);
      }
    } else {
      var low, p :| low in prices && low > 0.0 && Cheapest(low, prices) && p in prices && p > low && p < low + EPSILON;
      var feed, providers := DearerIsKept(prices, low, p, "m");
      assert OffersAt(feed, providers, "m", prices) && !KeepsCheapest(feed, providers, "m");
    }
  }

  /** A feed with these prices, in which a dearer offer is kept. */
  lemma DearerIsKept(prices: seq<real>, low: real, p: real, model: string) returns (feed: Feed, providers: seq<string>)
    requires forall q :: q in prices ==> q >= 0.0
    requires low in prices && low > 0.0 && Cheapest(low, prices) && p in prices && low < p < low + EPSILON
    ensures OffersAt(feed, providers, model, prices) && !KeepsCheapest(feed, providers, model)
  {
    var order := CloseIsKept(prices, low, p);
    forall q | q in order ensures q in prices { assert q in multiset(order) <==> q in multiset(prices); }
    feed, providers := FeedOf(order, model), Names(|order|);
    NamesAreAscending(|order|);
    FeedHasNames(order, model);
    FeedHasPrices(order, model);
    PickWalks(feed, providers, model);
  }
}
