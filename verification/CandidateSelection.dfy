/** Choice of one price per model among the providers of models.dev:
    convertModelsDevToRatioData in controller/ratio_sync.go up to the selected candidates.
    Prices are real numbers. */
module CandidateSelection {
  import opened Prelude
  import opened Ratios

  // ---------------------------------------------------------------- strings in order

  /** Go's `<` on strings. */
  predicate Less(a: string, b: string) {
    b != "" && (a == "" || a[0] < b[0] || (a[0] == b[0] && Less(a[1..], b[1..])))
  }

  lemma {:induction false} LessIsTotal(a: string, b: string)
    ensures Less(a, b) || Less(b, a) || a == b
    ensures !(Less(a, b) && Less(b, a))
    ensures !Less(a, a)
    decreases |a|
  {
    if a != "" && b != "" {
      LessIsTotal(a[1..], b[1..]);
      assert a[1..] == b[1..] && a[0] == b[0] ==> a == [a[0]] + a[1..] == b;
    }
    if a != "" { LessIsTotal(a[1..], a[1..]); }
  }

  lemma {:induction false} LessIsTransitive(a: string, b: string, c: string)
    requires Less(a, b) && Less(b, c)
    ensures Less(a, c)
    decreases |a|
  {
    if a != "" && a[0] == b[0] && b[0] == c[0] { LessIsTransitive(a[1..], b[1..], c[1..]); }
  }

  predicate StrictlySorted(names: seq<string>) {
    forall i, j :: 0 <= i < j < |names| ==> Less(names[i], names[j])
  }

  ghost predicate Lists(names: seq<string>, keys: set<string>) {
    StrictlySorted(names) && forall x :: x in names <==> x in keys
  }

  /** sort.Strings over the keys of a map, whatever order the map hands them out in. */
  method SortedKeys(keys: set<string>) returns (names: seq<string>)
    ensures Lists(names, keys)
  {
    names := [];
    var rest := keys;
    while rest != {}
      invariant rest <= keys && StrictlySorted(names)
      invariant forall x :: x in names <==> x in keys && x !in rest
      decreases rest
    {
      var key :| key in rest;
      rest := rest - {key};
      names := Inserted(names, key);
    }
  }

  method Inserted(names: seq<string>, key: string) returns (r: seq<string>)
    requires StrictlySorted(names) && key !in names
    ensures StrictlySorted(r)
    ensures forall x :: x in r <==> x in names || x == key
  {
    var i := 0;
    while i < |names| && Less(names[i], key)
      invariant 0 <= i <= |names|
      invariant forall k :: 0 <= k < i ==> Less(names[k], key)
    {
      i := i + 1;
    }
    r := names[..i] + [key] + names[i..];
    forall k | i <= k < |names| ensures Less(key, names[k]) {
      assert names[i] in names;
      LessIsTotal(names[i], key);
      if k > i { LessIsTransitive(key, names[i], names[k]); }
    }
  }

  /** There is only one sorted list of a set, so map iteration order cannot matter. */
  lemma {:induction false} SortedListIsUnique(a: seq<string>, b: seq<string>, keys: set<string>)
    requires Lists(a, keys) && Lists(b, keys)
    ensures a == b
    decreases |a|
  {
    if a == [] {
      assert forall x :: x !in b;
      HeadIsMember(b);
    } else {
      var n, m := |a| - 1, |b| - 1;
      assert a[n] in a && a[n] in b;
      var j :| 0 <= j < |b| && b[j] == a[n];
      assert b[m] in b && b[m] in a;
      var i :| 0 <= i < |a| && a[i] == b[m];
      if i < n && j < m { LessIsTotal(a[n], b[m]); }
      assert a[n] == b[m];
      forall x ensures x in a[..n] <==> x in keys - {a[n]} { FrontMembers(a, x); }
      forall x ensures x in b[..m] <==> x in keys - {a[n]} { FrontMembers(b, x); }
      SortedListIsUnique(a[..n], b[..m], keys - {a[n]});
      assert a == a[..n] + [a[n]] && b == b[..m] + [b[m]];
    }
  }

  lemma FrontMembers(a: seq<string>, x: string)
    requires a != [] && StrictlySorted(a)
    ensures x in a[..|a| - 1] <==> x in a && x != a[|a| - 1]
  {
    var n := |a| - 1;
    if x in a[..n] {
      var i :| 0 <= i < n && a[i] == x;
      LessIsTotal(a[i], a[n]);
    }
    assert a == a[..n] + [a[n]];
  }

  // ---------------------------------------------------------------- candidates

  datatype Cost = Cost(input: Option<real>, output: Option<real>, cacheRead: Option<real>)

  datatype Candidate = Candidate(provider: string, input: real, output: Option<real>, cacheRead: Option<real>)

  /** buildModelsDevCandidate */
  function Build(provider: string, cost: Cost): Option<Candidate> {
    if cost.input.None? || cost.input.value < 0.0 then None
    else if cost.output.Some? && cost.output.value < 0.0 then None
    else if cost.input.value == 0.0 && cost.output.Some? && cost.output.value > 0.0 then None
    else
      Some(Candidate(provider, cost.input.value, cost.output,
                     if cost.cacheRead.Some? && cost.cacheRead.value >= 0.0 then cost.cacheRead else None))
  }

  /** shouldReplaceModelsDevCandidate */
  predicate ShouldReplace(current: Candidate, next: Candidate) {
    var currentNonZero, nextNonZero := current.input > 0.0, next.input > 0.0;
    if currentNonZero != nextNonZero then nextNonZero
    else if nextNonZero && !NearlyEqual(next.input, current.input) then next.input < current.input
    else Less(next.provider, current.provider)
  }

  type Prices = map<string, map<string, Cost>>

  function Offer(data: Prices, provider: string, model: string): Option<Candidate> {
    if provider in data && model in data[provider] then Build(provider, data[provider][model]) else None
  }

  /** A provider's price for a model makes an offer exactly when its input price is given, neither price is negative,
      and the output is not paid behind a free input. */
  predicate Sells(data: Prices, provider: string, model: string) {
    && provider in data && model in data[provider]
    && var Cost(input, output, _) := data[provider][model];
    && input.Some? && input.value >= 0.0
    && (output.Some? ==> output.value == 0.0 || (output.value > 0.0 && input.value > 0.0))
  }

  /** The offer keeps the prices; a negative cache price counts as not given. */
  lemma OfferKeepsPrices(data: Prices, provider: string, model: string)
    ensures Offer(data, provider, model).Some? <==> Sells(data, provider, model)
    ensures Sells(data, provider, model) ==>
              var c, cost := Offer(data, provider, model).value, data[provider][model];
              && c.provider == provider && c.input == cost.input.value && c.output == cost.output
              && (c.cacheRead.Some? <==> cost.cacheRead.Some? && cost.cacheRead.value >= 0.0)
              && (c.cacheRead.Some? ==> c.cacheRead == cost.cacheRead)
  {
  }

  /** The candidate for one model after the providers of `order` have been visited. */
  function Chosen(data: Prices, order: seq<string>, model: string): Option<Candidate> {
    if order == [] then None
    else
      var n := |order| - 1;
      var current, next := Chosen(data, order[..n], model), Offer(data, order[n], model);
      if next.None? then current
      else if current.None? || ShouldReplace(current.value, next.value) then next
      else current
  }

  /** The selection loops. Whichever way the providers are listed in order, the result is the choice of that order. */
  method SelectCandidates(data: Prices) returns (selected: map<string, Candidate>)
    ensures forall order | Lists(order, data.Keys) :: Agrees(selected, data, order)
  {
    var providers := SortedKeys(data.Keys);
    selected := map[];
    for i := 0 to |providers|
      invariant Agrees(selected, data, providers[..i])
    {
      assert providers[..i + 1][..i] == providers[..i];
      assert providers[i] in data;
      selected := VisitProvider(data, providers[i], selected, providers[..i]);
      assert providers[..i + 1] == providers[..i] + [providers[i]];
    }
    assert providers[..|providers|] == providers;
    forall order | Lists(order, data.Keys) ensures order == providers {
      SortedListIsUnique(order, providers, data.Keys);
    }
  }

  ghost predicate Agrees(selected: map<string, Candidate>, data: Prices, order: seq<string>) {
    forall model :: (if model in selected then Some(selected[model]) else None) == Chosen(data, order, model)
  }

  method VisitProvider(data: Prices, provider: string, before: map<string, Candidate>, ghost order: seq<string>)
    returns (selected: map<string, Candidate>)
    requires provider in data && Agrees(before, data, order)
    ensures Agrees(selected, data, order + [provider])
  {
    selected := before;
    var models := data[provider];
    var names := SortedKeys(models.Keys);
    ghost var next := order + [provider];
    assert next[..|order|] == order;
    for i := 0 to |names|
      invariant forall model :: (if model in selected then Some(selected[model]) else None) ==
                  if model in names[..i] then Chosen(data, next, model) else Chosen(data, order, model)
    {
      assert names[i] in names && names[i] in models;
      assert names[i] !in names[..i] by { NoRepeat(names, i); }
      assert names[..i + 1] == names[..i] + [names[i]];
      var candidate := Build(provider, models[names[i]]);
      if candidate.None? {
        continue;
      }
      if names[i] !in selected || ShouldReplace(selected[names[i]], candidate.value) {
        selected := selected[names[i] := candidate.value];
      }
    }
    assert names[..|names|] == names;
  }

  lemma NoRepeat(names: seq<string>, i: nat)
    requires StrictlySorted(names) && i < |names|
    ensures names[i] !in names[..i]
  {
    forall k | 0 <= k < i ensures names[k] != names[i] { LessIsTotal(names[k], names[i]); }
  }

  // ---------------------------------------------------------------- what is chosen

  predicate Offers(data: Prices, order: seq<string>, i: nat, model: string)
    requires i < |order|
  {
    Offer(data, order[i], model).Some?
  }

  /** The choice is one of the offers, made by the provider it names. */
  lemma {:induction false} ChosenIsOffered(data: Prices, order: seq<string>, model: string)
    ensures Chosen(data, order, model).None? <==> forall i :: 0 <= i < |order| ==> !Offers(data, order, i, model)
    ensures Chosen(data, order, model).Some? ==>
              var c := Chosen(data, order, model);
              c.value.provider in order && Offer(data, c.value.provider, model) == c
  {
    if order != [] {
      var n := |order| - 1;
      ChosenIsOffered(data, order[..n], model);
      assert forall i :: 0 <= i < n ==> Offers(data, order[..n], i, model) == Offers(data, order, i, model);
      assert Offers(data, order, n, model) == Offer(data, order[n], model).Some?;
      if Chosen(data, order[..n], model).Some? {
        var i :| 0 <= i < n && Offers(data, order[..n], i, model);
        assert Offers(data, order, i, model);
      }
    }
  }

  /** In sorted order a later provider never wins a near tie, so the choice cannot drift. */
  lemma LaterNeverWinsTies(order: seq<string>, n: nat, provider: string)
    requires StrictlySorted(order) && n < |order| && provider in order[..n]
    ensures !Less(order[n], provider)
  {
    var i :| 0 <= i < n && order[i] == provider;
    LessIsTotal(order[i], order[n]);
  }

  /** The choice is non-zero whenever a non-zero offer exists, and costs less than epsilon more
      than any of them, although "nearly equal" is not transitive. */
  lemma {:induction false} ChosenIsCheapest(data: Prices, order: seq<string>, model: string, i: nat)
    requires StrictlySorted(order) && i < |order|
    requires Offers(data, order, i, model) && Offer(data, order[i], model).value.input > 0.0
    ensures Chosen(data, order, model).Some?
    ensures Chosen(data, order, model).value.input > 0.0
    ensures Chosen(data, order, model).value.input < Offer(data, order[i], model).value.input + EPSILON
  {
    var n := |order| - 1;
    ChosenIsOffered(data, order[..n], model);
    var current, next := Chosen(data, order[..n], model), Offer(data, order[n], model);
    if current.Some? { LaterNeverWinsTies(order, n, current.value.provider); }
    if i < n { ChosenIsCheapest(data, order[..n], model, i); }
  }

  /** A later provider takes the place of a choice that is not zero only when it is at least epsilon cheaper, and then
      it does; so within epsilon the first provider in order is kept. */
  lemma ReplacedIffEpsilonCheaper(data: Prices, order: seq<string>, model: string)
    requires StrictlySorted(order) && order != []
    requires var before := Chosen(data, order[..|order| - 1], model);
             before.Some? && before.value.input > 0.0
    ensures var n := |order| - 1;
            var before, offer := Chosen(data, order[..n], model), Offer(data, order[n], model);
            Chosen(data, order, model) ==
              if offer.Some? && 0.0 < offer.value.input <= before.value.input - EPSILON then offer else before
  {
    var n := |order| - 1;
    var before := Chosen(data, order[..n], model);
    ChosenIsOffered(data, order[..n], model);
    LaterNeverWinsTies(order, n, before.value.provider);
  }

  /** When all offers are zero the first provider in order is kept. */
  lemma {:induction false} FirstZeroIsKept(data: Prices, order: seq<string>, model: string, i: nat)
    requires StrictlySorted(order) && i < |order| && Offers(data, order, i, model)
    requires forall k :: 0 <= k < |order| && Offers(data, order, k, model) ==>
               Offer(data, order[k], model).value.input == 0.0
    ensures Chosen(data, order, model).Some?
    ensures Chosen(data, order, model).value.provider == order[i] ||
            Less(Chosen(data, order, model).value.provider, order[i])
  {
    var n := |order| - 1;
    ChosenIsOffered(data, order[..n], model);
    var current := Chosen(data, order[..n], model);
    assert forall k :: 0 <= k < n ==> Offers(data, order[..n], k, model) == Offers(data, order, k, model);
    if current.Some? {
      LaterNeverWinsTies(order, n, current.value.provider);
      var c :| 0 <= c < n && order[c] == current.value.provider;
      assert Offers(data, order, c, model);
    }
    if i < n { FirstZeroIsKept(data, order[..n], model, i); }
  }

  /** No negative price, and no paid output behind a free input. */
  predicate Sound(c: Candidate) {
    && c.input >= 0.0
    && (c.output.Some? ==> c.output.value >= 0.0 && (c.output.value > 0.0 ==> c.input > 0.0))
    && (c.cacheRead.Some? ==> c.cacheRead.value >= 0.0)
  }

  /** What the caller gets for a model: a valid offer of the named provider; non-zero and within
      epsilon of the cheapest non-zero offer; and the same for any iteration order. */
  lemma SelectionIsCheapest(data: Prices, order: seq<string>, model: string, provider: string)
    requires Lists(order, data.Keys) && Offer(data, provider, model).Some?
    ensures Chosen(data, order, model).Some?
    ensures var c := Chosen(data, order, model).value;
            && Offer(data, c.provider, model) == Some(c) && Sound(c)
            && (Offer(data, provider, model).value.input > 0.0 ==>
                  0.0 < c.input < Offer(data, provider, model).value.input + EPSILON)
    ensures forall order' | Lists(order', data.Keys) :: Chosen(data, order', model) == Chosen(data, order, model)
  {
    ChosenIsOffered(data, order, model);
    assert provider in order;
    var i :| 0 <= i < |order| && order[i] == provider;
    assert Offers(data, order, i, model);
    if Offer(data, provider, model).value.input > 0.0 { ChosenIsCheapest(data, order, model, i); }
    forall order' | Lists(order', data.Keys) ensures order' == order {
      SortedListIsUnique(order', order, data.Keys);
    }
  }
}
