/** Reconciliation of a channel's model list with its upstream:
    controller/channel_upstream_update.go. */
module ModelNames {
  import opened Text

  function TrimmedNames(names: seq<string>): seq<string> {
    if names == [] then []
    else
      var n := |names| - 1;
      var trimmed := TrimSpace(names[n]);
      TrimmedNames(names[..n]) + if trimmed != "" then [trimmed] else []
  }

  /** lo.Uniq: the first occurrence stays. */
  function Uniq<T(==)>(names: seq<T>): seq<T> {
    if names == [] then []
    else
      var n := |names| - 1;
      Uniq(names[..n]) + if names[n] in names[..n] then [] else [names[n]]
  }

  function Normalize(names: seq<string>): seq<string> {
    Uniq(TrimmedNames(names))
  }

  function Filter<T>(names: seq<T>, keep: T -> bool): seq<T> {
    if names == [] then []
    else
      var n := |names| - 1;
      Filter(names[..n], keep) + if keep(names[n]) then [names[n]] else []
  }

  function Without<T(==)>(names: seq<T>, drop: seq<T>): seq<T> {
    Filter(names, name => name !in drop)
  }

  function Within<T(==)>(names: seq<T>, allowed: seq<T>): seq<T> {
    Filter(names, name => name in allowed)
  }

  function Merge(base: seq<string>, appended: seq<string>): seq<string> {
    Normalize(base) + Without(Normalize(appended), Normalize(base))
  }

  function Subtract(base: seq<string>, removed: seq<string>): seq<string> {
    Without(Normalize(base), Normalize(removed))
  }

  function Intersect(base: seq<string>, allowed: seq<string>): seq<string> {
    Within(Normalize(base), Normalize(allowed))
  }

  function ApplySelected(origin: seq<string>, add: seq<string>, remove: seq<string>): seq<string> {
    Subtract(Merge(origin, Normalize(add)), Subtract(Normalize(remove), Normalize(add)))
  }

  lemma WithoutNext<T>(names: seq<T>, name: T, drop: seq<T>)
    ensures Without(names + [name], drop) == Without(names, drop) + if name in drop then [] else [name]
  {
    assert (names + [name])[..|names|] == names;
  }

  /** The loop of mergeModelNames with its set of the names seen so far. */
  method AppendUnseen<T(==)>(first: seq<T>, extra: seq<T>) returns (merged: seq<T>)
    requires Distinct(extra)
    ensures merged == first + Without(extra, first)
  {
    merged := first;
    var seen := set name <- merged;
    for i := 0 to |extra|
      invariant forall x :: x in seen <==> x in first || x in extra[..i]
      invariant merged == first + Without(extra[..i], first)
    {
      assert extra[..i + 1] == extra[..i] + [extra[i]];
      assert extra[i] !in extra[..i];
      WithoutNext(extra[..i], extra[i], first);
      if extra[i] in seen {
        continue;
      }
      seen := seen + {extra[i]};
      merged := merged + [extra[i]];
    }
    assert extra[..|extra|] == extra;
  }

  method MergeModelNames(base: seq<string>, appended: seq<string>) returns (merged: seq<string>)
    ensures merged == Merge(base, appended)
  {
    NormalizeIsClean(appended);
    merged := AppendUnseen(Normalize(base), Normalize(appended));
  }

  // ---------------------------------------------------------------- facts about lists

  predicate Distinct<T(==)>(names: seq<T>) {
    forall i, j :: 0 <= i < j < |names| ==> names[i] != names[j]
  }

  /** The lists that Normalize returns: trimmed, non-empty and distinct names. */
  predicate Clean(names: seq<string>) {
    Distinct(names) && forall name <- names :: name != "" && Tight(name)
  }

  lemma {:induction false} FilterMembers<T>(names: seq<T>, keep: T -> bool)
    ensures forall x :: x in Filter(names, keep) <==> x in names && keep(x)
  {
    if names != [] {
      var n := |names| - 1;
      FilterMembers(names[..n], keep);
      assert names == names[..n] + [names[n]];
    }
  }

  lemma {:induction false} FilterDistinct<T>(names: seq<T>, keep: T -> bool)
    requires Distinct(names)
    ensures Distinct(Filter(names, keep))
  {
    if names != [] {
      var n := |names| - 1;
      FilterDistinct(names[..n], keep);
      FilterMembers(names[..n], keep);
    }
  }

  lemma {:induction false} FilterAll<T>(names: seq<T>, keep: T -> bool)
    requires forall x <- names :: keep(x)
    ensures Filter(names, keep) == names
  {
    if names != [] {
      var n := |names| - 1;
      FilterAll(names[..n], keep);
      assert names == names[..n] + [names[n]];
    }
  }

  lemma {:induction false} UniqMembers<T>(names: seq<T>)
    ensures Distinct(Uniq(names))
    ensures forall x :: x in Uniq(names) <==> x in names
    ensures Distinct(names) ==> Uniq(names) == names
  {
    if names != [] {
      var n := |names| - 1;
      UniqMembers(names[..n]);
      assert names == names[..n] + [names[n]];
    }
  }

  lemma {:induction false} TrimmedTight(names: seq<string>)
    ensures forall x <- TrimmedNames(names) :: x != "" && Tight(x)
  {
    if names != [] {
      TrimmedTight(names[..|names| - 1]);
      TrimSpaceTightens(names[|names| - 1]);
    }
  }

  lemma {:induction false} TrimmedAtomic(names: seq<string>, sep: char)
    requires Atomic(names, sep)
    ensures Atomic(TrimmedNames(names), sep)
  {
    if names != [] {
      TrimmedAtomic(names[..|names| - 1], sep);
      TrimSpaceTightens(names[|names| - 1]);
    }
  }

  /** Not empty, and trimming does not change it. */
  predicate Stable(name: string) {
    name != "" && TrimSpace(name) == name
  }

  lemma {:induction false} StableSame(names: seq<string>)
    requires forall x <- names :: Stable(x)
    ensures TrimmedNames(names) == names
  {
    if names != [] {
      var n := |names| - 1;
      StableSame(names[..n]);
      assert Stable(names[n]);
      assert names == names[..n] + [names[n]];
    }
  }

  lemma TrimmedSame(names: seq<string>)
    requires forall x <- names :: x != "" && Tight(x)
    ensures TrimmedNames(names) == names
  {
    forall x <- names ensures Stable(x) { TrimSpaceTightens(x); }
    StableSame(names);
  }

  lemma NormalizeIsClean(names: seq<string>)
    ensures Clean(Normalize(names))
    ensures Clean(names) ==> Normalize(names) == names
  {
    TrimmedTight(names);
    UniqMembers(TrimmedNames(names));
    if Clean(names) { TrimmedSame(names); }
  }

  lemma NormalizeAtomic(names: seq<string>, sep: char)
    requires Atomic(names, sep)
    ensures Atomic(Normalize(names), sep)
  {
    TrimmedAtomic(names, sep);
    UniqMembers(TrimmedNames(names));
  }

  /** Names that need no trimming keep their membership; only repetitions go. */
  lemma NormalizeTight(names: seq<string>)
    requires forall x <- names :: x != "" && Tight(x)
    ensures forall x :: x in Normalize(names) <==> x in names
  {
    TrimmedSame(names);
    UniqMembers(names);
  }

  predicate TrimsTo(name: string, x: string) {
    TrimSpace(name) == x
  }

  lemma {:induction false} TrimmedCovers(names: seq<string>, x: string)
    ensures x in TrimmedNames(names) <==> x != "" && exists i :: 0 <= i < |names| && TrimsTo(names[i], x)
  {
    if names != [] {
      var n := |names| - 1;
      TrimmedCovers(names[..n], x);
      assert forall i :: 0 <= i < n ==> names[..n][i] == names[i];
      assert x in TrimmedNames(names) <==> x in TrimmedNames(names[..n]) || (x != "" && TrimsTo(names[n], x));
    }
  }

  /** normalizeModelNames keeps exactly the non-empty trimmed names. */
  lemma NormalizeCovers(names: seq<string>, x: string)
    ensures x in Normalize(names) <==> x != "" && exists i :: 0 <= i < |names| && TrimsTo(names[i], x)
  {
    UniqMembers(TrimmedNames(names));
    TrimmedCovers(names, x);
  }

  function FirstIndex(names: seq<string>, x: string): nat {
    if names == [] || names[0] == x then 0 else 1 + FirstIndex(names[1..], x)
  }

  lemma {:induction false} FirstIndexBound(names: seq<string>, more: seq<string>, x: string)
    ensures x in names ==> FirstIndex(names + more, x) == FirstIndex(names, x) < |names|
    ensures x !in names ==> FirstIndex(names + more, x) >= |names|
  {
    if names != [] {
      FirstIndexBound(names[1..], more, x);
      assert (names + more)[1..] == names[1..] + more;
    }
  }

  /** lo.Uniq keeps the order in which the names first appear. */
  lemma {:induction false} UniqKeepsFirst(names: seq<string>, i: nat, j: nat)
    requires i < j < |Uniq(names)|
    ensures FirstIndex(names, Uniq(names)[i]) < FirstIndex(names, Uniq(names)[j])
  {
    var n := |names| - 1;
    var front := names[..n];
    UniqMembers(front);
    assert names == front + [names[n]];
    FirstIndexBound(front, [names[n]], Uniq(names)[i]);
    FirstIndexBound(front, [names[n]], Uniq(names)[j]);
    if j < |Uniq(front)| {
      UniqKeepsFirst(front, i, j);
      assert Uniq(names)[i] == Uniq(front)[i] && Uniq(names)[j] == Uniq(front)[j];
      assert Uniq(front)[i] in Uniq(front) && Uniq(front)[j] in Uniq(front);
    } else {
      assert Uniq(names)[i] == Uniq(front)[i] && Uniq(front)[i] in Uniq(front);
    }
  }

  /** Filtering distinct names keeps their order. */
  lemma {:induction false} FilterKeepsOrder(names: seq<string>, keep: string -> bool, i: nat, j: nat)
    requires Distinct(names) && i < j < |Filter(names, keep)|
    ensures FirstIndex(names, Filter(names, keep)[i]) < FirstIndex(names, Filter(names, keep)[j])
  {
    var n := |names| - 1;
    var front, left := names[..n], Filter(names, keep);
    FilterMembers(front, keep);
    assert names == front + [names[n]];
    FirstIndexBound(front, [names[n]], left[i]);
    FirstIndexBound(front, [names[n]], left[j]);
    if j < |Filter(front, keep)| { FilterKeepsOrder(front, keep, i, j); }
  }

  lemma WithoutMembers(names: seq<string>, drop: seq<string>)
    ensures forall x :: x in Without(names, drop) <==> x in names && x !in drop
    ensures Clean(names) ==> Clean(Without(names, drop))
    ensures (forall x <- names :: x !in drop) ==> Without(names, drop) == names
  {
    FilterMembers(names, name => name !in drop);
    if Distinct(names) { FilterDistinct(names, name => name !in drop); }
    if forall x <- names :: x !in drop { FilterAll(names, name => name !in drop); }
  }

  lemma WithinMembers(names: seq<string>, allowed: seq<string>)
    ensures forall x :: x in Within(names, allowed) <==> x in names && x in allowed
    ensures Clean(names) ==> Clean(Within(names, allowed))
    ensures (forall x <- names :: x in allowed) ==> Within(names, allowed) == names
  {
    FilterMembers(names, name => name in allowed);
    if Distinct(names) { FilterDistinct(names, name => name in allowed); }
    if forall x <- names :: x in allowed { FilterAll(names, name => name in allowed); }
  }

  lemma ConcatClean(a: seq<string>, b: seq<string>)
    requires Clean(a) && Clean(b) && forall x <- b :: x !in a
    ensures Clean(a + b)
  {
    var ab := a + b;
    forall i, j | 0 <= i < j < |ab| ensures ab[i] != ab[j] {
      if i < |a| <= j { assert ab[j] in b && ab[i] in a; }
    }
  }

  lemma MergeMembers(base: seq<string>, appended: seq<string>)
    ensures Clean(Merge(base, appended))
    ensures forall x :: x in Merge(base, appended) <==> x in Normalize(base) || x in Normalize(appended)
    ensures Normalize(base) <= Merge(base, appended)
    ensures Clean(appended) && (forall x <- appended :: x !in Normalize(base)) ==>
              Merge(base, appended) == Normalize(base) + appended
  {
    var first, extra := Normalize(base), Without(Normalize(appended), Normalize(base));
    NormalizeIsClean(base);
    NormalizeIsClean(appended);
    WithoutMembers(Normalize(appended), first);
    ConcatClean(first, extra);
  }

  lemma {:induction false} FilterAppend<T>(a: seq<T>, b: seq<T>, keep: T -> bool)
    ensures Filter(a + b, keep) == Filter(a, keep) + Filter(b, keep)
  {
    if b == [] {
      assert a + b == a;
    } else {
      var n := |b| - 1;
      assert (a + b)[..|a + b| - 1] == a + b[..n];
      FilterAppend(a, b[..n], keep);
    }
  }

  /** applySelectedModelChanges: duplicate-free, the surviving originals in their old order
      followed by the additions; as a set, (origin plus add) minus (remove minus add). */
  lemma ApplySelectedKeepsOrder(origin: seq<string>, add: seq<string>, remove: seq<string>)
    ensures Clean(ApplySelected(origin, add, remove))
    ensures forall x :: x in ApplySelected(origin, add, remove) <==>
              (x in Normalize(origin) || x in Normalize(add)) && !(x in Normalize(remove) && x !in Normalize(add))
    ensures Clean(add) && Clean(remove) && (forall x <- add :: x !in Normalize(origin) && x !in remove) ==>
              ApplySelected(origin, add, remove) == Without(Normalize(origin), remove) + add
  {
    NormalizeIsClean(add);
    NormalizeIsClean(remove);
    NormalizeIsClean(Normalize(add));
    NormalizeIsClean(Normalize(remove));
    MergeMembers(origin, Normalize(add));
    var merged := Merge(origin, Normalize(add));
    var dropped := Subtract(Normalize(remove), Normalize(add));
    WithoutMembers(Normalize(remove), Normalize(add));
    NormalizeIsClean(dropped);
    NormalizeIsClean(merged);
    WithoutMembers(merged, dropped);
    if Clean(add) && Clean(remove) && forall x <- add :: x !in Normalize(origin) && x !in remove {
      FilterAppend(Normalize(origin), add, name => name !in remove);
      WithoutMembers(add, remove);
    }
  }
}

module UpstreamModels {
  import opened Prelude
  import opened Text
  import opened ModelNames

  /** The columns of a channel that the reconciliation reads and writes. `models` is the
      comma-separated text; the three lists live in the channel's other settings. */
  datatype Channel = Channel(
    models: string,
    detected: seq<string>,  // UpstreamModelUpdateLastDetectedModels
    removed: seq<string>,   // UpstreamModelUpdateLastRemovedModels
    ignored: seq<string>,   // UpstreamModelUpdateIgnoredModels
    lastCheck: int,
    autoSync: bool)

  /** What stays fixed: the channel's alias map (source to target, already normalized) and
      how a regular expression matches a name (an invalid one matches nothing). */
  datatype Context = Context(aliases: map<string, string>, matches: (string, string) -> bool)

  const REGEX := "regex:"

  predicate IsRegex(rule: string) {
    REGEX <= rule
  }

  predicate Rules(cx: Context, rule: string, name: string) {
    if IsRegex(rule) then cx.matches(TrimSpace(rule[|REGEX|..]), name) else rule == name
  }

  predicate IsIgnored(cx: Context, rules: seq<string>, name: string) {
    exists rule <- rules :: Rules(cx, rule, name)
  }

  /** A rule that starts with "regex:" ignores what the rest of it matches, without the spaces around it; every other
      rule ignores the name that it is. */
  lemma RuleIs(cx: Context, rule: string, name: string)
    ensures Rules(cx, "regex:" + rule, name) <==> cx.matches(TrimSpace(rule), name)
    ensures !("regex:" <= rule) ==> (Rules(cx, rule, name) <==> rule == name)
  {
    assert ("regex:" + rule)[6..] == rule;
  }

  /** So a name is ignored exactly when it is listed and has no prefix, or some rule with the prefix matches it. */
  lemma IgnoredIff(cx: Context, rules: seq<string>, name: string)
    ensures IsIgnored(cx, rules, name) <==>
            || (name in rules && !("regex:" <= name))
            || exists rule :: "regex:" + rule in rules && cx.matches(TrimSpace(rule), name)
  {
    forall rule ensures Rules(cx, "regex:" + rule, name) <==> cx.matches(TrimSpace(rule), name) {
      RuleIs(cx, rule, name);
    }
    if rule :| rule in rules && Rules(cx, rule, name) {
      RuleIs(cx, rule, name);
      if "regex:" <= rule { assert rule == "regex:" + rule[6..]; }
    }
  }

  function Local(models: string): seq<string> {
    Normalize(Parse(models, ','))
  }

  /** collectPendingUpstreamModelChangesFromModels */
  function Collect(cx: Context, models: string, upstream: seq<string>, ignored: seq<string>)
    : (seq<string>, seq<string>)
  {
    var local, offered, rules := Local(models), Normalize(upstream), Normalize(ignored);
    var add := Filter(offered, name =>
      name !in local && name !in cx.aliases.Values && !IsIgnored(cx, rules, name));
    var remove := Filter(local, name => name !in cx.aliases.Keys && name !in offered);
    (Normalize(add), Normalize(remove))
  }

  /** The row after the upstream list was fetched. */
  function Checked(cx: Context, ch: Channel, upstream: seq<string>, allowAutoApply: bool, now: int): Channel {
    var (add, remove) := Collect(cx, ch.models, upstream, ch.ignored);
    if allowAutoApply && ch.autoSync && |add| > 0 then
      var origin := Local(ch.models);
      var merged := Merge(origin, add);
      ch.(models := if |merged| > |origin| then Join(merged, ',') else ch.models,
          detected := [], removed := remove, lastCheck := now)
    else
      ch.(detected := add, removed := remove, lastCheck := now)
  }

  /** checkAndPersistChannelUpstreamModelUpdates, with `upstream` None when the fetch fails.
      The check is skipped when it is not forced and the last one is too recent. */
  function AfterCheck(cx: Context, ch: Channel, upstream: Option<seq<string>>, force: bool,
                      allowAutoApply: bool, now: int, minInterval: int): Channel
  {
    if !force && ch.lastCheck > 0 && now - ch.lastCheck < minInterval then ch
    else if upstream.None? then ch.(lastCheck := now)
    else Checked(cx, ch, upstream.value, allowAutoApply, now)
  }

  /** A forced check, the first one, or one that comes long enough after the last. */
  predicate IsDue(ch: Channel, force: bool, now: int, minInterval: int) {
    force || ch.lastCheck <= 0 || now >= ch.lastCheck + minInterval
  }

  /** How many models a check adds by itself: all that it detects, when it may. */
  function AutoAdded(cx: Context, ch: Channel, upstream: seq<string>, allowAutoApply: bool): nat {
    if allowAutoApply && ch.autoSync then |Collect(cx, ch.models, upstream, ch.ignored).0| else 0
  }

  method Reconcile(cx: Context, ch: Channel, upstream: seq<string>, allowAutoApply: bool, now: int)
    returns (next: Channel, autoAdded: nat)
    ensures next == Checked(cx, ch, upstream, allowAutoApply, now)
    ensures next.autoSync == ch.autoSync
    ensures autoAdded == AutoAdded(cx, ch, upstream, allowAutoApply)
  {
    autoAdded := 0;
    MergeOfDetected(cx, ch, upstream);
    var (add, remove) := Collect(cx, ch.models, upstream, ch.ignored);
    var models, detected := ch.models, add;
    if allowAutoApply && ch.autoSync && |add| > 0 {
      var origin := Local(ch.models);
      var merged := MergeModelNames(origin, add);
      if |merged| > |origin| {
        models := Join(merged, ',');
        autoAdded := |merged| - |origin|;
      }
      detected := [];
    }
    next := ch.(models := models, detected := detected, removed := remove, lastCheck := now);
  }

  method CheckOnce(cx: Context, ch: Channel, upstream: Option<seq<string>>, force: bool, allowAutoApply: bool,
                   now: int, minInterval: int)
    returns (next: Channel, autoAdded: nat)
    ensures next == AfterCheck(cx, ch, upstream, force, allowAutoApply, now, minInterval)
    ensures next.autoSync == ch.autoSync
    ensures autoAdded == (if upstream.Some? && IsDue(ch, force, now, minInterval)
                          then AutoAdded(cx, ch, upstream.value, allowAutoApply) else 0)
  {
    if !force && ch.lastCheck > 0 && now - ch.lastCheck < minInterval {
      return ch, 0;
    }
    if upstream.None? {
      return ch.(lastCheck := now), 0;
    }
    next, autoAdded := Reconcile(cx, ch, upstream.value, allowAutoApply, now);
  }

  datatype Applied = Applied(added: seq<string>, ignored: seq<string>, removed: seq<string>)

  /** What a request selects among the pending changes. */
  function Selected(ch: Channel, add: seq<string>, ignore: seq<string>, remove: seq<string>): Applied {
    var pendingAdd, pendingRemove := Normalize(ch.detected), Normalize(ch.removed);
    var added := Intersect(add, pendingAdd);
    Applied(added, Intersect(ignore, pendingAdd), Subtract(Intersect(remove, pendingRemove), added))
  }

  /** applyChannelUpstreamModelUpdates */
  function AfterApply(ch: Channel, add: seq<string>, ignore: seq<string>, remove: seq<string>, now: int)
    : Channel
  {
    var Applied(added, ignored, removed) := Selected(ch, add, ignore, remove);
    var origin := Local(ch.models);
    var next := ApplySelected(origin, added, removed);
    var rules := Merge(ch.ignored, ignored);
    Channel(
      if origin != next then Join(next, ',') else ch.models,
      Subtract(Normalize(ch.detected), added + ignored),
      Subtract(Normalize(ch.removed), removed),
      if |added| > 0 then Subtract(rules, added) else rules,
      now,
      ch.autoSync)
  }

  method ApplyTo(ch: Channel, add: seq<string>, ignore: seq<string>, remove: seq<string>, now: int)
    returns (sel: Applied, next: Channel)
    ensures sel == Selected(ch, add, ignore, remove)
    ensures next == AfterApply(ch, add, ignore, remove, now)
    ensures next.autoSync == ch.autoSync
  {
    var pendingAdd, pendingRemove := Normalize(ch.detected), Normalize(ch.removed);
    var addModels := Intersect(add, pendingAdd);
    var ignoreModels := Intersect(ignore, pendingAdd);
    var removeModels := Intersect(remove, pendingRemove);
    removeModels := Subtract(removeModels, addModels);
    sel := Applied(addModels, ignoreModels, removeModels);
    var origin, models := Local(ch.models), ch.models;
    var names := ApplySelected(origin, addModels, removeModels);
    if origin != names {
      models := Join(names, ',');
    }
    var rules := MergeModelNames(ch.ignored, ignoreModels);
    if |addModels| > 0 {
      rules := Subtract(rules, addModels);
    }
    next := Channel(models, Subtract(pendingAdd, addModels + ignoreModels), Subtract(pendingRemove, removeModels),
                    rules, now, ch.autoSync);
  }

  /** The channel row as the two handlers update it. `stored` is the outcome of the database
      write: a failed write leaves the row as it was. */
  class Row {
    var models: string
    var detected: seq<string>
    var removed: seq<string>
    var ignored: seq<string>
    var lastCheck: int
    var autoSync: bool

    function View(): Channel
      reads this
    {
      Channel(models, detected, removed, ignored, lastCheck, autoSync)
    }

    /** updateChannelUpstreamModelSettings, when it succeeds. */
    method Store(next: Channel)
      requires next.autoSync == autoSync
      modifies this
      ensures View() == next
    {
      models, detected, removed := next.models, next.detected, next.removed;
      ignored, lastCheck := next.ignored, next.lastCheck;
    }

    method CheckAndPersist(cx: Context, upstream: Option<seq<string>>, force: bool, allowAutoApply: bool,
                           now: int, minInterval: int, stored: bool)
      returns (modelsChanged: bool, autoAdded: nat)
      modifies this
      ensures stored ==>
                View() == AfterCheck(cx, old(View()), upstream, force, allowAutoApply, now, minInterval)
      ensures !stored ==> View() == old(View())
      ensures modelsChanged <==> stored && autoAdded > 0
      ensures autoAdded == (if upstream.Some? && IsDue(old(View()), force, now, minInterval)
                            then AutoAdded(cx, old(View()), upstream.value, allowAutoApply) else 0)
    {
      var next;
      next, autoAdded := CheckOnce(cx, View(), upstream, force, allowAutoApply, now, minInterval);
      modelsChanged := false;
      if stored {
        Store(next);
        modelsChanged := autoAdded > 0;
      }
    }

    method ApplyUpdates(add: seq<string>, ignore: seq<string>, remove: seq<string>, now: int, stored: bool)
      returns (sel: Applied)
      modifies this
      ensures stored ==> View() == AfterApply(old(View()), add, ignore, remove, now)
      ensures !stored ==> View() == old(View())
      ensures sel == Selected(old(View()), add, ignore, remove)
    {
      var next;
      sel, next := ApplyTo(View(), add, ignore, remove, now);
      if stored {
        Store(next);
      }
    }
  }

  // ---------------------------------------------------------------- facts

  lemma LocalIsAtomic(models: string)
    ensures Clean(Local(models)) && Atomic(Local(models), ',')
  {
    NormalizeIsClean(Parse(models, ','));
    NormalizeAtomic(Parse(models, ','), ',');
  }

  lemma LocalOfJoin(names: seq<string>)
    requires Clean(names) && Atomic(names, ',')
    ensures Local(Join(names, ',')) == names
  {
    if names != [] {
      assert names[0] in names && names[|names| - 1] in names;
      ParseJoin(names, ',');
    }
    NormalizeIsClean(names);
  }

  /** What a detection returns, by membership. */
  lemma CollectMembers(cx: Context, models: string, upstream: seq<string>, ignored: seq<string>)
    ensures var (add, remove) := Collect(cx, models, upstream, ignored);
            && Clean(add) && Clean(remove)
            && (forall x :: x in add <==>
                  && x in Normalize(upstream) && x !in Local(models) && x !in cx.aliases.Values
                  && !IsIgnored(cx, Normalize(ignored), x))
            && (forall x :: x in remove <==>
                  x in Local(models) && x !in cx.aliases.Keys && x !in Normalize(upstream))
  {
    var local, offered, rules := Local(models), Normalize(upstream), Normalize(ignored);
    NormalizeIsClean(Parse(models, ','));
    NormalizeIsClean(upstream);
    var wanted := name => name !in local && name !in cx.aliases.Values && !IsIgnored(cx, rules, name);
    var stale := name => name !in cx.aliases.Keys && name !in offered;
    FilterMembers(offered, wanted);
    FilterDistinct(offered, wanted);
    FilterMembers(local, stale);
    FilterDistinct(local, stale);
    NormalizeIsClean(Filter(offered, wanted));
    NormalizeIsClean(Filter(local, stale));
  }

  /** The upstream offers the name, and it is neither local, nor the target of an alias, nor ignored. */
  predicate IsNew(cx: Context, ch: Channel, upstream: seq<string>, x: string) {
    && x in Normalize(upstream) && x !in Local(ch.models) && x !in cx.aliases.Values
    && !IsIgnored(cx, Normalize(ch.ignored), x)
  }

  /** Merging the detected names appends them to the local ones. */
  lemma MergeOfDetected(cx: Context, ch: Channel, upstream: seq<string>)
    ensures var add := Collect(cx, ch.models, upstream, ch.ignored).0;
            && Merge(Local(ch.models), add) == Local(ch.models) + add
            && Clean(add) && (forall x :: x in add <==> IsNew(cx, ch, upstream, x))
  {
    CollectMembers(cx, ch.models, upstream, ch.ignored);
    LocalIsAtomic(ch.models);
    NormalizeIsClean(Local(ch.models));
    MergeMembers(Local(ch.models), Collect(cx, ch.models, upstream, ch.ignored).0);
  }

  lemma {:induction false} DistinctCount(names: seq<string>, members: set<string>)
    requires Distinct(names) && forall x :: x in members <==> x in names
    ensures |members| == |names|
  {
    if names == [] {
      assert members == {};
    } else {
      var n := |names| - 1;
      assert names == names[..n] + [names[n]];
      DistinctCount(names[..n], members - {names[n]});
    }
  }

  /** A check that may apply what it detects reports the number of new names, any other check none. */
  lemma AutoAddedCounts(cx: Context, ch: Channel, upstream: seq<string>, allowAutoApply: bool)
    ensures AutoAdded(cx, ch, upstream, allowAutoApply) ==
            if allowAutoApply && ch.autoSync then |set x | x in Normalize(upstream) && IsNew(cx, ch, upstream, x)|
            else 0
  {
    MergeOfDetected(cx, ch, upstream);
    DistinctCount(Collect(cx, ch.models, upstream, ch.ignored).0,
                  set x | x in Normalize(upstream) && IsNew(cx, ch, upstream, x));
  }

  lemma AutoCheckWrites(cx: Context, ch: Channel, upstream: seq<string>, now: int, add: seq<string>)
    requires ch.autoSync && add == Collect(cx, ch.models, upstream, ch.ignored).0
    requires Merge(Local(ch.models), add) == Local(ch.models) + add
    ensures var ch' := Checked(cx, ch, upstream, true, now);
            && ch'.detected == []
            && ch'.models == if add == [] then ch.models else Join(Local(ch.models) + add, ',')
  {
  }

  /** What a check writes to the model list when it may apply what it detects: no local name is lost, every new name
      without a comma is added, and without commas nothing else is. */
  lemma AutoCheckAdds(cx: Context, ch: Channel, upstream: seq<string>, now: int, x: string)
    requires ch.autoSync
    ensures var ch' := Checked(cx, ch, upstream, true, now);
            && ch'.detected == []
            && (x in Local(ch.models) || (IsNew(cx, ch, upstream, x) && ',' !in x) ==> x in Local(ch'.models))
            && ((forall y | IsNew(cx, ch, upstream, y) :: ',' !in y) ==>
                  (x in Local(ch'.models) <==> x in Local(ch.models) || IsNew(cx, ch, upstream, x)))
            && ((forall y :: !IsNew(cx, ch, upstream, y)) ==> ch'.models == ch.models)
  {
    var origin, add := Local(ch.models), Collect(cx, ch.models, upstream, ch.ignored).0;
    MergeOfDetected(cx, ch, upstream);
    AutoCheckWrites(cx, ch, upstream, now, add);
    MergeMembers(origin, add);
    LocalIsAtomic(ch.models);
    if add == [] {
      assert forall y :: !IsNew(cx, ch, upstream, y);
    } else {
      assert IsNew(cx, ch, upstream, add[0]);
      if x in origin + add && ',' !in x { LocalKeeps(origin + add, x); }
      if forall y | IsNew(cx, ch, upstream, y) :: ',' !in y { LocalOfJoin(origin + add); }
    }
  }

  /** What a check does to the stored channel, in every case. A check that is not due changes nothing, and one whose
      fetch fails only its time. Otherwise the stale names are pending removal; the new names are pending addition, and
      the models stay as they were, unless the check may apply them itself. */
  lemma CheckDoes(cx: Context, ch: Channel, upstream: Option<seq<string>>, force: bool, allowAutoApply: bool, now: int,
                  minInterval: int)
    ensures var ch' := AfterCheck(cx, ch, upstream, force, allowAutoApply, now, minInterval);
            if !IsDue(ch, force, now, minInterval) then ch' == ch
            else
              && ch'.lastCheck == now && ch'.ignored == ch.ignored && ch'.autoSync == ch.autoSync
              && (upstream.None? || !allowAutoApply || !ch.autoSync ==> ch'.models == ch.models)
              && if upstream.None? then ch'.detected == ch.detected && ch'.removed == ch.removed
                 else
                   && (forall x :: x in ch'.removed <==>
                         x in Local(ch.models) && x !in cx.aliases.Keys && x !in Normalize(upstream.value))
                   && (forall x :: x in ch'.detected <==>
                         IsNew(cx, ch, upstream.value, x) && !(allowAutoApply && ch.autoSync))
  {
    if upstream.Some? { CollectMembers(cx, ch.models, upstream.value, ch.ignored); }
  }

  lemma SelectedMembers(ch: Channel, add: seq<string>, ignore: seq<string>, remove: seq<string>)
    ensures var sel := Selected(ch, add, ignore, remove);
            && Clean(sel.added) && Clean(sel.ignored) && Clean(sel.removed)
            && (forall x :: x in sel.added <==> x in Normalize(add) && x in Normalize(ch.detected))
            && (forall x :: x in sel.ignored <==> x in Normalize(ignore) && x in Normalize(ch.detected))
            && (forall x :: x in sel.removed <==>
                  x in Normalize(remove) && x in Normalize(ch.removed) && x !in sel.added)
  {
    var pendingAdd, pendingRemove := Normalize(ch.detected), Normalize(ch.removed);
    NormalizeIsClean(ch.detected);
    NormalizeIsClean(ch.removed);
    NormalizeIsClean(pendingAdd);
    NormalizeIsClean(pendingRemove);
    NormalizeIsClean(add);
    NormalizeIsClean(ignore);
    NormalizeIsClean(remove);
    WithinMembers(Normalize(add), pendingAdd);
    WithinMembers(Normalize(ignore), pendingAdd);
    WithinMembers(Normalize(remove), pendingRemove);
    var added, picked := Intersect(add, pendingAdd), Intersect(remove, pendingRemove);
    NormalizeIsClean(added);
    NormalizeIsClean(picked);
    WithoutMembers(picked, added);
  }

  lemma DetectedAfter(detected: seq<string>, added: seq<string>, ignored: seq<string>)
    requires Clean(added) && Clean(ignored)
    ensures var r := Subtract(Normalize(detected), added + ignored);
            Clean(r) && forall x :: x in r <==> x in Normalize(detected) && x !in added && x !in ignored
  {
    NormalizeIsClean(detected);
    NormalizeIsClean(Normalize(detected));
    NormalizeTight(added + ignored);
    WithoutMembers(Normalize(detected), Normalize(added + ignored));
  }

  lemma RemovedAfter(pending: seq<string>, removed: seq<string>)
    requires Clean(removed)
    ensures var r := Subtract(Normalize(pending), removed);
            Clean(r) && forall x :: x in r <==> x in Normalize(pending) && x !in removed
  {
    NormalizeIsClean(pending);
    NormalizeIsClean(Normalize(pending));
    NormalizeIsClean(removed);
    WithoutMembers(Normalize(pending), removed);
  }

  lemma IgnoredAfter(rules: seq<string>, ignored: seq<string>, added: seq<string>)
    requires Clean(added) && Clean(ignored)
    ensures var merged := Merge(rules, ignored);
            var r := if |added| > 0 then Subtract(merged, added) else merged;
            Clean(r) && forall x :: x in r <==> (x in Normalize(rules) || x in ignored) && x !in added
  {
    NormalizeIsClean(ignored);
    NormalizeIsClean(added);
    MergeMembers(rules, ignored);
    NormalizeIsClean(Merge(rules, ignored));
    WithoutMembers(Merge(rules, ignored), added);
  }

  /** The stored lists after an apply, by membership. */
  lemma ApplyMembers(ch: Channel, add: seq<string>, ignore: seq<string>, remove: seq<string>, now: int)
    ensures var sel, ch' := Selected(ch, add, ignore, remove), AfterApply(ch, add, ignore, remove, now);
            && Clean(ch'.detected) && Clean(ch'.removed) && Clean(ch'.ignored)
            && ch'.lastCheck == now && ch'.autoSync == ch.autoSync
            && (forall x :: x in ch'.detected <==>
                  x in Normalize(ch.detected) && x !in sel.added && x !in sel.ignored)
            && (forall x :: x in ch'.removed <==> x in Normalize(ch.removed) && x !in sel.removed)
            && (forall x :: x in ch'.ignored <==>
                  (x in Normalize(ch.ignored) || x in sel.ignored) && x !in sel.added)
  {
    var sel := Selected(ch, add, ignore, remove);
    SelectedMembers(ch, add, ignore, remove);
    DetectedAfter(ch.detected, sel.added, sel.ignored);
    RemovedAfter(ch.removed, sel.removed);
    IgnoredAfter(ch.ignored, sel.ignored, sel.added);
  }

  /** Each apply splits the pending lists into applied, ignored and remaining parts; nothing
      is lost, and what remains is neither applied nor ignored. Applied and ignored overlap in
      the pending names that the request asks to add and to ignore; the addition then wins. */
  lemma ApplySplitsPending(ch: Channel, add: seq<string>, ignore: seq<string>, remove: seq<string>, now: int)
    ensures var sel, ch' := Selected(ch, add, ignore, remove), AfterApply(ch, add, ignore, remove, now);
            && (forall x :: x in Normalize(ch.detected) <==>
                  x in sel.added || x in sel.ignored || x in ch'.detected)
            && (forall x <- ch'.detected :: x !in sel.added && x !in sel.ignored)
            && (forall x :: x in Normalize(ch.removed) <==> x in sel.removed || x in ch'.removed)
            && (forall x <- ch'.removed :: x !in sel.removed)
            && (forall x :: x in sel.added && x in sel.ignored <==>
                  x in Normalize(ch.detected) && x in Normalize(add) && x in Normalize(ignore))
            && (forall x <- sel.ignored :: x in ch'.ignored <==> x !in sel.added)
            && (forall x <- sel.added :: x !in ch'.ignored && x !in sel.removed)
  {
    SelectedMembers(ch, add, ignore, remove);
    ApplyMembers(ch, add, ignore, remove, now);
  }

  // ---------------------------------------------------------------- runs

  datatype Step =
    | Check(upstream: Option<seq<string>>, force: bool, allowAutoApply: bool, now: int, minInterval: int)
    | Apply(add: seq<string>, ignore: seq<string>, remove: seq<string>, now: int)
    | Edit(models: string)  // an administrator rewrites the model list

  /** A step whose database write fails leaves the stored channel as it was. */
  function Next(cx: Context, ch: Channel, step: Step, stored: bool): Channel {
    if !stored then ch
    else match step
      case Check(upstream, force, allowAutoApply, now, minInterval) =>
        AfterCheck(cx, ch, upstream, force, allowAutoApply, now, minInterval)
      case Apply(add, ignore, remove, now) => AfterApply(ch, add, ignore, remove, now)
      case Edit(models) => ch.(models := models)
  }

  /** Listed among the ignore rules, the name would ignore itself. Every name does that does not start with "regex:". */
  predicate RulesItself(cx: Context, name: string) {
    Rules(cx, name, name)
  }

  /** An ignored name that no check can detect: it would ignore itself, or it is the target of an alias. */
  predicate StaysOut(cx: Context, name: string) {
    RulesItself(cx, name) || name in cx.aliases.Values
  }

  ghost predicate Run(cx: Context, run: seq<Channel>, steps: seq<(Step, bool)>) {
    && |run| == |steps| + 1
    && run[0].detected == [] && run[0].removed == []
    && forall i :: 0 <= i < |steps| ==>
         run[i + 1] == Next(cx, run[i], steps[i].0, steps[i].1)
  }

  ghost predicate Inv(cx: Context, ch: Channel) {
    && Clean(ch.detected) && Clean(ch.removed)
    && (forall x <- ch.detected :: x !in ch.removed && x !in cx.aliases.Values)
    && (forall x <- ch.detected :: RulesItself(cx, x) ==> x !in Normalize(ch.ignored))
    && (forall x <- ch.removed :: x !in cx.aliases.Keys)
  }

  lemma NotIgnoredMeansNotListed(cx: Context, rules: seq<string>, name: string)
    requires RulesItself(cx, name) && !IsIgnored(cx, rules, name)
    ensures name !in rules
  {
  }

  lemma CheckKeepsInv(cx: Context, ch: Channel, step: Step)
    requires Inv(cx, ch) && step.Check?
    ensures Inv(cx, Next(cx, ch, step, true))
  {
    if step.upstream.Some? {
      CollectMembers(cx, ch.models, step.upstream.value, ch.ignored);
      var (add, remove) := Collect(cx, ch.models, step.upstream.value, ch.ignored);
      forall x <- add ensures RulesItself(cx, x) ==> x !in Normalize(ch.ignored) {
        if RulesItself(cx, x) { NotIgnoredMeansNotListed(cx, Normalize(ch.ignored), x); }
      }
    }
  }

  lemma ApplyKeepsInv(cx: Context, ch: Channel, step: Step)
    requires Inv(cx, ch) && step.Apply?
    ensures Inv(cx, Next(cx, ch, step, true))
    ensures forall x <- Normalize(ch.ignored) ::
              StaysOut(cx, x) ==> x in Normalize(Next(cx, ch, step, true).ignored)
  {
    var ch' := Next(cx, ch, step, true);
    NormalizeIsClean(ch.detected);
    NormalizeIsClean(ch.removed);
    SelectedMembers(ch, step.add, step.ignore, step.remove);
    ApplyMembers(ch, step.add, step.ignore, step.remove, step.now);
    NormalizeIsClean(ch'.ignored);
  }

  lemma StepKeepsInv(cx: Context, ch: Channel, step: Step, stored: bool)
    requires Inv(cx, ch)
    ensures Inv(cx, Next(cx, ch, step, stored))
    ensures forall x <- Normalize(ch.ignored) ::
              StaysOut(cx, x) ==> x in Normalize(Next(cx, ch, step, stored).ignored)
  {
    if stored {
      match step
      case Check(_, _, _, _, _) => CheckKeepsInv(cx, ch, step);
      case Apply(_, _, _, _) => ApplyKeepsInv(cx, ch, step);
      case Edit(_) =>
    }
  }

  lemma {:induction false} RunKeepsInv(cx: Context, run: seq<Channel>, steps: seq<(Step, bool)>, i: nat)
    requires Run(cx, run, steps) && i < |run|
    ensures Inv(cx, run[i])
  {
    if i > 0 {
      RunKeepsInv(cx, run, steps, i - 1);
      StepKeepsInv(cx, run[i - 1], steps[i - 1].0, steps[i - 1].1);
    }
  }

  /** In every run, whatever the upstream lists, the pending additions are disjoint from the pending removals and,
      as far as they would ignore themselves, from the ignored names; no alias target is pending addition and no alias
      source pending removal. */
  lemma PendingStaysDisjoint(cx: Context, run: seq<Channel>, steps: seq<(Step, bool)>, i: nat, x: string)
    requires Run(cx, run, steps) && i < |run|
    ensures x in run[i].detected ==> x !in run[i].removed
    ensures x in run[i].detected && StaysOut(cx, x) ==> x !in Normalize(run[i].ignored)
    ensures x in run[i].detected ==> x !in cx.aliases.Values
    ensures x in run[i].removed ==> x !in cx.aliases.Keys
  {
    RunKeepsInv(cx, run, steps, i);
  }

  /** In every run a name that would ignore itself, or is the target of an alias, stays ignored once it is. */
  lemma {:induction false} IgnoredOnlyGrows(cx: Context, run: seq<Channel>, steps: seq<(Step, bool)>,
                                            i: nat, j: nat, x: string)
    requires Run(cx, run, steps) && i <= j < |run|
    requires x in Normalize(run[i].ignored) && StaysOut(cx, x)
    ensures x in Normalize(run[j].ignored)
  {
    if i < j {
      IgnoredOnlyGrows(cx, run, steps, i, j - 1, x);
      RunKeepsInv(cx, run, steps, j - 1);
      StepKeepsInv(cx, run[j - 1], steps[j - 1].0, steps[j - 1].1);
    }
  }

  // ---------------------------------------------------------------- when a rule misses its own name

  predicate Both(ch: Channel, x: string) {
    x in ch.detected && x in Normalize(ch.ignored)
  }

  predicate Loses(before: Channel, after: Channel, x: string) {
    x in Normalize(before.ignored) && x !in Normalize(after.ignored)
  }

  ghost predicate NeverBoth(cx: Context, x: string) {
    forall run, steps, i | Run(cx, run, steps) && 0 <= i < |run| :: !Both(run[i], x)
  }

  ghost predicate NeverLost(cx: Context, x: string) {
    forall run, steps, i, j | Run(cx, run, steps) && 0 <= i <= j < |run| :: !Loses(run[i], run[j], x)
  }

  lemma DetectOwnRule(cx: Context, x: string) returns (ch0: Channel, step: Step, ch1: Channel)
    requires Clean([x]) && !StaysOut(cx, x)
    ensures ch0.detected == [] && ch0.removed == [] && Normalize(ch0.ignored) == [x]
    ensures ch1 == Next(cx, ch0, step, true)
    ensures x in ch1.detected && Clean(ch1.detected) && Both(ch1, x)
  {
    ch0 := Channel("", [], [], [x], 0, false);
    step := Check(Some([x]), true, false, 0, 0);
    ch1 := Next(cx, ch0, step, true);
    NormalizeIsClean([x]);
    CollectMembers(cx, "", [x], [x]);
    assert !IsIgnored(cx, [x], x);
  }

  lemma LoseOwnRule(ch: Channel, x: string)
    requires Clean([x]) && x in ch.detected && Clean(ch.detected)
    ensures x !in Normalize(AfterApply(ch, [x], [], [], 0).ignored)
  {
    assert x in Selected(ch, [x], [], []).added by {
      NormalizeIsClean([x]);
      NormalizeIsClean(ch.detected);
      SelectedMembers(ch, [x], [], []);
      assert x in [x];
    }
    ApplyMembers(ch, [x], [], [], 0);
    NormalizeIsClean(AfterApply(ch, [x], [], [], 0).ignored);
  }

  /** Detecting the name of a rule that misses it, and then adding it. */
  lemma OwnRuleRun(cx: Context, x: string) returns (run: seq<Channel>, steps: seq<(Step, bool)>)
    requires Clean([x]) && !StaysOut(cx, x)
    ensures Run(cx, run, steps) && |run| == 3
    ensures Both(run[1], x) && Loses(run[1], run[2], x)
  {
    var ch0, check, ch1 := DetectOwnRule(cx, x);
    LoseOwnRule(ch1, x);
    var apply := Apply([x], [], [], 0);
    var ch2 := Next(cx, ch1, apply, true);
    run, steps := [ch0, ch1, ch2], [(check, true), (apply, true)];
    TwoSteps(cx, run, check, apply);
  }

  lemma TwoSteps(cx: Context, run: seq<Channel>, first: Step, second: Step)
    requires |run| == 3 && run[0].detected == [] && run[0].removed == []
    requires run[1] == Next(cx, run[0], first, true) && run[2] == Next(cx, run[1], second, true)
    ensures Run(cx, run, [(first, true), (second, true)])
  {
  }

  /** A name is never pending and ignored at once, and never lost from the ignored names, in all runs, if and only if
      it would ignore itself, is the target of an alias, or is no trimmed name at all. So only a "regex:" rule that does
      not match its own text can fail to. */
  lemma OwnRuleDecides(cx: Context, x: string)
    ensures NeverBoth(cx, x) <==> StaysOut(cx, x) || !Clean([x])
    ensures NeverLost(cx, x) <==> StaysOut(cx, x) || !Clean([x])
  {
    if StaysOut(cx, x) || !Clean([x]) {
      forall run: seq<Channel>, steps, i | Run(cx, run, steps) && 0 <= i < |run| ensures !Both(run[i], x) {
        NormalizeIsClean(run[i].ignored);
        PendingStaysDisjoint(cx, run, steps, i, x);
      }
      forall run: seq<Channel>, steps, i, j | Run(cx, run, steps) && 0 <= i <= j < |run|
        ensures !Loses(run[i], run[j], x)
      {
        NormalizeIsClean(run[i].ignored);
        if Loses(run[i], run[j], x) { IgnoredOnlyGrows(cx, run, steps, i, j, x); }
      }
    } else {
      var run, steps := OwnRuleRun(cx, x);
    }
  }

  // ---------------------------------------------------------------- the stored text

  /** The list that an apply works out. */
  lemma NextMembers(ch: Channel, add: seq<string>, ignore: seq<string>, remove: seq<string>)
    ensures var sel := Selected(ch, add, ignore, remove);
            var next := ApplySelected(Local(ch.models), sel.added, sel.removed);
            && Clean(next)
            && (forall x :: x in next <==> (x in Local(ch.models) || x in sel.added) && x !in sel.removed)
            && (forall x <- sel.added :: x in next)
  {
    var sel := Selected(ch, add, ignore, remove);
    var origin := Local(ch.models);
    SelectedMembers(ch, add, ignore, remove);
    LocalIsAtomic(ch.models);
    NormalizeIsClean(origin);
    NormalizeIsClean(sel.added);
    NormalizeIsClean(sel.removed);
    ApplySelectedKeepsOrder(origin, sel.added, sel.removed);
  }

  /** The stored text reads back as the new list if and only if no added name contains the separator. */
  lemma ApplyWritesNext(ch: Channel, add: seq<string>, ignore: seq<string>, remove: seq<string>, now: int)
    ensures var sel, ch' := Selected(ch, add, ignore, remove), AfterApply(ch, add, ignore, remove, now);
            Local(ch'.models) == ApplySelected(Local(ch.models), sel.added, sel.removed) <==> Atomic(sel.added, ',')
  {
    var sel, ch' := Selected(ch, add, ignore, remove), AfterApply(ch, add, ignore, remove, now);
    var next := ApplySelected(Local(ch.models), sel.added, sel.removed);
    NextMembers(ch, add, ignore, remove);
    LocalIsAtomic(ch.models);
    LocalIsAtomic(ch'.models);
    if Atomic(sel.added, ',') {
      LocalOfJoin(next);
    } else {
      var name :| name in sel.added && ',' in name;
      assert name in next && name !in Local(ch'.models);
    }
  }

  /** Whatever else is written, a name without the separator is read back. */
  lemma LocalKeeps(names: seq<string>, x: string)
    requires Clean(names) && x in names && ',' !in x
    ensures x in Local(Join(names, ','))
  {
    var parts := Parse(Join(names, ','), ',');
    ParseKeepsPart(names, ',', x);
    TrimSpaceTightens(x);
    var i :| 0 <= i < |parts| && parts[i] == x;
    NormalizeCovers(parts, x);
  }

  /** A local alias source survives every check, automatic or manual apply. */
  lemma AliasSourceStays(cx: Context, ch: Channel, step: Step, stored: bool, x: string)
    requires Inv(cx, ch) && !step.Edit?
    requires x in Local(ch.models) && x in cx.aliases.Keys
    ensures x in Local(Next(cx, ch, step, stored).models)
  {
    LocalIsAtomic(ch.models);
    if stored {
      match step
      case Check(_, _, _, _, _) => AliasSourceChecked(cx, ch, step, x);
      case Apply(add, ignore, remove, now) => AliasSourceApplied(cx, ch, add, ignore, remove, x);
    }
  }

  lemma AliasSourceChecked(cx: Context, ch: Channel, step: Step, x: string)
    requires step.Check? && x in Local(ch.models)
    ensures x in Local(Next(cx, ch, step, true).models)
  {
    var Check(upstream, _, allowAutoApply, now, _) := step;
    if upstream.Some? && allowAutoApply && ch.autoSync { AutoCheckAdds(cx, ch, upstream.value, now, x); }
  }

  lemma AliasSourceApplied(cx: Context, ch: Channel, add: seq<string>, ignore: seq<string>, remove: seq<string>,
                           x: string)
    requires Inv(cx, ch) && x in Local(ch.models) && x in cx.aliases.Keys && ',' !in x
    ensures var sel := Selected(ch, add, ignore, remove);
            x in Local(Join(ApplySelected(Local(ch.models), sel.added, sel.removed), ','))
  {
    var sel := Selected(ch, add, ignore, remove);
    NormalizeIsClean(ch.removed);
    SelectedMembers(ch, add, ignore, remove);
    NextMembers(ch, add, ignore, remove);
    LocalKeeps(ApplySelected(Local(ch.models), sel.added, sel.removed), x);
  }

  /** In every run a local alias source stays local until an administrator edits the list. */
  lemma {:induction false} AliasSourceNeverRemoved(cx: Context, run: seq<Channel>, steps: seq<(Step, bool)>,
                                                   i: nat, j: nat, x: string)
    requires Run(cx, run, steps) && i <= j < |run|
    requires forall k :: i <= k < j ==> !steps[k].0.Edit?
    requires x in Local(run[i].models) && x in cx.aliases.Keys
    ensures x in Local(run[j].models)
  {
    if i < j {
      AliasSourceNeverRemoved(cx, run, steps, i, j - 1, x);
      RunKeepsInv(cx, run, steps, j - 1);
      AliasSourceStays(cx, run[j - 1], steps[j - 1].0, steps[j - 1].1, x);
    }
  }

  // ---------------------------------------------------------------- detect, apply all, detect

  function Detected(cx: Context, ch: Channel, upstream: seq<string>, now: int): Channel {
    AfterCheck(cx, ch, Some(upstream), true, false, now, 0)
  }

  /** ApplyAllChannelUpstreamModelUpdates on one channel. */
  function AppliedAll(ch: Channel, now: int): Channel {
    AfterApply(ch, Normalize(ch.detected), [], Normalize(ch.removed), now)
  }

  /** Applying everything selects everything. */
  lemma ApplyAllSelects(ch: Channel)
    requires Clean(ch.detected) && Clean(ch.removed)
    requires forall x <- ch.removed :: x !in ch.detected
    ensures Selected(ch, ch.detected, [], ch.removed) == Applied(ch.detected, [], ch.removed)
  {
    NormalizeIsClean(ch.detected);
    NormalizeIsClean(ch.removed);
    WithinMembers(ch.detected, ch.detected);
    WithinMembers(ch.removed, ch.removed);
    WithoutMembers(ch.removed, ch.detected);
    assert Normalize([]) == [];
  }

  /** Applying everything clears the pending lists and drops the applied names from the ignore rules. */
  lemma ApplyAllMembers(ch: Channel, now: int)
    requires Clean(ch.detected) && Clean(ch.removed)
    requires forall x <- ch.removed :: x !in ch.detected
    ensures AppliedAll(ch, now) == AfterApply(ch, ch.detected, [], ch.removed, now)
    ensures AppliedAll(ch, now).detected == [] && AppliedAll(ch, now).removed == []
    ensures forall x :: x in Normalize(AppliedAll(ch, now).ignored) <==> x in Normalize(ch.ignored) && x !in ch.detected
  {
    NormalizeIsClean(ch.detected);
    NormalizeIsClean(ch.removed);
    ApplyAllSelects(ch);
    ApplyMembers(ch, ch.detected, [], ch.removed, now);
    var ch' := AppliedAll(ch, now);
    NormalizeIsClean(ch'.ignored);
    HeadIsMember(ch'.detected);
    HeadIsMember(ch'.removed);
  }

  /** What a forced detection stores is fit for the two lemmas above. */
  lemma DetectedIsFit(cx: Context, ch: Channel, upstream: seq<string>, now: int)
    ensures var ch1 := Detected(cx, ch, upstream, now);
            && Clean(ch1.detected) && Clean(ch1.removed)
            && (forall x <- ch1.removed :: x !in ch1.detected)
  {
    CollectMembers(cx, ch.models, upstream, ch.ignored);
  }

  /** The name is offered, and only the ignore rules keep it from being added. */
  predicate HeldBack(cx: Context, ch: Channel, upstream: seq<string>, x: string) {
    && x in Normalize(upstream) && x !in Local(ch.models) && x !in cx.aliases.Values
    && IsIgnored(cx, Normalize(ch.ignored), x)
  }

  /** No name is held back only by rules that are themselves among the detected names. */
  ghost predicate KeepsRules(cx: Context, ch: Channel, upstream: seq<string>, detected: seq<string>) {
    forall x | HeldBack(cx, ch, upstream, x) :: IsIgnored(cx, Without(Normalize(ch.ignored), detected), x)
  }

  lemma IgnoredByMembers(cx: Context, rules: seq<string>, rules': seq<string>, name: string)
    requires forall x <- rules :: x in rules'
    ensures IsIgnored(cx, rules, name) ==> IsIgnored(cx, rules', name)
  {
  }

  /** The rules after detect and apply all: as they were, without the detected names. */
  lemma RulesAfter(cx: Context, ch: Channel, upstream: seq<string>, now: int, later: int, x: string)
    ensures var ch1 := Detected(cx, ch, upstream, now);
            var rules, left := Normalize(AppliedAll(ch1, later).ignored), Without(Normalize(ch.ignored), ch1.detected);
            && (IsIgnored(cx, rules, x) <==> IsIgnored(cx, left, x))
            && (IsIgnored(cx, rules, x) ==> IsIgnored(cx, Normalize(ch.ignored), x))
  {
    var ch1 := Detected(cx, ch, upstream, now);
    var rules, left := Normalize(AppliedAll(ch1, later).ignored), Without(Normalize(ch.ignored), ch1.detected);
    DetectedIsFit(cx, ch, upstream, now);
    ApplyAllMembers(ch1, later);
    WithoutMembers(Normalize(ch.ignored), ch1.detected);
    IgnoredByMembers(cx, rules, left, x);
    IgnoredByMembers(cx, left, rules, x);
    IgnoredByMembers(cx, left, Normalize(ch.ignored), x);
  }

  /** The local list after detect and apply all, by membership, when no detected name contains a comma. */
  lemma LocalAfter(cx: Context, ch: Channel, upstream: seq<string>, now: int, later: int, x: string)
    requires Atomic(Detected(cx, ch, upstream, now).detected, ',')
    ensures var ch1 := Detected(cx, ch, upstream, now);
            x in Local(AppliedAll(ch1, later).models) <==>
              (x in Local(ch.models) || x in ch1.detected) && x !in ch1.removed
  {
    var ch1 := Detected(cx, ch, upstream, now);
    DetectedIsFit(cx, ch, upstream, now);
    ApplyAllMembers(ch1, later);
    ApplyAllSelects(ch1);
    ApplyWritesNext(ch1, ch1.detected, [], ch1.removed, later);
    NextMembers(ch1, ch1.detected, [], ch1.removed);
  }

  lemma ComesBackIff(cx: Context, ch: Channel, upstream: seq<string>, now: int, later: int, x: string)
    requires Atomic(Detected(cx, ch, upstream, now).detected, ',')
    ensures var ch1 := Detected(cx, ch, upstream, now);
            var ch2 := AppliedAll(ch1, later);
            var (add, remove) := Collect(cx, ch2.models, upstream, ch2.ignored);
            && (x in add <==> HeldBack(cx, ch, upstream, x) &&
                              !IsIgnored(cx, Without(Normalize(ch.ignored), ch1.detected), x))
            && x !in remove
  {
    var ch2 := AppliedAll(Detected(cx, ch, upstream, now), later);
    LocalAfter(cx, ch, upstream, now, later, x);
    RulesAfter(cx, ch, upstream, now, later, x);
    CollectMembers(cx, ch.models, upstream, ch.ignored);
    CollectMembers(cx, ch2.models, upstream, ch2.ignored);
  }

  lemma CommaComesBack(cx: Context, ch: Channel, upstream: seq<string>, now: int, later: int, name: string)
    requires name in Detected(cx, ch, upstream, now).detected && ',' in name
    ensures var ch2 := AppliedAll(Detected(cx, ch, upstream, now), later);
            name in Collect(cx, ch2.models, upstream, ch2.ignored).0
  {
    var ch2 := AppliedAll(Detected(cx, ch, upstream, now), later);
    CollectMembers(cx, ch.models, upstream, ch.ignored);
    LocalIsAtomic(ch2.models);
    RulesAfter(cx, ch, upstream, now, later, name);
    CollectMembers(cx, ch2.models, upstream, ch2.ignored);
  }

  /** Detect then apply all reaches a fixed point, for the same upstream list and aliases, if and only if no
      detected name contains a comma and no name was held back only by rules that are detected names. */
  lemma FixedPointIff(cx: Context, ch: Channel, upstream: seq<string>, now: int, later: int)
    ensures var ch1 := Detected(cx, ch, upstream, now);
            var ch2 := AppliedAll(ch1, later);
            Collect(cx, ch2.models, upstream, ch2.ignored) == ([], []) <==>
              Atomic(ch1.detected, ',') && KeepsRules(cx, ch, upstream, ch1.detected)
  {
    var ch1 := Detected(cx, ch, upstream, now);
    var ch2 := AppliedAll(ch1, later);
    var (add, remove) := Collect(cx, ch2.models, upstream, ch2.ignored);
    if !Atomic(ch1.detected, ',') {
      var name :| name in ch1.detected && ',' in name;
      CommaComesBack(cx, ch, upstream, now, later, name);
    } else {
      forall x
        ensures x in add <==> HeldBack(cx, ch, upstream, x) &&
                              !IsIgnored(cx, Without(Normalize(ch.ignored), ch1.detected), x)
        ensures x !in remove
      {
        ComesBackIff(cx, ch, upstream, now, later, x);
      }
      HeadIsMember(add);
      HeadIsMember(remove);
    }
  }

  /** The usual case: detected names that would ignore themselves are no rules, so only commas matter. */
  lemma FixedPointIffNoComma(cx: Context, ch: Channel, upstream: seq<string>, now: int, later: int)
    requires forall name <- Detected(cx, ch, upstream, now).detected :: RulesItself(cx, name)
    ensures var ch1 := Detected(cx, ch, upstream, now);
            var ch2 := AppliedAll(ch1, later);
            Collect(cx, ch2.models, upstream, ch2.ignored) == ([], []) <==> Atomic(ch1.detected, ',')
  {
    var detected, rules := Detected(cx, ch, upstream, now).detected, Normalize(ch.ignored);
    CollectMembers(cx, ch.models, upstream, ch.ignored);
    forall x <- detected ensures x !in rules { NotIgnoredMeansNotListed(cx, rules, x); }
    WithoutMembers(rules, detected);
    FixedPointIff(cx, ch, upstream, now, later);
  }

  /** The new local list of detect then apply all is duplicate-free, and it is the surviving names in their old order
      followed by the additions if and only if no addition contains a comma. */
  lemma ApplyAllKeepsOrder(cx: Context, ch: Channel, upstream: seq<string>, now: int, later: int)
    ensures var ch1 := Detected(cx, ch, upstream, now);
            var local := Local(AppliedAll(ch1, later).models);
            && Distinct(local)
            && (local == Without(Local(ch.models), ch1.removed) + ch1.detected <==> Atomic(ch1.detected, ','))
  {
    var ch1 := Detected(cx, ch, upstream, now);
    DetectedIsFit(cx, ch, upstream, now);
    ApplyAllMembers(ch1, later);
    ApplyAllSelects(ch1);
    CollectMembers(cx, ch.models, upstream, ch.ignored);
    ApplyWritesNext(ch1, ch1.detected, [], ch1.removed, later);
    LocalIsAtomic(AppliedAll(ch1, later).models);
    LocalIsAtomic(ch.models);
    NormalizeIsClean(Local(ch.models));
    ApplySelectedKeepsOrder(Local(ch.models), ch1.detected, ch1.removed);
  }
}
