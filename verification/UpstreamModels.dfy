/** Detecting and applying changes of an upstream model list.

    A channel stores its models as comma-separated text, and in its settings the
    models found upstream but missing locally, the local models gone upstream, and
    the names or patterns to ignore. Detection computes the two pending lists;
    applying takes selections of them over. */
module UpstreamModels {
  import opened Text

  // ---- Lists of names ----------------------------------------------------

  function Filter(xs: seq<string>, keep: string -> bool): seq<string> {
    if xs == [] then []
    else
      var rest, x := Filter(xs[..|xs| - 1], keep), xs[|xs| - 1];
      if keep(x) then rest + [x] else rest
  }

  /** lo.Uniq: first occurrences. */
  function Uniq(xs: seq<string>): seq<string> {
    if xs == [] then []
    else
      var rest, x := Uniq(xs[..|xs| - 1]), xs[|xs| - 1];
      if x in rest then rest else rest + [x]
  }

  /** normalizeModelNames. */
  function Normalize(names: seq<string>): seq<string> { Uniq(Cleaned(names)) }

  /** Distinct, non-empty, trimmed. */
  predicate Normal(xs: seq<string>) {
    Distinct(xs) && forall i :: 0 <= i < |xs| ==> xs[i] != "" && TrimSpace(xs[i]) == xs[i]
  }

  /** mergeModelNames: the base, then what is new. */
  function Merge(base: seq<string>, appended: seq<string>): seq<string> {
    var b := Normalize(base);
    b + Filter(Normalize(appended), x => x !in b)
  }

  /** subtractModelNames. */
  function Subtract(base: seq<string>, removed: seq<string>): seq<string> {
    var r := Normalize(removed);
    Filter(Normalize(base), x => x !in r)
  }

  /** intersectModelNames. */
  function Intersect(base: seq<string>, allowed: seq<string>): seq<string> {
    var a := Normalize(allowed);
    Filter(Normalize(base), x => x in a)
  }

  /** applySelectedModelChanges: additions win over removals. */
  function ApplySelected(origin: seq<string>, add: seq<string>, remove: seq<string>): seq<string> {
    var a := Normalize(add);
    Subtract(Merge(origin, a), Subtract(Normalize(remove), a))
  }

  lemma {:induction false} FilterIn(xs: seq<string>, keep: string -> bool, x: string)
    ensures x in Filter(xs, keep) <==> x in xs && keep(x)
  {
    if xs != [] { FilterIn(xs[..|xs| - 1], keep, x); }
  }

  lemma FilterNext(xs: seq<string>, i: nat, keep: string -> bool)
    requires i < |xs|
    ensures Filter(xs[..i + 1], keep) == if keep(xs[i]) then Filter(xs[..i], keep) + [xs[i]] else Filter(xs[..i], keep)
  {
    assert xs[..i + 1][..i] == xs[..i];
  }

  lemma {:induction false} FilterSame(xs: seq<string>, p: string -> bool, q: string -> bool)
    requires forall x :: x in xs ==> p(x) == q(x)
    ensures Filter(xs, p) == Filter(xs, q)
  {
    if xs != [] { FilterSame(xs[..|xs| - 1], p, q); }
  }

  lemma {:induction false} FilterTwice(xs: seq<string>, p: string -> bool, q: string -> bool)
    ensures Filter(Filter(xs, p), q) == Filter(xs, x => p(x) && q(x))
  {
    if xs != [] {
      var front, x := xs[..|xs| - 1], xs[|xs| - 1];
      FilterTwice(front, p, q);
      if p(x) { assert (Filter(front, p) + [x])[..|Filter(front, p)|] == Filter(front, p); }
    }
  }

  lemma {:induction false} FilterAll(xs: seq<string>, keep: string -> bool)
    requires forall x :: x in xs ==> keep(x)
    ensures Filter(xs, keep) == xs
  {
    if xs != [] { FilterAll(xs[..|xs| - 1], keep); }
  }

  lemma {:induction false} FilterNone(xs: seq<string>, keep: string -> bool)
    requires forall x :: x in xs ==> !keep(x)
    ensures Filter(xs, keep) == []
  {
    if xs != [] { FilterNone(xs[..|xs| - 1], keep); }
  }

  lemma {:induction false} FilterAppend(xs: seq<string>, ys: seq<string>, keep: string -> bool)
    ensures Filter(xs + ys, keep) == Filter(xs, keep) + Filter(ys, keep)
  {
    if ys == [] {
      assert xs + ys == xs;
    } else {
      assert (xs + ys)[..|xs + ys| - 1] == xs + ys[..|ys| - 1];
      FilterAppend(xs, ys[..|ys| - 1], keep);
    }
  }

  lemma {:induction false} FilterNormal(xs: seq<string>, keep: string -> bool)
    requires Normal(xs)
    ensures Normal(Filter(xs, keep))
  {
    if xs != [] {
      var front := xs[..|xs| - 1];
      FilterNormal(front, keep);
      FilterIn(front, keep, xs[|xs| - 1]);
    }
  }

  lemma {:induction false} CleanedIsClean(names: seq<string>)
    ensures forall i :: 0 <= i < |Cleaned(names)| ==>
              Cleaned(names)[i] != "" && TrimSpace(Cleaned(names)[i]) == Cleaned(names)[i]
  {
    if names != [] {
      CleanedIsClean(names[..|names| - 1]);
      TrimIsTidy(names[|names| - 1], IsSpace);
    }
  }

  lemma {:induction false} UniqIsSame(xs: seq<string>)
    ensures Distinct(Uniq(xs))
    ensures forall x :: x in Uniq(xs) <==> x in xs
  {
    if xs != [] {
      var n := |xs| - 1;
      var rest := Uniq(xs[..n]);
      UniqIsSame(xs[..n]);
      assert xs == xs[..n] + [xs[n]];
      assert Uniq(xs) == if xs[n] in rest then rest else rest + [xs[n]];
    }
  }

  lemma NormalizeIsNormal(names: seq<string>)
    ensures Normal(Normalize(names))
  {
    CleanedIsClean(names);
    UniqIsSame(Cleaned(names));
    forall i | 0 <= i < |Normalize(names)|
      ensures Normalize(names)[i] != "" && TrimSpace(Normalize(names)[i]) == Normalize(names)[i]
    {
      assert Normalize(names)[i] in Cleaned(names);
    }
  }

  lemma NormalizeNext(names: seq<string>)
    requires names != []
    ensures var rest, x := Normalize(names[..|names| - 1]), TrimSpace(names[|names| - 1]);
            Normalize(names) == if x == "" || x in rest then rest else rest + [x]
  {
    var rest, x := Cleaned(names[..|names| - 1]), TrimSpace(names[|names| - 1]);
    if x != "" { assert (rest + [x])[..|rest|] == rest; }
  }

  /** Normalising keeps exactly the names that are left when trimmed, each once, in the
      order in which they first come up. */
  lemma {:induction false} NormalizeIs(names: seq<string>)
    ensures forall x :: x in Normalize(names) <==> x != "" && Present(names, x)
    ensures InOrder(names, |names|, Normalize(names))
  {
    if names != [] {
      var front := names[..|names| - 1];
      NormalizeIs(front);
      NormalizeNext(names);
      OneMoreName(names, Normalize(front), Normalize(names), x => x != "");
    }
  }

  lemma {:induction false} NormalStays(xs: seq<string>)
    requires Normal(xs)
    ensures Normalize(xs) == xs
  {
    if xs != [] {
      var front := xs[..|xs| - 1];
      NormalStays(front);
      CleanedNormal(xs);
      CleanedNormal(front);
    }
  }

  lemma {:induction false} CleanedNormal(xs: seq<string>)
    requires Normal(xs)
    ensures Cleaned(xs) == xs
  {
    if xs != [] {
      var n := |xs| - 1;
      CleanedNormal(xs[..n]);
      assert TrimSpace(xs[n]) == xs[n];
      assert xs == xs[..n] + [xs[n]];
    }
  }

  /** mergeModelNames as the code runs it, with its set of names seen. */
  method MergeModelNames(base: seq<string>, appended: seq<string>) returns (merged: seq<string>)
    ensures merged == Merge(base, appended)
  {
    NormalizeIsNormal(appended);
    var b, more := Normalize(base), Normalize(appended);
    ghost var keep := (x: string) => x !in b;
    merged := AppendUnseen(b, more, keep);
    FilterSame(more, keep, x => x !in b);
  }

  method AppendUnseen(b: seq<string>, more: seq<string>, ghost keep: string -> bool) returns (merged: seq<string>)
    requires (forall x :: keep(x) <==> x !in b) && Distinct(more)
    ensures merged == b + Filter(more, keep)
  {
    merged := b;
    var seen := set x | x in merged;
    for i := 0 to |more|
      invariant merged == b + Filter(more[..i], keep)
      invariant forall x :: x in seen <==> x in merged
    {
      var model := more[i];
      FilterNext(more, i, keep);
      FilterIn(more[..i], keep, model);
      assert model !in more[..i];
      if model !in seen {
        seen := seen + {model};
        merged := merged + [model];
      }
    }
    assert more[..|more|] == more;
  }

  // ---- Detection ---------------------------------------------------------

  /** regexp.MatchString(pattern, name) without error. */
  type Matcher = (string, string) -> bool

  const REGEX := "regex:"

  predicate IsPattern(entry: string) { REGEX <= entry }

  predicate IgnoredBy(entry: string, name: string, re: Matcher) {
    if IsPattern(entry) then re(TrimSpace(entry[|REGEX|..]), name) else entry == name
  }

  predicate Ignored(entries: seq<string>, name: string, re: Matcher) {
    exists i :: 0 <= i < |entries| && IgnoredBy(entries[i], name, re)
  }

  /** collectPendingUpstreamModelChangesFromModels. */
  function Collect(local: seq<string>, upstream: seq<string>, ignored: seq<string>, mapping: map<string, string>,
                   re: Matcher): (seq<string>, seq<string>) {
    var l, u, ig := Normalize(local), Normalize(upstream), Normalize(ignored);
    (Normalize(Filter(u, x => x !in l && x !in mapping.Values && !Ignored(ig, x, re))),
     Normalize(Filter(l, x => x !in mapping && x !in u)))
  }

  // ---- Channels ----------------------------------------------------------

  datatype Channel = Channel(
    models: string, ignored: seq<string>, detected: seq<string>, removed: seq<string>,
    lastCheck: int, autoSync: bool)

  /** Channel.GetModels. */
  function GetModels(models: string): seq<string> {
    if models == "" then [] else Split(TrimChar(models, ','), ',')
  }

  function Pending(ch: Channel, upstream: seq<string>, mapping: map<string, string>,
                   re: Matcher): (seq<string>, seq<string>) {
    Collect(GetModels(ch.models), upstream, ch.ignored, mapping, re)
  }

  /** The part of checkAndPersistChannelUpstreamModelUpdates after the fetch. */
  function Detected(ch: Channel, upstream: seq<string>, mapping: map<string, string>, re: Matcher,
                    allowAutoApply: bool, now: int): Channel {
    var (add, remove) := Pending(ch, upstream, mapping, re);
    if allowAutoApply && ch.autoSync && |add| > 0 then
      var origin := Normalize(GetModels(ch.models));
      var merged := Merge(origin, add);
      ch.(models := if |merged| > |origin| then Join(merged, ',') else ch.models,
          detected := [], removed := remove, lastCheck := now)
    else ch.(detected := add, removed := remove, lastCheck := now)
  }

  /** The additions, ignores and removals a request selects among the pending
      ones; additions win. */
  function SelectedAdds(ch: Channel, add: seq<string>): seq<string> {
    Intersect(add, Normalize(ch.detected))
  }

  function SelectedIgnores(ch: Channel, ignore: seq<string>): seq<string> {
    Intersect(ignore, Normalize(ch.detected))
  }

  function SelectedRemoves(ch: Channel, add: seq<string>, remove: seq<string>): seq<string> {
    Subtract(Intersect(remove, Normalize(ch.removed)), SelectedAdds(ch, add))
  }

  function NextModels(ch: Channel, add: seq<string>, remove: seq<string>): seq<string> {
    ApplySelected(Normalize(GetModels(ch.models)), SelectedAdds(ch, add), SelectedRemoves(ch, add, remove))
  }

  function NextIgnored(ch: Channel, add: seq<string>, ignore: seq<string>): seq<string> {
    var merged := Merge(ch.ignored, SelectedIgnores(ch, ignore));
    if |SelectedAdds(ch, add)| > 0 then Subtract(merged, SelectedAdds(ch, add)) else merged
  }

  /** applyChannelUpstreamModelUpdates. */
  function Applied(ch: Channel, add: seq<string>, ignore: seq<string>, remove: seq<string>, now: int): Channel {
    var next := NextModels(ch, add, remove);
    ch.(models := if next != Normalize(GetModels(ch.models)) then Join(next, ',') else ch.models,
        ignored := NextIgnored(ch, add, ignore),
        detected := Subtract(Normalize(ch.detected), SelectedAdds(ch, add) + SelectedIgnores(ch, ignore)),
        removed := Subtract(Normalize(ch.removed), SelectedRemoves(ch, add, remove)),
        lastCheck := now)
  }

  datatype Fetch = Fetched(models: seq<string>) | FetchFailed

  /** What applying a selection makes of a channel. */
  method Plan(ch: Channel, addInput: seq<string>, ignoreInput: seq<string>, removeInput: seq<string>, now: int)
    returns (after: Channel, added: seq<string>, gone: seq<string>, modelsChanged: bool)
    ensures after == Applied(ch, addInput, ignoreInput, removeInput, now)
    ensures added == SelectedAdds(ch, addInput) && gone == SelectedRemoves(ch, addInput, removeInput)
    ensures modelsChanged == (NextModels(ch, addInput, removeInput) != Normalize(GetModels(ch.models)))
  {
    var pendingAdd, pendingRemove := Normalize(ch.detected), Normalize(ch.removed);
    added := Intersect(addInput, pendingAdd);
    var ignoreModels := Intersect(ignoreInput, pendingAdd);
    gone := Intersect(removeInput, pendingRemove);
    gone := Subtract(gone, added);
    var origin := Normalize(GetModels(ch.models));
    var next := ApplySelected(origin, added, gone);
    modelsChanged := next != origin;
    var merged := MergeModelNames(ch.ignored, ignoreModels);
    if |added| > 0 { merged := Subtract(merged, added); }
    after := ch.(models := if modelsChanged then Join(next, ',') else ch.models, ignored := merged,
                 detected := Subtract(pendingAdd, added + ignoreModels), removed := Subtract(pendingRemove, gone),
                 lastCheck := now);
  }

  /** The channel object the handlers update in place, and the row it was loaded from. */
  class ChannelObject {
    var models: string
    var ignored: seq<string>
    var detected: seq<string>
    var removed: seq<string>
    var lastCheck: int
    var autoSync: bool
    var row: Channel

    function Value(): Channel
      reads this
    {
      Channel(models, ignored, detected, removed, lastCheck, autoSync)
    }

    method Set(ch: Channel)
      modifies this
      ensures Value() == ch && row == old(row)
    {
      models, ignored, detected := ch.models, ch.ignored, ch.detected;
      removed, lastCheck, autoSync := ch.removed, ch.lastCheck, ch.autoSync;
    }

    method Save(works: bool)
      modifies this`row
      ensures row == if works then Value() else old(row)
    {
      if works { row := Value(); }
    }

    /** What a successful fetch makes of the object in memory. */
    method Detect(upstream: seq<string>, mapping: map<string, string>, re: Matcher, allowAutoApply: bool, now: int)
      returns (modelsChanged: bool, autoAdded: int)
      modifies this
      ensures row == old(row)
      ensures Value() == Detected(old(Value()), upstream, mapping, re, allowAutoApply, now)
      ensures autoAdded
           == (if allowAutoApply && old(autoSync) then |Pending(old(Value()), upstream, mapping, re).0| else 0)
      ensures modelsChanged == (autoAdded > 0)
    {
      ghost var was := Value();
      modelsChanged, autoAdded := false, 0;
      lastCheck := now;
      var (add, remove) := Collect(GetModels(models), upstream, ignored, mapping, re);
      if allowAutoApply && autoSync && |add| > 0 {
        var origin := Normalize(GetModels(models));
        var merged := MergeModelNames(origin, add);
        AutoAddsAll(was, upstream, mapping, re);
        if |merged| > |origin| {
          models := Join(merged, ',');
          autoAdded := |merged| - |origin|;
          modelsChanged := true;
        }
        detected := [];
      } else {
        detected := add;
      }
      removed := remove;
    }

    method CheckAndPersist(fetch: Fetch, mapping: map<string, string>, re: Matcher, force: bool,
                           allowAutoApply: bool, minInterval: int, now: int, saves: bool)
      returns (modelsChanged: bool, autoAdded: int, failed: bool)
      requires row == Value()
      modifies this
      ensures var was := old(row);
              if !force && was.lastCheck > 0 && now - was.lastCheck < minInterval then
                row == was && !modelsChanged && autoAdded == 0 && !failed
              else
                && row == (if !saves then was
                           else if fetch.FetchFailed? then was.(lastCheck := now)
                           else Detected(was, fetch.models, mapping, re, allowAutoApply, now))
                && failed == (fetch.FetchFailed? || !saves)
                && var add := if fetch.FetchFailed? then [] else Pending(was, fetch.models, mapping, re).0;
                && autoAdded == (if allowAutoApply && was.autoSync then |add| else 0)
                && modelsChanged == (autoAdded > 0 && saves)
    {
      modelsChanged, autoAdded, failed := false, 0, false;
      if !force && lastCheck > 0 && now - lastCheck < minInterval { return; }
      if fetch.FetchFailed? {
        lastCheck := now;
        Save(saves);
        return false, 0, true;
      }
      modelsChanged, autoAdded := Detect(fetch.models, mapping, re, allowAutoApply, now);
      Save(saves);
      if !saves { return false, autoAdded, true; }
    }

    method Apply(addInput: seq<string>, ignoreInput: seq<string>, removeInput: seq<string>, now: int, saves: bool)
      returns (added: seq<string>, gone: seq<string>, modelsChanged: bool, failed: bool)
      requires row == Value()
      modifies this
      ensures failed == !saves
      ensures failed ==> row == old(row) && added == [] && gone == [] && !modelsChanged
      ensures !failed ==>
                && row == Applied(old(row), addInput, ignoreInput, removeInput, now)
                && added == SelectedAdds(old(row), addInput) && gone == SelectedRemoves(old(row), addInput, removeInput)
                && modelsChanged
                   == (NextModels(old(row), addInput, removeInput) != Normalize(GetModels(old(row).models)))
    {
      var ch, after := Value(), Value();
      after, added, gone, modelsChanged := Plan(ch, addInput, ignoreInput, removeInput, now);
      Set(after);
      Save(saves);
      if !saves { return [], [], false, true; }
      failed := false;
    }
  }

  /** A check touches the list of models only if it may, the channel asks for it and there
      is something to add; otherwise what was found is left pending. */
  lemma ModelsStay(ch: Channel, upstream: seq<string>, mapping: map<string, string>, re: Matcher,
                   allowAutoApply: bool, now: int)
    ensures var next := Detected(ch, upstream, mapping, re, allowAutoApply, now);
            var pending := Pending(ch, upstream, mapping, re);
            && next.ignored == ch.ignored && next.removed == pending.1 && next.lastCheck == now
            && (!allowAutoApply || !ch.autoSync || pending.0 == [] ==>
                  next.models == ch.models && next.detected == pending.0)
            && (allowAutoApply && ch.autoSync ==> next.detected == [])
  {
  }

  /** What detection finds is new, so automatic application adds all of it. */
  lemma AutoAddsAll(ch: Channel, upstream: seq<string>, mapping: map<string, string>, re: Matcher)
    ensures var origin, add := Normalize(GetModels(ch.models)), Pending(ch, upstream, mapping, re).0;
            Merge(origin, add) == origin + add
  {
    var origin := Normalize(GetModels(ch.models));
    NormalizeIsNormal(GetModels(ch.models));
    NormalStays(origin);
    var add := Pending(ch, upstream, mapping, re).0;
    PendingIs(ch, upstream, mapping, re);
    NormalStays(add);
    FilterAll(add, x => x !in origin);
  }

  /** The pending lists, without the outer normalisation, and what is in them. */
  lemma PendingIs(ch: Channel, upstream: seq<string>, mapping: map<string, string>, re: Matcher)
    ensures var l, u, ig := Normalize(GetModels(ch.models)), Normalize(upstream), Normalize(ch.ignored);
            var (add, remove) := Pending(ch, upstream, mapping, re);
            && add == Filter(u, x => x !in l && x !in mapping.Values && !Ignored(ig, x, re))
            && remove == Filter(l, x => x !in mapping && x !in u)
            && Normal(add) && Normal(remove) && Normal(l) && Normal(u) && Normal(ig)
            && (forall x :: x in add <==> x in u && x !in l && x !in mapping.Values && !Ignored(ig, x, re))
            && (forall x :: x in remove <==> x in l && x !in mapping && x !in u)
  {
    var l, u, ig := Normalize(GetModels(ch.models)), Normalize(upstream), Normalize(ch.ignored);
    NormalizeIsNormal(GetModels(ch.models));
    NormalizeIsNormal(upstream);
    NormalizeIsNormal(ch.ignored);
    var p := (x: string) => x !in l && x !in mapping.Values && !Ignored(ig, x, re);
    var q := (x: string) => x !in mapping && x !in u;
    FilterNormal(u, p);
    FilterNormal(l, q);
    NormalStays(Filter(u, p));
    NormalStays(Filter(l, q));
    FilterSame(u, p, x => x !in l && x !in mapping.Values && !Ignored(ig, x, re));
    FilterSame(l, q, x => x !in mapping && x !in u);
    forall x ensures x in Filter(u, p) <==> x in u && p(x) { FilterIn(u, p, x); }
    forall x ensures x in Filter(l, q) <==> x in l && q(x) { FilterIn(l, q, x); }
    var (add, remove) := Pending(ch, upstream, mapping, re);
    assert add == Filter(u, p) && remove == Filter(l, q);
  }

  // ---- Detection and application commute ---------------------------------

  /** The pending lists are what detection finds now. */
  predicate FreshlyDetected(ch: Channel, upstream: seq<string>, mapping: map<string, string>, re: Matcher) {
    (ch.detected, ch.removed) == Pending(ch, upstream, mapping, re)
  }

  /** The intersection is the normalized base kept to the normalized names allowed;
      a list that is normal already stands for itself. */
  lemma IntersectIs(base: seq<string>, allowed: seq<string>)
    ensures Normal(Intersect(base, allowed))
    ensures forall x :: x in Intersect(base, allowed) <==> x in Normalize(base) && x in Normalize(allowed)
    ensures Normal(allowed) ==> Normalize(allowed) == allowed
  {
    if Normal(allowed) { NormalStays(allowed); }
    NormalizeIsNormal(base);
    var a := Normalize(allowed);
    var keep := (x: string) => x in a;
    FilterNormal(Normalize(base), keep);
    assert Intersect(base, allowed) == Filter(Normalize(base), keep);
    forall x ensures x in Filter(Normalize(base), keep) <==> x in Normalize(base) && x in a {
      FilterIn(Normalize(base), keep, x);
    }
  }

  /** The difference is the normalized base without the normalized names removed. */
  lemma SubtractIs(base: seq<string>, removed: seq<string>)
    ensures Subtract(base, removed) == Filter(Normalize(base), x => x !in Normalize(removed))
    ensures Normal(Subtract(base, removed))
    ensures forall x :: x in Subtract(base, removed) <==> x in Normalize(base) && x !in Normalize(removed)
    ensures Normal(base) ==> Normalize(base) == base
  {
    if Normal(base) { NormalStays(base); }
    NormalizeIsNormal(base);
    var b := Normalize(base);
    var keep := (x: string) => x !in Normalize(removed);
    FilterSame(b, keep, x => x !in Normalize(removed));
    FilterNormal(b, keep);
    assert Subtract(base, removed) == Filter(b, keep);
    forall x ensures x in Filter(b, keep) <==> x in b && keep(x) { FilterIn(b, keep, x); }
  }

  lemma {:induction false} CleanedAppend(xs: seq<string>, ys: seq<string>)
    ensures Cleaned(xs + ys) == Cleaned(xs) + Cleaned(ys)
  {
    if ys == [] {
      assert xs + ys == xs;
    } else {
      assert (xs + ys)[..|xs + ys| - 1] == xs + ys[..|ys| - 1];
      CleanedAppend(xs, ys[..|ys| - 1]);
    }
  }

  lemma NormalizeAppend(xs: seq<string>, ys: seq<string>)
    requires Normal(xs) && Normal(ys)
    ensures forall x :: x in Normalize(xs + ys) <==> x in xs || x in ys
  {
    CleanedAppend(xs, ys);
    CleanedNormal(xs);
    CleanedNormal(ys);
    UniqIsSame(xs + ys);
  }

  lemma NormalAppend(xs: seq<string>, ys: seq<string>)
    requires Normal(xs) && Normal(ys) && forall y :: y in ys ==> y !in xs
    ensures Normal(xs + ys)
  {
    forall i, j | 0 <= i < j < |xs + ys| ensures (xs + ys)[i] != (xs + ys)[j] {
      if i < |xs| <= j { assert ys[j - |xs|] in ys && xs[i] in xs; }
    }
  }

  lemma MergeIs(base: seq<string>, more: seq<string>)
    requires Normal(more)
    ensures Normal(Merge(base, more))
    ensures forall x :: x in Merge(base, more) <==> x in Normalize(base) || x in more
    ensures (forall x :: x in more ==> x !in Normalize(base)) ==> Merge(base, more) == Normalize(base) + more
  {
    var b := Normalize(base);
    NormalizeIsNormal(base);
    NormalStays(more);
    var keep := (x: string) => x !in b;
    var fresher := Filter(more, keep);
    FilterSame(more, keep, x => x !in b);
    FilterNormal(more, keep);
    forall x ensures x in fresher <==> x in more && x !in b { FilterIn(more, keep, x); }
    assert Merge(base, more) == b + fresher;
    NormalAppend(b, fresher);
    if forall x :: x in more ==> x !in b { FilterAll(more, keep); }
  }

  /** The selections of a fresh channel. */
  lemma SelectionsAre(ch: Channel, upstream: seq<string>, mapping: map<string, string>, re: Matcher,
                      add: seq<string>, ignore: seq<string>, remove: seq<string>)
    requires FreshlyDetected(ch, upstream, mapping, re)
    ensures var a, g, r := SelectedAdds(ch, add), SelectedIgnores(ch, ignore), SelectedRemoves(ch, add, remove);
            && Normal(ch.detected) && Normal(ch.removed) && Normal(a) && Normal(g) && Normal(r)
            && (forall x :: x in a ==> x in ch.detected)
            && (forall x :: x in g ==> x in ch.detected)
            && (forall x :: x in r ==> x in ch.removed)
  {
    PendingIs(ch, upstream, mapping, re);
    NormalStays(ch.detected);
    NormalStays(ch.removed);
    IntersectIs(add, ch.detected);
    IntersectIs(ignore, ch.detected);
    IntersectIs(remove, ch.removed);
    SubtractIs(Intersect(remove, ch.removed), SelectedAdds(ch, add));
  }

  /** The new model list: the old one without the removals, then the additions. */
  lemma NextModelsAre(ch: Channel, upstream: seq<string>, mapping: map<string, string>, re: Matcher,
                      add: seq<string>, remove: seq<string>)
    requires FreshlyDetected(ch, upstream, mapping, re)
    ensures var l, a, r := Normalize(GetModels(ch.models)), SelectedAdds(ch, add), SelectedRemoves(ch, add, remove);
            NextModels(ch, add, remove) == Filter(l, x => x !in r) + a && Normal(NextModels(ch, add, remove))
  {
    PendingIs(ch, upstream, mapping, re);
    SelectionsAre(ch, upstream, mapping, re, add, [], remove);
    var l, a, r := Normalize(GetModels(ch.models)), SelectedAdds(ch, add), SelectedRemoves(ch, add, remove);
    NormalStays(a);
    NormalStays(r);
    NormalStays(l);
    SubtractIs(r, a);
    FilterAll(r, x => x !in Normalize(a));
    MergeIs(l, a);
    var keep := (x: string) => x !in r;
    SubtractIs(Merge(l, a), r);
    FilterSame(l + a, keep, x => x !in Normalize(r));
    FilterAppend(l, a, keep);
    FilterAll(a, keep);
    FilterSame(l, keep, x => x !in r);
  }

  /** The entries ignored after applying. */
  lemma NextIgnoredHas(ch: Channel, upstream: seq<string>, mapping: map<string, string>, re: Matcher,
                       add: seq<string>, ignore: seq<string>, e: string)
    requires FreshlyDetected(ch, upstream, mapping, re)
    ensures Normal(NextIgnored(ch, add, ignore))
    ensures e in NextIgnored(ch, add, ignore) <==>
            (e in Normalize(ch.ignored) || e in SelectedIgnores(ch, ignore)) && e !in SelectedAdds(ch, add)
  {
    var a, g := SelectedAdds(ch, add), SelectedIgnores(ch, ignore);
    SelectionsAre(ch, upstream, mapping, re, add, ignore, []);
    MergeIs(ch.ignored, g);
    NormalStays(a);
    SubtractIs(Merge(ch.ignored, g), a);
  }

  /** An entry that ignores something is no selected addition. */
  lemma IgnoringEntryNotAdded(ch: Channel, upstream: seq<string>, mapping: map<string, string>, re: Matcher,
                              add: seq<string>, e: string)
    requires FreshlyDetected(ch, upstream, mapping, re) && e in Normalize(ch.ignored) && !IsPattern(e)
    ensures e !in SelectedAdds(ch, add)
  {
    SelectionsAre(ch, upstream, mapping, re, add, [], []);
    PendingIs(ch, upstream, mapping, re);
    assert IgnoredBy(e, e, re);
    assert Ignored(Normalize(ch.ignored), e, re);
  }

  lemma IgnoredMember(entries: seq<string>, e: string, x: string, re: Matcher)
    requires e in entries && IgnoredBy(e, x, re)
    ensures Ignored(entries, x, re)
  {
  }

  /** After applying, a name is ignored if it was before or has been selected to
      be; selected additions are not. */
  lemma NextIgnoredIs(ch: Channel, upstream: seq<string>, mapping: map<string, string>, re: Matcher,
                      add: seq<string>, ignore: seq<string>, x: string)
    requires FreshlyDetected(ch, upstream, mapping, re)
    requires forall n :: n in SelectedAdds(ch, add) || n in SelectedIgnores(ch, ignore) ==> !IsPattern(n)
    ensures var a, g := SelectedAdds(ch, add), SelectedIgnores(ch, ignore);
            Ignored(NextIgnored(ch, add, ignore), x, re)
            <==> Ignored(Normalize(ch.ignored), x, re) || (x in g && x !in a)
  {
    var a, g, ig := SelectedAdds(ch, add), SelectedIgnores(ch, ignore), Normalize(ch.ignored);
    var next := NextIgnored(ch, add, ignore);
    if Ignored(ig, x, re) {
      var i :| 0 <= i < |ig| && IgnoredBy(ig[i], x, re);
      if !IsPattern(ig[i]) { IgnoringEntryNotAdded(ch, upstream, mapping, re, add, ig[i]); }
      NextIgnoredHas(ch, upstream, mapping, re, add, ignore, ig[i]);
      IgnoredMember(next, ig[i], x, re);
    } else if x in g && x !in a {
      NextIgnoredHas(ch, upstream, mapping, re, add, ignore, x);
      IgnoredMember(next, x, x, re);
    } else if Ignored(next, x, re) {
      var i :| 0 <= i < |next| && IgnoredBy(next[i], x, re);
      NextIgnoredHas(ch, upstream, mapping, re, add, ignore, next[i]);
      if next[i] in ig { IgnoredMember(ig, next[i], x, re); }
    }
  }

  /** The names of the stored text, when they survive being stored. */
  lemma {:induction false} PartsOf(names: seq<string>, c: char)
    requires forall i :: 0 <= i < |names| ==> c !in names[i]
    ensures forall x :: x in Normalize(names) ==> c !in x
  {
    UniqIsSame(Cleaned(names));
    if names != [] {
      var front, last := names[..|names| - 1], names[|names| - 1];
      PartsOf(front, c);
      UniqIsSame(Cleaned(front));
      TrimLeftEnds(last, IsSpace);
      TrimRightEnds(TrimLeft(last, IsSpace), IsSpace);
    }
  }

  lemma StoredNamesHaveNoComma(models: string)
    ensures forall x :: x in Normalize(GetModels(models)) ==> ',' !in x
  {
    if models == "" {
      assert Normalize([]) == [];
    } else {
      SplitParts(TrimChar(models, ','), ',');
      PartsOf(GetModels(models), ',');
    }
  }

  lemma StoredListComesBack(next: seq<string>)
    requires Normal(next) && forall x :: x in next ==> ',' !in x
    ensures Normalize(GetModels(Join(next, ','))) == next
  {
    NormalStays(next);
    if next != [] {
      JoinEnds(next, ',');
      TrimmedRoundTrip(next, ',');
    }
  }

  predicate NothingPattern(ch: Channel, add: seq<string>, ignore: seq<string>) {
    forall n :: n in SelectedAdds(ch, add) + SelectedIgnores(ch, ignore) ==> !IsPattern(n)
  }

  /** The local names after applying, as the next detection will read them. */
  lemma LocalAfterwards(ch: Channel, upstream: seq<string>, mapping: map<string, string>, re: Matcher,
                        add: seq<string>, ignore: seq<string>, remove: seq<string>, now: int)
    requires FreshlyDetected(ch, upstream, mapping, re)
    requires forall x :: x in SelectedAdds(ch, add) ==> ',' !in x
    ensures Normalize(GetModels(Applied(ch, add, ignore, remove, now).models)) == NextModels(ch, add, remove)
  {
    var l, a, r := Normalize(GetModels(ch.models)), SelectedAdds(ch, add), SelectedRemoves(ch, add, remove);
    var next := NextModels(ch, add, remove);
    NextModelsAre(ch, upstream, mapping, re, add, remove);
    if next != l {
      StoredNamesHaveNoComma(ch.models);
      forall x | x in next ensures ',' !in x {
        FilterIn(l, y => y !in r, x);
      }
      StoredListComesBack(next);
    }
  }

  /** What is pending to add before and after, name by name. */
  lemma AddStillPending(ch: Channel, upstream: seq<string>, mapping: map<string, string>, re: Matcher,
                        add: seq<string>, ignore: seq<string>, remove: seq<string>, x: string)
    requires FreshlyDetected(ch, upstream, mapping, re) && NothingPattern(ch, add, ignore) && x in Normalize(upstream)
    ensures var next, a, g := NextModels(ch, add, remove), SelectedAdds(ch, add), SelectedIgnores(ch, ignore);
            x !in next && x !in mapping.Values && !Ignored(NextIgnored(ch, add, ignore), x, re)
            <==> x in ch.detected && x !in a && x !in g
  {
    var l, a, r := Normalize(GetModels(ch.models)), SelectedAdds(ch, add), SelectedRemoves(ch, add, remove);
    PendingIs(ch, upstream, mapping, re);
    SelectionsAre(ch, upstream, mapping, re, add, ignore, remove);
    NextModelsAre(ch, upstream, mapping, re, add, remove);
    FilterIn(l, y => y !in r, x);
    NextIgnoredIs(ch, upstream, mapping, re, add, ignore, x);
  }

  /** Re-detection finds exactly the additions that were left. */
  lemma AddsCommute(ch: Channel, upstream: seq<string>, mapping: map<string, string>, re: Matcher,
                    add: seq<string>, ignore: seq<string>, remove: seq<string>, now: int)
    requires FreshlyDetected(ch, upstream, mapping, re) && NothingPattern(ch, add, ignore)
    requires forall x :: x in SelectedAdds(ch, add) ==> ',' !in x
    ensures var ch' := Applied(ch, add, ignore, remove, now); Pending(ch', upstream, mapping, re).0 == ch'.detected
  {
    var ch' := Applied(ch, add, ignore, remove, now);
    var u, a, g := Normalize(upstream), SelectedAdds(ch, add), SelectedIgnores(ch, ignore);
    var l', ig' := NextModels(ch, add, remove), NextIgnored(ch, add, ignore);
    LocalAfterwards(ch, upstream, mapping, re, add, ignore, remove, now);
    PendingIs(ch, upstream, mapping, re);
    PendingIs(ch', upstream, mapping, re);
    SelectionsAre(ch, upstream, mapping, re, add, ignore, remove);
    NextIgnoredHas(ch, upstream, mapping, re, add, ignore, "");
    NormalStays(ig');
    NormalStays(ch.detected);
    NormalizeAppend(a, g);
    var p := (x: string) => x !in Normalize(GetModels(ch.models)) && x !in mapping.Values
                            && !Ignored(Normalize(ch.ignored), x, re);
    var q := (x: string) => x !in Normalize(a + g);
    var p' := (x: string) => x !in l' && x !in mapping.Values && !Ignored(ig', x, re);
    SubtractIs(ch.detected, a + g);
    FilterSame(ch.detected, q, x => x !in Normalize(a + g));
    assert ch'.detected == Filter(ch.detected, q);
    FilterSame(u, p, x => x !in Normalize(GetModels(ch.models)) && x !in mapping.Values
                          && !Ignored(Normalize(ch.ignored), x, re));
    assert ch.detected == Filter(u, p);
    FilterTwice(u, p, q);
    forall x | x in u ensures p'(x) == (p(x) && q(x)) {
      AddStillPending(ch, upstream, mapping, re, add, ignore, remove, x);
    }
    FilterSame(u, p', x => p(x) && q(x));
    FilterSame(u, p', x => x !in Normalize(GetModels(ch'.models)) && x !in mapping.Values
                           && !Ignored(Normalize(ch'.ignored), x, re));
  }

  /** Re-detection finds exactly the removals that were left. */
  lemma RemovesCommute(ch: Channel, upstream: seq<string>, mapping: map<string, string>, re: Matcher,
                       add: seq<string>, ignore: seq<string>, remove: seq<string>, now: int)
    requires FreshlyDetected(ch, upstream, mapping, re)
    requires forall x :: x in SelectedAdds(ch, add) ==> ',' !in x
    ensures var ch' := Applied(ch, add, ignore, remove, now); Pending(ch', upstream, mapping, re).1 == ch'.removed
  {
    var ch' := Applied(ch, add, ignore, remove, now);
    var l, u := Normalize(GetModels(ch.models)), Normalize(upstream);
    var a, r := SelectedAdds(ch, add), SelectedRemoves(ch, add, remove);
    LocalAfterwards(ch, upstream, mapping, re, add, ignore, remove, now);
    PendingIs(ch, upstream, mapping, re);
    PendingIs(ch', upstream, mapping, re);
    SelectionsAre(ch, upstream, mapping, re, add, ignore, remove);
    NextModelsAre(ch, upstream, mapping, re, add, remove);
    NormalStays(ch.removed);
    NormalStays(r);
    var p := (x: string) => x !in mapping && x !in u;
    var q := (x: string) => x !in r;
    FilterSame(l, q, x => x !in r);
    FilterSame(l, p, x => x !in mapping && x !in u);
    FilterSame(Filter(l, q) + a, p, x => x !in mapping && x !in u);
    FilterAppend(Filter(l, q), a, p);
    FilterNone(a, p);
    FilterTwice(l, q, p);
    FilterTwice(l, p, q);
    FilterSame(l, x => q(x) && p(x), x => p(x) && q(x));
    SubtractIs(ch.removed, r);
    FilterSame(ch.removed, q, x => x !in Normalize(r));
  }

  /** A selected addition with a comma falls apart in the stored text, and is
      found missing again. */
  lemma CommaIsDetectedAgain(ch: Channel, upstream: seq<string>, mapping: map<string, string>, re: Matcher,
                             add: seq<string>, ignore: seq<string>, remove: seq<string>, now: int, x: string)
    requires FreshlyDetected(ch, upstream, mapping, re) && NothingPattern(ch, add, ignore)
    requires x in SelectedAdds(ch, add) && ',' in x
    ensures var ch' := Applied(ch, add, ignore, remove, now);
            x in Pending(ch', upstream, mapping, re).0 && x !in ch'.detected
  {
    var ch' := Applied(ch, add, ignore, remove, now);
    var a, g := SelectedAdds(ch, add), SelectedIgnores(ch, ignore);
    PendingIs(ch, upstream, mapping, re);
    PendingIs(ch', upstream, mapping, re);
    SelectionsAre(ch, upstream, mapping, re, add, ignore, remove);
    NormalStays(ch.detected);
    NormalizeAppend(a, g);
    SubtractIs(ch.detected, a + g);
    StoredNamesHaveNoComma(ch'.models);
    NextIgnoredIs(ch, upstream, mapping, re, add, ignore, x);
    NextIgnoredHas(ch, upstream, mapping, re, add, ignore, "");
    NormalStays(ch'.ignored);
  }

  /** Detecting again after applying any selection of freshly detected changes
      returns exactly the stored remaining lists, in order, if and only if no
      selected addition holds a comma. */
  lemma DetectApplyCommuteIff(ch: Channel, upstream: seq<string>, mapping: map<string, string>, re: Matcher,
                              add: seq<string>, ignore: seq<string>, remove: seq<string>, now: int)
    requires FreshlyDetected(ch, upstream, mapping, re) && NothingPattern(ch, add, ignore)
    ensures FreshlyDetected(Applied(ch, add, ignore, remove, now), upstream, mapping, re)
            <==> forall x :: x in SelectedAdds(ch, add) ==> ',' !in x
  {
    if forall x :: x in SelectedAdds(ch, add) ==> ',' !in x {
      AddsCommute(ch, upstream, mapping, re, add, ignore, remove, now);
      RemovesCommute(ch, upstream, mapping, re, add, ignore, remove, now);
    } else {
      var x :| x in SelectedAdds(ch, add) && ',' in x;
      CommaIsDetectedAgain(ch, upstream, mapping, re, add, ignore, remove, now, x);
    }
  }

  /** Applying everything that is pending leaves nothing pending, stored or detected. */
  lemma ApplyingAllLeavesNothing(ch: Channel, upstream: seq<string>, mapping: map<string, string>,
                                 re: Matcher, now: int)
    requires FreshlyDetected(ch, upstream, mapping, re)
    requires forall x :: x in ch.detected ==> !IsPattern(x) && ',' !in x
    ensures var ch' := Applied(ch, ch.detected, [], ch.removed, now);
            ch'.detected == [] && ch'.removed == [] && Pending(ch', upstream, mapping, re) == ([], [])
  {
    var ch' := Applied(ch, ch.detected, [], ch.removed, now);
    var a, g, r := SelectedAdds(ch, ch.detected), SelectedIgnores(ch, []), SelectedRemoves(ch, ch.detected, ch.removed);
    PendingIs(ch, upstream, mapping, re);
    NormalStays(ch.detected);
    NormalStays(ch.removed);
    SelectionsAre(ch, upstream, mapping, re, ch.detected, [], ch.removed);
    IntersectIs(ch.detected, ch.detected);
    IntersectIs([], ch.detected);
    IntersectIs(ch.removed, ch.removed);
    SubtractIs(Intersect(ch.removed, ch.removed), a);
    NormalStays(a);
    NormalizeAppend(a, g);
    NormalStays(r);
    SubtractIs(ch.detected, a + g);
    SubtractIs(ch.removed, r);
    FilterNone(ch.detected, x => x !in Normalize(a + g));
    FilterNone(ch.removed, x => x !in Normalize(r));
    DetectApplyCommuteIff(ch, upstream, mapping, re, ch.detected, [], ch.removed, now);
  }

  predicate CommaFree(names: seq<string>) {
    forall x :: x in names ==> ',' !in x
  }

  lemma LocalAfterAuto(ch: Channel, upstream: seq<string>, mapping: map<string, string>, re: Matcher, now: int)
    requires ch.autoSync
    ensures var l, add := Normalize(GetModels(ch.models)), Pending(ch, upstream, mapping, re).0;
            CommaFree(add) ==> Normalize(GetModels(Detected(ch, upstream, mapping, re, true, now).models)) == l + add
  {
    var l, add := Normalize(GetModels(ch.models)), Pending(ch, upstream, mapping, re).0;
    PendingIs(ch, upstream, mapping, re);
    if add != [] && CommaFree(add) {
      AutoAddsAll(ch, upstream, mapping, re);
      StoredNamesHaveNoComma(ch.models);
      NormalAppend(l, add);
      StoredListComesBack(l + add);
    }
  }

  lemma RemovesAfterAuto(l: seq<string>, add: seq<string>, u: seq<string>, mapping: map<string, string>)
    requires forall x :: x in add ==> x in u
    ensures Filter(l + add, x => x !in mapping && x !in u) == Filter(l, x => x !in mapping && x !in u)
  {
    var p := (x: string) => x !in mapping && x !in u;
    FilterAppend(l, add, p);
    FilterNone(add, p);
    FilterSame(l + add, p, x => x !in mapping && x !in u);
    FilterSame(l, p, x => x !in mapping && x !in u);
  }

  lemma CommaStaysAfterAuto(ch: Channel, upstream: seq<string>, mapping: map<string, string>,
                            re: Matcher, now: int, x: string)
    requires ch.autoSync && x in Pending(ch, upstream, mapping, re).0 && ',' in x
    ensures x in Pending(Detected(ch, upstream, mapping, re, true, now), upstream, mapping, re).0
  {
    var ch' := Detected(ch, upstream, mapping, re, true, now);
    PendingIs(ch, upstream, mapping, re);
    PendingIs(ch', upstream, mapping, re);
    StoredNamesHaveNoComma(ch'.models);
  }

  lemma NoAddsAfterAuto(ch: Channel, upstream: seq<string>, mapping: map<string, string>,
                        re: Matcher, now: int, x: string)
    requires ch.autoSync
    ensures CommaFree(Pending(ch, upstream, mapping, re).0) ==>
              x !in Pending(Detected(ch, upstream, mapping, re, true, now), upstream, mapping, re).0
  {
    if CommaFree(Pending(ch, upstream, mapping, re).0) {
      PendingIs(ch, upstream, mapping, re);
      PendingIs(Detected(ch, upstream, mapping, re, true, now), upstream, mapping, re);
      LocalAfterAuto(ch, upstream, mapping, re, now);
    }
  }

  lemma SameRemovesAfterAuto(ch: Channel, upstream: seq<string>, mapping: map<string, string>, re: Matcher, now: int)
    requires ch.autoSync
    ensures CommaFree(Pending(ch, upstream, mapping, re).0) ==>
              Pending(Detected(ch, upstream, mapping, re, true, now), upstream, mapping, re).1
              == Pending(ch, upstream, mapping, re).1
  {
    var l, add := Normalize(GetModels(ch.models)), Pending(ch, upstream, mapping, re).0;
    PendingIs(ch, upstream, mapping, re);
    PendingIs(Detected(ch, upstream, mapping, re, true, now), upstream, mapping, re);
    LocalAfterAuto(ch, upstream, mapping, re, now);
    RemovesAfterAuto(l, add, Normalize(upstream), mapping);
  }

  lemma HeadIsIn(xs: seq<string>)
    ensures xs == [] || exists x :: x in xs
  {
    if xs != [] { assert xs[0] in xs; }
  }

  lemma NothingAfterAuto(ch: Channel, upstream: seq<string>, mapping: map<string, string>, re: Matcher, now: int)
    requires ch.autoSync
    ensures CommaFree(Pending(ch, upstream, mapping, re).0) ==>
              Pending(Detected(ch, upstream, mapping, re, true, now), upstream, mapping, re)
              == ([], Pending(ch, upstream, mapping, re).1)
  {
    if CommaFree(Pending(ch, upstream, mapping, re).0) {
      var add' := Pending(Detected(ch, upstream, mapping, re, true, now), upstream, mapping, re).0;
      forall x ensures x !in add' { NoAddsAfterAuto(ch, upstream, mapping, re, now, x); }
      HeadIsIn(add');
      SameRemovesAfterAuto(ch, upstream, mapping, re, now);
    }
  }

  /** Automatic application during detection leaves no addition pending, for the
      same condition. */
  lemma AutoApplyCommutesIff(ch: Channel, upstream: seq<string>, mapping: map<string, string>, re: Matcher, now: int)
    requires ch.autoSync
    ensures var ch' := Detected(ch, upstream, mapping, re, true, now);
            && ch'.detected == []
            && (FreshlyDetected(ch', upstream, mapping, re)
                <==> CommaFree(Pending(ch, upstream, mapping, re).0))
  {
    if x :| x in Pending(ch, upstream, mapping, re).0 && ',' in x {
      CommaStaysAfterAuto(ch, upstream, mapping, re, now, x);
    } else {
      NothingAfterAuto(ch, upstream, mapping, re, now);
    }
  }
}
