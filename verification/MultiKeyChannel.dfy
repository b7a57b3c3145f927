/** ManageMultiKeys and the append branch of UpdateChannel as they run: loops that
    rebuild the key list and the position maps. Each is proved to be the
    corresponding step of the MultiKey model. */
module MultiKeyChannel {
  import opened Basics
  import opened Text
  import opened MultiKey

  /** One line of the get_key_status answer. */
  datatype KeyStatus = KeyStatus(index: int, status: int, disabledTime: int, reason: string, keyPreview: string)

  datatype StatusPage = StatusPage(
    keys: seq<KeyStatus>, total: nat, page: int, pageSize: int, totalPages: int,
    enabledCount: nat, manualDisabledCount: nat, autoDisabledCount: nat)

  function Preview(key: string): string {
    if |key| > 10 then key[..10] + "..." else key
  }

  function StatusLine(info: Info, i: int, key: string): KeyStatus {
    var r := Shown(info, i, key); KeyStatus(i, r.status, r.time, r.reason, Preview(key))
  }

  function StatusLines(info: Info, keys: seq<string>): seq<KeyStatus> {
    seq(|keys|, i requires 0 <= i < |keys| => StatusLine(info, i, keys[i]))
  }

  function CountOf(lines: seq<KeyStatus>, status: int): nat {
    if lines == [] then 0
    else CountOf(lines[..|lines| - 1], status) + (if lines[|lines| - 1].status == status then 1 else 0)
  }

  function Filtered(lines: seq<KeyStatus>, status: Option<int>): seq<KeyStatus> {
    if lines == [] then []
    else
      var rest, l := Filtered(lines[..|lines| - 1], status), lines[|lines| - 1];
      if status == None || status == Some(l.status) then rest + [l] else rest
  }

  lemma {:induction false} FilteredAll(lines: seq<KeyStatus>)
    ensures Filtered(lines, None) == lines
  {
    if lines != [] { FilteredAll(lines[..|lines| - 1]); }
  }

  /** The count is that of the lines with the status. */
  lemma {:induction false} CountOfIs(lines: seq<KeyStatus>, status: int)
    ensures CountOf(lines, status) == |Having(lines, status)|
  {
    if lines != [] {
      CountOfIs(lines[..|lines| - 1], status);
      HavingNext(lines, status);
    }
  }

  function Having(lines: seq<KeyStatus>, status: int): set<int> {
    set i | 0 <= i < |lines| && lines[i].status == status
  }

  lemma HavingNext(lines: seq<KeyStatus>, status: int)
    requires lines != []
    ensures var n := |lines| - 1;
            && n !in Having(lines[..n], status)
            && Having(lines, status) == Having(lines[..n], status) + if lines[n].status == status then {n} else {}
  {
    var n := |lines| - 1;
    assert forall i :: 0 <= i < n ==> lines[..n][i] == lines[i];
  }

  /** A filter keeps exactly the lines of the status, and there are as many as counted. */
  lemma {:induction false} FilteredIs(lines: seq<KeyStatus>, status: int)
    ensures |Filtered(lines, Some(status))| == CountOf(lines, status)
    ensures forall l :: l in Filtered(lines, Some(status)) <==> l in lines && l.status == status
  {
    if lines != [] {
      var n := |lines| - 1;
      FilteredIs(lines[..n], status);
      assert lines == lines[..n] + [lines[n]];
    }
  }

  /** What is shown of a key: all of up to ten characters, else the first ten and an ellipsis. */
  lemma PreviewHides(key: string)
    ensures |Preview(key)| <= 13 && (|key| <= 10 ==> Preview(key) == key)
    ensures |key| >= 11 ==> Preview(key) == key[..10] + "..."
  {
  }

  function PageCount(total: nat, pageSize: int): int
    requires pageSize > 0
  {
    var n := (total + pageSize - 1) / pageSize; if n == 0 then 1 else n
  }

  /** The page that is asked for, if it exists. */
  function PageOf(lines: seq<KeyStatus>, page: int, pageSize: int): seq<KeyStatus>
    requires page >= 1 && pageSize > 0
  {
    var start := (page - 1) * pageSize;
    StartIsNat(page, pageSize);
    if start >= |lines| then [] else lines[start..if start + pageSize > |lines| then |lines| else start + pageSize]
  }

  lemma StartIsNat(page: int, pageSize: int)
    requires page >= 1 && pageSize > 0
    ensures (page - 1) * pageSize >= 0
  {
  }

  // ---- The loops ---------------------------------------------------------

  /** Channel.Update: drop the status entries beyond the key count. */
  method DropBeyond(all: map<int, int>, size: int) returns (status: map<int, int>)
    ensures status == Below(all, size)
  {
    status := all;
    while exists idx :: idx in status && idx >= size
      invariant forall i :: i in status ==> i in all && status[i] == all[i]
      invariant forall i :: i in all && i < size ==> i in status
      decreases status.Keys
    {
      var idx :| idx in status && idx >= size;
      status := status - {idx};
    }
    assert forall i :: i in status <==> i in Below(all, size);
  }

  lemma DisabledStatusNext(info: Info, i: nat)
    ensures DisabledStatus(info, i + 1)
            == if StatusAt(info, i) == ENABLED then DisabledStatus(info, i)[i := MANUAL] else DisabledStatus(info, i)
    ensures i in DisabledStatus(info, i) <==> i in info.status
    ensures i in info.status ==> DisabledStatus(info, i)[i] == info.status[i]
  {
    var now, next := DisabledStatus(info, i), DisabledStatus(info, i + 1);
    assert forall j :: j in next <==> j in now || (j == i && StatusAt(info, i) == ENABLED);
  }

  /** How many of the first n positions are enabled. */
  function EnabledCount(info: Info, n: nat): nat {
    if n == 0 then 0 else EnabledCount(info, n - 1) + (if StatusAt(info, n - 1) == ENABLED then 1 else 0)
  }

  lemma {:induction false} SomeAreCounted(info: Info, n: nat)
    ensures EnabledCount(info, n) > 0 <==> exists j :: 0 <= j < n && StatusAt(info, j) == ENABLED
  {
    if n > 0 { SomeAreCounted(info, n - 1); }
  }

  /** disable_all_keys: what the status list becomes, and how many keys it disables. */
  method DisableEnabled(info: Info) returns (status: map<int, int>, disabledCount: nat)
    ensures var n := if info.size < 0 then 0 else info.size;
            status == DisabledStatus(info, n) && disabledCount == EnabledCount(info, n)
  {
    status, disabledCount := info.status, 0;
    var i := 0;
    assert status == DisabledStatus(info, 0);
    while i < info.size
      invariant 0 <= i && (i > 0 ==> i <= info.size)
      invariant status == DisabledStatus(info, i)
      invariant disabledCount == EnabledCount(info, i)
    {
      DisabledStatusNext(info, i);
      var st := ENABLED;
      if i in status { st := status[i]; }
      if st == ENABLED {
        status := status[i := MANUAL];
        disabledCount := disabledCount + 1;
      }
      i := i + 1;
    }
  }

  lemma RenumberedNext<T>(m: map<int, T>, kept: seq<int>, i: int)
    ensures Renumbered(m, kept + [i]) == if i in m then Renumbered(m, kept)[|kept| := m[i]] else Renumbered(m, kept)
  {
    var now := Renumbered(m, kept + [i]);
    forall j | 0 <= j < |kept| ensures (kept + [i])[j] == kept[j] { }
  }

  lemma KeysAtNext(keys: seq<string>, kept: seq<int>, i: int)
    requires (forall j :: 0 <= j < |kept| ==> 0 <= kept[j] < |keys|) && 0 <= i < |keys|
    ensures KeysAt(keys, kept + [i]) == KeysAt(keys, kept) + [keys[i]]
  {
  }

  /** An entry moves to its new position. */
  method CopyEntry<T>(from: map<int, T>, i: int, to: map<int, T>, newIndex: int, ghost kept: seq<int>)
    returns (r: map<int, T>)
    requires newIndex == |kept| && to == Renumbered(from, kept)
    ensures r == Renumbered(from, kept + [i])
  {
    RenumberedNext(from, kept, i);
    r := if i in from then to[newIndex := from[i]] else to;
  }

  /** So does a status, unless it is the one for enabled. */
  method CopyStatus(from: map<int, int>, i: int, to: map<int, int>, newIndex: int, ghost kept: seq<int>)
    returns (r: map<int, int>)
    requires newIndex == |kept| && to == Renumbered(NotEnabledEntries(from), kept)
    ensures r == Renumbered(NotEnabledEntries(from), kept + [i])
  {
    RenumberedNext(NotEnabledEntries(from), kept, i);
    r := if i in from && from[i] != ENABLED then to[newIndex := from[i]] else to;
  }

  /** And a time or reason, unless its key is enabled. */
  method CopyDisabled<T>(info: Info, from: map<int, T>, i: int, to: map<int, T>, newIndex: int, ghost kept: seq<int>)
    returns (r: map<int, T>)
    requires newIndex == |kept| && to == Renumbered(DisabledEntries(info, from), kept)
    ensures r == Renumbered(DisabledEntries(info, from), kept + [i])
  {
    RenumberedNext(DisabledEntries(info, from), kept, i);
    r := if i in info.status && info.status[i] != ENABLED && i in from then to[newIndex := from[i]] else to;
  }

  /** delete_key: everything but position k, renumbered. */
  method KeepOthers(info: Info, keys: seq<string>, k: int)
    returns (remaining: seq<string>, status: map<int, int>, times: map<int, int>, reasons: map<int, string>)
    ensures var kept := Others(|keys|, k);
            && remaining == KeysAt(keys, kept)
            && status == Renumbered(NotEnabledEntries(info.status), kept)
            && times == Renumbered(info.times, kept) && reasons == Renumbered(info.reasons, kept)
  {
    remaining, status, times, reasons := [], map[], map[], map[];
    var newIndex := 0;
    ghost var kept := Others(0, k);
    for i := 0 to |keys|
      invariant kept == Others(i, k) && newIndex == |kept|
      invariant remaining == KeysAt(keys, kept)
      invariant status == Renumbered(NotEnabledEntries(info.status), kept)
      invariant times == Renumbered(info.times, kept) && reasons == Renumbered(info.reasons, kept)
    {
      if i != k {
        remaining := remaining + [keys[i]];
        status := CopyStatus(info.status, i, status, newIndex, kept);
        times := CopyEntry(info.times, i, times, newIndex, kept);
        reasons := CopyEntry(info.reasons, i, reasons, newIndex, kept);
        KeysAtNext(keys, kept, i);
        newIndex, kept := newIndex + 1, kept + [i];
      }
    }
  }

  /** delete_disabled_keys: everything not automatically disabled, renumbered. */
  method KeepNotAuto(info: Info, keys: seq<string>)
    returns (remaining: seq<string>, deletedCount: nat, status: map<int, int>,
             times: map<int, int>, reasons: map<int, string>)
    ensures var kept := NotAuto(info, |keys|);
            && remaining == KeysAt(keys, kept) && deletedCount == |keys| - |kept|
            && status == Renumbered(NotEnabledEntries(info.status), kept)
            && times == Renumbered(DisabledEntries(info, info.times), kept)
            && reasons == Renumbered(DisabledEntries(info, info.reasons), kept)
  {
    remaining, deletedCount, status, times, reasons := [], 0, map[], map[], map[];
    var newIndex := 0;
    ghost var kept := NotAuto(info, 0);
    for i := 0 to |keys|
      invariant kept == NotAuto(info, i) && newIndex == |kept| == i - deletedCount
      invariant remaining == KeysAt(keys, kept)
      invariant status == Renumbered(NotEnabledEntries(info.status), kept)
      invariant times == Renumbered(DisabledEntries(info, info.times), kept)
      invariant reasons == Renumbered(DisabledEntries(info, info.reasons), kept)
    {
      var st := ENABLED;
      if i in info.status { st := info.status[i]; }
      if st == AUTO {
        deletedCount := deletedCount + 1;
      } else {
        remaining := remaining + [keys[i]];
        status := CopyStatus(info.status, i, status, newIndex, kept);
        times := CopyDisabled(info, info.times, i, times, newIndex, kept);
        reasons := CopyDisabled(info, info.reasons, i, reasons, newIndex, kept);
        KeysAtNext(keys, kept, i);
        newIndex, kept := newIndex + 1, kept + [i];
      }
    }
  }

  /** What delete_key writes for an index in range, and whether a key is left. */
  method EditOthers(info: Info, keys: seq<string>, k: int, json: Json) returns (edited: Info, left: bool)
    requires InRange(info, k)
    ensures DeleteStep(info, keys, k, json) == if left then Saved(info, edited, json) else info
    ensures left == (Others(|keys|, k) != [])
  {
    var remaining, status, times, reasons := KeepOthers(info, keys, k);
    edited, left := Info(Join(remaining, '\n'), |remaining|, status, times, reasons), |remaining| > 0;
    assert edited == DeletedInfo(info, keys, Others(|keys|, k));
  }

  /** What delete_disabled_keys writes, if anything, and how many keys it leaves out. */
  method EditNotAuto(info: Info, keys: seq<string>, json: Json) returns (edited: Info, deletedCount: nat)
    ensures PurgeStep(info, keys, json) == if deletedCount > 0 then Saved(info, edited, json) else info
    ensures deletedCount == |keys| - |NotAuto(info, |keys|)|
  {
    var remaining, status, times, reasons;
    remaining, deletedCount, status, times, reasons := KeepNotAuto(info, keys);
    edited := Info(Join(remaining, '\n'), |remaining|, status, times, reasons);
    assert edited == PurgedInfo(info, keys, NotAuto(info, |keys|));
  }

  /** get_key_status: the lines and the statistics over all keys. */
  method BuildLines(info: Info, keys: seq<string>) returns (lines: seq<KeyStatus>, e: nat, m: nat, a: nat)
    ensures lines == StatusLines(info, keys)
    ensures e == CountOf(lines, ENABLED) && m == CountOf(lines, MANUAL) && a == CountOf(lines, AUTO)
  {
    lines, e, m, a := [], 0, 0, 0;
    for i := 0 to |keys|
      invariant lines == StatusLines(info, keys)[..i]
      invariant e == CountOf(lines, ENABLED) && m == CountOf(lines, MANUAL) && a == CountOf(lines, AUTO)
    {
      var status, time, reason := ENABLED, 0, "";
      if i in info.status { status := info.status[i]; }
      match status {
        case 1 => e := e + 1;
        case 2 => m := m + 1;
        case 3 => a := a + 1;
        case _ =>
      }
      if status != ENABLED {
        if i in info.times { time := info.times[i]; }
        if i in info.reasons { reason := info.reasons[i]; }
      }
      var line := KeyStatus(i, status, time, reason, Preview(keys[i]));
      assert line == StatusLines(info, keys)[i];
      assert (lines + [line])[..|lines|] == lines;
      lines := lines + [line];
    }
  }

  method FilterLines(lines: seq<KeyStatus>, filter: Option<int>) returns (shown: seq<KeyStatus>)
    ensures shown == Filtered(lines, filter)
  {
    FilteredAll(lines);
    if filter.None? { return lines; }
    shown := [];
    for i := 0 to |lines|
      invariant shown == Filtered(lines[..i], filter)
    {
      assert lines[..i + 1][..i] == lines[..i];
      if lines[i].status == filter.value { shown := shown + [lines[i]]; }
    }
    assert lines[..|lines|] == lines;
  }

  // ---- Appending keys ----------------------------------------------------

  /** The existing keys as the append branch reads them: a text that opens an array
      but is none counts for nothing. */
  function ExistingKeys(key: string, json: Json): seq<string> {
    if LooksLikeArray(key) then (if json(TrimSpace(key)).Some? then json(TrimSpace(key)).value else [])
    else Lines(key)
  }

  /** The append branch cannot read the stored keys: they open an array but are none. */
  predicate Unread(key: string, json: Json) {
    LooksLikeArray(key) && json(TrimSpace(key)).None?
  }

  /** The append branch sees the channel's keys exactly when it is not so. */
  lemma ExistingKeysIff(key: string, json: Json)
    requires key != ""
    ensures ExistingKeys(key, json) == KeysOf(key, json) <==> !Unread(key, json)
  {
    assert |Lines(key)| >= 1;
  }

  /** What is added: each new trimmed non-empty key that was not present, once. */
  ghost predicate Adds(existing: seq<string>, newKeys: seq<string>, added: seq<string>) {
    && (forall k :: k in added ==> k != "" && TrimSpace(k) == k && Present(newKeys, k) && !Present(existing, k))
    && Distinct(added)
    && (forall k :: Present(newKeys, k) && k != "" ==> Present(existing, k) || k in added)
  }

  /** The existing and the new keys determine what is added, and in what order. */
  lemma AddedIsDetermined(existing: seq<string>, newKeys: seq<string>, a: seq<string>, b: seq<string>)
    requires Adds(existing, newKeys, a) && InOrder(newKeys, |newKeys|, a)
    requires Adds(existing, newKeys, b) && InOrder(newKeys, |newKeys|, b)
    ensures a == b
  {
    SameNamesSameOrder(newKeys, a, b);
  }

  /** The new keys that are added: first occurrences, in order. */
  function NewOnes(existing: seq<string>, newKeys: seq<string>): seq<string> {
    if newKeys == [] then []
    else
      var rest, k := NewOnes(existing, newKeys[..|newKeys| - 1]), TrimSpace(newKeys[|newKeys| - 1]);
      if k == "" || Present(existing, k) || k in rest then rest else rest + [k]
  }

  lemma {:induction false} NewOnesFound(existing: seq<string>, newKeys: seq<string>)
    ensures forall k :: k in NewOnes(existing, newKeys) <==> k != "" && !Present(existing, k) && Present(newKeys, k)
    ensures InOrder(newKeys, |newKeys|, NewOnes(existing, newKeys)) && Distinct(NewOnes(existing, newKeys))
  {
    if newKeys != [] {
      var front := newKeys[..|newKeys| - 1];
      NewOnesFound(existing, front);
      OneMoreName(newKeys, NewOnes(existing, front), NewOnes(existing, newKeys), k => k != "" && !Present(existing, k));
    }
  }

  lemma NewOnesAre(existing: seq<string>, newKeys: seq<string>)
    ensures Adds(existing, newKeys, NewOnes(existing, newKeys))
    ensures InOrder(newKeys, |newKeys|, NewOnes(existing, newKeys))
  {
    NewOnesFound(existing, newKeys);
    forall k | k in NewOnes(existing, newKeys) ensures TrimSpace(k) == k {
      var j :| 0 <= j < |newKeys| && TrimSpace(newKeys[j]) == k;
      TrimIsTidy(newKeys[j], IsSpace);
    }
  }

  method SeenKeys(existing: seq<string>) returns (seen: set<string>)
    ensures forall x :: x in seen <==> x != "" && Present(existing, x)
  {
    seen := {};
    for i := 0 to |existing|
      invariant forall x :: x in seen <==> x != "" && Present(existing[..i], x)
    {
      var normalized := TrimSpace(existing[i]);
      assert existing[..i + 1] == existing[..i] + [existing[i]];
      forall x ensures Present(existing[..i + 1], x) <==> Present(existing[..i], x) || normalized == x {
        PresentNext(existing[..i], existing[i], x);
      }
      if normalized != "" { seen := seen + {normalized}; }
    }
    assert existing[..|existing|] == existing;
  }

  /** The append branch: existing keys stay at their indices. */
  method AppendKeys(existing: seq<string>, newKeys: seq<string>) returns (all: seq<string>)
    ensures all == existing + NewOnes(existing, newKeys)
    ensures Adds(existing, newKeys, all[|existing|..]) && InOrder(newKeys, |newKeys|, all[|existing|..])
  {
    var seen := SeenKeys(existing);
    var deduped: seq<string> := [];
    for n := 0 to |newKeys|
      invariant forall x :: x in seen <==> (x != "" && Present(existing, x)) || x in deduped
      invariant deduped == NewOnes(existing, newKeys[..n])
    {
      var normalized := TrimSpace(newKeys[n]);
      assert newKeys[..n + 1][..n] == newKeys[..n];
      if normalized != "" && normalized !in seen {
        seen := seen + {normalized};
        deduped := deduped + [normalized];
      }
    }
    assert newKeys[..|newKeys|] == newKeys;
    NewOnesAre(existing, newKeys);
    all := existing + deduped;
    assert all[|existing|..] == deduped;
  }

  /** The new keys of an ordinary channel: the trimmed non-empty lines of the text. */
  method InputKeys(text: string) returns (newKeys: seq<string>)
    ensures newKeys == Cleaned(Split(text, '\n'))
  {
    var inputKeys := Split(text, '\n');
    newKeys := [];
    for i := 0 to |inputKeys|
      invariant newKeys == Cleaned(inputKeys[..i])
    {
      var key := TrimSpace(inputKeys[i]);
      assert inputKeys[..i + 1][..i] == inputKeys[..i];
      if key != "" { newKeys := newKeys + [key]; }
    }
    assert inputKeys[..|inputKeys|] == inputKeys;
  }

  /** What the append branch makes of a row that has keys. */
  function Appended(info: Info, newKeys: seq<string>, json: Json): Info {
    var existing := ExistingKeys(info.key, json);
    Saved(info, info.(key := Join(existing + NewOnes(existing, newKeys), '\n')), json)
  }

  function FreshRecords(keys: seq<string>): seq<Record> {
    seq(|keys|, i requires 0 <= i < |keys| => Record(keys[i], ENABLED, 0, ""))
  }

  lemma ReadBackRecords(info: Info, added: seq<string>, json: Json)
    requires Valid(info, json) && Reparses(KeysOf(info.key, json) + added, json)
    ensures var after := Saved(info, info.(key := Join(KeysOf(info.key, json) + added, '\n')), json);
            Valid(after, json) && Records(after, json) == Records(info, json) + FreshRecords(added)
  {
    var all := KeysOf(info.key, json) + added;
    var after := Saved(info, info.(key := Join(all, '\n')), json);
    assert KeysOf(after.key, json) == all;
    assert after.status == info.status;
    forall i | 0 <= i < |all| ensures Shown(after, i, all[i]) == (Records(info, json) + FreshRecords(added))[i] { }
  }

  /** Keys that are in the channel after the save have read back, or nothing was written. */
  lemma SavedKeysReadBack(info: Info, all: seq<string>, json: Json)
    requires all != [] && KeysOf(Saved(info, info.(key := Join(all, '\n')), json).key, json) == all
    ensures Reparses(all, json) || all == [""]
  {
    JoinEnds(all, '\n');
    JoinLast(all, '\n');
  }

  lemma AppendedHaveKeys(info: Info, after: Info, added: seq<string>, json: Json)
    requires Records(after, json) == Records(info, json) + FreshRecords(added)
    ensures KeysOf(after.key, json) == KeysOf(info.key, json) + added
  {
    var all, records := KeysOf(info.key, json) + added, Records(info, json) + FreshRecords(added);
    RecordsHaveKeys(info, KeysOf(info.key, json), Records(info, json));
    RecordsHaveKeys(after, KeysOf(after.key, json), records);
    assert |records| == |all|;
    forall i | 0 <= i < |all| ensures records[i].key == all[i] { }
  }

  lemma AppendedHaveReadBack(info: Info, added: seq<string>, json: Json)
    requires Valid(info, json)
    ensures var all := KeysOf(info.key, json) + added;
            Records(Saved(info, info.(key := Join(all, '\n')), json), json) == Records(info, json) + FreshRecords(added)
            ==> Reparses(all, json) || (all == [""] && added == [])
  {
    var all := KeysOf(info.key, json) + added;
    var after := Saved(info, info.(key := Join(all, '\n')), json);
    if Records(after, json) == Records(info, json) + FreshRecords(added) {
      AppendedHaveKeys(info, after, added, json);
      SavedKeysReadBack(info, all, json);
    }
  }

  lemma NothingAppended(info: Info, json: Json)
    requires Valid(info, json) && KeysOf(info.key, json) == [""]
    ensures Records(Saved(info, info.(key := Join([""], '\n')), json), json) == Records(info, json) + FreshRecords([])
  {
    var after := Saved(info, info.(key := Join([""], '\n')), json);
    assert after.key == info.key && after.status == info.status;
    assert FreshRecords([]) == [];
  }

  /** Once saved, the channel has its old records at their old indices and the
      added keys, enabled, behind them, exactly when the joined keys read back (or
      there was only an empty key and nothing to add). */
  lemma AppendRefinesIff(info: Info, added: seq<string>, json: Json)
    requires Valid(info, json)
    ensures var all := KeysOf(info.key, json) + added;
            var after := Saved(info, info.(key := Join(all, '\n')), json);
            Records(after, json) == Records(info, json) + FreshRecords(added)
            <==> Reparses(all, json) || (all == [""] && added == [])
  {
    var all := KeysOf(info.key, json) + added;
    if Reparses(all, json) {
      ReadBackRecords(info, added, json);
    } else if all == [""] && added == [] {
      assert KeysOf(info.key, json) == [""];
      NothingAppended(info, json);
    } else {
      AppendedHaveReadBack(info, added, json);
    }
  }

  /** Appending to a valid row leaves its records and adds the new keys, enabled, behind
      them exactly when all the keys read back together. But if the stored keys cannot be
      read, the new keys take their place, exactly when they read back. */
  lemma AppendedIs(info: Info, newKeys: seq<string>, json: Json)
    requires Valid(info, json)
    ensures var keys, after := KeysOf(info.key, json), Appended(info, newKeys, json);
            var added := NewOnes(ExistingKeys(info.key, json), newKeys);
            if !Unread(info.key, json) then
              Records(after, json) == Records(info, json) + FreshRecords(added)
              <==> Reparses(keys + added, json) || (keys == [""] && added == [])
            else KeysOf(after.key, json) == added <==> Reparses(added, json)
  {
    ExistingKeysIff(info.key, json);
    var existing := ExistingKeys(info.key, json);
    var added := NewOnes(existing, newKeys);
    if Unread(info.key, json) {
      assert existing + added == added;
      NewOnesAre(existing, newKeys);
      if added != [] { assert added[0] in added; }
      var after := Appended(info, newKeys, json);
      if added != [] && KeysOf(after.key, json) == added { SavedKeysReadBack(info, added, json); }
    } else {
      AppendRefinesIff(info, added, json);
    }
  }

  // ---- The channel object ------------------------------------------------

  class ChannelObject {
    var key: string
    var multiKeySize: int
    var statusList: map<int, int>
    var disabledTime: map<int, int>
    var disabledReason: map<int, string>

    function Value(): Info
      reads this
    {
      Info(key, multiKeySize, statusList, disabledTime, disabledReason)
    }

    /** Channel.Update and the reload. */
    method Update(edited: Info, json: Json)
      modifies this
      ensures Value() == Saved(old(Value()), edited, json)
    {
      if edited.key != "" { key := edited.key; }
      multiKeySize := |CountedKeys(key, json)|;
      statusList := DropBeyond(edited.status, multiKeySize);
      disabledTime, disabledReason := edited.times, edited.reasons;
    }

    /** disable_key, enable_key and enable_all_keys. */
    method Disable(index: Option<int>, json: Json) returns (ok: bool)
      modifies this
      ensures Value() == if index.Some? then Do(old(Value()), DisableKey(index.value), json) else old(Value())
      ensures ok <==> index.Some? && InRange(old(Value()), index.value)
    {
      if index.None? || index.value < 0 || index.value >= multiKeySize { return false; }
      Update(Value().(status := statusList[index.value := MANUAL]), json);
      return true;
    }

    method Enable(index: Option<int>, json: Json) returns (ok: bool)
      modifies this
      ensures Value() == if index.Some? then Do(old(Value()), EnableKey(index.value), json) else old(Value())
      ensures ok <==> index.Some? && InRange(old(Value()), index.value)
    {
      if index.None? || index.value < 0 || index.value >= multiKeySize { return false; }
      var i := index.value;
      Update(Value().(status := statusList - {i}, times := disabledTime - {i}, reasons := disabledReason - {i}), json);
      return true;
    }

    method EnableAll(json: Json) returns (enabledCount: nat)
      modifies this
      ensures Value() == Do(old(Value()), EnableAllKeys, json)
      ensures enabledCount == |old(statusList)|
    {
      enabledCount := |statusList|;
      Update(Value().(status := map[], times := map[], reasons := map[]), json);
    }

    /** disable_all_keys; refused when there is nothing to disable. */
    method DisableAll(json: Json) returns (disabledCount: nat)
      modifies this
      ensures Value() == Do(old(Value()), DisableAllKeys, json)
      ensures disabledCount == EnabledCount(old(Value()), if old(multiKeySize) < 0 then 0 else old(multiKeySize))
      ensures disabledCount > 0 <==> SomeEnabled(old(Value()))
    {
      var status;
      status, disabledCount := DisableEnabled(Value());
      SomeAreCounted(Value(), if multiKeySize < 0 then 0 else multiKeySize);
      if disabledCount > 0 {
        assert multiKeySize > 0;
        Update(Value().(status := status), json);
      }
    }

    /** delete_key; `index` is None when the request names none. */
    method Delete(index: Option<int>, json: Json) returns (ok: bool)
      modifies this
      ensures Value() == if index.Some? then Do(old(Value()), DeleteKey(index.value), json) else old(Value())
      ensures ok <==> index.Some? && InRange(old(Value()), index.value)
                      && Others(|KeysOf(old(key), json)|, index.value) != []
    {
      if index.None? || index.value < 0 || index.value >= multiKeySize { return false; }
      var edited, left := EditOthers(Value(), KeysOf(key, json), index.value, json);
      if !left { return false; }
      Update(edited, json);
      return true;
    }

    /** delete_disabled_keys. */
    method DeleteDisabled(json: Json) returns (deletedCount: nat)
      modifies this
      ensures Value() == Do(old(Value()), DeleteDisabledKeys, json)
      ensures deletedCount == |KeysOf(old(key), json)| - |NotAuto(old(Value()), |KeysOf(old(key), json)|)|
    {
      var edited;
      PurgeOnRow(Value(), json);
      edited, deletedCount := EditNotAuto(Value(), KeysOf(key, json), json);
      if deletedCount > 0 { Update(edited, json); }
    }

    /** UpdateChannel in append mode; `vertex` is what a Vertex channel parses the text
        into, None for other channels. A row without keys takes the text as it is. */
    method Append(text: string, vertex: Option<seq<string>>, json: Json)
      modifies this
      ensures old(key) == "" ==> Value() == Saved(old(Value()), old(Value()).(key := text), json)
      ensures var newKeys := if vertex.Some? then vertex.value else Cleaned(Split(text, '\n'));
              old(key) != "" ==> Value() == Appended(old(Value()), newKeys, json)
    {
      var newText := text;
      if key != "" {
        var newKeys;
        if vertex.Some? { newKeys := vertex.value; } else { newKeys := InputKeys(text); }
        var all := AppendKeys(ExistingKeys(key, json), newKeys);
        newText := Join(all, '\n');
      }
      Update(Value().(key := newText), json);
    }

    /** get_key_status. */
    method GetKeyStatus(filter: Option<int>, askedPage: int, askedSize: int, json: Json) returns (r: StatusPage)
      ensures var lines := StatusLines(Value(), KeysOf(key, json));
              var shown := Filtered(lines, filter);
              && r.pageSize == (if askedSize <= 0 then 50 else askedSize)
              && r.total == |shown| && r.totalPages == PageCount(|shown|, r.pageSize)
              && r.page == (if askedPage <= 0 then 1 else if askedPage > r.totalPages then r.totalPages else askedPage)
              && 1 <= r.page <= r.totalPages
              && r.keys == PageOf(shown, r.page, r.pageSize) && (shown != [] ==> r.keys != [])
              && r.enabledCount == CountOf(lines, ENABLED) && r.manualDisabledCount == CountOf(lines, MANUAL)
              && r.autoDisabledCount == CountOf(lines, AUTO)
    {
      var page, pageSize := if askedPage <= 0 then 1 else askedPage, if askedSize <= 0 then 50 else askedSize;
      var lines, e, m, a := BuildLines(Value(), KeysOf(key, json));
      var shown := FilterLines(lines, filter);
      var totalPages := PageCount(|shown|, pageSize);
      PageCountPositive(|shown|, pageSize);
      if page > totalPages { page := totalPages; }
      var pageLines := CutPage(shown, page, pageSize);
      r := StatusPage(pageLines, |shown|, page, pageSize, totalPages, e, m, a);
    }
  }

  method CutPage(shown: seq<KeyStatus>, page: int, pageSize: int) returns (pageLines: seq<KeyStatus>)
    requires pageSize > 0 && 1 <= page <= PageCount(|shown|, pageSize)
    ensures pageLines == PageOf(shown, page, pageSize) && (shown != [] ==> pageLines != [])
  {
    var start := (page - 1) * pageSize;
    StartIsNat(page, pageSize);
    PageInRange(|shown|, page, pageSize);
    var end := start + pageSize;
    if end > |shown| { end := |shown|; }
    pageLines := [];
    if start < |shown| { pageLines := shown[start..end]; }
  }

  lemma PageCountPositive(total: nat, pageSize: int)
    requires pageSize > 0
    ensures PageCount(total, pageSize) >= 1
  {
    assert (total + pageSize - 1) / pageSize >= 0;
  }

  // ---- Pages -------------------------------------------------------------

  lemma Division(x: nat, d: int)
    requires d > 0
    ensures (x / d) * d <= x < (x / d) * d + d
  {
    assert x == d * (x / d) + x % d;
  }

  lemma TimesMonotone(a: int, b: int, d: int)
    requires a <= b && d > 0
    ensures a * d <= b * d
  {
  }

  /** Every page up to the last starts inside the list, if there is anything. */
  lemma PageInRange(total: nat, page: int, pageSize: int)
    requires pageSize > 0 && 1 <= page <= PageCount(total, pageSize)
    ensures total > 0 ==> (page - 1) * pageSize < total
    ensures PageCount(total, pageSize) * pageSize >= total
  {
    var n := (total + pageSize - 1) / pageSize;
    Division(total + pageSize - 1, pageSize);
    if total > 0 {
      assert n != 0;
      TimesMonotone(page - 1, n - 1, pageSize);
      assert (n - 1) * pageSize == n * pageSize - pageSize;
    }
  }

  function Pages(lines: seq<KeyStatus>, pageSize: int, upTo: nat): seq<KeyStatus>
    requires pageSize > 0
  {
    if upTo == 0 then [] else Pages(lines, pageSize, upTo - 1) + PageOf(lines, upTo, pageSize)
  }

  lemma {:induction false} PagesAreAPrefix(lines: seq<KeyStatus>, pageSize: int, upTo: nat)
    requires pageSize > 0
    ensures Pages(lines, pageSize, upTo) == lines[..if upTo * pageSize > |lines| then |lines| else upTo * pageSize]
  {
    if upTo > 0 {
      PagesAreAPrefix(lines, pageSize, upTo - 1);
      assert upTo * pageSize == (upTo - 1) * pageSize + pageSize;
      StartIsNat(upTo, pageSize);
    }
  }

  /** There is one page of an empty list, and otherwise no page is empty. */
  lemma NoPageToSpare(total: nat, pageSize: int)
    requires pageSize > 0
    ensures total == 0 ==> PageCount(total, pageSize) == 1
    ensures total > 0 ==> (PageCount(total, pageSize) - 1) * pageSize < total <= PageCount(total, pageSize) * pageSize
  {
    PageCountPositive(total, pageSize);
    PageInRange(total, PageCount(total, pageSize), pageSize);
    if total == 0 { assert (pageSize - 1) / pageSize == 0; }
  }

  /** The pages 1 to totalPages, one after the other, are the filtered list. */
  lemma PagesCoverTheList(lines: seq<KeyStatus>, pageSize: int)
    requires pageSize > 0
    ensures PageCount(|lines|, pageSize) >= 0 && Pages(lines, pageSize, PageCount(|lines|, pageSize)) == lines
  {
    PageInRange(|lines|, 1, pageSize);
    PagesAreAPrefix(lines, pageSize, PageCount(|lines|, pageSize));
    assert lines[..|lines|] == lines;
  }
}
