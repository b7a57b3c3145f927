/** Channels with several keys.

    The keys are one text; the status, the time and the reason of a disabled key
    sit in maps from the key's position. Deleting keys renumbers the rest. The
    specification is a plain list of records, as get_key_status shows them. */
module MultiKey {
  import opened Basics
  import opened Text

  const ENABLED := 1
  const MANUAL := 2
  const AUTO := 3

  /** What json.Unmarshal makes of a text as an array of raw values. */
  type Json = string -> Option<seq<string>>

  /** The key columns of a channel row. */
  datatype Info = Info(key: string, size: int, status: map<int, int>, times: map<int, int>, reasons: map<int, string>)

  datatype Record = Record(key: string, status: int, time: int, reason: string)

  // ---- Reading -----------------------------------------------------------

  predicate LooksLikeArray(key: string) {
    TrimSpace(key) != "" && TrimSpace(key)[0] == '['
  }

  function Lines(key: string): seq<string> { Split(TrimChar(key, '\n'), '\n') }

  /** Channel.GetKeys. */
  function KeysOf(key: string, json: Json): seq<string> {
    if key == "" then []
    else if LooksLikeArray(key) && json(TrimSpace(key)).Some? then json(TrimSpace(key)).value
    else Lines(key)
  }

  /** The keys Channel.Update counts: it takes an empty array for lines. */
  function CountedKeys(key: string, json: Json): seq<string> {
    if key != "" && KeysOf(key, json) == [] then Lines(key) else KeysOf(key, json)
  }

  function StatusAt(info: Info, i: int): int {
    if i in info.status then info.status[i] else ENABLED
  }

  /** One key as get_key_status shows it. */
  function Shown(info: Info, i: int, key: string): Record {
    var st := StatusAt(info, i);
    Record(key, st,
           if st != ENABLED && i in info.times then info.times[i] else 0,
           if st != ENABLED && i in info.reasons then info.reasons[i] else "")
  }

  function RecordsOf(info: Info, keys: seq<string>): seq<Record> {
    seq(|keys|, i requires 0 <= i < |keys| => Shown(info, i, keys[i]))
  }

  function Records(info: Info, json: Json): seq<Record> {
    RecordsOf(info, KeysOf(info.key, json))
  }

  // ---- Writing -----------------------------------------------------------

  function Below(m: map<int, int>, n: int): map<int, int> {
    map i | i in m && i < n :: m[i]
  }

  /** Channel.Update and the reload after it: an empty key is not written, the
      stored one stays; the size is counted anew and status entries beyond it go. */
  function Saved(stored: Info, edited: Info, json: Json): Info {
    var key := if edited.key != "" then edited.key else stored.key;
    var size := |CountedKeys(key, json)|;
    edited.(key := key, size := size, status := Below(edited.status, size))
  }

  predicate InRange(info: Info, i: int) { 0 <= i < info.size }

  function Disabled(info: Info, i: int, json: Json): Info {
    Saved(info, info.(status := info.status[i := MANUAL]), json)
  }

  function Enabled(info: Info, i: int, json: Json): Info {
    Saved(info, info.(status := info.status - {i}, times := info.times - {i}, reasons := info.reasons - {i}), json)
  }

  function AllEnabled(info: Info, json: Json): Info {
    Saved(info, info.(status := map[], times := map[], reasons := map[]), json)
  }

  predicate SomeEnabled(info: Info) {
    exists i :: 0 <= i < info.size && StatusAt(info, i) == ENABLED
  }

  function DisabledStatus(info: Info, n: int): map<int, int> {
    info.status + map i | 0 <= i < n && StatusAt(info, i) == ENABLED :: MANUAL
  }

  function AllDisabled(info: Info, json: Json): Info {
    Saved(info, info.(status := DisabledStatus(info, info.size)), json)
  }

  /** The entries of the kept positions, renumbered. */
  function Renumbered<T>(m: map<int, T>, kept: seq<int>): map<int, T> {
    map j | 0 <= j < |kept| && kept[j] in m :: m[kept[j]]
  }

  function KeysAt(keys: seq<string>, kept: seq<int>): seq<string>
    requires forall j :: 0 <= j < |kept| ==> 0 <= kept[j] < |keys|
  {
    seq(|kept|, j requires 0 <= j < |kept| => keys[kept[j]])
  }

  /** The positions other than k. */
  function Others(n: nat, k: int): (r: seq<int>)
    ensures forall j :: 0 <= j < |r| ==> 0 <= r[j] < n && r[j] != k
  {
    if n == 0 then [] else if n - 1 == k then Others(n - 1, k) else Others(n - 1, k) + [n - 1]
  }

  /** The positions whose key is not automatically disabled. */
  function NotAuto(info: Info, n: nat): (r: seq<int>)
    ensures |r| <= n && forall j :: 0 <= j < |r| ==> 0 <= r[j] < n && StatusAt(info, r[j]) != AUTO
  {
    if n == 0 then []
    else if StatusAt(info, n - 1) == AUTO then NotAuto(info, n - 1) else NotAuto(info, n - 1) + [n - 1]
  }

  function NotEnabledEntries(status: map<int, int>): map<int, int> {
    map i | i in status && status[i] != ENABLED :: status[i]
  }

  function DisabledEntries<T>(info: Info, m: map<int, T>): map<int, T> {
    map i | i in m && StatusAt(info, i) != ENABLED :: m[i]
  }

  /** What delete_key writes for the kept positions. */
  function DeletedInfo(info: Info, keys: seq<string>, kept: seq<int>): Info
    requires forall j :: 0 <= j < |kept| ==> 0 <= kept[j] < |keys|
  {
    Info(Join(KeysAt(keys, kept), '\n'), |kept|, Renumbered(NotEnabledEntries(info.status), kept),
         Renumbered(info.times, kept), Renumbered(info.reasons, kept))
  }

  /** What delete_disabled_keys writes: times and reasons of enabled keys go as well. */
  function PurgedInfo(info: Info, keys: seq<string>, kept: seq<int>): Info
    requires forall j :: 0 <= j < |kept| ==> 0 <= kept[j] < |keys|
  {
    Info(Join(KeysAt(keys, kept), '\n'), |kept|, Renumbered(NotEnabledEntries(info.status), kept),
         Renumbered(DisabledEntries(info, info.times), kept), Renumbered(DisabledEntries(info, info.reasons), kept))
  }

  /** delete_key, once the index is in range and another key is left. */
  function Deleted(info: Info, keys: seq<string>, kept: seq<int>, json: Json): Info
    requires forall j :: 0 <= j < |kept| ==> 0 <= kept[j] < |keys|
  {
    Saved(info, DeletedInfo(info, keys, kept), json)
  }

  /** delete_disabled_keys, once there is something to delete. */
  function Purged(info: Info, keys: seq<string>, kept: seq<int>, json: Json): Info
    requires forall j :: 0 <= j < |kept| ==> 0 <= kept[j] < |keys|
  {
    Saved(info, PurgedInfo(info, keys, kept), json)
  }

  // ---- The state every action keeps --------------------------------------

  /** The size is the number of keys, the maps stay within it, and enabled keys
      have no time or reason left. */
  predicate Valid(info: Info, json: Json) {
    && KeysOf(info.key, json) != [] && info.size == |KeysOf(info.key, json)|
    && (forall i :: i in info.status ==> InRange(info, i))
    && (forall i :: i in info.times ==> InRange(info, i) && StatusAt(info, i) != ENABLED)
    && (forall i :: i in info.reasons ==> InRange(info, i) && StatusAt(info, i) != ENABLED)
  }

  /** A save counts the keys of the text that is stored then, an empty array as lines, and
      keeps exactly the status entries below that number. */
  lemma SavedIs(stored: Info, edited: Info, json: Json)
    ensures var after := Saved(stored, edited, json);
            && after.key == (if edited.key == "" then stored.key else edited.key)
            && (KeysOf(after.key, json) != [] ==> after.size == |KeysOf(after.key, json)|)
            && (after.key != "" ==> after.size >= 1) && (after.key == "" ==> after.size == 0)
            && (forall i :: i in after.status <==> i in edited.status && i < after.size)
            && (forall i :: i in after.status ==> after.status[i] == edited.status[i])
            && after.times == edited.times && after.reasons == edited.reasons
  {
  }

  lemma SavedSameKey(info: Info, edited: Info, json: Json)
    requires Valid(info, json) && edited.key == info.key
    requires forall i :: i in edited.status ==> InRange(info, i)
    ensures Saved(info, edited, json) == edited.(size := info.size)
  {
    assert Below(edited.status, info.size) == edited.status;
  }

  /** disable_key sets one status and nothing else. */
  lemma DisableRefines(info: Info, i: int, json: Json)
    requires Valid(info, json) && InRange(info, i)
    ensures Valid(Disabled(info, i, json), json)
    ensures var rs := Records(info, json); Records(Disabled(info, i, json), json) == rs[i := rs[i].(status := MANUAL)]
  {
    SavedSameKey(info, info.(status := info.status[i := MANUAL]), json);
  }

  /** enable_key clears one record. */
  lemma EnableRefines(info: Info, i: int, json: Json)
    requires Valid(info, json) && InRange(info, i)
    ensures Valid(Enabled(info, i, json), json)
    ensures var rs := Records(info, json);
            Records(Enabled(info, i, json), json) == rs[i := Record(rs[i].key, ENABLED, 0, "")]
  {
    SavedSameKey(info, info.(status := info.status - {i},
                             times := info.times - {i}, reasons := info.reasons - {i}), json);
  }

  function ClearedRecords(rs: seq<Record>): seq<Record> {
    seq(|rs|, i requires 0 <= i < |rs| => Record(rs[i].key, ENABLED, 0, ""))
  }

  lemma EnableAllRefines(info: Info, json: Json)
    requires Valid(info, json)
    ensures Valid(AllEnabled(info, json), json)
    ensures Records(AllEnabled(info, json), json) == ClearedRecords(Records(info, json))
  {
    SavedSameKey(info, info.(status := map[], times := map[], reasons := map[]), json);
  }

  function DisabledRecords(rs: seq<Record>): seq<Record> {
    seq(|rs|, i requires 0 <= i < |rs| => if rs[i].status == ENABLED then rs[i].(status := MANUAL) else rs[i])
  }

  lemma DisableAllRefines(info: Info, json: Json)
    requires Valid(info, json)
    ensures Valid(AllDisabled(info, json), json)
    ensures Records(AllDisabled(info, json), json) == DisabledRecords(Records(info, json))
  {
    SavedSameKey(info, info.(status := DisabledStatus(info, info.size)), json);
  }

  // ---- Deletion ----------------------------------------------------------

  function RecordsAt(rs: seq<Record>, kept: seq<int>): seq<Record>
    requires forall j :: 0 <= j < |kept| ==> 0 <= kept[j] < |rs|
  {
    seq(|kept|, j requires 0 <= j < |kept| => rs[kept[j]])
  }

  /** The joined text is written, and reads back as the same keys. */
  predicate Reparses(keys: seq<string>, json: Json) {
    var text := Join(keys, '\n'); text != "" && KeysOf(text, json) == keys
  }

  /** Readable before the call: with no value parsed as an array in play, the kept
      keys are single lines and neither the first nor the last is empty. */
  lemma ReparsesIff(keys: seq<string>, json: Json)
    requires keys != []
    ensures var text := Join(keys, '\n');
            Reparses(keys, json) <==>
            if LooksLikeArray(text) && json(TrimSpace(text)).Some? then json(TrimSpace(text)) == Some(keys)
            else (forall i :: 0 <= i < |keys| ==> '\n' !in keys[i]) && keys[0] != "" && keys[|keys| - 1] != ""
  {
    TrimmedRoundTrip(keys, '\n');
    JoinEnds(keys, '\n');
    JoinLast(keys, '\n');
    TrimIsTidy("", IsSpace);
  }

  /** What deletion writes, whichever of the two actions it is. */
  ghost predicate KeepsEntries(info: Info, edited: Info, kept: seq<int>) {
    && edited.status == Renumbered(NotEnabledEntries(info.status), kept)
    && (forall j :: 0 <= j < |kept| && StatusAt(info, kept[j]) != ENABLED ==>
          && (j in edited.times <==> kept[j] in info.times)
          && (kept[j] in info.times ==> edited.times[j] == info.times[kept[j]])
          && (j in edited.reasons <==> kept[j] in info.reasons)
          && (kept[j] in info.reasons ==> edited.reasons[j] == info.reasons[kept[j]]))
    && (forall j :: j in edited.times || j in edited.reasons ==> 0 <= j < |kept| && StatusAt(info, kept[j]) != ENABLED)
  }

  ghost predicate Deletion(info: Info, edited: Info, kept: seq<int>, json: Json) {
    var keys := KeysOf(info.key, json);
    && |kept| < |keys| && (forall j :: 0 <= j < |kept| ==> 0 <= kept[j] < |keys|)
    && edited.key == Join(KeysAt(keys, kept), '\n') && KeepsEntries(info, edited, kept)
  }

  /** A kept position has its own status, time and reason at its new index. */
  lemma KeptIsShown(info: Info, edited: Info, kept: seq<int>, j: nat, key: string)
    requires KeepsEntries(info, edited, kept) && j < |kept|
    ensures StatusAt(edited, j) == StatusAt(info, kept[j]) && Shown(edited, j, key) == Shown(info, kept[j], key)
  {
  }

  /** If the keys read back, the deletion is saved as it was written. */
  lemma DeletionIsSaved(info: Info, edited: Info, kept: seq<int>, json: Json)
    requires Deletion(info, edited, kept, json) && Reparses(KeysAt(KeysOf(info.key, json), kept), json)
    ensures Saved(info, edited, json) == edited.(size := |kept|)
    ensures KeysOf(edited.key, json) == KeysAt(KeysOf(info.key, json), kept) != []
  {
    assert forall i :: i in edited.status ==> 0 <= i < |kept|;
    assert Below(edited.status, |kept|) == edited.status;
  }

  /** If the keys read back, every kept record survives whole. */
  lemma DeletionKeeps(info: Info, edited: Info, kept: seq<int>, json: Json)
    requires Valid(info, json) && Deletion(info, edited, kept, json)
    requires Reparses(KeysAt(KeysOf(info.key, json), kept), json)
    ensures var after := Saved(info, edited, json);
            Valid(after, json) && Records(after, json) == RecordsAt(Records(info, json), kept)
  {
    var keys := KeysOf(info.key, json);
    var left := KeysAt(keys, kept);
    var after := edited.(size := |kept|);
    DeletionIsSaved(info, edited, kept, json);
    forall j: nat | j < |kept|
      ensures StatusAt(after, j) == StatusAt(info, kept[j])
              && Shown(after, j, left[j]) == Shown(info, kept[j], keys[kept[j]])
    {
      KeptIsShown(info, edited, kept, j, left[j]);
    }
  }

  lemma RecordsHaveKeys(info: Info, keys: seq<string>, rs: seq<Record>)
    requires RecordsOf(info, keys) == rs
    ensures |rs| == |keys| && forall j :: 0 <= j < |keys| ==> rs[j].key == keys[j]
  {
    forall j | 0 <= j < |keys| ensures rs[j].key == keys[j] {
      assert RecordsOf(info, keys)[j] == Shown(info, j, keys[j]);
    }
  }

  lemma DeletionRefines(info: Info, edited: Info, kept: seq<int>, json: Json)
    requires Valid(info, json) && Deletion(info, edited, kept, json)
    ensures var keys, after := KeysOf(info.key, json), Saved(info, edited, json);
            && (Records(after, json) == RecordsAt(Records(info, json), kept) <==> Reparses(KeysAt(keys, kept), json))
            && (Reparses(KeysAt(keys, kept), json) ==> Valid(after, json))
  {
    var keys := KeysOf(info.key, json);
    var left := KeysAt(keys, kept);
    var after := Saved(info, edited, json);
    if Records(after, json) == RecordsAt(Records(info, json), kept) {
      RecordsHaveKeys(info, keys, Records(info, json));
      RecordsHaveKeys(after, KeysOf(after.key, json), RecordsAt(Records(info, json), kept));
      assert KeysOf(after.key, json) == left;
    }
    if Reparses(left, json) { DeletionKeeps(info, edited, kept, json); }
  }

  lemma {:induction false} OthersAre(n: nat, k: nat)
    requires k < n
    ensures |Others(n, k)| == n - 1
    ensures forall j :: 0 <= j < n - 1 ==> Others(n, k)[j] == (if j < k then j else j + 1)
  {
    if n - 1 == k {
      OthersBelow(n - 1, k);
    } else {
      OthersAre(n - 1, k);
    }
  }

  lemma {:induction false} OthersBelow(n: nat, k: nat)
    requires n <= k
    ensures |Others(n, k)| == n && forall j :: 0 <= j < n ==> Others(n, k)[j] == j
  {
    if n > 0 { OthersBelow(n - 1, k); }
  }

  lemma {:induction false} NotAutoAre(info: Info, n: nat)
    ensures |NotAuto(info, n)| == n <==> forall i :: 0 <= i < n ==> StatusAt(info, i) != AUTO
  {
    if n > 0 { NotAutoAre(info, n - 1); }
  }

  /** delete_key removes exactly the chosen record, every other key keeping its own
      data at its new index, if and only if the remaining keys read back. */
  lemma DeleteRefinesIff(info: Info, k: int, json: Json)
    requires Valid(info, json) && InRange(info, k)
    ensures var keys, rs := KeysOf(info.key, json), Records(info, json);
            var left := keys[..k] + keys[k + 1..];
            var after := Deleted(info, keys, Others(|keys|, k), json);
            && (Records(after, json) == rs[..k] + rs[k + 1..] <==> Reparses(left, json))
            && (Reparses(left, json) ==> Valid(after, json))
  {
    var keys, rs := KeysOf(info.key, json), Records(info, json);
    OthersAre(|keys|, k);
    var kept := Others(|keys|, k);
    assert KeysAt(keys, kept) == keys[..k] + keys[k + 1..];
    assert RecordsAt(rs, kept) == rs[..k] + rs[k + 1..];
    DeletionRefines(info, DeletedInfo(info, keys, kept), kept, json);
  }

  function WithoutAuto(rs: seq<Record>): seq<Record> {
    if rs == [] then []
    else
      var rest, r := WithoutAuto(rs[..|rs| - 1]), rs[|rs| - 1];
      if r.status == AUTO then rest else rest + [r]
  }

  lemma {:induction false} WithoutAutoAt(info: Info, keys: seq<string>, n: nat)
    requires n <= |keys|
    ensures forall j :: 0 <= j < |NotAuto(info, n)| ==> 0 <= NotAuto(info, n)[j] < |keys|
    ensures WithoutAuto(RecordsOf(info, keys)[..n]) == RecordsAt(RecordsOf(info, keys), NotAuto(info, n))
  {
    if n > 0 {
      WithoutAutoAt(info, keys, n - 1);
      assert RecordsOf(info, keys)[..n][..n - 1] == RecordsOf(info, keys)[..n - 1];
    }
  }

  lemma PurgeKeepsEntries(info: Info, keys: seq<string>, kept: seq<int>)
    requires forall j :: 0 <= j < |kept| ==> 0 <= kept[j] < |keys|
    ensures KeepsEntries(info, PurgedInfo(info, keys, kept), kept)
  {
  }

  /** delete_disabled_keys removes exactly the automatically disabled records if and
      only if the remaining keys read back; in particular one must remain. */
  lemma DeleteDisabledRefinesIff(info: Info, json: Json)
    requires Valid(info, json) && exists i :: InRange(info, i) && StatusAt(info, i) == AUTO
    ensures var keys := KeysOf(info.key, json);
            var kept := NotAuto(info, |keys|);
            var after := Purged(info, keys, kept, json);
            && (Records(after, json) == WithoutAuto(Records(info, json)) <==> Reparses(KeysAt(keys, kept), json))
            && (Reparses(KeysAt(keys, kept), json) ==> Valid(after, json))
  {
    var keys := KeysOf(info.key, json);
    NotAutoAre(info, |keys|);
    var kept := NotAuto(info, |keys|);
    WithoutAutoAt(info, keys, |keys|);
    assert Records(info, json)[..|keys|] == Records(info, json);
    PurgeKeepsEntries(info, keys, kept);
    DeletionRefines(info, PurgedInfo(info, keys, kept), kept, json);
  }

  lemma {:induction false} NoneKept(info: Info, n: nat)
    requires n <= info.size && forall i :: InRange(info, i) ==> StatusAt(info, i) == AUTO
    ensures NotAuto(info, n) == []
  {
    if n > 0 {
      assert InRange(info, n - 1);
      NoneKept(info, n - 1);
    }
  }

  /** When every key is automatically disabled nothing is deleted: the empty text is
      not written, and all the keys come back enabled. */
  lemma DeletingAllRevivesAll(info: Info, json: Json)
    requires Valid(info, json) && forall i :: InRange(info, i) ==> StatusAt(info, i) == AUTO
    ensures NotAuto(info, info.size) == []
    ensures Records(Purged(info, KeysOf(info.key, json), [], json), json) == ClearedRecords(Records(info, json))
  {
    NoneKept(info, info.size);
    assert KeysAt(KeysOf(info.key, json), []) == [];
  }

  // ---- Automatic status changes ------------------------------------------

  /** The first position of a key, or -1. */
  function FirstIndex(keys: seq<string>, key: string): (i: int)
    ensures -1 <= i < |keys| && (i >= 0 ==> keys[i] == key) && (i == -1 <==> key !in keys)
  {
    if keys == [] then -1
    else if keys[0] == key then 0
    else var i := FirstIndex(keys[1..], key); if i < 0 then -1 else i + 1
  }

  /** handlerMultiKeyUpdate for the key that was in use. */
  function AutoUpdated(info: Info, usingKey: string, status: int, reason: string, now: int, json: Json): Info {
    var i := FirstIndex(KeysOf(info.key, json), usingKey);
    if i < 0 then info
    else if status == ENABLED then info.(status := info.status - {i})
    else info.(status := info.status[i := status], times := info.times[i := now], reasons := info.reasons[i := reason])
  }

  lemma AutoDisableRefines(info: Info, usingKey: string, status: int, reason: string, now: int, json: Json)
    requires Valid(info, json) && status != ENABLED
    ensures Valid(AutoUpdated(info, usingKey, status, reason, now, json), json)
    ensures var rs, i := Records(info, json), FirstIndex(KeysOf(info.key, json), usingKey);
            Records(AutoUpdated(info, usingKey, status, reason, now, json), json)
            == if i < 0 then rs else rs[i := Record(usingKey, status, now, reason)]
  {
  }

  /** Re-enabling a key this way leaves its time and reason behind: the state stays
      valid exactly when there are none. */
  lemma AutoEnableIff(info: Info, usingKey: string, reason: string, now: int, json: Json)
    requires Valid(info, json)
    ensures var i := FirstIndex(KeysOf(info.key, json), usingKey);
            Valid(AutoUpdated(info, usingKey, ENABLED, reason, now, json), json)
            <==> i < 0 || (i !in info.times && i !in info.reasons)
  {
    var i := FirstIndex(KeysOf(info.key, json), usingKey);
    var after := AutoUpdated(info, usingKey, ENABLED, reason, now, json);
    assert i >= 0 ==> StatusAt(after, i) == ENABLED;
    assert forall j :: j != i ==> StatusAt(after, j) == StatusAt(info, j);
  }

  /** The stale time and reason resurface when the key is next disabled by hand. */
  lemma StaleReasonShows(info: Info, i: int, json: Json)
    requires KeysOf(info.key, json) != [] && info.size == |KeysOf(info.key, json)| && InRange(info, i)
    requires StatusAt(info, i) == ENABLED && i in info.times && i in info.reasons
    requires forall j :: j in info.status ==> InRange(info, j)
    ensures Records(info, json)[i].reason == ""
    ensures Records(Disabled(info, i, json), json)[i]
         == Record(KeysOf(info.key, json)[i], MANUAL, info.times[i], info.reasons[i])
  {
    assert Below(info.status[i := MANUAL], info.size) == info.status[i := MANUAL];
  }

  // ---- Runs --------------------------------------------------------------

  datatype Action =
    | DisableKey(i: int) | EnableKey(i: int) | EnableAllKeys | DisableAllKeys
    | DeleteKey(i: int) | DeleteDisabledKeys
    | AutoDisable(usingKey: string, status: int, reason: string, now: int)

  function DeleteStep(info: Info, keys: seq<string>, i: int, json: Json): Info {
    var kept := Others(|keys|, i);
    if InRange(info, i) && kept != [] then Deleted(info, keys, kept, json) else info
  }

  function PurgeStep(info: Info, keys: seq<string>, json: Json): Info {
    var kept := NotAuto(info, |keys|);
    if |kept| < |keys| then Purged(info, keys, kept, json) else info
  }

  /** One action on the row, its error answers included. */
  function Do(info: Info, a: Action, json: Json): Info {
    match a
    case DisableKey(i) => if InRange(info, i) then Disabled(info, i, json) else info
    case EnableKey(i) => if InRange(info, i) then Enabled(info, i, json) else info
    case EnableAllKeys => AllEnabled(info, json)
    case DisableAllKeys => if SomeEnabled(info) then AllDisabled(info, json) else info
    case DeleteKey(i) => DeleteStep(info, KeysOf(info.key, json), i, json)
    case DeleteDisabledKeys => PurgeStep(info, KeysOf(info.key, json), json)
    case AutoDisable(key, st, reason, now) =>
      if st == ENABLED then info else AutoUpdated(info, key, st, reason, now, json)
  }

  function KeysIn(rs: seq<Record>): seq<string> {
    seq(|rs|, i requires 0 <= i < |rs| => rs[i].key)
  }

  /** The same action on the list of records. */
  function SpecDo(rs: seq<Record>, a: Action): seq<Record> {
    match a
    case DisableKey(i) => if 0 <= i < |rs| then rs[i := rs[i].(status := MANUAL)] else rs
    case EnableKey(i) => if 0 <= i < |rs| then rs[i := Record(rs[i].key, ENABLED, 0, "")] else rs
    case EnableAllKeys => ClearedRecords(rs)
    case DisableAllKeys => DisabledRecords(rs)
    case DeleteKey(i) => if 0 <= i < |rs| && |rs| > 1 then rs[..i] + rs[i + 1..] else rs
    case DeleteDisabledKeys => WithoutAuto(rs)
    case AutoDisable(key, st, reason, now) =>
      var i := FirstIndex(KeysIn(rs), key);
      if st == ENABLED || i < 0 then rs else rs[i := Record(key, st, now, reason)]
  }

  /** The keys that a deletion leaves read back; other actions leave the text alone. */
  predicate ReadsBack(info: Info, a: Action, json: Json) {
    var keys := KeysOf(info.key, json);
    match a
    case DeleteKey(i) => InRange(info, i) && 0 <= i < |keys| && |keys| > 1 ==> Reparses(keys[..i] + keys[i + 1..], json)
    case DeleteDisabledKeys =>
      |NotAuto(info, |keys|)| < |keys| ==> Reparses(KeysAt(keys, NotAuto(info, |keys|)), json)
    case _ => true
  }

  /** One action on a valid row is the same action on its records, exactly when the keys
      it leaves read back; and then the row stays valid. */
  lemma ActionRefinesIff(info: Info, a: Action, json: Json)
    requires Valid(info, json)
    ensures Records(Do(info, a, json), json) == SpecDo(Records(info, json), a) <==> ReadsBack(info, a, json)
    ensures ReadsBack(info, a, json) ==> Valid(Do(info, a, json), json)
  {
    match a
    case DisableKey(i) => if InRange(info, i) { DisableRefines(info, i, json); }
    case EnableKey(i) => if InRange(info, i) { EnableRefines(info, i, json); }
    case EnableAllKeys => EnableAllRefines(info, json);
    case DisableAllKeys => DisableAllAction(info, json);
    case DeleteKey(i) => DeleteActionIff(info, i, json);
    case DeleteDisabledKeys => DeleteDisabledActionIff(info, json);
    case AutoDisable(key, st, reason, now) =>
      assert KeysIn(Records(info, json)) == KeysOf(info.key, json);
      if st != ENABLED { AutoDisableRefines(info, key, st, reason, now, json); }
  }

  lemma DisableAllAction(info: Info, json: Json)
    requires Valid(info, json)
    ensures var after := Do(info, DisableAllKeys, json);
            Valid(after, json) && Records(after, json) == DisabledRecords(Records(info, json))
  {
    if SomeEnabled(info) {
      DisableAllRefines(info, json);
    } else {
      assert DisabledRecords(Records(info, json)) == Records(info, json);
    }
  }

  /** The key can be deleted: it is there and not the last. */
  predicate Deletable(info: Info, i: int, json: Json) {
    InRange(info, i) && |KeysOf(info.key, json)| > 1
  }

  lemma SomeOthers(n: nat, k: nat)
    requires k < n
    ensures Others(n, k) != [] <==> n > 1
  {
    OthersAre(n, k);
  }

  lemma DeleteOnRow(info: Info, i: int, json: Json)
    requires info.size == |KeysOf(info.key, json)|
    ensures var keys := KeysOf(info.key, json);
            Do(info, DeleteKey(i), json)
            == if Deletable(info, i, json) then Deleted(info, keys, Others(|keys|, i), json) else info
  {
    var keys := KeysOf(info.key, json);
    if InRange(info, i) { SomeOthers(|keys|, i); }
    assert Do(info, DeleteKey(i), json) == DeleteStep(info, keys, i, json);
  }

  lemma PurgeOnRow(info: Info, json: Json)
    ensures Do(info, DeleteDisabledKeys, json) == PurgeStep(info, KeysOf(info.key, json), json)
  {
  }

  lemma DeleteOnRecords(info: Info, i: int, json: Json)
    requires info.size == |KeysOf(info.key, json)|
    ensures var rs := Records(info, json);
            && (Deletable(info, i, json) ==> SpecDo(rs, DeleteKey(i)) == rs[..i] + rs[i + 1..])
            && (!Deletable(info, i, json) ==> SpecDo(rs, DeleteKey(i)) == rs)
  {
    assert |Records(info, json)| == info.size;
  }

  lemma DeleteActionIff(info: Info, i: int, json: Json)
    requires Valid(info, json)
    ensures Records(Do(info, DeleteKey(i), json), json) == SpecDo(Records(info, json), DeleteKey(i))
       <==> ReadsBack(info, DeleteKey(i), json)
    ensures ReadsBack(info, DeleteKey(i), json) ==> Valid(Do(info, DeleteKey(i), json), json)
  {
    DeleteOnRow(info, i, json);
    DeleteOnRecords(info, i, json);
    if Deletable(info, i, json) { DeleteRefinesIff(info, i, json); }
  }

  lemma {:induction false} SomethingKept(info: Info, keys: seq<string>, n: nat)
    requires n <= |keys|
    ensures |WithoutAuto(RecordsOf(info, keys)[..n])| == |NotAuto(info, n)|
    ensures |NotAuto(info, n)| == n ==> WithoutAuto(RecordsOf(info, keys)[..n]) == RecordsOf(info, keys)[..n]
  {
    if n > 0 {
      assert RecordsOf(info, keys)[..n][..n - 1] == RecordsOf(info, keys)[..n - 1];
      SomethingKept(info, keys, n - 1);
    }
  }

  lemma DeleteDisabledActionIff(info: Info, json: Json)
    requires Valid(info, json)
    ensures Records(Do(info, DeleteDisabledKeys, json), json) == WithoutAuto(Records(info, json))
       <==> ReadsBack(info, DeleteDisabledKeys, json)
    ensures ReadsBack(info, DeleteDisabledKeys, json) ==> Valid(Do(info, DeleteDisabledKeys, json), json)
  {
    var keys, rs := KeysOf(info.key, json), Records(info, json);
    assert rs[..|keys|] == rs;
    SomethingKept(info, keys, |keys|);
    if |NotAuto(info, |keys|)| < |keys| {
      NotAutoAre(info, |keys|);
      var i :| 0 <= i < |keys| && StatusAt(info, i) == AUTO;
      assert InRange(info, i);
      DeleteDisabledRefinesIff(info, json);
    }
  }

  function Run(info: Info, actions: seq<Action>, json: Json): Info
    decreases |actions|
  {
    if actions == [] then info else Run(Do(info, actions[0], json), actions[1..], json)
  }

  function SpecRun(rs: seq<Record>, actions: seq<Action>): seq<Record>
    decreases |actions|
  {
    if actions == [] then rs else SpecRun(SpecDo(rs, actions[0]), actions[1..])
  }

  /** What every deletion of the run leaves reads back. */
  predicate ReadsBackAlong(info: Info, actions: seq<Action>, json: Json)
    decreases |actions|
  {
    actions == [] || (ReadsBack(info, actions[0], json)
                      && ReadsBackAlong(Do(info, actions[0], json), actions[1..], json))
  }

  /** Every run of actions on the row is the same run on the list of records, and
      keeps the row valid. */
  lemma {:induction false} RunRefines(info: Info, actions: seq<Action>, json: Json)
    requires Valid(info, json) && ReadsBackAlong(info, actions, json)
    ensures Valid(Run(info, actions, json), json)
    ensures Records(Run(info, actions, json), json) == SpecRun(Records(info, json), actions)
    decreases |actions|
  {
    if actions != [] {
      ActionRefinesIff(info, actions[0], json);
      RunRefines(Do(info, actions[0], json), actions[1..], json);
    }
  }

  // ---- Keys that always read back ----------------------------------------

  /** Keys that are one visible line each and do not open an array. */
  predicate GoodKey(k: string) {
    '\n' !in k && TrimSpace(k) != "" && TrimSpace(k)[0] != '['
  }

  predicate GoodKeys(keys: seq<string>) {
    forall i :: 0 <= i < |keys| ==> GoodKey(keys[i])
  }

  lemma {:induction false} TrimLeftAppend(s: string, t: string, cut: char -> bool)
    requires TrimLeft(s, cut) != ""
    ensures TrimLeft(s + t, cut) == TrimLeft(s, cut) + t
  {
    if s != "" && cut(s[0]) {
      assert (s + t)[1..] == s[1..] + t;
      TrimLeftAppend(s[1..], t, cut);
    }
  }

  lemma TrimSpaceFirst(s: string)
    ensures TrimSpace(s) != "" ==> TrimLeft(s, IsSpace) != "" && TrimSpace(s)[0] == TrimLeft(s, IsSpace)[0]
  {
    TrimRightEnds(TrimLeft(s, IsSpace), IsSpace);
  }

  lemma GoodKeyOpensNoArray(first: string, rest: string)
    requires GoodKey(first)
    ensures first != "" && !LooksLikeArray(first + rest)
  {
    TrimIsTidy("", IsSpace);
    TrimSpaceFirst(first);
    TrimSpaceFirst(first + rest);
    TrimLeftAppend(first, rest, IsSpace);
  }

  /** Any non-empty choice of good keys reads back. */
  lemma GoodKeysReparse(keys: seq<string>, json: Json)
    requires keys != [] && GoodKeys(keys)
    ensures Reparses(keys, json)
  {
    var text, first := Join(keys, '\n'), keys[0];
    var rest := if |keys| > 1 then ['\n'] + Join(keys[1..], '\n') else "";
    assert GoodKey(first) && GoodKey(keys[|keys| - 1]);
    assert text == first + rest;
    GoodKeyOpensNoArray(first, rest);
    GoodKeyOpensNoArray(keys[|keys| - 1], "");
    ReparsesIff(keys, json);
  }

  lemma LeadingLineBreakIsLost(b: string, json: Json)
    requires GoodKey(b)
    ensures KeysOf("\n" + b, json) == [b]
  {
    var text := "\n" + b;
    assert text[1..] == b;
    assert TrimSpace(text) == TrimSpace(b) && TrimChar(text, '\n') == TrimChar(b, '\n');
    GoodKeysReparse([b], json);
    assert !LooksLikeArray(b + "") && b + "" == b by { GoodKeyOpensNoArray(b, ""); }
  }

  lemma EmptyMiddleKeyReadsBack(a: string, b: string, json: Json)
    requires GoodKey(a) && GoodKey(b)
    ensures KeysOf(a + "\n\n" + b, json) == [a, "", b]
  {
    var keys := [a, "", b];
    assert Join(keys, '\n') == a + ("\n\n" + b) by { assert Join(keys[1..], '\n') == "\n" + b; }
    assert a + "\n\n" + b == a + ("\n\n" + b);
    GoodKeyOpensNoArray(a, "\n\n" + b);
    GoodKeyOpensNoArray(b, "");
    ReparsesIff(keys, json);
  }

  lemma WithoutTheFirst(info: Info, b: string, json: Json)
    requires info.size == 3 == |KeysOf(info.key, json)| && KeysOf(info.key, json)[1..] == ["", b]
    ensures Do(info, DeleteKey(0), json).key == "\n" + b
    ensures Do(info, DeleteKey(0), json).size == |CountedKeys("\n" + b, json)|
  {
    var keys, kept := KeysOf(info.key, json), Others(3, 0);
    OthersAre(3, 0);
    assert KeysAt(keys, kept) == keys[1..];
    assert Join(["", b], '\n') == "\n" + b;
    DeleteOnRow(info, 0, json);
    assert Do(info, DeleteKey(0), json) == Deleted(info, keys, kept, json);
  }

  /** Deleting the key before an empty one loses the empty one as well: the rest of
      a row of three reads back as one key. */
  lemma DeletingTakesEmptyNeighbour(a: string, b: string, json: Json)
    requires GoodKey(a) && GoodKey(b)
    ensures var info := Info(a + "\n\n" + b, 3, map[], map[], map[]);
            && Valid(info, json) && KeysOf(info.key, json) == [a, "", b]
            && KeysOf(Do(info, DeleteKey(0), json).key, json) == [b] && Do(info, DeleteKey(0), json).size == 1
  {
    var info := Info(a + "\n\n" + b, 3, map[], map[], map[]);
    EmptyMiddleKeyReadsBack(a, b, json);
    WithoutTheFirst(info, b, json);
    LeadingLineBreakIsLost(b, json);
  }

  /** Whatever is kept of good keys, unless nothing is, is good and reads back. */
  lemma KeptKeysReadBack(keys: seq<string>, kept: seq<int>, json: Json)
    requires forall j :: 0 <= j < |kept| ==> 0 <= kept[j] < |keys|
    requires kept != [] && GoodKeys(keys)
    ensures GoodKeys(KeysAt(keys, kept)) && Reparses(KeysAt(keys, kept), json)
  {
    GoodKeysReparse(KeysAt(keys, kept), json);
  }

  lemma OtherKeys(keys: seq<string>, i: nat)
    requires i < |keys|
    ensures KeysAt(keys, Others(|keys|, i)) == keys[..i] + keys[i + 1..]
    ensures |keys| > 1 ==> Others(|keys|, i) != []
  {
    OthersAre(|keys|, i);
  }

  lemma DeletedReadsBack(info: Info, keys: seq<string>, kept: seq<int>, json: Json)
    requires forall j :: 0 <= j < |kept| ==> 0 <= kept[j] < |keys|
    requires Reparses(KeysAt(keys, kept), json)
    ensures KeysOf(Deleted(info, keys, kept, json).key, json) == KeysAt(keys, kept)
  {
  }

  lemma GoodKeysDelete(info: Info, i: int, json: Json)
    requires Valid(info, json) && GoodKeys(KeysOf(info.key, json))
    ensures ReadsBack(info, DeleteKey(i), json) && GoodKeys(KeysOf(Do(info, DeleteKey(i), json).key, json))
  {
    var keys := KeysOf(info.key, json);
    DeleteOnRow(info, i, json);
    if Deletable(info, i, json) {
      OtherKeys(keys, i);
      KeptKeysReadBack(keys, Others(|keys|, i), json);
      DeletedReadsBack(info, keys, Others(|keys|, i), json);
    }
  }

  lemma GoodKeysPurge(info: Info, json: Json)
    requires Valid(info, json) && GoodKeys(KeysOf(info.key, json))
    requires NotAuto(info, |KeysOf(info.key, json)|) != []
    ensures ReadsBack(info, DeleteDisabledKeys, json)
    ensures GoodKeys(KeysOf(Do(info, DeleteDisabledKeys, json).key, json))
  {
    var keys := KeysOf(info.key, json);
    KeptKeysReadBack(keys, NotAuto(info, |keys|), json);
  }

  /** Good keys stay good, and read back unless all are automatically disabled and to be deleted. */
  lemma GoodKeysStep(info: Info, a: Action, json: Json)
    requires Valid(info, json) && GoodKeys(KeysOf(info.key, json))
    requires a.DeleteDisabledKeys? ==> NotAuto(info, |KeysOf(info.key, json)|) != []
    ensures ReadsBack(info, a, json) && GoodKeys(KeysOf(Do(info, a, json).key, json))
  {
    match a
    case DeleteKey(i) => GoodKeysDelete(info, i, json);
    case DeleteDisabledKeys => GoodKeysPurge(info, json);
    case _ =>
  }

  /** The list never consists of automatically disabled keys alone when those are
      to be deleted. */
  predicate KeepsOne(rs: seq<Record>, actions: seq<Action>)
    decreases |actions|
  {
    actions == [] ||
    ((actions[0].DeleteDisabledKeys? ==> WithoutAuto(rs) != []) && KeepsOne(SpecDo(rs, actions[0]), actions[1..]))
  }

  /** With good keys, what a run leaves can be told from the records alone: every run that
      never deletes all keys at once is the same run on the list of records. */
  lemma {:induction false} GoodKeysReadBackAlong(info: Info, actions: seq<Action>, json: Json)
    requires Valid(info, json) && GoodKeys(KeysOf(info.key, json)) && KeepsOne(Records(info, json), actions)
    ensures ReadsBackAlong(info, actions, json)
    decreases |actions|
  {
    if actions != [] {
      var keys := KeysOf(info.key, json);
      assert Records(info, json)[..|keys|] == Records(info, json);
      SomethingKept(info, keys, |keys|);
      GoodKeysStep(info, actions[0], json);
      ActionRefinesIff(info, actions[0], json);
      GoodKeysReadBackAlong(Do(info, actions[0], json), actions[1..], json);
    }
  }
}
