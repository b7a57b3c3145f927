/** The global counters of open body storages, over every interleaving of the atomic
    steps in which storages are created and closed.  A storage is counted in two steps
    (the number, then the size) and uncounted in two; a second close does nothing. */
module CacheCounters {
  import B = BodyStorage

  /** How far a storage has come: the room was checked, its number is counted, it is open,
      a close has won the compare-and-swap, its number is uncounted, its size too. */
  datatype Phase = Checked | Numbered | Open | Closing | Unnumbered | Gone

  datatype Stored = Stored(disk: bool, checked: nat, size: nat, phase: Phase)

  datatype State = State(stored: seq<Stored>, counters: B.Counters)

  datatype Action = Create(disk: bool, checked: nat, size: nat) | Advance(i: nat) | Close(i: nat)

  const EMPTY := State([], B.Counters(0, 0, 0, 0))

  // ------------------------------------------------------------- the steps

  function NumberBy(c: B.Counters, disk: bool, n: int): B.Counters {
    if disk then c.(diskFiles := if n < 0 then B.Lowered(c.diskFiles, -n) else c.diskFiles + n)
    else c.(memoryBuffers := c.memoryBuffers + n)
  }

  function SizeBy(c: B.Counters, disk: bool, n: int): B.Counters {
    if disk then c.(diskUsage := if n < 0 then B.Lowered(c.diskUsage, -n) else c.diskUsage + n)
    else c.(memoryUsage := c.memoryUsage + n)
  }

  function NextPhase(p: Phase): Phase {
    match p
    case Checked => Numbered
    case Numbered => Open
    case Closing => Unnumbered
    case Unnumbered => Gone
    case _ => p
  }

  /** The counter update that a storage's next step performs. */
  function Effect(c: B.Counters, s: Stored): B.Counters {
    match s.phase
    case Checked => NumberBy(c, s.disk, 1)
    case Numbered => SizeBy(c, s.disk, s.size)
    case Closing => NumberBy(c, s.disk, -1)
    case Unnumbered => SizeBy(c, s.disk, 0 - s.size)
    case _ => c
  }

  function WithPhase(st: State, i: nat, p: Phase): State
    requires i < |st.stored|
  {
    st.(stored := st.stored[i := st.stored[i].(phase := p)])
  }

  /** A disk storage is begun only when the size asked for fits under the limit. */
  function Do(st: State, limit: int, a: Action): State {
    match a
    case Create(disk, checked, size) =>
      if disk && st.counters.diskUsage + checked > limit then st
      else st.(stored := st.stored + [Stored(disk, checked, size, Checked)])
    case Advance(i) =>
      if i >= |st.stored| then st
      else WithPhase(st, i, NextPhase(st.stored[i].phase)).(counters := Effect(st.counters, st.stored[i]))
    case Close(i) =>
      if i >= |st.stored| || st.stored[i].phase != Open then st else WithPhase(st, i, Closing)
  }

  function Run(st: State, limit: int, actions: seq<Action>): State
    decreases |actions|
  {
    if actions == [] then st else Run(Do(st, limit, actions[0]), limit, actions[1..])
  }

  // ---------------------------------------------------------- what is counted

  predicate NumberCounts(p: Phase) { p in {Numbered, Open, Closing} }
  predicate SizeCounts(p: Phase) { p in {Open, Closing, Unnumbered} }

  function Total(stored: seq<Stored>, weight: Stored -> int): int {
    if stored == [] then 0 else Total(stored[..|stored| - 1], weight) + weight(stored[|stored| - 1])
  }

  lemma {:induction false} TotalUpdate(stored: seq<Stored>, i: nat, s: Stored, weight: Stored -> int)
    requires i < |stored|
    ensures Total(stored[i := s], weight) == Total(stored, weight) - weight(stored[i]) + weight(s)
  {
    var n := |stored| - 1;
    if i == n {
      assert stored[i := s][..n] == stored[..n];
    } else {
      TotalUpdate(stored[..n], i, s, weight);
      assert stored[i := s][..n] == stored[..n][i := s];
    }
  }

  lemma TotalAppend(stored: seq<Stored>, s: Stored, weight: Stored -> int)
    ensures Total(stored + [s], weight) == Total(stored, weight) + weight(s)
  {
    assert (stored + [s])[..|stored|] == stored;
  }

  /** A member weighs no more than the whole. */
  lemma {:induction false} TotalCovers(stored: seq<Stored>, i: nat, weight: Stored -> int)
    requires i < |stored| && forall s :: weight(s) >= 0
    ensures 0 <= weight(stored[i]) <= Total(stored, weight)
  {
    var n := |stored| - 1;
    TotalNonNegative(stored[..n], weight);
    if i < n { TotalCovers(stored[..n], i, weight); }
  }

  lemma {:induction false} TotalNonNegative(stored: seq<Stored>, weight: Stored -> int)
    requires forall s :: weight(s) >= 0
    ensures Total(stored, weight) >= 0
  {
    if stored != [] { TotalNonNegative(stored[..|stored| - 1], weight); }
  }

  const DISK_FILES := (s: Stored) => if s.disk && NumberCounts(s.phase) then 1 else 0
  const DISK_USAGE := (s: Stored) => if s.disk && SizeCounts(s.phase) then s.size else 0
  const MEMORY_BUFFERS := (s: Stored) => if !s.disk && NumberCounts(s.phase) then 1 else 0
  const MEMORY_USAGE := (s: Stored) => if !s.disk && SizeCounts(s.phase) then s.size else 0

  /** The counters that the storages call for. */
  function Due(stored: seq<Stored>): B.Counters {
    B.Counters(Total(stored, DISK_FILES), Total(stored, DISK_USAGE),
               Total(stored, MEMORY_BUFFERS), Total(stored, MEMORY_USAGE))
  }

  ghost predicate Inv(st: State) {
    st.counters == Due(st.stored)
  }

  /** The lowering of a counter in a step stays at or above zero: the clamp is idle. */
  ghost predicate ClampIdle(c: B.Counters, s: Stored) {
    && (s.disk && s.phase == Closing ==> c.diskFiles - 1 >= 0)
    && (s.disk && s.phase == Unnumbered ==> c.diskUsage - s.size >= 0)
  }

  lemma ClampIsIdle(st: State, i: nat)
    requires Inv(st) && i < |st.stored|
    ensures ClampIdle(st.counters, st.stored[i])
  {
    TotalCovers(st.stored, i, DISK_FILES);
    TotalCovers(st.stored, i, DISK_USAGE);
  }

  lemma DueUpdate(stored: seq<Stored>, i: nat, s: Stored)
    requires i < |stored|
    ensures var was, now := Due(stored), Due(stored[i := s]);
            && now.diskFiles == was.diskFiles - DISK_FILES(stored[i]) + DISK_FILES(s)
            && now.diskUsage == was.diskUsage - DISK_USAGE(stored[i]) + DISK_USAGE(s)
            && now.memoryBuffers == was.memoryBuffers - MEMORY_BUFFERS(stored[i]) + MEMORY_BUFFERS(s)
            && now.memoryUsage == was.memoryUsage - MEMORY_USAGE(stored[i]) + MEMORY_USAGE(s)
  {
    TotalUpdate(stored, i, s, DISK_FILES);
    TotalUpdate(stored, i, s, DISK_USAGE);
    TotalUpdate(stored, i, s, MEMORY_BUFFERS);
    TotalUpdate(stored, i, s, MEMORY_USAGE);
  }

  lemma DoKeepsInv(st: State, limit: int, a: Action)
    requires Inv(st)
    ensures Inv(Do(st, limit, a))
  {
    match a
    case Create(disk, checked, size) =>
      var s := Stored(disk, checked, size, Checked);
      TotalAppend(st.stored, s, DISK_FILES);
      TotalAppend(st.stored, s, DISK_USAGE);
      TotalAppend(st.stored, s, MEMORY_BUFFERS);
      TotalAppend(st.stored, s, MEMORY_USAGE);
    case Advance(i) =>
      if i < |st.stored| {
        ClampIsIdle(st, i);
        DueUpdate(st.stored, i, st.stored[i].(phase := NextPhase(st.stored[i].phase)));
      }
    case Close(i) =>
      if i < |st.stored| { DueUpdate(st.stored, i, st.stored[i].(phase := Closing)); }
  }

  lemma {:induction false} RunKeepsInv(st: State, limit: int, actions: seq<Action>)
    requires Inv(st)
    ensures Inv(Run(st, limit, actions))
    decreases |actions|
  {
    if actions != [] {
      DoKeepsInv(st, limit, actions[0]);
      RunKeepsInv(Do(st, limit, actions[0]), limit, actions[1..]);
    }
  }

  // ------------------------------------------------------------- the theorems

  /** In every interleaving the lowering of the disk counters never meets the clamp. */
  lemma ClampNeverFires(limit: int, actions: seq<Action>, i: nat)
    requires i < |Run(EMPTY, limit, actions).stored|
    ensures var st := Run(EMPTY, limit, actions); ClampIdle(st.counters, st.stored[i])
  {
    RunKeepsInv(EMPTY, limit, actions);
    ClampIsIdle(Run(EMPTY, limit, actions), i);
  }

  /** The storages that are open, of one kind. */
  function OpenOf(stored: seq<Stored>, disk: bool): seq<Stored> {
    if stored == [] then []
    else
      var n := |stored| - 1;
      OpenOf(stored[..n], disk) + if stored[n].disk == disk && stored[n].phase == Open then [stored[n]] else []
  }

  function Sizes(stored: seq<Stored>): nat {
    if stored == [] then 0 else Sizes(stored[..|stored| - 1]) + stored[|stored| - 1].size
  }

  /** No create or close is half counted. */
  predicate Quiet(stored: seq<Stored>) {
    forall i :: 0 <= i < |stored| ==> stored[i].phase in {Checked, Open, Gone}
  }

  lemma {:induction false} DueWhenQuiet(stored: seq<Stored>)
    requires Quiet(stored)
    ensures Due(stored) == B.Counters(|OpenOf(stored, true)|, Sizes(OpenOf(stored, true)),
                                      |OpenOf(stored, false)|, Sizes(OpenOf(stored, false)))
  {
    if stored != [] {
      var n := |stored| - 1;
      DueWhenQuiet(stored[..n]);
      OpenNext(stored, true);
      OpenNext(stored, false);
    }
  }

  lemma OpenNext(stored: seq<Stored>, disk: bool)
    requires stored != []
    ensures var n := |stored| - 1;
            var found := stored[n].disk == disk && stored[n].phase == Open;
            && |OpenOf(stored, disk)| == |OpenOf(stored[..n], disk)| + (if found then 1 else 0)
            && Sizes(OpenOf(stored, disk)) == Sizes(OpenOf(stored[..n], disk)) + (if found then stored[n].size else 0)
  {
    var n := |stored| - 1;
    var before := OpenOf(stored[..n], disk);
    if stored[n].disk == disk && stored[n].phase == Open {
      assert (before + [stored[n]])[..|before|] == before;
    } else {
      assert before + [] == before;
    }
  }

  /** When no create or close is half counted the four counters are the number and the total
      size of the open disk and memory storages, whatever was closed how often. */
  lemma CountersAreExact(limit: int, actions: seq<Action>)
    requires Quiet(Run(EMPTY, limit, actions).stored)
    ensures var st := Run(EMPTY, limit, actions);
            st.counters == B.Counters(|OpenOf(st.stored, true)|, Sizes(OpenOf(st.stored, true)),
                                      |OpenOf(st.stored, false)|, Sizes(OpenOf(st.stored, false)))
  {
    RunKeepsInv(EMPTY, limit, actions);
    DueWhenQuiet(Run(EMPTY, limit, actions).stored);
  }

  // ----------------------------------------------------------------- the limit

  predicate IsPending(s: Stored) {
    s.disk && s.phase in {Checked, Numbered}
  }

  const PENDING := (s: Stored) => if IsPending(s) then 1 else 0

  /** Room that was checked for pending disk storages and is not yet counted in full. */
  const ROOM := (s: Stored) => if IsPending(s) then s.checked else 0

  /** What is asked of a create: at most `together` disk storages are pending at once, itself
      included, and it writes at most `excess` bytes more than were checked.  Closes and
      memory storages may come in between. */
  predicate Permitted(st: State, together: nat, excess: nat, a: Action) {
    a.Create? && a.disk ==> Total(st.stored, PENDING) < together && a.size <= a.checked + excess
  }

  predicate PermittedRun(st: State, limit: int, together: nat, excess: nat, actions: seq<Action>)
    decreases |actions|
  {
    actions == []
    || (Permitted(st, together, excess, actions[0])
        && PermittedRun(Do(st, limit, actions[0]), limit, together, excess, actions[1..]))
  }

  function AtLeastZero(n: int): nat {
    if n < 0 then 0 else n
  }

  /** No room is pending when nothing is. */
  lemma {:induction false} NothingPending(stored: seq<Stored>)
    requires Total(stored, PENDING) == 0
    ensures Total(stored, ROOM) == 0
  {
    if stored != [] {
      var n := |stored| - 1;
      TotalNonNegative(stored[..n], PENDING);
      NothingPending(stored[..n]);
    }
  }

  ghost predicate HonestWrites(stored: seq<Stored>) {
    forall i :: 0 <= i < |stored| && stored[i].disk ==> stored[i].size <= stored[i].checked
  }

  ghost predicate Bounded(st: State, limit: int) {
    st.counters.diskUsage + Total(st.stored, ROOM) <= AtLeastZero(limit) && HonestWrites(st.stored)
  }

  /** A disk create that writes no more than was checked, with none pending or no room at all. */
  predicate Careful(st: State, limit: int, a: Action) {
    a.Create? && a.disk ==> a.size <= a.checked && (limit <= 0 || Total(st.stored, PENDING) == 0)
  }

  lemma CreateKeepsBounded(st: State, limit: int, checked: nat, size: nat)
    requires Inv(st) && Bounded(st, limit) && Careful(st, limit, Create(true, checked, size))
    requires st.counters.diskUsage + checked <= limit
    ensures Bounded(Do(st, limit, Create(true, checked, size)), limit)
  {
    TotalAppend(st.stored, Stored(true, checked, size, Checked), ROOM);
    TotalNonNegative(st.stored, ROOM);
    TotalNonNegative(st.stored, DISK_USAGE);
    if Total(st.stored, PENDING) == 0 { NothingPending(st.stored); }
  }

  lemma DoKeepsBounded(st: State, limit: int, a: Action)
    requires Inv(st) && Bounded(st, limit) && Careful(st, limit, a)
    ensures Bounded(Do(st, limit, a), limit)
  {
    match a
    case Create(disk, checked, size) =>
      if !disk {
        TotalAppend(st.stored, Stored(disk, checked, size, Checked), ROOM);
      } else if st.counters.diskUsage + checked <= limit {
        CreateKeepsBounded(st, limit, checked, size);
      }
    case Advance(i) =>
      if i < |st.stored| { AdvanceKeepsBounded(st, limit, i); }
    case Close(i) =>
      if i < |st.stored| { TotalUpdate(st.stored, i, st.stored[i].(phase := Closing), ROOM); }
  }

  lemma AdvanceKeepsBounded(st: State, limit: int, i: nat)
    requires Inv(st) && Bounded(st, limit) && i < |st.stored|
    ensures Bounded(Do(st, limit, Advance(i)), limit)
  {
    ClampIsIdle(st, i);
    var s := st.stored[i];
    assert s.disk ==> s.size <= s.checked;
    TotalUpdate(st.stored, i, s.(phase := NextPhase(s.phase)), ROOM);
  }

  lemma {:induction false} RunKeepsBounded(st: State, limit: int, together: nat, excess: nat, actions: seq<Action>)
    requires Inv(st) && Bounded(st, limit) && PermittedRun(st, limit, together, excess, actions)
    requires excess == 0 && (together == 1 || limit <= 0)
    ensures Bounded(Run(st, limit, actions), limit)
    decreases |actions|
  {
    if actions != [] {
      TotalNonNegative(st.stored, PENDING);
      DoKeepsInv(st, limit, actions[0]);
      DoKeepsBounded(st, limit, actions[0]);
      RunKeepsBounded(Do(st, limit, actions[0]), limit, together, excess, actions[1..]);
    }
  }

  ghost predicate NoDisk(st: State) {
    forall i :: 0 <= i < |st.stored| ==> !st.stored[i].disk
  }

  lemma {:induction false} NoDiskNoUsage(stored: seq<Stored>)
    requires forall i :: 0 <= i < |stored| ==> !stored[i].disk
    ensures Total(stored, DISK_USAGE) == 0
  {
    if stored != [] { NoDiskNoUsage(stored[..|stored| - 1]); }
  }

  /** With a negative limit, or none permitted, no disk storage is ever begun. */
  lemma {:induction false} RunKeepsNoDisk(st: State, limit: int, together: nat, excess: nat, actions: seq<Action>)
    requires Inv(st) && NoDisk(st) && PermittedRun(st, limit, together, excess, actions)
    requires limit < 0 || together == 0
    ensures Inv(Run(st, limit, actions)) && NoDisk(Run(st, limit, actions))
    decreases |actions|
  {
    if actions != [] {
      TotalNonNegative(st.stored, PENDING);
      NoDiskNoUsage(st.stored);
      DoKeepsInv(st, limit, actions[0]);
      RunKeepsNoDisk(Do(st, limit, actions[0]), limit, together, excess, actions[1..]);
    }
  }

  /** In every permitted run the disk usage stays under the limit. */
  ghost predicate LimitHolds(limit: int, together: nat, excess: nat) {
    forall actions :: PermittedRun(EMPTY, limit, together, excess, actions) ==>
                        Run(EMPTY, limit, actions).counters.diskUsage <= AtLeastZero(limit)
  }

  /** Disk storages are created one at a time and write no more than was checked; or there
      is no room for any. */
  predicate Safe(limit: int, together: nat, excess: nat) {
    limit < 0 || together == 0 || (excess == 0 && (together == 1 || limit == 0))
  }

  lemma UsageStaysUnderLimit(limit: int, together: nat, excess: nat, actions: seq<Action>)
    requires Safe(limit, together, excess) && PermittedRun(EMPTY, limit, together, excess, actions)
    ensures Run(EMPTY, limit, actions).counters.diskUsage <= AtLeastZero(limit)
  {
    var st := Run(EMPTY, limit, actions);
    if limit < 0 || together == 0 {
      RunKeepsNoDisk(EMPTY, limit, together, excess, actions);
      NoDiskNoUsage(st.stored);
    } else {
      RunKeepsBounded(EMPTY, limit, together, excess, actions);
      TotalNonNegative(st.stored, ROOM);
    }
  }

  /** One create that writes a byte more than was checked goes past the limit, as a body can
      that is decompressed after its length was declared. */
  lemma ExcessPastTheLimit(limit: nat, together: nat, excess: nat)
    requires together >= 1 && excess >= 1
    ensures var actions := [Create(true, limit, limit + 1), Advance(0), Advance(0)];
            && PermittedRun(EMPTY, limit, together, excess, actions)
            && Run(EMPTY, limit, actions).counters.diskUsage > limit
  {
    var c, a := Create(true, limit, limit + 1), Advance(0);
    var s1 := Do(EMPTY, limit, c);
    assert s1.stored == [Stored(true, limit, limit + 1, Checked)];
    var s2 := Do(s1, limit, a);
    assert s2.stored == [Stored(true, limit, limit + 1, Numbered)];
    var s3 := Do(s2, limit, a);
    assert s3.counters.diskUsage == limit + 1;
    assert [c, a, a][1..] == [a, a] && [a, a][1..] == [a] && [a][1..] == [];
    assert Run(s2, limit, [a]) == s3 && Run(s1, limit, [a, a]) == s3;
    assert PermittedRun(s2, limit, together, excess, [a]);
    assert PermittedRun(s1, limit, together, excess, [a, a]);
  }

  lemma RunFirst(st: State, limit: int, together: nat, excess: nat, a: Action, rest: seq<Action>)
    ensures Run(st, limit, [a] + rest) == Run(Do(st, limit, a), limit, rest)
    ensures PermittedRun(st, limit, together, excess, [a] + rest)
       <==> Permitted(st, together, excess, a) && PermittedRun(Do(st, limit, a), limit, together, excess, rest)
  {
    assert ([a] + rest)[1..] == rest;
  }

  /** The state after two creates that both checked the empty cache. */
  function BothChecked(limit: nat): State {
    var s := Stored(true, limit, limit, Checked);
    State([s, s], EMPTY.counters)
  }

  lemma BothArePermitted(limit: nat, together: nat, excess: nat, rest: seq<Action>)
    requires together >= 2 && PermittedRun(BothChecked(limit), limit, together, excess, rest)
    ensures var c := Create(true, limit, limit);
            && PermittedRun(EMPTY, limit, together, excess, [c] + ([c] + rest))
            && Run(EMPTY, limit, [c] + ([c] + rest)) == Run(BothChecked(limit), limit, rest)
  {
    var c, s := Create(true, limit, limit), Stored(true, limit, limit, Checked);
    var s1 := Do(EMPTY, limit, c);
    assert s1 == State([s], EMPTY.counters);
    assert Do(s1, limit, c) == BothChecked(limit) by { assert [s] + [s] == [s, s]; }
    assert Total([s], PENDING) == 1 by { TotalAppend([], s, PENDING); assert [] + [s] == [s]; }
    RunFirst(EMPTY, limit, together, excess, c, [c] + rest);
    RunFirst(s1, limit, together, excess, c, rest);
  }

  /** Two creates that check before either is counted go past the limit together. */
  lemma TogetherPastTheLimit(limit: nat, together: nat, excess: nat)
    requires limit > 0 && together >= 2
    ensures var c := Create(true, limit, limit);
            var actions := [c] + ([c] + BothAdvance());
            && PermittedRun(EMPTY, limit, together, excess, actions)
            && Run(EMPTY, limit, actions).counters.diskUsage > limit
  {
    BothCounted(limit, together, excess);
    BothArePermitted(limit, together, excess, BothAdvance());
  }

  function BothAdvance(): seq<Action> {
    [Advance(0), Advance(1), Advance(0), Advance(1)]
  }

  lemma BothCounted(limit: nat, together: nat, excess: nat)
    ensures PermittedRun(BothChecked(limit), limit, together, excess, BothAdvance())
    ensures Run(BothChecked(limit), limit, BothAdvance()).counters.diskUsage == 2 * limit
  {
    var st := BothChecked(limit);
    var s1 := Do(st, limit, Advance(0));
    var s2 := Do(s1, limit, Advance(1));
    var s3 := Do(s2, limit, Advance(0));
    var s4 := Do(s3, limit, Advance(1));
    assert s4.counters.diskUsage == 2 * limit;
    var rest := BothAdvance();
    assert rest[1..] == [Advance(1), Advance(0), Advance(1)];
    assert rest[1..][1..] == [Advance(0), Advance(1)];
    assert rest[1..][1..][1..] == [Advance(1)] && [Advance(1)][1..] == [];
    assert Run(s3, limit, [Advance(1)]) == s4 && PermittedRun(s3, limit, together, excess, [Advance(1)]);
    assert Run(s2, limit, rest[1..][1..]) == s4 && PermittedRun(s2, limit, together, excess, rest[1..][1..]);
    assert Run(s1, limit, rest[1..]) == s4 && PermittedRun(s1, limit, together, excess, rest[1..]);
  }

  /** In all runs with so many disk creates pending at once, writing at most so much more
      than was checked, the limit holds exactly when they come one at a time and write no
      more than was checked (or there is no room for any). */
  lemma LimitHoldsIff(limit: int, together: nat, excess: nat)
    ensures LimitHolds(limit, together, excess) <==> Safe(limit, together, excess)
  {
    if Safe(limit, together, excess) {
      forall actions | PermittedRun(EMPTY, limit, together, excess, actions)
        ensures Run(EMPTY, limit, actions).counters.diskUsage <= AtLeastZero(limit)
      {
        UsageStaysUnderLimit(limit, together, excess, actions);
      }
    } else if excess >= 1 {
      ExcessPastTheLimit(limit, together, excess);
    } else {
      TogetherPastTheLimit(limit, together, excess);
    }
  }

  /** Counting a new storage at once is the same as its two atomic steps, and uncounting
      it afterwards, in two as well, gives back the counters there were. */
  lemma CountedThenUncounted(c: B.Counters, disk: bool, size: nat)
    requires c.diskFiles >= 0 && c.diskUsage >= 0
    ensures var counted := Effect(Effect(c, Stored(disk, size, size, Checked)), Stored(disk, size, size, Numbered));
            && counted == B.Counted(c, disk, size)
            && Effect(Effect(counted, Stored(disk, size, size, Closing)), Stored(disk, size, size, Unnumbered)) == c
  {
  }
}
