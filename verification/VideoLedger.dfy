/** The poll of one video task and the money it moves.  A poll works on a task that was
    loaded earlier; it can re-price a finished task against the user's balance and refund a
    failed one, and in between it saves the whole row, whatever has become of it since.  The
    ledger balance plus the amount held by the task is followed through any run of polls,
    with snapshots of any age and every write that can fail: what each event adds or loses
    is given exactly, and without failing writes, reversed failures and outdated snapshots
    nothing is lost. */
module VideoLedger {
  import opened Basics

  datatype Status = NotStart | Submitted | Queued | InProgress | Success | Failure | Unknown(name: string)

  datatype Task = Task(status: Status, quota: int, progress: string, start: int, finish: int, reason: string)

  /** What the upstream says about the task. */
  datatype Report = Report(status: Status, url: string, progress: string, reason: string, tokens: int)

  /** The price lookup: whether the data names a model, its ratio if one is set, the
      group (empty when it cannot be found) and the ratio of that group. */
  datatype Pricing = Pricing(named: bool, hasRatio: bool, ratio: real, group: string, groupRatio: real)

  /** Which of the writes go through. */
  datatype Writes = Writes(charge: bool, save: bool, refund: bool)

  datatype Poll = Poll(report: Report, pricing: Pricing, now: int, writes: Writes)

  /** A poll of a task as it was loaded some time before, or the loss of the task's channel,
      on which all its tasks are marked failed. */
  datatype Event = Polled(loaded: Task, poll: Poll) | ChannelLost(saved: bool)

  datatype Ledger = Ledger(row: Task, balance: int)

  // ------------------------------------------------------------ the pure poll

  function Seen(r: Report): Report {
    if r.status == Unknown("") then Report(Failure, "", "", "upstream returned empty status", 0) else r
  }

  predicate Repriced(r: Report, p: Pricing) {
    r.status == Success && r.tokens > 0 && p.named && p.hasRatio && p.ratio > 0.0 && p.group != ""
  }

  function Actual(r: Report, p: Pricing): int {
    Truncate(r.tokens as real * p.ratio * p.groupRatio)
  }

  /** The amount that re-pricing takes from the user; negative when it gives back. */
  function Delta(quota: int, r: Report, p: Pricing, charge: bool): int {
    if Repriced(r, p) && charge then Actual(r, p) - quota else 0
  }

  predicate Known(s: Status) {
    s in {Submitted, Queued, InProgress, Success, Failure}
  }

  predicate Embedded(url: string) {
    |url| > 5 && url[..5] == "data:"
  }

  function Progress(r: Report): string {
    match r.status
    case Failure => "100%"
    case Submitted => if r.progress != "" then r.progress else "10%"
    case Queued => if r.progress != "" then r.progress else "20%"
    case InProgress => if r.progress != "" then r.progress else "30%"
    case _ => if r.progress != "" then r.progress else "100%"
  }

  function Updated(t: Task, r: Report, p: Pricing, now: int, charge: bool): Task {
    Task(r.status,
         t.quota + Delta(t.quota, r, p, charge),
         Progress(r),
         if r.status == InProgress && t.start == 0 then now else t.start,
         if r.status in {Success, Failure} && t.finish == 0 then now else t.finish,
         if r.status == Failure then r.reason
         else if r.status == Success && !Embedded(r.url) then r.url else t.reason)
  }

  /** The refund is asked for once the failure is saved, and rejects negative amounts. */
  predicate Refunds(t: Task, r: Report, w: Writes) {
    r.status == Failure && t.quota != 0 && t.status != Failure && w.save && w.refund && t.quota > 0
  }

  /** A poll of the loaded task: the row is overwritten with what becomes of that. */
  function NextFrom(l: Ledger, loaded: Task, poll: Poll): Ledger {
    var r, w := Seen(poll.report), poll.writes;
    if !Known(r.status) then l
    else Ledger(
      if w.save then Updated(loaded, r, poll.pricing, poll.now, w.charge) else l.row,
      l.balance - Delta(loaded.quota, r, poll.pricing, w.charge) + if Refunds(loaded, r, w) then loaded.quota else 0)
  }

  // ------------------------------------------------------------- the poller

  /** The database side: the row and the user's balance; a write goes through or not. */
  class Store {
    var row: Task
    var balance: int

    function Value(): Ledger
      reads this
    {
      Ledger(row, balance)
    }

    method Increase(amount: int, works: bool) returns (ok: bool)
      modifies this
      ensures ok <==> works && amount >= 0
      ensures Value() == old(Value()).(balance := if ok then old(balance) + amount else old(balance))
    {
      if amount < 0 || !works { return false; }
      balance := balance + amount;
      ok := true;
    }

    method Decrease(amount: int, works: bool) returns (ok: bool)
      modifies this
      ensures ok <==> works && amount >= 0
      ensures Value() == old(Value()).(balance := if ok then old(balance) - amount else old(balance))
    {
      if amount < 0 || !works { return false; }
      balance := balance - amount;
      ok := true;
    }
  }

  /** The task object that a poll works on. */
  class TaskObject {
    var status: Status
    var quota: int
    var progress: string
    var start: int
    var finish: int
    var reason: string

    function Value(): Task
      reads this
    {
      Task(status, quota, progress, start, finish, reason)
    }

    constructor (t: Task)
      ensures Value() == t
    {
      status, quota, progress, start, finish, reason := t.status, t.quota, t.progress, t.start, t.finish, t.reason;
    }

    /** Re-pricing of a finished task against the balance. */
    method Reprice(store: Store, r: Report, p: Pricing, works: bool)
      requires r.status == Success
      modifies this`quota, store
      ensures quota == old(quota) + Delta(old(quota), r, p, works)
      ensures store.Value() == old(store.Value()).(balance := old(store.balance) - Delta(old(quota), r, p, works))
    {
      if r.tokens > 0 && p.named && p.hasRatio && p.ratio > 0.0 && p.group != "" {
        var actual := Truncate(r.tokens as real * p.ratio * p.groupRatio);
        var delta := actual - quota;
        if delta > 0 {
          var ok := store.Decrease(delta, works);
          if ok { quota := actual; }
        } else if delta < 0 {
          var ok := store.Increase(-delta, works);
          if ok { quota := actual; }
        }
      }
    }

    /** What the report makes of the task, money included, and whether it calls for a refund. */
    method Absorb(store: Store, r: Report, p: Pricing, now: int, works: bool) returns (known: bool, shouldRefund: bool)
      modifies this, store
      ensures known <==> Known(r.status)
      ensures known ==> Value() == Updated(old(Value()), r, p, now, works)
      ensures store.Value() == old(store.Value()).(balance := old(store.balance) - Delta(old(quota), r, p, works))
      ensures shouldRefund <==> r.status == Failure && old(quota) != 0 && old(status) != Failure
    {
      var before := status;
      shouldRefund := false;
      status := r.status;
      if r.status == Submitted {
        progress := "10%";
      } else if r.status == Queued {
        progress := "20%";
      } else if r.status == InProgress {
        progress := "30%";
        if start == 0 { start := now; }
      } else if r.status == Success {
        progress := "100%";
        if finish == 0 { finish := now; }
        if !Embedded(r.url) { reason := r.url; }
        Reprice(store, r, p, works);
      } else if r.status == Failure {
        progress := "100%";
        if finish == 0 { finish := now; }
        reason := r.reason;
        if quota != 0 && before != Failure { shouldRefund := true; }
      } else {
        return false, false;
      }
      if r.status != Failure && r.progress != "" { progress := r.progress; }
      known := true;
    }

    /** One poll of a task that was loaded from the store before. */
    method Update(store: Store, poll: Poll) returns (ok: bool)
      modifies this, store
      ensures store.Value() == NextFrom(old(store.Value()), old(Value()), poll)
      ensures ok <==> Known(Seen(poll.report).status)
    {
      var r := poll.report;
      if r.status == Unknown("") { r := Report(Failure, "", "", "upstream returned empty status", 0); }
      var was := quota;
      var known, shouldRefund := Absorb(store, r, poll.pricing, poll.now, poll.writes.charge);
      if !known { return false; }
      if poll.writes.save { store.row := Value(); } else { shouldRefund := false; }
      if shouldRefund {
        var given := store.Increase(was, poll.writes.refund);
      }
      ok := true;
    }
  }

  // ------------------------------------------------------------- the ledger

  /** The amount a task holds: what was charged for it, or nothing once it has failed. */
  function Held(t: Task): int {
    if t.status == Failure then 0 else t.quota
  }

  function Worth(l: Ledger): int {
    l.balance + Held(l.row)
  }

  function React(l: Ledger, e: Event): Ledger {
    match e
    case Polled(loaded, poll) => NextFrom(l, loaded, poll)
    case ChannelLost(saved) =>
      if saved then l.(row := l.row.(status := Failure, progress := "100%",
                                     reason := "Failed to get channel info")) else l
  }

  function Run(l: Ledger, events: seq<Event>): Ledger
    decreases |events|
  {
    if events == [] then l else Run(React(l, events[0]), events[1..])
  }

  /** The row is not saved after money has moved. */
  predicate SaveLost(t: Task, poll: Poll) {
    !poll.writes.save && Delta(t.quota, Seen(poll.report), poll.pricing, poll.writes.charge) != 0
  }

  /** A failure is saved and its refund is not made. */
  predicate RefundLost(t: Task, poll: Poll) {
    && Seen(poll.report).status == Failure && t.status != Failure && t.quota != 0
    && poll.writes.save && !(poll.writes.refund && t.quota > 0)
  }

  /** A failed task with an amount on it is reported as not failed after all. */
  predicate Revived(t: Task, poll: Poll) {
    && t.status == Failure && t.quota != 0 && poll.writes.save
    && Known(Seen(poll.report).status) && Seen(poll.report).status != Failure
  }

  /** The channel is gone: the task fails and no refund is even tried. */
  predicate Dropped(t: Task, saved: bool) {
    saved && t.status != Failure && t.quota != 0
  }

  /** The event leaks even if its task is up to date. */
  predicate Leaks(l: Ledger, e: Event) {
    match e
    case Polled(t, poll) => SaveLost(t, poll) || RefundLost(t, poll) || Revived(t, poll)
    case ChannelLost(saved) => Dropped(l.row, saved)
  }

  /** A row is overwritten that holds another amount than the task did when it was loaded. */
  predicate Outdated(l: Ledger, e: Event) {
    && e.Polled? && Known(Seen(e.poll.report).status) && e.poll.writes.save
    && Held(e.loaded) != Held(l.row)
  }

  /** What a leak adds to the balance and the amount held together. */
  function Leaked(l: Ledger, e: Event): int {
    if !Leaks(l, e) then 0
    else if e.ChannelLost? then -l.row.quota
    else if SaveLost(e.loaded, e.poll) then
      -Delta(e.loaded.quota, Seen(e.poll.report), e.poll.pricing, e.poll.writes.charge)
    else if RefundLost(e.loaded, e.poll) then -e.loaded.quota
    else e.loaded.quota
  }

  /** What an event adds to the balance and the amount held together: what leaks, and the
      difference between the amounts on the loaded task and on the row it overwrites. */
  function Drift(l: Ledger, e: Event): int {
    Leaked(l, e) + if Outdated(l, e) then Held(e.loaded) - Held(l.row) else 0
  }

  lemma LeaksSome(l: Ledger, e: Event)
    ensures Leaked(l, e) == 0 <==> !Leaks(l, e)
  {
  }

  lemma PollDrifts(l: Ledger, loaded: Task, poll: Poll)
    ensures Worth(NextFrom(l, loaded, poll)) == Worth(l) + Drift(l, Polled(loaded, poll))
  {
    var r := Seen(poll.report);
    if Known(r.status) {
      if poll.writes.save {
        assert NextFrom(l, loaded, poll).row == Updated(loaded, r, poll.pricing, poll.now, poll.writes.charge);
      } else {
        assert NextFrom(l, loaded, poll).row == l.row;
      }
    }
  }

  /** What an event does to the balance and the amount held together, whatever it loaded and
      whichever writes fail.  If it does not leak they stay exactly when it is not outdated,
      if it is not outdated they stay exactly when it does not leak, and if it does both
      they stay exactly when the two amounts cancel. */
  lemma ConservesIff(l: Ledger, e: Event)
    ensures Worth(React(l, e)) == Worth(l) + Drift(l, e)
    ensures !Leaks(l, e) ==> (Worth(React(l, e)) == Worth(l) <==> !Outdated(l, e))
    ensures !Outdated(l, e) ==> (Worth(React(l, e)) == Worth(l) <==> !Leaks(l, e))
    ensures Leaks(l, e) && Outdated(l, e) ==>
              (Worth(React(l, e)) == Worth(l) <==> Leaked(l, e) == Held(l.row) - Held(e.loaded))
  {
    LeaksSome(l, e);
    if e.Polled? { PollDrifts(l, e.loaded, e.poll); }
  }

  /** The price that a poll leaves on a finished task: tokens times model ratio times group
      ratio when all of these are known and the charge goes through, else the price it had.
      The balance moves by the difference to the price on the task that was loaded. */
  lemma FinishedPrice(l: Ledger, loaded: Task, poll: Poll)
    requires poll.report.status == Success
    ensures var r, p, next := poll.report, poll.pricing, NextFrom(l, loaded, poll);
            var price := loaded.quota + l.balance - next.balance;
            && (if r.tokens > 0 && p.named && p.hasRatio && p.ratio > 0.0 && p.group != "" && poll.writes.charge
                then Cut(price, r.tokens as real * p.ratio * p.groupRatio) else price == loaded.quota)
            && (if poll.writes.save then next.row.quota == price && next.row.status == Success else next.row == l.row)
  {
    CutIsTruncate(poll.report.tokens as real * poll.pricing.ratio * poll.pricing.groupRatio);
  }

  /** Until a task is finished or fails, a poll moves no money. */
  lemma UnfinishedIsFree(l: Ledger, loaded: Task, poll: Poll)
    requires poll.report.status !in {Success, Failure, Unknown("")}
    ensures var next := NextFrom(l, loaded, poll);
            next.balance == l.balance && (next.row == l.row || next.row.quota == loaded.quota)
  {
  }

  /** What a saved poll shows: a failure with its reason, at 100%; else the progress that was
      reported or the usual one of the status, and once finished the address of the video
      unless that is embedded data. */
  lemma PollShows(l: Ledger, loaded: Task, poll: Poll)
    requires poll.writes.save && poll.report.status in {Submitted, Queued, InProgress, Success, Failure}
    ensures var r, row := poll.report, NextFrom(l, loaded, poll).row;
            && row.status == r.status
            && row.progress == (if r.status == Failure then "100%" else if r.progress != "" then r.progress
                                else if r.status == Submitted then "10%" else if r.status == Queued then "20%"
                                else if r.status == InProgress then "30%" else "100%")
            && (r.status == Failure ==> row.reason == r.reason)
            && (r.status == Success && !("data:" < r.url) ==> row.reason == r.url)
            && (r.status == Success && "data:" < r.url ==> row.reason == loaded.reason)
            && (r.status in {Submitted, Queued, InProgress} ==> row.reason == loaded.reason)
  {
    if "data:" < poll.report.url { assert poll.report.url[..5] == "data:"; }
    if Embedded(poll.report.url) { assert "data:" < poll.report.url; }
  }

  /** An answer without a status is a failure. */
  lemma NoStatusIsFailure(l: Ledger, loaded: Task, poll: Poll)
    requires poll.writes.save && poll.report.status == Unknown("")
    ensures NextFrom(l, loaded, poll).row.status == Failure && NextFrom(l, loaded, poll).row.quota == loaded.quota
  {
  }

  /** The time of the first poll that reports one of the statuses, or zero. */
  function FirstTime(events: seq<Event>, statuses: set<Status>): int {
    if events == [] then 0
    else if events[0].Polled? && events[0].poll.report.status in statuses then events[0].poll.now
    else FirstTime(events[1..], statuses)
  }

  /** Polls of the current row, all saved, at times that are not zero. */
  predicate Current(l: Ledger, events: seq<Event>)
    decreases |events|
  {
    events == []
    || ((events[0].Polled? ==> events[0].loaded == l.row && events[0].poll.writes.save && events[0].poll.now != 0)
        && Current(React(l, events[0]), events[1..]))
  }

  /** Over any such run the start is the time of the first report of progress and the finish
      that of the first success or failure, unless they were set before. */
  lemma {:induction false} TimesAreFirst(l: Ledger, events: seq<Event>)
    requires Current(l, events)
    ensures var row := Run(l, events).row;
            && row.start == (if l.row.start != 0 then l.row.start else FirstTime(events, {InProgress}))
            && row.finish == (if l.row.finish != 0 then l.row.finish
                              else FirstTime(events, {Success, Failure, Unknown("")}))
    decreases |events|
  {
    if events != [] { TimesAreFirst(React(l, events[0]), events[1..]); }
  }

  predicate NoLeaks(l: Ledger, events: seq<Event>)
    decreases |events|
  {
    events == []
    || (!Leaks(l, events[0]) && !Outdated(l, events[0]) && NoLeaks(React(l, events[0]), events[1..]))
  }

  function TotalDrift(l: Ledger, events: seq<Event>): int
    decreases |events|
  {
    if events == [] then 0 else Drift(l, events[0]) + TotalDrift(React(l, events[0]), events[1..])
  }

  /** Over any run the books differ by exactly what leaked and what was overwritten. */
  lemma {:induction false} RunDrifts(l: Ledger, events: seq<Event>)
    ensures Worth(Run(l, events)) == Worth(l) + TotalDrift(l, events)
    ensures NoLeaks(l, events) ==> TotalDrift(l, events) == 0
    decreases |events|
  {
    if events != [] {
      ConservesIff(l, events[0]);
      LeaksSome(l, events[0]);
      RunDrifts(React(l, events[0]), events[1..]);
    }
  }

  // ------------------------------------------------------ snapshots over a run

  /** Every poll works on a row that the store held at some time before. */
  predicate Loaded(seen: set<Task>, l: Ledger, events: seq<Event>)
    decreases |events|
  {
    events == []
    || ((events[0].Polled? ==> events[0].loaded in seen + {l.row})
        && Loaded(seen + {l.row}, React(l, events[0]), events[1..]))
  }

  const WORKING := Writes(true, true, true)

  /** Events with every write working, no channel lost, and no failed task reported as not
      failed: the conditions under which the books are promised to balance. */
  predicate Orderly(e: Event) {
    && e.Polled? && e.poll.writes == WORKING && e.poll.pricing.groupRatio >= 0.0
    && (e.loaded.status == Failure && Known(Seen(e.poll.report).status) ==> Seen(e.poll.report).status == Failure)
  }

  predicate AllOrderly(events: seq<Event>) {
    forall i :: 0 <= i < |events| ==> Orderly(events[i])
  }

  /** No poll overwrites a row that holds another amount than its own task. */
  predicate UpToDate(l: Ledger, events: seq<Event>)
    decreases |events|
  {
    events == [] || (!Outdated(l, events[0]) && UpToDate(React(l, events[0]), events[1..]))
  }

  lemma ActualIsPositive(r: Report, p: Pricing)
    requires Repriced(r, p) && p.groupRatio >= 0.0
    ensures Actual(r, p) >= 0
  {
    var tokens := r.tokens as real * p.ratio;
    assert tokens >= 0.0;
    assert tokens * p.groupRatio >= 0.0;
  }

  lemma OrderlyKeepsQuota(l: Ledger, e: Event)
    requires Orderly(e) && l.row.quota >= 0 && e.loaded.quota >= 0
    ensures React(l, e).row.quota >= 0
    ensures !Leaks(l, e)
  {
    var r := Seen(e.poll.report);
    if Repriced(r, e.poll.pricing) { ActualIsPositive(r, e.poll.pricing); }
  }

  ghost predicate NoneNegative(seen: set<Task>) {
    forall t :: t in seen ==> t.quota >= 0
  }

  lemma {:induction false} OrderlyRunDoesNotLeak(seen: set<Task>, l: Ledger, events: seq<Event>)
    requires Loaded(seen, l, events) && AllOrderly(events) && UpToDate(l, events)
    requires NoneNegative(seen + {l.row})
    ensures NoLeaks(l, events)
    decreases |events|
  {
    if events != [] {
      OrderlyKeepsQuota(l, events[0]);
      assert forall i :: 0 <= i < |events[1..]| ==> events[1..][i] == events[i + 1];
      OrderlyRunDoesNotLeak(seen + {l.row}, React(l, events[0]), events[1..]);
    }
  }

  /** Over any orderly run of polls, each of a row that the store held before and that holds
      the same amount still, the balance plus the amount held is constant; so a task that
      ends failed, after whatever re-pricing, has given back all that it was charged, once. */
  lemma BooksBalance(l: Ledger, events: seq<Event>)
    requires Loaded({}, l, events) && AllOrderly(events) && UpToDate(l, events) && l.row.quota >= 0
    ensures Worth(Run(l, events)) == Worth(l)
    ensures l.row.status != Failure && Run(l, events).row.status == Failure ==>
              Run(l, events).balance == l.balance + l.row.quota
  {
    OrderlyRunDoesNotLeak({}, l, events);
    RunDrifts(l, events);
  }

  // -------------------------------------------------- how old a snapshot may be

  /** The task is one of the last rows, at most `age` back from the current one. */
  ghost predicate Within(rows: seq<Task>, age: nat, t: Task) {
    exists i :: 0 <= i < |rows| && |rows| - 1 - age <= i && rows[i] == t
  }

  /** Every poll works on a row that was current at most `age` events before it; `rows` are
      the rows so far, the last of them the current one. */
  ghost predicate LoadedWithin(age: nat, rows: seq<Task>, l: Ledger, events: seq<Event>)
    decreases |events|
  {
    events == []
    || ((events[0].Polled? ==> Within(rows, age, events[0].loaded))
        && var next := React(l, events[0]);
        LoadedWithin(age, rows + [next.row], next, events[1..]))
  }

  /** Over every orderly run with snapshots of that age the books balance. */
  ghost predicate BalancesWithin(age: nat, l: Ledger) {
    forall events :: AllOrderly(events) && LoadedWithin(age, [l.row], l, events) ==> Worth(Run(l, events)) == Worth(l)
  }

  lemma {:induction false} CurrentIsUpToDate(seen: set<Task>, rows: seq<Task>, l: Ledger, events: seq<Event>)
    requires rows != [] && rows[|rows| - 1] == l.row && LoadedWithin(0, rows, l, events)
    ensures Loaded(seen, l, events) && UpToDate(l, events)
    decreases |events|
  {
    if events != [] {
      var next := React(l, events[0]);
      CurrentIsUpToDate(seen + {l.row}, rows + [next.row], next, events[1..]);
    }
  }

  const FREE := Pricing(false, false, 0.0, "", 0.0)

  function FailedPoll(t: Task): Event {
    Polled(t, Poll(Report(Failure, "", "", "", 0), FREE, 0, WORKING))
  }

  /** Two polls that loaded the task before either saved, both hearing that it failed: with
      every write working they refund it twice. */
  lemma StaleFailureRefundsTwice(t: Task, balance: int)
    requires t.status != Failure && t.quota > 0
    ensures var l := Run(Ledger(t, balance), [FailedPoll(t), FailedPoll(t)]);
            l.balance == Worth(l) == balance + 2 * t.quota
  {
    var l, e := Ledger(t, balance), FailedPoll(t);
    assert [e, e][1..] == [e] && [e][1..] == [];
    var l1 := React(l, e);
    assert l1.balance == balance + t.quota && Held(l1.row) == 0;
    assert Run(l, [e, e]) == Run(l1, [e]) == React(l1, e);
  }

  /** A poll that finds the task finished for one more than was charged. */
  function DearerPoll(t: Task): Event
    requires t.quota >= 0
  {
    Polled(t, Poll(Report(Success, "", "", "", t.quota + 1), Pricing(true, true, 1.0, "g", 1.0), 0, WORKING))
  }

  /** Two such polls that loaded the task before either saved charge the difference twice. */
  lemma StaleRepricingChargesTwice(t: Task, balance: int)
    requires t.status != Failure && t.quota >= 0
    ensures Worth(Run(Ledger(t, balance), [DearerPoll(t), DearerPoll(t)])) == Worth(Ledger(t, balance)) - 1
  {
    var l, e := Ledger(t, balance), DearerPoll(t);
    assert [e, e][1..] == [e] && [e][1..] == [];
    var r, p := e.poll.report, e.poll.pricing;
    assert r.tokens as real * p.ratio * p.groupRatio == r.tokens as real;
    assert Delta(t.quota, r, p, true) == 1;
    var l1 := React(l, e);
    assert l1.balance == balance - 1;
    assert Run(l, [e, e]) == Run(l1, [e]) == React(l1, e);
  }

  /** The same poll twice works on snapshots that are at most one event old. */
  lemma TwiceIsRecent(l: Ledger, e: Event, age: nat)
    requires age >= 1 && Orderly(e) && e.loaded == l.row
    ensures AllOrderly([e, e]) && LoadedWithin(age, [l.row], l, [e, e])
  {
    var l1 := React(l, e);
    var rows := [l.row] + [l1.row];
    assert [e, e][1..] == [e] && [e][1..] == [];
    assert [l.row][0] == e.loaded && rows[0] == e.loaded;
    assert LoadedWithin(age, rows + [React(l1, e).row], React(l1, e), []);
    assert LoadedWithin(age, rows, l1, [e]);
  }

  /** A task that has failed stays so, and nothing moves. */
  lemma {:induction false} FailedStays(age: nat, rows: seq<Task>, l: Ledger, events: seq<Event>)
    requires AllOrderly(events) && LoadedWithin(age, rows, l, events) && l.row.status == Failure
    requires forall i :: 0 <= i < |rows| ==> rows[i].status == Failure
    ensures Worth(Run(l, events)) == Worth(l)
    decreases |events|
  {
    if events != [] {
      var next := React(l, events[0]);
      assert forall i :: 0 <= i < |events[1..]| ==> events[1..][i] == events[i + 1];
      assert next.row.status == Failure && next.balance == l.balance;
      FailedStays(age, rows + [next.row], next, events[1..]);
    }
  }

  /** One poll of the current row is a run with snapshots of any age. */
  lemma OnceIsRecent(l: Ledger, e: Event, age: nat)
    requires Orderly(e) && e.loaded == l.row
    ensures AllOrderly([e]) && LoadedWithin(age, [l.row], l, [e])
  {
    assert [e][1..] == [] && [l.row][0] == e.loaded;
    assert LoadedWithin(age, [l.row] + [React(l, e).row], React(l, e), []);
  }

  /** Over all orderly runs with snapshots of a given age the books balance exactly when the
      task has failed already, or that age is zero, so that each poll works on the current
      row, and the amount on the task is not negative, so that it can be refunded. */
  lemma BalancesWithinIff(age: nat, l: Ledger)
    ensures BalancesWithin(age, l) <==> l.row.status == Failure || (age == 0 && l.row.quota >= 0)
  {
    if l.row.status == Failure {
      forall events | AllOrderly(events) && LoadedWithin(age, [l.row], l, events)
        ensures Worth(Run(l, events)) == Worth(l)
      {
        FailedStays(age, [l.row], l, events);
      }
    } else if l.row.quota < 0 {
      var e := FailedPoll(l.row);
      OnceIsRecent(l, e, age);
      assert [e][1..] == [] && Run(l, [e]) == React(l, e);
      ConservesIff(l, e);
    } else if age == 0 {
      forall events | AllOrderly(events) && LoadedWithin(age, [l.row], l, events)
        ensures Worth(Run(l, events)) == Worth(l)
      {
        CurrentIsUpToDate({}, [l.row], l, events);
        BooksBalance(l, events);
      }
    } else {
      TwiceIsRecent(l, DearerPoll(l.row), age);
      StaleRepricingChargesTwice(l.row, l.balance);
    }
  }

  /** A row that is not saved after a charge is charged again by the next poll, although
      that works on the current row. */
  lemma SaveLostChargesTwice(t: Task, balance: int, r: Report, p: Pricing)
    requires t.status == InProgress && t.quota == 0 && Repriced(r, p) && Actual(r, p) > 0
    ensures var first := Polled(t, Poll(r, p, 0, Writes(true, false, true)));
            var second := Polled(t, Poll(r, p, 0, WORKING));
            && React(Ledger(t, balance), first).row == t
            && Worth(Run(Ledger(t, balance), [first, second])) == balance - Actual(r, p)
  {
    var first := Polled(t, Poll(r, p, 0, Writes(true, false, true)));
    var second := Polled(t, Poll(r, p, 0, WORKING));
    var l := Ledger(t, balance);
    RunDrifts(l, [first, second]);
    assert [first, second][1..] == [second] && [second][1..] == [];
    assert React(l, first).row == t;
    assert TotalDrift(React(l, first), [second]) == 0;
  }
}
