/** Midjourney pollers that refund failed tasks.

    A polling pass snapshots the unfinished rows, asks the channel, overwrites its
    copy of the task with the answer and writes it back with UpdateWithStatus, a
    compare-and-set on the old status alone. It refunds only if it won. Any number
    of pollers work on a row with snapshots of any age. */
module Midjourney {
  import opened Basics

  const FAILURE := "FAILURE"
  const SUCCESS := "SUCCESS"
  const FINISHED := "100%"
  const TIMED_OUT := "timeout"
  const TIMEOUT_MILLIS := 3600000

  /** Columns that polling only copies. */
  datatype Details = Details(
    promptEn: string, state: string, startTime: int, finishTime: int, imageUrl: string,
    videoUrl: string, videoUrls: string)

  /** The columns of a task that polling reads or writes. */
  datatype Task = Task(
    quota: int, code: int, progress: string, submitTime: int, status: string, failReason: string,
    properties: string, buttons: string, details: Details)

  /** One answer of the channel; composite values are in serialised form. */
  datatype Item = Item(
    progress: string, submitTime: int, status: string, failReason: string,
    properties: Option<string>, buttons: Option<string>, details: Details)

  /** An unfinished task older than an hour counts as failed whatever the answer. */
  function Judged(task: Task, item: Item, now: int): Item {
    if now - task.submitTime > TIMEOUT_MILLIS && task.progress != FINISHED
    then item.(failReason := TIMED_OUT, status := FAILURE)
    else item
  }

  /** checkMjTaskNeedUpdate. */
  predicate NeedsUpdate(task: Task, item: Item) {
    || task.code != 1
    || task.progress != item.progress
    || task.submitTime != item.submitTime
    || task.status != item.status
    || task.failReason != item.failReason
    || (task.progress != FINISHED && item.failReason != "")
    || task.details != item.details
  }

  /** The answer marks the task as failed. */
  predicate Fails(item: Item) {
    (item.progress != FINISHED && item.failReason != "") || (item.progress == FINISHED && item.status == FAILURE)
  }

  /** The task as it is written back. */
  function Merged(task: Task, item: Item): Task {
    Task(task.quota, 1, if Fails(item) then FINISHED else item.progress,
         item.submitTime, item.status, item.failReason,
         if item.properties.Some? then item.properties.value else task.properties,
         if item.buttons.Some? then item.buttons.value else task.buttons,
         item.details)
  }

  /** The task object a polling pass holds and updates in place. */
  class TaskObject {
    var quota: int
    var code: int
    var progress: string
    var submitTime: int
    var status: string
    var failReason: string
    var properties: string
    var buttons: string
    var details: Details

    function Value(): Task
      reads this
    {
      Task(quota, code, progress, submitTime, status, failReason, properties, buttons, details)
    }

    /** The body of the item loop up to UpdateWithStatus: whether to write at all,
        the status to compare with, and whether winning earns a refund. */
    method Absorb(answer: Item, now: int) returns (write: bool, preStatus: string, shouldReturnQuota: bool)
      modifies this
      ensures var item := Judged(old(Value()), answer, now);
              && write == NeedsUpdate(old(Value()), item)
              && preStatus == old(status)
              && Value() == (if write then Merged(old(Value()), item) else old(Value()))
              && shouldReturnQuota == (write && Fails(item) && old(quota) != 0)
    {
      var item := answer;
      if now - submitTime > TIMEOUT_MILLIS && progress != FINISHED {
        item := item.(failReason := TIMED_OUT, status := FAILURE);
      }
      write, preStatus, shouldReturnQuota := NeedsUpdate(Value(), item), status, false;
      if !write { return; }
      code := 1;
      progress := item.progress;
      details := item.details;
      submitTime := item.submitTime;
      status := item.status;
      failReason := item.failReason;
      if item.properties.Some? { properties := item.properties.value; }
      if item.buttons.Some? { buttons := item.buttons.value; }
      if (progress != FINISHED && item.failReason != "") || (progress == FINISHED && status == FAILURE) {
        progress := FINISHED;
        if quota != 0 { shouldReturnQuota := true; }
      }
    }
  }

  /** Skipping an answer loses nothing: it would have changed only the serialised
      properties and buttons, and for an unfinished task it owes no refund. */
  lemma SkippedAnswerIsOld(task: Task, item: Item)
    requires !NeedsUpdate(task, item)
    ensures Merged(task, item) == task.(
              properties := Merged(task, item).properties, buttons := Merged(task, item).buttons,
              progress := Merged(task, item).progress)
    ensures task.progress != FINISHED ==> !Fails(item) && Merged(task, item).progress == task.progress
  {
  }

  /** An unfinished task is written exactly when that changes more than the serialised
      properties and buttons. */
  lemma WrittenIff(task: Task, item: Item)
    requires task.progress != FINISHED
    ensures NeedsUpdate(task, item)
       <==> Merged(task, item).(properties := task.properties, buttons := task.buttons) != task
  {
  }

  /** A finished task does not time out. */
  lemma FinishedIsNotLate(task: Task, item: Item, now: int)
    requires task.progress == FINISHED
    ensures Judged(task, item, now) == item
  {
  }

  /** What a poll of an unfinished task leaves, written or skipped: after an hour the task
      has failed and is finished, whatever was answered; before that it is what was answered,
      finished if that is a failure at 100% or gives a reason below 100%. */
  lemma AnswerIsTaken(task: Task, answer: Item, now: int)
    requires task.progress != FINISHED
    ensures var item := Judged(task, answer, now);
            var after := if NeedsUpdate(task, item) then Merged(task, item) else task;
            && after.quota == task.quota && after.code == 1
            && after.submitTime == answer.submitTime && after.details == answer.details
            && if now - task.submitTime > 3600000 then
                 NeedsUpdate(task, item) && after.status == FAILURE && after.progress == FINISHED
                 && after.failReason == TIMED_OUT
               else
                 && after.status == answer.status && after.failReason == answer.failReason
                 && after.progress == if answer.failReason != "" then FINISHED else answer.progress
  {
  }

  // ---- Pollers on one row ------------------------------------------------

  datatype Poller =
    | Free
    | Seen(task: Task)      // holds a snapshot
    | Owes(refund: int)     // has won and is about to call IncreaseUserQuota

  /** A write that won: the status it stored and whether it earned a refund. */
  datatype Write = Write(status: string, refund: bool)

  datatype State = State(
    row: Task, pollers: seq<Poller>, log: seq<Write>, balance: int, paid: nat, unpaid: nat)

  datatype Action =
    | Snap(p: nat)                        // GetAllUnFinishTasks
    | Drop(p: nat)                        // the pass ends or skips the task
    | Poll(p: nat, item: Item, now: int)  // one answer, then UpdateWithStatus
    | Bulk(p: nat)                        // MjBulkUpdate: the channel is gone
    | Pay(p: nat, ok: bool)               // IncreaseUserQuota

  function At(s: State, p: nat, q: Poller): State
    requires p < |s.pollers|
  {
    s.(pollers := s.pollers[p := q])
  }

  /** One step; an action that is not enabled changes nothing. */
  function Do(s: State, a: Action): State {
    if a.p >= |s.pollers| then s
    else
      var me := s.pollers[a.p];
      match a
      case Snap(p) => if me.Free? && s.row.progress != FINISHED then At(s, p, Seen(s.row)) else s
      case Drop(p) => if me.Seen? then At(s, p, Free) else s
      case Bulk(p) =>
        if me.Seen? then At(s, p, Free).(row := s.row.(status := FAILURE, progress := FINISHED)) else s
      case Pay(p, ok) =>
        if !me.Owes? then s
        else if ok && me.refund >= 0 then At(s, p, Free).(balance := s.balance + me.refund, paid := s.paid + 1)
        else At(s, p, Free).(unpaid := s.unpaid + 1)
      case Poll(p, answer, now) =>
        if !me.Seen? then s
        else
          var item := Judged(me.task, answer, now);
          if !NeedsUpdate(me.task, item) || s.row.status != me.task.status then At(s, p, Free)
          else
            var refund := Fails(item) && me.task.quota != 0;
            At(s, p, if refund then Owes(me.task.quota) else Free).(
              row := Merged(me.task, item), log := s.log + [Write(item.status, refund)])
  }

  function Run(s: State, actions: seq<Action>): State
    decreases |actions|
  {
    if actions == [] then s else Run(Do(s, actions[0]), actions[1..])
  }

  /** An unfinished task that has not failed, before any poller has seen it. */
  predicate Init(s: State) {
    && s.row.progress != FINISHED && s.row.status != FAILURE
    && s.log == [] && s.paid == 0 && s.unpaid == 0
    && forall p :: 0 <= p < |s.pollers| ==> s.pollers[p] == Free
  }

  /** The answers a channel gives. */
  type Feed = Item -> bool

  /** The polls get answers of the channel, and the clock never runs backwards. */
  predicate Fed(actions: seq<Action>, feed: Feed) {
    && (forall i :: 0 <= i < |actions| && actions[i].Poll? ==> feed(actions[i].item))
    && (forall i, j :: 0 <= i < j < |actions| && actions[i].Poll? && actions[j].Poll? ==>
          actions[i].now <= actions[j].now)
  }

  predicate RefundedAtMostOnce(log: seq<Write>) {
    forall i, j :: 0 <= i < j < |log| ==> !(log[i].refund && log[j].refund)
  }

  predicate NoRefundAfterSuccess(log: seq<Write>) {
    forall i, j :: 0 <= i < j < |log| ==> !(log[i].status == SUCCESS && log[j].refund)
  }

  /** A failure is reported with a reason or as finished, and a reason below 100%
      comes with a failure. */
  predicate ClearFailure(item: Item) {
    && (item.status == FAILURE ==> item.failReason != "" || item.progress == FINISHED)
    && (item.failReason != "" && item.progress != FINISHED ==> item.status == FAILURE)
  }

  ghost predicate FailuresAreClear(feed: Feed) {
    forall item | feed(item) :: ClearFailure(item)
  }

  /** A success or a failure below 100% without a reason is stored and leaves the task unfinished. */
  predicate LeavesOpen(item: Item, status: string) {
    item.status == status && item.progress != FINISHED && item.failReason == ""
  }

  ghost predicate NoneLeavesOpen(feed: Feed, status: string) {
    forall item | feed(item) :: !LeavesOpen(item, status)
  }

  ghost predicate NoSuccesses(feed: Feed) {
    forall item | feed(item) :: item.status != SUCCESS
  }

  // ---- What the steps keep -----------------------------------------------

  predicate Refunded(log: seq<Write>) {
    exists i :: 0 <= i < |log| && log[i].refund
  }

  predicate Succeeded(log: seq<Write>) {
    exists i :: 0 <= i < |log| && log[i].status == SUCCESS
  }

  /** A failed row is finished, so no snapshot shows a failure, so no stale poller
      can win once the task has failed. */
  ghost predicate OnceInv(s: State) {
    && RefundedAtMostOnce(s.log)
    && (s.row.status == FAILURE ==> s.row.progress == FINISHED)
    && (Refunded(s.log) ==> s.row.status == FAILURE)
    && (forall p :: 0 <= p < |s.pollers| && s.pollers[p].Seen? ==> s.pollers[p].task.status != FAILURE)
  }

  /** A row in either final status is finished, so no snapshot shows one, so no stale
      poller can win once the task has succeeded. */
  ghost predicate SuccessInv(s: State) {
    && NoRefundAfterSuccess(s.log)
    && (s.row.status in {SUCCESS, FAILURE} ==> s.row.progress == FINISHED)
    && (Succeeded(s.log) ==> s.row.status in {SUCCESS, FAILURE})
    && (forall p :: 0 <= p < |s.pollers| && s.pollers[p].Seen? ==> s.pollers[p].task.status !in {SUCCESS, FAILURE})
  }

  lemma DoKeepsOnce(s: State, a: Action, feed: Feed)
    requires FailuresAreClear(feed) && OnceInv(s) && (a.Poll? ==> feed(a.item))
    ensures OnceInv(Do(s, a))
  {
    if a.p < |s.pollers| && a.Poll? && s.pollers[a.p].Seen? {
      var item := Judged(s.pollers[a.p].task, a.item, a.now);
      assert item.status == FAILURE ==> item.failReason != "" || item.progress == FINISHED;
      assert Fails(item) ==> item.status == FAILURE;
    }
  }

  lemma DoKeepsSuccess(s: State, a: Action, feed: Feed)
    requires NoneLeavesOpen(feed, SUCCESS) && NoneLeavesOpen(feed, FAILURE)
    requires SuccessInv(s) && (a.Poll? ==> feed(a.item))
    ensures SuccessInv(Do(s, a))
  {
    if a.p < |s.pollers| && a.Poll? && s.pollers[a.p].Seen? {
      var item := Judged(s.pollers[a.p].task, a.item, a.now);
      assert item.status in {SUCCESS, FAILURE} ==> Merged(s.pollers[a.p].task, item).progress == FINISHED;
      if s.row.status == s.pollers[a.p].task.status { assert !Succeeded(s.log); }
    }
  }

  lemma {:induction false} RunKeepsOnce(s: State, actions: seq<Action>, feed: Feed)
    requires FailuresAreClear(feed) && OnceInv(s) && Fed(actions, feed)
    ensures OnceInv(Run(s, actions))
    decreases |actions|
  {
    if actions != [] {
      DoKeepsOnce(s, actions[0], feed);
      RunKeepsOnce(Do(s, actions[0]), actions[1..], feed);
    }
  }

  lemma {:induction false} RunKeepsSuccess(s: State, actions: seq<Action>, feed: Feed)
    requires NoneLeavesOpen(feed, SUCCESS) && NoneLeavesOpen(feed, FAILURE) && SuccessInv(s) && Fed(actions, feed)
    ensures SuccessInv(Run(s, actions))
    decreases |actions|
  {
    if actions != [] {
      DoKeepsSuccess(s, actions[0], feed);
      RunKeepsSuccess(Do(s, actions[0]), actions[1..], feed);
    }
  }

  /** A channel that never reports a success never has one written. */
  lemma {:induction false} NoneSucceeds(s: State, actions: seq<Action>, feed: Feed)
    requires NoSuccesses(feed) && !Succeeded(s.log) && Fed(actions, feed)
    ensures !Succeeded(Run(s, actions).log)
    decreases |actions|
  {
    if actions != [] {
      assert !Succeeded(Do(s, actions[0]).log);
      NoneSucceeds(Do(s, actions[0]), actions[1..], feed);
    }
  }

  // ---- When refunds are safe ---------------------------------------------

  ghost predicate NeverTwice(feed: Feed) {
    forall s, actions | Init(s) && Fed(actions, feed) :: RefundedAtMostOnce(Run(s, actions).log)
  }

  ghost predicate NeverAfterSuccess(feed: Feed) {
    forall s, actions | Init(s) && s.row.status != SUCCESS && Fed(actions, feed) ::
      NoRefundAfterSuccess(Run(s, actions).log)
  }

  /** A fresh task in the given status, watched by three pollers. */
  function Fresh(status: string): State {
    State(Task(1, 0, "", 0, status, "", "", "", Details("", "", 0, 0, "", "", "")), [Free, Free, Free], [], 0, 0, 0)
  }

  /** A time, not before zero, at which a task with this submit time has timed out. */
  function Late(item: Item): nat {
    if item.submitTime + TIMEOUT_MILLIS < 0 then 0 else item.submitTime + TIMEOUT_MILLIS + 1
  }

  /** A reason below 100% without a failure: two pollers with one snapshot both win. */
  lemma UnclearReasonRefundsTwice(item: Item)
    requires item.failReason != "" && item.progress != FINISHED && item.status != FAILURE
    ensures !RefundedAtMostOnce(Run(Fresh(item.status), [Snap(0), Snap(1), Poll(0, item, 0), Poll(1, item, 0)]).log)
  {
    var s0 := Fresh(item.status);
    var s1 := Do(s0, Snap(0));
    var s2 := Do(s1, Snap(1));
    var s3 := Do(s2, Poll(0, item, 0));
    var s4 := Do(s3, Poll(1, item, 0));
    assert s3.log == [Write(item.status, true)];
    assert s4.log == [Write(item.status, true), Write(item.status, true)];
    assert s4.log[0].refund && s4.log[1].refund;
    RunFour(s0, Snap(0), Snap(1), Poll(0, item, 0), Poll(1, item, 0));
  }

  lemma RunFirst(s: State, a: Action, rest: seq<Action>)
    ensures Run(s, [a] + rest) == Run(Do(s, a), rest)
  {
    assert ([a] + rest)[1..] == rest;
  }

  lemma RunFour(s: State, a: Action, b: Action, c: Action, d: Action)
    ensures Run(s, [a, b, c, d]) == Do(Do(Do(Do(s, a), b), c), d)
  {
    assert [a, b, c, d] == [a] + ([b] + ([c] + ([d] + [])));
    RunFirst(s, a, [b] + ([c] + ([d] + [])));
    RunFirst(Do(s, a), b, [c] + ([d] + []));
    RunFirst(Do(Do(s, a), b), c, [d] + []);
    RunFirst(Do(Do(Do(s, a), b), c), d, []);
  }

  /** A failure below 100% without a reason stays unfinished: two snapshots show it. */
  lemma UnclearFailureRefundsTwice(item: Item)
    requires LeavesOpen(item, FAILURE)
    ensures var late := Late(item);
            !RefundedAtMostOnce(Run(Run(Fresh(""), [Snap(0), Poll(0, item, 0), Snap(0), Snap(1)]),
                                    [Poll(0, item, late), Poll(1, item, late), Drop(0), Drop(0)]).log)
  {
    var late := Late(item);
    var s1 := Do(Fresh(""), Snap(0));
    var s2 := Do(s1, Poll(0, item, 0));
    assert s2.row.status == FAILURE && s2.row.progress == item.progress && s2.log == [Write(FAILURE, false)];
    var s4 := Do(Do(s2, Snap(0)), Snap(1));
    assert s4.pollers == [Seen(s2.row), Seen(s2.row), Free];
    var s5 := Do(s4, Poll(0, item, late));
    assert s5.log == [Write(FAILURE, false), Write(FAILURE, true)];
    var s6 := Do(s5, Poll(1, item, late));
    assert s6.log == [Write(FAILURE, false), Write(FAILURE, true), Write(FAILURE, true)];
    assert s6.log[1].refund && s6.log[2].refund;
    RunFour(Fresh(""), Snap(0), Poll(0, item, 0), Snap(0), Snap(1));
    RunFour(s4, Poll(0, item, late), Poll(1, item, late), Drop(0), Drop(0));
  }

  /** A success below 100% stays unfinished and can still time out. */
  lemma EarlySuccessIsRefunded(item: Item)
    requires LeavesOpen(item, SUCCESS)
    ensures !NoRefundAfterSuccess(Run(Fresh(""), [Snap(0), Poll(0, item, 0), Snap(0), Poll(0, item, Late(item))]).log)
  {
    var late := Late(item);
    var s1 := Do(Fresh(""), Snap(0));
    var s2 := Do(s1, Poll(0, item, 0));
    assert s2.log == [Write(SUCCESS, false)] && s2.row.progress == item.progress;
    var s4 := Do(Do(s2, Snap(0)), Poll(0, item, late));
    assert s4.log == [Write(SUCCESS, false), Write(FAILURE, true)];
    assert s4.log[0].status == SUCCESS && s4.log[1].refund;
    RunFour(Fresh(""), Snap(0), Poll(0, item, 0), Snap(0), Poll(0, item, late));
  }

  lemma {:induction false} RunAppend(s: State, a: seq<Action>, b: seq<Action>)
    ensures Run(s, a + b) == Run(Run(s, a), b)
    decreases |a|
  {
    if a == [] {
      assert a + b == b;
    } else {
      assert (a + b)[1..] == a[1..] + b;
      RunAppend(Do(s, a[0]), a[1..], b);
    }
  }

  /** The run in which two pollers with one snapshot both get the answer. */
  function BothPoll(item: Item): seq<Action> {
    [Snap(0), Snap(1), Poll(0, item, 0), Poll(1, item, 0)]
  }

  /** The run in which two pollers see the answer stored and then time out. */
  function BothTimeOut(item: Item): seq<Action> {
    [Snap(0), Poll(0, item, 0), Snap(0), Snap(1)]
    + [Poll(0, item, Late(item)), Poll(1, item, Late(item)), Drop(0), Drop(0)]
  }

  lemma WitnessesAreFed(feed: Feed, item: Item)
    requires feed(item)
    ensures Fed(BothPoll(item), feed) && Fed(BothTimeOut(item), feed)
  {
  }

  lemma UnclearIsRefundedTwice(feed: Feed, item: Item)
    requires feed(item) && !ClearFailure(item)
    ensures !NeverTwice(feed)
  {
    WitnessesAreFed(feed, item);
    if item.failReason != "" {
      UnclearReasonRefundsTwice(item);
      assert Init(Fresh(item.status)) && !RefundedAtMostOnce(Run(Fresh(item.status), BothPoll(item)).log);
    } else {
      UnclearFailureRefundsTwice(item);
      RunAppend(Fresh(""), [Snap(0), Poll(0, item, 0), Snap(0), Snap(1)],
                [Poll(0, item, Late(item)), Poll(1, item, Late(item)), Drop(0), Drop(0)]);
      assert Init(Fresh("")) && !RefundedAtMostOnce(Run(Fresh(""), BothTimeOut(item)).log);
    }
  }

  /** No run over any number of pollers refunds a task twice exactly when every
      failure the channel reports is clear. */
  lemma RefundedAtMostOnceIff(feed: Feed)
    ensures NeverTwice(feed) <==> FailuresAreClear(feed)
  {
    if FailuresAreClear(feed) {
      forall s, actions | Init(s) && Fed(actions, feed) ensures RefundedAtMostOnce(Run(s, actions).log) {
        RunKeepsOnce(s, actions, feed);
      }
    } else {
      var item :| feed(item) && !ClearFailure(item);
      UnclearIsRefundedTwice(feed, item);
    }
  }

  /** A time at which neither a fresh task nor one with this submit time has timed out. */
  function Early(item: Item): int {
    if item.submitTime < 0 then item.submitTime else 0
  }

  /** Three pollers see a failure that left the task unfinished; the first then hears of a
      success, the second finds the channel gone, and the third times out. */
  function ThirdTimesOut(failure: Item, success: Item): seq<Action> {
    [Snap(0), Poll(0, failure, Early(failure)), Snap(0), Snap(1)]
    + [Snap(2), Poll(0, success, Early(failure)), Bulk(1), Poll(2, failure, Late(failure))]
  }

  /** The third wins on the status of the failure, and refunds after the success. */
  lemma OpenFailureIsRefundedAfterSuccess(failure: Item, success: Item)
    requires LeavesOpen(failure, FAILURE) && success.status == SUCCESS
    ensures !NoRefundAfterSuccess(Run(Fresh(""), ThirdTimesOut(failure, success)).log)
  {
    var early, late := Early(failure), Late(failure);
    var s2 := Do(Do(Fresh(""), Snap(0)), Poll(0, failure, early));
    assert s2.row.status == FAILURE && s2.row.progress == failure.progress && s2.row.submitTime == failure.submitTime;
    assert s2.log == [Write(FAILURE, false)];
    var s4 := Do(Do(s2, Snap(0)), Snap(1));
    var s5 := Do(s4, Snap(2));
    assert s5.pollers == [Seen(s2.row), Seen(s2.row), Seen(s2.row)];
    var s6 := Do(s5, Poll(0, success, early));
    assert s6.row.status == SUCCESS && |s6.log| == 2 && s6.log[1].status == SUCCESS;
    var s7 := Do(s6, Bulk(1));
    assert s7.row.status == FAILURE && s7.pollers[2] == Seen(s2.row) && s7.log == s6.log;
    var s8 := Do(s7, Poll(2, failure, late));
    assert s8.log == s6.log + [Write(FAILURE, true)];
    assert s8.log[1].status == SUCCESS && s8.log[2].refund;
    RunFour(Fresh(""), Snap(0), Poll(0, failure, early), Snap(0), Snap(1));
    RunFour(s4, Snap(2), Poll(0, success, early), Bulk(1), Poll(2, failure, late));
    RunAppend(Fresh(""), [Snap(0), Poll(0, failure, early), Snap(0), Snap(1)],
              [Snap(2), Poll(0, success, early), Bulk(1), Poll(2, failure, late)]);
  }

  lemma SuccessWitnessesAreFed(feed: Feed, one: Item, other: Item)
    requires feed(one) && feed(other)
    ensures Fed([Snap(0), Poll(0, one, 0), Snap(0), Poll(0, one, Late(one))], feed)
    ensures Fed(ThirdTimesOut(one, other), feed)
  {
  }

  /** No run over any number of pollers refunds a task that a poller's write has made
      successful exactly when no reported success leaves the task unfinished and, if there
      are successes at all, no reported failure does. */
  lemma NoRefundAfterSuccessIff(feed: Feed)
    ensures NeverAfterSuccess(feed)
       <==> NoneLeavesOpen(feed, SUCCESS) && (NoneLeavesOpen(feed, FAILURE) || NoSuccesses(feed))
  {
    if item :| feed(item) && LeavesOpen(item, SUCCESS) {
      EarlySuccessIsRefunded(item);
      SuccessWitnessesAreFed(feed, item, item);
      assert Init(Fresh(""));
    } else if !NoneLeavesOpen(feed, FAILURE) && !NoSuccesses(feed) {
      var failure :| feed(failure) && LeavesOpen(failure, FAILURE);
      var success :| feed(success) && success.status == SUCCESS;
      OpenFailureIsRefundedAfterSuccess(failure, success);
      SuccessWitnessesAreFed(feed, failure, success);
      assert Init(Fresh(""));
    } else {
      forall s, actions | Init(s) && s.row.status != SUCCESS && Fed(actions, feed)
        ensures NoRefundAfterSuccess(Run(s, actions).log)
      {
        if NoSuccesses(feed) { NoneSucceeds(s, actions, feed); } else { RunKeepsSuccess(s, actions, feed); }
      }
    }
  }

  // ---- When every failure is refunded ------------------------------------

  /** Exactly the writes that store a failure earn a refund, if the task cost anything. */
  predicate RefundsFailures(log: seq<Write>, quota: int) {
    forall i :: 0 <= i < |log| ==> (log[i].refund <==> log[i].status == FAILURE && quota != 0)
  }

  ghost predicate RefundInv(quota: int, s: State) {
    && s.row.quota == quota && RefundsFailures(s.log, quota)
    && (forall p :: 0 <= p < |s.pollers| && s.pollers[p].Seen? ==> s.pollers[p].task.quota == quota)
  }

  lemma {:induction false} RunRefundsFailures(quota: int, s: State, actions: seq<Action>, feed: Feed)
    requires FailuresAreClear(feed) && RefundInv(quota, s) && Fed(actions, feed)
    ensures RefundInv(quota, Run(s, actions))
    decreases |actions|
  {
    if actions != [] {
      var a := actions[0];
      if a.p < |s.pollers| && a.Poll? && s.pollers[a.p].Seen? {
        var item := Judged(s.pollers[a.p].task, a.item, a.now);
        assert ClearFailure(a.item);
        assert Fails(item) <==> item.status == FAILURE;
      }
      assert RefundInv(quota, Do(s, a));
      RunRefundsFailures(quota, Do(s, a), actions[1..], feed);
    }
  }

  ghost predicate RefundsEveryFailure(feed: Feed) {
    forall s, actions | Init(s) && Fed(actions, feed) :: RefundsFailures(Run(s, actions).log, s.row.quota)
  }

  /** An unclear answer is written with a failure and no refund, or the other way round. */
  lemma UnclearIsMistaken(item: Item)
    requires !ClearFailure(item)
    ensures !RefundsFailures(Run(Fresh(""), [Snap(0), Poll(0, item, 0)]).log, 1)
  {
    var s := Do(Do(Fresh(""), Snap(0)), Poll(0, item, 0));
    assert [Snap(0), Poll(0, item, 0)] == [Snap(0)] + ([Poll(0, item, 0)] + []);
    RunFirst(Fresh(""), Snap(0), [Poll(0, item, 0)] + []);
    RunFirst(Do(Fresh(""), Snap(0)), Poll(0, item, 0), []);
    assert s.log == [Write(item.status, item.failReason != "")];
    assert s.log[0].refund != (s.log[0].status == FAILURE);
  }

  /** In all runs exactly the failures written are refunded exactly when every failure that
      the channel reports is clear. */
  lemma RefundsEveryFailureIff(feed: Feed)
    ensures RefundsEveryFailure(feed) <==> FailuresAreClear(feed)
  {
    if FailuresAreClear(feed) {
      forall s, actions | Init(s) && Fed(actions, feed) ensures RefundsFailures(Run(s, actions).log, s.row.quota) {
        RunRefundsFailures(s.row.quota, s, actions, feed);
      }
    } else {
      var item :| feed(item) && !ClearFailure(item);
      UnclearIsMistaken(item);
      assert Init(Fresh("")) && Fed([Snap(0), Poll(0, item, 0)], feed);
    }
  }

  // ---- The money ---------------------------------------------------------

  ghost predicate SomeoneOwes(s: State) {
    exists p :: 0 <= p < |s.pollers| && s.pollers[p].Owes?
  }

  /** Everything owed or paid stems from the one refund the log may hold, and the refund
      that was decided is paid, failed to be paid, or still owed. */
  ghost predicate MoneyInv(s0: State, s: State) {
    && s.row.quota == s0.row.quota
    && (forall p :: 0 <= p < |s.pollers| ==>
          && (s.pollers[p].Seen? ==> s.pollers[p].task.quota == s0.row.quota)
          && (s.pollers[p].Owes? ==> s.pollers[p].refund == s0.row.quota && Refunded(s.log) && s.paid + s.unpaid == 0))
    && (forall p, q :: 0 <= p < q < |s.pollers| ==> !(s.pollers[p].Owes? && s.pollers[q].Owes?))
    && s.paid + s.unpaid <= 1 && (s.paid + s.unpaid == 1 ==> Refunded(s.log))
    && (Refunded(s.log) ==> s.paid + s.unpaid == 1 || SomeoneOwes(s))
    && s.balance == s0.balance + (if s.paid == 1 then s0.row.quota else 0)
  }

  lemma DoKeepsMoney(s0: State, s: State, a: Action)
    requires OnceInv(s) && MoneyInv(s0, s)
    ensures MoneyInv(s0, Do(s, a))
  {
    var s' := Do(s, a);
    if Refunded(s.log) {
      var i :| 0 <= i < |s.log| && s.log[i].refund;
      assert s'.log[i].refund;
    } else if a.p < |s.pollers| && s'.pollers[a.p].Owes? && a.Poll? {
      assert s'.log[|s.log|].refund;
    }
    DecidedIsKept(s0, s, a);
  }

  /** No step loses a refund that was decided. */
  lemma DecidedIsKept(s0: State, s: State, a: Action)
    requires OnceInv(s) && MoneyInv(s0, s)
    ensures var s' := Do(s, a); Refunded(s'.log) ==> s'.paid + s'.unpaid == 1 || SomeoneOwes(s')
  {
    var s' := Do(s, a);
    if SomeoneOwes(s) {
      var p :| 0 <= p < |s.pollers| && s.pollers[p].Owes?;
      assert (a.p == p && a.Pay?) || s'.pollers[p] == s.pollers[p];
    } else if Refunded(s'.log) && !Refunded(s.log) {
      var i :| 0 <= i < |s'.log| && s'.log[i].refund;
      assert i == |s.log| && s'.pollers[a.p].Owes?;
    }
  }

  /** The user gets the task's quota back at most once, in full, and the refund
      that was decided is paid unless its write failed or is still to come. */
  lemma {:induction false} BalanceAfterRun(s0: State, s: State, actions: seq<Action>, feed: Feed)
    requires FailuresAreClear(feed) && OnceInv(s) && MoneyInv(s0, s) && Fed(actions, feed)
    ensures MoneyInv(s0, Run(s, actions))
    decreases |actions|
  {
    if actions != [] {
      DoKeepsOnce(s, actions[0], feed);
      DoKeepsMoney(s0, s, actions[0]);
      BalanceAfterRun(s0, Do(s, actions[0]), actions[1..], feed);
    }
  }

  /** After any run the user has nothing or exactly the task's quota back; and once nobody
      owes, it is the quota exactly when a refund was decided and its write did not fail. */
  lemma RefundIsExact(s: State, actions: seq<Action>, feed: Feed)
    requires FailuresAreClear(feed) && Init(s) && Fed(actions, feed)
    ensures var e := Run(s, actions);
            && (e.balance == s.balance || (e.balance == s.balance + s.row.quota && Refunded(e.log)))
            && (!SomeoneOwes(e) ==>
                  e.balance == s.balance + (if Refunded(e.log) && e.unpaid == 0 then s.row.quota else 0))
  {
    BalanceAfterRun(s, s, actions, feed);
  }

  /** A task whose channel is gone fails and is finished, with nothing owed to anyone: no
      later poll sees it, so that quota stays with the gateway. */
  lemma LostChannelRefundsNothing(s: State, p: nat, q: nat)
    requires p < |s.pollers| && s.pollers[p].Seen?
    ensures var e := Do(s, Bulk(p));
            && e.row.status == FAILURE && e.row.progress == FINISHED && e.pollers == s.pollers[p := Free]
            && e.balance == s.balance && e.log == s.log && Do(e, Snap(q)) == e
  {
  }

  /** A payment pays what is owed when its write works and that is not below zero, else nothing. */
  lemma PaymentIs(s: State, p: nat, ok: bool)
    requires p < |s.pollers| && s.pollers[p].Owes?
    ensures var e, owed := Do(s, Pay(p, ok)), s.pollers[p].refund;
            && e.pollers[p] == Free && e.row == s.row && e.log == s.log
            && (ok && owed >= 0 ==> e.balance == s.balance + owed && e.paid == s.paid + 1 && e.unpaid == s.unpaid)
            && (!ok || owed < 0 ==> e.balance == s.balance && e.paid == s.paid && e.unpaid == s.unpaid + 1)
  {
  }

  predicate PaymentsWork(actions: seq<Action>) {
    forall i :: 0 <= i < |actions| && actions[i].Pay? ==> actions[i].ok
  }

  lemma {:induction false} NothingUnpaid(quota: int, s: State, actions: seq<Action>)
    requires PaymentsWork(actions) && quota >= 0 && s.unpaid == 0 && s.row.quota == quota
    requires forall p :: 0 <= p < |s.pollers| ==>
               && (s.pollers[p].Seen? ==> s.pollers[p].task.quota == quota)
               && (s.pollers[p].Owes? ==> s.pollers[p].refund == quota)
    ensures Run(s, actions).unpaid == 0
    decreases |actions|
  {
    if actions != [] { NothingUnpaid(quota, Do(s, actions[0]), actions[1..]); }
  }

  predicate Failed(log: seq<Write>) {
    exists i :: 0 <= i < |log| && log[i].status == FAILURE
  }

  /** Once nobody owes, the user has the task's quota back exactly when a poller has stored
      its failure, unless that one payment failed, which an amount below zero makes it. */
  lemma FailureIsPaidBack(s: State, actions: seq<Action>, feed: Feed)
    requires FailuresAreClear(feed) && Init(s) && Fed(actions, feed)
    ensures var e := Run(s, actions);
            !SomeoneOwes(e) ==> e.balance == s.balance + (if Failed(e.log) && e.unpaid == 0 then s.row.quota else 0)
    ensures s.row.quota >= 0 && PaymentsWork(actions) ==> Run(s, actions).unpaid == 0
  {
    if s.row.quota >= 0 && PaymentsWork(actions) { NothingUnpaid(s.row.quota, s, actions); }
    RefundIsExact(s, actions, feed);
    RunRefundsFailures(s.row.quota, s, actions, feed);
    var e := Run(s, actions);
    assert s.row.quota != 0 ==> (Failed(e.log) <==> Refunded(e.log));
  }
}
