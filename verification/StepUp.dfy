/** Step-up verification.  A session holds time-stamped markers that several handlers
    set, consume and expire.  What a guarded request is granted is stated about the
    history of events alone: which verification it rests on, how old that is, and which
    passkey check is behind it. */
module StepUp {
  import opened Basics

  datatype Method = TwoFactor | Passkey

  /** A stored time stamp, or a value of some other type. */
  datatype Mark = Time(at: int) | Invalid

  datatype Markers = Markers(verifiedAt: Option<Mark>, how: Option<Method>, readyAt: Option<Mark>)

  const EMPTY := Markers(None, None, None)
  const VERIFIED_FOR := 300
  const READY_FOR := 60

  /** The events of one session.  `saved` tells whether a save of the session went through.
      Finish: a passkey check ended well.  Verify: a request to verify, whose method the
      user has and whose code, for two factors, is right (`allowed`); the passkey marker is
      checked and consumed at one time and the verification recorded at another, each with
      its own save.  Require: a guard for one method or, in the middleware, for any.
      Clear: the verification is withdrawn. */
  datatype Event =
    | Finish(at: int, saved: bool)
    | Verify(how: Method, allowed: bool, checkedAt: int, consumed: bool, at: int, saved: bool)
    | Require(wanted: Option<Method>, at: int, saved: bool)
    | Clear(at: int, saved: bool)

  // -------------------------------------------------------------- the session

  /** The passkey marker lets a verification through. */
  predicate ReadyFor(m: Markers, e: Event)
    requires e.Verify?
  {
    m.readyAt.Some? && m.readyAt.value.Time? && e.consumed && e.checkedAt - m.readyAt.value.at < READY_FOR
  }

  predicate Succeeds(m: Markers, e: Event)
    requires e.Verify?
  {
    e.allowed && e.saved && (e.how == Passkey ==> ReadyFor(m, e))
  }

  predicate Passes(m: Markers, wanted: Option<Method>, at: int) {
    InTime(m, at) && (wanted.Some? ==> m.how == wanted)
  }

  predicate InTime(m: Markers, at: int) {
    m.verifiedAt.Some? && m.verifiedAt.value.Time? && at - m.verifiedAt.value.at < VERIFIED_FOR
  }

  function Step(m: Markers, e: Event): Markers {
    match e
    case Finish(at, saved) => if saved then Markers(None, None, Some(Time(at))) else m
    case Verify(how, allowed, checkedAt, consumed, at, saved) =>
      if Succeeds(m, e) then Markers(Some(Time(at)), Some(how), None)
      else if allowed && how == Passkey && m.readyAt.Some? && consumed then m.(readyAt := None)
      else m
    case Require(wanted, at, saved) =>
      if !InTime(m, at) && saved then m.(verifiedAt := None, how := None) else m
    case Clear(at, saved) => if saved then m.(verifiedAt := None, how := None) else m
  }

  /** The session as the handlers see it: a working copy that a save makes the stored one. */
  class Session {
    var stored: Markers
    var current: Markers

    method Save(works: bool) returns (ok: bool)
      modifies this`stored
      ensures stored == if works then current else old(stored)
      ensures ok == works
    {
      if works { stored := current; }
      ok := works;
    }

    /** The end of a passkey check. */
    method PasskeyVerifyFinish(at: int, works: bool) returns (ok: bool)
      requires current == stored
      modifies this
      ensures stored == Step(old(stored), Finish(at, works))
      ensures ok == works
    {
      current := current.(readyAt := Some(Time(at)));
      current := current.(verifiedAt := None);
      current := current.(how := None);
      ok := Save(works);
    }

    /** Uses up the passkey marker; an expired one is gone as well. */
    method ConsumePasskeyReady(checkedAt: int, works: bool) returns (verified: bool)
      requires current == stored
      modifies this
      ensures verified <==> old(stored).readyAt.Some? && old(stored).readyAt.value.Time? && works
                            && checkedAt - old(stored).readyAt.value.at < READY_FOR
      ensures stored == if old(stored).readyAt.Some? && works then old(stored).(readyAt := None) else old(stored)
      ensures current == old(stored).(readyAt := None)
    {
      var ready := current.readyAt;
      if ready.None? { return false; }
      current := current.(readyAt := None);
      var ok := Save(works);
      if ready.value.Invalid? { return false; }
      if !ok { return false; }
      if checkedAt - ready.value.at >= READY_FOR { return false; }
      verified := true;
    }

    method SetSecureVerification(how: Method, at: int, works: bool) returns (ok: bool)
      modifies this
      ensures stored == if works then Markers(Some(Time(at)), Some(how), None) else old(stored)
      ensures ok == works
    {
      current := current.(readyAt := None);
      current := current.(verifiedAt := Some(Time(at)));
      current := current.(how := Some(how));
      ok := Save(works);
    }

    method UniversalVerify(how: Method, allowed: bool, checkedAt: int, consumed: bool, at: int, saved: bool)
      returns (ok: bool)
      requires current == stored
      modifies this
      ensures var e := Verify(how, allowed, checkedAt, consumed, at, saved);
              ok == Succeeds(old(stored), e) && stored == Step(old(stored), e)
    {
      if !allowed { return false; }
      if how == Passkey {
        var verified := ConsumePasskeyReady(checkedAt, consumed);
        if !verified { return false; }
      }
      ok := SetSecureVerification(how, at, saved);
    }

    method RequireMethod(wanted: Option<Method>, at: int, saved: bool) returns (ok: bool)
      requires current == stored
      modifies this
      ensures ok == Passes(old(stored), wanted, at) && stored == Step(old(stored), Require(wanted, at, saved))
    {
      var verifiedAt := current.verifiedAt;
      if verifiedAt.None? || verifiedAt.value.Invalid? || at - verifiedAt.value.at >= VERIFIED_FOR {
        current := current.(verifiedAt := None);
        current := current.(how := None);
        var done := Save(saved);
        return false;
      }
      if wanted.Some? && (current.how.None? || current.how.value != wanted.value) { return false; }
      ok := true;
    }
  }

  // -------------------------------------------------------------- histories

  function State(h: seq<Event>): Markers {
    if h == [] then EMPTY else Step(State(h[..|h| - 1]), h[|h| - 1])
  }

  function StartOf(e: Event): int {
    if e.Verify? then e.checkedAt else e.at
  }

  /** The clock never runs backwards, within an event and between events. */
  predicate Clocked(h: seq<Event>) {
    && (forall i :: 0 <= i < |h| ==> StartOf(h[i]) <= h[i].at)
    && (forall i, j :: 0 <= i < j < |h| ==> h[i].at <= StartOf(h[j]))
  }

  /** Event i is a passkey check that was recorded. */
  predicate Finished(h: seq<Event>, i: nat) {
    i < |h| && h[i].Finish? && h[i].saved
  }

  /** Event i is a verification that was answered with success. */
  predicate Verified(h: seq<Event>, i: nat) {
    i < |h| && h[i].Verify? && Succeeds(State(h[..i]), h[i])
  }

  predicate Withdrawn(h: seq<Event>, i: nat) {
    i < |h| && h[i].Clear? && h[i].saved
  }

  /** Event i tries to use the passkey marker, and whatever it finds is used up. */
  predicate Spends(h: seq<Event>, i: nat) {
    i < |h| && h[i].Verify? && h[i].allowed && h[i].how == Passkey && h[i].consumed
  }

  // ----------------------------------------------------- what a grant rests on

  /** Event j is the verification in force: later events have neither replaced nor ended it. */
  ghost predicate InForce(h: seq<Event>, j: nat) {
    Verified(h, j) && forall k :: j < k < |h| ==> !Ends(h, k)
  }

  predicate Ends(h: seq<Event>, k: nat) {
    Verified(h, k) || Finished(h, k) || Withdrawn(h, k)
  }

  /** The verification in force, found from the end. */
  function Grant(h: seq<Event>): (j: Option<nat>)
    ensures j.Some? ==> j.value < |h|
  {
    if h == [] then None
    else
      var n := |h| - 1;
      if Verified(h, n) then Some(n) else if Ends(h, n) then None else Grant(h[..n])
  }

  lemma PrefixEvents(h: seq<Event>, n: nat, i: nat)
    requires i < n <= |h|
    ensures Finished(h[..n], i) <==> Finished(h, i)
    ensures Verified(h[..n], i) <==> Verified(h, i)
    ensures Ends(h[..n], i) <==> Ends(h, i)
    ensures Spends(h[..n], i) <==> Spends(h, i)
  {
    assert h[..n][i] == h[i] && h[..n][..i] == h[..i];
  }

  lemma {:induction false} GrantIsInForce(h: seq<Event>, j: nat)
    ensures Grant(h) == Some(j) <==> InForce(h, j)
  {
    if h != [] && j < |h| - 1 {
      var n := |h| - 1;
      GrantIsInForce(h[..n], j);
      forall k | j <= k < n ensures (Ends(h[..n], k) <==> Ends(h, k)) && (Verified(h[..n], k) <==> Verified(h, k)) {
        PrefixEvents(h, n, k);
      }
      if InForce(h, j) { assert !Ends(h, n); }
    }
  }

  lemma PrefixClocked(h: seq<Event>)
    requires Clocked(h) && h != []
    ensures Clocked(h[..|h| - 1])
  {
    var p := h[..|h| - 1];
    assert forall i :: 0 <= i < |p| ==> p[i] == h[i];
  }

  /** What the markers mean: the mark is the verification in force, and the only way for
      one in force to have no mark is to have expired by the last event. */
  predicate Means(h: seq<Event>, m: Markers) {
    var j := Grant(h);
    if j.None? then m.verifiedAt.None?
    else
      || (m.verifiedAt == Some(Time(h[j.value].at)) && h[j.value].Verify? && m.how == Some(h[j.value].how))
      || (m.verifiedAt.None? && h[|h| - 1].at - h[j.value].at >= VERIFIED_FOR)
  }

  lemma {:induction false} MarkersMean(h: seq<Event>)
    requires Clocked(h)
    ensures Means(h, State(h))
  {
    if h != [] {
      var n := |h| - 1;
      PrefixClocked(h);
      MarkersMean(h[..n]);
      if !Ends(h, n) { KeptNext(h); }
    }
  }

  /** The last event is no verification, passkey check or withdrawal. */
  lemma KeptNext(h: seq<Event>)
    requires h != [] && Clocked(h) && Means(h[..|h| - 1], State(h[..|h| - 1])) && !Ends(h, |h| - 1)
    ensures Means(h, State(h))
  {
    var n := |h| - 1;
    var p := h[..n];
    var j := Grant(p);
    assert Grant(h) == j;
    if j.Some? {
      assert p[j.value] == h[j.value] && p[n - 1] == h[n - 1];
      assert h[n - 1].at <= h[n].at;
    }
  }

  /** Event j is in force, of the wanted method and not too old. */
  ghost predicate Grants(h: seq<Event>, j: nat, wanted: Option<Method>, t: int) {
    InForce(h, j) && t - h[j].at < VERIFIED_FOR && (wanted.Some? ==> h[j].how == wanted.value)
  }

  ghost predicate Granted(h: seq<Event>, wanted: Option<Method>, t: int) {
    exists j: nat :: Grants(h, j, wanted, t)
  }

  /** A guarded request passes exactly when a verification of the wanted method is in
      force and less than 300 seconds old: the latest successful one, with no passkey
      check and no withdrawal since. */
  lemma PassesIff(h: seq<Event>, wanted: Option<Method>, t: int)
    requires Clocked(h) && (h != [] ==> h[|h| - 1].at <= t)
    ensures Passes(State(h), wanted, t) <==> Granted(h, wanted, t)
  {
    MarkersMean(h);
    forall j: nat ensures InForce(h, j) <==> Grant(h) == Some(j) { GrantIsInForce(h, j); }
    if Passes(State(h), wanted, t) { assert Grants(h, Grant(h).value, wanted, t); }
  }

  // ------------------------------------------------- what is behind a passkey

  /** The passkey check i has not been used up before event j: nothing recorded, verified
      or spent in between. */
  ghost predicate Unspent(h: seq<Event>, i: nat, j: nat) {
    Finished(h, i) && i < j <= |h| && forall k :: i < k < j ==> !UsesUp(h, k)
  }

  predicate UsesUp(h: seq<Event>, k: nat) {
    Finished(h, k) || Verified(h, k) || Spends(h, k)
  }

  /** The passkey check whose marker the session holds, found from the end. */
  function Pending(h: seq<Event>): (i: Option<nat>)
    ensures i.Some? ==> i.value < |h|
  {
    if h == [] then None
    else
      var n := |h| - 1;
      if Finished(h, n) then Some(n) else if UsesUp(h, n) then None else Pending(h[..n])
  }

  lemma {:induction false} PendingIsUnspent(h: seq<Event>, i: nat)
    ensures Pending(h) == Some(i) <==> Unspent(h, i, |h|)
  {
    if h != [] && i < |h| - 1 {
      var n := |h| - 1;
      PendingIsUnspent(h[..n], i);
      forall k | i <= k < n ensures (UsesUp(h[..n], k) <==> UsesUp(h, k)) && (Finished(h[..n], k) <==> Finished(h, k)) {
        PrefixEvents(h, n, k);
      }
      if Unspent(h, i, |h|) { assert !UsesUp(h, n); }
    }
  }

  /** The ready marker is the time of the pending passkey check. */
  lemma {:induction false} ReadyMeans(h: seq<Event>)
    ensures State(h).readyAt == if Pending(h).Some? then Some(Time(h[Pending(h).value].at)) else None
  {
    if h != [] { ReadyMeans(h[..|h| - 1]); }
  }

  /** A passkey verification succeeds exactly when it is allowed, both its saves go
      through, and there is an unspent passkey check less than 60 seconds before its own check. */
  lemma PasskeyVerifiedIff(h: seq<Event>, j: nat)
    requires j < |h| && h[j].Verify? && h[j].how == Passkey
    ensures Verified(h, j)
       <==> h[j].allowed && h[j].consumed && h[j].saved
            && exists i: nat :: Unspent(h, i, j) && h[j].checkedAt - h[i].at < READY_FOR
  {
    var p := h[..j];
    ReadyMeans(p);
    forall i: nat | i < j ensures Pending(p) == Some(i) <==> Unspent(h, i, j) {
      PendingIsUnspent(p, i);
      UnspentInPrefix(h, i, j);
    }
    if Pending(p).Some? { assert p[Pending(p).value] == h[Pending(p).value]; }
  }

  /** A two-factor verification succeeds exactly when the user has it set up, the code is
      right and the save goes through. */
  lemma TwoFactorVerifiedIff(h: seq<Event>, j: nat)
    requires j < |h| && h[j].Verify? && h[j].how == TwoFactor
    ensures Verified(h, j) <==> h[j].allowed && h[j].saved
  {
  }

  lemma UnspentInPrefix(h: seq<Event>, i: nat, j: nat)
    requires i < j <= |h|
    ensures Unspent(h[..j], i, j) <==> Unspent(h, i, j)
  {
    forall k | i <= k < j ensures (UsesUp(h[..j], k) <==> UsesUp(h, k)) && (Finished(h[..j], k) <==> Finished(h, k)) {
      PrefixEvents(h, j, k);
    }
  }

  /** Passkey check i is what verification j rests on. */
  ghost predicate Backs(h: seq<Event>, i: nat, j: nat) {
    Verified(h, j) && h[j].how == Passkey && Unspent(h, i, j)
  }

  /** No passkey check backs two verifications. */
  lemma BacksOnce(h: seq<Event>, i: nat, j: nat, k: nat)
    requires Backs(h, i, j) && Backs(h, i, k)
    ensures j == k
  {
    assert UsesUp(h, j) && UsesUp(h, k);
  }

  /** A request that passes a passkey guard at t rests on a verification at t1 with
      t - t1 < 300 and, behind it, on a passkey check of its own at t0, less than 60 seconds
      before the marker was read, which was no later than t1. */
  lemma PasskeyGrantHistory(h: seq<Event>, t: int) returns (i: nat, j: nat)
    requires Clocked(h) && (h != [] ==> h[|h| - 1].at <= t) && Passes(State(h), Some(Passkey), t)
    ensures i < j < |h| && Grants(h, j, Some(Passkey), t) && Backs(h, i, j)
    ensures h[i].at <= h[j].checkedAt <= h[j].at <= t && h[j].checkedAt - h[i].at < 60 && t - h[j].at < 300
  {
    PassesIff(h, Some(Passkey), t);
    j :| Grants(h, j, Some(Passkey), t);
    PasskeyVerifiedIff(h, j);
    i :| Unspent(h, i, j) && h[j].checkedAt - h[i].at < READY_FOR;
    if j < |h| - 1 { assert h[j].at <= StartOf(h[|h| - 1]); }
  }

  /** A request that passes a two-factor guard at t rests on a verification with the right
      code less than 300 seconds before, with no passkey check and no withdrawal since. */
  lemma TwoFactorGrantHistory(h: seq<Event>, t: int) returns (j: nat)
    requires Clocked(h) && (h != [] ==> h[|h| - 1].at <= t) && Passes(State(h), Some(TwoFactor), t)
    ensures j < |h| && h[j].Verify? && h[j].how == TwoFactor && h[j].allowed && h[j].saved
    ensures h[j].at <= t && t - h[j].at < 300
    ensures forall k :: j < k < |h| ==> !Finished(h, k) && !Withdrawn(h, k)
  {
    PassesIff(h, Some(TwoFactor), t);
    j :| Grants(h, j, Some(TwoFactor), t);
    TwoFactorVerifiedIff(h, j);
    if j < |h| - 1 { assert h[j].at <= StartOf(h[|h| - 1]); }
    forall k | j < k < |h| ensures !Finished(h, k) && !Withdrawn(h, k) { assert !Ends(h, k); }
  }

  /** Whatever guard a request passes, behind it stands a verification that was allowed: a
      wrong code or a method that is not set up never gets anyone through. */
  lemma GrantsWereAllowed(h: seq<Event>, wanted: Option<Method>, t: int)
    requires Clocked(h) && (h != [] ==> h[|h| - 1].at <= t) && Passes(State(h), wanted, t)
    ensures exists j :: 0 <= j < |h| && h[j].Verify? && h[j].allowed && h[j].saved && t - h[j].at < VERIFIED_FOR
                        && (wanted.Some? ==> h[j].how == wanted.value)
  {
    PassesIff(h, wanted, t);
    var j: nat :| Grants(h, j, wanted, t);
    if h[j].how == Passkey { PasskeyVerifiedIff(h, j); } else { TwoFactorVerifiedIff(h, j); }
  }

  /** A verification is recorded at most so many seconds after its marker was read. */
  predicate LagAtMost(h: seq<Event>, lag: int) {
    forall i :: 0 <= i < |h| && h[i].Verify? ==> h[i].at - h[i].checkedAt <= lag
  }

  /** The passkey check behind a verification is less than 60 seconds before the marker was read. */
  lemma BackedInTime(h: seq<Event>, i: nat, j: nat)
    requires Backs(h, i, j)
    ensures h[j].checkedAt - h[i].at < READY_FOR
  {
    PasskeyVerifiedIff(h, j);
    var k: nat :| Unspent(h, k, j) && h[j].checkedAt - h[k].at < READY_FOR;
    OneUnspent(h, i, k, j);
  }

  lemma OneUnspent(h: seq<Event>, i: nat, k: nat, j: nat)
    requires Unspent(h, i, j) && Unspent(h, k, j)
    ensures i == k
  {
    assert UsesUp(h, i) && UsesUp(h, k);
  }

  /** Read at the last moment and recorded as late as allowed. */
  function Slowest(lag: nat): seq<Event> {
    [Finish(0, true), Verify(Passkey, true, READY_FOR - 1, true, READY_FOR - 1 + lag, true)]
  }

  lemma SlowestIsBacked(lag: nat)
    ensures var h := Slowest(lag);
            && Clocked(h) && LagAtMost(h, lag) && Backs(h, 0, 1) && h[1].at - h[0].at == READY_FOR - 1 + lag
            && Passes(State(h), Some(Passkey), h[1].at)
  {
    var h := Slowest(lag);
    assert h[..1] == [h[0]] && h[..1][..0] == [];
    assert State(h[..1]) == Markers(None, None, Some(Time(0)));
    assert Unspent(h, 0, 1);
  }

  /** Every verification is recorded less than 60 + slack seconds after its passkey check. */
  ghost predicate RecordedWithin(lag: nat, slack: int) {
    forall h: seq<Event>, i: nat, j: nat ::
      Clocked(h) && LagAtMost(h, lag) && Backs(h, i, j) ==> h[j].at - h[i].at < READY_FOR + slack
  }

  /** The minute is measured when the marker is read.  Over all histories a verification is
      recorded less than 60 + slack seconds after the passkey check behind it exactly when
      recording never lags the reading by more than the slack: within the minute itself only
      if the clock does not tick in between. */
  lemma RecordedWithinIff(lag: nat, slack: int)
    ensures RecordedWithin(lag, slack) <==> lag <= slack
  {
    if lag <= slack {
      forall h: seq<Event>, i: nat, j: nat | Clocked(h) && LagAtMost(h, lag) && Backs(h, i, j)
        ensures h[j].at - h[i].at < READY_FOR + slack
      {
        BackedInTime(h, i, j);
      }
    } else {
      SlowestIsBacked(lag);
    }
  }

  // ---------------------------------------------------------- passkey changes

  /** Adding a passkey is guarded by two factors when the user has them. */
  predicate MayRegister(m: Markers, lookup: bool, hasTwoFactor: bool, at: int) {
    lookup && (hasTwoFactor ==> Passes(m, Some(TwoFactor), at))
  }

  /** Deleting one is guarded by two factors when the user has them, else by the passkey. */
  predicate MayDelete(m: Markers, lookup: bool, hasTwoFactor: bool, hasPasskey: bool, at: int) {
    lookup && if hasTwoFactor then Passes(m, Some(TwoFactor), at) else hasPasskey && Passes(m, Some(Passkey), at)
  }

  /** A passkey is deleted only on a verification in force, by two factors if the user has them. */
  lemma DeletionRestsOnVerification(h: seq<Event>, lookup: bool, hasTwoFactor: bool, hasPasskey: bool, t: int)
    requires Clocked(h) && (h != [] ==> h[|h| - 1].at <= t)
    ensures MayDelete(State(h), lookup, hasTwoFactor, hasPasskey, t)
       <==> lookup && (hasTwoFactor || hasPasskey)
            && Granted(h, Some(if hasTwoFactor then TwoFactor else Passkey), t)
  {
    PassesIff(h, Some(if hasTwoFactor then TwoFactor else Passkey), t);
  }

  /** With two factors set up, a passkey is added only on a two-factor verification in force. */
  lemma RegistrationRestsOnVerification(h: seq<Event>, lookup: bool, hasTwoFactor: bool, t: int)
    requires Clocked(h) && (h != [] ==> h[|h| - 1].at <= t)
    ensures MayRegister(State(h), lookup, hasTwoFactor, t)
       <==> lookup && (!hasTwoFactor || Granted(h, Some(TwoFactor), t))
  {
    PassesIff(h, Some(TwoFactor), t);
  }
}
