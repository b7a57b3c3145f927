/** Top-up fulfilment under the per-order lock.

    Any number of threads run EpayNotify, fulfillOrder, sessionAsyncPaymentFailed,
    sessionExpired and AdminCompleteTopUp for any orders. EpayNotify and
    sessionAsyncPaymentFailed read the row, check it and save it back as separate
    database accesses, and EpayNotify credits the user in a third; only the order
    lock keeps these apart. fulfillOrder (through Recharge), sessionExpired and
    AdminCompleteTopUp use one transaction. Every database write may fail. */
module Fulfilment {
  import opened Basics
  import L = OrderLock

  datatype Provider = Epay | Stripe | OtherProvider
  datatype Status = Pending | Success | Failed | Expired

  datatype TopUp = TopUp(user: nat, amount: int, money: real, provider: Provider, payMethod: string, status: Status)

  datatype Job = EpayNotify(paidBy: string) | StripePaid | StripeFailed | StripeExpired | AdminComplete

  /** What a callback still has to do between LockOrder and UnlockOrder. */
  datatype Client =
    | Out
    | Enter(job: Job)                  // before the row is read
    | Save(job: Job, row: TopUp)       // before topUp.Update()
    | Credit(row: TopUp)               // before IncreaseUserQuota
    | Done

  datatype State = State(
    lock: L.State,
    clients: seq<Client>,
    rows: map<string, TopUp>,
    quota: map<nat, int>,
    credits: multiset<string>,         // how often each order has been credited
    lost: set<string>,                 // orders whose credit write failed
    perUnit: real)                     // common.QuotaPerUnit

  /** What an order is worth: dollars paid for Stripe, the amount otherwise. */
  function Worth(row: TopUp, perUnit: real): int {
    Truncate((if row.provider == Stripe then row.money else row.amount as real) * perUnit)
  }

  function Added(quota: map<nat, int>, user: nat, n: int): map<nat, int> {
    if user in quota then quota[user := quota[user] + n] else quota
  }

  // ---- The steps ---------------------------------------------------------

  predicate Init(s: State) {
    && L.Init(s.lock) && |s.clients| == |s.lock.pcs|
    && (forall t :: 0 <= t < |s.clients| ==> s.clients[t] == Out)
    && s.credits == multiset{} && s.lost == {}
  }

  /** The row as the callback will save it, if it decides to save at all. */
  function Decide(job: Job, rows: map<string, TopUp>, o: string): Option<TopUp> {
    if o !in rows || rows[o].status != Pending then None
    else
      match job
      case EpayNotify(m) => if rows[o].provider == Epay then Some(rows[o].(payMethod := m, status := Success)) else None
      case StripePaid => if rows[o].provider == Stripe then Some(rows[o].(status := Success)) else None
      case StripeFailed => if rows[o].provider == Stripe then Some(rows[o].(status := Failed)) else None
      case StripeExpired => if rows[o].provider == Stripe then Some(rows[o].(status := Expired)) else None
      case AdminComplete => Some(rows[o].(status := Success))
  }

  /** One database access of thread t, which holds the lock of order o;
      `ok` says whether a write succeeds. */
  function Access(s: State, t: nat, o: string, ok: bool): (r: State)
    requires t < |s.clients|
    ensures |r.clients| == |s.clients|
  {
    var done := s.(clients := s.clients[t := Done]);
    match s.clients[t]
    case Enter(job) =>
      var saved := Decide(job, s.rows, o);
      if saved.None? then done
      else if job.EpayNotify? || job.StripeFailed? then s.(clients := s.clients[t := Save(job, saved.value)])
      else if !ok || (job.AdminComplete? && Worth(saved.value, s.perUnit) <= 0) then done
      else if job.StripeExpired? then done.(rows := s.rows[o := saved.value])
      else done.(rows := s.rows[o := saved.value],
                 quota := Added(s.quota, saved.value.user, Worth(saved.value, s.perUnit)),
                 credits := s.credits + multiset{o})
    case Save(job, row) =>
      if !ok then done
      else if job.EpayNotify? then s.(clients := s.clients[t := Credit(row)], rows := s.rows[o := row])
      else done.(rows := s.rows[o := row])
    case Credit(row) =>
      var n := Worth(row, s.perUnit);
      if !ok || n < 0 then done.(lost := s.lost + {o})
      else done.(quota := Added(s.quota, row.user, n), credits := s.credits + multiset{o})
    case _ => s
  }

  predicate Called(s: State, t: nat, o: string, job: Job, s': State) {
    && t < |s.clients| && s.clients[t] == Out
    && L.Call(s.lock, t, o, s'.lock)
    && s' == s.(lock := s'.lock, clients := s.clients[t := Enter(job)])
  }

  /** The lock's own steps; UnlockOrder starts once the callback is done. */
  predicate Locked(s: State, t: nat, addr: L.Address, s': State) {
    && t < |s.clients| && L.Stepped(s.lock, t, addr, s'.lock)
    && (s.lock.pcs[t].Holding? ==> s.clients[t] == Done)
    && s' == s.(lock := s'.lock, clients := if s.lock.pcs[t].Holding? then s.clients[t := Out] else s.clients)
  }

  predicate Accessed(s: State, t: nat, ok: bool, s': State) {
    && t < |s.clients| && t < |s.lock.pcs| && s.lock.pcs[t].Holding?
    && (s.clients[t].Enter? || s.clients[t].Save? || s.clients[t].Credit?)
    && s' == Access(s, t, s.lock.pcs[t].o, ok)
  }

  /** RequestEpay and its siblings insert a new pending order. */
  predicate Created(s: State, o: string, row: TopUp, s': State) {
    o !in s.rows && row.status == Pending && s' == s.(rows := s.rows[o := row])
  }

  ghost predicate Next(s: State, s': State) {
    || (exists t: nat, o, job :: Called(s, t, o, job, s'))
    || (exists t: nat, addr: L.Address :: Locked(s, t, addr, s'))
    || (exists t: nat, ok :: Accessed(s, t, ok, s'))
    || (exists o, row :: Created(s, o, row, s'))
  }

  ghost predicate Behaviour(b: seq<State>) {
    |b| > 0 && Init(b[0]) && forall i :: 0 <= i < |b| - 1 ==> Next(b[i], b[i + 1])
  }

  // ---- What the steps keep -----------------------------------------------

  predicate Succeeded(rows: map<string, TopUp>, o: string) {
    o in rows && rows[o].status == Success
  }

  /** Thread t is at a database access for order o. */
  predicate Busy(s: State, t: nat, o: string) {
    t < |s.clients| && t < |s.lock.pcs| && (s.clients[t].Save? || s.clients[t].Credit?)
    && s.lock.pcs[t].Holding? && s.lock.pcs[t].o == o
  }

  predicate Crediting(s: State, t: nat, o: string) {
    Busy(s, t, o) && s.clients[t].Credit?
  }

  predicate Acquiring(pc: L.Pc) {
    pc.WantCreate? || pc.Looking? || pc.Missing? || pc.Found? || pc.Counted? || pc.WantMutex?
  }

  /** What a callback knows of the row it is working on. */
  predicate ClientOk(s0: State, s: State, c: Client, pc: L.Pc) {
    match c
    case Out => !Acquiring(pc) && !pc.Holding?
    case Enter(_) => Acquiring(pc) || pc.Holding?
    case Done => pc.Holding?
    case Save(job, row) =>
      && pc.Holding? && Decide(job, s.rows, pc.o) == Some(row) && (job.EpayNotify? || job.StripeFailed?)
    case Credit(row) =>
      && pc.Holding? && pc.o in s.rows && s.rows[pc.o] == row && row.status == Success && row.provider == Epay
      && s.credits[pc.o] == 0 && pc.o !in s.lost && !Succeeded(s0.rows, pc.o)
  }

  /** No two threads hold the lock of one order. */
  ghost predicate Exclusive(l: L.State) {
    forall t, u | 0 <= t < |l.pcs| && 0 <= u < |l.pcs| && l.pcs[t].Holding? && l.pcs[u].Holding? ::
      l.pcs[t].o == l.pcs[u].o ==> t == u
  }

  ghost predicate ClientsInv(s0: State, s: State) {
    && Exclusive(s.lock) && |s.clients| == |s.lock.pcs|
    && (forall t :: 0 <= t < |s.clients| ==> ClientOk(s0, s, s.clients[t], s.lock.pcs[t]))
  }

  /** An order that succeeded since the start has been credited once, or its
      credit failed, or a thread is about to credit it; no other order has. */
  ghost predicate CreditInv(s0: State, s: State) {
    && (forall o :: s.credits[o] <= 1 && (s.credits[o] == 1 ==> o !in s.lost))
    && (forall o :: s.credits[o] == 1 || o in s.lost ==> Succeeded(s.rows, o) && !Succeeded(s0.rows, o))
    && (forall o :: Succeeded(s.rows, o) && !Succeeded(s0.rows, o) && s.credits[o] == 0 && o !in s.lost ==>
          exists t: nat :: Crediting(s, t, o))
  }

  ghost function Total(orders: set<string>, rows: map<string, TopUp>, perUnit: real): int
    requires orders <= rows.Keys
  {
    if orders == {} then 0
    else var o :| o in orders; Worth(rows[o], perUnit) + Total(orders - {o}, rows, perUnit)
  }

  ghost function CreditedTo(s: State, u: nat): set<string> {
    set o | o in s.rows && s.credits[o] == 1 && s.rows[o].user == u
  }

  ghost predicate LedgerInv(s0: State, s: State) {
    && s.perUnit == s0.perUnit && s.quota.Keys == s0.quota.Keys
    && (forall u :: u in s.quota ==> s.quota[u] == s0.quota[u] + Total(CreditedTo(s, u), s.rows, s.perUnit))
  }

  /** Settled rows stay as they are. */
  ghost predicate Settled(s0: State, s: State) {
    forall o :: o in s0.rows && s0.rows[o].status != Pending ==> o in s.rows && s.rows[o] == s0.rows[o]
  }

  ghost predicate OrdersInv(s0: State, s: State) {
    ClientsInv(s0, s) && CreditInv(s0, s) && LedgerInv(s0, s) && Settled(s0, s)
  }

  ghost predicate Inv(s0: State, s: State) {
    L.Inv(s.lock) && OrdersInv(s0, s)
  }

  lemma {:induction false} TotalAdd(orders: set<string>, o: string, rows: map<string, TopUp>, perUnit: real)
    requires orders + {o} <= rows.Keys && o !in orders
    ensures Total(orders + {o}, rows, perUnit) == Worth(rows[o], perUnit) + Total(orders, rows, perUnit)
    decreases orders
  {
    var all := orders + {o};
    var p :| p in all && Total(all, rows, perUnit) == Worth(rows[p], perUnit) + Total(all - {p}, rows, perUnit);
    if p == o {
      assert all - {p} == orders;
    } else {
      assert all - {p} == (orders - {p}) + {o};
      TotalAdd(orders - {p}, o, rows, perUnit);
      assert (orders - {p}) + {p} == orders;
      TotalAdd(orders - {p}, p, rows, perUnit);
    }
  }

  lemma {:induction false} TotalSame(orders: set<string>, rows: map<string, TopUp>, rows': map<string, TopUp>,
                                     perUnit: real)
    requires orders <= rows.Keys && orders <= rows'.Keys && forall o :: o in orders ==> rows[o] == rows'[o]
    ensures Total(orders, rows, perUnit) == Total(orders, rows', perUnit)
    decreases orders
  {
    if orders != {} {
      var p :| p in orders
               && Total(orders, rows, perUnit) == Worth(rows[p], perUnit) + Total(orders - {p}, rows, perUnit);
      TotalSame(orders - {p}, rows, rows', perUnit);
      assert (orders - {p}) + {p} == orders;
      TotalAdd(orders - {p}, p, rows', perUnit);
    }
  }

  lemma LockIsExclusive(l: L.State)
    requires L.Inv(l)
    ensures Exclusive(l)
  {
    forall t, u | 0 <= t < |l.pcs| && 0 <= u < |l.pcs| && l.pcs[t].Holding? && l.pcs[u].Holding?
                  && l.pcs[t].o == l.pcs[u].o ensures t == u
    {
      L.OneInSection(l, t, u, l.pcs[t].o);
    }
  }

  /** A step that leaves the rows, the credits and the crediting threads alone. */
  lemma SameLedger(s0: State, s: State, s': State)
    requires CreditInv(s0, s) && LedgerInv(s0, s)
    requires s'.rows == s.rows && s'.credits == s.credits && s'.lost == s.lost
             && s'.quota == s.quota && s'.perUnit == s.perUnit
    requires forall t: nat, o :: Crediting(s, t, o) ==> Crediting(s', t, o)
    ensures CreditInv(s0, s') && LedgerInv(s0, s')
  {
    forall u ensures CreditedTo(s', u) == CreditedTo(s, u) { }
  }

  lemma CalledKeepsInv(s0: State, s: State, t: nat, o: string, job: Job, s': State)
    requires OrdersInv(s0, s) && Called(s, t, o, job, s')
    ensures OrdersInv(s0, s')
  {
    SameLedger(s0, s, s') by {
      forall u: nat, p | Crediting(s, u, p) ensures Crediting(s', u, p) { }
    }
    forall u | 0 <= u < |s.clients| ensures ClientOk(s0, s', s'.clients[u], s'.lock.pcs[u]) {
      assert ClientOk(s0, s, s.clients[u], s.lock.pcs[u]);
    }
  }

  lemma LockedKeepsInv(s0: State, s: State, t: nat, addr: L.Address, s': State)
    requires OrdersInv(s0, s) && Locked(s, t, addr, s') && Exclusive(s'.lock)
    ensures OrdersInv(s0, s')
  {
    AcquiresThenHolds(s.lock.pcs[t], s.lock.mem, addr);
    assert ClientOk(s0, s, s.clients[t], s.lock.pcs[t]);
    SameLedger(s0, s, s') by {
      forall u: nat, o | Crediting(s, u, o) ensures Crediting(s', u, o) { }
    }
    forall u | 0 <= u < |s.clients| ensures ClientOk(s0, s', s'.clients[u], s'.lock.pcs[u]) {
      assert ClientOk(s0, s, s.clients[u], s.lock.pcs[u]);
    }
  }

  lemma AcquiresThenHolds(pc: L.Pc, g: L.Shared, addr: L.Address)
    requires L.Advance(pc, g, addr).Some?
    ensures var pc' := L.Advance(pc, g, addr).value.0;
            && (Acquiring(pc) ==> Acquiring(pc') || pc'.Holding?)
            && (!Acquiring(pc) ==> !Acquiring(pc') && !pc'.Holding?)
  {
  }

  lemma CreatedKeepsInv(s0: State, s: State, o: string, row: TopUp, s': State)
    requires OrdersInv(s0, s) && Created(s, o, row, s')
    ensures OrdersInv(s0, s')
  {
    forall u | 0 <= u < |s.clients| ensures ClientOk(s0, s', s'.clients[u], s'.lock.pcs[u]) {
      assert ClientOk(s0, s, s.clients[u], s.lock.pcs[u]);
    }
    forall p | Succeeded(s'.rows, p) && !Succeeded(s0.rows, p) && s.credits[p] == 0 && p !in s.lost
      ensures exists t: nat :: Crediting(s', t, p)
    {
      assert Succeeded(s.rows, p);
      var t: nat :| Crediting(s, t, p);
      assert Crediting(s', t, p);
    }
    forall u | u in s.quota ensures s'.quota[u] == s0.quota[u] + Total(CreditedTo(s', u), s'.rows, s.perUnit) {
      assert s.credits[o] != 1;
      assert CreditedTo(s', u) == CreditedTo(s, u);
      TotalSame(CreditedTo(s, u), s.rows, s'.rows, s.perUnit);
    }
  }

  /** An access of t for order o touches no other order and no other thread. */
  ghost predicate OnlyAt(s: State, t: nat, o: string, s': State) {
    && s'.lock == s.lock && |s'.clients| == |s.clients| && s'.perUnit == s.perUnit
    && (forall u :: 0 <= u < |s.clients| && u != t ==> s'.clients[u] == s.clients[u])
    && (forall p :: p != o ==> (p in s'.rows <==> p in s.rows) && (p in s.rows ==> s'.rows[p] == s.rows[p]))
    && (forall p :: p != o ==> s'.credits[p] == s.credits[p] && (p in s'.lost <==> p in s.lost))
    && (o in s.rows ==> o in s'.rows) && (s.credits[o] <= s'.credits[o])
  }

  lemma AccessIsLocal(s: State, t: nat, ok: bool, s': State)
    requires Accessed(s, t, ok, s')
    ensures OnlyAt(s, t, s.lock.pcs[t].o, s')
  {
  }

  lemma OthersKeepOk(s0: State, s: State, t: nat, o: string, s': State, u: nat)
    requires ClientsInv(s0, s) && OnlyAt(s, t, o, s')
    requires t < |s.clients| && s.lock.pcs[t].Holding? && s.lock.pcs[t].o == o
    requires u < |s.clients| && u != t
    ensures ClientOk(s0, s', s'.clients[u], s'.lock.pcs[u])
  {
    assert ClientOk(s0, s, s.clients[u], s.lock.pcs[u]);
  }

  lemma AccessKeepsClients(s0: State, s: State, t: nat, ok: bool, s': State)
    requires OrdersInv(s0, s) && Accessed(s, t, ok, s')
    ensures ClientsInv(s0, s')
  {
    var o := s.lock.pcs[t].o;
    AccessIsLocal(s, t, ok, s');
    forall u | 0 <= u < |s.clients| ensures ClientOk(s0, s', s'.clients[u], s'.lock.pcs[u]) {
      if u != t {
        OthersKeepOk(s0, s, t, o, s', u);
      } else {
        assert ClientOk(s0, s, s.clients[t], s.lock.pcs[t]);
        if s.clients[t].Save? {
          UnsettledIsUncredited(s0, s, o);
        }
      }
    }
  }

  /** A pending order has no credit, no lost credit, and did not succeed before. */
  lemma UnsettledIsUncredited(s0: State, s: State, o: string)
    requires CreditInv(s0, s) && Settled(s0, s) && o in s.rows && s.rows[o].status == Pending
    ensures s.credits[o] == 0 && o !in s.lost && !Succeeded(s0.rows, o)
  {
    assert !Succeeded(s.rows, o);
  }

  /** A thread saves or commits only rows it has found pending. */
  lemma SettledRowsStay(s0: State, s: State, t: nat, ok: bool, s': State)
    requires OrdersInv(s0, s) && Accessed(s, t, ok, s')
    ensures Settled(s, s') && Settled(s0, s')
  {
    AccessIsLocal(s, t, ok, s');
    assert ClientOk(s0, s, s.clients[t], s.lock.pcs[t]);
  }

  /** An access either moves no money, or credits its order once, for what the
      saved row is worth. */
  ghost predicate MovesNothing(s: State, o: string, s': State) {
    && s'.quota == s.quota && s'.credits == s.credits
    && (s.credits[o] == 1 ==> o in s.rows && o in s'.rows && s'.rows[o] == s.rows[o])
  }

  ghost predicate Pays(s: State, o: string, s': State) {
    && s.credits[o] == 0 && s'.credits == s.credits + multiset{o} && o in s'.rows
    && s'.quota == Added(s.quota, s'.rows[o].user, Worth(s'.rows[o], s.perUnit))
  }

  lemma AccessPaysOnce(s0: State, s: State, t: nat, ok: bool, s': State)
    requires OrdersInv(s0, s) && Accessed(s, t, ok, s')
    ensures var o := s.lock.pcs[t].o; MovesNothing(s, o, s') || Pays(s, o, s')
  {
    var o := s.lock.pcs[t].o;
    assert ClientOk(s0, s, s.clients[t], s.lock.pcs[t]);
    if o in s.rows && s.rows[o].status == Pending { UnsettledIsUncredited(s0, s, o); }
  }

  lemma AccessKeepsLedger(s0: State, s: State, t: nat, o: string, s': State)
    requires LedgerInv(s0, s) && OnlyAt(s, t, o, s') && (MovesNothing(s, o, s') || Pays(s, o, s'))
    ensures LedgerInv(s0, s')
  {
    forall u | u in s.quota ensures s'.quota[u] == s0.quota[u] + Total(CreditedTo(s', u), s'.rows, s.perUnit) {
      TotalMoves(s, t, o, s', u);
      if MovesNothing(s, o, s') || s'.rows[o].user != u {
        assert s'.quota[u] == s.quota[u];
      } else {
        assert s'.quota[u] == s.quota[u] + Worth(s'.rows[o], s.perUnit);
      }
    }
  }

  /** What user u has been credited grows by the order's worth, if it is u's and is paid. */
  lemma TotalMoves(s: State, t: nat, o: string, s': State, u: nat)
    requires OnlyAt(s, t, o, s') && (MovesNothing(s, o, s') || Pays(s, o, s'))
    ensures Total(CreditedTo(s', u), s'.rows, s.perUnit)
         == Total(CreditedTo(s, u), s.rows, s.perUnit)
            + (if MovesNothing(s, o, s') || s'.rows[o].user != u then 0 else Worth(s'.rows[o], s.perUnit))
  {
    var was, now := CreditedTo(s, u), CreditedTo(s', u);
    TotalSame(was, s.rows, s'.rows, s.perUnit);
    if MovesNothing(s, o, s') || s'.rows[o].user != u {
      assert now == was;
    } else {
      assert now == was + {o};
      TotalAdd(was, o, s'.rows, s.perUnit);
    }
  }

  /** What an access does to the status of its order's credit. */
  lemma AccessCredit(s0: State, s: State, t: nat, ok: bool, s': State)
    requires OrdersInv(s0, s) && Accessed(s, t, ok, s')
    ensures var o := s.lock.pcs[t].o;
            && s'.credits[o] <= 1 && (s'.credits[o] == 1 ==> o !in s'.lost)
            && (s'.credits[o] == 1 || o in s'.lost ==> Succeeded(s'.rows, o) && !Succeeded(s0.rows, o))
            && (Succeeded(s'.rows, o) && !Succeeded(s.rows, o) && s'.credits[o] == 0 ==> s'.clients[t].Credit?)
            && (s.clients[t].Credit? ==> s'.credits[o] == 1 || o in s'.lost)
  {
    var o := s.lock.pcs[t].o;
    assert ClientOk(s0, s, s.clients[t], s.lock.pcs[t]);
    if o in s.rows && s.rows[o].status == Pending { UnsettledIsUncredited(s0, s, o); }
  }

  lemma AccessKeepsCredit(s0: State, s: State, t: nat, ok: bool, s': State)
    requires OrdersInv(s0, s) && Accessed(s, t, ok, s')
    ensures CreditInv(s0, s')
  {
    var o := s.lock.pcs[t].o;
    AccessIsLocal(s, t, ok, s');
    AccessCredit(s0, s, t, ok, s');
    forall p | Succeeded(s'.rows, p) && !Succeeded(s0.rows, p) && s'.credits[p] == 0 && p !in s'.lost
      ensures exists u: nat :: Crediting(s', u, p)
    {
      if Succeeded(s.rows, p) {
        var u: nat :| Crediting(s, u, p);
        assert u != t && Crediting(s', u, p);
      } else {
        assert Crediting(s', t, o);
      }
    }
    forall p ensures s'.credits[p] <= 1 && (s'.credits[p] == 1 ==> p !in s'.lost) { }
    forall p | s'.credits[p] == 1 || p in s'.lost ensures Succeeded(s'.rows, p) && !Succeeded(s0.rows, p) { }
  }

  lemma OrdersNext(s0: State, s: State, s': State)
    requires OrdersInv(s0, s) && Next(s, s') && Exclusive(s'.lock)
    ensures OrdersInv(s0, s') && Settled(s, s')
  {
    if t: nat, o, job :| Called(s, t, o, job, s') {
      CalledKeepsInv(s0, s, t, o, job, s');
    } else if t: nat, addr: L.Address :| Locked(s, t, addr, s') {
      LockedKeepsInv(s0, s, t, addr, s');
    } else if o, row :| Created(s, o, row, s') {
      CreatedKeepsInv(s0, s, o, row, s');
    } else {
      var t: nat, ok :| Accessed(s, t, ok, s');
      AccessIsLocal(s, t, ok, s');
      AccessPaysOnce(s0, s, t, ok, s');
      AccessKeepsClients(s0, s, t, ok, s');
      AccessKeepsCredit(s0, s, t, ok, s');
      AccessKeepsLedger(s0, s, t, s.lock.pcs[t].o, s');
      SettledRowsStay(s0, s, t, ok, s');
    }
  }

  lemma LockMoves(s: State, s': State)
    requires Next(s, s')
    ensures s'.lock == s.lock || L.Next(s.lock, s'.lock)
  {
    if t: nat, o, job :| Called(s, t, o, job, s') {
    } else if t: nat, addr: L.Address :| Locked(s, t, addr, s') {
      assert L.Steps(s.lock, s'.lock);
    }
  }

  lemma {:induction false} LockAlwaysInv(b: seq<State>, i: nat)
    requires Behaviour(b) && i < |b|
    ensures L.Inv(b[i].lock)
  {
    if i == 0 {
      L.AlwaysInv([b[0].lock], 0);
    } else {
      LockAlwaysInv(b, i - 1);
      LockMoves(b[i - 1], b[i]);
      if b[i].lock != b[i - 1].lock { L.NextKeepsInv(b[i - 1].lock, b[i].lock); }
    }
  }

  lemma AlwaysExclusive(b: seq<State>, i: nat)
    requires Behaviour(b) && i < |b|
    ensures Exclusive(b[i].lock)
  {
    LockAlwaysInv(b, i);
    LockIsExclusive(b[i].lock);
  }

  lemma {:induction false} AlwaysInv(b: seq<State>, i: nat)
    requires Behaviour(b) && i < |b|
    ensures OrdersInv(b[0], b[i])
  {
    AlwaysExclusive(b, i);
    if i == 0 {
      forall u ensures CreditedTo(b[0], u) == {} { }
    } else {
      AlwaysInv(b, i - 1);
      OrdersNext(b[0], b[i - 1], b[i]);
    }
  }

  // ---- What the callers rely on ------------------------------------------

  /** An order leaves pending at most once: a row that is no longer pending never
      changes again, by whatever callbacks in whatever interleaving. */
  lemma LeavesPendingOnce(b: seq<State>, i: nat, j: nat, o: string)
    requires Behaviour(b) && i <= j < |b| && o in b[i].rows && b[i].rows[o].status != Pending
    ensures o in b[j].rows && b[j].rows[o] == b[i].rows[o]
  {
    forall k: nat | k + 1 < |b| ensures Settled(b[k], b[k + 1]) { StepKeepsSettled(b, k); }
    SettledStays(b, i, j, o);
  }

  lemma {:induction false} SettledStays(b: seq<State>, i: nat, j: nat, o: string)
    requires i <= j < |b| && o in b[i].rows && b[i].rows[o].status != Pending
    requires forall k: nat :: k + 1 < |b| ==> Settled(b[k], b[k + 1])
    ensures o in b[j].rows && b[j].rows[o] == b[i].rows[o]
  {
    if i < j {
      SettledStays(b, i, j - 1, o);
      assert Settled(b[j - 1], b[j - 1 + 1]);
    }
  }

  lemma StepKeepsSettled(b: seq<State>, i: nat)
    requires Behaviour(b) && i + 1 < |b|
    ensures Settled(b[i], b[i + 1])
  {
    AlwaysInv(b, i);
    AlwaysExclusive(b, i + 1);
    OrdersNext(b[0], b[i], b[i + 1]);
  }

  /** An order is credited at most once, and only after it has succeeded. */
  lemma CreditedAtMostOnce(b: seq<State>, i: nat, o: string)
    requires Behaviour(b) && i < |b|
    ensures b[i].credits[o] <= 1
    ensures b[i].credits[o] == 1 ==> Succeeded(b[i].rows, o) && !Succeeded(b[0].rows, o)
  {
    AlwaysInv(b, i);
  }

  /** The orders of user u that have succeeded since the start. */
  ghost function NewlyPaid(s0: State, s: State, u: nat): set<string> {
    set o | o in s.rows && Succeeded(s.rows, o) && !Succeeded(s0.rows, o) && s.rows[o].user == u
  }

  /** Once every callback has returned, each user's quota is the initial one plus what
      the user's successful orders are worth, except those whose credit write failed. */
  lemma QuotaAtQuiescence(b: seq<State>, i: nat, u: nat)
    requires Behaviour(b) && i < |b| && L.AllIdle(b[i].lock)
    requires u in b[0].quota
    ensures u in b[i].quota
    ensures b[i].quota[u] == b[0].quota[u] + Total(NewlyPaid(b[0], b[i], u) - b[i].lost, b[i].rows, b[0].perUnit)
  {
    AlwaysInv(b, i);
    var s := b[i];
    forall o | Succeeded(s.rows, o) && !Succeeded(b[0].rows, o) && o !in s.lost ensures s.credits[o] == 1 {
      assert forall t: nat :: !Crediting(s, t, o);
    }
    assert NewlyPaid(b[0], s, u) - s.lost == CreditedTo(s, u);
  }

  // ---- What a callback does ----------------------------------------------

  /** Three accesses take every callback from its first read to its end. */
  function Through(s: State, t: nat, o: string): State
    requires t < |s.clients|
  {
    Access(Access(Access(s, t, o, true), t, o, true), t, o, true)
  }

  /** The order is one that the callback settles; n is what it is worth. */
  predicate Fits(job: Job, row: TopUp, n: int) {
    && row.status == Pending
    && (job.EpayNotify? ==> row.provider == Epay)
    && (job.StripePaid? || job.StripeFailed? || job.StripeExpired? ==> row.provider == Stripe)
    && (job.AdminComplete? ==> n > 0)
  }

  predicate Paying(job: Job) {
    job.EpayNotify? || job.StripePaid? || job.AdminComplete?
  }

  /** What the callback promises to make of the row. */
  predicate Promised(job: Job, row: TopUp, after: TopUp) {
    && (Paying(job) ==> after.status == Success)
    && (job.StripeFailed? ==> after.status == Failed)
    && (job.StripeExpired? ==> after.status == Expired)
    && after.payMethod == (if job.EpayNotify? then job.paidBy else row.payMethod)
    && after.user == row.user && after.amount == row.amount && after.money == row.money
    && after.provider == row.provider
  }

  /** What an order is worth: dollars or amount times the quota per unit, cut to an integer. */
  predicate WorthOf(row: TopUp, perUnit: real, n: int) {
    Cut(n, (if row.provider == Stripe then row.money else row.amount as real) * perUnit)
  }

  lemma WorthIs(row: TopUp, perUnit: real, n: int)
    ensures WorthOf(row, perUnit, n) <==> n == Worth(row, perUnit)
  {
  }

  /** The order is credited with n, or was to be and that is lost, or no money moves. */
  ghost predicate Credits(s: State, o: string, user: nat, n: int, s': State) {
    && s'.credits == s.credits + multiset{o} && s'.lost == s.lost && s'.quota.Keys == s.quota.Keys
    && (forall u :: u in s.quota ==> s'.quota[u] == s.quota[u] + if u == user then n else 0)
  }

  ghost predicate Settles(s: State, o: string, job: Job, n: int, s': State)
    requires o in s.rows
  {
    && s'.rows.Keys == s.rows.Keys && Promised(job, s.rows[o], s'.rows[o])
    && (forall p :: p in s.rows && p != o ==> s'.rows[p] == s.rows[p])
    && if Paying(job) && (job.EpayNotify? ==> n >= 0) then Credits(s, o, s.rows[o].user, n, s')
       else s'.quota == s.quota && s'.credits == s.credits && s'.lost == s.lost + if Paying(job) then {o} else {}
  }

  lemma DoneStays(s: State, t: nat, o: string)
    requires t < |s.clients| && s.clients[t] == Done
    ensures Access(s, t, o, true) == s
  {
  }

  lemma NothingToSettle(s: State, t: nat, o: string, job: Job)
    requires t < |s.clients| && s.clients[t] == Enter(job)
    requires o !in s.rows || !Fits(job, s.rows[o], Worth(s.rows[o], s.perUnit))
    ensures Through(s, t, o) == s.(clients := s.clients[t := Done])
  {
    var s1 := Access(s, t, o, true);
    if o in s.rows { assert Worth(s.rows[o].(status := Success), s.perUnit) == Worth(s.rows[o], s.perUnit); }
    assert s1 == s.(clients := s.clients[t := Done]);
    DoneStays(s1, t, o);
  }

  lemma EpaySettles(s: State, t: nat, o: string, m: string)
    requires t < |s.clients| && s.clients[t] == Enter(EpayNotify(m))
    requires o in s.rows && s.rows[o].status == Pending && s.rows[o].provider == Epay
    ensures var s' := Through(s, t, o);
            s'.clients == s.clients[t := Done] && Settles(s, o, EpayNotify(m), Worth(s.rows[o], s.perUnit), s')
  {
    var row := s.rows[o].(payMethod := m, status := Success);
    var s1 := Access(s, t, o, true);
    assert s1 == s.(clients := s.clients[t := Save(EpayNotify(m), row)]);
    var s2 := Access(s1, t, o, true);
    assert s2 == s.(clients := s.clients[t := Credit(row)], rows := s.rows[o := row]);
    assert Worth(row, s.perUnit) == Worth(s.rows[o], s.perUnit);
  }

  lemma FailureSettles(s: State, t: nat, o: string)
    requires t < |s.clients| && s.clients[t] == Enter(StripeFailed)
    requires o in s.rows && s.rows[o].status == Pending && s.rows[o].provider == Stripe
    ensures Through(s, t, o) == s.(clients := s.clients[t := Done], rows := s.rows[o := s.rows[o].(status := Failed)])
  {
    var row := s.rows[o].(status := Failed);
    var s1 := Access(s, t, o, true);
    assert s1 == s.(clients := s.clients[t := Save(StripeFailed, row)]);
    var s2 := Access(s1, t, o, true);
    assert s2.clients == s.clients[t := Done];
    DoneStays(s2, t, o);
  }

  lemma TransactionSettles(s: State, t: nat, o: string, job: Job)
    requires t < |s.clients| && s.clients[t] == Enter(job) && !job.EpayNotify? && !job.StripeFailed?
    requires o in s.rows && Fits(job, s.rows[o], Worth(s.rows[o], s.perUnit))
    ensures var row := s.rows[o].(status := if job.StripeExpired? then Expired else Success);
            var kept := s.(clients := s.clients[t := Done], rows := s.rows[o := row]);
            Through(s, t, o) == if job.StripeExpired? then kept
              else kept.(quota := Added(s.quota, row.user, Worth(s.rows[o], s.perUnit)),
                         credits := s.credits + multiset{o})
  {
    var row := s.rows[o].(status := if job.StripeExpired? then Expired else Success);
    assert Decide(job, s.rows, o) == Some(row);
    assert Worth(row, s.perUnit) == Worth(s.rows[o], s.perUnit);
    var s1 := Access(s, t, o, true);
    assert s1.clients == s.clients[t := Done];
    DoneStays(s1, t, o);
  }

  /** The other callbacks settle the order in one transaction, or read and then save it. */
  lemma StripeOrAdminSettles(s: State, t: nat, o: string, job: Job)
    requires t < |s.clients| && s.clients[t] == Enter(job) && !job.EpayNotify?
    requires o in s.rows && Fits(job, s.rows[o], Worth(s.rows[o], s.perUnit))
    ensures var s' := Through(s, t, o);
            s'.clients == s.clients[t := Done] && Settles(s, o, job, Worth(s.rows[o], s.perUnit), s')
  {
    if job.StripeFailed? { FailureSettles(s, t, o); } else { TransactionSettles(s, t, o, job); }
  }

  /** A callback whose accesses all go through settles exactly the orders that fit it, as it
      promises, and if it is one of a payment credits the order's user once with what it is
      worth (an Epay credit below zero is lost); other orders it leaves alone. */
  lemma CallbackOutcome(s: State, t: nat, o: string, job: Job, n: int)
    requires t < |s.clients| && s.clients[t] == Enter(job)
    requires o in s.rows ==> WorthOf(s.rows[o], s.perUnit, n)
    ensures var s' := Through(s, t, o);
            && s'.clients == s.clients[t := Done]
            && if o in s.rows && Fits(job, s.rows[o], n) then Settles(s, o, job, n, s')
               else s' == s.(clients := s'.clients)
  {
    if o in s.rows { WorthIs(s.rows[o], s.perUnit, n); }
    if o !in s.rows || !Fits(job, s.rows[o], n) {
      NothingToSettle(s, t, o, job);
    } else if job.EpayNotify? {
      EpaySettles(s, t, o, job.paidBy);
    } else {
      StripeOrAdminSettles(s, t, o, job);
    }
  }

  /** The step is an access of t that would have done something else had it not failed. */
  ghost predicate FailsAt(s: State, t: nat, s': State) {
    Accessed(s, t, false, s') && !Accessed(s, t, true, s')
  }

  /** Thread t is at work before and after the step, and no access of its fails. */
  ghost predicate GoesOn(s: State, t: nat, s': State) {
    t < |s.clients| && t < |s'.clients| && s'.clients[t] != Out && !FailsAt(s, t, s')
  }

  /** So it is from state i to state j of a run. */
  ghost predicate GoesThrough(b: seq<State>, i: nat, j: nat, t: nat) {
    i <= j < |b| && forall k: nat :: i <= k < j ==> GoesOn(b[k], t, b[k + 1])
  }

  /** The order is one that the callback settles, and not for a negative amount. */
  predicate Due(job: Job, row: TopUp, perUnit: real, n: int) {
    WorthOf(row, perUnit, n) && Fits(job, row, n) && n >= 0
  }

  /** How far a callback that goes through has come with an order that is due. */
  ghost predicate Reached(s: State, t: nat, o: string, job: Job, row: TopUp) {
    && t < |s.clients| && t < |s.lock.pcs| && s.lock.pcs[t].Holding? && s.lock.pcs[t].o == o && o in s.rows
    && match s.clients[t]
       case Out => false
       case Enter(j) => j == job && s.rows[o] == row
       case Save(j, saved) => j == job && s.rows[o] == row && Promised(job, row, saved)
       case Credit(saved) => job.EpayNotify? && s.rows[o] == saved && Promised(job, row, saved)
       case Done => Promised(job, row, s.rows[o]) && s.credits[o] == if Paying(job) then 1 else 0
  }

  lemma EnterReaches(s: State, t: nat, o: string, job: Job, n: int)
    requires t < |s.clients| && t < |s.lock.pcs| && s.lock.pcs[t].Holding? && s.lock.pcs[t].o == o
    requires o in s.rows && s.clients[t] == Enter(job) && s.credits[o] == 0 && Due(job, s.rows[o], s.perUnit, n)
    ensures Reached(Access(s, t, o, true), t, o, job, s.rows[o])
  {
    WorthIs(s.rows[o], s.perUnit, n);
    var saved := Decide(job, s.rows, o);
    assert saved.Some? && Promised(job, s.rows[o], saved.value);
    assert Worth(saved.value, s.perUnit) == n;
  }

  lemma OwnAccessReaches(s0: State, s: State, t: nat, o: string, s': State, job: Job, row: TopUp, n: int)
    requires OrdersInv(s0, s) && Accessed(s, t, true, s') && Reached(s, t, o, job, row) && Due(job, row, s.perUnit, n)
    ensures Reached(s', t, o, job, row)
  {
    assert ClientOk(s0, s, s.clients[t], s.lock.pcs[t]);
    if s.rows[o].status == Pending { UnsettledIsUncredited(s0, s, o); }
    match s.clients[t] {
      case Enter(_) => EnterReaches(s, t, o, job, n);
      case Save(_, _) => assert job.EpayNotify? || job.StripeFailed?;
      case Credit(saved) =>
        WorthIs(row, s.perUnit, n);
        assert Worth(saved, s.perUnit) == n;
    }
  }

  lemma StepReaches(s0: State, s: State, s': State, t: nat, o: string, job: Job, row: TopUp, n: int)
    requires OrdersInv(s0, s) && Next(s, s') && GoesOn(s, t, s')
    requires Reached(s, t, o, job, row) && Due(job, row, s.perUnit, n)
    ensures Reached(s', t, o, job, row)
  {
    if u: nat, p, j :| Called(s, u, p, j, s') {
    } else if u: nat, addr: L.Address :| Locked(s, u, addr, s') {
    } else if p, r :| Created(s, p, r, s') {
    } else {
      var u: nat, ok :| Accessed(s, u, ok, s');
      if u == t {
        OwnAccessReaches(s0, s, t, o, s', job, row, n);
      } else {
        AccessIsLocal(s, u, ok, s');
      }
    }
  }

  lemma {:induction false} RunReaches(b: seq<State>, i: nat, j: nat, t: nat, o: string, job: Job, row: TopUp)
    requires GoesThrough(b, i, j, t) && Reached(b[i], t, o, job, row)
    requires forall k: nat | k + 1 < |b| && GoesOn(b[k], t, b[k + 1]) && Reached(b[k], t, o, job, row) ::
               Reached(b[k + 1], t, o, job, row)
    ensures Reached(b[j], t, o, job, row)
  {
    if i < j {
      RunReaches(b, i, j - 1, t, o, job, row);
      assert GoesOn(b[j - 1], t, b[j - 1 + 1]);
    }
  }

  /** Whatever other threads do meanwhile, a callback that finds an order that is due, and
      whose accesses go through, ends with the order settled as promised and, for a payment,
      credited; and the order stays so. */
  lemma CallbackSettles(b: seq<State>, i: nat, j: nat, k: nat, t: nat, o: string, n: int)
    requires Behaviour(b) && GoesThrough(b, i, j, t) && j <= k < |b|
    requires t < |b[i].clients| && t < |b[i].lock.pcs| && b[i].lock.pcs[t].Holding? && b[i].lock.pcs[t].o == o
    requires t < |b[j].clients| && b[i].clients[t].Enter? && b[j].clients[t] == Done
    requires o in b[i].rows && Due(b[i].clients[t].job, b[i].rows[o], b[0].perUnit, n)
    ensures o in b[k].rows && Promised(b[i].clients[t].job, b[i].rows[o], b[k].rows[o])
    ensures b[j].credits[o] == if Paying(b[i].clients[t].job) then 1 else 0
  {
    var job, row := b[i].clients[t].job, b[i].rows[o];
    forall m: nat | m + 1 < |b| && GoesOn(b[m], t, b[m + 1]) && Reached(b[m], t, o, job, row)
      ensures Reached(b[m + 1], t, o, job, row)
    {
      AlwaysInv(b, m);
      StepReaches(b[0], b[m], b[m + 1], t, o, job, row, n);
    }
    RunReaches(b, i, j, t, o, job, row);
    LeavesPendingOnce(b, j, k, o);
  }

  /** A callback in flight takes a step of its own. */
  ghost predicate Works(s: State, s': State) {
    (exists t: nat, addr: L.Address :: Locked(s, t, addr, s')) || (exists t: nat, ok :: Accessed(s, t, ok, s'))
  }

  /** The callbacks never block each other for good: while one is in flight, one
      of them can take a step. */
  lemma CallbacksProgress(b: seq<State>, i: nat)
    requires Behaviour(b) && i < |b| && !L.AllIdle(b[i].lock)
    ensures exists s' :: Works(b[i], s')
  {
    AlwaysInv(b, i);
    var t, addr, l' := LockCanStep(b, i);
    var s := b[i];
    assert ClientOk(b[0], s, s.clients[t], s.lock.pcs[t]);
    var s': State;
    if s.lock.pcs[t].Holding? && s.clients[t] != Done {
      s' := Access(s, t, s.lock.pcs[t].o, true);
      assert Accessed(s, t, true, s');
    } else {
      s' := s.(lock := l', clients := if s.lock.pcs[t].Holding? then s.clients[t := Out] else s.clients);
      assert Locked(s, t, addr, s');
    }
    assert Works(s, s');
  }

  lemma LockCanStep(b: seq<State>, i: nat) returns (t: nat, addr: L.Address, l': L.State)
    requires Behaviour(b) && i < |b| && !L.AllIdle(b[i].lock)
    ensures L.Stepped(b[i].lock, t, addr, l')
  {
    LockAlwaysInv(b, i);
    L.InvCanStep(b[i].lock);
    l' :| L.Steps(b[i].lock, l');
    t, addr :| L.Stepped(b[i].lock, t, addr, l');
  }
}
