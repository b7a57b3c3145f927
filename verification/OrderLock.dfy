/** The per-order lock of the payment callbacks.

    `orderLocks` maps a trade number to a reference-counted mutex. `createLock`
    guards every write of the map and of the counts, but `UnlockOrder` loads the
    map without it. The model is a state machine with one program counter per
    thread, one step per shared-memory access, for any number of threads and
    orders. Go mutexes carry no owner, so `locked` and `createLock` are plain
    booleans here; that they have an owner at all is part of what is proved. */
module OrderLock {
  import opened Basics

  type Order = string
  /** The address of a refCountedMutex. */
  type Address = nat

  datatype Rcm = Rcm(locked: bool, refCount: int)

  /** Where a thread stands in LockOrder (down to Holding) and UnlockOrder;
      m is the address it works with, taken has in Loaded the one it locked. */
  datatype Pc =
    | Idle
    | WantCreate(o: Order)                            // before createLock.Lock()
    | Looking(o: Order)                               // before orderLocks.Load
    | Missing(o: Order)                               // before orderLocks.Store
    | Found(o: Order, m: Address)                     // before refCount++
    | Counted(o: Order, m: Address)                   // before createLock.Unlock()
    | WantMutex(o: Order, m: Address)                 // before rcm.mu.Lock()
    | Holding(o: Order, m: Address)                   // LockOrder has returned
    | Loaded(o: Order, m: Address, taken: Address)    // m loaded by UnlockOrder
    | Released(o: Order, m: Address)                  // m.mu.Unlock() done
    | Dropping(o: Order, m: Address)                  // createLock held again
    | Dropped(o: Order, m: Address)                   // refCount-- done
    | Leaving                                         // before createLock.Unlock()

  /** The memory the threads share. */
  datatype Shared = Shared(createLock: bool, table: map<Order, Address>, heap: map<Address, Rcm>)

  datatype State = State(mem: Shared, pcs: seq<Pc>)

  // ---- The steps ---------------------------------------------------------

  predicate Init(s: State) {
    s.mem == Shared(false, map[], map[]) && forall t :: 0 <= t < |s.pcs| ==> s.pcs[t] == Idle
  }

  /** The next step of a thread at pc, or None when it is blocked or idle.
      `addr` is the address the allocator returns if the step allocates. */
  function Advance(pc: Pc, g: Shared, addr: Address): Option<(Pc, Shared)> {
    match pc
    case Idle => None
    case WantCreate(o) =>
      if g.createLock then None else Some((Looking(o), g.(createLock := true)))
    case Looking(o) =>
      Some((if o in g.table then Found(o, g.table[o]) else Missing(o), g))
    case Missing(o) =>
      if addr in g.heap then None
      else Some((Found(o, addr), g.(table := g.table[o := addr], heap := g.heap[addr := Rcm(false, 0)])))
    case Found(o, m) =>
      if m !in g.heap then None
      else Some((Counted(o, m), g.(heap := g.heap[m := g.heap[m].(refCount := g.heap[m].refCount + 1)])))
    case Counted(o, m) => Some((WantMutex(o, m), g.(createLock := false)))
    case WantMutex(o, m) =>
      if m !in g.heap || g.heap[m].locked then None
      else Some((Holding(o, m), g.(heap := g.heap[m := g.heap[m].(locked := true)])))
    case Holding(o, m) =>
      Some((if o in g.table then Loaded(o, g.table[o], m) else Idle, g))
    case Loaded(o, m, _) =>
      if m !in g.heap then None
      else Some((Released(o, m), g.(heap := g.heap[m := g.heap[m].(locked := false)])))
    case Released(o, m) =>
      if g.createLock then None else Some((Dropping(o, m), g.(createLock := true)))
    case Dropping(o, m) =>
      if m !in g.heap then None
      else Some((Dropped(o, m), g.(heap := g.heap[m := g.heap[m].(refCount := g.heap[m].refCount - 1)])))
    case Dropped(o, m) =>
      if m !in g.heap then None
      else Some((Leaving, g.(table := if g.heap[m].refCount == 0 then g.table - {o} else g.table)))
    case Leaving => Some((Idle, g.(createLock := false)))
  }

  /** An idle thread calls LockOrder(o). */
  predicate Call(s: State, t: nat, o: Order, s': State) {
    t < |s.pcs| && s.pcs[t] == Idle && s' == State(s.mem, s.pcs[t := WantCreate(o)])
  }

  predicate Stepped(s: State, t: nat, addr: Address, s': State) {
    && t < |s.pcs|
    && var next := Advance(s.pcs[t], s.mem, addr);
    next.Some? && s' == State(next.value.1, s.pcs[t := next.value.0])
  }

  ghost predicate Next(s: State, s': State) {
    (exists t: nat, o :: Call(s, t, o, s')) || Steps(s, s')
  }

  /** Some call in flight takes a step. */
  ghost predicate Steps(s: State, s': State) {
    exists t: nat, addr: Address :: Stepped(s, t, addr, s')
  }

  ghost predicate Behaviour(b: seq<State>) {
    && |b| > 0 && Init(b[0])
    && forall i :: 0 <= i < |b| - 1 ==> Next(b[i], b[i + 1])
  }

  // ---- What the steps keep -----------------------------------------------

  predicate InCreate(pc: Pc) {
    pc.Looking? || pc.Missing? || pc.Found? || pc.Counted? || pc.Dropping? || pc.Dropped? || pc.Leaving?
  }

  /** The thread has been counted in m and not yet been discounted. */
  predicate Registered(pc: Pc, m: Address) {
    (pc.Counted? || pc.WantMutex? || pc.Holding? || pc.Loaded? || pc.Released? || pc.Dropping?) && pc.m == m
  }

  /** The thread has locked m and not yet unlocked anything. */
  predicate Holds(pc: Pc, m: Address) {
    (pc.Holding? && pc.m == m) || (pc.Loaded? && pc.taken == m)
  }

  predicate InSection(pc: Pc, o: Order) {
    (pc.Holding? || pc.Loaded?) && pc.o == o
  }

  ghost function Refs(s: State, m: Address): set<nat> {
    set t | 0 <= t < |s.pcs| && Registered(s.pcs[t], m)
  }

  /** The thread has an address for its order. */
  predicate Knows(pc: Pc) {
    || pc.Found? || pc.Counted? || pc.WantMutex? || pc.Holding?
    || pc.Loaded? || pc.Released? || pc.Dropping? || pc.Dropped?
  }

  /** Its address is the one the table holds, and is what it locked. */
  predicate AgreesWith(pc: Pc, g: Shared) {
    && (Knows(pc) ==> pc.o in g.table && g.table[pc.o] == pc.m && pc.m in g.heap)
    && (pc.Loaded? ==> pc.m == pc.taken)
    && (pc.Missing? ==> pc.o !in g.table)
  }

  ghost predicate CreateInv(s: State) {
    && (s.mem.createLock <==> exists t :: 0 <= t < |s.pcs| && InCreate(s.pcs[t]))
    && (forall t, u :: 0 <= t < |s.pcs| && 0 <= u < |s.pcs| && InCreate(s.pcs[t]) && InCreate(s.pcs[u]) ==> t == u)
  }

  ghost predicate TableInv(s: State) {
    && (forall o :: o in s.mem.table ==> s.mem.table[o] in s.mem.heap)
    && (forall o, p :: o in s.mem.table && p in s.mem.table && s.mem.table[o] == s.mem.table[p] ==> o == p)
    && (forall t :: 0 <= t < |s.pcs| ==> AgreesWith(s.pcs[t], s.mem))
  }

  ghost predicate CountInv(s: State) {
    forall m :: m in s.mem.heap ==> s.mem.heap[m].refCount == |Refs(s, m)|
  }

  ghost predicate MutexInv(s: State) {
    && (forall m :: m in s.mem.heap ==> (s.mem.heap[m].locked <==> exists t :: 0 <= t < |s.pcs| && Holds(s.pcs[t], m)))
    && (forall t, u, m :: 0 <= t < |s.pcs| && 0 <= u < |s.pcs| && Holds(s.pcs[t], m) && Holds(s.pcs[u], m) ==> t == u)
  }

  predicate AtUnused(pc: Pc, o: Order, m: Address) {
    pc == Found(o, m) || pc == Dropped(o, m)
  }

  ghost predicate Unused(g: Shared, o: Order) {
    o in g.table && g.table[o] in g.heap && g.heap[g.table[o]].refCount == 0
  }

  /** An entry nobody is counted in is one the owner of createLock is at. */
  ghost predicate UsedInv(s: State) {
    forall o :: Unused(s.mem, o) ==>
      exists t :: 0 <= t < |s.pcs| && AtUnused(s.pcs[t], o, s.mem.table[o])
  }

  ghost predicate Inv(s: State) {
    CreateInv(s) && TableInv(s) && CountInv(s) && MutexInv(s) && UsedInv(s)
  }

  lemma CallKeepsInv(s: State, t: nat, o: Order, s': State)
    requires Inv(s) && Call(s, t, o, s')
    ensures Inv(s')
  {
    var pc' := s'.pcs[t];
    assert CreateInv(s') by {
      forall u | 0 <= u < |s.pcs| && InCreate(s.pcs[u]) ensures InCreate(s'.pcs[u]) { }
    }
    EffectKeepsCount(s, t, s');
    EffectKeepsMutex(s, t, s');
    assert UsedInv(s') by {
      forall u, p, m | 0 <= u < |s.pcs| && AtUnused(s.pcs[u], p, m) ensures AtUnused(s'.pcs[u], p, m) { }
    }
  }

  function One(b: bool): int { if b then 1 else 0 }

  /** A step changes the counts exactly as its own program counter says. */
  ghost predicate CountEffect(pc: Pc, g: Shared, pc': Pc, g': Shared) {
    && (forall m :: m in g.heap ==>
          && m in g'.heap
          && g'.heap[m].refCount - One(Registered(pc', m)) == g.heap[m].refCount - One(Registered(pc, m)))
    && (forall m :: m in g'.heap && m !in g.heap ==> g'.heap[m] == Rcm(false, 0) && !Registered(pc', m))
  }

  /** A step changes the locks exactly as its own program counter says. */
  ghost predicate LockEffect(pc: Pc, g: Shared, pc': Pc, g': Shared) {
    && (forall m :: m in g.heap ==>
          && m in g'.heap
          && g'.heap[m].locked == (if Holds(pc', m) == Holds(pc, m) then g.heap[m].locked else Holds(pc', m)))
    && (forall m :: m in g'.heap && m !in g.heap ==> g'.heap[m] == Rcm(false, 0) && !Holds(pc', m))
    && (forall m :: Holds(pc', m) ==> m in g.heap && (g.heap[m].locked ==> Holds(pc, m)))
  }

  lemma AdvanceCount(pc: Pc, g: Shared, addr: Address)
    requires AgreesWith(pc, g) && Advance(pc, g, addr).Some?
    ensures var next := Advance(pc, g, addr).value; CountEffect(pc, g, next.0, next.1)
  {
  }

  lemma AdvanceLock(pc: Pc, g: Shared, addr: Address)
    requires AgreesWith(pc, g) && Advance(pc, g, addr).Some?
    ensures var next := Advance(pc, g, addr).value; LockEffect(pc, g, next.0, next.1)
  {
    var next := Advance(pc, g, addr).value;
    if pc.WantMutex? {
      assert Holds(next.0, pc.m);
    } else if pc.Holding? || pc.Loaded? {
      assert Holds(pc, pc.m);
    } else {
      assert forall m :: !Holds(pc, m) && !Holds(next.0, m);
    }
  }

  /** What a step does to the table; addresses stay distinct. */
  lemma AdvanceTable(pc: Pc, g: Shared, addr: Address)
    requires AgreesWith(pc, g) && Advance(pc, g, addr).Some?
    requires forall o :: o in g.table ==> g.table[o] in g.heap
    ensures var next := Advance(pc, g, addr).value;
            && AgreesWith(next.0, next.1)
            && (next.1.table == g.table
                || (pc.Missing? && addr !in g.heap && next.1.table == g.table[pc.o := addr])
                || (pc.Dropped? && g.heap[pc.m].refCount == 0 && next.1.table == g.table - {pc.o}))
            && g.heap.Keys <= next.1.heap.Keys
            && (pc.Missing? ==> addr in next.1.heap)
  {
  }

  /** t moved and the others did not. */
  ghost predicate Moved(s: State, t: nat, s': State) {
    t < |s.pcs| == |s'.pcs| && forall u :: 0 <= u < |s.pcs| && u != t ==> s'.pcs[u] == s.pcs[u]
  }

  lemma RefsChange(s: State, t: nat, s': State, m: Address)
    requires Moved(s, t, s')
    ensures |Refs(s', m)| == |Refs(s, m)|
              - (if Registered(s.pcs[t], m) then 1 else 0) + (if Registered(s'.pcs[t], m) then 1 else 0)
  {
    var others := set u | 0 <= u < |s.pcs| && u != t && Registered(s.pcs[u], m);
    assert Refs(s, m) == others + (if Registered(s.pcs[t], m) then {t} else {});
    assert Refs(s', m) == others + (if Registered(s'.pcs[t], m) then {t} else {});
  }

  lemma RunKeepsCreate(s: State, t: nat, addr: Address, s': State)
    requires Inv(s) && Stepped(s, t, addr, s')
    ensures CreateInv(s')
  {
    assert InCreate(s.pcs[t]) ==> s.mem.createLock;
    assert forall u :: 0 <= u < |s.pcs| && u != t ==> s'.pcs[u] == s.pcs[u];
    if InCreate(s'.pcs[t]) {
      assert s'.mem.createLock;
    }
  }

  lemma RunKeepsTable(s: State, t: nat, addr: Address, s': State)
    requires TableInv(s) && CreateInv(s) && CountInv(s) && Stepped(s, t, addr, s')
    ensures TableInv(s')
  {
    AdvanceTable(s.pcs[t], s.mem, addr);
    forall u | 0 <= u < |s.pcs| && u != t ensures AgreesWith(s.pcs[u], s'.mem) {
      OthersAgree(s, t, addr, s', u);
    }
  }

  lemma OthersAgree(s: State, t: nat, addr: Address, s': State, u: nat)
    requires TableInv(s) && CreateInv(s) && CountInv(s) && Stepped(s, t, addr, s')
    requires u < |s.pcs| && u != t
    ensures AgreesWith(s.pcs[u], s'.mem)
  {
    AdvanceTable(s.pcs[t], s.mem, addr);
    assert AgreesWith(s.pcs[u], s.mem) && AgreesWith(s.pcs[t], s.mem);
    if s.pcs[t].Dropped? && Knows(s.pcs[u]) && s.pcs[u].o == s.pcs[t].o {
      assert InCreate(s.pcs[t]) && !InCreate(s.pcs[u]);
      assert u in Refs(s, s.pcs[t].m);
    } else if s.pcs[t].Missing? {
      assert InCreate(s.pcs[t]) && !InCreate(s.pcs[u]);
    }
  }

  lemma EffectKeepsCount(s: State, t: nat, s': State)
    requires TableInv(s) && CountInv(s) && Moved(s, t, s')
    requires CountEffect(s.pcs[t], s.mem, s'.pcs[t], s'.mem)
    ensures CountInv(s')
  {
    forall m | m in s'.mem.heap ensures s'.mem.heap[m].refCount == |Refs(s', m)| {
      RefsChange(s, t, s', m);
      if m !in s.mem.heap {
        forall u | u in Refs(s, m) ensures false {  }
        assert Refs(s, m) == {};
      }
    }
  }

  lemma EffectKeepsMutex(s: State, t: nat, s': State)
    requires TableInv(s) && MutexInv(s) && Moved(s, t, s')
    requires LockEffect(s.pcs[t], s.mem, s'.pcs[t], s'.mem)
    ensures MutexInv(s')
  {
    forall u, m | 0 <= u < |s.pcs| && Holds(s.pcs[u], m) ensures m in s.mem.heap && s.mem.heap[m].locked {
      
    }
    forall m | m in s'.mem.heap
      ensures s'.mem.heap[m].locked <==> exists u :: 0 <= u < |s'.pcs| && Holds(s'.pcs[u], m)
    {
      if m in s.mem.heap && s.mem.heap[m].locked {
        var u :| 0 <= u < |s.pcs| && Holds(s.pcs[u], m);
        if u != t { assert Holds(s'.pcs[u], m); }
      }
    }
  }

  lemma RunKeepsUsed(s: State, t: nat, addr: Address, s': State)
    requires TableInv(s) && CountInv(s) && UsedInv(s) && Stepped(s, t, addr, s') && Moved(s, t, s')
    requires CountEffect(s.pcs[t], s.mem, s'.pcs[t], s'.mem)
    ensures UsedInv(s')
  {
    forall o | Unused(s'.mem, o)
      ensures exists u :: 0 <= u < |s'.pcs| && AtUnused(s'.pcs[u], o, s'.mem.table[o])
    {
      if Unused(s.mem, o) && s.mem.table[o] == s'.mem.table[o] {
        var u :| 0 <= u < |s.pcs| && AtUnused(s.pcs[u], o, s.mem.table[o]);
        if u == t { LeavesNoneUnused(s, t, addr, s', o); }
        assert AtUnused(s'.pcs[u], o, s'.mem.table[o]);
      } else {
        BecameUnused(s, t, addr, s', o);
      }
    }
  }

  lemma LeavesNoneUnused(s: State, t: nat, addr: Address, s': State, o: Order)
    requires TableInv(s) && Stepped(s, t, addr, s') && o in s.mem.table
    requires AtUnused(s.pcs[t], o, s.mem.table[o]) && Unused(s.mem, o)
    ensures !Unused(s'.mem, o)
  {
    assert AgreesWith(s.pcs[t], s.mem);
  }

  lemma BecameUnused(s: State, t: nat, addr: Address, s': State, o: Order)
    requires TableInv(s) && CountInv(s) && Stepped(s, t, addr, s')
    requires CountEffect(s.pcs[t], s.mem, s'.pcs[t], s'.mem)
    requires Unused(s'.mem, o) && !(Unused(s.mem, o) && s.mem.table[o] == s'.mem.table[o])
    ensures AtUnused(s'.pcs[t], o, s'.mem.table[o])
  {
    AdvanceTable(s.pcs[t], s.mem, addr);
    var m := s'.mem.table[o];
    if o in s.mem.table && s.mem.table[o] == m {
      assert Registered(s.pcs[t], m) && !Registered(s'.pcs[t], m);
    }
  }

  lemma NextKeepsInv(s: State, s': State)
    requires Inv(s) && Next(s, s')
    ensures Inv(s')
  {
    if t: nat, o :| Call(s, t, o, s') {
      CallKeepsInv(s, t, o, s');
    } else {
      var t: nat, addr: Address :| Stepped(s, t, addr, s');
      RunKeepsCreate(s, t, addr, s');
      RunKeepsTable(s, t, addr, s');
      AdvanceCount(s.pcs[t], s.mem, addr);
      AdvanceLock(s.pcs[t], s.mem, addr);
      EffectKeepsCount(s, t, s');
      EffectKeepsMutex(s, t, s');
      RunKeepsUsed(s, t, addr, s');
    }
  }

  lemma {:induction false} AlwaysInv(b: seq<State>, i: nat)
    requires Behaviour(b) && i < |b|
    ensures Inv(b[i])
  {
    if i == 0 {
      forall m ensures Refs(b[0], m) == {} { }
    } else {
      AlwaysInv(b, i - 1);
      NextKeepsInv(b[i - 1], b[i]);
    }
  }

  // ---- Safety ------------------------------------------------------------

  /** In every interleaving at most one thread is between LockOrder(o) and the
      unlocking for a given order. */
  lemma MutualExclusion(b: seq<State>, i: nat, t: nat, u: nat, o: Order)
    requires Behaviour(b) && i < |b| && t < |b[i].pcs| && u < |b[i].pcs|
    requires InSection(b[i].pcs[t], o) && InSection(b[i].pcs[u], o)
    ensures t == u
  {
    AlwaysInv(b, i);
    OneInSection(b[i], t, u, o);
  }

  lemma OneInSection(s: State, t: nat, u: nat, o: Order)
    requires Inv(s) && t < |s.pcs| && u < |s.pcs| && InSection(s.pcs[t], o) && InSection(s.pcs[u], o)
    ensures t == u
  {
    assert AgreesWith(s.pcs[t], s.mem) && AgreesWith(s.pcs[u], s.mem);
    assert Holds(s.pcs[t], s.mem.table[o]) && Holds(s.pcs[u], s.mem.table[o]);
  }

  /** The threads counted for order o, whatever address they use. */
  ghost function Users(s: State, o: Order): set<nat> {
    set t | 0 <= t < |s.pcs| && Knows(s.pcs[t]) && Registered(s.pcs[t], s.pcs[t].m) && s.pcs[t].o == o
  }

  /** Every entry counts the threads that have registered for its order and not
      yet deregistered; an order without an entry has none. */
  lemma EntryCountsUsers(b: seq<State>, i: nat, o: Order)
    requires Behaviour(b) && i < |b|
    ensures var g := b[i].mem;
            if o in g.table then g.table[o] in g.heap && g.heap[g.table[o]].refCount == |Users(b[i], o)|
            else Users(b[i], o) == {}
  {
    AlwaysInv(b, i);
    var s := b[i];
    forall t | 0 <= t < |s.pcs| ensures AgreesWith(s.pcs[t], s.mem) { }
    if o in s.mem.table {
      assert Users(s, o) == Refs(s, s.mem.table[o]);
    }
  }

  /** The unguarded Load in UnlockOrder finds the very mutex the thread locked,
      and that mutex is still locked when it is unlocked. */
  lemma UnlockFindsOwnMutex(b: seq<State>, i: nat, t: nat)
    requires Behaviour(b) && i < |b| && t < |b[i].pcs|
    ensures var s, pc := b[i], b[i].pcs[t];
            && (pc.Holding? ==> pc.o in s.mem.table && s.mem.table[pc.o] == pc.m)
            && (pc.Loaded? ==> pc.m == pc.taken && pc.m in s.mem.heap && s.mem.heap[pc.m].locked)
  {
    AlwaysInv(b, i);
    var s := b[i];
    assert AgreesWith(s.pcs[t], s.mem);
    if s.pcs[t].Loaded? {
      assert Holds(s.pcs[t], s.pcs[t].m);
    }
  }

  // ---- Progress ----------------------------------------------------------

  predicate AllIdle(s: State) {
    forall t :: 0 <= t < |s.pcs| ==> s.pcs[t] == Idle
  }

  lemma UnusedAddress(used: set<Address>) returns (a: Address)
    ensures a !in used
  {
    a := 0;
    var below: set<Address> := {};
    while a in used
      invariant below <= used && forall x :: x in below <==> 0 <= x < a
      decreases used - below
    {
      below := below + {a};
      a := a + 1;
    }
  }

  /** Only createLock, and only a mutex that is locked, can hold a thread up. */
  lemma BlockedOnlyByLocks(s: State, t: nat, addr: Address)
    requires TableInv(s) && t < |s.pcs| && s.pcs[t] != Idle && addr !in s.mem.heap
    requires (s.pcs[t].WantCreate? || s.pcs[t].Released?) ==> !s.mem.createLock
    requires s.pcs[t].WantMutex? ==> s.pcs[t].m in s.mem.heap && !s.mem.heap[s.pcs[t].m].locked
    ensures exists s' :: Stepped(s, t, addr, s')
  {
    assert AgreesWith(s.pcs[t], s.mem);
    var next := Advance(s.pcs[t], s.mem, addr);
    assert next.Some?;
    assert Stepped(s, t, addr, State(next.value.1, s.pcs[t := next.value.0]));
  }

  ghost predicate CanStep(s: State) {
    exists s' :: Steps(s, s')
  }

  /** No deadlock: while some call is in flight, some call can take a step, and
      the owner of createLock always can. */
  lemma NoDeadlock(b: seq<State>, i: nat)
    requires Behaviour(b) && i < |b|
    ensures !AllIdle(b[i]) ==> CanStep(b[i])
    ensures forall t: nat | t < |b[i].pcs| && InCreate(b[i].pcs[t]) ::
              exists addr: Address, s' :: Stepped(b[i], t, addr, s')
  {
    AlwaysInv(b, i);
    var s := b[i];
    var addr := UnusedAddress(s.mem.heap.Keys);
    forall t: nat | t < |s.pcs| && InCreate(s.pcs[t])
      ensures exists addr: Address, s' :: Stepped(s, t, addr, s')
    {
      BlockedOnlyByLocks(s, t, addr);
    }
    if !AllIdle(s) { InvCanStep(s); }
  }

  lemma InvCanStep(s: State)
    requires Inv(s) && !AllIdle(s)
    ensures CanStep(s)
  {
    var addr := UnusedAddress(s.mem.heap.Keys);
    var t: nat;
    if s.mem.createLock {
      t :| 0 <= t < |s.pcs| && InCreate(s.pcs[t]);
    } else {
      t := Movable(s);
    }
    BlockedOnlyByLocks(s, t, addr);
    var s' :| Stepped(s, t, addr, s');
    assert Steps(s, s');
  }

  lemma Movable(s: State) returns (t: nat)
    requires Inv(s) && !AllIdle(s) && !s.mem.createLock
    ensures t < |s.pcs| && s.pcs[t] != Idle
    ensures s.pcs[t].WantMutex? ==> s.pcs[t].m in s.mem.heap && !s.mem.heap[s.pcs[t].m].locked
  {
    t :| 0 <= t < |s.pcs| && s.pcs[t] != Idle;
    if s.pcs[t].WantMutex? {
      var m := s.pcs[t].m;
      assert AgreesWith(s.pcs[t], s.mem);
      if s.mem.heap[m].locked {
        t :| 0 <= t < |s.pcs| && Holds(s.pcs[t], m);
      }
    }
  }

  /** No leak: when every thread is idle the table is empty and nothing is locked. */
  lemma NoLeak(b: seq<State>, i: nat)
    requires Behaviour(b) && i < |b| && AllIdle(b[i])
    ensures b[i].mem.table == map[] && !b[i].mem.createLock
    ensures forall m :: m in b[i].mem.heap ==> b[i].mem.heap[m] == Rcm(false, 0)
  {
    AlwaysInv(b, i);
    IdleIsEmpty(b[i]);
  }

  lemma IdleIsEmpty(s: State)
    requires Inv(s) && AllIdle(s)
    ensures s.mem.table == map[] && !s.mem.createLock
    ensures forall m :: m in s.mem.heap ==> s.mem.heap[m] == Rcm(false, 0)
  {
    forall m ensures Refs(s, m) == {} { }
    assert s.mem.table.Keys == {};
  }

  /** How many steps of its two calls a thread has left at most. */
  function Rank(pc: Pc): nat {
    match pc
    case Idle => 0
    case Leaving => 1
    case Dropped(_, _) => 2
    case Dropping(_, _) => 3
    case Released(_, _) => 4
    case Loaded(_, _, _) => 5
    case Holding(_, _) => 6
    case WantMutex(_, _) => 7
    case Counted(_, _) => 8
    case Found(_, _) => 9
    case Missing(_) => 10
    case Looking(_) => 11
    case WantCreate(_) => 12
  }

  function Work(pcs: seq<Pc>): nat {
    if pcs == [] then 0 else Rank(pcs[0]) + Work(pcs[1..])
  }

  lemma {:induction false} WorkUpdate(pcs: seq<Pc>, t: nat, pc: Pc)
    requires t < |pcs|
    ensures Work(pcs[t := pc]) == Work(pcs) - Rank(pcs[t]) + Rank(pc)
  {
    if t == 0 {
      assert pcs[t := pc][1..] == pcs[1..];
    } else {
      assert pcs[t := pc][1..] == pcs[1..][t - 1 := pc];
      WorkUpdate(pcs[1..], t - 1, pc);
    }
  }

  /** A run in which no new call arrives. */
  ghost predicate Draining(d: seq<State>) {
    |d| > 0 && forall i :: 0 <= i < |d| - 1 ==> Steps(d[i], d[i + 1])
  }

  lemma AdvanceLowersRank(pc: Pc, g: Shared, addr: Address)
    requires Advance(pc, g, addr).Some?
    ensures Rank(Advance(pc, g, addr).value.0) < Rank(pc)
  {
  }

  lemma StepLowersWork(s: State, s': State)
    requires Steps(s, s')
    ensures Work(s'.pcs) < Work(s.pcs)
  {
    var t: nat, addr: Address :| Stepped(s, t, addr, s');
    AdvanceLowersRank(s.pcs[t], s.mem, addr);
    WorkUpdate(s.pcs, t, s'.pcs[t]);
  }

  lemma {:induction false} DrainIsBounded(d: seq<State>, i: nat)
    requires Draining(d) && Inv(d[0]) && i < |d|
    ensures i <= Work(d[0].pcs) - Work(d[i].pcs) && Inv(d[i])
  {
    if i > 0 {
      DrainIsBounded(d, i - 1);
      assert Steps(d[i - 1], d[i - 1 + 1]);
      StepLowersWork(d[i - 1], d[i]);
      NextKeepsInv(d[i - 1], d[i]);
    }
  }

  /** Once no new call arrives the calls in flight finish: such a run has at most
      Work steps (twelve per thread), and where it can go no further every thread
      is idle and the table is empty again. */
  lemma CallsInFlightFinish(b: seq<State>, i: nat, d: seq<State>)
    requires Behaviour(b) && i < |b| && Draining(d) && d[0] == b[i]
    ensures |d| - 1 <= Work(b[i].pcs)
    ensures !CanStep(d[|d| - 1]) ==> AllIdle(d[|d| - 1]) && d[|d| - 1].mem.table == map[]
  {
    AlwaysInv(b, i);
    DrainIsBounded(d, |d| - 1);
    var last := d[|d| - 1];
    if !CanStep(last) {
      if !AllIdle(last) { InvCanStep(last); }
      IdleIsEmpty(last);
    }
  }
}
