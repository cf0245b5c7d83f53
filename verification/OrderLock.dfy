/** The per-order lock of controller/topup.go as a machine of interleaved atomic steps.

    Any number of threads run LockOrder and UnlockOrder on trade numbers of their choice,
    over and over. The read and the write of `refCount` are separate steps. A mutex records
    the thread that locked it and the order it was made for. A Go mutex only knows whether it
    is locked, which is all that a step looks at: whether there is an owner, not which one.
    The rest lets the properties name the holder. */
module OrderLock {
  import opened Prelude

  type Tid = nat
  type TradeNo(==,!new)
  type MutexId = nat

  datatype Mutex = Mutex(order: TradeNo, owner: Option<Tid>, refCount: int)

  /** What a thread does next. */
  datatype Pc =
    | Idle
    | Enter      // createLock.Lock() in LockOrder
    | Lookup     // orderLocks.Load
    | Create     // orderLocks.Store of a new entry
    | ReadUp     // read refCount
    | WriteUp    // write refCount + 1
    | Leave      // createLock.Unlock()
    | Acquire    // mu.Lock()
    | Critical   // LockOrder has returned; next is orderLocks.Load in UnlockOrder
    | Release    // mu.Unlock()
    | Reenter    // createLock.Lock() in UnlockOrder
    | ReadDown   // read refCount
    | WriteDown  // write refCount - 1
    | Test       // refCount == 0 ?
    | Remove     // orderLocks.Delete
    | Exit       // createLock.Unlock()
    | Lost       // UnlockOrder found no entry and returned without unlocking
    | Fault      // Unlock of an unlocked mutex: the process dies

  /** `rcm` and `seen` are the local variables of the two functions. `held` is the mutex
      that LockOrder locked: the code forgets it, and UnlockOrder loads the entry again. */
  datatype Thread = Thread(trade: TradeNo, pc: Pc, rcm: MutexId, seen: int, held: MutexId)

  datatype State = State(
    creator: Option<Tid>,  // the holder of createLock
    locks: map<TradeNo, MutexId>,
    heap: map<MutexId, Mutex>,
    threads: map<Tid, Thread>)

  predicate Init(s: State) {
    && s.creator == None
    && s.locks == map[]
    && s.heap == map[]
    && forall t <- s.threads :: s.threads[t].pc == Idle
  }

  // ---------------------------------------------------------------- steps

  function Set(s: State, t: Tid, th: Thread): State {
    s.(threads := s.threads[t := th])
  }

  function Update(s: State, m: MutexId, mutex: Mutex): State {
    s.(heap := s.heap[m := mutex])
  }

  // The four functions give the action that the code prescribes for thread `t` at its
  // program point, or None when it has to wait or is in another part of the code.

  /** LockOrder up to the increment: find or make the entry. */
  function Find(s: State, t: Tid, unused: MutexId): Option<State>
    requires t in s.threads
    requires unused !in s.heap
  {
    var th := s.threads[t];
    match th.pc
    case Enter =>
      if s.creator == None then Some(Set(s, t, th.(pc := Lookup)).(creator := Some(t))) else None
    case Lookup =>
      if th.trade in s.locks then Some(Set(s, t, th.(pc := ReadUp, rcm := s.locks[th.trade])))
      else Some(Set(s, t, th.(pc := Create)))
    case Create =>
      Some(Set(Update(s, unused, Mutex(th.trade, None, 0)), t, th.(pc := ReadUp, rcm := unused))
           .(locks := s.locks[th.trade := unused]))
    case _ => None
  }

  /** LockOrder from the increment on. */
  function Take(s: State, t: Tid): Option<State>
    requires t in s.threads
  {
    var th := s.threads[t];
    match th.pc
    case ReadUp =>
      if th.rcm in s.heap then Some(Set(s, t, th.(pc := WriteUp, seen := s.heap[th.rcm].refCount)))
      else None
    case WriteUp =>
      if th.rcm in s.heap then
        Some(Set(Update(s, th.rcm, s.heap[th.rcm].(refCount := th.seen + 1)), t, th.(pc := Leave)))
      else None
    case Leave =>
      Some(Set(s, t, th.(pc := Acquire)).(creator := None))
    case Acquire =>
      if th.rcm in s.heap && s.heap[th.rcm].owner == None then
        Some(Set(Update(s, th.rcm, s.heap[th.rcm].(owner := Some(t))), t,
                 th.(pc := Critical, held := th.rcm)))
      else None
    case _ => None
  }

  /** UnlockOrder up to the second `createLock.Lock()`. */
  function Free(s: State, t: Tid): Option<State>
    requires t in s.threads
  {
    var th := s.threads[t];
    match th.pc
    case Critical =>
      if th.trade in s.locks then Some(Set(s, t, th.(pc := Release, rcm := s.locks[th.trade])))
      else Some(Set(s, t, th.(pc := Lost)))
    case Release =>
      if th.rcm !in s.heap then None
      else if s.heap[th.rcm].owner == None then Some(Set(s, t, th.(pc := Fault)))
      else Some(Set(Update(s, th.rcm, s.heap[th.rcm].(owner := None)), t, th.(pc := Reenter)))
    case Reenter =>
      if s.creator == None then Some(Set(s, t, th.(pc := ReadDown)).(creator := Some(t))) else None
    case _ => None
  }

  /** UnlockOrder under `createLock`. */
  function Drop(s: State, t: Tid): Option<State>
    requires t in s.threads
  {
    var th := s.threads[t];
    match th.pc
    case ReadDown =>
      if th.rcm in s.heap then Some(Set(s, t, th.(pc := WriteDown, seen := s.heap[th.rcm].refCount)))
      else None
    case WriteDown =>
      if th.rcm in s.heap then
        Some(Set(Update(s, th.rcm, s.heap[th.rcm].(refCount := th.seen - 1)), t, th.(pc := Test)))
      else None
    case Test =>
      if th.rcm in s.heap then
        Some(Set(s, t, th.(pc := if s.heap[th.rcm].refCount == 0 then Remove else Exit)))
      else None
    case Remove =>
      Some(Set(s, t, th.(pc := Exit)).(locks := s.locks - {th.trade}))
    case Exit =>
      Some(Set(s, t, th.(pc := Idle)).(creator := None))
    case _ => None
  }

  /** An idle thread, or a thread not seen before, calls LockOrder on any trade number. */
  predicate Calls(s: State, s': State, t: Tid, th: Thread) {
    && (t in s.threads ==> s.threads[t].pc == Idle)
    && th.pc == Enter
    && s' == Set(s, t, th)
  }

  predicate Finds(s: State, s': State, t: Tid, unused: MutexId) {
    t in s.threads && unused !in s.heap && Find(s, t, unused) == Some(s')
  }

  predicate Takes(s: State, s': State, t: Tid) {
    t in s.threads && Take(s, t) == Some(s')
  }

  predicate Frees(s: State, s': State, t: Tid) {
    t in s.threads && Free(s, t) == Some(s')
  }

  predicate Drops(s: State, s': State, t: Tid) {
    t in s.threads && Drop(s, t) == Some(s')
  }

  ghost predicate Acts(s: State, s': State, t: Tid) {
    || (exists unused :: Finds(s, s', t, unused))
    || Takes(s, s', t)
    || Frees(s, s', t)
    || Drops(s, s', t)
  }

  ghost predicate Step(s: State, s': State) {
    || (exists t, th :: Calls(s, s', t, th))
    || (exists t :: Acts(s, s', t))
  }

  ghost predicate StepsAt(run: seq<State>, i: int) {
    0 <= i < |run| - 1 && Step(run[i], run[i + 1])
  }

  /** A run: an interleaving of any length, from a state in which no lock exists. */
  ghost predicate Run(run: seq<State>) {
    && |run| > 0
    && Init(run[0])
    && forall i :: 0 <= i < |run| - 1 ==> StepsAt(run, i)
  }

  // ---------------------------------------------------------------- invariant

  /** Between `createLock.Lock()` and `createLock.Unlock()`. */
  predicate Creating(pc: Pc) {
    (pc.Lookup? || pc.Create? || pc.ReadUp? || pc.WriteUp? || pc.Leave? ||
     pc.ReadDown? || pc.WriteDown? || pc.Test? || pc.Remove? || pc.Exit?)
  }

  /** `refCount` has been incremented by the thread and not yet decremented. */
  predicate Counted(pc: Pc) {
    (pc.Leave? || pc.Acquire? || pc.Critical? || pc.Release? || pc.Reenter? || pc.ReadDown? || pc.WriteDown?)
  }

  /** `rcm` is the entry of the trade number. */
  predicate Linked(pc: Pc) {
    Counted(pc) || (pc.ReadUp? || pc.WriteUp? || pc.Test? || pc.Remove?)
  }

  /** The order's mutex has been locked by the thread and not yet unlocked. */
  predicate Holding(pc: Pc) {
    (pc.Critical? || pc.Release?)
  }

  /** The threads that are between increment and decrement for this trade number. */
  function Users(s: State, trade: TradeNo): set<Tid> {
    set t <- s.threads | s.threads[t].trade == trade && Counted(s.threads[t].pc)
  }

  predicate ThreadOk(s: State, t: Tid)
    requires t in s.threads
  {
    var th := s.threads[t];
    && th.pc != Lost && th.pc != Fault
    && (Creating(th.pc) <==> s.creator == Some(t))
    && (th.pc == Create ==> th.trade !in s.locks)
    && (Linked(th.pc) ==>
          && th.trade in s.locks && s.locks[th.trade] == th.rcm && th.rcm in s.heap
          && ((th.pc.WriteUp? || th.pc.WriteDown?) ==> th.seen == s.heap[th.rcm].refCount)
          && (th.pc == Remove ==> s.heap[th.rcm].refCount == 0)
          && (Holding(th.pc) ==> th.held == th.rcm && s.heap[th.rcm].owner == Some(t)))
  }

  predicate LockOk(s: State, trade: TradeNo)
    requires trade in s.locks
  {
    var m := s.locks[trade];
    && m in s.heap
    && s.heap[m].order == trade
    && s.heap[m].refCount == |Users(s, trade)|
    // an entry without users belongs to the thread that is creating or removing it
    && (s.heap[m].refCount == 0 ==>
          && s.creator.Some? && s.creator.value in s.threads
          && s.threads[s.creator.value].trade == trade
          && Linked(s.threads[s.creator.value].pc) && !Counted(s.threads[s.creator.value].pc))
    && (s.heap[m].owner.Some? ==>
          var t := s.heap[m].owner.value;
          t in s.threads && s.threads[t].trade == trade && Holding(s.threads[t].pc))
  }

  predicate CreatorOk(s: State) {
    s.creator.Some? ==> s.creator.value in s.threads && Creating(s.threads[s.creator.value].pc)
  }

  ghost predicate Inv(s: State) {
    && CreatorOk(s)
    && (forall t <- s.threads :: ThreadOk(s, t))
    && (forall trade <- s.locks :: LockOk(s, trade))
  }

  // ---------------------------------------------------------------- one step keeps it

  lemma FindKeepsThread(s: State, s': State, t: Tid, unused: MutexId, u: Tid)
    requires Finds(s, s', t, unused) && ThreadOk(s, t)
    requires u in s.threads && ThreadOk(s, u)
    requires forall trade | trade == s.threads[t].trade || trade == s.threads[u].trade ::
               trade in s.locks ==> LockOk(s, trade)
    ensures ThreadOk(s', u)
  {
  }

  lemma TakeKeepsThread(s: State, s': State, t: Tid, u: Tid)
    requires Takes(s, s', t) && ThreadOk(s, t)
    requires u in s.threads && ThreadOk(s, u)
    requires Linked(s.threads[u].pc) ==> LockOk(s, s.threads[u].trade)
    ensures ThreadOk(s', u)
  {
  }

  lemma FreeKeepsThread(s: State, s': State, t: Tid, u: Tid)
    requires Frees(s, s', t) && ThreadOk(s, t)
    requires u in s.threads && ThreadOk(s, u)
    requires Linked(s.threads[u].pc) ==> LockOk(s, s.threads[u].trade)
    ensures ThreadOk(s', u)
  {
  }

  lemma DropKeepsThread(s: State, s': State, t: Tid, u: Tid)
    requires Drops(s, s', t) && ThreadOk(s, t)
    requires u in s.threads && ThreadOk(s, u)
    requires Linked(s.threads[u].pc) ==> LockOk(s, s.threads[u].trade)
    ensures ThreadOk(s', u)
  {
    assert u in Users(s, s.threads[u].trade) <==> Counted(s.threads[u].pc);
  }

  /** How many users an entry gains or loses when one thread moves. */
  lemma UsersAfter(s: State, s': State, t: Tid, th: Thread, trade: TradeNo)
    requires t in s.threads && s'.threads == s.threads[t := th] && th.trade == s.threads[t].trade
    ensures var before, after := Counted(s.threads[t].pc), Counted(th.pc);
            |Users(s', trade)| == |Users(s, trade)| +
              if trade != th.trade || before == after then 0 else if after then 1 else -1
  {
    var users := Users(s, trade);
    if trade != th.trade || Counted(s.threads[t].pc) == Counted(th.pc) {
      assert Users(s', trade) == users;
    } else if Counted(th.pc) {
      assert Users(s', trade) == users + {t};
    } else {
      assert t in users;
      assert Users(s', trade) == users - {t};
    }
  }

  lemma FindKeepsLock(s: State, s': State, t: Tid, unused: MutexId, trade: TradeNo)
    requires Finds(s, s', t, unused) && ThreadOk(s, t) && CreatorOk(s)
    requires if trade in s.locks then LockOk(s, trade) else Users(s, trade) == {}
    requires trade in s'.locks
    ensures LockOk(s', trade)
  {
    assert Users(s', trade) == Users(s, trade);
  }

  lemma TakeKeepsLock(s: State, s': State, t: Tid, trade: TradeNo)
    requires Takes(s, s', t) && ThreadOk(s, t) && CreatorOk(s)
    requires trade in s.locks && LockOk(s, trade)
    requires Linked(s.threads[t].pc) ==> LockOk(s, s.threads[t].trade)
    ensures LockOk(s', trade)
  {
    UsersAfter(s, s', t, s'.threads[t], trade);
  }

  lemma FreeKeepsLock(s: State, s': State, t: Tid, trade: TradeNo)
    requires Frees(s, s', t) && ThreadOk(s, t)
    requires trade in s.locks && LockOk(s, trade)
    ensures LockOk(s', trade)
  {
    assert Users(s', trade) == Users(s, trade);
  }

  lemma DropKeepsLock(s: State, s': State, t: Tid, trade: TradeNo)
    requires Drops(s, s', t) && ThreadOk(s, t) && CreatorOk(s)
    requires trade in s.locks && LockOk(s, trade) && trade in s'.locks
    requires Linked(s.threads[t].pc) ==> LockOk(s, s.threads[t].trade)
    ensures LockOk(s', trade)
  {
    UsersAfter(s, s', t, s'.threads[t], trade);
  }

  lemma NoEntryNoUsers(s: State, trade: TradeNo)
    requires Inv(s) && trade !in s.locks
    ensures Users(s, trade) == {}
  {
    forall t | t in s.threads ensures t !in Users(s, trade) { assert ThreadOk(s, t); }
  }

  lemma CallKeepsThread(s: State, s': State, t: Tid, th: Thread, u: Tid)
    requires Calls(s, s', t, th) && u in s'.threads
    requires u in s.threads ==> ThreadOk(s, u)
    requires CreatorOk(s)
    ensures ThreadOk(s', u)
  {
  }

  lemma CallKeepsLock(s: State, s': State, t: Tid, th: Thread, trade: TradeNo)
    requires Calls(s, s', t, th) && trade in s.locks && LockOk(s, trade)
    ensures LockOk(s', trade)
  {
    assert Users(s', trade) == Users(s, trade);
  }

  lemma CallKeepsInv(s: State, s': State, t: Tid, th: Thread)
    requires Inv(s) && Calls(s, s', t, th)
    ensures Inv(s')
  {
    forall u | u in s'.threads ensures ThreadOk(s', u) { CallKeepsThread(s, s', t, th, u); }
    forall trade | trade in s'.locks ensures LockOk(s', trade) { CallKeepsLock(s, s', t, th, trade); }
  }

  lemma ActKeepsThread(s: State, s': State, t: Tid, u: Tid)
    requires Inv(s) && Acts(s, s', t) && u in s.threads && u in s'.threads
    ensures ThreadOk(s', u)
  {
    assert ThreadOk(s, t) && ThreadOk(s, u);
    if Takes(s, s', t) { TakeKeepsThread(s, s', t, u); }
    else if Frees(s, s', t) { FreeKeepsThread(s, s', t, u); }
    else if Drops(s, s', t) { DropKeepsThread(s, s', t, u); }
    else { var unused :| Finds(s, s', t, unused); FindKeepsThread(s, s', t, unused, u); }
  }

  lemma ActKeepsLock(s: State, s': State, t: Tid, trade: TradeNo)
    requires Inv(s) && Acts(s, s', t) && trade in s'.locks
    ensures LockOk(s', trade)
  {
    assert ThreadOk(s, t);
    if trade in s.locks { assert LockOk(s, trade); } else { NoEntryNoUsers(s, trade); }
    if Takes(s, s', t) { TakeKeepsLock(s, s', t, trade); }
    else if Frees(s, s', t) { FreeKeepsLock(s, s', t, trade); }
    else if Drops(s, s', t) { DropKeepsLock(s, s', t, trade); }
    else { var unused :| Finds(s, s', t, unused); FindKeepsLock(s, s', t, unused, trade); }
  }

  /** A step of one thread leaves every other thread, and its own trade number, alone. */
  lemma ActMovesOneThread(s: State, s': State, t: Tid)
    requires Acts(s, s', t)
    ensures t in s'.threads && s'.threads == s.threads[t := s'.threads[t]]
    ensures s'.threads[t].trade == s.threads[t].trade
  {
    var th := s'.threads[t];
    if Takes(s, s', t) { assert s'.threads == s.threads[t := th]; }
    else if Frees(s, s', t) { assert s'.threads == s.threads[t := th]; }
    else if Drops(s, s', t) { assert s'.threads == s.threads[t := th]; }
    else { var unused :| Finds(s, s', t, unused); assert s'.threads == s.threads[t := th]; }
  }

  lemma ActKeepsCreator(s: State, s': State, t: Tid)
    requires Acts(s, s', t) && CreatorOk(s)
    requires Creating(s.threads[t].pc) <==> s.creator == Some(t)
    ensures CreatorOk(s')
  {
  }

  lemma ActKeepsInv(s: State, s': State, t: Tid)
    requires Inv(s) && Acts(s, s', t)
    ensures Inv(s')
  {
    assert ThreadOk(s, t);
    ActKeepsCreator(s, s', t);
    ActMovesOneThread(s, s', t);
    forall u | u in s'.threads ensures ThreadOk(s', u) { ActKeepsThread(s, s', t, u); }
    forall trade | trade in s'.locks ensures LockOk(s', trade) { ActKeepsLock(s, s', t, trade); }
  }

  lemma {:induction false} RunKeepsInv(run: seq<State>, i: nat)
    requires Run(run) && i < |run|
    ensures Inv(run[i])
  {
    if i > 0 {
      RunKeepsInv(run, i - 1);
      var s, s' := run[i - 1], run[i];
      assert StepsAt(run, i - 1);
      if t, th :| Calls(s, s', t, th) { CallKeepsInv(s, s', t, th); }
      else { var t :| Acts(s, s', t); ActKeepsInv(s, s', t); }
    }
  }

  // ---------------------------------------------------------------- what the lock promises

  /** In every interleaving at most one thread per trade number is between LockOrder and
      the unlock inside UnlockOrder. */
  lemma MutualExclusion(run: seq<State>, i: nat, t: Tid, u: Tid)
    requires Run(run) && i < |run|
    requires t in run[i].threads && u in run[i].threads
    requires Holding(run[i].threads[t].pc) && Holding(run[i].threads[u].pc)
    requires run[i].threads[t].trade == run[i].threads[u].trade
    ensures t == u
  {
    RunKeepsInv(run, i);
    assert ThreadOk(run[i], t) && ThreadOk(run[i], u);
  }

  /** In every interleaving the stored count is the number of threads between increment and
      decrement, and a trade number nobody counts has an entry only while its creator or
      remover is inside createLock. */
  lemma RefCountIsExact(run: seq<State>, i: nat, trade: TradeNo)
    requires Run(run) && i < |run|
    ensures trade in run[i].locks ==>
              run[i].locks[trade] in run[i].heap &&
              run[i].heap[run[i].locks[trade]].refCount == |Users(run[i], trade)|
    ensures trade !in run[i].locks ==> Users(run[i], trade) == {}
    ensures trade in run[i].locks && run[i].creator == None ==> Users(run[i], trade) != {}
  {
    RunKeepsInv(run, i);
    if trade in run[i].locks { assert LockOk(run[i], trade); } else { NoEntryNoUsers(run[i], trade); }
  }

  /** The load in UnlockOrder runs outside createLock. It still always finds the mutex that
      the same thread locked, so no thread returns without unlocking and no unlocked mutex
      is ever unlocked. */
  lemma UnlockFindsItsMutex(run: seq<State>, i: nat, t: Tid)
    requires Run(run) && i < |run| && t in run[i].threads
    ensures run[i].threads[t].pc == Critical ==>
              run[i].threads[t].trade in run[i].locks &&
              run[i].locks[run[i].threads[t].trade] == run[i].threads[t].held
    ensures run[i].threads[t].pc == Release ==>
              && run[i].threads[t].rcm == run[i].threads[t].held
              && run[i].threads[t].rcm in run[i].heap && run[i].heap[run[i].threads[t].rcm].owner == Some(t)
    ensures run[i].threads[t].pc != Lost && run[i].threads[t].pc != Fault
  {
    RunKeepsInv(run, i);
    assert ThreadOk(run[i], t);
  }

  /** Nothing is left in the map once every thread is idle. */
  lemma IdleMeansEmpty(run: seq<State>, i: nat)
    requires Run(run) && i < |run|
    requires forall t <- run[i].threads :: run[i].threads[t].pc == Idle
    ensures run[i].locks == map[]
  {
    RunKeepsInv(run, i);
    assert run[i].creator == None;
    forall trade ensures trade !in run[i].locks {
      assert Users(run[i], trade) == {};
    }
  }

  lemma {:induction false} UnusedExists(ids: set<MutexId>) returns (unused: MutexId)
    ensures forall m <- ids :: m < unused
  {
    unused := 0;
    var rest := ids;
    while rest != {}
      invariant rest <= ids
      invariant forall m :: m in ids && m !in rest ==> m < unused
      decreases rest
    {
      var m :| m in rest;
      if unused <= m { unused := m + 1; }
      rest := rest - {m};
    }
  }

  lemma CreatorMoves(s: State) returns (s': State)
    requires Inv(s) && s.creator.Some?
    ensures Acts(s, s', s.creator.value)
  {
    var t := s.creator.value;
    assert ThreadOk(s, t);
    var unused := UnusedExists(s.heap.Keys);
    var pc := s.threads[t].pc;
    if pc == Lookup || pc == Create {
      s' := Find(s, t, unused).value; assert Finds(s, s', t, unused);
    } else if pc == ReadUp || pc == WriteUp || pc == Leave {
      s' := Take(s, t).value;
    } else {
      s' := Drop(s, t).value;
    }
  }

  /** No deadlock: while some thread is not idle, some thread can take its next step. */
  lemma SomebodyMoves(run: seq<State>, i: nat, t: Tid) returns (u: Tid, s': State)
    requires Run(run) && i < |run|
    requires t in run[i].threads && run[i].threads[t].pc != Idle
    ensures u in run[i].threads && Acts(run[i], s', u) && NextPoint(run[i], s', u)
  {
    RunKeepsInv(run, i);
    var s := run[i];
    assert ThreadOk(s, t);
    if s.creator.Some? {
      u := s.creator.value;
      s' := CreatorMoves(s);
    } else if s.threads[t].pc == Enter {
      var unused := UnusedExists(s.heap.Keys);
      u, s' := t, Find(s, t, unused).value; assert Finds(s, s', t, unused);
    } else if s.threads[t].pc == Acquire {
      assert LockOk(s, s.threads[t].trade);
      var owner := s.heap[s.threads[t].rcm].owner;
      if owner == None {
        u, s' := t, Take(s, t).value;
      } else {
        u := owner.value;
        assert ThreadOk(s, u);
        s' := Free(s, u).value;
      }
    } else {
      u, s' := t, Free(s, t).value;
    }
    EveryStepAdvances(s, s', u);
  }

  // ---------------------------------------------------------------- every call comes to its end

  /** The position in the program, counted back from the return of UnlockOrder. */
  function Rank(pc: Pc): nat {
    match pc
    case Enter => 15 case Lookup => 14 case Create => 13 case ReadUp => 12 case WriteUp => 11
    case Leave => 10 case Acquire => 9 case Critical => 8 case Release => 7 case Reenter => 6
    case ReadDown => 5 case WriteDown => 4 case Test => 3 case Remove => 2 case Exit => 1
    case Idle => 0 case Lost => 0 case Fault => 0
  }

  /** The two places where the program skips a step: the entry exists, or is still in use. */
  predicate Skips(s: State, t: Tid)
    requires t in s.threads
  {
    var th := s.threads[t];
    || (th.pc == Lookup && th.trade in s.locks)
    || (th.pc == Test && th.rcm in s.heap && s.heap[th.rcm].refCount != 0)
  }

  predicate NextPoint(s: State, s': State, t: Tid)
    requires t in s.threads
  {
    && t in s'.threads
    && Rank(s.threads[t].pc) == Rank(s'.threads[t].pc) + if Skips(s, t) then 2 else 1
  }

  lemma FindAdvances(s: State, s': State, t: Tid, unused: MutexId)
    requires Finds(s, s', t, unused)
    ensures NextPoint(s, s', t)
  {
  }

  lemma TakeAdvances(s: State, s': State, t: Tid)
    requires Takes(s, s', t)
    ensures NextPoint(s, s', t)
  {
  }

  lemma FreeAdvances(s: State, s': State, t: Tid)
    requires Frees(s, s', t) && ThreadOk(s, t)
    ensures NextPoint(s, s', t)
  {
  }

  lemma DropAdvances(s: State, s': State, t: Tid)
    requires Drops(s, s', t)
    ensures NextPoint(s, s', t)
  {
  }

  /** Every step takes its thread to the next program point, so from `Enter` on a thread goes through every one of them
      but the two that may be skipped. */
  lemma EveryStepAdvances(s: State, s': State, t: Tid)
    requires Inv(s) && Acts(s, s', t)
    ensures NextPoint(s, s', t)
  {
    assert ThreadOk(s, t);
    if Takes(s, s', t) { TakeAdvances(s, s', t); }
    else if Frees(s, s', t) { FreeAdvances(s, s', t); }
    else if Drops(s, s', t) { DropAdvances(s, s', t); }
    else { var unused :| Finds(s, s', t, unused); FindAdvances(s, s', t, unused); }
  }

  ghost function Pick(ts: set<Tid>): Tid
    requires ts != {}
  {
    var t :| t in ts; t
  }

  /** The steps that these threads have before them at most. */
  ghost function Ahead(threads: map<Tid, Thread>, ts: set<Tid>): nat
    requires ts <= threads.Keys
  {
    if ts == {} then 0
    else var t := Pick(ts); Rank(threads[t].pc) + Ahead(threads, ts - {t})
  }

  lemma {:induction false} AheadWithout(threads: map<Tid, Thread>, ts: set<Tid>, t: Tid)
    requires ts <= threads.Keys && t in ts
    ensures Ahead(threads, ts) == Rank(threads[t].pc) + Ahead(threads, ts - {t})
    decreases ts
  {
    var u := Pick(ts);
    if u != t {
      AheadWithout(threads, ts - {u}, t);
      AheadWithout(threads, ts - {t}, u);
      assert ts - {u} - {t} == ts - {t} - {u};
    }
  }

  lemma {:induction false} AheadSame(a: map<Tid, Thread>, b: map<Tid, Thread>, ts: set<Tid>)
    requires ts <= a.Keys && ts <= b.Keys && forall t <- ts :: a[t] == b[t]
    ensures Ahead(a, ts) == Ahead(b, ts)
    decreases ts
  {
    if ts != {} { AheadSame(a, b, ts - {Pick(ts)}); }
  }

  ghost function Work(s: State): nat {
    Ahead(s.threads, s.threads.Keys)
  }

  lemma ActUsesUpWork(s: State, s': State, t: Tid)
    requires Inv(s) && Acts(s, s', t)
    ensures Work(s') < Work(s)
  {
    var ts := s.threads.Keys;
    EveryStepAdvances(s, s', t);
    ActMovesOneThread(s, s', t);
    assert s'.threads.Keys == ts;
    AheadWithout(s.threads, ts, t);
    AheadWithout(s'.threads, ts, t);
    AheadSame(s.threads, s'.threads, ts - {t});
  }

  ghost predicate SomebodyActs(s: State, s': State) {
    exists t :: Acts(s, s', t)
  }

  lemma ActionUsesUpWork(run: seq<State>, i: nat)
    requires Run(run) && i + 1 < |run| && SomebodyActs(run[i], run[i + 1])
    ensures Work(run[i + 1]) < Work(run[i])
  {
    RunKeepsInv(run, i);
    var t :| Acts(run[i], run[i + 1], t);
    ActUsesUpWork(run[i], run[i + 1], t);
  }

  ghost predicate ActsAt(run: seq<State>, k: int) {
    0 <= k < |run| - 1 && SomebodyActs(run[k], run[k + 1])
  }

  /** From state `i` to state `j` nobody calls LockOrder anew. */
  ghost predicate NoNewCalls(run: seq<State>, i: nat, j: nat) {
    i <= j < |run| && forall k | i <= k < j :: ActsAt(run, k)
  }

  /** However the threads are scheduled, without new calls there are at most as many steps as were ahead. */
  lemma {:induction false} CallsAreBounded(run: seq<State>, i: nat, j: nat)
    requires Run(run) && NoNewCalls(run, i, j)
    ensures j - i + Work(run[j]) <= Work(run[i])
    decreases j
  {
    if i < j {
      CallsAreBounded(run, i, j - 1);
      assert ActsAt(run, j - 1);
      ActionUsesUpWork(run, j - 1);
    }
  }

  predicate AllIdle(s: State) {
    forall t <- s.threads :: s.threads[t].pc == Idle
  }

  /** A run that cannot go on without a new call has come to the end of every call, and the map is empty. */
  lemma StuckMeansDone(run: seq<State>, i: nat)
    requires Run(run) && i < |run|
    requires forall s' :: !SomebodyActs(run[i], s')
    ensures AllIdle(run[i]) && run[i].locks == map[]
  {
    forall t | t in run[i].threads ensures run[i].threads[t].pc == Idle {
      if run[i].threads[t].pc != Idle {
        var u, s' := SomebodyMoves(run, i, t);
        assert SomebodyActs(run[i], s');
      }
    }
    IdleMeansEmpty(run, i);
  }

  lemma RunGrows(run: seq<State>, s': State)
    requires Run(run) && Step(run[|run| - 1], s')
    ensures Run(run + [s'])
  {
    var longer := run + [s'];
    forall k | 0 <= k < |longer| - 1 ensures StepsAt(longer, k) {
      assert longer[k] == run[k];
      if k < |run| - 1 { assert StepsAt(run, k) && longer[k + 1] == run[k + 1]; }
    }
  }

  lemma OneStepOn(run: seq<State>) returns (s': State)
    requires Run(run) && !AllIdle(run[|run| - 1])
    ensures SomebodyActs(run[|run| - 1], s') && Work(s') < Work(run[|run| - 1]) && Run(run + [s'])
  {
    var i := |run| - 1;
    var t :| t in run[i].threads && run[i].threads[t].pc != Idle;
    var u;
    u, s' := SomebodyMoves(run, i, t);
    RunKeepsInv(run, i);
    ActUsesUpWork(run[i], s', u);
    RunGrows(run, s');
  }

  lemma NoNewCallsBefore(run: seq<State>, i: nat, j: nat)
    requires i < j && NoNewCalls(run, i + 1, j) && ActsAt(run, i)
    ensures NoNewCalls(run, i, j)
  {
  }

  /** And every run can be brought to that end. */
  lemma {:induction false} EveryRunCanFinish(run: seq<State>) returns (whole: seq<State>)
    requires Run(run)
    ensures run <= whole && Run(whole) && NoNewCalls(whole, |run| - 1, |whole| - 1) && AllIdle(whole[|whole| - 1])
    decreases Work(run[|run| - 1])
  {
    if AllIdle(run[|run| - 1]) {
      whole := run;
    } else {
      var s' := OneStepOn(run);
      whole := EveryRunCanFinish(run + [s']);
      assert whole[|run| - 1] == run[|run| - 1] && whole[|run|] == s';
      NoNewCallsBefore(whole, |run| - 1, |whole| - 1);
    }
  }

  // ---------------------------------------------------------------- and every call is served

  /** In every run, an idle thread or a new one can call LockOrder on any trade number. */
  lemma AnyoneCanCall(run: seq<State>, t: Tid, th: Thread)
    requires Run(run) && th.pc == Enter
    requires t in run[|run| - 1].threads ==> run[|run| - 1].threads[t].pc == Idle
    ensures Run(run + [Set(run[|run| - 1], t, th)])
  {
    var s' := Set(run[|run| - 1], t, th);
    assert Calls(run[|run| - 1], s', t, th);
    RunGrows(run, s');
  }

  /** One step of anyone: thread `t` stays, or takes its own next step. Its trade number stays in any case. */
  lemma StepOfAnyone(run: seq<State>, i: nat, t: Tid)
    requires Run(run) && i + 1 < |run| && SomebodyActs(run[i], run[i + 1]) && t in run[i].threads
    ensures t in run[i + 1].threads && run[i + 1].threads[t].trade == run[i].threads[t].trade
    ensures run[i + 1].threads[t].pc == run[i].threads[t].pc || NextPoint(run[i], run[i + 1], t)
  {
    RunKeepsInv(run, i);
    var u :| Acts(run[i], run[i + 1], u);
    ActMovesOneThread(run[i], run[i + 1], u);
    if u == t { EveryStepAdvances(run[i], run[i + 1], t); }
  }

  /** A thread keeps its trade number and, before its critical section, does not go past that. */
  predicate Follows(s: State, s': State, t: Tid) {
    t in s.threads ==>
      && t in s'.threads && s'.threads[t].trade == s.threads[t].trade
      && (s'.threads[t].pc == s.threads[t].pc || Rank(s.threads[t].pc) <= 8
          || 8 <= Rank(s'.threads[t].pc) < Rank(s.threads[t].pc))
  }

  lemma StepFollows(run: seq<State>, n: nat, t: Tid)
    requires Run(run) && n + 1 < |run| && SomebodyActs(run[n], run[n + 1])
    ensures Follows(run[n], run[n + 1], t)
  {
    if t in run[n].threads { StepOfAnyone(run, n, t); }
  }

  lemma {:induction false} ReachesCritical(states: seq<State>, i: nat, j: nat, t: Tid) returns (k: nat)
    requires i <= j < |states| && forall n | i <= n < j :: Follows(states[n], states[n + 1], t)
    requires t in states[i].threads && Rank(states[i].threads[t].pc) > 8 && AllIdle(states[j])
    ensures i < k < j && t in states[k].threads && states[k].threads[t].pc == Critical
    ensures states[k].threads[t].trade == states[i].threads[t].trade
    decreases j - i
  {
    assert Follows(states[i], states[i + 1], t);
    if states[i + 1].threads[t].pc == Critical { k := i + 1; } else { k := ReachesCritical(states, i + 1, j, t); }
  }

  /** A thread that has not reached its critical section and is idle later was in it in between. */
  lemma PassesCritical(run: seq<State>, i: nat, j: nat, t: Tid) returns (k: nat)
    requires Run(run) && NoNewCalls(run, i, j) && t in run[i].threads && Rank(run[i].threads[t].pc) > 8
    requires AllIdle(run[j])
    ensures i < k < j && t in run[k].threads && run[k].threads[t].pc == Critical
    ensures run[k].threads[t].trade == run[i].threads[t].trade
  {
    forall n | i <= n < j ensures Follows(run[n], run[n + 1], t) {
      assert ActsAt(run, n);
      StepFollows(run, n, t);
    }
    k := ReachesCritical(run, i, j, t);
  }

  /** Whatever happened before, a call can be brought to its critical section, and all calls then to their end. */
  lemma EveryCallCanBeServed(run: seq<State>, t: Tid, th: Thread) returns (whole: seq<State>, k: nat)
    requires Run(run) && th.pc == Enter
    requires t in run[|run| - 1].threads ==> run[|run| - 1].threads[t].pc == Idle
    ensures run < whole && Run(whole) && AllIdle(whole[|whole| - 1])
    ensures |run| < k < |whole| && t in whole[k].threads
    ensures whole[k].threads[t].pc == Critical && whole[k].threads[t].trade == th.trade
  {
    AnyoneCanCall(run, t, th);
    var called := run + [Set(run[|run| - 1], t, th)];
    whole := EveryRunCanFinish(called);
    assert whole[|run|] == called[|run|];
    k := PassesCritical(whole, |run|, |whole| - 1, t);
  }
}
