/** The reference-counted per-order mutexes that every payment callback takes.
    Goroutines are program counters; one `Step` of one goroutine is one atomic
    action of LockOrder or UnlockOrder, so a list of steps is an interleaving. */
module OrderLocks {
  import opened Options

  type Goroutine = nat
  type TradeNo = string
  type MutexId = nat

  /** `refCountedMutex`. A Go mutex has no owner, only a locked bit. */
  datatype RefCountedMutex = RefCountedMutex(locked: bool, refCount: int)

  /** The action a goroutine takes next. `m` is the mutex it obtained in
      LockOrder; the code does not keep it, so UnlockOrder works on `found`. */
  datatype Pc =
    | Idle
    | LockStart(key: TradeNo)                                 // createLock.Lock
    | LockLoad(key: TradeNo)                                  // orderLocks.Load
    | LockStore(key: TradeNo)                                 // orderLocks.Store of a new mutex
    | LockCount(key: TradeNo, m: MutexId)                     // refCount++
    | LockRelease(key: TradeNo, m: MutexId)                   // createLock.Unlock
    | LockWait(key: TradeNo, m: MutexId)                      // mu.Lock
    | Critical(key: TradeNo, m: MutexId)                      // the caller's locked section
    | UnlockLoad(key: TradeNo, m: MutexId)                    // orderLocks.Load, createLock not held
    | UnlockMu(key: TradeNo, m: MutexId, found: MutexId)      // mu.Unlock
    | UnlockWait(key: TradeNo, m: MutexId, found: MutexId)    // createLock.Lock
    | UnlockCount(key: TradeNo, m: MutexId, found: MutexId)   // refCount--
    | UnlockDelete(key: TradeNo, m: MutexId, found: MutexId)  // Delete when refCount == 0
    | UnlockRelease(key: TradeNo, m: MutexId, found: MutexId) // createLock.Unlock

  datatype State = State(
    table: map<TradeNo, MutexId>,        // orderLocks
    heap: map<MutexId, RefCountedMutex>, // every mutex ever allocated
    next: MutexId,                       // next unused identifier
    creator: Option<Goroutine>,          // holder of createLock
    pcs: map<Goroutine, Pc>)

  /** createLock is held from its Lock to its Unlock. */
  predicate HoldsCreateLock(pc: Pc) {
    pc.LockLoad? || pc.LockStore? || pc.LockCount? || pc.LockRelease? ||
    pc.UnlockCount? || pc.UnlockDelete? || pc.UnlockRelease?
  }

  /** Between refCount++ and refCount--, on order `k`. */
  predicate Counted(pc: Pc, k: TradeNo) {
    (pc.LockRelease? || pc.LockWait? || pc.Critical? || pc.UnlockLoad? ||
     pc.UnlockMu? || pc.UnlockWait? || pc.UnlockCount?) && pc.key == k
  }

  /** Between mu.Lock and mu.Unlock, on order `k`. */
  predicate Inside(pc: Pc, k: TradeNo) {
    (pc.Critical? || pc.UnlockLoad? || pc.UnlockMu?) && pc.key == k
  }

  /** The two moments at which an entry may be in the table uncounted. */
  predicate InWindow(pc: Pc, k: TradeNo) {
    (pc.LockCount? || pc.UnlockDelete?) && pc.key == k
  }

  ghost function Users(pcs: map<Goroutine, Pc>, k: TradeNo): set<Goroutine> {
    set g | g in pcs && Counted(pcs[g], k)
  }

  ghost function Insiders(pcs: map<Goroutine, Pc>, k: TradeNo): set<Goroutine> {
    set g | g in pcs && Inside(pcs[g], k)
  }

  predicate Init(s: State) {
    s.table == map[] && s.heap == map[] && s.creator == None &&
    forall g :: g in s.pcs ==> s.pcs[g] == Idle
  }

  /** A goroutine is blocked only on a mutex that is taken. */
  predicate Enabled(s: State, g: Goroutine) {
    g in s.pcs &&
    match s.pcs[g]
    case LockStart(_) => s.creator == None
    case UnlockWait(_, _, _) => s.creator == None
    case LockWait(_, m) => m in s.heap && !s.heap[m].locked
    case _ => true
  }

  function Goto(s: State, g: Goroutine, pc: Pc): State {
    s.(pcs := s.pcs[g := pc])
  }

  /** The mutex object stored at `m`; an identifier never allocated reads as a zero value. */
  function At(s: State, m: MutexId): RefCountedMutex {
    if m in s.heap then s.heap[m] else RefCountedMutex(false, 0)
  }

  function SetAt(s: State, m: MutexId, rcm: RefCountedMutex): State {
    s.(heap := s.heap[m := rcm])
  }

  /** One atomic action of `g`. An idle goroutine calls LockOrder(k); one in its
      critical section calls UnlockOrder. */
  function Step(s: State, g: Goroutine, k: TradeNo): State
    requires Enabled(s, g)
  {
    match s.pcs[g]
    case Idle => Goto(s, g, LockStart(k))
    case LockStart(key) => Goto(s.(creator := Some(g)), g, LockLoad(key))
    case LockLoad(key) =>
      Goto(s, g, if key in s.table then LockCount(key, s.table[key]) else LockStore(key))
    case LockStore(key) =>
      var t := SetAt(s, s.next, RefCountedMutex(false, 0));
      Goto(t.(table := s.table[key := s.next], next := s.next + 1), g, LockCount(key, s.next))
    case LockCount(key, m) =>
      Goto(SetAt(s, m, At(s, m).(refCount := At(s, m).refCount + 1)), g, LockRelease(key, m))
    case LockRelease(key, m) => Goto(s.(creator := None), g, LockWait(key, m))
    case LockWait(key, m) => Goto(SetAt(s, m, At(s, m).(locked := true)), g, Critical(key, m))
    case Critical(key, m) => Goto(s, g, UnlockLoad(key, m))
    case UnlockLoad(key, m) =>
      Goto(s, g, if key in s.table then UnlockMu(key, m, s.table[key]) else Idle)
    case UnlockMu(key, m, found) =>
      Goto(SetAt(s, found, At(s, found).(locked := false)), g, UnlockWait(key, m, found))
    case UnlockWait(key, m, found) => Goto(s.(creator := Some(g)), g, UnlockCount(key, m, found))
    case UnlockCount(key, m, found) =>
      Goto(SetAt(s, found, At(s, found).(refCount := At(s, found).refCount - 1)), g, UnlockDelete(key, m, found))
    case UnlockDelete(key, m, found) =>
      var t := if At(s, found).refCount == 0 then s.(table := s.table - {key}) else s;
      Goto(t, g, UnlockRelease(key, m, found))
    case UnlockRelease(_, _, _) => Goto(s.(creator := None), g, Idle)
  }

  datatype Choice = Choice(g: Goroutine, key: TradeNo)

  /** `run` is a possible interleaving from `s`. */
  predicate Schedulable(s: State, run: seq<Choice>)
    decreases |run|
  {
    run == [] || (Enabled(s, run[0].g) && Schedulable(Step(s, run[0].g, run[0].key), run[1..]))
  }

  function Run(s: State, run: seq<Choice>): State
    requires Schedulable(s, run)
    decreases |run|
  {
    if run == [] then s else Run(Step(s, run[0].g, run[0].key), run[1..])
  }

  // ----- the global invariant -----

  /** Identifiers in the table are allocated, and no two orders share one. */
  predicate TableOk(s: State) {
    (forall k :: k in s.table ==> s.table[k] in s.heap) &&
    (forall m :: m in s.heap ==> m < s.next) &&
    (forall k1, k2 :: k1 in s.table && k2 in s.table && s.table[k1] == s.table[k2] ==> k1 == k2)
  }

  predicate CreatorOk(s: State) {
    (s.creator.Some? ==> s.creator.value in s.pcs && HoldsCreateLock(s.pcs[s.creator.value])) &&
    (forall g :: g in s.pcs && HoldsCreateLock(s.pcs[g]) ==> s.creator == Some(g))
  }

  /** What a goroutine believes about the table is true of it. */
  predicate PcOk(s: State, pc: Pc) {
    (pc.LockStore? ==> pc.key !in s.table) &&
    (!pc.Idle? && (Counted(pc, pc.key) || InWindow(pc, pc.key)) ==>
       pc.key in s.table && s.table[pc.key] == pc.m) &&
    ((pc.UnlockMu? || pc.UnlockWait? || pc.UnlockCount? || pc.UnlockDelete?) ==> pc.found == pc.m)
  }

  predicate CreatorAt(s: State, k: TradeNo) {
    s.creator.Some? && s.creator.value in s.pcs && InWindow(s.pcs[s.creator.value], k)
  }

  ghost predicate AtMostOne(gs: set<Goroutine>) {
    forall g, h :: g in gs && h in gs ==> g == h
  }

  ghost predicate OrderOk(s: State, k: TradeNo) {
    (k in s.table <==> Users(s.pcs, k) != {} || CreatorAt(s, k)) &&
    (k in s.table ==>
       At(s, s.table[k]).refCount == |Users(s.pcs, k)| &&
       At(s, s.table[k]).locked == (Insiders(s.pcs, k) != {}) && AtMostOne(Insiders(s.pcs, k)))
  }

  ghost predicate Inv(s: State) {
    TableOk(s) && CreatorOk(s) &&
    (forall g :: g in s.pcs ==> PcOk(s, s.pcs[g])) &&
    (forall k :: OrderOk(s, k))
  }

  lemma MoveUsers(pcs: map<Goroutine, Pc>, g: Goroutine, pc: Pc, k: TradeNo)
    ensures Users(pcs[g := pc], k) == if Counted(pc, k) then Users(pcs, k) + {g} else Users(pcs, k) - {g}
    ensures Insiders(pcs[g := pc], k) == if Inside(pc, k) then Insiders(pcs, k) + {g} else Insiders(pcs, k) - {g}
  {}

  lemma StepKeepsTable(s: State, g: Goroutine, arg: TradeNo)
    requires TableOk(s) && Enabled(s, g) && PcOk(s, s.pcs[g])
    ensures TableOk(Step(s, g, arg))
  {}

  lemma StepKeepsCreator(s: State, g: Goroutine, arg: TradeNo)
    requires CreatorOk(s) && Enabled(s, g)
    ensures CreatorOk(Step(s, g, arg))
  {}

  lemma StepKeepsPcs(s: State, g: Goroutine, arg: TradeNo, h: Goroutine)
    requires Inv(s) && Enabled(s, g) && h in s.pcs
    ensures PcOk(Step(s, g, arg), Step(s, g, arg).pcs[h])
  {
    assert PcOk(s, s.pcs[g]) && PcOk(s, s.pcs[h]);
    var pc := s.pcs[g];
    if !pc.Idle? {
      assert OrderOk(s, pc.key);
      assert Counted(pc, pc.key) ==> g in Users(s.pcs, pc.key);
      if pc.UnlockDelete? && h != g && !s.pcs[h].Idle? {
        assert Counted(s.pcs[h], pc.key) ==> h in Users(s.pcs, pc.key);
      }
    }
  }

  /** Steps other than refCount++ and refCount-- leave the users of every order alone. */
  lemma StepKeepsUsers(s: State, g: Goroutine, arg: TradeNo, k: TradeNo)
    requires Enabled(s, g) && (s.pcs[g].UnlockLoad? ==> s.pcs[g].key in s.table)
    requires s.pcs[g].LockCount? || s.pcs[g].UnlockCount? ==> s.pcs[g].key != k
    ensures Users(Step(s, g, arg).pcs, k) == Users(s.pcs, k)
  {
    MoveUsers(s.pcs, g, Step(s, g, arg).pcs[g], k);
    assert Counted(s.pcs[g], k) <==> g in Users(s.pcs, k);
  }

  /** Steps other than mu.Lock and mu.Unlock leave the insiders of every order alone. */
  lemma StepKeepsInsiders(s: State, g: Goroutine, arg: TradeNo, k: TradeNo)
    requires Enabled(s, g) && (s.pcs[g].UnlockLoad? ==> s.pcs[g].key in s.table)
    requires s.pcs[g].LockWait? || s.pcs[g].UnlockMu? ==> s.pcs[g].key != k
    ensures Insiders(Step(s, g, arg).pcs, k) == Insiders(s.pcs, k)
  {
    MoveUsers(s.pcs, g, Step(s, g, arg).pcs[g], k);
    assert Inside(s.pcs[g], k) <==> g in Insiders(s.pcs, k);
  }

  lemma StepKeepsOtherEntry(s: State, g: Goroutine, arg: TradeNo, k: TradeNo)
    requires TableOk(s) && CreatorOk(s) && Enabled(s, g) && PcOk(s, s.pcs[g])
    requires s.pcs[g].Idle? || s.pcs[g].key != k
    ensures var s' := Step(s, g, arg);
      (k in s'.table <==> k in s.table) && (k in s.table ==> At(s', s'.table[k]) == At(s, s.table[k]))
  {}

  lemma StepKeepsOtherWindow(s: State, g: Goroutine, arg: TradeNo, k: TradeNo)
    requires CreatorOk(s) && Enabled(s, g)
    requires s.pcs[g].Idle? || s.pcs[g].key != k
    ensures CreatorAt(Step(s, g, arg), k) == CreatorAt(s, k)
  {}

  /** A step on one order leaves every other order's entry and users alone. */
  lemma StepKeepsOtherOrder(s: State, g: Goroutine, arg: TradeNo, k: TradeNo)
    requires TableOk(s) && CreatorOk(s) && Enabled(s, g) && PcOk(s, s.pcs[g]) && OrderOk(s, k)
    requires s.pcs[g].Idle? || s.pcs[g].key != k
    ensures OrderOk(Step(s, g, arg), k)
  {
    StepKeepsUsers(s, g, arg, k);
    StepKeepsInsiders(s, g, arg, k);
    StepKeepsOtherEntry(s, g, arg, k);
    StepKeepsOtherWindow(s, g, arg, k);
  }

  lemma LockStepKeepsOrder(s: State, g: Goroutine, arg: TradeNo, k: TradeNo)
    requires TableOk(s) && CreatorOk(s) && Enabled(s, g) && PcOk(s, s.pcs[g]) && OrderOk(s, k)
    requires var pc := s.pcs[g]; pc.LockStart? || pc.LockLoad? || pc.LockStore? || pc.LockRelease?
    requires s.pcs[g].key == k
    ensures OrderOk(Step(s, g, arg), k)
  {
    StepKeepsUsers(s, g, arg, k);
    StepKeepsInsiders(s, g, arg, k);
    assert Counted(s.pcs[g], k) <==> g in Users(s.pcs, k);
  }

  lemma IncrementKeepsOrder(s: State, g: Goroutine, arg: TradeNo, k: TradeNo)
    requires TableOk(s) && CreatorOk(s) && Enabled(s, g) && PcOk(s, s.pcs[g]) && OrderOk(s, k)
    requires s.pcs[g].LockCount? && s.pcs[g].key == k
    ensures OrderOk(Step(s, g, arg), k)
  {
    var s' := Step(s, g, arg);
    MoveUsers(s.pcs, g, s'.pcs[g], k);
    StepKeepsInsiders(s, g, arg, k);
    assert Users(s'.pcs, k) == Users(s.pcs, k) + {g} && g !in Users(s.pcs, k);
  }

  lemma DecrementKeepsOrder(s: State, g: Goroutine, arg: TradeNo, k: TradeNo)
    requires TableOk(s) && CreatorOk(s) && Enabled(s, g) && PcOk(s, s.pcs[g]) && OrderOk(s, k)
    requires s.pcs[g].UnlockCount? && s.pcs[g].key == k
    ensures OrderOk(Step(s, g, arg), k)
  {
    var s' := Step(s, g, arg);
    MoveUsers(s.pcs, g, s'.pcs[g], k);
    StepKeepsInsiders(s, g, arg, k);
    assert Users(s'.pcs, k) == Users(s.pcs, k) - {g} && g in Users(s.pcs, k);
    assert CreatorAt(s', k);
  }

  lemma AcquireKeepsOrder(s: State, g: Goroutine, arg: TradeNo, k: TradeNo)
    requires TableOk(s) && CreatorOk(s) && Enabled(s, g) && PcOk(s, s.pcs[g]) && OrderOk(s, k)
    requires s.pcs[g].LockWait? && s.pcs[g].key == k
    ensures OrderOk(Step(s, g, arg), k)
  {
    var s' := Step(s, g, arg);
    MoveUsers(s.pcs, g, s'.pcs[g], k);
    StepKeepsUsers(s, g, arg, k);
    assert g in Users(s.pcs, k);
    assert Insiders(s'.pcs, k) == {g};
  }

  lemma ReleaseKeepsOrder(s: State, g: Goroutine, arg: TradeNo, k: TradeNo)
    requires TableOk(s) && CreatorOk(s) && Enabled(s, g) && PcOk(s, s.pcs[g]) && OrderOk(s, k)
    requires s.pcs[g].UnlockMu? && s.pcs[g].key == k
    ensures OrderOk(Step(s, g, arg), k)
  {
    var s' := Step(s, g, arg);
    MoveUsers(s.pcs, g, s'.pcs[g], k);
    StepKeepsUsers(s, g, arg, k);
    assert g in Users(s.pcs, k) && g in Insiders(s.pcs, k);
    assert Insiders(s'.pcs, k) == {};
  }

  lemma InsideStepKeepsOrder(s: State, g: Goroutine, arg: TradeNo, k: TradeNo)
    requires TableOk(s) && CreatorOk(s) && Enabled(s, g) && PcOk(s, s.pcs[g]) && OrderOk(s, k)
    requires (s.pcs[g].Critical? || s.pcs[g].UnlockLoad?) && s.pcs[g].key == k
    ensures OrderOk(Step(s, g, arg), k)
  {
    StepKeepsUsers(s, g, arg, k);
    StepKeepsInsiders(s, g, arg, k);
    assert g in Users(s.pcs, k);
  }

  lemma UnlockStepKeepsOrder(s: State, g: Goroutine, arg: TradeNo, k: TradeNo)
    requires TableOk(s) && CreatorOk(s) && Enabled(s, g) && PcOk(s, s.pcs[g]) && OrderOk(s, k)
    requires var pc := s.pcs[g]; pc.UnlockWait? || pc.UnlockDelete? || pc.UnlockRelease?
    requires s.pcs[g].key == k
    ensures OrderOk(Step(s, g, arg), k)
  {
    StepKeepsUsers(s, g, arg, k);
    StepKeepsInsiders(s, g, arg, k);
    assert Insiders(s.pcs, k) <= Users(s.pcs, k);
  }

  lemma StepKeepsInv(s: State, g: Goroutine, arg: TradeNo)
    requires Inv(s) && Enabled(s, g)
    ensures Inv(Step(s, g, arg))
  {
    assert PcOk(s, s.pcs[g]);
    StepKeepsTable(s, g, arg);
    StepKeepsCreator(s, g, arg);
    forall h | h in s.pcs ensures PcOk(Step(s, g, arg), Step(s, g, arg).pcs[h]) {
      StepKeepsPcs(s, g, arg, h);
    }
    forall k ensures OrderOk(Step(s, g, arg), k) {
      assert OrderOk(s, k);
      if s.pcs[g].Idle? || s.pcs[g].key != k {
        StepKeepsOtherOrder(s, g, arg, k);
      } else {
        match s.pcs[g]
        case LockStart(_) | LockLoad(_) | LockStore(_) | LockRelease(_, _) => LockStepKeepsOrder(s, g, arg, k);
        case LockCount(_, _) => IncrementKeepsOrder(s, g, arg, k);
        case LockWait(_, _) => AcquireKeepsOrder(s, g, arg, k);
        case Critical(_, _) | UnlockLoad(_, _) => InsideStepKeepsOrder(s, g, arg, k);
        case UnlockMu(_, _, _) => ReleaseKeepsOrder(s, g, arg, k);
        case UnlockCount(_, _, _) => DecrementKeepsOrder(s, g, arg, k);
        case _ => UnlockStepKeepsOrder(s, g, arg, k);
      }
    }
  }

  /** Only the stepping goroutine moves, and only mu.Lock leads into a critical section. */
  lemma StepMovesOne(s: State, g: Goroutine, arg: TradeNo)
    requires Enabled(s, g)
    ensures var s' := Step(s, g, arg);
      s'.pcs.Keys == s.pcs.Keys && (forall h :: h in s.pcs && h != g ==> s'.pcs[h] == s.pcs[h]) &&
      (s'.pcs[g].Critical? <==> s.pcs[g].LockWait?)
  {}

  lemma {:induction false} RunKeepsInv(s: State, run: seq<Choice>)
    requires Inv(s) && Schedulable(s, run)
    ensures Inv(Run(s, run))
    decreases |run|
  {
    if run != [] {
      StepKeepsInv(s, run[0].g, run[0].key);
      RunKeepsInv(Step(s, run[0].g, run[0].key), run[1..]);
    }
  }

  lemma InitKeepsInv(s: State)
    requires Init(s)
    ensures Inv(s)
  {
    forall k ensures OrderOk(s, k) {
      assert Users(s.pcs, k) == {};
    }
  }

  // ----- what the lock promises in every interleaving -----

  /** At most one goroutine is between mu.Lock and mu.Unlock of one order. */
  lemma MutualExclusion(s0: State, run: seq<Choice>, g: Goroutine, h: Goroutine, k: TradeNo)
    requires Init(s0) && Schedulable(s0, run)
    requires var s := Run(s0, run); g in s.pcs && h in s.pcs && Inside(s.pcs[g], k) && Inside(s.pcs[h], k)
    ensures g == h
  {
    var s := Run(s0, run);
    InitKeepsInv(s0);
    RunKeepsInv(s0, run);
    assert OrderOk(s, k);
    assert g in Insiders(s.pcs, k) && h in Insiders(s.pcs, k) && g in Users(s.pcs, k);
  }

  /** The unguarded Load in UnlockOrder always finds an entry, that entry is the
      mutex this goroutine locked, and it is still locked when unlocked. */
  lemma UnlockFindsOwnMutex(s0: State, run: seq<Choice>, g: Goroutine)
    requires Init(s0) && Schedulable(s0, run)
    requires var s := Run(s0, run); g in s.pcs && (s.pcs[g].UnlockLoad? || s.pcs[g].UnlockMu?)
    ensures var s := Run(s0, run); var pc := s.pcs[g];
      pc.key in s.table && s.table[pc.key] == pc.m && At(s, pc.m).locked && (pc.UnlockMu? ==> pc.found == pc.m)
  {
    var s := Run(s0, run);
    InitKeepsInv(s0);
    RunKeepsInv(s0, run);
    assert PcOk(s, s.pcs[g]);
    assert OrderOk(s, s.pcs[g].key);
    assert g in Insiders(s.pcs, s.pcs[g].key) && g in Users(s.pcs, s.pcs[g].key);
  }

  /** Whenever createLock is free, an order has an entry exactly when somebody is
      between its increment and its decrement, and refCount is how many are. */
  lemma EntriesCountUsers(s0: State, run: seq<Choice>, k: TradeNo)
    requires Init(s0) && Schedulable(s0, run) && Run(s0, run).creator == None
    ensures var s := Run(s0, run);
      (k in s.table <==> Users(s.pcs, k) != {}) &&
      (k in s.table ==> At(s, s.table[k]).refCount == |Users(s.pcs, k)|)
  {
    InitKeepsInv(s0);
    RunKeepsInv(s0, run);
    assert OrderOk(Run(s0, run), k);
  }

  /** Nothing leaks: once every goroutine is idle again the table is empty. */
  lemma QuiescentTableIsEmpty(s0: State, run: seq<Choice>)
    requires Init(s0) && Schedulable(s0, run)
    requires forall g :: g in Run(s0, run).pcs ==> Run(s0, run).pcs[g] == Idle
    ensures Run(s0, run).table == map[]
  {
    var s := Run(s0, run);
    InitKeepsInv(s0);
    RunKeepsInv(s0, run);
    forall k ensures k !in s.table {
      assert OrderOk(s, k);
      assert Users(s.pcs, k) == {};
    }
  }

  /** No interleaving deadlocks: while some goroutine is inside LockOrder,
      its critical section or UnlockOrder, some such goroutine can move. */
  lemma NoDeadlock(s0: State, run: seq<Choice>, g: Goroutine)
    requires Init(s0) && Schedulable(s0, run)
    requires var s := Run(s0, run); g in s.pcs && !s.pcs[g].Idle?
    ensures var s := Run(s0, run); exists h :: Enabled(s, h) && !s.pcs[h].Idle?
  {
    var s := Run(s0, run);
    InitKeepsInv(s0);
    RunKeepsInv(s0, run);
    if s.creator.Some? {
      assert Enabled(s, s.creator.value);
    } else if !Enabled(s, g) {
      var k := s.pcs[g].key;
      assert PcOk(s, s.pcs[g]);
      assert OrderOk(s, k);
      assert g in Users(s.pcs, k);
      var h :| h in Insiders(s.pcs, k);
      assert Enabled(s, h);
    }
  }

  /** In every interleaving a goroutine is blocked only while another one holds the mutex
      it waits for: createLock, or the mutex of its order. */
  lemma BlockedIff(s0: State, run: seq<Choice>, g: Goroutine)
    requires Init(s0) && Schedulable(s0, run) && g in s0.pcs
    ensures var s := Run(s0, run);
      g in s.pcs &&
      (!Enabled(s, g) <==>
         match s.pcs[g]
         case LockStart(_) => s.creator.Some?
         case UnlockWait(_, _, _) => s.creator.Some?
         case LockWait(k, _) => exists h :: h != g && h in s.pcs && Inside(s.pcs[h], k)
         case _ => false)
  {
    InitKeepsInv(s0);
    RunKeepsInv(s0, run);
    RunKeepsGoroutines(s0, run);
    var s := Run(s0, run);
    if s.pcs[g].LockWait? {
      var k := s.pcs[g].key;
      assert PcOk(s, s.pcs[g]);
      assert OrderOk(s, k);
      assert g in Users(s.pcs, k);
      forall h ensures h in Insiders(s.pcs, k) <==> h in s.pcs && Inside(s.pcs[h], k) {}
    }
  }

  lemma {:induction false} RunKeepsGoroutines(s: State, run: seq<Choice>)
    requires Schedulable(s, run)
    ensures Run(s, run).pcs.Keys == s.pcs.Keys
    decreases |run|
  {
    if run != [] {
      RunKeepsGoroutines(Step(s, run[0].g, run[0].key), run[1..]);
    }
  }

  /** `n` steps of `g` alone, while it is not blocked. */
  function Steps(s: State, g: Goroutine, k: TradeNo, n: nat): Option<State> {
    if n == 0 then Some(s)
    else
      var t := Steps(s, g, k, n - 1);
      if t.Some? && Enabled(t.value, g) then Some(Step(t.value, g, k)) else None
  }

  /** Idle, with createLock free and order `k` not in the table. */
  predicate Free(s: State, g: Goroutine, k: TradeNo) {
    g in s.pcs && s.pcs[g] == Idle && s.creator == None && k !in s.table
  }

  lemma Enters(s: State, g: Goroutine, k: TradeNo)
    requires Free(s, g, k)
    ensures var t := Steps(s, g, k, 7);
      t.Some? && g in t.value.pcs && t.value.pcs[g] == Critical(k, s.next) && t.value.creator == None &&
      k in t.value.table && t.value.table[k] == s.next && s.next in t.value.heap &&
      t.value.heap[s.next] == RefCountedMutex(true, 1)
  {
    var s1 := Step(s, g, k);
    var s2 := Step(s1, g, k);
    var s3 := Step(s2, g, k);
    var s4 := Step(s3, g, k);
    var s5 := Step(s4, g, k);
    var s6 := Step(s5, g, k);
    assert Steps(s, g, k, 1) == Some(s1);
    assert Steps(s, g, k, 2) == Some(s2);
    assert Steps(s, g, k, 3) == Some(s3);
    assert Steps(s, g, k, 4) == Some(s4);
    assert Steps(s, g, k, 5) == Some(s5);
    assert Steps(s, g, k, 6) == Some(s6);
  }

  lemma Leaves(s: State, g: Goroutine, k: TradeNo, m: MutexId)
    requires g in s.pcs && s.pcs[g] == Critical(k, m) && s.creator == None
    requires k in s.table && s.table[k] == m && m in s.heap && s.heap[m] == RefCountedMutex(true, 1)
    ensures var t := Steps(s, g, k, 7); t.Some? && Free(t.value, g, k)
  {
    var s1 := Step(s, g, k);
    var s2 := Step(s1, g, k);
    var s3 := Step(s2, g, k);
    var s4 := Step(s3, g, k);
    var s5 := Step(s4, g, k);
    var s6 := Step(s5, g, k);
    assert Steps(s, g, k, 1) == Some(s1);
    assert Steps(s, g, k, 2) == Some(s2);
    assert Steps(s, g, k, 3) == Some(s3);
    assert Steps(s, g, k, 4) == Some(s4);
    assert Steps(s, g, k, 5) == Some(s5);
    assert Steps(s, g, k, 6) == Some(s6);
  }

  lemma {:induction false} StepsConcat(s: State, g: Goroutine, k: TradeNo, a: nat, b: nat)
    requires Steps(s, g, k, a).Some?
    ensures Steps(s, g, k, a + b) == Steps(Steps(s, g, k, a).value, g, k, b)
  {
    hide Step, Enabled;
    if b > 0 {
      StepsConcat(s, g, k, a, b - 1);
    }
  }

  /** A goroutine that nobody gets in the way of is in the section of its order after
      seven steps, and seven more take it out again and leave no entry behind. */
  lemma AloneGetsThrough(s: State, g: Goroutine, k: TradeNo)
    requires Free(s, g, k)
    ensures Steps(s, g, k, 7).Some? && g in Steps(s, g, k, 7).value.pcs
    ensures Steps(s, g, k, 7).value.pcs[g] == Critical(k, s.next)
    ensures Steps(s, g, k, 14).Some? && Free(Steps(s, g, k, 14).value, g, k)
  {
    hide Steps;
    Enters(s, g, k);
    Leaves(Steps(s, g, k, 7).value, g, k, s.next);
    StepsConcat(s, g, k, 7, 7);
  }
}
