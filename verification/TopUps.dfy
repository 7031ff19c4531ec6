/** Crediting a paid order exactly once. EpayNotify's locked section and the
    administrator's completion run inside the order lock; loading, checking,
    saving and crediting are separate steps that interleave freely. */
module TopUps {
  import opened Numbers
  import opened Options
  import opened OrderLocks

  type UserId = int

  datatype Status = Pending | Success | Other(name: string)
  datatype Provider = ProviderEpay | ProviderStripe | ProviderOther(name: string)

  /** A `top_ups` row. */
  datatype TopUp = TopUp(userId: UserId, amount: int, money: real, payMethod: string,
                         provider: Provider, status: Status)

  datatype Credit = Credit(trade: TradeNo, user: UserId, quota: int)

  /** The database, with a ledger of the credits that were paid and the orders
      whose credit failed after the order had been marked successful. */
  datatype Db = Db(
    quotaPerUnit: real,
    orders: map<TradeNo, TopUp>,
    balance: map<UserId, int>,
    credits: seq<Credit>,
    lost: set<TradeNo>)

  datatype Caller = Epay(payType: string) | Admin

  /** Progress through the locked section. */
  datatype Work =
    | Fresh(caller: Caller)                       // GetTopUpByTradeNo, or the admin's transaction
    | Loaded(payType: string, found: Option<TopUp>)// the checks on the loaded row
    | Checked(row: TopUp)                         // topUp.Update, row already marked successful
    | Saved(row: TopUp)                           // IncreaseUserQuota
    | Finished

  /** Stripe orders are paid in money, the others in amount. */
  function UnitsOf(row: TopUp): real {
    if row.provider == ProviderStripe then row.money else row.amount as real
  }

  function QuotaFor(units: real, perUnit: real): int {
    Truncate(units * perUnit)
  }

  function QuotaOf(perUnit: real, row: TopUp): int {
    QuotaFor(UnitsOf(row), perUnit)
  }

  /** The row a notification of type `payType` is about to save. */
  function Paid(row: TopUp, payType: string): TopUp {
    row.(payMethod := payType, status := Success)
  }

  /** IncreaseUserQuota: rejects negative amounts, otherwise one atomic UPDATE that
      touches no row when the user does not exist. */
  function Pay(db: Db, k: TradeNo, row: TopUp): Db {
    var q := QuotaOf(db.quotaPerUnit, row);
    var paid := db.(credits := db.credits + [Credit(k, row.userId, q)]);
    if row.userId in db.balance
    then paid.(balance := db.balance[row.userId := db.balance[row.userId] + q])
    else paid
  }

  /** One step of the locked section on order `k`; `ok` says whether the database
      operation of that step succeeds. */
  function WorkStep(db: Db, w: Work, k: TradeNo, ok: bool): (Db, Work) {
    match w
    case Fresh(Epay(payType)) => (db, Loaded(payType, if k in db.orders then Some(db.orders[k]) else None))
    case Fresh(Admin) => (if ok then AdminComplete(db, k) else db, Finished)
    case Loaded(payType, row) =>
      if row.Some? && row.value.provider == ProviderEpay && row.value.status == Pending
      then (db, Checked(Paid(row.value, payType)))
      else (db, Finished)
    case Checked(row) =>
      if ok then (db.(orders := db.orders[k := row]), Saved(row)) else (db, Finished)
    case Saved(row) =>
      if ok && QuotaOf(db.quotaPerUnit, row) >= 0 then (Pay(db, k, row), Finished)
      else (db.(lost := db.lost + {k}), Finished)
    case Finished => (db, Finished)
  }

  /** ManualCompleteTopUp: one transaction. */
  function AdminComplete(db: Db, k: TradeNo): Db {
    if k in db.orders && db.orders[k].status == Pending && QuotaOf(db.quotaPerUnit, db.orders[k]) > 0 then
      var row := db.orders[k].(status := Success);
      Pay(db.(orders := db.orders[k := row]), k, row)
    else db
  }

  datatype System = System(locks: State, work: map<Goroutine, Work>, db: Db)

  datatype Move =
    | LockMove(g: Goroutine, key: TradeNo, caller: Caller) // a step of LockOrder / UnlockOrder
    | WorkMove(g: Goroutine, ok: bool)                     // a step of the locked section

  predicate CanMove(s: System, mv: Move) {
    match mv
    case LockMove(g, _, _) =>
      Enabled(s.locks, g) && (s.locks.pcs[g].Critical? ==> g in s.work && s.work[g] == Finished)
    case WorkMove(g, _) => g in s.locks.pcs && s.locks.pcs[g].Critical? && g in s.work
  }

  function Apply(s: System, mv: Move): System
    requires CanMove(s, mv)
  {
    match mv
    case LockMove(g, key, caller) =>
      var locks := Step(s.locks, g, key);
      var work := if locks.pcs[g].Critical? then s.work[g := Fresh(caller)] else s.work - {g};
      s.(locks := locks, work := work)
    case WorkMove(g, ok) =>
      var (db, w) := WorkStep(s.db, s.work[g], s.locks.pcs[g].key, ok);
      s.(db := db, work := s.work[g := w])
  }

  predicate Feasible(s: System, moves: seq<Move>)
    decreases |moves|
  {
    moves == [] || (CanMove(s, moves[0]) && Feasible(Apply(s, moves[0]), moves[1..]))
  }

  function Play(s: System, moves: seq<Move>): System
    requires Feasible(s, moves)
    decreases |moves|
  {
    if moves == [] then s else Play(Apply(s, moves[0]), moves[1..])
  }

  predicate Start(s: System) {
    Init(s.locks) && s.work == map[] && s.db.credits == [] && s.db.lost == {}
  }

  // ----- the invariant, relative to the database `d0` the run began with -----

  function PaidTo(credits: seq<Credit>, u: UserId): int {
    if credits == [] then 0
    else PaidTo(credits[..|credits| - 1], u) +
         (if credits[|credits| - 1].user == u then credits[|credits| - 1].quota else 0)
  }

  predicate CreditedTrade(db: Db, k: TradeNo) {
    exists i :: 0 <= i < |db.credits| && db.credits[i].trade == k
  }

  /** A row only ever changes its payment method and goes from pending to success. */
  predicate RowEvolves(before: TopUp, after: TopUp) {
    after == before.(payMethod := after.payMethod, status := after.status) &&
    (after.status == before.status || (before.status == Pending && after.status == Success))
  }

  predicate LedgerOk(d0: Db, db: Db) {
    db.quotaPerUnit == d0.quotaPerUnit && db.orders.Keys == d0.orders.Keys && db.balance.Keys == d0.balance.Keys &&
    (forall k :: k in db.orders ==> RowEvolves(d0.orders[k], db.orders[k])) &&
    (forall u :: u in db.balance ==> db.balance[u] == d0.balance[u] + PaidTo(db.credits, u)) &&
    (forall i, j :: 0 <= i < j < |db.credits| ==> db.credits[i].trade != db.credits[j].trade) &&
    (forall i :: 0 <= i < |db.credits| ==> CreditOk(d0, db, db.credits[i])) &&
    (forall k :: k in db.lost ==> k in db.orders && d0.orders[k].status == Pending &&
                                  db.orders[k].status == Success && !CreditedTrade(db, k))
  }

  predicate CreditOk(d0: Db, db: Db, c: Credit) {
    c.trade in d0.orders && c.trade in db.orders && d0.orders[c.trade].status == Pending &&
    db.orders[c.trade].status == Success && c.user == d0.orders[c.trade].userId &&
    c.quota == QuotaOf(d0.quotaPerUnit, d0.orders[c.trade]) && c.quota >= 0
  }

  /** What a goroutine in the locked section of `k` knows. */
  predicate WorkOk(d0: Db, db: Db, w: Work, k: TradeNo) {
    match w
    case Loaded(_, row) => row == if k in db.orders then Some(db.orders[k]) else None
    case Checked(row) =>
      k in db.orders && db.orders[k].status == Pending && row.status == Success && RowEvolves(db.orders[k], row)
    case Saved(row) =>
      k in db.orders && db.orders[k] == row && row.status == Success && k in d0.orders &&
      d0.orders[k].status == Pending && !CreditedTrade(db, k) && k !in db.lost
    case _ => true
  }

  /** Between saving the order and crediting it. */
  predicate Crediting(s: System, k: TradeNo) {
    exists g ::
      g in s.work && s.work[g].Saved? && g in s.locks.pcs && s.locks.pcs[g].Critical? && s.locks.pcs[g].key == k
  }

  /** A pending order that succeeded has been credited, or its credit is lost or under way. */
  predicate Settled(d0: Db, s: System, k: TradeNo) {
    k in d0.orders && d0.orders[k].status == Pending && k in s.db.orders && s.db.orders[k].status == Success ==>
      CreditedTrade(s.db, k) || k in s.db.lost || Crediting(s, k)
  }

  ghost predicate SystemOk(d0: Db, s: System) {
    Inv(s.locks) && LedgerOk(d0, s.db) &&
    (forall g :: g in s.work <==> g in s.locks.pcs && s.locks.pcs[g].Critical?) &&
    (forall g :: g in s.work ==> WorkOk(d0, s.db, s.work[g], s.locks.pcs[g].key)) &&
    (forall k :: Settled(d0, s, k))
  }

  /** The lock at work: two goroutines in locked sections are on different orders. */
  lemma DifferentOrders(locks: State, g: Goroutine, h: Goroutine)
    requires Inv(locks) && g in locks.pcs && h in locks.pcs && g != h
    requires locks.pcs[g].Critical? && locks.pcs[h].Critical?
    ensures locks.pcs[g].key != locks.pcs[h].key
  {
    assert OrderOk(locks, locks.pcs[g].key);
    assert g in Users(locks.pcs, locks.pcs[g].key);
    assert g in Insiders(locks.pcs, locks.pcs[g].key);
    assert h in Insiders(locks.pcs, locks.pcs[h].key);
  }

  lemma SameQuota(perUnit: real, before: TopUp, after: TopUp)
    requires after == before.(payMethod := after.payMethod, status := after.status)
    ensures QuotaOf(perUnit, before) == QuotaOf(perUnit, after)
  {
    hide QuotaFor;
    assert UnitsOf(before) == UnitsOf(after);
  }

  lemma PayKeepsLedger(d0: Db, db: Db, k: TradeNo, row: TopUp)
    requires LedgerOk(d0, db) && k in db.orders && db.orders[k] == row && row.status == Success
    requires d0.orders[k].status == Pending && !CreditedTrade(db, k) && k !in db.lost
    requires QuotaOf(db.quotaPerUnit, row) >= 0
    ensures LedgerOk(d0, Pay(db, k, row)) && CreditedTrade(Pay(db, k, row), k)
  {
    hide QuotaOf;
    var db' := Pay(db, k, row);
    var c := Credit(k, row.userId, QuotaOf(db.quotaPerUnit, row));
    SameQuota(db.quotaPerUnit, d0.orders[k], row);
    assert db'.credits == db.credits + [c] && db'.credits[|db.credits|] == c;
    assert db'.credits[..|db'.credits| - 1] == db.credits;
    assert RowEvolves(d0.orders[k], row);
    assert CreditOk(d0, db', c);
    forall i | 0 <= i < |db.credits| ensures db.credits[i].trade != k && CreditOk(d0, db', db.credits[i]) {
      assert CreditOk(d0, db, db.credits[i]);
    }
  }

  lemma SaveKeepsLedger(d0: Db, db: Db, k: TradeNo, row: TopUp)
    requires LedgerOk(d0, db) && k in db.orders && db.orders[k].status == Pending
    requires row.status == Success && RowEvolves(db.orders[k], row)
    ensures LedgerOk(d0, db.(orders := db.orders[k := row]))
    ensures d0.orders[k].status == Pending && !CreditedTrade(db, k) && k !in db.lost
  {
    assert RowEvolves(d0.orders[k], db.orders[k]);
    forall i | 0 <= i < |db.credits| ensures db.credits[i].trade != k {
      assert CreditOk(d0, db, db.credits[i]);
    }
    var db' := db.(orders := db.orders[k := row]);
    forall i | 0 <= i < |db.credits| ensures CreditOk(d0, db', db.credits[i]) {
      assert CreditOk(d0, db, db.credits[i]);
    }
    assert forall t :: CreditedTrade(db', t) <==> CreditedTrade(db, t);
  }

  lemma WorkKeepsLedger(d0: Db, db: Db, w: Work, k: TradeNo, ok: bool)
    requires LedgerOk(d0, db) && WorkOk(d0, db, w, k)
    ensures LedgerOk(d0, WorkStep(db, w, k, ok).0)
    ensures WorkOk(d0, WorkStep(db, w, k, ok).0, WorkStep(db, w, k, ok).1, k)
  {
    var (db', w') := WorkStep(db, w, k, ok);
    match w
    case Fresh(Admin) =>
      if db' != db {
        var row := db.orders[k].(status := Success);
        SaveKeepsLedger(d0, db, k, row);
        var saved := db.(orders := db.orders[k := row]);
        assert CreditedTrade(saved, k) == CreditedTrade(db, k);
        SameQuota(db.quotaPerUnit, db.orders[k], row);
        PayKeepsLedger(d0, saved, k, row);
      }
    case Checked(row) =>
      if ok {
        SaveKeepsLedger(d0, db, k, row);
        assert CreditedTrade(db', k) == CreditedTrade(db, k);
      }
    case Saved(row) =>
      if ok && QuotaOf(db.quotaPerUnit, row) >= 0 {
        PayKeepsLedger(d0, db, k, row);
      } else {
        assert forall t :: CreditedTrade(db', t) <==> CreditedTrade(db, t);
      }
    case _ =>
  }

  /** A step on order `k` touches nothing that concerns another order `t`. */
  lemma WorkKeepsOthers(d0: Db, db: Db, w: Work, k: TradeNo, ok: bool, t: TradeNo)
    requires t != k && (w.Checked? ==> k in db.orders)
    ensures var db' := WorkStep(db, w, k, ok).0;
      (t in db'.orders <==> t in db.orders) && (t in db.orders ==> db'.orders[t] == db.orders[t]) &&
      (CreditedTrade(db', t) <==> CreditedTrade(db, t)) && (t in db'.lost <==> t in db.lost)
  {
    var db' := WorkStep(db, w, k, ok).0;
    assert db'.credits == db.credits || (|db'.credits| == |db.credits| + 1 &&
      db'.credits[..|db.credits|] == db.credits && db'.credits[|db.credits|].trade == k);
    if CreditedTrade(db, t) {
      var i :| 0 <= i < |db.credits| && db.credits[i].trade == t;
      assert db'.credits[i].trade == t;
    }
    if CreditedTrade(db', t) {
      var i :| 0 <= i < |db'.credits| && db'.credits[i].trade == t;
      assert db.credits[i].trade == t;
    }
  }

  /** Somebody other than `g` crediting `k` still is after `g` has moved. */
  lemma CreditingPersists(s: System, s': System, g: Goroutine, k: TradeNo)
    requires Crediting(s, k)
    requires g in s.work ==> g in s.locks.pcs && s.locks.pcs[g].Critical?
    requires g in s.work && s.work[g].Saved? ==> s.locks.pcs[g].key != k
    requires forall h :: h in s.work && h != g ==> h in s'.work && s'.work[h] == s.work[h]
    requires forall h :: h in s.locks.pcs && h != g ==> h in s'.locks.pcs && s'.locks.pcs[h] == s.locks.pcs[h]
    ensures Crediting(s', k)
  {
    var h :| h in s.work && s.work[h].Saved? && h in s.locks.pcs && s.locks.pcs[h].Critical? && s.locks.pcs[h].key == k;
    assert h in s'.work && s'.work[h].Saved? && h in s'.locks.pcs && s'.locks.pcs[h].Critical?;
  }

  lemma LockFrameSettles(d0: Db, s: System, s': System, g: Goroutine, k: TradeNo)
    requires Settled(d0, s, k) && s'.db == s.db
    requires g in s.work ==> g in s.locks.pcs && s.locks.pcs[g].Critical? && s.work[g] == Finished
    requires forall h :: h in s.work && h != g ==> h in s'.work && s'.work[h] == s.work[h]
    requires forall h :: h in s.locks.pcs && h != g ==> h in s'.locks.pcs && s'.locks.pcs[h] == s.locks.pcs[h]
    ensures Settled(d0, s', k)
  {
    if Crediting(s, k) {
      CreditingPersists(s, s', g, k);
    }
  }

  /** A step of the lock from `s.locks` to `locks` by `g`, given as a frame. */
  lemma LockFrameKeeps(d0: Db, s: System, locks: State, work: map<Goroutine, Work>, g: Goroutine, caller: Caller)
    requires SystemOk(d0, s) && Inv(locks) && g in s.locks.pcs && locks.pcs.Keys == s.locks.pcs.Keys
    requires forall h :: h in s.locks.pcs && h != g ==> locks.pcs[h] == s.locks.pcs[h]
    requires g in s.work ==> s.work[g] == Finished
    requires work == if locks.pcs[g].Critical? then s.work[g := Fresh(caller)] else s.work - {g}
    ensures SystemOk(d0, s.(locks := locks, work := work))
  {
    var s' := s.(locks := locks, work := work);
    forall k ensures Settled(d0, s', k) {
      LockFrameSettles(d0, s, s', g, k);
    }
    forall h | h in s'.work ensures WorkOk(d0, s'.db, s'.work[h], s'.locks.pcs[h].key) {
      if h != g {
        assert WorkOk(d0, s.db, s.work[h], s.locks.pcs[h].key);
      }
    }
  }

  lemma WorkMoveKeepsWork(d0: Db, s: System, mv: Move, h: Goroutine)
    requires SystemOk(d0, s) && CanMove(s, mv) && mv.WorkMove? && h in s.work && h != mv.g
    ensures WorkOk(d0, Apply(s, mv).db, s.work[h], s.locks.pcs[h].key)
  {
    DifferentOrders(s.locks, mv.g, h);
    assert WorkOk(d0, s.db, s.work[mv.g], s.locks.pcs[mv.g].key);
    assert WorkOk(d0, s.db, s.work[h], s.locks.pcs[h].key);
    WorkKeepsOthers(d0, s.db, s.work[mv.g], s.locks.pcs[mv.g].key, mv.ok, s.locks.pcs[h].key);
  }

  /** A step on order `k` either leaves it as it was or settles it. */
  lemma WorkSettles(d0: Db, db: Db, w: Work, k: TradeNo, ok: bool)
    requires LedgerOk(d0, db) && WorkOk(d0, db, w, k)
    ensures var (db', w') := WorkStep(db, w, k, ok);
      db' == db || w'.Saved? || CreditedTrade(db', k) || k in db'.lost
    ensures w.Saved? ==> CreditedTrade(WorkStep(db, w, k, ok).0, k) || k in WorkStep(db, w, k, ok).0.lost
  {
    var db' := WorkStep(db, w, k, ok).0;
    assert db'.credits == db.credits || db'.credits[|db.credits|].trade == k;
  }

  lemma WorkMoveSettles(d0: Db, s: System, mv: Move, k: TradeNo)
    requires SystemOk(d0, s) && CanMove(s, mv) && mv.WorkMove?
    ensures Settled(d0, Apply(s, mv), k)
  {
    var s', own, w := Apply(s, mv), s.locks.pcs[mv.g].key, s.work[mv.g];
    assert Settled(d0, s, k);
    assert WorkOk(d0, s.db, w, own);
    if k == own {
      WorkSettles(d0, s.db, w, own, mv.ok);
      assert s'.work[mv.g].Saved? ==> Crediting(s', k);
    } else {
      WorkKeepsOthers(d0, s.db, w, own, mv.ok, k);
    }
    if Crediting(s, k) && (w.Saved? ==> own != k) {
      CreditingPersists(s, s', mv.g, k);
    }
  }

  lemma MoveKeeps(d0: Db, s: System, mv: Move)
    requires SystemOk(d0, s) && CanMove(s, mv)
    ensures SystemOk(d0, Apply(s, mv))
  {
    if mv.LockMove? {
      StepKeepsInv(s.locks, mv.g, mv.key);
      StepMovesOne(s.locks, mv.g, mv.key);
      LockFrameKeeps(d0, s, Apply(s, mv).locks, Apply(s, mv).work, mv.g, mv.caller);
    } else {
      assert WorkOk(d0, s.db, s.work[mv.g], s.locks.pcs[mv.g].key);
      WorkKeepsLedger(d0, s.db, s.work[mv.g], s.locks.pcs[mv.g].key, mv.ok);
      forall h | h in s.work && h != mv.g ensures WorkOk(d0, Apply(s, mv).db, s.work[h], s.locks.pcs[h].key) {
        WorkMoveKeepsWork(d0, s, mv, h);
      }
      forall k ensures Settled(d0, Apply(s, mv), k) {
        WorkMoveSettles(d0, s, mv, k);
      }
    }
  }

  lemma {:induction false} PlayKeeps(d0: Db, s: System, moves: seq<Move>)
    requires SystemOk(d0, s) && Feasible(s, moves)
    ensures SystemOk(d0, Play(s, moves))
    decreases |moves|
  {
    if moves != [] {
      MoveKeeps(d0, s, moves[0]);
      PlayKeeps(d0, Apply(s, moves[0]), moves[1..]);
    }
  }

  lemma StartOk(s: System)
    requires Start(s)
    ensures SystemOk(s.db, s)
  {
    InitKeepsInv(s.locks);
  }

  // ----- what the payment callbacks promise in every interleaving -----

  /** What the order is worth, before the fraction is dropped. */
  function Worth(row: TopUp, perUnit: real): real {
    match row.provider
    case ProviderStripe => row.money * perUnit
    case _ => row.amount as real * perUnit
  }

  lemma QuotaIsWorth(perUnit: real, row: TopUp)
    ensures IsWholePart(QuotaOf(perUnit, row), Worth(row, perUnit))
    ensures QuotaOf(perUnit, row) >= 0 <==> Worth(row, perUnit) > -1.0
    ensures QuotaOf(perUnit, row) > 0 <==> Worth(row, perUnit) >= 1.0
  {
    hide Truncate, IsWholePart;
    assert UnitsOf(row) * perUnit == Worth(row, perUnit);
    TruncateIsWholePart(UnitsOf(row) * perUnit);
  }

  /** The administrator's completion pays exactly the pending orders that are worth at
      least one, and marks them; it does nothing else. */
  lemma AdminPaysIff(db: Db, k: TradeNo, ok: bool)
    ensures var db' := WorkStep(db, Fresh(Admin), k, ok).0;
      if ok && k in db.orders && db.orders[k].status == Pending && Worth(db.orders[k], db.quotaPerUnit) >= 1.0 then
        && db'.orders == db.orders[k := db.orders[k].(status := Success)] && db'.lost == db.lost
        && |db'.credits| == |db.credits| + 1 && db'.credits[..|db.credits|] == db.credits
        && var c := db'.credits[|db.credits|];
           c.trade == k && c.user == db.orders[k].userId && IsWholePart(c.quota, Worth(db.orders[k], db.quotaPerUnit))
      else db' == db
  {
    if k in db.orders {
      QuotaIsWorth(db.quotaPerUnit, db.orders[k]);
      SameQuota(db.quotaPerUnit, db.orders[k], db.orders[k].(status := Success));
    }
    hide QuotaOf, Worth, IsWholePart;
  }

  /** What a notification does when nobody interferes and the database works. */
  function Notified(db: Db, k: TradeNo, payType: string): Db {
    var (d1, w1) := WorkStep(db, Fresh(Epay(payType)), k, true);
    var (d2, w2) := WorkStep(d1, w1, k, true);
    var (d3, w3) := WorkStep(d2, w2, k, true);
    WorkStep(d3, w3, k, true).0
  }

  /** It pays exactly the pending orders of its own provider that are not worth less than
      nothing; those it marks without paying. */
  lemma NotifiedPaysIff(db: Db, k: TradeNo, payType: string)
    ensures var db' := Notified(db, k, payType);
      if k in db.orders && db.orders[k].provider == ProviderEpay && db.orders[k].status == Pending then
        && db'.orders == db.orders[k := db.orders[k].(payMethod := payType, status := Success)]
        && if Worth(db.orders[k], db.quotaPerUnit) > -1.0 then
             && |db'.credits| == |db.credits| + 1 && db'.credits[..|db.credits|] == db.credits && db'.lost == db.lost
             && var c := db'.credits[|db.credits|];
                c.trade == k && c.user == db.orders[k].userId &&
                IsWholePart(c.quota, db.orders[k].amount as real * db.quotaPerUnit)
           else db'.credits == db.credits && db'.lost == db.lost + {k}
      else db' == db
  {
    if k in db.orders {
      var row := db.orders[k];
      QuotaIsWorth(db.quotaPerUnit, row);
      SameQuota(db.quotaPerUnit, row, Paid(row, payType));
      assert row.provider == ProviderEpay ==> Worth(row, db.quotaPerUnit) == row.amount as real * db.quotaPerUnit;
    }
    hide QuotaOf, Worth, IsWholePart;
  }

  /** Every user's balance is what it was plus one payment for each distinct order
      of theirs that was pending at the start and is successful now. The payment is the
      amount of the order, for Stripe its money, in quota and without the fraction. */
  lemma CreditedAtMostOnce(s: System, moves: seq<Move>)
    requires Start(s) && Feasible(s, moves)
    ensures Play(s, moves).db.balance.Keys == s.db.balance.Keys
    ensures var d0, db := s.db, Play(s, moves).db;
      (forall u :: u in db.balance ==> db.balance[u] == d0.balance[u] + PaidTo(db.credits, u)) &&
      (forall i, j :: 0 <= i < j < |db.credits| ==> db.credits[i].trade != db.credits[j].trade) &&
      (forall i :: 0 <= i < |db.credits| ==> CreditOk(d0, db, db.credits[i])) &&
      (forall i :: 0 <= i < |db.credits| ==>
         var c := db.credits[i];
         var row := d0.orders[c.trade];
         c.quota >= 0 && if row.provider == ProviderStripe then IsWholePart(c.quota, row.money * d0.quotaPerUnit)
                         else IsWholePart(c.quota, row.amount as real * d0.quotaPerUnit))
  {
    StartOk(s);
    PlayKeeps(s.db, s, moves);
    var d0, db := s.db, Play(s, moves).db;
    hide QuotaOf, IsWholePart, Play;
    forall i | 0 <= i < |db.credits|
      ensures var row := d0.orders[db.credits[i].trade]; IsWholePart(db.credits[i].quota, Worth(row, d0.quotaPerUnit))
    {
      assert CreditOk(d0, db, db.credits[i]);
      QuotaIsWorth(d0.quotaPerUnit, d0.orders[db.credits[i].trade]);
    }
  }

  /** Success is final: no later move takes an order out of it. */
  lemma SuccessIsFinal(s: System, moves: seq<Move>, more: seq<Move>, k: TradeNo)
    requires Start(s) && Feasible(s, moves) && Feasible(Play(s, moves), more)
    requires k in Play(s, moves).db.orders && Play(s, moves).db.orders[k].status == Success
    ensures var db := Play(Play(s, moves), more).db; k in db.orders && db.orders[k].status == Success
  {
    StartOk(s);
    PlayKeeps(s.db, s, moves);
    SuccessKept(s.db, Play(s, moves), more, k);
  }

  lemma WorkKeepsSuccess(d0: Db, db: Db, w: Work, own: TradeNo, ok: bool, k: TradeNo)
    requires WorkOk(d0, db, w, own) && k in db.orders && db.orders[k].status == Success
    ensures var db' := WorkStep(db, w, own, ok).0; k in db'.orders && db'.orders[k].status == Success
  {}

  lemma MoveKeepsSuccess(d0: Db, s: System, mv: Move, k: TradeNo)
    requires SystemOk(d0, s) && CanMove(s, mv) && k in s.db.orders && s.db.orders[k].status == Success
    ensures var db := Apply(s, mv).db; k in db.orders && db.orders[k].status == Success
  {
    if mv.WorkMove? {
      var own, w := s.locks.pcs[mv.g].key, s.work[mv.g];
      assert WorkOk(d0, s.db, w, own);
      WorkKeepsSuccess(d0, s.db, w, own, mv.ok, k);
    }
  }

  lemma {:induction false} SuccessKept(d0: Db, s: System, moves: seq<Move>, k: TradeNo)
    requires SystemOk(d0, s) && Feasible(s, moves) && k in s.db.orders && s.db.orders[k].status == Success
    ensures var db := Play(s, moves).db; k in db.orders && db.orders[k].status == Success
    decreases |moves|
  {
    if moves != [] {
      MoveKeeps(d0, s, moves[0]);
      MoveKeepsSuccess(d0, s, moves[0], k);
      SuccessKept(d0, Apply(s, moves[0]), moves[1..], k);
    }
  }

  /** With no callback between saving and crediting order `k`, a pending order has
      succeeded exactly when it was credited or its credit failed; never both. */
  lemma SucceededIffCreditedOrLost(s: System, moves: seq<Move>, k: TradeNo)
    requires Start(s) && Feasible(s, moves) && !Crediting(Play(s, moves), k)
    requires k in s.db.orders && s.db.orders[k].status == Pending
    ensures var db := Play(s, moves).db;
      k in db.orders &&
      (db.orders[k].status == Success <==> CreditedTrade(db, k) || k in db.lost) &&
      !(CreditedTrade(db, k) && k in db.lost)
  {
    StartOk(s);
    PlayKeeps(s.db, s, moves);
    var db := Play(s, moves).db;
    assert Settled(s.db, Play(s, moves), k);
    if CreditedTrade(db, k) {
      var i :| 0 <= i < |db.credits| && db.credits[i].trade == k;
      assert CreditOk(s.db, db, db.credits[i]);
    }
  }

  lemma BothSave(db: Db, k: TradeNo, row: TopUp)
    ensures var d1 := db.(orders := db.orders[k := row]);
      WorkStep(db, Checked(row), k, true) == (d1, Saved(row)) &&
      WorkStep(d1, Checked(row), k, true) == (d1, Saved(row))
  {
    assert db.orders[k := row][k := row] == db.orders[k := row];
  }

  /** Without the lock, two notifications that have both checked the order before
      either saves it are both paid. */
  lemma LockIsNeeded(db: Db, k: TradeNo, payType: string)
    requires k in db.orders && db.orders[k].provider == ProviderEpay && db.orders[k].status == Pending
    requires QuotaOf(db.quotaPerUnit, db.orders[k]) >= 0
    ensures var checked := Checked(Paid(db.orders[k], payType));
      WorkStep(db, WorkStep(db, Fresh(Epay(payType)), k, true).1, k, true) == (db, checked) &&
      var (d1, a) := WorkStep(db, checked, k, true);
      var (d2, b) := WorkStep(d1, checked, k, true);
      var c := Credit(k, db.orders[k].userId, QuotaOf(db.quotaPerUnit, db.orders[k]));
      WorkStep(WorkStep(d2, a, k, true).0, b, k, true).0.credits == db.credits + [c, c]
  {
    var row := Paid(db.orders[k], payType);
    BothSave(db, k, row);
    var d1 := db.(orders := db.orders[k := row]);
    assert QuotaOf(d1.quotaPerUnit, row) == QuotaOf(db.quotaPerUnit, db.orders[k]);
    var d3 := WorkStep(d1, Saved(row), k, true).0;
    assert d3 == Pay(d1, k, row);
    assert WorkStep(d3, Saved(row), k, true).0 == Pay(d3, k, row);
    var c := Credit(k, row.userId, QuotaOf(db.quotaPerUnit, row));
    assert db.credits + [c] + [c] == db.credits + [c, c];
  }
}
