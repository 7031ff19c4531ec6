/** Polling one video task: the status switch, the re-billing of a success by tokens and
    the refund of a failure. Loading the row and reporting on the copy are separate moves,
    so a report can work on a copy that is out of date; the update is unconditional. */
module VideoBilling {
  import opened Numbers
  import opened Options

  datatype Status = NotStart | Submitted | Queued | InProgress | Failure | Success | Unknown | NoStatus

  /** A `tasks` row; times are Unix seconds, 0 when unset. */
  datatype Task = Task(status: Status, progress: string, startTime: int, finishTime: int,
                       failReason: string, quota: int)

  /** What the price tables say about the model and the group, where they say anything. */
  datatype Pricing = Pricing(modelRatio: Option<real>, groupRatio: Option<real>)

  /** The upstream's answer. */
  datatype Answer = Answer(status: Status, progress: string, url: string, reason: string,
                           totalTokens: int, pricing: Pricing)

  /** The database calls of one poll that fail. */
  datatype Faults = Faults(decrease: bool, increase: bool, update: bool, refund: bool)

  const NO_FAULTS := Faults(false, false, false, false)

  datatype Account = Account(balance: int, row: Task)

  /** What the success should have cost, when it is billed by tokens. */
  function ActualQuota(a: Answer): Option<int> {
    if a.totalTokens > 0 && a.pricing.modelRatio.Some? && a.pricing.modelRatio.value > 0.0 &&
       a.pricing.groupRatio.Some?
    then Some(Truncate(a.totalTokens as real * a.pricing.modelRatio.value * a.pricing.groupRatio.value))
    else None
  }

  predicate IsData(url: string) {
    |url| > 5 && url[..5] == "data:"
  }

  /** An answer without a status counts as a failure. */
  function Read(a: Answer): Answer {
    if a.status == NoStatus then
      Answer(Failure, "", "", "upstream returned empty status", 0, Pricing(None, None))
    else a
  }

  /** The status switch; `None` for a status it does not know. */
  function Advance(t: Task, a: Answer, now: int): Option<Task> {
    var next :=
      match a.status
      case Submitted => Some(t.(status := Submitted, progress := "10%"))
      case Queued => Some(t.(status := Queued, progress := "20%"))
      case InProgress =>
        Some(t.(status := InProgress, progress := "30%", startTime := if t.startTime == 0 then now else t.startTime))
      case Success =>
        Some(t.(status := Success, progress := "100%",
                finishTime := if t.finishTime == 0 then now else t.finishTime,
                failReason := if IsData(a.url) then t.failReason else a.url))
      case Failure =>
        Some(t.(status := Failure, progress := "100%",
                finishTime := if t.finishTime == 0 then now else t.finishTime, failReason := a.reason))
      case _ => None;
    if next.Some? && a.status != Failure && a.progress != "" then Some(next.value.(progress := a.progress)) else next
  }

  /** The quota a re-billing moves from the balance to the record. */
  function Moved(t: Task, a: Answer, f: Faults): int {
    if a.status != Success || ActualQuota(a).None? then 0
    else
      var delta := ActualQuota(a).value - t.quota;
      if (delta > 0 && f.decrease) || (delta < 0 && f.increase) then 0 else delta
  }

  /** A failure refunds the quota unless the copy says it failed before. */
  function Refund(t: Task, a: Answer, f: Faults): nat {
    if a.status == Failure && t.status != Failure && t.quota > 0 && !f.update && !f.refund then t.quota else 0
  }

  /** One poll with the copy `t`. */
  function Polled(w: Account, t: Task, answer: Answer, now: int, f: Faults): Account {
    var a := Read(answer);
    var next := Advance(t, a, now);
    if next.None? then w
    else Account(w.balance - Moved(t, a, f) + Refund(t, a, f),
                 if f.update then w.row else next.value.(quota := t.quota + Moved(t, a, f)))
  }

  class VideoTasks {
    var balance: int
    var row: Task

    constructor (balance: int, row: Task)
      ensures View() == Account(balance, row)
    {
      this.balance := balance;
      this.row := row;
    }

    function View(): Account
      reads this
    {
      Account(balance, row)
    }

    /** `IncreaseUserQuota` and `DecreaseUserQuota` refuse negative amounts. */
    method IncreaseUserQuota(amount: int, fails: bool) returns (ok: bool)
      modifies this
      ensures ok == (amount >= 0 && !fails) && row == old(row)
      ensures balance == if ok then old(balance) + amount else old(balance)
    {
      ok := amount >= 0 && !fails;
      if ok {
        balance := balance + amount;
      }
    }

    method DecreaseUserQuota(amount: int, fails: bool) returns (ok: bool)
      modifies this
      ensures ok == (amount >= 0 && !fails) && row == old(row)
      ensures balance == if ok then old(balance) - amount else old(balance)
    {
      ok := amount >= 0 && !fails;
      if ok {
        balance := balance - amount;
      }
    }

    /** Charges or returns the difference and records what is now paid. */
    method Rebill(task: Task, a: Answer, f: Faults) returns (quota: int)
      requires a.status == Success
      modifies this
      ensures quota == task.quota + Moved(task, a, f)
      ensures balance == old(balance) - Moved(task, a, f) && row == old(row)
    {
      quota := task.quota;
      var actual := ActualQuota(a);
      if actual.None? {
        return;
      }
      var delta := actual.value - task.quota;
      if delta > 0 {
        var ok := DecreaseUserQuota(delta, f.decrease);
        if ok {
          quota := actual.value;
        }
      } else if delta < 0 {
        var ok := IncreaseUserQuota(-delta, f.increase);
        if ok {
          quota := actual.value;
        }
      }
    }

    /** `updateVideoSingleTask` once the answer is there. */
    method UpdateSingleTask(snapshot: Task, answer: Answer, now: int, f: Faults) returns (ok: bool)
      modifies this
      ensures ok == Advance(snapshot, Read(answer), now).Some?
      ensures View() == Polled(old(View()), snapshot, answer, now, f)
    {
      var a := Read(answer);
      var shouldRefund := false;
      var quota, preStatus := snapshot.quota, snapshot.status;
      var task := snapshot;
      match a.status {
        case Submitted => task := task.(status := Submitted, progress := "10%");
        case Queued => task := task.(status := Queued, progress := "20%");
        case InProgress =>
          task := task.(status := InProgress, progress := "30%");
          if task.startTime == 0 {
            task := task.(startTime := now);
          }
        case Success =>
          task := task.(status := Success, progress := "100%");
          if task.finishTime == 0 {
            task := task.(finishTime := now);
          }
          if !IsData(a.url) {
            task := task.(failReason := a.url);
          }
          var paid := Rebill(task, a, f);
          task := task.(quota := paid);
        case Failure =>
          task := task.(status := Failure, progress := "100%");
          if task.finishTime == 0 {
            task := task.(finishTime := now);
          }
          task := task.(failReason := a.reason);
          shouldRefund := quota != 0 && preStatus != Failure;
        case _ => return false;
      }
      if a.status != Failure && a.progress != "" {
        task := task.(progress := a.progress);
      }
      if f.update {
        shouldRefund := false;
      } else {
        row := task;
      }
      if shouldRefund {
        var _ := IncreaseUserQuota(quota, f.refund);
      }
      return true;
    }
  }

  // ----- one poll -----

  /** A success is billed by tokens if there are any and the model and the group have
      ratios, the model's a positive one; the price is their product without the fraction. */
  lemma PriceIff(a: Answer)
    ensures ActualQuota(a).Some? <==>
      a.totalTokens > 0 && a.pricing.groupRatio.Some? && a.pricing.modelRatio.Some? && a.pricing.modelRatio.value > 0.0
    ensures ActualQuota(a).Some? ==>
      IsWholePart(ActualQuota(a).value,
                  a.totalTokens as real * a.pricing.modelRatio.value * a.pricing.groupRatio.value)
  {
    if ActualQuota(a).Some? {
      var tokens, model, group := a.totalTokens as real, a.pricing.modelRatio.value, a.pricing.groupRatio.value;
      var price := tokens * model * group;
      assert ActualQuota(a).value == Truncate(price);
      TruncateIsWholePart(price);
    }
  }

  /** What the task has been paid after a success: its price, if it has one and the
      difference could be charged or returned. */
  function PaidAfter(quota: int, a: Answer, f: Faults): int {
    match ActualQuota(a)
    case Some(price) => if (if price > quota then f.decrease else f.increase) then quota else price
    case None => quota
  }

  /** What a poll leaves, whatever fails: the reported status, an answer without one
      counting as a failure; a success at its price, when it has one, and a failure with
      its quota back unless it had failed before. Without the update the row stays. */
  lemma PollIs(w: Account, answer: Answer, now: int, f: Faults)
    ensures var v := Polled(w, w.row, answer, now, f);
      if f.update || answer.status in {NotStart, Unknown} then v.row == w.row
      else
        v.row.status == (if answer.status == NoStatus then Failure else answer.status) &&
        v.row.quota == (if answer.status == Success then PaidAfter(w.row.quota, answer, f) else w.row.quota) &&
        v.row.progress == match answer.status
          case NoStatus => "100%"
          case Failure => "100%"
          case live =>
            if answer.progress != "" then answer.progress
            else if live == Submitted then "10%" else if live == Queued then "20%"
            else if live == InProgress then "30%" else "100%"
    ensures Polled(w, w.row, answer, now, f).balance == match answer.status
      case Success => w.balance + w.row.quota - PaidAfter(w.row.quota, answer, f)
      case live =>
        var failed := live == Failure || live == NoStatus;
        if failed && w.row.status != Failure && w.row.quota > 0 && !f.update && !f.refund
        then w.balance + w.row.quota else w.balance
  {
  }

  /** The first report of a start or an end is the one whose time is kept. The fail reason
      holds the address of a video that is not inlined, or the reason of a failure. */
  lemma PollTimes(w: Account, answer: Answer, now: int)
    ensures var v := Polled(w, w.row, answer, now, NO_FAULTS).row;
      v.startTime == (if answer.status == InProgress && w.row.startTime == 0 then now else w.row.startTime) &&
      v.finishTime ==
        (if answer.status in {Success, Failure, NoStatus} && w.row.finishTime == 0 then now else w.row.finishTime) &&
      v.failReason == match answer.status
        case NoStatus => "upstream returned empty status"
        case Failure => answer.reason
        case Success => if |answer.url| > 5 && "data:" <= answer.url then w.row.failReason else answer.url
        case _ => w.row.failReason
  {
  }

  // ----- conservation -----

  /** A success re-billing keeps the balance plus the recorded quota exactly when the
      record is saved or nothing was moved. */
  lemma RebillConservesIff(w: Account, a: Answer, now: int, f: Faults)
    requires a.status == Success
    ensures var v := Polled(w, w.row, a, now, f);
      v.balance + v.row.quota == w.balance + w.row.quota <==> !f.update || Moved(w.row, a, f) == 0
  {
  }

  /** Polling the same success again changes nothing at all, whatever fails then. */
  lemma SuccessIsStable(w: Account, a: Answer, now: int, later: int, f: Faults)
    requires a.status == Success && now != 0
    ensures var v := Polled(w, w.row, a, now, NO_FAULTS);
      Polled(v, v.row, a, later, f) == v
  {
  }

  /** What the user has paid for a task: nothing once it has failed. */
  function Paid(t: Task): int {
    if t.status == Failure then 0 else t.quota
  }

  /** When a poll of the current row keeps the balance plus what is paid. */
  predicate Sound(row: Task, answer: Answer, now: int, f: Faults) {
    var a := Read(answer);
    if Advance(row, a, now).None? then true
    else if a.status == Failure then
      row.status == Failure || f.update || row.quota == 0 || (row.quota > 0 && !f.refund)
    else if row.status == Failure then (if f.update then Moved(row, a, f) == 0 else row.quota == 0)
    else !f.update || Moved(row, a, f) == 0
  }

  lemma PollConservesIff(w: Account, a: Answer, now: int, f: Faults)
    ensures var v := Polled(w, w.row, a, now, f);
      v.balance + Paid(v.row) == w.balance + Paid(w.row) <==> Sound(w.row, a, now, f)
  {
  }

  // ----- runs -----

  /** The account, the copies that pollers have loaded, and the refunds paid so far. */
  datatype System = System(account: Account, copies: map<nat, Task>, refunds: nat)

  datatype Move = Load(p: nat) | Report(p: nat, answer: Answer, now: int, faults: Faults)

  /** A report uses up its copy; without one it is an error that changes nothing. */
  function Apply(s: System, mv: Move): System {
    match mv
    case Load(p) => s.(copies := s.copies[p := s.account.row])
    case Report(p, answer, now, f) =>
      if p !in s.copies then s
      else System(Polled(s.account, s.copies[p], answer, now, f), s.copies - {p},
                  s.refunds + if Refund(s.copies[p], Read(answer), f) > 0 then 1 else 0)
  }

  function After(s: System, moves: seq<Move>, n: nat): System
    requires n <= |moves|
  {
    if n == 0 then s else Apply(After(s, moves, n - 1), moves[n - 1])
  }

  function RowAt(s: System, moves: seq<Move>, n: nat): Task
    requires n <= |moves|
  {
    After(s, moves, n).account.row
  }

  predicate Start(s: System) {
    s.copies == map[] && s.refunds == 0
  }

  /** Every report works on the row as it is. */
  predicate Current(s: System, moves: seq<Move>) {
    forall i :: 0 <= i < |moves| && moves[i].Report? && moves[i].p in After(s, moves, i).copies ==>
      After(s, moves, i).copies[moves[i].p] == RowAt(s, moves, i)
  }

  /** Move `k` makes a failed task live again. */
  predicate Revives(s: System, moves: seq<Move>, k: nat)
    requires k < |moves|
  {
    RowAt(s, moves, k).status == Failure && RowAt(s, moves, k + 1).status != Failure
  }

  predicate FailureIsFinal(s: System, moves: seq<Move>) {
    forall k :: 0 <= k < |moves| ==> !Revives(s, moves, k)
  }

  lemma At(s: System, moves: seq<Move>, i: nat)
    requires i < |moves| && Current(s, moves) && FailureIsFinal(s, moves)
    ensures var t, mv := After(s, moves, i), moves[i];
      (mv.Report? && mv.p in t.copies ==> t.copies[mv.p] == t.account.row) &&
      (t.account.row.status == Failure ==> After(s, moves, i + 1).account.row.status == Failure)
  {
    hide Apply;
    assert !Revives(s, moves, i);
    assert RowAt(s, moves, i) == After(s, moves, i).account.row;
  }

  // ----- conservation over runs -----

  /** The record and the refund are written, and no success costs less than nothing. */
  predicate Recorded(mv: Move) {
    mv.Report? ==>
      && !mv.faults.update && !mv.faults.refund
      && (ActualQuota(mv.answer).None? || ActualQuota(mv.answer).value >= 0)
  }

  lemma RecordedPollIsSound(w: Account, answer: Answer, now: int, f: Faults)
    requires w.row.quota >= 0 && Recorded(Report(0, answer, now, f))
    requires w.row.status == Failure ==> Polled(w, w.row, answer, now, f).row.status == Failure
    ensures Sound(w.row, answer, now, f) && Polled(w, w.row, answer, now, f).row.quota >= 0
  {
  }

  lemma MoveConserves(s: System, mv: Move)
    requires s.account.row.quota >= 0 && Recorded(mv)
    requires mv.Report? && mv.p in s.copies ==> s.copies[mv.p] == s.account.row
    requires s.account.row.status == Failure ==> Apply(s, mv).account.row.status == Failure
    ensures var v := Apply(s, mv).account;
      v.row.quota >= 0 && v.balance + Paid(v.row) == s.account.balance + Paid(s.account.row)
  {
    if mv.Report? && mv.p in s.copies {
      RecordedPollIsSound(s.account, mv.answer, mv.now, mv.faults);
      PollConservesIff(s.account, mv.answer, mv.now, mv.faults);
      hide Polled, Sound;
    }
  }

  /** Over a whole run the balance and the recorded payment exchange money with nobody
      else: a task that ends failed has cost nothing, one that ends in success its recorded
      quota, also when charges and returns of a re-billing fail on the way. */
  lemma {:induction false} RunConserves(s: System, moves: seq<Move>, n: nat)
    requires n <= |moves| && Current(s, moves) && FailureIsFinal(s, moves) && s.account.row.quota >= 0
    requires forall i :: 0 <= i < |moves| ==> Recorded(moves[i])
    ensures var v := After(s, moves, n).account;
      v.row.quota >= 0 && v.balance + Paid(v.row) == s.account.balance + Paid(s.account.row)
  {
    hide Apply, Recorded, Current, FailureIsFinal;
    if n > 0 {
      RunConserves(s, moves, n - 1);
      At(s, moves, n - 1);
      MoveConserves(After(s, moves, n - 1), moves[n - 1]);
    }
  }

  // ----- how often a run refunds -----

  lemma MoveRefundsOnce(s: System, mv: Move)
    requires mv.Report? && mv.p in s.copies ==> s.copies[mv.p] == s.account.row
    ensures var t := Apply(s, mv);
      t.refunds == s.refunds ||
      (t.refunds == s.refunds + 1 && s.account.row.status != Failure && t.account.row.status == Failure)
  {
  }

  /** On current copies and with final failures a run refunds at most once, whatever
      fails. */
  lemma {:induction false} RefundedAtMostOnce(s: System, moves: seq<Move>, n: nat)
    requires n <= |moves| && Start(s) && Current(s, moves) && FailureIsFinal(s, moves)
    ensures After(s, moves, n).refunds <= 1
    ensures After(s, moves, n).refunds == 1 ==> RowAt(s, moves, n).status == Failure
  {
    hide Apply, Current, FailureIsFinal;
    if n > 0 {
      RefundedAtMostOnce(s, moves, n - 1);
      At(s, moves, n - 1);
      MoveRefundsOnce(After(s, moves, n - 1), moves[n - 1]);
    }
  }

  /** The polling loop loads unfinished rows only. */
  predicate LoadsUnfinished(s: System, moves: seq<Move>) {
    forall i :: 0 <= i < |moves| && moves[i].Load? ==> RowAt(s, moves, i).status !in {Failure, Success}
  }

  /** Where the copy of `p` before move `n` was loaded. */
  function LastLoad(moves: seq<Move>, p: nat, n: nat): Option<nat>
    requires n <= |moves|
  {
    if n == 0 then None
    else if moves[n - 1].p == p then (if moves[n - 1].Load? then Some(n - 1) else None)
    else LastLoad(moves, p, n - 1)
  }

  lemma {:induction false} CopyIsLoaded(s: System, moves: seq<Move>, p: nat, n: nat)
    requires n <= |moves| && Start(s)
    ensures p in After(s, moves, n).copies <==> LastLoad(moves, p, n).Some?
    ensures LastLoad(moves, p, n).Some? ==>
      var l := LastLoad(moves, p, n).value;
      l < n && moves[l] == Load(p) && After(s, moves, n).copies[p] == RowAt(s, moves, l)
  {
    if n > 0 {
      CopyIsLoaded(s, moves, p, n - 1);
    }
  }

  /** Then nothing is ever revived, so current copies are enough. */
  lemma UnfinishedLoadsKeepFailures(s: System, moves: seq<Move>)
    requires Start(s) && Current(s, moves) && LoadsUnfinished(s, moves)
    ensures FailureIsFinal(s, moves)
  {
    forall k | 0 <= k < |moves| ensures !Revives(s, moves, k) {
      var t, mv := After(s, moves, k), moves[k];
      if mv.Report? && mv.p in t.copies {
        CopyIsLoaded(s, moves, mv.p, k);
        assert t.copies[mv.p] == RowAt(s, moves, k);
      }
    }
  }

  /** Nothing fails, and no re-billing makes the task free. */
  predicate Plain(mv: Move) {
    mv.Report? ==> mv.faults == NO_FAULTS && (ActualQuota(mv.answer).None? || ActualQuota(mv.answer).value > 0)
  }

  /** Move `i` reports a failure on a copy that was loaded while the task was live. */
  predicate Enters(s: System, moves: seq<Move>, i: nat)
    requires i < |moves|
  {
    var t, mv := After(s, moves, i), moves[i];
    mv.Report? && mv.p in t.copies && t.copies[mv.p].status != Failure && Read(mv.answer).status == Failure
  }

  function Entries(s: System, moves: seq<Move>, n: nat): nat
    requires n <= |moves|
  {
    if n == 0 then 0 else Entries(s, moves, n - 1) + if Enters(s, moves, n - 1) then 1 else 0
  }

  predicate Priced(s: System) {
    s.account.row.quota > 0 && forall p :: p in s.copies ==> s.copies[p].quota > 0
  }

  lemma PlainMove(s: System, mv: Move)
    requires Priced(s) && Plain(mv)
    ensures Priced(Apply(s, mv))
    ensures Apply(s, mv).refunds == s.refunds +
      if mv.Report? && mv.p in s.copies && s.copies[mv.p].status != Failure && Read(mv.answer).status == Failure
      then 1 else 0
  {
  }

  lemma {:induction false} RefundsAreEntries(s: System, moves: seq<Move>, n: nat)
    requires n <= |moves| && Start(s) && s.account.row.quota > 0 && forall i :: 0 <= i < |moves| ==> Plain(moves[i])
    ensures Priced(After(s, moves, n)) && After(s, moves, n).refunds == Entries(s, moves, n)
  {
    if n > 0 {
      RefundsAreEntries(s, moves, n - 1);
      assert Plain(moves[n - 1]);
      PlainMove(After(s, moves, n - 1), moves[n - 1]);
    }
  }

  ghost predicate NoneEnters(s: System, moves: seq<Move>, n: nat)
    requires n <= |moves|
  {
    forall i :: 0 <= i < n ==> !Enters(s, moves, i)
  }

  ghost predicate NoTwoEnter(s: System, moves: seq<Move>, n: nat)
    requires n <= |moves|
  {
    forall i, j :: 0 <= i < j < n ==> !(Enters(s, moves, i) && Enters(s, moves, j))
  }

  lemma {:induction false} NoEntries(s: System, moves: seq<Move>, n: nat)
    requires n <= |moves|
    ensures Entries(s, moves, n) == 0 <==> NoneEnters(s, moves, n)
  {
    hide Enters;
    if n > 0 {
      NoEntries(s, moves, n - 1);
    }
  }

  lemma {:induction false} FewEntries(s: System, moves: seq<Move>, n: nat)
    requires n <= |moves|
    ensures Entries(s, moves, n) <= 1 <==> NoTwoEnter(s, moves, n)
  {
    hide Enters;
    if n > 0 {
      FewEntries(s, moves, n - 1);
      NoEntries(s, moves, n - 1);
    }
  }

  /** A run refunds at most once exactly when no two reports of a failure work on copies
      that were loaded while the task was live. */
  lemma AtMostOnceIffNoTwoEnter(s: System, moves: seq<Move>)
    requires Start(s) && s.account.row.quota > 0 && forall i :: 0 <= i < |moves| ==> Plain(moves[i])
    ensures After(s, moves, |moves|).refunds <= 1 <==> NoTwoEnter(s, moves, |moves|)
  {
    RefundsAreEntries(s, moves, |moves|);
    FewEntries(s, moves, |moves|);
  }

  lemma {:induction false} SomethingRevives(s: System, moves: seq<Move>, a: nat, b: nat)
    requires a <= b <= |moves| && RowAt(s, moves, a).status == Failure && RowAt(s, moves, b).status != Failure
    ensures exists k :: a <= k < b && Revives(s, moves, k)
    decreases b
  {
    if RowAt(s, moves, b - 1).status == Failure {
      assert Revives(s, moves, b - 1);
    } else {
      SomethingRevives(s, moves, a, b - 1);
    }
  }

  /** And how two of them come about: the second copy was loaded before the first failure
      was reported, or the task was revived in between. */
  lemma TwoEntriesAreStaleOrRevived(s: System, moves: seq<Move>, i: nat, j: nat)
    requires Start(s) && i < j < |moves| && Enters(s, moves, i) && Enters(s, moves, j) && Plain(moves[i])
    ensures var l := LastLoad(moves, moves[j].p, j);
      l.Some? && l.value < j && (l.value < i || exists k :: i < k < l.value && Revives(s, moves, k))
  {
    CopyIsLoaded(s, moves, moves[j].p, j);
    var l := LastLoad(moves, moves[j].p, j).value;
    assert RowAt(s, moves, i + 1).status == Failure;
    if l > i {
      SomethingRevives(s, moves, i + 1, l);
    }
  }

  // ----- which schedules refund at most once -----

  function Fails(p: nat): Move {
    Report(p, Answer(Failure, "", "", "", 0, Pricing(None, None)), 1, NO_FAULTS)
  }

  function Lives(p: nat): Move {
    Report(p, Answer(InProgress, "", "", "", 0, Pricing(None, None)), 1, NO_FAULTS)
  }

  /** Who loads and who reports, without what is reported. */
  datatype Slot = LoadSlot(p: nat) | ReportSlot(p: nat)

  predicate Fills(moves: seq<Move>, schedule: seq<Slot>) {
    |moves| == |schedule| &&
    forall i :: 0 <= i < |moves| ==>
      moves[i].p == schedule[i].p && (moves[i].Load? <==> schedule[i].LoadSlot?) && Plain(moves[i])
  }

  /** Where the copy of `p` before slot `n` is loaded. */
  function LoadOf(schedule: seq<Slot>, p: nat, n: nat): Option<nat>
    requires n <= |schedule|
  {
    if n == 0 then None
    else if schedule[n - 1].p == p then (if schedule[n - 1].LoadSlot? then Some(n - 1) else None)
    else LoadOf(schedule, p, n - 1)
  }

  lemma {:induction false} LoadsAreScheduled(moves: seq<Move>, schedule: seq<Slot>, p: nat, n: nat)
    requires n <= |schedule| && Fills(moves, schedule)
    ensures LastLoad(moves, p, n) == LoadOf(schedule, p, n)
  {
    if n > 0 {
      LoadsAreScheduled(moves, schedule, p, n - 1);
    }
  }

  /** Slot `i` reports on a copy. */
  predicate Effective(schedule: seq<Slot>, i: nat)
    requires i < |schedule|
  {
    schedule[i].ReportSlot? && LoadOf(schedule, schedule[i].p, i).Some?
  }

  /** The copy of the later report was loaded before the earlier one, or another report
      comes after the earlier one and before that load. */
  ghost predicate Clash(schedule: seq<Slot>, i: nat, j: nat)
    requires i < j < |schedule|
  {
    Effective(schedule, i) && Effective(schedule, j) &&
    var l := LoadOf(schedule, schedule[j].p, j).value;
    l < i || exists k :: i < k < l && k < j && Effective(schedule, k)
  }

  lemma {:induction false} LoadIsBefore(schedule: seq<Slot>, p: nat, n: nat)
    requires n <= |schedule|
    ensures LoadOf(schedule, p, n).Some? ==>
      LoadOf(schedule, p, n).value < n && schedule[LoadOf(schedule, p, n).value] == LoadSlot(p)
  {
    if n > 0 {
      LoadIsBefore(schedule, p, n - 1);
    }
  }

  lemma EffectiveIff(s: System, moves: seq<Move>, schedule: seq<Slot>, i: nat)
    requires Start(s) && Fills(moves, schedule) && i < |moves|
    ensures Effective(schedule, i) <==> moves[i].Report? && moves[i].p in After(s, moves, i).copies
  {
    CopyIsLoaded(s, moves, moves[i].p, i);
    LoadsAreScheduled(moves, schedule, moves[i].p, i);
  }

  /** Two refunding reports clash. */
  lemma TwoEntriesClash(s: System, moves: seq<Move>, schedule: seq<Slot>, i: nat, j: nat)
    requires Start(s) && Fills(moves, schedule) && i < j < |moves|
    requires Enters(s, moves, i) && Enters(s, moves, j)
    ensures Clash(schedule, i, j)
  {
    EffectiveIff(s, moves, schedule, i);
    EffectiveIff(s, moves, schedule, j);
    TwoEntriesAreStaleOrRevived(s, moves, i, j);
    LoadsAreScheduled(moves, schedule, moves[j].p, j);
    LoadIsBefore(schedule, moves[j].p, j);
    var l := LastLoad(moves, moves[j].p, j).value;
    if l > i {
      var k :| i < k < l && Revives(s, moves, k);
      EffectiveIff(s, moves, schedule, k);
    }
  }

  /** Everybody reports the task live, except for two failures. */
  function TwoFailures(schedule: seq<Slot>, i: nat, j: nat): seq<Move> {
    seq(|schedule|, n requires 0 <= n < |schedule| =>
      if schedule[n].LoadSlot? then Load(schedule[n].p)
      else if n == i || n == j then Fails(schedule[n].p) else Lives(schedule[n].p))
  }

  lemma {:induction false} StaysLive(s: System, moves: seq<Move>, a: nat, b: nat)
    requires a <= b <= |moves| && RowAt(s, moves, a).status != Failure
    requires forall n :: a <= n < b ==> moves[n].Load? || moves[n] == Lives(moves[n].p)
    ensures RowAt(s, moves, b).status != Failure
    decreases b
  {
    if a < b {
      StaysLive(s, moves, a, b - 1);
    }
  }

  lemma LivesRevives(s: System, moves: seq<Move>, k: nat)
    requires k < |moves| && moves[k] == Lives(moves[k].p) && moves[k].p in After(s, moves, k).copies
    ensures RowAt(s, moves, k + 1).status != Failure
  {
  }

  /** A clash refunds twice when its two reports are the only failures. */
  lemma ClashRefundsTwice(s: System, schedule: seq<Slot>, i: nat, j: nat)
    requires Start(s) && s.account.row.status != Failure && s.account.row.quota > 0
    requires i < j < |schedule| && Clash(schedule, i, j)
    ensures var moves := TwoFailures(schedule, i, j);
      Fills(moves, schedule) && Enters(s, moves, i) && Enters(s, moves, j)
  {
    var moves := TwoFailures(schedule, i, j);
    assert Fills(moves, schedule);
    LoadIsBefore(schedule, schedule[i].p, i);
    LoadedLive(s, schedule, i, j, i);
    var l := LoadOf(schedule, schedule[j].p, j).value;
    LoadIsBefore(schedule, schedule[j].p, j);
    if l < i {
      LoadedLive(s, schedule, i, j, j);
    } else {
      var k :| i < k < l && k < j && Effective(schedule, k);
      EffectiveIff(s, moves, schedule, k);
      LivesRevives(s, moves, k);
      StaysLive(s, moves, k + 1, l);
      EntersFrom(s, moves, schedule, j, l);
    }
  }

  lemma {:induction false} EntersFrom(s: System, moves: seq<Move>, schedule: seq<Slot>, j: nat, l: nat)
    requires Start(s) && Fills(moves, schedule) && j < |moves| && moves[j] == Fails(moves[j].p)
    requires LoadOf(schedule, schedule[j].p, j) == Some(l) && l < j && RowAt(s, moves, l).status != Failure
    ensures Enters(s, moves, j)
  {
    CopyIsLoaded(s, moves, moves[j].p, j);
    LoadsAreScheduled(moves, schedule, moves[j].p, j);
  }

  /** Up to the first failure everything that is loaded is live. */
  lemma LoadedLive(s: System, schedule: seq<Slot>, i: nat, j: nat, at: nat)
    requires Start(s) && s.account.row.status != Failure && i < j < |schedule| && (at == i || at == j)
    requires Effective(schedule, at) && LoadOf(schedule, schedule[at].p, at).value <= i
    requires Fills(TwoFailures(schedule, i, j), schedule)
    ensures Enters(s, TwoFailures(schedule, i, j), at)
  {
    var moves := TwoFailures(schedule, i, j);
    LoadIsBefore(schedule, schedule[at].p, at);
    var l := LoadOf(schedule, schedule[at].p, at).value;
    StaysLive(s, moves, 0, l);
    EntersFrom(s, moves, schedule, at, l);
  }

  ghost predicate NoClash(schedule: seq<Slot>) {
    forall i, j :: 0 <= i < j < |schedule| ==> !Clash(schedule, i, j)
  }

  /** Exactly which schedules refund a live task at most once, whatever is reported: those
      in which no two reports clash. */
  lemma AtMostOnceIffNoClash(s: System, schedule: seq<Slot>)
    requires Start(s) && s.account.row.status != Failure && s.account.row.quota > 0
    ensures (forall moves :: Fills(moves, schedule) ==> After(s, moves, |moves|).refunds <= 1) <==> NoClash(schedule)
  {
    if NoClash(schedule) {
      forall moves | Fills(moves, schedule) ensures After(s, moves, |moves|).refunds <= 1 {
        AtMostOnceIffNoTwoEnter(s, moves);
        forall i, j | 0 <= i < j < |moves| ensures !(Enters(s, moves, i) && Enters(s, moves, j)) {
          if Enters(s, moves, i) && Enters(s, moves, j) {
            TwoEntriesClash(s, moves, schedule, i, j);
          }
        }
      }
    } else {
      var i, j :| 0 <= i < j < |schedule| && Clash(schedule, i, j);
      var moves := TwoFailures(schedule, i, j);
      ClashRefundsTwice(s, schedule, i, j);
      AtMostOnceIffNoTwoEnter(s, moves);
    }
  }

  // ----- runs that refund twice -----

  /** Two reports on copies of the same row both refund: the update does not look at the
      status. */
  lemma StaleCopyRefundsTwice(s: System)
    requires Start(s) && s.account.row.status != Failure && s.account.row.quota > 0
    ensures var e := After(s, [Load(0), Load(1), Fails(0), Fails(1)], 4);
      e.refunds == 2 && e.account.balance == s.account.balance + 2 * s.account.row.quota
  {
    var moves := [Load(0), Load(1), Fails(0), Fails(1)];
    var s2 := Apply(Apply(s, Load(0)), Load(1));
    assert After(s, moves, 1) == Apply(s, Load(0));
    assert After(s, moves, 2) == s2;
    var s3 := Apply(s2, Fails(0));
    assert After(s, moves, 3) == s3 && s3.refunds == 1 && s3.copies[1] == s.account.row;
    assert After(s, moves, 4) == Apply(s3, Fails(1));
  }

  /** A failed task that is loaded again, reported live and failed again is refunded
      again, although every report is on a copy that was just loaded. */
  lemma RevivedTaskRefundsTwice(s: System)
    requires Start(s) && s.account.row.status != Failure && s.account.row.quota > 0
    ensures After(s, [Load(0), Fails(0), Load(0), Lives(0), Load(0), Fails(0)], 6).refunds == 2
  {
    var moves := [Load(0), Fails(0), Load(0), Lives(0), Load(0), Fails(0)];
    var s2 := Apply(Apply(s, Load(0)), Fails(0));
    var s4 := Apply(Apply(s2, Load(0)), Lives(0));
    assert s2.refunds == 1 && s2.account.row.quota == s.account.row.quota;
    assert s4.refunds == 1 && s4.account.row.status == InProgress && s4.account.row.quota == s.account.row.quota;
    var s6 := Apply(Apply(s4, Load(0)), Fails(0));
    assert s6.refunds == 2;
    hide Apply;
    assert After(s, moves, 1) == Apply(s, Load(0));
    assert After(s, moves, 2) == s2;
    assert After(s, moves, 3) == Apply(s2, Load(0));
    assert After(s, moves, 4) == s4;
    assert After(s, moves, 5) == Apply(s4, Load(0));
  }
}
