/** Polling one Midjourney task from several pollers that hold stale snapshots.
    A poller copies the row, merges an upstream item into its copy, writes the copy
    back with a compare-and-set on the status, and refunds when it won a failure. */
module MidjourneyRefunds {
  import opened Options

  const DONE: string := "100%"
  const FAILURE: string := "FAILURE"
  const HOUR_MS: int := 3600000

  /** "Upstream task timed out (more than 1 hour)", in Chinese. */
  const TIMED_OUT: string :=
    "\U{4E0A}\U{6E38}\U{4EFB}\U{52A1}\U{8D85}\U{65F6}\U{FF08}\U{8D85}\U{8FC7}1\U{5C0F}\U{65F6}\U{FF09}"

  /** The columns of a `midjourneys` row that the poller reads or writes. `videoUrls`,
      `properties` and `buttons` are JSON texts, empty when there are none. */
  datatype Task = Task(code: int, quota: int, submitTime: int, startTime: int, finishTime: int,
                       progress: string, promptEn: string, state: string, imageUrl: string,
                       status: string, failReason: string, videoUrl: string, videoUrls: string,
                       properties: string, buttons: string)

  /** One element of the upstream answer, which may leave out properties and buttons. */
  datatype Item = Item(submitTime: int, startTime: int, finishTime: int,
                       progress: string, promptEn: string, state: string, imageUrl: string,
                       status: string, failReason: string, videoUrl: string, videoUrls: string,
                       properties: Option<string>, buttons: Option<string>)

  /** A task older than an hour that is not done counts as failed. */
  function Timeout(local: Task, item: Item, now: int): Item {
    if now - local.submitTime > HOUR_MS && local.progress != DONE
    then item.(failReason := TIMED_OUT, status := FAILURE)
    else item
  }

  /** `checkMjTaskNeedUpdate`. */
  predicate NeedsUpdate(old_: Task, item: Item) {
    old_.code != 1 || old_.progress != item.progress || old_.promptEn != item.promptEn ||
    old_.state != item.state || old_.submitTime != item.submitTime || old_.startTime != item.startTime ||
    old_.finishTime != item.finishTime || old_.imageUrl != item.imageUrl || old_.status != item.status ||
    old_.failReason != item.failReason || (old_.progress != DONE && item.failReason != "") ||
    old_.videoUrl != item.videoUrl || old_.videoUrls != item.videoUrls
  }

  predicate Failed(item: Item) {
    (item.progress != DONE && item.failReason != "") || (item.progress == DONE && item.status == FAILURE)
  }

  /** The local copy after the field assignments; a failure is forced to 100%. */
  function Merge(local: Task, item: Item): Task {
    Task(1, local.quota, item.submitTime, item.startTime, item.finishTime,
         if Failed(item) then DONE else item.progress, item.promptEn, item.state, item.imageUrl,
         item.status, item.failReason, item.videoUrl, item.videoUrls,
         if item.properties.Some? then item.properties.value else local.properties,
         if item.buttons.Some? then item.buttons.value else local.buttons)
  }

  /** Merging, without the two columns that the check does not look at. */
  function MergeChecked(local: Task, item: Item): Task {
    Merge(local, item).(properties := local.properties, buttons := local.buttons)
  }

  /** What the check asks: whether the merge changes a column other than properties and
      buttons, or the progress is reported differently; for a task that was read as
      unfinished, the former alone. */
  lemma NeedsUpdateIff(local: Task, item: Item)
    ensures NeedsUpdate(local, item) <==> item.progress != local.progress || MergeChecked(local, item) != local
    ensures local.progress != DONE ==> (NeedsUpdate(local, item) <==> MergeChecked(local, item) != local)
  {
    if Failed(item) {
      assert Merge(local, item).progress == DONE;
    }
  }

  /** An item that brings new buttons and nothing else new is skipped. */
  lemma NewButtonsAreSkipped(local: Task, buttons: string)
    requires local.code == 1 && local.failReason == "" && local.progress != DONE && buttons != local.buttons
    ensures var item := Item(local.submitTime, local.startTime, local.finishTime, local.progress, local.promptEn,
                             local.state, local.imageUrl, local.status, "", local.videoUrl, local.videoUrls,
                             None, Some(buttons));
      !NeedsUpdate(local, item) && Merge(local, item) != local
  {
    var item := Item(local.submitTime, local.startTime, local.finishTime, local.progress, local.promptEn,
                     local.state, local.imageUrl, local.status, "", local.videoUrl, local.videoUrls,
                     None, Some(buttons));
    assert Merge(local, item).buttons == buttons;
  }

  /** What a poller is doing with this task. `used` says that the copy has already
      absorbed an item of the current answer. */
  datatype Poller = Away | Holding(local: Task, used: bool) | Owing(local: Task)

  /** The row, the user's balance, the refunds paid, and three notes about how the
      task ended: refund payments that failed, and unconditional bulk failures. */
  datatype System = System(row: Task, balance: int, refunds: nat, unpaid: bool, bulkFailed: bool,
                           pollers: map<nat, Poller>)

  datatype Move =
    | Read(p: nat)                                     // GetAllUnFinishTasks
    | Absorb(p: nat, item: Item, now: int, ok: bool)   // merge and UpdateWithStatus
    | Refund(p: nat, ok: bool)                         // IncreaseUserQuota
    | BulkFail(reason: string)                         // MjBulkUpdate when the channel is gone

  function At(s: System, p: nat): Poller {
    if p in s.pollers then s.pollers[p] else Away
  }

  predicate CanMove(s: System, mv: Move) {
    match mv
    case Read(p) => !At(s, p).Owing? && s.row.progress != DONE
    case Absorb(p, _, _, _) => At(s, p).Holding?
    case Refund(p, _) => At(s, p).Owing?
    case BulkFail(_) => true
  }

  function Absorbed(s: System, p: nat, local: Task, item: Item, ok: bool): System {
    if !NeedsUpdate(local, item) then s.(pollers := s.pollers[p := Holding(local, true)])
    else
      var merged := Merge(local, item);
      if ok && s.row.status == local.status then
        s.(row := merged,
           pollers := s.pollers[p := if Failed(item) && local.quota != 0 then Owing(merged) else Holding(merged, true)])
      else s.(pollers := s.pollers[p := Holding(merged, true)])
  }

  function Apply(s: System, mv: Move): System
    requires CanMove(s, mv)
  {
    match mv
    case Read(p) => s.(pollers := s.pollers[p := Holding(s.row, false)])
    case Absorb(p, item, now, ok) => Absorbed(s, p, At(s, p).local, Timeout(At(s, p).local, item, now), ok)
    case Refund(p, ok) =>
      var local := At(s, p).local;
      var t := s.(pollers := s.pollers[p := Holding(local, true)]);
      if ok && local.quota >= 0 then t.(balance := s.balance + local.quota, refunds := s.refunds + 1)
      else t.(unpaid := true)
    case BulkFail(reason) =>
      s.(row := s.row.(failReason := reason, status := FAILURE, progress := DONE), bulkFailed := true)
  }

  predicate Feasible(s: System, moves: seq<Move>)
    decreases |moves|
  {
    moves == [] || (CanMove(s, moves[0]) && Feasible(Apply(s, moves[0]), moves[1..]))
  }

  function Play(s: System, moves: seq<Move>): System
    requires Feasible(s, moves)
    decreases |moves|
  {
    if moves == [] then s else Play(Apply(s, moves[0]), moves[1..])
  }

  /** An upstream item that counts as failed exactly when it reports FAILURE. */
  predicate Consistent(item: Item) {
    Failed(item) <==> item.status == FAILURE
  }

  /** Upstream sends only items that are `ok`, and no answer that names a row twice. */
  predicate Fed(ok: Item -> bool, s: System, moves: seq<Move>)
    requires Feasible(s, moves)
    decreases |moves|
  {
    moves == [] ||
    ((moves[0].Absorb? ==> ok(moves[0].item) && !At(s, moves[0].p).used) &&
     Fed(ok, Apply(s, moves[0]), moves[1..]))
  }

  predicate Start(s: System) {
    s.pollers == map[] && s.refunds == 0 && !s.unpaid && !s.bulkFailed
  }

  /** A row left at FAILURE below 100%, which a poller would still pick up. */
  predicate HalfFailed(row: Task) {
    row.status == FAILURE && row.progress != DONE && row.quota != 0
  }

  /** What a poller that wins the compare-and-set writes: the item's columns, keeping
      properties and buttons that it leaves out; a task that was not done an hour after it
      was submitted fails, and a failure is shown at 100%. */
  lemma WinnerWrites(s: System, mv: Move)
    requires mv.Absorb? && CanMove(s, mv) && mv.ok && s.row.status == At(s, mv.p).local.status
    requires NeedsUpdate(At(s, mv.p).local, Timeout(At(s, mv.p).local, mv.item, mv.now))
    ensures var local, item, row := At(s, mv.p).local, mv.item, Apply(s, mv).row;
      var late := mv.now - local.submitTime > 60 * 60 * 1000 && local.progress != "100%";
      row.code == 1 && row.quota == local.quota && row.submitTime == item.submitTime &&
      row.startTime == item.startTime && row.finishTime == item.finishTime && row.promptEn == item.promptEn &&
      row.state == item.state && row.imageUrl == item.imageUrl && row.videoUrl == item.videoUrl &&
      row.videoUrls == item.videoUrls &&
      row.properties == (if item.properties.Some? then item.properties.value else local.properties) &&
      row.buttons == (if item.buttons.Some? then item.buttons.value else local.buttons) &&
      row.status == (if late then "FAILURE" else item.status) &&
      row.failReason == (if late then TIMED_OUT else item.failReason) &&
      row.progress == (if late || item.failReason != "" then "100%" else item.progress)
    ensures var item, late := mv.item, mv.now - At(s, mv.p).local.submitTime > 60 * 60 * 1000 &&
                                       At(s, mv.p).local.progress != "100%";
      At(Apply(s, mv), mv.p).Owing? <==>
        At(s, mv.p).local.quota != 0 &&
        (late || if item.progress == "100%" then item.status == "FAILURE" else item.failReason != "")
  {
  }

  /** A refund is paid unless the call fails or the quota is negative. */
  lemma RefundPaysIff(s: System, p: nat, ok: bool)
    requires CanMove(s, Refund(p, ok))
    ensures var t, quota := Apply(s, Refund(p, ok)), At(s, p).local.quota;
      t.row == s.row && t.bulkFailed == s.bulkFailed &&
      if !ok || quota < 0 then t.balance == s.balance && t.refunds == s.refunds && t.unpaid
      else t.balance == s.balance + quota && t.refunds == s.refunds + 1 && t.unpaid == s.unpaid
  {
  }

  /** A bulk failure marks the row whatever its status is, and pays nothing. */
  lemma BulkFailMarks(s: System, reason: string)
    ensures CanMove(s, BulkFail(reason))
    ensures var t := Apply(s, BulkFail(reason));
      t.row == s.row.(status := "FAILURE", progress := "100%", failReason := reason) &&
      t.balance == s.balance && t.refunds == s.refunds && t.pollers == s.pollers && t.bulkFailed
  {
  }

  // ----- the invariant, relative to the start `s0` -----

  ghost predicate Inv(s0: System, s: System) {
    s.row.quota == s0.row.quota && s.balance == s0.balance + (if s.refunds == 0 then 0 else s0.row.quota) &&
    (s.row.quota != 0 ==> s.row.status == FAILURE ==> s.row.progress == DONE) &&
    (forall p :: At(s, p).Holding? || At(s, p).Owing? ==> At(s, p).local.quota == s.row.quota) &&
    (forall p :: At(s, p).Holding? && !At(s, p).used && s.row.quota != 0 ==> At(s, p).local.status != FAILURE) &&
    (s.row.quota == 0 ==> s.refunds == 0 && !s.unpaid && forall p :: !At(s, p).Owing?) &&
    (forall p, q :: At(s, p).Owing? && At(s, q).Owing? ==> p == q) &&
    (s.refunds > 0 || s.unpaid ==> s.row.status == FAILURE && forall p :: !At(s, p).Owing?) &&
    (forall p :: At(s, p).Owing? ==> s.row.status == FAILURE) &&
    s.refunds <= 1
  }

  /** A failed row with a quota is accounted for. */
  ghost predicate Explained(s0: System, s: System) {
    s.row.status == FAILURE && s.row.quota != 0 && s0.row.status != FAILURE ==>
      s.refunds == 1 || s.unpaid || s.bulkFailed || exists p :: At(s, p).Owing?
  }

  lemma ReadKeeps(s0: System, s: System, mv: Move)
    requires Inv(s0, s) && Explained(s0, s) && mv.Read? && CanMove(s, mv)
    ensures Inv(s0, Apply(s, mv)) && Explained(s0, Apply(s, mv))
  {
    var s' := Apply(s, mv);
    forall p ensures At(s', p) == if p == mv.p then Holding(s.row, false) else At(s, p) {}
  }

  /** Winning the compare-and-set from a fresh copy. */
  lemma WinKeeps(s0: System, s: System, p: nat, item: Item)
    requires Inv(s0, s) && Explained(s0, s) && At(s, p).Holding? && !At(s, p).used
    requires Failed(item) <==> item.status == FAILURE
    requires NeedsUpdate(At(s, p).local, item) && s.row.status == At(s, p).local.status
    ensures var s' := Absorbed(s, p, At(s, p).local, item, true); Inv(s0, s') && Explained(s0, s')
  {
    var s' := Absorbed(s, p, At(s, p).local, item, true);
    forall q ensures q != p ==> At(s', q) == At(s, q) {}
    assert s.row.quota != 0 ==> forall q :: !At(s, q).Owing?;
    assert At(s', p).Owing? ==> exists q :: At(s', q).Owing?;
  }

  /** Skipping the item, losing the compare-and-set, or a failing write. */
  lemma LoseKeeps(s0: System, s: System, p: nat, local: Task)
    requires Inv(s0, s) && Explained(s0, s) && At(s, p).Holding? && local.quota == s.row.quota
    ensures var s' := s.(pollers := s.pollers[p := Holding(local, true)]); Inv(s0, s') && Explained(s0, s')
  {
    var s' := s.(pollers := s.pollers[p := Holding(local, true)]);
    forall q ensures q != p ==> At(s', q) == At(s, q) {}
    if q :| At(s, q).Owing? {
      assert At(s', q).Owing?;
    }
  }

  lemma AbsorbKeeps(s0: System, s: System, mv: Move)
    requires Inv(s0, s) && Explained(s0, s) && mv.Absorb? && CanMove(s, mv)
    requires Consistent(mv.item) && !At(s, mv.p).used
    ensures Inv(s0, Apply(s, mv)) && Explained(s0, Apply(s, mv))
  {
    var local := At(s, mv.p).local;
    var item := Timeout(local, mv.item, mv.now);
    if NeedsUpdate(local, item) && mv.ok && s.row.status == local.status {
      WinKeeps(s0, s, mv.p, item);
    } else {
      LoseKeeps(s0, s, mv.p, if NeedsUpdate(local, item) then Merge(local, item) else local);
    }
  }

  lemma RefundKeeps(s0: System, s: System, mv: Move)
    requires Inv(s0, s) && Explained(s0, s) && mv.Refund? && CanMove(s, mv)
    ensures Inv(s0, Apply(s, mv)) && Explained(s0, Apply(s, mv))
  {
    var s' := Apply(s, mv);
    forall p ensures At(s', p) == if p == mv.p then Holding(At(s, p).local, true) else At(s, p) {}
  }

  lemma BulkFailKeeps(s0: System, s: System, mv: Move)
    requires Inv(s0, s) && mv.BulkFail?
    ensures Inv(s0, Apply(s, mv)) && Explained(s0, Apply(s, mv))
  {
    forall p ensures At(Apply(s, mv), p) == At(s, p) {}
  }

  lemma {:induction false} PlayKeeps(ok: Item -> bool, s0: System, s: System, moves: seq<Move>)
    requires forall item :: ok(item) ==> Consistent(item)
    requires Inv(s0, s) && Explained(s0, s) && Feasible(s, moves) && Fed(ok, s, moves)
    ensures Inv(s0, Play(s, moves)) && Explained(s0, Play(s, moves))
    decreases |moves|
  {
    if moves != [] {
      match moves[0] {
        case Read(_) => ReadKeeps(s0, s, moves[0]);
        case Absorb(_, _, _, _) => AbsorbKeeps(s0, s, moves[0]);
        case Refund(_, _) => RefundKeeps(s0, s, moves[0]);
        case BulkFail(_) => BulkFailKeeps(s0, s, moves[0]);
      }
      PlayKeeps(ok, s0, Apply(s, moves[0]), moves[1..]);
    }
  }

  // ----- what the pollers promise in every interleaving -----

  /** The quota comes back at most once, and the balance moves by nothing else. */
  lemma RefundedAtMostOnce(s: System, moves: seq<Move>)
    requires Start(s) && !HalfFailed(s.row) && Feasible(s, moves) && Fed(Consistent, s, moves)
    ensures var e := Play(s, moves);
      e.refunds <= 1 && e.balance == s.balance + (if e.refunds == 1 then s.row.quota else 0)
  {
    PlayKeeps(Consistent, s, s, moves);
  }

  /** A live task that ended in FAILURE was refunded: with every payment made and
      no bulk failure, the refund count is one exactly when the row has failed. */
  lemma FailedIffRefunded(s: System, moves: seq<Move>)
    requires Start(s) && s.row.status != FAILURE && s.row.quota != 0 && Feasible(s, moves) && Fed(Consistent, s, moves)
    requires var e := Play(s, moves); !e.unpaid && !e.bulkFailed && forall p :: !At(e, p).Owing?
    ensures Play(s, moves).refunds == 1 <==> Play(s, moves).row.status == FAILURE
  {
    PlayKeeps(Consistent, s, s, moves);
  }

  function FailureItem(progress: string): Item {
    Item(0, 0, 0, progress, "", "", "", FAILURE, "failed", "", "", None, None)
  }

  lemma Prepend(ok: Item -> bool, s: System, mv: Move, rest: seq<Move>)
    requires CanMove(s, mv) && Feasible(Apply(s, mv), rest)
    ensures Feasible(s, [mv] + rest) && Play(s, [mv] + rest) == Play(Apply(s, mv), rest)
    ensures Fed(ok, Apply(s, mv), rest) && (mv.Absorb? ==> ok(mv.item) && !At(s, mv.p).used) ==>
      Fed(ok, s, [mv] + rest)
  {
    assert ([mv] + rest)[1..] == rest;
  }

  /** Two pollers that read the same row and absorb an item that fails it, by itself or
      for its age, and keeps its status both win the compare-and-set, and both pay. */
  lemma SameStatusRefundsTwice(ok: Item -> bool, s: System, item: Item, now: int) returns (moves: seq<Move>)
    requires !At(s, 0).Owing? && !At(s, 1).Owing? && s.row.progress != DONE && s.row.quota > 0
    requires var late := Timeout(s.row, item, now);
      Failed(late) && late.status == s.row.status && NeedsUpdate(s.row, late)
    ensures Feasible(s, moves) && Play(s, moves).refunds == s.refunds + 2
    ensures forall i :: 0 <= i < |moves| && moves[i].Absorb? ==> moves[i].item == item
    ensures ok(item) ==> Fed(ok, s, moves)
  {
    var merged := Merge(s.row, Timeout(s.row, item, now));
    var a, b := Absorb(0, item, now, true), Absorb(1, item, now, true);
    var s1 := Apply(s, Read(0));
    var s2 := Apply(s1, Read(1));
    assert At(s2, 0) == At(s2, 1) == Holding(s.row, false);
    var s3 := Apply(s2, a);
    assert At(s3, 0) == Owing(merged) && At(s3, 1) == Holding(s.row, false);
    var s4 := Apply(s3, b);
    assert At(s4, 1) == Owing(merged) == At(s4, 0);
    var s5 := Apply(s4, Refund(0, true));
    assert s5.refunds == s.refunds + 1 && At(s5, 1) == At(s4, 1);
    Prepend(ok, s5, Refund(1, true), []);
    moves := [Refund(1, true)] + [];
    Prepend(ok, s4, Refund(0, true), moves);
    moves := [Refund(0, true)] + moves;
    Prepend(ok, s3, b, moves);
    moves := [b] + moves;
    Prepend(ok, s2, a, moves);
    moves := [a] + moves;
    Prepend(ok, s1, Read(1), moves);
    moves := [Read(1)] + moves;
    Prepend(ok, s, Read(0), moves);
    moves := [Read(0)] + moves;
  }

  /** Refunding at most once, over every run of consistent answers, is exactly the
      absence of a half-failed row at the start. */
  lemma AtMostOnceIffNotHalfFailed(s: System)
    requires Start(s) && s.row.quota >= 0
    ensures (forall moves :: Feasible(s, moves) && Fed(Consistent, s, moves) ==> Play(s, moves).refunds <= 1)
            <==> !HalfFailed(s.row)
  {
    if HalfFailed(s.row) {
      var moves := SameStatusRefundsTwice(Consistent, s, FailureItem("0%"), s.row.submitTime);
      assert Feasible(s, moves) && Fed(Consistent, s, moves) && Play(s, moves).refunds == 2;
    } else {
      forall moves | Feasible(s, moves) && Fed(Consistent, s, moves) ensures Play(s, moves).refunds <= 1 {
        RefundedAtMostOnce(s, moves);
      }
    }
  }

  /** An answer that names a live task twice is refunded twice: the second item
      finds the local copy at FAILURE and wins the same compare-and-set again. */
  lemma RepeatedItemRefundsTwice(s: System) returns (moves: seq<Move>)
    requires Start(s) && s.row.progress != DONE && s.row.quota > 0
    ensures Feasible(s, moves) && Play(s, moves).refunds == 2
    ensures forall i :: 0 <= i < |moves| && moves[i].Absorb? ==> Consistent(moves[i].item)
  {
    var item := FailureItem("0%");
    var once := Absorb(0, item, 0, true);
    var s1 := Apply(s, Read(0));
    assert At(s1, 0) == Holding(s.row, false);
    var s2 := Apply(s1, once);
    assert At(s2, 0) == Owing(s2.row) && s2.row.status == FAILURE && s2.row.quota == s.row.quota;
    var s3 := Apply(s2, Refund(0, true));
    assert At(s3, 0) == Holding(s3.row, true) && s3.refunds == 1;
    var s4 := Apply(s3, once);
    assert At(s4, 0).Owing? && At(s4, 0).local.quota == s.row.quota;
    Prepend(Consistent, s4, Refund(0, true), []);
    moves := [Refund(0, true)] + [];
    Prepend(Consistent, s3, once, moves);
    moves := [once] + moves;
    Prepend(Consistent, s2, Refund(0, true), moves);
    moves := [Refund(0, true)] + moves;
    Prepend(Consistent, s1, once, moves);
    moves := [once] + moves;
    Prepend(Consistent, s, Read(0), moves);
    moves := [Read(0)] + moves;
  }

  /** A fail reason that comes with the old status leaves the compare-and-set
      nothing to tell two pollers apart by, so both refund. */
  lemma ReasonWithoutFailureRefundsTwice(s: System) returns (moves: seq<Move>)
    requires Start(s) && s.row.progress != DONE && s.row.status != FAILURE && s.row.quota > 0
    ensures Feasible(s, moves) && Play(s, moves).refunds == 2
    ensures forall i :: 0 <= i < |moves| && moves[i].Absorb? ==> moves[i].item.status == s.row.status
  {
    moves := SameStatusRefundsTwice(Consistent, s, FailureItem("0%").(status := s.row.status), s.row.submitTime);
  }

  /** FAILURE without a reason and below 100% leaves a half-failed row behind, which the
      next failure refunds twice. */
  lemma FailureWithoutReasonRefundsTwice(s: System) returns (moves: seq<Move>)
    requires Start(s) && s.row.progress != DONE && s.row.status != FAILURE && s.row.quota > 0
    ensures Feasible(s, moves) && Play(s, moves).refunds == 2
    ensures forall i :: 0 <= i < |moves| && moves[i].Absorb? ==> moves[i].item.status == FAILURE
  {
    var half := FailureItem("0%").(failReason := "");
    var s1 := Apply(s, Read(0));
    assert At(s1, 0) == Holding(s.row, false);
    var mv := Absorb(0, half, s.row.submitTime, true);
    var s2 := Apply(s1, mv);
    assert s2.row.status == FAILURE && s2.row.progress == "0%" && At(s2, 0).Holding? && At(s2, 1) == Away;
    moves := SameStatusRefundsTwice(Consistent, s2, FailureItem("0%"), s2.row.submitTime);
    Prepend(Consistent, s1, mv, moves);
    moves := [mv] + moves;
    Prepend(Consistent, s, Read(0), moves);
    moves := [Read(0)] + moves;
  }

  // ----- which items the promise needs -----

  function Row(status: string, submitTime: int): Task {
    Task(0, 1, submitTime, 0, 0, "0%", "", "", "", status, "", "", "", "", "")
  }

  function Fresh(row: Task): System {
    System(row, 0, 0, false, false, map[])
  }

  /** Upstreams that send only items accepted by `ok` never cause a second refund. */
  ghost predicate Safe(ok: Item -> bool) {
    forall s, moves ::
      Start(s) && s.row.quota >= 0 && !HalfFailed(s.row) && Feasible(s, moves) && Fed(ok, s, moves) ==>
      Play(s, moves).refunds <= 1
  }

  /** An item that fails without saying FAILURE is refunded twice. */
  lemma FailsWithoutFailure(ok: Item -> bool, item: Item)
    requires ok(item) && Failed(item) && item.status != FAILURE
    ensures !Safe(ok)
  {
    var s := Fresh(Row(item.status, 0));
    var moves := SameStatusRefundsTwice(ok, s, item, 0);
    assert Start(s) && !HalfFailed(s.row);
  }

  /** One that says FAILURE without failing leaves a half-failed row, which it fails for
      its age an hour later, twice. */
  lemma FailureWithoutFailing(ok: Item -> bool, item: Item)
    requires ok(item) && !Failed(item) && item.status == FAILURE
    ensures !Safe(ok)
  {
    var s := Fresh(Row("", 0));
    var mv := Absorb(0, item, 0, true);
    var s1 := Apply(s, Read(0));
    assert At(s1, 0) == Holding(s.row, false);
    var s2 := Apply(s1, mv);
    assert s2.row == Merge(s.row, item) && s2.row.quota == 1 && At(s2, 0).Holding? && At(s2, 1) == Away;
    var moves := SameStatusRefundsTwice(ok, s2, item, item.submitTime + HOUR_MS + 1);
    Prepend(ok, s1, mv, moves);
    moves := [mv] + moves;
    Prepend(ok, s, Read(0), moves);
    moves := [Read(0)] + moves;
    assert Start(s) && !HalfFailed(s.row) && Play(s, moves).refunds == 2;
  }

  /** Exactly which upstreams keep the promise, over every run from a row that is not
      half-failed: those whose items count as failed exactly when they report FAILURE. */
  lemma SafeIffConsistent(ok: Item -> bool)
    ensures Safe(ok) <==> forall item :: ok(item) ==> Consistent(item)
  {
    if forall item :: ok(item) ==> Consistent(item) {
      forall s, moves | Start(s) && s.row.quota >= 0 && !HalfFailed(s.row) && Feasible(s, moves) && Fed(ok, s, moves)
        ensures Play(s, moves).refunds <= 1
      {
        PlayKeeps(ok, s, s, moves);
      }
    } else {
      var item :| ok(item) && !Consistent(item);
      if Failed(item) {
        FailsWithoutFailure(ok, item);
      } else {
        FailureWithoutFailing(ok, item);
      }
    }
  }
}
