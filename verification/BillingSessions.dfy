/** The life of one request's payment: pre-consume, reserve more, then settle or refund.

    Two ledgers are charged, the funding source (wallet or subscription) and the token.
    Calls may come in any order and number, and database calls may fail; what the user
    pays in the end is proved to be what a three-state bill says. */
module BillingSessions {
  import opened Options

  /** `consumed` is what the wallet refund returns; `preConsumed` the subscription record. */
  datatype Funding = Wallet(consumed: int) | Subscription(preConsumed: int)

  datatype Session = Session(
    funding: Funding, playground: bool, preConsumed: int, tokenConsumed: int, extraReserved: int,
    trusted: bool, settled: bool, refunded: bool, fundingCharge: int, tokenCharge: int)

  /** The database calls that fail: on the funding source, on the token, and on undoing. */
  datatype Faults = Faults(funding: bool, token: bool, undo: bool)

  // ----- the session as a value -----

  predicate NeedsRefund(s: Session) {
    !s.settled && !s.refunded &&
    (s.tokenConsumed > 0 || (s.funding.Subscription? && s.funding.preConsumed > 0))
  }

  function TokenDelta(s: Session, delta: int): int {
    if s.playground then 0 else delta
  }

  function Reserved(s: Session, target: int, f: Faults): Session {
    if s.settled || s.refunded || s.trusted || target <= s.preConsumed || f.funding then s
    else
      var delta := target - s.preConsumed;
      if !s.playground && f.token then
        if f.undo then
          s.(fundingCharge := s.fundingCharge + delta,
             funding := if s.funding.Wallet? then Wallet(s.funding.consumed + delta) else s.funding)
        else s
      else
        s.(preConsumed := target, tokenConsumed := s.tokenConsumed + delta, extraReserved := s.extraReserved + delta,
           funding := if s.funding.Wallet? then Wallet(s.funding.consumed + delta) else s.funding,
           fundingCharge := s.fundingCharge + delta, tokenCharge := s.tokenCharge + TokenDelta(s, delta))
  }

  function Settled(s: Session, actual: int, f: Faults): Session {
    if s.settled then s
    else
      var delta := actual - s.preConsumed;
      if delta == 0 then s.(settled := true)
      else if f.funding then s
      else s.(settled := true, fundingCharge := s.fundingCharge + delta,
              tokenCharge := if f.token then s.tokenCharge else s.tokenCharge + TokenDelta(s, delta))
  }

  /** The refunded part of the funding source: the wallet's whole, the subscription's
      record and what was reserved on top of it. */
  function Returned(s: Session, f: Faults): int {
    match s.funding
    case Wallet(consumed) => if consumed > 0 && !f.funding then consumed else 0
    case Subscription(pre) =>
      (if pre > 0 && !f.funding then pre else 0) + (if s.extraReserved > 0 && !f.undo then s.extraReserved else 0)
  }

  function Refunded(s: Session, f: Faults): Session {
    if !NeedsRefund(s) then s
    else s.(refunded := true, fundingCharge := s.fundingCharge - Returned(s, f),
            tokenCharge := if s.tokenConsumed > 0 && !f.token then s.tokenCharge - TokenDelta(s, s.tokenConsumed)
                           else s.tokenCharge)
  }

  // ----- opening a session -----

  /** What the trust check looks at. */
  datatype Request = Request(forcePreConsume: bool, trustQuota: int, tokenUnlimited: bool,
                             tokenQuota: int, userQuota: int)

  predicate ShouldTrust(r: Request, subscription: bool) {
    !r.forcePreConsume && r.trustQuota > 0 && (r.tokenUnlimited || r.tokenQuota > r.trustQuota) &&
    !subscription && r.userQuota > r.trustQuota
  }

  /** The charge that remains, and the session if there is one. */
  datatype Opening = Opening(session: Option<Session>, fundingCharge: int, tokenCharge: int)

  function Opened(r: Request, subscription: bool, playground: bool, quota: int, f: Faults): Opening {
    var trusted := ShouldTrust(r, subscription);
    var amount := if trusted then 0 else if subscription && quota <= 0 then 1 else quota;
    var token := if amount > 0 && !playground then amount else 0;
    if token > 0 && f.token then Opening(None, 0, 0)
    else if (subscription || amount > 0) && f.funding then Opening(None, 0, if f.undo then token else 0)
    else
      var charge := if amount > 0 then amount else 0;
      Opening(Some(Session(if subscription then Subscription(amount) else Wallet(charge), playground,
                           amount, charge, 0, trusted, false, false, charge, token)),
              charge, token)
  }

  class BillingSession {
    var funding: Funding
    const playground: bool
    var preConsumed: int
    var tokenConsumed: int
    var extraReserved: int
    var trusted: bool
    var fundingSettled: bool
    var settled: bool
    var refunded: bool
    var fundingCharge: int
    var tokenCharge: int

    /** A committed funding source is never left without `settled`. */
    predicate Valid()
      reads this
    {
      fundingSettled ==> settled
    }

    function View(): Session
      reads this
    {
      Session(funding, playground, preConsumed, tokenConsumed, extraReserved, trusted, settled, refunded,
              fundingCharge, tokenCharge)
    }

    constructor (subscription: bool, playground: bool)
      ensures Valid() && View() == Session(if subscription then Subscription(0) else Wallet(0), playground,
                                           0, 0, 0, false, false, false, 0, 0)
    {
      funding := if subscription then Subscription(0) else Wallet(0);
      this.playground := playground;
      preConsumed, tokenConsumed, extraReserved := 0, 0, 0;
      trusted, fundingSettled, settled, refunded := false, false, false, false;
      fundingCharge, tokenCharge := 0, 0;
    }

    method ChargeFunding(delta: int, fails: bool) returns (ok: bool)
      modifies `fundingCharge
      ensures ok == !fails && fundingCharge == if ok then old(fundingCharge) + delta else old(fundingCharge)
    {
      ok := !fails;
      if ok {
        fundingCharge := fundingCharge + delta;
      }
    }

    method ChargeToken(delta: int, fails: bool) returns (ok: bool)
      modifies `tokenCharge
      ensures ok == !fails && tokenCharge == if ok then old(tokenCharge) + delta else old(tokenCharge)
    {
      ok := !fails;
      if ok {
        tokenCharge := tokenCharge + delta;
      }
    }

    /** The token first, then the funding source, which undoes the token if it fails.
        `amount` is at least 1 for a subscription, as its factory ensures. */
    method PreConsume(r: Request, amount: int, f: Faults) returns (ok: bool)
      requires View() == Session(funding, playground, 0, 0, 0, false, false, false, 0, 0)
      requires Valid() && (funding == Wallet(0) || (funding == Subscription(0) && amount > 0))
      modifies this
      ensures Valid()
      ensures var o := Opened(r, old(funding).Subscription?, playground, amount, f);
        && ok == o.session.Some? && fundingCharge == o.fundingCharge && tokenCharge == o.tokenCharge
        && (ok ==> View() == o.session.value)
    {
      var effective := amount;
      if ShouldTrust(r, funding.Subscription?) {
        trusted := true;
        effective := 0;
      }
      if effective > 0 {
        if !playground {
          ok := ChargeToken(effective, f.token);
          if !ok {
            return;
          }
        }
        tokenConsumed := effective;
      }
      ok := true;
      if funding.Subscription? {
        ok := ChargeFunding(effective, f.funding);
        funding := if ok then Subscription(effective) else funding;
      } else if effective > 0 {
        ok := ChargeFunding(effective, f.funding);
        funding := if ok then Wallet(effective) else funding;
      }
      if !ok {
        if tokenConsumed > 0 && !playground {
          var _ := ChargeToken(-tokenConsumed, f.undo);
          tokenConsumed := 0;
        }
        return;
      }
      preConsumed := effective;
    }

    method Reserve(target: int, f: Faults) returns (ok: bool)
      requires Valid()
      modifies this
      ensures Valid() && View() == Reserved(old(View()), target, f)
      ensures ok == (old(settled || refunded || trusted || target <= preConsumed) ||
                     (!f.funding && (playground || !f.token)))
    {
      if settled || refunded || trusted || target <= preConsumed {
        return true;
      }
      var delta := target - preConsumed;
      ok := ChargeFunding(delta, f.funding);
      if !ok {
        return;
      }
      if funding.Wallet? {
        funding := Wallet(funding.consumed + delta);
      }
      if !playground {
        ok := ChargeToken(delta, f.token);
        if !ok {
          var undone := ChargeFunding(-delta, f.undo);
          if undone && funding.Wallet? {
            funding := Wallet(funding.consumed - delta);
          }
          return;
        }
      }
      preConsumed := preConsumed + delta;
      tokenConsumed := tokenConsumed + delta;
      extraReserved := extraReserved + delta;
    }

    method Settle(actual: int, f: Faults) returns (ok: bool)
      requires Valid()
      modifies this
      ensures Valid() && View() == Settled(old(View()), actual, f)
      ensures ok == (old(settled || actual == preConsumed) || (!f.funding && (playground || !f.token)))
    {
      if settled {
        return true;
      }
      var delta := actual - preConsumed;
      if delta == 0 {
        settled := true;
        return true;
      }
      if !fundingSettled {
        ok := ChargeFunding(delta, f.funding);
        if !ok {
          return;
        }
        fundingSettled := true;
      }
      ok := true;
      if !playground {
        ok := ChargeToken(delta, f.token);
      }
      settled := true;
    }

    method Refund(f: Faults)
      requires Valid()
      modifies this
      ensures Valid() && View() == Refunded(old(View()), f)
    {
      if settled || refunded || fundingSettled || !NeedsRefund(View()) {
        return;
      }
      refunded := true;
      var ok;
      match funding {
        case Wallet(consumed) =>
          if consumed > 0 {
            ok := ChargeFunding(-consumed, f.funding);
          }
        case Subscription(pre) =>
          if pre > 0 {
            ok := ChargeFunding(-pre, f.funding);
          }
          if extraReserved > 0 {
            ok := ChargeFunding(-extraReserved, f.undo);
          }
      }
      if tokenConsumed > 0 && !playground {
        ok := ChargeToken(-tokenConsumed, f.token);
      }
    }
  }

  // ----- what the calls add up to -----

  /** An open session has charged what it says it pre-consumed, on both ledgers. */
  predicate Consistent(s: Session) {
    (s.trusted ==> s.preConsumed == 0) &&
    (!s.settled && !s.refunded ==>
       s.preConsumed >= 0 && s.extraReserved >= 0 && s.tokenConsumed == s.preConsumed == s.fundingCharge &&
       s.tokenCharge == TokenDelta(s, s.preConsumed) &&
       match s.funding
         case Wallet(consumed) => consumed == s.preConsumed
         case Subscription(pre) => pre > 0 && pre + s.extraReserved == s.preConsumed)
  }

  /** Opening charges both ledgers alike or, if it fails and can be undone, neither. A
      subscription is never trusted, so its record and the session agree. */
  lemma OpeningIsConsistent(r: Request, subscription: bool, playground: bool, quota: nat, f: Faults)
    ensures var o := Opened(r, subscription, playground, quota, f);
      match o.session
      case Some(s) => Consistent(s) && (subscription ==> !s.trusted && s.preConsumed >= 1)
      case None => o.fundingCharge == 0 && (!f.undo ==> o.tokenCharge == 0)
  {
  }

  /** What opening charges: the quota on both ledgers, at least 1 for a subscription and
      nothing for a trusted wallet; a playground has no token. It fails exactly when a
      charge that is due fails. */
  lemma OpeningCharges(r: Request, subscription: bool, playground: bool, quota: int, f: Faults)
    ensures var o := Opened(r, subscription, playground, quota, f);
      var trusted := && !subscription && !r.forcePreConsume && 0 < r.trustQuota < r.userQuota
                     && (r.tokenUnlimited || r.trustQuota < r.tokenQuota);
      var due := !trusted && (subscription || quota > 0);
      (o.session.None? <==> due && (f.funding || (f.token && !playground))) &&
      (o.session.None? ==>
         o.fundingCharge == 0 &&
         o.tokenCharge == if f.token || !f.undo || playground then 0 else if quota > 0 then quota else 1) &&
      (o.session.Some? ==>
         var s := o.session.value;
         s.trusted == trusted && s.playground == playground && s.funding.Subscription? == subscription &&
         s.fundingCharge == o.fundingCharge && s.tokenCharge == o.tokenCharge && s.extraReserved == 0 &&
         !s.settled && !s.refunded &&
         (trusted ==> s.preConsumed == s.fundingCharge == s.tokenCharge == 0) &&
         (!trusted && quota > 0 ==>
            s.preConsumed == s.fundingCharge == quota && s.tokenCharge == if playground then 0 else quota) &&
         (subscription && quota <= 0 ==>
            s.preConsumed == s.fundingCharge == 1 && s.tokenCharge == if playground then 0 else 1) &&
         (!subscription && quota <= 0 ==> s.fundingCharge == s.tokenCharge == 0))
  {
  }

  /** The bill: an open reservation, a final charge, or a reservation given back. */
  datatype Bill = Open(reserved: int) | Charged(amount: int) | GivenBack(reserved: int)

  function Amount(b: Bill): int {
    match b
    case Open(r) => r
    case Charged(a) => a
    case GivenBack(_) => 0
  }

  datatype Call = CallReserve(target: int, f: Faults) | CallSettle(actual: int, f: Faults) | CallRefund(f: Faults)

  function Do(s: Session, c: Call): Session {
    match c
    case CallReserve(target, f) => Reserved(s, target, f)
    case CallSettle(actual, f) => Settled(s, actual, f)
    case CallRefund(f) => Refunded(s, f)
  }

  /** Which failures a session recovers from: not a failed undo of a reservation whose
      token failed, not a failed token once the funding source was committed, and in a
      refund only failures of calls that have nothing to return. */
  predicate Fine(s: Session, c: Call) {
    match c
    case CallReserve(target, f) =>
      s.settled || s.refunded || s.trusted || target <= s.preConsumed || f.funding ||
      s.playground || !f.token || !f.undo
    case CallSettle(actual, f) =>
      s.settled || actual == s.preConsumed || f.funding || s.playground || !f.token
    case CallRefund(f) =>
      !NeedsRefund(s) ||
      (!f.funding && (s.playground || !f.token) && (s.funding.Wallet? || s.extraReserved == 0 || !f.undo))
  }

  function NextBill(b: Bill, c: Call, trusted: bool, playground: bool): Bill {
    match (b, c)
    case (Open(r), CallReserve(target, f)) =>
      if trusted || target <= r || f.funding || (f.token && !playground) then b else Open(target)
    case (Open(r), CallSettle(actual, f)) => if actual != r && f.funding then b else Charged(actual)
    case (Open(r), CallRefund(_)) => if r > 0 then GivenBack(r) else b
    case (GivenBack(r), CallSettle(actual, f)) => if actual != r && f.funding then b else Charged(actual - r)
    case _ => b
  }

  predicate Matches(s: Session, b: Bill) {
    s.fundingCharge == Amount(b) && s.tokenCharge == TokenDelta(s, Amount(b)) &&
    match b
      case Open(r) => !s.settled && !s.refunded && s.preConsumed == r
      case Charged(_) => s.settled
      case GivenBack(r) => !s.settled && s.refunded && s.preConsumed == r
  }

  lemma ReserveMatchesBill(s: Session, b: Bill, target: int, f: Faults)
    requires Consistent(s) && Matches(s, b)
    ensures var t := Reserved(s, target, f);
      (Matches(t, NextBill(b, CallReserve(target, f), s.trusted, s.playground)) <==> Fine(s, CallReserve(target, f))) &&
      (Fine(s, CallReserve(target, f)) ==> Consistent(t))
  {
    if !b.Open? || s.trusted || target <= s.preConsumed || f.funding || (!s.playground && f.token && !f.undo) {
      assert Reserved(s, target, f) == s;
    }
  }

  lemma SettleMatchesBill(s: Session, b: Bill, actual: int, f: Faults)
    requires Consistent(s) && Matches(s, b)
    ensures var t := Settled(s, actual, f);
      (Matches(t, NextBill(b, CallSettle(actual, f), s.trusted, s.playground)) <==> Fine(s, CallSettle(actual, f))) &&
      (Fine(s, CallSettle(actual, f)) ==> Consistent(t))
  {
    if b.Charged? {
      assert Settled(s, actual, f) == s;
    }
  }

  lemma RefundMatchesBill(s: Session, b: Bill, f: Faults)
    requires Consistent(s) && Matches(s, b)
    ensures var t := Refunded(s, f);
      (Matches(t, NextBill(b, CallRefund(f), s.trusted, s.playground)) <==> Fine(s, CallRefund(f))) &&
      (Fine(s, CallRefund(f)) ==> Consistent(t))
  {
    if b.Open? && s.preConsumed > 0 {
      assert NeedsRefund(s);
      assert Fine(s, CallRefund(f)) ==> Returned(s, f) == s.fundingCharge;
    } else {
      assert Refunded(s, f) == s;
    }
  }

  /** One call keeps the ledgers at the bill exactly when its failures are recovered from. */
  lemma CallMatchesBill(s: Session, b: Bill, c: Call)
    requires Consistent(s) && Matches(s, b)
    ensures Matches(Do(s, c), NextBill(b, c, s.trusted, s.playground)) <==> Fine(s, c)
    ensures Fine(s, c) ==> Consistent(Do(s, c))
    ensures Do(s, c).trusted == s.trusted && Do(s, c).playground == s.playground
  {
    hide Consistent, Matches, NextBill, Fine;
    match c
    case CallReserve(target, f) => ReserveMatchesBill(s, b, target, f);
    case CallSettle(actual, f) => SettleMatchesBill(s, b, actual, f);
    case CallRefund(f) => RefundMatchesBill(s, b, f);
  }

  function Run(s: Session, calls: seq<Call>): Session
    decreases |calls|
  {
    if calls == [] then s else Run(Do(s, calls[0]), calls[1..])
  }

  function RunBill(b: Bill, calls: seq<Call>, trusted: bool, playground: bool): Bill
    decreases |calls|
  {
    if calls == [] then b else RunBill(NextBill(b, calls[0], trusted, playground), calls[1..], trusted, playground)
  }

  /** Every call meets only failures that the session it finds recovers from. */
  predicate AllFine(s: Session, calls: seq<Call>)
    decreases |calls|
  {
    calls == [] || (Fine(s, calls[0]) && AllFine(Do(s, calls[0]), calls[1..]))
  }

  ghost predicate MatchesAfter(s: Session, b: Bill, calls: seq<Call>, k: nat)
    requires k <= |calls|
  {
    Matches(Run(s, calls[..k]), RunBill(b, calls[..k], s.trusted, s.playground))
  }

  lemma RunNext(s: Session, b: Bill, calls: seq<Call>, k: nat)
    requires k < |calls| && Do(s, calls[0]).trusted == s.trusted && Do(s, calls[0]).playground == s.playground
    ensures MatchesAfter(s, b, calls, k + 1) <==>
      MatchesAfter(Do(s, calls[0]), NextBill(b, calls[0], s.trusted, s.playground), calls[1..], k)
  {
    hide Matches, Do, NextBill;
    assert calls[..k + 1][1..] == calls[1..][..k] && calls[..k + 1][0] == calls[0];
  }

  /** Main theorem: whatever calls are made, the wallet or subscription and the token have
      been charged exactly what the bill says after each of them, if and only if every
      call meets only failures that are recovered from. */
  lemma {:induction false} RunMatchesBill(s: Session, b: Bill, calls: seq<Call>)
    requires Consistent(s) && Matches(s, b)
    ensures (forall k :: 0 <= k <= |calls| ==> MatchesAfter(s, b, calls, k)) <==> AllFine(s, calls)
    decreases |calls|
  {
    hide Consistent, Matches, Do, NextBill, Fine;
    assert MatchesAfter(s, b, calls, 0);
    if calls != [] {
      var t, next, rest := Do(s, calls[0]), NextBill(b, calls[0], s.trusted, s.playground), calls[1..];
      CallMatchesBill(s, b, calls[0]);
      forall k | 0 <= k < |calls| ensures MatchesAfter(s, b, calls, k + 1) <==> MatchesAfter(t, next, rest, k) {
        RunNext(s, b, calls, k);
      }
      if Fine(s, calls[0]) {
        RunMatchesBill(t, next, rest);
        assert forall k :: 0 < k <= |calls| ==> (MatchesAfter(s, b, calls, k) <==> MatchesAfter(t, next, rest, k - 1));
      } else {
        assert !MatchesAfter(t, next, rest, 0);
        assert !MatchesAfter(s, b, calls, 1);
      }
    }
  }

  /** A settled session is closed for every further call. */
  lemma {:induction false} SettledIsFinal(s: Session, calls: seq<Call>)
    requires s.settled
    ensures Run(s, calls) == s
    decreases |calls|
  {
    if calls != [] {
      SettledIsFinal(Do(s, calls[0]), calls[1..]);
    }
  }

  /** Settling charges the actual amount exactly when nothing has been given back:
      `Settle` does not look at `refunded`. */
  lemma SettleChargesActualIff(s: Session, b: Bill, actual: int)
    requires Consistent(s) && Matches(s, b) && !b.Charged?
    requires b.GivenBack? ==> b.reserved > 0
    ensures Settled(s, actual, Faults(false, false, false)).fundingCharge == actual <==> b.Open?
  {
  }

  /** A settlement whose token adjustment fails has still charged the funding source, and
      no refund can return it. */
  lemma TokenFaultKeepsFundingCharge(s: Session, b: Bill, actual: int, calls: seq<Call>)
    requires Consistent(s) && Matches(s, b) && b.Open? && actual != b.reserved && !s.playground
    ensures var t := Run(Settled(s, actual, Faults(false, true, false)), calls);
      t.fundingCharge == actual && t.tokenCharge == b.reserved
  {
    SettledIsFinal(Settled(s, actual, Faults(false, true, false)), calls);
  }

  /** When undoing a reservation fails, the wallet still remembers it and a later refund
      returns it; a subscription does not. */
  lemma FailedUndo(s: Session, target: int)
    requires Consistent(s) && !s.settled && !s.refunded && !s.trusted && !s.playground
    requires 0 < s.preConsumed < target
    ensures var t := Refunded(Reserved(s, target, Faults(false, true, true)), Faults(false, false, false));
      t.tokenCharge == 0 && t.fundingCharge == if s.funding.Wallet? then 0 else target - s.preConsumed
  {
  }
}
