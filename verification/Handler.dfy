/** The request handlers from admission to settlement: hold, relay, settle or release. */
module Handlers {
  import opened Wrappers
  import opened Bytes
  import opened Protocol
  import opened Pricing
  import opened ProtocolTrace
  import opened Streaming
  import opened SilentCuts
  import opened Walks
  import opened Relaying
  import opened Ledger
  import opened Stores
  import opened Billing
  import opened Charges

  // ---------------------------------------------------------------- sizing the hold

  const DEFAULT_RESERVATION := 4000
  const DEFAULT_MAX_RESERVATION := 200_000

  /** Two tokens for every four characters, but at least the default. */
  function Estimate(chars: nat): nat {
    if chars / 4 * 2 < DEFAULT_RESERVATION then DEFAULT_RESERVATION else chars / 4 * 2
  }

  method ReservationFor(messages: seq<Bytes>) returns (amount: nat)
    ensures amount == Estimate(TextLength(messages))
  {
    var chars := 0;
    var k := 0;
    while k < |messages|
      invariant k <= |messages| && chars == TextLength(messages[..k])
    {
      assert messages[..k + 1][..k] == messages[..k];
      chars := chars + |messages[k]|;
      k := k + 1;
    }
    assert messages[..k] == messages;
    var est := chars / 4 * 2;
    return if est < DEFAULT_RESERVATION then DEFAULT_RESERVATION else est;
  }

  /** The cap on a hold: the configured number when it is one and positive. */
  function MaxReservation(configured: Option<int>): (cap: int)
    ensures cap > 0
  {
    match configured
    case None => DEFAULT_MAX_RESERVATION
    case Some(n) => if n > 0 then n else DEFAULT_MAX_RESERVATION
  }

  /** What admission holds for a request. */
  function HoldFor(messages: seq<Bytes>, configured: Option<int>): (amount: int)
    ensures 0 < amount <= MaxReservation(configured)
  {
    var est, cap := Estimate(TextLength(messages)), MaxReservation(configured);
    if est > cap then cap else est
  }

  lemma {:induction false} CharsGrow(messages: seq<Bytes>, more: seq<Bytes>)
    ensures TextLength(messages + more) == TextLength(messages) + TextLength(more)
  {
    if more == [] {
      assert messages + more == messages;
    } else {
      CharsGrow(messages, more[..|more| - 1]);
      assert (messages + more)[..|messages + more| - 1] == messages + more[..|more| - 1];
    }
  }

  /**
   A longer conversation is never held for less. Two tokens are held for every four characters, but at least 4000
   and at most the cap, which is 200,000 unless a positive one is configured.
   */
  lemma HoldFollowsLength(messages: seq<Bytes>, more: seq<Bytes>, configured: Option<int>)
    ensures HoldFor(messages, configured) <= HoldFor(messages + more, configured)
    ensures var chars, held := TextLength(messages), HoldFor(messages, configured);
            var cap := if configured.Some? && configured.value > 0 then configured.value else 200_000;
            && (chars < 8004 ==> held == if cap < 4000 then cap else 4000)
            && (chars >= 8004 && held < cap ==> 2 * held <= chars < 2 * held + 4)
            && held <= cap && (chars >= 8004 && chars >= 2 * cap + 4 ==> held == cap)
  {
    CharsGrow(messages, more);
    EstimateGrows(TextLength(messages), TextLength(messages + more));
    EstimateIsHalf(TextLength(messages));
    hide TextLength, Estimate;
  }

  lemma EstimateGrows(chars: nat, more: nat)
    requires chars <= more
    ensures Estimate(chars) <= Estimate(more)
  {
  }

  lemma EstimateIsHalf(chars: nat)
    ensures if chars < 8004 then Estimate(chars) == 4000
            else 4000 < Estimate(chars) && 2 * Estimate(chars) <= chars < 2 * Estimate(chars) + 4
  {
  }

  method Admit(store: Store, owner: UserId, messages: seq<Bytes>, configured: Option<int>)
    returns (held: int, err: Option<QuotaError>)
    modifies store`users
    ensures (store.View(), err) == Reserved(old(store.View()), owner, HoldFor(messages, configured))
    ensures held == if err.None? then HoldFor(messages, configured) else 0
  {
    hide Reserved;
    var amount := ReservationFor(messages);
    var cap := MaxReservation(configured);
    if amount > cap {
      amount := cap;
    }
    err := store.ReserveQuota(owner, amount);
    held := if err.Some? then 0 else amount;
  }

  // ---------------------------------------------------------------- one request

  /** How the relay ended for the handler: with an outcome, or in a panic. */
  datatype CallEnd = Returned(outcome: Outcome) | Panicked

  datatype Answer =
    | PaymentRequired
    | InternalError
    | Replied(tokens: nat)
    /** A bad gateway; nothing more when the cut was already reported inside the stream. */
    | Broken
    | Unavailable
    | Aborted

  /** The tokens billed: the provider's own count, else the length of the reply. */
  function BilledTokens(reply: Reply): nat {
    if reply.tokens <= 0 then |reply.content| else reply.tokens
  }

  /** The steps a handler takes after its admission as call `i`. */
  function StepsAfterAdmission(i: nat, owner: UserId, end: CallEnd, cfg: CompensationConfig): seq<Step> {
    match end
    case Panicked => [ReleaseHold(i)]
    case Returned(Unserved(_)) => [SettleFailure(i, false)]
    case Returned(CutShort(_, _, _, _)) => [SettleFailure(i, true), Compensate(owner, cfg)]
    case Returned(Served(_, reply, _)) =>
      [ReadPrice(i, BilledTokens(reply)), ReadBilling(i), ReadGroup(i), SettleSuccess(i)]
  }

  /** The steps of one whole request, alone in the system. */
  function HandlerSteps(db: Db, owner: UserId, model: Bytes, amount: int, end: CallEnd,
                        cfg: CompensationConfig): seq<Step> {
    [Step.Admit(owner, model, amount)]
    + if Reserved(db, owner, amount).1.Some? then [] else StepsAfterAdmission(0, owner, end, cfg)
  }

  /** The system with nothing in flight. */
  function Idle(db: Db): System {
    System(db, [], [])
  }

  /** The requests' own fields and the settlement, when the relay failed. */
  method SettleFailed(store: Store, owner: UserId, model: Bytes, held: int, broken: bool, cfg: CompensationConfig)
    returns (answer: Answer)
    modifies store`users, store`logs
    ensures var settled := Settled(old(store.View()), FailureLog(owner, model, broken), held);
            store.View() == if broken then Compensated(settled, owner, cfg).0 else settled
    ensures answer == if broken then Answer.Broken else Unavailable
  {
    hide Settled, Compensated;
    store.SettleUsage(FailureLog(owner, model, broken), held);
    if broken {
      var result := store.CompensateBrokenStreams(owner, cfg);
      return Answer.Broken;
    }
    return Unavailable;
  }

  lemma RefusalIs(db: Db, u: UserId, amount: int)
    requires u in db.users && Reserved(db, u, amount).1.Some?
    ensures Reserved(db, u, amount) == (db, Some(QuotaExhausted))
  {
  }

  lemma AdmitRuns(db: Db, u: UserId, model: Bytes, amount: int)
    requires u in db.users
    ensures var (now, err) := Reserved(db, u, amount);
            Run(Idle(db), [Step.Admit(u, model, amount)])
            == if err.Some? then Idle(db) else System(now, [Request(u, model, amount, Running)], [])
    ensures u in Reserved(db, u, amount).0.users
  {
    var step := Step.Admit(u, model, amount);
    RunOfMore(Idle(db), [], step);
    assert [] + [step] == [step];
  }

  lemma RunOfMany(s: System, first: seq<Step>, rest: seq<Step>)
    ensures Run(s, first + rest) == Run(Run(s, first), rest)
  {
    hide Next;
    if rest == [] {
      assert first + rest == first;
    } else {
      RunOfMany(s, first, rest[..|rest| - 1]);
      assert (first + rest)[..|first + rest| - 1] == first + rest[..|rest| - 1];
    }
  }

  lemma RunOfOne(s: System, step: Step)
    ensures Run(s, [step]) == Next(s, step)
  {
    hide Next;
    RunOfMore(s, [], step);
    assert [] + [step] == [step];
  }

  lemma RunOfFour(s: System, a: Step, b: Step, c: Step, d: Step)
    ensures Run(s, [a, b, c, d]) == Next(Next(Next(Next(s, a), b), c), d)
  {
    hide Next;
    RunOfOne(s, a);
    RunOfMore(s, [a], b);
    RunOfMore(s, [a] + [b], c);
    RunOfMore(s, [a] + [b] + [c], d);
    assert [a] + [b] + [c] + [d] == [a, b, c, d];
  }

  /** What the admitted call leaves in the database, by how its relay ended. */
  function CallClosed(db: Db, u: UserId, model: Bytes, held: int, end: CallEnd, cfg: CompensationConfig): Db {
    match end
    case Panicked => Released(db, u, held)
    case Returned(Unserved(_)) => Settled(db, FailureLog(u, model, false), held)
    case Returned(CutShort(_, _, _, _)) => Compensated(Settled(db, FailureLog(u, model, true), held), u, cfg).0
    case Returned(Served(_, reply, _)) =>
      var tokens := BilledTokens(reply);
      Settled(db, SuccessLog(u, model, tokens, PriceCall(db, u, model, TokenCounts(0, 0, 0, 0, tokens)).1), held)
  }

  /** What the call itself is charged. */
  function ChargeOf(db: Db, u: UserId, model: Bytes, end: CallEnd): int {
    match end
    case Panicked => 0
    case Returned(Unserved(_)) => 0
    case Returned(CutShort(_, _, _, _)) => BROKEN_COST
    case Returned(Served(_, reply, _)) => PriceCall(db, u, model, TokenCounts(0, 0, 0, 0, BilledTokens(reply))).0
  }

  /**
   A served call costs its user the provider's token count, or else the length of the reply, at the listed input
   rate of its model and at the user's own ratio, or else the group's, rounded once. What is not listed or
   configured counts as one quota unit a token and as a ratio of one.
   */
  lemma ServedCallIsPricedFromList(db: Db, u: UserId, model: Bytes, outcome: Outcome)
    requires u in db.users && outcome.Served?
    ensures var tokens := if outcome.reply.tokens > 0 then outcome.reply.tokens else |outcome.reply.content|;
            var perMillion := if model in db.prices then db.prices[model].input else 1_000_000;
            var own, group := db.users[u].ratioOverride, db.users[u].group;
            var ratio := if own > 0 then own
                         else if group != [] && group in db.groups && db.groups[group] > 0 then db.groups[group]
                         else 10_000;
            var charge := ChargeOf(db, u, model, Returned(outcome));
            if perMillion < 0 then charge == 0 else IsNearestTo(charge, tokens * perMillion * ratio)
  {
    hide Cost, IsNearestTo;
    TotalOnlyCost(BilledTokens(outcome.reply), RateFor(PriceOf(db, model), EffectiveRatio(db, u)));
  }

  /**
   A silent cut: the client got nothing, yet the walk does not go on to another account and the call is charged
   as a cut stream.
   */
  lemma UnsentCutIsCharged(f: Format, a: Attempt, calls: seq<Call>, reply: Reply, db: Db, u: UserId, model: Bytes)
    requires IsSilentCut(f, a)
    requires calls != [] && calls[|calls| - 1].result == Report(f.codec, a).1
    ensures Feed(f, FRESH, Output(f.codec, a)).t.body == [] && !GoesOn(calls[|calls| - 1])
    ensures ChargeOf(db, u, model, Returned(OutcomeOf(calls, reply))) == BROKEN_COST
  {
    hide Feed, Report, Output, IsSilentCut;
    SilentCutIff(f, a);
  }

  /** What a compensation right after the call gives back. */
  function CreditAfter(db: Db, u: UserId, model: Bytes, held: int, end: CallEnd, cfg: CompensationConfig): int {
    match end
    case Returned(CutShort(_, _, _, _)) => Compensated(Settled(db, FailureLog(u, model, true), held), u, cfg).1.credited
    case _ => 0
  }

  lemma SettlingLeavesNoHold(db: Db, l: UsageLog, held: int)
    requires l.user in db.users && db.users[l.user].reserved >= 0 && held > 0 && Reserved(db, l.user, held).1.None?
    ensures var now := Settled(Reserved(db, l.user, held).0, l, held);
            && now.users == db.users[l.user := db.users[l.user].(used := db.users[l.user].used + l.cost)]
            && |now.logs| == |db.logs| + 1
  {
    var u := l.user;
    var held1 := db.users[u := db.users[u].(reserved := db.users[u].reserved + held)];
    var charged := db.users[u].(used := db.users[u].used + l.cost);
    assert held1[u := charged] == db.users[u := charged];
  }

  /**
   However the relay ends, the hold is gone, the user is charged for this call once (less what a compensation gives
   back), exactly one log is left unless the handler panicked, and no other user's row is touched.
   */
  lemma CallLeavesNoHold(db: Db, u: UserId, model: Bytes, held: int, end: CallEnd, cfg: CompensationConfig)
    requires u in db.users && db.users[u].reserved >= 0 && held > 0 && Reserved(db, u, held).1.None?
    requires LogsAreKnown(db) && Solvent(db)
    ensures var admitted := Reserved(db, u, held).0;
            var now := CallClosed(admitted, u, model, held, end, cfg);
            && u in now.users
            && now.users[u] == db.users[u].(used :=
                 db.users[u].used + ChargeOf(db, u, model, end) - CreditAfter(admitted, u, model, held, end, cfg))
            && |now.logs| == |db.logs| + (if end.Panicked? then 0 else 1)
            && forall v :: v in db.users && v != u ==> v in now.users && now.users[v] == db.users[v]
  {
    hide Total, Compensated, PriceOf, Settled, Scaled, Rounded;
    var admitted := Reserved(db, u, held).0;
    match end {
      case Panicked =>
      case Returned(Unserved(_)) =>
        SettlingLeavesNoHold(db, FailureLog(u, model, false), held);
      case Returned(CutShort(_, _, _, _)) =>
        SettlingLeavesNoHold(db, FailureLog(u, model, true), held);
        SettleKeepsCharges(admitted, FailureLog(u, model, true), held);
        CompensationKeepsCharges(Settled(admitted, FailureLog(u, model, true), held), u, cfg);
      case Returned(Served(_, reply, _)) =>
        var tokens := BilledTokens(reply);
        assert EffectiveRatio(admitted, u) == EffectiveRatio(db, u);
        SamePrice(db, admitted, model);
        var rate := PriceCall(admitted, u, model, TokenCounts(0, 0, 0, 0, tokens)).1;
        SettlingLeavesNoHold(db, SuccessLog(u, model, tokens, rate), held);
    }
  }

  lemma SamePrice(db: Db, now: Db, model: Bytes)
    requires now.prices == db.prices
    ensures PriceOf(now, model) == PriceOf(db, model)
  {
  }

  lemma AfterAdmission(db: Db, u: UserId, model: Bytes, held: int, end: CallEnd, cfg: CompensationConfig)
    requires u in db.users
    ensures Run(System(db, [Request(u, model, held, Running)], []), StepsAfterAdmission(0, u, end, cfg)).db
         == CallClosed(db, u, model, held, end, cfg)
  {
    hide Run, Released, Settled, Compensated, PriceOf, RatioFor, Cost;
    var r := Request(u, model, held, Running);
    var s := System(db, [r], []);
    match end {
      case Panicked =>
        RunOfOne(s, ReleaseHold(0));
      case Returned(Unserved(_)) =>
        RunOfOne(s, SettleFailure(0, false));
      case Returned(CutShort(_, _, _, _)) =>
        RunOfOne(s, SettleFailure(0, true));
        RunOfMore(s, [SettleFailure(0, true)], Compensate(u, cfg));
        assert [SettleFailure(0, true)] + [Compensate(u, cfg)] == [SettleFailure(0, true), Compensate(u, cfg)];
      case Returned(Served(_, reply, _)) =>
        var tokens := BilledTokens(reply);
        var rated := ThreeReads(s, r, tokens);
        RunOfFour(s, ReadPrice(0, tokens), ReadBilling(0), ReadGroup(0), SettleSuccess(0));
    }
  }

  /**
   What one whole request leaves: nothing when it was refused. Otherwise its hold is gone, its user is charged
   once, less what a compensation gives back, one log is left unless the handler panicked, and no other user changed.
   */
  predicate LeavesOneCharge(db: Db, now: Db, u: UserId, model: Bytes, held: int, end: CallEnd, cfg: CompensationConfig)
    requires u in db.users
  {
    var (admitted, err) := Reserved(db, u, held);
    if err.Some? then now == db
    else
      && u in now.users
      && now.users[u] == db.users[u].(used :=
           db.users[u].used + ChargeOf(db, u, model, end) - CreditAfter(admitted, u, model, held, end, cfg))
      && |now.logs| == |db.logs| + (if end.Panicked? then 0 else 1)
      && forall v :: v in db.users && v != u ==> v in now.users && now.users[v] == db.users[v]
  }

  /** Sums of holds are not negative, and what the logs charge is known and covered. */
  predicate InOrder(db: Db, u: UserId) {
    u in db.users && db.users[u].reserved >= 0 && LogsAreKnown(db) && Solvent(db)
  }

  lemma RequestIs(db: Db, u: UserId, model: Bytes, held: int, end: CallEnd, cfg: CompensationConfig)
    requires u in db.users
    ensures var (admitted, err) := Reserved(db, u, held);
            var now := Run(Idle(db), HandlerSteps(db, u, model, held, end, cfg)).db;
            now == if err.Some? then db else CallClosed(admitted, u, model, held, end, cfg)
  {
    hide Reserved, CallClosed, Run, StepsAfterAdmission;
    var step := Step.Admit(u, model, held);
    AdmitRuns(db, u, model, held);
    if Reserved(db, u, held).1.Some? {
      assert [step] + [] == [step];
    } else {
      RunOfMany(Idle(db), [step], StepsAfterAdmission(0, u, end, cfg));
      AfterAdmission(Reserved(db, u, held).0, u, model, held, end, cfg);
    }
  }

  lemma RequestLeavesOneCharge(db: Db, u: UserId, model: Bytes, held: int, end: CallEnd, cfg: CompensationConfig)
    requires InOrder(db, u) && held > 0
    ensures LeavesOneCharge(db, Run(Idle(db), HandlerSteps(db, u, model, held, end, cfg)).db, u, model, held, end, cfg)
  {
    RequestIs(db, u, model, held, end, cfg);
    hide Reserved, CallClosed, Run, HandlerSteps, LogsAreKnown, Solvent, ChargeOf, CreditAfter;
    if Reserved(db, u, held).1.None? {
      CallLeavesNoHold(db, u, model, held, end, cfg);
    }
  }

  /**
   `handleChat`, and the same protocol in `handleResponses` and `handleMessages`: the owner is the user of the API
   key.
   */
  method HandleCall(store: Store, owner: UserId, model: Bytes, messages: seq<Bytes>, configured: Option<int>,
                    end: CallEnd, cfg: CompensationConfig)
    returns (answer: Answer)
    requires owner in store.users
    modifies store`users, store`logs
    ensures var amount := HoldFor(messages, configured);
            && store.View()
               == Run(Idle(old(store.View())), HandlerSteps(old(store.View()), owner, model, amount, end, cfg)).db
            && (answer.PaymentRequired? <==> Reserved(old(store.View()), owner, amount).1.Some?)
            && (InOrder(old(store.View()), owner) ==>
                LeavesOneCharge(old(store.View()), store.View(), owner, model, amount, end, cfg))
    ensures match answer
            case Replied(tokens) => end.Returned? && end.outcome.Served? && tokens == BilledTokens(end.outcome.reply)
            case Broken => end.Returned? && end.outcome.CutShort?
            case Unavailable => end.Returned? && end.outcome.Unserved?
            case Aborted => end.Panicked?
            case _ => answer.PaymentRequired?
  {
    hide Reserved, Released, Settled, Compensated, Run, Cost, LeavesOneCharge;
    ghost var db := store.View();
    ghost var amount := HoldFor(messages, configured);
    var held, err := Admit(store, owner, messages, configured);
    AdmitRuns(db, owner, model, amount);
    if InOrder(db, owner) {
      RequestLeavesOneCharge(db, owner, model, amount, end, cfg);
    }
    if err.Some? {
      RefusalIs(db, owner, amount);
      assert [Step.Admit(owner, model, amount)] + [] == [Step.Admit(owner, model, amount)];
      return if err.value.QuotaExhausted? then PaymentRequired else InternalError;
    }
    RunOfMany(Idle(db), [Step.Admit(owner, model, amount)], StepsAfterAdmission(0, owner, end, cfg));
    AfterAdmission(store.View(), owner, model, held, end, cfg);
    var settled := false;
    match end {
      case Panicked =>
        answer := Aborted;
      case Returned(Unserved(_)) =>
        answer := SettleFailed(store, owner, model, held, false, cfg);
        settled := true;
      case Returned(CutShort(_, _, _, _)) =>
        answer := SettleFailed(store, owner, model, held, true, cfg);
        settled := true;
      case Returned(Served(_, reply, _)) =>
        var tokens := if reply.tokens <= 0 then |reply.content| else reply.tokens;
        var counts := TokenCounts(0, 0, 0, 0, tokens);
        var cost, rate := store.PriceCall(owner, model, counts);
        store.SettleUsage(UsageLog(owner, model, tokens, counts, rate, cost, Success, false, false), held);
        settled := true;
        answer := Replied(tokens);
    }
    if !settled {
      store.ReleaseQuota(owner, held);
    }
  }
}
