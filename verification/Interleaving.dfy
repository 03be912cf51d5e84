/** A handler's own steps among those of any other requests, administrators and notifications. */
module Interleavings {
  import opened Wrappers
  import opened Bytes
  import opened Pricing
  import opened Ledger
  import opened Billing
  import opened Holds
  import opened Charges
  import opened Handlers

  /** Steps that are not about call `i`, with no restart among them. */
  predicate AreForeign(steps: seq<Step>, i: nat) {
    forall k :: 0 <= k < |steps| ==> !steps[k].Restart? && (IsCallStep(steps[k]) ==> steps[k].call != i)
  }

  /** The handler's own steps, each after whatever others did in between. */
  function Interleaved(own: seq<Step>, others: nat -> seq<Step>): seq<Step> {
    if own == [] then []
    else
      var n := |own| - 1;
      Interleaved(own[..n], others) + others(n) + [own[n]]
  }

  lemma ForeignStepKeepsCall(s: System, step: Step, i: nat)
    requires i < |s.calls| && !step.Restart? && (IsCallStep(step) ==> step.call != i)
    ensures i < |Next(s, step).calls| && Next(s, step).calls[i] == s.calls[i]
  {
    hide DbStep, Settled, Released, Reserved, PriceOf, RatioFor, SuccessLog, FailureLog;
  }

  lemma {:induction false} OthersKeepCall(s: System, steps: seq<Step>, i: nat)
    requires CallsAreKnown(s) && HoldsMatch(s) && i < |s.calls| && AreForeign(steps, i)
    ensures var now := Run(s, steps);
            CallsAreKnown(now) && HoldsMatch(now) && i < |now.calls| && now.calls[i] == s.calls[i]
  {
    hide Next, CallsAreKnown, HoldsMatch;
    HoldsAlwaysMatch(s, steps);
    if steps != [] {
      OthersKeepCall(s, steps[..|steps| - 1], i);
      ForeignStepKeepsCall(Run(s, steps[..|steps| - 1]), steps[|steps| - 1], i);
    }
  }

  lemma OneOwnStep(s: System, own: seq<Step>, others: nat -> seq<Step>)
    requires own != []
    ensures var n := |own| - 1;
            Run(s, Interleaved(own, others)) == Next(Run(Run(s, Interleaved(own[..n], others)), others(n)), own[n])
  {
    hide Next, Interleaved;
    var n := |own| - 1;
    var front := Interleaved(own[..n], others);
    InterleavedIs(own, others);
    RunOfMany(s, front, others(n));
    RunOfMore(s, front + others(n), own[n]);
  }

  lemma InterleavedIs(own: seq<Step>, others: nat -> seq<Step>)
    requires own != []
    ensures var n := |own| - 1; Interleaved(own, others) == Interleaved(own[..n], others) + others(n) + [own[n]]
    ensures Interleaved([], others) == []
  {
  }

  /** The call is known, the holds match, and it stands at this stage. */
  predicate StandsAt(s: System, i: nat, r: Request, stage: Stage) {
    CallsAreKnown(s) && HoldsMatch(s) && i < |s.calls| && s.calls[i] == r.(stage := stage)
  }

  /** The next own step, after others: the state it meets, with the call where the last own step left it. */
  lemma MeetsCall(s: System, own: seq<Step>, others: nat -> seq<Step>, i: nat, r: Request, stage: Stage)
    returns (met: System)
    requires own != [] && StandsAt(Run(s, Interleaved(own[..|own| - 1], others)), i, r, stage)
    requires AreForeign(others(|own| - 1), i)
    ensures StandsAt(met, i, r, stage) && Run(s, Interleaved(own, others)) == Next(met, own[|own| - 1])
    ensures CallsAreKnown(Next(met, own[|own| - 1])) && HoldsMatch(Next(met, own[|own| - 1]))
  {
    hide Next, Interleaved, CallsAreKnown, HoldsMatch;
    var n := |own| - 1;
    OneOwnStep(s, own, others);
    OthersKeepCall(Run(s, Interleaved(own[..n], others)), others(n), i);
    met := Run(Run(s, Interleaved(own[..n], others)), others(n));
    StepKeepsHolds(met, own[n]);
  }

  /** A call that was admitted is priced, among any others, at rates read from the tables, with a positive ratio. */
  lemma RatedAmongOthers(s: System, i: nat, tokens: nat, others: nat -> seq<Step>) returns (rate: BilledRate)
    requires i < |s.calls| && StandsAt(s, i, s.calls[i], Running)
    requires forall j: nat :: AreForeign(others(j), i)
    ensures StandsAt(Run(s, Interleaved([ReadPrice(i, tokens), ReadBilling(i), ReadGroup(i)], others)), i, s.calls[i],
                     Rated(tokens, rate))
    ensures rate.ratio > 0
  {
    hide Next, Interleaved, PriceOf, RatioFor, CallsAreKnown, HoldsMatch;
    var r, own := s.calls[i], [ReadPrice(i, tokens), ReadBilling(i), ReadGroup(i)];
    assert own[..0] == [] && own[..1][..0] == [] && own[..2][..1] == own[..1];
    assert own[..3] == own && own[..3][..2] == own[..2];
    InterleavedIs(own, others);
    var met0 := MeetsCall(s, own[..1], others, i, r, Running);
    var price := ReadsPrice(met0, i, r, tokens);
    var met1 := MeetsCall(s, own[..2], others, i, r, PriceRead(tokens, price));
    var group, ratioOverride := ReadsBilling(met1, i, r, tokens, price);
    var met2 := MeetsCall(s, own, others, i, r, BillingRead(tokens, price, group, ratioOverride));
    rate := ReadsGroup(met2, i, r, tokens, price, group, ratioOverride);
  }

  lemma ReadsPrice(s: System, i: nat, r: Request, tokens: nat) returns (price: ModelPrice)
    requires StandsAt(s, i, r, Running)
    ensures var now := Next(s, ReadPrice(i, tokens)).calls; i < |now| && now[i] == r.(stage := PriceRead(tokens, price))
  {
    price := PriceOf(s.db, r.model);
  }

  lemma ReadsBilling(s: System, i: nat, r: Request, tokens: nat, price: ModelPrice)
    returns (group: Bytes, ratioOverride: int)
    requires StandsAt(s, i, r, PriceRead(tokens, price))
    ensures var now := Next(s, ReadBilling(i)).calls;
            i < |now| && now[i] == r.(stage := BillingRead(tokens, price, group, ratioOverride))
  {
    assert r.(stage := PriceRead(tokens, price)).user in s.db.users;
    group, ratioOverride := s.db.users[r.user].group, s.db.users[r.user].ratioOverride;
  }

  lemma ReadsGroup(s: System, i: nat, r: Request, tokens: nat, price: ModelPrice, group: Bytes, ratioOverride: int)
    returns (rate: BilledRate)
    requires StandsAt(s, i, r, BillingRead(tokens, price, group, ratioOverride))
    ensures var now := Next(s, ReadGroup(i)).calls; i < |now| && now[i] == r.(stage := Rated(tokens, rate))
    ensures rate.ratio > 0
  {
    rate := RateFor(price, RatioFor(ratioOverride, group, s.db.groups));
  }

  /** The own step that closes the call. */
  function ClosingStep(i: nat, end: CallEnd): Step {
    match end
    case Panicked => ReleaseHold(i)
    case Returned(Unserved(_)) => SettleFailure(i, false)
    case Returned(CutShort(_, _, _, _)) => SettleFailure(i, true)
    case Returned(Served(_, _, _)) => SettleSuccess(i)
  }

  /** The log the closing step writes: the call's own, of the owner, at a positive ratio if it was served. */
  predicate WritesOwnLog(met: System, i: nat, r: Request, end: CallEnd) {
    match end
    case Panicked => LogOf(met, ClosingStep(i, end)) == None
    case Returned(Unserved(_)) => LogOf(met, ClosingStep(i, end)) == Some(FailureLog(r.user, r.model, false))
    case Returned(CutShort(_, _, _, _)) => LogOf(met, ClosingStep(i, end)) == Some(FailureLog(r.user, r.model, true))
    case Returned(Served(_, reply, _)) =>
      && i < |met.calls| && met.calls[i].stage.Rated? && met.calls[i].stage.rate.ratio > 0
      && LogOf(met, ClosingStep(i, end))
         == Some(SuccessLog(r.user, r.model, BilledTokens(reply), met.calls[i].stage.rate))
  }

  /** `met` is where the closing step acts: it closes the call, gives the hold back in full and writes its own log. */
  predicate ClosesProperly(met: System, i: nat, r: Request, end: CallEnd) {
    var now := Next(met, ClosingStep(i, end));
    && IsAt(met, i) && IsClosed(now, i) && WritesOwnLog(met, i, r, end)
    && r.user in met.db.users && r.user in now.db.users
    && now.db.users[r.user].reserved == met.db.users[r.user].reserved - AtLeastZero(r.held)
  }

  lemma ClosingStepCloses(met: System, i: nat, r: Request, end: CallEnd, stage: Stage)
    requires StandsAt(met, i, r, stage)
    requires match end
             case Returned(Served(_, reply, _)) =>
               stage.Rated? && stage.tokens == BilledTokens(reply) && stage.rate.ratio > 0
             case _ => stage.Running?
    ensures ClosesProperly(met, i, r, end)
  {
    hide CallsAreKnown, HoldsMatch, Cost, DbStep;
    var step := ClosingStep(i, end);
    assert Closes(met, step) by { hide Settled, Released; }
    ClosingReturnsHold(met, step);
    assert met.calls[i].user == r.user && Hold(met.calls[i]) == AtLeastZero(r.held);
    UserIsKnown(met, i);
    hide Closes, Settled, Released;
  }

  lemma UserIsKnown(s: System, i: nat)
    requires CallsAreKnown(s) && i < |s.calls|
    ensures s.calls[i].user in s.db.users
  {
  }

  /**
   Whatever others do in between, the handler's steps close its call exactly as when it runs alone: at some state
   `met` of the run the closing step gives the hold back in full and writes the call's own log, and from then on
   the call is closed.
   */
  lemma CallClosesAmongOthers(s: System, i: nat, end: CallEnd, cfg: CompensationConfig, others: nat -> seq<Step>)
    returns (met: System, since: seq<Step>)
    requires i < |s.calls| && StandsAt(s, i, s.calls[i], Running)
    requires forall j: nat :: AreForeign(others(j), i)
    ensures ClosesProperly(met, i, s.calls[i], end)
    ensures var final := Run(s, Interleaved(StepsAfterAdmission(i, s.calls[i].user, end, cfg), others));
            final == Run(Next(met, ClosingStep(i, end)), since) && IsClosed(final, i)
  {
    hide Next, Interleaved, ClosesProperly, CallsAreKnown, HoldsMatch, IsClosed, AreForeign;
    var r, own := s.calls[i], StepsAfterAdmission(i, s.calls[i].user, end, cfg);
    var n := |own| - 1;
    InterleavedIs(own, others);
    match end {
      case Returned(Served(_, reply, _)) =>
        assert own[..3] == [ReadPrice(i, BilledTokens(reply)), ReadBilling(i), ReadGroup(i)];
        var rate := RatedAmongOthers(s, i, BilledTokens(reply), others);
        met := MeetsCall(s, own, others, i, r, Rated(BilledTokens(reply), rate));
        ClosingStepCloses(met, i, r, end, Rated(BilledTokens(reply), rate));
        since := [];
      case Returned(CutShort(_, _, _, _)) =>
        assert own[..1] == [ClosingStep(i, end)] && own[..1][..0] == [];
        met := MeetsCall(s, own[..1], others, i, r, Running);
        ClosingStepCloses(met, i, r, end, Running);
        since := others(1) + [own[1]];
        OneOwnStep(s, own, others);
        RunOfMore(Next(met, ClosingStep(i, end)), others(1), own[1]);
        StaysClosed(Next(met, ClosingStep(i, end)), others(1), own[1], i, met, r, end);
      case _ =>
        assert own == [ClosingStep(i, end)] && own[..0] == [];
        met := MeetsCall(s, own, others, i, r, Running);
        ClosingStepCloses(met, i, r, end, Running);
        since := [];
    }
    ProperlyClosed(met, i, r, end);
  }

  lemma ProperlyClosed(met: System, i: nat, r: Request, end: CallEnd)
    requires ClosesProperly(met, i, r, end)
    ensures IsClosed(Next(met, ClosingStep(i, end)), i)
  {
  }

  lemma StaysClosed(s: System, others: seq<Step>, last: Step, i: nat, met: System, r: Request, end: CallEnd)
    requires s == Next(met, ClosingStep(i, end)) && ClosesProperly(met, i, r, end)
    requires AreForeign(others, i) && !last.Restart?
    ensures IsClosed(Run(s, others + [last]), i)
  {
    ProperlyClosed(met, i, r, end);
    hide Next, IsClosed, ClosesProperly;
    ClosedStaysClosed(s, others + [last], i);
  }
}
