/** Used quota is what the uncompensated logs cost, in every reachable state. */
module Charges {
  import opened Wrappers
  import opened Bytes
  import opened Pricing
  import opened Ledger
  import opened Compensations
  import opened Billing
  import opened Holds

  /** What a user had used before any of the logs. */
  function Opening(db: Db, u: UserId): int
    requires u in db.users
  {
    db.users[u].used - Total(db.logs, Charged, u)
  }

  lemma SettleKeepsCharges(db: Db, l: UsageLog, reserved: int)
    requires LogsAreKnown(db) && Solvent(db) && l.user in db.users && l.cost >= 0 && !l.compensated
    ensures var now := Settled(db, l, reserved);
            && LogsAreKnown(now) && Solvent(now) && now.users.Keys == db.users.Keys
            && forall u :: u in db.users ==> Opening(now, u) == Opening(db, u)
  {
    hide Total;
    var now := Settled(db, l, reserved);
    forall u | u in db.users
      ensures Opening(now, u) == Opening(db, u) && now.users[u].used >= Total(now.logs, Charged, u)
    {
      TotalOfMore(db.logs, RowOf(l), Charged, u);
    }
  }

  /** The credit is covered by what the user was charged, so the floor at zero never cuts it short. */
  lemma CompensationKeepsCharges(db: Db, u: UserId, cfg: CompensationConfig)
    requires LogsAreKnown(db) && Solvent(db)
    ensures var (now, result) := Compensated(db, u, cfg);
            && LogsAreKnown(now) && Solvent(now) && now.users.Keys == db.users.Keys
            && 0 <= result.credited
            && (forall v :: v in db.users ==> Opening(now, v) == Opening(db, v))
            && (u in db.users ==> now.users[u] == db.users[u].(used := db.users[u].used - result.credited))
            && (forall v :: v in db.users && v != u ==> now.users[v] == db.users[v])
            && |now.logs| == |db.logs|
  {
    var (now, result) := Compensated(db, u, cfg);
    CompensationOnlyMarks(db, u, cfg, u);
    CompensationMovesCharges(db, u, cfg);
    SumIsNonNegative(db, Owed(db.logs, Recent(db, u, cfg)));
    hide Recent, Rate, Owed;
    assert |now.logs| == |db.logs|;
    LogsStayKnown(db, now);
    ChargesAreNonNegative(now, u);
    hide Total;
    CreditIs(db, u, result.credited);
  }

  lemma CreditIs(db: Db, u: UserId, credit: int)
    ensures u in db.users && 0 <= credit <= db.users[u].used ==>
            WithCredit(db, u, credit) == WithUser(db, u, db.users[u].(used := db.users[u].used - credit))
    ensures u !in db.users ==> WithCredit(db, u, credit) == db
  {
  }

  lemma LogsStayKnown(db: Db, now: Db)
    requires LogsAreKnown(db) && Immutable(db.logs, now.logs)
    requires |now.logs| == |db.logs| && now.users.Keys == db.users.Keys
    ensures LogsAreKnown(now)
  {
  }

  lemma {:induction false} SumIsNonNegative(db: Db, ids: seq<nat>)
    requires LogsAreKnown(db) && forall k :: 0 <= k < |ids| ==> ids[k] < |db.logs|
    ensures SumOfLogs(db.logs, ids) >= 0
  {
    if ids != [] {
      SumIsNonNegative(db, ids[..|ids| - 1]);
    }
  }

  /** No user's opening usage changed. */
  predicate KeepsOpening(db: Db, now: Db) {
    forall u :: u in db.users ==> u in now.users && Opening(now, u) == Opening(db, u)
  }

  lemma DbStepKeepsCharges(db: Db, step: Step)
    requires LogsAreKnown(db) && Solvent(db)
    ensures var now := DbStep(db, step); LogsAreKnown(now) && Solvent(now) && KeepsOpening(db, now)
  {
    DbStepKeepsQuota(db, step);
    if step.Compensate? {
      CompensationKeepsCharges(db, step.user, step.cfg);
    } else {
      hide DbStep, Total;
      var now := DbStep(db, step);
      forall u | u in now.users ensures now.users[u].used >= Total(now.logs, Charged, u) {
        ChargesAreNonNegative(db, u);
      }
    }
  }

  lemma SuccessCostsSomething(u: UserId, model: Bytes, tokens: int, rate: BilledRate)
    ensures SuccessLog(u, model, tokens, rate).cost >= 0
  {
    CostIsNearest(TokenCounts(0, 0, 0, 0, tokens), rate);
  }

  /** The log a settlement writes, when the step is one. */
  function LogOf(s: System, step: Step): Option<UsageLog> {
    if !IsCallStep(step) || !IsAt(s, step.call) then None
    else
      var r := s.calls[step.call];
      if step.SettleFailure? && r.stage.Running? then Some(FailureLog(r.user, r.model, step.broken))
      else if step.SettleSuccess? && r.stage.Rated? then Some(SuccessLog(r.user, r.model, r.stage.tokens, r.stage.rate))
      else None
  }

  lemma SettlementIs(s: System, step: Step)
    requires IsCallStep(step)
    ensures match LogOf(s, step)
            case Some(l) =>
              && CallStep(s, step) == SettledCall(s, step.call, l)
              && l.user == s.calls[step.call].user && l.cost >= 0 && !l.compensated
            case None => CallStep(s, step).settled == s.settled && CallStep(s, step).db.logs == s.db.logs
  {
    if IsAt(s, step.call) && s.calls[step.call].stage.Rated? {
      var r := s.calls[step.call];
      SuccessCostsSomething(r.user, r.model, r.stage.tokens, r.stage.rate);
    }
    hide Cost, PriceOf, RatioFor;
  }

  lemma CallStepKeepsCharges(s: System, step: Step)
    requires CallsAreKnown(s) && LogsAreKnown(s.db) && Solvent(s.db) && IsCallStep(step)
    ensures var now := CallStep(s, step).db; LogsAreKnown(now) && Solvent(now) && KeepsOpening(s.db, now)
  {
    SettlementIs(s, step);
    var l := LogOf(s, step);
    if l.Some? {
      hide CallStep, Settled, Total;
      SettleKeepsCharges(s.db, l.value, s.calls[step.call].held);
    } else {
      OtherCallStep(s, step);
      hide CallStep, Total;
    }
  }

  lemma OtherCallStep(s: System, step: Step)
    requires CallsAreKnown(s) && IsCallStep(step) && LogOf(s, step).None?
    ensures var now := CallStep(s, step).db;
            && now.logs == s.db.logs && now.users.Keys == s.db.users.Keys
            && forall u :: u in s.db.users ==>
                 && now.users[u].used == s.db.users[u].used && now.users[u].total == s.db.users[u].total
                 && now.users[u].reserved <= AtLeastZero(s.db.users[u].reserved)
  {
    hide PriceOf, RatioFor, SuccessLog, FailureLog;
  }

  /** Admission and restart touch reservations only. */
  lemma OtherStep(s: System, step: Step)
    requires step.Admit? || step.Restart?
    ensures var now := Next(s, step);
            && now.db.logs == s.db.logs && now.settled == s.settled && now.db.users.Keys == s.db.users.Keys
            && forall u :: u in s.db.users ==> now.db.users[u] == s.db.users[u].(reserved := now.db.users[u].reserved)
  {
  }

  lemma StepKeepsSound(s: System, step: Step)
    requires Sound(s)
    ensures Sound(Next(s, step)) && KeepsOpening(s.db, Next(s, step).db)
  {
    StepKeepsHolds(s, step);
    if step.Admit? || step.Restart? {
      OtherStep(s, step);
      hide Next, Total, HoldsMatch, CallsAreKnown;
    } else if IsCallStep(step) {
      CallStepKeepsCharges(s, step);
      hide CallStep, HoldsMatch, CallsAreKnown, LogsAreKnown, Solvent, KeepsOpening;
    } else {
      DbStepKeepsCharges(s.db, step);
      hide DbStep, HoldsMatch, CallsAreKnown, LogsAreKnown, Solvent, KeepsOpening;
    }
  }

  /** Soundness holds for ever, and no user's opening usage ever changes. */
  lemma {:induction false} AlwaysSound(s: System, steps: seq<Step>)
    requires Sound(s)
    ensures Sound(Run(s, steps)) && KeepsOpening(s.db, Run(s, steps).db)
  {
    hide Sound, Next, Opening;
    if steps != [] {
      AlwaysSound(s, steps[..|steps| - 1]);
      StepKeepsSound(Run(s, steps[..|steps| - 1]), steps[|steps| - 1]);
    }
  }

  /**
   What a user has used is what it started with plus the cost of every log of it not compensated, whatever happened
   in between.
   */
  lemma {:induction false} MoneyIsConserved(s: System, steps: seq<Step>, u: UserId)
    requires Sound(s) && u in s.db.users
    ensures var now := Run(s, steps).db;
            u in now.users && now.users[u].used == Opening(s.db, u) + Total(now.logs, Charged, u)
  {
    hide Sound, Run, Total;
    AlwaysSound(s, steps);
  }
}
