/** Bills explain themselves and never change; a second compensation credits nothing. */
module Bills {
  import opened Bytes
  import opened Pricing
  import opened Ledger
  import opened Compensations
  import opened Billing
  import opened Holds
  import opened Charges

  lemma DbStepOnLogs(db: Db, step: Step)
    ensures Immutable(db.logs, DbStep(db, step).logs) && |DbStep(db, step).logs| == |db.logs|
  {
    if step.Compensate? {
      CompensationOnlyMarks(db, step.user, step.cfg, step.user);
      CreditedLogs(db, step.user, step.cfg);
      hide Recent, Rate, Compensated;
    } else {
      DbStepKeepsQuota(db, step);
      hide DbStep;
    }
  }

  /** A step adds at most the log of a settlement, and changes no log but by marking it compensated. */
  lemma StepOnLogs(s: System, step: Step)
    ensures var now := Next(s, step).db.logs;
            Immutable(s.db.logs, now)
            && forall i :: |s.db.logs| <= i < |now| ==> LogOf(s, step).Some? && now[i] == RowOf(LogOf(s, step).value)
  {
    if step.Admit? || step.Restart? {
      OtherStep(s, step);
      hide Next, LogOf;
    } else if IsCallStep(step) {
      SettlementIs(s, step);
      hide CallStep, LogOf;
    } else {
      DbStepOnLogs(s.db, step);
      hide DbStep, LogOf;
    }
  }

  /** No log ever changes except by being marked compensated, and none is lost. */
  lemma {:induction false} LogsNeverChange(s: System, steps: seq<Step>)
    ensures Immutable(s.db.logs, Run(s, steps).db.logs)
  {
    hide Next;
    if steps != [] {
      var before := Run(s, steps[..|steps| - 1]);
      LogsNeverChange(s, steps[..|steps| - 1]);
      StepOnLogs(before, steps[|steps| - 1]);
      hide Run, LogOf;
      ImmutableOn(s.db.logs, before.db.logs, Next(before, steps[|steps| - 1]).db.logs);
    }
  }

  lemma ImmutableOn(a: seq<LogRow>, b: seq<LogRow>, c: seq<LogRow>)
    requires Immutable(a, b) && Immutable(b, c)
    ensures Immutable(a, c)
  {
  }

  lemma NewBillIsExplained(s: System, step: Step)
    requires RatesArePositive(s) && LogOf(s, step).Some?
    ensures IsExplained(RowOf(LogOf(s, step).value))
  {
    hide Cost;
  }

  /** Each step of a call leads to a positive ratio, and leaves other calls' rates alone. */
  lemma RatesStayPositive(s: System, step: Step)
    requires RatesArePositive(s)
    ensures RatesArePositive(Next(s, step))
  {
    hide PriceOf, Reserved, Released, Settled, DbStep, SuccessLog, FailureLog;
    if IsCallStep(step) && IsAt(s, step.call) && s.calls[step.call].stage.BillingRead? {
      RatioIsPositive(s.calls[step.call].stage, s.db.groups);
      hide RatioFor;
    } else {
      hide RatioFor;
    }
  }

  lemma RatioIsPositive(stage: Stage, groups: map<Bytes, int>)
    requires stage.BillingRead?
    ensures RateFor(stage.price, RatioFor(stage.ratioOverride, stage.group, groups)).ratio > 0
  {
  }

  /** Counts split by class are priced at the listed rate of each class. */
  lemma BreakdownIsPricedFromList(db: Db, u: UserId, model: Bytes, counts: TokenCounts)
    requires model in db.prices && counts.NonNegative() && counts.HasBreakdown()
    requires var p := db.prices[model]; p.input >= 0 && p.output >= 0 && p.cacheRead >= 0 && p.cacheWrite >= 0
    ensures var p := db.prices[model];
            var charge := counts.input * p.input + counts.output * p.output
                          + counts.cacheRead * p.cacheRead + counts.cacheWrite * p.cacheWrite;
            var (cost, rate) := PriceCall(db, u, model, counts);
            && IsNearestTo(cost, charge * EffectiveRatio(db, u))
            && rate == BilledRate(p.input, p.output, p.cacheRead, p.cacheWrite, EffectiveRatio(db, u))
  {
    hide Cost, IsNearestTo;
    BreakdownCost(counts, RateFor(PriceOf(db, model), EffectiveRatio(db, u)));
  }

  /** Every row of `now` is explained, apart from rows that were there before and were not explained then. */
  predicate NewBillsAreExplained(before: seq<LogRow>, now: seq<LogRow>) {
    forall i :: 0 <= i < |now| && (i < |before| ==> IsExplained(before[i])) ==> IsExplained(now[i])
  }

  lemma StepKeepsBills(s: System, step: Step)
    requires RatesArePositive(s)
    ensures RatesArePositive(Next(s, step)) && NewBillsAreExplained(s.db.logs, Next(s, step).db.logs)
  {
    StepOnLogs(s, step);
    RatesStayPositive(s, step);
    if LogOf(s, step).Some? {
      NewBillIsExplained(s, step);
    }
    hide Next, LogOf, Cost, RatesArePositive;
  }

  lemma ExplainedOn(a: seq<LogRow>, b: seq<LogRow>, c: seq<LogRow>)
    requires |a| <= |b| && NewBillsAreExplained(a, b) && NewBillsAreExplained(b, c)
    ensures NewBillsAreExplained(a, c)
  {
    hide IsExplained;
  }

  /**
   Under any interleaving of price, group and override edits, every successful bill written since can be
   recomputed from the numbers stored with it, at a positive ratio, and so can every older one that could be.
   No bill ever changes except by being marked compensated.
   */
  lemma {:induction false} BillsExplainThemselves(s: System, steps: seq<Step>)
    requires RatesArePositive(s)
    ensures RatesArePositive(Run(s, steps))
    ensures NewBillsAreExplained(s.db.logs, Run(s, steps).db.logs) && Immutable(s.db.logs, Run(s, steps).db.logs)
  {
    hide RatesArePositive, Next, NewBillsAreExplained;
    LogsNeverChange(s, steps);
    if steps == [] {
      assert NewBillsAreExplained(s.db.logs, s.db.logs) by { NothingNew(s.db.logs); }
    } else {
      var front := steps[..|steps| - 1];
      BillsExplainThemselves(s, front);
      StepKeepsBills(Run(s, front), steps[|steps| - 1]);
      ExplainedOn(s.db.logs, Run(s, front).db.logs, Run(s, steps).db.logs);
    }
  }

  lemma NothingNew(logs: seq<LogRow>)
    ensures NewBillsAreExplained(logs, logs)
  {
  }

  /** A repeated compensation credits nothing, whatever ran since the first, as long as the user has no new log. */
  lemma {:induction false} SecondCompensationCreditsNothing(s: System, steps: seq<Step>, u: UserId,
                                                            cfg: CompensationConfig)
    requires var first := Next(s, Compensate(u, cfg));
             forall i :: |s.db.logs| <= i < |Run(first, steps).db.logs| ==> Run(first, steps).db.logs[i].user != u
    ensures Compensated(Run(Next(s, Compensate(u, cfg)), steps).db, u, cfg).1.credited == 0
  {
    var first := Next(s, Compensate(u, cfg));
    DbStepOnLogs(s.db, Compensate(u, cfg));
    QuietAfterwards(s.db, u, cfg);
    LogsNeverChange(first, steps);
    QuietSurvives(first.db, Run(first, steps).db, u, cfg);
    QuietCreditsNothing(Run(first, steps).db, u, cfg);
    hide Compensated, Quiet, Run;
  }
}
