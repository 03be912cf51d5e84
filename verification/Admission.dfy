/** How far a limited user can go over its total, however many requests race. */
module Admission {
  import opened Bytes
  import opened Pricing
  import opened Ledger
  import opened Billing
  import opened Holds
  import opened Charges

  // ---------------------------------------------------------------- what is admitted

  function SumOfHolds(amounts: seq<int>): int {
    if amounts == [] then 0 else SumOfHolds(amounts[..|amounts| - 1]) + amounts[|amounts| - 1]
  }

  /** Reserves one hold after the other, and tells whether all were admitted. */
  function AdmitAll(db: Db, u: UserId, amounts: seq<int>): (Db, bool) {
    if amounts == [] then (db, true)
    else
      var (before, all) := AdmitAll(db, u, amounts[..|amounts| - 1]);
      var (now, err) := Reserved(before, u, amounts[|amounts| - 1]);
      (now, all && err.None?)
  }

  /**
   Holds are all admitted exactly when the user is unlimited or has room for all of them together; then the sum is
   what is reserved, and nothing else has changed.
   */
  lemma {:induction false} HoldsAreAdmittedIff(db: Db, u: UserId, amounts: seq<int>)
    requires u in db.users && amounts != [] && forall k :: 0 <= k < |amounts| ==> amounts[k] > 0
    ensures var user, sum := db.users[u], SumOfHolds(amounts);
            var (now, all) := AdmitAll(db, u, amounts);
            && (all <==> user.total <= 0 || user.used + user.reserved + sum <= user.total)
            && (all ==> now == db.(users := db.users[u := user.(reserved := user.reserved + sum)]))
  {
    var front := amounts[..|amounts| - 1];
    if front == [] {
      assert AdmitAll(db, u, front) == (db, true) && SumOfHolds(front) == 0;
    } else {
      HoldsAreAdmittedIff(db, u, front);
    }
  }

  // ---------------------------------------------------------------- safety

  /** The user stays limited, and no step lowers its total. */
  predicate TotalOnlyRises(s: System, steps: seq<Step>, u: UserId) {
    var now := Run(s, steps);
    && u in now.db.users
    && if steps == [] then now.db.users[u].total > 0
       else
         var front := steps[..|steps| - 1];
         TotalOnlyRises(s, front, u) && Run(s, front).db.users[u].total <= now.db.users[u].total
  }

  /** What a user has used and holds is within its total, apart from what settled calls went over their holds. */
  predicate WithinTotal(s: System, u: UserId)
    requires u in s.db.users
  {
    s.db.users[u].used + s.db.users[u].reserved <= s.db.users[u].total + Total(s.settled, Overshoot, u)
  }

  lemma AdmitStaysWithin(s: System, u: UserId, model: Bytes, amount: int, v: UserId)
    requires v in s.db.users && s.db.users[v].total > 0 && WithinTotal(s, v)
    requires Total(s.settled, Overshoot, v) >= 0
    ensures var now := Admitted(s, u, model, amount); v in now.db.users && WithinTotal(now, v)
  {
    hide Total;
  }

  lemma SettleStaysWithin(s: System, i: nat, l: UsageLog, v: UserId)
    requires CallsAreKnown(s) && HoldsMatch(s) && IsAt(s, i) && l.user == s.calls[i].user
    requires v in s.db.users && WithinTotal(s, v)
    ensures var now := SettledCall(s, i, l); v in now.db.users && WithinTotal(now, v)
  {
    HoldIsReserved(s, i);
    TotalOfMore(s.settled, Settlement(s.calls[i].user, s.calls[i].held, l.cost), Overshoot, v);
    hide Total, HoldsMatch, CallsAreKnown;
  }

  lemma CallStepStaysWithin(s: System, step: Step, v: UserId)
    requires CallsAreKnown(s) && HoldsMatch(s) && IsCallStep(step)
    requires v in s.db.users && WithinTotal(s, v)
    ensures var now := CallStep(s, step); v in now.db.users && WithinTotal(now, v)
  {
    SettlementIs(s, step);
    if LogOf(s, step).Some? {
      SettleStaysWithin(s, step.call, LogOf(s, step).value, v);
      hide CallStep, SettledCall;
    } else {
      OtherCallStep(s, step);
      HoldsAreNonNegative(s.calls, v);
      hide CallStep, Total, LogOf;
    }
  }

  lemma StepStaysWithin(s: System, step: Step, v: UserId)
    requires Sound(s) && v in s.db.users && s.db.users[v].total > 0 && WithinTotal(s, v)
    ensures var now := Next(s, step).db;
            v in now.users && (s.db.users[v].total <= now.users[v].total ==> WithinTotal(Next(s, step), v))
  {
    OvershootIsNonNegative(s.settled, v);
    hide Total;
    if step.Admit? {
      AdmitStaysWithin(s, step.user, step.model, step.amount, v);
    } else if step.Restart? {
      OtherStep(s, step);
      HoldsAreNonNegative(s.calls, v);
      assert Next(s, step).db.users[v].reserved == 0;
    } else if IsCallStep(step) {
      CallStepStaysWithin(s, step, v);
    } else {
      DbStepKeepsQuota(s.db, step);
      if step.Compensate? {
        CompensationKeepsCharges(s.db, step.user, step.cfg);
      }
      hide DbStep;
    }
  }

  lemma OvershootIsNonNegative(settled: seq<Settlement>, u: UserId)
    ensures Total(settled, Overshoot, u) >= 0
  {
    TotalIsNonNegative(settled, Overshoot, u);
  }

  /**
   However many requests race, a limited user whose total only rises never goes over it by more than settled calls
   went over their holds.
   */
  lemma {:induction false} AdmissionIsSafe(s: System, steps: seq<Step>, u: UserId)
    requires Sound(s) && u in s.db.users && WithinTotal(s, u) && TotalOnlyRises(s, steps, u)
    ensures WithinTotal(Run(s, steps), u) && Run(s, steps).db.users[u].total > 0
  {
    hide Sound, Next, Total;
    if steps != [] {
      var front := steps[..|steps| - 1];
      AdmissionIsSafe(s, front, u);
      AlwaysSound(s, front);
      StepStaysWithin(Run(s, front), steps[|steps| - 1], u);
    }
  }

  /** Every call of the user that was settled cost no more than was held for it. */
  predicate CoveredByHolds(settled: seq<Settlement>, u: UserId) {
    forall i :: 0 <= i < |settled| && settled[i].user == u ==> settled[i].cost <= AtLeastZero(settled[i].held)
  }

  /** When no call costs more than its hold, the total is never exceeded at all. */
  lemma {:induction false} NeverOverTotal(s: System, steps: seq<Step>, u: UserId)
    requires Sound(s) && u in s.db.users && WithinTotal(s, u) && TotalOnlyRises(s, steps, u)
    requires CoveredByHolds(Run(s, steps).settled, u)
    ensures var now := Run(s, steps).db; now.users[u].used + now.users[u].reserved <= now.users[u].total
  {
    AdmissionIsSafe(s, steps, u);
    NoRowsOfUser(Run(s, steps).settled, Overshoot, u);
    hide Sound, Next, Total, TotalOnlyRises;
  }

  // ---------------------------------------------------------------- the bound is attained


  /** One user with this total, an empty price list, nothing used. */
  function OneUser(u: UserId, total: int): System {
    System(Db(map[u := User(total, 0, 0, [], 0)], [], map[], map[], [], []), [], [])
  }

  /** One call that holds `total` and uses `tokens`. */
  function OneCall(u: UserId, model: Bytes, total: int, tokens: nat): seq<Step> {
    [Admit(u, model, total)] + [ReadPrice(0, tokens)] + [ReadBilling(0)] + [ReadGroup(0)] + [SettleSuccess(0)]
  }

  /** For any total and any excess there is a run that exceeds the total by exactly the excess of its one call. */
  lemma OvershootIsAttained(u: UserId, model: Bytes, total: nat, excess: nat)
    requires total > 0
    ensures var s, steps := OneUser(u, total), OneCall(u, model, total, total + excess);
            && Sound(s) && WithinTotal(s, u)
            && var now := Run(s, steps);
               u in now.db.users && Total(now.settled, Overshoot, u) == excess
               && now.db.users[u].used + now.db.users[u].reserved == total + excess
  {
    var s, tokens := OneUser(u, total), total + excess;
    var rate := RateFor(FlatPrice(model, RATE_SCALE), DEFAULT_RATIO);
    var r := Request(u, model, total, Running);
    var s1 := Next(s, Admit(u, model, total));
    assert s1.calls == [r] && s1.db.users[u] == User(total, 0, total, [], 0);
    var s4 := ThreeReads(s1, r, tokens);
    var s5 := Next(s4, SettleSuccess(0));
    CostIsNearest(TokenCounts(0, 0, 0, 0, tokens), rate);
    assert IsNearest(tokens, Scaled(TokenCounts(0, 0, 0, 0, tokens), rate));
    TotalOfMore(s.settled, Settlement(u, total, tokens), Overshoot, u);
    assert s5.settled == [] + [Settlement(u, total, tokens)];
    RunIs(s, u, model, total, tokens);
  }

  lemma RunIs(s: System, u: UserId, model: Bytes, total: int, tokens: nat)
    ensures Run(s, OneCall(u, model, total, tokens))
         == Next(Next(Next(Next(Next(s, Admit(u, model, total)), ReadPrice(0, tokens)), ReadBilling(0)), ReadGroup(0)),
                 SettleSuccess(0))
  {
    hide Next;
    var first: seq<Step> := [Admit(u, model, total)];
    RunOfMore(s, [], Admit(u, model, total));
    assert [] + first == first;
    RunOfMore(s, first, ReadPrice(0, tokens));
    RunOfMore(s, first + [ReadPrice(0, tokens)], ReadBilling(0));
    RunOfMore(s, first + [ReadPrice(0, tokens)] + [ReadBilling(0)], ReadGroup(0));
    RunOfMore(s, first + [ReadPrice(0, tokens)] + [ReadBilling(0)] + [ReadGroup(0)], SettleSuccess(0));
  }
}
