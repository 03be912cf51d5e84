/** Orders, top-ups and totals over every run. */
module OrderRuns {
  import opened Ledger
  import opened Recharging
  import opened Billing

  /** What every state keeps of orders and top-ups. */
  ghost predicate OrdersAreSound(db: Db) {
    CreditedAtMostOnce(db) && TopupsMatch(db) && KeysAreUnique(db)
  }

  lemma SameOrders(db: Db, now: Db)
    requires now.orders == db.orders && now.topups == db.topups
    ensures OrdersGrow(db, now)
    ensures OrdersAreSound(db) ==> OrdersAreSound(now)
    ensures CreditedExactlyOnce(db) ==> CreditedExactlyOnce(now)
  {
    hide Credits;
    assert forall id: nat :: IsPaid(now, id) == IsPaid(db, id);
  }

  /** Steps that are not about orders leave them, and every user's total, as they were. */
  predicate OnlyQuota(db: Db, now: Db) {
    now.orders == db.orders && now.topups == db.topups
    && forall u :: u in db.users ==> u in now.users && now.users[u].total == db.users[u].total
  }

  /** No user but this one changed. */
  predicate SameButFor(db: Db, now: Db, u: UserId) {
    forall v :: v in db.users && v != u ==> v in now.users && now.users[v] == db.users[v]
  }

  predicate IsOrderStep(step: Step) {
    step.CreateOrder? || step.NotifyPaid? || step.ManualTopup?
  }

  lemma DbStepOnTotals(db: Db, step: Step)
    requires !IsOrderStep(step)
    ensures DbStep(db, step).orders == db.orders && DbStep(db, step).topups == db.topups
    ensures !step.SetTotal? ==> OnlyQuota(db, DbStep(db, step))
    ensures step.SetTotal? ==> SameButFor(db, DbStep(db, step), step.user)
  {
    hide Recent, Rate, Owed, Marked, CountBroken, SumOfLogs;
  }

  lemma CallStepOnTotals(s: System, step: Step)
    requires IsCallStep(step)
    ensures OnlyQuota(s.db, CallStep(s, step).db)
  {
    hide PriceOf, RatioFor, SuccessLog, FailureLog, RowOf;
  }

  lemma OrdersUntouched(s: System, step: Step)
    requires !IsOrderStep(step)
    ensures Next(s, step).db.orders == s.db.orders && Next(s, step).db.topups == s.db.topups
    ensures !step.SetTotal? ==> OnlyQuota(s.db, Next(s, step).db)
    ensures step.SetTotal? ==> SameButFor(s.db, Next(s, step).db, step.user)
  {
    if IsCallStep(step) {
      CallStepOnTotals(s, step);
      hide CallStep, OnlyQuota;
    } else if step.Admit? || step.Restart? {
      hide CallStep, DbStep;
    } else {
      DbStepOnTotals(s.db, step);
      hide DbStep, OnlyQuota;
    }
  }

  lemma StepKeepsOrders(s: System, step: Step)
    requires OrdersAreSound(s.db)
    ensures OrdersAreSound(Next(s, step).db) && OrdersGrow(s.db, Next(s, step).db)
  {
    if step.CreateOrder? {
      OrderingKeeps(s.db, Order(step.user, step.credit, Pending, [], step.key));
    } else if step.NotifyPaid? {
      PaymentKeeps(s.db, step.order, step.tradeNo, step.source);
    } else if step.ManualTopup? {
      ToppingUpKeeps(s.db, step.user, step.credit, step.withOrder);
    } else {
      OrdersUntouched(s, step);
      SameOrders(s.db, Next(s, step).db);
    }
    hide Credits, Ordered, PaidFor, ToppedUp, Admitted, Restarted, CallStep, OrdersGrow, CreditedAtMostOnce;
    hide TopupsMatch, KeysAreUnique;
  }

  lemma OrdersGrowOn(a: Db, b: Db, c: Db)
    requires OrdersGrow(a, b) && OrdersGrow(b, c)
    ensures OrdersGrow(a, c)
  {
  }

  /**
   Over any run an order is credited at most once and only when paid, every order's top-up is for its user and
   amount, there is one order per user and non-empty key, and a paid order never changes again.
   */
  lemma {:induction false} OrdersStaySound(s: System, steps: seq<Step>)
    requires OrdersAreSound(s.db)
    ensures OrdersAreSound(Run(s, steps).db) && OrdersGrow(s.db, Run(s, steps).db)
  {
    hide OrdersAreSound, Next, OrdersGrow;
    if steps == [] {
      SameOrders(s.db, s.db);
    } else {
      var front := steps[..|steps| - 1];
      OrdersStaySound(s, front);
      StepKeepsOrders(Run(s, front), steps[|steps| - 1]);
      OrdersGrowOn(s.db, Run(s, front).db, Run(s, steps).db);
    }
  }

  /** No manual top-up with an order was tried for a user that does not exist. */
  predicate TopupsForKnownUsers(s: System, steps: seq<Step>) {
    steps != [] ==>
      var front, last := steps[..|steps| - 1], steps[|steps| - 1];
      && TopupsForKnownUsers(s, front)
      && (last.ManualTopup? && last.withOrder && last.credit > 0 ==> last.user in Run(s, front).db.users)
  }

  lemma StepKeepsExactlyOnce(s: System, step: Step)
    requires CreditedExactlyOnce(s.db)
    requires step.ManualTopup? && step.withOrder && step.credit > 0 ==> step.user in s.db.users
    ensures CreditedExactlyOnce(Next(s, step).db)
  {
    ExactlyIsAtMost(s.db);
    if step.CreateOrder? {
      OrderingKeeps(s.db, Order(step.user, step.credit, Pending, [], step.key));
    } else if step.NotifyPaid? {
      PaymentKeeps(s.db, step.order, step.tradeNo, step.source);
    } else if step.ManualTopup? {
      ToppingUpIsWholeIff(s.db, step.user, step.credit, step.withOrder);
    } else {
      OrdersUntouched(s, step);
      SameOrders(s.db, Next(s, step).db);
    }
    hide Credits, Ordered, PaidFor, ToppedUp, Admitted, Restarted, CallStep, OrdersGrow, CreditedAtMostOnce;
    hide TopupsMatch, KeysAreUnique, CreditedExactlyOnce;
  }

  lemma ExactlyIsAtMost(db: Db)
    requires CreditedExactlyOnce(db)
    ensures CreditedAtMostOnce(db)
  {
  }

  /** Paid orders and top-ups stay in step: exactly one top-up for every paid order, none for any other. */
  lemma {:induction false} RechargeIsExactlyOnce(s: System, steps: seq<Step>)
    requires CreditedExactlyOnce(s.db) && TopupsForKnownUsers(s, steps)
    ensures CreditedExactlyOnce(Run(s, steps).db)
  {
    hide CreditedExactlyOnce, Next;
    if steps != [] {
      RechargeIsExactlyOnce(s, steps[..|steps| - 1]);
      StepKeepsExactlyOnce(Run(s, steps[..|steps| - 1]), steps[|steps| - 1]);
    }
  }

  /** No step set the user's total outright. */
  predicate NeverSet(steps: seq<Step>, u: UserId) {
    forall k :: 0 <= k < |steps| && steps[k].SetTotal? ==> steps[k].user != u
  }

  lemma StepKeepsOwnTotal(s: System, step: Step, u: UserId)
    requires u in s.db.users && (step.SetTotal? ==> step.user != u)
    ensures u in Next(s, step).db.users && OwnTotal(Next(s, step).db, u) == OwnTotal(s.db, u)
  {
    if step.CreateOrder? {
      OrderingKeeps(s.db, Order(step.user, step.credit, Pending, [], step.key));
    } else if step.NotifyPaid? {
      PaymentMovesTotals(s.db, step.order, step.tradeNo, step.source, u);
    } else if step.ManualTopup? {
      ToppingUpMovesTotals(s.db, step.user, step.credit, step.withOrder, u);
    } else {
      OrdersUntouched(s, step);
    }
    hide Total, Credits, Ordered, PaidFor, ToppedUp, Admitted, Restarted, CallStep;
  }

  /** A user's total is what it started with plus its top-ups, unless an administrator set it outright. */
  lemma {:induction false} TotalIsToppedUp(s: System, steps: seq<Step>, u: UserId)
    requires u in s.db.users && NeverSet(steps, u)
    ensures var now := Run(s, steps).db;
            u in now.users && now.users[u].total == OwnTotal(s.db, u) + Total(now.topups, CreditFor, u)
  {
    hide Total, Next;
    if steps != [] {
      TotalIsToppedUp(s, steps[..|steps| - 1], u);
      StepKeepsOwnTotal(Run(s, steps[..|steps| - 1]), steps[|steps| - 1], u);
    }
  }
}
