/** Reserved quota is the sum of the holds, in every reachable state. */
module Holds {
  import opened Bytes
  import opened Ledger
  import opened Recharging
  import opened Billing

  /** The database steps leave the holds and, compensation apart, the charges as they are. */
  predicate KeepsQuota(db: Db, now: Db) {
    && (forall u :: u in db.users ==> u in now.users && now.users[u].reserved == db.users[u].reserved)
    && (forall u :: u in now.users && u !in db.users ==> now.users[u].reserved == 0 && now.users[u].used == 0)
  }

  predicate KeepsCharges(db: Db, now: Db) {
    now.logs == db.logs && forall u :: u in db.users ==> u in now.users && now.users[u].used == db.users[u].used
  }

  lemma OrderStepKeepsQuota(db: Db, step: Step)
    requires step.CreateOrder? || step.NotifyPaid? || step.ManualTopup?
    ensures KeepsQuota(db, DbStep(db, step)) && KeepsCharges(db, DbStep(db, step))
  {
    hide Credits, OrderByKey, Compensated;
  }

  lemma DbStepKeepsQuota(db: Db, step: Step)
    ensures KeepsQuota(db, DbStep(db, step))
    ensures !step.Compensate? ==> KeepsCharges(db, DbStep(db, step))
  {
    if step.CreateOrder? || step.NotifyPaid? || step.ManualTopup? {
      OrderStepKeepsQuota(db, step);
      hide DbStep, KeepsQuota, KeepsCharges;
    } else {
      hide Recent, Rate, Owed, Marked, CountBroken, SumOfLogs, Ordered, PaidFor, ToppedUp;
    }
  }

  lemma {:induction false} NoRowsOfUser<T>(rows: seq<T>, amount: (UserId, T) -> int, u: UserId)
    requires forall i :: 0 <= i < |rows| ==> amount(u, rows[i]) == 0
    ensures Total(rows, amount, u) == 0
  {
    if rows != [] {
      NoRowsOfUser(rows[..|rows| - 1], amount, u);
    }
  }

  lemma HoldsAreNonNegative(calls: seq<Request>, u: UserId)
    ensures Total(calls, Holding, u) >= 0
    ensures forall i :: 0 <= i < |calls| && calls[i].user == u ==> Hold(calls[i]) <= Total(calls, Holding, u)
  {
    TotalIsNonNegative(calls, Holding, u);
    forall i | 0 <= i < |calls| && calls[i].user == u ensures Hold(calls[i]) <= Total(calls, Holding, u) {
      assert Holding(u, calls[i]) == Hold(calls[i]);
    }
  }

  lemma ChargesAreNonNegative(db: Db, u: UserId)
    requires LogsAreKnown(db)
    ensures Total(db.logs, Charged, u) >= 0
    ensures u !in db.users ==> Total(db.logs, Charged, u) == 0
  {
    TotalIsNonNegative(db.logs, Charged, u);
    if u !in db.users {
      NoRowsOfUser(db.logs, Charged, u);
    }
  }

  // ---------------------------------------------------------------- holds

  /** Moving a call on changes the holds by the difference of its own. */
  lemma HoldMoves(s: System, i: nat, stage: Stage, u: UserId)
    requires i < |s.calls|
    ensures Total(WithCall(s, i, stage).calls, Holding, u)
         == Total(s.calls, Holding, u) - Holding(u, s.calls[i]) + Holding(u, s.calls[i].(stage := stage))
  {
    TotalOfUpdate(s.calls, i, s.calls[i].(stage := stage), Holding, u);
  }

  /** A hold in flight is never more than what is reserved, so the floor at zero never cuts it short. */
  lemma HoldIsReserved(s: System, i: nat)
    requires CallsAreKnown(s) && HoldsMatch(s) && IsAt(s, i)
    ensures Hold(s.calls[i]) <= s.db.users[s.calls[i].user].reserved
    ensures s.calls[i].held > 0 ==>
            Less(s.db.users[s.calls[i].user].reserved, s.calls[i].held)
            == s.db.users[s.calls[i].user].reserved - s.calls[i].held
  {
    HoldsAreNonNegative(s.calls, s.calls[i].user);
  }

  lemma AdmitKeepsHolds(s: System, u: UserId, model: Bytes, amount: int)
    requires CallsAreKnown(s) && HoldsMatch(s)
    ensures var now := Admitted(s, u, model, amount); CallsAreKnown(now) && HoldsMatch(now)
  {
    hide Total;
    var now := Admitted(s, u, model, amount);
    forall v | v in now.db.users ensures now.db.users[v].reserved == Total(now.calls, Holding, v) {
      TotalOfMore(s.calls, Request(u, model, amount, Running), Holding, v);
    }
  }

  /** A restart resets both sides to zero, whatever they were. */
  lemma RestartKeepsHolds(s: System)
    ensures var now := Restarted(s);
            && now.calls == [] && now.db.users.Keys == s.db.users.Keys
            && (forall u :: u in now.db.users ==> now.db.users[u].reserved == 0)
            && CallsAreKnown(now) && HoldsMatch(now)
  {
  }

  lemma ReleaseKeepsHolds(s: System, i: nat)
    requires CallsAreKnown(s) && HoldsMatch(s) && IsAt(s, i)
    ensures var now := WithCall(s, i, Closed).(db := Released(s.db, s.calls[i].user, s.calls[i].held));
            CallsAreKnown(now) && HoldsMatch(now)
  {
    hide Total;
    HoldIsReserved(s, i);
    var now := WithCall(s, i, Closed).(db := Released(s.db, s.calls[i].user, s.calls[i].held));
    forall v | v in now.db.users ensures now.db.users[v].reserved == Total(now.calls, Holding, v) {
      HoldMoves(s, i, Closed, v);
    }
  }

  lemma SettleKeepsHolds(s: System, i: nat, l: UsageLog)
    requires CallsAreKnown(s) && HoldsMatch(s) && IsAt(s, i) && l.user == s.calls[i].user
    ensures var now := SettledCall(s, i, l); CallsAreKnown(now) && HoldsMatch(now)
  {
    hide Total;
    HoldIsReserved(s, i);
    var now := SettledCall(s, i, l);
    forall v | v in now.db.users ensures now.db.users[v].reserved == Total(now.calls, Holding, v) {
      HoldMoves(s, i, Closed, v);
    }
  }

  lemma StageKeepsHolds(s: System, i: nat, stage: Stage)
    requires CallsAreKnown(s) && HoldsMatch(s) && IsAt(s, i) && !stage.Closed?
    ensures var now := WithCall(s, i, stage); CallsAreKnown(now) && HoldsMatch(now)
  {
    hide Total;
    var now := WithCall(s, i, stage);
    forall v | v in now.db.users ensures now.db.users[v].reserved == Total(now.calls, Holding, v) {
      HoldMoves(s, i, stage, v);
    }
  }

  lemma CallStepKeepsHolds(s: System, step: Step)
    requires CallsAreKnown(s) && HoldsMatch(s) && IsCallStep(step)
    ensures var now := CallStep(s, step); CallsAreKnown(now) && HoldsMatch(now)
  {
    hide HoldsMatch, CallsAreKnown, SettledCall, Released;
    if IsAt(s, step.call) {
      var r := s.calls[step.call];
      if step.ReleaseHold? {
        ReleaseKeepsHolds(s, step.call);
      } else if step.SettleFailure? {
        SettleKeepsHolds(s, step.call, FailureLog(r.user, r.model, step.broken));
      } else if step.SettleSuccess? {
        if r.stage.Rated? {
          SettleKeepsHolds(s, step.call, SuccessLog(r.user, r.model, r.stage.tokens, r.stage.rate));
        }
      } else {
        StageKeepsHolds(s, step.call, CallStep(s, step).calls[step.call].stage);
        assert s.calls[step.call := r] == s.calls;
      }
    }
  }

  lemma DbStepKeepsHolds(s: System, step: Step)
    requires CallsAreKnown(s) && HoldsMatch(s)
    ensures var now := s.(db := DbStep(s.db, step)); CallsAreKnown(now) && HoldsMatch(now)
  {
    hide Total, DbStep;
    DbStepKeepsQuota(s.db, step);
    var now := s.(db := DbStep(s.db, step));
    forall v | v in now.db.users ensures now.db.users[v].reserved == Total(now.calls, Holding, v) {
      if v !in s.db.users {
        NoRowsOfUser(s.calls, Holding, v);
      }
    }
  }

  lemma StepKeepsHolds(s: System, step: Step)
    requires CallsAreKnown(s) && HoldsMatch(s)
    ensures CallsAreKnown(Next(s, step)) && HoldsMatch(Next(s, step))
  {
    hide HoldsMatch, CallsAreKnown, Admitted, Restarted, CallStep, DbStep;
    if step.Admit? {
      AdmitKeepsHolds(s, step.user, step.model, step.amount);
    } else if step.Restart? {
      RestartKeepsHolds(s);
    } else if IsCallStep(step) {
      CallStepKeepsHolds(s, step);
    } else {
      DbStepKeepsHolds(s, step);
    }
  }

  /** In every reachable state each user's reserved quota is exactly the sum of that user's holds. */
  lemma {:induction false} HoldsAlwaysMatch(s: System, steps: seq<Step>)
    requires CallsAreKnown(s) && HoldsMatch(s)
    ensures CallsAreKnown(Run(s, steps)) && HoldsMatch(Run(s, steps))
  {
    hide HoldsMatch, CallsAreKnown, Next;
    if steps != [] {
      HoldsAlwaysMatch(s, steps[..|steps| - 1]);
      StepKeepsHolds(Run(s, steps[..|steps| - 1]), steps[|steps| - 1]);
    }
  }

  /** The call was open and this step closed it. */
  predicate Closes(s: System, step: Step) {
    IsCallStep(step) && IsAt(s, step.call) && CallStep(s, step).calls[step.call].stage.Closed?
  }

  /** Closing a call gives its hold back in full, and touches no other user. */
  lemma ClosingReturnsHold(s: System, step: Step)
    requires CallsAreKnown(s) && HoldsMatch(s) && Closes(s, step)
    ensures var r, now := s.calls[step.call], Next(s, step);
            && step.call < |now.calls| && now.calls[step.call].stage.Closed?
            && r.user in now.db.users && now.db.users[r.user].reserved == s.db.users[r.user].reserved - Hold(r)
            && (forall v :: v in s.db.users && v != r.user ==> v in now.db.users && now.db.users[v] == s.db.users[v])
  {
    HoldIsReserved(s, step.call);
    hide HoldsMatch, CallsAreKnown, Total;
  }

  predicate IsClosed(s: System, i: nat) {
    i < |s.calls| && s.calls[i].stage.Closed?
  }

  lemma StepKeepsClosed(s: System, step: Step, i: nat)
    requires IsClosed(s, i) && !step.Restart?
    ensures IsClosed(Next(s, step), i)
  {
    hide DbStep, Settled, Released, Reserved, PriceOf, RatioFor, SuccessLog, FailureLog;
  }

  /** Until the next restart a closed call stays closed. */
  lemma {:induction false} ClosedStaysClosed(s: System, steps: seq<Step>, i: nat)
    requires IsClosed(s, i) && forall k :: 0 <= k < |steps| ==> !steps[k].Restart?
    ensures IsClosed(Run(s, steps), i)
  {
    hide Next;
    if steps != [] {
      ClosedStaysClosed(s, steps[..|steps| - 1], i);
      StepKeepsClosed(Run(s, steps[..|steps| - 1]), steps[|steps| - 1], i);
    }
  }

  /**
   Closing a call gives its hold back in full and touches no other user. However much runs after it, up to the
   next restart, nothing that is done to the call again has any effect.
   */
  lemma {:induction false} HoldIsReturnedOnce(s: System, step: Step, since: seq<Step>, again: Step)
    requires CallsAreKnown(s) && HoldsMatch(s) && Closes(s, step)
    requires forall k :: 0 <= k < |since| ==> !since[k].Restart?
    requires IsCallStep(again) && again.call == step.call
    ensures var r, now := s.calls[step.call], Next(s, step);
            && r.user in now.db.users && now.db.users[r.user].reserved == s.db.users[r.user].reserved - Hold(r)
            && (forall v :: v in s.db.users && v != r.user ==> v in now.db.users && now.db.users[v] == s.db.users[v])
            && Next(Run(now, since), again) == Run(now, since)
  {
    ClosingReturnsHold(s, step);
    ClosedStaysClosed(Next(s, step), since, step.call);
    var later := Run(Next(s, step), since);
    hide HoldsMatch, CallsAreKnown, Run, Closes, DbStep;
    ClosedIsInert(later, again);
    hide Next;
  }

  lemma ClosedIsInert(s: System, step: Step)
    requires IsCallStep(step) && IsClosed(s, step.call)
    ensures Next(s, step) == s
  {
  }

  // ---------------------------------------------------------------- lost settlements

  /** What a request in flight holds of a user's quota. */
  function InFlight(u: UserId, r: Request): int {
    if r.stage.Stuck? then 0 else Holding(u, r)
  }

  /** What a request whose settlement was lost still holds. */
  function Stranded(u: UserId, r: Request): int {
    if r.stage.Stuck? then Holding(u, r) else 0
  }

  lemma {:induction false} HoldsSplit(calls: seq<Request>, u: UserId)
    ensures Total(calls, Holding, u) == Total(calls, InFlight, u) + Total(calls, Stranded, u)
  {
    if calls != [] {
      HoldsSplit(calls[..|calls| - 1], u);
    }
  }

  /** Some settlement of the user was lost, and its hold with it. */
  predicate LostAHold(calls: seq<Request>, u: UserId) {
    exists i :: 0 <= i < |calls| && calls[i].user == u && calls[i].stage.Stuck? && calls[i].held > 0
  }

  /** This step is a settlement of a call of the user that fails, with a hold on it. */
  predicate Loses(s: System, step: Step, u: UserId) {
    && step.LoseSettlement? && IsAt(s, step.call)
    && (s.calls[step.call].stage.Running? || s.calls[step.call].stage.Rated?)
    && s.calls[step.call].user == u && s.calls[step.call].held > 0
  }

  /** Some settlement of the user, with a hold, failed since the last restart, among these steps or before them. */
  predicate LostSinceRestart(s: System, steps: seq<Step>, u: UserId) {
    if steps == [] then LostAHold(s.calls, u)
    else
      var front, last := steps[..|steps| - 1], steps[|steps| - 1];
      !last.Restart? && (LostSinceRestart(s, front, u) || Loses(Run(s, front), last, u))
  }

  /** A lost hold stays until the restart, and nothing but a failed settlement makes one. */
  lemma StepOnLostHolds(s: System, step: Step, u: UserId)
    ensures LostAHold(Next(s, step).calls, u) <==> !step.Restart? && (LostAHold(s.calls, u) || Loses(s, step, u))
  {
    hide DbStep, Settled, Released, Reserved, PriceOf, RatioFor, SuccessLog, FailureLog;
    var now := Next(s, step);
    if !step.Restart? {
      assert |s.calls| <= |now.calls|;
      forall i | 0 <= i < |s.calls| && s.calls[i].stage.Stuck?
        ensures now.calls[i] == s.calls[i]
      {
      }
      if Loses(s, step, u) {
        assert now.calls[step.call].stage.Stuck?;
      }
    }
  }

  lemma {:induction false} LostHoldsAreLostSettlements(s: System, steps: seq<Step>, u: UserId)
    ensures LostAHold(Run(s, steps).calls, u) <==> LostSinceRestart(s, steps, u)
  {
    hide LostAHold, Loses, Next;
    if steps != [] {
      LostHoldsAreLostSettlements(s, steps[..|steps| - 1], u);
      StepOnLostHolds(Run(s, steps[..|steps| - 1]), steps[|steps| - 1], u);
    }
  }

  /**
   The reserved quota covers the holds in flight in every reachable state, and equals them if and only if
   no settlement of the user, with a hold on it, has failed since the last restart.
   */
  lemma {:induction false} OnlyLostSettlementsLeak(s: System, steps: seq<Step>, u: UserId)
    requires CallsAreKnown(s) && HoldsMatch(s) && u in Run(s, steps).db.users
    ensures var now := Run(s, steps);
            && now.db.users[u].reserved >= Total(now.calls, InFlight, u)
            && (now.db.users[u].reserved == Total(now.calls, InFlight, u) <==> !LostSinceRestart(s, steps, u))
  {
    HoldsAlwaysMatch(s, steps);
    LostHoldsAreLostSettlements(s, steps, u);
    var now := Run(s, steps);
    hide Run, LostSinceRestart;
    HoldsSplit(now.calls, u);
    TotalIsNonNegative(now.calls, Stranded, u);
    if LostAHold(now.calls, u) {
      var i :| 0 <= i < |now.calls| && now.calls[i].user == u && now.calls[i].stage.Stuck? && now.calls[i].held > 0;
      assert Stranded(u, now.calls[i]) > 0;
    } else {
      NoRowsOfUser(now.calls, Stranded, u);
    }
  }
}
