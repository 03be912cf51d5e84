/** Any number of requests in flight over one database, every statement or transaction one step. */
module Billing {
  import opened Bytes
  import opened Pricing
  import opened Ledger
  import opened Recharging

  /** How far a handler is between its admission and its settlement. The price is read in three statements. */
  datatype Stage =
    | Running
    | PriceRead(tokens: nat, price: ModelPrice)
    | BillingRead(tokens: nat, price: ModelPrice, group: Bytes, ratioOverride: int)
    | Rated(tokens: nat, rate: BilledRate)
    | Closed
    /** Its settlement's transaction failed; the handler takes it for settled and releases nothing. */
    | Stuck

  datatype Request = Request(user: UserId, model: Bytes, held: int, stage: Stage)

  /** A settled call: what admission held for it and what it cost. */
  datatype Settlement = Settlement(user: UserId, held: int, cost: int)

  datatype System = System(db: Db, calls: seq<Request>, settled: seq<Settlement>)

  datatype Step =
    | Admit(user: UserId, model: Bytes, amount: int)
    | ReadPrice(call: nat, tokens: nat)
    | ReadBilling(call: nat)
    | ReadGroup(call: nat)
    | SettleSuccess(call: nat)
    | SettleFailure(call: nat, broken: bool)
    | LoseSettlement(call: nat)
    | ReleaseHold(call: nat)
    | Compensate(user: UserId, cfg: CompensationConfig)
    | AddUser(user: UserId, total: int)
    | SetTotal(user: UserId, total: int)
    | SetUserBilling(user: UserId, group: Bytes, ratioOverride: int)
    | SetGroupRatio(group: Bytes, ratio: int)
    | SetModelPrice(price: ModelPrice)
    | CreateOrder(user: UserId, credit: int, key: Bytes)
    | NotifyPaid(order: nat, tradeNo: Bytes, source: Bytes)
    | ManualTopup(user: UserId, credit: int, withOrder: bool)
    | Restart

  function Hold(r: Request): nat {
    if r.stage.Closed? || r.held <= 0 then 0 else r.held
  }

  /** What a request that was not closed holds of a user's quota. */
  function Holding(u: UserId, r: Request): int {
    if r.user == u then Hold(r) else 0
  }

  /** By how much a settled call went over its hold. */
  function Overshoot(u: UserId, t: Settlement): int {
    if t.user == u then AtLeastZero(t.cost - AtLeastZero(t.held)) else 0
  }

  function WithCall(s: System, i: nat, stage: Stage): System
    requires i < |s.calls|
  {
    s.(calls := s.calls[i := s.calls[i].(stage := stage)])
  }

  /** The owner of a call comes from its API key, so is a user on file. */
  function Admitted(s: System, u: UserId, model: Bytes, amount: int): System {
    if u !in s.db.users then s
    else
      var (db, err) := Reserved(s.db, u, amount);
      if err.Some? then s else s.(db := db, calls := s.calls + [Request(u, model, amount, Running)])
  }

  /** `UPDATE users SET quota_reserved = 0`, with no request in flight any more. */
  function Restarted(s: System): System {
    s.(db := s.db.(users := map u | u in s.db.users :: s.db.users[u].(reserved := 0)), calls := [])
  }

  /** Settling call `i` with this log. */
  function SettledCall(s: System, i: nat, l: UsageLog): System
    requires i < |s.calls|
  {
    var r := s.calls[i];
    var closed := WithCall(s, i, Closed);
    closed.(db := Settled(s.db, l, r.held), settled := s.settled + [Settlement(r.user, r.held, l.cost)])
  }

  /** The call is in flight. */
  predicate IsAt(s: System, i: nat) {
    i < |s.calls| && !s.calls[i].stage.Closed? && !s.calls[i].stage.Stuck?
  }

  predicate IsCallStep(step: Step) {
    || step.ReadPrice? || step.ReadBilling? || step.ReadGroup?
    || step.SettleSuccess? || step.SettleFailure? || step.LoseSettlement? || step.ReleaseHold?
  }

  function CallStep(s: System, step: Step): System
    requires IsCallStep(step)
  {
    if !IsAt(s, step.call) then s
    else
      var r := s.calls[step.call];
      match step
      case ReadPrice(i, tokens) =>
        if r.stage.Running? then WithCall(s, i, PriceRead(tokens, PriceOf(s.db, r.model))) else s
      case ReadBilling(i) =>
        if r.stage.PriceRead? && r.user in s.db.users then
          var user := s.db.users[r.user];
          WithCall(s, i, BillingRead(r.stage.tokens, r.stage.price, user.group, user.ratioOverride))
        else s
      case ReadGroup(i) =>
        if r.stage.BillingRead? then
          var ratio := RatioFor(r.stage.ratioOverride, r.stage.group, s.db.groups);
          WithCall(s, i, Rated(r.stage.tokens, RateFor(r.stage.price, ratio)))
        else s
      case SettleSuccess(i) =>
        if r.stage.Rated? then SettledCall(s, i, SuccessLog(r.user, r.model, r.stage.tokens, r.stage.rate)) else s
      case SettleFailure(i, broken) =>
        if r.stage.Running? then SettledCall(s, i, FailureLog(r.user, r.model, broken)) else s
      case LoseSettlement(i) =>
        if r.stage.Running? || r.stage.Rated? then WithCall(s, i, Stuck) else s
      case ReleaseHold(i) =>
        WithCall(s, i, Closed).(db := Released(s.db, r.user, r.held))
  }

  /** What a step that is not a request's own does to the database. */
  function DbStep(db: Db, step: Step): Db {
    match step
    case Compensate(u, cfg) => Compensated(db, u, cfg).0
    case AddUser(u, total) => if u in db.users then db else WithUser(db, u, User(total, 0, 0, [], 0))
    case SetTotal(u, total) => SetQuotaTotal(db, u, total).0
    case SetUserBilling(u, group, ratioOverride) =>
      if u !in db.users then db else WithUser(db, u, db.users[u].(group := group, ratioOverride := ratioOverride))
    case SetGroupRatio(group, ratio) => db.(groups := db.groups[group := ratio])
    case SetModelPrice(price) => db.(prices := db.prices[price.model := price])
    case CreateOrder(u, credit, key) => Ordered(db, Order(u, credit, Pending, [], key)).0
    case NotifyPaid(id, tradeNo, source) => PaidFor(db, id, tradeNo, source).0
    case ManualTopup(u, credit, withOrder) => ToppedUp(db, u, credit, withOrder).0
    case _ => db
  }

  function Next(s: System, step: Step): System {
    if step.Admit? then Admitted(s, step.user, step.model, step.amount)
    else if step.Restart? then Restarted(s)
    else if IsCallStep(step) then CallStep(s, step)
    else s.(db := DbStep(s.db, step))
  }

  /** The system after these steps, in this order: every interleaving is one such sequence. */
  function Run(s: System, steps: seq<Step>): System {
    if steps == [] then s else Next(Run(s, steps[..|steps| - 1]), steps[|steps| - 1])
  }

  lemma RunOfMore(s: System, steps: seq<Step>, step: Step)
    ensures Run(s, steps + [step]) == Next(Run(s, steps), step)
  {
    assert (steps + [step])[..|steps|] == steps;
  }

  // ---------------------------------------------------------------- invariants

  predicate CallsAreKnown(s: System) {
    forall i :: 0 <= i < |s.calls| ==> s.calls[i].user in s.db.users
  }

  predicate LogsAreKnown(db: Db) {
    forall i :: 0 <= i < |db.logs| ==> db.logs[i].user in db.users && db.logs[i].cost >= 0
  }

  /** Every user's reserved quota is the sum of that user's holds. */
  predicate HoldsMatch(s: System) {
    forall u :: u in s.db.users ==> s.db.users[u].reserved == Total(s.calls, Holding, u)
  }

  /** Nobody was credited more than was ever charged. */
  predicate Solvent(db: Db) {
    forall u :: u in db.users ==> db.users[u].used >= Total(db.logs, Charged, u)
  }

  /** A bill can be recomputed from its own row, and its ratio is not free. */
  predicate IsExplained(r: LogRow) {
    r.status.Success? ==> r.cost == Cost(Scan(r).parts, r.billedAt) && r.billedAt.ratio > 0
  }

  /** Calls about to be settled carry a positive ratio. */
  predicate RatesArePositive(s: System) {
    forall i :: 0 <= i < |s.calls| && s.calls[i].stage.Rated? ==> s.calls[i].stage.rate.ratio > 0
  }

  /** What every state keeps. */
  predicate Sound(s: System) {
    CallsAreKnown(s) && LogsAreKnown(s.db) && HoldsMatch(s) && Solvent(s.db)
  }

  // ---------------------------------------------------------------- reading the price

  lemma CallsOf(r: Request, stage: Stage)
    ensures [r][0 := r.(stage := stage)] == [r.(stage := stage)]
  {
  }

  /** With nothing in between, the three reads find the price and the ratio that one call of `PriceCall` would. */
  lemma ThreeReads(s: System, r: Request, tokens: nat) returns (now: System)
    requires s.calls == [r] && r.stage.Running? && r.user in s.db.users
    ensures now == Next(Next(Next(s, ReadPrice(0, tokens)), ReadBilling(0)), ReadGroup(0))
    ensures var rate := PriceCall(s.db, r.user, r.model, TokenCounts(0, 0, 0, 0, tokens)).1;
            now == s.(calls := [r.(stage := Rated(tokens, rate))])
  {
    hide PriceOf, RatioFor, Cost;
    var price, user := PriceOf(s.db, r.model), s.db.users[r.user];
    CallsOf(r, PriceRead(tokens, price));
    var s2 := Next(s, ReadPrice(0, tokens));
    var r2 := s2.calls[0];
    CallsOf(r2, BillingRead(tokens, price, user.group, user.ratioOverride));
    var s3 := Next(s2, ReadBilling(0));
    var r3 := s3.calls[0];
    CallsOf(r3, Rated(tokens, RateFor(price, EffectiveRatio(s.db, r.user))));
    now := Next(s3, ReadGroup(0));
  }
}
