/** The store: each method is one statement or transaction on the tables, proved against the ledger's functions. */
module Stores {
  import opened Wrappers
  import opened Bytes
  import opened Pricing
  import opened Ledger
  import opened Recharging
  import Billing

  class Store {
    var users: map<UserId, User>
    var logs: seq<LogRow>
    var prices: map<Bytes, ModelPrice>
    var groups: map<Bytes, int>
    var orders: seq<Order>
    var topups: seq<Topup>

    ghost function View(): Db
      reads this
    {
      Db(users, logs, prices, groups, orders, topups)
    }

    /** Opening a database: whatever was in flight before is over. */
    constructor (db: Db)
      ensures View() == db.(users := map u | u in db.users :: db.users[u].(reserved := 0))
    {
      users := map u | u in db.users :: db.users[u].(reserved := 0);
      logs, prices, groups, orders, topups := db.logs, db.prices, db.groups, db.orders, db.topups;
    }

    // -------------------------------------------------------------- quota

    method ReserveQuota(u: UserId, amount: int) returns (err: Option<QuotaError>)
      modifies this`users
      ensures (View(), err) == Reserved(old(View()), u, amount)
    {
      if amount <= 0 {
        return None;
      }
      var changed := 0;
      if u in users {
        var user := users[u];
        if user.total <= 0 || user.used + user.reserved + amount <= user.total {
          users := users[u := user.(reserved := user.reserved + amount)];
          changed := 1;
        }
      }
      if changed == 1 {
        return None;
      }
      if u !in users {
        return Some(NotFound);
      }
      return Some(QuotaExhausted);
    }

    method SetQuotaTotal(u: UserId, total: int) returns (err: Option<QuotaError>)
      modifies this`users
      ensures (View(), err) == Ledger.SetQuotaTotal(old(View()), u, total)
      ensures View() == Billing.DbStep(old(View()), Billing.SetTotal(u, total))
    {
      if u !in users {
        return Some(NotFound);
      }
      users := users[u := users[u].(total := total)];
      return None;
    }

    method ReleaseQuota(u: UserId, amount: int)
      modifies this`users
      ensures View() == Released(old(View()), u, amount)
    {
      if amount <= 0 {
        return;
      }
      if u in users {
        var user := users[u];
        users := users[u := user.(reserved := if user.reserved > amount then user.reserved - amount else 0)];
      }
    }

    method SettleUsage(l: UsageLog, reserved: int)
      modifies this`users, this`logs
      ensures View() == Settled(old(View()), l, reserved)
    {
      logs := logs + [RowOf(l)];
      if l.user in users {
        users := users[l.user := users[l.user].(used := users[l.user].used + l.cost)];
      }
      if reserved > 0 && l.user in users {
        var user := users[l.user];
        users := users[l.user := user.(reserved := if user.reserved > reserved then user.reserved - reserved else 0)];
      }
    }

    // -------------------------------------------------------------- compensation

    method MarkUsageCompensated(ids: seq<nat>)
      requires forall k :: 0 <= k < |ids| ==> ids[k] < |logs|
      modifies this`logs
      ensures logs == Marked(old(logs), ids)
    {
      var k := 0;
      while k < |ids|
        invariant k <= |ids| && |logs| == |old(logs)|
        invariant logs == Marked(old(logs), ids[..k])
      {
        assert ids[..k + 1][..k] == ids[..k];
        logs := logs[ids[k] := logs[ids[k]].(compensated := true)];
        k := k + 1;
      }
      assert ids[..k] == ids;
    }

    method CreditQuota(u: UserId, credit: int)
      modifies this`users
      ensures View() == WithCredit(old(View()), u, credit)
    {
      if u in users {
        var user := users[u];
        users := users[u := user.(used := if user.used > credit then user.used - credit else 0)];
      }
    }

    /** The broken logs in the window. */
    method CountBrokenLogs(recent: seq<nat>) returns (broken: nat)
      requires forall k :: 0 <= k < |recent| ==> recent[k] < |logs|
      ensures broken == CountBroken(logs, recent)
    {
      broken := 0;
      var k := 0;
      while k < |recent|
        invariant k <= |recent| && broken == CountBroken(logs, recent[..k])
      {
        assert recent[..k + 1][..k] == recent[..k];
        if logs[recent[k]].broken {
          broken := broken + 1;
        }
        k := k + 1;
      }
      assert recent[..k] == recent;
    }

    /** What is owed for the window: the credit, and the logs it is for. */
    method CollectOwed(recent: seq<nat>) returns (credit: int, ids: seq<nat>)
      requires forall k :: 0 <= k < |recent| ==> recent[k] < |logs|
      ensures ids == Owed(logs, recent) && credit == SumOfLogs(logs, ids)
    {
      credit, ids := 0, [];
      var k := 0;
      while k < |recent|
        invariant k <= |recent| && ids == Owed(logs, recent[..k]) && credit == SumOfLogs(logs, ids)
      {
        assert recent[..k + 1][..k] == recent[..k];
        var l := Scan(logs[recent[k]]);
        if l.broken && !l.compensated {
          assert (ids + [recent[k]])[..|ids|] == ids;
          credit := credit + l.cost;
          ids := ids + [recent[k]];
        }
        k := k + 1;
      }
      assert recent[..k] == recent;
    }

    method CompensateBrokenStreams(u: UserId, cfg: CompensationConfig) returns (result: CompensationResult)
      modifies this`users, this`logs
      ensures (View(), result) == Compensated(old(View()), u, cfg)
      ensures View() == Billing.DbStep(old(View()), Billing.Compensate(u, cfg))
    {
      ghost var before := View();
      assert Recent(before, u, cfg) == Window(logs, u, |logs|, cfg.windowSize);
      hide Rate, Owed, Marked, CountBroken, SumOfLogs, WithCredit;
      var recent := Window(logs, u, |logs|, cfg.windowSize);
      var broken := CountBrokenLogs(recent);
      var rate := Rate(broken, |recent|);
      if broken < cfg.minBroken || rate < cfg.threshold {
        return CompensationResult(false, broken, |recent|, rate, 0, 0);
      }
      var credit, ids := CollectOwed(recent);
      MarkUsageCompensated(ids);
      CreditQuota(u, credit);
      return CompensationResult(true, broken, |recent|, rate, credit, |ids|);
    }

    // -------------------------------------------------------------- prices

    method GetEffectiveRatio(u: UserId) returns (ratio: int)
      ensures ratio == EffectiveRatio(View(), u) && ratio > 0
    {
      if u !in users {
        return DEFAULT_RATIO;
      }
      var group, ratioOverride := users[u].group, users[u].ratioOverride;
      if ratioOverride > 0 {
        return ratioOverride;
      }
      if group == [] {
        return DEFAULT_RATIO;
      }
      if group !in groups || groups[group] <= 0 {
        return DEFAULT_RATIO;
      }
      return groups[group];
    }

    method PriceCall(u: UserId, model: Bytes, counts: TokenCounts) returns (cost: int, rate: BilledRate)
      ensures (cost, rate) == Ledger.PriceCall(View(), u, model, counts)
    {
      hide Cost;
      var price := if model in prices then prices[model] else FlatPrice(model, RATE_SCALE);
      var ratio := GetEffectiveRatio(u);
      rate := RateFor(price, ratio);
      cost := Cost(counts, rate);
    }

    method SetModelPrice(price: ModelPrice)
      modifies this`prices
      ensures View() == old(View()).(prices := old(prices)[price.model := price])
      ensures View() == Billing.DbStep(old(View()), Billing.SetModelPrice(price))
    {
      prices := prices[price.model := price];
    }

    method SetGroupRatio(group: Bytes, ratio: int)
      modifies this`groups
      ensures View() == old(View()).(groups := old(groups)[group := ratio])
      ensures View() == Billing.DbStep(old(View()), Billing.SetGroupRatio(group, ratio))
    {
      groups := groups[group := ratio];
    }

    method SetUserBilling(u: UserId, group: Bytes, ratioOverride: int) returns (err: Option<QuotaError>)
      modifies this`users
      ensures err == if u in old(users) then None else Some(NotFound)
      ensures View() == if u !in old(users) then old(View())
                        else WithUser(old(View()), u, old(users)[u].(group := group, ratioOverride := ratioOverride))
      ensures View() == Billing.DbStep(old(View()), Billing.SetUserBilling(u, group, ratioOverride))
    {
      if u !in users {
        return Some(NotFound);
      }
      users := users[u := users[u].(group := group, ratioOverride := ratioOverride)];
      return None;
    }

    // -------------------------------------------------------------- recharge

    method CreatePaymentOrder(o: Order) returns (id: nat)
      modifies this`orders
      ensures (View(), id) == Ordered(old(View()), o)
      ensures id < |orders| && (orders[id] == o || (o.key != [] && HasKey(orders[id], o.user, o.key)))
    {
      OrderedIsOnFile(View(), o);
      if o.key != [] {
        var existing := OrderByKey(orders, o.user, o.key);
        if existing.Some? {
          return existing.value;
        }
      }
      orders := orders + [o];
      return |orders| - 1;
    }

    method MarkOrderPaidAndCredit(id: nat, tradeNo: Bytes, source: Bytes) returns (result: PaidResult)
      modifies this`users, this`orders, this`topups
      ensures (View(), result) == PaidFor(old(View()), id, tradeNo, source)
      ensures View() == Billing.DbStep(old(View()), Billing.NotifyPaid(id, tradeNo, source))
    {
      hide Credits;
      if id >= |orders| {
        return NoSuchOrder;
      }
      var o := orders[id];
      if o.status.Paid? {
        return AlreadyPaid;
      }
      if !o.status.Pending? {
        return NotPending;
      }
      if Credits(topups, id) > 0 {
        return Refused;
      }
      orders := orders[id := o.(status := Paid, tradeNo := if tradeNo == [] then o.tradeNo else tradeNo)];
      var topup := Topup(o.user, Some(id), o.credit, SourceOr(source));
      topups := topups + [topup];
      if o.user in users {
        users := users[o.user := users[o.user].(total := users[o.user].total + o.credit)];
      }
      return Credited(topup);
    }

    /** Raises a total in one statement; a user that does not exist is an error. */
    method AddQuotaCredit(u: UserId, credit: int) returns (err: Option<QuotaError>)
      modifies this`users
      ensures View() == RaisedTotal(old(View()), u, credit)
      ensures err == if u in old(users) then None else Some(NotFound)
    {
      if u !in users {
        return Some(NotFound);
      }
      users := users[u := users[u].(total := users[u].total + credit)];
      return None;
    }

    method AdminManualTopup(u: UserId, credit: int, withOrder: bool) returns (err: Option<TopupError>)
      modifies this`users, this`orders, this`topups
      ensures (View(), err) == ToppedUp(old(View()), u, credit, withOrder)
      ensures View() == Billing.DbStep(old(View()), Billing.ManualTopup(u, credit, withOrder))
    {
      if credit <= 0 {
        return Some(CreditNotPositive);
      }
      var order := None;
      if withOrder {
        var id := CreatePaymentOrder(Order(u, credit, Paid, [], []));
        order := Some(id);
      }
      var missing := AddQuotaCredit(u, credit);
      if missing.Some? {
        return Some(UserNotFound);
      }
      topups := topups + [Topup(u, order, credit, "admin")];
      return None;
    }
  }
}
