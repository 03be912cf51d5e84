/** Payment orders and top-ups: an order is credited once, however often its payment is notified. */
module Recharging {
  import opened Wrappers
  import opened Bytes
  import opened Ledger

  // ---------------------------------------------------------------- the operations

  predicate HasKey(o: Order, u: UserId, key: Bytes) {
    o.user == u && o.key == key
  }

  /** The order of a user under a key. */
  function OrderByKey(orders: seq<Order>, u: UserId, key: Bytes): (r: Option<nat>)
    ensures r.Some? ==> r.value < |orders| && HasKey(orders[r.value], u, key)
    ensures r.None? ==> forall i :: 0 <= i < |orders| ==> !HasKey(orders[i], u, key)
  {
    if orders == [] then None
    else
      var front := OrderByKey(orders[..|orders| - 1], u, key);
      if front.Some? then front
      else if HasKey(orders[|orders| - 1], u, key) then Some(|orders| - 1)
      else None
  }

  /** `CreatePaymentOrder`: an order under a non-empty key that exists already is returned instead. */
  function Ordered(db: Db, o: Order): (Db, nat) {
    var existing := if o.key == [] then None else OrderByKey(db.orders, o.user, o.key);
    if existing.Some? then (db, existing.value) else (db.(orders := db.orders + [o]), |db.orders|)
  }

  datatype PaidResult =
    | NoSuchOrder
    | NotPending
    /** The unique index on top-ups refused a second one; everything is rolled back. */
    | Refused
    | AlreadyPaid
    | Credited(topup: Topup)

  /** How many top-ups an order has. */
  function Credits(topups: seq<Topup>, id: nat): nat {
    if topups == [] then 0
    else Credits(topups[..|topups| - 1], id) + if topups[|topups| - 1].order == Some(id) then 1 else 0
  }

  function RaisedTotal(db: Db, u: UserId, credit: int): Db {
    if u !in db.users then db
    else WithUser(db, u, db.users[u].(total := db.users[u].total + credit))
  }

  /** Where a credit came from; unless said otherwise, from Alipay. */
  function SourceOr(source: Bytes): Bytes {
    if source == [] then "alipay" else source
  }

  /** `MarkOrderPaidAndCredit`. */
  function PaidFor(db: Db, id: nat, tradeNo: Bytes, source: Bytes): (Db, PaidResult) {
    if id >= |db.orders| then (db, NoSuchOrder)
    else
      var o := db.orders[id];
      if o.status.Paid? then (db, AlreadyPaid)
      else if !o.status.Pending? then (db, NotPending)
      else if Credits(db.topups, id) > 0 then (db, Refused)
      else
        var paid := o.(status := Paid, tradeNo := if tradeNo == [] then o.tradeNo else tradeNo);
        var topup := Topup(o.user, Some(id), o.credit, SourceOr(source));
        var settled := db.(orders := db.orders[id := paid], topups := db.topups + [topup]);
        (RaisedTotal(settled, o.user, o.credit), Credited(topup))
  }

  datatype TopupError = CreditNotPositive | UserNotFound

  /** `AdminManualTopup`: three statements in sequence, not one transaction. */
  function ToppedUp(db: Db, u: UserId, credit: int, withOrder: bool): (Db, Option<TopupError>) {
    if credit <= 0 then (db, Some(CreditNotPositive))
    else
      var ordered := if withOrder then db.(orders := db.orders + [Order(u, credit, Paid, [], [])]) else db;
      if u !in db.users then (ordered, Some(UserNotFound))
      else
        var topup := Topup(u, if withOrder then Some(|db.orders|) else None, credit, "admin");
        (RaisedTotal(ordered, u, credit).(topups := db.topups + [topup]), None)
  }

  // ---------------------------------------------------------------- invariants

  predicate IsPaid(db: Db, id: nat) {
    id < |db.orders| && db.orders[id].status.Paid?
  }

  /** No order has more than one top-up, and only paid ones have any. */
  ghost predicate CreditedAtMostOnce(db: Db) {
    forall id: nat :: Credits(db.topups, id) <= if IsPaid(db, id) then 1 else 0
  }

  /** Paid orders have exactly one top-up, other orders none. */
  ghost predicate CreditedExactlyOnce(db: Db) {
    forall id: nat :: Credits(db.topups, id) == if IsPaid(db, id) then 1 else 0
  }

  /** A top-up for an order is for its user and its amount. */
  predicate TopupMatches(db: Db, t: Topup) {
    t.order.Some? ==>
      && IsPaid(db, t.order.value)
      && db.orders[t.order.value].user == t.user && db.orders[t.order.value].credit == t.credit
  }

  predicate TopupsMatch(db: Db) {
    forall i :: 0 <= i < |db.topups| ==> TopupMatches(db, db.topups[i])
  }

  /** One order for each user and non-empty key. */
  predicate KeysAreUnique(db: Db) {
    forall i, j :: 0 <= i < j < |db.orders| && db.orders[i].key != [] ==>
      !HasKey(db.orders[j], db.orders[i].user, db.orders[i].key)
  }

  function CreditFor(u: UserId, t: Topup): int {
    if t.user == u then t.credit else 0
  }

  /** A user's total without the top-ups. */
  function OwnTotal(db: Db, u: UserId): int
    requires u in db.users
  {
    db.users[u].total - Total(db.topups, CreditFor, u)
  }

  // ---------------------------------------------------------------- every operation keeps them

  lemma CreditsOfMore(topups: seq<Topup>, t: Topup, id: nat)
    ensures Credits(topups + [t], id) == Credits(topups, id) + if t.order == Some(id) then 1 else 0
  {
    assert (topups + [t])[..|topups|] == topups;
  }

  /** Orders are never lost, and a paid order never changes again. */
  predicate OrdersGrow(db: Db, now: Db) {
    && |db.orders| <= |now.orders|
    && forall i :: 0 <= i < |db.orders| ==>
         && now.orders[i].user == db.orders[i].user && now.orders[i].credit == db.orders[i].credit
         && now.orders[i].key == db.orders[i].key
         && (db.orders[i].status.Paid? ==> now.orders[i] == db.orders[i])
  }

  lemma OrderingKeeps(db: Db, o: Order)
    requires !o.status.Paid?
    ensures var now := Ordered(db, o).0;
            && OrdersGrow(db, now) && now.topups == db.topups && now.users == db.users
            && (CreditedAtMostOnce(db) ==> CreditedAtMostOnce(now))
            && (CreditedExactlyOnce(db) ==> CreditedExactlyOnce(now))
            && (TopupsMatch(db) ==> TopupsMatch(now)) && (KeysAreUnique(db) ==> KeysAreUnique(now))
  {
    hide Credits;
    var now := Ordered(db, o).0;
    assert forall id: nat :: IsPaid(now, id) == IsPaid(db, id);
  }

  /** The order a key is answered with is the one asked for under that key, and is on file afterwards. */
  lemma OrderedIsOnFile(db: Db, o: Order)
    ensures var (now, id) := Ordered(db, o);
            && id < |now.orders| && (now == db || now == db.(orders := db.orders + [o]))
            && (now.orders[id] == o || (o.key != [] && HasKey(now.orders[id], o.user, o.key) && now == db))
  {
  }

  lemma PaymentKeeps(db: Db, id: nat, tradeNo: Bytes, source: Bytes)
    requires CreditedAtMostOnce(db)
    ensures var (now, result) := PaidFor(db, id, tradeNo, source);
            && OrdersGrow(db, now) && CreditedAtMostOnce(now)
            && (CreditedExactlyOnce(db) ==> CreditedExactlyOnce(now))
            && (TopupsMatch(db) ==> TopupsMatch(now)) && (KeysAreUnique(db) ==> KeysAreUnique(now))
            && (result.Credited? <==> id < |db.orders| && db.orders[id].status.Pending?)
  {
    var (now, result) := PaidFor(db, id, tradeNo, source);
    if id < |db.orders| && db.orders[id].status.Pending? {
      assert Credits(db.topups, id) == 0 by {
        assert !IsPaid(db, id);
      }
      var topup := Topup(db.orders[id].user, Some(id), db.orders[id].credit, SourceOr(source));
      assert now.topups == db.topups + [topup];
      forall other: nat
        ensures Credits(now.topups, other) == Credits(db.topups, other) + if other == id then 1 else 0
        ensures IsPaid(now, other) <==> IsPaid(db, other) || other == id
      {
        CreditsOfMore(db.topups, topup, other);
      }
      hide Credits;
    }
  }

  /** Paying for an order twice is paying for it once. */
  lemma PaymentIsIdempotent(db: Db, id: nat, tradeNo: Bytes, source: Bytes, tradeNo2: Bytes, source2: Bytes)
    requires CreditedAtMostOnce(db)
    ensures var once := PaidFor(db, id, tradeNo, source).0;
            PaidFor(once, id, tradeNo2, source2)
            == (once, if id >= |once.orders| then NoSuchOrder else if IsPaid(once, id) then AlreadyPaid else NotPending)
  {
    PaymentKeeps(db, id, tradeNo, source);
    hide Credits;
  }

  lemma PaymentMovesTotals(db: Db, id: nat, tradeNo: Bytes, source: Bytes, u: UserId)
    requires u in db.users
    ensures var now := PaidFor(db, id, tradeNo, source).0;
            u in now.users && OwnTotal(now, u) == OwnTotal(db, u)
            && now.users[u] == db.users[u].(total := now.users[u].total)
  {
    hide Credits;
    var (now, result) := PaidFor(db, id, tradeNo, source);
    if result.Credited? {
      TotalOfMore(db.topups, result.topup, CreditFor, u);
    }
  }

  lemma ToppingUpKeeps(db: Db, u: UserId, credit: int, withOrder: bool)
    requires CreditedAtMostOnce(db)
    ensures var now := ToppedUp(db, u, credit, withOrder).0;
            && OrdersGrow(db, now) && CreditedAtMostOnce(now)
            && (TopupsMatch(db) ==> TopupsMatch(now)) && (KeysAreUnique(db) ==> KeysAreUnique(now))
  {
    var now := ToppedUp(db, u, credit, withOrder).0;
    var order := if withOrder then Some(|db.orders|) else None;
    forall id: nat
      ensures Credits(now.topups, id) <= Credits(db.topups, id) + if order == Some(id) then 1 else 0
      ensures IsPaid(db, id) ==> IsPaid(now, id)
    {
      CreditsOfMore(db.topups, Topup(u, order, credit, "admin"), id);
    }
    assert !IsPaid(db, |db.orders|);
    hide Credits;
  }

  /**
   A manual top-up keeps paid orders and top-ups in step unless it fails half way: with an order, for a user
   that does not exist, the paid order stays without its top-up.
   */
  lemma ToppingUpIsWholeIff(db: Db, u: UserId, credit: int, withOrder: bool)
    requires CreditedExactlyOnce(db)
    ensures CreditedExactlyOnce(ToppedUp(db, u, credit, withOrder).0) <==> !(credit > 0 && withOrder && u !in db.users)
  {
    var now := ToppedUp(db, u, credit, withOrder).0;
    var next := |db.orders|;
    assert Credits(db.topups, next) == 0 by {
      assert !IsPaid(db, next);
    }
    if credit > 0 && u in db.users {
      var topup := Topup(u, if withOrder then Some(next) else None, credit, "admin");
      forall id: nat
        ensures Credits(now.topups, id) == Credits(db.topups, id) + if topup.order == Some(id) then 1 else 0
        ensures IsPaid(now, id) <==> IsPaid(db, id) || topup.order == Some(id)
      {
        CreditsOfMore(db.topups, topup, id);
      }
    } else if credit > 0 && withOrder {
      assert IsPaid(now, next) && Credits(now.topups, next) == 0;
    }
    hide Credits;
  }

  lemma ToppingUpMovesTotals(db: Db, u: UserId, credit: int, withOrder: bool, v: UserId)
    requires v in db.users
    ensures var now := ToppedUp(db, u, credit, withOrder).0;
            v in now.users && OwnTotal(now, v) == OwnTotal(db, v)
            && now.users[v] == db.users[v].(total := now.users[v].total)
  {
    var (now, err) := ToppedUp(db, u, credit, withOrder);
    if err.None? {
      TotalOfMore(db.topups, now.topups[|db.topups|], CreditFor, v);
    }
  }

  // ---------------------------------------------------------------- what a top-up does to admission

  /**
   A top-up never turns away a request that fitted before, unless it makes an unlimited user limited:
   a total of zero or less means no limit, and the credit can lift it above zero.
   */
  lemma TopupHelpsUnlessUnlimited(user: User, credit: int)
    requires credit > 0
    ensures (forall amount :: Fits(user, amount) ==> Fits(user.(total := user.total + credit), amount))
       <==> !(user.total <= 0 < user.total + credit)
  {
    var raised := user.(total := user.total + credit);
    if user.total <= 0 < user.total + credit {
      var amount := raised.total - user.used - user.reserved + 1;
      assert Fits(user, amount) && !Fits(raised, amount);
    }
  }

  // ---------------------------------------------------------------- what is credited

  /** `topup` is the one new row, for this user, order and credit. */
  predicate IsOneMoreTopup(db: Db, now: Db, topup: Topup, u: UserId, order: Option<nat>, credit: int) {
    now.topups == db.topups + [topup] && topup.user == u && topup.order == order && topup.credit == credit
  }

  predicate IsOneMorePaidOrder(db: Db, now: Db, u: UserId, credit: int) {
    && |now.orders| == |db.orders| + 1 && now.orders[..|db.orders|] == db.orders
    && now.orders[|db.orders|].user == u && now.orders[|db.orders|].credit == credit
    && now.orders[|db.orders|].status == Paid
  }

  /** A notified payment credits: the order is paid, has one new top-up of its own, and a known owner has the credit. */
  lemma PaymentCredits(db: Db, id: nat, tradeNo: Bytes, source: Bytes)
    requires id < |db.orders| && db.orders[id].status == Pending && Credits(db.topups, id) == 0
    ensures var (now, result) := PaidFor(db, id, tradeNo, source);
            var o := db.orders[id];
            && |now.orders| == |db.orders| && now.orders[id].status == Paid
            && now.orders[id].tradeNo == (if tradeNo == [] then o.tradeNo else tradeNo)
            && (forall i :: 0 <= i < |db.orders| && i != id ==> now.orders[i] == db.orders[i])
            && result.Credited? && IsOneMoreTopup(db, now, result.topup, o.user, Some(id), o.credit)
            && now.users.Keys == db.users.Keys
            && (forall u :: u in db.users ==>
                 now.users[u] == db.users[u].(total := db.users[u].total + if u == o.user then o.credit else 0))
  {
    hide Credits;
  }

  /** A manual top-up for a known user credits: the total rises, and one top-up is written, with an order if asked. */
  lemma TopupCredits(db: Db, u: UserId, credit: int, withOrder: bool)
    requires u in db.users && credit > 0
    ensures var (now, err) := ToppedUp(db, u, credit, withOrder);
            && err == None
            && now.users == db.users[u := db.users[u].(total := db.users[u].total + credit)]
            && (if withOrder then IsOneMorePaidOrder(db, now, u, credit) else now.orders == db.orders)
            && now.topups != []
            && var order := if withOrder then Some(|db.orders|) else None;
               IsOneMoreTopup(db, now, now.topups[|now.topups| - 1], u, order, credit)
  {
  }
}
