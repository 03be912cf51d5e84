/** The rows the money lives in, and what each statement or transaction on quota does to them. */
module Ledger {
  import opened Wrappers
  import opened Bytes
  import opened Pricing

  type UserId = Bytes

  /** One user row. A `total` of zero or less means unlimited. */
  datatype User = User(total: int, used: int, reserved: int, group: Bytes, ratioOverride: int)

  datatype Status = Success | Failed | StreamBroken

  /** One billable attempt, as the handlers see it. */
  datatype UsageLog = UsageLog(
    user: UserId, model: Bytes, tokens: int, parts: TokenCounts, billedAt: BilledRate,
    cost: int, status: Status, broken: bool, compensated: bool)

  /** The columns of a usage row; the total of the parts has no column. */
  datatype LogRow = LogRow(
    user: UserId, model: Bytes, tokens: int, input: int, output: int, cacheRead: int, cacheWrite: int,
    billedAt: BilledRate, cost: int, status: Status, broken: bool, compensated: bool)

  datatype OrderStatus = Pending | Paid | Expired | Cancelled

  datatype Order = Order(user: UserId, credit: int, status: OrderStatus, tradeNo: Bytes, key: Bytes)

  datatype Topup = Topup(user: UserId, order: Option<nat>, credit: int, source: Bytes)

  /** The database. Usage rows and orders are named by their position: identifiers are taken as fresh. */
  datatype Db = Db(
    users: map<UserId, User>, logs: seq<LogRow>, prices: map<Bytes, ModelPrice>, groups: map<Bytes, int>,
    orders: seq<Order>, topups: seq<Topup>)

  function WithUser(db: Db, u: UserId, user: User): Db {
    db.(users := db.users[u := user])
  }

  // ---------------------------------------------------------------- rows and logs

  function RowOf(l: UsageLog): LogRow {
    LogRow(l.user, l.model, l.tokens, l.parts.input, l.parts.output, l.parts.cacheRead, l.parts.cacheWrite,
           l.billedAt, l.cost, l.status, l.broken, l.compensated)
  }

  /** `scanSQLiteUsage`: the total comes back from the tokens column. */
  function Scan(r: LogRow): UsageLog {
    UsageLog(r.user, r.model, r.tokens, TokenCounts(r.input, r.output, r.cacheRead, r.cacheWrite, r.tokens),
             r.billedAt, r.cost, r.status, r.broken, r.compensated)
  }

  /** A log is read back as it was written exactly when its total is its token count. */
  lemma ReadBackIff(l: UsageLog)
    ensures Scan(RowOf(l)) == l <==> l.parts.total == l.tokens
  {
    assert l.parts == TokenCounts(l.parts.input, l.parts.output, l.parts.cacheRead, l.parts.cacheWrite, l.parts.total);
  }

  // ---------------------------------------------------------------- sums

  /** What the rows of a table amount to for one user. */
  function Total<T>(rows: seq<T>, amount: (UserId, T) -> int, u: UserId): int {
    if rows == [] then 0 else Total(rows[..|rows| - 1], amount, u) + amount(u, rows[|rows| - 1])
  }

  lemma TotalOfMore<T>(rows: seq<T>, x: T, amount: (UserId, T) -> int, u: UserId)
    ensures Total(rows + [x], amount, u) == Total(rows, amount, u) + amount(u, x)
  {
    assert (rows + [x])[..|rows|] == rows;
  }

  lemma {:induction false} TotalOfUpdate<T>(rows: seq<T>, i: nat, x: T, amount: (UserId, T) -> int, u: UserId)
    requires i < |rows|
    ensures Total(rows[i := x], amount, u) == Total(rows, amount, u) - amount(u, rows[i]) + amount(u, x)
  {
    var n := |rows| - 1;
    var front, changed := rows[..n], rows[i := x];
    if i == n {
      assert changed[..n] == front;
    } else {
      assert changed[..n] == front[i := x];
      TotalOfUpdate(front, i, x, amount, u);
    }
  }

  lemma {:induction false} TotalIsNonNegative<T>(rows: seq<T>, amount: (UserId, T) -> int, u: UserId)
    requires forall i :: 0 <= i < |rows| ==> amount(u, rows[i]) >= 0
    ensures Total(rows, amount, u) >= 0
    ensures forall i :: 0 <= i < |rows| ==> amount(u, rows[i]) <= Total(rows, amount, u)
  {
    if rows != [] {
      TotalIsNonNegative(rows[..|rows| - 1], amount, u);
    }
  }

  /** What an uncompensated log charges its user. */
  function Charged(u: UserId, r: LogRow): int {
    if r.user == u && !r.compensated then r.cost else 0
  }

  // ---------------------------------------------------------------- quota

  datatype QuotaError = NotFound | QuotaExhausted

  predicate Fits(user: User, amount: int) {
    user.total <= 0 || user.used + user.reserved + amount <= user.total
  }

  /** `ReserveQuota`: the conditional update, and what zero changed rows mean. */
  function Reserved(db: Db, u: UserId, amount: int): (Db, Option<QuotaError>) {
    if amount <= 0 then (db, None)
    else if u !in db.users then (db, Some(NotFound))
    else if Fits(db.users[u], amount) then
      (WithUser(db, u, db.users[u].(reserved := db.users[u].reserved + amount)), None)
    else (db, Some(QuotaExhausted))
  }

  /** The floor at zero of both `CASE` expressions. */
  function Less(x: int, amount: int): int {
    if x > amount then x - amount else 0
  }

  /** `ReleaseQuota`. */
  function Released(db: Db, u: UserId, amount: int): Db {
    if amount <= 0 || u !in db.users then db
    else WithUser(db, u, db.users[u].(reserved := Less(db.users[u].reserved, amount)))
  }

  /** `SettleUsage`: the log row, the charge, and the release of the hold, in one transaction. */
  function Settled(db: Db, l: UsageLog, reserved: int): Db {
    var logged := db.(logs := db.logs + [RowOf(l)]);
    if l.user !in db.users then logged
    else
      var user := db.users[l.user];
      var charged := user.(used := user.used + l.cost);
      WithUser(logged, l.user, if reserved > 0 then charged.(reserved := Less(user.reserved, reserved)) else charged)
  }

  function WithCredit(db: Db, u: UserId, credit: int): Db {
    if u !in db.users then db
    else WithUser(db, u, db.users[u].(used := Less(db.users[u].used, credit)))
  }

  function SetQuotaTotal(db: Db, u: UserId, total: int): (Db, Option<QuotaError>) {
    if u !in db.users then (db, Some(NotFound)) else (WithUser(db, u, db.users[u].(total := total)), None)
  }

  // ---------------------------------------------------------------- compensation

  datatype CompensationConfig = CompensationConfig(threshold: real, windowSize: int, minBroken: int)

  datatype CompensationResult = CompensationResult(
    triggered: bool, brokenCount: nat, totalCount: nat, rate: real, credited: int, compensatedCount: nat)

  /** The newest logs of a user among the first `n`, newest first, at most `limit` of them; a negative limit is none. */
  function Window(logs: seq<LogRow>, u: UserId, n: nat, limit: int): seq<nat>
    requires n <= |logs|
  {
    if n == 0 || limit == 0 then []
    else if logs[n - 1].user == u then [n - 1] + Window(logs, u, n - 1, limit - 1)
    else Window(logs, u, n - 1, limit)
  }

  function CountBroken(logs: seq<LogRow>, ids: seq<nat>): nat
    requires forall k :: 0 <= k < |ids| ==> ids[k] < |logs|
  {
    if ids == [] then 0
    else CountBroken(logs, ids[..|ids| - 1]) + if logs[ids[|ids| - 1]].broken then 1 else 0
  }

  /** The broken logs not yet compensated. */
  function Owed(logs: seq<LogRow>, ids: seq<nat>): (owed: seq<nat>)
    requires forall k :: 0 <= k < |ids| ==> ids[k] < |logs|
    ensures forall k :: 0 <= k < |owed| ==>
      owed[k] < |logs| && owed[k] in ids && logs[owed[k]].broken && !logs[owed[k]].compensated
    ensures forall k :: 0 <= k < |ids| && logs[ids[k]].broken && !logs[ids[k]].compensated ==> ids[k] in owed
  {
    if ids == [] then []
    else
      var last := ids[|ids| - 1];
      var front := Owed(logs, ids[..|ids| - 1]);
      if logs[last].broken && !logs[last].compensated then front + [last] else front
  }

  function SumOfLogs(logs: seq<LogRow>, ids: seq<nat>): int
    requires forall k :: 0 <= k < |ids| ==> ids[k] < |logs|
  {
    if ids == [] then 0 else SumOfLogs(logs, ids[..|ids| - 1]) + logs[ids[|ids| - 1]].cost
  }

  /** `sqliteMarkUsageCompensated`, one update an id. */
  function Marked(logs: seq<LogRow>, ids: seq<nat>): (marked: seq<LogRow>)
    requires forall k :: 0 <= k < |ids| ==> ids[k] < |logs|
    ensures |marked| == |logs|
    ensures forall i :: 0 <= i < |logs| ==> marked[i] == logs[i].(compensated := logs[i].compensated || i in ids)
  {
    if ids == [] then logs
    else
      var last := ids[|ids| - 1];
      var front := Marked(logs, ids[..|ids| - 1]);
      assert forall i :: i in ids <==> i in ids[..|ids| - 1] || i == last;
      front[last := front[last].(compensated := true)]
  }

  function Rate(broken: nat, total: nat): real
    requires broken <= total
  {
    if total == 0 then 0.0 else broken as real / total as real
  }

  predicate Triggers(cfg: CompensationConfig, broken: nat, total: nat)
    requires broken <= total
  {
    broken >= cfg.minBroken && Rate(broken, total) >= cfg.threshold
  }

  /** Logs of the user among the first `n`, newest first. */
  predicate NewestFirst(logs: seq<LogRow>, u: UserId, n: nat, w: seq<nat>)
    requires n <= |logs|
  {
    && (forall k :: 0 <= k < |w| ==> w[k] < n && logs[w[k]].user == u)
    && (forall k, l :: 0 <= k < l < |w| ==> w[l] < w[k])
  }

  lemma OneNewer(logs: seq<LogRow>, u: UserId, n: nat, w: seq<nat>)
    requires n < |logs| && NewestFirst(logs, u, n, w)
    ensures NewestFirst(logs, u, n + 1, w)
    ensures logs[n].user == u ==> NewestFirst(logs, u, n + 1, [n] + w)
  {
    var longer := [n] + w;
    assert forall k :: 0 < k < |longer| ==> longer[k] == w[k - 1];
  }

  lemma {:induction false} WindowIsOfUser(logs: seq<LogRow>, u: UserId, n: nat, limit: int)
    requires n <= |logs|
    ensures NewestFirst(logs, u, n, Window(logs, u, n, limit))
    ensures limit >= 0 ==> |Window(logs, u, n, limit)| <= limit
  {
    if n > 0 && limit != 0 {
      hide NewestFirst;
      var left := if logs[n - 1].user == u then limit - 1 else limit;
      WindowIsOfUser(logs, u, n - 1, left);
      OneNewer(logs, u, n - 1, Window(logs, u, n - 1, left));
    }
  }

  lemma {:induction false} BrokenAreFew(logs: seq<LogRow>, ids: seq<nat>)
    requires forall k :: 0 <= k < |ids| ==> ids[k] < |logs|
    ensures CountBroken(logs, ids) <= |ids|
  {
    if ids != [] {
      BrokenAreFew(logs, ids[..|ids| - 1]);
    }
  }

  /** The logs a compensation looks at. */
  function Recent(db: Db, u: UserId, cfg: CompensationConfig): (w: seq<nat>)
    ensures forall k :: 0 <= k < |w| ==> w[k] < |db.logs| && db.logs[w[k]].user == u
    ensures forall k, l :: 0 <= k < l < |w| ==> w[l] < w[k]
    ensures CountBroken(db.logs, w) <= |w|
  {
    var w := Window(db.logs, u, |db.logs|, cfg.windowSize);
    WindowIsOfUser(db.logs, u, |db.logs|, cfg.windowSize);
    assert NewestFirst(db.logs, u, |db.logs|, w);
    BrokenAreFew(db.logs, w);
    w
  }

  /** `CompensateBrokenStreams`. */
  function Compensated(db: Db, u: UserId, cfg: CompensationConfig): (Db, CompensationResult) {
    var w := Recent(db, u, cfg);
    var broken := CountBroken(db.logs, w);
    if !Triggers(cfg, broken, |w|) then
      (db, CompensationResult(false, broken, |w|, Rate(broken, |w|), 0, 0))
    else
      var owed := Owed(db.logs, w);
      var credit := SumOfLogs(db.logs, owed);
      (WithCredit(db.(logs := Marked(db.logs, owed)), u, credit),
       CompensationResult(true, broken, |w|, Rate(broken, |w|), credit, |owed|))
  }

  // ---------------------------------------------------------------- ratios and prices

  const DEFAULT_RATIO := RATIO_SCALE

  /** The ratio of a group, when it is configured to something positive. */
  function GroupRatio(groups: map<Bytes, int>, group: Bytes): int {
    if group == [] || group !in groups || groups[group] <= 0 then DEFAULT_RATIO else groups[group]
  }

  function RatioFor(ratioOverride: int, group: Bytes, groups: map<Bytes, int>): (ratio: int)
    ensures ratio > 0
  {
    if ratioOverride > 0 then ratioOverride else GroupRatio(groups, group)
  }

  function EffectiveRatio(db: Db, u: UserId): int {
    if u !in db.users then DEFAULT_RATIO else RatioFor(db.users[u].ratioOverride, db.users[u].group, db.groups)
  }

  /** The rate card of a model; an unpriced one is flat. */
  function PriceOf(db: Db, model: Bytes): ModelPrice {
    if model in db.prices then db.prices[model] else FlatPrice(model, RATE_SCALE)
  }

  /** `PriceCall` with nothing else running. */
  function PriceCall(db: Db, u: UserId, model: Bytes, counts: TokenCounts): (int, BilledRate) {
    var rate := RateFor(PriceOf(db, model), EffectiveRatio(db, u));
    (Cost(counts, rate), rate)
  }

  /** The log a successful call leaves. */
  function SuccessLog(u: UserId, model: Bytes, tokens: int, rate: BilledRate): UsageLog {
    var counts := TokenCounts(0, 0, 0, 0, tokens);
    UsageLog(u, model, tokens, counts, rate, Cost(counts, rate), Success, false, false)
  }

  /** What a stream cut after its output began is charged. */
  const BROKEN_COST := 50

  /** The log a failed call leaves. */
  function FailureLog(u: UserId, model: Bytes, broken: bool): UsageLog {
    UsageLog(u, model, 0, TokenCounts(0, 0, 0, 0, 0), BilledRate(0, 0, 0, 0, 0),
             if broken then BROKEN_COST else 0, if broken then StreamBroken else Failed, broken, false)
  }

  // ---------------------------------------------------------------- what compensation does

  /** The credit of a compensation is exactly what its marks take off the charges. */
  lemma {:induction false} MarksAreCredited(logs: seq<LogRow>, ids: seq<nat>, u: UserId)
    requires forall k :: 0 <= k < |ids| ==> ids[k] < |logs| && logs[ids[k]].user == u && !logs[ids[k]].compensated
    requires forall k, l :: 0 <= k < l < |ids| ==> ids[k] != ids[l]
    ensures Total(Marked(logs, ids), Charged, u) == Total(logs, Charged, u) - SumOfLogs(logs, ids)
    ensures forall v :: v != u ==> Total(Marked(logs, ids), Charged, v) == Total(logs, Charged, v)
  {
    if ids != [] {
      var front, last := ids[..|ids| - 1], ids[|ids| - 1];
      MarksAreCredited(logs, front, u);
      var before := Marked(logs, front);
      assert last !in front;
      assert before[last] == logs[last];
      var row := before[last].(compensated := true);
      assert Marked(logs, ids) == before[last := row];
      TotalOfUpdate(before, last, row, Charged, u);
      forall v | v != u ensures Total(Marked(logs, ids), Charged, v) == Total(logs, Charged, v) {
        TotalOfUpdate(before, last, row, Charged, v);
      }
    }
  }

  lemma {:induction false} OwedIsDistinct(logs: seq<LogRow>, ids: seq<nat>)
    requires forall k :: 0 <= k < |ids| ==> ids[k] < |logs|
    requires forall k, l :: 0 <= k < l < |ids| ==> ids[l] < ids[k]
    ensures forall k, l :: 0 <= k < l < |Owed(logs, ids)| ==> Owed(logs, ids)[k] != Owed(logs, ids)[l]
  {
    if ids != [] {
      var front, last := ids[..|ids| - 1], ids[|ids| - 1];
      OwedIsDistinct(logs, front);
      assert last !in front;
    }
  }

  /** The charges of every user after a compensation. */
  lemma CompensationMovesCharges(db: Db, u: UserId, cfg: CompensationConfig)
    ensures var (after, result) := Compensated(db, u, cfg);
            && Total(after.logs, Charged, u) == Total(db.logs, Charged, u) - result.credited
            && (forall v :: v != u ==> Total(after.logs, Charged, v) == Total(db.logs, Charged, v))
  {
    var w := Recent(db, u, cfg);
    hide Recent, Rate;
    if Triggers(cfg, CountBroken(db.logs, w), |w|) {
      OwedIsDistinct(db.logs, w);
      MarksAreCredited(db.logs, Owed(db.logs, w), u);
    }
  }
}
