/** Compensation of broken streams: which logs it looks at, and why a second run credits nothing. */
module Compensations {
  import opened Bytes
  import opened Ledger
  import opened Pricing

  /** How many logs of the user lie at or after position `i`, among the first `n`. */
  function Newer(logs: seq<LogRow>, u: UserId, i: nat, n: nat): nat
    requires i <= n <= |logs|
  {
    if i == n then 0 else Newer(logs, u, i, n - 1) + if logs[n - 1].user == u then 1 else 0
  }

  lemma {:induction false} NewerFromNext(logs: seq<LogRow>, u: UserId, i: nat, n: nat)
    requires i < n <= |logs|
    ensures Newer(logs, u, i, n) == Newer(logs, u, i + 1, n) + if logs[i].user == u then 1 else 0
  {
    if i + 1 < n {
      NewerFromNext(logs, u, i, n - 1);
    }
  }

  /** The window holds a log of the user exactly when fewer than `limit` of the user's logs are newer. */
  lemma {:induction false} WindowIsNewest(logs: seq<LogRow>, u: UserId, n: nat, limit: int, i: nat)
    requires i < n <= |logs|
    ensures i in Window(logs, u, n, limit) <==> logs[i].user == u && (limit < 0 || Newer(logs, u, i + 1, n) < limit)
    decreases n
  {
    WindowIsOfUser(logs, u, n, limit);
    if limit != 0 && i < n - 1 {
      var rest := if logs[n - 1].user == u then limit - 1 else limit;
      WindowIsNewest(logs, u, n - 1, rest, i);
      assert Window(logs, u, n, limit)
          == (if logs[n - 1].user == u then [n - 1] else []) + Window(logs, u, n - 1, rest);
    }
  }

  /** So a compensation looks at the user's newest logs, as many as it is configured to. */
  lemma RecentIsNewest(db: Db, u: UserId, cfg: CompensationConfig, i: nat)
    ensures i in Recent(db, u, cfg)
       <==> && i < |db.logs| && db.logs[i].user == u
            && (cfg.windowSize < 0 || Newer(db.logs, u, i + 1, |db.logs|) < cfg.windowSize)
  {
    if i < |db.logs| {
      WindowIsNewest(db.logs, u, |db.logs|, cfg.windowSize, i);
    }
    hide Window, Newer, CountBroken;
  }

  // ---------------------------------------------------------------- growth of the log table

  /** `now` is `before` with more marks, and no new log of user `u`. */
  ghost predicate GrownAround(before: seq<LogRow>, now: seq<LogRow>, u: UserId) {
    && Immutable(before, now)
    && forall i :: |before| <= i < |now| ==> now[i].user != u
  }

  /** Every log of `before` is still there, changed at most by having been compensated. */
  ghost predicate Immutable(before: seq<LogRow>, now: seq<LogRow>) {
    && |before| <= |now|
    && (forall i :: 0 <= i < |before| ==> now[i] == before[i].(compensated := now[i].compensated))
    && (forall i :: 0 <= i < |before| && before[i].compensated ==> now[i].compensated)
  }

  lemma {:induction false} SameWindow(before: seq<LogRow>, now: seq<LogRow>, u: UserId, n: nat, limit: int)
    requires GrownAround(before, now, u) && n <= |now|
    ensures Window(now, u, n, limit) == Window(before, u, if n <= |before| then n else |before|, limit)
  {
    if n > 0 && limit != 0 {
      var rest := if now[n - 1].user == u then limit - 1 else limit;
      SameWindow(before, now, u, n - 1, rest);
    }
  }

  lemma {:induction false} SameCount(before: seq<LogRow>, now: seq<LogRow>, ids: seq<nat>)
    requires Immutable(before, now) && forall k :: 0 <= k < |ids| ==> ids[k] < |before|
    ensures CountBroken(now, ids) == CountBroken(before, ids)
  {
    if ids != [] {
      SameCount(before, now, ids[..|ids| - 1]);
    }
  }

  // ---------------------------------------------------------------- a repeated compensation

  /** Every broken log among these is compensated. */
  predicate NoneOwed(logs: seq<LogRow>, ids: seq<nat>)
    requires forall k :: 0 <= k < |ids| ==> ids[k] < |logs|
  {
    forall k :: 0 <= k < |ids| && logs[ids[k]].broken ==> logs[ids[k]].compensated
  }

  /** A compensation now would credit nothing: it is not due, or it finds nothing uncompensated. */
  predicate Quiet(db: Db, u: UserId, cfg: CompensationConfig) {
    var w := Recent(db, u, cfg);
    !Triggers(cfg, CountBroken(db.logs, w), |w|) || NoneOwed(db.logs, w)
  }

  lemma {:induction false} NothingOwed(logs: seq<LogRow>, ids: seq<nat>)
    requires forall k :: 0 <= k < |ids| ==> ids[k] < |logs|
    requires NoneOwed(logs, ids)
    ensures Owed(logs, ids) == []
  {
    if ids != [] {
      NothingOwed(logs, ids[..|ids| - 1]);
    }
  }

  lemma QuietCreditsNothing(db: Db, u: UserId, cfg: CompensationConfig)
    requires Quiet(db, u, cfg)
    ensures Compensated(db, u, cfg).1.credited == 0 && Compensated(db, u, cfg).1.compensatedCount == 0
  {
    hide Recent, Rate, Owed;
    var w := Recent(db, u, cfg);
    if NoneOwed(db.logs, w) {
      NothingOwed(db.logs, w);
    }
  }

  lemma CompensationOnlyMarks(db: Db, u: UserId, cfg: CompensationConfig, v: UserId)
    ensures GrownAround(db.logs, Compensated(db, u, cfg).0.logs, v)
  {
    hide Recent, Rate, WithCredit;
    CreditedLogs(db, u, cfg);
  }

  lemma CreditedLogs(db: Db, u: UserId, cfg: CompensationConfig)
    ensures var w := Recent(db, u, cfg);
            Compensated(db, u, cfg).0.logs
            == if Triggers(cfg, CountBroken(db.logs, w), |w|) then Marked(db.logs, Owed(db.logs, w)) else db.logs
  {
    hide Recent, Rate;
  }

  /** After a compensation, the same compensation is quiet. */
  lemma QuietAfterwards(db: Db, u: UserId, cfg: CompensationConfig)
    ensures Quiet(Compensated(db, u, cfg).0, u, cfg)
  {
    var after := Compensated(db, u, cfg).0;
    var w := Recent(db, u, cfg);
    CompensationOnlyMarks(db, u, cfg, u);
    SameRecent(db, after, u, cfg);
    CreditedLogs(db, u, cfg);
    hide Recent, Rate, Compensated;
  }

  lemma SameRecent(db: Db, now: Db, u: UserId, cfg: CompensationConfig)
    requires GrownAround(db.logs, now.logs, u)
    ensures Recent(now, u, cfg) == Recent(db, u, cfg)
    ensures CountBroken(now.logs, Recent(now, u, cfg)) == CountBroken(db.logs, Recent(db, u, cfg))
  {
    SameWindow(db.logs, now.logs, u, |now.logs|, cfg.windowSize);
    SameCount(db.logs, now.logs, Recent(db, u, cfg));
  }

  /** Quiet until the user has a new log: nothing else can make the same compensation credit again. */
  lemma QuietSurvives(db: Db, now: Db, u: UserId, cfg: CompensationConfig)
    requires Quiet(db, u, cfg) && GrownAround(db.logs, now.logs, u)
    ensures Quiet(now, u, cfg)
  {
    SameRecent(db, now, u, cfg);
    hide Recent, Rate;
  }

  // ---------------------------------------------------------------- when a compensation fires, and for what

  /** The broken ones among these logs. */
  function BrokenAmong(logs: seq<LogRow>, ids: seq<nat>): set<nat>
    requires forall k :: 0 <= k < |ids| ==> ids[k] < |logs|
  {
    set i | i in ids && logs[i].broken
  }

  lemma {:induction false} BrokenAreCounted(logs: seq<LogRow>, ids: seq<nat>)
    requires forall k :: 0 <= k < |ids| ==> ids[k] < |logs|
    requires forall k, l :: 0 <= k < l < |ids| ==> ids[l] < ids[k]
    ensures CountBroken(logs, ids) == |BrokenAmong(logs, ids)|
  {
    if ids != [] {
      var front, last := ids[..|ids| - 1], ids[|ids| - 1];
      BrokenAreCounted(logs, front);
      assert last !in front;
      assert forall i :: i in ids <==> i in front || i == last;
      if logs[last].broken {
        assert BrokenAmong(logs, ids) == BrokenAmong(logs, front) + {last};
      } else {
        assert BrokenAmong(logs, ids) == BrokenAmong(logs, front);
      }
    }
  }

  /** `broken` of `total` make at least this share. Of nothing, the share is zero. */
  predicate IsShare(broken: nat, total: nat, share: real) {
    if total == 0 then share <= 0.0 else broken as real >= share * total as real
  }

  /** A compensation fires exactly when enough of the window is broken, in number and in proportion. */
  lemma CompensationFiresIff(db: Db, u: UserId, cfg: CompensationConfig)
    ensures var w := Recent(db, u, cfg);
            var broken := |BrokenAmong(db.logs, w)|;
            var result := Compensated(db, u, cfg).1;
            && result.brokenCount == broken && result.totalCount == |w|
            && (result.triggered <==> broken >= cfg.minBroken && IsShare(broken, |w|, cfg.threshold))
  {
    var w := Recent(db, u, cfg);
    CompensationIs(db, u, cfg);
    BrokenAreCounted(db.logs, w);
    RateIs(CountBroken(db.logs, w), |w|, cfg.threshold);
    hide Recent, Rate, Owed, Marked, CountBroken, Compensated, BrokenAmong, IsShare;
  }

  /** Then it marks the broken logs of the window and no others; otherwise it changes nothing. */
  lemma CompensationMarksBroken(db: Db, u: UserId, cfg: CompensationConfig)
    ensures var (now, result) := Compensated(db, u, cfg);
            var broken := BrokenAmong(db.logs, Recent(db, u, cfg));
            if result.triggered
            then |now.logs| == |db.logs| && forall i :: 0 <= i < |db.logs| ==>
                   now.logs[i] == db.logs[i].(compensated := db.logs[i].compensated || i in broken)
            else now == db && result.credited == 0
  {
    CompensationIs(db, u, cfg);
    OwedAreMarked(db.logs, Recent(db, u, cfg));
    hide Recent, Rate, Owed, Marked, CountBroken, Compensated, BrokenAmong, Triggers;
  }

  lemma CompensationIs(db: Db, u: UserId, cfg: CompensationConfig)
    ensures var (now, result) := Compensated(db, u, cfg);
            var w := Recent(db, u, cfg);
            && result.brokenCount == CountBroken(db.logs, w) && result.totalCount == |w|
            && result.triggered == Triggers(cfg, CountBroken(db.logs, w), |w|)
            && (if result.triggered then now.logs == Marked(db.logs, Owed(db.logs, w))
                else now == db && result.credited == 0)
  {
    hide Recent, Rate, CountBroken, Owed, Marked;
  }

  lemma RateIs(broken: nat, total: nat, threshold: real)
    requires broken <= total
    ensures Rate(broken, total) >= threshold <==> IsShare(broken, total, threshold)
  {
    if total > 0 {
      var t := total as real;
      assert Rate(broken, total) * t == broken as real;
      if Rate(broken, total) >= threshold {
        assert (Rate(broken, total) - threshold) * t >= 0.0;
      } else {
        assert (threshold - Rate(broken, total)) * t > 0.0;
      }
    }
  }

  lemma OwedAreMarked(logs: seq<LogRow>, w: seq<nat>)
    requires forall k :: 0 <= k < |w| ==> w[k] < |logs|
    ensures |Marked(logs, Owed(logs, w))| == |logs|
    ensures forall i :: 0 <= i < |logs| ==>
      Marked(logs, Owed(logs, w))[i]
      == logs[i].(compensated := logs[i].compensated || i in BrokenAmong(logs, w))
  {
    var owed := Owed(logs, w);
    forall i | 0 <= i < |logs|
      ensures logs[i].compensated || (i in owed <==> i in BrokenAmong(logs, w))
    {
      if i in owed {
        var k :| 0 <= k < |owed| && owed[k] == i;
      }
      if i in w {
        var k :| 0 <= k < |w| && w[k] == i;
      }
    }
  }

  predicate AreCuts(logs: seq<LogRow>, w: seq<nat>) {
    forall k :: 0 <= k < |w| ==>
      w[k] < |logs| && logs[w[k]].broken && !logs[w[k]].compensated && logs[w[k]].cost == 50
  }

  lemma {:induction false} CutsAreOwed(logs: seq<LogRow>, w: seq<nat>)
    requires AreCuts(logs, w)
    ensures Owed(logs, w) == w
  {
    if w != [] {
      var front := w[..|w| - 1];
      CutsAreOwed(logs, front);
      assert w == front + [w[|w| - 1]];
    }
  }

  lemma {:induction false} CutsAdd(logs: seq<LogRow>, w: seq<nat>)
    requires AreCuts(logs, w)
    ensures SumOfLogs(logs, w) == 50 * |w| && CountBroken(logs, w) == |w|
  {
    if w != [] {
      CutsAdd(logs, w[..|w| - 1]);
    }
  }

  /** The log of a cut stream. */
  ghost predicate IsCutLog(r: LogRow) {
    exists u: UserId, model: Bytes :: r == RowOf(FailureLog(u, model, true))
  }

  /** A user whose recent calls were all cut has each of them credited at what it was charged, 50 units. */
  lemma CutsAreCredited(db: Db, u: UserId, cfg: CompensationConfig)
    requires var w := Recent(db, u, cfg);
             && w != [] && |w| >= cfg.minBroken && cfg.threshold <= 1.0
             && forall k :: 0 <= k < |w| ==> IsCutLog(db.logs[w[k]])
    ensures Compensated(db, u, cfg).1.triggered
    ensures Compensated(db, u, cfg).1.credited == 50 * |Recent(db, u, cfg)|
  {
    var w := Recent(db, u, cfg);
    hide Recent, WithCredit, Owed, Marked, SumOfLogs, CountBroken;
    CutLogsAreCuts(db.logs, w);
    hide IsCutLog, AreCuts;
    CutsAreOwed(db.logs, w);
    CutsAdd(db.logs, w);
    RateIs(|w|, |w|, cfg.threshold);
    WholeIsShare(|w|, cfg.threshold);
    hide Rate, IsShare;
  }

  lemma CutLogsAreCuts(logs: seq<LogRow>, w: seq<nat>)
    requires forall k :: 0 <= k < |w| ==> w[k] < |logs| && IsCutLog(logs[w[k]])
    ensures AreCuts(logs, w)
  {
  }

  lemma WholeIsShare(n: nat, share: real)
    requires n > 0 && share <= 1.0
    ensures IsShare(n, n, share)
  {
    assert (1.0 - share) * n as real >= 0.0;
  }

  /** Neither a success nor a plain failure, which costs nothing, is ever marked or credited. */
  lemma OnlyCutsAreCredited(db: Db, u: UserId, cfg: CompensationConfig, i: nat)
    requires i < |db.logs|
    requires || (exists v: UserId, model: Bytes, n: int, rate: BilledRate ::
                   db.logs[i] == RowOf(SuccessLog(v, model, n, rate)))
             || (exists v: UserId, model: Bytes :: db.logs[i] == RowOf(FailureLog(v, model, false)))
    ensures |Compensated(db, u, cfg).0.logs| == |db.logs| && Compensated(db, u, cfg).0.logs[i] == db.logs[i]
  {
    hide Cost, Recent;
    CompensationMarksBroken(db, u, cfg);
    hide Compensated;
    assert !db.logs[i].broken;
  }

  lemma FailureCostsNothing(u: UserId, model: Bytes)
    ensures RowOf(FailureLog(u, model, false)).cost == 0 && RowOf(FailureLog(u, model, true)).cost == 50
  {
  }
}
