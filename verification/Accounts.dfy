/** Upstream accounts and the health rules: counters, cooldowns, auto-pause and the reaper. */
module Accounts {
  import opened Wrappers
  import opened Bytes
  import opened Streaming
  import opened UpstreamErrors

  const TIMEOUT_PAUSE := 3
  const FORBIDDEN_PAUSE := 2
  const RATE_LIMIT_PAUSE := 3
  const TIMEOUT_COOLDOWN := 5 * 60 * SECOND
  const FORBIDDEN_COOLDOWN := 15 * 60 * SECOND
  const RATE_LIMIT_COOLDOWN := 60 * SECOND

  /** The `CooldownUntil` text: empty, only white space, an RFC 3339 stamp (perhaps padded), or anything else. */
  datatype Cooldown = Unset | Spaces | Stamp(at: int, padded: bool) | Garbled

  datatype Account = Account(
    id: Bytes, provider: Bytes, priority: int, healthy: bool, cooldown: Cooldown,
    lastError: Bytes, timeouts: int, forbidden: int, limited: int)

  /** Ids are the primary key of the accounts table. */
  ghost predicate ValidPool(accounts: seq<Account>) {
    && (forall i :: 0 <= i < |accounts| ==> accounts[i].id != [])
    && (forall i, j :: 0 <= i < j < |accounts| ==> accounts[i].id != accounts[j].id)
  }

  // ---------------------------------------------------------------- who may be picked

  predicate Schedulable(a: Account, now: int) {
    a.healthy && (a.cooldown.Stamp? ==> a.cooldown.at <= now)
  }

  predicate HasCooldown(a: Account) {
    a.cooldown.Stamp? || a.cooldown.Garbled?
  }

  const FAR_FUTURE := 0x4000_0000_0000_0000 * SECOND

  /** `cooldownExpiry`. */
  function Expiry(a: Account): int {
    if a.cooldown.Stamp? then a.cooldown.at else FAR_FUTURE
  }

  /** What RFC 3339 formatting keeps of an instant. */
  function StampOf(t: int): Cooldown {
    Stamp(Seconds(t) * SECOND, false)
  }

  // ---------------------------------------------------------------- one result

  function CapError(text: Bytes): Bytes {
    if |text| > 240 then text[..240] + "..." else text
  }

  function NoteSuccess(a: Account): Account {
    a.(timeouts := 0, forbidden := 0, limited := 0, lastError := [], cooldown := Unset)
  }

  function Pause(a: Account, cooldown: int, now: int): Account {
    a.(healthy := false, cooldown := if a.cooldown.Unset? then StampOf(now + cooldown) else a.cooldown)
  }

  /** The soft cooldown every rate limit sets. */
  function RateLimitPeriod(v: ErrorView, now: int): int {
    var stated := CooldownFor(v, now);
    if stated <= 0 then RATE_LIMIT_COOLDOWN else stated
  }

  function NoteFailure(a: Account, text: Bytes, v: ErrorView, now: int): Account {
    var b := a.(lastError := CapError(text));
    match v.failure
    case Timeout =>
      var c := b.(timeouts := b.timeouts + 1);
      if c.timeouts >= TIMEOUT_PAUSE then Pause(c, TIMEOUT_COOLDOWN, now) else c
    case Forbidden =>
      var c := b.(forbidden := b.forbidden + 1);
      if c.forbidden >= FORBIDDEN_PAUSE then Pause(c, FORBIDDEN_COOLDOWN, now) else c
    case RateLimit =>
      var c := b.(limited := b.limited + 1, cooldown := StampOf(now + RateLimitPeriod(v, now)));
      if c.limited >= RATE_LIMIT_PAUSE then c.(healthy := false) else c
    case Other => b
  }

  function NoteOne(a: Account, result: Option<UpstreamError>, read: ErrorReader, now: int): Account {
    match result
    case None => NoteSuccess(a)
    case Some(err) => NoteFailure(a, err.text, read(err), now)
  }

  function IndexOfAccount(accounts: seq<Account>, id: Bytes): (i: nat)
    ensures i <= |accounts| && forall k :: 0 <= k < i ==> accounts[k].id != id
    ensures i < |accounts| ==> accounts[i].id == id
  {
    if accounts == [] || accounts[0].id == id then 0 else 1 + IndexOfAccount(accounts[1..], id)
  }

  /** `NoteUpstreamResult` on the whole pool. */
  function Note(accounts: seq<Account>, id: Bytes, result: Option<UpstreamError>, read: ErrorReader,
                now: int): seq<Account> {
    var i := IndexOfAccount(accounts, id);
    if id == [] || i == |accounts| then accounts else accounts[i := NoteOne(accounts[i], result, read, now)]
  }

  // ---------------------------------------------------------------- the reaper

  /** Unhealthy, with a cooldown that parses without trimming and is not after now. */
  predicate Reapable(a: Account, now: int) {
    !a.healthy && a.cooldown.Stamp? && !a.cooldown.padded && a.cooldown.at <= now
  }

  function Reenabled(a: Account): Account {
    a.(healthy := true, cooldown := Unset, timeouts := 0, forbidden := 0, limited := 0, lastError := [])
  }

  function Reap(accounts: seq<Account>, now: int): seq<Account> {
    seq(|accounts|, i requires 0 <= i < |accounts| =>
      if Reapable(accounts[i], now) then Reenabled(accounts[i]) else accounts[i])
  }

  function ReapCount(accounts: seq<Account>, now: int): nat {
    if accounts == [] then 0
    else ReapCount(accounts[..|accounts| - 1], now) + if Reapable(accounts[|accounts| - 1], now) then 1 else 0
  }

  // ---------------------------------------------------------------- the operator's switch

  /** `SetAccountHealth` on the whole pool: enabling also clears the cooldown, the counters stay. */
  function SwitchHealth(accounts: seq<Account>, id: Bytes, healthy: bool): seq<Account> {
    var i := IndexOfAccount(accounts, id);
    if i == |accounts| then accounts
    else accounts[i := accounts[i].(healthy := healthy, cooldown := if healthy then Unset else accounts[i].cooldown)]
  }

  // ---------------------------------------------------------------- what one result means

  /** Only the named account changes, and it keeps its identity, provider and tier. */
  lemma NoteTouchesOnlyItsAccount(accounts: seq<Account>, id: Bytes, result: Option<UpstreamError>, read: ErrorReader,
                                  now: int)
    ensures var after := Note(accounts, id, result, read, now);
            && |after| == |accounts|
            && (forall i :: 0 <= i < |accounts| ==>
                  && after[i].id == accounts[i].id && after[i].provider == accounts[i].provider
                  && after[i].priority == accounts[i].priority
                  && (accounts[i].id != id ==> after[i] == accounts[i]))
            && (ValidPool(accounts) ==> ValidPool(after))
  {
  }

  /** A failure never makes its account, or any other, newly schedulable. */
  lemma FailureNeverEnables(accounts: seq<Account>, id: Bytes, err: UpstreamError, read: ErrorReader, now: int, i: nat)
    requires i < |accounts|
    requires Schedulable(Note(accounts, id, Some(err), read, now)[i], now)
    ensures Schedulable(accounts[i], now)
  {
    RateLimitPeriodBounds(read(err), now);
  }

  lemma RateLimitPeriodBounds(v: ErrorView, now: int)
    ensures var at := Seconds(now + RateLimitPeriod(v, now)) * SECOND; now < at < now + DAY
  {
    var d := RateLimitPeriod(v, now);
    assert SECOND < d < DAY;
    var t := now + d;
    assert t == Seconds(t) * SECOND + t % SECOND;
  }

  /**
   A failure pauses a healthy account exactly when it is the third timeout, second 403 or third rate limit in a row.
   It stores the front of its text, and never counts for another class.
   */
  lemma FailurePausesIff(a: Account, text: Bytes, v: ErrorView, now: int)
    ensures var b := NoteFailure(a, text, v, now);
            && (b.healthy <==>
                && a.healthy
                && !(v.failure.Timeout? && a.timeouts >= 2)
                && !(v.failure.Forbidden? && a.forbidden >= 1)
                && !(v.failure.RateLimit? && a.limited >= 2))
            && b.timeouts == a.timeouts + (if v.failure.Timeout? then 1 else 0)
            && b.forbidden == a.forbidden + (if v.failure.Forbidden? then 1 else 0)
            && b.limited == a.limited + (if v.failure.RateLimit? then 1 else 0)
            && (if |text| <= 240 then b.lastError == text else b.lastError == text[..240] + "...")
            && (!v.failure.RateLimit? && b.cooldown != a.cooldown ==> a.cooldown.Unset? && !b.healthy)
  {
    hide StampOf, RateLimitPeriod;
  }

  /**
   Whatever the error says, a rate-limited account is out at that instant, with a plain stamp
   strictly after now although it is cut to whole seconds, and less than a day away: at the end of the cooldown the
   error asks for, or after a minute. If it was paused too, the reaper brings it back from then on.
   */
  lemma RateLimitedIsOut(a: Account, text: Bytes, v: ErrorView, now: int, later: int)
    requires v.failure.RateLimit?
    ensures var b := NoteFailure(a, text, v, now);
            && !Schedulable(b, now) && b.cooldown.Stamp? && !b.cooldown.padded && now < b.cooldown.at < now + DAY
            && (later >= now + DAY ==> if b.healthy then Schedulable(b, later) else Reapable(b, later))
            && var end := now + if CooldownFor(v, now) > 0 then CooldownFor(v, now) else 60_000_000_000;
               b.cooldown.at <= end < b.cooldown.at + 1_000_000_000
  {
    RateLimitPeriodBounds(v, now);
  }

  /** A reset time the error states, if it is between one second and a day away, is stored to the second. */
  lemma StatedResetIsStored(a: Account, text: Bytes, v: ErrorView, now: int)
    requires v.failure.RateLimit? && ParseResetsAt(v, now).Some?
    requires var reset := ParseResetsAt(v, now).value; Parseable(reset) && SECOND < reset * SECOND - now < DAY
    ensures NoteFailure(a, text, v, now).cooldown == Stamp(ParseResetsAt(v, now).value * SECOND, false)
  {
    var reset := ParseResetsAt(v, now).value;
    assert RateLimitPeriod(v, now) == reset * SECOND - now;
    assert Seconds(reset * SECOND) == reset;
  }

  /**
   The code's comments expect a success to bring an account back. It does so exactly when the
   account was not paused: a paused one leaves every pool, and no reaper run ever finds it.
   */
  lemma SuccessBringsBackOnlyHealthy(a: Account, now: int, later: int)
    ensures var b := NoteSuccess(a);
            && (Schedulable(b, now) <==> a.healthy)
            && (!a.healthy ==> !HasCooldown(b) && !Reapable(b, later))
  {
  }

  /** An account gets there: one rate limit, and two 403s a day later. It is paused and can be reaped at once. */
  lemma StaleStampIsReached(a: Account, limit: ErrorView, first: ErrorView, second: ErrorView, text: Bytes,
                            t0: int, t1: int, t2: int)
    requires Unblemished(a) && limit.failure.RateLimit? && first.failure.Forbidden? && second.failure.Forbidden?
    requires t0 + DAY <= t1 <= t2
    ensures var b := NoteFailure(NoteFailure(a, text, limit, t0), text, first, t1);
            && Schedulable(b, t2)
            && var c := NoteFailure(b, text, second, t2);
               !c.healthy && c.cooldown == b.cooldown && Reapable(c, t2)
  {
    RateLimitedIsOut(a, text, limit, t0, t0);
    hide CapError, RateLimitPeriod, StampOf;
  }

  /**
   A pause for timeouts or 403s starts a new cooldown exactly when none was stored: then it lasts five minutes, or
   fifteen for 403s, cut to whole seconds. A stale one stays as it is, so the reaper may bring the account back at
   once.
   */
  lemma PauseKeepsStaleCooldown(a: Account, text: Bytes, v: ErrorView, now: int)
    requires v.failure.Timeout? || v.failure.Forbidden?
    requires a.healthy && !NoteFailure(a, text, v, now).healthy
    ensures var b := NoteFailure(a, text, v, now);
            && (Reapable(b, now) <==> a.cooldown.Stamp? && !a.cooldown.padded && a.cooldown.at <= now)
            && (!a.cooldown.Unset? ==> b.cooldown == a.cooldown)
            && var end := now + if v.failure.Timeout? then 300_000_000_000 else 900_000_000_000;
               a.cooldown.Unset? ==>
                 b.cooldown.Stamp? && !b.cooldown.padded && b.cooldown.at <= end < b.cooldown.at + 1_000_000_000
  {
  }

  /**
   The reaper brings back exactly the paused accounts whose stored time has come, to full health, and leaves the
   others.
   */
  lemma ReapBringsBackExpired(accounts: seq<Account>, now: int, i: nat)
    requires i < |accounts|
    ensures var a, b := accounts[i], Reap(accounts, now)[i];
            && (b.healthy && !a.healthy <==> Reapable(a, now))
            && (Reapable(a, now) ==> Schedulable(b, now) && Unblemished(b))
            && (!Reapable(a, now) ==> b == a)
            && !Reapable(b, now)
  {
  }

  /**
   The switch changes one account and leaves its counters. An enabled account may be scheduled at every instant,
   a disabled one at none until the reaper brings it back, which it does when a stored stamp has expired.
   */
  lemma SwitchKeepsTheRest(accounts: seq<Account>, id: Bytes, healthy: bool, i: nat, now: int)
    requires ValidPool(accounts) && i < |accounts|
    ensures var a, after := accounts[i], SwitchHealth(accounts, id, healthy);
            && |after| == |accounts| && ValidPool(after)
            && var b := after[i];
               if a.id != id then b == a
               else
                 && b == a.(healthy := healthy, cooldown := b.cooldown)
                 && (healthy ==> Schedulable(b, now) && !Reapable(b, now))
                 && (!healthy ==> !Schedulable(b, now) && b.cooldown == a.cooldown)
                 && (!healthy ==>
                     (Reapable(b, now) <==> a.cooldown.Stamp? && !a.cooldown.padded && a.cooldown.at <= now))
  {
  }

  // ---------------------------------------------------------------- whole histories

  datatype HealthEvent =
    | Result(id: Bytes, result: Option<UpstreamError>, at: int)
    | ReapRun(at: int)
    | Switch(id: Bytes, healthy: bool)

  function HealthStep(accounts: seq<Account>, e: HealthEvent, read: ErrorReader): (r: seq<Account>)
    ensures |r| == |accounts|
  {
    match e
    case Result(id, result, at) => Note(accounts, id, result, read, at)
    case ReapRun(at) => Reap(accounts, at)
    case Switch(id, healthy) => SwitchHealth(accounts, id, healthy)
  }

  function HealthRun(accounts: seq<Account>, events: seq<HealthEvent>, read: ErrorReader): (r: seq<Account>)
    ensures |r| == |accounts|
  {
    if events == [] then accounts
    else HealthStep(HealthRun(accounts, events[..|events| - 1], read), events[|events| - 1], read)
  }

  /** The failures of one class on account `i` since its last success or re-enabling. */
  function FailuresSince(accounts: seq<Account>, i: nat, events: seq<HealthEvent>, read: ErrorReader,
                         failure: FailureClass): nat
    requires i < |accounts|
  {
    if events == [] then 0
    else
      var front := events[..|events| - 1];
      var before := FailuresSince(accounts, i, front, read, failure);
      match events[|events| - 1]
      case Result(id, result, _) =>
        if id != accounts[i].id then before
        else if result.None? then 0
        else if read(result.value).failure == failure then before + 1
        else before
      case ReapRun(at) =>
        if Reapable(HealthRun(accounts, front, read)[i], at) then 0 else before
      case Switch(_, _) => before
  }

  /** The operator enabled account `i` since its last success or re-enabling by the reaper. */
  predicate EnabledByHand(accounts: seq<Account>, i: nat, events: seq<HealthEvent>, read: ErrorReader)
    requires i < |accounts|
  {
    if events == [] then false
    else
      var front := events[..|events| - 1];
      var before := EnabledByHand(accounts, i, front, read);
      match events[|events| - 1]
      case Result(id, result, _) => before && (id != accounts[i].id || result.Some?)
      case ReapRun(at) => before && !Reapable(HealthRun(accounts, front, read)[i], at)
      case Switch(id, healthy) => before || (id == accounts[i].id && healthy)
  }

  predicate Unblemished(a: Account) {
    a.healthy && a.timeouts == 0 && a.forbidden == 0 && a.limited == 0
  }

  predicate ReachedThreshold(a: Account) {
    a.timeouts >= 3 || a.forbidden >= 2 || a.limited >= 3
  }

  /**
   Every counter tells the history, and an account whose counter reached its threshold is paused unless
   the operator enabled it since.
   */
  lemma {:induction false} CountersTellHistory(accounts: seq<Account>, i: nat, events: seq<HealthEvent>,
                                               read: ErrorReader)
    requires ValidPool(accounts) && i < |accounts| && Unblemished(accounts[i])
    ensures var a := HealthRun(accounts, events, read)[i];
            && a.timeouts == FailuresSince(accounts, i, events, read, Timeout)
            && a.forbidden == FailuresSince(accounts, i, events, read, Forbidden)
            && a.limited == FailuresSince(accounts, i, events, read, RateLimit)
            && (ReachedThreshold(a) ==> !a.healthy || EnabledByHand(accounts, i, events, read))
  {
    PoolKeepsIdentity(accounts, events, read);
    if events != [] {
      var front := events[..|events| - 1];
      CountersTellHistory(accounts, i, front, read);
      PoolKeepsIdentity(accounts, front, read);
      var pool := HealthRun(accounts, front, read);
      match events[|events| - 1] {
        case Result(id, result, at) =>
          NoteAt(pool, i, id, result, read, at);
          hide Note, StampOf, CapError, RateLimitPeriod, SwitchHealth, Reap, Reapable;
        case ReapRun(at) =>
          hide Note, NoteOne, NoteFailure, SwitchHealth;
        case Switch(id, healthy) =>
          SwitchKeepsTheRest(pool, id, healthy, i, 0);
          hide SwitchHealth, Note, Reap, Reapable;
      }
    }
  }

  lemma NoteAt(accounts: seq<Account>, i: nat, id: Bytes, result: Option<UpstreamError>, read: ErrorReader, now: int)
    requires ValidPool(accounts) && i < |accounts|
    ensures Note(accounts, id, result, read, now)[i]
         == if id == accounts[i].id then NoteOne(accounts[i], result, read, now) else accounts[i]
  {
  }

  lemma SwitchKeepsIdentity(accounts: seq<Account>, id: Bytes, healthy: bool)
    requires ValidPool(accounts)
    ensures var after := SwitchHealth(accounts, id, healthy);
            && |after| == |accounts| && ValidPool(after)
            && forall i :: 0 <= i < |accounts| ==> after[i].id == accounts[i].id
  {
  }

  lemma {:induction false} PoolKeepsIdentity(accounts: seq<Account>, events: seq<HealthEvent>, read: ErrorReader)
    requires ValidPool(accounts)
    ensures var after := HealthRun(accounts, events, read);
            ValidPool(after) && forall i :: 0 <= i < |accounts| ==> after[i].id == accounts[i].id
  {
    if events != [] {
      var front := events[..|events| - 1];
      PoolKeepsIdentity(accounts, front, read);
      var pool := HealthRun(accounts, front, read);
      match events[|events| - 1] {
        case Result(id, result, at) => NoteTouchesOnlyItsAccount(pool, id, result, read, at);
        case ReapRun(at) =>
        case Switch(id, healthy) => SwitchKeepsIdentity(pool, id, healthy);
      }
    }
  }
}
