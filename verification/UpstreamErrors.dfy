/** Reading an upstream failure: its class, whether another model may be tried, and how long to cool the account. */
module UpstreamErrors {
  import opened Wrappers
  import opened Streaming

  // Instants and durations are nanoseconds.
  const SECOND := 1_000_000_000
  const DAY := 86400 * SECOND
  const DEFAULT_COOLDOWN := 60 * SECOND

  datatype FailureClass = Timeout | Forbidden | RateLimit | Other

  datatype QuotaKind = NoQuota | RateLimited | ExceededLimit | OutOfCredits

  /** A `resetsAt` value found in the error text, in the order the code looks at them. */
  datatype ResetsValue = Timestamp(at: int) | Number(n: int) | Unreadable

  /** What text matching makes of an error; `mapped` fields are what `MapUpstreamError` sees after truncation. */
  datatype ErrorView = ErrorView(
    failure: FailureClass, quota: QuotaKind, says429: bool,
    mappedKind: QuotaKind, mappedStatus: int,
    resets: seq<ResetsValue>, retryAfter: Option<int>)

  /** Matching an error's text is a parameter of everything that follows. */
  type ErrorReader = UpstreamError -> ErrorView

  // ---------------------------------------------------------------- instants in seconds

  /** The whole seconds RFC 3339 formatting keeps. */
  function Seconds(t: int): int {
    t / SECOND
  }

  /** Formatting and parsing agree on years 0 to 9999 only. */
  predicate Parseable(seconds: int) {
    -62_167_219_200 <= seconds <= 253_402_300_799
  }

  function WrapInt64(x: int): int {
    (x + 0x8000_0000_0000_0000) % 0x1_0000_0000_0000_0000 - 0x8000_0000_0000_0000
  }

  function SaturateInt64(x: int): int {
    if x > 0x7FFF_FFFF_FFFF_FFFF then 0x7FFF_FFFF_FFFF_FFFF
    else if x < -0x8000_0000_0000_0000 then -0x8000_0000_0000_0000
    else x
  }

  // ---------------------------------------------------------------- cooldown length

  /** `parseResetsValue`, as whole seconds. */
  function ParseResetsValue(v: ResetsValue, now: int): Option<int> {
    match v
    case Timestamp(at) => Some(Seconds(at))
    case Number(raw) =>
      var n := if raw > 1_000_000_000_000 then raw / 1000 else raw;
      if n > 1_000_000_000 then Some(n)
      else if 0 < n < 86400 * 7 then Some(Seconds(now + n * SECOND))
      else None
    case Unreadable => None
  }

  function FirstResets(values: seq<ResetsValue>, now: int): Option<int> {
    if values == [] then None
    else
      var first := ParseResetsValue(values[0], now);
      if first.Some? then first else FirstResets(values[1..], now)
  }

  /** `ParseResetsAt`: a stated reset time, else `Retry-After` seconds from now. */
  function ParseResetsAt(v: ErrorView, now: int): Option<int> {
    var stated := FirstResets(v.resets, now);
    if stated.Some? then stated
    else if v.retryAfter.Some? && v.retryAfter.value > 0
    then Some(Seconds(now + WrapInt64(v.retryAfter.value * SECOND)))
    else None
  }

  /** `CooldownDurationForError`. */
  function CooldownFor(v: ErrorView, now: int): (d: int)
    ensures d == 0 || SECOND < d < DAY
  {
    var resets := ParseResetsAt(v, now);
    var stated := if resets.Some? && Parseable(resets.value) then SaturateInt64(resets.value * SECOND - now) else 0;
    if SECOND < stated < DAY then stated
    else if v.quota.RateLimited? || v.quota.ExceededLimit? || v.says429 then DEFAULT_COOLDOWN
    else 0
  }

  /** `IsRetryableUpstreamStatus`. */
  predicate IsRetryable(v: ErrorView) {
    || v.mappedStatus == 429 || v.mappedStatus >= 500
    || v.mappedKind.RateLimited? || v.mappedKind.ExceededLimit?
  }

  // ---------------------------------------------------------------- what a cooldown follows

  /** `r` is the whole second `t` lies in. */
  predicate IsSecondOf(r: int, t: int) {
    r * 1_000_000_000 <= t < (r + 1) * 1_000_000_000
  }

  /**
   The value says second `r`: as a time, as milliseconds or seconds since 1970 after September 2001, or as a wait
   of less than a week.
   */
  predicate Says(v: ResetsValue, now: int, r: int) {
    match v
    case Timestamp(at) => IsSecondOf(r, at)
    case Number(n) =>
      || (n > 1_000_000_000_000 && r > 1_000_000_000 && r * 1000 <= n < (r + 1) * 1000)
      || (1_000_000_000 < n <= 1_000_000_000_000 && r == n)
      || (0 < n < 604_800 && IsSecondOf(r, now + n * 1_000_000_000))
    case Unreadable => false
  }

  /** Values that say no time; the last of them are milliseconds of the one second that is not after it. */
  predicate SaysNothing(v: ResetsValue) {
    || v.Unreadable?
    || (v.Number? && (v.n <= 0 || 604_800 <= v.n <= 1_000_000_000 || 1_000_000_000_000 < v.n < 1_000_000_001_000))
  }

  lemma ValueIsRead(v: ResetsValue, now: int)
    ensures SaysNothing(v) <==> ParseResetsValue(v, now).None?
    ensures forall r: int :: Says(v, now, r) <==> ParseResetsValue(v, now) == Some(r)
  {
    forall r: int ensures Says(v, now, r) <==> ParseResetsValue(v, now) == Some(r) {
      if v.Timestamp? {
        SecondIsUnique(r, v.at);
      } else if v.Number? {
        SecondIsUnique(r, now + v.n * SECOND);
        if v.n > 1_000_000_000_000 {
          assert r == v.n / 1000 <==> r * 1000 <= v.n < (r + 1) * 1000;
        }
      }
    }
  }

  lemma SecondIsUnique(r: int, t: int)
    ensures IsSecondOf(r, t) <==> r == Seconds(t)
  {
  }

  lemma {:induction false} FirstThatSays(values: seq<ResetsValue>, now: int, k: nat, r: int)
    requires k < |values| && Says(values[k], now, r) && forall j :: 0 <= j < k ==> SaysNothing(values[j])
    ensures FirstResets(values, now) == Some(r)
  {
    hide Says, SaysNothing, ParseResetsValue;
    ValueIsRead(values[0], now);
    if k > 0 {
      FirstThatSays(values[1..], now, k - 1, r);
    }
  }

  lemma {:induction false} NoneSays(values: seq<ResetsValue>, now: int)
    requires forall j :: 0 <= j < |values| ==> SaysNothing(values[j])
    ensures FirstResets(values, now) == None
  {
    hide Says, SaysNothing, ParseResetsValue;
    if values != [] {
      ValueIsRead(values[0], now);
      NoneSays(values[1..], now);
    }
  }

  /** Without a usable time: a minute for a rate or usage limit or a 429, else nothing. */
  function WithoutTime(v: ErrorView): int {
    if v.quota in {RateLimited, ExceededLimit} || v.says429 then 60_000_000_000 else 0
  }

  /** The wait until second `r`, if it is more than a second, less than a day, and `r` is of a year that parses. */
  function WaitUntil(r: int, v: ErrorView, now: int): int {
    var wait := r * 1_000_000_000 - now;
    if -62_167_219_200 <= r <= 253_402_300_799 && 1_000_000_000 < wait < 86_400_000_000_000 then wait
    else WithoutTime(v)
  }

  lemma CooldownForReset(v: ErrorView, now: int)
    ensures CooldownFor(v, now)
         == match ParseResetsAt(v, now)
            case Some(r) => WaitUntil(r, v, now)
            case None => WithoutTime(v)
  {
    hide ParseResetsAt;
  }

  /** A cooldown follows the first value that says a time, whatever comes after it. */
  lemma CooldownFollowsReset(v: ErrorView, now: int, k: nat, r: int)
    requires k < |v.resets| && Says(v.resets[k], now, r) && forall j :: 0 <= j < k ==> SaysNothing(v.resets[j])
    ensures CooldownFor(v, now) == WaitUntil(r, v, now)
  {
    FirstThatSays(v.resets, now, k, r);
    CooldownForReset(v, now);
    hide Says, SaysNothing, FirstResets, CooldownFor, WaitUntil;
  }

  /** When no value says one, it follows `Retry-After`; its seconds overflow 64 bits only beyond 292 years. */
  lemma CooldownFollowsRetryAfter(v: ErrorView, now: int, n: int, r: int)
    requires (forall j :: 0 <= j < |v.resets| ==> SaysNothing(v.resets[j])) && v.retryAfter == Some(n)
    requires 0 < n <= 9_223_372_036 && IsSecondOf(r, now + n * 1_000_000_000)
    ensures CooldownFor(v, now) == WaitUntil(r, v, now)
  {
    NoneSays(v.resets, now);
    CooldownForReset(v, now);
    SecondIsUnique(r, now + n * SECOND);
    hide SaysNothing, FirstResets, CooldownFor, WaitUntil;
  }

  /** And when that is missing too, it is a minute for a limit and nothing for any other error. */
  lemma CooldownWithoutTime(v: ErrorView, now: int)
    requires forall j :: 0 <= j < |v.resets| ==> SaysNothing(v.resets[j])
    requires v.retryAfter.None? || v.retryAfter.value <= 0
    ensures CooldownFor(v, now) == WithoutTime(v)
  {
    NoneSays(v.resets, now);
    CooldownForReset(v, now);
    hide SaysNothing, FirstResets, CooldownFor;
  }
}
