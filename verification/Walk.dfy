/**
 The failover walk, as the log of its upstream calls. `Log` says which logs the walk can leave
 before a given attempt on a given model of the chain; the rest is proved of every such log.
 */
module Walks {
  import opened Wrappers
  import opened Bytes
  import opened Streaming
  import opened UpstreamErrors
  import opened Accounts
  import opened Routing
  import opened Scheduling

  const MAX_ATTEMPTS := 3

  /** Routing, error reading, and the clock at each attempt's pick and at its health update. */
  datatype Setting = Setting(table: Table, read: ErrorReader, pickAt: (nat, nat) -> int, noteAt: (nat, nat) -> int)

  /** One upstream call: which model of the chain, which attempt, on which account as picked, and what came back. */
  datatype Call = Call(model: nat, attempt: nat, account: Account, result: Option<UpstreamError>)

  /** The accounts after these calls were noted. */
  function After(env: Setting, pool: seq<Account>, calls: seq<Call>): seq<Account> {
    if calls == [] then pool
    else
      var last := calls[|calls| - 1];
      Note(After(env, pool, calls[..|calls| - 1]),
           last.account.id, last.result, env.read, env.noteAt(last.model, last.attempt))
  }

  /** The call failed before its first byte, so the walk goes on. */
  predicate GoesOn(c: Call) {
    c.result.Some? && !c.result.value.firstByteSent
  }

  predicate AllGoOn(calls: seq<Call>) {
    forall i :: 0 <= i < |calls| ==> GoesOn(calls[i])
  }

  predicate LastIsRetryable(env: Setting, calls: seq<Call>) {
    calls != [] && calls[|calls| - 1].result.Some? && IsRetryable(env.read(calls[|calls| - 1].result.value))
  }

  predicate IsCallOf(calls: seq<Call>, model: nat, attempt: nat) {
    calls != [] && calls[|calls| - 1].model == model && calls[|calls| - 1].attempt == attempt
  }

  /** The calls before the one this attempt made, if it made one. */
  function Earlier(calls: seq<Call>, model: nat, attempt: nat): seq<Call> {
    if IsCallOf(calls, model, attempt) then calls[..|calls| - 1] else calls
  }

  /** The pick of this attempt, after these calls. */
  ghost function PickAfter(env: Setting, chain: seq<Bytes>, pool: seq<Account>, calls: seq<Call>, model: nat,
                           attempt: nat): Option<Account>
    requires model < |chain|
  {
    PickFrom(env.table, After(env, pool, calls), attempt, chain[model], env.pickAt(model, attempt))
  }

  /** `calls` is what the walk did before attempt `attempt` on model `model`. */
  ghost predicate Log(env: Setting, chain: seq<Bytes>, pool: seq<Account>, calls: seq<Call>, model: nat, attempt: nat)
    decreases model, attempt
  {
    if attempt == 0 then
      if model == 0 then calls == []
      else Log(env, chain, pool, calls, model - 1, MAX_ATTEMPTS) && AllGoOn(calls) && LastIsRetryable(env, calls)
    else
      var earlier := Earlier(calls, model, attempt - 1);
      && model < |chain| && attempt <= MAX_ATTEMPTS
      && Log(env, chain, pool, earlier, model, attempt - 1) && AllGoOn(earlier)
      && PickAfter(env, chain, pool, earlier, model, attempt - 1)
         == if earlier == calls then None else Some(calls[|calls| - 1].account)
  }

  /** The walk is over: served, cut after its first byte, or out of models it may try. */
  predicate Over(env: Setting, chain: seq<Bytes>, calls: seq<Call>, model: nat, attempt: nat) {
    || (calls != [] && !GoesOn(calls[|calls| - 1]))
    || (attempt == MAX_ATTEMPTS && (model + 1 >= |chain| || !LastIsRetryable(env, calls)))
  }

  // ---------------------------------------------------------------- shape of a log

  predicate Precedes(c: Call, model: nat, attempt: nat) {
    c.model < model || (c.model == model && c.attempt < attempt)
  }

  /** Calls come in order, at most one an attempt, and every one but the last failed before its first byte. */
  lemma {:induction false} LogShape(env: Setting, chain: seq<Bytes>, pool: seq<Account>, calls: seq<Call>, model: nat,
                                    attempt: nat)
    requires Log(env, chain, pool, calls, model, attempt)
    ensures |calls| <= MAX_ATTEMPTS * model + attempt
    ensures attempt > 0 ==> model < |chain| && attempt <= MAX_ATTEMPTS
    ensures forall i :: 0 <= i < |calls| ==> Precedes(calls[i], model, attempt) && calls[i].attempt < MAX_ATTEMPTS
    ensures forall i, j :: 0 <= i < j < |calls| ==> Precedes(calls[i], calls[j].model, calls[j].attempt)
    ensures calls != [] ==> AllGoOn(calls[..|calls| - 1])
    decreases model, attempt
  {
    hide PickAfter, After, LastIsRetryable;
    if attempt > 0 {
      var earlier := Earlier(calls, model, attempt - 1);
      LogShape(env, chain, pool, earlier, model, attempt - 1);
      assert calls == earlier || calls == earlier + [calls[|calls| - 1]];
    } else if model > 0 {
      LogShape(env, chain, pool, calls, model - 1, MAX_ATTEMPTS);
    }
  }

  /** Never more than three calls a model. */
  lemma CallsAreBounded(env: Setting, chain: seq<Bytes>, pool: seq<Account>, calls: seq<Call>, model: nat, attempt: nat)
    requires Log(env, chain, pool, calls, model, attempt) && attempt > 0
    ensures |calls| <= 3 * |chain|
  {
    LogShape(env, chain, pool, calls, model, attempt);
  }

  /** The error is a 429, a server error or a limit, as a client is told. */
  predicate MayPassElsewhere(v: ErrorView) {
    v.mappedStatus == 429 || v.mappedStatus >= 500 || v.mappedKind in {RateLimited, ExceededLimit}
  }

  /**
   The first `n` calls are those of earlier models than `later`, and the last of them failed before its first byte
   with an error that may pass on another model.
   */
  predicate FallsBack(env: Setting, calls: seq<Call>, later: nat, n: nat) {
    && 0 < n <= |calls|
    && AllGoOn(calls[..n])
    && calls[n - 1].result.Some? && MayPassElsewhere(env.read(calls[n - 1].result.value))
    && (forall i :: 0 <= i < n ==> calls[i].model < later)
    && (forall i :: n <= i < |calls| ==> calls[i].model >= later)
  }

  /** Every later model the walk reached, it reached through a retryable latest error. */
  lemma {:induction false} LaterModelNeedsRetryableError(
      env: Setting, chain: seq<Bytes>, pool: seq<Account>, calls: seq<Call>, model: nat, attempt: nat, later: nat)
    returns (n: nat)
    requires Log(env, chain, pool, calls, model, attempt) && 0 < later <= model
    ensures FallsBack(env, calls, later, n)
    decreases model, attempt
  {
    hide PickAfter, After, LastIsRetryable, AllGoOn;
    LogShape(env, chain, pool, calls, model, attempt);
    if attempt > 0 {
      var earlier := Earlier(calls, model, attempt - 1);
      n := LaterModelNeedsRetryableError(env, chain, pool, earlier, model, attempt - 1, later);
      hide Log;
      assert calls[..n] == earlier[..n];
    } else if later < model {
      n := LaterModelNeedsRetryableError(env, chain, pool, calls, model - 1, MAX_ATTEMPTS, later);
    } else {
      n := |calls|;
      assert calls[..n] == calls;
      LastMayPass(env, calls);
    }
  }

  lemma LastMayPass(env: Setting, calls: seq<Call>)
    ensures LastIsRetryable(env, calls)
       <==> calls != [] && calls[|calls| - 1].result.Some?
            && MayPassElsewhere(env.read(calls[|calls| - 1].result.value))
  {
  }

  /** Where attempt `a` of model `m` stands in the log: `n` calls before it, and its own unless nobody was picked. */
  ghost predicate AttemptIsAt(env: Setting, chain: seq<Bytes>, pool: seq<Account>, calls: seq<Call>, m: nat, a: nat,
                              n: nat)
    requires m < |chain|
  {
    && n <= |calls|
    && (forall i :: 0 <= i < n ==> Precedes(calls[i], m, a))
    && match PickAfter(env, chain, pool, calls[..n], m, a)
       case Some(account) => n < |calls| && calls[n] == Call(m, a, account, calls[n].result)
       case None => forall i :: n <= i < |calls| ==> !Precedes(calls[i], m, a + 1)
  }

  /** No attempt is left out: each of three a model called the account picked then, unless none could be picked. */
  lemma {:induction false} EveryAttemptIsMade(
      env: Setting, chain: seq<Bytes>, pool: seq<Account>, calls: seq<Call>, model: nat, attempt: nat, m: nat, a: nat)
    returns (n: nat)
    requires Log(env, chain, pool, calls, model, attempt) && m < |chain|
    requires if m < model then a < 3 else m == model && a < attempt
    ensures AttemptIsAt(env, chain, pool, calls, m, a, n)
    decreases model, attempt
  {
    hide PickAfter, After, LastIsRetryable, AllGoOn;
    LogShape(env, chain, pool, calls, model, attempt);
    if attempt == 0 {
      n := EveryAttemptIsMade(env, chain, pool, calls, model - 1, MAX_ATTEMPTS, m, a);
    } else {
      var earlier := Earlier(calls, model, attempt - 1);
      LogShape(env, chain, pool, earlier, model, attempt - 1);
      if m == model && a == attempt - 1 {
        n := |earlier|;
        assert calls[..n] == earlier;
      } else {
        n := EveryAttemptIsMade(env, chain, pool, earlier, model, attempt - 1, m, a);
        AttemptStays(env, chain, pool, calls, model, attempt - 1, m, a, n);
      }
    }
  }

  lemma AttemptStays(env: Setting, chain: seq<Bytes>, pool: seq<Account>, calls: seq<Call>, model: nat, attempt: nat,
                     m: nat, a: nat, n: nat)
    requires m < |chain| && AttemptIsAt(env, chain, pool, Earlier(calls, model, attempt), m, a, n)
    requires m < model || (m == model && a < attempt)
    ensures AttemptIsAt(env, chain, pool, calls, m, a, n)
  {
    hide PickAfter;
    assert calls[..n] == Earlier(calls, model, attempt)[..n];
  }

  /**
   A walk that is over without a served or cut call gave up where it had to: after three attempts on its last
   model, or on one whose latest error may not pass on another.
   */
  lemma UnservedWalkIsExhausted(env: Setting, chain: seq<Bytes>, pool: seq<Account>, calls: seq<Call>, model: nat,
                                attempt: nat)
    requires Log(env, chain, pool, calls, model, attempt) && Over(env, chain, calls, model, attempt) && AllGoOn(calls)
    ensures attempt == 3
    ensures model + 1 == |chain| || calls == [] || !MayPassElsewhere(env.read(calls[|calls| - 1].result.value))
  {
    LogShape(env, chain, pool, calls, model, attempt);
  }
}
