/** A walk that skips an account: after a rate limit, the next pick by index passes over the next live one. */
module SkippedAccounts {
  import opened Wrappers
  import opened Bytes
  import opened Streaming
  import opened UpstreamErrors
  import opened Accounts
  import opened StableSorting
  import opened Routing
  import opened Scheduling
  import opened Walks
  import opened WalkPositions
  import opened Relaying

  /** Three healthy accounts of one tier, and no routes. */
  predicate ThreeAlike(t: Table, a: Account, b: Account, c: Account) {
    && t.routes == []
    && a.healthy && b.healthy && c.healthy && a.cooldown.Unset? && b.cooldown.Unset? && c.cooldown.Unset?
    && a.priority == b.priority == c.priority
    && a.id != [] && b.id != [] && c.id != [] && a.id != b.id && b.id != c.id && a.id != c.id
  }

  /** A rate limit before the first byte. */
  predicate IsRateLimit(env: Setting, err: UpstreamError) {
    env.read(err).failure.RateLimit? && !err.firstByteSent
  }

  function IfLive(a: Account, now: int): seq<Account> {
    if Schedulable(a, now) then [a] else []
  }

  lemma OneMoreLive(t: Table, front: seq<Account>, last: Account, model: Bytes, now: int)
    requires t.routes == []
    ensures LivePool(t, front + [last], model, now) == LivePool(t, front, model, now) + IfLive(last, now)
  {
    assert !Matched(t, model);
    assert IsLive(t, last, model, now) <==> Schedulable(last, now);
    hide IsLive, Eligible, Schedulable;
    PoolsOfMore(t, front, last, model, now);
    hide LivePool, CoolingPool;
  }

  lemma LiveOfThree(t: Table, x: Account, y: Account, z: Account, model: Bytes, now: int)
    requires t.routes == []
    ensures LivePool(t, [x, y, z], model, now) == IfLive(x, now) + IfLive(y, now) + IfLive(z, now)
  {
    assert LivePool(t, [], model, now) == [];
    hide LivePool, IfLive;
    OneMoreLive(t, [], x, model, now);
    OneMoreLive(t, [x], y, model, now);
    OneMoreLive(t, [x, y], z, model, now);
    assert [] + [x] == [x] && [x] + [y] == [x, y] && [x, y] + [z] == [x, y, z];
    assert [] + IfLive(x, now) == IfLive(x, now);
  }

  lemma {:induction false} SortAlike(s: seq<Account>, p: int)
    requires forall i :: 0 <= i < |s| ==> s[i].priority == p
    ensures StableSort(s, Tier) == s
  {
    if s != [] {
      SortAlike(s[1..], p);
      assert s == [s[0]] + s[1..];
    }
  }

  /** With some account of the three live, and all in one tier, the pick is by index among the live ones. */
  lemma PickOfThree(t: Table, x: Account, y: Account, z: Account, attempt: nat, model: Bytes, now: int)
    requires t.routes == [] && x.priority == y.priority == z.priority && Schedulable(y, now)
    ensures PickFrom(t, [x, y, z], attempt, model, now) == At(IfLive(x, now) + IfLive(y, now) + IfLive(z, now), attempt)
  {
    LiveOfThree(t, x, y, z, model, now);
    hide LivePool, CoolingPool, StableSort;
    SortAlike(IfLive(x, now) + IfLive(y, now) + IfLive(z, now), x.priority);
  }

  lemma NoteOfThree(pool: seq<Account>, i: nat, err: UpstreamError, read: ErrorReader, now: int)
    requires ValidPool(pool) && i < |pool|
    ensures Note(pool, pool[i].id, Some(err), read, now) == pool[i := NoteFailure(pool[i], err.text, read(err), now)]
  {
    assert IndexOfAccount(pool, pool[i].id) == i;
  }

  /** One attempt of the first model whose call, on account `i` of the pool as it is, is rate-limited. */
  lemma OneCall(env: Setting, chain: seq<Bytes>, start: seq<Account>, calls: seq<Call>, pool: seq<Account>,
                attempt: nat, i: nat, err: UpstreamError, now: int)
    requires chain != [] && attempt < MAX_ATTEMPTS && ClockFixed(env, 0, MAX_ATTEMPTS, now) && IsRateLimit(env, err)
    requires Log(env, chain, start, calls, 0, attempt) && AllGoOn(calls) && After(env, start, calls) == pool
    requires ValidPool(pool) && i < |pool| && PickFrom(env.table, pool, attempt, chain[0], now) == Some(pool[i])
    ensures var more := calls + [Call(0, attempt, pool[i], Some(err))];
            && Log(env, chain, start, more, 0, attempt + 1) && AllGoOn(more)
            && After(env, start, more) == pool[i := NoteFailure(pool[i], err.text, env.read(err), now)]
  {
    hide Log, PickFrom, Note, NoteFailure, After;
    PickIs(env, chain, start, calls, 0, attempt);
    NoteOfThree(pool, i, err, env.read, now);
    PickAndCall(env, chain, start, calls, Call(0, attempt, pool[i], Some(err)));
  }

  /**
   Both calls are rate-limited. The first goes to the first account, the second already to the third, and the
   third attempt finds no index left: the second account is live throughout and is never called.
   */
  lemma SecondAccountIsSkipped(env: Setting, chain: seq<Bytes>, a: Account, b: Account, c: Account,
                               first: UpstreamError, second: UpstreamError, now: int) returns (calls: seq<Call>)
    requires chain != [] && ThreeAlike(env.table, a, b, c) && ClockFixed(env, 0, MAX_ATTEMPTS, now)
    requires IsRateLimit(env, first) && IsRateLimit(env, second)
    ensures calls == [Call(0, 0, a, Some(first)), Call(0, 1, c, Some(second))]
    ensures Log(env, chain, [a, b, c], calls, 0, MAX_ATTEMPTS)
    ensures b in After(env, [a, b, c], calls) && Schedulable(b, now)
    ensures |chain| == 1 ==> Over(env, chain, calls, 0, MAX_ATTEMPTS)
  {
    hide Log, PickFrom, LastIsRetryable, After, NoteFailure, ClockFixed;
    var pool, t, model := [a, b, c], env.table, chain[0];
    var a2, c2 := NoteFailure(a, first.text, env.read(first), now), NoteFailure(c, second.text, env.read(second), now);
    Limited(env, a, first, now);
    Limited(env, c, second, now);
    LogStart(env, chain, pool);
    var call1, call2 := Call(0, 0, a, Some(first)), Call(0, 1, c, Some(second));
    assert [] + [call1] == [call1];
    calls := [call1] + [call2];

    PickOfThree(t, a, b, c, 0, model, now);
    OneCall(env, chain, pool, [], pool, 0, 0, first, now);
    assert pool[0 := a2] == [a2, b, c];
    PickOfThree(t, a2, b, c, 1, model, now);
    OneCall(env, chain, pool, [call1], [a2, b, c], 1, 2, second, now);
    assert [a2, b, c][2 := c2] == [a2, b, c2];
    PickOfThree(t, a2, b, c2, 2, model, now);
    NoThirdCall(env, chain, pool, calls, now);
  }

  lemma NoThirdCall(env: Setting, chain: seq<Bytes>, start: seq<Account>, calls: seq<Call>, now: int)
    requires chain != [] && ClockFixed(env, 0, MAX_ATTEMPTS, now)
    requires Log(env, chain, start, calls, 0, 2) && AllGoOn(calls)
    requires PickFrom(env.table, After(env, start, calls), 2, chain[0], now).None?
    ensures Log(env, chain, start, calls, 0, MAX_ATTEMPTS)
  {
    hide Log, PickFrom, After;
    PickIs(env, chain, start, calls, 0, 2);
    NoPick(env, chain, start, calls, 0, 2);
  }

  /** A rate-limited account is out of the pool, and is otherwise the same. */
  lemma Limited(env: Setting, a: Account, err: UpstreamError, now: int)
    requires IsRateLimit(env, err)
    ensures var b := NoteFailure(a, err.text, env.read(err), now);
            !Schedulable(b, now) && b.id == a.id && b.priority == a.priority
  {
    RateLimitedIsOut(a, err.text, env.read(err), now, now);
  }
}
