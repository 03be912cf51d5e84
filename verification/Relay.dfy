/** The two failover walks over the scheduler: `Relay` for whole replies, `RelayStream` into a response writer. */
module Relaying {
  import opened Wrappers
  import opened Bytes
  import opened Codec
  import opened Protocol
  import opened ResponseWriters
  import opened Streaming
  import opened UpstreamErrors
  import opened Accounts
  import opened Scheduling
  import opened Walks

  const NO_ACCOUNT: Bytes := "no healthy account"

  /** What the walk hands back to its caller. */
  datatype Outcome =
    | Served(account: Account, reply: Reply, attempts: nat)
    /** Output had begun: reported, never replayed. */
    | CutShort(account: Account, tokens: int, attempts: nat, err: UpstreamError)
    | Unserved(message: Bytes)

  /** The outcome a finished log of calls stands for, with the replies its last call brought. */
  function OutcomeOf(calls: seq<Call>, reply: Reply): Outcome {
    if calls == [] then Unserved(NO_ACCOUNT)
    else
      var last := calls[|calls| - 1];
      match last.result
      case None => Served(last.account, reply, |calls|)
      case Some(err) =>
        if err.firstByteSent then CutShort(last.account, reply.tokens, |calls|, err) else Unserved(err.text)
  }

  // ---------------------------------------------------------------- steps of a log

  lemma NoPick(env: Setting, chain: seq<Bytes>, pool: seq<Account>, calls: seq<Call>, model: nat, attempt: nat)
    requires Log(env, chain, pool, calls, model, attempt) && AllGoOn(calls) && model < |chain| && attempt < MAX_ATTEMPTS
    requires PickAfter(env, chain, pool, calls, model, attempt).None?
    ensures Log(env, chain, pool, calls, model, attempt + 1)
  {
    LogShape(env, chain, pool, calls, model, attempt);
    hide PickAfter;
    assert Earlier(calls, model, attempt) == calls;
  }

  lemma PickAndCall(env: Setting, chain: seq<Bytes>, pool: seq<Account>, calls: seq<Call>, c: Call)
    requires Log(env, chain, pool, calls, c.model, c.attempt) && AllGoOn(calls)
    requires c.model < |chain| && c.attempt < MAX_ATTEMPTS
    requires PickAfter(env, chain, pool, calls, c.model, c.attempt) == Some(c.account)
    ensures Log(env, chain, pool, calls + [c], c.model, c.attempt + 1)
    ensures After(env, pool, calls + [c]) ==
            Note(After(env, pool, calls), c.account.id, c.result, env.read, env.noteAt(c.model, c.attempt))
  {
    hide PickAfter, Note;
    assert (calls + [c])[..|calls|] == calls;
    assert Earlier(calls + [c], c.model, c.attempt) == calls;
  }

  // ---------------------------------------------------------------- whole replies

  function ResultOf(r: CallResult): Option<UpstreamError> {
    match r
    case Answered(_) => None
    case CallFailed(err) => Some(err)
  }

  function ReplyOf(r: CallResult): Reply {
    match r
    case Answered(reply) => reply
    case CallFailed(_) => Reply([], 0)
  }

  /** The calls brought what the upstreams answered, in order. */
  ghost predicate Brought(calls: seq<Call>, upstream: nat -> CallResult) {
    forall k :: 0 <= k < |calls| ==> calls[k].result == ResultOf(upstream(k))
  }

  /** `Relay`: the k-th upstream call answers `upstream(k)`. */
  method Relay(s: Scheduler, chain: seq<Bytes>, pickAt: (nat, nat) -> int, noteAt: (nat, nat) -> int,
               upstream: nat -> CallResult)
    returns (outcome: Outcome, calls: seq<Call>, model: nat, attempt: nat)
    requires chain != []
    modifies s`accounts
    ensures var env := Setting(s.table, s.read, pickAt, noteAt);
            && Log(env, chain, old(s.accounts), calls, model, attempt) && Over(env, chain, calls, model, attempt)
            && s.accounts == After(env, old(s.accounts), calls)
    ensures Brought(calls, upstream)
    ensures outcome == OutcomeOf(calls, if calls == [] then Reply([], 0) else ReplyOf(upstream(|calls| - 1)))
  {
    hide PickAfter, PickFrom, Note, After, Log, LastIsRetryable;
    var env := Setting(s.table, s.read, pickAt, noteAt);
    ghost var pool := s.accounts;
    calls, model := [], 0;
    LogStart(env, chain, pool);
    while true
      invariant model < |chain| && Log(env, chain, pool, calls, model, 0) && AllGoOn(calls)
      invariant s.accounts == After(env, pool, calls) && Brought(calls, upstream)
      decreases |chain| - model
    {
      attempt := 0;
      while attempt < MAX_ATTEMPTS
        invariant attempt <= MAX_ATTEMPTS && Log(env, chain, pool, calls, model, attempt) && AllGoOn(calls)
        invariant s.accounts == After(env, pool, calls) && Brought(calls, upstream)
      {
        var now := env.pickAt(model, attempt);
        var pick := s.Pick(attempt, chain[model], now);
        PickIs(env, chain, pool, calls, model, attempt);
        if pick.None? {
          NoPick(env, chain, pool, calls, model, attempt);
          attempt := attempt + 1;
          continue;
        }
        var answer := upstream(|calls|);
        var c := Call(model, attempt, pick.value, ResultOf(answer));
        PickAndCall(env, chain, pool, calls, c);
        s.NoteUpstreamResult(c.account.id, c.result, env.noteAt(model, attempt));
        calls := calls + [c];
        attempt := attempt + 1;
        match answer {
          case Answered(reply) =>
            return Served(c.account, reply, |calls|), calls, model, attempt;
          case CallFailed(err) =>
            if err.firstByteSent {
              return CutShort(c.account, 0, |calls|, err), calls, model, attempt;
            }
        }
      }
      if model + 1 < |chain| && calls != [] && IsRetryable(s.read(calls[|calls| - 1].result.value)) {
        NextModel(env, chain, pool, calls, model);
        model := model + 1;
        continue;
      }
      RetryableIs(env, calls);
      return Unserved(if calls == [] then NO_ACCOUNT else calls[|calls| - 1].result.value.text), calls, model, attempt;
    }
  }

  lemma LogStart(env: Setting, chain: seq<Bytes>, pool: seq<Account>)
    ensures Log(env, chain, pool, [], 0, 0) && After(env, pool, []) == pool
  {
  }

  lemma PickIs(env: Setting, chain: seq<Bytes>, pool: seq<Account>, calls: seq<Call>, model: nat, attempt: nat)
    requires model < |chain|
    ensures PickAfter(env, chain, pool, calls, model, attempt)
         == PickFrom(env.table, After(env, pool, calls), attempt, chain[model], env.pickAt(model, attempt))
  {
  }

  lemma RetryableIs(env: Setting, calls: seq<Call>)
    requires AllGoOn(calls)
    ensures LastIsRetryable(env, calls) <==> calls != [] && IsRetryable(env.read(calls[|calls| - 1].result.value))
  {
  }

  lemma NextModel(env: Setting, chain: seq<Bytes>, pool: seq<Account>, calls: seq<Call>, model: nat)
    requires Log(env, chain, pool, calls, model, MAX_ATTEMPTS) && AllGoOn(calls)
    requires calls != [] && IsRetryable(env.read(calls[|calls| - 1].result.value))
    ensures Log(env, chain, pool, calls, model + 1, 0)
  {
    hide PickAfter, After;
  }

  // ---------------------------------------------------------------- streamed replies

  /** The client holds part of the output of one attempt, with at most its error frame after it. */
  ghost predicate OneAttempt(f: Format, before: Session, upstream: nat -> Attempt, n: nat, body: Bytes) {
    exists k: nat, message: Bytes ::
      && k < n
      && before.t.body <= body <= Feed(f, before, Output(f.codec, upstream(k)) + ErrorFrame(f.codec, message)).t.body
  }

  /** The calls reported what their adapters report to a client that never fails. */
  ghost predicate Reported(codec: Codec, calls: seq<Call>, upstream: nat -> Attempt) {
    forall k :: 0 <= k < |calls| ==> calls[k].result == Report(codec, upstream(k)).1
  }

  /** What a client that never fails has after the walk: one attempt's output, and the error frame if it was cut. */
  function Delivered(f: Format, before: Session, outcome: Outcome, last: Attempt): Session {
    match outcome
    case Served(_, _, _) => Feed(f, before, Output(f.codec, last))
    case CutShort(_, _, _, err) => Feed(f, before, Output(f.codec, last) + ErrorFrame(f.codec, err.text))
    case Unserved(_) => before
  }

  /** The state of the client between attempts: untouched, or lost during one of them. */
  ghost predicate BetweenAttempts(f: Format, before: Session, now: Session, room: Option<nat>,
                                  upstream: nat -> Attempt, n: nat) {
    now == before || (room == Some(0) && OneAttempt(f, before, upstream, n, now.t.body))
  }

  /** One attempt of the streaming walk on the client. */
  method StreamAttempt(w: ResponseWriter, a: Attempt, ghost before: Session, ghost upstream: nat -> Attempt,
                       ghost k: nat)
    returns (tokens: int, err: Option<UpstreamError>)
    requires '\n' !in before.buf && upstream(k) == a
    requires BetweenAttempts(w.f, before, w.View(), w.room, upstream, k)
    modifies w
    ensures old(w.room).None? ==>
            && w.room.None? && (tokens, err) == Report(w.f.codec, a)
            && w.View() == Feed(w.f, before, Output(w.f.codec, a))
    ensures || (w.View() == Feed(w.f, before, Output(w.f.codec, a)) && '\n' !in w.buf
                && (tokens, err) == Report(w.f.codec, a))
            || (w.room == Some(0) && OneAttempt(w.f, before, upstream, k + 1, w.body))
    ensures err.Some? && !err.value.firstByteSent ==> BetweenAttempts(w.f, before, w.View(), w.room, upstream, k + 1)
  {
    hide Feed, Output, Report, ErrorFrame;
    BufferIsResidue(w.f, before, Output(w.f.codec, a));
    if w.View() != before {
      AttemptOfMore(w.f, before, upstream, k, k + 1, w.body);
    }
    FeedGrows(w.f, before, Output(w.f.codec, a), ErrorFrame(w.f.codec, []));
    tokens, err := StreamUpstream(w, a);
    if err.Some? && !err.value.firstByteSent {
      SilentAttempt(w.f, before, a, tokens, err);
    }
  }

  /** What `BetweenAttempts` comes to. */
  lemma Untouched(f: Format, before: Session, now: Session, room: Option<nat>, upstream: nat -> Attempt, n: nat)
    requires BetweenAttempts(f, before, now, room, upstream, n)
    ensures now == before || OneAttempt(f, before, upstream, n, now.t.body)
    ensures room.None? ==> now == before
  {
    hide OneAttempt;
  }

  lemma AttemptOfMore(f: Format, before: Session, upstream: nat -> Attempt, n: nat, m: nat, body: Bytes)
    requires OneAttempt(f, before, upstream, n, body) && n <= m
    ensures OneAttempt(f, before, upstream, m, body)
  {
    hide Feed, Output, ErrorFrame;
  }

  /** `writeStreamError` after an attempt that had begun its output. */
  method CloseBroken(w: ResponseWriter, message: Bytes, ghost before: Session, ghost upstream: nat -> Attempt,
                     ghost k: nat)
    requires '\n' !in before.buf
    requires || (w.View() == Feed(w.f, before, Output(w.f.codec, upstream(k))) && '\n' !in w.buf)
             || (w.room == Some(0) && OneAttempt(w.f, before, upstream, k + 1, w.body))
    modifies w
    ensures old(w.room).None? ==>
      w.View() == Feed(w.f, before, Output(w.f.codec, upstream(k)) + ErrorFrame(w.f.codec, message))
    ensures OneAttempt(w.f, before, upstream, k + 1, w.body)
  {
    hide Feed, Output, ErrorFrame;
    ghost var out, frame := Output(w.f.codec, upstream(k)), ErrorFrame(w.f.codec, message);
    FeedOfConcat(w.f, before, out, frame);
    FeedGrows(w.f, before, out, frame);
    FeedGrows(w.f, before, out + frame, []);
    WriteStreamError(w, message);
  }

  /** `RelayStream`: the k-th upstream call meets `upstream(k)`. */
  method RelayStream(s: Scheduler, w: ResponseWriter, chain: seq<Bytes>,
                     pickAt: (nat, nat) -> int, noteAt: (nat, nat) -> int, upstream: nat -> Attempt)
    returns (outcome: Outcome, calls: seq<Call>, model: nat, attempt: nat)
    requires chain != [] && '\n' !in w.buf
    modifies s`accounts, w
    ensures var env := Setting(s.table, s.read, pickAt, noteAt);
            && Log(env, chain, old(s.accounts), calls, model, attempt) && Over(env, chain, calls, model, attempt)
            && s.accounts == After(env, old(s.accounts), calls)
    ensures old(w.room).None? ==>
            && Reported(w.f.codec, calls, upstream)
            && w.View() == Delivered(w.f, old(w.View()), outcome, upstream(if calls == [] then 0 else |calls| - 1))
            && outcome == OutcomeOf(calls,
                 Reply([], if calls == [] then 0 else Report(w.f.codec, upstream(|calls| - 1)).0))
    ensures w.View() == old(w.View()) || OneAttempt(w.f, old(w.View()), upstream, |calls|, w.body)
  {
    hide PickAfter, PickFrom, Note, After, Log, LastIsRetryable, Feed, Output, Report, ErrorFrame, OneAttempt;
    hide IsRetryable;
    var env := Setting(s.table, s.read, pickAt, noteAt);
    ghost var pool, before := s.accounts, w.View();
    calls, model := [], 0;
    assert BetweenAttempts(w.f, before, w.View(), w.room, upstream, 0);
    hide BetweenAttempts;
    LogStart(env, chain, pool);
    while true
      invariant model < |chain| && Log(env, chain, pool, calls, model, 0) && AllGoOn(calls)
      invariant s.accounts == After(env, pool, calls)
      invariant BetweenAttempts(w.f, before, w.View(), w.room, upstream, |calls|)
      invariant old(w.room).None? ==> w.room.None? && Reported(w.f.codec, calls, upstream)
      decreases |chain| - model
    {
      attempt := 0;
      while attempt < MAX_ATTEMPTS
        invariant attempt <= MAX_ATTEMPTS && Log(env, chain, pool, calls, model, attempt) && AllGoOn(calls)
        invariant s.accounts == After(env, pool, calls)
        invariant BetweenAttempts(w.f, before, w.View(), w.room, upstream, |calls|)
        invariant old(w.room).None? ==> w.room.None? && Reported(w.f.codec, calls, upstream)
      {
        var now := env.pickAt(model, attempt);
        var pick := s.Pick(attempt, chain[model], now);
        PickIs(env, chain, pool, calls, model, attempt);
        if pick.None? {
          NoPick(env, chain, pool, calls, model, attempt);
          attempt := attempt + 1;
          continue;
        }
        ghost var k := |calls|;
        var tokens, err := StreamAttempt(w, upstream(|calls|), before, upstream, |calls|);
        var c := Call(model, attempt, pick.value, err);
        PickAndCall(env, chain, pool, calls, c);
        s.NoteUpstreamResult(c.account.id, c.result, env.noteAt(model, attempt));
        calls := calls + [c];
        attempt := attempt + 1;
        match err {
          case None =>
            ServedIsOneAttempt(w.f, before, upstream, k);
            return Served(c.account, Reply([], tokens), |calls|), calls, model, attempt;
          case Some(e) =>
            if e.firstByteSent {
              CloseBroken(w, e.text, before, upstream, k);
              return CutShort(c.account, tokens, |calls|, e), calls, model, attempt;
            }
        }
      }
      if model + 1 < |chain| && calls != [] && IsRetryable(s.read(calls[|calls| - 1].result.value)) {
        NextModel(env, chain, pool, calls, model);
        model := model + 1;
        continue;
      }
      RetryableIs(env, calls);
      Untouched(w.f, before, w.View(), w.room, upstream, |calls|);
      return Unserved(if calls == [] then NO_ACCOUNT else calls[|calls| - 1].result.value.text), calls, model, attempt;
    }
  }

  lemma ServedIsOneAttempt(f: Format, before: Session, upstream: nat -> Attempt, k: nat)
    ensures OneAttempt(f, before, upstream, k + 1, Feed(f, before, Output(f.codec, upstream(k))).t.body)
  {
    hide Feed, Output, ErrorFrame;
    FeedGrows(f, before, Output(f.codec, upstream(k)), ErrorFrame(f.codec, []));
  }

  /** An attempt that may be retried left the client as it was. */
  lemma SilentAttempt(f: Format, before: Session, a: Attempt, tokens: int, err: Option<UpstreamError>)
    requires '\n' !in before.buf && err.Some? && !err.value.firstByteSent
    ensures (tokens, err) == Report(f.codec, a) ==> Feed(f, before, Output(f.codec, a)) == before
  {
    RetryableIsSilent(f.codec, a);
    FeedNothing(f, before);
  }
}
