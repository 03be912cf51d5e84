/**
 Where the walk goes: with the clock fixed and a live account left at every pick, each call of one model
 goes to a fixed position of that model's initial tier order, and positions only increase.
 */
module WalkPositions {
  import opened Wrappers
  import opened Bytes
  import opened Streaming
  import opened UpstreamErrors
  import opened Accounts
  import opened StableSorting
  import opened Routing
  import opened Scheduling
  import opened Walks

  /** What of an account the walk cannot change. */
  datatype Seat = Seat(id: Bytes, tier: int)

  function SeatOf(a: Account): Seat {
    Seat(a.id, a.priority)
  }

  function SeatTier(s: Seat): int {
    s.tier
  }

  function Seats(accounts: seq<Account>): seq<Seat> {
    seq(|accounts|, i requires 0 <= i < |accounts| => SeatOf(accounts[i]))
  }

  /** The live accounts in the order the pick walks them. */
  ghost function Order(t: Table, pool: seq<Account>, model: Bytes, now: int): seq<Seat> {
    StableSort(Seats(LivePool(t, pool, model, now)), SeatTier)
  }

  predicate Distinct(s: seq<Seat>) {
    forall i, j :: 0 <= i < j < |s| ==> s[i].id != s[j].id
  }

  function Without(s: seq<Seat>, id: Bytes): seq<Seat> {
    if s == [] then []
    else if s[0].id == id then Without(s[1..], id)
    else [s[0]] + Without(s[1..], id)
  }

  // ---------------------------------------------------------------- sorting seats

  lemma {:induction false} SeatsOfInsert(a: Account, s: seq<Account>)
    ensures Seats(Insert(a, s, Tier)) == Insert(SeatOf(a), Seats(s), SeatTier)
  {
    if s != [] && Tier(a) > Tier(s[0]) {
      SeatsOfInsert(a, s[1..]);
      assert Seats(s)[1..] == Seats(s[1..]);
    }
  }

  lemma {:induction false} SeatsOfSort(s: seq<Account>)
    ensures Seats(StableSort(s, Tier)) == StableSort(Seats(s), SeatTier)
  {
    if s != [] {
      SeatsOfSort(s[1..]);
      SeatsOfInsert(s[0], StableSort(s[1..], Tier));
      assert Seats(s)[1..] == Seats(s[1..]);
    }
  }

  lemma WithoutCons(x: Seat, s: seq<Seat>, id: Bytes)
    ensures Without([x] + s, id) == if x.id == id then Without(s, id) else [x] + Without(s, id)
  {
    assert ([x] + s)[1..] == s;
  }

  lemma InsertCons(x: Seat, y: Seat, s: seq<Seat>)
    ensures Insert(x, [y] + s, SeatTier) == if x.tier <= y.tier then [x, y] + s else [y] + Insert(x, s, SeatTier)
  {
    assert ([y] + s)[1..] == s;
  }

  lemma {:induction false} WithoutOfInsert(x: Seat, s: seq<Seat>, id: Bytes)
    requires Ascending(s, SeatTier)
    ensures Without(Insert(x, s, SeatTier), id)
         == if x.id == id then Without(s, id) else Insert(x, Without(s, id), SeatTier)
  {
    if s == [] || x.tier <= s[0].tier {
      WithoutInsertedFirst(x, s, id);
    } else {
      hide Without, Insert;
      var y, tail := s[0], s[1..];
      assert s == [y] + tail;
      assert forall i, j :: 0 <= i < j < |tail| ==> tail[i] == s[i + 1] && tail[j] == s[j + 1];
      WithoutOfInsert(x, tail, id);
      hide Ascending;
      InsertCons(x, y, tail);
      InsertCons(x, y, Without(tail, id));
      WithoutCons(y, tail, id);
      WithoutCons(y, Insert(x, tail, SeatTier), id);
    }
  }

  lemma WithoutInsertedFirst(x: Seat, s: seq<Seat>, id: Bytes)
    requires Ascending(s, SeatTier) && (s == [] || x.tier <= s[0].tier)
    ensures Without(Insert(x, s, SeatTier), id)
         == if x.id == id then Without(s, id) else Insert(x, Without(s, id), SeatTier)
  {
    assert Insert(x, s, SeatTier) == [x] + s;
    hide Insert, Without;
    WithoutCons(x, s, id);
    if x.id != id {
      assert forall i :: 0 < i < |s| ==> SeatTier(s[0]) <= SeatTier(s[i]);
      InsertFirst(x, s, id);
    }
  }

  /** Inserting before everything that is left stays inserting in front. */
  lemma {:induction false} InsertFirst(x: Seat, s: seq<Seat>, id: Bytes)
    requires forall i :: 0 <= i < |s| ==> x.tier <= s[i].tier
    ensures Insert(x, Without(s, id), SeatTier) == [x] + Without(s, id)
  {
    if s != [] {
      InsertFirst(x, s[1..], id);
      InsertCons(x, s[0], Without(s[1..], id));
    }
  }

  lemma {:induction false} WithoutOfSort(s: seq<Seat>, id: Bytes)
    ensures Without(StableSort(s, SeatTier), id) == StableSort(Without(s, id), SeatTier)
  {
    if s != [] {
      var x, tail := s[0], s[1..];
      WithoutOfSort(tail, id);
      StableSortIsStable(tail, SeatTier);
      WithoutOfInsert(x, StableSort(tail, SeatTier), id);
      SortCons(x, Without(tail, id));
      hide Without, Insert, WithKey;
    }
  }

  lemma SortCons(x: Seat, s: seq<Seat>)
    ensures StableSort([x] + s, SeatTier) == Insert(x, StableSort(s, SeatTier), SeatTier)
  {
    assert ([x] + s)[1..] == s;
  }

  lemma {:induction false} WithoutAt(s: seq<Seat>, i: nat)
    requires Distinct(s) && i < |s|
    ensures Without(s, s[i].id) == s[..i] + s[i + 1..]
  {
    var id := s[i].id;
    if i == 0 {
      WithoutAbsent(s[1..], id);
    } else {
      WithoutAt(s[1..], i - 1);
      assert s[1..][..i - 1] == s[1..i] && s[1..][i..] == s[i + 1..];
    }
  }

  lemma {:induction false} WithoutAbsent(s: seq<Seat>, id: Bytes)
    requires forall i :: 0 <= i < |s| ==> s[i].id != id
    ensures Without(s, id) == s
  {
    if s != [] {
      WithoutAbsent(s[1..], id);
    }
  }

  lemma {:induction false} WithoutOfConcat(a: seq<Seat>, b: seq<Seat>, id: Bytes)
    ensures Without(a + b, id) == Without(a, id) + Without(b, id)
  {
    if a == [] {
      assert a + b == b;
    } else {
      WithoutOfConcat(a[1..], b, id);
      WithoutCons(a[0], a[1..] + b, id);
      assert a + b == [a[0]] + (a[1..] + b);
      WithoutCons(a[0], a[1..], id);
      assert a == [a[0]] + a[1..];
      hide Without;
    }
  }

  lemma {:induction false} InsertDistinct(x: Seat, s: seq<Seat>)
    requires Distinct(s) && forall i :: 0 <= i < |s| ==> s[i].id != x.id
    ensures Distinct(Insert(x, s, SeatTier))
    ensures forall y :: y in Insert(x, s, SeatTier) <==> y == x || y in s
  {
    if s != [] && x.tier > s[0].tier {
      var tail := s[1..];
      InsertDistinct(x, tail);
      var out := Insert(x, tail, SeatTier);
      assert forall i :: 0 <= i < |out| ==> out[i] in out;
      assert forall y :: y in tail ==> y.id != s[0].id;
    }
  }

  lemma {:induction false} SortDistinct(s: seq<Seat>)
    requires Distinct(s)
    ensures Distinct(StableSort(s, SeatTier))
    ensures forall y :: y in StableSort(s, SeatTier) <==> y in s
  {
    if s != [] {
      var tail := StableSort(s[1..], SeatTier);
      SortDistinct(s[1..]);
      assert forall i :: 0 <= i < |tail| ==> tail[i] in tail;
      InsertDistinct(s[0], tail);
    }
  }

  // ---------------------------------------------------------------- the live pool under failures

  lemma SeatsLast(s: seq<Account>, a: Account)
    ensures Seats(s + [a]) == Seats(s) + [SeatOf(a)]
  {
  }

  lemma {:induction false} LiveSeats(t: Table, pool: seq<Account>, model: Bytes, now: int)
    requires forall i, j :: 0 <= i < j < |pool| ==> pool[i].id != pool[j].id
    ensures Distinct(Seats(LivePool(t, pool, model, now)))
    ensures forall i :: 0 <= i < |LivePool(t, pool, model, now)| ==> LivePool(t, pool, model, now)[i] in pool
  {
    hide Eligible;
    if pool != [] {
      var front, last := pool[..|pool| - 1], pool[|pool| - 1];
      LiveSeats(t, front, model, now);
      var live := LivePool(t, front, model, now);
      SeatsLast(live, last);
      forall i | 0 <= i < |live| ensures live[i].id != last.id {
        assert live[i] in front;
      }
      var all := live + [last];
      assert forall i :: 0 <= i < |live| ==> all[i] == live[i];
    }
  }

  /** Two pools that differ in one account, which the second keeps or drops from the live ones. */
  lemma {:induction false} LiveSeatsAfter(t: Table, p: seq<Account>, q: seq<Account>, k: nat, model: Bytes, now: int)
    requires k < |p| == |q| && forall i, j :: 0 <= i < j < |p| ==> p[i].id != p[j].id
    requires forall i :: 0 <= i < |p| && i != k ==> q[i] == p[i]
    requires SeatOf(q[k]) == SeatOf(p[k]) && q[k].provider == p[k].provider
    requires IsLive(t, p[k], model, now)
    ensures var before, after := Seats(LivePool(t, p, model, now)), Seats(LivePool(t, q, model, now));
            after == if Schedulable(q[k], now) then before else Without(before, p[k].id)
  {
    hide LivePool, Eligible;
    var n := |p| - 1;
    var pf, qf, last := p[..n], q[..n], p[n];
    assert p == pf + [last] && q == qf + [q[n]];
    LiveSeatsOfMore(t, pf, last, model, now);
    LiveSeatsOfMore(t, qf, q[n], model, now);
    var seats := Seats(LivePool(t, pf, model, now));
    if k == n {
      assert pf == qf;
      NewcomerIsNew(t, pf, last, model, now);
      hide Schedulable;
      DropLast(seats, SeatOf(last));
    } else {
      LiveSeatsAfter(t, pf, qf, k, model, now);
      var others := Seats(LivePool(t, qf, model, now));
      assert q[n] == last && seats + [] == seats && others + [] == others;
      hide Schedulable, IsLive, Without;
      WithoutOther(seats, SeatOf(last), p[k].id);
    }
  }

  lemma LiveSeatsOfMore(t: Table, front: seq<Account>, last: Account, model: Bytes, now: int)
    ensures Seats(LivePool(t, front + [last], model, now))
         == Seats(LivePool(t, front, model, now)) + if IsLive(t, last, model, now) then [SeatOf(last)] else []
  {
    PoolsOfMore(t, front, last, model, now);
    SeatsLast(LivePool(t, front, model, now), last);
    hide LivePool, CoolingPool, IsLive;
  }

  lemma NewcomerIsNew(t: Table, front: seq<Account>, last: Account, model: Bytes, now: int)
    requires forall i, j :: 0 <= i < j < |front + [last]| ==> (front + [last])[i].id != (front + [last])[j].id
    ensures var seats := Seats(LivePool(t, front, model, now)); forall i :: 0 <= i < |seats| ==> seats[i].id != last.id
  {
    PoolMembers(t, front, model, now);
    var live := LivePool(t, front, model, now);
    hide LivePool, CoolingPool, IsLive, IsCooling;
    forall i | 0 <= i < |live| ensures live[i].id != last.id {
      assert live[i] in front;
      var j :| 0 <= j < |front| && front[j] == live[i];
      assert (front + [last])[j].id != (front + [last])[|front|].id;
    }
  }

  lemma DropLast(s: seq<Seat>, x: Seat)
    requires forall i :: 0 <= i < |s| ==> s[i].id != x.id
    ensures Without(s + [x], x.id) == s
  {
    WithoutOfConcat(s, [x], x.id);
    WithoutAbsent(s, x.id);
    WithoutCons(x, [], x.id);
    assert [x] + [] == [x];
  }

  lemma WithoutOther(s: seq<Seat>, x: Seat, id: Bytes)
    requires x.id != id
    ensures Without(s + [x], id) == Without(s, id) + [x]
  {
    WithoutOfConcat(s, [x], id);
    WithoutAbsent([x], id);
  }

  /** One failed call on a live account: the order stays, or loses exactly that account. */
  lemma OrderAfterFailure(t: Table, pool: seq<Account>, a: Account, err: UpstreamError, read: ErrorReader,
                          model: Bytes, now: int)
    requires ValidPool(pool) && a in pool && IsLive(t, a, model, now)
    ensures var before := Order(t, pool, model, now);
            var after := Order(t, Note(pool, a.id, Some(err), read, now), model, now);
            && Distinct(before)
            && after == if Schedulable(NoteOne(a, Some(err), read, now), now) then before else Without(before, a.id)
  {
    var k := IndexOfAccount(pool, a.id);
    var j :| 0 <= j < |pool| && pool[j] == a;
    assert k == j;
    var q := Note(pool, a.id, Some(err), read, now);
    NoteTouchesOnlyItsAccount(pool, a.id, Some(err), read, now);
    hide NoteOne, Eligible;
    assert q[k] == NoteOne(a, Some(err), read, now);
    assert q[k].id == a.id;
    LiveSeats(t, pool, model, now);
    LiveSeatsAfter(t, pool, q, k, model, now);
    var seats := Seats(LivePool(t, pool, model, now));
    SortDistinct(seats);
    WithoutOfSort(seats, a.id);
  }

  // ---------------------------------------------------------------- positions

  /** Some account was live at every pick of this model so far. */
  ghost predicate LiveThroughout(env: Setting, chain: seq<Bytes>, pool: seq<Account>, calls: seq<Call>, model: nat,
                                 attempt: nat)
    requires model < |chain|
  {
    if attempt == 0 then true
    else
      var earlier := Earlier(calls, model, attempt - 1);
      && LivePool(env.table, After(env, pool, earlier), chain[model], env.pickAt(model, attempt - 1)) != []
      && LiveThroughout(env, chain, pool, earlier, model, attempt - 1)
  }

  /** The clock stood at `now` during these attempts. */
  ghost predicate ClockFixed(env: Setting, model: nat, attempts: nat, now: int) {
    forall a: nat :: a < attempts ==> env.pickAt(model, a) == now && env.noteAt(model, a) == now
  }

  /** The calls made before this model was begun. */
  function Base(calls: seq<Call>, model: nat, attempt: nat): seq<Call> {
    if attempt == 0 then calls else Base(Earlier(calls, model, attempt - 1), model, attempt - 1)
  }

  predicate LeavesPool(env: Setting, c: Call, now: int) {
    !Schedulable(NoteOne(c.account, c.result, env.read, now), now)
  }

  /** What takes a live account out: a rate limit, its third timeout in a row, or its second 403. */
  predicate PutsOut(a: Account, v: ErrorView) {
    || v.failure.RateLimit?
    || (v.failure.Timeout? && a.timeouts >= 2)
    || (v.failure.Forbidden? && a.forbidden >= 1)
  }

  lemma LeavesPoolIff(env: Setting, c: Call, now: int)
    requires Schedulable(c.account, now)
    ensures LeavesPool(env, c, now) <==> c.result.Some? && PutsOut(c.account, env.read(c.result.value))
  {
    if c.result.Some? && env.read(c.result.value).failure.RateLimit? {
      RateLimitedIsOut(c.account, c.result.value.text, env.read(c.result.value), now, now);
    }
  }

  /** How many of this model's calls took their account out of the live pool. */
  function Removed(env: Setting, calls: seq<Call>, model: nat, attempt: nat, now: int): nat {
    if attempt == 0 then 0
    else
      var earlier := Earlier(calls, model, attempt - 1);
      Removed(env, earlier, model, attempt - 1, now)
      + if earlier != calls && LeavesPool(env, calls[|calls| - 1], now) then 1 else 0
  }

  ghost function OrderAfter(env: Setting, chain: seq<Bytes>, pool: seq<Account>, calls: seq<Call>, model: nat,
                            now: int): seq<Seat>
    requires model < |chain|
  {
    Order(env.table, After(env, pool, calls), chain[model], now)
  }

  lemma {:induction false} AfterIsValid(env: Setting, pool: seq<Account>, calls: seq<Call>)
    requires ValidPool(pool)
    ensures ValidPool(After(env, pool, calls))
  {
    if calls != [] {
      var front, last := calls[..|calls| - 1], calls[|calls| - 1];
      AfterIsValid(env, pool, front);
      NoteTouchesOnlyItsAccount(
        After(env, pool, front), last.account.id, last.result, env.read, env.noteAt(last.model, last.attempt));
    }
  }

  /**
   What is left of the order from `attempt` on is what the initial order holds from position `attempt + removed`
   on.
   */
  predicate Aligned(initial: seq<Seat>, current: seq<Seat>, attempt: nat, removed: nat) {
    && |current| + removed == |initial|
    && (attempt + removed <= |initial| ==> current[attempt..] == initial[attempt + removed..])
  }

  predicate Visited(initial: seq<Seat>, below: nat, c: Call) {
    exists q: nat :: q < below && q < |initial| && initial[q] == SeatOf(c.account)
  }

  /** The pick of a live pool, read off its order. */
  lemma PickIsInOrder(t: Table, pool: seq<Account>, model: Bytes, now: int, attempt: nat)
    requires ValidPool(pool) && LivePool(t, pool, model, now) != []
    ensures var order, pick := Order(t, pool, model, now), PickFrom(t, pool, attempt, model, now);
            && Distinct(order)
            && (pick.Some? <==> attempt < |order|)
            && (pick.Some? ==>
                SeatOf(pick.value) == order[attempt] && pick.value in pool && IsLive(t, pick.value, model, now))
  {
    hide Eligible;
    var live := LivePool(t, pool, model, now);
    var sorted := StableSort(live, Tier);
    SeatsOfSort(live);
    LiveSeats(t, pool, model, now);
    SortDistinct(Seats(live));
    StableSortIsStable(live, Tier);
    SameMembers(sorted, live, Tier);
    PoolMembers(t, pool, model, now);
    hide StableSort, WithKey, LivePool, CoolingPool;
    assert attempt < |sorted| ==> sorted[attempt] in sorted;
  }

  /** One call at `attempt`: the order stays or loses its seat there. */
  lemma AlignedStep(initial: seq<Seat>, before: seq<Seat>, after: seq<Seat>, attempt: nat, removed: nat, leaves: bool)
    requires Aligned(initial, before, attempt, removed) && attempt < |before|
    requires after == if leaves then before[..attempt] + before[attempt + 1..] else before
    ensures attempt + removed < |initial| && initial[attempt + removed] == before[attempt]
    ensures Aligned(initial, after, attempt + 1, removed + if leaves then 1 else 0)
  {
    var p := attempt + removed;
    assert before[attempt..][0] == before[attempt] && initial[p..][0] == initial[p];
    assert before[attempt + 1..] == before[attempt..][1..] && initial[p + 1..] == initial[p..][1..];
    if leaves {
      assert p + 2 <= |initial| ==> after[attempt + 1..] == before[attempt + 1..][1..];
      assert p + 2 <= |initial| ==> initial[p + 2..] == initial[p + 1..][1..];
    }
  }

  /** The order and the position of this attempt's call. */
  lemma CallStep(env: Setting, pool: seq<Account>, model: Bytes, now: int, attempt: nat, c: Call)
    requires ValidPool(pool) && LivePool(env.table, pool, model, now) != []
    requires PickFrom(env.table, pool, attempt, model, now) == Some(c.account) && c.result.Some?
    ensures var before := Order(env.table, pool, model, now);
            var after := Order(env.table, Note(pool, c.account.id, c.result, env.read, now), model, now);
            && attempt < |before| && before[attempt] == SeatOf(c.account)
            && after == if LeavesPool(env, c, now) then before[..attempt] + before[attempt + 1..] else before
  {
    PickIsInOrder(env.table, pool, model, now, attempt);
    OrderAfterFailure(env.table, pool, c.account, c.result.value, env.read, model, now);
    WithoutAt(Order(env.table, pool, model, now), attempt);
  }

  ghost predicate ModelLog(env: Setting, chain: seq<Bytes>, pool: seq<Account>, calls: seq<Call>, model: nat,
                           attempt: nat, now: int) {
    && ValidPool(pool) && model < |chain|
    && Log(env, chain, pool, calls, model, attempt)
    && ClockFixed(env, model, attempt, now) && LiveThroughout(env, chain, pool, calls, model, attempt)
  }

  /** What the last attempt of a model's log says. */
  lemma LastAttempt(env: Setting, chain: seq<Bytes>, pool: seq<Account>, calls: seq<Call>, model: nat, attempt: nat,
                    now: int)
    requires ModelLog(env, chain, pool, calls, model, attempt, now) && attempt > 0
    ensures var earlier := Earlier(calls, model, attempt - 1);
            var before := After(env, pool, earlier);
            && ModelLog(env, chain, pool, earlier, model, attempt - 1, now) && AllGoOn(earlier)
            && ValidPool(before) && LivePool(env.table, before, chain[model], now) != []
            && var pick := PickFrom(env.table, before, attempt - 1, chain[model], now);
               if earlier == calls then pick.None?
               else
                 var c := calls[|calls| - 1];
                 && earlier + [c] == calls && pick == Some(c.account)
                 && After(env, pool, calls) == Note(before, c.account.id, c.result, env.read, now)
  {
    hide PickFrom, LivePool, Note;
    AfterIsValid(env, pool, Earlier(calls, model, attempt - 1));
  }

  predicate AllVisited(initial: seq<Seat>, below: nat, calls: seq<Call>, from: nat) {
    forall i :: from <= i < |calls| ==> Visited(initial, below, calls[i])
  }

  lemma VisitedMore(initial: seq<Seat>, below: nat, more: nat, calls: seq<Call>, from: nat)
    requires AllVisited(initial, below, calls, from) && below <= more
    ensures AllVisited(initial, more, calls, from)
  {
    forall i | from <= i < |calls| ensures Visited(initial, more, calls[i]) {
      assert Visited(initial, below, calls[i]);
    }
  }

  lemma {:induction false} PositionInvariant(env: Setting, chain: seq<Bytes>, pool: seq<Account>, calls: seq<Call>,
                                             model: nat, attempt: nat, now: int)
    requires ModelLog(env, chain, pool, calls, model, attempt, now) && AllGoOn(calls)
    ensures var base := Base(calls, model, attempt);
            var initial := OrderAfter(env, chain, pool, base, model, now);
            var current := OrderAfter(env, chain, pool, calls, model, now);
            var removed := Removed(env, calls, model, attempt, now);
            && base <= calls
            && Aligned(initial, current, attempt, removed)
            && AllVisited(initial, attempt + removed, calls, |base|)
    decreases attempt
  {
    hide PickFrom, Order, LivePool, LeavesPool, Aligned, Note, ModelLog, AllVisited, Log, LiveThroughout, After;
    assert model < |chain| by { ModelInChain(env, chain, pool, calls, model, attempt, now); }
    if attempt == 0 {
      AlignedStart(OrderAfter(env, chain, pool, calls, model, now));
      NoneVisited(OrderAfter(env, chain, pool, calls, model, now), calls);
    } else {
      var a := attempt - 1;
      var earlier := Earlier(calls, model, a);
      LastAttempt(env, chain, pool, calls, model, attempt, now);
      PositionInvariant(env, chain, pool, earlier, model, a, now);
      var base, removed := Base(earlier, model, a), Removed(env, earlier, model, a, now);
      var initial := OrderAfter(env, chain, pool, base, model, now);
      var before := OrderAfter(env, chain, pool, earlier, model, now);
      if earlier == calls {
        PickIsInOrder(env.table, After(env, pool, calls), chain[model], now, a);
        AlignedPastEnd(initial, before, a, removed);
        VisitedMore(initial, a + removed, attempt + removed, calls, |base|);
      } else {
        var c := calls[|calls| - 1];
        CallStep(env, After(env, pool, earlier), chain[model], now, a, c);
        var after := OrderAfter(env, chain, pool, calls, model, now);
        AlignedStep(initial, before, after, a, removed, LeavesPool(env, c, now));
        VisitedLast(initial, a + removed, Removed(env, calls, model, attempt, now) + attempt, earlier, c, |base|);
      }
    }
  }

  lemma ModelInChain(env: Setting, chain: seq<Bytes>, pool: seq<Account>, calls: seq<Call>, model: nat, attempt: nat,
                     now: int)
    requires ModelLog(env, chain, pool, calls, model, attempt, now)
    ensures ValidPool(pool) && model < |chain|
  {
  }

  lemma NoneVisited(initial: seq<Seat>, calls: seq<Call>)
    ensures AllVisited(initial, 0, calls, |calls|)
  {
  }

  lemma VisitedLast(initial: seq<Seat>, p: nat, below: nat, earlier: seq<Call>, c: Call, from: nat)
    requires AllVisited(initial, p, earlier, from) && p < below && p < |initial| && initial[p] == SeatOf(c.account)
    ensures AllVisited(initial, below, earlier + [c], from)
  {
    VisitedMore(initial, p, below, earlier, from);
    assert Visited(initial, below, c);
  }

  lemma AlignedStart(order: seq<Seat>)
    ensures Aligned(order, order, 0, 0)
  {
  }

  lemma AlignedPastEnd(initial: seq<Seat>, current: seq<Seat>, attempt: nat, removed: nat)
    requires Aligned(initial, current, attempt, removed) && attempt >= |current|
    ensures Aligned(initial, current, attempt + 1, removed)
  {
  }

  /**
   The last call went to position k plus the number of the model's earlier calls that took their account out,
   in the tier order the model started with.
   */
  ghost predicate AtPosition(env: Setting, chain: seq<Bytes>, pool: seq<Account>, calls: seq<Call>, model: nat,
                             k: nat, now: int)
    requires calls != [] && model < |chain|
  {
    var earlier, last := calls[..|calls| - 1], calls[|calls| - 1];
    var initial := OrderAfter(env, chain, pool, Base(earlier, model, k), model, now);
    var p := k + Removed(env, earlier, model, k, now);
    p < |initial| && initial[p] == SeatOf(last.account)
  }

  /** The last call of the model went to an account none of its earlier calls went to, in no better tier than theirs. */
  predicate IsFurtherOn(calls: seq<Call>, model: nat, k: nat)
    requires calls != []
  {
    var earlier, last := calls[..|calls| - 1], calls[|calls| - 1];
    forall i :: |Base(earlier, model, k)| <= i < |earlier| ==>
      earlier[i].account.id != last.account.id && earlier[i].account.priority <= last.account.priority
  }

  /**
   Attempt k of a model goes to its position in the order the model started with. So no account is called
   twice and no tier is entered again.
   */
  lemma {:induction false} CallPosition(env: Setting, chain: seq<Bytes>, pool: seq<Account>, calls: seq<Call>,
                                        model: nat, k: nat, now: int)
    requires model < |chain| && IsCallOf(calls, model, k)
    requires ModelLog(env, chain, pool, calls, model, k + 1, now)
    ensures AtPosition(env, chain, pool, calls, model, k, now) && IsFurtherOn(calls, model, k)
  {
    hide PickFrom, Order, LivePool, LeavesPool, Note, ModelLog, Log, LiveThroughout, After, Removed, Base;
    ModelInChain(env, chain, pool, calls, model, k + 1, now);
    var earlier, last := calls[..|calls| - 1], calls[|calls| - 1];
    LastAttempt(env, chain, pool, calls, model, k + 1, now);
    PositionInvariant(env, chain, pool, earlier, model, k, now);
    var base, removed := Base(earlier, model, k), Removed(env, earlier, model, k, now);
    AfterIsValid(env, pool, base);
    PickIsInOrder(env.table, After(env, pool, earlier), chain[model], now, k);
    var initial := OrderAfter(env, chain, pool, base, model, now);
    var before := OrderAfter(env, chain, pool, earlier, model, now);
    AlignedStep(initial, before, before, k, removed, false);
    OrderIsSorted(env.table, After(env, pool, base), chain[model], now);
    hide Aligned, OrderAfter;
    forall i | |base| <= i < |earlier|
      ensures earlier[i].account.id != last.account.id && earlier[i].account.priority <= last.account.priority
    {
      assert Visited(initial, k + removed, earlier[i]);
      var q: nat :| q < k + removed && q < |initial| && initial[q] == SeatOf(earlier[i].account);
      assert SeatTier(initial[q]) <= SeatTier(initial[k + removed]);
    }
  }

  lemma OrderIsSorted(t: Table, pool: seq<Account>, model: Bytes, now: int)
    requires ValidPool(pool)
    ensures Distinct(Order(t, pool, model, now)) && Ascending(Order(t, pool, model, now), SeatTier)
  {
    LiveSeats(t, pool, model, now);
    SortDistinct(Seats(LivePool(t, pool, model, now)));
    StableSortIsStable(Seats(LivePool(t, pool, model, now)), SeatTier);
  }

  // ---------------------------------------------------------------- skipped accounts

  /** The walk keeps to the order it started with as long as no call took its account out of it, and no longer. */
  lemma {:induction false} KeepsPlaceIff(
      env: Setting, chain: seq<Bytes>, pool: seq<Account>, calls: seq<Call>, model: nat, k: nat, now: int)
    requires model < |chain| && IsCallOf(calls, model, k)
    requires ModelLog(env, chain, pool, calls, model, k + 1, now)
    ensures var earlier := calls[..|calls| - 1];
            var initial := OrderAfter(env, chain, pool, Base(earlier, model, k), model, now);
            (k < |initial| && initial[k] == SeatOf(calls[|calls| - 1].account))
            <==> Removed(env, earlier, model, k, now) == 0
  {
    hide Order, ModelLog, After, Removed, Base;
    CallPosition(env, chain, pool, calls, model, k, now);
    ModelInChain(env, chain, pool, calls, model, k + 1, now);
    var base := Base(calls[..|calls| - 1], model, k);
    AfterIsValid(env, pool, base);
    OrderIsSorted(env.table, After(env, pool, base), chain[model], now);
  }
}
