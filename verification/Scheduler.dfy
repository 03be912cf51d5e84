/** The scheduler: the tiered pick, health updates in place, and the reaper. */
module Scheduling {
  import opened Wrappers
  import opened Bytes
  import opened Streaming
  import opened UpstreamErrors
  import opened Accounts
  import opened StableSorting
  import opened Routing

  // ---------------------------------------------------------------- the pick, on values

  function Tier(a: Account): int {
    a.priority
  }

  ghost predicate IsLive(t: Table, a: Account, model: Bytes, now: int) {
    Eligible(t, model, a.provider) && Schedulable(a, now)
  }

  /** Cooling, or paused with a cooldown. An unhealthy account with a blank cooldown is neither. */
  ghost predicate IsCooling(t: Table, a: Account, model: Bytes, now: int) {
    Eligible(t, model, a.provider) && !Schedulable(a, now) && (a.healthy || HasCooldown(a))
  }

  /** The accounts that may serve the model now. */
  ghost function LivePool(t: Table, accounts: seq<Account>, model: Bytes, now: int): seq<Account> {
    if accounts == [] then []
    else
      var last := accounts[|accounts| - 1];
      var front := LivePool(t, accounts[..|accounts| - 1], model, now);
      if IsLive(t, last, model, now) then front + [last] else front
  }

  /** The accounts to fall back on when none is live. */
  ghost function CoolingPool(t: Table, accounts: seq<Account>, model: Bytes, now: int): seq<Account> {
    if accounts == [] then []
    else
      var last := accounts[|accounts| - 1];
      var front := CoolingPool(t, accounts[..|accounts| - 1], model, now);
      if IsCooling(t, last, model, now) then front + [last] else front
  }

  function Itself(p: int): int {
    p
  }

  function At<T>(s: seq<T>, i: int): Option<T> {
    if 0 <= i < |s| then Some(s[i]) else None
  }

  /** The `attempt`-th live account, tier by tier; with none live, the `attempt`-th cooling one, soonest first. */
  ghost function PickFrom(t: Table, accounts: seq<Account>, attempt: int, model: Bytes, now: int): Option<Account> {
    var live := LivePool(t, accounts, model, now);
    if live != [] then At(StableSort(live, Tier), attempt)
    else At(StableSort(CoolingPool(t, accounts, model, now), Expiry), attempt)
  }

  lemma {:induction false} PoolMembers(t: Table, accounts: seq<Account>, model: Bytes, now: int)
    ensures forall a :: a in LivePool(t, accounts, model, now) <==> a in accounts && IsLive(t, a, model, now)
    ensures forall a :: a in CoolingPool(t, accounts, model, now) <==> a in accounts && IsCooling(t, a, model, now)
  {
    hide Eligible, IsLive, IsCooling;
    if accounts != [] {
      PoolMembers(t, accounts[..|accounts| - 1], model, now);
    }
  }

  /**
   A picked account may serve the model, and may be scheduled now unless no account may; one that is
   paused with a blank cooldown is never picked.
   */
  lemma PickedMayServe(t: Table, accounts: seq<Account>, attempt: int, model: Bytes, now: int)
    requires PickFrom(t, accounts, attempt, model, now).Some?
    ensures var a := PickFrom(t, accounts, attempt, model, now).value;
            && a in accounts && Eligible(t, model, a.provider) && (a.healthy || HasCooldown(a))
            && (|| Schedulable(a, now)
                || forall b :: b in accounts && Eligible(t, model, b.provider) ==> !Schedulable(b, now))
  {
    var live, cooling := LivePool(t, accounts, model, now), CoolingPool(t, accounts, model, now);
    PoolMembers(t, accounts, model, now);
    StableSortIsStable(live, Tier);
    SameMembers(StableSort(live, Tier), live, Tier);
    StableSortIsStable(cooling, Expiry);
    SameMembers(StableSort(cooling, Expiry), cooling, Expiry);
    StableSortLength(live, Tier);
    hide StableSort, WithKey, LivePool, CoolingPool, Eligible;
    var a := PickFrom(t, accounts, attempt, model, now).value;
    assert live != [] ==> a in live;
    assert live == [] ==> a in cooling;
    assert live == [] ==> forall b :: b !in live;
  }

  /** May serve the model now. */
  ghost predicate MayServeNow(t: Table, a: Account, model: Bytes, now: int) {
    Eligible(t, model, a.provider) && a.healthy && (a.cooldown.Stamp? ==> a.cooldown.at <= now)
  }

  /** May be fallen back on: cannot serve now, and is cooling down, or paused with something stored as cooldown. */
  ghost predicate MayBeFallenBackOn(t: Table, a: Account, model: Bytes, now: int) {
    && Eligible(t, model, a.provider) && !MayServeNow(t, a, model, now)
    && (a.healthy || a.cooldown.Stamp? || a.cooldown.Garbled?)
  }

  /** `a` cools down no later than `b`; an account without a readable stamp comes after every one before year 10000. */
  predicate CoolsNoLater(a: Account, b: Account) {
    && (a.cooldown.Stamp? && b.cooldown.Stamp? ==> a.cooldown.at <= b.cooldown.at)
    && (!a.cooldown.Stamp? && b.cooldown.Stamp? ==> b.cooldown.at >= 253_402_300_800_000_000_000)
  }

  /** The attempts find every account that may serve, each tier before the next. */
  lemma LivePicksByTier(t: Table, accounts: seq<Account>, model: Bytes, now: int, i: nat, j: nat)
    requires i < j && PickFrom(t, accounts, j, model, now).Some?
    requires exists a :: a in accounts && MayServeNow(t, a, model, now)
    ensures PickFrom(t, accounts, i, model, now).Some?
    ensures PickFrom(t, accounts, i, model, now).value.priority <= PickFrom(t, accounts, j, model, now).value.priority
  {
    var live := LivePool(t, accounts, model, now);
    PoolMembers(t, accounts, model, now);
    StableSortIsStable(live, Tier);
    hide StableSort, WithKey, LivePool, CoolingPool, Eligible;
    var a :| a in accounts && MayServeNow(t, a, model, now);
    assert IsLive(t, a, model, now) && a in live;
    var sorted := StableSort(live, Tier);
    assert Tier(sorted[i]) <= Tier(sorted[j]);
  }

  lemma EveryLiveIsPicked(t: Table, accounts: seq<Account>, model: Bytes, now: int, a: Account) returns (k: nat)
    requires a in accounts && MayServeNow(t, a, model, now)
    ensures PickFrom(t, accounts, k, model, now) == Some(a)
  {
    var live := LivePool(t, accounts, model, now);
    PoolMembers(t, accounts, model, now);
    StableSortIsStable(live, Tier);
    SameMembers(StableSort(live, Tier), live, Tier);
    hide StableSort, WithKey, LivePool, CoolingPool, Eligible;
    assert IsLive(t, a, model, now) && a in live;
    k :| k < |StableSort(live, Tier)| && StableSort(live, Tier)[k] == a;
  }

  /** With no account that may serve, the attempts go to the cooling ones, those that cool down soonest first. */
  lemma FallbackPicksSoonest(t: Table, accounts: seq<Account>, model: Bytes, now: int, i: nat, j: nat)
    requires forall a :: a in accounts ==> !MayServeNow(t, a, model, now)
    requires i < j && PickFrom(t, accounts, j, model, now).Some?
    ensures PickFrom(t, accounts, i, model, now).Some?
    ensures CoolsNoLater(PickFrom(t, accounts, i, model, now).value, PickFrom(t, accounts, j, model, now).value)
  {
    var cooling := CoolingPool(t, accounts, model, now);
    NoneLive(t, accounts, model, now);
    StableSortIsStable(cooling, Expiry);
    hide StableSort, WithKey, LivePool, CoolingPool, Eligible;
    var sorted := StableSort(cooling, Expiry);
    assert Expiry(sorted[i]) <= Expiry(sorted[j]);
  }

  lemma {:induction false} NoneLive(t: Table, accounts: seq<Account>, model: Bytes, now: int)
    requires forall a :: a in accounts ==> !MayServeNow(t, a, model, now)
    ensures LivePool(t, accounts, model, now) == []
  {
    hide Eligible;
    if accounts != [] {
      NoneLive(t, accounts[..|accounts| - 1], model, now);
      assert accounts[|accounts| - 1] in accounts;
      assert !IsLive(t, accounts[|accounts| - 1], model, now);
    }
  }

  lemma EveryCoolingIsPicked(t: Table, accounts: seq<Account>, model: Bytes, now: int, a: Account) returns (k: nat)
    requires forall b :: b in accounts ==> !MayServeNow(t, b, model, now)
    requires a in accounts && MayBeFallenBackOn(t, a, model, now)
    ensures PickFrom(t, accounts, k, model, now) == Some(a)
  {
    var cooling := CoolingPool(t, accounts, model, now);
    NoneLive(t, accounts, model, now);
    PoolMembers(t, accounts, model, now);
    StableSortIsStable(cooling, Expiry);
    SameMembers(StableSort(cooling, Expiry), cooling, Expiry);
    hide StableSort, WithKey, LivePool, CoolingPool, Eligible;
    assert IsCooling(t, a, model, now) && a in cooling;
    k :| k < |StableSort(cooling, Expiry)| && StableSort(cooling, Expiry)[k] == a;
  }

  /** So the first attempt falls back on an account whose stamp no other's precedes. */
  lemma FirstFallbackIsSoonest(t: Table, accounts: seq<Account>, model: Bytes, now: int, b: Account)
    requires forall a :: a in accounts ==> !MayServeNow(t, a, model, now)
    requires b in accounts && MayBeFallenBackOn(t, b, model, now)
    ensures PickFrom(t, accounts, 0, model, now).Some?
    ensures CoolsNoLater(PickFrom(t, accounts, 0, model, now).value, b)
  {
    hide PickFrom, MayServeNow, MayBeFallenBackOn;
    var k := EveryCoolingIsPicked(t, accounts, model, now, b);
    if k > 0 {
      FallbackPicksSoonest(t, accounts, model, now, 0, k);
    }
  }

  /** A picked account is routed: no enabled route matches, it is the mock provider's, or a best match names it. */
  lemma PickedIsRouted(t: Table, accounts: seq<Account>, attempt: int, model: Bytes, now: int)
    requires PickFrom(t, accounts, attempt, model, now).Some?
    ensures var provider := t.m.Provider(PickFrom(t, accounts, attempt, model, now).value.provider);
            || provider == "mock"
            || (forall r :: r in t.routes ==> !t.m.Hit(r, TrimSpace(model)))
            || (exists r :: r in t.routes && t.m.Hit(r, TrimSpace(model)) && t.m.Provider(r.provider) == provider
                  && forall q :: q in t.routes && t.m.Hit(q, TrimSpace(model)) ==> r.priority <= q.priority)
  {
    PickedMayServe(t, accounts, attempt, model, now);
    hide PickFrom, TrimSpace;
  }

  /** With one account in the pool, it is picked exactly when it may serve and is not paused with a blank cooldown. */
  lemma OnlyAccountPicked(t: Table, a: Account, attempt: int, model: Bytes, now: int)
    ensures PickFrom(t, [a], attempt, model, now)
         == if attempt == 0 && Eligible(t, model, a.provider) && (a.healthy || HasCooldown(a)) then Some(a) else None
  {
    hide Eligible;
    assert [a][..0] == [];
    assert LivePool(t, [a], model, now) == if IsLive(t, a, model, now) then [a] else [];
    assert CoolingPool(t, [a], model, now) == if IsCooling(t, a, model, now) then [a] else [];
    SortOfOne(a, Tier);
    SortOfOne(a, Expiry);
    hide LivePool, CoolingPool, StableSort;
  }

  lemma SortOfOne(a: Account, key: Account -> int)
    ensures StableSort([a], key) == [a] && StableSort<Account>([], key) == []
  {
  }

  /**
   A paused account with a stamp is called when nothing else is left; its success takes it out of every later pick,
   for good.
   */
  lemma SuccessStrandsPausedAccount(t: Table, a: Account, read: ErrorReader, model: Bytes, now: int, attempt: int,
                                    later: int)
    requires Eligible(t, model, a.provider) && !a.healthy && HasCooldown(a) && a.id != []
    ensures PickFrom(t, [a], 0, model, now) == Some(a)
    ensures var after := Note([a], a.id, None, read, now);
            && PickFrom(t, after, attempt, model, later) == None
            && Reap(after, later) == after
  {
    hide Eligible, PickFrom;
    OnlyAccountPicked(t, a, 0, model, now);
    OnlyAccountPicked(t, NoteSuccess(a), attempt, model, later);
    assert Note([a], a.id, None, read, now) == [NoteSuccess(a)];
  }

  // ---------------------------------------------------------------- tiers

  /** The accounts of these tiers, one tier after the other. */
  function Flatten(tiers: map<int, seq<Account>>, priorities: seq<int>): seq<Account>
    requires forall p :: p in priorities ==> p in tiers
  {
    if priorities == [] then []
    else
      var last := priorities[|priorities| - 1];
      Flatten(tiers, priorities[..|priorities| - 1]) + tiers[last]
  }

  /** `tiers` sorts `s` into its tiers, each in the order of `s`. */
  ghost predicate AreTiers(tiers: map<int, seq<Account>>, s: seq<Account>) {
    forall p: int :: WithKey(s, Tier, p) == if p in tiers then tiers[p] else []
  }

  lemma {:induction false} WithKeyOfConcat<T>(a: seq<T>, b: seq<T>, key: T -> int, k: int)
    ensures WithKey(a + b, key, k) == WithKey(a, key, k) + WithKey(b, key, k)
  {
    if a == [] {
      assert a + b == b;
    } else {
      WithKeyOfConcat(a[1..], b, key, k);
      assert (a + b)[1..] == a[1..] + b;
    }
  }

  lemma {:induction false} WithKeyTwice<T>(s: seq<T>, key: T -> int, p: int, k: int)
    ensures WithKey(WithKey(s, key, p), key, k) == if k == p then WithKey(s, key, p) else []
  {
    if s != [] {
      WithKeyTwice(s[1..], key, p, k);
      var head := if key(s[0]) == p then [s[0]] else [];
      WithKeyOfConcat(head, WithKey(s[1..], key, p), key, k);
      assert head != [] ==> head[1..] == [];
    }
  }

  lemma {:induction false} FlattenedTier(tiers: map<int, seq<Account>>, s: seq<Account>, priorities: seq<int>, k: int)
    requires AreTiers(tiers, s)
    requires forall p :: p in priorities ==> p in tiers
    requires forall i, j :: 0 <= i < j < |priorities| ==> priorities[i] < priorities[j]
    ensures WithKey(Flatten(tiers, priorities), Tier, k) == if k in priorities then tiers[k] else []
  {
    if priorities != [] {
      var front, last := priorities[..|priorities| - 1], priorities[|priorities| - 1];
      FlattenedTier(tiers, s, front, k);
      hide WithKey;
      WithKeyOfConcat(Flatten(tiers, front), tiers[last], Tier, k);
      assert tiers[last] == WithKey(s, Tier, last);
      WithKeyTwice(s, Tier, last, k);
      assert k in priorities <==> k in front || k == last;
      assert k == last ==> k !in front;
    }
  }

  lemma {:induction false} FlattenedAscends(tiers: map<int, seq<Account>>, s: seq<Account>, priorities: seq<int>)
    requires AreTiers(tiers, s)
    requires forall p :: p in priorities ==> p in tiers
    requires forall i, j :: 0 <= i < j < |priorities| ==> priorities[i] < priorities[j]
    ensures Ascending(Flatten(tiers, priorities), Tier)
    ensures forall a :: a in Flatten(tiers, priorities) ==> Tier(a) in priorities
  {
    hide WithKey;
    if priorities != [] {
      var front, last := priorities[..|priorities| - 1], priorities[|priorities| - 1];
      FlattenedAscends(tiers, s, front);
      assert tiers[last] == WithKey(s, Tier, last);
      WithKeyMembers(s, Tier, last);
      hide AreTiers;
      assert forall p :: p in front ==> p < last;
    }
  }

  /** Reading the tiers in ascending order is sorting stably by tier. */
  lemma FlattenIsStableSort(tiers: map<int, seq<Account>>, s: seq<Account>, priorities: seq<int>)
    requires AreTiers(tiers, s)
    requires forall p :: p in priorities <==> p in tiers
    requires forall i, j :: 0 <= i < j < |priorities| ==> priorities[i] < priorities[j]
    ensures Flatten(tiers, priorities) == StableSort(s, Tier)
  {
    var flat := Flatten(tiers, priorities);
    forall k: int ensures WithKey(flat, Tier, k) == WithKey(s, Tier, k) {
      FlattenedTier(tiers, s, priorities, k);
    }
    FlattenedAscends(tiers, s, priorities);
    StableSortIsStable(s, Tier);
    StableSortIsUnique(flat, StableSort(s, Tier), s, Tier);
  }

  // ---------------------------------------------------------------- the scheduler

  class Scheduler {
    var accounts: seq<Account>
    var table: Table
    const read: ErrorReader

    constructor (accounts: seq<Account>, table: Table, read: ErrorReader)
      ensures this.accounts == accounts && this.table == table && this.read == read
    {
      this.accounts := accounts;
      this.table := table;
      this.read := read;
    }

    method Pick(attempt: int, model: Bytes, now: int) returns (r: Option<Account>)
      ensures r == PickFrom(table, accounts, attempt, model, now)
    {
      hide LivePool, CoolingPool, StableSort, AreTiers;
      ghost var live := LivePool(table, accounts, model, now);
      var tiers, cooling := SplitPool(model, now);
      var priorities := SortedKeys(tiers);
      FlattenIsStableSort(tiers, live, priorities);
      StableSortLength(live, Tier);
      var seen: nat;
      seen, r := PickTier(tiers, priorities, attempt);
      if r.Some? {
        return;
      }
      if seen > 0 || |cooling| == 0 {
        assert |cooling| == 0 ==> StableSort(cooling, Expiry) == [] by { StableSortLength(cooling, Expiry); }
        return None;
      }
      var sorted := StableSort(cooling, Expiry);
      if attempt < 0 || attempt >= |sorted| {
        return None;
      }
      return Some(sorted[attempt]);
    }

    /** The second loop of `Pick`: walks the tiers with a running counter. */
    method PickTier(tiers: map<int, seq<Account>>, priorities: seq<int>, attempt: int)
      returns (seen: nat, r: Option<Account>)
      requires forall p :: p in priorities ==> p in tiers
      ensures r == At(Flatten(tiers, priorities), attempt)
      ensures r.None? ==> seen == |Flatten(tiers, priorities)|
    {
      seen := 0;
      assert Flatten(tiers, priorities[..0]) == [];
      hide Flatten;
      for i := 0 to |priorities|
        invariant seen == |Flatten(tiers, priorities[..i])|
        invariant !(0 <= attempt < seen)
      {
        var p := priorities[i];
        assert p in priorities;
        var tier := tiers[p];
        ghost var before := Flatten(tiers, priorities[..i]);
        FlattenPrefix(tiers, priorities, i + 1);
        FlattenMore(tiers, priorities, i);
        for j := 0 to |tier|
          invariant seen == |before| + j
          invariant !(0 <= attempt < seen)
        {
          if seen == attempt {
            assert (before + tier)[|before| + j] == tier[j];
            return seen, Some(tier[j]);
          }
          seen := seen + 1;
        }
      }
      assert priorities[..|priorities|] == priorities;
      return seen, None;
    }

    /** The first loop of `Pick`: the live accounts by tier, and the cooling candidates. */
    method SplitPool(model: Bytes, now: int) returns (tiers: map<int, seq<Account>>, cooling: seq<Account>)
      ensures AreTiers(tiers, LivePool(table, accounts, model, now))
      ensures cooling == CoolingPool(table, accounts, model, now)
    {
      hide LivePool, CoolingPool, AreTiers, Eligible;
      tiers, cooling := map[], [];
      NoPools(table, model, now);
      for i := 0 to |accounts|
        invariant AreTiers(tiers, LivePool(table, accounts[..i], model, now))
        invariant cooling == CoolingPool(table, accounts[..i], model, now)
      {
        var a := accounts[i];
        assert accounts[..0] == [] && accounts[..i + 1] == accounts[..i] + [a];
        PoolsOfMore(table, accounts[..i], a, model, now);
        var eligible := AccountEligibleForModel(table, a.provider, model);
        if !eligible {
          continue;
        }
        if Schedulable(a, now) {
          TiersOfMore(tiers, LivePool(table, accounts[..i], model, now), a);
          tiers := tiers[a.priority := (if a.priority in tiers then tiers[a.priority] else []) + [a]];
          continue;
        }
        if a.healthy || HasCooldown(a) {
          cooling := cooling + [a];
        }
      }
      assert accounts[..|accounts|] == accounts;
    }

    /** The map's keys in an arbitrary order, as ranging over a map gives them. */
    method Keys(tiers: map<int, seq<Account>>) returns (found: seq<int>)
      ensures forall p :: p in found <==> p in tiers
      ensures forall i, j :: 0 <= i < j < |found| ==> found[i] != found[j]
    {
      found := [];
      var left: set<int> := tiers.Keys;
      while |left| > 0
        invariant forall p :: p in tiers <==> p in found || p in left
        invariant forall p :: p in found ==> p !in left
        invariant forall i, j :: 0 <= i < j < |found| ==> found[i] != found[j]
        decreases |left|
      {
        assert (forall p: int :: p !in left) ==> left == {};
        var p :| p in left;
        found, left := found + [p], left - {p};
      }
    }

    method SortedKeys(tiers: map<int, seq<Account>>) returns (priorities: seq<int>)
      ensures forall p :: p in priorities <==> p in tiers
      ensures forall i, j :: 0 <= i < j < |priorities| ==> priorities[i] < priorities[j]
    {
      var found := Keys(tiers);
      priorities := StableSort(found, Itself);
      StableSortIsStable(found, Itself);
      SameMembers(priorities, found, Itself);
      hide StableSort, WithKey;
      forall i, j | 0 <= i < j < |priorities| ensures priorities[i] < priorities[j] {
        assert Itself(priorities[i]) <= Itself(priorities[j]);
        if priorities[i] == priorities[j] {
          TwiceInKey(priorities, Itself, i, j);
          OnceInKey(found, priorities[i]);
        }
      }
    }

    method NoteUpstreamResult(id: Bytes, result: Option<UpstreamError>, now: int)
      modifies this`accounts
      ensures accounts == Note(old(accounts), id, result, read, now)
    {
      hide CooldownFor;
      if id == "" {
        return;
      }
      var idx := 0;
      while idx < |accounts| && accounts[idx].id != id
        invariant idx <= |accounts| && forall k :: 0 <= k < idx ==> accounts[k].id != id
      {
        idx := idx + 1;
      }
      if idx == |accounts| {
        return;
      }
      var a := accounts[idx];
      match result {
        case None =>
          a := a.(timeouts := 0, forbidden := 0, limited := 0, lastError := [], cooldown := Unset);
        case Some(err) =>
          a := a.(lastError := CapError(err.text));
          var v, paused, cooldown := read(err), false, 0;
          match v.failure {
            case Timeout =>
              a := a.(timeouts := a.timeouts + 1);
              if a.timeouts >= TIMEOUT_PAUSE {
                paused, cooldown := true, TIMEOUT_COOLDOWN;
              }
            case Forbidden =>
              a := a.(forbidden := a.forbidden + 1);
              if a.forbidden >= FORBIDDEN_PAUSE {
                paused, cooldown := true, FORBIDDEN_COOLDOWN;
              }
            case RateLimit =>
              a := a.(limited := a.limited + 1);
              var cd := CooldownFor(v, now);
              if cd <= 0 {
                cd := RATE_LIMIT_COOLDOWN;
              }
              a := a.(cooldown := StampOf(now + cd));
              if a.limited >= RATE_LIMIT_PAUSE {
                paused, cooldown := true, if cd < RATE_LIMIT_COOLDOWN then RATE_LIMIT_COOLDOWN else cd;
              }
            case Other =>
          }
          if paused {
            a := a.(healthy := false);
            if a.cooldown.Unset? {
              a := a.(cooldown := StampOf(now + cooldown));
            }
          }
      }
      accounts := accounts[idx := a];
      assert IndexOfAccount(old(accounts), id) == idx;
    }

    method ReapCooldowns(now: int) returns (n: nat)
      modifies this`accounts
      ensures accounts == Reap(old(accounts), now) && n == ReapCount(old(accounts), now)
    {
      n := 0;
      ghost var before := accounts;
      for i := 0 to |accounts|
        invariant |accounts| == |before| && n == ReapCount(before[..i], now)
        invariant forall k :: 0 <= k < i ==>
          accounts[k] == if Reapable(before[k], now) then Reenabled(before[k]) else before[k]
        invariant forall k :: i <= k < |before| ==> accounts[k] == before[k]
      {
        assert before[..i + 1][..i] == before[..i];
        var a := accounts[i];
        if a.healthy || !HasCooldown(a) {
          continue;
        }
        if !a.cooldown.Stamp? || a.cooldown.padded || a.cooldown.at > now {
          continue;
        }
        a := a.(healthy := true, cooldown := Unset, timeouts := 0, forbidden := 0, limited := 0, lastError := []);
        accounts := accounts[i := a];
        n := n + 1;
      }
      assert before[..|before|] == before;
    }

    /** The operator's switch. */
    method SetAccountHealth(id: Bytes, healthy: bool)
      modifies this`accounts
      ensures |accounts| == |old(accounts)|
      ensures accounts == SwitchHealth(old(accounts), id, healthy)
    {
      for i := 0 to |accounts|
        invariant accounts == old(accounts)
        invariant i <= IndexOfAccount(accounts, id)
      {
        if accounts[i].id == id {
          var a := accounts[i].(healthy := healthy);
          if healthy {
            a := a.(cooldown := Unset);
          }
          accounts := accounts[i := a];
          return;
        }
      }
    }
  }

  // ---------------------------------------------------------------- lemmas of the loops

  lemma NoPools(t: Table, model: Bytes, now: int)
    ensures AreTiers(map[], LivePool(t, [], model, now)) && CoolingPool(t, [], model, now) == []
  {
  }

  lemma PoolsOfMore(t: Table, front: seq<Account>, a: Account, model: Bytes, now: int)
    ensures var pool := LivePool(t, front, model, now);
            LivePool(t, front + [a], model, now) == if IsLive(t, a, model, now) then pool + [a] else pool
    ensures var pool := CoolingPool(t, front, model, now);
            CoolingPool(t, front + [a], model, now) == if IsCooling(t, a, model, now) then pool + [a] else pool
  {
    assert (front + [a])[..|front|] == front;
  }

  lemma FlattenMore(tiers: map<int, seq<Account>>, priorities: seq<int>, i: nat)
    requires forall p :: p in priorities ==> p in tiers
    requires i < |priorities|
    ensures Flatten(tiers, priorities[..i + 1]) == Flatten(tiers, priorities[..i]) + tiers[priorities[i]]
  {
    assert priorities[..i + 1][..i] == priorities[..i];
  }

  lemma FlattenPrefix(tiers: map<int, seq<Account>>, priorities: seq<int>, n: nat)
    requires forall p :: p in priorities ==> p in tiers
    requires n <= |priorities|
    ensures Flatten(tiers, priorities[..n]) <= Flatten(tiers, priorities)
    decreases |priorities| - n
  {
    if n < |priorities| {
      FlattenPrefix(tiers, priorities, n + 1);
      assert priorities[..n + 1][..n] == priorities[..n];
    } else {
      assert priorities[..n] == priorities;
    }
  }

  lemma TiersOfMore(tiers: map<int, seq<Account>>, s: seq<Account>, a: Account)
    requires AreTiers(tiers, s)
    ensures AreTiers(tiers[a.priority := (if a.priority in tiers then tiers[a.priority] else []) + [a]], s + [a])
  {
    forall p: int ensures WithKey(s + [a], Tier, p) == WithKey(s, Tier, p) + if p == a.priority then [a] else [] {
      WithKeyOfConcat(s, [a], Tier, p);
      assert [a][1..] == [];
    }
  }

  lemma {:induction false} StableSortLength<T>(s: seq<T>, key: T -> int)
    ensures |StableSort(s, key)| == |s|
  {
    if s != [] {
      StableSortLength(s[1..], key);
      InsertLength(s[0], StableSort(s[1..], key), key);
    }
  }

  lemma {:induction false} InsertLength<T>(x: T, s: seq<T>, key: T -> int)
    ensures |Insert(x, s, key)| == |s| + 1
  {
    if s != [] && key(x) > key(s[0]) {
      InsertLength(x, s[1..], key);
    }
  }

  lemma {:induction false} TwiceInKey<T>(s: seq<T>, key: T -> int, i: nat, j: nat)
    requires i < j < |s| && key(s[i]) == key(s[j])
    ensures |WithKey(s, key, key(s[i]))| >= 2
  {
    if i > 0 {
      TwiceInKey(s[1..], key, i - 1, j - 1);
    } else {
      WithKeyMembers(s[1..], key, key(s[0]));
      assert s[1..][j - 1] == s[j];
      assert s[j] in WithKey(s[1..], key, key(s[0]));
    }
  }

  lemma {:induction false} NotInKey(s: seq<int>, p: int)
    requires p !in s
    ensures WithKey(s, Itself, p) == []
  {
    if s != [] {
      NotInKey(s[1..], p);
    }
  }

  lemma {:induction false} OnceInKey(s: seq<int>, p: int)
    requires forall i, j :: 0 <= i < j < |s| ==> s[i] != s[j]
    ensures |WithKey(s, Itself, p)| <= 1
  {
    if s != [] {
      OnceInKey(s[1..], p);
      if s[0] == p {
        NotInKey(s[1..], p);
      }
    }
  }
}
