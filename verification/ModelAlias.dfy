/** Model aliases and the chain of models one request may try. */
module ModelAlias {
  import opened Wrappers
  import opened Bytes
  import opened Streaming
  import opened Accounts
  import opened Scheduling
  import opened Walks
  import opened Relaying

  /** The alias table, with the case folding it uses; folding itself is not part of this model. */
  datatype AliasConfig = AliasConfig(
    aliases: map<Bytes, Bytes>,
    fallbacks: map<Bytes, seq<Bytes>>,
    maxFallbackTries: int,
    lower: Bytes -> Bytes,
    equalFold: (Bytes, Bytes) -> bool)
  {
    /** How many fallbacks may follow the canonical model. */
    function Extra(): (n: nat)
      ensures n > 0
    {
      if maxFallbackTries <= 0 then 2 else maxFallbackTries
    }

    /** The alias under exactly this key, unless it is blank. */
    function Alias(key: Bytes): Option<Bytes> {
      if key in aliases && TrimSpace(aliases[key]) != [] then Some(TrimSpace(aliases[key])) else None
    }

    predicate Folds(key: Bytes, name: Bytes) {
      equalFold(key, name) || lower(key) == lower(name)
    }
  }

  // ---------------------------------------------------------------- resolving a name

  /**
   What a name may resolve to: its own alias; without one, some alias whose key differs only in case
   (the table is walked in no fixed order); without any, the trimmed name.
   */
  ghost predicate ResolvesTo(cfg: AliasConfig, requested: Bytes, r: Bytes) {
    var name := TrimSpace(requested);
    if name == [] then r == []
    else if cfg.Alias(name).Some? then Some(r) == cfg.Alias(name)
    else
      || (exists key: Bytes :: cfg.Folds(key, name) && cfg.Alias(key) == Some(r))
      || (r == name && forall key: Bytes :: cfg.Folds(key, name) ==> cfg.Alias(key).None?)
  }

  method ResolveModelAlias(cfg: AliasConfig, requested: Bytes) returns (r: Bytes)
    ensures ResolvesTo(cfg, requested, r)
  {
    hide TrimSpace;
    var name := TrimSpace(requested);
    if name == [] {
      return name;
    }
    if name in cfg.aliases && TrimSpace(cfg.aliases[name]) != [] {
      return TrimSpace(cfg.aliases[name]);
    }
    var low := cfg.lower(name);
    var keys := cfg.aliases.Keys;
    while keys != {}
      invariant keys <= cfg.aliases.Keys
      invariant forall key: Bytes :: key !in keys && cfg.Folds(key, name) ==> cfg.Alias(key).None?
      decreases |keys|
    {
      assert (forall k: Bytes :: k !in keys) ==> keys == {};
      var key: Bytes :| key in keys;
      if cfg.equalFold(key, name) || cfg.lower(key) == low {
        if TrimSpace(cfg.aliases[key]) != [] {
          assert cfg.Folds(key, name);
          return TrimSpace(cfg.aliases[key]);
        }
      }
      keys := keys - {key};
    }
    return name;
  }

  // ---------------------------------------------------------------- the chain

  /** The fallback list consulted: the canonical model's, or when that is empty the requested name's. */
  function FallbackList(cfg: AliasConfig, requested: Bytes, canonical: Bytes): seq<Bytes> {
    if canonical in cfg.fallbacks && cfg.fallbacks[canonical] != [] then cfg.fallbacks[canonical]
    else if requested in cfg.fallbacks then cfg.fallbacks[requested]
    else []
  }

  /** The model a fallback entry names: nothing when blank, else its alias, resolved once. */
  function Entry(cfg: AliasConfig, m: Bytes): Option<Bytes> {
    var trimmed := TrimSpace(m);
    if trimmed == [] then None
    else if cfg.Alias(trimmed).Some? then cfg.Alias(trimmed)
    else Some(trimmed)
  }

  /** The case-folded name of the model an entry names. */
  function KeyOf(cfg: AliasConfig, m: Bytes): Option<Bytes> {
    match Entry(cfg, m)
    case None => None
    case Some(model) => Some(cfg.lower(model))
  }

  /** The canonical model, or one of the first `n` entries, has this case-folded name. */
  predicate Taken(cfg: AliasConfig, canonical: Bytes, list: seq<Bytes>, n: nat, key: Bytes)
    requires n <= |list|
  {
    key == cfg.lower(canonical) || exists j :: 0 <= j < n && KeyOf(cfg, list[j]) == Some(key)
  }

  /** Entry `j` names a model that neither the canonical model nor an earlier entry names, up to case. */
  predicate IsNew(cfg: AliasConfig, canonical: Bytes, list: seq<Bytes>, j: nat)
    requires j < |list|
  {
    Entry(cfg, list[j]).Some? && !Taken(cfg, canonical, list, j, KeyOf(cfg, list[j]).value)
  }

  /** The new models among the first `n` entries, in order. */
  function NewModels(cfg: AliasConfig, canonical: Bytes, list: seq<Bytes>, n: nat): seq<Bytes>
    requires n <= |list|
  {
    if n == 0 then []
    else
      var front := NewModels(cfg, canonical, list, n - 1);
      if IsNew(cfg, canonical, list, n - 1) then front + [Entry(cfg, list[n - 1]).value] else front
  }

  /** The models to try after `canonical`. */
  function Chain(cfg: AliasConfig, requested: Bytes, canonical: Bytes): seq<Bytes> {
    var list := FallbackList(cfg, requested, canonical);
    var found := NewModels(cfg, canonical, list, |list|);
    [canonical] + if |found| <= cfg.Extra() then found else found[..cfg.Extra()]
  }

  lemma {:induction false} NewModelsGrow(cfg: AliasConfig, canonical: Bytes, list: seq<Bytes>, m: nat, n: nat)
    requires m <= n <= |list|
    ensures NewModels(cfg, canonical, list, m) <= NewModels(cfg, canonical, list, n)
  {
    hide IsNew, Entry;
    if m < n {
      NewModelsGrow(cfg, canonical, list, m, n - 1);
    }
  }

  /** One more entry takes one more name, if it is not blank. */
  lemma OneMoreTaken(cfg: AliasConfig, canonical: Bytes, list: seq<Bytes>, j: nat, key: Bytes)
    requires j < |list|
    ensures Taken(cfg, canonical, list, j + 1, key)
       <==> Taken(cfg, canonical, list, j, key) || KeyOf(cfg, list[j]) == Some(key)
  {
    hide KeyOf;
  }

  method ModelAttemptChain(cfg: AliasConfig, requested: Bytes) returns (out: seq<Bytes>)
    ensures out != [] && ResolvesTo(cfg, requested, out[0])
    ensures out == Chain(cfg, requested, out[0])
  {
    hide TrimSpace, ResolvesTo, Taken;
    var canonical := ResolveModelAlias(cfg, requested);
    var maxExtra := if cfg.maxFallbackTries <= 0 then 2 else cfg.maxFallbackTries;
    out := [canonical];
    var seen := {cfg.lower(canonical)};
    var list := FallbackList(cfg, requested, canonical);
    NothingTaken(cfg, canonical, list);
    var i := 0;
    while i < |list|
      invariant i <= |list| && |out| <= maxExtra
      invariant out == [canonical] + NewModels(cfg, canonical, list, i)
      invariant forall key: Bytes :: key in seen <==> Taken(cfg, canonical, list, i, key)
    {
      forall key: Bytes {
        OneMoreTaken(cfg, canonical, list, i, key);
      }
      var m := TrimSpace(list[i]);
      i := i + 1;
      if m == [] {
        continue;
      }
      var m2 := if m in cfg.aliases && TrimSpace(cfg.aliases[m]) != [] then TrimSpace(cfg.aliases[m]) else m;
      var key := cfg.lower(m2);
      if key in seen {
        continue;
      }
      seen := seen + {key};
      out := out + [m2];
      if |out| - 1 >= maxExtra {
        break;
      }
    }
    NewModelsGrow(cfg, canonical, list, i, |list|);
  }

  lemma NothingTaken(cfg: AliasConfig, canonical: Bytes, list: seq<Bytes>)
    ensures forall key: Bytes :: Taken(cfg, canonical, list, 0, key) <==> key == cfg.lower(canonical)
  {
  }

  // ---------------------------------------------------------------- what the chain is

  /** Some model of the list has this case-folded name. */
  predicate Names(cfg: AliasConfig, models: seq<Bytes>, key: Bytes) {
    exists k :: 0 <= k < |models| && cfg.lower(models[k]) == key
  }

  /** No two models of the list differ in case only. */
  predicate Distinct(cfg: AliasConfig, models: seq<Bytes>) {
    forall k, l :: 0 <= k < l < |models| ==> cfg.lower(models[k]) != cfg.lower(models[l])
  }

  /** One more model adds its own name, and keeps the list distinct when that name is new. */
  lemma OneMoreModel(cfg: AliasConfig, front: seq<Bytes>, last: Bytes, key: Bytes)
    ensures Names(cfg, front + [last], key) <==> Names(cfg, front, key) || key == cfg.lower(last)
    ensures Distinct(cfg, front) && !Names(cfg, front, cfg.lower(last)) ==> Distinct(cfg, front + [last])
  {
    var all := front + [last];
    assert forall k :: 0 <= k < |front| ==> all[k] == front[k];
    assert all[|front|] == last;
  }

  /**
   The canonical model and the new ones are distinct, and are together exactly the models the entries name, up to
   case.
   */
  lemma {:induction false} NewModelsAreAll(cfg: AliasConfig, canonical: Bytes, list: seq<Bytes>, n: nat)
    requires n <= |list|
    ensures var models := [canonical] + NewModels(cfg, canonical, list, n);
            && Distinct(cfg, models)
            && forall key: Bytes :: Names(cfg, models, key) <==> Taken(cfg, canonical, list, n, key)
  {
    hide Entry, Names, Distinct, Taken;
    if n == 0 {
      NothingTaken(cfg, canonical, list);
      JustOne(cfg, canonical);
      assert [canonical] + [] == [canonical];
    } else {
      NewModelsAreAll(cfg, canonical, list, n - 1);
      var front, e := [canonical] + NewModels(cfg, canonical, list, n - 1), Entry(cfg, list[n - 1]);
      var models := [canonical] + NewModels(cfg, canonical, list, n);
      if IsNew(cfg, canonical, list, n - 1) {
        OneMoreModel(cfg, front, e.value, cfg.lower(e.value));
        assert models == front + [e.value];
      }
      forall key: Bytes ensures Names(cfg, models, key) <==> Taken(cfg, canonical, list, n, key) {
        OneMoreTaken(cfg, canonical, list, n - 1, key);
        if IsNew(cfg, canonical, list, n - 1) {
          OneMoreModel(cfg, front, e.value, key);
        }
      }
    }
  }

  lemma JustOne(cfg: AliasConfig, model: Bytes)
    ensures Distinct(cfg, [model]) && forall key: Bytes :: Names(cfg, [model], key) <==> key == cfg.lower(model)
  {
    forall key: Bytes ensures Names(cfg, [model], key) <==> key == cfg.lower(model) {
      assert [model][0] == model;
    }
  }

  /**
   The chain never repeats a model, not even in another case, holds at most the configured number of fallbacks,
   and when it is shorter than that leaves no model of the fallback list out.
   */
  lemma ChainIsShortDistinctAndComplete(cfg: AliasConfig, requested: Bytes, canonical: Bytes)
    ensures var chain, list := Chain(cfg, requested, canonical), FallbackList(cfg, requested, canonical);
            && 1 <= |chain| <= 1 + cfg.Extra() && Distinct(cfg, chain)
            && (|chain| <= cfg.Extra() ==>
                forall key: Bytes :: Names(cfg, chain, key) <==> Taken(cfg, canonical, list, |list|, key))
  {
    hide Names, Taken;
    var chain, list := Chain(cfg, requested, canonical), FallbackList(cfg, requested, canonical);
    NewModelsAreAll(cfg, canonical, list, |list|);
    var models := [canonical] + NewModels(cfg, canonical, list, |list|);
    assert forall k :: 0 <= k < |chain| ==> chain[k] == models[k];
    assert |chain| <= cfg.Extra() ==> chain == models;
  }

  /** The model a fallback entry names, if it is not blank: its alias, looked up once, or itself. */
  predicate NamesModel(cfg: AliasConfig, entry: Bytes, model: Bytes) {
    var name := TrimSpace(entry);
    && name != []
    && if name in cfg.aliases && TrimSpace(cfg.aliases[name]) != [] then model == TrimSpace(cfg.aliases[name])
       else model == name
  }

  /** `models` come from these entries of the list, in order. */
  predicate ComeFrom(cfg: AliasConfig, models: seq<Bytes>, list: seq<Bytes>, at: seq<nat>) {
    && |at| == |models|
    && (forall k, l :: 0 <= k < l < |at| ==> at[k] < at[l])
    && (forall k :: 0 <= k < |at| ==> at[k] < |list| && NamesModel(cfg, list[at[k]], models[k]))
  }

  lemma EntryIsNamed(cfg: AliasConfig, entry: Bytes, model: Bytes)
    ensures NamesModel(cfg, entry, model) <==> Entry(cfg, entry) == Some(model)
  {
    hide TrimSpace;
  }

  lemma OneMoreFrom(cfg: AliasConfig, models: seq<Bytes>, list: seq<Bytes>, at: seq<nat>, j: nat, model: Bytes)
    requires ComeFrom(cfg, models, list, at) && j < |list| && NamesModel(cfg, list[j], model)
    requires forall k :: 0 <= k < |at| ==> at[k] < j
    ensures ComeFrom(cfg, models + [model], list, at + [j])
  {
    hide NamesModel;
  }

  /** The new models stand where these entries do, each the first that is new there. */
  predicate NewAt(cfg: AliasConfig, canonical: Bytes, list: seq<Bytes>, n: nat, at: seq<nat>)
    requires n <= |list|
  {
    forall k :: 0 <= k < |at| ==>
      at[k] < n && k <= |NewModels(cfg, canonical, list, n)|
      && NewModels(cfg, canonical, list, at[k]) == NewModels(cfg, canonical, list, n)[..k]
  }

  lemma {:induction false} NewModelsComeFrom(cfg: AliasConfig, canonical: Bytes, list: seq<Bytes>, n: nat)
    returns (at: seq<nat>)
    requires n <= |list|
    ensures ComeFrom(cfg, NewModels(cfg, canonical, list, n), list, at) && NewAt(cfg, canonical, list, n, at)
  {
    hide Taken, Entry, NamesModel;
    at := [];
    if n > 0 {
      at := NewModelsComeFrom(cfg, canonical, list, n - 1);
      var front := NewModels(cfg, canonical, list, n - 1);
      if IsNew(cfg, canonical, list, n - 1) {
        var model := Entry(cfg, list[n - 1]).value;
        EntryIsNamed(cfg, list[n - 1], model);
        OneMoreFrom(cfg, front, list, at, n - 1, model);
        OneMoreNew(cfg, canonical, list, n, at);
        at := at + [n - 1];
      }
    }
    hide ComeFrom, NewAt, IsNew;
  }

  lemma OneMoreNew(cfg: AliasConfig, canonical: Bytes, list: seq<Bytes>, n: nat, at: seq<nat>)
    requires 0 < n <= |list| && NewAt(cfg, canonical, list, n - 1, at) && IsNew(cfg, canonical, list, n - 1)
    requires |at| == |NewModels(cfg, canonical, list, n - 1)|
    ensures NewAt(cfg, canonical, list, n, at + [n - 1])
  {
    hide IsNew, Entry;
    var front, all := NewModels(cfg, canonical, list, n - 1), NewModels(cfg, canonical, list, n);
    assert all[..|front|] == front;
    assert forall k :: 0 <= k < |at| ==> all[..k] == front[..k];
  }

  /**
   The models after the first are named by entries of the fallback list in order: the canonical model's own list,
   or the requested name's when that is empty. Each is the first new one after those before it: what the entries
   before it name is in the chain already, up to case.
   */
  lemma ChainFollowsList(cfg: AliasConfig, requested: Bytes, canonical: Bytes, list: seq<Bytes>)
    returns (at: seq<nat>)
    requires list == if canonical in cfg.fallbacks && cfg.fallbacks[canonical] != [] then cfg.fallbacks[canonical]
                     else if requested in cfg.fallbacks then cfg.fallbacks[requested] else []
    ensures var chain := Chain(cfg, requested, canonical);
            && 1 <= |chain| <= 1 + (if cfg.maxFallbackTries <= 0 then 2 else cfg.maxFallbackTries)
            && chain[0] == canonical && ComeFrom(cfg, chain[1..], list, at)
            && forall k, j, model :: 0 <= k < |at| && 0 <= j < at[k] && NamesModel(cfg, list[j], model) ==>
                 Names(cfg, chain[..k + 1], cfg.lower(model))
  {
    var chain, found := Chain(cfg, requested, canonical), NewModels(cfg, canonical, list, |list|);
    var all := NewModelsComeFrom(cfg, canonical, list, |list|);
    assert chain[1..] == found[..|chain| - 1];
    at := all[..|chain| - 1];
    hide Chain, NamesModel, Names, NewModels;
    forall k, j, model | 0 <= k < |at| && 0 <= j < at[k] && NamesModel(cfg, list[j], model)
      ensures Names(cfg, chain[..k + 1], cfg.lower(model))
    {
      assert chain[..k + 1] == [canonical] + found[..k];
      EarlierIsNamed(cfg, canonical, list, at[k], j, model);
    }
  }

  /** What an entry names is the canonical model or among the new ones by then, up to case. */
  lemma EarlierIsNamed(cfg: AliasConfig, canonical: Bytes, list: seq<Bytes>, n: nat, j: nat, model: Bytes)
    requires j < n <= |list| && NamesModel(cfg, list[j], model)
    ensures Names(cfg, [canonical] + NewModels(cfg, canonical, list, n), cfg.lower(model))
  {
    NewModelsAreAll(cfg, canonical, list, n);
    EntryIsNamed(cfg, list[j], model);
    hide NamesModel, Names, NewModels, Entry;
    assert KeyOf(cfg, list[j]) == Some(cfg.lower(model));
  }

  /** One request: its chain, then the walk over it. */
  method RelayRequest(s: Scheduler, cfg: AliasConfig, requested: Bytes,
                      pickAt: (nat, nat) -> int, noteAt: (nat, nat) -> int, upstream: nat -> CallResult)
    returns (outcome: Outcome, chain: seq<Bytes>, calls: seq<Call>)
    modifies s`accounts
    ensures chain != [] && ResolvesTo(cfg, requested, chain[0]) && chain == Chain(cfg, requested, chain[0])
    ensures |calls| <= MAX_ATTEMPTS * (1 + cfg.Extra())
    ensures Brought(calls, upstream)
    ensures outcome == OutcomeOf(calls, if calls == [] then Reply([], 0) else ReplyOf(upstream(|calls| - 1)))
    ensures s.accounts == After(Setting(s.table, s.read, pickAt, noteAt), old(s.accounts), calls)
  {
    hide ResolvesTo, Chain, Log, Brought, OutcomeOf, After;
    chain := ModelAttemptChain(cfg, requested);
    ghost var pool := s.accounts;
    var model, attempt;
    outcome, calls, model, attempt := Relay(s, chain, pickAt, noteAt, upstream);
    WalkIsBounded(Setting(s.table, s.read, pickAt, noteAt), cfg, requested, chain, pool, calls, model, attempt);
  }

  /** However it ends, the walk of one request makes at most three calls for the model and each allowed fallback. */
  lemma WalkIsBounded(env: Setting, cfg: AliasConfig, requested: Bytes, chain: seq<Bytes>, pool: seq<Account>,
                      calls: seq<Call>, model: nat, attempt: nat)
    requires chain != [] && chain == Chain(cfg, requested, chain[0])
    requires Log(env, chain, pool, calls, model, attempt) && Over(env, chain, calls, model, attempt)
    ensures |calls| <= MAX_ATTEMPTS * (1 + cfg.Extra())
  {
    hide Chain, Log;
    ChainIsShortDistinctAndComplete(cfg, requested, chain[0]);
    LogShape(env, chain, pool, calls, model, attempt);
    if attempt > 0 {
      CallsAreBounded(env, chain, pool, calls, model, attempt);
      assert MAX_ATTEMPTS * |chain| <= MAX_ATTEMPTS * (1 + cfg.Extra());
    } else {
      OverIsWithinAnAttempt(env, chain, pool, calls, model);
    }
  }

  /** A walk is over only after some attempt: before the first one of a model every call so far goes on. */
  lemma OverIsWithinAnAttempt(env: Setting, chain: seq<Bytes>, pool: seq<Account>, calls: seq<Call>, model: nat)
    requires Log(env, chain, pool, calls, model, 0)
    ensures !Over(env, chain, calls, model, 0)
  {
    hide PickAfter, After, LastIsRetryable;
  }
}
