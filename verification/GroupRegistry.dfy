/** The account registry of group jobs and the scheduler's job table, as values. */
module GroupRegistry {
  import opened JobIds

  /** A strategy row: `plan` stands for the trigger, timeframe and code path its jobs are registered with, and
      `overrides` for the settings copied to each of its accounts. */
  datatype Strategy = Strategy(id: nat, symbols: seq<string>, plan: string, overrides: string)

  datatype Binding = Binding(account: int, strategy: Strategy)

  datatype Entry = Entry(account: int, overrides: string)

  /** A scheduler job: a group job, or one of the scheduler's own. */
  datatype Job = GroupJob(strategy: nat, symbol: string, plan: string) | OtherJob

  datatype Registry = Registry(accounts: map<string, seq<Entry>>, jobs: map<string, Job>)

  // ----- account lists

  ghost predicate DistinctAccounts(es: seq<Entry>) {
    forall i, j | 0 <= i < j < |es| :: es[i].account != es[j].account
  }

  predicate Has(es: seq<Entry>, account: int) {
    exists e <- es :: e.account == account
  }

  /** Append the entry, or replace the overrides of an account that is already listed. */
  function Put(es: seq<Entry>, entry: Entry): seq<Entry> {
    if Has(es, entry.account) then
      seq(|es|, i requires 0 <= i < |es| => if es[i].account == entry.account then entry else es[i])
    else es + [entry]
  }

  function Without(es: seq<Entry>, account: int): seq<Entry> {
    if es == [] then []
    else Without(es[..|es| - 1], account) + if es[|es| - 1].account == account then [] else [es[|es| - 1]]
  }

  function Get(m: map<string, seq<Entry>>, key: string): seq<Entry> {
    if key in m then m[key] else []
  }

  /** Removal keeps exactly the other accounts' entries. */
  lemma {:induction false} WithoutHolds(es: seq<Entry>, account: int, e: Entry)
    ensures e in Without(es, account) <==> e in es && e.account != account
  {
    if es != [] {
      var init, last := es[..|es| - 1], es[|es| - 1];
      assert es == init + [last];
      WithoutHolds(init, account, e);
    }
  }

  /** Removal works on the two halves of a list by themselves, so the entries it keeps stay in order. */
  lemma {:induction false} WithoutSplits(xs: seq<Entry>, ys: seq<Entry>, account: int)
    ensures Without(xs + ys, account) == Without(xs, account) + Without(ys, account)
  {
    if ys == [] {
      assert xs + ys == xs;
    } else {
      var init, e := ys[..|ys| - 1], ys[|ys| - 1];
      hide Without;
      WithoutSplits(xs, init, account);
      assert ys == init + [e] && xs + ys == xs + init + [e];
      WithoutLast(init, e, account);
      WithoutLast(xs + init, e, account);
    }
  }

  lemma {:induction false} WithoutLast(es: seq<Entry>, e: Entry, account: int)
    ensures Without(es + [e], account) == Without(es, account) + if e.account == account then [] else [e]
  {
    assert (es + [e])[..|es|] == es;
  }

  lemma {:induction false} WithoutDistinct(es: seq<Entry>, account: int)
    requires DistinctAccounts(es)
    ensures DistinctAccounts(Without(es, account))
  {
    if es != [] {
      var init, last := es[..|es| - 1], es[|es| - 1];
      WithoutDistinct(init, account);
      var rest := Without(init, account);
      forall e <- rest
        ensures e.account != last.account
      {
        WithoutHolds(init, account, e);
        var i :| 0 <= i < |init| && init[i] == e;
        assert es[i].account != es[|es| - 1].account;
      }
    }
  }

  /** Removal changes nothing exactly when the account is not listed. */
  lemma {:induction false} WithoutUnchanged(es: seq<Entry>, account: int)
    ensures !Has(es, account) <==> Without(es, account) == es
  {
    if Without(es, account) == es {
      forall e <- es
        ensures e.account != account
      {
        WithoutHolds(es, account, e);
      }
    }
    if !Has(es, account) {
      WithoutAbsent(es, account);
    }
  }

  lemma {:induction false} WithoutAbsent(es: seq<Entry>, account: int)
    requires !Has(es, account)
    ensures Without(es, account) == es
  {
    if es != [] {
      var init, last := es[..|es| - 1], es[|es| - 1];
      assert es == init + [last];
      WithoutAbsent(init, account);
    }
  }

  lemma {:induction false} PutKeeps(es: seq<Entry>, entry: Entry)
    ensures Has(Put(es, entry), entry.account) && Put(es, entry) != []
    ensures DistinctAccounts(es) ==> DistinctAccounts(Put(es, entry))
    ensures forall e <- Put(es, entry) :: e == entry || e in es
  {
    var r := Put(es, entry);
    if Has(es, entry.account) {
      var e :| e in es && e.account == entry.account;
      var i :| 0 <= i < |es| && es[i] == e;
      assert r[i] == entry;
    } else {
      assert r[|es|] == entry;
    }
  }

  /** Taking out an account that was just put in gives back the old list exactly when it was not listed before. */
  lemma {:induction false} WithoutUndoesPut(es: seq<Entry>, entry: Entry)
    ensures Without(Put(es, entry), entry.account) == es <==> !Has(es, entry.account)
  {
    if !Has(es, entry.account) {
      WithoutAbsent(es, entry.account);
      assert (es + [entry])[..|es|] == es;
    } else if Without(Put(es, entry), entry.account) == es {
      var e :| e in es && e.account == entry.account;
      WithoutHolds(Put(es, entry), entry.account, e);
    }
  }

  // ----- operations

  /** Register one symbol of a binding. */
  function AddSymbol(r: Registry, b: Binding, symbol: string): Registry {
    var id := JobId(b.strategy.id, symbol);
    Registry(r.accounts[id := Put(Get(r.accounts, id), Entry(b.account, b.strategy.overrides))],
             r.jobs[id := GroupJob(b.strategy.id, symbol, b.strategy.plan)])
  }

  function AddSymbols(r: Registry, b: Binding, symbols: seq<string>): Registry {
    if symbols == [] then r
    else AddSymbol(AddSymbols(r, b, symbols[..|symbols| - 1]), b, symbols[|symbols| - 1])
  }

  function Add(r: Registry, b: Binding): Registry {
    AddSymbols(r, b, b.strategy.symbols)
  }

  /** Write back one group: keep it while accounts remain, else drop it together with its job. */
  function SetGroup(r: Registry, id: string, rest: seq<Entry>): Registry {
    if rest != [] then r.(accounts := r.accounts[id := rest])
    else Registry(r.accounts - {id}, r.jobs - {id})
  }

  function RemoveSymbols(r: Registry, account: int, strategy: nat, symbols: seq<string>): Registry {
    if symbols == [] then r
    else
      var before := RemoveSymbols(r, account, strategy, symbols[..|symbols| - 1]);
      var id := JobId(strategy, symbols[|symbols| - 1]);
      SetGroup(before, id, Without(Get(before.accounts, id), account))
  }

  /** A group of the strategy that has no account left once `account` is taken out. */
  predicate Emptied(r: Registry, account: int, strategy: nat, id: string) {
    StrategyPrefix(strategy) <= id && id in r.accounts && Without(r.accounts[id], account) == []
  }

  /** Remove an account from every group of a strategy. */
  function RemoveAll(r: Registry, account: int, strategy: nat): Registry {
    Registry(
      map id | id in r.accounts && !Emptied(r, account, strategy, id) ::
        if StrategyPrefix(strategy) <= id then Without(r.accounts[id], account) else r.accounts[id],
      map id | id in r.jobs && !Emptied(r, account, strategy, id) :: r.jobs[id])
  }

  // ----- the invariant

  /** `id` is the job id of some group. */
  ghost predicate IsGroupId(id: string) {
    exists s: nat, symbol: string :: id == JobId(s, symbol)
  }

  /** A group job exists exactly for the keys of the account registry, under its own id, and every group has at least
      one account and no account twice. */
  ghost predicate Agrees(r: Registry) {
    && (forall id :: id in r.accounts <==> id in r.jobs && r.jobs[id].GroupJob?)
    && (forall id <- r.jobs :: r.jobs[id].GroupJob? ==> id == JobId(r.jobs[id].strategy, r.jobs[id].symbol))
    && (forall id <- r.jobs :: r.jobs[id].OtherJob? ==> !IsGroupId(id))
    && (forall id <- r.accounts :: r.accounts[id] != [] && DistinctAccounts(r.accounts[id]))
  }

  lemma {:induction false} AddSymbolAgrees(r: Registry, b: Binding, symbol: string)
    requires Agrees(r)
    ensures Agrees(AddSymbol(r, b, symbol))
  {
    hide JobId, Put, DistinctAccounts;
    var id := JobId(b.strategy.id, symbol);
    assert IsGroupId(id);
    assert DistinctAccounts([]) by {
      EmptyIsDistinct();
    }
    PutKeeps(Get(r.accounts, id), Entry(b.account, b.strategy.overrides));
  }

  lemma {:induction false} EmptyIsDistinct()
    ensures DistinctAccounts([])
  {
  }

  lemma {:induction false} AddAgrees(r: Registry, b: Binding, symbols: seq<string>)
    requires Agrees(r)
    ensures Agrees(AddSymbols(r, b, symbols))
  {
    hide Agrees;
    if symbols != [] {
      AddAgrees(r, b, symbols[..|symbols| - 1]);
      AddSymbolAgrees(AddSymbols(r, b, symbols[..|symbols| - 1]), b, symbols[|symbols| - 1]);
    }
  }

  lemma {:induction false} RemoveAgrees(r: Registry, account: int, strategy: nat, symbols: seq<string>)
    requires Agrees(r)
    ensures Agrees(RemoveSymbols(r, account, strategy, symbols))
  {
    if symbols != [] {
      var init, symbol := symbols[..|symbols| - 1], symbols[|symbols| - 1];
      RemoveAgrees(r, account, strategy, init);
      var before := RemoveSymbols(r, account, strategy, init);
      hide RemoveSymbols;
      SetGroupAgrees(before, strategy, symbol, account);
    }
  }

  lemma {:induction false} SetGroupAgrees(r: Registry, strategy: nat, symbol: string, account: int)
    requires Agrees(r)
    ensures var id := JobId(strategy, symbol);
      Agrees(SetGroup(r, id, Without(Get(r.accounts, id), account)))
  {
    hide JobId, DistinctAccounts;
    var id := JobId(strategy, symbol);
    assert IsGroupId(id);
    EmptyIsDistinct();
    WithoutDistinct(Get(r.accounts, id), account);
  }

  lemma {:induction false} RemoveAllAgrees(r: Registry, account: int, strategy: nat)
    requires Agrees(r)
    ensures Agrees(RemoveAll(r, account, strategy))
  {
    hide JobId, DistinctAccounts, StrategyPrefix;
    forall id <- r.accounts
      ensures DistinctAccounts(Without(r.accounts[id], account))
    {
      WithoutDistinct(r.accounts[id], account);
    }
  }

  /** Remove-all touches no group of another strategy. */
  lemma {:induction false} RemoveAllIsLocal(r: Registry, account: int, strategy: nat, other: nat, symbol: string)
    requires other != strategy
    ensures var id, after := JobId(other, symbol), RemoveAll(r, account, strategy);
      && (id in after.accounts <==> id in r.accounts) && (id in r.accounts ==> after.accounts[id] == r.accounts[id])
      && (id in after.jobs <==> id in r.jobs) && (id in r.jobs ==> after.jobs[id] == r.jobs[id])
  {
    PrefixHitsOwnJobsOnly(strategy, other, symbol);
  }
}
