/** What add, remove and remove-all do to each group, and when remove-all undoes add. */
module GroupUndo {
  import opened JobIds
  import opened GroupRegistry

  ghost predicate IsIdOf(strategy: nat, symbols: seq<string>, id: string) {
    exists s <- symbols :: id == JobId(strategy, s)
  }

  // ----- add

  /** Adding a binding touches no key but the job ids of its symbols. */
  lemma {:induction false} AddLeavesOthers(r: Registry, b: Binding, symbols: seq<string>, id: string)
    requires !IsIdOf(b.strategy.id, symbols, id)
    ensures var after := AddSymbols(r, b, symbols);
      && (id in after.accounts <==> id in r.accounts) && (id in r.accounts ==> after.accounts[id] == r.accounts[id])
      && (id in after.jobs <==> id in r.jobs) && (id in r.jobs ==> after.jobs[id] == r.jobs[id])
  {
    hide JobId, Put;
    if symbols != [] {
      assert symbols[|symbols| - 1] in symbols;
      AddLeavesOthers(r, b, symbols[..|symbols| - 1], id);
    }
  }

  /** Adding a binding puts its entry into the group of each of its symbols, however often the symbol is listed. */
  lemma {:induction false} AddPuts(r: Registry, b: Binding, symbols: seq<string>, symbol: string)
    requires symbol in symbols
    ensures var after, id := AddSymbols(r, b, symbols), JobId(b.strategy.id, symbol);
      && id in after.accounts && after.accounts[id] == Put(Get(r.accounts, id), Entry(b.account, b.strategy.overrides))
      && id in after.jobs && after.jobs[id] == GroupJob(b.strategy.id, symbol, b.strategy.plan)
  {
    var init, last := symbols[..|symbols| - 1], symbols[|symbols| - 1];
    var id := JobId(b.strategy.id, symbol);
    assert symbols == init + [last];
    JobIdInjective(b.strategy.id, symbol, b.strategy.id, last);
    hide JobId, Put;
    if symbol in init {
      AddPuts(r, b, init, symbol);
      PutTwice(Get(r.accounts, id), Entry(b.account, b.strategy.overrides));
    } else {
      assert !IsIdOf(b.strategy.id, init, id) by {
        forall s <- init
          ensures id != JobId(b.strategy.id, s)
        {
          JobIdInjective(b.strategy.id, symbol, b.strategy.id, s);
        }
      }
      AddLeavesOthers(r, b, init, id);
    }
  }

  lemma {:induction false} PutTwice(es: seq<Entry>, entry: Entry)
    ensures Put(Put(es, entry), entry) == Put(es, entry)
  {
    PutKeeps(es, entry);
  }

  /** What that puts: an account already listed gets the present overrides in its place, a new one is appended, and
      every other entry keeps its place. */
  lemma {:induction false} AddPlaces(r: Registry, b: Binding, symbols: seq<string>, symbol: string)
    requires symbol in symbols
    ensures var after, id := AddSymbols(r, b, symbols), JobId(b.strategy.id, symbol);
      && id in after.accounts
      && var before, now := Get(r.accounts, id), after.accounts[id];
        && |before| <= |now|
        && (forall i | 0 <= i < |before| ::
              now[i] == if before[i].account == b.account then Entry(b.account, b.strategy.overrides) else before[i])
        && (if exists e <- before :: e.account == b.account then |now| == |before|
            else now == before + [Entry(b.account, b.strategy.overrides)])
  {
    AddPuts(r, b, symbols, symbol);
    hide JobId, AddSymbols;
  }

  // ----- remove-all after add

  /** The account is in no group of the strategy. */
  ghost predicate AbsentFrom(r: Registry, account: int, strategy: nat) {
    forall id <- r.accounts | StrategyPrefix(strategy) <= id :: !Has(r.accounts[id], account)
  }

  /** The groups the binding joins already run the strategy's present job. */
  ghost predicate Current(r: Registry, b: Binding) {
    forall s <- b.strategy.symbols | JobId(b.strategy.id, s) in r.jobs ::
      r.jobs[JobId(b.strategy.id, s)] == GroupJob(b.strategy.id, s, b.strategy.plan)
  }

  function AddThenRemoveAll(r: Registry, b: Binding): Registry {
    RemoveAll(Add(r, b), b.account, b.strategy.id)
  }

  lemma {:induction false} UndoneElsewhere(r: Registry, b: Binding, id: string)
    requires Agrees(r) && AbsentFrom(r, b.account, b.strategy.id)
    requires !IsIdOf(b.strategy.id, b.strategy.symbols, id)
    ensures var after := AddThenRemoveAll(r, b);
      && (id in after.accounts <==> id in r.accounts) && (id in r.accounts ==> after.accounts[id] == r.accounts[id])
      && (id in after.jobs <==> id in r.jobs) && (id in r.jobs ==> after.jobs[id] == r.jobs[id])
  {
    AddLeavesOthers(r, b, b.strategy.symbols, id);
    WithoutUnchanged(Get(r.accounts, id), b.account);
    hide JobId, StrategyPrefix, AddSymbols, Without, Has, DistinctAccounts;
  }

  lemma {:induction false} UndoneAt(r: Registry, b: Binding, symbol: string)
    requires Agrees(r) && AbsentFrom(r, b.account, b.strategy.id) && symbol in b.strategy.symbols
    ensures var after, id := AddThenRemoveAll(r, b), JobId(b.strategy.id, symbol);
      && (id in after.accounts <==> id in r.accounts) && (id in r.accounts ==> after.accounts[id] == r.accounts[id])
      && (id in after.jobs <==> id in r.jobs)
      && (id in r.jobs ==> after.jobs[id] == GroupJob(b.strategy.id, symbol, b.strategy.plan))
  {
    var id := JobId(b.strategy.id, symbol);
    AddPuts(r, b, b.strategy.symbols, symbol);
    PrefixHitsOwnJobsOnly(b.strategy.id, b.strategy.id, symbol);
    WithoutUndoesPut(Get(r.accounts, id), Entry(b.account, b.strategy.overrides));
    assert IsGroupId(id);
    assert !Has([], b.account);
    hide JobId, StrategyPrefix, AddSymbols, Without, Has, DistinctAccounts, Put, IsGroupId;
  }

  /** No group of the strategy holds the account after remove-all. */
  lemma {:induction false} RemoveAllRemoves(r: Registry, account: int, strategy: nat)
    ensures AbsentFrom(RemoveAll(r, account, strategy), account, strategy)
  {
    var after := RemoveAll(r, account, strategy);
    forall id <- after.accounts | StrategyPrefix(strategy) <= id
      ensures !Has(after.accounts[id], account)
    {
      forall e <- after.accounts[id]
        ensures e.account != account
      {
        WithoutHolds(r.accounts[id], account, e);
      }
    }
  }

  lemma {:induction false} UndoRestores(r: Registry, b: Binding)
    requires Agrees(r) && AbsentFrom(r, b.account, b.strategy.id) && Current(r, b)
    ensures AddThenRemoveAll(r, b) == r
  {
    var after := AddThenRemoveAll(r, b);
    hide AddThenRemoveAll, Agrees, AbsentFrom, JobId;
    forall id: string
      ensures (id in after.accounts <==> id in r.accounts) &&
              (id in r.accounts ==> after.accounts[id] == r.accounts[id])
      ensures (id in after.jobs <==> id in r.jobs) && (id in r.jobs ==> after.jobs[id] == r.jobs[id])
    {
      if s :| s in b.strategy.symbols && id == JobId(b.strategy.id, s) {
        UndoneAt(r, b, s);
      } else {
        UndoneElsewhere(r, b, id);
      }
    }
    assert after.accounts == r.accounts;
    assert after.jobs == r.jobs;
  }

  /** Remove-all undoes add, restoring the whole registry, exactly when the account was in no group of the strategy and
      the groups joined were already running the strategy's present job. */
  lemma {:induction false} RemoveAllUndoesAdd(r: Registry, b: Binding)
    requires Agrees(r)
    ensures AddThenRemoveAll(r, b) == r <==> AbsentFrom(r, b.account, b.strategy.id) && Current(r, b)
  {
    RemoveAllRemoves(Add(r, b), b.account, b.strategy.id);
    if AbsentFrom(r, b.account, b.strategy.id) {
      if Current(r, b) {
        UndoRestores(r, b);
      } else {
        var s :| s in b.strategy.symbols && JobId(b.strategy.id, s) in r.jobs &&
          r.jobs[JobId(b.strategy.id, s)] != GroupJob(b.strategy.id, s, b.strategy.plan);
        UndoneAt(r, b, s);
      }
    }
    hide RemoveAll, Add, Agrees, AbsentFrom, Current;
  }

  // ----- remove and remove-all

  /** Every group of the strategy that holds the account belongs to one of the symbols. */
  ghost predicate OnlyIn(r: Registry, account: int, strategy: nat, symbols: seq<string>) {
    forall id <- r.accounts | StrategyPrefix(strategy) <= id && Has(r.accounts[id], account) ::
      IsIdOf(strategy, symbols, id)
  }

  /** Removing a binding symbol by symbol equals remove-all exactly when every group of the strategy that holds the
      account belongs to one of the symbols. */
  lemma {:induction false} RemoveIsRemoveAll(r: Registry, account: int, strategy: nat, symbols: seq<string>)
    requires Agrees(r)
    ensures RemoveSymbols(r, account, strategy, symbols) == RemoveAll(r, account, strategy) <==>
      OnlyIn(r, account, strategy, symbols)
  {
    var removed, all := RemoveSymbols(r, account, strategy, symbols), RemoveAll(r, account, strategy);
    if removed == all {
      forall id <- r.accounts | StrategyPrefix(strategy) <= id && Has(r.accounts[id], account)
        ensures IsIdOf(strategy, symbols, id)
      {
        if !IsIdOf(strategy, symbols, id) {
          RemoveLeavesOthers(r, account, strategy, symbols, id);
          RemoveAllRemoves(r, account, strategy);
        }
      }
    }
    if OnlyIn(r, account, strategy, symbols) {
      RemovedEverywhere(r, account, strategy, symbols);
    }
  }

  lemma {:induction false} RemoveLeavesOthers(r: Registry, account: int, strategy: nat, symbols: seq<string>,
                                              id: string)
    requires !IsIdOf(strategy, symbols, id)
    ensures var after := RemoveSymbols(r, account, strategy, symbols);
      && (id in after.accounts <==> id in r.accounts) && (id in r.accounts ==> after.accounts[id] == r.accounts[id])
      && (id in after.jobs <==> id in r.jobs) && (id in r.jobs ==> after.jobs[id] == r.jobs[id])
  {
    hide JobId, Without;
    if symbols != [] {
      assert symbols[|symbols| - 1] in symbols;
      RemoveLeavesOthers(r, account, strategy, symbols[..|symbols| - 1], id);
    }
  }

  /** What removing leaves of the group of a listed symbol. */
  lemma {:induction false} RemoveTakesOut(r: Registry, account: int, strategy: nat, symbols: seq<string>,
                                          symbol: string)
    requires symbol in symbols
    ensures var after, id := RemoveSymbols(r, account, strategy, symbols), JobId(strategy, symbol);
      var rest := Without(Get(r.accounts, id), account);
      && (id in after.accounts <==> rest != []) && (rest != [] ==> after.accounts[id] == rest)
      && (id in after.jobs <==> rest != [] && id in r.jobs) && (id in after.jobs ==> after.jobs[id] == r.jobs[id])
  {
    var init, last := symbols[..|symbols| - 1], symbols[|symbols| - 1];
    var id := JobId(strategy, symbol);
    assert symbols == init + [last];
    JobIdInjective(strategy, symbol, strategy, last);
    assert Without([], account) == [];
    hide JobId, Without;
    if symbol in init {
      RemoveTakesOut(r, account, strategy, init, symbol);
      WithoutTwice(Get(r.accounts, id), account);
    } else {
      assert !IsIdOf(strategy, init, id) by {
        forall s <- init
          ensures id != JobId(strategy, s)
        {
          JobIdInjective(strategy, symbol, strategy, s);
        }
      }
      RemoveLeavesOthers(r, account, strategy, init, id);
    }
  }

  lemma {:induction false} WithoutTwice(es: seq<Entry>, account: int)
    ensures Without(Without(es, account), account) == Without(es, account)
  {
    var rest := Without(es, account);
    forall e <- rest
      ensures e.account != account
    {
      WithoutHolds(es, account, e);
    }
    WithoutAbsent(rest, account);
  }

  lemma {:induction false} RemovedEverywhere(r: Registry, account: int, strategy: nat, symbols: seq<string>)
    requires Agrees(r)
    requires OnlyIn(r, account, strategy, symbols)
    ensures RemoveSymbols(r, account, strategy, symbols) == RemoveAll(r, account, strategy)
  {
    var removed, all := RemoveSymbols(r, account, strategy, symbols), RemoveAll(r, account, strategy);
    forall id: string
      ensures (id in removed.accounts <==> id in all.accounts) &&
              (id in all.accounts ==> removed.accounts[id] == all.accounts[id])
      ensures (id in removed.jobs <==> id in all.jobs) && (id in all.jobs ==> removed.jobs[id] == all.jobs[id])
    {
      RemovedAt(r, account, strategy, symbols, id);
    }
    assert removed.accounts == all.accounts;
    assert removed.jobs == all.jobs;
  }

  lemma {:induction false} RemovedAt(r: Registry, account: int, strategy: nat, symbols: seq<string>, id: string)
    requires Agrees(r)
    requires id in r.accounts && StrategyPrefix(strategy) <= id && Has(r.accounts[id], account) ==>
             IsIdOf(strategy, symbols, id)
    ensures var removed, all := RemoveSymbols(r, account, strategy, symbols), RemoveAll(r, account, strategy);
      && (id in removed.accounts <==> id in all.accounts) &&
         (id in all.accounts ==> removed.accounts[id] == all.accounts[id])
      && (id in removed.jobs <==> id in all.jobs) && (id in all.jobs ==> removed.jobs[id] == all.jobs[id])
  {
    assert Without([], account) == [];
    if s :| s in symbols && id == JobId(strategy, s) {
      RemoveTakesOut(r, account, strategy, symbols, s);
      PrefixHitsOwnJobsOnly(strategy, strategy, s);
      assert IsGroupId(id);
    } else {
      RemoveLeavesOthers(r, account, strategy, symbols, id);
      WithoutUnchanged(Get(r.accounts, id), account);
    }
    hide JobId, StrategyPrefix, RemoveSymbols, Without, Has, DistinctAccounts, IsGroupId, IsIdOf;
  }
}
