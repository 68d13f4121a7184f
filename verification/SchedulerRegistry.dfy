/** The scheduler module's two mutable tables and the operations that update them. */
module SchedulerRegistry {
  import opened JobIds
  import opened GroupRegistry
  import opened GroupStartup

  /** Group bindings by strategy id and symbol. */
  method GroupBindings(bindings: seq<Binding>) returns (groups: Groups)
    ensures groups == Grouped(bindings)
  {
    groups := map[];
    for i := 0 to |bindings|
      invariant groups == Grouped(bindings[..i])
    {
      ghost var before := groups;
      var b := bindings[i];
      var symbols := b.strategy.symbols;
      for j := 0 to |symbols|
        invariant groups == GroupSymbols(before, b, symbols[..j])
      {
        var key := Key(b.strategy.id, symbols[j]);
        ghost var g := groups;
        if key !in groups {
          groups := groups[key := Group(b.strategy, [])];
        }
        var entries := groups[key].entries + [Entry(b.account, b.strategy.overrides)];
        groups := groups[key := groups[key].(entries := entries)];
        assert [] + [Entry(b.account, b.strategy.overrides)] == [Entry(b.account, b.strategy.overrides)];
        assert groups == GroupSymbol(g, b, symbols[j]);
        assert symbols[..j + 1][..j] == symbols[..j];
      }
      assert symbols[..|symbols|] == symbols;
      assert bindings[..i + 1][..i] == bindings[..i];
    }
    assert bindings[..|bindings|] == bindings;
  }

  class Scheduler {
    var accounts: map<string, seq<Entry>>
    var jobs: map<string, Job>

    ghost function Tables(): Registry
      reads this
    {
      Registry(accounts, jobs)
    }

    constructor ()
      ensures Tables() == EMPTY
    {
      accounts, jobs := map[], map[];
    }

    method StartScheduler(bindings: seq<Binding>, news: bool)
      modifies this
      ensures Tables() == Startup(old(Tables()), bindings, news)
    {
      hide RegisterAll, Grouped;
      var groups := GroupBindings(bindings);
      RegisterGroups(groups);
      jobs := jobs[MAINTENANCE := OtherJob];
      if news {
        jobs := jobs[NEWS_FETCH := OtherJob];
        jobs := jobs[NEWS_ANALYZE := OtherJob];
      }
    }

    /** One job per group; the order of the groups does not matter. */
    method RegisterGroups(groups: Groups)
      modifies this
      ensures Tables() == RegisterAll(old(Tables()), groups)
    {
      ghost var start, done: Groups := Tables(), map[];
      var todo := groups.Keys;
      while todo != {}
        invariant todo <= groups.Keys && done == map k <- groups | k !in todo :: groups[k]
        invariant Registered(start, done, Tables())
      {
        var k :| k in todo;
        ghost var before := Tables();
        todo := todo - {k};
        accounts := accounts[KeyId(k) := groups[k].entries];
        jobs := jobs[KeyId(k) := GroupJob(k.strategy, k.symbol, groups[k].strategy.plan)];
        RegisterExtends(start, done, before, k, groups[k]);
        done := done[k := groups[k]];
        assert Tables() == Register(before, k, groups[k]);
        hide Registered, Register, KeyId;
      }
      assert done == groups;
      RegisterAllRegisters(start, groups);
      RegisteredIsUnique(start, groups, Tables(), RegisterAll(start, groups));
    }

    method AddBindingJobs(b: Binding)
      modifies this
      ensures Tables() == Add(old(Tables()), b)
    {
      ghost var start := Tables();
      var symbols := b.strategy.symbols;
      for i := 0 to |symbols|
        invariant Tables() == AddSymbols(start, b, symbols[..i])
      {
        ghost var before := Tables();
        var id := JobId(b.strategy.id, symbols[i]);
        var entry := Entry(b.account, b.strategy.overrides);
        var existing := if id in accounts then accounts[id] else [];
        if !Has(existing, b.account) {
          accounts := accounts[id := existing + [entry]];
        } else {
          accounts := accounts[id := seq(|existing|, j requires 0 <= j < |existing| =>
            if existing[j].account == b.account then entry else existing[j])];
        }
        jobs := jobs[id := GroupJob(b.strategy.id, symbols[i], b.strategy.plan)];
        assert Tables() == AddSymbol(before, b, symbols[i]);
        hide AddSymbol;
        assert symbols[..i + 1][..i] == symbols[..i];
      }
      assert symbols[..|symbols|] == symbols;
    }

    /** Write back one group, or drop it and its job when no account is left. */
    method SetOrDrop(id: string, updated: seq<Entry>)
      modifies this
      ensures Tables() == SetGroup(old(Tables()), id, updated)
    {
      if updated != [] {
        accounts := accounts[id := updated];
      } else {
        accounts := accounts - {id};
        if id in jobs {
          jobs := jobs - {id};
        }
      }
    }

    method RemoveBindingJobs(account: int, strategy: nat, symbols: seq<string>)
      modifies this
      ensures Tables() == RemoveSymbols(old(Tables()), account, strategy, symbols)
    {
      ghost var start := Tables();
      for i := 0 to |symbols|
        invariant Tables() == RemoveSymbols(start, account, strategy, symbols[..i])
      {
        var id := JobId(strategy, symbols[i]);
        var existing := if id in accounts then accounts[id] else [];
        SetOrDrop(id, Without(existing, account));
        assert symbols[..i + 1][..i] == symbols[..i];
        hide SetGroup, JobId, Without;
      }
      assert symbols[..|symbols|] == symbols;
    }

    method RemoveAllBindingJobs(account: int, strategy: nat)
      modifies this
      ensures Tables() == RemoveAll(old(Tables()), account, strategy)
    {
      ghost var start := Tables();
      ghost var all := RemoveAll(start, account, strategy);
      var todo := accounts.Keys;
      while todo != {}
        invariant todo <= start.accounts.Keys
        invariant forall id :: if id in todo then SameAt(start, Tables(), id) else SameAt(all, Tables(), id)
      {
        var id :| id in todo;
        ghost var before := Tables();
        todo := todo - {id};
        assert SameAt(start, before, id);
        if StrategyPrefix(strategy) <= id {
          SetOrDrop(id, Without(accounts[id], account));
        }
        assert SameAt(all, Tables(), id);
        assert forall other | other != id :: SameAt(before, Tables(), other);
        hide RemoveAll, SetGroup, StrategyPrefix, Without;
      }
      SameEverywhere(all, Tables());
    }
  }

  lemma {:induction false} SameEverywhere(x: Registry, y: Registry)
    requires forall id :: SameAt(x, y, id)
    ensures x == y
  {
    forall id: string
      ensures (id in y.accounts <==> id in x.accounts) && (id in x.accounts ==> y.accounts[id] == x.accounts[id])
      ensures (id in y.jobs <==> id in x.jobs) && (id in x.jobs ==> y.jobs[id] == x.jobs[id])
    {
      assert SameAt(x, y, id);
    }
    assert y.accounts == x.accounts;
    assert y.jobs == x.jobs;
  }
}
