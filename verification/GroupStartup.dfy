/** Startup grouping, the runs of the registry, and why startup equals adding the bindings one by one. */
module GroupStartup {
  import opened JobIds
  import opened GroupRegistry

  datatype Key = Key(strategy: nat, symbol: string)

  datatype Group = Group(strategy: Strategy, entries: seq<Entry>)

  type Groups = map<Key, Group>

  const MAINTENANCE := "position_maintenance_sweep"
  const NEWS_FETCH := "news_fetch_daily"
  const NEWS_ANALYZE := "news_analyze_daily"

  function KeyId(k: Key): string {
    JobId(k.strategy, k.symbol)
  }

  // ----- grouping

  /** Append one symbol of a binding to its group; the group's strategy is that of its first binding. */
  function GroupSymbol(g: Groups, b: Binding, symbol: string): Groups {
    var k, entry := Key(b.strategy.id, symbol), Entry(b.account, b.strategy.overrides);
    g[k := if k in g then g[k].(entries := g[k].entries + [entry]) else Group(b.strategy, [entry])]
  }

  function GroupSymbols(g: Groups, b: Binding, symbols: seq<string>): Groups {
    if symbols == [] then g
    else GroupSymbol(GroupSymbols(g, b, symbols[..|symbols| - 1]), b, symbols[|symbols| - 1])
  }

  function Grouped(bs: seq<Binding>): Groups {
    if bs == [] then map[]
    else
      var b := bs[|bs| - 1];
      GroupSymbols(Grouped(bs[..|bs| - 1]), b, b.strategy.symbols)
  }

  function AddAll(r: Registry, bs: seq<Binding>): Registry {
    if bs == [] then r else Add(AddAll(r, bs[..|bs| - 1]), bs[|bs| - 1])
  }

  // ----- registration

  /** Register one group. */
  function Register(r: Registry, k: Key, group: Group): Registry {
    Registry(r.accounts[KeyId(k) := group.entries],
             r.jobs[KeyId(k) := GroupJob(k.strategy, k.symbol, group.strategy.plan)])
  }

  /** `after` is `r` with every group registered over it; nothing else changed. */
  ghost predicate Registered(r: Registry, g: Groups, after: Registry) {
    && (forall k <- g :: Holds(after, k, g[k]))
    && (forall id | !IsKeyOf(g, id) :: SameAt(r, after, id))
  }

  ghost predicate Holds(r: Registry, k: Key, group: Group) {
    && KeyId(k) in r.accounts && r.accounts[KeyId(k)] == group.entries
    && KeyId(k) in r.jobs && r.jobs[KeyId(k)] == GroupJob(k.strategy, k.symbol, group.strategy.plan)
  }

  ghost predicate IsKeyOf(g: Groups, id: string) {
    exists k <- g :: id == KeyId(k)
  }

  ghost predicate SameAt(r: Registry, after: Registry, id: string) {
    && (id in after.accounts <==> id in r.accounts) && (id in r.accounts ==> after.accounts[id] == r.accounts[id])
    && (id in after.jobs <==> id in r.jobs) && (id in r.jobs ==> after.jobs[id] == r.jobs[id])
  }

  const EMPTY := Registry(map[], map[])

  /** The groups determine the registry, whatever order they are registered in. */
  lemma {:induction false} RegisteredIsUnique(r: Registry, g: Groups, x: Registry, y: Registry)
    requires Registered(r, g, x) && Registered(r, g, y)
    ensures x == y
  {
    hide KeyId;
    forall id: string
      ensures (id in y.accounts <==> id in x.accounts) && (id in x.accounts ==> y.accounts[id] == x.accounts[id])
      ensures (id in y.jobs <==> id in x.jobs) && (id in x.jobs ==> y.jobs[id] == x.jobs[id])
    {
      if k :| k in g && id == KeyId(k) {
        assert Holds(x, k, g[k]) && Holds(y, k, g[k]);
      } else {
        assert SameAt(r, x, id) && SameAt(r, y, id);
      }
    }
    assert x.accounts == y.accounts;
    assert x.jobs == y.jobs;
  }

  lemma {:induction false} KeyIdInjective(j: Key, k: Key)
    ensures KeyId(j) == KeyId(k) <==> j == k
  {
    JobIdInjective(j.strategy, j.symbol, k.strategy, k.symbol);
  }

  /** Registering one more group. */
  lemma {:induction false} RegisterExtends(r: Registry, g: Groups, after: Registry, k: Key, group: Group)
    requires Registered(r, g, after)
    ensures Registered(r, g[k := group], Register(after, k, group))
  {
    var g', after' := g[k := group], Register(after, k, group);
    forall j <- g'
      ensures Holds(after', j, g'[j])
    {
      KeyIdInjective(j, k);
      if j != k {
        assert Holds(after, j, g[j]);
      }
    }
    hide KeyId;
    forall id | !IsKeyOf(g', id)
      ensures SameAt(r, after', id)
    {
      assert k in g';
      assert forall j <- g :: j in g';
      assert !IsKeyOf(g, id);
      assert SameAt(r, after, id);
    }
  }

  // ----- startup equals adding one by one

  /** One place where a binding lists a symbol. */
  datatype Item = Item(account: int, key: Key, strategy: Strategy)

  function ItemsOf(b: Binding, symbols: seq<string>): seq<Item> {
    seq(|symbols|, i requires 0 <= i < |symbols| => Item(b.account, Key(b.strategy.id, symbols[i]), b.strategy))
  }

  function Items(bs: seq<Binding>): seq<Item> {
    if bs == [] then []
    else Items(bs[..|bs| - 1]) + ItemsOf(bs[|bs| - 1], bs[|bs| - 1].strategy.symbols)
  }

  function GroupItems(items: seq<Item>): Groups {
    if items == [] then map[]
    else
      var x := items[|items| - 1];
      GroupSymbol(GroupItems(items[..|items| - 1]), Binding(x.account, x.strategy), x.key.symbol)
  }

  function AddItems(items: seq<Item>): Registry {
    if items == [] then EMPTY
    else
      var x := items[|items| - 1];
      AddSymbol(AddItems(items[..|items| - 1]), Binding(x.account, x.strategy), x.key.symbol)
  }

  /** No account is listed twice under one key: unique bindings, each with distinct symbols. */
  ghost predicate NoRepeats(items: seq<Item>) {
    forall i, j | 0 <= i < j < |items| :: items[i].account != items[j].account || items[i].key != items[j].key
  }

  /** One strategy row per strategy id. */
  ghost predicate OneRowPerStrategy(items: seq<Item>) {
    && (forall x <- items :: x.key.strategy == x.strategy.id)
    && (forall x <- items, y <- items :: x.key.strategy == y.key.strategy ==> x.strategy == y.strategy)
  }

  lemma {:induction false} AddSymbolsAreItems(items: seq<Item>, r: Registry, b: Binding, symbols: seq<string>)
    requires r == AddItems(items)
    ensures AddSymbols(r, b, symbols) == AddItems(items + ItemsOf(b, symbols))
  {
    hide AddSymbol;
    var all := items + ItemsOf(b, symbols);
    if symbols == [] {
      assert all == items;
    } else {
      var init := symbols[..|symbols| - 1];
      AddSymbolsAreItems(items, r, b, init);
      assert all[..|all| - 1] == items + ItemsOf(b, init);
    }
  }

  lemma {:induction false} AddAllIsItems(bs: seq<Binding>)
    ensures AddAll(EMPTY, bs) == AddItems(Items(bs))
  {
    if bs != [] {
      var init, b := bs[..|bs| - 1], bs[|bs| - 1];
      AddAllIsItems(init);
      AddSymbolsAreItems(Items(init), AddAll(EMPTY, init), b, b.strategy.symbols);
    }
  }

  lemma {:induction false} GroupSymbolsAreItems(items: seq<Item>, g: Groups, b: Binding, symbols: seq<string>)
    requires g == GroupItems(items)
    ensures GroupSymbols(g, b, symbols) == GroupItems(items + ItemsOf(b, symbols))
  {
    hide GroupSymbol;
    var all := items + ItemsOf(b, symbols);
    if symbols == [] {
      assert all == items;
    } else {
      var init := symbols[..|symbols| - 1];
      GroupSymbolsAreItems(items, g, b, init);
      assert all[..|all| - 1] == items + ItemsOf(b, init);
    }
  }

  lemma {:induction false} GroupedIsItems(bs: seq<Binding>)
    ensures Grouped(bs) == GroupItems(Items(bs))
  {
    if bs != [] {
      var init, b := bs[..|bs| - 1], bs[|bs| - 1];
      GroupedIsItems(init);
      GroupSymbolsAreItems(Items(init), Grouped(init), b, b.strategy.symbols);
    }
  }

  /** What a group holds: its accounts are those listed under its key, and its strategy is that of an item. */
  lemma {:induction false} GroupHolds(items: seq<Item>, k: Key)
    ensures k in GroupItems(items) <==> exists x <- items :: Key(x.strategy.id, x.key.symbol) == k
    ensures k in GroupItems(items) ==> GroupItems(items)[k].entries != []
    ensures k in GroupItems(items) ==>
            exists x <- items :: Key(x.strategy.id, x.key.symbol) == k && x.strategy == GroupItems(items)[k].strategy
  {
    if items != [] {
      GroupHolds(items[..|items| - 1], k);
      assert items == items[..|items| - 1] + [items[|items| - 1]];
    }
  }

  lemma {:induction false} GroupAccounts(items: seq<Item>, k: Key, account: int)
    requires k in GroupItems(items)
    ensures Has(GroupItems(items)[k].entries, account) <==>
      exists x <- items :: Key(x.strategy.id, x.key.symbol) == k && x.account == account
  {
    var init, x := items[..|items| - 1], items[|items| - 1];
    var entry := Entry(x.account, x.strategy.overrides);
    assert items == init + [x];
    GroupHolds(init, k);
    if k in GroupItems(init) {
      GroupAccounts(init, k, account);
      HasAppend(GroupItems(init)[k].entries, entry, account);
    } else {
      HasAppend([], entry, account);
      assert [] + [entry] == [entry];
    }
  }

  lemma {:induction false} HasAppend(es: seq<Entry>, entry: Entry, account: int)
    ensures Has(es + [entry], account) <==> Has(es, account) || entry.account == account
  {
    if Has(es, account) {
      var e :| e in es && e.account == account;
      assert e in es + [entry];
    }
    if entry.account == account {
      assert entry in es + [entry];
    }
  }

  lemma {:induction false} DistinctAppend(es: seq<Entry>, entry: Entry)
    ensures DistinctAccounts(es + [entry]) <==> DistinctAccounts(es) && !Has(es, entry.account)
  {
    var r := es + [entry];
    if DistinctAccounts(r) {
      assert forall i | 0 <= i < |es| :: r[i] == es[i] && r[i].account != r[|es|].account;
      assert forall i, j | 0 <= i < j < |es| :: r[i].account != r[j].account;
    }
    if DistinctAccounts(es) && !Has(es, entry.account) {
      assert forall i | 0 <= i < |es| :: es[i] in es;
    }
  }

  ghost predicate AllDistinct(g: Groups) {
    forall k <- g :: DistinctAccounts(g[k].entries)
  }

  ghost predicate Listed(items: seq<Item>, x: Item) {
    exists y <- items :: y.key == x.key && y.account == x.account
  }

  lemma {:induction false} NoRepeatsAppend(items: seq<Item>, x: Item)
    ensures NoRepeats(items + [x]) <==> NoRepeats(items) && !Listed(items, x)
  {
    var all := items + [x];
    if NoRepeats(all) {
      assert forall i | 0 <= i < |items| :: all[i] == items[i];
      assert forall i | 0 <= i < |items| :: all[i].account != x.account || all[i].key != x.key by {
        assert all[|items|] == x;
      }
      assert forall i, j | 0 <= i < j < |items| :: all[i].account != all[j].account || all[i].key != all[j].key;
    }
    if NoRepeats(items) && !Listed(items, x) {
      assert forall i | 0 <= i < |items| :: items[i] in items;
    }
  }

  /** Startup lists an account twice in some group exactly when the bindings repeat one. */
  lemma {:induction false} GroupsDistinct(items: seq<Item>)
    requires OneRowPerStrategy(items)
    ensures AllDistinct(GroupItems(items)) <==> NoRepeats(items)
  {
    if items != [] {
      var init, x := items[..|items| - 1], items[|items| - 1];
      assert items == init + [x];
      GroupsDistinct(init);
      GroupsDistinctStep(init, x);
      NoRepeatsAppend(init, x);
    }
  }

  lemma {:induction false} GroupsDistinctStep(init: seq<Item>, x: Item)
    requires OneRowPerStrategy(init + [x])
    ensures AllDistinct(GroupItems(init + [x])) <==> AllDistinct(GroupItems(init)) && !Listed(init, x)
  {
    assert x in init + [x];
    assert forall y <- init :: y in init + [x];
    var all := init + [x];
    assert all[..|all| - 1] == init;
    var g, g', k := GroupItems(init), GroupItems(all), x.key;
    var entry := Entry(x.account, x.strategy.overrides);
    GroupHolds(init, k);
    assert g' == GroupSymbol(g, Binding(x.account, x.strategy), k.symbol);
    hide GroupItems;
    if k in g {
      GroupAccounts(init, k, x.account);
      DistinctAppend(g[k].entries, entry);
      assert Has(g[k].entries, x.account) <==> Listed(init, x);
      assert g' == g[k := g[k].(entries := g[k].entries + [entry])];
      hide DistinctAccounts, Has;
      assert forall j <- g | j != k :: j in g' && g'[j] == g[j];
      if AllDistinct(g') {
        assert DistinctAccounts(g'[k].entries);
      }
    } else {
      assert DistinctAccounts([entry]);
      assert g' == g[k := Group(x.strategy, [entry])];
      assert forall j <- g :: j != k && j in g' && g'[j] == g[j];
    }
  }

  /** With no repeats, adding the items one by one registers exactly their groups. */
  lemma {:induction false} AddingRegisters(items: seq<Item>)
    requires NoRepeats(items) && OneRowPerStrategy(items)
    ensures Registered(EMPTY, GroupItems(items), AddItems(items))
  {
    if items != [] {
      var init, x := items[..|items| - 1], items[|items| - 1];
      assert items == init + [x];
      NoRepeatsAppend(init, x);
      assert OneRowPerStrategy(init);
      AddingRegisters(init);
      var g, r, k, entry := GroupItems(init), AddItems(init), x.key, Entry(x.account, x.strategy.overrides);
      assert Key(x.strategy.id, x.key.symbol) == k;
      GroupHolds(init, k);
      assert !Listed(init, x);
      assert Get(r.accounts, KeyId(k)) == (if k in g then g[k].entries else []) by {
        if k in g {
          assert Holds(r, k, g[k]);
        } else {
          NoOtherKey(g, k);
          assert SameAt(EMPTY, r, KeyId(k));
        }
      }
      if k in g {
        GroupAccounts(init, k, x.account);
        assert !Has(g[k].entries, x.account);
        assert g[k].strategy == x.strategy;
      }
      var group := if k in g then g[k].(entries := g[k].entries + [entry]) else Group(x.strategy, [entry]);
      RegisterExtends(EMPTY, g, r, k, group);
    }
  }

  lemma {:induction false} NoOtherKey(g: Groups, k: Key)
    ensures IsKeyOf(g, KeyId(k)) <==> k in g
  {
    forall j <- g
      ensures KeyId(j) == KeyId(k) <==> j == k
    {
      KeyIdInjective(j, k);
    }
  }

  lemma {:induction false} AddItemsAgrees(items: seq<Item>)
    ensures Agrees(AddItems(items))
  {
    if items != [] {
      var x := items[|items| - 1];
      AddItemsAgrees(items[..|items| - 1]);
      AddSymbolAgrees(AddItems(items[..|items| - 1]), Binding(x.account, x.strategy), x.key.symbol);
    }
  }

  /** Startup registers what adding the bindings one by one from an empty registry would, exactly when no account is
      listed twice under one key. */
  lemma {:induction false} StartupIsAddingOneByOne(bs: seq<Binding>)
    requires OneRowPerStrategy(Items(bs))
    ensures Registered(EMPTY, Grouped(bs), AddAll(EMPTY, bs)) <==> NoRepeats(Items(bs))
  {
    var items := Items(bs);
    GroupedIsItems(bs);
    AddAllIsItems(bs);
    if NoRepeats(items) {
      AddingRegisters(items);
    }
    if Registered(EMPTY, Grouped(bs), AddAll(EMPTY, bs)) {
      AddItemsAgrees(items);
      var r, g := AddItems(items), GroupItems(items);
      forall k <- g
        ensures DistinctAccounts(g[k].entries)
      {
        assert Holds(r, k, g[k]);
      }
      GroupsDistinct(items);
    }
  }

  /** A strategy that lists a symbol twice: startup puts the account into the group twice, adding the binding once. */
  lemma {:induction false} RepeatedSymbolDiffers(account: int, plan: string, overrides: string)
    ensures var b := Binding(account, Strategy(1, ["EURUSD", "EURUSD"], plan, overrides));
      !Registered(EMPTY, Grouped([b]), AddAll(EMPTY, [b]))
  {
    var b := Binding(account, Strategy(1, ["EURUSD", "EURUSD"], plan, overrides));
    hide Registered, Grouped, AddAll;
    ItemsOfOne(b);
    assert Items([b])[0] == Items([b])[1];
    StartupIsAddingOneByOne([b]);
  }

  lemma {:induction false} ItemsOfOne(b: Binding)
    ensures Items([b]) == ItemsOf(b, b.strategy.symbols)
  {
    assert [b][..0] == [];
    assert [] + ItemsOf(b, b.strategy.symbols) == ItemsOf(b, b.strategy.symbols);
  }

  // ----- runs

  function EntriesById(g: Groups): (m: map<string, seq<Entry>>)
    ensures forall id <- m :: IsKeyOf(g, id)
    ensures forall k <- g :: KeyId(k) in m && m[KeyId(k)] == g[k].entries
  {
    KeyIdsDistinct(g);
    map k <- g :: KeyId(k) := g[k].entries
  }

  function JobsById(g: Groups): (m: map<string, Job>)
    ensures forall id <- m :: IsKeyOf(g, id)
    ensures forall k <- g :: KeyId(k) in m && m[KeyId(k)] == GroupJob(k.strategy, k.symbol, g[k].strategy.plan)
  {
    KeyIdsDistinct(g);
    map k <- g :: KeyId(k) := GroupJob(k.strategy, k.symbol, g[k].strategy.plan)
  }

  lemma {:induction false} KeyIdsDistinct(g: Groups)
    ensures forall j <- g, k <- g :: KeyId(j) == KeyId(k) ==> j == k
  {
    forall j <- g, k <- g
      ensures KeyId(j) == KeyId(k) ==> j == k
    {
      KeyIdInjective(j, k);
    }
  }

  /** Register every group over what is there. */
  function RegisterAll(r: Registry, g: Groups): Registry {
    Registry(r.accounts + EntriesById(g), r.jobs + JobsById(g))
  }

  /** The scheduler's own jobs: the maintenance sweep and, when news is enabled, the calendar jobs. */
  function OwnJobs(r: Registry, news: bool): Registry {
    var swept := r.(jobs := r.jobs[MAINTENANCE := OtherJob]);
    if news then swept.(jobs := swept.jobs[NEWS_FETCH := OtherJob][NEWS_ANALYZE := OtherJob]) else swept
  }

  function Startup(r: Registry, bs: seq<Binding>, news: bool): Registry {
    OwnJobs(RegisterAll(r, Grouped(bs)), news)
  }

  datatype Op =
    | Start(bindings: seq<Binding>, news: bool)
    | AddBinding(binding: Binding)
    | RemoveBinding(account: int, strategy: nat, symbols: seq<string>)
    | RemoveAllBindings(account: int, strategy: nat)

  function Step(r: Registry, op: Op): Registry {
    match op
    case Start(bs, news) => Startup(r, bs, news)
    case AddBinding(b) => Add(r, b)
    case RemoveBinding(account, strategy, symbols) => RemoveSymbols(r, account, strategy, symbols)
    case RemoveAllBindings(account, strategy) => RemoveAll(r, account, strategy)
  }

  function Run(ops: seq<Op>): Registry {
    if ops == [] then EMPTY else Step(Run(ops[..|ops| - 1]), ops[|ops| - 1])
  }

  /** Startup reads unique bindings with distinct symbols, of one row per strategy. */
  ghost predicate Tidy(op: Op) {
    op.Start? ==> NoRepeats(Items(op.bindings)) && OneRowPerStrategy(Items(op.bindings))
  }

  lemma {:induction false} RegisterAllRegisters(r: Registry, g: Groups)
    ensures Registered(r, g, RegisterAll(r, g))
  {
    hide KeyId, IsKeyOf, EntriesById, JobsById;
    var after := RegisterAll(r, g);
    forall k <- g
      ensures Holds(after, k, g[k])
    {
    }
    forall id | !IsKeyOf(g, id)
      ensures SameAt(r, after, id)
    {
    }
  }

  lemma {:induction false} OwnJobsAreNotGroups(s: nat, symbol: string)
    ensures JobId(s, symbol) != MAINTENANCE && JobId(s, symbol) != NEWS_FETCH && JobId(s, symbol) != NEWS_ANALYZE
  {
    assert JobId(s, symbol)[0] == 's';
  }

  lemma {:induction false} OwnJobsAgree(r: Registry, news: bool)
    requires Agrees(r)
    ensures Agrees(OwnJobs(r, news))
  {
    forall id: string
      ensures IsGroupId(id) ==> id != MAINTENANCE && id != NEWS_FETCH && id != NEWS_ANALYZE
    {
      if s: nat, symbol :| id == JobId(s, symbol) {
        OwnJobsAreNotGroups(s, symbol);
      }
    }
    forall id | id in r.accounts
      ensures IsGroupId(id)
    {
      assert id == JobId(r.jobs[id].strategy, r.jobs[id].symbol);
    }
    hide IsGroupId, JobId, DistinctAccounts;
  }

  lemma {:induction false} RegisteredAgrees(r: Registry, g: Groups, after: Registry)
    requires Agrees(r) && Registered(r, g, after) && AllDistinct(g) && forall k <- g :: g[k].entries != []
    ensures Agrees(after)
  {
    forall id: string
      ensures IsKeyOf(g, id) ==> IsGroupId(id)
    {
      if k :| k in g && id == KeyId(k) {
        assert id == JobId(k.strategy, k.symbol);
      }
    }
    forall id: string
      ensures id in after.accounts <==> id in after.jobs && after.jobs[id].GroupJob?
      ensures id in after.jobs && after.jobs[id].GroupJob? ==>
              id == JobId(after.jobs[id].strategy, after.jobs[id].symbol)
      ensures id in after.jobs && after.jobs[id].OtherJob? ==> !IsGroupId(id)
      ensures id in after.accounts ==> after.accounts[id] != [] && DistinctAccounts(after.accounts[id])
    {
      hide IsGroupId, DistinctAccounts, JobId;
      if k :| k in g && id == KeyId(k) {
        assert Holds(after, k, g[k]);
      } else {
        assert SameAt(r, after, id);
      }
    }
  }

  lemma {:induction false} StartupAgrees(r: Registry, bs: seq<Binding>, news: bool)
    requires Agrees(r) && NoRepeats(Items(bs)) && OneRowPerStrategy(Items(bs))
    ensures Agrees(Startup(r, bs, news))
  {
    var g := Grouped(bs);
    hide Agrees, Grouped, Items, OwnJobs, RegisterAll, AllDistinct, NoRepeats, OneRowPerStrategy, Registered;
    GroupedIsItems(bs);
    GroupsDistinct(Items(bs));
    forall k <- g
      ensures g[k].entries != []
    {
      GroupHolds(Items(bs), k);
    }
    RegisterAllRegisters(r, g);
    RegisteredAgrees(r, g, RegisterAll(r, g));
    OwnJobsAgree(RegisterAll(r, g), news);
  }

  lemma {:induction false} StepAgrees(r: Registry, op: Op)
    requires Agrees(r) && Tidy(op)
    ensures Agrees(Step(r, op))
  {
    hide Agrees, AddSymbols, RemoveSymbols, RemoveAll, Startup, Items, NoRepeats, OneRowPerStrategy;
    match op
    case Start(bs, news) => StartupAgrees(r, bs, news);
    case AddBinding(b) => AddAgrees(r, b, b.strategy.symbols);
    case RemoveBinding(account, strategy, symbols) => RemoveAgrees(r, account, strategy, symbols);
    case RemoveAllBindings(account, strategy) => RemoveAllAgrees(r, account, strategy);
  }

  /** Over any sequence of startup, add, remove and remove-all, a group job exists exactly for the keys of the account
      registry, and every group lists at least one account and no account twice. */
  lemma {:induction false} RegistryAgrees(ops: seq<Op>)
    requires forall op <- ops :: Tidy(op)
    ensures Agrees(Run(ops))
  {
    hide Agrees, Step, Tidy;
    if ops == [] {
      EmptyAgrees();
    } else {
      RegistryAgrees(ops[..|ops| - 1]);
      StepAgrees(Run(ops[..|ops| - 1]), ops[|ops| - 1]);
    }
  }

  lemma {:induction false} EmptyAgrees()
    ensures Agrees(EMPTY)
  {
  }

  /** A fresh start registers the same accounts and group jobs as adding the bindings to an empty registry. */
  lemma {:induction false} FreshStartIsAddingOneByOne(bs: seq<Binding>, news: bool)
    requires NoRepeats(Items(bs)) && OneRowPerStrategy(Items(bs))
    ensures Startup(EMPTY, bs, news) == OwnJobs(AddAll(EMPTY, bs), news)
  {
    StartupIsAddingOneByOne(bs);
    RegisterAllRegisters(EMPTY, Grouped(bs));
    RegisteredIsUnique(EMPTY, Grouped(bs), AddAll(EMPTY, bs), RegisterAll(EMPTY, Grouped(bs)));
    hide Grouped, AddAll, RegisterAll, OwnJobs;
  }

  // ----- which jobs a startup registers

  /** Some binding runs the group job `id`. */
  ghost predicate Wanted(bs: seq<Binding>, id: string) {
    exists b <- bs, symbol <- b.strategy.symbols :: id == JobId(b.strategy.id, symbol)
  }

  /** The job `id` runs a symbol of some binding as its strategy plans it. */
  ghost predicate RunsFor(bs: seq<Binding>, id: string, job: Job) {
    exists b <- bs, symbol <- b.strategy.symbols ::
      id == JobId(b.strategy.id, symbol) && job == GroupJob(b.strategy.id, symbol, b.strategy.plan)
  }

  lemma {:induction false} ItemsHas(bs: seq<Binding>, k: Key, strategy: Strategy)
    ensures (exists x <- Items(bs) :: Key(x.strategy.id, x.key.symbol) == k && x.strategy == strategy)
       <==> exists b <- bs :: b.strategy == strategy && strategy.id == k.strategy && k.symbol in strategy.symbols
  {
    if bs != [] {
      var init, b := bs[..|bs| - 1], bs[|bs| - 1];
      var own := ItemsOf(b, b.strategy.symbols);
      ItemsHas(init, k, strategy);
      assert bs == init + [b];
      if b.strategy == strategy && strategy.id == k.strategy && k.symbol in strategy.symbols {
        var i: nat :| i < |b.strategy.symbols| && b.strategy.symbols[i] == k.symbol;
        assert own[i] in Items(bs);
      }
    }
  }

  /** The group of a key, if there is one, belongs to a binding that lists it. */
  lemma {:induction false} GroupedHas(bs: seq<Binding>, k: Key)
    ensures k in Grouped(bs) <==> exists b <- bs :: b.strategy.id == k.strategy && k.symbol in b.strategy.symbols
    ensures k in Grouped(bs) ==> exists b <- bs ::
      b.strategy == Grouped(bs)[k].strategy && b.strategy.id == k.strategy && k.symbol in b.strategy.symbols
  {
    GroupedIsItems(bs);
    GroupHolds(Items(bs), k);
    if x :| x in Items(bs) && Key(x.strategy.id, x.key.symbol) == k {
      ItemsHas(bs, k, x.strategy);
    }
    if b :| b in bs && b.strategy.id == k.strategy && k.symbol in b.strategy.symbols {
      ItemsHas(bs, k, b.strategy);
    }
    if k in Grouped(bs) {
      ItemsHas(bs, k, Grouped(bs)[k].strategy);
    }
  }

  lemma {:induction false} KeysAreWanted(bs: seq<Binding>, id: string)
    ensures IsKeyOf(Grouped(bs), id) <==> Wanted(bs, id)
  {
    hide Grouped, JobId;
    if k :| k in Grouped(bs) && id == KeyId(k) {
      GroupedHas(bs, k);
    }
    if b, symbol :| b in bs && symbol in b.strategy.symbols && id == JobId(b.strategy.id, symbol) {
      GroupedHas(bs, Key(b.strategy.id, symbol));
      assert id == KeyId(Key(b.strategy.id, symbol));
    }
  }

  /** After a startup the table holds what it held, one job for each strategy and symbol that some binding lists, the
      maintenance sweep, and, when news is enabled, the two news jobs; an account list exists for the group jobs. */
  lemma {:induction false} StartupRegisters(r: Registry, bs: seq<Binding>, news: bool, id: string)
    ensures var t := Startup(r, bs, news);
      && (id in t.jobs <==> id in r.jobs || Wanted(bs, id) || id == "position_maintenance_sweep"
                            || (news && id in {"news_fetch_daily", "news_analyze_daily"}))
      && (id in t.accounts <==> id in r.accounts || Wanted(bs, id))
      && (Wanted(bs, id) ==> id in t.jobs && RunsFor(bs, id, t.jobs[id]))
  {
    var g := Grouped(bs);
    var all := RegisterAll(r, g);
    KeysAreWanted(bs, id);
    RegisterAllHas(r, g, id);
    OwnJobsHas(all, news, id);
    if Wanted(bs, id) {
      GroupRuns(r, bs, id);
      GroupIdsAreNotOwn(bs, id);
    }
    hide Grouped, RegisterAll, OwnJobs, Wanted, RunsFor, IsKeyOf;
  }

  lemma {:induction false} RegisterAllHas(r: Registry, g: Groups, id: string)
    ensures var all := RegisterAll(r, g);
      && (id in all.jobs <==> id in r.jobs || IsKeyOf(g, id))
      && (id in all.accounts <==> id in r.accounts || IsKeyOf(g, id))
  {
    hide KeyId;
  }

  lemma {:induction false} OwnJobsHas(r: Registry, news: bool, id: string)
    ensures var own := id == "position_maintenance_sweep" || (news && id in {"news_fetch_daily", "news_analyze_daily"});
      && (id in OwnJobs(r, news).jobs <==> id in r.jobs || own)
      && OwnJobs(r, news).accounts == r.accounts
      && (id in r.jobs && !own ==> OwnJobs(r, news).jobs[id] == r.jobs[id])
  {
  }

  lemma {:induction false} GroupIdsAreNotOwn(bs: seq<Binding>, id: string)
    requires Wanted(bs, id)
    ensures id !in {"position_maintenance_sweep", "news_fetch_daily", "news_analyze_daily"}
  {
    var b, symbol :| b in bs && symbol in b.strategy.symbols && id == JobId(b.strategy.id, symbol);
    OwnJobsAreNotGroups(b.strategy.id, symbol);
    hide JobId;
  }

  lemma {:induction false} GroupRuns(r: Registry, bs: seq<Binding>, id: string)
    requires Wanted(bs, id)
    ensures var all := RegisterAll(r, Grouped(bs)); id in all.jobs && RunsFor(bs, id, all.jobs[id])
  {
    KeysAreWanted(bs, id);
    hide Grouped, JobId, Wanted;
    var g := Grouped(bs);
    var k :| k in g && id == KeyId(k);
    GroupedHas(bs, k);
    assert JobsById(g)[id] == GroupJob(k.strategy, k.symbol, g[k].strategy.plan);
    var b :| b in bs && b.strategy == g[k].strategy && b.strategy.id == k.strategy && k.symbol in b.strategy.symbols;
    assert id == JobId(b.strategy.id, k.symbol);
  }
}
