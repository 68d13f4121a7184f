/** The combinations of an optimization sweep: cartesian product, EMA filter, and parameter dictionaries. */
module ParamGrid {
  import opened Seqs

  /** `v` in front of every combination. */
  function Prefixed<V>(v: V, combos: seq<seq<V>>): (r: seq<seq<V>>)
    ensures |r| == |combos|
  {
    seq(|combos|, i requires 0 <= i < |combos| => [v] + combos[i])
  }

  function Spread<V>(vs: seq<V>, combos: seq<seq<V>>): seq<seq<V>> {
    if vs == [] then [] else Prefixed(vs[0], combos) + Spread(vs[1..], combos)
  }

  /** One value from each list, the last list varying fastest. */
  function Product<V>(lists: seq<seq<V>>): seq<seq<V>> {
    if lists == [] then [[]] else Spread(lists[0], Product(lists[1..]))
  }

  /** `c` picks one value from each list. */
  ghost predicate Picks<V(!new)>(c: seq<V>, lists: seq<seq<V>>) {
    |c| == |lists| && forall i | 0 <= i < |c| :: c[i] in lists[i]
  }

  lemma {:induction false} PrefixedHas<V(!new)>(v: V, combos: seq<seq<V>>, c: seq<V>)
    ensures c in Prefixed(v, combos) <==> c != [] && c[0] == v && c[1..] in combos
  {
    var r := Prefixed(v, combos);
    if c in r {
      var i :| 0 <= i < |r| && r[i] == c;
      assert c[1..] == combos[i];
    }
    if c != [] && c[0] == v && c[1..] in combos {
      var i :| 0 <= i < |combos| && combos[i] == c[1..];
      assert c == [v] + c[1..] == r[i];
    }
  }

  lemma {:induction false} SpreadHas<V(!new)>(vs: seq<V>, combos: seq<seq<V>>, c: seq<V>)
    ensures c in Spread(vs, combos) <==> c != [] && c[0] in vs && c[1..] in combos
  {
    if vs != [] {
      PrefixedHas(vs[0], combos, c);
      SpreadHas(vs[1..], combos, c);
    }
  }

  /** The product holds exactly the combinations that pick one value from each list. */
  lemma {:induction false} ProductHas<V(!new)>(lists: seq<seq<V>>, c: seq<V>)
    ensures c in Product(lists) <==> Picks(c, lists)
  {
    if lists == [] {
    } else {
      SpreadHas(lists[0], Product(lists[1..]), c);
      if c != [] {
        ProductHas(lists[1..], c[1..]);
        if Picks(c[1..], lists[1..]) && c[0] in lists[0] {
          forall i | 0 <= i < |c|
            ensures c[i] in lists[i]
          {
            if i > 0 {
              assert c[i] == c[1..][i - 1] && lists[i] == lists[1..][i - 1];
            }
          }
        }
      }
    }
  }

  lemma {:induction false} SpreadDistinct<V(!new)>(vs: seq<V>, combos: seq<seq<V>>)
    requires NoDuplicates(vs) && NoDuplicates(combos)
    ensures NoDuplicates(Spread(vs, combos))
  {
    if vs != [] {
      SpreadDistinct(vs[1..], combos);
      var front, back := Prefixed(vs[0], combos), Spread(vs[1..], combos);
      forall i, j | 0 <= i < j < |front|
        ensures front[i] != front[j]
      {
        assert front[i][1..] == combos[i] && front[j][1..] == combos[j];
      }
      forall i, j | 0 <= i < |front| && 0 <= j < |back|
        ensures front[i] != back[j]
      {
        assert front[i][0] == vs[0];
        assert back[j] in back;
        SpreadHas(vs[1..], combos, back[j]);
      }
    }
  }

  /** Distinct grid values give distinct combinations. */
  lemma {:induction false} ProductDistinct<V(!new)>(lists: seq<seq<V>>)
    requires forall i | 0 <= i < |lists| :: NoDuplicates(lists[i])
    ensures NoDuplicates(Product(lists))
  {
    if lists != [] {
      ProductDistinct(lists[1..]);
      SpreadDistinct(lists[0], Product(lists[1..]));
    }
  }

  function Filter<T>(xs: seq<T>, keep: T -> bool): seq<T> {
    if xs == [] then []
    else Filter(xs[..|xs| - 1], keep) + if keep(xs[|xs| - 1]) then [xs[|xs| - 1]] else []
  }

  lemma {:induction false} FilterHas<T(!new)>(xs: seq<T>, keep: T -> bool, x: T)
    ensures x in Filter(xs, keep) <==> x in xs && keep(x)
  {
    if xs != [] {
      FilterHas(xs[..|xs| - 1], keep, x);
      assert xs == xs[..|xs| - 1] + [xs[|xs| - 1]];
    }
  }

  lemma {:induction false} FilterDistinct<T(!new)>(xs: seq<T>, keep: T -> bool)
    requires NoDuplicates(xs)
    ensures NoDuplicates(Filter(xs, keep))
  {
    if xs != [] {
      var init, x := xs[..|xs| - 1], xs[|xs| - 1];
      FilterDistinct(init, keep);
      FilterHas(init, keep, x);
    }
  }

  function IndexOf(names: seq<string>, name: string): (i: nat)
    requires name in names
    ensures i < |names| && names[i] == name
  {
    if names[0] == name then 0 else 1 + IndexOf(names[1..], name)
  }

  /** Combinations with `ema_fast` not below `ema_slow` are dropped when both are swept. */
  function Valid<V>(names: seq<string>, less: (V, V) -> bool, c: seq<V>): bool {
    "ema_fast" in names && "ema_slow" in names && |c| == |names| ==>
      less(c[IndexOf(names, "ema_fast")], c[IndexOf(names, "ema_slow")])
  }

  /** `dict(zip(names, combo))`. */
  function Params<V>(names: seq<string>, c: seq<V>): (m: map<string, V>)
    requires |names| == |c|
    ensures forall i | 0 <= i < |names| :: names[i] in m
  {
    if names == [] then map[]
    else Params(names[..|names| - 1], c[..|c| - 1])[names[|names| - 1] := c[|c| - 1]]
  }

  lemma {:induction false} ParamsLookup<V(!new)>(names: seq<string>, c: seq<V>, i: nat)
    requires |names| == |c| && i < |c| && NoDuplicates(names)
    ensures Params(names, c)[names[i]] == c[i]
  {
    var n := |names| - 1;
    if i < n {
      ParamsLookup(names[..n], c[..n], i);
      assert names[..n][i] == names[i] != names[n];
    }
  }

  /** With distinct names, different combinations are different dictionaries. */
  lemma {:induction false} ParamsInjective<V(!new)>(names: seq<string>, c: seq<V>, d: seq<V>)
    requires |names| == |c| == |d| && NoDuplicates(names)
    ensures Params(names, c) == Params(names, d) <==> c == d
  {
    if Params(names, c) == Params(names, d) {
      forall i: nat | i < |c|
        ensures c[i] == d[i]
      {
        ParamsLookup(names, c, i);
        ParamsLookup(names, d, i);
      }
    }
  }

  /** The parameter dictionaries of a sweep, in submission order. */
  function Grid<V>(names: seq<string>, values: seq<seq<V>>, less: (V, V) -> bool): seq<map<string, V>>
    requires |names| == |values|
  {
    AllParams(names, Filter(Product(values), c => Valid(names, less, c)))
  }

  function AllParams<V>(names: seq<string>, combos: seq<seq<V>>): (r: seq<map<string, V>>)
    ensures |r| == |combos|
  {
    seq(|combos|, i requires 0 <= i < |combos| => if |combos[i]| == |names| then Params(names, combos[i]) else map[])
  }

  /** Distinct names and distinct values per name give a sweep without repeated dictionaries. */
  lemma {:induction false} GridDistinct<V(!new)>(names: seq<string>, values: seq<seq<V>>, less: (V, V) -> bool)
    requires |names| == |values| && NoDuplicates(names)
    requires forall i | 0 <= i < |values| :: NoDuplicates(values[i])
    ensures NoDuplicates(Grid(names, values, less))
  {
    var keep := c => Valid(names, less, c);
    var combos := Filter(Product(values), keep);
    ProductDistinct(values);
    FilterDistinct(Product(values), keep);
    var ps := AllParams(names, combos);
    forall i, j | 0 <= i < j < |ps|
      ensures ps[i] != ps[j]
    {
      FilterHas(Product(values), keep, combos[i]);
      FilterHas(Product(values), keep, combos[j]);
      ProductHas(values, combos[i]);
      ProductHas(values, combos[j]);
      ParamsInjective(names, combos[i], combos[j]);
    }
  }

  // ----- which dictionaries, in which order

  /** A dictionary of the sweep: one of the listed values for each name, and `ema_fast` below `ema_slow` when both are
      swept. */
  ghost predicate Swept<V(!new)>(names: seq<string>, values: seq<seq<V>>, less: (V, V) -> bool, m: map<string, V>)
    requires |names| == |values|
  {
    && m.Keys == (set name <- names)
    && (forall i | 0 <= i < |names| :: m[names[i]] in values[i])
    && ("ema_fast" in names && "ema_slow" in names ==> less(m["ema_fast"], m["ema_slow"]))
  }

  lemma {:induction false} ParamsKeys<V(!new)>(names: seq<string>, c: seq<V>)
    requires |names| == |c|
    ensures Params(names, c).Keys == set name <- names
  {
    if names != [] {
      ParamsKeys(names[..|names| - 1], c[..|c| - 1]);
      assert names == names[..|names| - 1] + [names[|names| - 1]];
    }
  }

  /** The values of a dictionary in the order of the names. */
  function ValuesOf<V>(names: seq<string>, m: map<string, V>): (c: seq<V>)
    requires forall name <- names :: name in m
    ensures |c| == |names| && forall i | 0 <= i < |names| :: c[i] == m[names[i]]
  {
    seq(|names|, i requires 0 <= i < |names| => m[names[i]])
  }

  lemma {:induction false} ParamsOfValues<V(!new)>(names: seq<string>, m: map<string, V>)
    requires NoDuplicates(names) && m.Keys == set name <- names
    ensures Params(names, ValuesOf(names, m)) == m
  {
    var c := ValuesOf(names, m);
    ParamsKeys(names, c);
    forall name <- names
      ensures Params(names, c)[name] == m[name]
    {
      var i: nat :| i < |names| && names[i] == name;
      ParamsLookup(names, c, i);
    }
  }

  lemma {:induction false} SweptIsPicked<V(!new)>(names: seq<string>, values: seq<seq<V>>, less: (V, V) -> bool,
                                                  c: seq<V>)
    requires |names| == |values| == |c| && NoDuplicates(names)
    ensures Swept(names, values, less, Params(names, c)) <==> Picks(c, values) && Valid(names, less, c)
  {
    ParamsKeys(names, c);
    forall i: nat | i < |names|
      ensures Params(names, c)[names[i]] == c[i]
    {
      ParamsLookup(names, c, i);
    }
  }

  lemma {:induction false} AllParamsHas<V(!new)>(names: seq<string>, combos: seq<seq<V>>, m: map<string, V>)
    requires forall c <- combos :: |c| == |names|
    ensures m in AllParams(names, combos) <==> exists c <- combos :: |c| == |names| && m == Params(names, c)
  {
    var ps := AllParams(names, combos);
    if m in ps {
      var i :| 0 <= i < |ps| && ps[i] == m;
      assert combos[i] in combos;
    }
    if c :| c in combos && |c| == |names| && m == Params(names, c) {
      var i :| 0 <= i < |combos| && combos[i] == c;
      assert ps[i] == m;
    }
  }

  /** With distinct names the sweep holds exactly those dictionaries. */
  lemma {:induction false} GridHas<V(!new)>(names: seq<string>, values: seq<seq<V>>, less: (V, V) -> bool,
                                            m: map<string, V>)
    requires |names| == |values| && NoDuplicates(names)
    ensures m in Grid(names, values, less) <==> Swept(names, values, less, m)
  {
    var keep := c => Valid(names, less, c);
    var combos := Filter(Product(values), keep);
    forall c
      ensures c in combos <==> Picks(c, values) && Valid(names, less, c)
    {
      FilterHas(Product(values), keep, c);
      ProductHas(values, c);
    }
    AllParamsHas(names, combos, m);
    forall c | c in combos
      ensures Swept(names, values, less, Params(names, c))
    {
      SweptIsPicked(names, values, less, c);
    }
    if Swept(names, values, less, m) {
      var c := ValuesOf(names, m);
      ParamsOfValues(names, m);
      SweptIsPicked(names, values, less, c);
    }
  }

  /** `c` comes before `d` as the lists count up: they agree up to some list, and there `c` has the earlier value. */
  ghost predicate CountsBefore<V(!new)>(lists: seq<seq<V>>, c: seq<V>, d: seq<V>) {
    |c| == |lists| == |d| &&
    exists k | 0 <= k < |lists| :: c[..k] == d[..k] && Earlier(lists[k], c[k], d[k])
  }

  ghost predicate Earlier<V(!new)>(vs: seq<V>, v: V, w: V) {
    exists a, b | 0 <= a < b < |vs| :: vs[a] == v && vs[b] == w
  }

  /** Each value of a list is run through with all combinations of the later lists before its next value: the last list
      varies fastest. */
  lemma {:induction false} LastVariesFastest<V(!new)>(lists: seq<seq<V>>, i: nat, j: nat)
    requires i < j < |Product(lists)|
    ensures CountsBefore(lists, Product(lists)[i], Product(lists)[j])
  {
    var tail := Product(lists[1..]);
    forall a, b | 0 <= a < b < |tail|
      ensures CountsBefore(lists[1..], tail[a], tail[b])
    {
      LastVariesFastest(lists[1..], a, b);
    }
    assert lists == [lists[0]] + lists[1..];
    forall c <- tail
      ensures |c| == |lists| - 1
    {
      ProductHas(lists[1..], c);
    }
    SpreadCounts(lists[0], lists[1..], tail, i, j);
  }

  lemma {:induction false} SpreadCounts<V(!new)>(vs: seq<V>, rest: seq<seq<V>>, combos: seq<seq<V>>, i: nat, j: nat)
    requires i < j < |Spread(vs, combos)|
    requires forall c <- combos :: |c| == |rest|
    requires forall a, b | 0 <= a < b < |combos| :: CountsBefore(rest, combos[a], combos[b])
    ensures CountsBefore([vs] + rest, Spread(vs, combos)[i], Spread(vs, combos)[j])
  {
    hide CountsBefore;
    var front, back, all := Prefixed(vs[0], combos), Spread(vs[1..], combos), Spread(vs, combos);
    if j < |front| {
      assert all[i] == [vs[0]] + combos[i] && all[j] == [vs[0]] + combos[j];
      CountsBehind(vs, rest, vs[0], combos[i], combos[j]);
    } else if i >= |front| {
      assert all[i] == back[i - |front|] && all[j] == back[j - |front|];
      SpreadCounts(vs[1..], rest, combos, i - |front|, j - |front|);
      CountsInTail(vs, rest, all[i], all[j]);
    } else {
      assert all[i] == [vs[0]] + combos[i] && all[j] in back;
      SpreadHas(vs[1..], combos, all[j]);
      CountsByFirst(vs, rest, all[i], all[j]);
    }
  }

  lemma {:induction false} CountsBehind<V(!new)>(vs: seq<V>, rest: seq<seq<V>>, v: V, c: seq<V>, d: seq<V>)
    requires CountsBefore(rest, c, d)
    ensures CountsBefore([vs] + rest, [v] + c, [v] + d)
  {
    var k :| 0 <= k < |rest| && c[..k] == d[..k] && Earlier(rest[k], c[k], d[k]);
    var c1, d1 := [v] + c, [v] + d;
    assert c1[..k + 1] == [v] + c[..k] == [v] + d[..k] == d1[..k + 1];
    assert Earlier(([vs] + rest)[k + 1], c1[k + 1], d1[k + 1]);
  }

  lemma {:induction false} CountsInTail<V(!new)>(vs: seq<V>, rest: seq<seq<V>>, c: seq<V>, d: seq<V>)
    requires vs != [] && CountsBefore([vs[1..]] + rest, c, d)
    ensures CountsBefore([vs] + rest, c, d)
  {
    var k :| 0 <= k <= |rest| && c[..k] == d[..k] && Earlier(([vs[1..]] + rest)[k], c[k], d[k]);
    if k == 0 {
      var a, b :| 0 <= a < b < |vs[1..]| && vs[1..][a] == c[0] && vs[1..][b] == d[0];
      assert vs[a + 1] == c[0] && vs[b + 1] == d[0];
      assert Earlier(vs, c[0], d[0]);
    }
    assert Earlier(([vs] + rest)[k], c[k], d[k]);
  }

  lemma {:induction false} CountsByFirst<V(!new)>(vs: seq<V>, rest: seq<seq<V>>, c: seq<V>, d: seq<V>)
    requires vs != [] && |c| == |d| == |rest| + 1 && c[0] == vs[0] && d[0] in vs[1..]
    ensures CountsBefore([vs] + rest, c, d)
  {
    var b :| 0 <= b < |vs[1..]| && vs[1..][b] == d[0];
    assert vs[0] == c[0] && vs[b + 1] == d[0];
    assert Earlier(([vs] + rest)[0], c[0], d[0]);
    assert c[..0] == d[..0];
  }
}
