/** Group job ids: `strat_<id>_<symbol>` with the id in decimal. */
module JobIds {

  function Digit(n: nat): char
    requires n < 10
  {
    ['0', '1', '2', '3', '4', '5', '6', '7', '8', '9'][n]
  }

  function Decimal(n: nat): (s: string)
    ensures s != [] && forall c <- s :: c != '_'
  {
    if n < 10 then [Digit(n)] else Decimal(n / 10) + [Digit(n % 10)]
  }

  lemma {:induction false} DecimalShape(n: nat)
    ensures |Decimal(n)| == 1 <==> n < 10
    ensures n >= 10 ==> Decimal(n)[..|Decimal(n)| - 1] == Decimal(n / 10)
    ensures n >= 10 ==> Decimal(n)[|Decimal(n)| - 1] == Digit(n % 10)
  {
  }

  lemma {:induction false} SameDecimal(m: nat, n: nat)
    requires Decimal(m) == Decimal(n)
    ensures m == n
  {
    DecimalShape(m);
    DecimalShape(n);
    if m < 10 {
      assert Decimal(m)[0] == Digit(m) && Decimal(n)[0] == Digit(n);
    } else {
      SameDecimal(m / 10, n / 10);
      assert Digit(m % 10) == Digit(n % 10);
    }
  }

  lemma {:induction false} DecimalInjective(m: nat, n: nat)
    ensures Decimal(m) == Decimal(n) <==> m == n
  {
    if Decimal(m) == Decimal(n) {
      SameDecimal(m, n);
    }
  }

  const GROUP := "strat_"

  function StrategyPrefix(strategy: nat): string {
    GROUP + Decimal(strategy) + "_"
  }

  function JobId(strategy: nat, symbol: string): string {
    GROUP + Decimal(strategy) + "_" + symbol
  }

  /** Strings without '_' in front of a '_' are decided by the first '_'. */
  lemma {:induction false} FirstUnderscore(d: string, e: string, rest: string)
    requires (forall c <- d :: c != '_') && (forall c <- e :: c != '_')
    ensures e + "_" <= d + "_" + rest <==> d == e
  {
    var whole, front := d + "_" + rest, e + "_";
    assert whole[|d|] == '_' && front[|e|] == '_';
    if front <= whole {
      SameBefore(d, e, rest);
    }
    if d == e {
      assert whole == front + rest;
    }
  }

  lemma {:induction false} SameBefore(d: string, e: string, rest: string)
    requires (forall c <- d :: c != '_') && (forall c <- e :: c != '_')
    requires e + "_" <= d + "_" + rest
    ensures d == e
  {
    var whole, front := d + "_" + rest, e + "_";
    assert forall i | 0 <= i < |e| + 1 :: whole[i] == front[i];
    assert whole[|d|] == '_' && whole[|e|] == '_';
    assert forall i | 0 <= i < |d| :: whole[i] == d[i] && d[i] in d;
    assert forall i | 0 <= i < |e| :: whole[i] == e[i] && e[i] in e;
    assert |d| == |e|;
  }

  /** The prefix of a strategy hits exactly that strategy's job ids; strategy 1 never touches strategy 12. */
  lemma {:induction false} PrefixHitsOwnJobsOnly(strategy: nat, other: nat, symbol: string)
    ensures StrategyPrefix(strategy) <= JobId(other, symbol) <==> strategy == other
  {
    var d, e := Decimal(other), Decimal(strategy);
    FirstUnderscore(d, e, symbol);
    DecimalInjective(strategy, other);
    assert StrategyPrefix(strategy) == GROUP + (e + "_");
    assert JobId(other, symbol) == GROUP + (d + "_" + symbol);
    var n := |GROUP|;
    assert StrategyPrefix(strategy)[n..] == e + "_" && JobId(other, symbol)[n..] == d + "_" + symbol;
    PrefixUnderHead(GROUP, e + "_", d + "_" + symbol);
  }

  lemma {:induction false} PrefixUnderHead(head: string, x: string, y: string)
    ensures head + x <= head + y <==> x <= y
  {
    assert (head + x)[|head|..] == x && (head + y)[|head|..] == y;
    if head + x <= head + y {
      assert (head + y)[..|head + x|] == head + x;
      assert y[..|x|] == (head + y)[|head|..|head| + |x|] == x;
    }
    if x <= y {
      assert y == x + y[|x|..];
      assert head + y == head + x + y[|x|..];
    }
  }

  /** Different groups have different ids. */
  lemma {:induction false} JobIdInjective(i: nat, s: string, j: nat, t: string)
    ensures JobId(i, s) == JobId(j, t) <==> i == j && s == t
  {
    if JobId(i, s) == JobId(j, t) {
      assert StrategyPrefix(i) <= JobId(i, s) by {
        PrefixHitsOwnJobsOnly(i, i, s);
      }
      PrefixHitsOwnJobsOnly(i, j, t);
      var n := |StrategyPrefix(i)|;
      assert JobId(i, s)[n..] == s && JobId(j, t)[n..] == t;
    }
  }
}
