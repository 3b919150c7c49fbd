/** Small shared definitions: optional values, sums over maps, lists as Redis keeps them,
    and the decimal text of a row id. */
module Common {

  datatype Option<+T> = None | Some(value: T)

  /** How one remote call (a SQL transaction, a Redis command) can end: it works; or it raises
      before having any effect; or it takes effect and only its reply is lost. */
  datatype Fault = Works | FailsBefore(error: string) | FailsAfter(error: string)

  /** The store after a call under `fault`, given its state before and the intended state after. */
  function Committed<S>(fault: Fault, before: S, after: S): S {
    if fault.FailsBefore? then before else after
  }

  /* ---- sums over finite maps ---- */

  ghost function Pick<K, V>(m: map<K, V>): (k: K)
    requires m != map[]
    ensures k in m
  {
    assert m.Keys != {} by { assert m.Keys == {} ==> m == map[]; }
    var k :| k in m; k
  }

  ghost function MapSum<K>(m: map<K, int>): int
    decreases |m|
  {
    if m == map[] then 0
    else
      var k := Pick(m);
      assert |(m - {k}).Keys| < |m.Keys| by { assert (m - {k}).Keys == m.Keys - {k}; }
      m[k] + MapSum(m - {k})
  }

  lemma {:induction false} MapSumRemove<K>(m: map<K, int>, k: K)
    requires k in m
    ensures MapSum(m) == m[k] + MapSum(m - {k})
    decreases |m|
  {
    var p := Pick(m);
    if p != k {
      assert |(m - {p}).Keys| < |m.Keys| by { assert (m - {p}).Keys == m.Keys - {p}; }
      assert |(m - {k}).Keys| < |m.Keys| by { assert (m - {k}).Keys == m.Keys - {k}; }
      MapSumRemove(m - {p}, k);
      MapSumRemove(m - {k}, p);
      assert (m - {p}) - {k} == (m - {k}) - {p};
    }
  }

  /** Putting `v` at `k` replaces what `k` contributed before. */
  lemma MapSumUpdate<K>(m: map<K, int>, k: K, v: int)
    ensures MapSum(m[k := v]) == MapSum(m) + v - (if k in m then m[k] else 0)
  {
    MapSumRemove(m[k := v], k);
    if k in m {
      MapSumRemove(m, k);
      assert m[k := v] - {k} == m - {k};
    } else {
      assert m[k := v] - {k} == m;
    }
  }

  /** A part of a map of naturals, pointwise no larger, sums to no more. */
  lemma {:induction false} MapSumMonotone<K>(small: map<K, int>, big: map<K, int>)
    requires forall k :: k in small ==> k in big && small[k] <= big[k]
    requires forall k :: k in big ==> 0 <= big[k]
    ensures MapSum(small) <= MapSum(big)
    decreases |big|
  {
    if big == map[] {
      assert small == map[];
    } else {
      var k := Pick(big);
      assert |(big - {k}).Keys| < |big.Keys| by { assert (big - {k}).Keys == big.Keys - {k}; }
      MapSumMonotone(small - {k}, big - {k});
      if k in small {
        MapSumRemove(small, k);
      } else {
        assert small - {k} == small;
      }
    }
  }

  /* ---- lists ---- */

  /** LREM key 1 x: the list without its first copy of x, or the list itself. */
  function RemoveFirst<T(==)>(s: seq<T>, x: T): (r: seq<T>)
    ensures x !in s ==> r == s
    ensures multiset(r) == multiset(s) - multiset{x}
  {
    if s == [] then []
    else if s[0] == x then
      assert s == [s[0]] + s[1..];
      s[1..]
    else
      assert s == [s[0]] + s[1..];
      [s[0]] + RemoveFirst(s[1..], x)
  }

  lemma RemoveFirstKeepsOthers<T>(s: seq<T>, x: T, y: T)
    ensures y in RemoveFirst(s, x) ==> y in s
    ensures y != x && y in s ==> y in RemoveFirst(s, x)
  {
    assert y in s <==> y in multiset(s);
    assert y in RemoveFirst(s, x) <==> y in multiset(RemoveFirst(s, x));
  }

  function Reverse<T>(s: seq<T>): (r: seq<T>)
    ensures |r| == |s|
    ensures forall k :: 0 <= k < |s| ==> r[k] == s[|s| - 1 - k]
  {
    if s == [] then [] else Reverse(s[1..]) + [s[0]]
  }

  /* ---- arithmetic ---- */

  function Pow2(n: nat): (r: nat)
    ensures r >= 1
  {
    if n == 0 then 1 else 2 * Pow2(n - 1)
  }

  function Digit(d: nat): char
    requires d < 10
  {
    ('0' as int + d) as char
  }

  /** The decimal text of a row id. */
  function Decimal(n: nat): (s: string)
    ensures |s| >= 1
  {
    if n < 10 then [Digit(n)] else Decimal(n / 10) + [Digit(n % 10)]
  }

  lemma {:induction false} DecimalInjective(a: nat, b: nat)
    requires Decimal(a) == Decimal(b)
    ensures a == b
  {
    assert Decimal(a)[|Decimal(a)| - 1] == Digit(a % 10);
    assert Decimal(b)[|Decimal(b)| - 1] == Digit(b % 10);
    if a >= 10 && b >= 10 {
      assert Decimal(a)[..|Decimal(a)| - 1] == Decimal(a / 10);
      assert Decimal(b)[..|Decimal(b)| - 1] == Decimal(b / 10);
      DecimalInjective(a / 10, b / 10);
    }
  }
}
