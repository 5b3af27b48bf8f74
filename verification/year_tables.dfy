/**
 * Per-year arrays. A stage fills year after year and stops at the first year
 * whose computation fails, which `Tabulate` reproduces; `Sum` is the running
 * total the cash-flow and discounting stages accumulate.
 */
module YearTables {
  import opened Wrappers
  import opened Money

  /**
   * The table `[f(0), ..., f(n-1)]`, built in index order; it fails with the
   * fault of the first index whose entry fails.
   */
  function Tabulate<T>(n: nat, f: nat -> Result<T>): (r: Result<seq<T>>)
    ensures r.Success? <==> (forall i :: 0 <= i < n ==> f(i).Success?)
    ensures r.Success? ==> |r.value| == n && forall i :: 0 <= i < n ==> f(i) == Success(r.value[i])
    ensures r.Failure? ==>
              exists i :: 0 <= i < n && f(i) == Failure(r.fault) && forall j :: 0 <= j < i ==> f(j).Success?
  {
    if n == 0 then Success([])
    else
      var init :- Tabulate(n - 1, f);
      var last :- f(n - 1);
      Success(init + [last])
  }

  /** Two pointwise-equal year functions give the same table. */
  lemma TabulateExtensional<T>(n: nat, f: nat -> Result<T>, g: nat -> Result<T>)
    requires forall i :: 0 <= i < n ==> f(i) == g(i)
    ensures Tabulate(n, f) == Tabulate(n, g)
  {
    if n > 0 {
      TabulateExtensional(n - 1, f, g);
    }
  }

  /** A table of `n` zeros: the freshly initialised result arrays. */
  function Zeros(n: nat): (z: seq<real>)
    ensures |z| == n && forall i :: 0 <= i < n ==> z[i] == 0.0
  {
    seq(n, i => 0.0)
  }

  /** `prefix` written over the first entries of `base`, the rest left as they were. */
  function Overwrite(base: seq<real>, prefix: seq<real>): (r: seq<real>)
    requires |prefix| <= |base|
    ensures |r| == |base|
    ensures forall i :: 0 <= i < |prefix| ==> r[i] == prefix[i]
    ensures forall i :: |prefix| <= i < |base| ==> r[i] == base[i]
  {
    prefix + base[|prefix|..]
  }

  function Sum(s: seq<real>): real {
    if |s| == 0 then 0.0 else Sum(s[..|s| - 1]) + s[|s| - 1]
  }

  /** The running total grows by exactly the next entry. */
  lemma SumStep(s: seq<real>, i: nat)
    requires i < |s|
    ensures Sum(s[..i + 1]) == Sum(s[..i]) + s[i]
  {
    assert s[..i + 1][..i] == s[..i];
  }

  lemma SumWhole(s: seq<real>)
    ensures Sum(s[..|s|]) == Sum(s)
  {
    assert s[..|s|] == s;
  }

  lemma {:induction false} SumAppend(a: seq<real>, b: seq<real>)
    ensures Sum(a + b) == Sum(a) + Sum(b)
    decreases |b|
  {
    if |b| == 0 {
      assert a + b == a;
    } else {
      assert (a + b)[..|a + b| - 1] == a + b[..|b| - 1];
      SumAppend(a, b[..|b| - 1]);
    }
  }

  /** Sums of whole cents are whole cents. */
  lemma {:induction false} SumOfCents(s: seq<real>)
    requires forall i :: 0 <= i < |s| ==> IsCents(s[i])
    ensures IsCents(Sum(s))
  {
    if |s| == 0 {
      ZeroIsCents();
    } else {
      SumOfCents(s[..|s| - 1]);
      CentsClosed(Sum(s[..|s| - 1]), s[|s| - 1]);
    }
  }

  /** A sum of zeros is zero. */
  lemma {:induction false} SumOfZeros(s: seq<real>)
    requires forall i :: 0 <= i < |s| ==> s[i] == 0.0
    ensures Sum(s) == 0.0
  {
    if |s| > 0 {
      SumOfZeros(s[..|s| - 1]);
    }
  }

  /**
   * `n` equal amounts `d` added one after another: `n * d`, kept as a
   * repeated sum so that totals over a horizon stay linear in the amount.
   */
  function Repeated(d: real, n: nat): real {
    if n == 0 then 0.0 else Repeated(d, n - 1) + d
  }

  lemma {:induction false} RepeatedIsProduct(d: real, n: nat)
    ensures Repeated(d, n) == n as real * d
  {
    if n > 0 {
      RepeatedIsProduct(d, n - 1);
    }
  }

  /** A sum of entries bounded by `b` is bounded by `b` once per entry. */
  lemma {:induction false} SumBounded(s: seq<real>, b: real)
    requires forall i :: 0 <= i < |s| ==> Abs(s[i]) <= b
    ensures Abs(Sum(s)) <= Repeated(b, |s|)
  {
    if |s| > 0 {
      var n := |s| - 1;
      SumBounded(s[..n], b);
      assert Abs(s[n]) <= b;
    }
  }

  /**
   * A table that is zero for its first `c` entries and `v` after them adds up
   * to `v` once per remaining entry.
   */
  lemma {:induction false} SumOfTail(s: seq<real>, c: nat, k: nat, v: real)
    requires |s| == c + k
    requires forall i :: 0 <= i < |s| ==> s[i] == (if i < c then 0.0 else v)
    ensures Sum(s) == Repeated(v, k)
  {
    if k == 0 {
      SumOfZeros(s);
    } else {
      SumOfTail(s[..|s| - 1], c, k - 1, v);
    }
  }

  /** The total of a table is its first entry plus the total of the rest. */
  lemma SumCons(x: real, s: seq<real>)
    ensures Sum([x] + s) == x + Sum(s)
  {
    SumAppend([x], s);
    assert [x][..0] == [];
  }

  /** Two tables that differ entrywise by at most `e` have totals at most `e` per entry apart. */
  lemma {:induction false} SumNear(a: seq<real>, b: seq<real>, e: real)
    requires |a| == |b|
    requires forall i :: 0 <= i < |a| ==> Abs(a[i] - b[i]) <= e
    ensures Abs(Sum(a) - Sum(b)) <= Repeated(e, |a|)
  {
    if |a| > 0 {
      var n := |a| - 1;
      var a', b' := a[..n], b[..n];
      assert forall i :: 0 <= i < n ==> Abs(a'[i] - b'[i]) <= e;
      SumNear(a', b', e);
      AccumulateBound(Sum(a') - Sum(b'), a[n] - b[n], n, e);
    }
  }

  /** One more step of at most `e` on top of `n` of them. */
  lemma AccumulateBound(d: real, x: real, n: nat, e: real)
    requires Abs(d) <= Repeated(e, n) && Abs(x) <= e
    ensures Abs(d + x) <= Repeated(e, n + 1)
  {
  }

  /** `n` level shares each within half a cent of `base / n` add up to within `n` half cents of `base`. */
  lemma LevelSharesRecover(n: nat, d: real, base: real)
    requires n > 0 && Abs(d - base / n as real) <= 0.005
    ensures Abs(Repeated(d, n) - base) <= n as real * 0.005
  {
    RepeatedIsProduct(d, n);
    var e := d - base / n as real;
    assert n as real * d - base == n as real * e;
    if e < 0.0 {
      assert n as real * (-e) <= n as real * 0.005;
    } else {
      assert n as real * e <= n as real * 0.005;
    }
  }

  /**
   * Every entry rounded to the cent, in index order; it fails at the first
   * entry that does not fit the context.
   */
  function RoundAll(s: seq<real>): (r: Result<seq<real>>)
    ensures r.Success? <==> forall i :: 0 <= i < |s| ==> Fits(s[i])
    ensures r.Success? ==> |r.value| == |s| && forall i :: 0 <= i < |s| ==> r.value[i] == Round2(s[i])
    ensures r.Failure? ==> r.fault == PrecisionOverflow
  {
    if |s| == 0 then Success([])
    else
      var init :- RoundAll(s[..|s| - 1]);
      var last :- Round(s[|s| - 1]);
      Success(init + [last])
  }

  /** Rounding entries that are already whole cents within the context changes nothing. */
  lemma {:induction false} RoundAllOfCents(s: seq<real>)
    requires forall i :: 0 <= i < |s| ==> IsCents(s[i]) && -Limit < s[i] < Limit
    ensures RoundAll(s) == Success(s)
  {
    if |s| > 0 {
      var n := |s| - 1;
      RoundAllOfCents(s[..n]);
      Round2OfCents(s[n]);
      assert s[..n] + [s[n]] == s;
    }
  }

  /** A table that is zero except for `v` at index `k` adds up to `v`. */
  lemma SingleEntryTotal(s: seq<real>, k: nat, v: real)
    requires k < |s|
    requires forall i :: 0 <= i < |s| ==> s[i] == if i == k then v else 0.0
    ensures Sum(s) == v
  {
    var before, after := s[..k], s[k + 1..];
    assert s == before + [v] + after;
    SumAppend(before + [v], after);
    SumAppend(before, [v]);
    SumOfZeros(before);
    SumOfZeros(after);
    SumCons(v, []);
  }
}
