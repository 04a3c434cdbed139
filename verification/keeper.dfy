/** `IntKeeper`: a pool of integer ids. It hands out the smallest value of
    its range not yet given, and takes values back with `free`.

    The keeper is a value: each operation returns its result together with
    the keeper as it is afterwards. */
module Keeper {
  import opened Res

  /** `Range(lo, hi)`, iterated as Python's `range(lo, hi)`: the half-open
      interval [lo, hi), empty when `hi <= lo`. */
  datatype Range = Range(lo: int, hi: int) {
    predicate Contains(x: int) {
      lo <= x < hi
    }
  }

  const DefaultRange: Range := Range(0, 1_000_000)

  /** The errors `recv` and `free` return: `ValErr("no available values")`
      and `NotFoundErr("val <v>")`. */
  datatype KeeperErr = NoAvailableValues | NotFound(val: int)

  datatype IntKeeper = IntKeeper(range: Range, given: set<int>)

  /** Only values of the range are ever given out. */
  ghost predicate Valid(k: IntKeeper) {
    forall x :: x in k.given ==> k.range.Contains(x)
  }

  /** What an operation returns, and the keeper after it. */
  datatype Reply<X> = Reply(res: Result<X, KeeperErr>, keeper: IntKeeper)

  /** `IntKeeper(range_)`: nothing given yet. */
  function New(range: Range := DefaultRange): (k: IntKeeper)
    ensures k.range == range && k.given == {}
    ensures Valid(k)
  {
    IntKeeper(range, {})
  }

  /** The first value of `[from, hi)` not in `given`, scanning upwards. */
  function FirstFree(given: set<int>, from: int, hi: int): (r: Option<int>)
    ensures r.Some? ==> from <= r.value < hi && r.value !in given
    ensures r.Some? ==> forall y :: from <= y < r.value ==> y in given
    ensures r.None? ==> forall y :: from <= y < hi ==> y in given
    decreases hi - from
  {
    if hi <= from then None
    else if from !in given then Some(from)
    else FirstFree(given, from + 1, hi)
  }

  /** `recv()`: the smallest value of the range not yet given, now marked as
      given; `Err` with the keeper unchanged when every value is given. */
  function Recv(k: IntKeeper): (r: Reply<int>)
    ensures r.keeper.range == k.range
    ensures r.res.Ok? ==> k.range.Contains(r.res.value) && r.res.value !in k.given
    ensures r.res.Ok? ==> forall y :: k.range.lo <= y < r.res.value ==> y in k.given
    ensures r.res.Ok? ==> r.keeper.given == k.given + {r.res.value}
    ensures r.res.Err? <==> forall y :: k.range.Contains(y) ==> y in k.given
    ensures r.res.Err? ==> r.res.error == NoAvailableValues && r.keeper == k
    ensures Valid(k) ==> Valid(r.keeper)
  {
    match FirstFree(k.given, k.range.lo, k.range.hi)
    case Some(x) => Reply(Ok(x), k.(given := k.given + {x}))
    case None => Reply(Err(NoAvailableValues), k)
  }

  /** `free(val)`: returns a given value to the pool; `Err` with the keeper
      unchanged when the value is not given. */
  function Free(k: IntKeeper, v: int): (r: Reply<()>)
    ensures r.keeper.range == k.range
    ensures r.res.Ok? <==> v in k.given
    ensures r.res.Err? ==> r.res.error == NotFound(v) && r.keeper == k
    ensures r.res.Ok? ==> v !in r.keeper.given && r.keeper.given + {v} == k.given
    ensures Valid(k) ==> Valid(r.keeper)
  {
    if v !in k.given then Reply(Err(NotFound(v)), k)
    else Reply(Ok(()), k.(given := k.given - {v}))
  }

  /** `free(x)` right after `x = recv()` restores the keeper. */
  lemma RecvFreeRoundTrip(k: IntKeeper)
    requires Recv(k).res.Ok?
    ensures Free(Recv(k).keeper, Recv(k).res.value) == Reply(Ok(()), k)
  {
  }

  /** `n` successive `recv()` calls, stopping at the first `Err`: the values
      received and the keeper afterwards. */
  function RecvSeq(k: IntKeeper, n: nat): (IntKeeper, seq<int>)
    decreases n
  {
    if n == 0 then (k, [])
    else
      var r := Recv(k);
      match r.res
      case Err(_) => (k, [])
      case Ok(x) =>
        var (k', xs) := RecvSeq(r.keeper, n - 1);
        (k', [x] + xs)
  }

  /** While nothing is freed, the values handed out are pairwise distinct,
      were not given before, lie in the range, and are exactly what the
      keeper has added to its given set. */
  lemma {:induction false} RecvSeqDistinct(k: IntKeeper, n: nat)
    ensures var (k', xs) := RecvSeq(k, n);
      && k'.range == k.range
      && (forall i, j :: 0 <= i < j < |xs| ==> xs[i] != xs[j])
      && (forall i :: 0 <= i < |xs| ==> xs[i] !in k.given && k.range.Contains(xs[i]))
      && k'.given == k.given + set y | y in xs
    decreases n
  {
    if n > 0 && Recv(k).res.Ok? {
      var r := Recv(k);
      var x := r.res.value;
      RecvSeqDistinct(r.keeper, n - 1);
      var (k', xs) := RecvSeq(r.keeper, n - 1);
      var ys := [x] + xs;
      assert RecvSeq(k, n) == (k', ys);
      forall i, j | 0 <= i < j < |ys|
        ensures ys[i] != ys[j]
      {
        if i == 0 {
          assert ys[j] == xs[j - 1];
        } else {
          assert ys[i] == xs[i - 1] && ys[j] == xs[j - 1];
        }
      }
      forall i | 0 <= i < |ys|
        ensures ys[i] !in k.given && k.range.Contains(ys[i])
      {
        if i > 0 {
          assert ys[i] == xs[i - 1];
        }
      }
      calc {
        k'.given;
        r.keeper.given + set y | y in xs;
        k.given + {x} + set y | y in xs;
        k.given + set y | y in ys;
      }
    }
  }

  /** `given` is exactly the integers `a, a + 1, ..., b - 1`. */
  ghost predicate IsSpan(given: set<int>, a: int, b: int) {
    forall y :: y in given <==> a <= y < b
  }

  /** How many of `n` requests a keeper with `avail` free values serves. */
  function Served(n: nat, avail: int): nat {
    if avail <= 0 then 0 else if n <= avail then n else avail
  }

  /** When the first `m` values of the range are given, `n` requests receive
      the consecutive ids that follow, as many as the range still holds. */
  lemma {:induction false} RecvSeqConsecutive(k: IntKeeper, n: nat, m: nat)
    requires IsSpan(k.given, k.range.lo, k.range.lo + m)
    ensures RecvSeq(k, n).1 == seq(Served(n, k.range.hi - (k.range.lo + m)), i => k.range.lo + m + i)
    decreases n
  {
    var lo, hi := k.range.lo, k.range.hi;
    var c := Served(n, hi - (lo + m));
    if n == 0 {
    } else if lo + m < hi {
      var r := Recv(k);
      assert k.range.Contains(lo + m) && lo + m !in k.given;
      var x := r.res.value;
      assert x == lo + m by {
        if x > lo + m {
          assert false;
        }
      }
      assert IsSpan(r.keeper.given, lo, lo + m + 1);
      RecvSeqConsecutive(r.keeper, n - 1, m + 1);
      var rest := RecvSeq(r.keeper, n - 1).1;
      assert rest == seq(c - 1, i => lo + m + 1 + i);
      assert RecvSeq(k, n).1 == [x] + rest;
      assert [x] + rest == seq(c, i => lo + m + i);
    } else {
      assert forall y :: k.range.Contains(y) ==> y in k.given;
      assert Recv(k).res.Err?;
      assert c == 0;
    }
  }

  /** A fresh keeper hands out `lo, lo + 1, ...` in order: consecutive ids. */
  lemma FreshKeeperHandsOutConsecutiveIds(range: Range, n: nat)
    ensures RecvSeq(New(range), n).1 == seq(Served(n, range.hi - range.lo), i => range.lo + i)
  {
    RecvSeqConsecutive(New(range), n, 0);
  }
}
