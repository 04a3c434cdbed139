/** Do-notation for `Result`: a generator expression
    `do(final for x1 in s1 for x2 in s2(x1) ...)` evaluated as a left-to-right
    chain of `and_then` calls that stops at the first `Err`.

    `Ok(v)` iterates once, binding `v`; iterating an `Err` raises a private
    exception that `do` catches and turns back into that `Err`, so no later
    line is evaluated. Here that is a fold over the lines of the block. */
module DoNotation {
  import opened Res

  /** One line `for x in <expr>` of a do-block: a result computed from the
      values bound by the lines above it. */
  type Step<!T, E> = seq<T> -> Result<T, E>

  /** `vals` are what the first `|vals|` steps bound, each step run on the
      values bound before it (after the values already in `bound`). */
  ghost predicate OkPrefix<T, E>(steps: seq<Step<T, E>>, bound: seq<T>, vals: seq<T>) {
    && |vals| <= |steps|
    && forall i :: 0 <= i < |vals| ==> steps[i](bound + vals[..i]) == Ok(vals[i])
  }

  /** The rest of a do-block, given the values `bound` so far. */
  function DoFrom<T, U, E>(steps: seq<Step<T, E>>, final: seq<T> -> Result<U, E>, bound: seq<T>): Result<U, E>
    decreases |steps|
  {
    if |steps| == 0 then final(bound)
    else
      match steps[0](bound)
      case Err(e) => Err(e)
      case Ok(v) => DoFrom(steps[1..], final, bound + [v])
  }

  /** `do(...)`: the whole block, with nothing bound yet. */
  function Do<T, U, E>(steps: seq<Step<T, E>>, final: seq<T> -> Result<U, E>): Result<U, E> {
    DoFrom(steps, final, [])
  }

  lemma OkPrefixTail<T, E>(steps: seq<Step<T, E>>, bound: seq<T>, vals: seq<T>)
    requires OkPrefix(steps, bound, vals) && |vals| > 0
    ensures steps[0](bound) == Ok(vals[0])
    ensures OkPrefix(steps[1..], bound + [vals[0]], vals[1..])
  {
    assert steps[0](bound + vals[..0]) == Ok(vals[0]);
    assert bound + vals[..0] == bound;
    forall i | 0 <= i < |vals| - 1
      ensures steps[1..][i](bound + [vals[0]] + vals[1..][..i]) == Ok(vals[1..][i])
    {
      assert bound + [vals[0]] + vals[1..][..i] == bound + vals[..i + 1];
      assert steps[i + 1](bound + vals[..i + 1]) == Ok(vals[i + 1]);
    }
  }

  lemma {:induction false} DoFromAllOk<T, U, E>(steps: seq<Step<T, E>>, final: seq<T> -> Result<U, E>, bound: seq<T>, vals: seq<T>)
    requires OkPrefix(steps, bound, vals) && |vals| == |steps|
    ensures DoFrom(steps, final, bound) == final(bound + vals)
    decreases |steps|
  {
    if |steps| == 0 {
      assert bound + vals == bound;
    } else {
      OkPrefixTail(steps, bound, vals);
      DoFromAllOk(steps[1..], final, bound + [vals[0]], vals[1..]);
      assert bound + [vals[0]] + vals[1..] == bound + vals;
    }
  }

  lemma {:induction false} DoFromFirstErr<T, U, E>(steps: seq<Step<T, E>>, final: seq<T> -> Result<U, E>, bound: seq<T>, vals: seq<T>)
    requires OkPrefix(steps, bound, vals) && |vals| < |steps|
    requires steps[|vals|](bound + vals).Err?
    ensures DoFrom(steps, final, bound) == Err(steps[|vals|](bound + vals).error)
    decreases |steps|
  {
    if |vals| == 0 {
      assert bound + vals == bound;
    } else {
      OkPrefixTail(steps, bound, vals);
      assert bound + [vals[0]] + vals[1..] == bound + vals;
      DoFromFirstErr(steps[1..], final, bound + [vals[0]], vals[1..]);
    }
  }

  /** When every line succeeds, the block is its final expression applied to
      the bound values. */
  lemma DoReturnsFinal<T, U, E>(steps: seq<Step<T, E>>, final: seq<T> -> Result<U, E>, vals: seq<T>)
    requires OkPrefix(steps, [], vals) && |vals| == |steps|
    ensures Do(steps, final) == final(vals)
  {
    DoFromAllOk(steps, final, [], vals);
    assert [] + vals == vals;
  }

  /** The first line that yields `Err(e)` makes the whole block `Err(e)`. */
  lemma DoStopsAtFirstErr<T, U, E>(steps: seq<Step<T, E>>, final: seq<T> -> Result<U, E>, vals: seq<T>)
    requires OkPrefix(steps, [], vals) && |vals| < |steps|
    requires steps[|vals|](vals).Err?
    ensures Do(steps, final) == Err(steps[|vals|](vals).error)
  {
    assert [] + vals == vals;
    DoFromFirstErr(steps, final, [], vals);
  }

  /** Short-circuit: once a line fails, neither the later lines nor the final
      expression affect the result, so they need never be evaluated. */
  lemma DoIgnoresLaterSteps<T, U, E>(steps: seq<Step<T, E>>, final: seq<T> -> Result<U, E>,
                                    steps': seq<Step<T, E>>, final': seq<T> -> Result<U, E>, vals: seq<T>)
    requires OkPrefix(steps, [], vals) && |vals| < |steps|
    requires steps[|vals|](vals).Err?
    requires |vals| < |steps'| && steps'[..|vals| + 1] == steps[..|vals| + 1]
    ensures Do(steps', final') == Do(steps, final)
  {
    forall i | 0 <= i <= |vals|
      ensures steps'[i] == steps[i]
    {
      assert steps'[i] == steps'[..|vals| + 1][i];
    }
    assert OkPrefix(steps', [], vals);
    DoStopsAtFirstErr(steps, final, vals);
    DoStopsAtFirstErr(steps', final', vals);
  }

  /** A do-block is a nested `and_then` chain: the first line, then the rest
      of the block with its value bound. */
  lemma DoIsAndThenChain<T, U, E>(steps: seq<Step<T, E>>, final: seq<T> -> Result<U, E>, bound: seq<T>)
    requires |steps| > 0
    ensures DoFrom(steps, final, bound) == steps[0](bound).AndThen(v => DoFrom(steps[1..], final, bound + [v]))
  {
  }

  /** The two-line block of the `do` documentation,
      `do(f(x, y) for x in s1 for y in s2(x))`, is
      `s1.and_then(lambda x: s2(x).and_then(lambda y: f(x, y)))`. */
  lemma {:induction false} DoTwoLines<T, U, E>(s1: Step<T, E>, s2: Step<T, E>, final: seq<T> -> Result<U, E>)
    ensures Do([s1, s2], final) == s1([]).AndThen(x => s2([x]).AndThen(y => final([x, y])))
  {
    var steps := [s1, s2];
    assert steps[1..] == [s2];
    match s1([])
    case Err(_) =>
    case Ok(x) =>
      assert [] + [x] == [x];
      assert DoFrom(steps, final, []) == DoFrom([s2], final, [x]);
      match s2([x])
      case Err(_) =>
      case Ok(y) =>
        assert [x] + [y] == [x, y];
        assert [s2][1..] == [];
  }

  /** The driver of `do` as a loop: evaluates the lines left to right,
      returning at the first `Err`; `vals` are the values bound on the way. */
  method RunDo<T, U, E>(steps: seq<Step<T, E>>, final: seq<T> -> Result<U, E>) returns (r: Result<U, E>, vals: seq<T>)
    ensures OkPrefix(steps, [], vals)
    ensures |vals| == |steps| ==> r == final(vals)
    ensures |vals| < |steps| ==> steps[|vals|](vals).Err? && r == Err(steps[|vals|](vals).error)
    ensures r == Do(steps, final)
  {
    vals := [];
    while |vals| < |steps|
      invariant OkPrefix(steps, [], vals)
      invariant DoFrom(steps[|vals|..], final, vals) == Do(steps, final)
      decreases |steps| - |vals|
    {
      var k := |vals|;
      var out := steps[k](vals);
      assert steps[k..][0] == steps[k] && steps[k..][1..] == steps[k + 1..];
      match out
      case Err(e) =>
        r := Err(e);
        return;
      case Ok(v) =>
        var next := vals + [v];
        forall i | 0 <= i < |next|
          ensures steps[i]([] + next[..i]) == Ok(next[i])
        {
          if i < k {
            assert next[..i] == vals[..i];
          } else {
            assert [] + next[..i] == vals;
          }
        }
        vals := next;
    }
    r := final(vals);
  }
}
