/** The unification engine of src/infer.rs.

    A type variable (`InferTyRef`) is a shared mutable cell. Here every cell
    lives in an arena and a handle is its index, so "two handles point at the
    same cell" is equality of indices and a write through one handle is seen
    through every other. The engine is generic in its payload `T`; the only
    thing it asks of a payload is the check `check(x, y)` that stands for
    `T::unify(&x, &y).is_ok()`. */
module Infer {

  /** One cell's contents (`InferTy`). */
  datatype Cell<T> = Any | Equal(target: nat) | Known(ty: T, args: seq<nat>)

  /** What an engine call ends in: `Ok`, `Err(())`, or a panic. */
  datatype Outcome<R> = Ok(value: R) | Err | Abort

  /** Forgets the value of an outcome, keeping how it ended. */
  function Status<R>(o: Outcome<R>): Outcome<()>
  {
    match o
    case Ok(_) => Ok(())
    case Err => Err
    case Abort => Abort
  }

  /** Every handle that `c` holds is below `n`. */
  predicate Closed<T>(c: Cell<T>, n: nat)
  {
    match c
    case Any => true
    case Equal(t) => t < n
    case Known(_, args) => forall k | 0 <= k < |args| :: args[k] < n
  }

  /** Every handle held by a cell of `cs` points into `cs`. */
  predicate Wf<T>(cs: seq<Cell<T>>)
  {
    forall i | 0 <= i < |cs| :: Closed(cs[i], |cs|)
  }

  /** `c` holds the handle `h`. */
  predicate Refers<T>(c: Cell<T>, h: nat)
  {
    match c
    case Any => false
    case Equal(t) => t == h
    case Known(_, args) => h in args
  }

  /** No cell of `cs` holds the handle `h`. */
  predicate Unreferenced<T>(cs: seq<Cell<T>>, h: nat)
  {
    forall i | 0 <= i < |cs| :: !Refers(cs[i], h)
  }

  /** How an engine call on a whole arena ends: its outcome, and the cells
      as they are afterwards (after a panic, as far as they were written). */
  datatype Run<R, T> = Run(out: Outcome<R>, cells: seq<Cell<T>>)

  /** The free function `unify` on the arena `cs`, with the payload check
      `check` standing for `T::unify(..).is_ok()`. It never ends in `Err`:
      every base case either succeeds or panics, and `Err` is only
      propagated. On success both cells hold the result. `fuel` bounds the
      recursion depth, which the source does not guard; running out of it
      stands for the stack overflow and ends in `Abort`. */
  function UnifyResult<T>(check: (T, T) -> bool, cs: seq<Cell<T>>, a: nat, b: nat, fuel: nat): (s: Run<Cell<T>, T>)
    requires Wf(cs) && a < |cs| && b < |cs|
    ensures Wf(s.cells) && |cs| <= |s.cells|
    ensures s.out != Err
    ensures s.out.Ok? ==> s.cells[a] == s.out.value && s.cells[b] == s.out.value
    decreases fuel, 2
  {
    if a == b then Run(Ok(cs[a]), cs)
    else
      var u := UnifiedResult(check, cs, a, b, fuel);
      if u.out.Ok? then Run(u.out, u.cells[a := u.out.value][b := u.out.value]) else u
  }

  /** The contents `unify` computes for two distinct cells (infer.rs:46-80),
      before it writes them into both. */
  function UnifiedResult<T>(check: (T, T) -> bool, cs: seq<Cell<T>>, a: nat, b: nat, fuel: nat): (s: Run<Cell<T>, T>)
    requires Wf(cs) && a < |cs| && b < |cs| && a != b
    ensures Wf(s.cells) && |cs| <= |s.cells|
    ensures s.out != Err
    ensures s.out.Ok? ==> Closed(s.out.value, |s.cells|)
    decreases fuel, 1
  {
    if fuel == 0 then Run(Abort, cs)
    else if cs[a].Equal? then UnifyResult(check, cs, cs[a].target, b, fuel - 1)
    else if cs[b].Equal? then UnifyResult(check, cs, a, cs[b].target, fuel - 1)
    else if cs[a].Any? && cs[b].Any? then Run(Ok(Equal(|cs|)), cs + [Any])
    else if cs[a].Any? then Run(Ok(cs[b]), cs)
    else if cs[b].Any? then Run(Ok(cs[a]), cs)
    else if !check(cs[a].ty, cs[b].ty) || |cs[a].args| != |cs[b].args| then Run(Abort, cs)
    else
      var g := UnifyArgsResult(check, cs, cs[a].args, cs[b].args, fuel);
      if g.out.Ok? then Run(Ok(Known(cs[a].ty, g.out.value)), g.cells)
      else Run(if g.out.Err? then Err else Abort, g.cells)
  }

  /** The loop over the zipped args of two known cells (infer.rs:72-75):
      each pair is unified in order and its result put in a fresh cell; the
      first failing pair ends the loop. */
  function UnifyArgsResult<T>(check: (T, T) -> bool, cs: seq<Cell<T>>, xs: seq<nat>, ys: seq<nat>, fuel: nat): (s: Run<seq<nat>, T>)
    requires Wf(cs) && 0 < fuel && |xs| == |ys|
    requires forall k | 0 <= k < |xs| :: xs[k] < |cs| && ys[k] < |cs|
    ensures Wf(s.cells) && |cs| <= |s.cells|
    ensures s.out != Err
    ensures s.out.Ok? ==> |s.out.value| == |xs| && forall k | 0 <= k < |xs| :: |cs| <= s.out.value[k] < |s.cells|
    decreases fuel, 0, |xs|
  {
    if |xs| == 0 then Run(Ok([]), cs)
    else
      var sub := UnifyResult(check, cs, xs[0], ys[0], fuel - 1);
      if !sub.out.Ok? then Run(if sub.out.Err? then Err else Abort, sub.cells)
      else
        var rest := UnifyArgsResult(check, sub.cells + [sub.out.value], xs[1..], ys[1..], fuel);
        if rest.out.Ok? then Run(Ok([|sub.cells|] + rest.out.value), rest.cells) else rest
  }

  /** Fuel only cuts the recursion short: a result other than `Abort` at
      fuel `f` is the result, arena included, at every larger fuel, so it is
      what the unbounded `unify` returns. */
  lemma {:induction false} UnifyFuelMonotone<T>(check: (T, T) -> bool, cs: seq<Cell<T>>, a: nat, b: nat, f: nat, g: nat)
    requires Wf(cs) && a < |cs| && b < |cs| && f <= g
    requires UnifyResult(check, cs, a, b, f).out != Abort
    ensures UnifyResult(check, cs, a, b, g) == UnifyResult(check, cs, a, b, f)
    decreases f, 2
  {
    if a != b {
      UnifiedFuelMonotone(check, cs, a, b, f, g);
    }
  }

  lemma {:induction false} UnifiedFuelMonotone<T>(check: (T, T) -> bool, cs: seq<Cell<T>>, a: nat, b: nat, f: nat, g: nat)
    requires Wf(cs) && a < |cs| && b < |cs| && a != b && f <= g
    requires UnifiedResult(check, cs, a, b, f).out != Abort
    ensures UnifiedResult(check, cs, a, b, g) == UnifiedResult(check, cs, a, b, f)
    decreases f, 1
  {
    if cs[a].Equal? {
      UnifyFuelMonotone(check, cs, cs[a].target, b, f - 1, g - 1);
    } else if cs[b].Equal? {
      UnifyFuelMonotone(check, cs, a, cs[b].target, f - 1, g - 1);
    } else if cs[a].Known? && cs[b].Known? && check(cs[a].ty, cs[b].ty) && |cs[a].args| == |cs[b].args| {
      ArgsFuelMonotone(check, cs, cs[a].args, cs[b].args, f, g);
    }
  }

  lemma {:induction false} ArgsFuelMonotone<T>(check: (T, T) -> bool, cs: seq<Cell<T>>, xs: seq<nat>, ys: seq<nat>, f: nat, g: nat)
    requires Wf(cs) && 0 < f <= g && |xs| == |ys|
    requires forall k | 0 <= k < |xs| :: xs[k] < |cs| && ys[k] < |cs|
    requires UnifyArgsResult(check, cs, xs, ys, f).out != Abort
    ensures UnifyArgsResult(check, cs, xs, ys, g) == UnifyArgsResult(check, cs, xs, ys, f)
    decreases f, 0, |xs|
  {
    if |xs| != 0 {
      var sub := UnifyResult(check, cs, xs[0], ys[0], f - 1);
      assert sub.out.Ok?;
      UnifyFuelMonotone(check, cs, xs[0], ys[0], f - 1, g - 1);
      ArgsFuelMonotone(check, sub.cells + [sub.out.value], xs[1..], ys[1..], f, g);
    }
  }

  /** The handles `hs` put in front of a successful loop's result. */
  function Prepend<T>(hs: seq<nat>, s: Run<seq<nat>, T>): Run<seq<nat>, T>
  {
    if s.out.Ok? then Run(Ok(hs + s.out.value), s.cells) else s
  }

  lemma PrependNothing<T>(s: Run<seq<nat>, T>)
    ensures Prepend([], s) == s
  {
    if s.out.Ok? {
      assert [] + s.out.value == s.out.value;
    }
  }

  lemma PrependTwice<T>(hs: seq<nat>, gs: seq<nat>, s: Run<seq<nat>, T>)
    ensures Prepend(hs, Prepend(gs, s)) == Prepend(hs + gs, s)
  {
    if s.out.Ok? {
      assert hs + (gs + s.out.value) == (hs + gs) + s.out.value;
    }
  }

  /** The args loop with no pairs left. */
  lemma ArgsDone<T>(check: (T, T) -> bool, cs: seq<Cell<T>>, xs: seq<nat>, ys: seq<nat>, fuel: nat, hs: seq<nat>)
    requires Wf(cs) && 0 < fuel && |xs| == |ys| == 0
    ensures Prepend(hs, UnifyArgsResult(check, cs, xs, ys, fuel)) == Run(Ok(hs), cs)
  {
    assert hs + [] == hs;
  }

  /** One turn of the args loop, on the arena `cs` the earlier pairs left:
      pair `i` gave `sub`. */
  lemma ArgsLoopStep<T>(check: (T, T) -> bool, cs: seq<Cell<T>>, xs: seq<nat>, ys: seq<nat>, fuel: nat, i: nat,
                        hs: seq<nat>, sub: Run<Cell<T>, T>)
    requires Wf(cs) && 0 < fuel && |xs| == |ys| && i < |xs|
    requires forall k | 0 <= k < |xs| :: xs[k] < |cs| && ys[k] < |cs|
    requires sub == UnifyResult(check, cs, xs[i], ys[i], fuel - 1)
    ensures !sub.out.Ok? ==>
      Prepend(hs, UnifyArgsResult(check, cs, xs[i..], ys[i..], fuel)) == Run(if sub.out.Err? then Err else Abort, sub.cells)
    ensures sub.out.Ok? ==>
      Prepend(hs, UnifyArgsResult(check, cs, xs[i..], ys[i..], fuel))
        == Prepend(hs + [|sub.cells|], UnifyArgsResult(check, sub.cells + [sub.out.value], xs[i + 1..], ys[i + 1..], fuel))
  {
    assert xs[i..][0] == xs[i] && ys[i..][0] == ys[i];
    assert xs[i..][1..] == xs[i + 1..] && ys[i..][1..] == ys[i + 1..];
    ArgsUnfold(check, cs, xs[i..], ys[i..], fuel);
    if sub.out.Ok? {
      PrependTwice(hs, [|sub.cells|], UnifyArgsResult(check, sub.cells + [sub.out.value], xs[i + 1..], ys[i + 1..], fuel));
    }
  }

  /** A cell appended to a closed arena is held by no cell. */
  lemma FreshUnreferenced<T>(cs: seq<Cell<T>>, c: Cell<T>)
    requires Wf(cs) && Closed(c, |cs|)
    ensures Unreferenced(cs + [c], |cs|)
  {
    forall i | 0 <= i < |cs + [c]|
      ensures !Refers((cs + [c])[i], |cs|)
    {
      var d := (cs + [c])[i];
      assert Closed(d, |cs|);
      if d.Known? && |cs| in d.args {
        var k :| 0 <= k < |d.args| && d.args[k] == |cs|;
      }
    }
  }

  /** A unification touches no cell that no other cell holds, except the
      two it is given, and does not start holding it either: cells are only
      reached through the handles the call is given. */
  lemma {:induction false} UnifyFrame<T>(check: (T, T) -> bool, cs: seq<Cell<T>>, a: nat, b: nat, fuel: nat, h: nat)
    requires Wf(cs) && a < |cs| && b < |cs| && h < |cs| && h != a && h != b && Unreferenced(cs, h)
    ensures var s := UnifyResult(check, cs, a, b, fuel);
            s.cells[h] == cs[h] && Unreferenced(s.cells, h)
    decreases fuel, 2
  {
    if a != b {
      UnifiedFrame(check, cs, a, b, fuel, h);
    }
  }

  lemma {:induction false} UnifiedFrame<T>(check: (T, T) -> bool, cs: seq<Cell<T>>, a: nat, b: nat, fuel: nat, h: nat)
    requires Wf(cs) && a < |cs| && b < |cs| && a != b && h < |cs| && h != a && h != b && Unreferenced(cs, h)
    ensures var s := UnifiedResult(check, cs, a, b, fuel);
            && s.cells[h] == cs[h] && Unreferenced(s.cells, h)
            && (s.out.Ok? ==> !Refers(s.out.value, h))
    decreases fuel, 1
  {
    if fuel == 0 {
    } else if cs[a].Equal? {
      assert !Refers(cs[a], h);
      var t := cs[a].target;
      UnifyFrame(check, cs, t, b, fuel - 1, h);
      var s := UnifyResult(check, cs, t, b, fuel - 1);
      if s.out.Ok? {
        assert !Refers(s.cells[t], h);
      }
    } else if cs[b].Equal? {
      assert !Refers(cs[b], h);
      var t := cs[b].target;
      UnifyFrame(check, cs, a, t, fuel - 1, h);
      var s := UnifyResult(check, cs, a, t, fuel - 1);
      if s.out.Ok? {
        assert !Refers(s.cells[t], h);
      }
    } else if cs[a].Any? && cs[b].Any? {
    } else if cs[a].Any? {
      assert !Refers(cs[b], h);
    } else if cs[b].Any? {
      assert !Refers(cs[a], h);
    } else if !check(cs[a].ty, cs[b].ty) || |cs[a].args| != |cs[b].args| {
    } else {
      assert !Refers(cs[a], h) && !Refers(cs[b], h);
      ArgsFrame(check, cs, cs[a].args, cs[b].args, fuel, h);
    }
  }

  lemma {:induction false} ArgsFrame<T>(check: (T, T) -> bool, cs: seq<Cell<T>>, xs: seq<nat>, ys: seq<nat>, fuel: nat, h: nat)
    requires Wf(cs) && 0 < fuel && |xs| == |ys|
    requires forall k | 0 <= k < |xs| :: xs[k] < |cs| && ys[k] < |cs|
    requires h < |cs| && h !in xs && h !in ys && Unreferenced(cs, h)
    ensures var s := UnifyArgsResult(check, cs, xs, ys, fuel);
            s.cells[h] == cs[h] && Unreferenced(s.cells, h)
    decreases fuel, 0, |xs|
  {
    if |xs| != 0 {
      UnifyFrame(check, cs, xs[0], ys[0], fuel - 1, h);
      var sub := UnifyResult(check, cs, xs[0], ys[0], fuel - 1);
      if sub.out.Ok? {
        assert !Refers(sub.cells[xs[0]], h);
        var next := sub.cells + [sub.out.value];
        assert Unreferenced(next, h);
        assert h !in xs[1..] && h !in ys[1..];
        ArgsFrame(check, next, xs[1..], ys[1..], fuel, h);
      }
    }
  }

  /** The args loop on a non-empty list: the first pair, a fresh cell for
      its result, then the loop on the remaining pairs. */
  lemma ArgsUnfold<T>(check: (T, T) -> bool, cs: seq<Cell<T>>, xs: seq<nat>, ys: seq<nat>, fuel: nat)
    requires Wf(cs) && 0 < fuel && 0 < |xs| == |ys|
    requires forall k | 0 <= k < |xs| :: xs[k] < |cs| && ys[k] < |cs|
    ensures var sub := UnifyResult(check, cs, xs[0], ys[0], fuel - 1);
            && (!sub.out.Ok? ==> UnifyArgsResult(check, cs, xs, ys, fuel) == Run(if sub.out.Err? then Err else Abort, sub.cells))
            && (sub.out.Ok? ==>
                  UnifyArgsResult(check, cs, xs, ys, fuel)
                    == Prepend([|sub.cells|], UnifyArgsResult(check, sub.cells + [sub.out.value], xs[1..], ys[1..], fuel)))
  {
  }

  /** Each fresh child cell the args loop makes holds what unifying its pair
      gave, in the arena as the pairs before it left it (infer.rs:74). */
  lemma {:induction false} ArgsChildren<T>(check: (T, T) -> bool, cs: seq<Cell<T>>, xs: seq<nat>, ys: seq<nat>, fuel: nat)
    requires Wf(cs) && 0 < fuel && |xs| == |ys|
    requires forall k | 0 <= k < |xs| :: xs[k] < |cs| && ys[k] < |cs|
    ensures var s := UnifyArgsResult(check, cs, xs, ys, fuel);
      s.out.Ok? ==> forall k | 0 <= k < |xs| ::
        var before := UnifyArgsResult(check, cs, xs[..k], ys[..k], fuel);
        && before.out == Ok(s.out.value[..k])
        && UnifyResult(check, before.cells, xs[k], ys[k], fuel - 1).out == Ok(s.cells[s.out.value[k]])
    decreases |xs|
  {
    var s := UnifyArgsResult(check, cs, xs, ys, fuel);
    if |xs| != 0 && s.out.Ok? {
      ArgsUnfold(check, cs, xs, ys, fuel);
      var sub := UnifyResult(check, cs, xs[0], ys[0], fuel - 1);
      var next := sub.cells + [sub.out.value];
      var rest := UnifyArgsResult(check, next, xs[1..], ys[1..], fuel);
      ArgsChildren(check, next, xs[1..], ys[1..], fuel);
      FreshUnreferenced(sub.cells, sub.out.value);
      ArgsFrame(check, next, xs[1..], ys[1..], fuel, |sub.cells|);
      forall k | 0 <= k < |xs|
        ensures var before := UnifyArgsResult(check, cs, xs[..k], ys[..k], fuel);
          && before.out == Ok(s.out.value[..k])
          && UnifyResult(check, before.cells, xs[k], ys[k], fuel - 1).out == Ok(s.cells[s.out.value[k]])
      {
        if k == 0 {
          assert xs[..0] == [] && ys[..0] == [];
        } else {
          ArgsChildLater(check, cs, xs, ys, fuel, k);
        }
      }
    }
  }

  /** The step of `ArgsChildren` for a pair after the first. */
  lemma ArgsChildLater<T>(check: (T, T) -> bool, cs: seq<Cell<T>>, xs: seq<nat>, ys: seq<nat>, fuel: nat, k: nat)
    requires Wf(cs) && 0 < fuel && |xs| == |ys| && 0 < k < |xs|
    requires forall j | 0 <= j < |xs| :: xs[j] < |cs| && ys[j] < |cs|
    requires UnifyArgsResult(check, cs, xs, ys, fuel).out.Ok?
    requires var sub := UnifyResult(check, cs, xs[0], ys[0], fuel - 1);
             && sub.out.Ok?
             && var next := sub.cells + [sub.out.value];
                var rest := UnifyArgsResult(check, next, xs[1..], ys[1..], fuel);
                && UnifyArgsResult(check, cs, xs, ys, fuel) == Prepend([|sub.cells|], rest)
                && rest.out.Ok?
                && var before := UnifyArgsResult(check, next, xs[1..][..k - 1], ys[1..][..k - 1], fuel);
                   && before.out == Ok(rest.out.value[..k - 1])
                   && UnifyResult(check, before.cells, xs[1..][k - 1], ys[1..][k - 1], fuel - 1).out
                        == Ok(rest.cells[rest.out.value[k - 1]])
    ensures var s := UnifyArgsResult(check, cs, xs, ys, fuel);
            var before := UnifyArgsResult(check, cs, xs[..k], ys[..k], fuel);
            && before.out == Ok(s.out.value[..k])
            && UnifyResult(check, before.cells, xs[k], ys[k], fuel - 1).out == Ok(s.cells[s.out.value[k]])
  {
    var sub := UnifyResult(check, cs, xs[0], ys[0], fuel - 1);
    var next := sub.cells + [sub.out.value];
    var xk, yk := xs[..k], ys[..k];
    assert xk[0] == xs[0] && yk[0] == ys[0];
    assert xk[1..] == xs[1..][..k - 1] && yk[1..] == ys[1..][..k - 1];
    ArgsUnfold(check, cs, xk, yk, fuel);
    var rest := UnifyArgsResult(check, next, xs[1..], ys[1..], fuel);
    assert [|sub.cells|] + rest.out.value[..k - 1] == ([|sub.cells|] + rest.out.value)[..k];
  }

  /** Unifying an alias with the cell it points at when that cell is `Any`
      gives `Any` and writes `Any` into both: the alias is not kept. */
  lemma UnifyWithOwnTarget<T>(check: (T, T) -> bool)
    ensures UnifyResult(check, [Equal(1), Any], 0, 1, 1) == Run(Ok(Any), [Any, Any])
  {
    assert UnifiedResult(check, [Equal(1), Any], 0, 1, 1) == UnifyResult(check, [Equal(1), Any], 1, 1, 0);
  }

  /** Two unknown cells unified alias one fresh unknown cell; unifying the
      first with a known cell then fills that shared cell, through the alias,
      and leaves the second handle aliasing it. */
  lemma AliasThenRefine<T>(check: (T, T) -> bool, p: T)
    ensures UnifyResult(check, [Any, Any], 0, 1, 1) == Run(Ok(Equal(2)), [Equal(2), Equal(2), Any])
    ensures var k := Known(p, []);
            UnifyResult(check, [Equal(2), Equal(2), Any, k], 0, 3, 2) == Run(Ok(k), [k, Equal(2), k, k])
  {
    var k: Cell<T> := Known(p, []);
    var cs := [Equal(2), Equal(2), Any, k];
    assert UnifiedResult(check, cs, 2, 3, 1) == Run(Ok(k), cs);
    assert UnifyResult(check, cs, 2, 3, 1) == Run(Ok(k), [Equal(2), Equal(2), k, k]);
  }

  /** Two known cells with one child each, the children two distinct equal
      leaves: the pair unifies, the result keeps the payload over one fresh
      child, and that child holds the unified leaf. */
  lemma NestedUnify()
    ensures var cs: seq<Cell<int>> := [Known(1, []), Known(1, []), Known(0, [0]), Known(0, [1])];
            UnifyResult((x: int, y: int) => x == y, cs, 2, 3, 10)
              == Run(Ok(Known(0, [4])), [Known(1, []), Known(1, []), Known(0, [4]), Known(0, [4]), Known(1, [])])
  {
    var check := (x: int, y: int) => x == y;
    var cs: seq<Cell<int>> := [Known(1, []), Known(1, []), Known(0, [0]), Known(0, [1])];
    var leaf := UnifyResult(check, cs, 0, 1, 9);
    assert UnifiedResult(check, cs, 0, 1, 9) == Run(Ok(Known(1, [])), cs) by {
      assert UnifyArgsResult(check, cs, [], [], 9) == Run(Ok([]), cs);
    }
    assert leaf == Run(Ok(Known(1, [])), cs);
    var next := cs + [Known(1, [])];
    assert UnifyArgsResult(check, next, [], [], 10) == Run(Ok([]), next);
    assert [0][1..] == [] && [1][1..] == [];
    var rest := UnifyArgsResult(check, next, [0][1..], [1][1..], 10);
    assert rest == Run(Ok([]), next);
    assert [|cs|] + rest.out.value == [4];
    assert UnifyArgsResult(check, cs, [0], [1], 10) == Run(Ok([4]), next);
    assert UnifiedResult(check, cs, 2, 3, 10) == Run(Ok(Known(0, [4])), next);
  }

  /** One step of alias chasing: `unify` on an alias is `unify` on its
      target, after which both given cells are overwritten too. */
  lemma ChaseStep<T>(check: (T, T) -> bool, cs: seq<Cell<T>>, a: nat, b: nat, fuel: nat)
    requires Wf(cs) && a < |cs| && b < |cs| && a != b && 0 < fuel && (cs[a].Equal? || cs[b].Equal?)
    ensures var a1 := if cs[a].Equal? then cs[a].target else a;
            var b1 := if cs[a].Equal? then b else cs[b].target;
            var m := UnifyResult(check, cs, a1, b1, fuel - 1);
            UnifyResult(check, cs, a, b, fuel)
              == if m.out.Ok? then Run(m.out, m.cells[a := m.out.value][b := m.out.value]) else m
  {
  }

  /** `unify` on `a`, `b` with fuel `fuel` ends as `unify` on `ta`, `tb` with
      fuel `f` does, except that on success every cell of `w` also holds the
      result. */
  ghost predicate ChasesTo<T>(check: (T, T) -> bool, cs: seq<Cell<T>>, a: nat, b: nat, fuel: nat,
                        ta: nat, tb: nat, f: nat, w: set<nat>)
    requires Wf(cs) && a < |cs| && b < |cs| && ta < |cs| && tb < |cs|
  {
    var s, t := UnifyResult(check, cs, a, b, fuel), UnifyResult(check, cs, ta, tb, f);
    && s.out == t.out
    && s.cells == if s.out.Ok? then Overwritten(t.cells, w, s.out.value) else t.cells
  }

  /** One chase step kept on the arena value: if `unify` on the next pair
      `a1`, `b1` is `unify` on the terminals with the cells `w1` overwritten,
      then `unify` on `a`, `b` is the same with `a` and `b` overwritten too. */
  lemma ChaseCombine<T>(check: (T, T) -> bool, cs: seq<Cell<T>>, a: nat, b: nat, fuel: nat, a1: nat, b1: nat,
                        ta: nat, tb: nat, f: nat, w1: set<nat>)
    requires Wf(cs) && a < |cs| && b < |cs| && a != b && 0 < fuel && (cs[a].Equal? || cs[b].Equal?)
    requires a1 == (if cs[a].Equal? then cs[a].target else a) && b1 == (if cs[a].Equal? then b else cs[b].target)
    requires ta < |cs| && tb < |cs|
    requires ChasesTo(check, cs, a1, b1, fuel - 1, ta, tb, f, w1)
    ensures ChasesTo(check, cs, a, b, fuel, ta, tb, f, {a, b} + w1)
  {
    ChaseStep(check, cs, a, b, fuel);
    var m := UnifyResult(check, cs, a1, b1, fuel - 1);
    if m.out.Ok? {
      OverwrittenTwice(UnifyResult(check, cs, ta, tb, f).cells, w1, m.out.value, a, b);
    }
  }

  /** `cs` with every cell named in `w` overwritten with `v`. */
  function Overwritten<T>(cs: seq<Cell<T>>, w: set<nat>, v: Cell<T>): (r: seq<Cell<T>>)
    ensures |r| == |cs|
    ensures forall h | 0 <= h < |cs| :: r[h] == if h in w then v else cs[h]
  {
    seq(|cs|, h requires 0 <= h < |cs| => if h in w then v else cs[h])
  }

  lemma OverwrittenTwice<T>(cs: seq<Cell<T>>, w: set<nat>, v: Cell<T>, a: nat, b: nat)
    requires a < |cs| && b < |cs|
    ensures Overwritten(cs, w, v)[a := v][b := v] == Overwritten(cs, {a, b} + w, v)
  {
  }

  lemma OverwrittenHolding<T>(cs: seq<Cell<T>>, w: set<nat>, v: Cell<T>)
    requires forall h | h in w :: h < |cs| && cs[h] == v
    ensures Overwritten(cs, w, v) == cs
  {
  }

  lemma OverwrittenAbsorbs<T>(cs: seq<Cell<T>>, w: set<nat>, v: Cell<T>, a: nat, b: nat)
    requires a < |cs| && b < |cs| && a in w && b in w
    ensures Overwritten(cs[a := v][b := v], w, v) == Overwritten(cs, w, v)
  {
  }

  /** `unify` on two distinct cells that are not aliases, arm by arm
      (infer.rs:63-78), with both cells then overwritten. */
  lemma DirectArms<T>(check: (T, T) -> bool, cs: seq<Cell<T>>, a: nat, b: nat, fuel: nat)
    requires Wf(cs) && a < |cs| && b < |cs| && a != b && 0 < fuel && !cs[a].Equal? && !cs[b].Equal?
    ensures var s, x, y := UnifyResult(check, cs, a, b, fuel), cs[a], cs[b];
      && (x.Any? && y.Any? ==> s == Run(Ok(Equal(|cs|)), (cs + [Any])[a := Equal(|cs|)][b := Equal(|cs|)]))
      && (x.Any? && y.Known? ==> s == Run(Ok(y), cs[a := y][b := y]))
      && (x.Known? && y.Any? ==> s == Run(Ok(x), cs[a := x][b := x]))
      && (x.Known? && y.Known? && (!check(x.ty, y.ty) || |x.args| != |y.args|) ==> s == Run(Abort, cs))
      && (x.Known? && y.Known? && check(x.ty, y.ty) && |x.args| == |y.args| ==>
            var g := UnifyArgsResult(check, cs, x.args, y.args, fuel);
            s == if g.out.Ok? then Run(Ok(Known(x.ty, g.out.value)), g.cells[a := Known(x.ty, g.out.value)][b := Known(x.ty, g.out.value)])
                 else Run(Abort, g.cells))
  {
  }

  /** `unify` on two handles of different alias classes, stated on what
      their terminal cells `ta` and `tb` held, once `Arena.Chase` has reduced
      the call to the terminals with fuel `f` and `w` is the set of cells on
      both chains: Any×Any makes every cell of both chains alias one fresh
      `Any`; Any×Known in either order copies the known cell into both
      chains; a rejected payload pair or unequal arity panics and writes
      nothing; two accepted known cells give `a`'s payload over the children
      the args loop made, written into both chains. */
  lemma ChasedArms<T>(check: (T, T) -> bool, cs: seq<Cell<T>>, a: nat, b: nat, fuel: nat, ta: nat, tb: nat, f: nat, w: set<nat>)
    requires Wf(cs) && a < |cs| && b < |cs| && ta < |cs| && tb < |cs| && ta != tb && 0 < f
    requires !cs[ta].Equal? && !cs[tb].Equal? && ta in w && tb in w
    requires ChasesTo(check, cs, a, b, fuel, ta, tb, f, w)
    ensures var s, x, y := UnifyResult(check, cs, a, b, fuel), cs[ta], cs[tb];
      && (x.Any? && y.Any? ==> s == Run(Ok(Equal(|cs|)), Overwritten(cs + [Any], w, Equal(|cs|))))
      && (x.Any? && y.Known? ==> s == Run(Ok(y), Overwritten(cs, w, y)))
      && (x.Known? && y.Any? ==> s == Run(Ok(x), Overwritten(cs, w, x)))
      && (x.Known? && y.Known? && (!check(x.ty, y.ty) || |x.args| != |y.args|) ==> s == Run(Abort, cs))
      && (x.Known? && y.Known? && check(x.ty, y.ty) && |x.args| == |y.args| ==>
            var g := UnifyArgsResult(check, cs, x.args, y.args, f);
            s == if g.out.Ok? then Run(Ok(Known(x.ty, g.out.value)), Overwritten(g.cells, w, Known(x.ty, g.out.value)))
                 else Run(Abort, g.cells))
  {
    DirectArms(check, cs, ta, tb, f);
    var s := UnifyResult(check, cs, a, b, fuel);
    var x, y := cs[ta], cs[tb];
    if x.Any? && y.Any? {
      OverwrittenAbsorbs(cs + [Any], w, Equal(|cs|), ta, tb);
    } else if x.Any? || y.Any? {
      OverwrittenAbsorbs(cs, w, s.out.value, ta, tb);
    } else if check(x.ty, y.ty) && |x.args| == |y.args| {
      var g := UnifyArgsResult(check, cs, x.args, y.args, f);
      if g.out.Ok? {
        OverwrittenAbsorbs(g.cells, w, Known(x.ty, g.out.value), ta, tb);
      }
    }
  }

  class Arena<T> {
    var cells: seq<Cell<T>>
    /** The payload check the engine is parameterised by. */
    const check: (T, T) -> bool
    // An alias always points at a cell of larger stamp, so alias chains are
    // finite: the stamp is the well-founded rank the source leaves implicit.
    ghost var stamp: seq<int>
    ghost var clock: int

    ghost predicate Valid()
      reads this
    {
      && |stamp| == |cells|
      && Wf(cells)
      && (forall i | 0 <= i < |cells| :: stamp[i] < clock)
      && (forall i | 0 <= i < |cells| && cells[i].Equal? :: stamp[i] < stamp[cells[i].target])
    }

    constructor (check: (T, T) -> bool)
      ensures Valid() && cells == [] && this.check == check
    {
      this.check := check;
      cells := [];
      stamp := [];
      clock := 0;
    }

    /** The cell an alias chain from `h` ends in. */
    ghost function Terminal(h: nat): (r: nat)
      reads this
      requires Valid() && h < |cells|
      ensures r < |cells| && !cells[r].Equal?
      ensures !cells[h].Equal? ==> r == h
      decreases clock - stamp[h]
    {
      if cells[h].Equal? then Terminal(cells[h].target) else h
    }

    /** How many aliases lie between `h` and its terminal cell. */
    ghost function Depth(h: nat): nat
      reads this
      requires Valid() && h < |cells|
      decreases clock - stamp[h]
    {
      if cells[h].Equal? then Depth(cells[h].target) + 1 else 0
    }

    /** The cells of the alias chain from `h`, its terminal included. */
    ghost function Chain(h: nat): (r: set<nat>)
      reads this
      requires Valid() && h < |cells|
      ensures h in r && Terminal(h) in r
      ensures forall x | x in r :: x < |cells|
      decreases clock - stamp[h]
    {
      if cells[h].Equal? then {h} + Chain(cells[h].target) else {h}
    }

    /** `InferTyRef::concrete`: panics on an unknown cell, follows aliases,
        and gives a known cell's payload without looking at its args. */
    function Concrete(h: nat): (r: Outcome<T>)
      reads this
      requires Valid() && h < |cells|
      ensures r != Err
      ensures r.Ok? <==> cells[Terminal(h)].Known?
      ensures r.Ok? ==> r.value == cells[Terminal(h)].ty
      decreases clock - stamp[h]
    {
      match cells[h]
      case Any => Abort
      case Equal(t) => Concrete(t)
      case Known(ty, _) => Ok(ty)
    }

    /** Puts `c` in a new cell (`Rc::new(RefCell::new(c))`). */
    method Alloc(c: Cell<T>) returns (h: nat)
      requires Valid() && Closed(c, |cells|)
      modifies this
      ensures Valid() && h == old(|cells|) && cells == old(cells) + [c]
      ensures old(stamp) <= stamp && old(clock) < clock
      ensures !c.Equal? ==> stamp[h] == old(clock)
    {
      h := |cells|;
      var s := if c.Equal? then stamp[c.target] - 1 else clock;
      cells := cells + [c];
      stamp := stamp + [s];
      clock := clock + 1;
    }

    /** `InferTyRef::any`: a fresh unknown cell. */
    method NewAny() returns (h: nat)
      requires Valid()
      modifies this
      ensures Valid() && h == old(|cells|) && cells == old(cells) + [Any]
      ensures old(stamp) <= stamp && old(clock) < clock
      ensures Concrete(h) == Abort
    {
      h := Alloc(Any);
    }

    /** `InferTyRef::known_with_args`: a fresh known cell over existing children. */
    method NewKnown(ty: T, args: seq<nat>) returns (h: nat)
      requires Valid() && forall k | 0 <= k < |args| :: args[k] < |cells|
      modifies this
      ensures Valid() && h == old(|cells|) && cells == old(cells) + [Known(ty, args)]
      ensures old(stamp) <= stamp && old(clock) < clock
      ensures Concrete(h) == Ok(ty)
    {
      h := Alloc(Known(ty, args));
    }

    /** `InferTyRef::known`: a fresh known cell with no children. */
    method NewKnownLeaf(ty: T) returns (h: nat)
      requires Valid()
      modifies this
      ensures Valid() && h == old(|cells|) && cells == old(cells) + [Known(ty, [])]
      ensures old(stamp) <= stamp && old(clock) < clock
      ensures Concrete(h) == Ok(ty)
    {
      h := NewKnown(ty, []);
    }

    /** The free function `unify`: exactly `UnifyResult` on the arena, and on
        success the two cells agree under `concrete`. */
    method Unify(a: nat, b: nat, fuel: nat) returns (r: Outcome<Cell<T>>)
      requires Valid() && a < |cells| && b < |cells|
      modifies this
      ensures Valid() && old(|cells|) <= |cells| && old(stamp) <= stamp && old(clock) <= clock
      ensures Run(r, cells) == UnifyResult(check, old(cells), a, b, fuel)
      ensures r.Ok? ==> Concrete(a) == Concrete(b)
      ensures r.Ok? && r.value.Equal? ==> stamp[a] < stamp[r.value.target] && stamp[b] < stamp[r.value.target]
      decreases fuel, 2
    {
      if a == b {
        return Ok(cells[a]);
      }
      r := Unified(a, b, fuel);
      if r.Ok? {
        Overwrite(a, b, r.value);
      }
    }

    /** The contents `unify` computes for two distinct cells (infer.rs:46-80),
        before it writes them into both. */
    method Unified(a: nat, b: nat, fuel: nat) returns (r: Outcome<Cell<T>>)
      requires Valid() && a < |cells| && b < |cells| && a != b
      modifies this
      ensures Valid() && old(|cells|) <= |cells| && old(stamp) <= stamp && old(clock) <= clock
      ensures Run(r, cells) == UnifiedResult(check, old(cells), a, b, fuel)
      ensures r.Ok? && r.value.Equal? ==> stamp[a] < stamp[r.value.target] && stamp[b] < stamp[r.value.target]
      decreases fuel, 1
    {
      if fuel == 0 {
        return Abort;
      }
      if cells[a].Equal? {
        r := Unify(cells[a].target, b, fuel - 1);
      } else if cells[b].Equal? {
        r := Unify(a, cells[b].target, fuel - 1);
      } else if cells[a].Any? && cells[b].Any? {
        var f := Alloc(Any);
        r := Ok(Equal(f));
      } else if cells[a].Any? {
        r := Ok(cells[b]);
      } else if cells[b].Any? {
        r := Ok(cells[a]);
      } else {
        var tyA, argsA, argsB := cells[a].ty, cells[a].args, cells[b].args;
        if !check(tyA, cells[b].ty) {
          return Abort;
        }
        if |argsA| != |argsB| {
          return Abort;
        }
        var args := UnifyArgs(argsA, argsB, fuel);
        if !args.Ok? {
          return if args.Err? then Err else Abort;
        }
        r := Ok(Known(tyA, args.value));
      }
    }

    /** The two writes `*a.0.borrow_mut() = unified` and the same for `b`. */
    method Overwrite(a: nat, b: nat, u: Cell<T>)
      requires Valid() && a < |cells| && b < |cells| && Closed(u, |cells|)
      requires u.Equal? ==> stamp[a] < stamp[u.target] && stamp[b] < stamp[u.target]
      modifies this`cells
      ensures Valid() && cells == old(cells)[a := u][b := u]
      ensures Concrete(a) == Concrete(b)
    {
      cells := cells[a := u][b := u];
    }

    /** The loop over the zipped args of two known cells (infer.rs:72-75):
        exactly `UnifyArgsResult`. */
    method UnifyArgs(argsA: seq<nat>, argsB: seq<nat>, fuel: nat) returns (r: Outcome<seq<nat>>)
      requires Valid() && 0 < fuel && |argsA| == |argsB|
      requires forall k | 0 <= k < |argsA| :: argsA[k] < |cells| && argsB[k] < |cells|
      modifies this
      ensures Valid() && old(|cells|) <= |cells| && old(stamp) <= stamp && old(clock) <= clock
      ensures Run(r, cells) == UnifyArgsResult(check, old(cells), argsA, argsB, fuel)
      decreases fuel, 0
    {
      var args: seq<nat> := [];
      var i := 0;
      ghost var goal := UnifyArgsResult(check, cells, argsA, argsB, fuel);
      assert argsA[0..] == argsA && argsB[0..] == argsB;
      PrependNothing(goal);
      while i < |argsA|
        invariant 0 <= i <= |argsA|
        invariant Valid() && old(|cells|) <= |cells| && old(stamp) <= stamp && old(clock) <= clock
        invariant Prepend(args, UnifyArgsResult(check, cells, argsA[i..], argsB[i..], fuel)) == goal
      {
        ghost var before := cells;
        var sub := Unify(argsA[i], argsB[i], fuel - 1);
        ArgsLoopStep(check, before, argsA, argsB, fuel, i, args, Run(sub, cells));
        if !sub.Ok? {
          return if sub.Err? then Err else Abort;
        }
        var c := Alloc(sub.value);
        args := args + [c];
        i := i + 1;
      }
      ArgsDone(check, cells, argsA[i..], argsB[i..], fuel, args);
      r := Ok(args);
    }

    /** `unify` chases both alias chains, `a` first, and then does on the two
        terminal cells what it would do on them directly; on success every
        cell of both chains holds the result. */
    lemma {:induction false} Chase(a: nat, b: nat, fuel: nat)
      requires Valid() && a < |cells| && b < |cells|
      requires Terminal(a) != Terminal(b) && Depth(a) + Depth(b) < fuel
      ensures ChasesTo(check, cells, a, b, fuel, Terminal(a), Terminal(b), fuel - Depth(a) - Depth(b), Chain(a) + Chain(b))
      decreases fuel, 1
    {
      if cells[a].Equal? {
        ChaseLeft(a, b, fuel);
      } else if cells[b].Equal? {
        ChaseRight(a, b, fuel);
      } else {
        assert Terminal(a) == a && Terminal(b) == b && Depth(a) + Depth(b) == 0;
        assert Chain(a) + Chain(b) == {a, b};
        var s := UnifyResult(check, cells, a, b, fuel);
        if s.out.Ok? {
          OverwrittenHolding(s.cells, {a, b}, s.out.value);
        }
      }
    }

    lemma {:induction false} ChaseLeft(a: nat, b: nat, fuel: nat)
      requires Valid() && a < |cells| && b < |cells| && cells[a].Equal?
      requires Terminal(a) != Terminal(b) && Depth(a) + Depth(b) < fuel
      ensures ChasesTo(check, cells, a, b, fuel, Terminal(a), Terminal(b), fuel - Depth(a) - Depth(b), Chain(a) + Chain(b))
      decreases fuel, 0
    {
      var a1 := cells[a].target;
      var ta, tb, f := Terminal(a), Terminal(b), fuel - Depth(a) - Depth(b);
      assert Terminal(a1) == ta && f == fuel - 1 - Depth(a1) - Depth(b);
      assert Chain(a) + Chain(b) == {a, b} + (Chain(a1) + Chain(b));
      Chase(a1, b, fuel - 1);
      ChaseCombine(check, cells, a, b, fuel, a1, b, ta, tb, f, Chain(a1) + Chain(b));
    }

    lemma {:induction false} ChaseRight(a: nat, b: nat, fuel: nat)
      requires Valid() && a < |cells| && b < |cells| && !cells[a].Equal? && cells[b].Equal?
      requires Terminal(a) != Terminal(b) && Depth(a) + Depth(b) < fuel
      ensures ChasesTo(check, cells, a, b, fuel, Terminal(a), Terminal(b), fuel - Depth(a) - Depth(b), Chain(a) + Chain(b))
      decreases fuel, 0
    {
      var b1 := cells[b].target;
      var ta, tb, f := Terminal(a), Terminal(b), fuel - Depth(a) - Depth(b);
      assert Terminal(b1) == tb && Depth(b) == Depth(b1) + 1;
      assert f == fuel - 1 - Depth(a) - Depth(b1);
      assert Chain(a) + Chain(b) == {a, b} + (Chain(a) + Chain(b1));
      Chase(a, b1, fuel - 1);
      ChaseCombine(check, cells, a, b, fuel, a, b1, ta, tb, f, Chain(a) + Chain(b1));
    }

    /** Two handles of one alias class: with fuel for both chains `unify`
        succeeds, allocates nothing, and leaves their shared terminal cell
        as it was. */
    lemma {:induction false} ChaseSame(a: nat, b: nat, fuel: nat)
      requires Valid() && a < |cells| && b < |cells|
      requires Terminal(a) == Terminal(b) && Depth(a) + Depth(b) < fuel
      ensures var s := UnifyResult(check, cells, a, b, fuel);
              && s.out.Ok? && |s.cells| == |cells|
              && s.cells[Terminal(a)] == cells[Terminal(a)]
              && (a == Terminal(a) || b == Terminal(a) ==> s.out.value == cells[Terminal(a)])
      decreases fuel
    {
      if a == b {
      } else if cells[a].Equal? {
        ChaseSame(cells[a].target, b, fuel - 1);
      } else {
        assert cells[b].Equal?;
        ChaseSame(a, cells[b].target, fuel - 1);
      }
    }
  }
}
