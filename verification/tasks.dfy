/**
 * Barrier-separated concurrent tasks, as the teardown command builds them from
 * `await` and `Promise.all`.
 *
 * A `Serial` task awaits its steps one after another; an awaited step that
 * rejects throws, so no later step is started. A `Parallel` task is a
 * `Promise.all` over promises that were all created (and so started) before
 * the join: every branch runs to its own end even when a sibling rejects, and
 * the join rejects when any branch does.
 */
module Tasks {
  import opened Operations

  datatype Task = Do(op: Op) | Serial(steps: seq<Task>) | Parallel(branches: seq<Task>)

  /** Every operation the task contains, with multiplicity. */
  function OpsOf(t: Task): (ops: multiset<Op>)
  {
    match t
    case Do(op) => multiset{op}
    case Serial(steps) => OpsOfAll(steps)
    case Parallel(branches) => OpsOfAll(branches)
  }

  function OpsOfAll(ts: seq<Task>): (ops: multiset<Op>)
  {
    if |ts| == 0 then multiset{} else OpsOf(ts[0]) + OpsOfAll(ts[1..])
  }

  /** What one run issued, and whether it settled without a rejection. */
  datatype Outcome = Outcome(issued: multiset<Op>, ok: bool)

  /** No operation in `issued` is one of the failing ones. */
  predicate NoneFail(issued: multiset<Op>, failing: set<Op>) {
    forall op :: op in issued ==> op !in failing
  }

  /**
   * Runs a task against an environment in which exactly the operations in
   * `failing` reject, and reports what was issued.
   */
  function Run(t: Task, failing: set<Op>): (out: Outcome)
  {
    match t
    case Do(op) => Outcome(multiset{op}, op !in failing)
    case Serial(steps) => RunSerial(steps, failing)
    case Parallel(branches) => RunParallel(branches, failing)
  }

  /** Awaits the steps in order and stops at the first one that rejects. */
  function RunSerial(steps: seq<Task>, failing: set<Op>): (out: Outcome)
  {
    if |steps| == 0 then Outcome(multiset{}, true)
    else
      var first := Run(steps[0], failing);
      if !first.ok then first
      else
        var rest := RunSerial(steps[1..], failing);
        Outcome(first.issued + rest.issued, rest.ok)
  }

  /** Runs every branch; the join fails when any branch does. */
  function RunParallel(branches: seq<Task>, failing: set<Op>): (out: Outcome)
  {
    if |branches| == 0 then Outcome(multiset{}, true)
    else
      var first := Run(branches[0], failing);
      var rest := RunParallel(branches[1..], failing);
      Outcome(first.issued + rest.issued, first.ok && rest.ok)
  }

  /**
   * A run issues only operations of the task, fails exactly when one of the
   * operations it issued failed, and issues the whole task when it succeeds.
   */
  lemma {:induction false} RunFacts(t: Task, failing: set<Op>)
    ensures Run(t, failing).issued <= OpsOf(t)
    ensures Run(t, failing).ok <==> NoneFail(Run(t, failing).issued, failing)
    ensures Run(t, failing).ok ==> Run(t, failing).issued == OpsOf(t)
  {
    match t
    case Do(op) =>
    case Serial(steps) => RunSerialFacts(steps, failing);
    case Parallel(branches) => RunParallelFacts(branches, failing);
  }

  lemma {:induction false} RunSerialFacts(steps: seq<Task>, failing: set<Op>)
    ensures RunSerial(steps, failing).issued <= OpsOfAll(steps)
    ensures RunSerial(steps, failing).ok <==> NoneFail(RunSerial(steps, failing).issued, failing)
    ensures RunSerial(steps, failing).ok ==> RunSerial(steps, failing).issued == OpsOfAll(steps)
  {
    if |steps| > 0 {
      RunFacts(steps[0], failing);
      RunSerialFacts(steps[1..], failing);
    }
  }

  lemma {:induction false} RunParallelFacts(branches: seq<Task>, failing: set<Op>)
    ensures RunParallel(branches, failing).issued <= OpsOfAll(branches)
    ensures RunParallel(branches, failing).ok <==> NoneFail(RunParallel(branches, failing).issued, failing)
    ensures RunParallel(branches, failing).ok ==> RunParallel(branches, failing).issued == OpsOfAll(branches)
  {
    if |branches| > 0 {
      RunFacts(branches[0], failing);
      RunParallelFacts(branches[1..], failing);
    }
  }

  /**
   * `b` can only be issued behind a barrier that follows `a`: every occurrence
   * of `b` in `t` sits in a serial step that comes after a step containing `a`.
   */
  predicate Guarded(t: Task, a: Op, b: Op)
  {
    match t
    case Do(op) => op != b
    case Serial(steps) => GuardedSerial(steps, a, b)
    case Parallel(branches) => GuardedAll(branches, a, b)
  }

  predicate GuardedSerial(steps: seq<Task>, a: Op, b: Op)
  {
    |steps| == 0 ||
    (Guarded(steps[0], a, b) && (a in OpsOf(steps[0]) || GuardedSerial(steps[1..], a, b)))
  }

  predicate GuardedAll(branches: seq<Task>, a: Op, b: Op)
  {
    |branches| == 0 || (Guarded(branches[0], a, b) && GuardedAll(branches[1..], a, b))
  }

  /**
   * The barrier: when `b` is issued and `a` guards it, `a` was issued before
   * and succeeded. So a failing operation holds back everything it guards.
   */
  lemma {:induction false} Barrier(t: Task, failing: set<Op>, a: Op, b: Op)
    requires Guarded(t, a, b)
    requires b in Run(t, failing).issued
    ensures a in Run(t, failing).issued && a !in failing
  {
    match t
    case Do(op) =>
    case Serial(steps) => BarrierSerial(steps, failing, a, b);
    case Parallel(branches) => BarrierParallel(branches, failing, a, b);
  }

  lemma {:induction false} BarrierSerial(steps: seq<Task>, failing: set<Op>, a: Op, b: Op)
    requires GuardedSerial(steps, a, b)
    requires b in RunSerial(steps, failing).issued
    ensures a in RunSerial(steps, failing).issued && a !in failing
  {
    var first := Run(steps[0], failing);
    if b in first.issued {
      Barrier(steps[0], failing, a, b);
    } else if a in OpsOf(steps[0]) {
      RunFacts(steps[0], failing);
      assert first.ok;
    } else {
      BarrierSerial(steps[1..], failing, a, b);
    }
  }

  lemma {:induction false} BarrierParallel(branches: seq<Task>, failing: set<Op>, a: Op, b: Op)
    requires GuardedAll(branches, a, b)
    requires b in RunParallel(branches, failing).issued
    ensures a in RunParallel(branches, failing).issued && a !in failing
  {
    if b in Run(branches[0], failing).issued {
      Barrier(branches[0], failing, a, b);
    } else {
      BarrierParallel(branches[1..], failing, a, b);
    }
  }

  /** A failing `a` holds back every operation it guards. */
  lemma FailureHoldsBack(t: Task, failing: set<Op>, a: Op, b: Op)
    requires Guarded(t, a, b) && a in failing
    ensures b !in Run(t, failing).issued
  {
    if b in Run(t, failing).issued {
      Barrier(t, failing, a, b);
    }
  }

  /** A task none of whose operations fails runs to the end and issues all of them. */
  lemma CleanRun(t: Task, failing: set<Op>)
    requires NoneFail(OpsOf(t), failing)
    ensures Run(t, failing) == Outcome(OpsOf(t), true)
  {
    var r := Run(t, failing);
    RunFacts(t, failing);
    assert NoneFail(r.issued, failing) by {
      forall op | op in r.issued ensures op !in failing {
        assert op in OpsOf(t);
      }
    }
  }

  lemma {:induction false} OpsOfAllAppend(xs: seq<Task>, ys: seq<Task>)
    ensures OpsOfAll(xs + ys) == OpsOfAll(xs) + OpsOfAll(ys)
  {
    if |xs| > 0 {
      assert (xs + ys)[1..] == xs[1..] + ys;
      OpsOfAllAppend(xs[1..], ys);
    } else {
      assert xs + ys == ys;
    }
  }

  /** Awaiting `xs + ys` is awaiting `xs`, then, if that succeeded, `ys`. */
  lemma {:induction false} RunSerialAppend(xs: seq<Task>, ys: seq<Task>, failing: set<Op>)
    ensures RunSerial(xs + ys, failing) ==
      var first := RunSerial(xs, failing);
      if first.ok then
        var rest := RunSerial(ys, failing);
        Outcome(first.issued + rest.issued, rest.ok)
      else first
  {
    if |xs| > 0 {
      assert (xs + ys)[1..] == xs[1..] + ys;
      assert (xs + ys)[0] == xs[0];
      RunSerialAppend(xs[1..], ys, failing);
    } else {
      assert xs + ys == ys;
    }
  }

  /** Joining `xs + ys` runs both halves to their ends. */
  lemma {:induction false} RunParallelAppend(xs: seq<Task>, ys: seq<Task>, failing: set<Op>)
    ensures RunParallel(xs + ys, failing) ==
      Outcome(RunParallel(xs, failing).issued + RunParallel(ys, failing).issued,
              RunParallel(xs, failing).ok && RunParallel(ys, failing).ok)
  {
    if |xs| > 0 {
      assert (xs + ys)[1..] == xs[1..] + ys;
      assert (xs + ys)[0] == xs[0];
      RunParallelAppend(xs[1..], ys, failing);
    } else {
      assert xs + ys == ys;
    }
  }

  lemma {:induction false} GuardedSerialAppend(xs: seq<Task>, ys: seq<Task>, a: Op, b: Op)
    ensures GuardedSerial(xs + ys, a, b) <==>
      GuardedSerial(xs, a, b) && (a in OpsOfAll(xs) || GuardedSerial(ys, a, b))
  {
    if |xs| > 0 {
      assert (xs + ys)[1..] == xs[1..] + ys;
      assert (xs + ys)[0] == xs[0];
      GuardedSerialAppend(xs[1..], ys, a, b);
    } else {
      assert xs + ys == ys;
    }
  }

  lemma {:induction false} GuardedAllAppend(xs: seq<Task>, ys: seq<Task>, a: Op, b: Op)
    ensures GuardedAll(xs + ys, a, b) <==> GuardedAll(xs, a, b) && GuardedAll(ys, a, b)
  {
    if |xs| > 0 {
      assert (xs + ys)[1..] == xs[1..] + ys;
      assert (xs + ys)[0] == xs[0];
      GuardedAllAppend(xs[1..], ys, a, b);
    } else {
      assert xs + ys == ys;
    }
  }

  /** An operation that does not occur in a task is trivially guarded there. */
  lemma {:induction false} AbsentIsGuarded(t: Task, a: Op, b: Op)
    requires b !in OpsOf(t)
    ensures Guarded(t, a, b)
  {
    match t
    case Do(op) =>
    case Serial(steps) => AbsentIsGuardedAll(steps, a, b);
    case Parallel(branches) => AbsentIsGuardedAll(branches, a, b);
  }

  lemma {:induction false} AbsentIsGuardedAll(ts: seq<Task>, a: Op, b: Op)
    requires b !in OpsOfAll(ts)
    ensures GuardedSerial(ts, a, b) && GuardedAll(ts, a, b)
  {
    if |ts| > 0 {
      AbsentIsGuarded(ts[0], a, b);
      AbsentIsGuardedAll(ts[1..], a, b);
    }
  }

  lemma OpsOfPair(x: Task, y: Task)
    ensures OpsOfAll([x, y]) == OpsOf(x) + OpsOf(y)
  {
    assert [x, y][1..] == [y];
    OpsOfSingle(y);
  }

  lemma OpsOfSingle(x: Task)
    ensures OpsOfAll([x]) == OpsOf(x)
  {
    assert [x][1..] == [];
  }

  /** A sequence of steps none of whose operations fails runs every step. */
  lemma CleanRunSerial(steps: seq<Task>, failing: set<Op>)
    requires NoneFail(OpsOfAll(steps), failing)
    ensures RunSerial(steps, failing) == Outcome(OpsOfAll(steps), true)
  {
    var r := RunSerial(steps, failing);
    RunSerialFacts(steps, failing);
    assert NoneFail(r.issued, failing) by {
      forall op | op in r.issued ensures op !in failing {
        assert op in OpsOfAll(steps);
      }
    }
  }

  /**
   * Siblings in a join are all started: whatever its siblings do, each branch
   * issues what it would issue on its own.
   */
  lemma {:induction false} RunParallelEach(branches: seq<Task>, i: nat, failing: set<Op>)
    requires i < |branches|
    ensures Run(branches[i], failing).issued <= RunParallel(branches, failing).issued
  {
    if i > 0 {
      RunParallelEach(branches[1..], i - 1, failing);
    }
  }

  /** A join over single operations issues every one of them, failing or not. */
  lemma {:induction false} RunParallelOfOps(branches: seq<Task>, failing: set<Op>)
    requires forall i :: 0 <= i < |branches| ==> branches[i].Do?
    ensures RunParallel(branches, failing).issued == OpsOfAll(branches)
  {
    if |branches| > 0 {
      RunParallelOfOps(branches[1..], failing);
    }
  }

  lemma RunSerialSingle(t: Task, failing: set<Op>)
    ensures RunSerial([t], failing) == Run(t, failing)
  {
    assert [t][1..] == [];
  }

  /** Steps run before later ones are appended still run. */
  lemma RunSerialPrefix(xs: seq<Task>, ys: seq<Task>, failing: set<Op>)
    ensures RunSerial(xs, failing).issued <= RunSerial(xs + ys, failing).issued
  {
    RunSerialAppend(xs, ys, failing);
  }

  /** After steps none of whose operations fails, the following steps run. */
  lemma RunSerialAfterClean(xs: seq<Task>, ys: seq<Task>, failing: set<Op>)
    requires NoneFail(OpsOfAll(xs), failing)
    ensures RunSerial(ys, failing).issued <= RunSerial(xs + ys, failing).issued
  {
    RunSerialAppend(xs, ys, failing);
    CleanRunSerial(xs, failing);
  }

  /** The second of two awaited steps runs once the first cannot fail. */
  lemma SecondStepRuns(first: Task, second: Task, failing: set<Op>)
    requires NoneFail(OpsOf(first), failing)
    ensures Run(second, failing).issued <= RunSerial([first, second], failing).issued
  {
    CleanRun(first, failing);
    assert [first, second][1..] == [second];
    RunSerialSingle(second, failing);
  }

  /** The first awaited step is always started. */
  lemma FirstStepStarts(steps: seq<Task>, failing: set<Op>)
    requires |steps| > 0
    ensures Run(steps[0], failing).issued <= RunSerial(steps, failing).issued
  {
  }

  /** `f1` and `f2` agree on which of the operations in `ops` fail. */
  predicate SameFailures(ops: multiset<Op>, f1: set<Op>, f2: set<Op>)
  {
    forall op :: op in ops ==> (op in f1 <==> op in f2)
  }

  /** A run depends only on which of the task's own operations fail. */
  lemma {:induction false} RunLocal(t: Task, f1: set<Op>, f2: set<Op>)
    requires SameFailures(OpsOf(t), f1, f2)
    ensures Run(t, f1) == Run(t, f2)
  {
    match t
    case Do(op) =>
    case Serial(steps) => RunSerialLocal(steps, f1, f2);
    case Parallel(branches) => RunParallelLocal(branches, f1, f2);
  }

  lemma {:induction false} RunSerialLocal(steps: seq<Task>, f1: set<Op>, f2: set<Op>)
    requires SameFailures(OpsOfAll(steps), f1, f2)
    ensures RunSerial(steps, f1) == RunSerial(steps, f2)
  {
    if |steps| > 0 {
      RunLocal(steps[0], f1, f2);
      RunSerialLocal(steps[1..], f1, f2);
    }
  }

  lemma {:induction false} RunParallelLocal(branches: seq<Task>, f1: set<Op>, f2: set<Op>)
    requires SameFailures(OpsOfAll(branches), f1, f2)
    ensures RunParallel(branches, f1) == RunParallel(branches, f2)
  {
    if |branches| > 0 {
      RunLocal(branches[0], f1, f2);
      RunParallelLocal(branches[1..], f1, f2);
    }
  }
}
