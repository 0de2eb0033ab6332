/**
 * The whole `rm` command under failures: which operations are issued for a
 * given set of failing operations, and when the command completes.
 */
module FailureProofs {
  import opened Wrappers
  import opened Operations
  import opened Tasks
  import opened Teardown
  import opened Reference
  import opened TeardownProofs
  import opened OrderProofs
  import opened IsolationProofs

  /**
   * The barrier rule of the command: when `b` is issued and `a` must
   * precede it, `a` was issued as well and succeeded.
   */
  lemma PlanBarrier(requested: Option<seq<string>>, sel: Selection, killData: bool, listing: Listing,
                    failing: set<Op>, a: Op, b: Op)
    requires a in OpsOf(Plan(requested, sel, killData, listing)) && MustPrecede(a, b)
    requires b in Run(Plan(requested, sel, killData, listing), failing).issued
    ensures a in Run(Plan(requested, sel, killData, listing), failing).issued && a !in failing
  {
    PlanGuards(requested, sel, killData, listing, a, b);
    Barrier(Plan(requested, sel, killData, listing), failing, a, b);
  }

  /**
   * Exactly which operations a run issues: those of the plan that no failing
   * operation of the plan must precede. Everything else keeps running.
   */
  lemma PlanIssued(requested: Option<seq<string>>, sel: Selection, killData: bool, listing: Listing,
                   failing: set<Op>, b: Op)
    ensures b in Run(Plan(requested, sel, killData, listing), failing).issued <==>
              b in OpsOf(Plan(requested, sel, killData, listing)) &&
              forall a :: a in failing && a in OpsOf(Plan(requested, sel, killData, listing)) ==> !MustPrecede(a, b)
  {
    var t := Plan(requested, sel, killData, listing);
    if b in Run(t, failing).issued {
      RunFacts(t, failing);
      forall a | a in failing && a in OpsOf(t) ensures !MustPrecede(a, b) {
        if MustPrecede(a, b) {
          PlanBarrier(requested, sel, killData, listing, failing, a, b);
        }
      }
    } else if b in OpsOf(t) {
      var relevant := set a | a in failing && a in OpsOf(t);
      RunLocal(t, failing, relevant);
      if forall a :: a in failing && a in OpsOf(t) ==> !MustPrecede(a, b) {
        PlanIndependent(requested, sel, killData, listing, relevant, b);
      }
    }
  }

  /**
   * One failing operation of the plan holds back exactly the operations that
   * depend on it.
   */
  lemma SingleFailure(requested: Option<seq<string>>, sel: Selection, killData: bool, listing: Listing, a: Op, b: Op)
    requires a in OpsOf(Plan(requested, sel, killData, listing)) && b in OpsOf(Plan(requested, sel, killData, listing))
    ensures b !in Run(Plan(requested, sel, killData, listing), {a}).issued <==> MustPrecede(a, b)
  {
    PlanIssued(requested, sel, killData, listing, {a}, b);
  }

  /**
   * The command completes exactly when none of its operations fails, and
   * then it has issued every planned operation as often as `Expected` says.
   */
  lemma PlanOutcome(requested: Option<seq<string>>, sel: Selection, killData: bool, listing: Listing, failing: set<Op>)
    ensures Run(Plan(requested, sel, killData, listing), failing).ok <==>
              NoneFail(OpsOf(Plan(requested, sel, killData, listing)), failing)
    ensures Run(Plan(requested, sel, killData, listing), failing).ok && Active(requested) ==>
              forall op :: Run(Plan(requested, sel, killData, listing), failing).issued[op] ==
                             Expected(op, sel, killData, listing)
  {
    var t := Plan(requested, sel, killData, listing);
    RunFacts(t, failing);
    if NoneFail(OpsOf(t), failing) {
      CleanRun(t, failing);
    }
    PlanOps(requested, sel, killData, listing);
  }
}
