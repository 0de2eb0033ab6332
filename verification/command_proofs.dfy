/**
 * What a user of `rm` can rely on, derived from the counts and the failure
 * behaviour of the whole command.
 */
module CommandProofs {
  import opened Wrappers
  import opened Operations
  import opened Tasks
  import opened Teardown
  import opened Reference
  import opened TeardownProofs
  import opened FailureProofs

  /** With no artifact requested the command returns early, whatever fails. */
  lemma NothingRequested(requested: Option<seq<string>>, sel: Selection, killData: bool, listing: Listing,
                         failing: set<Op>)
    requires !Active(requested)
    ensures Run(Plan(requested, sel, killData, listing), failing) == Outcome(multiset{}, true)
  {
  }

  /** An unselected category issues nothing. */
  lemma SelectionGating(requested: Option<seq<string>>, sel: Selection, killData: bool, listing: Listing, op: Op)
    requires !Selects(sel, CategoryOf(op))
    ensures op !in OpsOf(Plan(requested, sel, killData, listing))
  {
    PlanOps(requested, sel, killData, listing);
  }

  /** Without `--kill-data` no registry, queue or table is deleted, whatever is selected. */
  lemma DurabilityGating(requested: Option<seq<string>>, sel: Selection, listing: Listing, op: Op)
    requires IsDurable(op)
    ensures op !in OpsOf(Plan(requested, sel, false, listing))
  {
    PlanOps(requested, sel, false, listing);
  }

  /** Selecting only the database without `--kill-data` issues no operation at all. */
  lemma DatabaseAloneKeepsData(requested: Option<seq<string>>, listing: Listing)
    ensures OpsOf(Plan(requested, Selection(false, false, true, false, false), false, listing)) == multiset{}
  {
  }

  /**
   * A selected App Runner component always lists its services and deletes its
   * autoscaling configuration and role exactly once, with or without
   * `--kill-data`; the worker always has its function and role deleted.
   */
  lemma AlwaysDeleted(requested: Option<seq<string>>, sel: Selection, killData: bool, listing: Listing, c: Component)
    requires Active(requested) && Selects(sel, App(c))
    ensures IsAppRunner(c) ==> OpsOf(Plan(requested, sel, killData, listing))[ListServices(c)] == 1
    ensures IsAppRunner(c) ==> OpsOf(Plan(requested, sel, killData, listing))[DeleteAutoScaling(c)] == 1
    ensures OpsOf(Plan(requested, sel, killData, listing))[DeleteRole(c)] == 1
    ensures c == Worker ==> OpsOf(Plan(requested, sel, killData, listing))[DeleteLambda] == 1
  {
    PlanOps(requested, sel, killData, listing);
  }

  /** With `--kill-data` a selected component's image registry is deleted exactly once. */
  lemma RegistryDeletedWithData(requested: Option<seq<string>>, sel: Selection, listing: Listing, c: Component)
    requires Active(requested) && Selects(sel, App(c))
    ensures OpsOf(Plan(requested, sel, true, listing))[DeleteEcr(c)] == 1
  {
    PlanOps(requested, sel, true, listing);
  }

  /** A service is deleted exactly when the listing reported a service with that ARN. */
  lemma {:induction false} CountArnListed(services: seq<Service>, arn: string)
    ensures CountArn(services, arn) > 0 <==> exists i :: 0 <= i < |services| && ArnOf(services[i]) == arn
  {
    if |services| > 0 {
      CountArnListed(services[1..], arn);
      if CountArn(services[1..], arn) > 0 {
        var i :| 0 <= i < |services[1..]| && ArnOf(services[1..][i]) == arn;
        assert ArnOf(services[i + 1]) == arn;
      }
      if exists i :: 0 <= i < |services| && ArnOf(services[i]) == arn {
        var i :| 0 <= i < |services| && ArnOf(services[i]) == arn;
        if i > 0 {
          assert ArnOf(services[1..][i - 1]) == arn;
        }
      }
    }
  }

  /** Among services with distinct ARNs, each listed ARN is counted exactly once. */
  lemma {:induction false} CountArnDistinct(services: seq<Service>, k: nat)
    requires k < |services|
    requires forall i, j :: 0 <= i < j < |services| ==> ArnOf(services[i]) != ArnOf(services[j])
    ensures CountArn(services, ArnOf(services[k])) == 1
  {
    var arn := ArnOf(services[k]);
    if k == 0 {
      forall i | 0 <= i < |services[1..]| ensures ArnOf(services[1..][i]) != arn {
        assert services[1..][i] == services[i + 1];
      }
      CountArnListed(services[1..], arn);
    } else {
      assert ArnOf(services[1..][k - 1]) == arn;
      CountArnDistinct(services[1..], k - 1);
    }
  }

  /**
   * Service fan-out: a selected App Runner component issues one deletion per
   * listed service, by ARN; with nothing listed it deletes no service.
   */
  lemma ServiceFanOut(requested: Option<seq<string>>, sel: Selection, killData: bool, listing: Listing,
                      c: Component, arn: string)
    requires Active(requested) && IsAppRunner(c) && Selects(sel, App(c))
    ensures DeleteService(c, arn) in OpsOf(Plan(requested, sel, killData, listing)) <==>
              exists i :: 0 <= i < |listing.For(c)| && ArnOf(listing.For(c)[i]) == arn
    ensures |listing.For(c)| == 0 ==> DeleteService(c, arn) !in OpsOf(Plan(requested, sel, killData, listing))
    ensures (forall i, j :: 0 <= i < j < |listing.For(c)| ==> ArnOf(listing.For(c)[i]) != ArnOf(listing.For(c)[j])) ==>
              forall k :: 0 <= k < |listing.For(c)| ==>
                OpsOf(Plan(requested, sel, killData, listing))[DeleteService(c, ArnOf(listing.For(c)[k]))] == 1
  {
    var services := listing.For(c);
    PlanOps(requested, sel, killData, listing);
    assert OpsOf(Plan(requested, sel, killData, listing))[DeleteService(c, arn)] == CountArn(services, arn);
    CountArnListed(services, arn);
    if forall i, j :: 0 <= i < j < |services| ==> ArnOf(services[i]) != ArnOf(services[j]) {
      forall k | 0 <= k < |services|
        ensures OpsOf(Plan(requested, sel, killData, listing))[DeleteService(c, ArnOf(services[k]))] == 1
      {
        CountArnDistinct(services, k);
      }
    }
  }

  /** Web and api run side by side: a failing web operation holds back no api operation, and back. */
  lemma ComputeSiblingsIndependent(requested: Option<seq<string>>, sel: Selection, killData: bool, listing: Listing,
                                   a: Op, b: Op)
    requires a in OpsOf(Plan(requested, sel, killData, listing)) && b in OpsOf(Plan(requested, sel, killData, listing))
    requires {CategoryOf(a), CategoryOf(b)} == {App(Web), App(Api)}
    ensures b in Run(Plan(requested, sel, killData, listing), {a}).issued
  {
    SingleFailure(requested, sel, killData, listing, a, b);
  }

  /** Configuration and the database share the last stage: neither holds back the other. */
  lemma DataSiblingsIndependent(requested: Option<seq<string>>, sel: Selection, killData: bool, listing: Listing)
    requires DeleteConfig in OpsOf(Plan(requested, sel, killData, listing))
    requires DeleteDynamo in OpsOf(Plan(requested, sel, killData, listing))
    ensures DeleteDynamo in Run(Plan(requested, sel, killData, listing), {DeleteConfig}).issued
    ensures DeleteConfig in Run(Plan(requested, sel, killData, listing), {DeleteDynamo}).issued
  {
    SingleFailure(requested, sel, killData, listing, DeleteConfig, DeleteDynamo);
    SingleFailure(requested, sel, killData, listing, DeleteDynamo, DeleteConfig);
  }

  /** A failure in one stage of the command stops every later stage. */
  lemma LaterStagesHeldBack(requested: Option<seq<string>>, sel: Selection, killData: bool, listing: Listing,
                            failing: set<Op>, a: Op, b: Op)
    requires a in failing && a in OpsOf(Plan(requested, sel, killData, listing))
    requires Rank(CategoryOf(a)) < Rank(CategoryOf(b))
    ensures b !in Run(Plan(requested, sel, killData, listing), failing).issued
  {
    PlanIssued(requested, sel, killData, listing, failing, b);
  }
}
