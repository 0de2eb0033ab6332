/**
 * What failures do to a teardown: an operation is held back only by a
 * failing operation that must precede it, so concurrent work (the other App
 * Runner component, the other stage branch) keeps running.
 */
module IsolationProofs {
  import opened Wrappers
  import opened Operations
  import opened Tasks
  import opened Teardown
  import opened Reference
  import opened TeardownProofs
  import opened OrderProofs

  /** Once the listing succeeded, every listed service's deletion is issued. */
  lemma DeletionsAfterListing(c: Component, services: seq<Service>, failing: set<Op>)
    requires |services| > 0 && ListServices(c) !in failing
    ensures OpsOfAll(ServiceDeletes(c, services)) <= Run(DeleteAppRunnerServices(c, services), failing).issued
  {
    var dels := ServiceDeletes(c, services);
    var steps := [Do(ListServices(c)), Parallel(dels)];
    assert Run(steps[0], failing).ok;
    assert steps[1..] == [Parallel(dels)];
    RunSerialSingle(Parallel(dels), failing);
    RunParallelOfOps(dels, failing);
  }

  /** The listing is always issued; a service deletion is held back only by a failing listing. */
  lemma ServicesIndependent(c: Component, services: seq<Service>, failing: set<Op>, b: Op)
    requires b in OpsOf(DeleteAppRunnerServices(c, services)) && Unblocked(b, failing)
    ensures b in Run(DeleteAppRunnerServices(c, services), failing).issued
  {
    ServicesOps(c, services);
    if b != ListServices(c) {
      assert b.DeleteService? && b.component == c && CountArn(services, b.arn) > 0;
      assert |services| > 0;
      assert b in OpsOfAll(ServiceDeletes(c, services)) by {
        ServiceDeletesOps(c, services);
      }
      assert MustPrecede(ListServices(c), b);
      DeletionsAfterListing(c, services, failing);
    } else if |services| > 0 {
      FirstStepStarts([Do(ListServices(c)), Parallel(ServiceDeletes(c, services))], failing);
    }
  }

  /** The first stage of an App Runner teardown is always started. */
  lemma ServiceStageStarts(c: Component, services: seq<Service>, skipEcr: bool, failing: set<Op>)
    ensures Run(Parallel(ServiceStage(c, services, skipEcr)), failing).issued <=
              Run(DeleteAppRunner(c, services, skipEcr), failing).issued
  {
  }

  /** The second stage of an App Runner teardown runs in full once the first stage succeeded. */
  lemma RoleStageRuns(c: Component, services: seq<Service>, skipEcr: bool, failing: set<Op>)
    requires NoneFail(OpsOfAll(ServiceStage(c, services, skipEcr)), failing)
    ensures OpsOfAll(RoleStage(c)) <= Run(DeleteAppRunner(c, services, skipEcr), failing).issued
  {
    SecondStepRuns(Parallel(ServiceStage(c, services, skipEcr)), Parallel(RoleStage(c)), failing);
    RunParallelOfOps(RoleStage(c), failing);
  }

  /** Inside the first stage of an App Runner teardown, only a failing listing holds anything back. */
  lemma ServiceStageIndependent(c: Component, services: seq<Service>, skipEcr: bool, failing: set<Op>, b: Op)
    requires IsAppRunner(c)
    requires b in OpsOfAll(ServiceStage(c, services, skipEcr)) && Unblocked(b, failing)
    ensures b in RunParallel(ServiceStage(c, services, skipEcr), failing).issued
  {
    var stage1 := ServiceStage(c, services, skipEcr);
    var svc := DeleteAppRunnerServices(c, services);
    ServiceStageOps(c, services, skipEcr);
    if b in OpsOf(svc) {
      ServicesIndependent(c, services, failing, b);
      RunParallelEach(stage1, 0, failing);
    } else {
      assert b == DeleteEcr(c) && !skipEcr;
      assert stage1[1] == Do(DeleteEcr(c));
      RunParallelEach(stage1, 1, failing);
    }
  }

  /** Inside an App Runner teardown, an operation is held back only by a failing operation it depends on. */
  lemma AppRunnerIndependent(c: Component, services: seq<Service>, skipEcr: bool, failing: set<Op>, b: Op)
    requires IsAppRunner(c)
    requires b in OpsOf(DeleteAppRunner(c, services, skipEcr)) && Unblocked(b, failing)
    ensures b in Run(DeleteAppRunner(c, services, skipEcr), failing).issued
  {
    AppRunnerStageOps(c, services, skipEcr);
    RoleStageOps(c);
    if b in OpsOfAll(ServiceStage(c, services, skipEcr)) {
      ServiceStageIndependent(c, services, skipEcr, failing, b);
      ServiceStageStarts(c, services, skipEcr, failing);
    } else {
      assert b == DeleteAutoScaling(c) || b == DeleteRole(c);
      assert NoneFail(OpsOfAll(ServiceStage(c, services, skipEcr)), failing) by {
        ServiceStageMembers(c, services, skipEcr);
        forall a | a in OpsOfAll(ServiceStage(c, services, skipEcr)) ensures a !in failing {
          assert MustPrecede(a, b);
        }
      }
      RoleStageRuns(c, services, skipEcr, failing);
    }
  }

  /** Inside the worker teardown, only a failing function deletion holds anything back. */
  lemma WorkerIndependent(skipData: bool, failing: set<Op>, b: Op)
    requires b in OpsOf(DeleteWorker(skipData)) && Unblocked(b, failing)
    ensures b in Run(DeleteWorker(skipData), failing).issued
  {
    if b != DeleteLambda {
      assert b == DeleteRole(Worker) || b == DeleteQueue || b == DeleteEcr(Worker) by {
        WorkerStepOps(skipData);
        WorkerCleanupOps(skipData);
      }
      assert MustPrecede(DeleteLambda, b);
    }
    WorkerIssuedAll(skipData, failing, b);
  }

  /**
   * The worker teardown issues exactly its own operations, except that a
   * failing function deletion holds back everything after it.
   */
  lemma WorkerIssued(skipData: bool, failing: set<Op>, b: Op)
    ensures b in Run(DeleteWorker(skipData), failing).issued <==>
              b in OpsOf(DeleteWorker(skipData)) && (b == DeleteLambda || DeleteLambda !in failing)
  {
    if b in Run(DeleteWorker(skipData), failing).issued {
      WorkerIssuedOnly(skipData, failing, b);
    } else if b in OpsOf(DeleteWorker(skipData)) && (b == DeleteLambda || DeleteLambda !in failing) {
      WorkerIssuedAll(skipData, failing, b);
    }
  }

  /** An issued worker operation is planned, and past the function deletion only if that succeeded. */
  lemma WorkerIssuedOnly(skipData: bool, failing: set<Op>, b: Op)
    requires b in Run(DeleteWorker(skipData), failing).issued
    ensures b in OpsOf(DeleteWorker(skipData)) && (b == DeleteLambda || DeleteLambda !in failing)
  {
    var t := DeleteWorker(skipData);
    RunFacts(t, failing);
    if b != DeleteLambda && DeleteLambda in failing {
      WorkerStepOps(skipData);
      assert b == DeleteRole(Worker) || b == DeleteQueue || b == DeleteEcr(Worker) by {
        WorkerCleanupOps(skipData);
      }
      WorkerGuards(skipData, DeleteLambda, b);
      Barrier(t, failing, DeleteLambda, b);
    }
  }

  /** The function deletion is always issued, and the rest whenever it succeeds. */
  lemma WorkerIssuedAll(skipData: bool, failing: set<Op>, b: Op)
    requires b in OpsOf(DeleteWorker(skipData)) && (b == DeleteLambda || DeleteLambda !in failing)
    ensures b in Run(DeleteWorker(skipData), failing).issued
  {
    var step2 := WorkerCleanupStep(skipData);
    var steps := [Do(DeleteLambda), Parallel(step2)];
    if b == DeleteLambda {
      FirstStepStarts(steps, failing);
    } else {
      WorkerStepOps(skipData);
      assert Run(steps[0], failing).ok;
      assert b in RunSerial(steps[1..], failing).issued by {
        assert steps[1..] == [Parallel(step2)];
        RunSerialSingle(Parallel(step2), failing);
        RunParallelOfOps(step2, failing);
      }
    }
  }

  /**
   * An App Runner teardown issues exactly those of its operations that no
   * failing operation of its own must precede.
   */
  lemma AppRunnerIssued(c: Component, services: seq<Service>, skipEcr: bool, failing: set<Op>, b: Op)
    requires IsAppRunner(c)
    ensures b in Run(DeleteAppRunner(c, services, skipEcr), failing).issued <==>
              b in OpsOf(DeleteAppRunner(c, services, skipEcr)) &&
              forall a :: a in failing && a in OpsOf(DeleteAppRunner(c, services, skipEcr)) ==> !MustPrecede(a, b)
  {
    var t := DeleteAppRunner(c, services, skipEcr);
    if b in Run(t, failing).issued {
      RunFacts(t, failing);
      forall a | a in failing && a in OpsOf(t) ensures !MustPrecede(a, b) {
        if MustPrecede(a, b) {
          AppRunnerGuards(c, services, skipEcr, a, b);
          Barrier(t, failing, a, b);
        }
      }
    } else if b in OpsOf(t) {
      var relevant := set a | a in failing && a in OpsOf(t);
      RunLocal(t, failing, relevant);
      if forall a :: a in failing && a in OpsOf(t) ==> !MustPrecede(a, b) {
        AppRunnerIndependent(c, services, skipEcr, relevant, b);
      }
    }
  }

  /** A branch that may be left out of a join contributes its run when present. */
  lemma RunParallelOptional(present: bool, t: Task, failing: set<Op>)
    ensures RunParallel(Optional(present, t), failing).issued ==
              if present then Run(t, failing).issued else multiset{}
  {
    if present {
      assert Optional(present, t)[1..] == [];
    }
  }

  /** Web and api run side by side: a failure in one holds back nothing in the other. */
  lemma ComputeStepIndependent(sel: Selection, killData: bool, listing: Listing, failing: set<Op>, b: Op)
    requires b in OpsOfAll(ComputeStep(sel, killData, listing)) && Unblocked(b, failing)
    ensures b in RunParallel(ComputeStep(sel, killData, listing), failing).issued
  {
    var web := Optional(sel.web, DeleteAppRunner(Web, listing.web, !killData));
    var api := Optional(sel.api, DeleteAppRunner(Api, listing.api, !killData));
    OpsOfAllAppend(web, api);
    RunParallelAppend(web, api, failing);
    OptionalOps(sel.web, DeleteAppRunner(Web, listing.web, !killData));
    OptionalOps(sel.api, DeleteAppRunner(Api, listing.api, !killData));
    RunParallelOptional(sel.web, DeleteAppRunner(Web, listing.web, !killData), failing);
    RunParallelOptional(sel.api, DeleteAppRunner(Api, listing.api, !killData), failing);
    if b in OpsOfAll(web) {
      AppRunnerIndependent(Web, listing.web, !killData, failing, b);
    } else {
      AppRunnerIndependent(Api, listing.api, !killData, failing, b);
    }
  }

  /** The first stage of the command is always started. */
  lemma ComputeStageIndependent(sel: Selection, killData: bool, listing: Listing, failing: set<Op>, b: Op)
    requires b in OpsOfAll(ComputeStage(sel, killData, listing)) && Unblocked(b, failing)
    ensures b in RunSerial(ComputeStage(sel, killData, listing), failing).issued
  {
    var step1 := ComputeStep(sel, killData, listing);
    OptionalOps(|step1| > 0, Parallel(step1));
    RunSerialSingle(Parallel(step1), failing);
    ComputeStepIndependent(sel, killData, listing, failing, b);
  }

  lemma WorkerStageIndependent(sel: Selection, killData: bool, failing: set<Op>, b: Op)
    requires b in OpsOfAll(WorkerStage(sel, killData)) && Unblocked(b, failing)
    ensures b in RunSerial(WorkerStage(sel, killData), failing).issued
  {
    OptionalOps(sel.worker, DeleteWorker(!killData));
    RunSerialSingle(DeleteWorker(!killData), failing);
    WorkerIndependent(!killData, failing, b);
  }

  /** Configuration and database deletions are single calls issued together. */
  lemma DataStageRuns(sel: Selection, killData: bool, failing: set<Op>)
    ensures RunSerial(DataStage(sel, killData), failing).issued == OpsOfAll(DataStage(sel, killData))
  {
    var step2 := DataStep(sel, killData);
    if |step2| > 0 {
      RunSerialSingle(Parallel(step2), failing);
      OptionalOps(true, Parallel(step2));
      assert forall i :: 0 <= i < |step2| ==> step2[i].Do?;
      RunParallelOfOps(step2, failing);
    }
  }

  /** No operation of the stages in `xs` fails, because every one of them must precede `b`. */
  lemma EarlierStagesClean(xs: seq<Task>, failing: set<Op>, b: Op)
    requires Unblocked(b, failing)
    requires forall a :: a in OpsOfAll(xs) ==> MustPrecede(a, b)
    ensures NoneFail(OpsOfAll(xs), failing)
  {
  }

  /** An operation of the first stage is issued unless a failing operation must precede it. */
  lemma StagesComputeIndependent(sel: Selection, killData: bool, listing: Listing, failing: set<Op>, b: Op)
    requires b in OpsOfAll(ComputeStage(sel, killData, listing)) && Unblocked(b, failing)
    ensures b in RunSerial(Stages(sel, killData, listing), failing).issued
  {
    var compute, worker, data := ComputeStage(sel, killData, listing), WorkerStage(sel, killData), DataStage(sel, killData);
    assert Stages(sel, killData, listing) == compute + (worker + data);
    ComputeStageIndependent(sel, killData, listing, failing, b);
    RunSerialPrefix(compute, worker + data, failing);
  }

  /** A worker operation is issued once web and api are done, unless a failing operation must precede it. */
  lemma StagesWorkerIndependent(sel: Selection, killData: bool, listing: Listing, failing: set<Op>, b: Op)
    requires b in OpsOfAll(WorkerStage(sel, killData)) && Unblocked(b, failing)
    ensures b in RunSerial(Stages(sel, killData, listing), failing).issued
  {
    var compute, worker, data := ComputeStage(sel, killData, listing), WorkerStage(sel, killData), DataStage(sel, killData);
    assert Stages(sel, killData, listing) == compute + (worker + data);
    WorkerStageCategories(sel, killData);
    assert NoneFail(OpsOfAll(compute), failing) by {
      ComputeStageCategories(sel, killData, listing);
      EarlierStagesClean(compute, failing, b);
    }
    RunSerialAfterClean(compute, worker + data, failing);
    WorkerStageIndependent(sel, killData, failing, b);
    RunSerialPrefix(worker, data, failing);
  }

  /** A configuration or database deletion is issued unless an earlier stage fails. */
  lemma StagesDataIndependent(sel: Selection, killData: bool, listing: Listing, failing: set<Op>, b: Op)
    requires b in OpsOfAll(DataStage(sel, killData)) && Unblocked(b, failing)
    ensures b in RunSerial(Stages(sel, killData, listing), failing).issued
  {
    var compute, worker, data := ComputeStage(sel, killData, listing), WorkerStage(sel, killData), DataStage(sel, killData);
    DataStageCategories(sel, killData, listing);
    assert NoneFail(OpsOfAll(compute + worker), failing) by {
      OpsOfAllAppend(compute, worker);
      ComputeStageCategories(sel, killData, listing);
      WorkerStageCategories(sel, killData);
      EarlierStagesClean(compute + worker, failing, b);
    }
    RunSerialAfterClean(compute + worker, data, failing);
    DataStageRuns(sel, killData, failing);
  }

  /**
   * Sibling isolation across the whole command: a requested operation is
   * issued unless some failing operation must precede it.
   */
  lemma PlanIndependent(requested: Option<seq<string>>, sel: Selection, killData: bool, listing: Listing,
                        failing: set<Op>, b: Op)
    requires b in OpsOf(Plan(requested, sel, killData, listing)) && Unblocked(b, failing)
    ensures b in Run(Plan(requested, sel, killData, listing), failing).issued
  {
    var compute, worker, data := ComputeStage(sel, killData, listing), WorkerStage(sel, killData), DataStage(sel, killData);
    assert Active(requested);
    assert Stages(sel, killData, listing) == compute + worker + data;
    OpsOfAllAppend(compute + worker, data);
    OpsOfAllAppend(compute, worker);
    if b in OpsOfAll(compute) {
      StagesComputeIndependent(sel, killData, listing, failing, b);
    } else if b in OpsOfAll(worker) {
      StagesWorkerIndependent(sel, killData, listing, failing, b);
    } else {
      StagesDataIndependent(sel, killData, listing, failing, b);
    }
  }
}
