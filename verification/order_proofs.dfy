/**
 * The order of a teardown: an operation that must precede another is always
 * behind a barrier before it, and an operation that need not precede another
 * never holds it back.
 */
module OrderProofs {
  import opened Wrappers
  import opened Operations
  import opened Tasks
  import opened Teardown
  import opened Reference
  import opened TeardownProofs

  /** Every service deletion waits for the listing that reported the service. */
  lemma ServiceDeletionAfterListing(c: Component, services: seq<Service>, arn: string)
    ensures Guarded(DeleteAppRunnerServices(c, services), ListServices(c), DeleteService(c, arn))
  {
  }

  /** In the first stage of an App Runner teardown, every service deletion waits for the listing. */
  lemma ServiceStageGuards(c: Component, services: seq<Service>, skipEcr: bool, arn: string)
    ensures Guarded(Parallel(ServiceStage(c, services, skipEcr)), ListServices(c), DeleteService(c, arn))
  {
    var a, b := ListServices(c), DeleteService(c, arn);
    var svc := DeleteAppRunnerServices(c, services);
    var ecr := Optional(!skipEcr, Do(DeleteEcr(c)));
    OptionalOps(!skipEcr, Do(DeleteEcr(c)));
    AbsentIsGuardedAll(ecr, a, b);
    ServiceDeletionAfterListing(c, services, arn);
    assert [svc][1..] == [];
    assert GuardedAll([svc], a, b);
    GuardedAllAppend([svc], ecr, a, b);
  }

  /** Inside an App Runner teardown, every operation waits for the ones it depends on. */
  lemma AppRunnerGuards(c: Component, services: seq<Service>, skipEcr: bool, a: Op, b: Op)
    requires IsAppRunner(c)
    requires a in OpsOf(DeleteAppRunner(c, services, skipEcr)) && MustPrecede(a, b)
    ensures Guarded(DeleteAppRunner(c, services, skipEcr), a, b)
  {
    var t := DeleteAppRunner(c, services, skipEcr);
    var stage1 := ServiceStage(c, services, skipEcr);
    ServiceStageMembers(c, services, skipEcr);
    RoleStageOps(c);
    AppRunnerStageOps(c, services, skipEcr);
    if b !in OpsOf(t) {
      AbsentIsGuarded(t, a, b);
    } else if b.DeleteService? {
      assert a == ListServices(c);
      ServiceStageGuards(c, services, skipEcr, b.arn);
    } else {
      assert b !in OpsOfAll(stage1);
      AbsentIsGuarded(Parallel(stage1), a, b);
    }
  }

  /** The operations the worker teardown can issue. */
  predicate IsWorkerOp(op: Op)
  {
    op == DeleteLambda || op == DeleteRole(Worker) || op == DeleteQueue || op == DeleteEcr(Worker)
  }

  /** Among the worker's operations, only the function deletion must precede anything, and not itself. */
  lemma WorkerDependency(a: Op, b: Op)
    requires IsWorkerOp(a) && IsWorkerOp(b) && MustPrecede(a, b)
    ensures a == DeleteLambda && b != DeleteLambda
  {
  }

  /** Inside the worker teardown, the function is deleted before its role, queue and registry. */
  lemma WorkerGuards(skipData: bool, a: Op, b: Op)
    requires a in OpsOf(DeleteWorker(skipData)) && MustPrecede(a, b)
    ensures Guarded(DeleteWorker(skipData), a, b)
  {
    var t := DeleteWorker(skipData);
    if b !in OpsOf(t) {
      AbsentIsGuarded(t, a, b);
    } else {
      assert IsWorkerOp(a) && IsWorkerOp(b) by {
        WorkerCleanupOps(skipData);
        WorkerStepOps(skipData);
      }
      WorkerDependency(a, b);
      var steps := [Do(DeleteLambda), Parallel(WorkerCleanupStep(skipData))];
      assert steps[0] == Do(a);
      assert Guarded(steps[0], a, b);
      assert a in OpsOf(steps[0]);
      assert GuardedSerial(steps, a, b);
    }
  }

  /** Every operation of an App Runner teardown belongs to that component. */
  lemma AppRunnerCategory(c: Component, services: seq<Service>, skipEcr: bool)
    requires IsAppRunner(c)
    ensures forall op :: op in OpsOf(DeleteAppRunner(c, services, skipEcr)) ==> CategoryOf(op) == App(c)
  {
    ServiceStageMembers(c, services, skipEcr);
    RoleStageOps(c);
    AppRunnerStageOps(c, services, skipEcr);
  }

  /** Every operation of the worker teardown belongs to the worker. */
  lemma WorkerCategory(skipData: bool)
    ensures forall op :: op in OpsOf(DeleteWorker(skipData)) ==> CategoryOf(op) == App(Worker)
  {
    WorkerCleanupOps(skipData);
    WorkerStepOps(skipData);
  }

  /** The first stage holds only web and api work. */
  lemma ComputeStageCategories(sel: Selection, killData: bool, listing: Listing)
    ensures forall op :: op in OpsOfAll(ComputeStage(sel, killData, listing)) ==>
              CategoryOf(op) == App(Web) || CategoryOf(op) == App(Api)
  {
    StageOps(sel, killData, listing);
    OptionalOps(sel.web, DeleteAppRunner(Web, listing.web, !killData));
    OptionalOps(sel.api, DeleteAppRunner(Api, listing.api, !killData));
    AppRunnerCategory(Web, listing.web, !killData);
    AppRunnerCategory(Api, listing.api, !killData);
  }

  /** The worker stage holds only worker work. */
  lemma WorkerStageCategories(sel: Selection, killData: bool)
    ensures forall op :: op in OpsOfAll(WorkerStage(sel, killData)) ==> CategoryOf(op) == App(Worker)
  {
    OptionalOps(sel.worker, DeleteWorker(!killData));
    WorkerCategory(!killData);
  }

  /** The last stage holds only configuration and database work. */
  lemma DataStageCategories(sel: Selection, killData: bool, listing: Listing)
    ensures forall op :: op in OpsOfAll(DataStage(sel, killData)) ==>
              CategoryOf(op) == Configuration || CategoryOf(op) == Db
  {
    StageOps(sel, killData, listing);
    OptionalOps(sel.configuration, DeleteConfiguration());
    OptionalOps(sel.db && killData, Do(DeleteDynamo));
  }

  /** An App Runner operation depends only on operations of its own component. */
  lemma DependencyStaysInComponent(c: Component, a: Op, b: Op)
    requires IsAppRunner(c) && CategoryOf(b) == App(c) && MustPrecede(a, b)
    ensures CategoryOf(a) == App(c)
  {
  }

  /** A selected App Runner branch keeps its own order and holds back nothing of other components. */
  lemma BranchGuards(c: Component, present: bool, services: seq<Service>, skipEcr: bool, a: Op, b: Op)
    requires IsAppRunner(c) && MustPrecede(a, b)
    requires a in OpsOf(DeleteAppRunner(c, services, skipEcr)) || CategoryOf(b) != App(c)
    ensures GuardedAll(Optional(present, DeleteAppRunner(c, services, skipEcr)), a, b)
  {
    var t := DeleteAppRunner(c, services, skipEcr);
    OptionalOps(present, t);
    if a in OpsOf(t) {
      AppRunnerGuards(c, services, skipEcr, a, b);
      assert [t][1..] == [];
    } else {
      AppRunnerCategory(c, services, skipEcr);
      AbsentIsGuardedAll(Optional(present, t), a, b);
    }
  }

  /** A dependency of an operation in one App Runner branch lies in that branch, not the other. */
  lemma OtherBranchUnaffected(c: Component, d: Component, services: seq<Service>, skipEcr: bool, a: Op, b: Op)
    requires IsAppRunner(c) && IsAppRunner(d) && c != d && MustPrecede(a, b)
    requires a in OpsOf(DeleteAppRunner(c, services, skipEcr))
    ensures CategoryOf(b) != App(d)
  {
    AppRunnerCategory(c, services, skipEcr);
    if CategoryOf(b) == App(d) {
      DependencyStaysInComponent(d, a, b);
    }
  }

  /** The web and api branches of the first stage each keep their own order. */
  lemma ComputeStepGuards(sel: Selection, killData: bool, listing: Listing, a: Op, b: Op)
    requires a in OpsOfAll(ComputeStep(sel, killData, listing)) && MustPrecede(a, b)
    ensures GuardedAll(ComputeStep(sel, killData, listing), a, b)
  {
    var web := Optional(sel.web, DeleteAppRunner(Web, listing.web, !killData));
    var api := Optional(sel.api, DeleteAppRunner(Api, listing.api, !killData));
    assert a in OpsOf(DeleteAppRunner(Web, listing.web, !killData)) ||
           a in OpsOf(DeleteAppRunner(Api, listing.api, !killData)) by {
      OpsOfAllAppend(web, api);
      OptionalOps(sel.web, DeleteAppRunner(Web, listing.web, !killData));
      OptionalOps(sel.api, DeleteAppRunner(Api, listing.api, !killData));
    }
    if a in OpsOf(DeleteAppRunner(Web, listing.web, !killData)) {
      OtherBranchUnaffected(Web, Api, listing.web, !killData, a, b);
    } else {
      OtherBranchUnaffected(Api, Web, listing.api, !killData, a, b);
    }
    BranchGuards(Web, sel.web, listing.web, !killData, a, b);
    BranchGuards(Api, sel.api, listing.api, !killData, a, b);
    GuardedAllAppend(web, api, a, b);
  }

  /** The first stage is guarded internally: web and api each keep their own order. */
  lemma ComputeStageGuards(sel: Selection, killData: bool, listing: Listing, a: Op, b: Op)
    requires a in OpsOfAll(ComputeStage(sel, killData, listing)) && MustPrecede(a, b)
    ensures GuardedSerial(ComputeStage(sel, killData, listing), a, b)
  {
    var step1 := ComputeStep(sel, killData, listing);
    OptionalOps(|step1| > 0, Parallel(step1));
    ComputeStepGuards(sel, killData, listing, a, b);
    var stage := ComputeStage(sel, killData, listing);
    assert stage == [Parallel(step1)];
    assert stage[1..] == [];
  }

  /** Work of the first stage keeps its order across the whole sequence of stages. */
  lemma StagesGuardCompute(sel: Selection, killData: bool, listing: Listing, a: Op, b: Op)
    requires a in OpsOfAll(ComputeStage(sel, killData, listing)) && MustPrecede(a, b)
    ensures GuardedSerial(Stages(sel, killData, listing), a, b)
  {
    var s1 := ComputeStage(sel, killData, listing);
    var s2 := WorkerStage(sel, killData);
    var s3 := DataStage(sel, killData);
    OpsOfAllAppend(s1, s2);
    GuardedSerialAppend(s1 + s2, s3, a, b);
    GuardedSerialAppend(s1, s2, a, b);
    ComputeStageGuards(sel, killData, listing, a, b);
  }

  /** Worker work keeps its order across the whole sequence of stages. */
  lemma StagesGuardWorker(sel: Selection, killData: bool, listing: Listing, a: Op, b: Op)
    requires a in OpsOfAll(WorkerStage(sel, killData)) && MustPrecede(a, b)
    ensures GuardedSerial(Stages(sel, killData, listing), a, b)
  {
    var s1 := ComputeStage(sel, killData, listing);
    var s2 := WorkerStage(sel, killData);
    var s3 := DataStage(sel, killData);
    OpsOfAllAppend(s1, s2);
    GuardedSerialAppend(s1 + s2, s3, a, b);
    GuardedSerialAppend(s1, s2, a, b);
    ComputeStageCategories(sel, killData, listing);
    WorkerStageCategories(sel, killData);
    assert b !in OpsOfAll(s1);
    AbsentIsGuardedAll(s1, a, b);
    OptionalOps(sel.worker, DeleteWorker(!killData));
    WorkerGuards(!killData, a, b);
    assert s2 == [DeleteWorker(!killData)];
    assert s2[1..] == [];
  }

  /** Configuration and database work must precede nothing. */
  lemma LastStageGuardsNothing(a: Op, b: Op)
    requires CategoryOf(a) == Configuration || CategoryOf(a) == Db
    ensures !MustPrecede(a, b)
  {
  }

  /**
   * Whenever the dependency order puts `a` before `b`, the teardown issues `b`
   * only behind a barrier that follows `a`.
   */
  lemma PlanGuards(requested: Option<seq<string>>, sel: Selection, killData: bool, listing: Listing, a: Op, b: Op)
    requires a in OpsOf(Plan(requested, sel, killData, listing)) && MustPrecede(a, b)
    ensures Guarded(Plan(requested, sel, killData, listing), a, b)
  {
    var s1 := ComputeStage(sel, killData, listing);
    var s2 := WorkerStage(sel, killData);
    var s3 := DataStage(sel, killData);
    assert Plan(requested, sel, killData, listing) == Serial(s1 + s2 + s3);
    OpsOfAllAppend(s1 + s2, s3);
    OpsOfAllAppend(s1, s2);
    if a in OpsOfAll(s3) {
      DataStageCategories(sel, killData, listing);
      LastStageGuardsNothing(a, b);
    }
    if a in OpsOfAll(s1) {
      StagesGuardCompute(sel, killData, listing, a, b);
    } else {
      assert a in OpsOfAll(s2);
      StagesGuardWorker(sel, killData, listing, a, b);
    }
  }
}
