/**
 * What the planner issues and in what order, proved against `Reference`.
 */
module TeardownProofs {
  import opened Wrappers
  import opened Operations
  import opened Tasks
  import opened Teardown
  import opened Reference

  lemma OptionalOps(present: bool, t: Task)
    ensures OpsOfAll(Optional(present, t)) == if present then OpsOf(t) else multiset{}
  {
    if present {
      assert Optional(present, t)[1..] == [];
    }
  }

  /** One delete per listed service: for every ARN, as many deletions as services carrying it. */
  lemma {:induction false} ServiceDeletesOps(c: Component, services: seq<Service>)
    ensures forall op :: OpsOfAll(ServiceDeletes(c, services))[op] ==
                (if op.DeleteService? && op.component == c then CountArn(services, op.arn) else 0)
  {
    var ts := ServiceDeletes(c, services);
    if |services| > 0 {
      assert ts[1..] == ServiceDeletes(c, services[1..]);
      ServiceDeletesOps(c, services[1..]);
    }
  }

  /**
   * deleteAppRunnerServices lists once and then issues one deletion per listed
   * service, with no deletion when the listing is empty.
   */
  lemma ServicesOps(c: Component, services: seq<Service>)
    ensures forall op :: OpsOf(DeleteAppRunnerServices(c, services))[op] ==
                (if op == ListServices(c) then 1
                 else if op.DeleteService? && op.component == c then CountArn(services, op.arn)
                 else 0)
  {
    ServiceDeletesOps(c, services);
    if |services| > 0 {
      OpsOfPair(Do(ListServices(c)), Parallel(ServiceDeletes(c, services)));
    }
  }

  /** The first stage of an App Runner teardown: listing, deletions, and the registry unless skipped. */
  lemma ServiceStageOps(c: Component, services: seq<Service>, skipEcr: bool)
    ensures OpsOfAll(ServiceStage(c, services, skipEcr)) ==
              OpsOf(DeleteAppRunnerServices(c, services))
              + (if skipEcr then multiset{} else multiset{DeleteEcr(c)})
  {
    var svc := DeleteAppRunnerServices(c, services);
    OptionalOps(!skipEcr, Do(DeleteEcr(c)));
    OpsOfAllAppend([svc], Optional(!skipEcr, Do(DeleteEcr(c))));
    OpsOfSingle(svc);
  }

  /** The first stage holds exactly the listing, the listed services' deletions and the kept-or-not registry. */
  lemma ServiceStageMembers(c: Component, services: seq<Service>, skipEcr: bool)
    ensures forall op :: op in OpsOfAll(ServiceStage(c, services, skipEcr)) <==>
              (op == ListServices(c) || (op == DeleteEcr(c) && !skipEcr) ||
               (op.DeleteService? && op.component == c && CountArn(services, op.arn) > 0))
  {
    ServiceStageOps(c, services, skipEcr);
    ServicesOps(c, services);
  }

  lemma RoleStageOps(c: Component)
    ensures OpsOfAll(RoleStage(c)) == multiset{DeleteAutoScaling(c), DeleteRole(c)}
  {
    OpsOfPair(Do(DeleteAutoScaling(c)), Do(DeleteRole(c)));
  }

  lemma AppRunnerStageOps(c: Component, services: seq<Service>, skipEcr: bool)
    ensures OpsOf(DeleteAppRunner(c, services, skipEcr)) ==
              OpsOfAll(ServiceStage(c, services, skipEcr)) + OpsOfAll(RoleStage(c))
  {
    OpsOfPair(Parallel(ServiceStage(c, services, skipEcr)), Parallel(RoleStage(c)));
  }

  lemma WorkerCleanupOps(skipData: bool)
    ensures OpsOfAll(WorkerCleanupStep(skipData)) ==
              multiset{DeleteRole(Worker)} + (if skipData then multiset{} else multiset{DeleteQueue, DeleteEcr(Worker)})
  {
    var data := if skipData then [] else [Do(DeleteQueue), Do(DeleteEcr(Worker))];
    OpsOfAllAppend([Do(DeleteRole(Worker))], data);
    OpsOfSingle(Do(DeleteRole(Worker)));
    if !skipData {
      OpsOfPair(Do(DeleteQueue), Do(DeleteEcr(Worker)));
    }
  }

  lemma WorkerStepOps(skipData: bool)
    ensures OpsOf(DeleteWorker(skipData)) == multiset{DeleteLambda} + OpsOfAll(WorkerCleanupStep(skipData))
  {
    OpsOfPair(Do(DeleteLambda), Parallel(WorkerCleanupStep(skipData)));
  }

  /** `Expected` on the operations of one App Runner component. */
  lemma ExpectedAppRunner(op: Op, c: Component, killData: bool, listing: Listing)
    requires IsAppRunner(c) && CategoryOf(op) == App(c)
    ensures Expected(op, Everything, killData, listing) ==
              (if op == ListServices(c) || op == DeleteAutoScaling(c) || op == DeleteRole(c) then 1
               else if op == DeleteEcr(c) then (if killData then 1 else 0)
               else if op.DeleteService? then CountArn(listing.For(c), op.arn)
               else 0)
  {
  }

  /** `Expected` on the operations of the worker. */
  lemma ExpectedWorker(op: Op, killData: bool, listing: Listing)
    requires CategoryOf(op) == App(Worker)
    ensures Expected(op, Everything, killData, listing) ==
              (if op == DeleteLambda || op == DeleteRole(Worker) then 1
               else if op == DeleteQueue || op == DeleteEcr(Worker) then (if killData then 1 else 0)
               else 0)
  {
  }

  lemma AppRunnerOpsAt(c: Component, killData: bool, listing: Listing, op: Op)
    requires IsAppRunner(c)
    ensures OpsOf(DeleteAppRunner(c, listing.For(c), !killData))[op] ==
              (if CategoryOf(op) == App(c) then Expected(op, Everything, killData, listing) else 0)
  {
    var n := OpsOf(DeleteAppRunner(c, listing.For(c), !killData))[op];
    assert n == (if op == ListServices(c) || op == DeleteAutoScaling(c) || op == DeleteRole(c) then 1 else 0)
                + (if op == DeleteEcr(c) && killData then 1 else 0)
                + (if op.DeleteService? && op.component == c then CountArn(listing.For(c), op.arn) else 0) by {
      ServicesOps(c, listing.For(c));
      ServiceStageOps(c, listing.For(c), !killData);
      RoleStageOps(c);
      AppRunnerStageOps(c, listing.For(c), !killData);
    }
    if CategoryOf(op) == App(c) {
      ExpectedAppRunner(op, c, killData, listing);
    }
  }

  /** The App Runner teardown of `c` issues exactly the category-`c` share of a full teardown. */
  lemma AppRunnerOps(c: Component, killData: bool, listing: Listing)
    requires IsAppRunner(c)
    ensures forall op :: OpsOf(DeleteAppRunner(c, listing.For(c), !killData))[op] ==
                (if CategoryOf(op) == App(c) then Expected(op, Everything, killData, listing) else 0)
  {
    forall op ensures OpsOf(DeleteAppRunner(c, listing.For(c), !killData))[op] ==
        (if CategoryOf(op) == App(c) then Expected(op, Everything, killData, listing) else 0)
    {
      AppRunnerOpsAt(c, killData, listing, op);
    }
  }

  /** How often the worker teardown issues each operation. */
  lemma WorkerCount(skipData: bool, op: Op)
    ensures OpsOf(DeleteWorker(skipData))[op] ==
              (if op == DeleteLambda || op == DeleteRole(Worker) then 1 else 0)
              + (if !skipData && (op == DeleteQueue || op == DeleteEcr(Worker)) then 1 else 0)
  {
    WorkerCleanupOps(skipData);
    WorkerStepOps(skipData);
  }

  lemma WorkerOpsAt(killData: bool, listing: Listing, op: Op)
    ensures OpsOf(DeleteWorker(!killData))[op] ==
              (if CategoryOf(op) == App(Worker) then Expected(op, Everything, killData, listing) else 0)
  {
    WorkerCount(!killData, op);
    if CategoryOf(op) == App(Worker) {
      ExpectedWorker(op, killData, listing);
    }
  }

  /** The worker teardown issues exactly the worker share of a full teardown. */
  lemma WorkerOps(killData: bool, listing: Listing)
    ensures forall op :: OpsOf(DeleteWorker(!killData))[op] ==
                (if CategoryOf(op) == App(Worker) then Expected(op, Everything, killData, listing) else 0)
  {
    forall op ensures OpsOf(DeleteWorker(!killData))[op] ==
        (if CategoryOf(op) == App(Worker) then Expected(op, Everything, killData, listing) else 0)
    {
      WorkerOpsAt(killData, listing, op);
    }
  }

  /** The operations of each stage, by the components it tears down. */
  lemma StageOps(sel: Selection, killData: bool, listing: Listing)
    ensures OpsOfAll(ComputeStage(sel, killData, listing)) ==
              OpsOfAll(Optional(sel.web, DeleteAppRunner(Web, listing.web, !killData)))
              + OpsOfAll(Optional(sel.api, DeleteAppRunner(Api, listing.api, !killData)))
    ensures OpsOfAll(DataStage(sel, killData)) ==
              OpsOfAll(Optional(sel.configuration, DeleteConfiguration()))
              + OpsOfAll(Optional(sel.db && killData, Do(DeleteDynamo)))
  {
    var step1 := ComputeStep(sel, killData, listing);
    var step2 := DataStep(sel, killData);
    OptionalOps(|step1| > 0, Parallel(step1));
    OptionalOps(|step2| > 0, Parallel(step2));
    OpsOfAllAppend(Optional(sel.web, DeleteAppRunner(Web, listing.web, !killData)),
                   Optional(sel.api, DeleteAppRunner(Api, listing.api, !killData)));
    OpsOfAllAppend(Optional(sel.configuration, DeleteConfiguration()),
                   Optional(sel.db && killData, Do(DeleteDynamo)));
  }


  /** A selection only filters the operations of a full teardown by category. */
  lemma ExpectedUnderSelection(op: Op, sel: Selection, killData: bool, listing: Listing)
    ensures Expected(op, sel, killData, listing) ==
              if Selects(sel, CategoryOf(op)) then Expected(op, Everything, killData, listing) else 0
  {
  }

  /** The share of one operation contributed by an App Runner component's teardown, if selected. */
  lemma SelectedAppRunnerAt(c: Component, present: bool, killData: bool, listing: Listing, op: Op)
    requires IsAppRunner(c)
    ensures OpsOfAll(Optional(present, DeleteAppRunner(c, listing.For(c), !killData)))[op] ==
              if present && CategoryOf(op) == App(c) then Expected(op, Everything, killData, listing) else 0
  {
    OptionalOps(present, DeleteAppRunner(c, listing.For(c), !killData));
    AppRunnerOpsAt(c, killData, listing, op);
  }

  /** The share of one operation contributed by the worker teardown, if selected. */
  lemma SelectedWorkerAt(present: bool, killData: bool, listing: Listing, op: Op)
    ensures OpsOfAll(Optional(present, DeleteWorker(!killData)))[op] ==
              if present && CategoryOf(op) == App(Worker) then Expected(op, Everything, killData, listing) else 0
  {
    OptionalOps(present, DeleteWorker(!killData));
    WorkerOpsAt(killData, listing, op);
  }

  lemma PlanOpsAt(requested: Option<seq<string>>, sel: Selection, killData: bool, listing: Listing, op: Op)
    requires Active(requested)
    ensures OpsOf(Plan(requested, sel, killData, listing))[op] == Expected(op, sel, killData, listing)
  {
    var compute, worker, data := ComputeStage(sel, killData, listing), WorkerStage(sel, killData), DataStage(sel, killData);
    assert OpsOf(Plan(requested, sel, killData, listing)) == OpsOfAll(compute) + OpsOfAll(worker) + OpsOfAll(data) by {
      OpsOfAllAppend(compute + worker, data);
      OpsOfAllAppend(compute, worker);
    }
    ComputeStageOps(sel, killData, listing, op);
    WorkerStageOps(sel, killData, listing, op);
    DataStageOps(sel, killData, listing, op);
  }

  /**
   * The operations of a teardown, with multiplicity: nothing at all when no
   * artifact is requested; otherwise exactly what `Expected` prescribes.
   */
  lemma PlanOps(requested: Option<seq<string>>, sel: Selection, killData: bool, listing: Listing)
    ensures !Active(requested) ==> OpsOf(Plan(requested, sel, killData, listing)) == multiset{}
    ensures Active(requested) ==> forall op ::
              OpsOf(Plan(requested, sel, killData, listing))[op] == Expected(op, sel, killData, listing)
  {
    if Active(requested) {
      forall op ensures OpsOf(Plan(requested, sel, killData, listing))[op] == Expected(op, sel, killData, listing) {
        PlanOpsAt(requested, sel, killData, listing, op);
      }
    }
  }

  /** The first stage issues exactly the rank-0 (web and api) part of the teardown. */
  lemma ComputeStageOps(sel: Selection, killData: bool, listing: Listing, op: Op)
    ensures OpsOfAll(ComputeStage(sel, killData, listing))[op] ==
              if Rank(CategoryOf(op)) == 0 then Expected(op, sel, killData, listing) else 0
  {
    ComputeStageCount(sel, killData, listing, op);
    ExpectedUnderSelection(op, sel, killData, listing);
  }

  /** How often the first stage issues each operation, by component. */
  lemma ComputeStageCount(sel: Selection, killData: bool, listing: Listing, op: Op)
    ensures OpsOfAll(ComputeStage(sel, killData, listing))[op] ==
              (if sel.web && CategoryOf(op) == App(Web) then Expected(op, Everything, killData, listing) else 0)
              + (if sel.api && CategoryOf(op) == App(Api) then Expected(op, Everything, killData, listing) else 0)
  {
    var step1 := ComputeStep(sel, killData, listing);
    OptionalOps(|step1| > 0, Parallel(step1));
    OpsOfAllAppend(Optional(sel.web, DeleteAppRunner(Web, listing.web, !killData)),
                   Optional(sel.api, DeleteAppRunner(Api, listing.api, !killData)));
    SelectedAppRunnerAt(Web, sel.web, killData, listing, op);
    SelectedAppRunnerAt(Api, sel.api, killData, listing, op);
  }

  /** The worker stage issues exactly the rank-1 (worker) part of the teardown. */
  lemma WorkerStageOps(sel: Selection, killData: bool, listing: Listing, op: Op)
    ensures OpsOfAll(WorkerStage(sel, killData))[op] ==
              if Rank(CategoryOf(op)) == 1 then Expected(op, sel, killData, listing) else 0
  {
    SelectedWorkerAt(sel.worker, killData, listing, op);
    ExpectedUnderSelection(op, sel, killData, listing);
  }

  /** The last stage issues exactly the rank-2 (configuration and database) part of the teardown. */
  lemma DataStageOps(sel: Selection, killData: bool, listing: Listing, op: Op)
    ensures OpsOfAll(DataStage(sel, killData))[op] ==
              if Rank(CategoryOf(op)) == 2 then Expected(op, sel, killData, listing) else 0
  {
    DataStageCount(sel, killData, op);
    if Rank(CategoryOf(op)) == 2 {
      assert op == DeleteConfig || op == DeleteDynamo;
    }
  }

  /** How often the last stage issues each operation. */
  lemma DataStageCount(sel: Selection, killData: bool, op: Op)
    ensures OpsOfAll(DataStage(sel, killData))[op] ==
              (if sel.configuration && op == DeleteConfig then 1 else 0)
              + (if sel.db && killData && op == DeleteDynamo then 1 else 0)
  {
    var step2 := DataStep(sel, killData);
    OptionalOps(|step2| > 0, Parallel(step2));
    OpsOfAllAppend(Optional(sel.configuration, DeleteConfiguration()), Optional(sel.db && killData, Do(DeleteDynamo)));
    OptionalOps(sel.configuration, DeleteConfiguration());
    OptionalOps(sel.db && killData, Do(DeleteDynamo));
  }
}
