/**
 * The teardown planner of the `rm` command: which deletions are issued for a
 * selection of artifacts and the `--kill-data` flag, and how they are grouped
 * behind barriers. Each planner mirrors one async function of the command,
 * with every awaited call replaced by the operation tag it issues.
 */
module Teardown {
  import opened Wrappers
  import opened Operations
  import opened Tasks

  /** Which artifact categories are selected, once `all` has been expanded. */
  datatype Selection = Selection(web: bool, api: bool, db: bool, worker: bool, configuration: bool)

  predicate Selects(sel: Selection, cat: Category)
  {
    match cat
    case App(Web) => sel.web
    case App(Api) => sel.api
    case App(Worker) => sel.worker
    case Configuration => sel.configuration
    case Db => sel.db
  }

  /** What the service listing reports for each App Runner component. */
  datatype Listing = Listing(web: seq<Service>, api: seq<Service>)
  {
    function For(c: Component): (found: seq<Service>)
    {
      match c
      case Web => web
      case Api => api
      case Worker => []
    }
  }

  /** `[t]` when `present`, else nothing: the `...(cond ? [] : [x])` spread. */
  function Optional(present: bool, t: Task): (steps: seq<Task>)
  {
    if present then [t] else []
  }

  /** One concurrent deletion per listed service, by its ARN or "". */
  function ServiceDeletes(c: Component, services: seq<Service>): (deletes: seq<Task>)
  {
    seq(|services|, i requires 0 <= i < |services| => Do(DeleteService(c, ArnOf(services[i]))))
  }

  /** deleteAppRunnerServices: list the services, then delete them all concurrently. */
  function DeleteAppRunnerServices(c: Component, services: seq<Service>): (task: Task)
  {
    if |services| == 0 then Do(ListServices(c))
    else Serial([Do(ListServices(c)), Parallel(ServiceDeletes(c, services))])
  }

  /** `stage1` of deleteAppRunner: the services and, unless skipped, the image registry. */
  function ServiceStage(c: Component, services: seq<Service>, skipEcr: bool): (steps: seq<Task>)
  {
    [DeleteAppRunnerServices(c, services)] + Optional(!skipEcr, Do(DeleteEcr(c)))
  }

  /** `stage2` of deleteAppRunner: the autoscaling configuration and the role. */
  function RoleStage(c: Component): (steps: seq<Task>)
  {
    [Do(DeleteAutoScaling(c)), Do(DeleteRole(c))]
  }

  /** deleteAppRunner: the first stage concurrently, then, behind a barrier, the second. */
  function DeleteAppRunner(c: Component, services: seq<Service>, skipEcr: bool): (task: Task)
  {
    Serial([Parallel(ServiceStage(c, services, skipEcr)), Parallel(RoleStage(c))])
  }

  /** deleteConfiguration: one call removing every configuration key. */
  function DeleteConfiguration(): (task: Task)
  {
    Do(DeleteConfig)
  }

  /** `step2` of deleteWorker: the role and, unless data is kept, the queue and the registry. */
  function WorkerCleanupStep(skipData: bool): (branches: seq<Task>)
  {
    [Do(DeleteRole(Worker))] + (if skipData then [] else [Do(DeleteQueue), Do(DeleteEcr(Worker))])
  }

  /** deleteWorker: the function first, then its cleanup step concurrently. */
  function DeleteWorker(skipData: bool): (task: Task)
  {
    Serial([Do(DeleteLambda), Parallel(WorkerCleanupStep(skipData))])
  }

  /** The `step1` array of the `rm` action: web and api, each if selected. */
  function ComputeStep(sel: Selection, killData: bool, listing: Listing): (branches: seq<Task>)
  {
    Optional(sel.web, DeleteAppRunner(Web, listing.web, !killData))
    + Optional(sel.api, DeleteAppRunner(Api, listing.api, !killData))
  }

  /** The `step2` array of the `rm` action: configuration, and the database only with `--kill-data`. */
  function DataStep(sel: Selection, killData: bool): (branches: seq<Task>)
  {
    Optional(sel.configuration, DeleteConfiguration())
    + Optional(sel.db && killData, Do(DeleteDynamo))
  }

  /** Web and api together, awaited only when the array is not empty. */
  function ComputeStage(sel: Selection, killData: bool, listing: Listing): (stage: seq<Task>)
  {
    var step1 := ComputeStep(sel, killData, listing);
    Optional(|step1| > 0, Parallel(step1))
  }

  /** The worker, awaited on its own. */
  function WorkerStage(sel: Selection, killData: bool): (stage: seq<Task>)
  {
    Optional(sel.worker, DeleteWorker(!killData))
  }

  /** Configuration and database together, awaited only when the array is not empty. */
  function DataStage(sel: Selection, killData: bool): (stage: seq<Task>)
  {
    var step2 := DataStep(sel, killData);
    Optional(|step2| > 0, Parallel(step2))
  }

  /**
   * The awaited stages of the `rm` action: web and api together, then the
   * worker, then configuration and the database. Every component keeps its
   * images unless `--kill-data` is given.
   */
  function Stages(sel: Selection, killData: bool, listing: Listing): (stages: seq<Task>)
  {
    ComputeStage(sel, killData, listing) + WorkerStage(sel, killData) + DataStage(sel, killData)
  }

  /** The `rm` action: nothing at all when no artifact is requested, else the stages in order. */
  function Plan(requested: Option<seq<string>>, sel: Selection, killData: bool, listing: Listing): (plan: Task)
  {
    var artifact := requested.GetOr([]);
    if |artifact| == 0 then Serial([])
    else Serial(Stages(sel, killData, listing))
  }

  /** Whether the command goes past its early return. */
  predicate Active(requested: Option<seq<string>>)
  {
    |requested.GetOr([])| > 0
  }
}
