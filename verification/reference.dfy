/**
 * An independent description of what a teardown must do: how often each
 * operation is issued, and which operation must have settled before which.
 * The planner in `Teardown` is proved against these definitions.
 */
module Reference {
  import opened Operations
  import opened Teardown

  /** Every category selected (what `all` expands to). */
  const Everything := Selection(true, true, true, true, true)

  /** How many listed services carry the given ARN (a missing ARN counts as ""). */
  function CountArn(services: seq<Service>, arn: string): (n: nat)
  {
    if |services| == 0 then 0
    else (if ArnOf(services[0]) == arn then 1 else 0) + CountArn(services[1..], arn)
  }

  /**
   * How many times a teardown of the selected categories issues `op`:
   * nothing for an unselected category or, without `--kill-data`, for durable
   * data; one deletion per listed service; every other operation of a
   * selected category exactly once.
   */
  function Expected(op: Op, sel: Selection, killData: bool, listing: Listing): (n: nat)
  {
    if !Selects(sel, CategoryOf(op)) || (IsDurable(op) && !killData) then 0
    else
      match op
      case ListServices(c) => if IsAppRunner(c) then 1 else 0
      case DeleteService(c, arn) => if IsAppRunner(c) then CountArn(listing.For(c), arn) else 0
      case DeleteAutoScaling(c) => if IsAppRunner(c) then 1 else 0
      case _ => 1
  }

  /** `op` is one of the first-stage operations of App Runner component `c`. */
  predicate InServiceStage(op: Op, c: Component)
  {
    IsAppRunner(c) && (op == ListServices(c) || op == DeleteEcr(c) || (op.DeleteService? && op.component == c))
  }

  /**
   * The awaited stage of the command that handles a category: web and api
   * first, then the worker, then configuration and the database.
   */
  function Rank(cat: Category): (rank: nat)
  {
    match cat
    case App(Web) => 0
    case App(Api) => 0
    case App(Worker) => 1
    case Configuration => 2
    case Db => 2
  }

  /**
   * The dependency order of a teardown: `a` must have settled, successfully,
   * before `b` may start.
   */
  predicate MustPrecede(a: Op, b: Op)
  {
    // Categories of a lower rank go first.
    || Rank(CategoryOf(a)) < Rank(CategoryOf(b))
    // Inside one App Runner component: the listing before the service
    // deletions, and the first stage before autoscaling configuration and role.
    || (a.ListServices? && b.DeleteService? && a.component == b.component)
    || ((b.DeleteAutoScaling? || b.DeleteRole?) && InServiceStage(a, b.component))
    // Inside the worker: the function before its role, queue and registry.
    || (a == DeleteLambda && (b == DeleteRole(Worker) || b == DeleteQueue || b == DeleteEcr(Worker)))
  }

  /** No operation in `failing` must precede `b`: nothing that fails can hold `b` back. */
  predicate Unblocked(b: Op, failing: set<Op>)
  {
    forall a :: a in failing ==> !MustPrecede(a, b)
  }
}
