/**
 * The deletion operations the teardown command can issue, as abstract tags.
 * Each tag stands for one awaited call into a cloud client; names of the
 * resources (repository, role, policy, function) are derived per component
 * and are not modelled beyond the component that owns them.
 */
module Operations {
  import opened Wrappers

  /** The deployable components that own cloud resources. */
  datatype Component = Web | Api | Worker

  /** Web and Api run on App Runner; the worker is a serverless function. */
  predicate IsAppRunner(c: Component) {
    c == Web || c == Api
  }

  /** The artifact categories a caller can select (the `all` token aside). */
  datatype Category = App(component: Component) | Configuration | Db

  /** One App Runner service as reported by the service listing. */
  datatype Service = Service(arn: Option<string>, name: string)

  /** The ARN handed to the service deletion: the listed one, or "" when it is missing. */
  function ArnOf(s: Service): (arn: string)
    ensures s.arn.Some? ==> arn == s.arn.value
    ensures s.arn.None? ==> arn == ""
  {
    s.arn.GetOr("")
  }

  datatype Op =
    | ListServices(component: Component)               // listLetsGoAppRunnerServices
    | DeleteService(component: Component, arn: string) // deleteAppRunnerService
    | DeleteEcr(component: Component)                  // deleteRepository
    | DeleteAutoScaling(component: Component)          // deleteUnusedAutoScalingConfigurations
    | DeleteRole(component: Component)                 // deleteRole (role and its policy)
    | DeleteLambda                                     // deleteLambda
    | DeleteQueue                                      // deleteQueue
    | DeleteConfig                                     // deleteConfig
    | DeleteDynamo                                     // deleteDynamo

  /** The artifact category on whose behalf an operation is issued. */
  function CategoryOf(op: Op): (cat: Category)
  {
    match op
    case ListServices(c) => App(c)
    case DeleteService(c, _) => App(c)
    case DeleteEcr(c) => App(c)
    case DeleteAutoScaling(c) => App(c)
    case DeleteRole(c) => App(c)
    case DeleteLambda => App(Worker)
    case DeleteQueue => App(Worker)
    case DeleteConfig => Configuration
    case DeleteDynamo => Db
  }

  /** Operations on durable data: kept unless the caller opts into deleting it. */
  predicate IsDurable(op: Op) {
    op.DeleteEcr? || op == DeleteQueue || op == DeleteDynamo
  }
}
