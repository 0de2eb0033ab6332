# Teardown planner of `rm`

The `rm` command of the ops tool (`apps/ops/src/commands/rm.ts`) removes the
selected artifacts of a deployment from AWS: the `web` and `api` App Runner
components, the `worker` (a Lambda function with its queue), the
`configuration` keys and the `db` table. Durable data (images, the queue, the
table) goes only with `--kill-data`. The command is a tree of awaited calls and
`Promise.all` joins. That tree fixes which deletions are issued and which must
have succeeded before others may start.

This project models that planner in Dafny and proves what it issues, in which
order, and what a failing deletion holds back.

- `Operations`: one operation tag per AWS call the command awaits, and the
  category each belongs to. The listing of App Runner services
  (`ListServices`) is an operation too, because an awaited call that rejects
  stops its caller.
- `Tasks`: a task is one operation (`Do`), a sequence of awaited steps
  (`Serial`), or a `Promise.all` join (`Parallel`). `Run(t, failing)`
  interprets a task against the set of operations that reject.
  - A serial task stops at the first step that rejects.
  - A join runs every branch to its own end, because all the promises were
    created before the join, and rejects when any branch does.
  - `Guarded(t, a, b)` says that every occurrence of `b` sits in an awaited
    step after one containing `a`. `Barrier` proves the consequence: `b` is
    issued only after `a` was issued and succeeded.
- `Teardown`: one function per async function of the command.
  - `DeleteAppRunnerServices`, `DeleteAppRunner`, `DeleteConfiguration` and
    `DeleteWorker` mirror the helpers.
  - `Plan` mirrors the action handler: nothing when no artifact is given;
    otherwise web and api together, then the worker, then configuration and
    the database.
  - The selection (after `all` is expanded) and the service listing are
    inputs.
- `Reference`: an independent description of the same teardown.
  - `Expected(op, …)` gives how many times each operation must be issued.
  - `MustPrecede(a, b)` gives the dependency order: a lower `Rank` of
    category first, the listing before service deletions, the first App
    Runner stage before autoscaling and role, and the function before the
    worker's role, queue and registry.
- The proofs connect the two descriptions:
  - `TeardownProofs`: exact counts.
  - `OrderProofs`: every dependency is behind a barrier.
  - `IsolationProofs`: nothing else is held back.
  - `FailureProofs`: the resulting iff on what a run issues.
  - `CommandProofs`: consequences a user can rely on.

Two consequences of the code are worth spelling out:
- **Failures abort.** An awaited call or `Promise.all` that rejects throws
  out of the enclosing async function (rm.ts:37, 63, 90, 103, 122, 144, 208,
  211, 240), so no later step of that function starts. Concurrent siblings
  that were already created still run to their ends. So a failing web
  deletion does not stop api's teardown, but it does stop the worker,
  configuration and database stages.
- **Images are kept for every component without `--kill-data`**
  (rm.ts:80, 133, 193, 203, 215), as the warning at rm.ts:180 says.

## Model

| member | source | states |
|---|---|---|
| `Operations.ArnOf` | apps/ops/src/commands/rm.ts:56 | a service is deleted by its ARN, and by the empty string when the listing reports none |
| `TeardownProofs.ServiceDeletesOps` | apps/ops/src/commands/rm.ts:49-62 | the fan-out issues, for every ARN, one deletion per listed service carrying it, and nothing else |
| `TeardownProofs.ServicesOps` | apps/ops/src/commands/rm.ts:30-64 | deleting a component's services lists exactly once, then deletes each listed service; with an empty listing it deletes nothing |
| `TeardownProofs.ServiceStageMembers` | apps/ops/src/commands/rm.ts:78-89 | the first App Runner stage holds exactly the listing, the listed services' deletions, and the registry unless it is kept |
| `TeardownProofs.AppRunnerOps` | apps/ops/src/commands/rm.ts:66-105 | an App Runner teardown issues exactly its component's share of `Expected`, counted with multiplicity |
| `TeardownProofs.WorkerOps` | apps/ops/src/commands/rm.ts:114-145 | the worker teardown issues exactly the worker's share of `Expected` |
| `TeardownProofs.ComputeStageOps` | apps/ops/src/commands/rm.ts:186-209 | the first awaited stage issues exactly the web and api part of `Expected`, and nothing of any other category |
| `TeardownProofs.WorkerStageOps` | apps/ops/src/commands/rm.ts:210-217 | the second awaited stage issues exactly the worker part of `Expected`, and nothing else |
| `TeardownProofs.DataStageOps` | apps/ops/src/commands/rm.ts:218-241 | the last awaited stage issues exactly the configuration and database part of `Expected`, and nothing else |
| `TeardownProofs.PlanOps` | apps/ops/src/commands/rm.ts:164-241 | the command issues nothing without artifacts, and otherwise every operation exactly as often as `Expected` prescribes |
| `Tasks.RunFacts` | apps/ops/src/commands/rm.ts:49-63 | a run issues only the task's operations, fails exactly when an issued operation failed, and issues all of them when it succeeds |
| `Tasks.Barrier` | apps/ops/src/commands/rm.ts:78-103 | an operation behind an awaited step is issued only after the guarding operation was issued and succeeded |
| `Tasks.FailureHoldsBack` | apps/ops/src/commands/rm.ts:90-103 | a failing operation holds back everything it guards |
| `Tasks.CleanRun` | apps/ops/src/commands/rm.ts:78-103 | when none of its operations fails, a task issues all of them and succeeds |
| `Tasks.RunLocal` | apps/ops/src/commands/rm.ts:186-241 | a run depends only on which of its own operations fail |
| `OrderProofs.ServiceDeletionAfterListing` | apps/ops/src/commands/rm.ts:37-63 | every service deletion waits for the listing of its component |
| `OrderProofs.AppRunnerGuards` | apps/ops/src/commands/rm.ts:78-103 | inside an App Runner teardown, every operation waits for each operation that must precede it |
| `OrderProofs.WorkerGuards` | apps/ops/src/commands/rm.ts:122-144 | the worker's role, queue and registry wait for the function deletion |
| `OrderProofs.AppRunnerCategory` | apps/ops/src/commands/rm.ts:66-105 | an App Runner teardown touches only its own component |
| `OrderProofs.WorkerCategory` | apps/ops/src/commands/rm.ts:114-145 | the worker teardown touches only the worker |
| `OrderProofs.ComputeStageCategories` | apps/ops/src/commands/rm.ts:186-209 | the first stage holds only web and api work |
| `OrderProofs.WorkerStageCategories` | apps/ops/src/commands/rm.ts:210-217 | the second stage holds only worker work |
| `OrderProofs.DataStageCategories` | apps/ops/src/commands/rm.ts:218-241 | the last stage holds only configuration and database work |
| `OrderProofs.ComputeStageGuards` | apps/ops/src/commands/rm.ts:186-209 | web and api, run side by side, each keep their own internal order |
| `OrderProofs.PlanGuards` | apps/ops/src/commands/rm.ts:164-241 | in the whole command, every planned operation guards each operation it must precede |
| `IsolationProofs.ServicesIndependent` | apps/ops/src/commands/rm.ts:30-64 | the listing is always issued, and a service deletion is held back only by a failing listing |
| `IsolationProofs.AppRunnerIndependent` | apps/ops/src/commands/rm.ts:66-105 | a sufficient condition: an App Runner operation is issued when no failing operation, of any component, must precede it |
| `IsolationProofs.AppRunnerIssued` | apps/ops/src/commands/rm.ts:66-105 | an App Runner operation is issued if and only if it is planned and none of that teardown's own failing operations must precede it |
| `IsolationProofs.WorkerIndependent` | apps/ops/src/commands/rm.ts:114-145 | a sufficient condition: a worker operation is issued when no failing operation, of any component, must precede it |
| `IsolationProofs.WorkerIssued` | apps/ops/src/commands/rm.ts:114-145 | a worker operation is issued if and only if it is planned and is either the function deletion or comes after a function deletion that did not fail |
| `IsolationProofs.WorkerIssuedOnly` | apps/ops/src/commands/rm.ts:122-144 | a failing function deletion keeps the role, queue and registry deletions from being issued |
| `IsolationProofs.WorkerIssuedAll` | apps/ops/src/commands/rm.ts:122-144 | the function deletion is always issued, and every other planned worker deletion is issued once it succeeds |
| `IsolationProofs.ComputeStepIndependent` | apps/ops/src/commands/rm.ts:186-208 | a failure in web holds back nothing of api, and back |
| `IsolationProofs.DataStageRuns` | apps/ops/src/commands/rm.ts:218-241 | configuration and database deletions, once started, are all issued |
| `IsolationProofs.PlanIndependent` | apps/ops/src/commands/rm.ts:164-241 | a planned operation is issued unless some failing operation must precede it |
| `FailureProofs.PlanBarrier` | apps/ops/src/commands/rm.ts:164-241 | when an operation is issued, every planned operation that must precede it was issued and succeeded |
| `FailureProofs.PlanIssued` | apps/ops/src/commands/rm.ts:164-241 | an operation is issued if and only if it is planned and no failing planned operation must precede it |
| `FailureProofs.SingleFailure` | apps/ops/src/commands/rm.ts:164-241 | one failing planned operation holds back exactly the planned operations that depend on it |
| `FailureProofs.PlanOutcome` | apps/ops/src/commands/rm.ts:164-245 | the command completes if and only if no planned operation fails, and then it has issued exactly `Expected` |
| `CommandProofs.NothingRequested` | apps/ops/src/commands/rm.ts:165-171 | with a missing or empty artifact list nothing is issued and the command completes |
| `CommandProofs.SelectionGating` | apps/ops/src/commands/rm.ts:186-238 | an unselected category issues nothing |
| `CommandProofs.DurabilityGating` | apps/ops/src/commands/rm.ts:177-183 | without `--kill-data` no registry, queue or table is deleted, whatever is selected |
| `CommandProofs.DatabaseAloneKeepsData` | apps/ops/src/commands/rm.ts:222-241 | selecting only `db` without `--kill-data` issues no operation at all |
| `CommandProofs.AlwaysDeleted` | apps/ops/src/commands/rm.ts:91-132 | a selected App Runner component always lists its services and deletes its autoscaling configuration and role once; the worker always loses its function and role |
| `CommandProofs.RegistryDeletedWithData` | apps/ops/src/commands/rm.ts:80-88 | with `--kill-data`, a selected component's registry is deleted exactly once |
| `CommandProofs.CountArnListed` | apps/ops/src/commands/rm.ts:50-62 | a deletion for an ARN is counted exactly when some listed service carries that ARN |
| `CommandProofs.CountArnDistinct` | apps/ops/src/commands/rm.ts:50-62 | when the listed ARNs are distinct, each is deleted exactly once |
| `CommandProofs.ServiceFanOut` | apps/ops/src/commands/rm.ts:42-63 | a selected App Runner component deletes exactly its listed ARNs (none for an empty listing), once each when they are distinct |
| `CommandProofs.ComputeSiblingsIndependent` | apps/ops/src/commands/rm.ts:186-209 | a failing web operation holds back no api operation, and back |
| `CommandProofs.DataSiblingsIndependent` | apps/ops/src/commands/rm.ts:218-241 | configuration and database deletion do not hold each other back |
| `CommandProofs.LaterStagesHeldBack` | apps/ops/src/commands/rm.ts:207-241 | a failure in one stage of the command stops every later stage |

## Left out

- The AWS clients (App Runner, ECR, IAM, DynamoDB, SQS, Lambda, SSM) are not part of this model. Each call is an operation tag whose only outcome is success or rejection.
- Failure is given per operation tag. Two deletions of services with the same ARN therefore succeed or fail together.
- Timing and interleaving are not modelled: `issued` is a multiset. Order is stated through the awaited steps (`Guarded`), not through timestamps.
- What happens to the process after the command's promise rejects depends on the caller, which is not part of this model. The model records only that the run did not complete. It assumes the process keeps running until every promise already started has settled. If the process ended at the first unhandled rejection, work that would only start later would never be issued. Examples are api's autoscaling and role stage after web's first stage rejects, and web's service deletions after web's registry deletion rejects while the listing is pending. `PlanIssued`, `PlanIndependent`, `ComputeStepIndependent` and `ComputeSiblingsIndependent` rely on this assumption.
- `getArtifacts` and `createLogger` from `./defaults` are not part of this model. The selection, with `all` already expanded, is an input. The returned artifact list is modelled as `Option<seq<string>>`; only its emptiness matters (rm.ts:165-166).
- `rm -a` given without any component is not modelled. Option parsing then makes `options.artifact` the value `true`, not a list. The early return at rm.ts:166 is skipped, and the `sort()` at rm.ts:174 throws before any deletion, so the command rejects having issued nothing. `NothingRequested` covers only a missing or empty list.
- The listing is an input (`Listing`): the services `listLetsGoAppRunnerServices` would report for web and for api.
- Option parsing and the `choices` validation (rm.ts:147-163) are not modelled.
- Console output, the logger messages and the "Removed:" summary (rm.ts:242-244) are reporting only.
- Resource names derived from the settings objects (repository, role, policy, autoscaling configuration, function names) are not modelled. Each is identified by its component.
- The deleted-key count returned by `deleteConfig` (rm.ts:110-111) is only logged and is not modelled.
