# draughtsman eventer filters in Dafny

draughtsman is an in-cluster agent that installs Helm releases when
deployments are created through the GitHub deployments API. Its GitHub
eventer reads the deployment records of the configured projects. It then
narrows them to the ones this agent must act on with two pure filters:

- `filterDeploymentsByEnvironment` keeps the deployments whose `Environment`
  equals the eventer's configured `environment`, compared exactly;
- `filterDeploymentsByStatus` keeps the deployments that are still pending.
  A deployment is pending when its status history has a `pending` entry and
  no `success` or `failure` entry. A terminal entry wins even when the
  history also holds `pending`.

This project models those two filters and the records they read:

- `deployments.dfy` (module `Deployments`): the `State`, `DeploymentStatus` and
  `Deployment` records, and the predicate `IsPending`.
- `seqs.dfy` (module `Seqs`): order-preserving selection, defined once.
  It provides `IsSubsequence`, the description `IsFilterOf`, a `Filter`
  function, and the lemma that the filter is the only sequence meeting that
  description.
- `eventer.dfy` (module `Eventer`): the two filters as pure functions over
  `seq<Deployment>`, with their general properties.
- `client_tests.dfy` (module `ClientTests`): one lemma per row of the
  eventer's table-driven tests. Each row is generalised over the names it
  uses wherever the row's outcome does not depend on them.

The tests compare the whole returned list with the expected list by deep
equality. The lemmas `EnvironmentFilterUnique` and `StatusFilterUnique` state
when such a comparison succeeds: the expected list must be an order-preserving
selection of exactly the kept deployments, each unchanged.

The filters' behaviour is specified by the table-driven tests in
`service/eventer/github/client_test.go`. Three cases the tables do not
cover are modelling decisions, not consequences of the tests:

- A deployment with an empty status history is **not** pending. This is
  stated in `IsPending` and recorded by the lemma
  `Deployments.EmptyHistoryIsNotPending`.
- Kept deployments stay in their input order. Every filter result is a
  subsequence of its input.
- The status filter ignores the deployments' environments. Every status
  row leaves `Environment` unset, which equals the unset environment of
  the `GithubEventer{}` those rows use. A status filter that also compared
  environments would pass the same rows.

## Model

| member | source | states |
|---|---|---|
| Eventer.FilterDeploymentsByEnvironment | service/eventer/github/client_test.go:9-59 | The result is an order-preserving subsequence of the input. A deployment is in the result exactly when it is in the input and its environment equals the eventer's. Each such deployment occurs as often as in the input, so none is lost or duplicated. |
| Eventer.FilterDeploymentsByStatus | service/eventer/github/client_test.go:63-154 | The result is an order-preserving subsequence of the input. A deployment is in the result exactly when it is in the input and is pending. Each pending deployment occurs as often as in the input. |
| Eventer.EnvironmentFilterUnique | service/eventer/github/client_test.go:51-58 | The deep-equality check succeeds for any expected list that keeps input order, holds only this environment's deployments, and holds each of them as often as the input does. |
| Eventer.StatusFilterUnique | service/eventer/github/client_test.go:146-153 | The deep-equality check succeeds for any expected list that keeps input order, holds only pending deployments, and holds each of them as often as the input does. |
| Eventer.EnvironmentFilterIdempotent | service/eventer/github/client_test.go:51 | Running the environment filter over its own result returns that result unchanged. |
| Eventer.StatusFilterIdempotent | service/eventer/github/client_test.go:146 | Running the status filter over its own result returns that result unchanged. |
| Eventer.FiltersCommute | service/eventer/github/client_test.go:144-146 | Applying the status filter before or after the environment filter gives the same list. This rests on a modelling decision: the status filter ignores environments, which the tests do not settle, because every status row's deployments have the same unset environment as the eventer. |
| Deployments.IsPending | service/eventer/github/client_test.go:74-140 | A deployment is pending when some status entry is `pending` and no entry is `success` or `failure`, wherever the entries sit. Its contract states that a pending deployment has a non-empty history and no terminal entry at any position. The non-empty part is a modelling decision. |
| Deployments.EmptyHistoryIsNotPending | service/eventer/github/client_test.go:74-140 | A deployment with no status entries is not pending. This records a modelling decision: none of the status rows has an empty history. |
| Deployments.PendingIffAllPending | service/eventer/github/client_test.go:74-140 | A deployment is pending exactly when every entry of its history is `pending` and the history is non-empty. The most recent entry of a pending deployment is therefore `pending`. The rows cover the all-`pending` part. The non-empty part is the empty-history modelling decision, which no row exercises. |
| Deployments.SingleStatusPending | service/eventer/github/client_test.go:74-114 | A one-entry history is pending if and only if its entry is `pending`. |
| Deployments.TerminalIsSticky | service/eventer/github/client_test.go:116-140 | Once a history holds `success` or `failure`, no entries appended later make the deployment pending. |
| ClientTests.EnvironmentFilterEmpty | service/eventer/github/client_test.go:15-20 | An empty list filters to an empty list for every configured environment. |
| ClientTests.EnvironmentFilterKeepsOwn | service/eventer/github/client_test.go:22-31 | A single deployment for the configured environment comes back unchanged, whatever its statuses. |
| ClientTests.EnvironmentFilterKeepsOnlyOwn | service/eventer/github/client_test.go:33-43 | Configured for `mine`, the list `[mine, other]` with `other != mine` becomes `[mine]`. |
| ClientTests.EnvironmentFilterDevelopmentRow | service/eventer/github/client_test.go:33-43 | Configured for `development`, `[development, production]` becomes `[development]`. |
| ClientTests.StatusFilterEmpty | service/eventer/github/client_test.go:68-72 | An empty list filters to an empty list. |
| ClientTests.StatusFilterKeepsPending | service/eventer/github/client_test.go:74-90 | A deployment whose only status is `pending` comes back unchanged. |
| ClientTests.StatusFilterDropsSuccess | service/eventer/github/client_test.go:92-102 | A deployment whose only status is `success` is dropped. |
| ClientTests.StatusFilterDropsFailure | service/eventer/github/client_test.go:104-114 | A deployment whose only status is `failure` is dropped. |
| ClientTests.StatusFilterDropsPendingThenSuccess | service/eventer/github/client_test.go:116-127 | A deployment with history `[pending, success]` is dropped. |
| ClientTests.StatusFilterDropsPendingThenFailure | service/eventer/github/client_test.go:129-140 | A deployment with history `[pending, failure]` is dropped. |

## Left out

- `main.go` as a whole. It is process bootstrap: it builds the logger, HTTP client, Kubernetes client, Slack client, service, storage and server, and registers command-line flags. None of that is filtering logic.
- The service boot loop started at `main.go:153` and the deployer it drives. Its code is not part of this model. It is a polling and install cycle with I/O to GitHub, Helm, Kubernetes and Slack.
- Polling the GitHub API, sorting deployments by creation time, and writing statuses back upstream. These are network I/O. Neither filter reads the records' other fields (id, sha, creation time), and both return elements unchanged, so those fields would not change any property stated here.
- Status values other than `pending`, `success` and `failure`. The tests use only these three, so `State` has exactly three cases.
- The eventer receiver of `filterDeploymentsByStatus`. The tests call it on a zero-valued `GithubEventer{}` with no environment set. The model takes it to depend on the deployment list alone. This is a modelling decision, since every status row's deployments have the same unset environment.
- Go's distinction between a nil slice and an empty slice, which `reflect.DeepEqual` observes. Results are Dafny sequences, where empty is just `[]`.
