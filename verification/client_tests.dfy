/**
 The rows of the eventer's table-driven tests, each stated as a lemma over
 the model. Where a row uses a particular environment name, the lemma holds
 for every name, the row's own being one instance. The status rows leave the
 environment unset; each of their lemmas holds for every environment.
 */
module ClientTests {
  import Seqs
  import opened Deployments
  import opened Eventer

  function PendingStatus(): DeploymentStatus { DeploymentStatus(Pending) }
  function SuccessStatus(): DeploymentStatus { DeploymentStatus(Success) }
  function FailureStatus(): DeploymentStatus { DeploymentStatus(Failure) }

  /** No deployments filter to no deployments, whatever the environment. */
  lemma EnvironmentFilterEmpty(env: string)
    ensures FilterDeploymentsByEnvironment(GithubEventer(env), []) == []
  {
  }

  /** A deployment for the eventer's own environment is kept, unchanged. */
  lemma EnvironmentFilterKeepsOwn(env: string, statuses: seq<DeploymentStatus>)
    ensures var d := Deployment(env, statuses);
            FilterDeploymentsByEnvironment(GithubEventer(env), [d]) == [d]
  {
  }

  /** Only this environment's deployments are kept: configured for `mine`,
      the list `[mine, other]` becomes `[mine]`. */
  lemma EnvironmentFilterKeepsOnlyOwn(mine: string, other: string)
    requires mine != other
    ensures FilterDeploymentsByEnvironment(GithubEventer(mine), [Deployment(mine, []), Deployment(other, [])])
            == [Deployment(mine, [])]
  {
  }

  /** The table's own instance of the previous row. */
  lemma EnvironmentFilterDevelopmentRow()
    ensures FilterDeploymentsByEnvironment(GithubEventer("development"),
                                           [Deployment("development", []), Deployment("production", [])])
            == [Deployment("development", [])]
  {
  }

  /** No deployments filter to no deployments. */
  lemma StatusFilterEmpty()
    ensures FilterDeploymentsByStatus([]) == []
  {
  }

  /** A deployment whose only status is `pending` is kept, unchanged. */
  lemma StatusFilterKeepsPending(env: string)
    ensures var d := Deployment(env, [PendingStatus()]);
            FilterDeploymentsByStatus([d]) == [d]
  {
    var d := Deployment(env, [PendingStatus()]);
    SingleStatusPending(env, Pending);
    Seqs.SubsequenceReflexive([d]);
    StatusFilterUnique([d], [d]);
  }

  /** A deployment whose only status is `success` is dropped. */
  lemma StatusFilterDropsSuccess(env: string)
    ensures FilterDeploymentsByStatus([Deployment(env, [SuccessStatus()])]) == []
  {
  }

  /** A deployment whose only status is `failure` is dropped. */
  lemma StatusFilterDropsFailure(env: string)
    ensures FilterDeploymentsByStatus([Deployment(env, [FailureStatus()])]) == []
  {
  }

  /** A deployment that was pending and then succeeded is dropped. */
  lemma StatusFilterDropsPendingThenSuccess(env: string)
    ensures FilterDeploymentsByStatus([Deployment(env, [PendingStatus(), SuccessStatus()])]) == []
  {
    var d := Deployment(env, [PendingStatus(), SuccessStatus()]);
    assert d.statuses[1].state == Success;
    StatusFilterUnique([d], []);
  }

  /** A deployment that was pending and then failed is dropped. */
  lemma StatusFilterDropsPendingThenFailure(env: string)
    ensures FilterDeploymentsByStatus([Deployment(env, [PendingStatus(), FailureStatus()])]) == []
  {
    var d := Deployment(env, [PendingStatus(), FailureStatus()]);
    assert d.statuses[1].state == Failure;
    StatusFilterUnique([d], []);
  }
}
