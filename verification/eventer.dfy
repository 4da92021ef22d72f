/**
 The two filters of the GitHub eventer. Out of all deployments it reads
 upstream, the eventer acts only on those for its own environment that are
 still pending. Both filters are pure: they select, keep the input order, and
 return the surviving deployments exactly as given.
 */
module Eventer {
  import Seqs
  import opened Deployments

  /** The eventer's configuration as far as the filters see it: the name of
      the environment this agent deploys to. */
  datatype GithubEventer = GithubEventer(environment: string)

  /** Keeps the deployments whose environment equals the eventer's, compared
      exactly. */
  function FilterDeploymentsByEnvironment(e: GithubEventer, deployments: seq<Deployment>): (r: seq<Deployment>)
    ensures Seqs.IsSubsequence(r, deployments)
    ensures forall d :: d in r <==> d in deployments && d.environment == e.environment
    ensures forall d: Deployment :: d.environment == e.environment ==> multiset(r)[d] == multiset(deployments)[d]
  {
    Seqs.Filter((d: Deployment) => d.environment == e.environment, deployments)
  }

  /** Keeps the deployments that are still pending. The eventer's own
      configuration plays no part in this decision. */
  function FilterDeploymentsByStatus(deployments: seq<Deployment>): (r: seq<Deployment>)
    ensures Seqs.IsSubsequence(r, deployments)
    ensures forall d :: d in r <==> d in deployments && IsPending(d)
    ensures forall d :: IsPending(d) ==> multiset(r)[d] == multiset(deployments)[d]
  {
    Seqs.Filter((d: Deployment) => IsPending(d), deployments)
  }

  /** Whatever list is an order-preserving selection of exactly this
      environment's deployments is the environment filter's result; this is
      the shape of the deep-equality check against an expected list. */
  lemma EnvironmentFilterUnique(e: GithubEventer, deployments: seq<Deployment>, expected: seq<Deployment>)
    requires Seqs.IsSubsequence(expected, deployments)
    requires forall i :: 0 <= i < |expected| ==> expected[i].environment == e.environment
    requires forall d: Deployment :: d.environment == e.environment ==> multiset(expected)[d] == multiset(deployments)[d]
    ensures FilterDeploymentsByEnvironment(e, deployments) == expected
  {
    var p := (d: Deployment) => d.environment == e.environment;
    var r := FilterDeploymentsByEnvironment(e, deployments);
    forall i | 0 <= i < |r|
      ensures p(r[i])
    {
      assert r[i] in r;
    }
    Seqs.FilterOfUnique(p, r, expected, deployments);
  }

  /** Whatever list is an order-preserving selection of exactly the pending
      deployments is the status filter's result. */
  lemma StatusFilterUnique(deployments: seq<Deployment>, expected: seq<Deployment>)
    requires Seqs.IsSubsequence(expected, deployments)
    requires forall i :: 0 <= i < |expected| ==> IsPending(expected[i])
    requires forall d :: IsPending(d) ==> multiset(expected)[d] == multiset(deployments)[d]
    ensures FilterDeploymentsByStatus(deployments) == expected
  {
    var p := (d: Deployment) => IsPending(d);
    var r := FilterDeploymentsByStatus(deployments);
    forall i | 0 <= i < |r|
      ensures p(r[i])
    {
      assert r[i] in r;
    }
    Seqs.FilterOfUnique(p, r, expected, deployments);
  }

  /** Filtering by environment a second time changes nothing. */
  lemma EnvironmentFilterIdempotent(e: GithubEventer, deployments: seq<Deployment>)
    ensures FilterDeploymentsByEnvironment(e, FilterDeploymentsByEnvironment(e, deployments))
            == FilterDeploymentsByEnvironment(e, deployments)
  {
    Seqs.FilterIdempotent((d: Deployment) => d.environment == e.environment, deployments);
  }

  /** Filtering by status a second time changes nothing. */
  lemma StatusFilterIdempotent(deployments: seq<Deployment>)
    ensures FilterDeploymentsByStatus(FilterDeploymentsByStatus(deployments))
            == FilterDeploymentsByStatus(deployments)
  {
    Seqs.FilterIdempotent((d: Deployment) => IsPending(d), deployments);
  }

  /** The two filters can be applied in either order: both yield the
      order-preserving selection of this environment's pending deployments,
      which is the set of deployments the agent acts on. */
  lemma FiltersCommute(e: GithubEventer, deployments: seq<Deployment>)
    ensures FilterDeploymentsByStatus(FilterDeploymentsByEnvironment(e, deployments))
            == FilterDeploymentsByEnvironment(e, FilterDeploymentsByStatus(deployments))
  {
    var p := (d: Deployment) => d.environment == e.environment && IsPending(d);
    var byEnv := FilterDeploymentsByEnvironment(e, deployments);
    var byStatus := FilterDeploymentsByStatus(deployments);
    var r1 := FilterDeploymentsByStatus(byEnv);
    var r2 := FilterDeploymentsByEnvironment(e, byStatus);

    Seqs.SubsequenceTransitive(r1, byEnv, deployments);
    forall i | 0 <= i < |r1|
      ensures p(r1[i])
    {
      assert r1[i] in r1;
    }
    forall d | p(d)
      ensures multiset(r1)[d] == multiset(deployments)[d]
    {
      assert multiset(r1)[d] == multiset(byEnv)[d];
    }
    assert Seqs.IsFilterOf(p, r1, deployments);

    Seqs.SubsequenceTransitive(r2, byStatus, deployments);
    forall i | 0 <= i < |r2|
      ensures p(r2[i])
    {
      assert r2[i] in r2;
    }
    forall d | p(d)
      ensures multiset(r2)[d] == multiset(deployments)[d]
    {
      assert multiset(r2)[d] == multiset(byStatus)[d];
    }
    assert Seqs.IsFilterOf(p, r2, deployments);

    Seqs.FilterOfUnique(p, r1, r2, deployments);
  }
}
