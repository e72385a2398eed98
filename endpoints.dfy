/**
 * The three REST endpoint paths of the cleaner, built by plain string
 * concatenation from the API base, the organization, the repository and
 * the branch (query strings are added separately and are not modelled).
 */
module Endpoints {
  import opened Common

  const BaseApi: string := "https://api.bitbucket.org/2.0"
  const RepositoriesSegment: string := "/repositories/"
  const BranchesSuffix: string := "/refs/branches"

  /** GET target listing the organization's repositories. */
  function RepositoriesPath(organization: string): string
  {
    BaseApi + RepositoriesSegment + organization
  }

  /** GET target listing the branches of one repository. */
  function BranchesPath(organization: string, repo: string): string
  {
    RepositoriesPath(organization) + "/" + repo + BranchesSuffix
  }

  /** DELETE target of one branch. */
  function DeletePath(organization: string, repo: string, branch: string): string
  {
    BranchesPath(organization, repo) + "/" + branch
  }

  /** Recovers the organization from a repositories path. */
  function OrganizationOf(url: string): (r: Option<string>)
  {
    var head := BaseApi + RepositoriesSegment;
    if head <= url then Some(url[|head|..]) else None
  }

  /** Recovers the repository from a branch-list path of a known organization. */
  function RepositoryOf(organization: string, url: string): (r: Option<string>)
  {
    var head := RepositoriesPath(organization) + "/";
    if |head| + |BranchesSuffix| <= |url| && head <= url
       && url[|url| - |BranchesSuffix|..] == BranchesSuffix
    then Some(url[|head|..|url| - |BranchesSuffix|])
    else None
  }

  /** Recovers the branch from a delete path of a known organization and repository. */
  function BranchOf(organization: string, repo: string, url: string): (r: Option<string>)
  {
    var head := BranchesPath(organization, repo) + "/";
    if head <= url then Some(url[|head|..]) else None
  }

  /** The organization is read back from its repositories path, and only from it. */
  lemma OrganizationRoundTrip(organization: string, url: string)
    ensures OrganizationOf(RepositoriesPath(organization)) == Some(organization)
    ensures OrganizationOf(url) == Some(organization) <==> url == RepositoriesPath(organization)
  {
  }

  /** The repository is read back from its branch-list path, and only from it. */
  lemma RepositoryRoundTrip(organization: string, repo: string, url: string)
    ensures RepositoryOf(organization, BranchesPath(organization, repo)) == Some(repo)
    ensures RepositoryOf(organization, url) == Some(repo) <==> url == BranchesPath(organization, repo)
  {
  }

  /** The branch is read back from its delete path, and only from it. */
  lemma BranchRoundTrip(organization: string, repo: string, branch: string, url: string)
    ensures BranchOf(organization, repo, DeletePath(organization, repo, branch)) == Some(branch)
    ensures BranchOf(organization, repo, url) == Some(branch) <==> url == DeletePath(organization, repo, branch)
  {
  }

  /**
   * Distinct repositories get distinct branch-list path strings, and within
   * one repository distinct branches get distinct delete path strings.
   */
  lemma PathsInjective(organization: string, r1: string, r2: string, b1: string, b2: string)
    ensures BranchesPath(organization, r1) == BranchesPath(organization, r2) ==> r1 == r2
    ensures DeletePath(organization, r1, b1) == DeletePath(organization, r1, b2) ==> b1 == b2
  {
    RepositoryRoundTrip(organization, r1, BranchesPath(organization, r2));
    RepositoryRoundTrip(organization, r2, BranchesPath(organization, r2));
    BranchRoundTrip(organization, r1, b1, DeletePath(organization, r1, b2));
    BranchRoundTrip(organization, r1, b2, DeletePath(organization, r1, b2));
  }

  /** Every path of one organization extends the previous one by a "/" separator. */
  lemma PathsNest(organization: string, repo: string, branch: string)
    ensures BaseApi <= RepositoriesPath(organization)
    ensures RepositoriesPath(organization) + "/" <= BranchesPath(organization, repo)
    ensures BranchesPath(organization, repo) + "/" <= DeletePath(organization, repo, branch)
    ensures RepositoriesPath(organization) + "/" <= DeletePath(organization, repo, branch)
  {
  }
}
