/**
 * The run of the cleaner: repositories are processed in order; for each
 * one the branch listing is fetched and every selected branch is deleted
 * in listing order. Only status 204 confirms a deletion; any other status
 * is fatal and ends the whole run.
 *
 * The pure part states what a run does (Plan, Exec, Drive); the class
 * Cleaner performs it step by step and is proved to agree with it.
 */
module Cleanup {
  import opened Common
  import opened Endpoints
  import opened Retention
  import opened Repositories

  /** HTTP 204 No Content, the only status read as a successful delete. */
  const NoContent: int := 204

  /** One DELETE request: the repository and the branch name. */
  datatype Deletion = Deletion(repo: string, branch: string)

  /** Deletions issued so far and whether a failed one has ended the run. */
  datatype Progress = Progress(log: seq<Deletion>, halted: bool)

  /** Progress together with the repositories whose branches were listed. */
  datatype Trace = Trace(progress: Progress, fetched: seq<string>)

  /** How a run ends. */
  datatype Outcome = Completed | DeletionFailed(failed: Deletion) | Panicked(panic: Panic)

  /**
   * The deletions one repository's listing calls for: the map of
   * `Selection` to deletions of that repository (RepoPlanIsSelection).
   * It is written as the same walk over the listing that
   * deleteBranchesUpdatedXMonthsAgo makes, so that the loop's proof can
   * unfold it one branch at a time.
   */
  function RepoPlan(repo: string, values: seq<Branch>, months: int): seq<Deletion>
  {
    if values == [] then []
    else (if Selected(values[0], months) then [Deletion(repo, values[0].name)] else [])
         + RepoPlan(repo, values[1..], months)
  }

  /** A repository's deletions are its selected branches, in listing order. */
  lemma {:induction false} RepoPlanIsSelection(repo: string, values: seq<Branch>, months: int)
    ensures var p := RepoPlan(repo, values, months);
      |p| == |Selection(values, months)|
      && forall i :: 0 <= i < |p| ==> p[i] == Deletion(repo, Selection(values, months)[i].name)
  {
    if values != [] {
      RepoPlanIsSelection(repo, values[1..], months);
      var s, rest := Selection(values, months), Selection(values[1..], months);
      if Selected(values[0], months) {
        assert s == [values[0]] + rest;
        assert RepoPlan(repo, values, months) == [Deletion(repo, values[0].name)] + RepoPlan(repo, values[1..], months);
      } else {
        assert s == rest;
        assert RepoPlan(repo, values, months) == RepoPlan(repo, values[1..], months);
      }
    }
  }

  /** The deletions of a whole run if every request succeeded, repository after repository. */
  function Plan(names: seq<string>, branchesOf: string -> BranchListing, months: int): (p: seq<Deletion>)
  {
    if names == [] then []
    else RepoPlan(names[0], branchesOf(names[0]).values, months) + Plan(names[1..], branchesOf, months)
  }

  /**
   * Issues the deletions of `plan` one by one from progress `p`; the
   * k-th DELETE request of the run receives status(k). A non-204 status
   * halts, and nothing is issued after a halt.
   */
  function Exec(p: Progress, plan: seq<Deletion>, status: nat -> int): Progress
    decreases |plan|
  {
    if p.halted || plan == [] then p
    else Exec(Progress(p.log + [plan[0]], status(|p.log|) != NoContent), plan[1..], status)
  }

  /** Repository after repository: fetch the listing, then issue its deletions; stop on a halt. */
  function Drive(p: Progress, names: seq<string>, branchesOf: string -> BranchListing,
                 months: int, status: nat -> int): Trace
    decreases |names|
  {
    if p.halted || names == [] then Trace(p, [])
    else
      var q := Exec(p, RepoPlan(names[0], branchesOf(names[0]).values, months), status);
      var rest := Drive(q, names[1..], branchesOf, months, status);
      Trace(rest.progress, [names[0]] + rest.fetched)
  }

  /**
   * Every issued deletion but a failing last one got 204, and a run is
   * halted exactly when its last deletion did not get 204.
   */
  ghost predicate Consistent(p: Progress, status: nat -> int)
  {
    (forall i :: 0 <= i < |p.log| && (i < |p.log| - 1 || !p.halted) ==> status(i) == NoContent)
    && (p.halted ==> p.log != [] && status(|p.log| - 1) != NoContent)
  }

  /** Executing a plan keeps consistency, only extends the log by a prefix of the plan. */
  lemma {:induction false} ExecExtends(p: Progress, plan: seq<Deletion>, status: nat -> int)
    requires Consistent(p, status)
    ensures var r := Exec(p, plan, status);
      Consistent(r, status) && p.log <= r.log && r.log <= p.log + plan
      && (p.halted ==> r == p)
      && (!r.halted ==> r.log == p.log + plan)
      && (p.halted ==> r.halted)
    decreases |plan|
  {
    if !p.halted && plan != [] {
      var q := Progress(p.log + [plan[0]], status(|p.log|) != NoContent);
      assert Consistent(q, status);
      ExecExtends(q, plan[1..], status);
      assert p.log + [plan[0]] + plan[1..] == p.log + plan;
    }
  }

  /** Running two plans one after the other is running their concatenation. */
  lemma {:induction false} ExecAppend(p: Progress, a: seq<Deletion>, b: seq<Deletion>, status: nat -> int)
    ensures Exec(p, a + b, status) == Exec(Exec(p, a, status), b, status)
    decreases |a|
  {
    if a == [] {
      assert a + b == b;
    } else if !p.halted {
      assert (a + b)[1..] == a[1..] + b;
      ExecAppend(Progress(p.log + [a[0]], status(|p.log|) != NoContent), a[1..], b, status);
    }
  }

  /** One branch of the listing: issue its deletion if selected, then go on with the rest. */
  lemma RepoPlanStep(p: Progress, repo: string, values: seq<Branch>, i: nat, months: int, status: nat -> int)
    requires i < |values|
    ensures Exec(p, RepoPlan(repo, values[i..], months), status)
            == Exec(if Selected(values[i], months) then Exec(p, [Deletion(repo, values[i].name)], status) else p,
                    RepoPlan(repo, values[i + 1..], months), status)
  {
    var rest := values[i..];
    assert rest[0] == values[i] && rest[1..] == values[i + 1..];
    assert RepoPlan(repo, rest, months)
           == (if Selected(values[i], months) then [Deletion(repo, values[i].name)] else [])
              + RepoPlan(repo, values[i + 1..], months);
    if Selected(values[i], months) {
      ExecAppend(p, [Deletion(repo, values[i].name)], RepoPlan(repo, values[i + 1..], months), status);
    } else {
      assert [] + RepoPlan(repo, values[i + 1..], months) == RepoPlan(repo, values[i + 1..], months);
    }
  }

  /** One repository of the run: issue its deletions, then go on with the rest. */
  lemma DriveStep(p: Progress, names: seq<string>, i: nat, branchesOf: string -> BranchListing,
                  months: int, status: nat -> int, seen: seq<string>)
    requires i < |names| && !p.halted
    ensures var q := Exec(p, RepoPlan(names[i], branchesOf(names[i]).values, months), status);
      var rest := Drive(q, names[i + 1..], branchesOf, months, status);
      var whole := Drive(p, names[i..], branchesOf, months, status);
      whole.progress == rest.progress && seen + whole.fetched == (seen + [names[i]]) + rest.fetched
  {
  }

  /**
   * A run from scratch issues a prefix of the plan: all of it when every
   * request succeeds, and otherwise everything up to and including the
   * first request that did not get 204.
   */
  lemma RunStopsAtFirstFailure(plan: seq<Deletion>, status: nat -> int)
    ensures var r := Exec(Progress([], false), plan, status);
      r.log <= plan
      && (forall i :: 0 <= i < |r.log| - 1 ==> status(i) == NoContent)
      && (r.halted <==> r.log != [] && status(|r.log| - 1) != NoContent)
      && (!r.halted ==> r.log == plan)
    ensures (forall i :: 0 <= i < |plan| ==> status(i) == NoContent)
            ==> Exec(Progress([], false), plan, status) == Progress(plan, false)
  {
    ExecExtends(Progress([], false), plan, status);
    assert [] + plan == plan;
  }

  /**
   * Driving repository by repository issues the same deletions as
   * executing the flat plan; the repositories fetched are a prefix of the
   * names, and all of them unless a deletion failed.
   */
  lemma {:induction false} DriveFollowsPlan(p: Progress, names: seq<string>, branchesOf: string -> BranchListing,
                                            months: int, status: nat -> int)
    requires Consistent(p, status)
    ensures var t := Drive(p, names, branchesOf, months, status);
      t.progress == Exec(p, Plan(names, branchesOf, months), status)
      && t.fetched <= names
      && (!t.progress.halted ==> t.fetched == names)
    decreases |names|
  {
    if p.halted {
      ExecExtends(p, Plan(names, branchesOf, months), status);
    } else if names != [] {
      var head := RepoPlan(names[0], branchesOf(names[0]).values, months);
      var q := Exec(p, head, status);
      ExecExtends(p, head, status);
      ExecAppend(p, head, Plan(names[1..], branchesOf, months), status);
      DriveFollowsPlan(q, names[1..], branchesOf, months, status);
    }
  }

  /** The plan of a list of names starts with the plan of its first name. */
  lemma PlanCons(name: string, names: seq<string>, branchesOf: string -> BranchListing, months: int)
    ensures Plan([name] + names, branchesOf, months)
            == RepoPlan(name, branchesOf(name).values, months) + Plan(names, branchesOf, months)
  {
  }

  /**
   * By position: the plans of the repositories fetched before the last
   * one run without a halt, and adding the last one's plan halts.
   */
  lemma {:induction false} LastFetchedHalts(p: Progress, names: seq<string>, branchesOf: string -> BranchListing,
                                            months: int, status: nat -> int)
    requires !p.halted
    ensures var t := Drive(p, names, branchesOf, months, status);
      t.progress.halted ==>
        t.fetched != []
        && !Exec(p, Plan(t.fetched[..|t.fetched| - 1], branchesOf, months), status).halted
        && Exec(p, Plan(t.fetched, branchesOf, months), status).halted
    decreases |names|
  {
    if names != [] {
      var head := RepoPlan(names[0], branchesOf(names[0]).values, months);
      var q := Exec(p, head, status);
      var t := Drive(p, names, branchesOf, months, status);
      if q.halted {
        assert Drive(q, names[1..], branchesOf, months, status) == Trace(q, []);
        assert t.fetched == [names[0]] + [] && t.fetched[..0] == [];
        PlanCons(names[0], [], branchesOf, months);
        assert head + [] == head;
      } else if t.progress.halted {
        var f := Drive(q, names[1..], branchesOf, months, status).fetched;
        LastFetchedHalts(q, names[1..], branchesOf, months, status);
        var before := f[..|f| - 1];
        assert t.fetched == [names[0]] + f;
        assert t.fetched[..|t.fetched| - 1] == [names[0]] + before;
        PlanCons(names[0], before, branchesOf, months);
        PlanCons(names[0], f, branchesOf, months);
        ExecAppend(p, head, Plan(before, branchesOf, months), status);
        ExecAppend(p, head, Plan(f, branchesOf, months), status);
      }
    }
  }

  /** By name: the deletion that ends a run was planned for the last repository fetched. */
  lemma {:induction false} FailedDeletionRepo(p: Progress, names: seq<string>, branchesOf: string -> BranchListing,
                                              months: int, status: nat -> int)
    requires Consistent(p, status) && !p.halted
    ensures var t := Drive(p, names, branchesOf, months, status);
      t.progress.halted ==>
        t.fetched != [] && |t.progress.log| > |p.log|
        && t.progress.log[|t.progress.log| - 1].repo == t.fetched[|t.fetched| - 1]
    decreases |names|
  {
    if names != [] {
      var head := RepoPlan(names[0], branchesOf(names[0]).values, months);
      var q := Exec(p, head, status);
      ExecExtends(p, head, status);
      if q.halted {
        var k := |q.log| - 1;
        RepoPlanIsSelection(names[0], branchesOf(names[0]).values, months);
        assert q.log[k] == (p.log + head)[k];
        assert q.log[k] == head[k - |p.log|];
        assert q.log[k].repo == names[0];
      } else {
        FailedDeletionRepo(q, names[1..], branchesOf, months, status);
      }
    }
  }

  /**
   * The deletion that ends a run belongs to the last repository whose
   * branches were fetched: the plans of the repositories fetched before it
   * run without a halt, and adding its plan halts. So no repository after
   * it is fetched, even when names repeat.
   */
  lemma FailureInLastFetched(p: Progress, names: seq<string>, branchesOf: string -> BranchListing,
                             months: int, status: nat -> int)
    requires Consistent(p, status) && !p.halted
    ensures var t := Drive(p, names, branchesOf, months, status);
      t.progress.halted ==>
        t.fetched != [] && |t.progress.log| > |p.log|
        && t.progress.log[|t.progress.log| - 1].repo == t.fetched[|t.fetched| - 1]
        && !Exec(p, Plan(t.fetched[..|t.fetched| - 1], branchesOf, months), status).halted
        && Exec(p, Plan(t.fetched, branchesOf, months), status).halted
  {
    FailedDeletionRepo(p, names, branchesOf, months, status);
    LastFetchedHalts(p, names, branchesOf, months, status);
  }

  /** Every deletion of the plan names a listed branch of a processed repository that is old enough. */
  lemma {:induction false} PlanDeletesOnlyOldListedBranches(names: seq<string>, branchesOf: string -> BranchListing,
                                                            months: int, d: Deletion)
    requires d in Plan(names, branchesOf, months)
    ensures d.repo in names
    ensures exists b :: b in branchesOf(d.repo).values && b.name == d.branch && MonthsDiff(b) >= months
    decreases |names|
  {
    var values := branchesOf(names[0]).values;
    var head := RepoPlan(names[0], values, months);
    if d in head {
      RepoPlanIsSelection(names[0], values, months);
      var i :| 0 <= i < |head| && head[i] == d;
      var sel := Selection(values, months);
      assert sel[i] in sel;
    } else {
      PlanDeletesOnlyOldListedBranches(names[1..], branchesOf, months, d);
    }
  }

  /**
   * A run over a list of repository names deletes only listed branches,
   * old enough, of repositories in that list, and when every DELETE gets
   * 204 it fetches every repository and deletes every selected branch.
   */
  lemma RunDeletesOnlySelected(names: seq<string>, branchesOf: string -> BranchListing,
                               months: int, status: nat -> int)
    ensures var t := Drive(Progress([], false), names, branchesOf, months, status);
      forall d :: d in t.progress.log ==>
        d.repo in names && exists b :: b in branchesOf(d.repo).values && b.name == d.branch && MonthsDiff(b) >= months
    ensures (forall k: nat :: status(k) == NoContent) ==>
      Drive(Progress([], false), names, branchesOf, months, status)
      == Trace(Progress(Plan(names, branchesOf, months), false), names)
  {
    var t := Drive(Progress([], false), names, branchesOf, months, status);
    var plan := Plan(names, branchesOf, months);
    DriveFollowsPlan(Progress([], false), names, branchesOf, months, status);
    RunStopsAtFirstFailure(plan, status);
    forall d | d in t.progress.log
      ensures d.repo in names
      ensures exists b :: b in branchesOf(d.repo).values && b.name == d.branch && MonthsDiff(b) >= months
    {
      var i :| 0 <= i < |t.progress.log| && t.progress.log[i] == d;
      assert plan[i] == d;
      PlanDeletesOnlyOldListedBranches(names, branchesOf, months, d);
    }
  }

  /**
   * A repository listing that reports more entries than it returns makes
   * the run fetch the branches of a repository with the empty name,
   * unless a failed delete has ended it first.
   */
  lemma ShortListingFetchesEmptyName(repositories: RepositoryListing, branchesOf: string -> BranchListing,
                                     months: int, status: nat -> int)
    requires |repositories.values| < repositories.size
    ensures NamesOf(repositories).Ok?
    ensures var t := Drive(Progress([], false), NamesOf(repositories).value, branchesOf, months, status);
      !t.progress.halted ==> "" in t.fetched
  {
    ShortListingPadsWithEmptyNames(repositories);
    var names := NamesOf(repositories).value;
    DriveFollowsPlan(Progress([], false), names, branchesOf, months, status);
    assert names == names[..|repositories.values|] + names[|repositories.values|..];
  }

  /**
   * The cleaner's state while it runs: the deletion requests issued, the
   * repositories whose branches were listed, and whether a failed delete
   * has ended the run. The server's answers are inputs: `branchesOf` for
   * the branch listings and `status` for the k-th DELETE request.
   */
  class Cleaner {
    const organization: string
    const months: int
    const status: nat -> int
    var log: seq<Deletion>
    var fetched: seq<string>
    var halted: bool

    function State(): Progress
      reads this
    {
      Progress(log, halted)
    }

    constructor (organization: string, months: int, status: nat -> int)
      ensures this.organization == organization && this.months == months && this.status == status
      ensures log == [] && fetched == [] && !halted
    {
      this.organization := organization;
      this.months := months;
      this.status := status;
      log, fetched, halted := [], [], false;
    }

    /** deleteBranch: one DELETE request; a status other than 204 is fatal. */
    method DeleteBranch(repo: string, branch: string) returns (path: string)
      requires !halted
      modifies this
      ensures path == DeletePath(organization, repo, branch)
      ensures log == old(log) + [Deletion(repo, branch)] && fetched == old(fetched)
      ensures halted <==> status(|old(log)|) != NoContent
      ensures State() == Exec(old(State()), [Deletion(repo, branch)], status)
    {
      path := DeletePath(organization, repo, branch);
      var code := status(|log|);
      log := log + [Deletion(repo, branch)];
      if code != NoContent {
        halted := true;
      }
    }

    /** getBranchesOfRepository: one GET request, answered by `branchesOf`. */
    method ListBranches(repo: string, branchesOf: string -> BranchListing) returns (listing: BranchListing, path: string)
      modifies this
      ensures listing == branchesOf(repo) && path == BranchesPath(organization, repo)
      ensures fetched == old(fetched) + [repo] && State() == old(State())
    {
      path := BranchesPath(organization, repo);
      listing := branchesOf(repo);
      fetched := fetched + [repo];
    }

    /** deleteBranchesUpdatedXMonthsAgo: delete the selected branches in listing order. */
    method DeleteOldBranches(repo: string, listing: BranchListing)
      requires !halted
      modifies this
      ensures State() == Exec(old(State()), RepoPlan(repo, listing.values, months), status)
      ensures fetched == old(fetched)
    {
      var values := listing.values;
      var i := 0;
      while i < |values| && !halted
        invariant 0 <= i <= |values|
        invariant fetched == old(fetched)
        invariant Exec(old(State()), RepoPlan(repo, values, months), status)
                  == Exec(State(), RepoPlan(repo, values[i..], months), status)
      {
        var branch := values[i];
        RepoPlanStep(State(), repo, values, i, months, status);
        if MonthsDiff(branch) >= months {
          if NameGuard(branch.name) {
            var _ := DeleteBranch(repo, branch.name);
          }
        }
        i := i + 1;
      }
    }

    /** The loop of main: fetch each repository's branches and clean it, in order. */
    method CleanRepositories(repoNames: seq<string>, branchesOf: string -> BranchListing)
      requires Consistent(State(), status)
      modifies this
      ensures Consistent(State(), status)
      ensures var t := Drive(old(State()), repoNames, branchesOf, months, status);
        State() == t.progress && fetched == old(fetched) + t.fetched
    {
      ghost var whole := Drive(State(), repoNames, branchesOf, months, status);
      var i := 0;
      while i < |repoNames| && !halted
        invariant 0 <= i <= |repoNames|
        invariant Consistent(State(), status)
        invariant whole.progress == Drive(State(), repoNames[i..], branchesOf, months, status).progress
        invariant old(fetched) + whole.fetched == fetched + Drive(State(), repoNames[i..], branchesOf, months, status).fetched
      {
        var repo := repoNames[i];
        DriveStep(State(), repoNames, i, branchesOf, months, status, fetched);
        ExecExtends(State(), RepoPlan(repo, branchesOf(repo).values, months), status);
        var listing, _ := ListBranches(repo, branchesOf);
        DeleteOldBranches(repo, listing);
        i := i + 1;
      }
    }

    /** main: list the repositories, then clean each one in order. */
    method Run(repositories: RepositoryListing, branchesOf: string -> BranchListing) returns (outcome: Outcome)
      requires log == [] && fetched == [] && !halted
      modifies this
      ensures NamesOf(repositories).Err? ==>
                outcome == Panicked(NamesOf(repositories).error) && log == [] && fetched == [] && !halted
      ensures NamesOf(repositories).Ok? ==>
                Trace(State(), fetched)
                == Drive(Progress([], false), NamesOf(repositories).value, branchesOf, months, status)
      ensures halted ==> log != []
      ensures NamesOf(repositories).Ok? ==>
                outcome == if halted then DeletionFailed(log[|log| - 1]) else Completed
    {
      var names := CopyNames(repositories);
      if names.Err? {
        return Panicked(names.error);
      }
      assert Consistent(State(), status);
      CleanRepositories(names.value, branchesOf);
      outcome := if halted then DeletionFailed(log[|log| - 1]) else Completed;
    }
  }
}
