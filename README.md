# bb-workspace-cleaner, modelled in Dafny

bb-workspace-cleaner is a small Go maintenance tool for Bitbucket Cloud. It
lists the repositories of an organization that the user can contribute to.
It lists each repository's branches and deletes every branch whose last
commit is at least `-months` 30-day months old. This project models the
decision logic of `main.go` and proves what it does:

- `endpoints.dfy` (module `Endpoints`): the three REST paths built by string
  concatenation, with inverse parsers and round-trip lemmas.
- `retention.dfy` (module `Retention`): the branch age in truncated 30-day
  months, the name guard exactly as written, and the selection of branches
  to delete.
- `repositories.dfy` (module `Repositories`): the loop of `getRepositories`
  that fills an array of the *reported* size with the returned names.
- `cleanup.dfy` (module `Cleanup`): the run itself. A class `Cleaner` holds
  the log of DELETE requests, the repositories whose branches were listed,
  and whether a failed delete has ended the run. Its methods
  (`DeleteBranch`, `ListBranches`, `DeleteOldBranches`, `CleanRepositories`,
  `Run`) follow `deleteBranch`, `getBranchesOfRepository`,
  `deleteBranchesUpdatedXMonthsAgo` and `main`. `DeleteBranch` and
  `DeleteOldBranches` are proved to leave the state that `Exec` gives for
  one deletion and for a repository's `RepoPlan`. `CleanRepositories` and
  `Run` are proved to leave the state that `Drive` gives, and
  `DriveFollowsPlan` ties `Drive` to `Exec` of the flat `Plan`.
  `ListBranches` returns the listing `branchesOf` gives and the
  branch-list path, and records the fetch.
- `common.dfy` (module `Common`): `Option` and `Result`.

Inputs that come from the network or the clock are parameters:

- Each branch carries the whole hours elapsed since its last commit, or
  `None` when its date does not parse.
- `branchesOf` gives the decoded branch listing the server returns for a
  repository name.
- `status(k)` is the HTTP status of the k-th DELETE request of the run.

What the proofs establish about the program as written:

- The name guard `name != "master" || name != "staging"` holds for every
  name. Branches called `master` and `staging` are deleted like any other
  old branch.
- A branch with an unparseable date gets the zero time. Go's `Time.Sub`
  saturates at the largest duration, 2562047 hours, so the branch is
  3558 months old and is selected for every threshold up to 3558.
- The names array has the reported length whenever the copy does not
  panic. A listing that returns fewer entries than it reports pads the
  array with empty names, and the run then lists the branches of a
  repository named `""`, unless a failed delete has ended the run first.
  A listing that returns more entries than it reports panics with an
  index out of range.
- Only status 204 confirms a delete. Any other status is fatal
  (`log.Fatal`), so the run deletes a prefix of its plan that ends at the
  first failure, and no later branch or repository is touched.

Three behaviours of the code that a reader might not expect, all modelled as written:

- A timestamp that fails to parse is not skipped. The error is discarded
  and the branch counts as maximally old.
- A delete that does not return 204 is fatal. The run does not continue.
- A listing whose reported size exceeds its entries does not process just
  the present entries. The array keeps the reported size, with empty names.

## Model

| member | source | states |
|---|---|---|
| `Endpoints.OrganizationRoundTrip` | main.go:165-167 | the organization is recovered from the repositories path, and a path yields that organization exactly when it is that organization's repositories path |
| `Endpoints.RepositoryRoundTrip` | main.go:130-133 | the repository is recovered from the branch-list path, and only that repository's branch-list path yields it |
| `Endpoints.BranchRoundTrip` | main.go:100-103 | the branch is recovered from the delete path, and only that branch's delete path yields it |
| `Endpoints.PathsInjective` | main.go:100-103 | distinct repositories get distinct branch-list path strings, and within one repository distinct branches get distinct delete path strings |
| `Endpoints.PathsNest` | main.go:31-36 | each path starts with the API base; the branch-list path and the delete path both start with the repositories path followed by "/"; the delete path starts with the branch-list path followed by "/" |
| `Retention.MonthsFromHours` | main.go:86 | the month count is the elapsed hours divided by 24*30 and truncated toward zero, as Go's int conversion does, for negative elapsed times too |
| `Retention.MonthsDiff` | main.go:82-86 | a date that fails to parse gives the saturated age of 3558 months |
| `Retention.NameGuard` | main.go:89 | the guard is true for every branch name |
| `Retention.Selected` | main.go:88-89 | a branch is selected exactly when its month age is at least the threshold; its name plays no part |
| `Retention.Selection` | main.go:81-94 | the selection is no longer than the listing and holds only listed, selected branches |
| `Retention.SelectionMembership` | main.go:81-91 | a branch is in the selection if and only if it is listed and old enough |
| `Retention.SelectionCounts` | main.go:81-91 | each old-enough branch is selected as many times as it is listed, any other branch never |
| `Retention.SelectionAppend` | main.go:81-94 | selecting from a concatenation is concatenating the selections, so listing order is kept |
| `Retention.SelectionAntitone` | main.go:88 | the selection at a higher threshold is the lower threshold's selection filtered again, so raising the threshold only removes branches |
| `Retention.ProtectedNamesAreSelected` | main.go:88-89 | a branch named master or staging is selected exactly when it is old enough |
| `Retention.UnparseableIsMaximallyOld` | main.go:83-88 | a branch with an unparseable date is selected exactly for thresholds up to 3558, and whenever any branch with a real date is |
| `Repositories.CopyNames` | main.go:192-195 | a negative size panics; more entries than the size panics at index size; otherwise the result has the reported length, entry i is the name of listed repository i, and every later entry is the empty string |
| `Repositories.ShortListingPadsWithEmptyNames` | main.go:192-195 | a listing with fewer entries than its size yields names of the reported length that include an empty name |
| `Cleanup.RepoPlanIsSelection` | main.go:81-92 | one repository's deletions are its selected branches, in listing order, each named with that repository |
| `Cleanup.ExecExtends` | main.go:119-123 | issuing deletions only appends a prefix of the plan, keeps every non-final deletion at 204, halts exactly after a non-204, issues the whole plan unless it halts, and does nothing once halted |
| `Cleanup.ExecAppend` | main.go:71-77 | issuing two plans one after the other is issuing their concatenation |
| `Cleanup.RunStopsAtFirstFailure` | main.go:119-123 | a run issues a prefix of its plan that ends at the first non-204; if every status is 204 it issues the whole plan and does not halt |
| `Cleanup.DriveFollowsPlan` | main.go:71-77 | processing repository by repository issues the same deletions as the flat plan; the fetched repositories are a prefix of the names, and all of them unless a delete failed |
| `Cleanup.FailureInLastFetched` | main.go:71-77 | when a run halts, its last deletion belongs to the last repository fetched; the plans of the repositories fetched before that one run without a halt, and adding that one's plan halts, so no later repository is processed, even when names repeat |
| `Cleanup.PlanDeletesOnlyOldListedBranches` | main.go:71-92 | every planned deletion names a listed repository and a branch of its listing that is old enough |
| `Cleanup.RunDeletesOnlySelected` | main.go:69-94 | a run deletes only old-enough listed branches of listed repositories; with every status 204 it fetches every repository and deletes the whole plan |
| `Cleanup.ShortListingFetchesEmptyName` | main.go:69-75 | when the repository listing returns fewer entries than its size, the branches of the empty repository name are fetched unless a failed delete ended the run first |
| `Cleanup.Cleaner.DeleteBranch` | main.go:97-125 | one request to the delete path is logged; the run halts exactly when its status is not 204 |
| `Cleanup.Cleaner.ListBranches` | main.go:127-160 | the branch listing of the repository is fetched from its branch-list path and the repository is recorded as fetched |
| `Cleanup.Cleaner.DeleteOldBranches` | main.go:80-95 | the new state is the old one after issuing the repository's plan, stopping at a failed delete |
| `Cleanup.Cleaner.CleanRepositories` | main.go:71-77 | the new state and the fetched repositories are those of the repository-by-repository run, and consistency is kept |
| `Cleanup.Cleaner.Run` | main.go:66-78 | a panic of the name copy ends the run before any branch listing or deletion; otherwise the run follows the repository-by-repository specification, and it ends with the failed deletion or as completed |

## Left out

- HTTP client construction, request sending, headers and basic authentication (main.go:98-117, 128-148, 163-182). A transport error is fatal in the source. The model assumes every GET and DELETE reaches the server; the delete's answer is the `status` input.
- JSON decoding and the body read (main.go:150-156, 184-190). Decoded listings are inputs, and a decode failure, fatal in the source, is not modelled.
- Query strings (`role=contributor`, `pagelen`) built with `url.Values.Encode` (main.go:108-110, 138-141, 172-175). Each URL is modelled without its query string.
- `time.Parse`, `time.Now` and the float computation `Hours()/24/30` (main.go:83-86). The elapsed whole hours are an input. Truncating them to whole hours first gives the same month count as truncating the float; float rounding is not modelled.
- Elapsed times are not capped at the largest Go duration; a parsed date is assumed to lie within 292 years of now.
- Integer width: Go's 64-bit `int` for `-months` and the reported sizes is unbounded here, and an allocation too large for memory is not modelled.
- Flag parsing, reading `pass.txt` and all logging (main.go:38-43, 62-64, 67, 72, 74, 76, 90, 120, 124, 196, 200-212). The branch listing's reported size is only logged, so it plays no part.
- Cleanup.RunDeletesOnlySelected: holds of the branch names passed to `deleteBranch`, not of what the server deletes. `http.NewRequest` (main.go:100) parses the concatenated URL, and that parsing is not modelled. A `#` in a branch name starts a fragment and a `?` starts a query, so `fix#1` sends `DELETE …/refs/branches/fix`, a branch that may not have been selected. An invalid `%` escape makes `NewRequest` fail; the error is discarded and `req.Header.Add` (main.go:106) panics on the nil request.
- Endpoints.PathsInjective: distinct names give distinct path strings, and delete paths only within one repository (`DeletePath(o, "a", "x/refs/branches/y")` equals `DeletePath(o, "a/refs/branches/x", "y")`). After URL parsing, two names that differ only after a `#` or `?` name the same resource; that is not modelled.
- Server answers per repository name are fixed: `branchesOf` gives one listing, with one set of elapsed times, per name. In the source, a repeated name, such as the padded empty names of a short repository listing, is fetched again (main.go:73), and `time.Now` is read again for each branch (main.go:85), so its answers may differ.
- Cleanup.Cleaner.ListBranches: always succeeds. In the source the discarded `http.NewRequest` error also panics at the two GETs: a repository name with an invalid `%` escape fails at main.go:130 and panics at main.go:136, ending the run midway; an organization with one fails at main.go:165 and panics at main.go:169, before any repository is listed. `Cleanup.Cleaner.Run` does not model these panics.
