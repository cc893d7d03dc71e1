# collaborators — a Dafny model of the permission report's core

The program lists every non-archived repository of the `datawire` GitHub
organization. For each one it prints a flattened map from *permission source*
to *permission*. A source is the organization (`org:<login>`), a team
(`team:<full/team/path>`) or a direct grant (`user:<login>`). This project
models the three algorithms of `collaborators.go` that compute that data, and
proves what they guarantee.

- **Paginated listing** (`paging.dfy`, plus the loops in `teams.dfy` and
  `repos.dfy`). The first request is sent without a cursor. Each later request
  carries the end cursor of the previous page, and requests go on while a page
  says another follows. Nodes are kept in page order. The first failed request
  aborts the listing and nothing partial is returned. The backend is a total
  function from cursor to page-or-error.
- **Team full names** (`teams.dfy`). Every slug and parent link is collected.
  Each full name is then built by walking up the parent chain and prepending
  `parent + "/"` at each step.
- **Repository enumeration** (`repos.dfy`). Archived repositories are dropped
  and the rest become `RepoHandle{name, url}`, in listing order.
- **Permission aggregation** (`collaborators.dfy`). Each source is turned into
  a string key. Each collaborator is scanned with a fresh owner flag and a
  fresh set of skipped keys, while the result map is shared by all
  collaborators of the repository. The organization's own source is never
  recorded; with ADMIN it sets the owner flag. After that, an owner's first
  ADMIN for each other key is dropped. Everything else is merged: a new key is
  stored, an equal value is a no-op, the WRITE/ADMIN pairs that the code
  forgives become ADMIN, and any other disagreement aborts the repository with
  a `Mismatch` error.

Each loop of the Go code is a `method` with loop invariants. Each method is
proved equal to a functional specification (`Pages`, `Handles`, `ParentMap`,
`FullName`, `Aggregate`). The lemmas below are proved about those
specifications.

The WRITE/ADMIN condition at `collaborators.go:210` reads
`HasPrefix(key,"team:") && (old==WRITE && new==ADMIN) || (old==ADMIN && new==WRITE)`.
Go's `&&` binds tighter than `||`, so only the first pair is limited to team
keys. ADMIN followed by WRITE settles on ADMIN for *every* key, and WRITE
followed by ADMIN does so only for team keys. The comment on the next line
speaks only of teams, so both pairs may have been meant for teams alone. The
model follows the condition as written (`Collaborators.Reconcilable`,
`AdminThenWriteAnyKey`, `WriteThenAdminOffTeamConflicts`).

## Model

| member | source | states |
|---|---|---|
| `Paging.Pages` | collaborators.go:263-276 | A traversal that succeeds returns at least one page, and the first page is the answer to the cursor-less request. Every page but the last says a next page follows, and the last says none does. |
| `Paging.PagesFollowCursors` | collaborators.go:263-268 | Every page after the first answers the request that carried the previous page's end cursor. |
| `Paging.PagesFailure` | collaborators.go:93-98 | A traversal fails with error `e` if and only if it received some pages, each saying more follow and each answering the request with the previous end cursor, and the next request then failed with exactly `e`. So a traversal whose requests all succeed never fails, and a failure returns no partial list. |
| `Paging.Nodes` | collaborators.go:100-105 | Every node of every page is in the collected list, and every collected node comes from some page. |
| `Paging.NodesInPageOrder` | collaborators.go:100-105 | The nodes of page `i` sit, in order, between the nodes of the earlier pages and the nodes of the later ones. |
| `Repos.Handles` | collaborators.go:270-274 | There are never more handles than nodes. With no archived node there is one handle per node, and with only archived nodes there are none. |
| `Repos.HandlesListed` | collaborators.go:270-274 | A handle is listed if and only if some non-archived node has that name and URL. An archived repository is never listed, whatever page it is on. |
| `Repos.AppendListed` | collaborators.go:270-275 | The per-page loop appends the handles of that page's non-archived nodes, in order. |
| `Repos.GetRepos` | collaborators.go:261-277 | The result is the handles of the non-archived nodes of all pages, in page order. If any request fails, the result is exactly that request's error. |
| `Teams.RecordParent` | collaborators.go:102-104 | A node with a parent team adds its slug with that parent and leaves every other entry as it was. A node without one changes nothing. |
| `Teams.ParentsFrom` | collaborators.go:100-105 | Recording a list of nodes never removes a parent entry. |
| `Teams.ParentsFromKeys` | collaborators.go:102-104 | A slug has a parent entry if and only if some listed node with that slug has a parent team. |
| `Teams.ParentsFromLast` | collaborators.go:100-105 | A slug's entry is the parent of the last node of that slug that names one. A later node of the slug without a parent does not remove it. |
| `Teams.ParentsFromUntouched` | collaborators.go:100-105 | A slug that no listed node gives a parent keeps its earlier entry, or its lack of one. |
| `Teams.ParentMapProvenance` | collaborators.go:100-105 | Every entry of the listing's parent map is the parent slug of the last node of that slug that names a parent. |
| `Teams.RecordTeams` | collaborators.go:100-105 | The per-page loop appends every slug in order and records the parent links of that page's nodes on top of the map so far. |
| `Teams.CollectTeams` | collaborators.go:90-106 | The team listing yields the slugs of all pages in order and the parent map built from them, or the error of the first failed request. |
| `Teams.SelfParentNeverReaches` | collaborators.go:112-118 | A team that is its own parent never ends the upward walk, however many steps are allowed. |
| `Teams.SelfParentIsCyclic` | collaborators.go:112-118 | A parent map in which some team is its own parent does not meet the acyclicity precondition, so the hang is excluded rather than modelled. |
| `Teams.FullName` | collaborators.go:109-119 | A full name is empty only for the empty slug, always ends with the team's own slug, and is the slug itself for a team without a parent entry. |
| `Teams.ChainFullPath` | collaborators.go:110-118 | Take a parent chain whose first slug has no parent. The walk from its last slug builds the whole chain joined by `/`, root first. |
| `Teams.ChainFullName` | collaborators.go:108-120 | The same for the full name of an acyclic parent map. |
| `Teams.RootFullName` | collaborators.go:110-119 | A team with no parent entry is named by its own slug. |
| `Teams.NestedFullName` | collaborators.go:112-118 | The chain root → P1 → P2 → T names T `root/P1/P2/T`. |
| `Teams.DanglingParentFullName` | collaborators.go:113-117 | A parent with no entry of its own is still prepended, and the walk stops there. |
| `Teams.ResolveFullname` | collaborators.go:110-118 | The upward walk of one slug builds exactly its full name. |
| `Teams.ResolveFullnames` | collaborators.go:108-120 | Every collected slug, and nothing else, gets an entry, and each entry is that slug's full name. |
| `Teams.GetTeamFullnames` | collaborators.go:90-122 | A failed listing returns its error. Otherwise the result maps exactly the listed slugs to their full names under the listed parent map. |
| `Collaborators.SourceKey` | collaborators.go:185-193 | A source gets the empty key exactly when none of its organization, team and repository fields is set. |
| `Collaborators.KeyClassification` | collaborators.go:185-194 | A source's key is `org:datawire` exactly when its organization login is `datawire`, and is team-scoped exactly when it is a team source. An unknown team slug gives `team:`. A direct grant gives `user:` plus the collaborator's login. A source with no field set gives the empty key. |
| `Collaborators.Reconcilable` | collaborators.go:210 | Only two different values, one WRITE and one ADMIN, are ever settled. Off team keys, exactly ADMIN followed by WRITE is settled. |
| `Collaborators.Merge` | collaborators.go:209-218 | Merging fails if and only if the key is present with a different value that is not a forgiven WRITE/ADMIN pair, and the error names the repository, the key, the old value and the new value. On success the key is added, no other entry changes, a new key gets the permission, an equal value stays, and a forgiven pair becomes ADMIN. |
| `Collaborators.MergeIdempotent` | collaborators.go:209-218 | Merging the same key and permission a second time changes nothing. |
| `Collaborators.Visit` | collaborators.go:184-218 | One source fails only with a mismatch naming this repository. It raises the owner flag exactly for the organization's ADMIN source, never unskips a key, never removes a key, never records the ambient key, and only stores a value already present or the source's own permission. |
| `Collaborators.VisitAll` | collaborators.go:184-219 | A collaborator's scan fails only with a mismatch naming this repository. At its end the collaborator is an owner exactly when they already were or one of their sources is the organization's ADMIN, and no skipped key is forgotten. |
| `Collaborators.AggregateFrom` | collaborators.go:180-221 | Aggregation fails only with a mismatch naming this repository. |
| `Collaborators.Aggregate` | collaborators.go:180-221 | The same for the aggregation of a repository from the empty map. |
| `Collaborators.AggregateAppend` | collaborators.go:180-183 | Aggregating two lists of collaborators is aggregating the first, then the second into the map it produced. Only the map carries over. |
| `Collaborators.VisitAllInvariant` | collaborators.go:184-219 | Across all of one collaborator's sources: no key is removed, the ambient key is never recorded, and every value was already there or was granted by a source. |
| `Collaborators.AggregateInvariant` | collaborators.go:180-221 | The same three facts hold across all collaborators of a repository. |
| `Collaborators.AmbientNeverRecorded` | collaborators.go:194-201 | `org:datawire` never appears in a repository's map, whatever permission it came with. |
| `Collaborators.NonOwnerMergesEverySource` | collaborators.go:202-218 | Until the organization's ADMIN source is seen, a collaborator's sources are merged one by one, exactly as the plain merge `MergeAll` does. None is suppressed. |
| `Collaborators.SourcesBeforeOwnershipMerged` | collaborators.go:182-208 | Sources listed before the organization's ADMIN source are never suppressed. The rest of the scan starts from the map they produced. |
| `Collaborators.MergeAllAppend` | collaborators.go:209-218 | Plain merging of two lists of sources is merging the first, then the second into its result. |
| `Collaborators.OwnerScan` | collaborators.go:194-218 | An owner's scan drops exactly each ADMIN source whose key is not ambient, not already skipped and not seen with ADMIN earlier. Those keys join the skipped set. Every other source, non-ADMIN ones included, is merged in order as `MergeAll` does, and the first conflict aborts. |
| `Collaborators.OwnerKeepsNonAdmin` | collaborators.go:202 | An owner's scan keeps every source that does not grant ADMIN. |
| `Collaborators.OwnershipSplit` | collaborators.go:181-218 | A collaborator's scan, split at their first organization ADMIN source: the sources before it are merged plainly, and the sources after it are scanned as an owner's with nothing skipped yet. The scan ends with the owner flag up and exactly the dropped keys skipped. |
| `Collaborators.OwnerAdminsDropped` | collaborators.go:202-208 | An owner's ADMIN sources under distinct, not-yet-skipped keys are all dropped, and the shared map is unchanged. |
| `Collaborators.OwnerAddsNothing` | collaborators.go:194-208 | A collaborator whose sources are the organization's ADMIN followed by ADMIN sources under distinct keys adds nothing to the map (for instance `[(org:datawire, ADMIN), (user:alice, ADMIN)]` gives the empty map). |
| `Collaborators.RepeatedOwnerAdminMerged` | collaborators.go:202-218 | From any map, an owner's two ADMIN grants under one key are exactly one merge of ADMIN under it. The second is not dropped, and it fails when the key holds a value that ADMIN cannot settle. |
| `Collaborators.OwnerFlagPerCollaborator` | collaborators.go:180-183 | Whatever the first collaborator is, an owner included, the next collaborator's ADMIN is merged into the map the first one left. The owner flag and skipped keys reset, and the map is shared. |
| `Collaborators.TeamWriteAdminEitherOrder` | collaborators.go:209-213 | On a team key, WRITE then ADMIN and ADMIN then WRITE both settle on ADMIN. |
| `Collaborators.AdminThenWriteAnyKey` | collaborators.go:210-213 | Because Go binds `&&` tighter than the or-operator, ADMIN then WRITE settles on ADMIN for any key. |
| `Collaborators.WriteThenAdminOffTeamConflicts` | collaborators.go:209-216 | WRITE then ADMIN on a key that is not a team's aborts with `Mismatch(repo, key, WRITE, ADMIN)`. |
| `Collaborators.DirectGrantConflict` | collaborators.go:185-216 | Two direct grants, READ then WRITE, abort the whole repository with an error naming the repository, `user:<login>`, READ and WRITE. |
| `Collaborators.VisitTwice` | collaborators.go:194-218 | Scanning the same source twice in a row is the same as scanning it once. The one exception is an owner's first ADMIN under a key, which is dropped. |
| `Collaborators.GetCollaborators` | collaborators.go:177-221 | A failed collaborator request returns its error. Otherwise the nested loops compute exactly `Aggregate`, the resulting map never holds `org:datawire`, and a failure after a successful request is a `Mismatch` naming this repository. |

## Left out

- `graphql` (collaborators.go:25-54) is not part of this model: HTTP, the token read from the environment, and JSON encoding and decoding. A listing request is a parameter `fetch: Cursor -> Result<Page<T>>`, and the collaborator request is a parameter `fetched: Result<seq<Edge>>`. A failed request's error is passed on unchanged, and the model does not constrain its kind: `FetchFailed` is the constructor meant for it, but a backend parameter may carry any `Error`. What is proved is the other direction: the aggregation itself only ever fails with a `Mismatch` naming the repository (`Collaborators.AggregateFrom`, `Collaborators.GetCollaborators`).
- The GraphQL query strings and the JSON decode structs (collaborators.go:57-89, 126-176, 230-260) are wire format. They are replaced by the datatypes `TeamNode`, `RepoNode`, `Page` and `Edge`. Decoding each page into the same reused struct, where a field that a page omits keeps its old value, is not modelled.
- `Main` (collaborators.go:280-318) is left out: the token check, the loop over repositories, wrapping an error with the repository URL, and the bucketing, sorting and tabwriter output. `main` (collaborators.go:320-325) is left out too. All of these are report formatting and process I/O.
- The listing loops assume a backend that eventually answers with a last page or an error, within a ghost bound `fuel` (`Paging.Finishes`). A backend that always reports another page would make the Go loop spin forever; that case is not modelled. The bound is harmless otherwise: `Paging.PagesFuelIrrelevant` proves that any two bounds under which the traversal finishes give the same pages or the same error.
- `Teams.ResolveFullnames`, `Teams.ResolveFullname` and `Teams.GetTeamFullnames` require `Acyclic`: every upward walk ends within |parents| + 1 steps. The Go walk hangs on a cyclic parent graph, and that hang is excluded, not modelled. `SelfParentIsCyclic` shows that a self-parented team violates the precondition. The converse, that every cycle-free map meets this bound, is not proved.
- `Collaborators.GetCollaborators` returns the conflict as the structured error `Mismatch(reponame, key, existing, incoming)` rather than the formatted text `mismatch for reponame=... collaborator=... : ... != ...`.
- The Go map `skippedSources map[string]bool` is modelled as a `set<string>`, since only `true` is ever stored in it.
- Permissions and keys stay strings, as in the code; only `"ADMIN"` and `"WRITE"` are treated specially.
