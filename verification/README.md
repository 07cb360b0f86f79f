# Verified models of the workspace backend

The modules here model the parts of the backend in which several functions keep one promise
together, and prove those promises for all inputs, all runs or all interleavings. A section of
code that holds a mutex, or a database transaction, is one step; identifiers that the program
generates at random come from a supply that never repeats; the clock, the outcome of calls to
other systems and their answers are inputs. Where a method has to face other threads between two
of its steps, it calls a method `Others` whose contract allows whatever they can do; the proof of
the caller knows nothing else of it.

- `BridgeRegistry`, `BridgeSafety`, `BridgeHandle`, `Bridge`: the debug bridge. Specification, invariants over every run, and the class whose methods change the peer, session and command tables. The result log records every reply, so "exactly one result for each accepted request" is a statement about it. `BridgeHandle` puts the sections of one call of Handle together, with the steps of others in between. `BridgeOutcomes` says what each message does.
- `Json`, `Canonical`, `CanonicalForm`, `CanonicalOutcomes`, `PortableBundle`, `DomainVersion`, `VersionContent`: the canonical form of a portable bundle, what it makes of each document, its rewriting in place, the value the domain version hashes and what the version tells apart. `text` stands for the JSON text of a document, `quote` for the JSON encoding of a string and `digest` for SHA-256. `FolderNames`, `Sequences`, `Sorting`, `Text` and `Wrappers` hold what several modules share.
- `RevisionLog`, `RevisionHistory`, `HistoryContent`, `Revisions`: the revision log, squash and commits, and what exports show of what was recorded. Creating a commit is one step: no recording lands between reading the head and attaching the revisions.
- `MockGateway`, `MockSafety`, `MockOutcomes`, `MockUseCase`, `MockLease`, `MockBudget`: the mock session gateway as interleaved threads, the lease of one session and the byte budget.
- `Forest`, `ForestSafety`, `ForestCommands`, `Lifecycle`: folders and documents; `ForestCommands` says when each command succeeds and what it does. Identities are unique in a table (migrations/000006_folders.sql, line 22, and its siblings).
- `Pointer`, `Policy`: JSON Pointers (sections 3 and 4 of RFC 6901) and the mapping of claims to grants.
- `ExternalAccess`, `AccessOutcomes`, `AccessControl`: the grants of one user and the watermark of the last token. The stored hash of the mapped grants is modelled by the grants themselves.
- `Connections`, `Registry`: one bridge connection with its bounded queue, and the registration and shutdown of sockets.
- `Facets`, `FacetRuns`: reordering facets under a unique index that is checked row by row, and the runs that lead there.

## Results a reader may not expect

- The comment at internal/domain/domainversion/canonical.go:37-38 promises an idempotent form. A document of a collection named "bindings" whose reference is moved to its section's root gets `root-bindings`, which the next pass deletes. `CanonicalForm.SettlesExactly` states when one pass is enough; the second pass always is.
- `integerValue` drops a fraction, so a query with `sourceVersion` 1.7 is upgraded to 2. Numbers are modelled as reals and the model does the same.
- A configuration moved to a typed folder is reported as moved and gains a revision, but configurations have no typed placement (`ForestSafety.MoveReaches`).
- The path of the watermark without a write compares the mapped grants by workspace identity, not by workspace. A workspace can be renamed (internal/repo/postgres/workspaces_repository.go:115-117), and when another one takes its name, the same token keeps the role in the first (`ExternalAccess.RenameIsMissed`). `ExternalAccess.ExactExactly` states when the path is exact.
- The first statement of a facet reorder adds 1000000 to every position, and the unique index is checked row by row. New and restored facets go behind the last active one, so a workspace that has had at most a million of them in all is safe (`FacetRuns.ReorderIsSafe`); one more, by restoring and deleting two facets in turn, is enough for two active facets to stand exactly that far apart (`FacetRuns.OneMoreCollides`).
- Handle looks the session up once, before its last section. A call that names a session requested only after that look-up accepts it without a Check of its controller in that call (`BridgeHandle.EarlyCallIsNotRechecked`); in every other case the controller was checked (`BridgeHandle.ClientIsRechecked`). Session identifiers are random.
- Nothing promises that a keep-alive only prolongs a lease, and it does not: the gateway may grant less idle time than before, and the answer of an earlier call may come after that of a later one (`MockLease.ShortensExactly`, `MockLease.OvertakingShortens`).

## Model

| member | source | states |
|---|---|---|
| BridgeSafety.RunKeepsInv | internal/usecase/bridge/usecase.go:77-362 | After any run of joins, refreshes, messages, leaves and sweeps: both endpoints of every session are registered peers of the right role, the configurator may debug the session's workspace under its last refreshed projection, no client is in two sessions, every command belongs to an active session, no session has more than 8 commands, no peer bucket exceeds 64, and every accepted request is either pending without a reply or has exactly one reply to its asker |
| BridgeSafety.DispatchKeepsInv | internal/usecase/bridge/usecase.go:175-211 | One message, whatever its kind and outcome, keeps that invariant |
| BridgeSafety.JoinKeepsInv | internal/usecase/bridge/usecase.go:98-116 | A join keeps the invariant |
| BridgeSafety.AddedPeer | internal/usecase/bridge/usecase.go:103-111 | The single count made at a join keeps both limits: 64 peers per role and workspace and 64 discovery peers per user |
| BridgeSafety.RefreshKeepsInv | internal/usecase/bridge/usecase.go:135-150 | A refresh of the projection keeps it, because sessions that are no longer allowed end |
| BridgeSafety.RevocationEndsSession | internal/usecase/bridge/usecase.go:140-146 | A refresh that no longer allows a session's workspace removes the session and all its commands |
| BridgeSafety.LeaveKeepsInv | internal/usecase/bridge/usecase.go:305-319 | A leave keeps the invariant |
| BridgeSafety.LeaveReleases | internal/usecase/bridge/usecase.go:305-319 | After a leave the peer is gone and takes part in no session |
| BridgeSafety.RequestKeepsInv | internal/usecase/bridge/usecase.go:213-234 | A session request keeps the invariant |
| BridgeSafety.AcceptKeepsInv | internal/usecase/bridge/usecase.go:236-250 | An accept or decline keeps it |
| BridgeSafety.CommandKeepsInv | internal/usecase/bridge/usecase.go:252-283 | A command, delivered or not, keeps it |
| BridgeSafety.ResultKeepsInv | internal/usecase/bridge/usecase.go:199-207 | A command result keeps it |
| BridgeSafety.ExpireKeepsInv | internal/usecase/bridge/usecase.go:328-342 | A sweep keeps it |
| BridgeSafety.ExpireIsExact | internal/usecase/bridge/usecase.go:328-342 | After a sweep exactly the sessions with a later deadline are left and exactly the commands with a later deadline in them |
| BridgeSafety.CloseKeepsTables | internal/usecase/bridge/usecase.go:344-362 | Ending any set of sessions keeps exclusiveness, the command limit and the accounting of replies even when the peers are already gone |
| BridgeSafety.TimeoutKeepsTables | internal/usecase/bridge/usecase.go:334-341 | Dropping the late commands keeps them too |
| BridgeSafety.AnswersAreFinal | internal/usecase/bridge/usecase.go:199-362 | No later event sends a second result for an answered request |
| BridgeSafety.DispatchIsFinal | internal/usecase/bridge/usecase.go:175-211 | The same for a single message, whatever it is |
| BridgeSafety.Conservation | internal/usecase/bridge/usecase.go:199-362 | Accepted requests = answered requests + inactive sessions + pending commands |
| BridgeSafety.AllAnsweredInTime | internal/usecase/bridge/usecase.go:199-362 | After any run, a sweep the request time after its last event leaves every accepted request answered exactly once, to the peer that asked |
| BridgeSafety.CommandsPerClient | internal/usecase/bridge/usecase.go:263-271 | At most eight pending commands for each registered client |
| BridgeSafety.LateClientIsSilent | internal/usecase/bridge/usecase.go:161-174 | Once a session is gone, a late accept, result or event of its client has no effect beyond the sweep |
| BridgeHandle.ClientIsRechecked | internal/usecase/bridge/usecase.go:154-211 | A call of Handle, with any steps of others between its sections, lets an acceptance, a result or an event of a client take effect only if authorization answered during that call that the session's controller may debug its workspace, or the session was requested after the call looked it up |
| BridgeHandle.CommandIsRechecked | internal/usecase/bridge/usecase.go:154-211 | The same for a command and the authorization of its sender |
| BridgeHandle.EarlyCallIsNotRechecked | internal/usecase/bridge/usecase.go:161-174 | The exception occurs: a run in which an acceptance takes effect although nothing was looked up and no Check of the controller ran after that |
| BridgeHandle.SurvivorIsAllowed | internal/usecase/bridge/usecase.go:119-151 | A session that was requested before a Check of its controller passed, and still lives, was allowed by what authorization answered in it |
| BridgeHandle.DroppedIsGone | internal/usecase/bridge/usecase.go:170-173 | A session whose controller was made to leave never lives again |
| BridgeHandle.LivedThrough | internal/usecase/bridge/usecase.go:119-362 | A session requested before one moment that lives at a later one lived in between with the same endpoints, and its controller never left |
| BridgeOutcomes.ClientDecides | internal/usecase/bridge/usecase.go:175-362 | In every run the client decides: until it has accepted a session or sent a command's result itself, the session is not active, the command waits and nothing but one error was told; afterwards the sender was told exactly that, and an accepted session is active for 30 minutes at most |
| BridgeOutcomes.ActiveWasAccepted | internal/usecase/bridge/usecase.go:236-250 | In every run an active session was accepted by its own client, 30 minutes before it runs out |
| BridgeOutcomes.AnswerDecides | internal/usecase/bridge/usecase.go:236-250 | Accepting activates the pending session for 30 minutes and tells its asker a success; declining removes it and tells an error; other sessions stay |
| BridgeOutcomes.RequestOutcome | internal/usecase/bridge/usecase.go:213-234 | A session request is granted exactly under the listed conditions on both peers, and then waits 45 seconds |
| BridgeOutcomes.RequestsPause | internal/usecase/bridge/usecase.go:221-227 | Two granted requests of one participant lie at least five seconds apart, in every run |
| BridgeOutcomes.CommandOutcome | internal/usecase/bridge/usecase.go:252-283 | A command goes through exactly under the listed conditions, waits 45 seconds for its result, and ends its session with an error when it cannot be delivered |
| BridgeOutcomes.ResultOutcome | internal/usecase/bridge/usecase.go:199-207 | A result of the session's client reaches the sender under its own request id with the client's error, and nothing else is taken as one |
| BridgeOutcomes.EventOutcome | internal/usecase/bridge/usecase.go:286-302 | An event is taken exactly from the client of an active session within its size limit, and ends the session only when it is not delivered |
| BridgeOutcomes.EndOutcome | internal/usecase/bridge/usecase.go:181-190 | Either member ends a session and nobody else |
| BridgeOutcomes.RefreshOutcome | internal/usecase/bridge/usecase.go:135-146 | A refresh ends exactly the sessions of the peer that the new roles do not allow |
| BridgeOutcomes.LeaveOutcome | internal/usecase/bridge/usecase.go:305-319 | A leave ends exactly the sessions the peer takes part in |
| BridgeOutcomes.HelloIsAdmitted | internal/usecase/bridge/usecase.go:77-116 | A hello is admitted exactly under the listed conditions, and the newcomer is as the hello says |
| Bridge.CheckHello | internal/usecase/bridge/usecase.go:78-86 | The checks of a hello accept exactly the valid ones |
| Bridge.UseCase.Join | internal/usecase/bridge/usecase.go:77-116 | The method leaves the tables exactly as the specification says and succeeds exactly when the hello is admitted |
| Bridge.UseCase.Refresh | internal/usecase/bridge/usecase.go:119-151 | The second section of Check, including the participant identity test, matches the specification |
| Bridge.UseCase.Leave | internal/usecase/bridge/usecase.go:305-319 | Leave ends all sessions of the peer at once, whatever order the loop takes |
| Bridge.UseCase.RequestSession | internal/usecase/bridge/usecase.go:213-234 | The request loop over sessions decides exactly the specified acceptance |
| Bridge.UseCase.AcceptSession | internal/usecase/bridge/usecase.go:236-250 | Accepting and declining match the specification, whose outcome is BridgeOutcomes.AnswerDecides |
| Bridge.UseCase.RequestCommand | internal/usecase/bridge/usecase.go:252-283 | The command checks, count and delivery failure match the specification |
| Bridge.UseCase.ForwardEvent | internal/usecase/bridge/usecase.go:286-302 | An event changes nothing unless delivery fails, which ends the session |
| Bridge.UseCase.Dispatch | internal/usecase/bridge/usecase.go:175-211 | The routing of all message kinds matches the specification, and the call succeeds exactly for the messages the specification accepts |
| Bridge.UseCase.Expire | internal/usecase/bridge/usecase.go:328-342 | The two loops of the sweep together are the specified sweep |
| Bridge.UseCase.End | internal/usecase/bridge/usecase.go:344-362 | Ending one session answers an unanswered request and its commands and drops them |
| Bridge.UseCase.EndAll | internal/usecase/bridge/usecase.go:313-317 | Ending sessions one after the other is ending them together |
| Bridge.EndCommands | internal/usecase/bridge/usecase.go:353-358 | The loop of end answers and drops exactly the commands of the session |
| Bridge.ExpireCommands | internal/usecase/bridge/usecase.go:334-341 | The second loop of expire drops exactly the late commands, answering those whose session is left |
| Bridge.CountBucket | internal/usecase/bridge/usecase.go:103-108 | The loop counts exactly the peers of the newcomer's bucket |
| Bridge.CountPending | internal/usecase/bridge/usecase.go:263-268 | The loop counts exactly the commands of the session |
| Bridge.CloseOneMore | internal/usecase/bridge/usecase.go:344-362 | Ending one more session after others equals ending all of them at once |
| CanonicalForm.SettlesExactly | internal/domain/domainversion/canonical.go:37-152 | The promise of idempotence holds exactly for the bundles in which no document of a "bindings" collection has its folder reference moved to the root |
| CanonicalForm.CanonicalizeSettles | internal/domain/domainversion/canonical.go:37-152 | For those bundles canonicalizing twice is canonicalizing once |
| CanonicalForm.ReferenceIsLost | internal/domain/domainversion/canonical.go:172-182 | A re-rooted binding loses its reference in the second pass |
| CanonicalForm.OnePassIsNotEnough | internal/domain/domainversion/canonical.go:172-182 | The smallest bundle for which idempotence fails |
| CanonicalForm.TwoPassesSettle | internal/domain/domainversion/canonical.go:37-152 | For every bundle the second pass reaches a fixed point |
| CanonicalForm.ReferenceSettles | internal/domain/domainversion/canonical.go:163-184 | A normalized folder reference is not normalized again, although the second pass no longer sees the dropped legacy folders |
| CanonicalForm.RewriteSettles | internal/domain/domainversion/canonical.go:128-148 | The whole collection pass over one document is idempotent |
| CanonicalForm.PrepareSettles | internal/domain/domainversion/canonical.go:76-112 | The passes before it do nothing to a document that went through both |
| CanonicalForm.FolderTypesSettle | internal/domain/domainversion/canonical.go:122-148 | The folder types of the second pass are those of the first without the legacy folders |
| CanonicalForm.WorkspaceSettles | internal/domain/domainversion/canonical.go:58-70 | The workspace rewriting is idempotent |
| CanonicalForm.ConfigurationSettles | internal/domain/configuration/sfc_editing.go:6-23 | Removing the SSE setting and adding editing defaults to a configuration is idempotent |
| CanonicalForm.SSESettles | internal/domain/configuration/legacy.go:19-33 | Removing SSE overrides from a document is idempotent |
| CanonicalForm.KindsSettle | internal/domain/domainversion/canonical.go:44-75 | The set of collections is settled by one pass |
| CanonicalForm.CanonicalIsClean | internal/domain/domainversion/canonical.go:76-150 | No document of the canonical form has state, a legacy action or vocab, query version 1, an SSE override, a misplaced folder reference or a missing workspace folder |
| CanonicalForm.CanonicalIsComplete | internal/domain/domainversion/canonical.go:72-120 | Legacy components are merged away and the workspace root folder is present |
| CanonicalForm.RewriteFrame | internal/domain/domainversion/canonical.go:128-148 | The collection pass leaves every other field of a document as it is |
| CanonicalOutcomes.ReferenceIsHome | internal/domain/domainversion/canonical.go:163-184 | A folder reference stays when it names a folder of its own section or an unknown one, goes to the root of its section when it names another root or a folder of another section, and is dropped when it names one of the two removed folders |
| CanonicalOutcomes.TypesAreDeclared | internal/domain/domainversion/canonical.go:122-125 | The type of a folder is what the last folder of that identity in the bundle declares |
| CanonicalOutcomes.CollectionIs | internal/domain/domainversion/canonical.go:72-151 | Every document outside the folders has its place in the canonical form, and is told part by part: its references, SSE settings, version, migrated source, and every other key as it was |
| CanonicalOutcomes.CollectionsAre | internal/domain/domainversion/canonical.go:46-75 | The collections of the canonical form are those of the bundle, the four that are always there, and components for legacy components |
| CanonicalOutcomes.FoldersAre | internal/domain/domainversion/canonical.go:92-141 | The canonical folders are those of the bundle but for the four old ones, in their order, with defaults for missing fields only, and the workspace root behind them if there is none |
| CanonicalOutcomes.WorkspaceIs | internal/domain/domainversion/canonical.go:55-70 | The workspace loses its state and SSE settings; a document structure and editing settings that are there win over the defaults; every other key stays |
| CanonicalOutcomes.BaseUrlIs | internal/domain/domainversion/canonical.go:208-229 | A base URL that is an environment name in braces becomes a reference to the environment, any other a text |
| CanonicalOutcomes.MigrationsAre | internal/domain/domainversion/canonical.go:76-91 | The report counts exactly the actions and vocabularies that got a source |
| CanonicalOutcomes.FoldersIgnored | internal/domain/domainversion/canonical.go:134-138 | The report counts exactly the old folders |
| CanonicalOutcomes.CountedReferences | internal/domain/domainversion/canonical.go:163-184 | A document is counted exactly when one of its folder references changes, or when it names its own root and a folder of another type has that identity |
| CanonicalOutcomes.DefaultsAreReported | internal/domain/domainversion/canonical.go:65-70 | The report tells whether the configuration got an editing default |
| PortableBundle.PortableBundle.CanonicalizeInPlace | internal/domain/domainversion/canonical.go:39-152 | The rewriting in place yields the canonical form and counts exactly the ignored folders, the normalized references, the migrated actions and vocabs and the added defaults |
| PortableBundle.RewriteDocuments | internal/domain/domainversion/canonical.go:72-151 | The loops over the documents together yield the formula of each collection and the counts of the report |
| PortableBundle.RewriteCollections | internal/domain/domainversion/canonical.go:126-150 | The collection pass, visiting collections in any order, rewrites each as if alone and adds up the same counts |
| PortableBundle.RewriteCollection | internal/domain/domainversion/canonical.go:127-149 | The inner loop drops exactly the legacy folders, rewrites the rest in order and counts both |
| PortableBundle.MigrateActions | internal/domain/domainversion/canonical.go:76-86 | The loop migrates every action without a source |
| PortableBundle.MigrateVocabs | internal/domain/domainversion/canonical.go:87-91 | The loop migrates every legacy payload vocab |
| PortableBundle.DefaultFolders | internal/domain/domainversion/canonical.go:92-120 | The folder loop sets the defaults and the missing workspace root is appended |
| PortableBundle.MergeLegacy | internal/domain/domainversion/canonical.go:44-75 | The defaults for missing collections and the merge of legacy components |
| PortableBundle.CollectFolderTypes | internal/domain/domainversion/canonical.go:122-125 | The loop collects the type of the last folder of each identity |
| PortableBundle.PortableBundle.Attach | internal/domain/domainversion/domain_version.go:126-137 | Attach leaves the canonical form with the version computed from it |
| PortableBundle.HashedItems | internal/domain/domainversion/domain_version.go:65-88 | Cloning, dropping state and sorting one collection matches the specification of the hashed value |
| PortableBundle.PortableFields | internal/domain/domainversion/domain_version.go:106-114 | The loop keeps exactly the portable workspace keys |
| DomainVersion.OneVersionExactly | internal/domain/domainversion/domain_version.go:35-41 | A bundle and its canonical form have one version exactly when one pass settles the bundle |
| VersionContent.VersionsExactly | internal/domain/domainversion/domain_version.go:35-42 | Two bundles have one version exactly when their canonical forms agree in kind, schema version, the seven portable workspace fields, the collections and the documents of each, whatever their order |
| VersionContent.PortableExactly | internal/domain/domainversion/domain_version.go:60-103 | The same for the hashed value of bundles as they are |
| VersionContent.DeclaredLegacy | internal/domain/domainversion/domain_version.go:46-58 | A declared version of the first format is recomputed in that format over the bundle as it came |
| VersionContent.DeclaredExactly | internal/domain/domainversion/domain_version.go:139-157 | A declared version is accepted exactly when it has one of the two formats and 64 hexadecimal digits |
| DomainVersion.VersionOfCanonicalForm | internal/domain/domainversion/domain_version.go:35-41 | Canonicalizing a settled bundle does not change its version |
| DomainVersion.VersionIsStable | internal/domain/domainversion/domain_version.go:35-41 | From the first canonical form on the version no longer changes |
| DomainVersion.VersionForgetsOrder | internal/domain/domainversion/domain_version.go:60-90 | The version does not depend on the order of documents in a collection when folders of one identity agree on their type and different documents of a collection have different texts |
| DomainVersion.SomeTextOrders | internal/domain/domainversion/domain_version.go:174-177 | Every bundle has document texts that meet that premise |
| DomainVersion.VersionForgetsState | internal/domain/domainversion/domain_version.go:71-71 | Document state reaches neither the canonical form nor the version |
| DomainVersion.VersionForgetsLocalWorkspace | internal/domain/domainversion/domain_version.go:105-114 | Workspace keys outside the portable ones do not reach the version |
| DomainVersion.LessIsTotal | internal/domain/domainversion/domain_version.go:74-88 | The comparator is total on documents with different texts: ties are equal documents |
| DomainVersion.LessIsTransitive | internal/domain/domainversion/domain_version.go:74-88 | The comparator is transitive although facet documents compare one more key |
| DomainVersion.DeclaredCurrent | internal/domain/domainversion/domain_version.go:46-58 | A declared version of the current format is verified by recomputing the current one |
| DomainVersion.AttachedVersionVerifies | internal/domain/domainversion/domain_version.go:46-58 | The version an export carries is the one an import verifies, and re-exporting keeps it |
| RevisionHistory.RunKeepsInv | internal/usecase/commits/create.go:25-72 | After any run of recordings and commits each commit starts where its parent ends, a revision belongs to exactly the commit whose range holds its sequence, revisions point to the previous surviving one of their document, numbers rise, identifiers are distinct, and every commit's changes say what moved from its base to its head |
| RevisionHistory.HistoryHolds | internal/usecase/workspaces/commands.go:145-165 | In particular it holds after every run of a new workspace |
| HistoryContent.ExportsAreRecorded | internal/repo/postgres/releases_repository.go:111-130 | In every run, at the head of the workspace and of every commit, a document is exported as it was last recorded up to there |
| HistoryContent.ExportAnywhere | internal/repo/postgres/releases_repository.go:111-130 | At any other head the revision exported is the last one recorded exactly when a squash has not folded that one into a later one |
| HistoryContent.PreservedExports | internal/repo/postgres/releases_repository.go:111-130 | Without squashes every export at every head is what was last recorded |
| HistoryContent.EveryoneIsCredited | internal/repo/postgres/commits_repository.go:144-166 | Everyone who recorded a change is named by a revision of that document at or behind it, and a revision that was not squashed is told as it was recorded |
| HistoryContent.RecordIs | internal/usecase/history/recorder.go:39-61 | A recording appends one revision with the document, operation, snapshot and author it was given; its export changes for that document alone |
| HistoryContent.RecordChains | internal/usecase/history/recorder.go:116-127 | It points to the revision its document had before and counts one further |
| HistoryContent.NumbersCount | internal/usecase/history/recorder.go:39-61 | In every run a revision is numbered by how often its document had been recorded by then |
| HistoryContent.CreateExactly | internal/usecase/commits/create.go:14-46 | A commit is created exactly when the policy is known, the caller has seen the head, something is pending, and a squash of the work of others is an admin's |
| HistoryContent.CreatedIs | internal/usecase/commits/create.go:47-74 | The new commit follows the latest one up to the head, and exactly the pending revisions belong to it |
| HistoryContent.SquashedIs | internal/repo/postgres/commits_repository.go:119-174 | A squash leaves exactly the last pending revision of each document, with its snapshot and number, told as the work of the actor with everyone else named |
| HistoryContent.OwnWorkOnly | internal/usecase/commits/create.go:40-46 | Who is no admin squashes only work of his own, in every run |
| HistoryContent.BootstrappedIs | internal/usecase/workspaces/commands.go:145-165 | The first commit reaches from the start to the head and holds everything recorded so far |
| RevisionHistory.RecordKeepsInv | internal/usecase/history/recorder.go:39-61 | Recording keeps the invariant |
| RevisionHistory.HighestIsLatest | internal/repo/postgres/revisions_repository.go:29-32 | The revision with the highest number is the latest one, so the recorded parent is the previous revision |
| RevisionHistory.CreateKeepsInv | internal/usecase/commits/create.go:25-72 | Creating a commit, preserving or squashing, keeps the invariant |
| RevisionHistory.BootstrapKeepsInv | internal/usecase/workspaces/commands.go:145-165 | The first commit of a workspace establishes it |
| RevisionHistory.CommitsAreImmutable | internal/repo/postgres/commits_repository.go:119-174 | No later recording, squash or commit changes a commit or what it exports |
| RevisionHistory.CommitExportsHead | internal/usecase/commits/create.go:47-73 | A new commit, squashed or not, exports what the workspace showed and leaves nothing pending |
| RevisionHistory.CommitsPartition | internal/repo/postgres/commits_repository.go:72-118 | Every committed revision lies in the range of exactly one commit and carries its identifier |
| RevisionHistory.SquashKeepsBelow | internal/repo/postgres/commits_repository.go:119-174 | A squash changes no export at or below its base |
| RevisionHistory.SquashKeepsHead | internal/repo/postgres/commits_repository.go:119-174 | A squash changes no export at the head |
| RevisionHistory.SquashedExport | internal/repo/postgres/releases_repository.go:111-130 | What a squash makes of every export in between |
| RevisionHistory.SquashKeepsChanges | internal/usecase/commits/create.go:78-94 | Squashing changes neither which documents a commit touches, nor the revision each starts from, nor the snapshot of the revision each ends in |
| RevisionHistory.SquashKeepsContributors | internal/repo/postgres/commits_repository.go:144-166 | A squashed revision names exactly those who wrote a revision of its group |
| RevisionHistory.SquashChains | internal/repo/postgres/commits_repository.go:87-111 | After a squash every revision again points to the previous surviving one |
| RevisionHistory.SpansExplain | internal/usecase/commits/create.go:78-94 | The changes run, per document, from the state of the base to the last pending revision |
| Revisions.Workspace.RecordDocument | internal/usecase/history/recorder.go:39-61 | The method appends the specified revision |
| Revisions.Workspace.Create | internal/usecase/commits/create.go:14-75 | The method refuses in the specified order or leaves exactly the specified state |
| Revisions.SquashPending | internal/repo/postgres/commits_repository.go:119-174 | The loop over the groups, in any order, yields the squashed log and lists its replacements once |
| Revisions.SquashGroup | internal/repo/postgres/commits_repository.go:134-172 | One group is replaced by its squashed revision |
| Revisions.Contributed | internal/repo/postgres/commits_repository.go:145-152 | The loop collects exactly the contributors of the group |
| Revisions.Changes | internal/usecase/commits/create.go:78-94 | Grouping and listing yields one row per document in the order of first appearance |
| Revisions.GroupRevisions | internal/usecase/commits/create.go:79-86 | The loop groups the revisions and lists the documents in the order they are first seen |
| Revisions.SpansForgetOrder | internal/repo/postgres/commits_repository.go:129-134 | The order in which a squash returns its revisions does not show in the changes |
| Revisions.HasForeign | internal/usecase/commits/create.go:41-45 | The loop finds a revision of another author exactly when there is one |
| MockSafety.RunKeepsInv | internal/usecase/mock_data/usecase.go:129-304 | Every state of every interleaving of the threads satisfies the protocol invariant |
| MockSafety.Capacity | internal/usecase/mock_data/usecase.go:134-164 | Streams being created, registered or stopping never exceed the limits in all or per actor; the raw counter never exceeds twice the limit; every key of pending is positive and counts its reservations |
| MockSafety.RefusedOnlyWhenUsed | internal/usecase/mock_data/usecase.go:151-154 | A capacity refusal means that at least half of a limit is really in use |
| MockSafety.HoldIsPending | internal/usecase/mock_data/usecase.go:157-164 | A reservation is in pending when it is released, so the counter never goes negative |
| MockSafety.AdmitKeepsInv | internal/usecase/mock_data/usecase.go:134-156 | An admission keeps the invariant |
| MockSafety.CallKeepsInv | internal/usecase/mock_data/usecase.go:157-285 | So does every step of a call, its session and its cleanup |
| MockSafety.FinishedStaysOut | internal/usecase/mock_data/usecase.go:171-178 | A finished session is never registered again |
| MockSafety.ClosedStaysEmpty | internal/usecase/mock_data/usecase.go:67-75 | After Close has returned no session is registered in any later state |
| MockSafety.StoppedOnce | internal/usecase/mock_data/usecase.go:263-285 | No upstream stream is stopped twice, and a settled one is stopped exactly once unless it is still registered |
| MockSafety.CloseReleasesAll | internal/usecase/mock_data/usecase.go:67-75 | When everything has settled after Close, every created stream was stopped exactly once and all capacity is free |
| MockSafety.StepsRunOut | internal/usecase/mock_data/usecase.go:129-304 | Every step but an admission lowers the rank, and a closed use case admits no one |
| MockSafety.NotStuck | internal/usecase/mock_data/usecase.go:129-304 | As long as a call is unsettled or Close is under way some such step is possible |
| MockSafety.StepsLeft | internal/usecase/mock_data/usecase.go:67-75 | The rank bounds how many steps any run can still take after Close has begun |
| MockSafety.CloseCompletes | internal/usecase/mock_data/usecase.go:67-75 | Where such a run can go no further, Close has returned, every created stream was stopped exactly once and all capacity is free |
| MockOutcomes.AdmitOutcome | internal/usecase/mock_data/usecase.go:129-164 | A call is admitted exactly while the use case is open and the calls, cleanups and sessions counted in all and for its actor are below their limits |
| MockOutcomes.RegistrationOutcome | internal/usecase/mock_data/usecase.go:165-180 | A created stream is registered for its owner exactly when its caller has not gone away and the use case is open |
| MockOutcomes.FoundByItsOwner | internal/usecase/mock_data/usecase.go:190-209 | In every state of every run a session is found only by the owner whose own call was admitted |
| MockUseCase.UseCase.Admit | internal/usecase/mock_data/usecase.go:134-156 | The admission section is the admission step of the protocol, with the counts taken by loops |
| MockUseCase.InUseNow | internal/usecase/mock_data/usecase.go:135-146 | The loops over pending and sessions compute the two counts |
| MockUseCase.UseCase.Register | internal/usecase/mock_data/usecase.go:171-178 | The registration section is the entering step, followed by the registering step exactly when the checks pass |
| MockUseCase.UseCase.Finish | internal/usecase/mock_data/usecase.go:266-270 | The section of finish is the protocol step that turns the slot into a reservation for the cleanup |
| MockUseCase.UseCase.Release | internal/usecase/mock_data/usecase.go:157-164 | A release is the protocol step of the call or of the cleanup it belongs to |
| MockUseCase.UseCase.Listed | internal/usecase/mock_data/usecase.go:286-292 | What reap lists for Close is what the protocol says Close has to finish |
| MockBudget.GrantedFits | internal/usecase/mock_data/usecase.go:361-368 | However reservers interleave, granted and unreleased bytes fit the budget |
| MockBudget.GrantedExactly | internal/usecase/mock_data/usecase.go:361-367 | Without a compensation outstanding a reservation is granted exactly when it fits |
| MockBudget.CounterMayExceed | internal/usecase/mock_data/usecase.go:361-367 | The counter itself may pass the budget |
| MockBudget.Budget.ReserveBytes | internal/usecase/mock_data/usecase.go:361-367 | Among any other reservers a reservation is granted exactly when the counter with it is within the limit, and a refused one is gone in the end |
| MockBudget.OthersInterfere | internal/usecase/mock_data/usecase.go:361-368 | What a reservation has to expect in between covers every step of another reserver |
| MockLease.LeaseHolds | internal/usecase/mock_data/usecase.go:190-360 | Whatever calls overlap: at most one subscriber, an expiry at most the larger timeout ahead, and no keep-alive prolongs a session nobody subscribed to |
| MockLease.Session.Find | internal/usecase/mock_data/usecase.go:190-209 | A session is found exactly while its lease lasts; an ended one is finished |
| MockLease.Session.Prolong | internal/usecase/mock_data/usecase.go:245-253 | The lease is prolonged exactly for a live session with a subscriber |
| MockLease.Session.Claim | internal/usecase/mock_data/usecase.go:335-345 | The subscription is claimed exactly once, by a call that finds the session live |
| MockLease.ShortensExactly | internal/usecase/mock_data/usecase.go:245-252 | When exactly an answered keep-alive moves the expiry back |
| MockLease.OvertakingShortens | internal/usecase/mock_data/usecase.go:240-252 | When the gateway grants the whole idle time, of two answers the second moves the expiry back exactly when its call was sent first |
| MockLease.SomeRunShortens | internal/usecase/mock_data/usecase.go:235-254 | A run from the creation of a session in which that happens |
| MockOutcomes.ExpiryIsGranted | internal/usecase/mock_data/usecase.go:235-254 | In every run a session runs out when the last granting answer says, counted from when that call was sent, and before the first one when it was created to run out |
| MockOutcomes.SentThen | internal/usecase/mock_data/usecase.go:235-254 | What a call in flight counts from is the time at which it was sent |
| MockOutcomes.EndsExactly | internal/usecase/mock_data/usecase.go:190-322 | Exactly these steps end a session: cancelling, looking for it or reaping it after it has run out, keeping it alive then or without a subscriber, and the end of its subscription |
| MockOutcomes.ClaimsExactly | internal/usecase/mock_data/usecase.go:330-360 | A subscriber is let in exactly when there is none and the session is live |
| ForestSafety.RunKeepsInv | internal/usecase/documents/commands.go:16-239 | After any run of commands the parent graph, deleted folders included, is acyclic, and every active row lies in active folders of the right section |
| ForestSafety.CreateFolderKeepsInv | internal/usecase/documents/commands.go:16-57 | A new folder keeps that |
| ForestSafety.PatchRowKeepsInv | internal/usecase/documents/commands.go:60-128 | A patch keeps it, thanks to the cycle check |
| ForestSafety.HangKeepsAcyclic | internal/usecase/documents/commands.go:106-117 | Hanging a folder below one that is not below it creates no cycle |
| ForestSafety.DeleteRowKeepsInv | internal/usecase/documents/commands.go:131-195 | A delete with its re-parenting keeps it |
| ForestSafety.DeleteSucceeds | internal/usecase/documents/commands.go:152-178 | Deleting an active user folder never fails once the revision matches |
| ForestSafety.RestoreFolderKeepsInv | internal/usecase/documents/commands.go:198-239 | A restored folder below its root creates no cycle although restore checks none |
| ForestSafety.CreateDocumentKeepsInv | internal/usecase/documents/commands.go:16-57 | A new document keeps the invariant |
| ForestSafety.PatchDocumentRowKeepsInv | internal/usecase/documents/commands.go:60-128 | A document patch keeps it |
| ForestSafety.DeleteDocumentKeepsInv | internal/usecase/documents/commands.go:131-195 | A document delete keeps it |
| ForestSafety.DeleteDocumentSucceeds | internal/usecase/documents/commands.go:152-158 | Deleting an active document only marks it: its placements resolve to themselves |
| ForestSafety.RestoreDocumentKeepsInv | internal/usecase/documents/folders.go:82-99 | A document restore keeps it |
| ForestSafety.RestoreSucceeds | internal/usecase/documents/folders.go:82-99 | While the roots exist a deleted document can be restored; placements that are active are kept |
| ForestSafety.MoveIsExact | internal/usecase/documents/move.go:97-159 | A move is all or nothing: listed documents end in the target folder with one revision more or were there already, others are untouched |
| ForestSafety.MovedIs | internal/usecase/documents/move.go:117-136 | A moved document changes in the placement it is moved in and nowhere else |
| ForestSafety.MoveReaches | internal/usecase/documents/move.go:117-158 | After a successful move a listed document lies in the target folder exactly when the move is in the workspace placement or the collection has a typed one; otherwise it only gains a revision |
| ForestSafety.FolderRevisionsTell | internal/repo/postgres/documents_repository.go:247-302 | Over any run a folder at the revision a caller has read is the folder it has read; roots never change |
| ForestSafety.DocumentRevisionsTell | internal/repo/postgres/documents_repository.go:247-302 | The same for documents |
| ForestCommands.NoDocumentUpdateIsLost | internal/usecase/documents/commands.go:60-239 | A command that succeeds with the revision its caller has read finds the document its caller has read, whatever was done in between |
| ForestCommands.NoFolderUpdateIsLost | internal/usecase/documents/commands.go:60-239 | The same for folders |
| ForestCommands.ReadsDocument | internal/usecase/documents/commands.go:60-239 | Every command on a document that carries an expected revision, moves included, succeeds only when the document has it |
| ForestCommands.ReadsFolder | internal/usecase/documents/commands.go:60-239 | The same for folders |
| ForestCommands.PatchSucceeds | internal/usecase/documents/commands.go:60-128 | A document patch succeeds exactly on the revision read, when it is valid and asks for nothing or for active folders and a free identity |
| ForestCommands.PatchedIs | internal/usecase/documents/commands.go:60-128 | Given fields are as given and absent ones as they were, the revision counts one further unless nothing changes, and no other row is touched |
| ForestCommands.CreatedIs | internal/usecase/documents/commands.go:16-58 | A document is created exactly when it is valid, its folders are active and its identity is free, and is what was asked for |
| ForestCommands.DeletedIs | internal/usecase/documents/commands.go:131-196 | A document delete succeeds exactly on the revision read and only marks the document |
| ForestCommands.RestoreSucceedsExactly | internal/usecase/documents/commands.go:198-239 | A document restore succeeds exactly on the revision read when the roots it may need are there |
| ForestCommands.RestoredIs | internal/usecase/documents/commands.go:198-239 | Every placement that is still active is kept, the others fall back to their root |
| ForestCommands.FolderCreatedIs | internal/usecase/documents/commands.go:16-58 | A folder is created exactly when it is valid, no root, its parent active and its identity free, and is what was asked for |
| ForestCommands.FolderPatchSucceeds | internal/usecase/documents/commands.go:60-128 | A folder patch succeeds exactly on the revision read, for a user folder that stays in its section, when it asks for nothing or for a free identity and a place that makes no circle |
| ForestCommands.FolderPatchedIs | internal/usecase/documents/commands.go:60-128 | Given fields of a folder are as given and absent ones as they were |
| ForestCommands.FolderDeleteSucceeds | internal/usecase/documents/commands.go:131-196 | A folder delete succeeds exactly on the revision read, for a folder that is deleted already or is neither a root nor system managed |
| ForestCommands.FolderDeletedIs | internal/usecase/documents/commands.go:131-196 | Exactly the active folders and documents in a deleted folder go to its parent |
| ForestCommands.FolderRestoredIs | internal/usecase/documents/commands.go:198-239 | A restored folder hangs below the root of its section |
| ForestCommands.MoveSucceeds | internal/usecase/documents/move.go:20-159 | Up to 500 different documents move together exactly when every one is active, at the revision read and may lie in the target |
| ForestSafety.BootstrapInv | internal/usecase/workspaces/commands.go:79-112 | The root folders of a new workspace satisfy the invariant |
| Lifecycle.FolderWouldCycle | internal/repo/postgres/documents_repository.go:427-435 | The ancestor walk terminates and finds a cycle exactly when the folder is above the new parent |
| Lifecycle.MoveFolders | internal/repo/postgres/documents_repository.go:373-397 | The loop re-parents exactly the active child folders |
| Lifecycle.MoveContents | internal/repo/postgres/documents_repository.go:373-397 | The loop moves exactly the active contents, in the column the folder's scope selects |
| Lifecycle.ResolveFolder | internal/repo/postgres/documents_repository.go:407-425 | A folder is resolved exactly by identity, section and being active |
| Lifecycle.PatchFolderRow | internal/usecase/documents/commands.go:77-126 | The checks of a folder patch, in order |
| Lifecycle.DeleteFolderRow | internal/usecase/documents/commands.go:139-178 | The steps of a folder delete |
| Lifecycle.Catalog.CreateFolder | internal/usecase/documents/commands.go:16-57 | The method leaves the specified state with the new folder or reports the specified error |
| Lifecycle.Catalog.RestoreFolder | internal/usecase/documents/commands.go:198-239 | The same for bringing a folder back below its root |
| Lifecycle.Catalog.CreateDocument | internal/usecase/documents/commands.go:16-57 | The same for a new document in both placements |
| Lifecycle.Catalog.PatchDocument | internal/usecase/documents/commands.go:60-128 | The same for a document patch |
| Lifecycle.Catalog.DeleteDocument | internal/usecase/documents/commands.go:131-195 | The same for a document delete |
| Lifecycle.Catalog.RestoreDocument | internal/usecase/documents/commands.go:198-239 | The same for a document restore |
| Lifecycle.ResolveRestorePlace | internal/usecase/documents/folders.go:82-99 | Each placement is kept when it is active and replaced by its root otherwise |
| Lifecycle.Catalog.PatchFolder | internal/usecase/documents/commands.go:60-128 | The method leaves the specified state and reports the specified error |
| Lifecycle.Catalog.DeleteFolder | internal/usecase/documents/commands.go:131-195 | The same for a delete |
| Lifecycle.ValidateItems | internal/usecase/documents/move.go:64-94 | The loop accepts exactly the lists of 1 to 500 distinct documents with positive revisions |
| Lifecycle.MoveAll | internal/usecase/documents/move.go:97-159 | Preparing everything before writing yields the specified rows, the first error and the count of moved documents |
| Lifecycle.Catalog.MoveDocuments | internal/usecase/documents/move.go:47-164 | The method leaves the specified state and reports the specified error |
| Pointer.ParsePointer | internal/domain/access/policy.go:157-174 | The loop with its two replacements parses exactly as one left-to-right decoding |
| Pointer.TwoReplacementsDecode | internal/domain/access/policy.go:171-171 | Replacing "~1" and then "~0" equals one left-to-right decoding of RFC 6901, section 4 |
| Pointer.Validate | internal/domain/access/policy.go:163-170 | The inner loop accepts exactly the well-formed escapes |
| Pointer.ParseAccepts | internal/domain/access/policy.go:157-174 | Exactly the texts that start with a slash and have well-formed escapes are accepted |
| Pointer.FormatParses | internal/domain/access/policy.go:157-174 | Encoding segments and parsing returns them |
| Pointer.ParseFormats | internal/domain/access/policy.go:157-174 | Parsing a pointer and encoding returns the text |
| Policy.FindValue | internal/domain/access/policy.go:86-106 | The walk enters a list exactly by the plain decimal text of one of its positions and never returns null |
| Policy.MatchesRule | internal/domain/access/policy.go:108-141 | The condition loop matches exactly the specified values |
| Policy.MapClaims | internal/domain/access/policy.go:59-84 | The mapping lists the best grants in strictly increasing key order |
| Policy.BestGrants | internal/domain/access/policy.go:64-74 | The loop keeps the best grant of each key |
| Policy.MapIsMaximal | internal/domain/access/policy.go:59-84 | Exactly one grant for every matched scope and workspace, of the highest role among the matching rules |
| Policy.MapForgetsOrder | internal/domain/access/policy.go:59-84 | Reordering or repeating validated rules changes nothing |
| Policy.MapOfBoth | internal/domain/access/policy.go:59-84 | Mapping two rule lists as one is the pointwise maximum of mapping each |
| Policy.ListedIsUnique | internal/domain/access/policy.go:75-82 | The sorted result is determined by the best grants |
| AccessOutcomes.HighestRoleWins | internal/domain/access/policy.go:59-84 | Of the matching rules for one scope and workspace exactly the highest role is mapped: admin over editor over viewer |
| AccessOutcomes.AppliesExactly | internal/domain/access/policy.go:108-141 | A rule applies to a list of texts that holds the wanted one, or to an equal text, number or truth value |
| AccessOutcomes.PathGoesDeeper | internal/domain/access/policy.go:86-106 | One more segment of a path goes one level deeper: to a field of an object or to the list entry whose position it writes |
| ExternalAccess.RunKeepsInv | internal/usecase/access_control/external.go:49-71 | Over any run the watermark's time never goes back, a named configuration vouches for the stored grants, and memberships mirror them |
| ExternalAccess.AcceptedIsExact | internal/usecase/access_control/external.go:49-71 | An accepted resolution, with or without a write, leaves exactly the snapshot's grants, as long as no listed workspace was renamed since the last write |
| ExternalAccess.ExactExactly | internal/usecase/access_control/external.go:60-71 | For distinct mapped grants an accepted resolution leaves exactly them if and only if it writes or the workspaces and roles they name are those they named at the last write |
| ExternalAccess.MappedAreDistinct | internal/domain/access/policy.go:59-84 | The grants a validated policy maps are distinct |
| ExternalAccess.RenameIsMissed | internal/usecase/access_control/external.go:67-69 | A run in which it fails: a workspace is renamed, another takes its name, and the same token is resolved again |
| ExternalAccess.StaleForEver | internal/usecase/access_control/external.go:61-63 | A token is never accepted after a newer one |
| ExternalAccess.EditForcesWrite | internal/repo/postgres/external_access_repository.go:49-53 | After a local edit the next accepted resolution writes the mapped grants |
| AccessOutcomes.AcceptedExactly | internal/usecase/access_control/external.go:15-73 | A resolution is accepted exactly for an unexpired token of this policy and provider whose workspaces are all there and active and that is not older than the last one or a different one of its time |
| AccessOutcomes.AcceptedOutcome | internal/usecase/access_control/external.go:24-73 | An accepted token leaves exactly the rows its grants ask for and is remembered; a repeated one, or one of an inactive user, changes nothing |
| AccessOutcomes.EditOutcome | internal/repo/postgres/access_control_repository.go:126-188 | A local grant or revocation changes one row and the membership beside it and makes the next accepted token write again |
| ExternalAccess.EditKeepsInv | internal/repo/postgres/access_control_repository.go:126-188 | Local edits keep the invariant because they invalidate first |
| AccessControl.Store.ResolveExternalActor | internal/usecase/access_control/external.go:15-74 | The method leaves the specified state and reports the specified outcome |
| AccessControl.Prepare | internal/usecase/access_control/external.go:32-48 | The loop over the mapped grants finds the first missing or inactive workspace, or the writes |
| AccessControl.Store.ReplaceExternalAccess | internal/repo/postgres/external_access_repository.go:30-47 | The replacement leaves exactly the listed grants, their memberships and the new watermark |
| Connections.QueueIsBounded | internal/platform/bridge/connections.go:83-117 | Under every interleaving the counter equals queued plus taken bytes outside the critical section and stays within twice the limit, the queue within 32, and the socket gets a prefix of the accepted messages |
| Connections.OpenLosesNothing | internal/platform/bridge/connections.go:137-169 | While a connection is open no message has been refused and every accepted one is written, in flight or queued |
| Connections.ClosedRefuses | internal/platform/bridge/connections.go:150-156 | A call that has not passed its checks when the connection closes is never accepted |
| Connections.StepKeepsInv | internal/platform/bridge/connections.go:83-169 | Every step of a sender, the writer or a closer keeps the queue invariant |
| Connections.SendAlone | internal/platform/bridge/connections.go:138-169 | The steps of a Send that nothing interrupts accept exactly what fits and close the connection otherwise |
| Connections.Peer.Send | internal/platform/bridge/connections.go:150-168 | Among any other threads Send answers what became of its message, and a refusal leaves the connection closed |
| Connections.OthersInterfere | internal/platform/bridge/connections.go:83-181 | What a Send has to expect between its steps covers every step of another thread |
| Registry.RunKeepsInv | internal/platform/bridge/connections.go:53-73 | The registry lists exactly the sockets served, at most 256, and the wait group counts every call |
| Registry.ServeOutcome | internal/platform/bridge/connections.go:53-73 | A socket is served exactly while the registry is open and lists fewer than 256 |
| Registry.ShutdownIsFinal | internal/platform/bridge/connections.go:180-196 | After Shutdown nothing is registered again; once the wait group is empty nothing runs in any later state |
| Facets.AcceptedIsPermutation | internal/repo/postgres/facets_repository.go:145-162 | Exactly the permutations of the active facets with matching revisions are accepted |
| Facets.ReorderedIs | internal/repo/postgres/facets_repository.go:170-191 | Afterwards positions are 0 to n-1 in the requested order, and only moved facets gain a revision |
| Facets.ReorderAgain | internal/repo/postgres/facets_repository.go:170-191 | Asking for the order the facets already have changes nothing |
| Facets.ChangedExactly | internal/repo/postgres/facets_repository.go:170-191 | The facets reported as changed are exactly those that stood elsewhere before |
| Facets.ShiftableExactly | internal/repo/postgres/facets_repository.go:166-168 | The shift never meets the unique index, in any order of the rows, exactly when no two positions are one shift apart and none is too high |
| Facets.ShiftAll | internal/repo/postgres/facets_repository.go:166-168 | The shift moves every active facet or fails |
| Facets.PlaceAll | internal/repo/postgres/facets_repository.go:170-191 | The second phase yields the new order and the changed facets, or meets the unique index exactly when a facet that waits for its place stands at an earlier one |
| Facets.FewArePlaceable | internal/repo/postgres/facets_repository.go:170-191 | With up to a million facets it never does |
| Facets.Validate | internal/repo/postgres/facets_repository.go:145-162 | The validation loop reports the first bad item |
| Facets.Table.Reorder | internal/repo/postgres/facets_repository.go:119-193 | The whole operation: refused, or exactly the new order, or unchanged; and when it succeeds |
| FacetRuns.ReorderIsSafe | internal/repo/postgres/facets_repository.go:64-193 | After any run of creations, patches, removals, restores, restored revisions and reorders with at most a million facets created or restored, an accepted reorder never meets the unique index, in whatever order the rows are updated |
| FacetRuns.OneMoreCollides | internal/repo/postgres/facets_repository.go:64-193 | A run of three facets with valid identities, with one creation or restore more, ends in two active facets whose reorder can meet it |
| FacetRuns.NamesAreValid | internal/usecase/facets/usecase.go:709-717 | Every identity in every state of a run has 1 to 160 characters |
| FacetRuns.RunKeeps | internal/repo/postgres/facets_repository.go:64-193 | In every run the active positions stay distinct, and every facet, deleted ones included, stands below the number of facets created or restored |
| FacetRuns.PatchKeeps | internal/usecase/facets/usecase.go:119-181 | A patch of a facet, active or deleted, with or without a new identity, keeps that |
| FacetRuns.RevisionKeeps | internal/usecase/facets/usecase.go:541-579 | A restored revision, which takes its old position back if it is free, keeps that |

## Left out

- Bridge.UseCase.Dispatch: the message size checks are not modelled, the sections of Handle before this one are steps of their own (`BridgeHandle` states what the whole call is), and several readings of the clock inside one section are one reading.
- BridgeHandle.ClientIsRechecked: connection identifiers are never empty, so a session found always has a controller to check.
- BridgeSafety.RunKeepsInv: roster broadcasts, `welcome`, `sessionRequested`, `sessionStarted` and `sessionEnded` notices and the acknowledgement of an ended session are not in the reply log; only results of accepted requests are.
- PortableBundle.PortableBundle.CanonicalizeInPlace: a configuration held as raw JSON text, which the removal of SSE does not look into, is outside the JSON-decoded domain.
- DomainVersion.VersionForgetsOrder: when two folders share an identity but not a type, the last one decides and the order shows; folder identities are unique in the database.
- Revisions.SquashPending: visits the groups in an arbitrary order instead of sorting the keys; `Revisions.SpansForgetOrder` shows that the order is not visible in the commit.
- Revisions.Workspace.Create: the token and role checks before it, the domain version and the installed integrations stored with a commit; import and restore commits.
- RevisionHistory.SquashedExport: an export is the latest snapshot per document; assembling the bundle from the snapshots, the facet counts and the order of facet documents are not modelled.
- ForestSafety.RunKeepsInv: imports and restores of whole workspaces write folders by another path, and a delete of a composition also clears the workspace's startup composition; neither is modelled.
- Lifecycle.Catalog.PatchFolder: inputs arrive trimmed, and the field checks that no rule depends on are one flag; the recorded revisions are the subject of `RevisionLog`.
- MockSafety.RunKeepsInv: threads may finish any registered session at any time; which of Stop, reap, an expired find or a closed subscription does it is not told apart here. `MockLease` models those calls for one session.
- MockBudget.Budget.ReserveBytes: the 64-bit counter does not wrap around in the model, and sizes are not negative.
- MockLease.LeaseHolds: the session's once guard and its removal are in `MockGateway`; here `cancelled` stands for both.
- Policy.MatchesRule: numbers are reals, so two numerals are equal when their values are; numerals that the rational parser refuses do not occur.
- Policy.FindValue: the size limit of Atoi is left out, as no list is that long.
- ExternalAccess.RunKeepsInv: one user; the row lock that serializes a user's resolutions is the step itself. Usernames, audit columns and the synchronization time are not modelled.
- Connections.Peer.Send: starts when the call has got the mutex; how long it waits for it, and a Send to a peer that is not registered, which answers no and changes nothing, are not modelled.
- Connections.QueueIsBounded: heartbeats are messages like others, and pings, deadlines and the read side are not modelled.
- Registry.RunKeepsInv: a peer identifier is never used by two live sockets, as they are random.
- FacetRuns.ReorderIsSafe: facets that an import or restore of a workspace writes at positions of its own are not part of the runs; the other fields of a facet and the rule that a facet with active documents keeps its identity and is not deleted are left out, so the runs include more.
- Facets.Table.Reorder: which of the shifted rows the database updates first is left open; the other fields of a facet and its documents are not modelled.
- The thin use cases of each collection, HTTP, SQL text, OIDC, session cookies, encryption, gRPC clients, the AI catalog, build profiles, access tokens, release artifacts and the import and restore coordinator add no property that spans operations like the ones above.
