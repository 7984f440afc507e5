# Renderdesk: verified model

Renderdesk publishes artifacts written by agents over MCP, keeps their version history under
per-connection quotas, lets people share and discuss them in a dashboard, and is its own OAuth
authorization server. This project models its logic in Dafny 4.11 and proves what that logic
promises. `dafny verify dfyconfig.toml` checks everything.

## Layout

| files | what they hold |
|---|---|
| `Schema`, `Content`, `OAuth` | the tables, and every transaction of the server as a function from database to database or error |
| `Health` | everything the content tables promise, as one invariant |
| `Database`, `ArtifactTools`, `DiscussionTools`, `OAuthServer`, `RequestServer` | the same operations as methods that change the tables in place, statement by statement, proved equal to those functions; and the requests in front of them |
| `OAuthRuns`, `OAuthInvariant`, `OAuthSteps`, `OAuthGuarantees`, `UniqueColumns`, `Lifetimes`, `OAuthWitness` | the authorization server as interleaved requests, its invariant, and what follows over whole runs |
| `GrantRaces`, `SingleUse`, `GrantWitness` | code exchange and refresh with SELECT and write as separate steps: what survives, exactly when single use holds, and two runs in which it does not |
| `CredentialLife`, `OAuthProgress` | what ends a credential and that nothing else does, over whole runs; and that consent, exchange, refresh, replay and revocation get where they should |
| `Acceptance`, `Isolation` | whom each content request serves and what it writes, exactly; and what other people cannot do to an artifact |
| `ContentIntegrity`, `SchemaIntegrity`, `WholeApplication` | foreign keys and thread structure, over runs of requests and over interleaved runs; all promises together |
| `ArtifactHistory`, `Quotas`, `Retention`, `Totals` | version history, retention and the quotas over runs of atomic requests |
| `QuotaRaces`, `QuotaSafety`, `UpdateRaces`, `VersionRaces`, `StorageRaces`, `RaceWitnesses` | publish, update, reassign, prune and delete with their reads, checks and writes as separate interleaved steps; what holds, and runs in which promises fail |
| `CommentQuotas`, `CommentRaces`, `CommentWitness`, `CommentThreads`, `Discussions`, `Sharing`, `Utf8` | comment storage, also interleaved, thread listing, what requests do to threads, access by share |
| `WindowLog`, `RateLimiter`, `AdmissionRates`, `LoginLockout`, `OidcStates` | the in-memory trackers that forget, against logs that do not |
| `HtmlComments`, `HtmlRewrite`, `ReactEmbedding` | the scanner, the tag rewriting and the source embedding of the view |
| `SignedCookies`, `ConsentCookie`, `Base64Url`, `OidcCookie` | the two signed cookies |

## Assumptions

- In the runs of `OAuthRuns`, one `async with session_scope()` block is one atomic step. Inside such a
  block the code issues SELECT and then UPDATE or DELETE; that nothing comes between them is assumed, of
  content requests too. `_get_or_create_connection` is the exception there: its SELECT and INSERT are two
  steps, because the code guards that gap with a lock of its own.
- `QuotaRaces` gives up that assumption for publish, update, reassign, prune and delete of a version, whose
  reads, checks and writes are separate steps, `CommentRaces` for the comment writes, and `GrantRaces` for the code
  exchange and the refresh. There a DELETE of a row that is gone goes through, because the ORM only warns, and an
  UPDATE of a row that is gone ends the request.
- Drawn tokens and keys are fresh, `hash_token` is injective, a signature is some function of what is
  signed whose digest has no dot and is ASCII, and `json.loads` reads back the flow at hand from what `json.dumps` wrote for it.
- Clocks, drawn values, the configuration and the matches of regular expressions are parameters.
- In `requires` clauses of the run theorems, `Inv`, `ContentOk`, `Faithful`, `WithinQuota`, `CountInv`, `StoredInv`,
  `RowsInv`, `HistoryInv`, `RacedInv`, `Known`, `Separate` and `Store.Valid` are invariants, not demands on a caller: every operation is proved to keep them, and
  the empty database, a database without content or any quiet store satisfies them (`ReachableInv`,
  `EmptyShelvesAreHealthy`, `QuietCount`, `QuietStored`, `QuietRows`,
  `QuietHistory`, `TimelyRunsAreSafe`, `SingleUseFromStart`, `ReachableSeparate`).
- The methods of `ArtifactTools`, `DiscussionTools` and `OAuthServer` are each proved equal to a transaction of
  `Content` or `OAuth`. Those whose contract says no more than that have no row of their own: `RequestServer.ServeContent`
  and `RequestServer.Serve` call them and state what they keep together.

## Where the code and its documentation differ

- The cookie readers promise never to fail on a forged value. `secrets.compare_digest` raises on a
  signature that is not ASCII, so they do; the model follows the code and states exactly when.
- The comment in `list_versions` says that no quota bounds version history. `quotas.py` does sum it; the
  model follows `quotas.py`.
- The comment quota is described in bytes but sums characters (`func.length`); the model follows the code, gives the
  bound that holds, a run in which the described one fails, and exactly when the next comments keep it. It also takes
  no lock: the model says exactly in which runs both caps hold, bounds the excess by the number of writers past
  their check, and gives runs that meet the bound for every number of writers.
- `reassign_artifact_connection` says that moving an artifact cannot bypass the target's quota. It checks
  the current size and moves the whole history; the model gives a state in which the cap is exceeded, says
  exactly which moves and which runs are safe, and proves the bounds that hold regardless.
- `delete_version` says that the current version's row is kept. It and `prune_old_versions` take no lock: the
  model gives a run of each that deletes the current row, and says exactly when, over whole runs, none is lost. A lost
  current row also makes room the quota should not see: the live bytes can then pass their cap, and the model says
  exactly in which runs they do not.
- `update_artifact` says that two updates can no longer both win. Across a reassignment they can: the model gives
  the run, says exactly in which runs none is lost, and proves that without a reassignment none is.
- A code is said to be single-use and reuse of a refresh token to be detected. Both rest on SELECT and write of
  `exchange_authorization_code` and `exchange_refresh_token` not being interleaved with another request's; no lock
  makes sure. The model gives a run of each kind in which one code or one token funds two live successors, says
  exactly in which runs nothing is taken twice, and proves that revocation is final in all of them.
- `_strip_html_comments` is not idempotent; the model says exactly on which texts a second strip changes something.

## Model

| member | source | states |
|---|---|---|
| `OAuthGuarantees.NextKeeps` | `src/renderdesk/oauth_provider.py:140-363` | every step of every request, every revocation, deletion, sweep and content request keeps the invariant: foreign keys, lock ownership, one active connection per user and client, one holder per authorization grant, token provenance |
| `OAuthGuarantees.ReachableInv` | `src/renderdesk/oauth_provider.py:58-402` | the invariant holds in every state that any interleaving reaches from an empty database, so `requires Inv(w)` in the rows below excludes no reachable state |
| `OAuthGuarantees.RevokedNeverAuthenticates` | `src/renderdesk/auth.py:66-90` | no bearer token, personal or OAuth, authenticates as a connection that was ever revoked, even if its row is gone |
| `OAuthGuarantees.RevocationIsFinal` | `src/renderdesk/oauth_provider.py:346-363` | once revoked, a connection is never authenticated again in any continuation: tokens minted later by an exchange or refresh already in flight, deletion of the connection and any clock included |
| `OAuthGuarantees.RevokedRowsStayRefused` | `src/renderdesk/oauth_provider.py:295-309` | the same from an empty database, stated on the row: `revoked_at` set after some run means refused after every longer run |
| `OAuthGuarantees.FinishingRevokes` | `src/renderdesk/oauth_provider.py:325-344` | a revocation that runs to its end counts, also when the connection was deleted in between |
| `OAuthGuarantees.ReplacedIsRotatedAway` | `src/renderdesk/oauth_provider.py:275-285` | a refresh token that has, or is getting, a successor is recognised as rotated away for as long as its row exists |
| `OAuthGuarantees.ReuseIsDetected` | `src/renderdesk/oauth_provider.py:275-291` | the exchange of a rotated-away token that was presented issues nothing and heads for the revocation of the connection it was issued for |
| `OAuthGuarantees.ReplayKillsConnection` | `src/renderdesk/oauth_provider.py:287-291` | when the request that detected the reuse has finished, no token on that connection is accepted again, whatever ran in between and whatever runs later |
| `OAuthGuarantees.FamilyIsChain` | `src/renderdesk/oauth_provider.py:261-293` | within one authorization grant each generation has one refresh token: the family is a chain (section 10.4 of RFC 6749, section 4.14.2 of RFC 9700) |
| `OAuthGuarantees.LiveIsNewest` | `src/renderdesk/oauth_provider.py:281-285` | the unrevoked refresh token of a family is its newest member |
| `OAuthGuarantees.RotationIsLinear` | `src/renderdesk/oauth_provider.py:261-293` | with each transaction one step, at every moment: at most one successor per refresh token, at most one live token per grant, and none while the code is unspent or a request is minting for the grant |
| `OAuthGuarantees.OneLiveToken` | `src/renderdesk/oauth_provider.py:192-213` | the same for any run from an empty database |
| `OAuthGuarantees.CodeFundsOneGrant` | `src/renderdesk/oauth_provider.py:149-163` | with each transaction one step, a code funds at most one token family, and once it has funded one it can no longer be loaded (section 4.1.2 of RFC 6749) |
| `OAuthGuarantees.AccessHasProvenance` | `src/renderdesk/oauth_provider.py:295-323` | an accepted access token belongs to a connection whose user approved exactly that connection's client |
| `OAuthGuarantees.ApprovalIsConsent` | `src/renderdesk/dashboard.py:402-432` | behind every approval in a run is one consent event: that user accepted a pending, unexpired request of that client, and the code was drawn there |
| `OAuthGuarantees.AcceptedMeansConsented` | `src/renderdesk/dashboard.py:409-432` | both together for any run: accepted access token implies an earlier consent of that user for that client |
| `OAuthGuarantees.UnreachableBranches` | `src/renderdesk/oauth_provider.py:143-147` | in every run a loaded code has a user, so the no-user branch of the exchange is unreachable; and the lookup of an active connection never meets two rows |
| `OAuthGuarantees.YoungClientsAreNotStranded` | `src/renderdesk/oauth_provider.py:180-183` | an exchange about to create its connection finds its client unless that client was registered thirty or more days ago |
| `OAuthGuarantees.SweepStrandsExactly` | `src/renderdesk/oauth_provider.py:369-402` | a sweep between SELECT and INSERT makes `scalar_one()` fail exactly when the client is thirty days old and no connection, unexpired code or unexpired refresh token names it; the request then ends and gives its lock back |
| `OAuthSteps.SweepTables` | `src/renderdesk/oauth_provider.py:387-402` | the sweep deletes no client that a connection, a code or a refresh token still refers to |
| `OAuthSteps.SelectConnectionKeeps` | `src/renderdesk/oauth_provider.py:166-178` | under the per-key lock, finding an active connection or none keeps the whole invariant |
| `OAuthSteps.CreateConnectionKeeps` | `src/renderdesk/oauth_provider.py:180-190` | inserting the connection found missing under the lock keeps at most one active connection per user and client |
| `UniqueColumns.LookupsAreUnambiguous` | `src/renderdesk/models.py:25-50` | in every run, a lookup by email, by code hash or by personal token hash meets at most one row |
| `OAuthWitness.SweepStrandsARun` | `src/renderdesk/oauth_provider.py:165-190` | a concrete run from an empty database in which the sweep takes the client between SELECT and INSERT: the code is spent, and the exchange ends without connection, tokens or lock |
| `OAuthProgress.ConsentYieldsCode` | `src/renderdesk/dashboard.py:402-432` | from any reachable state: a registered client asks and a user agrees, and the code can be exchanged by exactly that client, for ten minutes, in the name of that user |
| `OAuthProgress.ExchangeSucceeds` | `src/renderdesk/oauth_provider.py:114-213` | from any reachable state, undisturbed and with its lock free: a code that loads is spent, and its request ends with an active connection of that user for that client and a pair of tokens that open and refresh it |
| `OAuthProgress.RefreshSucceeds` | `src/renderdesk/oauth_provider.py:215-293` | from any reachable state, undisturbed: a token not used before is replaced by a working pair for the same connection, and can itself still be presented by the same client until the same moment, to be recognised |
| `OAuthProgress.ReplayRevokes` | `src/renderdesk/oauth_provider.py:240-291` | presenting a token that has a successor: the request is let in, notices, and ends with the connection revoked and its row marked |
| `OAuthProgress.ReplayIsFatal` | `src/renderdesk/oauth_provider.py:240-291` | over every interleaving before and after: presenting a used token again, unexpired and from its client, while its connection exists, ends that connection for good |
| `OAuthProgress.RevocationByToken` | `src/renderdesk/oauth_provider.py:325-363` | a known token of either kind revokes its connection; an unknown one changes nothing |
| `OAuthProgress.TokensLeadToConnection` | `src/renderdesk/oauth_provider.py:327-341` | an access token and a refresh token each lead to the connection of their row, the access token first |
| `OAuthProgress.RemovalRemoves` | `src/renderdesk/dashboard.py:792-842` | a revoked connection that nothing refers to is gone with its tokens once removed |
| `OAuthProgress.AbandonedIsGone` | `src/renderdesk/oauth_provider.py:165-190` | a request that is abandoned is gone with its locks and leaves every row and every other request alone |
| `OAuthProgress.RevocationSparesSessions` | `src/renderdesk/oauth_provider.py:358-360` | every other connection keeps its row, its refresh tokens and every session its access tokens open |
| `OAuthProgress.RevocationByConnection` | `src/renderdesk/dashboard.py:754-768` | the dashboard revokes any connection that exists in the same way |
| `CredentialLife.RowsChangeOnlyAsMeant` | `src/renderdesk/oauth_provider.py:58-402` | one event of the server, in any state, changes no row but the ones it is meant to: connections, access and refresh tokens, codes, clients, accounts, content, each with its own list of events that may |
| `CredentialLife.LoggedInExactly` | `src/renderdesk/oauth_provider.py:295-323` | over every interleaving an access token goes on opening its connection at the gate until it expires if and only if that connection has not been revoked |
| `CredentialLife.PresentedExactly` | `src/renderdesk/oauth_provider.py:215-259` | over every interleaving a refresh token, rotated away or not, is accepted for presentation from exactly its client until exactly its expiry while its connection exists |
| `CredentialLife.CodeLoadsExactly` | `src/renderdesk/oauth_provider.py:114-138` | over every interleaving an approved code can be exchanged by exactly the client that asked, until exactly its expiry, if and only if no exchange has spent it |
| `CredentialLife.ReachableSeparate` | `src/renderdesk/auth.py:20-38` | in every state any run reaches, no personal token is also an access token |
| `GrantRaces.WriteExactly` | `src/renderdesk/oauth_provider.py:149-160` | a DELETE or UPDATE apart from its SELECT leads where the two together would have led exactly when it finds the code still there, or the token not marked since |
| `GrantRaces.SplitInvisibleExactly` | `src/renderdesk/oauth_provider.py:261-285` | over every interleaving of code exchanges and refreshes with SELECT and write as separate steps: the run is one of whole steps if and only if every write finds what was read |
| `GrantRaces.TimelyRunsAreSafe` | `src/renderdesk/oauth_provider.py:140-293` | every such run from an empty database keeps the whole invariant: codes are spent once, rotation is linear |
| `GrantRaces.RevocationIsFinalRaced` | `src/renderdesk/oauth_provider.py:346-363` | over every interleaving of the separate steps, late writes included, a connection once revoked is never authenticated again |
| `SingleUse.SingleUseExactly` | `src/renderdesk/oauth_provider.py:149-160` | over every interleaving of the separate steps: no unexpired code and no refresh token of an active connection is taken a second time if and only if no write that takes one finds its row gone or already marked |
| `SingleUse.SingleUseFromStart` | `src/renderdesk/oauth_provider.py:275-285` | the same for every run from an empty database |
| `GrantWitness.OneCodeTwoFamilies` | `src/renderdesk/oauth_provider.py:149-160` | a concrete run from an empty database in which two exchanges read one code before either deletes it, and both found a family of tokens |
| `GrantWitness.OneTokenTwoSuccessors` | `src/renderdesk/oauth_provider.py:265-285` | a concrete run from an empty database in which two refreshes read one token before either marks it, and both successors are live |
| `OAuthServer.SelectCode` | `src/renderdesk/oauth_provider.py:151-155` | finds the row with a code hash exactly when there is one |
| `OAuthServer.LoadAuthorizationCode` | `src/renderdesk/oauth_provider.py:114-138` | returns the row exactly for an approved, unexpired code of that client |
| `OAuthServer.SelectActive` | `src/renderdesk/oauth_provider.py:168-178` | the outcome of `scalar_one_or_none` on the active connections of a user and client: none, that one, or several |
| `OAuthServer.GetOrCreateConnection` | `src/renderdesk/oauth_provider.py:165-190` | returns the active connection of that user for that client, or creates it; fails without change when the client is gone |
| `OAuthServer.ExchangeAuthorizationCode` | `src/renderdesk/oauth_provider.py:140-163` | undisturbed, it succeeds only by using the code up, and the access token it returns then authenticates as an active connection of that user for that client; a used code fails and changes nothing |
| `OAuthServer.ExchangeRefreshToken` | `src/renderdesk/oauth_provider.py:261-293` | undisturbed: unknown token refused without change; rotated-away token revokes its connection; live token is marked and replaced by a new pair |
| `OAuthServer.RemoveConnection` | `src/renderdesk/tools.py:134-176` | deletes a connection with its tokens exactly when it is revoked and has no artifact, comment or share |
| `OAuthServer.CountsDecide` | `src/renderdesk/tools.py:151-166` | the three counts are all zero exactly when nothing refers to the connection |
| `OAuthServer.SweepExpiredRows` | `src/renderdesk/oauth_provider.py:369-402` | deletes expired codes and refresh tokens, then the old clients nothing refers to any more |
| `OAuthServer.InUseBySubqueries` | `src/renderdesk/oauth_provider.py:391-400` | a client is outside the three NOT IN subqueries exactly when no connection, code or refresh row names it |
| `OAuthServer.SelectPersonalToken` | `src/renderdesk/auth.py:28-38` | the connection with that token hash, exactly when it is neither revoked nor expired |
| `OAuthServer.RevokeOwn` | `src/renderdesk/dashboard.py:754-768` | a connection is revoked for its own user; to anybody else it is not found |
| `OAuthServer.RemoveOwn` | `src/renderdesk/dashboard.py:792-842` | a connection is removed for its own user under the conditions of removal; to anybody else it is not found |
| `OAuthServer.RevokeToken` | `src/renderdesk/oauth_provider.py:325-363` | either kind of token ends its whole connection: afterwards no access token opens it and every refresh token of it counts as rotated away; every other connection keeps its row, its refresh tokens and its sessions; an unknown token changes nothing |
| `OAuthServer.AuthenticateBearer` | `src/renderdesk/auth.py:66-90` | lets in the holder of an unexpired personal token, else of an unexpired access token, of a stored connection that is not revoked, and nobody else |
| `RequestServer.ServeContent` | `src/renderdesk/tools.py:99-357` | every content request, run statement by statement, ends as its transaction says, keeps a healthy store healthy, and changes nothing when refused |
| `RequestServer.Serve` | `src/renderdesk/oauth_provider.py:58-112` | every one-transaction request of the authorization server, run statement by statement, ends where the machine has it, so what holds of the machine holds of the store |
| `RequestServer.ServeRevocation` | `src/renderdesk/oauth_provider.py:325-363` | the revocation endpoint undisturbed is the two steps of the machine, and ends no session of another connection |
| `RequestServer.ServeBearer` | `src/renderdesk/auth.py:66-90` | in every reachable state the gate lets in exactly the holders of valid tokens, and nobody through a connection that was ever revoked |
| `Lifetimes.CodeLifetime` | `src/renderdesk/oauth_provider.py:95-138` | from authorize through consent to load: a code loads exactly for the client that asked, for ten minutes from the asking, and names the user who agreed |
| `Lifetimes.ApprovedOnce` | `src/renderdesk/dashboard.py:409-432` | an answered request can be answered no second time |
| `Lifetimes.ConsumedIsGone` | `src/renderdesk/oauth_provider.py:149-160` | a consumed code loads for nobody and cannot be consumed again |
| `Lifetimes.TokenLifetimes` | `src/renderdesk/oauth_provider.py:192-259` | an issued access token opens its connection for exactly one hour while the connection is unrevoked; its refresh token is accepted from exactly its client for exactly 180 days |
| `Lifetimes.RegisteredExactly` | `src/renderdesk/oauth_provider.py:67-112` | a client registers exactly under a new id, and only a registered one may ask |
| `Lifetimes.PersonalTokenExactly` | `src/renderdesk/tokens.py:11-26` | a personal token is made exactly for an account, with a new id and a hash nobody has |
| `Lifetimes.AnsweredExactly` | `src/renderdesk/dashboard.py:402-432` | a request can be answered exactly while it is pending and unexpired, and only an account can agree; a denial takes that one row |
| `Lifetimes.RemovalExactly` | `src/renderdesk/dashboard.py:792-842` | a connection is removed exactly when it is revoked and no artifact, comment or share names it; it goes with its tokens and no other row does |
| `Lifetimes.SweepExactly` | `src/renderdesk/oauth_provider.py:369-402` | the sweep takes exactly the expired codes and refresh tokens and then the thirty-day-old clients nothing names, and leaves every other row as it was |
| `Lifetimes.BearerExactly` | `src/renderdesk/auth.py:66-90` | the gate lets in the holder of an unexpired personal token, else of an unexpired access token, of a connection that is not revoked, and nobody else |
| `Lifetimes.AccessTokenOpensGate` | `src/renderdesk/auth.py:72-83` | an issued access token opens its connection at the gate for exactly one hour while the connection is unrevoked |
| `Lifetimes.RotationKeepsPresentable` | `src/renderdesk/oauth_provider.py:240-256` | rotation changes neither from whom nor until when any refresh token is accepted for presentation, and marks that one only |
| `Lifetimes.RotatedTokenLifetime` | `src/renderdesk/oauth_provider.py:215-285` | from issue on, through rotation, a refresh token is accepted for presentation from exactly its client for exactly 180 days |
| `Lifetimes.RevocationExactly` | `src/renderdesk/oauth_provider.py:346-363` | a revocation marks one connection and its refresh tokens, deletes its access tokens, and leaves every other row as it was |
| `Lifetimes.RevocationSparesOthers` | `src/renderdesk/oauth_provider.py:358-360` | no other connection is shut out or let in by it |
| `Lifetimes.PersonalTokenLifetime` | `src/renderdesk/auth.py:28-38` | a personal token opens its connection exactly until it expires |
| `WholeApplication.PromisesHoldTogether` | `src/renderdesk/quotas.py:54-100` | over any interleaving of the authorization server with content requests, each content request atomic, from an empty database: foreign keys, faithful history, artifact count, live bytes, bounded stored bytes, comment count and characters all hold at once |
| `Health.RequestKeeps` | `src/renderdesk/models.py:67-145` | no atomic content request breaks any of: foreign keys, thread structure, unique shares, faithful history, quotas, comment quotas |
| `Health.EmptyShelvesAreHealthy` | `src/renderdesk/models.py:67-145` | a database without content satisfies all of them, whoever is registered in it |
| `SchemaIntegrity.EveryForeignKeyHolds` | `src/renderdesk/models.py:25-208` | in every state of every interleaved run, each content request atomic, every foreign key of the modelled tables is satisfied |
| `ContentIntegrity.PerformKeeps` | `src/renderdesk/tools.py:99-131` | no request on artifacts, versions, comments or shares leaves a dangling reference, a reply without its root, a duplicate share or a version outside 1..current |
| `ContentIntegrity.WithoutArtifactKeeps` | `src/renderdesk/tools.py:99-108` | deleting comments, shares, versions and artifact in that order keeps foreign keys, thread structure, unique shares and version bounds |
| `ContentIntegrity.DeleteConnectionKeeps` | `src/renderdesk/tools.py:151-175` | a connection that content still refers to is never deleted |
| `Acceptance.ReachesExactly` | `src/renderdesk/tools.py:75-96` | the ownership check admits exactly the user of the artifact's connection, the access check those and the recipients of its shares |
| `Acceptance.StrangersFindNothing` | `src/renderdesk/tools.py:75-96` | delete, prune, delete version, reassign, delete thread, share and unshare answer not found to anybody but the owner |
| `Acceptance.OutsidersFindNothing` | `src/renderdesk/comments.py:221-255` | commenting, answering and resolving answer not found to anybody without access |
| `Acceptance.OtherConnectionsFindNothing` | `src/renderdesk/tools.py:65-72` | updating, sharing, resolving and answering through a connection work on its own artifacts only |
| `Acceptance.DeletionExactly` | `src/renderdesk/tools.py:99-115` | the owner's deletion leaves no row of the artifact and every other row as it was, and cannot be repeated; nobody else's goes through |
| `Acceptance.AdminDeletionExactly` | `src/renderdesk/tools.py:118-131` | the administrator's deletion does the same to any artifact there is |
| `Acceptance.PublishedExactly` | `src/renderdesk/tools.py:216-266` | a publish goes through exactly for one of the five formats, metadata within 500 and 100 characters, and room within all three caps |
| `Acceptance.UpdatedExactly` | `src/renderdesk/tools.py:269-325` | an update goes through exactly for the artifact's own connection naming the current version, within the limits; a stale base is refused as a version conflict |
| `Acceptance.ReassignedExactly` | `src/renderdesk/tools.py:179-213` | a reassignment goes through exactly from the owner to another unrevoked connection of theirs with room for the artifact, and changes one column |
| `Acceptance.VersionDeletedExactly` | `src/renderdesk/versions.py:68-84` | the owner deletes any one version but the current, and no other row goes |
| `Acceptance.PrunedExactly` | `src/renderdesk/versions.py:87-97` | pruning takes exactly the versions of that artifact that are not current |
| `Acceptance.CommentedExactly` | `src/renderdesk/comments.py:272-279` | a person comments exactly where they have access and there is room, and what is stored is what they wrote, under their name |
| `Acceptance.RepliedExactly` | `src/renderdesk/comments.py:193-206` | a connection answers exactly the threads on its own artifacts, under its own name |
| `Acceptance.HumanRepliedExactly` | `src/renderdesk/comments.py:282-291` | a person answers exactly the threads they have access to |
| `Acceptance.ThreadRequestsExactly` | `src/renderdesk/comments.py:209-319` | who may resolve, toggle and delete a thread, exactly |
| `Acceptance.SharedExactly` | `src/renderdesk/shares.py:20-78` | a share goes through exactly from the artifact's connection or owner to somebody else, and adds one row that says so unless there is one |
| `Acceptance.ShareRefusals` | `src/renderdesk/shares.py:20-38` | an unknown address and the owner's own are refused as such |
| `Acceptance.UnsharedExactly` | `src/renderdesk/shares.py:100-110` | the owner takes back exactly a share of that artifact, and no other row goes |
| `Isolation.OthersLeaveIt` | `src/renderdesk/tools.py:65-96` | one request of anybody but the owner and the administrator leaves an artifact's row, history and shares as they were and takes or rewrites no comment; without a share, its threads too |
| `Isolation.OnlyTheOwnerChangesIt` | `src/renderdesk/tools.py:65-96` | the same over any number of requests |
| `ArtifactHistory.UpdateRetains` | `src/renderdesk/tools.py:333-353` | an update keeps exactly the cap-many largest of the old versions and the new one, and touches no other artifact's history |
| `ArtifactHistory.UpdateStoresCurrent` | `src/renderdesk/tools.py:308-353` | after an update the current version is stored and equals the live row exactly when the version cap is positive |
| `ArtifactHistory.PerformKeepsHistory` | `src/renderdesk/versions.py:68-97` | every atomic request keeps: the current row exists and equals the live row, and the version count is within the cap |
| `ArtifactHistory.HistoryIsFaithful` | `src/renderdesk/tools.py:308-355` | over any sequence of requests the live artifact is a faithful cache of its history; stored versions lie in 1..current and number at most the cap |
| `Retention.KeptSize` | `src/renderdesk/tools.py:339-347` | ORDER BY version DESC LIMIT n selects exactly n rows, or all when there are fewer |
| `Retention.KeptAreLargest` | `src/renderdesk/tools.py:341-353` | every version kept is larger than every version deleted |
| `ArtifactHistory.PublishReadsBack` | `src/renderdesk/tools.py:216-266` | a published artifact reads back as sent, at version 1, charged for exactly its bytes; every other artifact reads as before |
| `ArtifactHistory.UpdateReadsBack` | `src/renderdesk/tools.py:290-325` | an update is accepted only from the version it names, replaces the content, keeps every omitted field, moves the version by one and touches no other artifact |
| `Quotas.RunsStayWithinQuota` | `src/renderdesk/tools.py:209-212` | in every run, reassignments included: artifact count and live bytes per connection within their caps, stored bytes within count cap x version cap x per-artifact cap |
| `Quotas.StoredBytesBounded` | `src/renderdesk/quotas.py:54-100` | the weaker bound on stored bytes that survives reassignment |
| `Quotas.ReassignMovesHistory` | `src/renderdesk/tools.py:209-212` | a reassignment moves the whole stored history: the target gains exactly what the source loses, nobody else changes |
| `Quotas.CurrentWithinStored` | `src/renderdesk/quotas.py:36-51` | the live bytes of a connection never exceed the stored bytes the quota sums |
| `Quotas.UnlockedOnlyDrops` | `src/renderdesk/versions.py:68-97` | requests that take no quota lock never add or change an artifact or a version |
| `Quotas.ReassignSafeExactly` | `src/renderdesk/tools.py:209-212` | an accepted reassignment keeps every connection within its stored-bytes cap if and only if the target can take the artifact's whole stored history; the code checks its current size |
| `Quotas.PrunedArtifactsFit` | `src/renderdesk/tools.py:209-212` | an artifact pruned to its current version meets that condition whenever it passes the code's check |
| `Quotas.PerformStored` | `src/renderdesk/quotas.py:36-100` | a single request breaks the stored-bytes cap exactly when it is such a reassignment |
| `Quotas.StoredCapHoldsExactly` | `src/renderdesk/quotas.py:36-100` | over a whole run, no connection ever stores more than its cap if and only if every accepted reassignment moved a history its target could take |
| `Quotas.ReassignBreaksStoredCap` | `src/renderdesk/tools.py:209-212` | a concrete legal state in which one accepted reassignment doubles the cap |
| `QuotaRaces.UndisturbedPublish` | `src/renderdesk/tools.py:238-264` | the steps of a publish with nothing in between are the quota check and the commit done at once |
| `QuotaRaces.UndisturbedUpdate` | `src/renderdesk/tools.py:290-355` | the steps of an update with nothing in between are the atomic update |
| `QuotaRaces.UndisturbedReassign` | `src/renderdesk/tools.py:187-212` | the steps of a reassignment with nothing in between are the atomic reassignment |
| `QuotaRaces.UndisturbedPrune` | `src/renderdesk/versions.py:87-97` | read and DELETE of a prune with nothing in between are the atomic prune |
| `QuotaRaces.UndisturbedDelete` | `src/renderdesk/versions.py:68-84` | read and DELETE of a version with nothing in between are the atomic deletion |
| `QuotaSafety.StoredBytesNeverExceeded` | `src/renderdesk/tools.py:238-355` | over every interleaving of publish, update, delete and prune, from any store within the cap, stored bytes per connection never exceed the cap |
| `QuotaSafety.QuietStored` | `src/renderdesk/quotas.py:73-78` | any quiet store within the stored-bytes cap is a legal start of such a run, whatever versions its artifacts have reached |
| `QuotaSafety.NoLostUpdates` | `src/renderdesk/tools.py:290-313` | for an artifact not reassigned, in any interleaving from any quiet start: version = start version + successful updates, and the updates consumed the base versions from the start version up, each exactly once |
| `VersionRaces.CurrentRowStoredExactly` | `src/renderdesk/versions.py:68-97` | over every interleaving with the unlocked prune and delete in two steps: each artifact not reassigned has its current version's row in every state if and only if every prune finds its reading still current, and every delete finds its version not current, when the DELETE runs |
| `VersionRaces.LateExactly` | `src/renderdesk/versions.py:68-97` | in any state of any run: a prune would hit the current row exactly when an update of that artifact was committed since it read, a delete of version v exactly when those updates made v current |
| `VersionRaces.FinishDropExactly` | `src/renderdesk/versions.py:77-97` | one late DELETE loses the current row exactly when it is not up to date, and changes no row of any other artifact |
| `VersionRaces.QuietHistory` | `src/renderdesk/versions.py:68-97` | any quiet store whose artifacts have their current row and none newer is a legal start of such a run |
| `RaceWitnesses.PruneLosesCurrentRow` | `src/renderdesk/versions.py:87-97` | a concrete run from an empty store in which a prune deletes the row that has just become current |
| `RaceWitnesses.DeleteLosesCurrentRow` | `src/renderdesk/versions.py:68-84` | the same for delete_version, asked for the version that becomes current before its DELETE |
| `RaceWitnesses.ReassignLosesUpdates` | `src/renderdesk/tools.py:290-325` | a concrete run in which an update cleared before a reassignment takes the artifact from version 3 back to version 2 |
| `RaceWitnesses.LatePruneLetsLiveBytesPassCap` | `src/renderdesk/versions.py:87-97` | a concrete run from an empty store, no reassignment in it, in which a late prune drops a large current row and the room it makes lets the live bytes pass their cap |
| `UpdateRaces.UpdatesLostExactly` | `src/renderdesk/tools.py:290-325` | over every interleaving from any quiet start, reassignments included: every present artifact has start version + successful updates, with the bases consumed in order and once each, in every state, if and only if no update commits on an artifact that has left its base version while the row after its base is absent |
| `UpdateRaces.StaleUpdateExactly` | `src/renderdesk/tools.py:308-325` | one commit keeps that count exactly when it is not such a commit |
| `UpdateRaces.StaleOnlyAfterReassignment` | `src/renderdesk/tools.py:290-325` | in any run such a commit happens only on an artifact that has been reassigned |
| `StorageRaces.StoredBytesAlwaysBounded` | `src/renderdesk/quotas.py:54-100` | over every interleaving, reassignments included, stored bytes stay within count cap x version cap x per-artifact cap |
| `StorageRaces.QuietRows` | `src/renderdesk/quotas.py:54-100` | any quiet store whose rows are within those caps is a legal start of such a run |
| `StorageRaces.LiveBytesHoldExactly` | `src/renderdesk/tools.py:209-355` | over every interleaving, reassignments included: the live bytes of every connection stay within the cap in every state if and only if no publish, update or reassignment writes a row that takes its owner past it |
| `StorageRaces.TimelyRunsKeepLiveBytes` | `src/renderdesk/tools.py:238-355` | without reassignment, runs in which every prune and delete is up to date keep the live bytes within the cap |
| `QuotaSafety.CountNeverExceeded` | `src/renderdesk/tools.py:209-264` | over every interleaving of publish, update, reassign, delete and prune with lock, check and commit as separate steps, no connection owns more artifacts than the cap |
| `QuotaSafety.QuietCount` | `src/renderdesk/quotas.py:54-71` | any quiet state within the count cap is a legal start of such a run |
| `ArtifactTools.PublishArtifact` | `src/renderdesk/tools.py:216-266` | all branches of publish as one transaction; on success the caller owns the artifact and its current version is stored |
| `ArtifactTools.UpdateArtifact` | `src/renderdesk/tools.py:269-357` | all branches of update as one transaction; on success the version was the one named and is now one more, with the new content |
| `ArtifactTools.ReassignArtifactConnection` | `src/renderdesk/tools.py:179-213` | all branches of reassign as one transaction; on success the artifact stays with its user, moves to the target and keeps its content |
| `ArtifactTools.ConnectionStoredBytes` | `src/renderdesk/quotas.py:36-51` | the sum over the version rows of the artifacts a connection owns |
| `ArtifactTools.CheckNewArtifactQuota` | `src/renderdesk/quotas.py:54-78` | refuses exactly when the size, the count or the stored total would exceed its cap |
| `ArtifactTools.CheckUpdateQuota` | `src/renderdesk/quotas.py:81-100` | refuses exactly when the size or the stored total would exceed its cap |
| `ArtifactTools.DeleteOneVersion` | `src/renderdesk/versions.py:68-84` | deletes one superseded version; the current one is refused, a missing one is not found |
| `ArtifactTools.PruneOldVersions` | `src/renderdesk/versions.py:87-97` | deletes all versions but the current one and reports how many |
| `CommentQuotas.CommentStorageBounded` | `src/renderdesk/comments.py:29-52` | over any run, comments per artifact within the count cap, stored characters within the size cap, hence stored bytes within four times that cap |
| `CommentQuotas.BytesAreCountedExactly` | `src/renderdesk/comments.py:37-48` | the stored characters the quota sums equal the stored bytes exactly when every comment is ASCII |
| `CommentQuotas.AcceptedBodiesFitExactly` | `src/renderdesk/comments.py:24-52` | every next comment the code accepts leaves the stored bytes within the cap if and only if all stored comments of the artifact are ASCII or a largest comment would still fit in bytes |
| `CommentQuotas.AsciiRunsStayWithinCap` | `src/renderdesk/comments.py:29-52` | over any run that only writes ASCII, the stored bytes of every artifact's comments stay within the cap |
| `CommentQuotas.BytesCanExceedCap` | `src/renderdesk/comments.py:37-48` | a concrete run on a consistent database: two accepted comments that store 7 bytes under a cap of 4 |
| `CommentRaces.CommentsBoundedByWriters` | `src/renderdesk/comments.py:193-206` | over every interleaving with check and insert as separate steps and at most k writers past their check: the count exceeds its cap by at most k - 1, the characters theirs by at most k - 1 largest comments |
| `CommentRaces.CommentCapsHoldExactly` | `src/renderdesk/comments.py:29-52` | over every interleaving, both caps hold for every artifact in every state if and only if every comment that is inserted finds room for one more and for its characters at that moment |
| `CommentWitness.WritersMeetTheBound` | `src/renderdesk/comments.py:272-279` | for every number of writers a run that meets both bounds: k writers past their check store k comments of the largest size under caps that one of them fills |
| `CommentRaces.UndisturbedWrite` | `src/renderdesk/comments.py:272-291` | check and insert with nothing in between are the atomic request |
| `CommentQuotas.EarlyRejectIsSafe` | `src/renderdesk/tools.py:225-236` | content refused on its character count would be refused on its byte count |
| `CommentQuotas.EarlyRejectInvisible` | `src/renderdesk/tools.py:228-243` | publish decides, stores and fails as if the character check were not there |
| `Utf8.LengthBounds` | `src/renderdesk/tools.py:225-236` | UTF-8 takes between one and four bytes per character (section 3 of RFC 3629) |
| `Utf8.DecodeEncode` | `src/renderdesk/comments.py:45` | every text comes back from its bytes (section 3 of RFC 3629) |
| `Utf8.ShortestForm` | `src/renderdesk/comments.py:45` | no character takes more bytes than it needs |
| `Utf8.AsciiExactly` | `src/renderdesk/comments.py:47` | bytes equal characters exactly for ASCII |
| `CommentThreads.GroupReplies` | `src/renderdesk/comments.py:143-145` | one pass over all replies groups them by root in their order |
| `CommentThreads.SerializeThreads` | `src/renderdesk/comments.py:131-156` | the batch listing equals, root by root, the one-thread serialisation |
| `CommentThreads.BatchAnswersPerRoot` | `src/renderdesk/comments.py:131-156` | one query for all replies, grouped, gives each listed root an answer to its own query, ties or not |
| `CommentThreads.BatchEqualsPerRoot` | `src/renderdesk/comments.py:119-156` | the batch shows a thread exactly as its own query would, whatever that returns, if and only if no two replies in that thread share an instant |
| `CommentThreads.ListingIsPartition` | `src/renderdesk/comments.py:174-190` | with replies only under roots of the same artifact, each comment of the artifact appears in exactly one thread and no foreign comment in any |
| `CommentThreads.ThreadShowsEverything` | `src/renderdesk/comments.py:78-128` | a thread shows its root and then its replies, each with its own words and instant, under its own author's name, and as a person's exactly when a person wrote it |
| `CommentThreads.SameNames` | `src/renderdesk/comments.py:55-75` | looking up all authors at once changes no comment's author |
| `DiscussionTools.CheckArtifactCommentQuota` | `src/renderdesk/comments.py:29-52` | refuses exactly when the count or the total would exceed its cap, characters stored plus bytes new |
| `DiscussionTools.AddShare` | `src/renderdesk/shares.py:20-56` | all branches of sharing: unknown recipient, own owner, already shared, new row |
| `Discussions.CommentThenDelete` | `src/renderdesk/comments.py:272-319` | a comment opens a thread of its own on its artifact, and deleting that thread restores the database |
| `Discussions.ReplyJoinsThread` | `src/renderdesk/comments.py:193-206` | an agent's reply joins the thread it answers, on that thread's artifact, changes nothing else and cannot be replied to |
| `Discussions.HumanReplyJoinsThread` | `src/renderdesk/comments.py:282-291` | the same for a person's reply |
| `Discussions.ResolveOnce` | `src/renderdesk/comments.py:209-213` | resolving sets one column of one row; resolving again changes nothing |
| `Discussions.ToggleTwice` | `src/renderdesk/comments.py:294-298` | toggling twice restores the database |
| `Discussions.DeleteThreadExactly` | `src/renderdesk/comments.py:301-319` | deleting a thread removes exactly the comments whose home is its root |
| `Sharing.ShareGrantsAccess` | `src/renderdesk/comments.py:221-234` | after a share exactly its recipient gains access |
| `Sharing.SharingTwiceAddsNothing` | `src/renderdesk/shares.py:30-38` | sharing again with the same recipient changes nothing |
| `Sharing.UnshareUndoesShare` | `src/renderdesk/shares.py:100-110` | unsharing a new share restores the database |
| `Sharing.UnshareRevokesAccess` | `src/renderdesk/shares.py:100-110` | unsharing takes access from exactly that recipient, unless the artifact is theirs |
| `WindowLog.StepAgrees` | `src/renderdesk/rate_limit.py:17-29` | checks that prune, records, clears and sweeps are each invisible to every later check, against a log that never forgets |
| `WindowLog.ForgettingIsInvisible` | `src/renderdesk/rate_limit.py:79-94` | the same over any sequence of operations with a non-decreasing clock |
| `WindowLog.AdmitKeepsNoBurst` | `src/renderdesk/rate_limit.py:17-25` | admitting below the maximum keeps every window-length interval within it |
| `RateLimiter.Limiter.IsRateLimited` | `src/renderdesk/rate_limit.py:17-25` | the answer counts the attempts inside the window; the key keeps only those |
| `RateLimiter.Limiter.RecordAttempt` | `src/renderdesk/rate_limit.py:28-29` | appends one attempt |
| `RateLimiter.Limiter.SweepStaleAttempts` | `src/renderdesk/rate_limit.py:79-94` | deletes exactly the keys whose newest attempt left the longest window, and counts them |
| `RateLimiter.Limiter.Admit` | `src/renderdesk/rate_limit.py:115-129` | the admission half of dispatch decides and counts as the function the run theorems are about |
| `RateLimiter.Limiter.CountAnswer` | `src/renderdesk/rate_limit.py:131-140` | the answering half counts a failed login, and nothing else |
| `RateLimiter.OneWindowPerBucket` | `src/renderdesk/rate_limit.py:39-76` | rules that share a bucket share window and maximum; only the login rule spares successes |
| `AdmissionRates.RulesExactly` | `src/renderdesk/rate_limit.py:39-76` | which rule a request falls under: the table of eight routes, else the rule for writing comments, else none |
| `AdmissionRates.AdmittedExactly` | `src/renderdesk/rate_limit.py:115-140` | over any traffic a request is admitted exactly when it falls under no rule or fewer than the maximum counted against its address within the window; on the login route the failed answers count, elsewhere the admitted requests |
| `RateLimiter.LimiterRefinesLog` | `src/renderdesk/rate_limit.py:115-140` | over any traffic and sweeps, every admission decision is the one a never-pruned log gives |
| `RateLimiter.RateIsRespected` | `src/renderdesk/rate_limit.py:122-129` | for every always-counted rule and address, no interval of the window's length holds more admitted requests than the maximum |
| `LoginLockout.Lockout.IsLoginRateLimited` | `src/renderdesk/session_auth.py:27-34` | the answer counts failures inside the window |
| `LoginLockout.Lockout.RecordFailedLogin` | `src/renderdesk/session_auth.py:37-38` | appends one failure |
| `LoginLockout.Lockout.SweepStaleFailedLogins` | `src/renderdesk/session_auth.py:45-55` | deletes exactly the stale emails and counts them |
| `LoginLockout.Lockout.LoginSubmit` | `src/renderdesk/dashboard.py:123-150` | credentials decide first; the lockout only gates the failing path |
| `LoginLockout.LockoutRefinesLog` | `src/renderdesk/session_auth.py:27-55` | every answer is the one a never-pruned log of failures since the last success gives |
| `LoginLockout.GuessAnsweredExactly` | `src/renderdesk/session_auth.py:22-38` | over any run a wrong guess is answered as wrong, not turned away, exactly when fewer than five since the last success were answered so within a quarter of an hour |
| `LoginLockout.GuessesAreRationed` | `src/renderdesk/session_auth.py:22-38` | since the last success no window-length interval holds more than five answered guesses |
| `LoginLockout.OwnerAlwaysGetsIn` | `src/renderdesk/dashboard.py:123-132` | the right password is always welcomed and clears that record only |
| `OidcStates.UsedStates.SweepStaleUsedStates` | `src/renderdesk/oidc_state.py:46-51` | deletes exactly the states used 600 seconds ago or earlier and counts them |
| `OidcStates.UsedStates.PassGate` | `src/renderdesk/dashboard.py:233-243` | passes exactly for a young cookie with an unused state, which it then marks |
| `OidcStates.AtMostOnePass` | `src/renderdesk/dashboard.py:233-243` | a state passes at most once in any run with sweeps and a non-decreasing clock, unless a callback falls on the instant of issue |
| `OidcStates.FirstPassExactly` | `src/renderdesk/dashboard.py:233-243` | after any run in which a state has not passed, it passes exactly while its cookie is at most 600 seconds old, and then it is on the list |
| `OidcStates.SecondPassExactly` | `src/renderdesk/oidc_state.py:46-51` | a second pass is possible exactly when the first fell on the instant of issue |
| `HtmlComments.FindIsLeast` | `src/renderdesk/view.py:280-288` | find returns the least occurrence from a position, or none exists |
| `HtmlComments.FindHtmlCommentSpans` | `src/renderdesk/view.py:271-287` | the loop terminates and returns the spans |
| `HtmlComments.ScannerRefinesAutomaton` | `src/renderdesk/view.py:271-287` | spans are ordered, disjoint and in range, and cover a position exactly when the two-state automaton is inside a comment there |
| `HtmlComments.StripSpans` | `src/renderdesk/view.py:290-299` | returns the text between the spans |
| `HtmlComments.StripKeepsUncovered` | `src/renderdesk/view.py:302-303` | stripping keeps exactly the characters outside comments, in order |
| `HtmlComments.KeptPlusRemoved` | `src/renderdesk/view.py:290-303` | the kept pieces joined are the stripped text, and kept and removed pieces in turn are the text |
| `HtmlComments.StripTwiceExactly` | `src/renderdesk/view.py:302-303` | a second strip changes something if and only if, in the text itself, four characters outside comments with only comments between them spell an opening |
| `HtmlComments.StripIsNotIdempotent` | `src/renderdesk/view.py:302-303` | a concrete text on which it does |
| `HtmlRewrite.RewriteCdnLibraryUrls` | `src/renderdesk/view.py:594-633` | every match is replaced exactly when it starts outside all comments and its slug is vendored; the flag says whether one was |
| `HtmlRewrite.UnsetMeansUntouched` | `src/renderdesk/view.py:616-633` | without the flag the page is the artifact |
| `HtmlRewrite.EveryTagStands` | `src/renderdesk/view.py:616-633` | for every tag: the page is the part before it rewritten by itself, the vendored asset when the tag is outside comments and known, else the tag as it was, and the part after it rewritten by itself |
| `HtmlRewrite.CommentedTagsSurvive` | `src/renderdesk/view.py:620-627` | a tag that starts in a comment is in the page as it stood |
| `ReactEmbedding.NoCloserLeft` | `src/renderdesk/view.py:656` | after the replacement no "</" is left, for any text |
| `ReactEmbedding.SplitKeepsMeaning` | `src/renderdesk/view.py:656` | the replacement changes the meaning of no JSON string and validates none (section 7 of RFC 8259) |
| `ReactEmbedding.DumpsRoundTrip` | `src/renderdesk/view.py:656` | the ASCII encoding of any source, escapes and surrogate pairs included, parses to its UTF-16 form |
| `ReactEmbedding.EmbeddingRoundTrip` | `src/renderdesk/view.py:656` | the script block parses back to the source for every source |
| `ReactEmbedding.SourceSurvivesExactly` | `src/renderdesk/view.py:656` | code point for code point, exactly when the source has no lone high surrogate directly before a lone low one |
| `SignedCookies.SplitIsUnique` | `src/renderdesk/oauth_consent_state.py:33-34` | splitting at the last dot undoes joining with a dotless signature |
| `ConsentCookie.ReadsExactlyTheMadeCookie` | `src/renderdesk/oauth_consent_state.py:26-39` | the reader returns an id exactly for the cookie made for it, for every id, dots included |
| `ConsentCookie.CookiesAreDistinct` | `src/renderdesk/oauth_consent_state.py:26-27` | two ids never share a cookie |
| `ConsentCookie.FailsExactlyOnForeignSignatures` | `src/renderdesk/oauth_consent_state.py:33-39` | the reader raises exactly when the part after the last dot is not ASCII |
| `ConsentCookie.ForeignSignatureFails` | `src/renderdesk/oauth_consent_state.py:33-39` | it does: for any id, a signature of one accented letter |
| `Base64Url.SextetsExactly` | `src/renderdesk/oidc_state.py:64` | the four sextets of a group are its 24 bits, most significant first (section 4 of RFC 4648) |
| `Base64Url.KnownGroups` | `src/renderdesk/oidc_state.py:64` | three groups that use every kind of symbol, the two characters in which the alphabets differ among them |
| `Base64Url.KnownAnswer` | `src/renderdesk/oidc_state.py:64` | a vector of section 10 of RFC 4648 |
| `Base64Url.DecodeEncode` | `src/renderdesk/oidc_state.py:64-80` | the lenient decoder inverts the encoder on every payload (sections 4 and 5 of RFC 4648) |
| `Base64Url.PaddingIsRestored` | `src/renderdesk/oidc_state.py:64-80` | stripped padding is restored exactly by `-len % 4` (section 3.2 of RFC 4648) |
| `Base64Url.StrippedRoundTrip` | `src/renderdesk/oidc_state.py:64-80` | every payload comes back from its stripped encoding |
| `Base64Url.ForeignCharactersAreSkipped` | `src/renderdesk/oidc_state.py:80` | a character outside both alphabets anywhere changes nothing |
| `OidcCookie.ReadsWithinLifetime` | `src/renderdesk/oidc_state.py:58-92` | a cookie made for any flow that JSON reads back reads back whole exactly until 600 seconds have passed |
| `OidcCookie.ForeignSignatureFails` | `src/renderdesk/oidc_state.py:78-84` | a concrete value on which the reader raises |
| `OidcCookie.AcceptedWasSigned` | `src/renderdesk/oidc_state.py:78-92` | what is accepted carries the signature of the bytes it was read from and is fresh |
| `OidcCookie.FailsExactlyOnForeignSignatures` | `src/renderdesk/oidc_state.py:78-84` | the reader raises exactly when the body decodes and the signature is not ASCII |
| `OidcCookie.OtherTextsRead` | `src/renderdesk/oidc_state.py:78-92` | other texts read as the same flow: leading characters outside the alphabet, four at a time |

## Left out

- `WholeApplication.PromisesHoldTogether`: does not interleave the steps inside a content request, because what then holds is the subject of `QuotaSafety`, `VersionRaces` and `CommentRaces`.
- `SchemaIntegrity.EveryForeignKeyHolds`: does not cover the tables `sessions`, `oidc_identities` and `app_settings`, because they refer to users only and users are never deleted; and takes content requests as atomic.
- `SingleUse.SingleUseExactly`: does not speak of a code taken after it has expired, because the sweep may have removed its row by then, nor of a token whose connection is revoked, because that opens nothing (`GrantRaces.RevocationIsFinalRaced`).
- `GrantRaces.SplitInvisibleExactly`: does not split the consent routes or the revocation of a connection, whose transactions stay one step each.
- Share writes are atomic: the unique pair decides their race.
- The size limit on client metadata: the metadata document is not modelled.
- Redirect URI, PKCE challenge, scope and state columns: carried along by the code, checked by the MCP SDK, which is not part of this model.
- `OAuthProgress.RevocationByConnection`: does not ask whose connection it is, because the machine lets anybody start a revocation or a removal, which only adds behaviour; the owner check of the two dashboard routes is `OAuthServer.RevokeOwn` and `OAuthServer.RemoveOwn`.
- The consent routes' browser binding: `ConsentCookie` models the cookie; the authorization machine lets any logged-in user answer any pending request, which only adds behaviour.
- `OAuthServer.GetOrCreateConnection`: does not model the label, which is client metadata.
- `DiscussionTools.CheckArtifactCommentQuota`: counts all characters, because the rule that SQLite's LENGTH stops at a NUL character is not modelled.
- `ArtifactTools.UpdateArtifact`: does not model lone surrogates in stored text, because they cannot be encoded and the request fails before it reaches the database.
- Negative caps: the configured limits are natural numbers here.
- SQLAlchemy's omission of unchanged columns from an UPDATE, its rollback machinery, and SQLite itself: a transaction that fails changes nothing.
- `list_artifacts`, `list_versions`, `list_shares` and the other read-only listings and pages: each returns the rows of one SELECT and changes nothing.
- The `_inject_*` splices, HTML escaping, the CSV table and the CSP strings of `view.py`: one concatenation each.
- The regular expressions, Markdown, Pygments, nh3, HMAC, SHA-256 and bcrypt: not part of this model.
- HTTP, middleware, templates, the command line, configuration, migrations and OIDC token validation: not part of this model.
- `ReactEmbedding.NoCloserLeft`: says nothing about other sequences an HTML tokenizer treats specially inside a script block, because the code only splits "</".
