# A verified model of the task platform's stateful protocols

The repository is a multi-tenant project and task service: an HTTP API over PostgreSQL and Redis with
a WebSocket hub and a nightly worker. This project models, in Dafny, the six protocols on which
its promises rest, and proves what each of them keeps over every run or every interleaving:

* **Room hub** (`Hub`, `HubRooms`, `HubDelivery`, `HubFailures`, `HubCleanup`, `WebSocketHub`): rooms,
  listener tasks and their cancellation, cut at the points where coroutines are really suspended; the
  class carries the source's fields and methods, and each method is a step of the state machine.
* **Tenant store and pages** (`Keys`, `Walks`, `TaskStore`, `TaskRepository`, `TaskApi`,
  `TaskVersions`, `TaskIsolation`, `FeedHistory`, `Comments`): keyset and offset readers over one
  sorted order, walks through a changing table, and noninterference between tenants.
* **Sweeper** (`Sweeper`, `TaskService`): the purge job as a garbage collector that the task API
  cannot observe.
* **Versions and audit** (`TaskOcc`, `TaskHistory`, `TaskSerial`, `ProjectOcc`, `TaskService`,
  `ProjectService`): the compare-and-swap on task status, the read-then-write of projects and of
  other task fields, all interleaved, with the exact conditions under which versions guard them.
* **Rate limiter** (`RateLimit`): the pruned, expiring sorted set against "count the attempts of the
  last window".
* **Cache and tokens** (`CacheKey`, `CacheAside`, `CacheSerial`, `CacheVersions`, `ProjectCache`,
  `Blacklist`, `TokenRaces`, `TokenReuse`, `TokenUsers`, `TokenSerial`, `AuthService`, `TokenChains`):
  cache-aside reads with 300-second entries, and refresh-token rotation with a blacklist whose entries expire.
* **Cursors** (`Base64`, `Uuid`, `Iso8601`, `Cursor`, `Endpoints`): the printer and parser of page
  cursors, and clients that walk by them.

## How the pieces are modelled

PostgreSQL is a map from primary key to row and Redis a map with expiry times; each statement,
command or pipeline is one atomic step, and a transaction's write takes effect at its commit. Code
that changes things step by step is a class with the source's fields; its methods are proved against
specification functions, about which the lemmas speak. Concurrency is a state machine: requests are
split at the awaits that matter, and lemmas range over all legal sequences of steps. Times are real
numbers where the source uses floats, whole microseconds for stored timestamps, whole seconds for
token expiry. Fresh ids, clock readings, Redis failures and the iteration order of sets are
parameters of the steps.

Five findings, stated as theorems:

* The version guard of projects, and of task edits other than status, does not stop overlapping
  updates, although line 17 of the repository's README promises it for both. It works if and only
  if no write is stale (`ProjectOcc.GuardWorksIffNoWriteIsStale`,
  `TaskHistory.VersionsGuardIffNoEditIsStale`), and runs in which it fails are given. One stale edit
  even lets two status updates win one version, or changes a task that was deleted meanwhile.
* A login chain can end up with two usable refresh tokens, by a replay in the last second of a
  rotated token: its blacklist entry is truncated to whole seconds (`TokenChains.ChainBalance`).
  Overlapping refreshes can do the same before that second, and only overlapping ones can
  (`TokenReuse.AcceptedTwiceOnlyByOverlapping`).
* A GET overtaken by a PATCH may put the old project back into the cache after the eviction; if the
  eviction succeeds, nothing else can make the PATCH go unseen
  (`CacheAside.PatchIsSeenIffNothingIsOvertaken`).
* The rate limiter's key may expire under a slow request, which then gets past the limit; exactly
  when expiry shows is proved (`RateLimit.ExpiryIsUnobservableIffOnlyTheDueGo`).
* A malformed cursor does not fail: it shows the first page again
  (`Endpoints.MalformedCursorStartsOver`).

## Model

| member | source | states |
|---|---|---|
| `HubRooms.OneListenerPerRoom` | app/websockets/hub.py:36-61 | In every interleaving, at every suspension point: rooms and registered listeners have the same projects, every room is non-empty, and each project has at most one listener that is not cancelled, which is the registered one and still inside its loop |
| `HubRooms.RoomsHold` | app/websockets/hub.py:36-99 | The invariant behind it is kept by every step of every run, also when a room empties and reopens before its old listener wakes |
| `HubRooms.LoopTestHolds` | app/websockets/hub.py:80 | The loop test never fails for a listener that was not cancelled, so listeners end by cancellation only |
| `HubRooms.DropAllLeaves` | app/websockets/hub.py:92-93 | The loop over dead sockets removes exactly these from the room and touches no other project's listener, even when it cancels the listener that runs it |
| `HubDelivery.ChannelIsPublished` | app/websockets/hub.py:63-70 | In every run a channel holds exactly the payloads published for its project, one for each publication, in their order |
| `HubDelivery.SocketsSeePublishedOrder` | app/websockets/hub.py:66-90 | In every run what a socket is sent for a project is what was published for it, in the order of publication, no publication twice, across successive listeners of one project too |
| `HubDelivery.FanOutReachesTheRoom` | app/websockets/hub.py:86-90 | A fan-out that was carried through sent its message exactly once to every socket of the room as it was when the message was taken, and to no other, whatever joins and leaves ran in between |
| `HubDelivery.TakenIsTheRoom` | app/websockets/hub.py:81-88 | The sockets that a fan-out is for are the present, non-empty room at the step that takes the message, and its first send goes out |
| `HubDelivery.ListenerSkipsNothing` | app/websockets/hub.py:80-95 | Every non-empty message that a room's listener has taken since subscribing is fanned out, but for the one in progress |
| `HubDelivery.TraceHolds` | app/websockets/hub.py:72-99 | The delivery invariant is kept by every step of every run |
| `HubFailures.FailedSocketsLeave` | app/websockets/hub.py:84-93 | At the step that ends a fan-out the room loses exactly the sockets whose send of that message failed at any point of it |
| `HubFailures.FailuresHold` | app/websockets/hub.py:84-93 | A fan-out in progress knows exactly the sockets that have failed it, in every run |
| `WebSocketHubs.WebSocketHub.Connect` | app/websockets/hub.py:36-49 | The socket is in its room, other rooms are as before, a listener is started exactly for a new room, and the room invariant holds again |
| `WebSocketHubs.WebSocketHub.Disconnect` | app/websockets/hub.py:51-61 | Exactly that socket leaves; an emptied room is closed and its listener cancelled; the room invariant holds again |
| `WebSocketHubs.WebSocketHub.BroadcastToRoom` | app/websockets/hub.py:63-70 | One payload is appended to the project's channel, or none if Redis fails; other channels, rooms and listeners stay as they are |
| `WebSocketHubs.WebSocketHub.OnSubscribed` | app/websockets/hub.py:77-81 | The listener goes on from the message at which its subscription took effect |
| `WebSocketHubs.WebSocketHub.OnMessage` | app/websockets/hub.py:81-88 | Taking a message is the state machine's step and keeps the room invariant |
| `WebSocketHubs.WebSocketHub.OnSent` | app/websockets/hub.py:86-95 | After one send the next socket is served, or after the last the dead sockets are dropped; it is the state machine's step |
| `WebSocketHubs.WebSocketHub.DisconnectAll` | app/websockets/hub.py:92-93 | The loop over dead sockets leaves in the room exactly the others |
| `WebSocketHubs.WebSocketHub.OnCancelled` | app/websockets/hub.py:72-99 | A cancelled listener unsubscribes if it had entered its loop, else it just ends; it sends nothing more |
| `HubCleanup.ListenersCleanUp` | app/websockets/hub.py:77-99 | In every run a listener subscribes at most once, and one that has ended has unsubscribed exactly as often as it subscribed, however it was cancelled |
| `Keys.SortedListIsUnique` | app/repositories/task.py:57-60 | The order by creation time and id is total: a set of rows has one listing only |
| `Walks.FetchIsFair` | app/repositories/task.py:84-96 | A keyset page is ordered, lies beyond the cursor and leaves out only rows that come after its last one; `has_more` holds exactly when it leaves some out |
| `Walks.WalkIsOrdered` | app/api/v1/endpoints/tasks.py:112-118 | A walk shows keys in strict order, whatever happens to the table between fetches |
| `Walks.WalkDecides` | app/api/v1/endpoints/tasks.py:112-118 | Once a walk has ended, a key was shown if and only if it was in the table's view at the one fetch that decides it |
| `Walks.WalkIsComplete` | app/api/v1/endpoints/tasks.py:112-118 | A finished walk has shown every key that was there at all its fetches, exactly once |
| `Walks.WalkEnds` | app/api/v1/endpoints/tasks.py:112-118 | If new rows come in front of all stored ones, a walk ends after at most one fetch more than there were rows beyond its cursor |
| `Walks.WalkOfGrowingTable` | app/repositories/comment.py:36-48 | If rows are only added behind, a finished walk shows exactly the table's last view, in order |
| `Walks.WalkAtRest` | app/repositories/task.py:66-96 | On a table at rest the walk ends and shows the sorted filtered table |
| `Walks.KeysetPageIsOffsetPage` | app/repositories/task.py:42-96 | On a table at rest keyset page i is offset page i of the same size |
| `Walks.OffsetPagesTile` | app/api/v1/endpoints/tasks.py:84-94 | Offset pages 1 to the reported page count are the whole list; only the last may be short and none is empty |
| `TaskRepositories.TaskRepository.GetById` | app/repositories/base.py:51-64 | A row is found if and only if it is the tenant's and, unless asked for, not deleted |
| `TaskRepositories.TaskRepository.Count` | app/repositories/base.py:80-90 | Counts the tenant's live rows, or with deleted ones the tenant's whole view |
| `TaskRepositories.TaskRepository.Create` | app/repositories/base.py:92-94 | Whatever tenant the attributes name, the row becomes this tenant's |
| `TaskRepositories.TaskRepository.SoftDelete` | app/repositories/base.py:96-112 | Succeeds exactly for a live row of the tenant, which it marks; else nothing changes |
| `TaskRepositories.TaskRepository.BuildFilterCriteria` | app/repositories/task.py:17-40 | The conjuncts built one by one hold exactly of live rows of the tenant that have the project, status, priority, assignee and reporter asked for and pass the search |
| `TaskRepositories.TaskRepository.ListTasksOffset` | app/repositories/task.py:42-64 | The rows from `offset` on, at most `limit`, of the one listing of the matching rows, oldest first if asked for and else newest first; and how many match |
| `TaskRepositories.TaskRepository.ListTasksCursor` | app/repositories/task.py:66-96 | Rows of the table, at most `limit` and exactly that many if more follow, that match and lie beyond the cursor, newest first, leaving out only later ones |
| `TaskApi.TenantIsolation` | app/repositories/base.py:51-112 | Noninterference over whole histories: a tenant's rows and all its replies are those of the run of its own operations alone, whatever other tenants do |
| `TaskIsolation.InterleavedTenantIsolation` | app/repositories/base.py:51-112 | Noninterference in every interleaving: without the other tenants' reads and writes a tenant's own steps are a legal run with the same outcomes in the same order, the same rows, audit records and requests under way |
| `TaskApi.ReplyDependsOnLiveRows` | app/repositories/base.py:51-112 | A reply, and the live rows after it, depend on nothing but the tenant's own live rows |
| `TaskApi.RowsStayWithTheirTenant` | app/api/v1/endpoints/tasks.py:149-238 | No operation removes a row or changes its tenant, creation time or id |
| `FeedHistory.FeedShowsNoTaskTwice` | app/api/v1/endpoints/tasks.py:102-124 | With any requests between fetches the feed is newest first and shows no task twice |
| `FeedHistory.FeedMissesNothing` | app/api/v1/endpoints/tasks.py:102-124 | After the last page a task has been shown exactly if it was live and matching at the fetch that decides it, so one that was so all along is shown |
| `FeedHistory.FeedWalkEnds` | app/api/v1/endpoints/tasks.py:112-118 | With later timestamps for new tasks the walk ends within one fetch more than tasks were stored at its start |
| `Comments.CommentRepository.ListCommentsCursor` | app/repositories/comment.py:17-48 | Comments of the tenant on the task, at most `limit` and exactly that many if more follow, beyond the cursor, oldest first, leaving out only later ones |
| `Endpoints.CommentService.AddComment` | app/services/comment.py:23-39 | Refused exactly if the tenant has no such live task; else one trimmed, unedited comment is stored |
| `Endpoints.CommentService.UpdateComment` | app/services/comment.py:76-95 | Not found, forbidden to all but author and administrators, or trimmed and marked as edited, each in exactly its case |
| `Comments.ThreadWalkShowsTheThread` | app/services/comment.py:41-74 | With comments edited and appended between pages under later timestamps, a finished walk has shown exactly the sorted thread as of its last page, each comment once |
| `Sweeper.SweepsAreUnobservable` | app/workers/tasks.py:49-69 | Purges inserted anywhere in a history change no reply of the task API, and what they removed from the final table is soft-deleted |
| `Sweeper.PurgedIffDeletedLongAgo` | app/workers/tasks.py:51-65 | Over every history from the empty table: a purge takes a row away if and only if an earlier request deleted it with success and stamped it, at least the threshold of days before |
| `Sweeper.PurgeLeavesNothingDue` | app/workers/tasks.py:51-65 | No row stays that was stamped at least the threshold before, and rows that stay are unchanged |
| `Sweeper.PurgeIsExactWhenNoSubtaskSurvives` | app/models/task.py:51-55 | The cascade on `parent_id` takes nothing but expired rows if and only if no other row is a subtask of an expired one |
| `Sweeper.CascadeIsLeastClosed` | app/models/task.py:51-55 | With subtasks it takes exactly the rows at or below an expired one |
| `Sweeper.PurgeLeavesNoOrphans` | app/models/task.py:51-55 | No subtask outlives its task |
| `TaskServices.CleanupWorker.CleanupSoftDeletedTasksJob` | app/workers/tasks.py:49-69 | Afterwards no row is left that was soft-deleted at least the threshold before, rows that are left are unchanged, and without subtasks only such rows are gone; the number returned is theirs |
| `TaskHistory.VersionsGuardIffNoEditIsStale` | app/api/v1/endpoints/tasks.py:149-195 | For every interleaving of status updates, edits of other fields and deletions, each cut between its read and its write: the successful updates of a task expected 1, 2, 3, ... in commit order, if and only if no version was won twice, if and only if the stored version counts them, if and only if no edit was flushed after an update that came after its load; the version never exceeds the count |
| `TaskHistory.StaleEditGivesTwoWinners` | app/api/v1/endpoints/tasks.py:179-194 | A run from the empty table in which the guard fails: an edit loaded at version 1 and flushed after two status updates sets the version back, and two status updates win version 2 |
| `TaskHistory.RaceHasOneWinnerIffNoEditIsStale` | tests/test_concurrency_race.py:60-71 | For every version exactly one of all the updates ever sent that expect it has won once the task is past it, and none before, if and only if no edit was stale; so always where all updates are status updates |
| `TaskHistory.OnlyLoadedEditsFollowADelete` | app/repositories/base.py:96-112 | In every interleaving at most one soft delete of a task succeeds, no status update succeeds after it, and an edit does only if it had loaded the task before |
| `TaskHistory.DeletedExactlyByADelete` | app/repositories/base.py:100-112 | A task is marked as deleted exactly if a soft delete of it succeeded |
| `TaskHistory.EditOfADeletedTask` | app/api/v1/endpoints/tasks.py:176-194 | A run in which such an edit does succeed on a deleted task: the flush goes by primary key alone |
| `TaskHistory.AuditTrailIsStatusHistory` | app/services/task.py:73-115 | In every interleaving a task's UPDATE rows are its successful status updates, one for one in commit order, each with the version and status that it wrote and a before-state that the task really had when the request read it; the stored status is the trail's last |
| `TaskHistory.BeforeStateIsPreviousIffNothingCameBetween` | app/services/task.py:73-76 | Where no edit is stale, a row's before-state is the state just before the update if and only if the request had read the version that it expected, if and only if nothing came between |
| `TaskHistory.TrailHasGapsAtEdits` | app/api/v1/endpoints/tasks.py:175-195 | Where no edit is stale, the trail's after-versions run through 2, 3, ... up to the stored version with gaps exactly at the edits, which write no audit row |
| `TaskOcc.InvHolds` | app/services/task.py:60-116 | Row, writes, trail and pending requests agree after every step of every run |
| `TaskVersions.VersionsAreUsedInOrder` | app/api/v1/endpoints/tasks.py:149-209 | In every run of whole requests the successful updates of a task, by status or otherwise, expected versions 1, 2, 3, ... in this order, one each, up to the stored one |
| `TaskServices.TaskService.CreateTask` | app/services/task.py:23-58 | A new task has exactly the given title, description, priority, project and people, is the tenant's and live, at version 1 in the backlog, with its CREATE audit row |
| `TaskServices.TaskService.UpdateTaskStatusOcc` | app/services/task.py:60-116 | Exactly when the tenant has no such live task, or its version differs, nothing changes; otherwise row, version and audit row change together as in the interleaving model |
| `TaskServices.TaskWriteEndpoints.UpdateTask` | app/api/v1/endpoints/tasks.py:149-209 | With a status only the status is updated, with its audit row; without one the other fields are, with none; table and answer are those of the whole-request model |
| `TaskServices.TaskWriteEndpoints.AssignFields` | app/api/v1/endpoints/tasks.py:182-193 | Each field that the payload carries is taken over, the title trimmed, every other field stays, and the version rises by one |
| `TaskServices.TaskWriteEndpoints.EditFields` | app/api/v1/endpoints/tasks.py:175-195 | Not found or in conflict in exactly these cases and without effect, else the edited row is stored, one version up |
| `TaskOcc.FlushSetsOnlyTheChanges` | app/api/v1/endpoints/tasks.py:182-194 | A flush sets what its request changed and leaves every other column as others have left it, a status or a deletion set meanwhile included |
| `TaskSerial.StatusUpdateAlone` | app/services/task.py:60-116 | The interleaving model's steps of one status update, uninterrupted, are the whole request, with its outcome and audit row |
| `TaskSerial.EditAlone` | app/api/v1/endpoints/tasks.py:175-195 | The same for an edit |
| `TaskSerial.DeletionAlone` | app/api/v1/endpoints/tasks.py:217-231 | The same for a deletion |
| `TaskServices.TaskWriteEndpoints.DeleteTask` | app/api/v1/endpoints/tasks.py:217-231 | The deletion is the whole-request one; a task that is not live is not found and stays as it is |
| `ProjectOcc.GuardWorksIffNoWriteIsStale` | app/services/project.py:58-86 | For every interleaving: versions are used up one by one, and the stored version counts the updates, if and only if no update was committed between the read and the write of another; the column has no mapper guard |
| `ProjectOcc.AuditIsChainIffNoWriteIsStale` | app/services/project.py:69-103 | The audit records form one unbroken chain of states from the first row if and only if no update was stale, and the chain then ends in the stored row |
| `ProjectOcc.SerialUpdatesAreGuarded` | app/services/project.py:52-104 | Requests that do not overlap: one winner per version, exact count, unbroken chain |
| `ProjectOcc.TwoOverlappingUpdatesBothWin` | app/models/project.py:39 | Two requests that both read version 1 before either writes are both accepted and one name is lost, contrary to README.md line 17 of the repository |
| `ProjectServices.ProjectService.CreateProject` | app/services/project.py:20-50 | Refused exactly if the tenant already uses the cleaned key; cleaned keys stay unique per tenant |
| `ProjectServices.ProjectService.UpdateProject` | app/services/project.py:52-104 | Uninterrupted, it succeeds exactly on the expected version, takes over each field that the payload carries and no other, raises the version by one and records both states; a refusal changes nothing |
| `ProjectServices.CleaningTwiceIsCleaning` | app/repositories/project.py:14-20 | Looking a cleaned key up cleans it again, which changes nothing |
| `RateLimit.LimiterCountsTheWindow` | app/core/rate_limit.py:27-53 | With client clocks and arrivals at Redis whose lags differ by at most a spread: the pruned, expiring set has all attempts, admitted or not, of the last window less the spread and none from before the window; with equal lags it is exactly the last window's, and a request is admitted exactly if their number is within the limit |
| `RateLimit.KeyHoldsLasting` | app/core/rate_limit.py:37-41 | For any clock readings and arrivals the key holds exactly the attempts that no later attempt pruned and no pause of a whole window at Redis dropped |
| `RateLimit.ExpiryIsUnobservableIffOnlyTheDueGo` | app/core/rate_limit.py:37-41 | For any clock readings and arrivals, every request finds the attempts that it would find without the key's EXPIRE, if and only if, whenever a pause of a whole window at Redis has let the key expire, the next request would have pruned all that was in it |
| `RateLimit.ExpiryIsUnobservable` | app/core/rate_limit.py:41 | With equal lags, and so on one monotone clock, that holds and the EXPIRE changes nothing at all |
| `RateLimit.SlowRequestSeesExpiry` | app/core/rate_limit.py:27-43 | The failing case: a request that takes half a second to Redis finds the key gone although an attempt of its window was in it, and two requests are admitted in 60 seconds under a limit of one |
| `RateLimit.KeyHoldsSurvivors` | app/core/rate_limit.py:37-40 | Without expiry, for times in any order, the key holds exactly the attempts that no later attempt pruned |
| `RateLimit.NoBurst` | app/core/rate_limit.py:37-53 | With expiry, at most `limit` requests are admitted in any half-open span of one window less the spread of the lags; of one whole window with equal lags |
| `RateLimit.NoBurstUnderSkew` | app/core/rate_limit.py:27-53 | Expiry aside, with timestamps out of order by at most a skew, whatever the arrivals, at most `limit` in any span of a window less the skew |
| `RateLimit.RemainingIsAPromise` | app/core/rate_limit.py:46-51 | A response that shows k remaining promises that the next k requests are admitted whatever their times |
| `RateLimit.RemainingIsTight` | app/core/rate_limit.py:46-53 | And it is tight: while nothing counted has left the window, the k-th next request is admitted if and only if k is at most the limit less the count |
| `RateLimit.SilenceResetsTheLimit` | app/core/rate_limit.py:38-53 | After one silent window, and the spread, the next `limit` requests are all admitted |
| `RateLimit.RateLimiter.Call` | app/core/rate_limit.py:26-70 | One request prunes, adds, counts and decides on its own client's key only; admitted, it shows the limit less the count as remaining, and refused 0 |
| `CacheKey.KeysCollideOnlyWhenEqual` | app/core/cache.py:19-23 | For colon-free parts two keys are equal if and only if namespaces and trimmed parts are, but that no part and one blank part look alike |
| `CacheKey.ColonsCollide` | app/core/cache.py:19-23 | The condition is needed: a colon inside a part makes different lists collide |
| `CacheKey.KeyText` | app/core/cache.py:19-23 | A key is the namespace and the trimmed parts with colons between them, `None` left out |
| `ProjectCache.KeyIsText` | app/api/v1/endpoints/projects.py:58-60 | A project's key is tenant, the tenant's id, projects and the project's id, with colons between them |
| `ProjectCache.TenantKeysDistinguish` | app/api/v1/endpoints/projects.py:58-60 | The keys of different tenants or projects differ |
| `CacheAside.AnswersAreRecent` | app/api/v1/endpoints/projects.py:53-72 | In every interleaving of GETs and PATCHes, with any cache failures: an answer is a committed state of the project and tenant asked for, and was current at some time later than 300 seconds, plus its reading-to-storing delay, before the answer |
| `CacheAside.EntriesAreCommitted` | app/api/v1/endpoints/projects.py:70-71 | A cached entry is a committed state of the project and tenant that its key names |
| `CacheAside.PatchedStateIsServed` | app/api/v1/endpoints/projects.py:61-95 | In every run from the start: if a PATCH evicts with success, and no request that had by then read a state older than the one it committed stores it afterwards, every later answer, other than to those requests, shows a state at least as new as that |
| `CacheAside.PatchIsSeenIffNothingIsOvertaken` | app/api/v1/endpoints/projects.py:61-95 | The exact condition at the eviction: all continuations answer with states at least as new as the one the PATCH committed, if and only if no request holds an older reading then |
| `CacheAside.OvertakenStoreIsServed` | app/api/v1/endpoints/projects.py:61-72 | A run from the start in which it fails: a GET reads, a PATCH commits and evicts, the GET stores, and GETs that start afterwards are answered with the old state until the entry expires |
| `CacheVersions.PatchedVersionIsServed` | app/api/v1/endpoints/projects.py:61-95 | Such later answers show at least the version that the PATCH made, where no update of the project is stale |
| `CacheSerial.SerialGetsAreUncached` | app/api/v1/endpoints/projects.py:53-95 | In every run from the empty cache in which requests do not overlap and evictions succeed, whatever time passes and other cache calls fail: each GET answers exactly what the uncached GET would |
| `CacheSerial.SerialRunGoesOn` | app/api/v1/endpoints/projects.py:53-95 | Any request may come next in such a run, so nothing is assumed of it but its order |
| `ProjectCache.UpdateSpoilsOneEntry` | app/api/v1/endpoints/projects.py:86-93 | After an update the cache is coherent if and only if it has no live entry of that project, and evicting that entry suffices |
| `ProjectCache.ProjectEndpoints.GetProject` | app/api/v1/endpoints/projects.py:53-72 | One request as the endpoint runs it: with a coherent cache the cached GET answers what the uncached GET would, and the cache stays coherent, now and later |
| `ProjectCache.ProjectEndpoints.UpdateProject` | app/api/v1/endpoints/projects.py:80-95 | Updates on the expected version only; the cache is coherent afterwards if and only if the update failed, or the eviction worked, or no live entry was there |
| `Blacklist.RevocationLasts` | app/core/redis.py:24-29 | After any sequence of revocations, of this token and others, it is found revoked at every time from its revocation up to one second before its expiry, despite truncation and overwriting |
| `Blacklist.EntriesGoAway` | app/core/redis.py:26-29 | An entry outlives its token at most by the revocation's delay on its way to Redis |
| `Blacklist.TokenBlacklistService.RevokeToken` | app/core/redis.py:24-30 | The token is covered up to its last second and no other entry changes |
| `TokenRaces.RevokedTokensAreRefused` | app/services/auth.py:107-151 | In every interleaving a refresh that was accepted although a revocation had completed before its test made that test in the token's last second or, having decoded in time, later |
| `TokenRaces.RevocationIsFound` | app/core/redis.py:24-36 | In every interleaving a completed revocation is found by all later tests before that second |
| `TokenRaces.RefreshStaysWithTheUser` | app/services/auth.py:118-141 | In every interleaving only refresh tokens are refreshed, and the new one is the same user's |
| `TokenUsers.OnlyActiveUsersRefresh` | app/services/auth.py:133-136 | In every interleaving each accepted refresh has loaded its user after its revocation test and found the user active |
| `TokenSerial.AcceptedAlone` | app/services/auth.py:107-141 | The interleaving model's steps of one accepted refresh, uninterrupted, are the service's rotation |
| `TokenSerial.RefusedAlone` | app/services/auth.py:109-136 | A refused one ends at the step that refuses it, with no effect |
| `TokenSerial.LogoutAlone` | app/services/auth.py:143-151 | The steps of a logout are the service's revocation |
| `TokenReuse.EveryRefreshRevokes` | app/services/auth.py:126-141 | In every interleaving each accepted refresh has completed a revocation of its token between its own revocation test and its issue |
| `TokenReuse.AcceptedTwiceOnlyByOverlapping` | app/services/auth.py:126-141 | Two accepted refreshes of one token, tested before its last second, have revoked it separately, and each made its test before the other's revocation had completed: without overlap a token is used at most once |
| `TokenReuse.OverlappingRefreshesBothSucceed` | app/services/auth.py:126-141 | Conversely two refreshes that do overlap so may both be accepted, each with a usable new token |
| `TokenReuse.FirstLoginMayRace` | app/services/auth.py:126-141 | Such a run exists from the first login on |
| `TokenChains.ChainBalance` | app/services/auth.py:107-151 | After any serial run a login chain has one unrevoked refresh token, plus one per replay of a revoked one, less one per first revocation by logging out; replays happen only in the replayed token's last second; and the tokens it can use before their last second are exactly its unrevoked ones |
| `TokenChains.OnlyActiveUsersRotate` | app/services/auth.py:133-136 | In every serial run each rotation and each replay is of a live refresh token of a user active at that time |
| `TokenChains.OneUsableTokenPerChain` | app/services/auth.py:107-151 | Until the last second of the login's own refresh token a chain has at most one usable refresh token |
| `TokenChains.ReplayedChainHasTwo` | app/core/redis.py:27-29 | From then on the bound fails: a concrete run in which a replay in that second leaves two usable tokens |
| `AuthServices.AuthService.GenerateTokenPair` | app/services/auth.py:180-195 | Two new tokens of the user, expiring in 15 minutes and 7 days, floored to seconds; older tokens stay |
| `AuthServices.AuthService.RefreshTokens` | app/services/auth.py:107-141 | Expired or unknown, not a refresh token, revoked, or of a user who is not active: each refusal in exactly its case and without effect; otherwise the old token is revoked up to its last second and a new pair issued |
| `AuthServices.AuthService.Logout` | app/services/auth.py:143-151 | Revokes exactly a live refresh token, and swallows everything else |
| `Base64.DecodeEncode` | app/core/pagination.py:15-21 | URL-safe base64 is read back exactly, at all three lengths of the padding, by the lenient reader (section 5 of RFC 4648) |
| `Base64.KnownVectors` | app/core/pagination.py:15 | The test vectors of section 10 of RFC 4648 |
| `Base64.UrlSafeCharacters` | app/core/pagination.py:15-21 | The URL-safe alphabet writes hyphen and underscore; the reader takes plus and slash, too |
| `Uuid.PrintHasGroups` | app/core/pagination.py:12 | Five groups of 8, 4, 4, 4 and 12 digits with hyphens between them |
| `Uuid.PrintRoundTrip` | app/core/pagination.py:12-24 | Printing and parsing a UUID gives it back (section 3 of RFC 4122) |
| `Iso8601.PrintRoundTrip` | app/core/pagination.py:11-23 | Printing and parsing a UTC timestamp gives it back to the microsecond, with or without a fraction |
| `Iso8601.PrintText` | app/core/pagination.py:11 | A printed timestamp is date, time, fraction if any, and offset zero, in the ISO 8601 layout |
| `Iso8601.DaysBeforeYearFormula` | app/core/pagination.py:11 | Years are those of the Gregorian calendar: the days before a year by its closed form |
| `Iso8601.AheadOfUtc` | app/core/pagination.py:11 | One o'clock an hour ahead of UTC is midnight in UTC |
| `Iso8601.ToUtcIsDefined` | app/core/pagination.py:11 | A timestamp of any offset has its UTC form exactly if that instant falls in the years 1 to 9999 |
| `Cursor.PayloadText` | app/core/pagination.py:10-14 | The payload is the JSON object with the timestamp under ts and the id under id |
| `Cursor.CursorRoundTrip` | app/core/pagination.py:8-27 | Decoding an encoded cursor gives the same instant and the same id, for any offset |
| `Cursor.EncodableInstants` | app/core/pagination.py:11 | Encoding fails exactly for instants outside those years |
| `Endpoints.CursorWalkIsWalk` | app/api/v1/endpoints/tasks.py:112-118 | A client that follows cursor strings sees what a walk by keys sees, so every result on walks holds for it |
| `Endpoints.MalformedCursorStartsOver` | app/core/pagination.py:20-27 | A malformed cursor is no error: the walk starts over at the first page |
| `Endpoints.EmptyPayloadIsMalformed` | app/core/pagination.py:20-27 | Such a cursor is a lone exclamation mark: the reader skips it and finds no payload |
| `Endpoints.TaskEndpoints.ListTasksFeed` | app/api/v1/endpoints/tasks.py:102-124 | A fair page of the matching rows beyond the cursor's key, or the first one for a missing or malformed cursor; the next cursor leads on from the last row and exists exactly if more rows follow |
| `Endpoints.TaskEndpoints.GetTask` | app/api/v1/endpoints/tasks.py:132-141 | The tenant's live task, and not found exactly otherwise |
| `Endpoints.TaskEndpoints.ListTasksOffset` | app/api/v1/endpoints/tasks.py:63-94 | The page of that number of the one listing of the matching rows, their number, and the page count rounded up |
| `Endpoints.OffsetRowsTile` | app/api/v1/endpoints/tasks.py:84-94 | The rows of pages 1 to the reported page count, put end to end, are all matching rows, each once and in listing order |
| `TaskApi.OddPagesAreRefused` | app/api/v1/endpoints/tasks.py:73-74 | Page numbers below 1 and page sizes outside 1 to 100 are refused |
| `Endpoints.CommentService.ListComments` | app/services/comment.py:41-74 | The same for the comments of a task, oldest first |

## Left out

- HTTP routing, request validation, role checks, middleware, logging, health probes, S3 presigning and settings: wrappers over libraries; of validation only the bounds that it guarantees (limit, page and page size at least 1) are kept, as preconditions.
- Argon2, and signing of JWTs: a token is a record of subject, kind, identifier and expiry, and decoding it is the expiry test; identifiers are fresh.
- Registration, password login and user profiles: a login is the issue of a token pair.
- The SQL text, the ILIKE search (an arbitrary predicate on tasks) and the JSON text of cached projects (an identity round trip).
- Redis errors inside the hub's listener: one would end the listener and leave its room without one; reconnection and message loss of Redis Pub/Sub.
- Routing of events to projects, and whether a task's project belongs to the caller's tenant, which `create_task` does not check; broadcasts are therefore no part of the noninterference theorem.
- Purges between the load and the flush of a task edit: the flush would then find no row and fail.
- `list_paginated` and the audit log's page order: no total order is imposed there, so walks through them promise nothing.
- Comments and attachments of deleted or purged tasks: their listings do not look at the task's deleted flag, so a purge is visible through them; the comment walk assumes that no purge removes comments between its pages.
- Other texts that `decode_cursor` accepts: JSON in any other layout, other ISO 8601 forms, UUIDs in braces or as URNs; the model answers `None` for them.
- Naive datetimes, and offsets in seconds in printed timestamps: stored timestamps are aware and printed in UTC.
- Binary rounding of floating-point times.
- Request keys of the rate limiter and pipelines that fail; zset members are taken as distinct.
- ProjectServices.ProjectService.CreateProject: `upper()` is modelled on the letters a to z only, and creation runs uninterrupted; when two creations race, the unique constraint on tenant and key refuses the second insert (app/models/project.py:18).
- `delete_pattern` of the cache: nothing calls it.
- RateLimit.NoBurstUnderSkew: leaves the key's expiry aside, because it bounds the order of the timestamps alone; RateLimit.NoBurst takes expiry into account and bounds the lags to Redis instead.
- TokenChains.OneUsableTokenPerChain: holds until the last second of the login's token, because a replay in that second makes the unbounded claim false; TokenChains.ChainBalance says exactly by how much.
- TokenChains.ChainBalance: is about requests that run one after another; overlapping refreshes are the subject of `TokenReuse`.
- CacheAside.PatchedStateIsServed: counts committed states rather than `version_id`, because overlapping updates may store a version twice or go back; CacheVersions.PatchedVersionIsServed speaks of versions where they do not.
