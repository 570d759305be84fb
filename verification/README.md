# A verified model of the uclip clipboard daemon

The daemon watches a Wayland clipboard, keeps a bounded history of what was copied, mirrors one summary
row per entry for user interfaces, restores old entries on request, and talks to its clients over a
socket. This project models that behaviour in Dafny and proves properties of it. `dafny verify
dfyconfig.toml` checks everything.

## How it is organised

Code that updates state in place is a class (`ClipState`, `Snapshot`, `AppState`, `EventLoop`,
`ClientTask`) whose methods follow the source statement by statement, loops included. Each method is
proved equal to a function on plain values (`Add`, `Drain`, `Restore`, `Iterate`, `Hear`, ...), and the
properties are lemmas about those functions, over all inputs and all runs.

- `Seqs`, `Config`, `Mimes`, `Content`, `History`, `Snapshot`, `Restore`: payload algebra and storage.
- `Drain`, `AppState`, `EventLoop`: reading pipes, handling Wayland events, one turn of the main loop.
- `Wire`, `Ownership`: an independent monitor for the client side of ext-data-control-v1, and the proof
  that the daemon never upsets it.
- `Mirror`, `Accounting`: the UI mirror against the history; who pays for suppressed echoes.
- `Conduct`: which requests the daemon makes, what it offers with a source, when a restore succeeds.
- `Batches`, `Storage`, `Lifetime`: from events to groups to entries to later requests for them.
- `Summary`: the variant, the preview and the row of a copy, from its blobs.
- `Echo`, `EchoRun`, `RoundTrip`: restore and echo, among whatever else a turn holds.
- `Copies`, `Scenario`, `Divergence`, `Phantom`: concrete runs that end badly.
- `Server`, `Protocol`: client tasks and the Wayland thread as interleaved steps.
- `Replies`: what each step of a client task sends, in every state, and which steps send which error.
- `Daemon`, `Composition`: both halves together. The Wayland thread is taken apart into its visible
  steps and interleaved with the clients; it is shown to refine the sequential loop, and the shared
  state to be a run of the server, so that the results of both halves hold of the whole.

## Assumptions

- A `HashMap` iterates over its keys in an arbitrary order. Functions that iterate take the order as an
  argument, or ask an `Oracle` that may answer with any permutation, a different one each time. Such
  oracles exist (`Scenarios.SomeOracle`).
- UTF-8 lossy decoding is an arbitrary function `utf8`; `Instant::now()` is an arbitrary stream
  `env.clock`; `SystemTime` stamps are arbitrary numbers.
- Requesting a type fails without a pipe, fails to flush, or yields a pipe; a pipe read yields the bytes the
  sender wrote or an error. All of this is given with the event.
- The compositor introduces each offer as a new object, keeps protocol ids unique among live offers,
  sends offer events only for live offers and cancels only sources that were created (`Wire.FairEvent`); ownership is proved for as long as it
  does. The echo of a restore offers exactly the published types, in any order, and delivers exactly the
  published bytes.
- Channels: the restore queue is first in, first out and bounded, a oneshot delivers at most once, and the
  broadcast ring reports lag and resumes at the oldest event it still holds. Lines arrive whole.

## Where the code and its documentation disagree

The code is modelled as it is.

- `src/daemon/snapshot.rs:14` says that the snapshot never diverges from the history. It does, by one
  oldest row, after an echo was stored in a full history and suppressed. `Mirrors.TurnMirrors` gives the
  exact condition for a turn to end with both equal, `Divergence.MirrorDiverges` a run on which they are
  not.
- `README.md:93` says that suppression keeps the UI from seeing a phantom row. For an entry with text
  and images that holds a plain payload it never does (`Echoes.MixedIsNeverRecognised`,
  `RoundTrips.RestoredMixedShowsPhantom`); `Phantoms.PhantomAppears` gives a run of one copy, its restore and
  its echo. `Echoes.TextRecognisedIff` gives the exact condition for every
  entry with text: each payload that may fill in the aliases has the preview as its first line.
- `src/clipboard/history.rs:319` calls the dedup guard full-content equality. Equal bytes are recognised as
  a repeat for every iteration order if and only if at most one text type is outside the preference table
  (`Histories.RepeatIgnoredIff`): two such types tie in the sort, and the list of offered types then
  follows the hash map.

## Model

| member | source | states |
|---|---|---|
| `Mimes.PickMimes` | src/mime.rs:25-52 | the three loops and the truncation compute `Pick`, of which the next rows prove the meaning |
| `Mimes.PickIsSelection` | src/mime.rs:18-52 | the types requested are, without duplicates, the first four of the offered eligible types in priority order: preferred text by table position, other text by offer position, supported images by table position; nothing is skipped for anything of lower priority |
| `Mimes.SelectionIsUnique` | src/mime.rs:18-24 | that description leaves no freedom: any list that meets it is the one picked |
| `Mimes.PickIsIdempotent` | src/mime.rs:25-52 | offering exactly what was picked picks the same again |
| `Mimes.TextMimeIff` | src/mime.rs:9-16 | the six tests come down to the prefix "text/" or one of three names |
| `Contents.Classify` | src/clipboard/history.rs:56-88 | split loop, sort and choice of variant compute `FromBlobs`, for every pair of iteration orders |
| `Contents.BuildRepresentations` | src/clipboard/history.rs:168-185 | the loop over the images flattens a content into its map of representations |
| `Contents.RepresentationsLossless` | src/clipboard/history.rs:56-185 | flattening what was classified gives back every non-empty blob byte for byte and nothing else; nothing is stored exactly when all blobs are empty |
| `Contents.EqualContentEqualBytes` | src/clipboard/history.rs:322-328 | contents that compare equal come from equal non-empty blobs |
| `Contents.PrimaryIsBest` | src/clipboard/history.rs:94-102 | the decoded type is the best one: lowest in the preference table, and among unlisted types the smallest name |
| `Contents.StrLeIff` | src/clipboard/history.rs:81-100 | names are compared lexicographically: at the first difference, the end or the smaller character comes first |
| `Contents.HtmlKeptIff` | src/clipboard/history.rs:105-118 | what is stored of a copy with text tells from its own representations what is decoded: the whole primary one, and the HTML exactly when there is an HTML representation with other bytes |
| `Contents.OfferedInOrder` | src/clipboard/history.rs:119-125 | the offered types are a permutation of the text types, sorted by preference |
| `Contents.TiesFollowIteration` | src/clipboard/history.rs:119-125 | two unlisted text types make the content depend on the iteration order |
| `Contents.CanonicalIff` | src/clipboard/history.rs:56-135 | the content is independent of all iteration orders if and only if at most one text type is unlisted |
| `Summaries.VariantIff` | src/clipboard/history.rs:71-87 | the variant is decided by the numbers of non-empty text and other blobs alone: none at all stores nothing; text only is text, one single other blob an image, and everything else mixed |
| `Summaries.FirstLineIs` | src/clipboard/history.rs:199-208 | the line taken is the longest start of the text without a line feed, nor a carriage return before one |
| `Summaries.SummariesJoined` | src/clipboard/history.rs:209-214 | the images of a preview are separated by ", ", wherever the list is cut |
| `Summaries.FromBlobsShows` | src/clipboard/history.rs:94-223 | what is stored shows the best type, all images sorted by type, and as preview the first line of the best text followed by the images |
| `Histories.ClipState.Remove` | src/clipboard/history.rs:304-308 | removes exactly the entries with the id, and reports whether there was one |
| `Histories.ClipState.AddGrouped` | src/clipboard/history.rs:322-343 | classify, compare with the newest, number, append, evict: the whole new state and the id |
| `Histories.ClipState.Evict` | src/clipboard/history.rs:339-341 | the loop keeps the newest `MAX_HISTORY` entries |
| `Histories.RunKeepsIds` | src/clipboard/history.rs:295-343 | over any run of stores and removals ids increase along the history, stay below the next id, and no id is handed out twice |
| `Histories.HistoryIsWindow` | src/clipboard/history.rs:322-343 | after any sequence of copies the history holds the last `MAX_HISTORY` of the log without immediate repeats, numbered from one without gaps, with their times |
| `Histories.EntryWasStored` | src/clipboard/history.rs:304-343 | over any run an entry has the content and the time of one of the stores, the id that was next then, and was not removed since |
| `Histories.EqualPairsBound` | src/clipboard/history.rs:304-343 | neighbours with equal content number at most the removals of entries that were not the newest |
| `Histories.RepeatIgnoredIff` | src/clipboard/history.rs:316-328 | copying the same blobs twice is ignored for every iteration order if and only if at most one text type is unlisted |
| `Snapshots.Snapshot.PushSummary` | src/daemon/snapshot.rs:16-21 | the loop leaves the last `MAX_HISTORY` rows |
| `Summaries.RowIs` | src/daemon/types.rs:124-150 | every field of a row from the blobs of the copy: id, time, kind by the numbers of blobs, best type, the first `PREVIEW_CHARS` characters of the preview, and whether there is text |
| `Summaries.RunRows` | src/main.rs:146-152 | over every run, every row announced is such a row of an entry classified from the blobs that were read |
| `Snapshots.Snapshot.ListSnapshot` | src/daemon/snapshot.rs:23-37 | the total, and the rows from the offset on: exactly as many as the least of the limit, `MAX_LIST_LIMIT` and the rows that are left |
| `Snapshots.PagesPartition` | src/daemon/snapshot.rs:23-37 | for any limit of at least one, walking in steps of the clamped limit terminates and the pages concatenate to all rows |
| `Drains.ReadBounded` | src/clipboard/io.rs:40-51 | reading one byte past the limit and truncating yields the first `MAX_CONTENT_BYTES` bytes, and tells exactly whether there were more |
| `Drains.GatherGroups` | src/clipboard/io.rs:64-99 | an offer has a group exactly when some read delivered bytes for it, and the group maps each type to its last non-empty payload |
| `Drains.GatherOrder` | src/clipboard/io.rs:60-88 | the groups are listed once each, in the order of their first delivery |
| `Drains.GatherCounts` | src/clipboard/io.rs:69-97 | one error per failed read, one truncation per oversized read, nothing else |
| `Drains.ErrorsReported` | src/clipboard/io.rs:91-97 | the failed reads are reported in queue order, each with its type and its error |
| `Drains.TruncationsReported` | src/clipboard/io.rs:71-81 | the oversized reads are reported in queue order, each with its type |
| `Drains.CommitRefinesRun` | src/clipboard/io.rs:101-139 | committing the groups is the history run of their stores: same history, same ids, one outcome per group in order; `IgnoredDuplicate` exactly when the content equals the then-newest entry, under the UTF-8 plain, else the plain, else the smallest type, and otherwise `Stored` under the next id and the best type |
| `AppStates.AppState.ReadAll` | src/clipboard/io.rs:64-99 | the loop empties the queue and computes `Gather` of it |
| `AppStates.AppState.DrainPendingReads` | src/clipboard/io.rs:58-140 | the new state and the outcomes are those of `Drain` |
| `AppStates.AppState.Dispatch` | src/clipboard/wayland/device.rs:23-83 | every event has exactly the effect of `Handle` on slots, offer cache, queue and requests sent |
| `AppStates.AppState.SelectionChanged` | src/clipboard/wayland/device.rs:29-70 | a selection destroys a different previous offer, selects, and requests the picked types |
| `AppStates.AppState.RequestMime` | src/clipboard/wayland/device.rs:104-123 | nothing is requested without a pipe, nothing is queued without a flush, and otherwise one request and one read |
| `AppStates.AppState.SourceCancelled` | src/clipboard/wayland/source.rs:34-42 | only a cancellation of the owned source drops and destroys it; a stale one changes nothing |
| `AppStates.AppState.RestoreEntry` | src/clipboard/state.rs:241-294 | a failed restore changes nothing; a successful one publishes the topped-up representations |
| `AppStates.AppState.Publish` | src/clipboard/state.rs:277-289 | create, offer every type, select, then destroy the previous source, in this order |
| `Conducts.SelectionAsks` | src/clipboard/wayland/device.rs:29-70 | a selection makes one request for each type picked from the cached ones, in order, unless there was no pipe for it, and queues exactly the flushed ones; an unknown offer is not asked |
| `Conducts.TypesAccumulate` | src/clipboard/state.rs:173-184 | the types listed for an offer are cached in that order, also when it was never introduced, and other offers keep theirs |
| `Conducts.RunConduct` | src/clipboard/state.rs:277-281 | over every run the device is bound exactly until access is revoked, and every source created was offered with each type it holds exactly once, and with no other |
| `Conducts.RestoreSucceedsIff` | src/clipboard/state.rs:241-257 | after every run a restore succeeds if and only if the entry is held and access was not revoked, and otherwise fails for the first of these reasons |
| `Restores.TopUpAliases` | src/clipboard/state.rs:270-274 | the loop adds every missing alias with the fallback and changes nothing else; what the aliases then serve is stated by `Echoes.AliasesServeText` |
| `Restores.PublishedServesStored` | src/clipboard/state.rs:40-50 | a request for a stored type gets exactly its stored bytes, whatever the hash maps do |
| `Echoes.AliasesServeText` | src/clipboard/state.rs:263-275 | a content with text is published under its stored types and all aliases, and no other; there is one stored payload, the UTF-8 plain one, else the plain one, else any, that every alias that is not stored is served, for all iteration orders |
| `Echoes.UnpublishedServed` | src/clipboard/state.rs:40-50 | a type that was not published is served a published payload if it is a text type and there is one, and nothing otherwise |
| `Wire.DestroyedOnce` | src/clipboard/state.rs:72-82 | on a trace the monitor accepts, every source and every offer is live or was destroyed exactly once |
| `Ownership.HandleKeeps` | src/clipboard/wayland/device.rs:23-83 | every event keeps the daemon's slots in agreement with the monitor |
| `Ownership.RestoreKeeps` | src/clipboard/state.rs:241-294 | a restore keeps the agreement, so the old source is destroyed only after the new selection is set; a failed one creates no source |
| `Ownership.OwnedOrDestroyedOnce` | src/clipboard/state.rs:143-161 | every source ever created is the owned one or was destroyed exactly once; every offer ever selected is the current selection or was destroyed exactly once |
| `Ownership.CancelledIsDestroyed` | src/clipboard/wayland/source.rs:34-42 | a source that was created and then cancelled is not owned and not live any more, and was destroyed exactly once |
| `Ownership.CachedIsCurrent` | src/clipboard/state.rs:173-209 | a cached offer that was ever selected is the current selection |
| `Ownership.DrainClearsCache` | src/clipboard/io.rs:101-104 | after a drain no offer that delivered bytes is cached, and every other one is as before |
| `Ownership.RunOwns` | src/main.rs:123-160 | over every run the monitor finds no fault with the daemon |
| `EventLoops.EventLoop.ExamineStored` | src/main.rs:128-154 | one stored outcome: prune, then suppress or mirror and broadcast |
| `EventLoops.EventLoop.HandleRestore` | src/main.rs:80-102 | the restore, the flag with the preview taken before it, and the reply |
| `EventLoops.EventLoop.RunIteration` | src/main.rs:123-160 | a whole turn is `Iterate` |
| `Mirrors.ExamineAllEffect` | src/main.rs:127-155 | one turn suppresses at most one entry and announces all others that are still held, in order; it suppresses one if and only if the guard fires at some examination, and then one at which it fires |
| `Mirrors.TurnMirrors` | src/main.rs:127-155 | a turn keeps the mirror equal to the history, or one oldest row longer and full. By the guards of its examinations (flag set, every pruning and reading of the clock inside the window, preview of the held entry): if none fires it ends equal if and only if it was equal or stores something; if one fires, if and only if it was equal and nothing has to be evicted |
| `Mirrors.RunMirrors` | src/daemon/snapshot.rs:12-21 | after every turn of every run the mirror is the last `MAX_HISTORY` rows broadcast, and equals the history or has one extra oldest row |
| `Divergence.MirrorDiverges` | src/daemon/snapshot.rs:14-15 | with any decoder there is a run after which the mirror holds a row the history no longer has; clock and iteration orders are produced, not assumed |
| `Accounting.RunIsBooked` | src/main.rs:127-160 | every suppressed entry is paid for by a restore of its own: the latest one at the time, less than five seconds before, with the same preview, in an earlier turn; rows are announced in id order and never for a suppressed entry |
| `Accounting.SuppressedAtMostRestored` | src/main.rs:118-121 | suppressed entries never outnumber successful restores |
| `Accounting.RunNeighbours` | src/clipboard/history.rs:299-328 | over every run neighbours with equal content number at most the suppressed echoes |
| `Batches.GroupIsDelivered` | src/clipboard/wayland/device.rs:29-70 | in any batch, whatever other events and copies share the turn, the group of an offer selected once is exactly what requesting its picked types delivered |
| `Batches.GroupIsBounded` | src/config.rs:31-35 | in any batch, an offer selected once has at most four representations, none empty, none above the limit |
| `Batches.CommittedServes` | src/clipboard/io.rs:82-118 | in any batch, the content stored for an offer holds exactly the last non-empty payload of each type, and restoring it serves them byte for byte |
| `Lifetimes.FairlySelectable` | src/clipboard/wayland/device.rs:39-53 | while the compositor is fair, an offer whose types are known is selectable: no other offer with its protocol id can be the current selection |
| `Lifetimes.CopyHasEntry` | src/clipboard/io.rs:101-139 | a copy that delivers something has an entry: the one stored for its offer, or the newest one that it repeats |
| `Lifetimes.EntryIsDelivered` | src/clipboard/io.rs:82-139 | that entry holds exactly what was delivered for the picked types |
| `Lifetimes.EntryUnchanged` | src/clipboard/history.rs:295-343 | as long as a run, of any length, still holds the id, it holds that very entry |
| `Lifetimes.CopyIsByteExact` | src/clipboard/state.rs:241-281 | from copy to paste: whenever a later request of the run, in the same turn or any later one, succeeds in restoring the entry, the daemon serves for each type picked and delivered exactly the first `MAX_CONTENT_BYTES` bytes sent |
| `Lifetimes.AliasIsByteExact` | src/clipboard/state.rs:263-281 | from copy to paste under another name: under the same conditions, there is one type that was delivered, the UTF-8 plain one, else the plain one, else any text, whose bytes are served for every text alias that was not |
| `Lifetimes.HeldWasRead` | src/clipboard/io.rs:58-140 | every entry held in any reachable state was read: its representations are exactly the last non-empty payloads that one turn read for one offer, of requestable types and within the limit, and it is what they are classified as |
| `Echoes.AliasesArePicked` | src/clipboard/state.rs:263-275 | after the top-up at least five preferred text types are offered, so the four picked are text and start with the plain ones |
| `Echoes.TextRecognisedIff` | src/main.rs:61-73 | for every stored entry with text, the echo has its preview for all iteration orders if and only if every payload that may become the fallback has it as first line |
| `Echoes.TextIsRecognised` | src/main.rs:61-73 | a text entry with a plain payload, or with a single payload, always is recognised |
| `Echoes.MixedIsNeverRecognised` | src/clipboard/history.rs:203-222 | an entry with text, images and a plain payload never is: its echo is text with another preview |
| `Echoes.ImagesEchoExactly` | src/clipboard/state.rs:263-281 | the echo of an entry of supported images is the very same content |
| `Echoes.EchoIsIdempotent` | src/clipboard/state.rs:263-281 | the echo of an echo has the same map of bytes, even when the first fallback was an arbitrary value |
| `EchoRuns.QuietRunKeepsArmed` | src/main.rs:127-145 | the flag survives any number of turns that store nothing matching and restore nothing |
| `EchoRuns.ArmedTurnShowsOthers` | src/main.rs:127-155 | in an armed turn, among whatever else it stores, if one store alone has the expected preview, the turn announces exactly the other entries and takes exactly that one out of the history |
| `EchoRuns.UnexpectedIsShown` | src/main.rs:127-155 | a held entry whose preview the flag does not expect is announced, whatever else the turn stores |
| `RoundTrips.RecognisableIff` | src/main.rs:61-73 | the condition under which every entry, with text or without, is recognised for all iteration orders, both ways |
| `RoundTrips.EchoCanFollow` | src/main.rs:118-145 | after every restore the situation of the next three rows can arise, taking no more than two readings of the clock |
| `RoundTrips.EchoTurn` | src/main.rs:80-155 | on a run from start-up that ends with a restore, later requests of that turn failing, and quiet turns: among any other events, what the turn stores for the offer of the echo is an echo of the restored content, and the flag is armed |
| `RoundTrips.RestoredEchoAddsNothing` | src/main.rs:118-145 | the echo of a recognisable entry comes back unseen, also in one batch with other copies: the turn announces exactly the other entries, and the history loses exactly the entry of the echo, if it was not ignored as a duplicate |
| `RoundTrips.RestoredMixedShowsPhantom` | src/main.rs:118-155 | the echo of a mixed entry with a plain payload is text, and its row is among those announced, whatever else the turn stores, unless it repeats the newest entry or is pushed out again within the turn |
| `Phantoms.PhantomAppears` | src/main.rs:118-155 | with any decoder there is a run of one copy of text and an image, its restore and its echo, after which two rows were announced, the second of kind text |
| `Servers.ClientTask.HandleLine` | src/daemon/server.rs:107-207 | one line up to its first suspension computes `Hear`: length check, parse error, page, pong, subscription, or a restore to hand over; what is then sent is stated in `Replies` |
| `Servers.ClientTask.HandOver` | src/daemon/server.rs:210-230 | the request is accepted and awaited, or answered at once when the thread is gone |
| `Servers.ClientTask.AnswerRestore` | src/daemon/server.rs:231-249 | the awaited result, a timeout or a dropped sender is answered under the id of the request |
| `Servers.ClientTask.HandleBroadcast` | src/daemon/server.rs:280-311 | computes `Receive`: the next event, or a lag notice and the oldest retained position; which of them is stated by `Replies.RowDelivered` |
| `Servers.ClientTask.HandleClient` | src/daemon/server.rs:94-315 | the loop takes one step after the other as the outcomes of its awaits dictate; the answer to each outcome is stated in `Replies` |
| `Servers.ClientsFollow` | src/daemon/server.rs:318-343 | in every interleaving each client is where that loop is after the steps it took |
| `Replies.ConnectsNow` | src/daemon/server.rs:318-335 | a new client listens, is not subscribed, and starts at the end of what was broadcast |
| `Replies.ListAnswered` | src/daemon/server.rs:167-205 | a `List` under a healthy lock is answered with the number of all rows and the rows from the offset on: exactly the least of the limit, `MAX_LIST_LIMIT` and the rows left; under a poisoned lock with an error |
| `Replies.SubscribeAnswered` | src/daemon/server.rs:262-274 | a `Subscribe` is answered and makes the client a subscriber |
| `Replies.GarbageAnswered` | src/daemon/server.rs:123-165 | an overlong line is answered without an id, an unparsable one under the id found in it |
| `Replies.WriteFails` | src/daemon/server.rs:136-274 | a failed write ends the connection, except after an overlong line |
| `Replies.RestoreHandedOver` | src/daemon/server.rs:207-230 | a request enters the queue if the thread runs and there is room, waits while there is none, and is refused when the thread is gone |
| `Replies.ResultAnswered` | src/daemon/server.rs:231-249 | a client whose request was executed is answered `Restored` with the entry it asked for if and only if the execution did not fail, and otherwise with that failure |
| `Replies.TimeoutAnswered` | src/daemon/server.rs:237-249 | a timeout is answered as one, whatever became of the request |
| `Replies.GoneAnswered` | src/daemon/server.rs:234-249 | a client is told that the thread is gone exactly when it stopped before it executed the request |
| `Replies.RowDelivered` | src/daemon/server.rs:280-304 | a subscriber that is behind is sent the very next row while the ring holds it, and only otherwise a notice that skips to the oldest row held; a client that is up to date or not subscribed is sent nothing |
| `Replies.ErrorsExplained` | src/daemon/server.rs:166-250 | in every interleaving a timeout is reported only by a timeout step, a missing thread only by a step that met it, an unavailable history only by a `List` under a poisoned lock, unless the failure of an executed request reads so |
| `Replies.OnlySubscribersHear` | src/daemon/server.rs:262-280 | in every interleaving a client is subscribed exactly when one of its lines asked for it, and only then is sent events and lag notices |
| `Protocol.NextKeeps` | src/daemon/server.rs:94-343 | every step of every client and of the Wayland thread keeps all guarantees |
| `Protocol.OneAnswerPerLine` | src/daemon/server.rs:106-276 | while its writes succeed, each line a client is done with has exactly one answer, in order |
| `Protocol.RunKeeps` | src/daemon/server.rs:106-316 | after every interleaving, each answer echoes the id and fits its own line, pages are cut from the snapshot of that moment, and events come without gap or reordering |
| `Protocol.RestoredMeansExecuted` | src/daemon/server.rs:207-250 | a client is told `Restored` only when executing the request of that very line succeeded; a result that comes after a timeout answers no other line |
| `Protocol.ExecutedInOrder` | src/main.rs:158-160 | requests are executed in the order they were accepted, none twice |
| `Protocol.NoSilentGap` | src/daemon/server.rs:280-329 | of the rows broadcast since the client was accepted, each one passed was delivered once or is covered by exactly one lag notice |
| `Protocol.LagsAreReal` | src/daemon/server.rs:289-304 | in every interleaving every lag notice covers at least one row, and only rows that had left the ring |
| `Protocol.ListCoversGap` | src/daemon/server.rs:289-304 | a row skipped by a lag notice, if it is still among the last `MAX_HISTORY`, is in the answer to a later `List` whose page reaches it |
| `Composition.ThreadRefinesLoop` | src/main.rs:123-160 | however it interleaves with the clients, between turns the Wayland thread is where the sequential loop is, what clients can list is its mirror, what was broadcast are its events, and its requests are the accepted ones in order |
| `Composition.DaemonIsServer` | src/daemon/server.rs:318-343 | every run of the daemon is a run of the server, so the protocol results hold of it |
| `Composition.TurnsEndEmpty` | src/main.rs:127-160 | a turn ends only when every stored entry was examined and broadcast and no request waits |
| `Composition.SuppressedIsNeverShown` | src/main.rs:138-145 | at no moment was any client shown a suppressed entry, in an event or in a page |
| `Composition.SuppressionsHaveClients` | src/main.rs:118-145 | at every moment suppressed entries number at most the client requests that succeeded |
| `Composition.RestoredMeansPublished` | src/main.rs:80-102 | a client is told `Restored` for an entry only if serving its line looked the entry up, offered all its types and selected it |
| `Composition.ErrorsMeanWhatTheySay` | src/daemon/server.rs:166-250 | over every run of the daemon the four errors of the server itself are reported only by a step of that client that met them |
| `Composition.RefusalsAreTrue` | src/main.rs:86-101 | any other error that answers a `Restore` is the true reason, at the moment its request was served, why that entry could not be restored |

## Left out

- Protocol.OneAnswerPerLine: speaks of lines whose handling is over; that a waiting client is answered within five seconds is not stated, because time is not part of the interleaving (a timeout may strike at any moment of the wait).
- Protocol.ListCoversGap: needs a page that reaches the row; that the client asks for all pages is up to it.
- Ids are unbounded; the wrap-around of `u64` after 2^64 copies is not modelled.
- Socket path, binding, permissions, accept errors, runtime setup, `poll`, flush and roundtrips.
- JSON: a line is its length and what it parses to; error texts are abbreviated to fixed strings.
- Partial lines dropped by `select!`, and read errors other than the end of the connection.
- Liveness of pipe reads: the loop blocks in a drain while its own `Send` event is still undispatched.
- Bytes that `content_for` returns for a text type that was never offered: left to the iteration order.
- The transfer of bytes in a `Send` event beyond the choice of the payload; write failures there are only logged.
- `SelectionCleared` events, which the code never sends, and `add_entry`, `image_summaries`, `print_history`, logging and formatting.
- The registry: binding of seat and manager is one step at start-up.
- A poisoned snapshot lock is an input of a `List`, not derived from a panic of the Wayland thread.
