# DOSM: a verified model of its stateful core

DOSM is an operations console: it opens sessions to hosts through SSH jump chains,
mirrors Confluence spaces into a document store, indexes those documents, keeps a host
inventory and an organisation tree, lets an agent propose actions that a human approves,
and moves files over FTP. This project models the parts of it whose correctness depends on
whole runs, and its wire and text codecs, in Dafny, and proves what they promise.

`dafny verify dfyconfig.toml` checks everything. There are no assumptions beyond those
named here; what the program leaves to libraries appears as parameters.

| files | what they model |
|---|---|
| `TunnelPool`, `TunnelManager`, `TunnelRuns`, `TunnelInventory`, `HostConnect` | the ref-counted pool of jump connections, forwards and SOCKS listeners; its leases and session registry; the connect page that uses it |
| `ConfluencePaths`, `ConfluenceMirror`, `ConfluenceHealing`, `ConfluenceItems`, `ConfluenceLosses`, `ConfluenceSync` | the reconciliation of a remote space into files and item rows |
| `Chunker`, `DocsIndex`, `DocsContents`, `DocsIndexer`, `IndexStatus` | the incremental index, its chunker and its shared status |
| `JumpGraph`, `JumpChanges`, `HostRepo` | jump links between hosts |
| `OrgTree`, `OrgCounts`, `OrgChanges`, `OrgPaths`, `OrgRepo`, `UniqueSlug` | the three-tier organisation tree |
| `PlanCards`, `PlanRuns`, `PlanRecords`, `PlanTeardown`, `PlanRoutes` | the approval protocol of agent actions |
| `FtpReply`, `FtpPassive`, `FtpListing`, `FtpClient`, `Socks` | the FTP client and the SOCKS5 handshake |
| `Vault`, `Sse` | documents with frontmatter, and event-stream frames |
| `Prelude`, `Text` | shared types and the Python string operations the code relies on |

How it is put together. Code that updates state in place is a class whose methods are
proved equal to a step function on values; each section under a lock, or up to an `await`,
is one step. Runs are sequences of such steps in any interleaving, and the main theorems
are about every run. What a foreign call returns is a parameter of its step, so a theorem
over all runs is a theorem over all outcomes of the network, the store and the runners.

Where the code and its own documentation disagree, the model follows the code:

- The tunnel pool is keyed by the chain of host ids alone, and a forward by its target
  alone, so later leases inherit the first caller's bind address (`TunnelRuns.LeasesShareEndpoint`).
- Only the last hop of a chain is pooled. Hops that were up when a later one refused, and the
  earlier hops of a chain that the reaper takes, stay open outside the pool for good
  (`TunnelRuns.StraysExactly`); inventories grown from an empty one have no such chains
  (`TunnelInventory.NoStraysFromEmpty`).
- The jump depth constant is 5 and lets six hops through (`JumpGraph.ValidateExactly`, `JumpGraph.SixHopsPass`).
- A failed attachment listing makes the mirror delete that page's attachments
  (`ConfluenceLosses.FailedListingDeletes`): a tracked attachment survives a run exactly if
  some page whose attachment listing worked lists it (`ConfluenceLosses.AttachmentSurvives`).
  The next error-free run brings them back.
- A file whose mirror delete failed loses its row and is never looked at again, over any later
  history (`ConfluenceLosses.StuckFileIsNeverRevisited`); the store is an exact mirror after an
  error-free run if and only if each file before it belonged to a row or lay at a listed path
  (`ConfluenceHealing.ErrorFreeRunFiles`).
- A run that raises is rolled back by the poller and the command line, but the sync-now route
  catches the exception and its session commits the rows; the theorems cover both. A session
  that fails to write its rows after the mirror delete brings back rows whose files are gone:
  that is healed if and only if none of those items is listed again at its old version and path
  (`ConfluenceLosses.LateRollbackHealed`, `ConfluenceLosses.LateRollbackLosesFile`).
- A document that stops parsing keeps its old title (`DocsIndex.BrokenRowKeepsOldTitle`), and
  one whose frontmatter could not be read when its row was built goes without the titles in it
  until its content changes (`DocsIndex.UnreadFrontmatterStaysMissing`). `DocsIndex.TitlesAgreeExactly`
  says exactly when the two title fields are those of a rebuild; all else always is.
- A second caller of `reindex` asks for the status while holding the lock, which is not
  reentrant: nothing that needs the lock happens after it, and nothing else has that effect
  (`IndexStatus.SecondCallerStopsEverything`, `IndexStatus.StuckExactly`).
- An exception that the connect page does not expect at its place, and a cancellation while the
  lease waits to be released or registered, lose the lease for good, and nothing else does
  (`HostConnect.LeaseLostExactly`, `HostConnect.RefusedSecretsLoseLease`).
- The typed confirmation of an action is compared with the value of its confirm field. A blank
  one is accepted exactly when the tool has no such field or its value is empty or missing
  (`PlanCards.BlankConfirmation`, `PlanCards.MissingFieldNeedsNoTyping`).
- A rejection commits only when its session closes, without another look at the card. What the
  protocol promises holds exactly in the runs where every such commit finds its card pending
  (`PlanTeardown.LegalExactlyWhenPrompt`, `PlanTeardown.LateRejectionRuns`).
- A unit with a slash in a name on its path is not found by the path it prints, and every other
  unit is (`OrgPaths.PathFindsUnit`).
- A local file that raises in the middle of an accepted FTP transfer leaves the final reply
  unread, and the closing `quit` takes it for its own; in every other case each reply is read by
  the command it answers (`FtpClient.Client.Move`, `FtpClient.Client.Session`).
- The version byte of the second SOCKS5 reply is not looked at.

## Model

| member | source | states |
|---|---|---|
| TunnelPool.AcquireSlots | dosm/jumps/tunnels.py:149-182 | a successful acquire raises the count of its own key by one and no other; a new slot gets the caller's bind address, an old one keeps its own; a failed acquire changes no slot |
| TunnelPool.AcquireSucceedsIff | dosm/jumps/tunnels.py:205-223 | an acquire succeeds exactly when the host is jumped and every foreign call it needs does: all hops if the chain is not pooled, the listen if the key has no listener |
| TunnelPool.AcquireSound | dosm/jumps/tunnels.py:126-223 | acquiring keeps every pooled chain standing on the live connections of all its hops, every live last hop pooled, and live listeners in one-to-one correspondence with what the pool records |
| TunnelPool.AcquireStrays | dosm/jumps/tunnels.py:245-258 | an acquire adds to the connections outside the pool exactly the hops it had opened before one refused |
| TunnelPool.GcStrays | dosm/jumps/tunnels.py:338-342 | the reaper adds exactly the earlier hops of the chains it takes |
| TunnelPool.ReleaseSlots | dosm/jumps/tunnels.py:225-240 | a release lowers the count of its own key by one, closes the listener exactly at zero, and leaves all other keys alone |
| TunnelPool.ReleaseSound | dosm/jumps/tunnels.py:261-277 | releasing keeps that correspondence |
| TunnelManager.OpenChain | dosm/jumps/tunnels.py:242-259 | hops are opened outermost first, each through the one before, up to the first failure; a rejected login and any other failure are told apart; the hops that are up are returned, to be recorded as open |
| TunnelManager.Lease.Release | dosm/jumps/tunnels.py:90-94 | the first call lowers the count, every later one changes nothing |
| TunnelManager.JumpTunnelManager.AcquireForward | dosm/jumps/tunnels.py:126-182 | the method computes the acquire step; a direct host gets no lease and changes nothing |
| TunnelManager.JumpTunnelManager.AcquireSocks | dosm/jumps/tunnels.py:184-223 | the same for the shared SOCKS listener of a chain |
| TunnelManager.JumpTunnelManager.DropLease | dosm/jumps/tunnels.py:225-277 | the two release bodies compute the release step; what that does to counts is TunnelPool.ReleaseSlots, and to idle times TunnelRuns.LastActiveIsLastTouch |
| TunnelManager.JumpTunnelManager.RegisterSession | dosm/jumps/tunnels.py:279-290 | the lease is filed under the fresh session id and its backstop scheduled, and nothing else changes |
| TunnelManager.JumpTunnelManager.ReleaseSession | dosm/jumps/tunnels.py:292-302 | the id is popped and its lease released once; an unknown id, or a lease released before, leaves the pool as it was |
| TunnelManager.JumpTunnelManager.AutoRelease | dosm/jumps/tunnels.py:304-309 | the backstop does the same when its time has come |
| TunnelManager.JumpTunnelManager.CollectIdle | dosm/jumps/tunnels.py:326-344 | the loop removes exactly the chains without forwards and listener that have been idle 300 s, and returns by how much the pool shrank |
| TunnelRuns.RunInvariant | dosm/jumps/tunnels.py:114-344 | in every interleaving the pool is sound, counts are lease counts, and the session registry is consistent |
| TunnelRuns.LeaseLaw | dosm/jumps/tunnels.py:173-181 | in every interleaving a count is the number of leases on its key whose decrement has not run, and the forward or listener exists exactly while there is one |
| TunnelRuns.LeaseStaysOpen | dosm/jumps/tunnels.py:270-276 | until its decrement runs, a lease's listener and the connections of all hops under it are open, at the address it holds |
| TunnelRuns.LeasesShareEndpoint | dosm/jumps/tunnels.py:155-179 | all unreleased leases on one key share one address and listener |
| TunnelRuns.OneConnectionPerChain | dosm/jumps/tunnels.py:149-154 | at most one live connection to the last hop of a chain, and it is the pooled one |
| TunnelRuns.StraysExactly | dosm/jumps/tunnels.py:242-259 | after any run and event the live connections outside the pool are those before, the hops of a failed acquire, and the earlier hops of a reaped chain |
| TunnelRuns.NoStrays | dosm/jumps/tunnels.py:149-154 | there are none where chains have at most one hop |
| TunnelInventory.NoStraysFromEmpty | dosm/hosts/repo.py:249-251 | there are none with inventories grown from an empty one |
| TunnelRuns.NoOrphanListener | dosm/jumps/tunnels.py:230-239 | every live listener is leased |
| TunnelRuns.FailedAcquireChangesNoCount | dosm/jumps/tunnels.py:205-210 | an acquire that raises changes no count, listener or lease |
| TunnelRuns.LastActiveIsLastTouch | dosm/jumps/tunnels.py:153-277 | in every interleaving the time a pooled chain records is that of the last event that opened its connection, acquired a lease on one of its keys, or decremented one |
| TunnelRuns.PooledExactly | dosm/jumps/tunnels.py:149-154 | a chain enters the pool only by an acquire on it all of whose hops connect, and only the reaper takes one out |
| TunnelRuns.CollectTakesIdleUnleased | dosm/jumps/tunnels.py:331-343 | the reaper takes a chain exactly when no lease on it is outstanding and the last event that touched it lies 300 s back, and closes its connection and no other |
| TunnelRuns.DecrementedOnce | dosm/jumps/tunnels.py:88-94 | however often release is called, a lease is decremented at most once, and exactly once when it is done |
| TunnelRuns.DecrementFindsItsSlot | dosm/jumps/tunnels.py:264-271 | a decrement always finds its slot: the early returns and the clamp are never needed |
| TunnelRuns.PoolRefinesBag | dosm/jumps/tunnels.py:126-277 | every step of the pool is a step of a plain bag of leases, and the pool shows exactly that bag |
| TunnelRuns.SessionTakenOnce | dosm/jumps/tunnels.py:292-309 | a session's lease is taken at most once, never by the backstop before its deadline, and by the time the backstop has run it has been taken; once taken it is being released, and it is decremented exactly once by the time that is done |
| TunnelRuns.SessionTakenForGood | dosm/jumps/tunnels.py:286-296 | who took a session never changes, and its id is not issued again |
| TunnelRuns.BackstopWaits | dosm/jumps/tunnels.py:279-309 | the backstop takes a session that is still registered exactly if the time to live given at its registration has passed since |
| HostConnect.Attempt | dosm/guacamole/routes.py:120-214 | on each exception path, what the try block has done to its lease, and which kind of exception leaves it, read off the first call that does not return and off a cancelled release |
| HostConnect.Connect | dosm/guacamole/routes.py:137-227 | an exception leaves the handler exactly when the first call that does not return is not expected to raise that, or the request is cancelled while its lease waits to be settled; otherwise a page without frame has released its lease once or twice, and one with a frame has handed it over unreleased |
| HostConnect.PhaseIsLocal | dosm/jumps/tunnels.py:90-111 | in any run the phase of a lease that no session refers to depends on its own events only |
| HostConnect.FramelessPageReleasesLease | dosm/guacamole/routes.py:216-223 | whatever else happens, that lease is decremented exactly once and no session refers to it |
| HostConnect.FramedPageHandsLeaseOver | dosm/guacamole/routes.py:224-227 | the lease is held, registered and its listener open |
| HostConnect.EscapedLeaseIsNeverClosed | dosm/guacamole/routes.py:213-214 | a lease that is not released and not handed over stays open in every run |
| HostConnect.LeaseLostExactly | dosm/guacamole/routes.py:137-227 | when the handler is through, its lease is neither decremented nor known to a session, and its listener open for good, if and only if the first call that did not return was one whose exception is not expected there, or the request was cancelled while the lease waited to be settled |
| HostConnect.RefusedSecretsLoseLease | dosm/guacamole/routes.py:158-159 | an input: the secret backend refuses its token, and the lease is lost |
| HostConnect.BeaconOrBackstop | dosm/guacamole/routes.py:269-301 | after the hand-over exactly one of the beacon and the backstop releases the lease: the first to arrive takes it, later arrivals take nothing, and its decrement is the only one the lease ever gets |
| ConfluencePaths.PathOwner | dosm/docs_index/store.py:57-76 | the path of an item leads back to its kind and id, whatever its title or file name |
| ConfluencePaths.DistinctItemsDistinctPaths | dosm/confluence/sync.py:123-157 | distinct separator-free ids never share a path |
| ConfluenceMirror.ProcessOutcome | dosm/confluence/sync.py:118-172 | items do not interfere: unlisted ones are untouched, and each listed one is as its own visit left it: row and files alone if it is up to date or its fetch fails, otherwise the written content at its path, and of its other files only the one at the old path gone, exactly if it moved and that delete worked |
| ConfluenceMirror.DeleteOutcome | dosm/confluence/sync.py:174-180 | the mirror delete removes exactly the unlisted rows and, where it can, their files, in any order |
| ConfluenceItems.ItemOutcome | dosm/confluence/sync.py:118-172 | the same at the end of a whole run that does not raise, for each listed item |
| ConfluenceItems.RaisedOutcome | dosm/db.py:82-95 | a run that raises has left each listed item as its own visit leaves it or untouched; its rows stay exactly if its caller commits |
| ConfluenceItems.FailedFetchKeeps | dosm/confluence/sync.py:128-143 | however a run ends, a listed item whose fetch fails keeps its row and all its files |
| ConfluenceItems.ListedFileKept | dosm/confluence/sync.py:137-160 | however a run ends, a file of a listed item changes only if the fetch worked and it is at the target path, or at the old path and its delete worked |
| ConfluenceItems.RunCountsExactly | dosm/confluence/sync.py:33-44 | each counter is the number of listed items written as pages, written as attachments, or up to date, and of unlisted ones deleted; one error for each failed listing, fetch, write and delete |
| ConfluenceHealing.ProcessTally | dosm/confluence/sync.py:124-172 | each listed item is counted once as a success or at least once as an error; no error means that everything succeeded |
| ConfluenceHealing.RunCounts | dosm/confluence/sync.py:42-44 | deleted counts the tracked items that were not listed; without errors written and unchanged add up to the listed items |
| ConfluenceHealing.SyncKeepsSane | dosm/confluence/sync.py:128-185 | whatever fails, every row stays right or recognisably out of date, also when the run raises and its rows are then rolled back or committed; where the session fails to write them at the end, its file may also be missing |
| ConfluenceHealing.ErrorFreeRunMirrors | dosm/confluence/sync.py:108-189 | an error-free run over a space that holds still tracks exactly the listed items, each with a file rendering its listed version, if and only if it took no item for up to date whose file was missing |
| ConfluenceHealing.SecondRunChangesNothing | dosm/confluence/sync.py:124-126 | a second run over the same listing leaves store, versions and paths untouched and reports no change |
| ConfluenceHealing.ErrorFreeRunFiles | dosm/confluence/sync.py:137-141 | an error-free run removes the files of the old rows and adds those at the listed paths; the result is an exact mirror if and only if every file before lay at one of them |
| ConfluenceLosses.RowSurvives | dosm/confluence/sync.py:174-180 | a tracked item survives a run exactly if the run saw it |
| ConfluenceLosses.AttachmentSurvives | dosm/confluence/sync.py:146-153 | a tracked attachment survives if and only if attachments are synced and a page lists it whose attachment listing worked |
| ConfluenceLosses.FailedListingDeletes | dosm/confluence/sync.py:147-151 | an input: one failed listing over a tracked attachment deletes row and file and counts one error |
| ConfluenceLosses.ForgottenForGood | dosm/confluence/sync.py:108-180 | over any later history of runs a file without row keeps place and content while no listed entry maps to its path |
| ConfluenceLosses.StuckFileIsNeverRevisited | dosm/confluence/sync.py:192-198 | a file whose mirror delete failed in some run is such a file from then on |
| ConfluenceHealing.HistorySane | dosm/confluence/routes.py:172-177 | the invariant over any history of runs with any failures, in its strict form where every session wrote its rows |
| ConfluenceHealing.SelfHealing | dosm/confluence/sync.py:108-185 | after any history one error-free run mirrors its listing exactly if and only if it took no item for up to date whose file was missing; always so where no session of the history failed to write its rows at the end |
| ConfluenceLosses.LateRollbackHealed | dosm/confluence/sync.py:174-185 | after one session that failed to write its rows following the mirror delete, an error-free run mirrors its listing if and only if no item whose file was deleted is listed again at its old version and path |
| ConfluenceLosses.LateRollbackLosesFile | dosm/confluence/sync.py:182-185 | an input that is not healed: a run reports no error and no change, and a tracked attachment has no file |
| ConfluenceSync.Mirror.Reconcile | dosm/confluence/sync.py:121-144 | the loop body computes the visit of one entry, which ConfluenceMirror.ProcessOutcome describes by its row and files |
| ConfluenceSync.Mirror.SafeDelete | dosm/confluence/sync.py:192-198 | a failing delete keeps the file and counts one error |
| ConfluenceSync.Mirror.VisitAttachments | dosm/confluence/sync.py:152-172 | the attachment loop computes its visits and collects what it has seen |
| ConfluenceSync.Mirror.VisitPages | dosm/confluence/sync.py:118-172 | the nested loops process the flattened listing, also when they raise halfway |
| ConfluenceSync.Mirror.DeleteUnseen | dosm/confluence/sync.py:174-180 | the loop computes the mirror delete |
| ConfluenceSync.Mirror.SyncListener | dosm/confluence/sync.py:93-189 | the whole run, with how its caller's session closes, computes the run function the theorems are about |
| Chunker.LastIndexIsLast | dosm/docs_index/chunker.py:21-21 | the search finds the last occurrence inside the range, or none |
| Chunker.SoftEdgeIsBestBreak | dosm/docs_index/chunker.py:14-24 | the edge is just after the last paragraph break in range, else line, sentence, word, else the hard edge |
| Chunker.FindBreak | dosm/docs_index/chunker.py:18-24 | the loop computes that edge |
| Chunker.ChunkText | dosm/docs_index/chunker.py:27-59 | the loop ends and computes the windows in closed form, although it derives each start from the previous edge |
| Chunker.LastWindow | dosm/docs_index/chunker.py:56-57 | there are 1 + ceil(max(0, n - size) / step) windows, and exactly the last reaches the end |
| Chunker.WindowBounds | dosm/docs_index/chunker.py:46-58 | window k starts at k steps, ends between one step and one size later, and overlaps the next by 0 to overlap characters |
| Chunker.EveryCharacterIsInAChunk | dosm/docs_index/chunker.py:52-55 | every non-whitespace character lies in a chunk, at its place in a slice of the text |
| Chunker.EveryChunkIsAWindow | dosm/docs_index/chunker.py:53-55 | chunks are numbered consecutively, and each is the stripped text of one window, in window order |
| DocsIndex.RebuildIsFresh | dosm/docs_index/indexer.py:227-281 | a forced rebuild from nothing indexes every file by itself; what its rows hold is DocsContents.RebuildShowsFiles |
| DocsIndex.HistoryBacked | dosm/docs_index/indexer.py:157-225 | over any history every indexed row is what an index from scratch of some listed state of its file gives, with the frontmatter exactly if the pass that last built the row could read it |
| DocsIndex.IncrementalEqualsRebuild | dosm/docs_index/indexer.py:148-347 | after any history a pass without store exceptions leaves the paths, hashes, stats, statuses and chunks that a forced rebuild leaves, and the titles too where the pass that last built the row could read the frontmatter |
| DocsIndex.TitlesAgreeExactly | dosm/docs_index/indexer.py:182-263 | exactly when the frontmatter title and the title of a listed file are the rebuild's: whether the pass that last built the row could read the frontmatter, whether there is such a title, whether the body has its own, and for a file that does not parse whether its row had a title |
| DocsIndex.BrokenRowKeepsOldTitle | dosm/docs_index/indexer.py:207-225 | an input on which the title differs |
| DocsIndex.UnreadFrontmatterStaysMissing | dosm/docs_index/indexer.py:187-193 | an input on which both differ: one pass cannot read the frontmatter, and the clean pass after it skips the file |
| DocsContents.RebuildShowsFiles | dosm/docs_index/indexer.py:227-281 | after a forced rebuild each listed file that parses is indexed with its hash, stat and titles, and its chunks are the non-blank windows of its stripped text, each once, numbered in order, and miss no visible character; one that does not parse has the parser's error and no chunks |
| DocsContents.CleanPassShowsFiles | dosm/docs_index/indexer.py:148-281 | the same, titles aside, after any history and a pass without store exceptions, and there are no other rows |
| DocsContents.IndexedShowsSomeState | dosm/docs_index/indexer.py:164-180 | over any history, whatever fails, an indexed row so shows some listed state of its file |
| DocsContents.CleanPassTitles | dosm/docs_index/indexer.py:187-265 | which titles the row of a listed file has after a clean pass |
| DocsContents.TroubleKeepsRows | dosm/docs_index/indexer.py:334-352 | a failed listing changes no row, a store exception not that of its file, and a failed pruning not those of gone files; otherwise exactly the rows of gone files are dropped |
| DocsContents.BrokenHasNoChunks | dosm/docs_index/indexer.py:207-225 | over any history a row in error has no chunks |
| DocsContents.CleanPassReports | dosm/docs_index/indexer.py:338-345 | a clean pass reports an error for exactly the files that do not parse, and the same pass again, unless forced, reports all others as unchanged and leaves every row as it is |
| DocsIndexer.Indexer.IndexFile | dosm/docs_index/indexer.py:148-281 | the row update, with its two reads of the file, computes the index function of one file, whose rows DocsContents.CleanPassShowsFiles describes, and touches no other row |
| DocsIndexer.Indexer.ScanFile | dosm/docs_index/indexer.py:328-345 | one turn of the loop: the file's row, and the counter of its outcome raised by one |
| DocsIndexer.Indexer.Scan | dosm/docs_index/indexer.py:327-345 | the loop indexes each listed file once, and each counter is the number of files reported so |
| DocsIndexer.Indexer.RemoveDeleted | dosm/docs_index/indexer.py:284-294 | exactly the rows of files not on disk go, and their number is returned |
| DocsIndexer.Indexer.Run | dosm/docs_index/indexer.py:313-352 | the pass computes the reindex function and ends with every listed file counted as it was reported |
| IndexStatus.OneScanAtATime | dosm/docs_index/indexer.py:299-302 | in every run of any threads at most one scan is under way |
| IndexStatus.SnapshotsBalance | dosm/docs_index/indexer.py:55-70 | every snapshot has processed = indexed + skipped + errors and processed <= total |
| IndexStatus.FullScanCounts | dosm/docs_index/indexer.py:338-351 | a scan that went through its files has processed all of them |
| IndexStatus.CountersAreOutcomes | dosm/docs_index/indexer.py:338-345 | in every run each counter is the number of files that the latest scan has finished with its outcome |
| IndexStatus.SecondCallerStopsEverything | dosm/docs_index/indexer.py:299-301 | a second caller starts no scan and no step follows it |
| IndexStatus.StuckExactly | dosm/docs_index/indexer.py:299-302 | the lock is held for good if and only if a new thread called while a scan was under way |
| JumpGraph.ValidateExactly | dosm/hosts/repo.py:158-187 | a link is accepted if and only if it leads over at most six jump boxes of the tenant, none the host itself, to the end of a chain |
| JumpGraph.SixHopsPass | dosm/hosts/repo.py:170-174 | six hops in a row pass |
| JumpGraph.ChainDistinct | dosm/hosts/repo.py:345-347 | a chain that ends visits no host twice |
| JumpGraph.StepKeepsLinked | dosm/hosts/repo.py:304-314 | create, update and delete keep links on jump boxes of the same tenant |
| JumpGraph.ReachableInventory | dosm/hosts/repo.py:221-337 | every reachable inventory is acyclic, same-tenant, on jump boxes, and no chain grows beyond the longest at the start or six |
| JumpGraph.OneHopFromEmpty | dosm/hosts/repo.py:249-251 | from an empty inventory chains have at most one hop |
| JumpChanges.FirstFault | dosm/hosts/repo.py:168-187 | a rejected link names the first host along it that is no acceptable hop, and why: the host itself, too far, met before, not there for the tenant, or no jump box, in this order |
| JumpChanges.CreateExactly | dosm/hosts/repo.py:249-274 | a host is created if and only if it is a jump box or its link is acceptable; it gets the link asked for, or none as a jump box, and no other host changes |
| JumpChanges.UpdateExactly | dosm/hosts/repo.py:304-332 | an update goes through if and only if it takes the flag from no jump box in use and its link is acceptable and avoids the host; it changes that host's flag and link only |
| JumpChanges.DeleteExactly | dosm/hosts/repo.py:335-337 | only the links to the deleted host are cleared, and each other host has the chain it had, cut off just before it |
| HostRepo.Inventory.ValidateJump | dosm/hosts/repo.py:158-187 | the loop ends and reports the first fault in the order depth, cycle, existence and tenant, jump-box flag |
| HostRepo.Inventory.CreateHost | dosm/hosts/repo.py:249-274 | a rejected link changes nothing, an accepted one adds the host |
| HostRepo.Inventory.UpdateHost | dosm/hosts/repo.py:304-332 | the same for an update, with the in-use check first |
| HostRepo.Inventory.DeleteHost | dosm/hosts/repo.py:335-337 | the host goes and hosts behind it become direct |
| HostRepo.Inventory.ResolveJumpChain | dosm/hosts/repo.py:340-349 | the walk ends on every acyclic inventory with the hops in opening order, each reached through the one before, the last the direct jump |
| UniqueSlug.NumberedInjective | dosm/applications/repo.py:190-192 | numbered candidates are all different |
| UniqueSlug.FindFree | dosm/applications/repo.py:183-192 | the search ends and returns the base, or the least number from 2 on that is free |
| UniqueSlug.FirstFreeUnique | dosm/docs_index/vault.py:38-43 | that name is the only one so described |
| OrgTree.ReachableForest | dosm/applications/repo.py:195-285 | every reachable forest keeps tier, tenant, sibling names (ignoring case) and slugs, and hosts placed in units of their tenant |
| OrgTree.SlugIsFree | dosm/applications/repo.py:183-192 | a new slug differs from every sibling's |
| OrgTree.DeleteKeepsInv | dosm/applications/repo.py:269-273 | the cascade leaves no orphan unit and no host in a removed unit; what it takes, and that it takes nothing else, is OrgChanges.DeleteExactly |
| OrgChanges.UnderIsLeads | dosm/applications/repo.py:120-132 | a unit is in the subtree of another if and only if a chain of parent links leads up to that |
| OrgChanges.DeleteExactly | dosm/models.py:251-252 | after a delete a unit remains, unchanged, if and only if no chain of parent links leads from it to the deleted one; a host whose place was removed loses that only, and every other keeps its whole row |
| OrgChanges.DeleteTotals | dosm/applications/repo.py:159-177 | after a delete the units above show as many hosts less as the deleted one showed, all others what they did, and as many more are unplaced |
| OrgChanges.CreateExactly | dosm/applications/repo.py:204-248 | a unit is created if and only if its trimmed name is not blank, its tier fits its place and no sibling has the name; it gets the first free slug, and nothing else changes |
| OrgChanges.RenameExactly | dosm/applications/repo.py:251-266 | a rename goes through if and only if the trimmed name is not blank and no other sibling has it; it changes the name, and the slug only if more than the case differs |
| OrgChanges.AssignExactly | dosm/applications/repo.py:276-285 | placing a host in a unit of its tenant changes its place and nothing else, and any other unit is refused |
| OrgChanges.AssignTotals | dosm/applications/repo.py:159-177 | the host moves from the totals of its old unit and those above it to the totals of the new one and those above it |
| OrgCounts.SubtreeIds | dosm/applications/repo.py:120-132 | the level walk ends and lists every unit of the subtree exactly once |
| OrgCounts.TotalIsSubtreeCount | dosm/applications/repo.py:171-175 | a node's rolled-up total is the number of hosts placed in its subtree |
| OrgCounts.NodeShape | dosm/applications/repo.py:171-177 | a node shows the number of hosts placed in it, and its children once each |
| OrgCounts.TotalMatchesHostList | dosm/hosts/repo.py:35-91 | in every reachable forest it is the number of rows the host list shows for the node |
| OrgCounts.TotalsAddUp | dosm/applications/repo.py:135-177 | root totals and unplaced hosts add up to all hosts in view |
| OrgPaths.PartsOfJoined | dosm/applications/repo.py:99-99 | splitting and trimming undo joining with " / " |
| OrgPaths.PathShape | dosm/models.py:327-336 | the path of a unit goes from a root down to it, parent by parent, in one tenant |
| OrgPaths.GetByPath | dosm/applications/repo.py:96-117 | the loop computes the level-by-level lookup, raising on several matches |
| OrgPaths.OnlyMatch | dosm/applications/repo.py:105-112 | each level of a reachable forest matches one unit |
| OrgPaths.PathFindsUnit | dosm/models.py:338-340 | in every reachable forest looking up the path a unit prints finds that unit if and only if no name on the path contains a slash |
| OrgRepo.Organisation.UniqueSlugFor | dosm/applications/repo.py:183-192 | the sibling search returns the first free slug |
| OrgRepo.Organisation.CreateUnit | dosm/applications/repo.py:204-248 | computes the create step with its error order |
| OrgRepo.Organisation.UpdateUnit | dosm/applications/repo.py:251-266 | computes the rename step; the slug follows unless only the case changes |
| OrgRepo.Organisation.DeleteUnit | dosm/applications/repo.py:269-273 | the walk and the cleared places compute the delete step, which OrgChanges.DeleteExactly describes row by row |
| OrgRepo.Organisation.AssignHost | dosm/applications/repo.py:276-290 | places a host only in a unit of its own tenant |
| PlanCards.EditsWin | dosm/agent/routes.py:121-125 | a typed value wins over the proposed one and nothing else changes |
| PlanCards.BlankConfirmation | dosm/agent/routes.py:137-145 | an elevated action is approved with a blank confirmation exactly when its tool has no confirm field, or the field is empty or missing both in the proposed arguments and among the edits; otherwise the card stays pending |
| PlanCards.MissingFieldNeedsNoTyping | dosm/agent/routes.py:140-142 | an input: the confirm field is missing, and an empty form approves and queues the action |
| PlanRuns.CreateKeeps | dosm/llm/routes.py:471-527 | a new card that says safe has arguments classified safe |
| PlanRuns.GroupShape | dosm/agent/routes.py:225-236 | the query lists all pending safe cards of the message and no other, in id order |
| PlanRuns.GroupTakesAll | dosm/agent/routes.py:244-269 | group approval approves and queues every such card with its proposed arguments, fails those of unknown tools, and touches no other card |
| PlanRuns.RunInvariant | dosm/agent/routes.py:53-315 | the invariant over every interleaving of requests, runners and cancellations |
| PlanRuns.RunsOnceAfterApproval | dosm/agent/routes.py:96-168 | a runner starts at most once per card, a card is decided at most once, and each start follows a committed approval of the same arguments by the owner of the conversation, in its tenant, that was safe, confirmed, or of a tool without confirm field |
| PlanRuns.StartsOnlyApproved | dosm/agent/routes.py:162-174 | a runner starts only while its card is committed as approved; pending and rejected cards have never had one |
| PlanRuns.StepMoves | dosm/models.py:580-581 | statuses move only from pending to approved, rejected or failed, and from approved to executed or failed |
| PlanRuns.TerminalForever | dosm/agent/routes.py:60-63 | rejected, executed and failed cards never change again |
| PlanRecords.LogTellsCards | dosm/agent/routes.py:66-205 | over every interleaving each audit row stays true of its card: who approved it, which arguments and their tier; who rejected it; whether its runner returned or raised; no card has two results, and each follows the start of its runner |
| PlanRecords.RunnersGetRecordedArgs | dosm/agent/routes.py:155-174 | every runner was given the arguments its card records as in effect, in the tenant of the conversation whose owner it records as approver |
| PlanRecords.OnlyAddressedChange | dosm/agent/routes.py:53-205 | a step changes only the card it is about, never what that proposes, and its status only with an audit row, unless its tool is unknown |
| PlanRecords.CreateExactly | dosm/llm/routes.py:471-527 | a tool call becomes a pending card if and only if its tool is known and classifies; the card reads back its arguments at that tier |
| PlanRecords.ApproveExactly | dosm/agent/routes.py:96-168 | a pending card of the user is approved if and only if the confirmation entitles the edited arguments; it then records and queues exactly these, and otherwise nothing is queued |
| PlanRecords.ResultIsRecorded | dosm/agent/routes.py:180-205 | a runner that returns leaves its card executed, one that raises failed, and no other card or request is touched |
| PlanRecords.GroupInOrder | dosm/agent/routes.py:225-281 | group approval opens one request whose runners come in card order and are those of pending safe cards of the message |
| PlanRoutes.Desk.CreateCard | dosm/llm/routes.py:471-527 | computes the create step |
| PlanTeardown.PromptIsAtomic | dosm/db.py:82-95 | a run in which every late commit of a rejection finds its card pending is a run of the protocol with one-step rejections |
| PlanTeardown.LegalExactlyWhenPrompt | dosm/agent/routes.py:61-81 | statuses move only the allowed ways and no card is decided or run twice if and only if every such commit finds its card pending |
| PlanTeardown.PromptRejectedNeverRan | dosm/agent/routes.py:61-63 | in such runs a rejected card has never run |
| PlanTeardown.LateRejectionRuns | dosm/agent/routes.py:61-81 | an input with a late commit: a card that has run is shown rejected and ends executed |
| PlanRoutes.Desk.StageReject | dosm/agent/routes.py:61-65 | a rejection is staged exactly for a pending card the user owns |
| PlanRoutes.Desk.CommitReject | dosm/db.py:88-91 | the row is written as staged, whatever the card has become |
| PlanRoutes.Desk.RejectCard | dosm/agent/routes.py:53-81 | with nothing in between the two compute the reject step |
| PlanRoutes.Desk.ApplyEdits | dosm/agent/routes.py:121-125 | the loop computes the edited arguments |
| PlanRoutes.Desk.ApproveCard | dosm/agent/routes.py:84-162 | computes the approve step: unknown tool, mismatch that raises the tier, or approval with audit row |
| PlanRoutes.Desk.ApproveMessage | dosm/agent/routes.py:210-269 | the loop computes the group step |
| PlanRoutes.Desk.StartRunner | dosm/agent/routes.py:271-281 | calls the next runner of a request with the approved arguments |
| PlanRoutes.Desk.FinishRunner | dosm/agent/routes.py:180-205 | records the result of the runner on its own card |
| FtpReply.ReplyIsRead | dosm/ftp/ftp_client.py:292-314 | any reply of section 4.2 of RFC 959, single or multi-line, is read back with code and text, consuming exactly its bytes |
| FtpPassive.EpsvRecovered | dosm/ftp/ftp_client.py:241-246 | any port printed as in section 3 of RFC 2428 is recovered, for every delimiter, digits and parentheses included, as long as no match starts earlier |
| FtpPassive.EpsvAfterPlainText | dosm/ftp/ftp_client.py:244-246 | in particular after any text without an opening parenthesis |
| FtpPassive.EpsvFoundExactly | dosm/ftp/ftp_client.py:244-246 | a port is found if and only if the text somewhere encloses digits so |
| FtpPassive.PasvRecovered | dosm/ftp/ftp_client.py:247-257 | any address and port printed as a PASV reply are recovered |
| FtpPassive.NumbersSplit | dosm/ftp/ftp_client.py:250-250 | digit runs of a text are those before and after any other character |
| FtpListing.ParseMlsd | dosm/ftp/ftp_client.py:358-381 | the loop computes the entries of the lines |
| FtpListing.ListingIsParsed | dosm/ftp/ftp_client.py:363-380 | a printed listing of section 7 of RFC 3659, facts in any order and case, parses back to what its lines stand for, without cdir and pdir |
| FtpListing.EntriesRecovered | dosm/ftp/ftp_client.py:368-380 | entries printed by a server, with the directory and its parent first, are recovered |
| FtpClient.Client.ReadReply | dosm/ftp/ftp_client.py:292-314 | the read loop computes the reply reader, error cases included |
| FtpClient.Client.Expect | dosm/ftp/ftp_client.py:316-320 | an unexpected code is an error after its reply is read |
| FtpClient.Client.Connect | dosm/ftp/ftp_client.py:80-89 | ends with no unread reply, so nothing is lost when the reader is replaced for TLS; succeeds exactly on 220 and 234 |
| FtpClient.Client.Login | dosm/ftp/ftp_client.py:91-105 | ends with no unread reply; succeeds exactly when the server accepts each command it was sent |
| FtpClient.Client.Quit | dosm/ftp/ftp_client.py:107-115 | one reply is read, the next that is there, and what is then unread is lost with the connection |
| FtpClient.Client.Simple | dosm/ftp/ftp_client.py:131-155 | the one-command operations read the reply to their own command |
| FtpClient.Client.Size | dosm/ftp/ftp_client.py:135-143 | a size exactly for 213 with a number, and then that number; FtpClient.Client.SizeIsRead reads it off the printed reply |
| FtpClient.Client.SizeIsRead | dosm/ftp/ftp_client.py:135-143 | only a 213 gives a size, and a number printed in it is that size |
| FtpClient.Client.Rename | dosm/ftp/ftp_client.py:157-161 | the second command goes out only after 350; each reply is matched to its command |
| FtpClient.Client.Passive | dosm/ftp/ftp_client.py:238-257 | without trust the data host is always the control host; a port printed in a 229 is used there; where there is none, the port printed in a 227 is, with the printed address exactly if that is trusted; no reply is left |
| FtpClient.Client.Move | dosm/ftp/ftp_client.py:190-227 | a transfer succeeds exactly when it is accepted and completed and the local file works; the final reply is left unread if and only if the local file raises in an accepted transfer |
| FtpClient.Client.ListDir | dosm/ftp/ftp_client.py:163-187 | the entries parsed from the machine-readable listing; the fallback to LIST is taken exactly when that is refused or broken off, and never reads a reply of the first attempt |
| FtpClient.Client.Session | dosm/ftp/ftp_backend.py:57-68 | over a whole session the outcome of each operation is that of the server's answers to its own commands, and no reply is lost if and only if no local file raises in an accepted transfer; where one does, `quit` reads the stale reply and its own is lost |
| Socks.RecvExactly | dosm/ftp/socks.py:27-36 | exactly the next n bytes under any fragmentation, an error exactly when the stream ends before |
| Socks.RequestIsRead | dosm/ftp/socks.py:77-86 | a server reads the destination back from the request |
| Socks.Connect | dosm/ftp/socks.py:53-108 | on success the socket stands right after the handshake, on failure it is closed; the request is sent only after a good greeting |
| Socks.HandshakeExact | dosm/ftp/socks.py:88-105 | success if and only if what arrives begins with a complete success of section 6 of RFC 1928, and exactly those bytes are consumed |
| Vault.StripperAgrees | dosm/docs_index/parsers.py:49-56 | the indexer strips to the body the editor shows, on every text |
| Vault.RoundTrip | dosm/docs_index/vault.py:49-82 | loading what was saved gives the YAML block and the normal form of the body, even where the body has fences |
| Vault.DocumentRoundTrip | dosm/docs_index/vault.py:58-64 | with a YAML codec that reads its own dumps the metadata come back too |
| Vault.NormalFixes | dosm/docs_index/vault.py:82-82 | saving leaves a body alone exactly when it is empty, or starts with no newline and ends in one newline after a visible character |
| Vault.NormalTwice | dosm/docs_index/vault.py:57-82 | saving and loading again changes nothing more |
| Vault.FindUniqueSlug | dosm/docs_index/vault.py:35-43 | the name is free in the folder, and the least-numbered such |
| Sse.FrameIsRead | dosm/llm/routes.py:319-327 | one frame decodes to one event with the data joined from its lines, whatever follows |
| Sse.StreamIsRead | dosm/llm/routes.py:319-327 | any concatenation of frames decodes, by section 9.2.6 of the WHATWG HTML standard, to exactly its events |
| Sse.AnswerIsRead | dosm/llm/routes.py:572-584 | the reader of an answer gets its events and last the empty "done" |

## Left out

- SSH, TLS, SMB, HTTP and database libraries: their calls succeed or fail as a parameter says; TLS session reuse is not modelled, and a connection counts as open until the program closes it.
- Session ids of the tunnel registry are taken to be fresh, since they are random tokens.
- The tunnel pool's `stats` view, and the health checks behind `probe_forward`.
- The symlink check that the local store adds to its path check; other processes writing to the store.
- Confluence listeners are taken one per namespace, although the schema does not make slugs unique; a failing page listing ends the run before it changes anything and is not a step.
- Item time stamps, folder rows and the listener's status fields; a process that dies in the middle of a run.
- DocsIndex.IncrementalEqualsRebuild: does not cover embeddings, folder ids or time stamps of indexing, which depend on more than the file; the exact rule for titles is in DocsIndex.TitlesAgreeExactly. Files hold still during a pass, content changes alter size or time stamp, and hashes do not collide.
- Host fields other than tenant, jump-box flag, jump link and organisation unit; tags and credentials.
- OrgCounts.TotalsAddUp: speaks of hosts only, since the credential edit route writes its unit without validation; sibling order in the rendered tree is any enumeration.
- OrgPaths.PathFindsUnit: lower-casing in SQL and Python is taken to agree, and, for names with a slash, to neither make nor remove one.
- PlanRuns.RunsOnceAfterApproval: takes configuration, tool registry and conversations as fixed and JSON as reading its own dumps; rejections are one step here and two in PlanTeardown. The request that raises a tier is one step, although it commits when its session closes: a group approval may still read the card as safe in between and leave it approved with an elevated tier. Deleting a conversation while a runner is in flight, and the reuse of row ids after it, are not modelled.
- PlanRoutes.Desk.CreateCard: creates one card per step, where a reply commits its cards together.
- What agent tools do, prompts, retrieval and the language model.
- FtpClient.Client.Size: reads plain decimal digits; signs and underscores that Python's `int` would accept are not modelled.
- FtpReply.ReplyIsRead: works on decoded text; undecodable bytes and digits outside ASCII are not modelled.
- FtpListing.ListingIsParsed: lower-cases ASCII letters only.
- The parser of LIST output and the unquoting of PWD replies, which are best-effort patterns.
- Vault.RoundTrip: takes it that a YAML dump ends its last line and has no line starting with three dashes.
- Sse.StreamIsRead: works on decoded text and asks for event names without line ends, which the program's names have not.
- Web pages, other routes, the command line, migrations, monitoring and metrics.
