# Sparky: verified model of the core

Sparky is a central server with an agent on every node. This project models, in Dafny, the
parts of it that carry hard promises, and proves those promises for every input, every run or
every reachable state. `dafny verify dfyconfig.toml` checks all of it.

| what | files |
|---|---|
| Container log archive: agent, network and server as one machine, and the code of each side | `wire`, `log_sender`, `log_receiver`, `log_receiver_runs`, `archive_store`, `archive_protocol`, `archive_safety`, `archive_agreement`, `archive_live`, `archive_progress`, `stale_containers` |
| Peer-transfer grants: files, used-markers, the command parser and the authorized_keys printer | `authorized_keys`, `sender_command`, `peer_grants`, `served_keys`, `grant_promises`, `grant_runs` |
| Resumable download against an adversarial server | `download` |
| Alerts: who is addressed, the inbox, the mail queue, the digest | `audience`, `like_pattern`, `alert_inbox`, `mail_queue`, `mail_runs`, `mail_counts`, `mail_tries`, `mail_ends`, `mail_schedule`, `mail_limits`, `digest` |
| Model storage: path resolution, scan, delete | `model_path`, `gguf_names`, `sorting`, `model_groups`, `model_scan`, `delete_model` |
| Connection liveness | `liveness` |
| Shared text operations | `text` |

How it is built. Code that changes state step by step is a class or a method with loops, proved
against a specification function or stated outright; concurrency is a state machine over steps,
whose invariants are proved by one small lemma per kind of step and then lifted to every run.
A run is a sequence of steps; in the archive and grant machines a step that is not possible does
nothing, in the mail and liveness machines a run is one whose every step is possible. What the
outside world decides (what a capture returns, whether a write goes through, what a server
answers, when a process dies) is an argument or a step. SHA-256, gzip and the platform's
address parser are function parameters; upload ids and alert ids are fresh; times are whole
seconds on one clock that never goes back.

Where the code does not keep what is said about it, the code is what is modelled:

- `agent/connection/deletemodel.go:20-29` says sibling quantizations are left alone. Deleting
  "Q4_K" also deletes "Q4_K_M": `DeleteModel.DeletingOneLabelCanTakeAnother`, and
  `DeleteModel.SurvivesIff` says exactly what survives. Under a path with glob characters the code
  decides by a glob that may look elsewhere, whose answer is taken as given.
- `internal/email/notify.go:77-80` says a failed audit puts the old choice back. It does not
  bring back waiting digest items that the choice dropped: `Digest.RevertingCanLoseItems`, and
  `Digest.RevertKeepsItemsIff` says exactly when nothing is lost.
- A revert of "mark unread" restores the mark, with the time of the revert
  (`AlertInbox.Alerts.MarkUnread`).
- Six tries (`internal/email/worker.go:30-34`) are the limit exactly when no outcome is lost:
  `MailTries.SixTriesIff`. Each lost outcome is good for one more try, and
  `MailTries.BoundsAreReached` gives the runs.
- A given-up email can still become sent (`MailEnds.SentCanOverwriteFailed`), exactly when a pass
  that holds it may still have it accepted: `MailEnds.FailedBecomesSentIff`.
- "Well inside" the lease (`internal/email/worker.go:20-24`) leaves a full batch 14 s for each step
  besides the send. No email is ever with two passes exactly as long as that is kept:
  `MailLimits.NeverByTwoIff`, with the run that overlaps in `MailLimits.TooSlowOverlaps`.
- Six tries fit into the day an email has (`internal/email/worker.go:30-34`) exactly up to a certain
  lateness, 8950 s a try with the slowest passes: `MailLimits.NeverTooOldIff`, with the run of an email
  given up on for its age in `MailLimits.TooLateIsGivenUp`.
- The stored node status can disagree with the tracker, by a write that is overtaken
  (`Liveness.OvertakenWriteMisleads`) or one that fails (`Liveness.LostWriteMisleads`).
  `Liveness.StoredAgreesIff` says exactly when the two agree at rest, whatever writes failed.
- A forced command that stalls for longer than the TTL can use a grant a second time, for every
  TTL (`GrantRuns.StalledCallConsumesTwice`); `GrantRuns.OnceOnlyIff` says that this bound on
  calls is exact.
- A whole downloaded file survives whatever a later attempt meets exactly when that attempt stops
  before looking at it, or can examine it and is told its size: `Download.WholeFileSurvivesIff`.
- A scan that finds exactly 500 copies, and all there are, can call itself truncated:
  `ModelScan.CompleteCanBeCutShort`; `ModelScan.Scan` says exactly when it does.

## Model

| member | source | states |
|---|---|---|
| Wire.SeriesIsWellFormed | agent/connection/logarchive.go:152-177 | for a body of any length the chunks are numbered from 0 without gaps, each at most 16 KiB, the description on the first only, exactly one final and that one last, and together they are the body |
| LogSender.Conn.SendLogChunks | agent/connection/logarchive.go:152-177 | the loop ends, and writes exactly that series, or its beginning up to the first write that fails |
| LogSender.Conn.ArchiveInstanceLines | agent/connection/logarchive.go:66-120 | stored exactly when nothing else archives the instance, something was captured, the whole series went out and the confirmation read says stored; the instance and the waiter are always given back |
| LogSender.Conn.BeginArchive | agent/connection/logarchive.go:326-334 | a second archive of an instance is refused while the first lasts |
| LogSender.Conn.DeliverArchiveAck | agent/connection/logarchive.go:296-307 | never blocks: an unawaited confirmation, and all after the first, change nothing |
| LogSender.FirstAckWins | agent/connection/logarchive.go:296-315 | of any confirmations delivered, the waiting archive reads the first |
| LogReceiver.Service.HandleChunk | internal/containerlogs/containerlogs.go:163-250 | the in-place code refines one specification step on the upload and live tables, with every rejection reason |
| LogReceiver.LiveChunk | internal/containerlogs/containerlogs.go:179-195 | a live chunk is ignored exactly when no request of its id waits on its node; the agent's own error reaches the request; neither touches an upload but by the sweep |
| LogReceiver.FailureIsTold | internal/containerlogs/containerlogs.go:222-233 | a broken rule is told to the agent for the archive, whose upload is gone, and else to that live request alone, unless it has its answer |
| LogReceiver.Service.SweepLocked | internal/containerlogs/containerlogs.go:264-271 | removes exactly the uploads idle for over two minutes |
| LogReceiver.Service.CountForNodeLocked | internal/containerlogs/containerlogs.go:253-261 | counts exactly that node's unfinished uploads |
| LogReceiver.Service.BeginLive | internal/containerlogs/live.go:81-160 | a live request is admitted, and nothing else changed, exactly when fewer than 8 are waiting, and fewer than 2 on its node |
| LogReceiver.Service.DeliverLive | internal/containerlogs/live.go:164-175 | an answer reaches only the request of that id sent to that node, and only the first one |
| LogReceiver.KeyTextIsInjective | internal/containerlogs/containerlogs.go:163-250 | filing an upload under the text node/id confuses no two uploads, so the pair used here is the same key |
| LogReceiverRuns.EveryRunIsBounded | internal/containerlogs/containerlogs.go:177-271 | in every reachable table at most 4 unfinished uploads a node, none over 16 MiB, at most 8 live requests and 2 a node |
| LogReceiverRuns.EveryBufferIsItsChunks | internal/containerlogs/containerlogs.go:197-249 | each buffer is the data of chunks 0 to next-1 of that upload, in order, each delivered by its own node |
| LogReceiverRuns.SeriesIsRebuiltExactlyWhen | internal/containerlogs/containerlogs.go:177-249 | a series for the archive, or for a live request that stays open, delivered whole and in order among any other events yields exactly the original bytes if and only if a slot was free, the size is within the cap and no sweep found it idle; otherwise its last chunk is rejected, or the request told that the reply was bad |
| ArchiveStore.Archives.Create | internal/db/container_log_archives.go:116-138 | a retry of a stored upload id changes nothing and succeeds; a write may take effect although its reply is lost |
| ArchiveStore.Archives.Finish | internal/containerlogs/containerlogs.go:274-298 | one confirmation per finished upload; it says stored exactly when the announced length and hash match what arrived, that expands to at most 64 MiB, and the write was answered; the row then holds those bytes, their node, their size, and the instance if it is that node's |
| ArchiveStore.LiveAnswerIff | internal/containerlogs/live.go:179-195 | a live request is handed the log exactly when it arrived as announced and expands to at most 64 MiB, and otherwise told of damage |
| ArchiveSafety.NoContainerRemovedWithoutItsLog | agent/connection/logarchive.go:66-120 | in every run of agents, network and server, a container the archive path removed had nothing to capture, or exactly its captured gzip bytes had been inserted for its node under its upload id |
| ArchiveSafety.AtMostOneArchivePerInstance | agent/connection/logarchive.go:66-120 | in every reachable state an instance has at most one archive in progress |
| ArchiveSafety.EveryRunKeepsInv | agent/connection/logarchive.go:233-244 | the invariant behind both, kept by every step: begin, capture, send, chunk arrival, finish, confirmation, timeout, removal, restart |
| ArchiveProgress.RebuiltLogIsStored | internal/containerlogs/containerlogs.go:274-298 | in every run, a transmission put together whole whose log gzip gives back within the cap is inserted and confirmed by an answered write, and reading that confirmation ends the task as stored |
| ArchiveProgress.EveryGoodLogCanBeStored | agent/connection/logarchive.go:66-120 | from every reachable state with the instance free, an upload slot free and the size within the caps, a continuation in which the log is stored and confirmed and the container removed |
| ArchiveAgreement.AllConfirmationsAgree | internal/containerlogs/containerlogs.go:274-298 | when each series stays in order, all confirmations ever sent for one upload agree |
| ArchiveAgreement.DroppedIsNeverStored | internal/containerlogs/containerlogs.go:197-249 | an upload that began and that the server neither holds, finishes nor has stored is never stored, however the run goes on |
| ArchiveAgreement.RejectedIsDropped | internal/containerlogs/containerlogs.go:197-249 | a rejected chunk leaves its upload in that state |
| ArchiveAgreement.LostIsNeverStored | internal/containerlogs/containerlogs.go:197-271 | after any rejection, or a sweep or restart that took an unfinished upload, no later chunk of that series can be stored |
| ArchiveLive.LiveAndArchiveNeverMix | internal/containerlogs/live.go:164-195 | an upload opened with a fetch id never reaches the archive table and is handed only to the request of that id sent to that node |
| ArchiveProgress.LiveLogIsHanded | internal/containerlogs/live.go:164-195 | a complete live reply hands its own request the log, or says it is damaged, stores nothing and touches no other request |
| StaleContainers.RemoveStale | agent/connection/stalecontainers.go:132-183 | the archive is tried exactly for a valid id, no active instance and a listed container that is exited, or dead or created with the label; removal asked exactly after a stored log, and each outcome given exactly in its case |
| StaleContainers.InstanceIdIff | agent/connection/stalecontainers.go:26-30 | an instance id is exactly five groups of 8, 4, 4, 4 and 12 hex digits with dashes between |
| StaleContainers.RunListContainers | agent/connection/stalecontainers.go:35-100 | the parts are numbered from 0, one final and that one last, at most 30 containers each, and together are the list, each text cleaned to bounded printable ASCII |
| StaleContainers.WireText | agent/connection/stalecontainers.go:90-100 | every printable character kept in place, any other a question mark, and no longer than its limit |
| StaleContainers.Clip | agent/connection/stalecontainers.go:103-111 | the longest beginning within the limit that splits no UTF-8 character |
| StaleContainers.BoundaryIff | agent/connection/stalecontainers.go:103-111 | the places where a text may be clipped are exactly the ends of its characters |
| AuthorizedKeys.WriteAuthorizedKeys | agent/peertransfer/serve.go:34-52 | prints one line for each grant whose every value passes its check, in order, up to the first that cannot be written, and nothing for any other account |
| AuthorizedKeys.KeyForm | internal/agentproto/sshkey.go:33-42 | a key is accepted exactly when it is one of five types, a space, base64 text and at most three '=', in at most 1024 characters |
| ServedKeys.ActiveGrants | agent/peertransfer/grants.go:336-352 | exactly the grants that read as live, each once, in the order of their file names |
| ServedKeys.PrintServedKeys | agent/peertransfer/serve.go:34-52 | the lines printed are exactly those of the live grants with sound values |
| ServedKeys.OfferedExactlyWhenLive | agent/peertransfer/grants.go:312-352 | a transfer is offered exactly when its grant is live and sound; a used, expired, unreadable or misfiled one offers no key |
| AuthorizedKeys.LineReadsBack | agent/peertransfer/serve.go:34-52 | a printed line reads back as exactly its addresses, command and key |
| AuthorizedKeys.NoGrantBreaksItsLine | agent/peertransfer/serve.go:34-52 | whatever a grant file holds, its line reads back as the grant's own canonical addresses, forced command and key, and has one line break, at its end |
| AuthorizedKeys.KeyIsPlain | internal/agentproto/sshkey.go:33-42 | an accepted public key holds no quote and no line break |
| AuthorizedKeys.DestIPsIff | agent/peertransfer/grants.go:108-125 | a list of addresses is accepted exactly when it is not empty, has at most 16 and each is one |
| AuthorizedKeys.AddressesReadBack | agent/peertransfer/grants.go:108-125 | canonical addresses, joined and parsed again, are themselves |
| SenderCommand.ParseIsTheGrammar | agent/peertransfer/serve.go:63-82 | a command is accepted exactly when it has the one permitted form and length, and the options are the words of that form |
| SenderCommand.ParseLosesNothing | agent/peertransfer/serve.go:71-82 | the options joined back between the fixed beginning and end are the command |
| PeerGrants.GrantStore.Authorize | agent/peertransfer/grants.go:194-245 | a grant is written exactly when every value is valid, none of that id exists and the file can be made, and expires after the TTL |
| PeerGrants.GrantStore.Revoke | agent/peertransfer/grants.go:249-259 | removes that id's grant and then its marker and nothing else, and stops at a removal that fails |
| PeerGrants.GrantStore.SweepGrants | agent/peertransfer/grants.go:265-285 | the loop removes exactly the expired and unreadable grants that can be removed |
| PeerGrants.GrantStore.SweepTemps | agent/peertransfer/grants.go:273-277 | the leftovers that can be removed are |
| PeerGrants.GrantStore.SweepMarkers | agent/peertransfer/grants.go:286-297 | the loop removes exactly the markers older than the TTL that can be removed |
| PeerGrants.GrantStore.SweepStale | agent/peertransfer/grants.go:265-297 | removes exactly the expired or unreadable grants, the leftover files and the markers older than the TTL, as far as it can list and remove them, and counts them |
| GrantPromises.SweepTakesNothingLive | agent/peertransfer/grants.go:265-285 | a clean-up leaves every readable unexpired grant, and nothing it takes could ever be served again |
| PeerGrants.GrantStore.PrepareServe | agent/peertransfer/serve.go:109-165 | a plan, and the grant marked used, exactly when the marker can be made and a live unused grant of that id names the first field of the connection, the command is permitted, the directory absolute and every named file safe; the plan is in the grant's directory, and would not be made again |
| GrantPromises.AuthorizedIsServedTo | agent/peertransfer/serve.go:109-165 | until it expires or is used, an authorization serves a permitted command from an address exactly when it is one of the request's |
| GrantPromises.AuthorizedIsOffered | agent/peertransfer/serve.go:34-52 | and has the node print the restricted line with the request's addresses, its forced command and its key |
| GrantPromises.OthersAreRefused | agent/peertransfer/serve.go:114-128 | a connection from any address the grant does not name is refused |
| PeerGrants.WholeDirectoryRunsTheCommand | agent/peertransfer/serve.go:138-164 | in the whole-directory case the argument vector re-joined is the client's command |
| PeerGrants.SourcesAreNeverOptions | agent/peertransfer/serve.go:138-164 | everything after the options is "." or "./" and a safe name of the grant |
| GrantPromises.SafeNames | agent/peertransfer/grants.go:180-188 | a name that may be served begins with no dash and holds no slash, space, quote or shell character; ordinary names are accepted |
| GrantRuns.ConsumedAtMostOnce | agent/peertransfer/serve.go:109-165 | in every interleaving of calls of at most the TTL with authorize, revoke, sweep and restart, an authorization is consumed at most once |
| GrantRuns.OnceOnlyIff | agent/peertransfer/serve.go:109-165 | consumed at most once in every run exactly when no call takes longer than the TTL (or than a second, with a TTL of zero) |
| GrantRuns.SweptMarkerRevivesNothing | agent/peertransfer/grants.go:265-333 | a consumed authorization without a marker has no grant file, and no call that still holds it can claim it |
| GrantRuns.StalledCallConsumesTwice | agent/peertransfer/serve.go:109-165 | for every TTL a call a second longer than that gives a run that consumes one authorization twice |
| Download.SelectQuantizedFile | agent/transfer/transfer.go:198-217 | missing exactly when no .gguf file contains the quantization, ambiguous exactly when two entries do, otherwise the one |
| Download.MatchingCounts | agent/transfer/transfer.go:198-217 | what is collected is what matches, and its number tells none, one and several apart |
| Download.Executor.DownloadFile | agent/transfer/transfer.go:244-320 | the open, append, truncate and copy loop refines the specification of one file's attempt, and its reports never fall and number at most one per threshold of bytes |
| Download.Executor.Copy | agent/transfer/transfer.go:289-319 | the read and write loop, with short writes and cuts anywhere; no report is put off once its bytes are in |
| Download.Executor.Fetch | agent/transfer/transfer.go:143-160 | the loop over the chosen files, with everything it reports |
| Download.Executor.Download | agent/transfer/transfer.go:113-160 | refines the specification of an attempt; one terminal report, last; reports never fall; at most one interim report per threshold of bytes |
| Download.FileStaysAPrefix | agent/transfer/transfer.go:244-320 | one attempt, however it ends, leaves a beginning of the remote file, and success leaves all of it |
| Download.AttemptsNeverCorrupt | agent/transfer/transfer.go:244-320 | any number of attempts, each cut anywhere and answered 200 or 206, leave every local file a beginning of its remote file; a successful last one leaves every chosen file whole |
| Download.AttemptSucceedsIff | agent/transfer/transfer.go:113-320 | with an honest server an attempt succeeds exactly when it can list and choose its files, make its directory and learn every size, and each file in turn is already whole or is asked for from its first missing byte and read through; then all are whole |
| Download.FileOkIff | agent/transfer/transfer.go:244-320 | the same for one file, whatever the server does: a shorter local file of known size is asked for from exactly its length, any other from the beginning |
| Download.ReportedBytesAreTheTotal | agent/transfer/transfer.go:131-160 | with all sizes known the announced total is right, no report exceeds it, and success reports all of it |
| Download.WholeFileSurvivesIff | agent/transfer/transfer.go:244-290 | a file once whole survives whatever answer a later attempt meets exactly when that attempt stops before looking at it, or can examine it and is told its size |
| Audience.RecipientsAreTheAddressed | internal/db/email_delivery.go:52-71 | a user is a recipient exactly when the alert is addressed to them under the inbox rule and they have an address, delivery not off, and ask for this severity or a lower one |
| Audience.WhomAudiencesReach | internal/db/alerts.go:174-198 | an audience by tier is that tier and every higher one, one by name that person, one by group never the SuperAdmin |
| Audience.MembersAreTheAudience | internal/db/app_groups.go:298-326 | the member page, a grouped outer join, lists exactly the people a group audience reaches, once each, with the right reasons |
| Audience.MemberCountIsTheNumberOfMembers | internal/db/app_groups.go:163-193 | the count in the group list is the number of entries on the member page |
| Audience.LowerDistinct | internal/db/app_groups.go:330-342 | every DN in lower case, each once, in order of first appearance |
| Audience.AppGroups.ReplaceUserMemberships | internal/db/app_groups.go:348-374 | the exact new cache, the unique index kept, an unknown person an error that changes nothing |
| Audience.SignInDecidesMembership | internal/db/app_groups.go:348-374 | after a sign-in a person is in a group exactly by hand or by a DN just reported, ignoring case; nobody else's groups change |
| Audience.BackfillDecidesMembership | internal/db/app_groups.go:379-407 | after a backfill exactly the named people are cached in that AD group; other AD groups are untouched |
| Audience.PruningChangesNobody | internal/db/app_groups.go:412-420 | pruning takes exactly the rows of AD groups nothing is mapped to, and changes no group's members and no alert's addressees |
| Audience.DeletingAGroupUnaddresses | internal/db/app_groups.go:151-160 | deleting a group takes its alerts from exactly those whom nothing else addresses |
| LikePattern.EscapedPrefixIsLiteral | internal/db/alerts.go:338-369 | an escaped prefix followed by % matches exactly what starts with the prefix, wildcards and all |
| AlertInbox.Alerts.Raise | internal/db/alerts.go:223-305 | a repeat updates the open alert of its key, anything else is a new row, a bad audience changes nothing; at most one open alert per key is kept |
| AlertInbox.RaisedIsAddressed | internal/db/alerts.go:223-305 | a new alert is open, counted once, and visible to and unread by exactly those whom the audiences it names reach; no other alert changes |
| AlertInbox.RepeatShowsTheLast | internal/db/alerts.go:223-305 | a repeat is counted, and shows what was raised last and when |
| AlertInbox.ClosedIsUnreadForNobody | internal/db/alerts.go:310-363 | a closed alert leaves everyone's unread view and no other alert does |
| AlertInbox.Alerts.ResolveByDedupeKey | internal/db/alerts.go:310-330 | closes exactly the open alert of the key |
| AlertInbox.Alerts.ResolveByKeyPrefixExcept | internal/db/alerts.go:338-363 | closes exactly the open alerts whose key starts with the literal prefix and is not kept |
| AlertInbox.Alerts.Reopen | internal/db/alerts.go:386-392 | refused exactly when another open alert holds the key |
| AlertInbox.Alerts.MarkRead | internal/alerts/alerts.go:421-461 | each outcome exactly in its case; a failed audit leaves all flags as they were unless the revert failed |
| AlertInbox.Alerts.MarkUnread | internal/alerts/alerts.go:421-470 | the same, the restored mark carrying the time of the revert |
| AlertInbox.Alerts.Dismiss | internal/alerts/alerts.go:421-475 | the same for dismissing |
| AlertInbox.Alerts.MarkAllRead | internal/alerts/alerts.go:480-506 | marks exactly the viewer's unread view; after a failed audit the flags are as before exactly when every single revert went through |
| AlertInbox.Alerts.TakeBack | internal/alerts/alerts.go:491-503 | the revert loop takes back every mark but those whose revert failed |
| AlertInbox.Alerts.ResolveAlert | internal/alerts/alerts.go:512-544 | allowed exactly to an Admin or the sole addressee; a failed audit is reverted as if nothing had been closed, unless the revert fails, as it does exactly when an alert raised in between took the key or the write failed |
| AlertInbox.MayResolveIff | internal/alerts/alerts.go:376-390 | resolving is for an Admin and for the person who is the alert's one addressee |
| AlertInbox.MarkAllReadEmptiesOneView | internal/db/alerts.go:447-459 | afterwards that viewer's unread count is 0 and no other viewer's view changes |
| AlertInbox.MarksArePersonal | internal/db/alerts.go:496-539 | one person's mark changes nobody else's view |
| AlertInbox.RepeatReachesEveryone | internal/db/alerts.go:223-305 | a more severe repeat is unread again for everyone who sees it, any other keeps read marks, and a dismissed alert stays dismissed |
| MailQueue.Worker.Claim | internal/db/email_queue.go:107-130 | the oldest due emails up to the limit, one attempt counted and the lease set on each, no other row touched |
| MailQueue.Worker.MarkSent | internal/db/email_queue.go:133-139 | makes that row sent, whatever it was |
| MailQueue.Worker.MarkRetry | internal/db/email_queue.go:142-148 | sets the next try of that row if it is still pending |
| MailQueue.Worker.MarkFailed | internal/db/email_queue.go:151-157 | gives up on that row if it is still pending |
| MailQueue.Worker.Deliver | internal/email/worker.go:113-133 | the outcome written to its own row alone: accepted is sent; refused for good, or not taken at the sixth try, is failed; not taken at the nth before is due again after the nth of 1, 5, 30, 120 and 360 minutes |
| MailQueue.Worker.DeliverAll | internal/email/worker.go:101-109 | the batch loop records each outcome reached before a shutdown on its own row |
| MailQueue.Worker.ProcessOnce | internal/email/worker.go:83-110 | a pass gives up on day-old mail, claims the oldest due five and records their outcomes; each way it can fail, and what it leaves then |
| MailRuns.OnTimeIsWithinTheLease | internal/email/worker.go:16-41 | a pass with bookkeeping of at most 14 s a step is done with its five sends before the lease is up |
| MailRuns.NeverSentByTwo | internal/db/email_queue.go:107-130 | in every run of any number of passes that are quick enough no email is with two of them at once |
| MailLimits.NeverByTwoIff | internal/email/worker.go:20-25 | no email is ever with two passes at once, in any run, exactly when a pass takes at most 14 s over each step besides the send |
| MailLimits.TooSlowOverlaps | internal/email/worker.go:20-25 | for any longer bound a run in which a second pass claims an email the first still holds |
| MailCounts.TriesAreBounded | internal/email/worker.go:113-133 | in every run an email is tried at most 6 times and accepted at most once, plus once per lost outcome |
| MailTries.BoundsAreReached | internal/email/worker.go:83-133 | for every number of lost outcomes a run with exactly those, 6 more tries and 1 more acceptance; up to 184 of them with every claim right after giving up on day-old mail |
| MailTries.SixTriesIff | internal/email/worker.go:30-34 | at most six tries in every run with at most l lost outcomes, exactly when l is 0 |
| MailTries.AcceptedOnceIff | internal/email/worker.go:113-133 | at most one acceptance in every run with at most l lost outcomes, exactly when l is 0 |
| MailCounts.EveryRunCounts | internal/db/email_queue.go:107-157 | the counting invariant behind it: tries, attempts, acceptances and losses of each email |
| MailEnds.StepOnRow | internal/db/email_queue.go:133-179 | a pending email is never removed, a failed one becomes sent exactly when a pass writes down its acceptance, a sent one stays until it is purged, which takes exactly finished ones over 30 days old |
| MailEnds.GivenUpIsFinal | internal/db/email_queue.go:133-179 | an email given up on that no pass may still send stays failed or is purged in every continuation |
| MailEnds.RefusedIsNeverTriedAgain | internal/email/worker.go:122-130 | in every continuation, an email whose permanent refusal or failed sixth try was written down stays failed or is purged, and is never claimed or tried again |
| MailEnds.FailedBecomesSentIff | internal/db/email_queue.go:133-157 | a failed email becomes sent in some continuation exactly when a pass that holds it may still have it accepted |
| MailEnds.SentIsFinal | internal/db/email_queue.go:133-179 | once sent, an email is sent or purged in every state that can follow |
| MailEnds.SentCanOverwriteFailed | internal/db/email_queue.go:133-139 | a run in which a given-up email becomes sent |
| MailSchedule.TriesBeforeTheCutoff | internal/email/worker.go:20-41 | in every run where no outcome of an email is lost and it is never left due for too long, it is settled before it is over a day old and never given up on for its age |
| MailSchedule.StepKeepsSchedule | internal/email/worker.go:39-133 | the bound on each next try behind it, kept by every step |
| MailLimits.NeverTooOldIff | internal/email/worker.go:30-41 | that an email never left due for more than so long is never given up on for its age, in any run, exactly when six tries so late with passes so slow add up to at most a day; with the slowest passes, up to 8950 s |
| MailLimits.TooLateIsGivenUp | internal/email/worker.go:83-97 | for any greater lateness a run, with no outcome lost, in which the sixth try is still under way when the email is given up on for its age |
| Digest.WorstFirstIsAStableSort | internal/email/compose.go:126-132 | a permutation, worst and then oldest first, ties as they came |
| Digest.DigestMessage | internal/email/compose.go:126-154 | lists the first fifty of that order, and listed plus counted is the total |
| Digest.Notifier.PendingDigest | internal/db/email_delivery.go:136-157 | everything waiting for one person, each once, oldest first |
| Digest.Notifier.UsersWithDigestItems | internal/db/email_delivery.go:115-132 | exactly the people with items waiting who chose that digest, each once |
| Digest.Notifier.Wanted | internal/email/notify.go:161-169 | exactly the waiting items still open and severe enough, each once |
| Digest.OwedIff | internal/email/notify.go:155-185 | owed is waiting, of an open alert the person has not dismissed, at least as severe as they ask for, for an address and this kind of digest |
| Digest.Notifier.DigestFor | internal/email/notify.go:150-192 | a digest of all that is owed is queued, to the person's own address, exactly when they are owed anything and the reads and the queueing go through; their items leave the list exactly when the removal does too, or nothing was owed; nobody else's items are touched |
| Digest.Notifier.RunDigest | internal/email/notify.go:117-146 | sees to exactly the people with items who chose this digest: whoever is owed is told of all of it, and whoever is told has nothing left waiting, so that a second run tells them nothing; whatever left the list was over 48 h old, told of, or not owed, also in a run that fails or is stopped |
| Digest.Notifier.DigestAll | internal/email/notify.go:138-145 | the loop over the people, one digest at most for each |
| Digest.Notifier.AlertRaised | internal/email/notify.go:33-69 | one email for each immediate recipient, one waiting item for each digest recipient, nothing for anyone else |
| Digest.AddedIsOwed | internal/db/email_delivery.go:102-111 | a raised alert lowers and delays nothing that waits, takes the higher severity and the new title, touches nobody it is not for, and is owed to every digest reader it reaches |
| Digest.Notifier.SetMyPreferences | internal/email/notify.go:81-110 | a failed audit restores the choice, and the waiting items exactly when there were none or both choices are digests |
| Digest.Notifier.SetPreferences | internal/db/email_delivery.go:14-36 | saves the choice and drops the person's waiting items unless it is a digest |
| Digest.RevertKeepsItemsIff | internal/db/email_delivery.go:14-36 | the same as a law of the two saves |
| Digest.RevertingCanLoseItems | internal/db/email_delivery.go:14-36 | a concrete item that is lost |
| ModelPath.ResolvesIff | agent/modelpath/modelpath.go:22-36 | for every root and reference, accepted exactly when not empty, not absolute, and the cleaned join lies strictly inside the cleaned root; the result is that join |
| ModelPath.ResolvedIsBelowTheRoot | agent/modelpath/modelpath.go:22-36 | under an absolute root the result has the root as a proper beginning and nothing in it goes up |
| ModelPath.PlainRefResolves | agent/modelpath/modelpath.go:22-36 | a reference of plain names resolves to those names below the root |
| ModelPath.LeavingAndReturningResolves | agent/modelpath/modelpath.go:22-36 | a reference that leaves the root and comes back is accepted |
| ModelPath.CleaningIsIdempotent | agent/modelpath/modelpath.go:29-31 | cleaning a cleaned path changes nothing |
| GgufNames.ShardOfIsComplete | agent/modelscan/modelscan.go:75-76 | the recogniser finds every shard name, with its parts |
| GgufNames.ShardOf | agent/modelscan/modelscan.go:75-76 | what it returns spells the name |
| GgufNames.RsyncTempIff | agent/modelscan/modelscan.go:69-73 | a leftover is exactly a dot, a weight file's name, a dot and six letters or digits |
| GgufNames.ShardsAreGrouped | agent/modelscan/modelscan.go:214-220 | every part of a split model is grouped under its base name, any other file under its own |
| GgufNames.LabelEndIff | agent/modelscan/modelscan.go:78-82 | a label is found at a place exactly when the text there is one of the fixed words, or Q or IQ with a digit and underscore-separated words, whatever the case, and a delimiter or the end follows |
| GgufNames.ExtendedIsLongest | agent/modelscan/modelscan.go:78-82 | of the label endings a delimiter follows, the scan takes the longest |
| GgufNames.ExtendedIsATail | agent/modelscan/modelscan.go:78-82 | what it takes is underscore-separated words |
| GgufNames.LabelIsFirst | agent/modelscan/modelscan.go:285-290 | the label stands in the name as it is, delimited on both sides, and is the first that does |
| GgufNames.UnknownIsNoLabel | agent/modelscan/modelscan.go:285-290 | no label reads UNKNOWN, which a delete would take for the whole directory |
| GgufNames.LabelIsInEveryName | agent/modelscan/modelscan.go:206-289 | a group's label is part of every file name in the group |
| ModelGroups.GgufSizesAddUp | agent/modelscan/modelscan.go:184-258 | the gguf copies of a directory are its groups of visible regular gguf files, one each, each as big as its own files, and add up to all of them, no shard missed or counted twice |
| ModelGroups.RepoSizeIsTheSum | agent/modelscan/modelscan.go:258-280 | a repository copy is as big as all its regular files at any depth but gguf files and leftovers |
| ModelGroups.CandidatesAre | agent/modelscan/modelscan.go:184-258 | what is reported of a model directory, exactly: one repository copy if it has a visible safetensors file, one copy for each group, marked incomplete exactly beside a leftover |
| ModelGroups.GroupFileIsOfTheGroup | agent/modelscan/modelscan.go:206-225 | a copy's file name is one of its group, and a first shard if it has one |
| ModelGroups.LabelIsInEveryFile | agent/modelscan/modelscan.go:206-289 | the label of a reported copy is in the name of every file of it |
| ModelScan.Scanner.Group | agent/modelscan/modelscan.go:189-230 | the loop over the entries computes the groups, their sizes and their files |
| ModelScan.Scanner.AddGroups | agent/modelscan/modelscan.go:244-258 | the loop over the sorted groups, as far as there is room |
| ModelScan.Scanner.Full | agent/modelscan/modelscan.go:120-126 | notes the cut whenever it finds the list full |
| ModelScan.Scanner.AddModelDir | agent/modelscan/modelscan.go:184-258 | adds a directory's copies as far as there is room, and notes the cut exactly when there is not |
| ModelScan.Scanner.Walk | agent/modelscan/modelscan.go:134-167 | the capped walk yields the first 500 of all there is to find, and notes the cut exactly when it looks at anything with the list full |
| ModelScan.Scanner.WalkAll | agent/modelscan/modelscan.go:151-166 | the loop over a directory's entries |
| ModelScan.Scan | agent/modelscan/modelscan.go:88-112 | at most 500, sorted, complete unless marked truncated, marked exactly when the walk has more to look at after the 500th; only an unusable root is an error |
| ModelScan.CompleteCanBeCutShort | agent/modelscan/modelscan.go:120-166 | a storage of 500 copies in distinct directories and one file: all are found, and the list is marked truncated |
| ModelScan.LooksPastIff | agent/modelscan/modelscan.go:120-126 | being cut short, step by step, is that something comes after 500 copies |
| ModelScan.PickedIsFound | agent/modelscan/modelscan.go:134-167 | the copies the walk looks at are all there are to find |
| ModelScan.CompleteScanIsExact | agent/modelscan/modelscan.go:134-167 | a complete scan reports a copy exactly when a readable visible directory, at most six levels down and not inside another model, with a valid reference holds it |
| ModelScan.WalkedRefsResolve | agent/modelscan/modelscan.go:296-310 | a walked directory's reference resolves to that directory, so only unprintable text can make it invalid |
| DeleteModel.Storage.RemoveModel | agent/connection/deletemodel.go:30-84 | succeeds exactly when nothing it needs fails, and then leaves exactly the specified directory, an absent one being success; a failure has freed only files that were to go, unless removing the whole directory failed half-way |
| DeleteModel.Storage.RemoveFiles | agent/connection/deletemodel.go:62-73 | the loop removes exactly the files whose name contains the label, or stops at the first it cannot |
| DeleteModel.DeletingTwiceIsDeletingOnce | agent/connection/deletemodel.go:30-84 | a second delete changes nothing |
| DeleteModel.ReportedCopyIsGone | agent/connection/deletemodel.go:51-82 | deleting by a reported label leaves none of that copy's files, and the next scan no longer finds it |
| DeleteModel.SurvivesIff | agent/connection/deletemodel.go:62-82 | a delete that names no gguf label frees everything; otherwise an entry survives exactly when no file has the label in its name, or it is no such file and some .gguf entry that is none is left (under a path with glob characters: and the glob finds something) |
| DeleteModel.DeletingOneLabelCanTakeAnother | agent/connection/deletemodel.go:62-82 | deleting "Q4_K" takes "Q4_K_M" and the directory with it |
| Liveness.Tracker.RecordActivity | internal/agentconn/agentconn.go:74-81 | reports a recovery exactly when the connection was unreachable |
| Liveness.Tracker.MarkUnreachableIfStale | internal/agentconn/agentconn.go:87-98 | flips exactly once per silence of at least the timeout |
| Liveness.EveryRunKeepsInv | internal/agentconn/agentconn.go:219-279 | the invariant kept by every step of reader, watcher and cleanup |
| Liveness.OneUnreachablePerSilence | internal/agentconn/agentconn.go:57-98 | unreachable and recovered strictly alternate, and two unreachables are always at least the timeout apart with a recovery between |
| Liveness.SilenceIsNoticed | internal/agentconn/agentconn.go:262-279 | the first check that finds 90 s of silence reports it, later ones change nothing, and the next message reports the recovery |
| Liveness.NothingAfterOffline | internal/agentconn/agentconn.go:219-247 | the offline write, whether or not it goes through, comes after every other write of the connection |
| Liveness.StoredAgreesIff | internal/agentconn/agentconn.go:262-279 | at rest, whatever writes failed, every change was written once or its write failed; if the last change's write went through, the stored status is the tracker's exactly when that write came last, and if it failed, exactly when the last write is by the same goroutine |
| Liveness.OvertakenWriteMisleads | internal/agentconn/agentconn.go:262-279 | a run that leaves a live node stored as unreachable |
| Liveness.LostWriteMisleads | internal/agentconn/agentconn.go:262-279 | a run in which a write that fails leaves a silent node stored as online |

## Left out

- ArchiveSafety.NoContainerRemovedWithoutItsLog: stored means inserted at some time before the removal, because the retention job may delete the row a month or more later.
- ArchiveAgreement.AllConfirmationsAgree: assumes each series stays in order on the network, as one WebSocket connection keeps it; safety does not assume that.
- LogReceiver.LiveChunk: the agent's error is handed on as it is; the code clips it to 300 bytes.
- LogSender.Conn.ArchiveInstanceLines: the confirmation arrives as one argument; the interleaving of waiting, acks and timeouts is in the archive state machine.
- GrantRuns.OnceOnlyIff: assumes a monotone clock of whole seconds, one constant TTL, and one agent whose commands do not overlap, as its read loop runs them.
- MailRuns.NeverSentByTwo: assumes a send takes at most 30 s, and one clock for server and database; how long each other step takes is a parameter.
- MailLimits.NeverTooOldIff: the batch of the run that shows the bound comes in an order of its own, as the database may return it.
- MailTries.BoundsAreReached: that every pass first gives up on day-old mail is a property of the run here, not of the machine, which lets a claim happen without it.
- DeleteModel.SurvivesIff: what a glob under a path with glob characters finds is an argument; a model directory inside another is not tracked on its own.
- StaleContainers.RunListContainers: exit codes, times and the other fields that are copied as they are.
- Download.AttemptsNeverCorrupt: assumes immutable remote files, a 206 that starts at the byte asked for (the code does not look at Content-Range), an end of body only after all of it, and that two names under one local path have one content.
- Download.Executor.Download: the texts of errors, and the split of a reference into URL segments.
- Audience.AppGroups.ReplaceUserMemberships: the time a cached membership was last checked; lower case is that of ASCII.
- AlertInbox.Alerts.Raise: runs as one transaction; the one retry after a race on the unique index is not modelled. The order and limit of the alert list are left out.
- Digest.Notifier.RunDigest: takes each person's digest as one step on tables nobody else changes meanwhile; people come in any order.
- Digest.DigestMessage: a line is an alert, not its text; link, footer and the cleaning of titles are left out. The sort in place is a function of the entries.
- ModelPath.ResolvesIff: lexical, as the code is; symbolic links are not modelled, and only Unix paths are.
- ModelScan.Scan: the tree does not change during a scan; sorting is a function of the list, and ties are in an order of its own.
- PeerGrants.GrantStore.Authorize: how a model resolves to a directory and files is an argument; directories are not walked for symbolic links.
- Queue statistics and recent mail, alert validation, schedules, settings pages, HTTP, WebSocket, LDAP, SMTP and container runtime calls: plumbing with no deep invariant.
