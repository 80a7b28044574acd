# HeroMail backend: what its mail handling guarantees

A Dafny 4.11 model of the parts of the HeroMail backend whose correctness rests on interleavings, on
arithmetic bounds, or on bytes coming out as they went in. `dafny verify dfyconfig.toml` checks all of it.

Two of the areas are state machines over SQL statements and commits. A run is any list of steps; a step the
database would refuse changes nothing. Classes stand for the Go objects and tables; their methods work
statement by statement, call `Interfere` (or a `Pause`/`Yield` around it) wherever others may run, and hand back
a ghost trace of what they and everyone else did, so that what is proved of all runs applies to every call.
Outcomes decided outside this code (a lost write, a provider's answer, an access check) are parameters
(`World`, `Luck`, `allowed`). A call that says what it does with nobody in between says it of
traces with only its own steps (`Traces.AllOwn`).

* **Received mail** (`MailStates`, `MailInvariant`, `FolderListings`, `MailMoves`, `PollReplay`, `SequenceSets`,
  `ImapSessions`, `MailTraces`, `MailDatabase`, `ImapMailbox`, `LmtpDelivery`): folders, UID allocation under
  the mailbox's lock, moves, renames, deletions, the per-connection snapshot and its EXPUNGE, EXISTS and FETCH
  responses (RFC 3501, sections 2.3.1.1, 2.3.1.2, 7.3.1, 7.4.1 and 7.4.2; MOVE is section 3.3 of RFC 6851), and local delivery.
* **Outbound mail** (`OutboundStates`, `OutboundInvariant`, `OutboundTraces`, `DeliveryWorker`, `SendService`):
  the delivery protocol with any number of workers, crashes and lost writes, and idempotent acceptance with
  write-once attachments.
* **Guards** (`OneTimeCodes`, `RateLimiter`, `PasswordSessions`): guesses against one code, the fixed-window
  limiter, and sign-in racing a password change.
* **Bytes and trees** (`HeaderLines`, `HeaderFields`, `SubmissionHeaders`, `ParsedHeaders`, `MimeTrees`, `AttachmentScanner`):
  the submission header filter and the attachment walk.

`Ascending`, `Text`, `Traces`, `Rounding` and `Wrappers` hold what these share.

## Where the code does less than it seems to

Each of these is a lemma or an exact condition below, not an opinion.

* UIDNEXT (`last_value + 1`) bounds later arrivals if and only if the UID sequence has been used: an unused
  Postgres sequence already reads as 1, so a new system announces 2 and hands out 1 (`UidNextBound`).
* Poll's responses rebuild the folder if and only if no unchanged message stands above one the snapshot lacks, and a
  client's numbering is right throughout a session if and only if every Poll is so (`PollReplaysExactly`,
  `SessionAgreesExactly`). That holds in every session whose own EXPUNGEs delete while the folder name means the folder the
  snapshot was read from. An EXPUNGE that reads its flags then, but deletes after the folder was renamed away, forgets
  a message that comes back with the name, and the client's numbering is wrong (`SessionAgrees`,
  `RenamedAwayExpungeMisleads`).
* IMAP MOVE can lose mail and can double it, and reports success. It copies what lies under the source's name in one
  statement and deletes what lies under it in the next; its lock keeps out deliveries, appends and HTTP moves, but EXPUNGE,
  folder renames and folder deletion do not take that lock. If the folder is away when the MOVE reads and back when it
  deletes, the messages are lost (`MoveLosesMail`); if it goes away in between, they are doubled (`MoveDoublesMail`);
  if one is expunged in between, it comes back. Through any interleaving whatever, a MOVE in a session conserves mail if
  and only if its DELETE finds exactly the rows its INSERT read, and for that it is enough that the two statements report
  the same number of rows, which nothing compares (`MoveConservesExactly`, `SessionMoveConserves`).
* STORE and FETCH tell a client flags and leave the snapshot. A flag that is told and then taken back by somebody else stays
  on the client: Poll shows the folder, flags and all, if and only if it is in order and the client was last shown every message
  that has not changed since the snapshot as it was then (`PollShowsFolder`).
* A message without a Message-ID is stored again by every retry (`RetryWithoutMessageIdStoresTwice`).
* A claim or a mark that is lost leaves an email in `processing` with no run, and nothing ever looks at it again
  (`AbandonedIsStuck`).
* A `Send` with attachments that stops between writing the row and claiming them leaves a queued email without them under its
  key, and every repetition of the request is then refused as a different message (`SendService.Service.Send`,
  `CutShortIsNoRepetition`).
* A right code is used up in one transaction and the address is marked in another: if the second fails, the code is gone
  and the address is not proven (`OneTimeCodes.Codes.VerifyEmail`).
* A `Send` that loses the race for an idempotency key gets the winner's message back uncompared, whatever it asked
  for (`SendService.Service.Place`).
* Expiry of a one-time code is judged by the time the transaction began, its lock by the time after the row lock was
  granted. A lockout is final if and only if code lifetime plus that wait is at most the lockout; with the deployed 15
  and 15 minutes that means no wait at all (`LockIsFinalExactly`, `DeployedBound`).
* The limiter refreshes a counter's expiry before it reads it, so the reported wait is the whole window, not the rest of
  the current one; and `AllowAll` reports the longest wait, where its comment says the first refusal
  (`RateLimiter.Limiter.Allow`, `RateLimiter.Limiter.AllowAll`; internal/ratelimit/ratelimit.go:88).
* A session opened without the row lock, between a password change's revocation and its commit, stays open
  (`UnlockedSessionSlipsIn`). Sign-in by password takes the lock, so it cannot.
* `prepare` splits at CRLF while the parser it consults also splits at a bare LF. A date the parser reads inside what
  the split takes for a banned field is dropped with it, and a header that is one such field is lost whole
  (`HiddenDateIsRead`, `LostHeaderIsRead`).
* A failed read or claim in the last run a task is allowed leaves its email queued or failed, with no task
  (`DeliveryWorker.Outbox.RunTask`).

## Model

| member | source | states |
|---|---|---|
| MailInvariant.StepKeeps | migrations/0012_imap_storage.sql:22-33 | every statement, commit or abort keeps keys and foreign keys, unique row ids, one lock holder per mailbox, pending UIDs above all committed ones of their mailbox, and SMTP deduplication |
| MailInvariant.EveryRunIsValid | migrations/0012_imap_storage.sql:1-33 | all of that holds after every run from an empty system |
| FolderListings.ContinuesRun | internal/imapservice/backend.go:153-223 | any later state continues any earlier one: rows are old messages in their old folder (or carried off by an INBOX rename) or have UIDs above every message their mailbox then held |
| FolderListings.LaterListing | migrations/0012_imap_storage.sql:22-33 | a later listing of a folder name is the survivors of an earlier one in order, then only larger UIDs; through renames, deletion and re-creation, moves and aborts |
| FolderListings.UidNamesOneMessage | internal/inbound/folders.go:25-48 | a UID never names a second message, whatever ran in between |
| FolderListings.LostUidStaysLost | migrations/0012_imap_storage.sql:26-33 | a UID drawn and not committed, or whose message is gone, never names a message later |
| FolderListings.ValidityNamesOneFolder | migrations/0012_imap_storage.sql:1-9 | two folders never share a uidvalidity, at one time or at two |
| FolderListings.UidNextBound | internal/imapservice/mailbox.go:95-131 | under the lock UIDNEXT exceeds every listed UID, and is at most every later arrival's UID exactly when the UID sequence has been used |
| FolderListings.FirstUidBelowUidNext | internal/imapservice/mailbox.go:95-131 | the run that breaks the bound on an unused sequence |
| MailMoves.MoveConserves | internal/imapservice/mailbox.go:374-416 | mail after a MOVE plus what it deleted is mail before plus a copy of each row read, in contents and in number; if nothing is deleted that was not read, it is conserved if and only if all that was read is deleted, and a difference in number always shows |
| MailMoves.UndisturbedMoveConserves | internal/imapservice/mailbox.go:374-416 | if the rows found by the DELETE are the rows read, the multiset of messages is unchanged |
| MailMoves.MoveConservesExactly | internal/imapservice/mailbox.go:386-412 | from the read of any run to its commit, through any interleaving whatever, a MOVE of UIDs that were listed together conserves mail if and only if its DELETE finds exactly the rows read, and if and only if it finds as many |
| MailMoves.MoveConservesUnrenamed | internal/imapservice/mailbox.go:386-412 | wherever its UIDs come from, if nobody renames onto the source's name: if and only if every row read is still under that name |
| MailMoves.TogetherRun | internal/imapservice/backend.go:191-223 | UIDs listed in one folder name nothing else, and those still in use lie in one folder, through every run |
| MailMoves.LockedMoveConserves | internal/imapservice/mailbox.go:386-412 | so it does through any interleaving in which nobody renames onto or away, deletes, or expunges a named message from, the source itself; EXPUNGE of other messages and anything in other folders included |
| MailMoves.MoveLosesMail | internal/imapservice/mailbox.go:386-412 | a run of a MOVE that copies nothing, deletes the only message, and succeeds |
| MailMoves.MoveDoublesMail | internal/imapservice/mailbox.go:386-412 | a run of a MOVE that copies the only message, deletes nothing, and succeeds |
| MailDatabase.MoveTraceConserves | internal/imapservice/mailbox.go:386-412 | the exact condition, for the trace every MOVE that went through hands back |
| MailDatabase.UnrenamedTraceConserves | internal/imapservice/mailbox.go:386-412 | the two results without a rename onto the source's name, for such a trace |
| ImapMailbox.SessionMoveConserves | internal/imapservice/mailbox.go:374-416 | a MOVE after any calls of a session, and whatever others did before, between and within its statements, conserves mail if and only if its two statements hit the same number of rows |
| MailMoves.MoveListings | internal/imapservice/mailbox.go:395-412 | the source loses exactly the named UIDs, the destination is its old listing followed by the copies' UIDs, other folders stay |
| MailMoves.MoveCopies | internal/imapservice/mailbox.go:405-411 | the copies lie under the drawn UIDs in the order read |
| MailMoves.MoveCarries | internal/imapservice/mailbox.go:395-411 | through any interleaving, each arriving row has source, Message-ID, flags, read mark and date of the row it was read from, as it then was, and no SMTP mark; what was read are the named UIDs the source folder then had |
| MailDatabase.MoveTraceCarries | internal/imapservice/mailbox.go:395-411 | the same for the trace every MOVE that went through hands back |
| MailMoves.MailCounts | migrations/0012_imap_storage.sql:22-33 | what "mail is conserved" counts: each message as often as the mailbox has rows with its bytes |
| MailMoves.RelocateConserves | internal/inbound/folders.go:25-48 | the HTTP move keeps the mailbox's messages; the row named by its id goes last in the new folder with all it carried, or nothing changes if the folder does not |
| PollReplay.PollReplaysExactly | internal/imapservice/updates.go:15-60 | replayed on the old snapshot, Poll's responses stay in range and give one entry per row; they give exactly the rows if and only if no unchanged message stands above one the snapshot lacks |
| PollReplay.PollNumbersExactly | internal/imapservice/updates.go:15-60 | the same condition is exact for the numbering of a client that was told other flags meanwhile |
| PollReplay.PollShowsExactly | internal/imapservice/updates.go:15-60 | such a client sees exactly the rows, flags included, if and only if besides that it was shown every unchanged message as the snapshot has it |
| PollReplay.AppendOnlyPutsNewOnesLast | internal/imapservice/updates.go:15-60 | a listing that is survivors then larger UIDs meets that condition |
| ImapSessions.SessionAgreesExactly | internal/imapservice/updates.go:15-60 | in any session through any interleaving, with EXPUNGE's read and DELETE apart, the client's numbering is the snapshot's throughout if and only if every Poll meets that condition |
| ImapSessions.PollShowsFolder | internal/imapservice/updates.go:15-60 | the same for any state of a session in step |
| ImapSessions.SessionAgrees | internal/imapservice/mailbox.go:344-371 | every Poll does, and the next Poll brings the client to the folder's numbering, in each session whose EXPUNGEs delete while the name means the folder the snapshot was read from, whenever they read |
| ImapSessions.RenamedAwayExpungeMisleads | internal/imapservice/mailbox.go:344-371 | a run whose EXPUNGE reads while the name is bound and deletes while it is not, after which Poll leaves the client with the wrong numbering |
| ImapSessions.CallsAgree | internal/imapservice/mailbox.go:344-371 | after any calls of one connection, each with others running within and between them, whose EXPUNGEs delete under a bound name, the client is in step, and with the folder after a Poll |
| ImapSessions.ExpungePlays | internal/imapservice/mailbox.go:344-371 | a call whose one own step is the DELETE of what it read is that EXPUNGE event of its session, among the steps of others |
| ImapSessions.CallPlays | internal/imapservice/mailbox.go:300-315 | a call that forgets no message only takes the tables where its trace leads, and leaves snapshot and view |
| ImapSessions.AnswersLand | internal/imapservice/mailbox.go:174-239 | after the answers to FETCH or STORE, given under the session's numbers, the client numbers as before and has of each message what it was last told |
| ImapSessions.RecordsAre | internal/imapservice/mailbox.go:50-69 | the listing has exactly the folder's rows, by rising UID, each with its stored flags and then \Seen if it was read |
| ImapSessions.SessionTogether | internal/imapservice/mailbox.go:72-88 | in any session the messages of the snapshot that still exist lie in one folder |
| SequenceSets.InSet | internal/imapservice/mailbox.go:142-159 | the loop finds a number exactly if one of the set's ranges has it between its ends; what that selects is fixed by the six rows below |
| SequenceSets.NumbersFromTo | internal/imapservice/mailbox.go:142-170 | `a:b` by number selects exactly rows a to b |
| SequenceSets.UidsFromTo | internal/imapservice/mailbox.go:142-170 | `a:b` by UID selects exactly the session's messages with UIDs from a to b |
| SequenceSets.StarIsLast | internal/imapservice/mailbox.go:145-150 | `*` selects exactly the last message, by number and by UID |
| SequenceSets.BeyondLast | internal/imapservice/mailbox.go:145-156 | `n:*` with n beyond the last message selects exactly the last message |
| SequenceSets.SwappedEnds | internal/imapservice/mailbox.go:151-153 | a range with its ends swapped selects the same messages, in any set |
| SequenceSets.SetIsUnion | internal/imapservice/mailbox.go:143-158 | a set selects what any of its parts selects |
| SequenceSets.NumbersMeanOwnMessages | internal/imapservice/mailbox.go:160-170 | by number, the messages meant are those the client counts under the numbers denoted |
| SequenceSets.UidsMeanOwnMessages | internal/imapservice/mailbox.go:160-170 | by UID, the denoted UIDs among the client's own messages, `*` being its largest |
| ImapMailbox.CommandsMeanOwnMessages | internal/imapservice/mailbox.go:72-88 | what other sessions committed does not change which messages a command means |
| ImapMailbox.ExpungeSplitsSnapshot | internal/imapservice/mailbox.go:344-371 | EXPUNGE splits the snapshot into the UIDs it deletes and those that stay, and names no other |
| ImapMailbox.Mailbox.Poll | internal/imapservice/updates.go:15-60 | succeeds exactly if it may run and every response can be written; then it has sent the difference in order and taken the folder as snapshot: the Poll event of every session that stands there; a failed write leaves the snapshot and sends a prefix |
| ImapMailbox.Mailbox.Records | internal/imapservice/mailbox.go:72-88 | the snapshot's UID sequence with the flags rows have now |
| ImapMailbox.Mailbox.UpdateMessagesFlags | internal/imapservice/mailbox.go:270-315 | STORE sets flags on the targets in order, each from what its row then has, up to the first that is gone; with nobody in between it goes through if all are there, sets on exactly them what the update makes of their flags, and changes nothing else; every session that stood there goes along with the trace |
| ImapMailbox.Mailbox.ListMessages | internal/imapservice/mailbox.go:174-239 | FETCH returns the targets under the client's numbers and, if asked and writable, adds \Seen to exactly those that did not have it; with nobody in between it goes through if all are there; every session that stood there goes along with the trace |
| ImapMailbox.Mailbox.Expunge | internal/imapservice/mailbox.go:344-371 | deletes exactly the snapshot's messages it read as marked \Deleted and shrinks the snapshot by exactly those, others running in between: the EXPUNGE event of every session that stood there; a DELETE that fails, or is not heard of, forgets nothing; with nobody in between the rows that go are exactly the session's rows of the folder with \Deleted |
| ImapMailbox.Mailbox.MoveMessages | internal/imapservice/mailbox.go:374-416 | locks, reads, draws one UID per copy and commits a MOVE of the targets, others running before each step, then polls, others running before that; a failed poll does not undo it; its trace is one `SessionMoveConserves` speaks of; with nobody in between it goes through when the mailbox is not locked, the other folder is there and UIDs are left |
| ImapMailbox.Mailbox.Status | internal/imapservice/mailbox.go:89-132 | listing, unseen count, first unseen, uidvalidity and UIDNEXT read under the lock, with the bound of `UidNextBound`; without a connection it opens a session on that listing; with nobody in between it reports on every folder there is |
| ImapMailbox.UnseenCountIs | internal/imapservice/mailbox.go:112-120 | the unseen count is the number of listed messages without \Seen |
| MailDatabase.CanonicalIs | internal/imapservice/backend.go:106-111 | INBOX in any case is INBOX, any other name is itself |
| MailDatabase.Database.CreateMailbox | internal/imapservice/backend.go:153-171 | creates the canonical name with the next uidvalidity, exactly if it is a valid name, not taken, and a uidvalidity is left |
| MailDatabase.Database.DeleteMailbox | internal/imapservice/backend.go:172-190 | deletes the folder and exactly its messages, never INBOX |
| MailDatabase.Database.RenameMailbox | internal/imapservice/backend.go:191-223 | exactly when it goes through; the rows of the folder, and no others, come under the new name with their UIDs, and its uidvalidity with them; INBOX stays and its rows go to a new folder |
| MailDatabase.Database.InsertMessage | migrations/0012_imap_storage.sql:24-33 | lock, one UID, then the row given under that UID, a duplicate or a rollback, with others in between; with nobody in between it stores exactly if the folder is there and no delivery has the Message-ID |
| MailDatabase.Database.AppendIMAP | internal/inbound/imap.go:9-27 | APPEND is outside deduplication, stores the message given with \Seen as a read mark and without \Recent; with nobody in between it needs only the folder |
| MailDatabase.StorableIs | internal/imapservice/mailbox.go:286-294 | stored flags are all flags given but \Seen and \Recent, in their order |
| MailDatabase.FlagsComeBack | internal/imapservice/mailbox.go:271-300 | a client is later told exactly the flags that were set, \Recent excepted |
| MailDatabase.Database.MoveMessage | internal/inbound/folders.go:25-48 | moves a message into INBOX or Junk only, and draws a UID exactly if, when looked up, it lies in another folder; no message changes folder without one; with nobody in between it moves every message there is |
| LmtpDelivery.FolderIs | internal/inbound/folders.go:13-23 | Junk takes a message exactly if it has one verdict header, whose text before the first comma, between white space, is yes in any case; INBOX takes every other |
| LmtpDelivery.Deliver | internal/inbound/store.go:137-161 | the row stored for a recipient lies last in that folder of its mailbox and is the message itself, its bytes, Message-ID and date, unread and without flags; with free locks and numbers left, and heard of, a delivery left alone succeeds |
| LmtpDelivery.Session.Data | internal/inbound/lmtp.go:71-112 | once an attempt is accepted the message was stored for every recipient or found there, and every recipient holds exactly one SMTP copy, however far earlier attempts got, unless somebody took this very message from that recipient meanwhile; left alone and heard of it is accepted; over 25 MiB it is refused |
| LmtpDelivery.HoldsStepExactly | internal/inbound/store.go:137-161 | a delivered message stops being held by a step if and only if that step expunges it, moves it by IMAP, or deletes its folder |
| LmtpDelivery.HoldsRun | internal/inbound/store.go:137-161 | a delivered message stays delivered through every run without such a step; whatever happens to other messages or mailboxes |
| LmtpDelivery.RetryWithoutMessageIdStoresTwice | migrations/0012_imap_storage.sql:24 | without a Message-ID a retry stores the same message again |
| OutboundInvariant.StepKeeps | internal/email/store.go:72-185 | every step keeps: one run per email in processing, success only through a run's verdict, rows told by their trails, one email per key, uploads owned by existing emails |
| OutboundInvariant.AtMostOneSuccess | internal/email/queue.go:115-209 | for all workers, duplicate tasks, crashes and lost or late writes, the provider accepts each email at most once; queued, failed and dead mean not at all, sent means once |
| OutboundInvariant.EveryTrail | internal/email/store.go:72-185 | every trail reads queued (processing failed)* [processing [sent or final failure]], and tells status, attempts, last error and provider id |
| OutboundInvariant.OneEmailPerKey | migrations/0003_api_keys_emails.sql:74-76 | one workspace and key never get two emails, nor two successes |
| OutboundInvariant.RunProceeds | internal/email/store.go:105-185 | requests and keys never change, trails only grow, a sent or dead email and a claimed upload stay as they are |
| OutboundInvariant.OwnerIsForever | internal/email/store.go:333-342 | an upload never belongs to a second email |
| OutboundInvariant.AbandonedIsStuck | internal/email/queue.go:168-199 | an email in processing without a run stays exactly so until its workspace goes |
| DeliveryWorker.Outbox.MarkProcessing | internal/email/store.go:105-113 | the claim succeeds exactly when the status is queued or failed |
| DeliveryWorker.Outbox.Mark | internal/email/store.go:117-185 | a mark writes status, counters and event together, or is lost, or comes late |
| DeliveryWorker.Outbox.Deliver | internal/email/queue.go:115-209 | its own steps are a claim, one verdict and one mark; left alone it adds one attempt and asks for a retry exactly when it leaves the email failed, or, its read or claim failing, changes nothing and asks for a retry; row and trail then end with the provider's own answer, its message id or its reason, and a failure is final exactly when the budget is used up |
| DeliveryWorker.Outbox.HandleSend | internal/email/queue.go:94-110 | an unreadable payload is skipped, a missing budget is eight |
| DeliveryWorker.Outbox.RunTask | internal/email/queue.go:94-209 | re-run while it asks for it, with no mark lost and no claim left without an owner, a queued email ends sent or dead within maxRetry + 1 runs if and only if the last run got as far as an attempt; its attempts are the runs that did; dead only when the budget is used up |
| SendService.CountMeansAll | internal/email/store.go:304-327 | comparing the number of rows found with the number of ids is right: it holds exactly when the ids differ and all are loose uploads of the workspace |
| SendService.AcceptableIs | internal/email/service.go:163-168 | a request is acceptable exactly with at most fifty recipients and something other than white space in a body |
| SendService.TotalIs | internal/email/service.go:222-225 | the total is the sum of the sizes of the ids named |
| SendService.TotalPermutes | internal/email/service.go:222-225 | the summed size does not depend on the order of the rows |
| SendService.Service.CheckUploads | internal/email/service.go:209-229 | passes exactly distinct, loose uploads within the size limit |
| SendService.Service.Replay | internal/email/service.go:174-204 | a message found under the key is returned only if equal in every compared field and attachment, and gets its task if it was queued |
| SendService.Service.Place | internal/email/service.go:231-274 | a new message owns its uploads before it gets its task; a taken key gives its message back uncompared |
| SendService.Service.Send | internal/email/service.go:158-275 | a kept message, created or found equal, has the request's content and owns every upload named, all different; a new one is within the size limit and has its task; undisturbed, a free request is kept as new, and under a taken key a request gets the first message if and only if it asks for that, and is refused otherwise; too many recipients or an empty body are invalid and touch nothing |
| SendService.CutShortIsNoRepetition | internal/email/service.go:231-265 | a request with attachments cut short between row and claim is, through any run in which nobody attaches any, no repetition of itself |
| OneTimeCodes.GuessesBounded | internal/account/store.go:297-373 | wrong guesses against one code number at most maxAttempts * ceil((ttl + wait) / lockFor) over any run of calls |
| OneTimeCodes.BoundIsReached | internal/account/store.go:297-373 | for every positive ttl, lockout and budget and every wait there is a run with exactly that many wrong guesses |
| OneTimeCodes.DeployedBound | internal/account/service.go:29-47 | that is 7 without waiting, 14 with a wait up to 15 minutes |
| OneTimeCodes.LockIsFinalExactly | internal/account/store.go:326-338 | no run sees a code accepted after it locked if and only if ttl + wait is at most the lockout |
| OneTimeCodes.Codes.ConsumeOTP | internal/account/store.go:297-373 | one locked transaction, reply and live code in every case: a lock in force answers first, then expiry; a right code is used up, a wrong one counts, from one again after a lock, and locks when the budget is used up |
| OneTimeCodes.Codes.IssueToken | internal/account/store.go:242-261 | a new code replaces the live one with its counter and lock |
| OneTimeCodes.Codes.VerifyEmail | internal/account/service.go:267-297 | the code is used up exactly when it is the user's own live, unlocked, unexpired one; only then is the address marked proven, and not if that second write fails; no code, a lock, an expired code and the seventh wrong guess in a row each get their own answer |
| RateLimiter.CounterCounts | internal/ratelimit/ratelimit.go:65-77 | a key never expires inside its own window: there the counter is the number of actions so far |
| RateLimiter.AllowedExactly | internal/ratelimit/ratelimit.go:65-85 | an action is allowed exactly when fewer than limit actions with its name and key came before it in its window |
| RateLimiter.AllowedByCount | internal/ratelimit/ratelimit.go:65-85 | the same, as the size of the set of those earlier actions |
| RateLimiter.AdmittedCounts | internal/ratelimit/ratelimit.go:33-40 | what the bound counts: the actions of one rule and key in the interval that were allowed |
| RateLimiter.AdmittedBound | internal/ratelimit/ratelimit.go:33-40 | any half-open interval of length L admits at most limit * (ceil(L / window) + 1), so 2 * limit for one window |
| RateLimiter.TwoBudgets | internal/ratelimit/ratelimit.go:33-40 | 2 * limit is reached |
| RateLimiter.Limiter.Allow | internal/ratelimit/ratelimit.go:65-85 | counts, then decides; a refusal's wait is the refreshed life of the counter |
| RateLimiter.Limiter.AllowAll | internal/ratelimit/ratelimit.go:90-99 | charges every rule, allows only if all do, and otherwise reports the longest wait |
| PasswordSessions.LoginsAreCurrent | internal/account/initial_password.go:62-92 | in every interleaving of statements, every open session minted by a login was minted against the hash now stored |
| PasswordSessions.LockHolds | internal/account/initial_password.go:27-29 | while a transaction holds the user's row nobody else changes that account |
| PasswordSessions.UnlockedSessionSlipsIn | internal/account/service.go:431-441 | a session opened without the lock can outlive a revocation that ran just before |
| PasswordSessions.Accounts.Login | internal/account/service.go:187-209 | succeeds only with the password of a hash still stored at the end; undisturbed, a right password succeeds |
| PasswordSessions.Accounts.StartPasswordSession | internal/account/initial_password.go:63-92 | locks, compares, inserts; a changed hash is refused |
| PasswordSessions.Accounts.UpdatePassword | internal/account/store.go:188-211 | new hash, flag and revocation at one commit, after which no session minted by a login is open; with a free lock and nobody in between it succeeds exactly for an account with a password, and ends all its sessions and no other |
| PasswordSessions.Accounts.ChangeInitialPassword | internal/account/initial_password.go:13-60 | only while the initial password is in force and known, and to a different one; then one fresh session; with a free lock and nobody in between exactly then, and that session is the only one left open |
| HeaderLines.LinesOfJoin | internal/submission/server.go:270 | splitting at CRLF undoes joining, even for lines with a bare CR at their end |
| HeaderLines.HeaderEndsThere | internal/submission/server.go:236 | a block of lines, none empty, ends where the first CRLFCRLF stands |
| HeaderFields.SurvivingTwice | internal/submission/server.go:269-289 | filtering what was filtered changes nothing |
| HeaderFields.PickedSurvive | internal/submission/server.go:269-289 | dropping banned fields leaves every other field whole, continuation lines included |
| HeaderFields.FieldByField | internal/submission/server.go:282-287 | a header's fields are kept or dropped one by one, in order, continuation lines with them; dropped are bcc, return-path, received, authentication-results, dkim-signature and what begins with arc- |
| HeaderFields.LeadingLinesStay | internal/submission/server.go:269-288 | continuation lines before the first field stay |
| SubmissionHeaders.FilterLines | internal/submission/server.go:269-289 | the loop with its flag writes the lines of all fields that are not banned, and fails on a malformed or resent line |
| SubmissionHeaders.Prepare | internal/submission/server.go:235-293 | the outcome for every input: invalid, unreadable, denied, or the added and surviving lines with the body's bytes unchanged |
| SubmissionHeaders.WhenAccepted | internal/submission/server.go:235-268 | a message is accepted exactly with a header end within 131072 bytes, lines that pass, a parse, and an author who may send |
| SubmissionHeaders.LineOkIs | internal/submission/server.go:270-281 | which lines pass: continuations after a field, and fields with a name before the colon that is not a resent one |
| SubmissionHeaders.GoneFields | internal/submission/server.go:282-287 | no field of the output has one of the five names or begins with arc- |
| SubmissionHeaders.KeptFields | internal/submission/server.go:282-287 | every field under another name is the input's, whole and in order, besides the date and Message-ID added |
| SubmissionHeaders.AddedInFront | internal/submission/server.go:257-292 | the missing ones of date and Message-ID, and nothing else, are added in front; the body is untouched |
| SubmissionHeaders.Resplits | internal/submission/server.go:235-293 | the first CRLFCRLF of the output is its header end, its lines are those lines and its body the input's, exactly when a header line is left |
| SubmissionHeaders.SecondPass | internal/submission/server.go:235-293 | given its own output again, it is unchanged exactly when the parser finds a date and a Message-ID in it |
| SubmissionHeaders.PreparesOnce | internal/submission/server.go:235-293 | if it accepts its own output it returns it unchanged, when the parser sees the fields the CRLF split sees |
| SubmissionHeaders.HiddenDate | internal/submission/server.go:263-289 | for any two readings that differ so, a date behind a bare line feed in a banned field changes the second result |
| SubmissionHeaders.HeaderLost | internal/submission/server.go:269-291 | for any reading that finds an author, a header that is one banned field to the split leaves an output without a header |
| ParsedHeaders.HiddenDateIsRead | internal/submission/server.go:240-289 | whole messages, read as their bytes are, whose date and Message-ID are dropped and which `prepare` changes again |
| ParsedHeaders.LostHeaderIsRead | internal/submission/server.go:240-291 | whole messages, read as their bytes are, that lose their whole header |
| MimeTrees.UnspoiledIsComplete | internal/inbound/attachments.go:28-109 | if nothing spoils the listing it covers the whole tree and every attachment in it |
| MimeTrees.AttachmentsAreThere | internal/inbound/attachments.go:36-42 | ids are 1-based preorder positions, increasing, and every attachment has one |
| MimeTrees.IdsDiffer | internal/inbound/attachments.go:42 | no two items share an id |
| MimeTrees.ListedIs | internal/inbound/attachments.go:36-105 | an attachment is a leaf declared so or named, at most 32 levels down, in a known encoding, that decodes to at most 25 MiB; what else keeps a listing from being complete |
| MimeTrees.DecodedIs | internal/inbound/attachments.go:82-90 | the declared encoding, in any case and between white space, decides how a part is read |
| MimeTrees.OtherEncodings | internal/inbound/attachments.go:82-90 | only those six encodings are known |
| MimeTrees.EveryChildIsThere | internal/inbound/attachments.go:49-66 | the tree covered starts at the root and has, with a multipart node, each of its parts one level down |
| MimeTrees.FileNameIs | internal/inbound/attachments.go:45-81 | the declared file name, else the type's, character by character with bad ones replaced, cut at 200; a stand-in with the id for an empty or dot name |
| MimeTrees.FileNameIsSafe | internal/inbound/attachments.go:69-81 | a file name is never empty, a dot name, over 200 characters, nor has a separator or control character |
| AttachmentScanner.MetFromStart | internal/inbound/attachments.go:37-41 | counting in preorder up to the limit collects the attachments of the first 256 nodes, and is incomplete exactly when a node is left or one spoils it |
| AttachmentScanner.Scanner.Walk | internal/inbound/attachments.go:36-107 | the recursive walk with its counters refines the pure preorder, and keeps only the selected bytes |
| AttachmentScanner.ScanAttachments | internal/inbound/attachments.go:28-109 | items and the incomplete flag are those of the tree, whatever is selected; when not incomplete, items are exactly the attachments of the whole tree, without limits |
| AttachmentScanner.Attachment | internal/inbound/attachments.go:111-123 | a listed id always downloads, with as many bytes as its size says; an id not listed does not |
| Text.TrimSpaceIs | internal/inbound/folders.go:19 | trimming takes exactly the white space off both ends |
| Text.DecimalInjective | internal/inbound/attachments.go:42 | different positions are written differently |

## Left out

- Access checks, bcrypt, DKIM, S3, SMTP and TLS sockets, `net/mail`, go-imap and asynq are not part of this model; each
  appears as a parameter, a flag or an oracle.
- The EXPUNGE responses go-imap itself sends after an EXPUNGE; the session model drops the same entries from both sides.
- COPY, SEARCH, LIST, IDLE and subscription: single queries or a loop around operations that are modelled.
- Deleting a whole mailbox, and the drawing of a uidvalidity as a step apart from its folder's commit.
- Row locks inside Postgres beyond the advisory lock and the user's row: the machine allows more interleavings than they do.
- Outbound: loading attachments and the DKIM key is one yes or no before the provider call; validator tags are one flag.
- OutboundInvariant.EveryTrail: the trail is in the order of commits; `Store.Events` sorts by `created_at`, the time each
  transaction began, and of two that overlap it may show the later one first.
- LmtpDelivery.Session.Data: MAIL and RCPT address parsing is a lookup that succeeds or not.
- OneTimeCodes.GuessesBounded: every call finds the same live code; a code replaced while a call waits is simply not found.
- RateLimiter.Limiter.Allow: a working counter store, exact time, no overlap between a rule's name and key in the text of
  a Redis key, and no other caller between the count and the reading of its life.
- PasswordSessions.Accounts.ChangeInitialPassword: the deletion of pending reset tokens is not modelled.
- ParsedHeaders.HiddenDateIsRead: the reader knows lines, continuations, names and values; what `net/mail` refuses as
  malformed is not modelled.
- SubmissionHeaders.Prepare: header names are compared in ASCII; the author check and the parse result are parameters, and
  the session around it (authentication, quota, signing, relay) is not modelled.
- AttachmentScanner.ScanAttachments: the tree, the decoded bytes and the decoded file names are given; control characters are
  those of ISO 8859-1.
- Which attachments a message has when concurrent requests reuse one key for different messages: the code does not promise it.
- DKIM rotation, domain verification, workspace roles, search and presentation would add only easy members.
