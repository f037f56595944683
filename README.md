# Email archiver and Frigate alerts: a verified model

This project models two programs of a home server and proves properties of
the model.

**The email archiver** (`email-backup/`) copies every Gmail message that
carries a backup label into a local SQLite store:

- the raw `.eml` file is written under `raw/<year>/<month>/` (or `raw/unknown/`);
- attachments are written under `attachments/<key[:2]>/<key>/`, and optionally
  exported to a Paperless consume directory;
- an `emails` row, one `attachments` row per attachment, and an FTS5 index
  kept in step by three triggers.

A retention pass trashes remote messages older than the retention period
unless they carry the keep label. It flags their local rows as deleted from
Gmail and logs the run in `cleanup_runs`. A dry run only counts.

**The Frigate alert daemon** (`frigate/frigate-alerts/alerts.py`) turns new
MQTT detection events into ntfy notifications. It holds a per-camera-and-label
cooldown, parses `df` output to warn when the recording cache fills (with its
own hourly cooldown), and recognises `restart`, `clear-cache` and `status`
commands.

The modules follow the programs:

| module | file | models |
|---|---|---|
| `Wrappers`, `Seqs` | wrappers.dfy, seqs.dfy | `Option`/`Result`, two sequence facts |
| `Text` | text.dfy | `str.strip`/`split`/`join`/`lower`, `int()` |
| `Files` | files.dfy | the written files as a map from path to bytes |
| `Mime` | mime.dfy | body text, attachment records, date epoch, message key, raw bucket |
| `Mailbox` | mailbox.dfy | the Gmail API as labels, listing answers and fetch/trash oracles; pagination |
| `Ordering` | ordering.dfy | `ORDER BY key DESC LIMIT k` |
| `Store` | store.dfy | tables, FTS index and triggers, a `Connection` with pending and committed state, `print_stats` |
| `Backup` | backup.dfy | `backup_emails`, `search_emails`, `main` of backup.py |
| `Cleanup` | cleanup.dfy | `cleanup_old_emails` with and without dry run, `main` of cleanup.py |
| `Alerts` | alerts.dfy | the alert daemon's cooldowns, headers, `df` parsing, event and command filters |

The sync, extraction and retention loops of the source are methods. Each
sync and retention loop is proved equal to a fold of a one-step function over
the ids that pagination yields: `Backup.Step` with
`Backup.SyncIds`, and `Cleanup.Step` with `Cleanup.Sweep`. The properties
are lemmas about those folds.

The store follows the code as written. Nothing rolls back. A message whose
insert succeeded but whose `commit()` raised leaves pending rows. These rows
become durable with the next successful commit (`Backup.FailedCommitLandsLater`).
Files are written before the insert, so a message that then fails still
leaves its files (`Backup.DuplicateMessageId`).

A dry run does not always preview the real run's counts. Both runs keep the
same messages. But a message whose `trash()` call or commit raises counts as
deleted in the dry run and as a failure in the real run
(`Cleanup.DryRunCountsDifferOnTrashFailure`). The counts agree exactly when
no trash call and no commit fails (`Cleanup.DryRunPreviewsCounts`).

## Model

| member | source | states |
|---|---|---|
| `Mailbox.LabelIdOf` | email-backup/email_common.py:181-187 | `None` exactly when no label has the name; otherwise the id of the first label with that name |
| `Mailbox.PaginateStopsAt` | email-backup/backup.py:293-387 | pagination handles the pages up to and including the first page that has no next call (an error, an empty page, no token, or the end); it fails exactly when it stopped on a listing error |
| `Mime.DecodePart` | email-backup/email_common.py:205-210 | an unknown charset (`LookupError`) falls back to UTF-8 decoding |
| `Mime.BodyPiecesAppend` | email-backup/email_common.py:199-211 | body pieces are collected in walk order: the pieces of a concatenated walk are the concatenated pieces |
| `Mime.BodyIgnoresOtherParts` | email-backup/email_common.py:199-211 | adding a part anywhere that is not plain text, is named, or has an empty payload leaves the multipart body unchanged |
| `Mime.BodyPiecesCount` | email-backup/email_common.py:199-211 | at most one piece per part; no piece when no part is a body part |
| `Mime.OneBodyPart` | email-backup/email_common.py:199-211 | with one body part, the body is that part's decoded text, with no separator |
| `Mime.ExtractBodyText` | email-backup/email_common.py:197-221 | the loop computes the newline join of the decoded body parts; a single part with an empty payload and a multipart message without body parts both give `""` |
| `Mime.SafeFilenameShape` | email-backup/email_common.py:243-245 | the sanitised name has the input's length; every character is alphanumeric or one of `.-_ `; a character is kept exactly when it is allowed |
| `Mime.SafeFilenameIdempotent` | email-backup/email_common.py:243-245 | a name of allowed characters is unchanged, so sanitising twice is sanitising once |
| `Mime.Prefix2` | email-backup/email_common.py:240 | `key[:2]` is the first two characters, or the whole key when it is shorter |
| `Mime.AttachmentsAppend` | email-backup/email_common.py:228-266 | records and file writes come out in part-walk order |
| `Mime.AttachmentRecordsSound` | email-backup/email_common.py:229-264 | at most one record per part; every record has a filename and a positive size; its path is `root/key[:2]/key/safe_filename`; it is flagged exported exactly when the consume dir is set and exists; no attachment parts means no records |
| `Mime.RecordOfPart` | email-backup/email_common.py:238-264 | a record's size is its payload's length and its digest is the payload's SHA-256 |
| `Mime.ExtractAttachments` | email-backup/email_common.py:224-266 | the loop returns the records of the walk and writes each payload to its local path and, when exporting, to `consume_dir/key_safe_filename` |
| `Mime.ParseDateEpoch` | email-backup/email_common.py:269-277 | an empty or unparsable date gives 0; a date the parser accepts gives exactly the parser's value |
| `Mime.MessageKey` | email-backup/backup.py:321-323 | the key is 16 lower-case hex digits, the head of the Message-ID's SHA-256 |
| `Mime.RawBucket` | email-backup/backup.py:336-340 | the bucket is `unknown` exactly when the epoch is 0, otherwise a seven-character `YYYY/MM` text |
| `Files.ApplyWritesLast` | email-backup/email_common.py:246-254 | the final write of a series decides its path's contents; a path never written keeps its old contents (or stays absent) |
| `Files.ApplyWritesLastAt` | email-backup/email_common.py:246-254 | after any series of writes, a path holds the data of the last write to it, wherever that write falls in the series |
| `Files.Disk.WriteBytes` | email-backup/email_common.py:247 | the path now holds the data; other paths are unchanged |
| `Store.IndexOfKeys` | email-backup/email_common.py:150-157 | the index has an entry for exactly the rowids of the rows |
| `Store.IndexOfAppend` | email-backup/email_common.py:159-162 | the insert trigger indexes the new rowid with the row's subject, sender, recipients and body |
| `Store.IndexOfRemove` | email-backup/email_common.py:164-167 | the delete trigger drops exactly the removed rowid from the index |
| `Store.IndexOfUpdate` | email-backup/email_common.py:169-174 | the update trigger replaces exactly that rowid's entry with the new columns |
| `Store.InsertEmailConsistent` | email-backup/email_common.py:110-162 | an insert fails exactly on a duplicate `message_id` or `gmail_id`; a successful one keeps rowids ascending, keys unique and the index equal to the rows' projection, and stores the `gmail_id` |
| `Store.MarkDeletedEffect` | email-backup/cleanup.py:86-89 | the `UPDATE` flags the rows with that `gmail_id` and changes no other row or column; with no such row the tables are unchanged; the schema guarantees still hold |
| `Store.MarkDeletedConsistent` | email-backup/email_common.py:169-174 | flagging rows keeps rowids, key uniqueness and the index consistent |
| `Store.RemoveConsistent` | email-backup/email_common.py:164-167 | deleting a row together with its index entry keeps the schema guarantees |
| `Store.UpdateConsistent` | email-backup/email_common.py:169-174 | replacing a row's non-key columns and re-indexing it keeps the schema guarantees |
| `Store.Connection.Open` | email-backup/email_common.py:102-178 | the connection sees and has committed the persisted tables |
| `Store.Connection.Exists` | email-backup/backup.py:306-308 | true exactly when some row has the `gmail_id` |
| `Store.Connection.HasConflict` | email-backup/email_common.py:111-112 | true exactly when an insert would violate the PRIMARY KEY or the UNIQUE constraint |
| `Store.Connection.InsertEmailRow` | email-backup/backup.py:351-363 | succeeds exactly when the pure insert does, with the resulting tables; nothing is committed |
| `Store.Connection.InsertAttachmentRow` | email-backup/backup.py:366-375 | appends one `attachments` row; nothing is committed |
| `Store.Connection.MarkDeletedFromGmail` | email-backup/cleanup.py:86-89 | the loop over rows yields `MarkDeleted` of the old tables and keeps the index consistent |
| `Store.Connection.DeleteByGmailId` | email-backup/email_common.py:164-167 | removes the row with that `gmail_id`, if any, and only it, keeping the others in order; the index follows |
| `Store.Connection.AppendCleanupRunRow` | email-backup/cleanup.py:109-118 | appends one `cleanup_runs` row; nothing is committed |
| `Store.Connection.Commit` | email-backup/backup.py:377 | on success everything pending is durable; on failure nothing changes and the pending writes stay |
| `Store.CountDeleted` | email-backup/email_common.py:285 | the deleted count is the number of row positions whose `deleted_from_gmail` flag is set, so it never exceeds the row count |
| `Store.CountWithAttachments` | email-backup/email_common.py:286 | the with-attachments count is the number of row positions whose `has_attachments` flag is set, so it never exceeds the row count |
| `Store.CountDeletedAppend` | email-backup/email_common.py:285 | the deleted count of two sets of rows is the sum of their counts |
| `Store.CountWhereAll` | email-backup/email_common.py:285-286 | counting the rows that satisfy a condition gives the size of the set of positions where it holds |
| `Store.SumAttachmentCountAppend` | email-backup/email_common.py:287 | the attachment total of two sets of rows is the sum of their totals, and one row contributes its own `attachment_count` |
| `Store.WithAttachmentsBounded` | email-backup/email_common.py:286-287 | when `has_attachments` is set exactly for rows with a positive `attachment_count`, the with-attachments count never exceeds the attachment total |
| `Store.MinTextSpec` | email-backup/email_common.py:288 | `MIN(date)` over a non-empty table is the date of some row and orders before or equal to every row's date as text |
| `Store.MaxTextSpec` | email-backup/email_common.py:289 | `MAX(date)` over a non-empty table is the date of some row and orders after or equal to every row's date as text |
| `Store.StatsOfValues` | email-backup/email_common.py:282-293 | on a non-empty table the deleted and with-attachments sums are the numbers of rows with the flag set, and the oldest and newest dates are the text minimum and maximum, each held by some row |
| `Store.StatsOf` | email-backup/email_common.py:282-293 | `total` is the row count; on an empty table the sums and the date range are NULL, and the deleted sum is NULL only then; the counts are bounded by `total` |
| `Store.TextLeTotal` | email-backup/email_common.py:288-289 | TEXT comparison is total, so `MIN`/`MAX` of the date text are defined |
| `Store.TextDateRangeMisorders` | email-backup/email_common.py:288-289 | for two concrete dated rows, the statistics report the newer date as oldest and the older as newest |
| `Store.EpochRange` | email-backup/email_common.py:288-289 | the corrected range: it bounds every row's `date_epoch`, and both ends are attained |
| `Store.RecentCleanupRunsSpec` | email-backup/email_common.py:302-307 | at most 10 runs, latest `run_at` first, all from the table, and no run left out that is later than one shown |
| `Ordering.InsertDesc` | email-backup/backup.py:498 | inserting into a descending sequence keeps it descending and adds exactly the element |
| `Ordering.SortDesc` | email-backup/backup.py:498 | the result is descending by key and a permutation of the input |
| `Ordering.TopDescSpec` | email-backup/backup.py:498-499 | `ORDER BY key DESC LIMIT n` returns `min(n, size)` rows, descending, from the input, all of them when there are few enough, and no left-out row has a larger key than a returned one |
| `Ordering.TopDescLeavesOut` | email-backup/backup.py:498-499 | a row is left out only when `n` rows came back, none with a smaller key |
| `Text.LStripDrops` | frigate/frigate-alerts/alerts.py:120 | `lstrip()` drops a whitespace-only prefix and nothing more |
| `Text.RStripWhile` | frigate/frigate-alerts/alerts.py:125 | `rstrip(chars)` keeps a prefix, drops only stripped characters, and leaves no stripped character at the end |
| `Text.StripBorders` | frigate/frigate-alerts/alerts.py:263 | `strip()` leaves no whitespace at either end |
| `Text.JoinSnoc` | email-backup/email_common.py:211 | joining one more piece appends the separator and the piece |
| `Text.SplitOn` | frigate/frigate-alerts/alerts.py:120 | `split('\n')` always gives at least one piece |
| `Text.SplitOnJoin` | frigate/frigate-alerts/alerts.py:120 | joining the pieces of `split(c)` with `c` gives back the text, and no piece contains `c` |
| `Text.WordSpec` | frigate/frigate-alerts/alerts.py:123 | the first word is a whitespace-free prefix ending at whitespace or at the end |
| `Text.SplitWsFields` | frigate/frigate-alerts/alerts.py:123 | every field of `split()` is non-empty and has no whitespace |
| `Text.SplitWsJoin` | frigate/frigate-alerts/alerts.py:123 | fields joined by single spaces split back into the same fields |
| `Text.NatText` | frigate/frigate-alerts/alerts.py:92 | a number renders as a non-empty run of decimal digits |
| `Text.ParseNatText` | frigate/frigate-alerts/alerts.py:126 | `int()` reads back the rendered number |
| `Text.ParseInt` | frigate/frigate-alerts/alerts.py:126 | `int()` succeeds exactly on an optional sign followed by one or more ASCII digits (so `80%` raises until the `%` is stripped); a negative value needs a leading `-` |
| `Text.DigitsValueLeading` | frigate/frigate-alerts/alerts.py:126 | a leading digit contributes its value times ten to the power of the number of digits after it |
| `Text.ParseIntValue` | frigate/frigate-alerts/alerts.py:126 | digits read as their positional decimal value; a `+` keeps it, a `-` negates it, and a leading zero changes nothing |
| `Text.LowerKeeps` | frigate/frigate-alerts/alerts.py:263 | `lower()` moves no whitespace and is idempotent |
| `Backup.StepCountsOne` | email-backup/backup.py:302-383 | each listed id moves exactly one of backed-up, skipped, failed by one; it is skipped exactly when it is already stored |
| `Backup.SyncIdsCounts` | email-backup/backup.py:302-383 | over a run the three counters together grow by the number of ids handled, so a failure never stops the loop |
| `Backup.SkipWithoutFetch` | email-backup/backup.py:305-311 | a stored id only increments `total_skipped`, and the outcome does not depend on the fetch |
| `Backup.SyncIdsInv` | email-backup/backup.py:351-377 | a run keeps both views of the store consistent and the committed rows a prefix of the live ones |
| `Backup.SyncIdsKeepsRows` | email-backup/backup.py:302-383 | a run never drops a stored row |
| `Backup.DuplicateMessageId` | email-backup/backup.py:342-383 | a message whose Message-ID is already stored counts as failed, adds no row, but its raw and attachment files stay written |
| `Backup.FailedCommitLandsLater` | email-backup/backup.py:351-383 | a message whose commit raised counts as failed; its row is visible to the connection but not committed, and the next backed-up message commits it |
| `Backup.CleanRunStoresAll` | email-backup/backup.py:302-383 | after a run without failures every handled id is stored |
| `Backup.StoredIdsOnlySkip` | email-backup/backup.py:305-311 | ids that are all stored change nothing but `total_skipped` |
| `Backup.RerunIsIdempotent` | email-backup/backup.py:302-383 | re-running over the same ids after a run without failures only counts skips |
| `Backup.MissingLabelListsNothing` | email-backup/backup.py:279-282 | a missing or empty backup label ends the run before any listing |
| `Backup.PreparedRow` | email-backup/backup.py:321-363 | the row's Message-ID falls back to the remote id; the key hashes it; the raw file is under `unknown` exactly when the epoch is 0; the attachment flag and count describe the records; the row is not marked deleted |
| `Backup.EmlPathBucket` | email-backup/backup.py:336-344 | the `.eml` path is under `raw/unknown/` exactly when the epoch is 0 |
| `Backup.BackupMessage` | email-backup/backup.py:302-383 | one iteration computes `Step` on the store, the files and the counters |
| `Backup.StoreMessage` | email-backup/backup.py:313-383 | once fetched, deriving the fields, writing the files, inserting and committing compute `Ingest` |
| `Backup.InsertAttachmentRows` | email-backup/backup.py:365-375 | the loop appends one `attachments` row per record, in order, and commits nothing |
| `Backup.InsertMessage` | email-backup/backup.py:351-383 | the inserts and the commit compute `Insert`: an integrity error or a failed commit counts as failed |
| `Backup.BackupPage` | email-backup/backup.py:302-383 | the inner loop folds `Step` over one page |
| `Backup.BackupListing` | email-backup/backup.py:293-387 | the paging loop handles exactly the ids pagination yields and reports a listing error |
| `Backup.BackupEmails` | email-backup/backup.py:277-392 | the whole of `backup_emails` computes `Run`: the label check, then the fold over the listing |
| `Backup.MatchingSound` | email-backup/backup.py:493-497 | the join yields exactly the stored rows whose index entry matches |
| `Backup.AllRowsIndexed` | email-backup/backup.py:496 | in a consistent store every row is indexed under its rowid with its own columns |
| `Backup.SearchOrdered` | email-backup/backup.py:493-500 | at most 50 results, newest `date_epoch` first |
| `Backup.SearchSound` | email-backup/backup.py:493-500 | every result is a stored row whose indexed columns match the query |
| `Backup.SearchComplete` | email-backup/backup.py:493-500 | a matching row is missing only when 50 rows came back, none older than it |
| `Backup.DisplaySpec` | email-backup/backup.py:510-515 | the preview is the first `min(120, len(snippet))` characters of the snippet; the subject line is the subject followed by ` [+att]` exactly for rows with attachments; date and sender are shown unchanged |
| `Backup.MainPlanSpec` | email-backup/backup.py:558-592 | the exit status is 0 exactly when a command is given, is known, has what it needs and ran to its end without raising; the store is closed only then; statistics are printed exactly after a normal `backup`, `cleanup` or `stats`; the store is opened whenever a command is given; the query is the remaining arguments joined by spaces |
| `Backup.MainBackupExit` | email-backup/backup.py:277-300 | `backup` exits with status 1 exactly when the label is missing or listing a page raised; with a missing label no statistics are printed |
| `Backup.MainCleanupExit` | email-backup/backup.py:566-570 | `cleanup` exits with status 1, without statistics, exactly when committing the audit row raised (backup.py:474-486); a listing error is caught and does not change the status |
| `Cleanup.StepCounts` | email-backup/cleanup.py:59-97 | each candidate moves exactly one count by one, as its verdict says |
| `Cleanup.SweepTally` | email-backup/cleanup.py:59-97 | a sweep's counts are the tally of its candidates' verdicts |
| `Cleanup.TallyHandlesAll` | email-backup/cleanup.py:59-97 | deleted, kept and failed together grow by the number of candidates |
| `Cleanup.TallyKept` | email-backup/cleanup.py:68-72 | `kept` counts exactly the candidates carrying the resolved keep label; without the label nothing is kept |
| `Cleanup.DryRunPreviewsCounts` | email-backup/cleanup.py:70-92 | dry and real runs agree on `kept` and on deleted plus failed; the dry run never deletes fewer; with no trash or commit failure the counts are equal |
| `Cleanup.DryRunCountsDifferOnTrashFailure` | email-backup/cleanup.py:79-97 | a candidate whose trash call raises is deleted in the dry run and not in the real run |
| `Cleanup.SweepKeepsBackups` | email-backup/cleanup.py:84-92 | a sweep keeps the schema guarantees, removes no local row, flags exactly the rows of trashed ids, and leaves attachments and the run log alone |
| `Cleanup.SweepTrashes` | email-backup/cleanup.py:70-84 | the trashed ids are exactly the listed candidates that a real run fetched, found without the keep label and trashed without error, in listing order |
| `Cleanup.TrashedIdsMembers` | email-backup/cleanup.py:70-84 | an id is trashed exactly when it is listed and eligible; a dry run trashes nothing |
| `Cleanup.SweepFlagsTrashed` | email-backup/cleanup.py:70-92 | after the sweep every row keeps its place and rowid, and its `deleted_from_gmail` flag is set exactly when it was set before or its id was trashed |
| `Cleanup.DryRunTouchesNothing` | email-backup/cleanup.py:79-82 | a dry run changes only the counts |
| `Cleanup.RunAudit` | email-backup/cleanup.py:107-129 | a real run appends one `cleanup_runs` row with the final counts, cutoff and retention days, even after a listing failure, and notifies when that row is committed; a dry run changes nothing, logs nothing, notifies nobody |
| `Cleanup.RunLogsOnce` | email-backup/cleanup.py:107-119 | from a consistent store a real run adds exactly one `cleanup_runs` row, keeps every email row and stays consistent |
| `Cleanup.CleanupMainSpec` | email-backup/cleanup.py:132-141 | the pass is a dry run exactly when some argument is `--dry-run`; statistics are printed and the store closed exactly when the pass did not raise, and the exit status is 1 exactly when it raised |
| `Cleanup.CleanupMainExit` | email-backup/cleanup.py:119-141 | `main` exits with status 1, without statistics, exactly when a real run's audit-row commit raises; a dry run always reaches the statistics |
| `Cleanup.CleanupMessage` | email-backup/cleanup.py:59-97 | one iteration computes `Step`: fetch the labels, keep, count, or trash, flag and commit |
| `Cleanup.FlagTrashed` | email-backup/cleanup.py:86-92 | after a successful trash: the row is flagged, the id recorded, and the candidate counts as deleted exactly when the commit succeeds (a failed one leaves the flag pending) |
| `Cleanup.CleanupPage` | email-backup/cleanup.py:59-97 | the inner loop folds `Step` over one page |
| `Cleanup.CleanupListing` | email-backup/cleanup.py:46-105 | the paging loop handles exactly the ids pagination yields; a caught listing error ends it |
| `Cleanup.CleanupOldEmails` | email-backup/cleanup.py:28-129 | the whole call computes `Run`: the store, the trash calls, the counts, the listing error, the audit commit and the notice |
| `Cleanup.LegacyCleanupOldEmails` | email-backup/backup.py:395-488 | the older copy is the same pass, never dry, and never notifies |
| `Alerts.Dispatch` | frigate/frigate-alerts/alerts.py:294-307 | a detection is produced exactly for a decoded `new` event about an alert object with a non-empty id; a missing camera reads `None` |
| `Alerts.AdmitSpec` | frigate/frigate-alerts/alerts.py:37-40 | a suppressed call, within the cooldown of the key's last alert, leaves the dict unchanged; otherwise the key gets `now`; no other key changes |
| `Alerts.CooldownSpec` | frigate/frigate-alerts/alerts.py:34-35 | dogs and cats wait `PET_COOLDOWN_SECONDS` (300 by default), everything else 60 seconds |
| `Alerts.ReplaySpacing` | frigate/frigate-alerts/alerts.py:30-40 | with a clock that does not run backwards, two notifications for one key are at least the later one's cooldown apart, and only alert objects are notified |
| `Alerts.HeadersSpec` | frigate/frigate-alerts/alerts.py:42-56 | title and clip link; pets at `low` priority tagged with their label, others at `default` without tags |
| `Alerts.Notice` | frigate/frigate-alerts/alerts.py:58-78 | the snapshot is the body with a `Filename` header when fetched with status 200, the text otherwise; nothing is posted when the fetch raised |
| `Alerts.DiskUsageSpec` | frigate/frigate-alerts/alerts.py:119-138 | a usage is read only from a successful run with at least two lines and five fields on the second |
| `Alerts.DfRoundTrip` | frigate/frigate-alerts/alerts.py:119-126 | parsing `df`'s usual output gives back the percentage it printed |
| `Alerts.CheckDisk` | frigate/frigate-alerts/alerts.py:109-138 | an alert goes out exactly when the usage is at least 80 and an hour has passed since the last one, which then becomes `now` |
| `Alerts.Alerter.constructor` | frigate/frigate-alerts/alerts.py:26-27 | no alert sent yet; the last disk alert is at time 0 |
| `Alerts.Alerter.SendNotification` | frigate/frigate-alerts/alerts.py:30-78 | updates `last_alert` as `Admit` says and returns the notice unless suppressed |
| `Alerts.Alerter.OnMessage` | frigate/frigate-alerts/alerts.py:294-310 | a dispatched detection goes through the cooldown and yields its notice; anything else changes nothing |
| `Alerts.Alerter.SendDiskNotification` | frigate/frigate-alerts/alerts.py:80-107 | posts, and records `now`, exactly when an hour has passed since the last disk alert |
| `Alerts.Alerter.CheckDiskUsage` | frigate/frigate-alerts/alerts.py:109-138 | returns the parsed usage and computes `CheckDisk` on the daemon's state |
| `Alerts.Received` | frigate/frigate-alerts/alerts.py:258-264 | only `message` events carry a command; a missing message reads as the empty text |
| `Alerts.NormalizeIdempotent` | frigate/frigate-alerts/alerts.py:263 | stripping and lower-casing twice is doing it once |
| `Alerts.CommandOfNormalized` | frigate/frigate-alerts/alerts.py:263-280 | a command means the same after normalising; an unknown command is none of the known ones and carries its normalised text |
| `Alerts.ClearCacheExample` | frigate/frigate-alerts/alerts.py:263-269 | `" Clear_Cache\n"` selects the clear-cache action |

## Left out

- OAuth and token handling (`get_gmail_service`) is not modelled. The Gmail API is an oracle: a label list, successive listing answers per query, and fetch, label and trash answers per id. A listing, fetch, label or trash call that raises is an explicit failure value.
- SHA-256, charset decoding, RFC 5322 date parsing and `%Y/%m` formatting are opaque library functions passed in. The digest is typed as 64 lower-case hex digits.
- `datetime.now` is a parameter. The cleanup cutoff query, the logged cutoff day and `run_at` come in as a `Clock`. `run_at` is an integer instant rather than ISO text, and its order stands for the order of the ISO strings.
- Filesystem directories (`mkdir`) are not modelled; the files are a map from path to bytes. Whether the consume directory exists is an input.
- SQLite internals are abstracted: WAL mode, FTS5 tokenisation and `MATCH`. A query is an arbitrary predicate on the indexed columns.
- `send_ntfy` and every `requests.post` are left out. A post is returned as a value and never sent, and its failure (swallowed by the source) has no effect on the model. `Cleanup.CleanupOldEmails` only reports whether the notice would be sent. A skipped `send_ntfy` because `NTFY_TOPIC` is unset is not distinguished.
- `print` and `log` output is not modelled, nor is `print_stats`' formatting (`run_at[:10]`). The print loops of `search_emails` and `print_stats` are not modelled as loops: the model states the rows they print (`Backup.Display`, `Store.RecentCleanupRuns`).
- The alert daemon's threads are left out: `disk_monitor_loop`, `codebase_watch_loop` and `command_listener_loop`. So are MQTT connection handling, `docker` subprocess calls, mtime polling, and the `restart`, `clear-cache` and `status` handlers' side effects. Only command recognition is modelled.
- JSON decoding is opaque: a payload that does not decode, or is not an object, is `None`. A `label`, `camera` or `id` that is not a string is not modelled.
- Time in the alert daemon is a `real` parameter that stands for `time.time()`. Floating-point rounding is not modelled.
- `PET_COOLDOWN_SECONDS`, `NTFY_TOPIC` and `FRIGATE_URL` are configuration values; `DefaultConfig` holds their defaults. `RETENTION_DAYS` and `KEEP_LABEL` are inputs of a cleanup request.
- Character classes (`isspace`, `isalnum`, `lower`) follow Python on ASCII, with whitespace also on Latin-1. Python's Unicode tables are not modelled.
- Text.ParseInt: accepts an optional sign and ASCII decimal digits only. Python's `int()` also accepts surrounding whitespace, underscores between digits and non-ASCII digits. The `df` field it reads never holds whitespace.
- Mime.DecodePart: states only the `LookupError` fallback, since the decoding itself is a library function.
- Cleanup.DryRunPreviewsCounts: dry and real runs have equal counts only when no trash call and no commit fails, so equality is proved under that condition. `Cleanup.DryRunCountsDifferOnTrashFailure` shows the counts can differ.
- `listener.py` (the subprocess dispatch and the `_running` flag) is not part of this model.
- Configured roots (`BACKUP_STORAGE_PATH`, `PAPERLESS_CONSUME_DIR`) are taken as already normalised. The model builds paths by joining with `/`. `pathlib` (email_common.py:43-44, 240 and 252) would also drop a trailing `/` or `.` segments, so with a root of `/data/` the source stores `/data/attachments/...` where the model would store `/data//attachments/...`.
- The label-list call (`labels().list()` at backup.py:174 and email_common.py:183) cannot fail in the model: `Mailbox.labels` is a plain list. In the source, `get_label_id` makes that call outside any `try`. It is reached from backup.py:279, backup.py:398 and cleanup.py:30. A raise there ends the program with status 1 before any listing. So `Backup.MainBackupExit`, `Backup.MainCleanupExit` and `Cleanup.CleanupMainExit` state the exit status over label lists that were returned.
- Files.Disk.WriteBytes: a write never fails in the model. In the source, an `OSError` from `write_bytes` (backup.py:344, email_common.py:247 and 254) is caught by the per-message `except`. Examples are an attachment named `..` (`IsADirectoryError`) and a file name over 255 bytes. The message then counts as failed, no row is inserted, and the files written before the error stay on disk. The model stores such a message.
- Store.Connection.DeleteByGmailId: models the `AFTER DELETE` trigger (email_common.py:164-167), which keeps the index in step. No code path of the program issues a `DELETE`. `nextRowid` only grows, while SQLite hands out `max(rowid)+1` and so may reuse the rowid of a deleted last row.
- `backed_up_at` is one `env.now` for the whole run, while the source calls `datetime.now` for each message (backup.py:362).
- The skip check (backup.py:306-308) runs outside the per-message `try`, so a database error there ends the whole run with a traceback. The model's skip check cannot fail.
- Alerts.Received: a JSON `null` message reads as the empty text. In the source, `msg.get("message", "")` returns `None` for it, and `.strip()` raises `AttributeError`, which ends the listener's current connection.

## Findings

The same query is repeated in `print_stats` of email-backup/backup.py (lines 527-528).


| source | as written | input that shows it | evidently intended | confidence | as-written member | corrected member |
|---|---|---|---|---|---|---|
| email-backup/email_common.py:288-289 | `MIN(date)` and `MAX(date)` compare the `Date:` header as TEXT, and that text begins with the weekday name | rows dated `Wed, 01 Jan 2020 00:00:00 +0000` and `Fri, 01 Jan 2021 00:00:00 +0000`: the 2021 message is reported as oldest and the 2020 one as newest | the range of the messages' instants, from `date_epoch` | not executed | `Store.TextDateRangeMisorders` | `Store.EpochRange` |
