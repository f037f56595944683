/**
 * The archiver's command-line program (email-backup/backup.py): the sync
 * loop `backup_emails`, `search_emails` and the command dispatch of `main`.
 *
 * The sync loop is specified by `Step`, what one listed id does to the
 * store, the files and the counters, folded over the ids that pagination
 * yields (`SyncIds`, `Run`); `BackupMessage` and `BackupEmails` are the
 * loop itself, proved to compute exactly that.
 */
module Backup {
  import opened Wrappers
  import opened Text
  import opened Files
  import opened Ordering
  import Mime
  import opened Mailbox
  import opened Store
  import opened Seqs
  import Cleanup

  /** `BACKUP_STORAGE_PATH`, `EMAIL_BACKUP_LABEL` and the export target. */
  datatype Config = Config(storage: string, backupLabel: string, exportTo: Mime.Export)

  function RawRoot(cfg: Config): string { cfg.storage + "/raw" }

  function AttachmentsRoot(cfg: Config): string { cfg.storage + "/attachments" }

  /**
   * What one run depends on besides the store and the disk: the library
   * routines, the configuration, the mailbox, the `backed_up_at` text of
   * `datetime.now(...).isoformat()`, and which messages' `conn.commit()` raises.
   */
  datatype Env = Env(
    lib: Mime.Library, cfg: Config, mailbox: Mailbox, now: string, commitFails: GmailId -> bool)

  /** `total_backed_up`, `total_skipped`, and the messages logged as failed. */
  datatype Summary = Summary(backedUp: nat, skipped: nat, failed: nat)

  function Handled(s: Summary): nat { s.backedUp + s.skipped + s.failed }

  /** What the loop changes: the connection's view, the committed tables, the files, the counters. */
  datatype SyncState = SyncState(live: Tables, committed: Tables, files: map<string, Bytes>, summary: Summary)

  /** Everything `backup_emails` derives from a fetched message before the insert. */
  datatype Prepared = Prepared(row: EmailRow, key: string, emlPath: string, records: seq<Mime.AttachmentRecord>)

  function Prepare(lib: Mime.Library, cfg: Config, now: string, g: GmailId, f: Fetched): Prepared {
    var h := f.email.headers;
    var messageId := h.messageId.GetOr(g);
    var key := Mime.MessageKey(lib, messageId);
    var date := h.date.GetOr("");
    var epoch := Mime.ParseDateEpoch(lib, date);
    var emlPath := RawRoot(cfg) + "/" + Mime.RawBucket(lib, epoch) + "/" + key + ".eml";
    var records := Mime.AttachmentRecords(lib, AttachmentsRoot(cfg), key, cfg.exportTo, Mime.Walk(f.email.body));
    Prepared(
      EmailRow(messageId, g, f.threadId.GetOr(""), h.subject.GetOr("(no subject)"), h.from.GetOr(""),
               h.to.GetOr(""), date, epoch, f.labelIds.GetOr([]), f.snippet.GetOr(""),
               Mime.BodyText(lib, f.email), records != [], |records|, emlPath, now, false),
      key, emlPath, records)
  }

  /** The raw `.eml` file, then the attachment files, in the order they are written. */
  function MessageWrites(cfg: Config, p: Prepared, f: Fetched): seq<FileWrite> {
    [FileWrite(p.emlPath, f.raw)] + Mime.AttachmentWrites(AttachmentsRoot(cfg), p.key, cfg.exportTo, Mime.Walk(f.email.body))
  }

  function AttachmentRowOf(messageId: string, a: Mime.AttachmentRecord): AttachmentRow {
    AttachmentRow(messageId, a.filename, a.contentType, a.sizeBytes, a.sha256, a.localPath, a.paperlessExported)
  }

  function AttachmentRows(messageId: string, records: seq<Mime.AttachmentRecord>): seq<AttachmentRow> {
    if records == [] then []
    else AttachmentRows(messageId, records[..|records| - 1]) + [AttachmentRowOf(messageId, records[|records| - 1])]
  }

  /**
   * One iteration of the inner `for` loop: skip a stored id without
   * fetching it; otherwise fetch, write the files, insert the rows and
   * commit, counting a failure when the fetch, the insert or the commit
   * raises. Nothing rolls back: files written and rows inserted before the
   * failing step stay.
   */
  function Step(env: Env, st: SyncState, g: GmailId): SyncState {
    if Archived(st.live.emails, g) then st.(summary := st.summary.(skipped := st.summary.skipped + 1))
    else match env.mailbox.fetchRaw(g)
      case None => Failed(st)
      case Some(f) => Ingest(env, st, g, f)
  }

  function Failed(st: SyncState): SyncState {
    st.(summary := st.summary.(failed := st.summary.failed + 1))
  }

  /** A fetched message: its files are written, then its rows are inserted. */
  function Ingest(env: Env, st: SyncState, g: GmailId, f: Fetched): SyncState {
    var p := Prepare(env.lib, env.cfg, env.now, g, f);
    Insert(env.commitFails(g), st.(files := ApplyWrites(st.files, MessageWrites(env.cfg, p, f))), p)
  }

  /** The `INSERT`s and the `commit()`; an `IntegrityError` leaves the tables as they were. */
  function Insert(commitFails: bool, st: SyncState, p: Prepared): SyncState {
    match InsertEmail(st.live, p.row)
    case Err(_) => Failed(st)
    case Ok(t) => CommitStep(commitFails, st.(live := InsertAttachments(t, AttachmentRows(p.row.messageId, p.records))))
  }

  function CommitStep(fails: bool, st: SyncState): SyncState {
    if fails then Failed(st)
    else st.(committed := st.live, summary := st.summary.(backedUp := st.summary.backedUp + 1))
  }

  /** The ids handled in order. */
  function SyncIds(env: Env, st: SyncState, ids: seq<GmailId>): SyncState
    decreases |ids|, 1
  {
    if ids == [] then st else SyncThrough(env, st, ids)
  }

  /** The state once the last of `ids` is handled. */
  function SyncThrough(env: Env, st: SyncState, ids: seq<GmailId>): SyncState
    requires ids != []
    decreases |ids|, 0
  {
    Step(env, SyncIds(env, st, ids[..|ids| - 1]), ids[|ids| - 1])
  }

  lemma SyncIdsSnoc(env: Env, st: SyncState, ids: seq<GmailId>, g: GmailId)
    ensures SyncIds(env, st, ids + [g]) == Step(env, SyncIds(env, st, ids), g)
  {
    assert (ids + [g])[..|ids|] == ids;
    assert SyncIds(env, st, ids + [g]) == SyncThrough(env, st, ids + [g]);
  }

  /** How `backup_emails` ends: `sys.exit(1)`, an uncaught listing exception, or normally. */
  datatype Status = LabelMissing | ListingFailed | Completed

  datatype RunResult = RunResult(status: Status, state: SyncState)

  /** `backup_emails` from a given state. */
  function Run(env: Env, st: SyncState): RunResult {
    var labelId := LabelIdOf(env.mailbox.labels, env.cfg.backupLabel);
    if !Resolved(labelId) then RunResult(LabelMissing, st)
    else
      var pages := Paginate(env.mailbox.listByLabel(labelId.value));
      RunResult(if pages.failed then ListingFailed else Completed, SyncIds(env, st, pages.ids))
  }

  // ---------------------------------------------------------------- properties of the loop

  /** Each listed id is counted exactly once, as backed up, skipped or failed. */
  lemma StepCountsOne(env: Env, st: SyncState, g: GmailId)
    ensures var s := Step(env, st, g).summary;
      || (s == st.summary.(backedUp := st.summary.backedUp + 1))
      || (s == st.summary.(skipped := st.summary.skipped + 1))
      || (s == st.summary.(failed := st.summary.failed + 1))
    ensures Step(env, st, g).summary.skipped == st.summary.skipped + 1 <==> Archived(st.live.emails, g)
  {
  }

  /** Over a whole run, the three counters together grow by the number of ids handled. */
  lemma {:induction false} SyncIdsCounts(env: Env, st: SyncState, ids: seq<GmailId>)
    ensures Handled(SyncIds(env, st, ids).summary) == Handled(st.summary) + |ids|
  {
    if ids != [] {
      var prev := SyncIds(env, st, ids[..|ids| - 1]);
      SyncIdsCounts(env, st, ids[..|ids| - 1]);
      StepCountsOne(env, prev, ids[|ids| - 1]);
    }
  }

  /**
   * A stored id is skipped without being fetched: the outcome does not
   * depend on what fetching it would return, and only `total_skipped` moves.
   */
  lemma SkipWithoutFetch(env: Env, st: SyncState, g: GmailId, otherFetch: GmailId -> Option<Fetched>)
    requires Archived(st.live.emails, g)
    ensures Step(env, st, g) == st.(summary := st.summary.(skipped := st.summary.skipped + 1))
    ensures Step(env.(mailbox := env.mailbox.(fetchRaw := otherFetch)), st, g) == Step(env, st, g)
  {
  }

  /**
   * What holds between the tables across the loop: both views satisfy the
   * schema, and the committed rows are a prefix of what the connection sees
   * (uncommitted work is only ever appended after them).
   */
  ghost predicate SyncInv(st: SyncState) {
    && Consistent(st.live) && Consistent(st.committed)
    && st.committed.emails <= st.live.emails
    && st.committed.attachments <= st.live.attachments
  }

  lemma InsertInv(fails: bool, st: SyncState, p: Prepared)
    requires SyncInv(st)
    ensures var r := Insert(fails, st, p);
      && SyncInv(r)
      && (r.summary.backedUp == st.summary.backedUp + 1 ==> r.committed == r.live)
  {
    InsertEmailConsistent(st.live, p.row);
  }

  lemma InsertStores(fails: bool, st: SyncState, p: Prepared)
    ensures var r := Insert(fails, st, p);
      && GmailIds(st.live.emails) <= GmailIds(r.live.emails)
      && (r.summary.failed == st.summary.failed ==> p.row.gmailId in GmailIds(r.live.emails))
  {
    if InsertEmail(st.live, p.row).Ok? {
      var t := InsertEmail(st.live, p.row).value;
      assert t.emails == st.live.emails + [Row(st.live.nextRowid, p.row)];
      assert t.emails[|st.live.emails|].values.gmailId == p.row.gmailId;
      forall x | x in GmailIds(st.live.emails) ensures x in GmailIds(t.emails) {
        var i :| 0 <= i < |st.live.emails| && st.live.emails[i].values.gmailId == x;
        assert t.emails[i] == st.live.emails[i];
      }
    }
  }

  /** One step keeps the invariant, and makes everything durable when it backs a message up. */
  lemma StepInv(env: Env, st: SyncState, g: GmailId)
    requires SyncInv(st)
    ensures var r := Step(env, st, g);
      && SyncInv(r)
      && (r.summary.backedUp == st.summary.backedUp + 1 ==> r.committed == r.live)
  {
    if !Archived(st.live.emails, g) && env.mailbox.fetchRaw(g).Some? {
      var f := env.mailbox.fetchRaw(g).value;
      var p := Prepare(env.lib, env.cfg, env.now, g, f);
      InsertInv(env.commitFails(g), st.(files := ApplyWrites(st.files, MessageWrites(env.cfg, p, f))), p);
    }
  }

  /** One step keeps every stored row, and stores the id unless it failed. */
  lemma StepStores(env: Env, st: SyncState, g: GmailId)
    ensures var r := Step(env, st, g);
      && GmailIds(st.live.emails) <= GmailIds(r.live.emails)
      && (r.summary.failed == st.summary.failed ==> g in GmailIds(r.live.emails))
  {
    if !Archived(st.live.emails, g) && env.mailbox.fetchRaw(g).Some? {
      var f := env.mailbox.fetchRaw(g).value;
      var p := Prepare(env.lib, env.cfg, env.now, g, f);
      assert p.row.gmailId == g;
      InsertStores(env.commitFails(g), st.(files := ApplyWrites(st.files, MessageWrites(env.cfg, p, f))), p);
    }
  }

  /**
   * A run keeps the schema's guarantees: a Message-ID or `gmail_id` is
   * never stored twice, the index matches the rows, committed rows are a
   * prefix of the connection's.
   */
  lemma {:induction false} SyncIdsInv(env: Env, st: SyncState, ids: seq<GmailId>)
    requires SyncInv(st)
    ensures SyncInv(SyncIds(env, st, ids))
  {
    if ids != [] {
      SyncIdsInv(env, st, ids[..|ids| - 1]);
      StepInv(env, SyncIds(env, st, ids[..|ids| - 1]), ids[|ids| - 1]);
    }
  }

  /** A run never drops a stored row. */
  lemma {:induction false} SyncIdsKeepsRows(env: Env, st: SyncState, ids: seq<GmailId>)
    ensures GmailIds(st.live.emails) <= GmailIds(SyncIds(env, st, ids).live.emails)
  {
    if ids != [] {
      SyncIdsKeepsRows(env, st, ids[..|ids| - 1]);
      StepStores(env, SyncIds(env, st, ids[..|ids| - 1]), ids[|ids| - 1]);
    }
  }

  /**
   * A message whose Message-ID is already stored under another `gmail_id`
   * is counted as failed: no row is added, but its raw file and attachment
   * files were written before the insert raised.
   */
  lemma DuplicateMessageId(env: Env, st: SyncState, g: GmailId, i: nat)
    requires !Archived(st.live.emails, g) && env.mailbox.fetchRaw(g).Some?
    requires var f := env.mailbox.fetchRaw(g).value;
      i < |st.live.emails| && st.live.emails[i].values.messageId == f.email.headers.messageId.GetOr(g)
    ensures var f := env.mailbox.fetchRaw(g).value;
      var p := Prepare(env.lib, env.cfg, env.now, g, f);
      Step(env, st, g) == Failed(st.(files := ApplyWrites(st.files, MessageWrites(env.cfg, p, f))))
  {
    var f := env.mailbox.fetchRaw(g).value;
    var p := Prepare(env.lib, env.cfg, env.now, g, f);
    assert p.row.messageId == f.email.headers.messageId.GetOr(g);
    assert Conflicts(st.live.emails, p.row);
  }

  /**
   * A message whose commit raised is counted as failed but its rows stay
   * pending, and the next message that is backed up makes them durable.
   */
  lemma FailedCommitLandsLater(env: Env, st: SyncState, g: GmailId, h: GmailId)
    requires SyncInv(st)
    requires !Archived(st.live.emails, g) && env.mailbox.fetchRaw(g).Some?
    requires InsertEmail(st.live, Prepare(env.lib, env.cfg, env.now, g, env.mailbox.fetchRaw(g).value).row).Ok?
    requires env.commitFails(g)
    requires var mid := Step(env, st, g); Step(env, mid, h).summary.backedUp == mid.summary.backedUp + 1
    ensures var mid := Step(env, st, g);
      && mid.summary.failed == st.summary.failed + 1
      && Archived(mid.live.emails, g) && !Archived(mid.committed.emails, g)
      && Archived(Step(env, mid, h).committed.emails, g)
  {
    var f := env.mailbox.fetchRaw(g).value;
    var p := Prepare(env.lib, env.cfg, env.now, g, f);
    var mid := Step(env, st, g);
    assert p.row.gmailId == g;
    InsertStores(true, st.(files := ApplyWrites(st.files, MessageWrites(env.cfg, p, f))), p);
    InsertEmailConsistent(st.live, p.row);
    assert mid.committed == st.committed;
    forall i | 0 <= i < |mid.committed.emails| ensures mid.committed.emails[i].values.gmailId != g {
      assert mid.committed.emails[i] == st.live.emails[i];
    }
    StepInv(env, mid, h);
    StepStores(env, mid, h);
  }

  /** After a run in which nothing failed, every id it handled is stored. */
  lemma {:induction false} CleanRunStoresAll(env: Env, st: SyncState, ids: seq<GmailId>)
    requires SyncIds(env, st, ids).summary.failed == st.summary.failed
    ensures forall k :: 0 <= k < |ids| ==> Archived(SyncIds(env, st, ids).live.emails, ids[k])
  {
    if ids != [] {
      var prefix := ids[..|ids| - 1];
      var g := ids[|ids| - 1];
      assert ids == prefix + [g];
      SyncIdsGrows(env, st, prefix, g);
      FailedNeverShrinks(env, st, prefix);
      CleanRunStoresAll(env, st, prefix);
      AllInAfterSnoc(prefix, g, GmailIds(SyncIds(env, st, prefix).live.emails), GmailIds(SyncIds(env, st, ids).live.emails));
    }
  }

  /** One more id keeps every stored row, stores the id unless it failed, and fails at most once. */
  lemma SyncIdsGrows(env: Env, st: SyncState, prefix: seq<GmailId>, g: GmailId)
    ensures var prev := SyncIds(env, st, prefix); var last := SyncIds(env, st, prefix + [g]);
      && GmailIds(prev.live.emails) <= GmailIds(last.live.emails)
      && (last.summary.failed == prev.summary.failed ==> g in GmailIds(last.live.emails))
      && last.summary.failed >= prev.summary.failed
  {
    SyncIdsSnoc(env, st, prefix, g);
    StepStores(env, SyncIds(env, st, prefix), g);
    StepCountsOne(env, SyncIds(env, st, prefix), g);
  }

  lemma AllInAfterSnoc(prefix: seq<GmailId>, g: GmailId, before: set<GmailId>, after: set<GmailId>)
    requires forall k :: 0 <= k < |prefix| ==> prefix[k] in before
    requires before <= after && g in after
    ensures forall k :: 0 <= k < |prefix + [g]| ==> (prefix + [g])[k] in after
  {
    forall k | 0 <= k < |prefix + [g]| ensures (prefix + [g])[k] in after {
      if k < |prefix| {
        assert (prefix + [g])[k] == prefix[k];
      }
    }
  }

  lemma {:induction false} FailedNeverShrinks(env: Env, st: SyncState, ids: seq<GmailId>)
    ensures SyncIds(env, st, ids).summary.failed >= st.summary.failed
  {
    if ids != [] {
      FailedNeverShrinks(env, st, ids[..|ids| - 1]);
      StepCountsOne(env, SyncIds(env, st, ids[..|ids| - 1]), ids[|ids| - 1]);
    }
  }

  /** Handling ids that are all stored only counts skips: the tables and the files stay as they are. */
  lemma {:induction false} StoredIdsOnlySkip(env: Env, st: SyncState, ids: seq<GmailId>)
    requires forall k :: 0 <= k < |ids| ==> Archived(st.live.emails, ids[k])
    ensures SyncIds(env, st, ids) == st.(summary := st.summary.(skipped := st.summary.skipped + |ids|))
  {
    if ids != [] {
      StoredIdsOnlySkip(env, st, ids[..|ids| - 1]);
    }
  }

  /**
   * Re-running the sync over the same ids after a run without failures
   * changes nothing but `total_skipped`: backing up is idempotent.
   */
  lemma RerunIsIdempotent(env: Env, st: SyncState, ids: seq<GmailId>)
    requires SyncIds(env, st, ids).summary.failed == st.summary.failed
    ensures var first := SyncIds(env, st, ids);
      SyncIds(env, first, ids) == first.(summary := first.summary.(skipped := first.summary.skipped + |ids|))
  {
    CleanRunStoresAll(env, st, ids);
    StoredIdsOnlySkip(env, SyncIds(env, st, ids), ids);
  }

  /**
   * A missing or empty backup label ends the run before any listing: the
   * outcome is the same whatever the label listing would have answered.
   */
  lemma MissingLabelListsNothing(env: Env, st: SyncState, otherListing: LabelId -> seq<ListResult>)
    requires !Resolved(LabelIdOf(env.mailbox.labels, env.cfg.backupLabel))
    ensures Run(env, st) == RunResult(LabelMissing, st)
    ensures Run(env.(mailbox := env.mailbox.(listByLabel := otherListing)), st) == Run(env, st)
  {
  }

  /**
   * The row `backup_emails` inserts for a fetched message: the key hashes
   * the Message-ID (the remote id when the header is absent), the raw file
   * sits under the `unknown` bucket exactly when the date gave no epoch,
   * `has_attachments` and `attachment_count` describe the extracted
   * records, and the message is not marked deleted.
   */
  lemma PreparedRow(lib: Mime.Library, cfg: Config, now: string, g: GmailId, f: Fetched)
    ensures var p := Prepare(lib, cfg, now, g, f);
      var id := if f.email.headers.messageId.Some? then f.email.headers.messageId.value else g;
      && p.row.messageId == id && p.row.gmailId == g
      && p.key == lib.sha256TextHex(id)[..16]
      && (p.row.dateEpoch == 0 <==> p.emlPath == cfg.storage + "/raw/unknown/" + p.key + ".eml")
      && (p.row.hasAttachments <==> |p.records| > 0)
      && p.row.attachmentCount == |p.records|
      && !p.row.deletedFromGmail
  {
    var p := Prepare(lib, cfg, now, g, f);
    EmlPathBucket(lib, cfg, p.row.dateEpoch, p.key);
  }

  /** The raw file lands in `raw/unknown/` exactly when the date gave no epoch. */
  lemma EmlPathBucket(lib: Mime.Library, cfg: Config, epoch: int, key: string)
    ensures RawRoot(cfg) + "/" + Mime.RawBucket(lib, epoch) + "/" + key + ".eml" == cfg.storage + "/raw/unknown/" + key + ".eml"
        <==> epoch == 0
  {
    var bucket := Mime.RawBucket(lib, epoch);
    var pre := cfg.storage + "/raw/";
    var tail := "/" + key + ".eml";
    var path := RawRoot(cfg) + "/" + bucket + "/" + key + ".eml";
    assert path == pre + bucket + tail;
    assert cfg.storage + "/raw/unknown/" + key + ".eml" == pre + "unknown" + tail;
    if epoch != 0 {
      assert path[|pre| + 4] == bucket[4] == '/';
      assert (pre + "unknown" + tail)[|pre| + 4] == 'o';
    }
  }

  // ---------------------------------------------------------------- the loop

  function StateOf(conn: Connection, disk: Disk, summary: Summary): SyncState
    reads conn, disk
  {
    SyncState(conn.Live(), conn.committed, disk.files, summary)
  }

  /** The body of the inner `for` loop for one listed id. */
  method BackupMessage(env: Env, conn: Connection, disk: Disk, g: GmailId, summary0: Summary)
    returns (summary: Summary)
    requires conn.Valid()
    modifies conn, disk
    ensures conn.Valid()
    ensures StateOf(conn, disk, summary) == Step(env, old(StateOf(conn, disk, summary0)), g)
  {
    summary := summary0;
    var row := conn.Exists(g);
    if row {
      summary := summary.(skipped := summary.skipped + 1);
      return;
    }
    var rawMsg := env.mailbox.fetchRaw(g);
    if rawMsg.None? {
      summary := summary.(failed := summary.failed + 1);
      return;
    }
    summary := StoreMessage(env, conn, disk, g, rawMsg.value, summary);
  }

  /** The `try` block once the message is fetched: derive the fields, write the files, insert, commit. */
  method StoreMessage(env: Env, conn: Connection, disk: Disk, g: GmailId, f: Fetched, summary0: Summary)
    returns (summary: Summary)
    requires conn.Valid()
    modifies conn, disk
    ensures conn.Valid()
    ensures StateOf(conn, disk, summary) == Ingest(env, old(StateOf(conn, disk, summary0)), g, f)
  {
    ghost var st := StateOf(conn, disk, summary0);
    var msg := f.email;
    var messageId := msg.headers.messageId.GetOr(g);
    var fsMessageId := Mime.MessageKey(env.lib, messageId);
    var subject := msg.headers.subject.GetOr("(no subject)");
    var sender := msg.headers.from.GetOr("");
    var recipients := msg.headers.to.GetOr("");
    var dateStr := msg.headers.date.GetOr("");
    var dateEpoch := Mime.ParseDateEpoch(env.lib, dateStr);
    var snippet := f.snippet.GetOr("");
    var labels := f.labelIds.GetOr([]);
    var bodyText := Mime.ExtractBodyText(env.lib, msg);
    var threadId := f.threadId.GetOr("");
    var yearMonth := if dateEpoch != 0 then env.lib.yearMonth(dateEpoch) else "unknown";
    var emlPath := RawRoot(env.cfg) + "/" + yearMonth + "/" + fsMessageId + ".eml";
    disk.WriteBytes(emlPath, f.raw);
    var attachments := Mime.ExtractAttachments(env.lib, msg, AttachmentsRoot(env.cfg), fsMessageId, env.cfg.exportTo, disk);
    var p := Prepared(
      EmailRow(messageId, g, threadId, subject, sender, recipients, dateStr, dateEpoch, labels, snippet,
               bodyText, attachments != [], |attachments|, emlPath, env.now, false),
      fsMessageId, emlPath, attachments);
    assert p == Prepare(env.lib, env.cfg, env.now, g, f);
    ghost var attachmentWrites := Mime.AttachmentWrites(AttachmentsRoot(env.cfg), fsMessageId, env.cfg.exportTo, Mime.Walk(msg.body));
    ApplyWritesOne(st.files, FileWrite(emlPath, f.raw));
    ApplyWritesAppend(st.files, [FileWrite(emlPath, f.raw)], attachmentWrites);
    assert disk.files == ApplyWrites(st.files, MessageWrites(env.cfg, p, f));
    summary := InsertMessage(conn, p, env.commitFails(g), disk.files, summary0);
  }

  /** The `for` loop inserting one `attachments` row per record. */
  method InsertAttachmentRows(conn: Connection, messageId: string, records: seq<Mime.AttachmentRecord>)
    requires conn.Valid()
    modifies conn
    ensures conn.Valid()
    ensures conn.Live() == InsertAttachments(old(conn.Live()), AttachmentRows(messageId, records))
    ensures conn.committed == old(conn.committed)
  {
    ghost var before := conn.Live();
    for j := 0 to |records|
      invariant conn.Valid()
      invariant conn.Live() == InsertAttachments(before, AttachmentRows(messageId, records[..j]))
      invariant conn.committed == old(conn.committed)
    {
      assert records[..j + 1][..j] == records[..j];
      conn.InsertAttachmentRow(AttachmentRowOf(messageId, records[j]));
    }
    assert records[..|records|] == records;
  }

  /** The `INSERT`s, one per attachment record after the email row, then `conn.commit()`. */
  method InsertMessage(conn: Connection, p: Prepared, commitFails: bool, ghost files: map<string, Bytes>, summary0: Summary)
    returns (summary: Summary)
    requires conn.Valid()
    modifies conn
    ensures conn.Valid()
    ensures SyncState(conn.Live(), conn.committed, files, summary)
         == Insert(commitFails, SyncState(old(conn.Live()), old(conn.committed), files, summary0), p)
  {
    ghost var st := SyncState(conn.Live(), conn.committed, files, summary0);
    summary := summary0;
    var ok := conn.InsertEmailRow(p.row);
    if !ok {
      summary := summary.(failed := summary.failed + 1);
      return;
    }
    InsertAttachmentRows(conn, p.row.messageId, p.records);
    var committed := conn.Commit(commitFails);
    if !committed {
      summary := summary.(failed := summary.failed + 1);
      return;
    }
    summary := summary.(backedUp := summary.backedUp + 1);
  }

  /** The inner `for` loop over one page of ids. */
  method BackupPage(env: Env, conn: Connection, disk: Disk, messages: seq<GmailId>, summary0: Summary,
                    ghost st: SyncState, ghost handled: seq<GmailId>)
    returns (summary: Summary)
    requires conn.Valid()
    requires StateOf(conn, disk, summary0) == SyncIds(env, st, handled)
    modifies conn, disk
    ensures conn.Valid()
    ensures StateOf(conn, disk, summary) == SyncIds(env, st, handled + messages)
  {
    summary := summary0;
    assert handled + messages[..0] == handled;
    for i := 0 to |messages|
      invariant conn.Valid()
      invariant StateOf(conn, disk, summary) == SyncIds(env, st, handled + messages[..i])
    {
      SyncIdsSnoc(env, st, handled + messages[..i], messages[i]);
      SnocPrefix(handled, messages, i);
      summary := BackupMessage(env, conn, disk, messages[i], summary);
    }
    assert messages[..|messages|] == messages;
  }

  /**
   * `backup_emails`: resolve the label, then page through its listing; a
   * listing error propagates out of the loop, ending the run.
   */
  method BackupEmails(env: Env, conn: Connection, disk: Disk) returns (status: Status, summary: Summary)
    requires conn.Valid()
    modifies conn, disk
    ensures conn.Valid()
    ensures var r := Run(env, old(StateOf(conn, disk, Summary(0, 0, 0))));
      status == r.status && StateOf(conn, disk, summary) == r.state
  {
    summary := Summary(0, 0, 0);
    var labelId := LabelIdOf(env.mailbox.labels, env.cfg.backupLabel);
    if !Resolved(labelId) {
      return LabelMissing, summary;
    }
    var failed;
    failed, summary := BackupListing(env, conn, disk, env.mailbox.listByLabel(labelId.value));
    status := if failed then ListingFailed else Completed;
  }

  /** The `while True` loop over the pages of the label listing; `page_token` is the index of the next answer. */
  method BackupListing(env: Env, conn: Connection, disk: Disk, listing: seq<ListResult>)
    returns (failed: bool, summary: Summary)
    requires conn.Valid()
    modifies conn, disk
    ensures conn.Valid()
    ensures failed == Paginate(listing).failed
    ensures StateOf(conn, disk, summary) == SyncIds(env, old(StateOf(conn, disk, Summary(0, 0, 0))), Paginate(listing).ids)
  {
    ghost var st := StateOf(conn, disk, Summary(0, 0, 0));
    summary := Summary(0, 0, 0);
    var pageToken := 0;
    ghost var handled: seq<GmailId> := [];
    while true
      invariant conn.Valid()
      invariant 0 <= pageToken <= |listing|
      invariant Paginate(listing) == Pagination(
        handled + PaginateFrom(listing, pageToken).ids, PaginateFrom(listing, pageToken).failed)
      invariant StateOf(conn, disk, summary) == SyncIds(env, st, handled)
      decreases |listing| - pageToken
    {
      if pageToken >= |listing| {
        PaginateLast(listing, pageToken);
        assert handled + [] == handled;
        return false, summary;
      }
      var results := listing[pageToken];
      if results.ListError? {
        PaginateLast(listing, pageToken);
        assert handled + [] == handled;
        return true, summary;
      }
      var messages := results.ids;
      if messages == [] {
        PaginateLast(listing, pageToken);
        assert handled + [] == handled;
        return false, summary;
      }
      summary := BackupPage(env, conn, disk, messages, summary, st, handled);
      if !HasNext(results) {
        PaginateLast(listing, pageToken);
        handled := handled + messages;
        return false, summary;
      }
      PaginateContinues(listing, pageToken);
      AppendAssoc(handled, messages, PaginateFrom(listing, pageToken + 1).ids);
      handled := handled + messages;
      pageToken := pageToken + 1;
    }
  }

  // ---------------------------------------------------------------- search

  function DateEpoch(r: Row): int { r.values.dateEpoch }

  /** The join of `emails_fts` with `emails` on rowid, restricted to entries that `MATCH` the query. */
  function Matching(t: Tables, matches: FtsEntry -> bool): seq<Row>
    decreases |t.emails|
  {
    if t.emails == [] then []
    else
      var r := t.emails[|t.emails| - 1];
      var rest := Matching(t.(emails := t.emails[..|t.emails| - 1]), matches);
      if r.rowid in t.fts && matches(t.fts[r.rowid]) then rest + [r] else rest
  }

  /** `search_emails`'s query: matching rows, `ORDER BY e.date_epoch DESC LIMIT 50`. */
  function SearchEmails(t: Tables, matches: FtsEntry -> bool): seq<Row> {
    TopDesc(Matching(t, matches), DateEpoch, 50)
  }

  lemma {:induction false} MatchingSound(t: Tables, matches: FtsEntry -> bool)
    ensures forall r :: r in Matching(t, matches) <==> r in t.emails && r.rowid in t.fts && matches(t.fts[r.rowid])
    decreases |t.emails|
  {
    if t.emails != [] {
      var pre := t.emails[..|t.emails| - 1];
      MatchingSound(t.(emails := pre), matches);
      assert t.emails == pre + [t.emails[|t.emails| - 1]];
    }
  }

  /** Every stored row is indexed under its rowid with its own columns. */
  lemma AllRowsIndexed(t: Tables)
    requires Consistent(t)
    ensures forall x :: x in t.emails ==> x.rowid in t.fts && t.fts[x.rowid] == Project(x.values)
  {
    forall x | x in t.emails
      ensures x.rowid in t.fts && t.fts[x.rowid] == Project(x.values)
    {
      RowIndexed(t.emails, x);
    }
  }

  /** Search returns at most 50 rows, newest first by `date_epoch`. */
  lemma SearchOrdered(t: Tables, matches: FtsEntry -> bool)
    ensures var r := SearchEmails(t, matches);
      && |r| <= 50
      && forall i, j :: 0 <= i < j < |r| ==> r[i].values.dateEpoch >= r[j].values.dateEpoch
  {
    TopDescSpec(Matching(t, matches), DateEpoch, 50);
  }

  /** Each result is a stored row whose indexed columns match the query. */
  lemma SearchSound(t: Tables, matches: FtsEntry -> bool)
    requires Consistent(t)
    ensures forall x :: x in SearchEmails(t, matches) ==> x in t.emails && matches(Project(x.values))
  {
    var m := Matching(t, matches);
    var r := SearchEmails(t, matches);
    TopDescSpec(m, DateEpoch, 50);
    MatchingSound(t, matches);
    AllRowsIndexed(t);
    forall x | x in r ensures x in t.emails && matches(Project(x.values)) {
      assert x in multiset(r);
      assert x in multiset(m);
    }
  }

  /**
   * A stored row whose indexed columns match is left out only when 50 rows
   * came back, none of them older than it.
   */
  lemma SearchComplete(t: Tables, matches: FtsEntry -> bool, x: Row)
    requires Consistent(t)
    requires x in t.emails && matches(Project(x.values))
    ensures var r := SearchEmails(t, matches);
      x !in r ==> |r| == 50 && forall y :: y in r ==> y.values.dateEpoch >= x.values.dateEpoch
  {
    MatchingSound(t, matches);
    RowIndexed(t.emails, x);
    TopDescLeavesOut(Matching(t, matches), DateEpoch, 50, x);
  }

  /** Under unique rowids every row is indexed under its rowid with its own columns. */
  lemma {:induction false} RowIndexed(rows: seq<Row>, x: Row)
    requires RowidsAscending(rows) && x in rows
    ensures x.rowid in IndexOf(rows) && IndexOf(rows)[x.rowid] == Project(x.values)
  {
    var last := rows[|rows| - 1];
    var pre := rows[..|rows| - 1];
    if x != last {
      assert x in pre;
      RowIndexed(pre, x);
      var i :| 0 <= i < |pre| && pre[i] == x;
      assert rows[i].rowid < last.rowid;
    }
  }

  /** One printed result: date, sender, subject with the attachment marker, preview. */
  datatype Hit = Hit(date: string, sender: string, subjectLine: string, preview: string)

  function Display(r: Row): Hit {
    var e := r.values;
    var marker := if e.hasAttachments then " [+att]" else "";
    Hit(e.date, e.sender, e.subject + marker, e.snippet[..Min(120, |e.snippet|)])
  }

  /** The preview is the snippet cut at 120 characters; the marker appears exactly for rows with attachments. */
  lemma DisplaySpec(r: Row)
    ensures var h := Display(r);
      && |h.preview| <= 120 && h.preview <= r.values.snippet
      && (h.preview == r.values.snippet <==> |r.values.snippet| <= 120)
      && r.values.subject <= h.subjectLine
      && (r.values.hasAttachments <==> |h.subjectLine| > |r.values.subject|)
      && |h.preview| == Min(120, |r.values.snippet|)
      && h.subjectLine == r.values.subject + (if r.values.hasAttachments then " [+att]" else "")
      && h.date == r.values.date && h.sender == r.values.sender
  {
  }

  // ---------------------------------------------------------------- main

  /** What `main` does, in order. */
  datatype Action = PrintUsage | InitDb | RunBackup | RunCleanup | PrintSearchUsage
                  | RunSearch(query: string) | PrintStats | PrintUnknown(command: string) | CloseDb

  datatype Plan = Plan(actions: seq<Action>, exitCode: int)

  /**
   * How the command `main` chose ended: the status of `backup_emails`,
   * whether the cleanup's final `commit()` raised, and whether the FTS5
   * query raised (a `MATCH` syntax error, say). An uncaught exception ends
   * the process with status 1, skipping everything after it.
   */
  datatype Outcomes = Outcomes(backup: Status, cleanupRaised: bool, searchRaised: bool)

  /** `main`'s dispatch on `sys.argv`, given how the chosen command ends. */
  function MainPlan(argv: seq<string>, out: Outcomes): Plan {
    if |argv| < 2 then Plan([PrintUsage], 1)
    else
      var command := argv[1];
      if command == "backup" then
        if out.backup == Completed then Plan([InitDb, RunBackup, PrintStats, CloseDb], 0)
        else Plan([InitDb, RunBackup], 1)
      else if command == "cleanup" then
        if out.cleanupRaised then Plan([InitDb, RunCleanup], 1)
        else Plan([InitDb, RunCleanup, PrintStats, CloseDb], 0)
      else if command == "search" then
        if |argv| < 3 then Plan([InitDb, PrintSearchUsage], 1)
        else
          var query := RunSearch(Join(" ", argv[2..]));
          if out.searchRaised then Plan([InitDb, query], 1) else Plan([InitDb, query, CloseDb], 0)
      else if command == "stats" then Plan([InitDb, PrintStats, CloseDb], 0)
      else Plan([InitDb, PrintUnknown(command), PrintUsage], 1)
  }

  predicate Known(command: string) {
    command == "backup" || command == "cleanup" || command == "search" || command == "stats"
  }

  /** The chosen command ran to its end. */
  predicate Succeeded(argv: seq<string>, out: Outcomes)
    requires |argv| >= 2
  {
    || argv[1] == "stats"
    || (argv[1] == "backup" && out.backup == Completed)
    || (argv[1] == "cleanup" && !out.cleanupRaised)
    || (argv[1] == "search" && |argv| >= 3 && !out.searchRaised)
  }

  /**
   * Exit status 0 exactly when a known command was given with what it
   * needs and ran to its end; only then is the connection closed. The
   * database is opened whenever a command was given, the statistics follow
   * a backup or cleanup only when it ended normally, and the query is the
   * remaining arguments joined by single spaces.
   */
  lemma MainPlanSpec(argv: seq<string>, out: Outcomes)
    ensures var p := MainPlan(argv, out);
      && (p.exitCode == 0 || p.exitCode == 1)
      && (p.exitCode == 0 <==> |argv| >= 2 && Succeeded(argv, out))
      && (CloseDb in p.actions <==> p.exitCode == 0)
      && (|argv| >= 2 <==> p.actions[0] == InitDb)
      && (PrintStats in p.actions <==>
            |argv| >= 2 && Succeeded(argv, out) && (argv[1] == "stats" || argv[1] == "backup" || argv[1] == "cleanup"))
      && (|argv| >= 3 && argv[1] == "search" ==> p.actions[..2] == [InitDb, RunSearch(Join(" ", argv[2..]))])
      && (forall k :: 0 <= k < |p.actions| && p.actions[k].RunSearch? ==> |argv| >= 3 && argv[1] == "search")
  {
  }

  /**
   * `backup` exits with status 1, without statistics, exactly when the
   * backup label is missing or listing the labelled messages raised.
   */
  lemma MainBackupExit(argv: seq<string>, out: Outcomes, env: Env, st: SyncState)
    requires |argv| >= 2 && argv[1] == "backup" && out.backup == Run(env, st).status
    ensures var labelId := LabelIdOf(env.mailbox.labels, env.cfg.backupLabel);
      && (MainPlan(argv, out).exitCode == 1 <==>
            !Resolved(labelId) || Paginate(env.mailbox.listByLabel(labelId.value)).failed)
      && (!Resolved(labelId) ==> PrintStats !in MainPlan(argv, out).actions)
  {
  }

  /**
   * `cleanup` (the copy in this program: never dry, no notice) exits with
   * status 1, without statistics, exactly when committing the audit row raised;
   * a listing error is caught and does not change the exit status.
   */
  lemma MainCleanupExit(argv: seq<string>, out: Outcomes, req: Cleanup.Request, live: Tables, committed: Tables)
    requires |argv| >= 2 && argv[1] == "cleanup"
    requires out.cleanupRaised == Cleanup.Run(req.(dryRun := false, notifies := false), live, committed).raised
    ensures MainPlan(argv, out).exitCode == 1 <==> req.faults.logCommitFails
    ensures MainPlan(argv, out).exitCode == 1 <==> PrintStats !in MainPlan(argv, out).actions
  {
  }
}
