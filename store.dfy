/**
 * The SQLite store of `init_db` (email-backup/email_common.py): the
 * `emails`, `attachments` and `cleanup_runs` tables, the `emails_fts`
 * full-text index with its three triggers, and the `print_stats` queries.
 *
 * A `Connection` holds what the connection sees (its own uncommitted writes
 * included) and, separately, what the last `commit()` made durable. The
 * index is a map from rowid to the indexed columns; FTS5 tokenisation and
 * `MATCH` are not modelled.
 */
module Store {
  import opened Wrappers
  import opened Ordering

  /** The column values of one `emails` row. */
  datatype EmailRow = EmailRow(
    messageId: string, gmailId: string, threadId: string,
    subject: string, sender: string, recipients: string,
    date: string, dateEpoch: int, labels: seq<string>, snippet: string, bodyText: string,
    hasAttachments: bool, attachmentCount: nat, rawPath: string, backedUpAt: string,
    deletedFromGmail: bool)

  datatype Row = Row(rowid: int, values: EmailRow)

  /** The columns `emails_fts` indexes. */
  datatype FtsEntry = FtsEntry(subject: string, sender: string, recipients: string, bodyText: string)

  function Project(e: EmailRow): FtsEntry {
    FtsEntry(e.subject, e.sender, e.recipients, e.bodyText)
  }

  datatype AttachmentRow = AttachmentRow(
    messageId: string, filename: string, contentType: string, sizeBytes: nat,
    sha256: string, localPath: string, paperlessExported: bool)

  /** `run_at` is the instant the run was logged, in seconds. */
  datatype CleanupRun = CleanupRun(
    runAt: int, cutoffDate: string, retentionDays: int, emailsDeleted: nat, emailsKept: nat)

  datatype Tables = Tables(
    emails: seq<Row>, fts: map<int, FtsEntry>, attachments: seq<AttachmentRow>,
    cleanupRuns: seq<CleanupRun>, nextRowid: int)

  // ---------------------------------------------------------------- the index

  /** The index the triggers are meant to maintain: one entry per row, under its rowid. */
  function IndexOf(rows: seq<Row>): map<int, FtsEntry> {
    if rows == [] then map[]
    else IndexOf(rows[..|rows| - 1])[rows[|rows| - 1].rowid := Project(rows[|rows| - 1].values)]
  }

  ghost predicate RowidsAscending(rows: seq<Row>) {
    forall i, j :: 0 <= i < j < |rows| ==> rows[i].rowid < rows[j].rowid
  }

  ghost predicate UniqueKeys(rows: seq<Row>) {
    forall i, j :: 0 <= i < j < |rows| ==>
      rows[i].values.gmailId != rows[j].values.gmailId && rows[i].values.messageId != rows[j].values.messageId
  }

  /**
   * The schema's guarantees: rowids ascend in table order and stay below the
   * next one to be assigned, `message_id` (PRIMARY KEY) and `gmail_id`
   * (UNIQUE) are unique, and the index equals the projection of the rows.
   */
  ghost predicate Consistent(t: Tables) {
    && RowidsAscending(t.emails)
    && (forall i :: 0 <= i < |t.emails| ==> t.emails[i].rowid < t.nextRowid)
    && UniqueKeys(t.emails)
    && t.fts == IndexOf(t.emails)
  }

  lemma {:induction false} IndexOfKeys(rows: seq<Row>)
    ensures forall k :: k in IndexOf(rows) <==> exists i :: 0 <= i < |rows| && rows[i].rowid == k
  {
    if rows != [] {
      var pre := rows[..|rows| - 1];
      IndexOfKeys(pre);
      forall k | k in IndexOf(rows) ensures exists i :: 0 <= i < |rows| && rows[i].rowid == k {
        if k != rows[|rows| - 1].rowid {
          assert k in IndexOf(pre);
          var i :| 0 <= i < |pre| && pre[i].rowid == k;
          assert rows[i].rowid == k;
        }
      }
      forall k | exists i :: 0 <= i < |rows| && rows[i].rowid == k ensures k in IndexOf(rows) {
        var i :| 0 <= i < |rows| && rows[i].rowid == k;
        if i < |pre| { assert pre[i].rowid == k; }
      }
    }
  }

  /** The `emails_au` trigger's effect: replacing a row's values re-indexes exactly that rowid. */
  lemma {:induction false} IndexOfUpdate(rows: seq<Row>, i: nat, v: EmailRow)
    requires i < |rows| && RowidsAscending(rows)
    ensures IndexOf(rows[i := Row(rows[i].rowid, v)])
         == (IndexOf(rows) - {rows[i].rowid})[rows[i].rowid := Project(v)]
  {
    var n := |rows| - 1;
    var updated := rows[i := Row(rows[i].rowid, v)];
    var pre := rows[..n];
    if i == n {
      assert updated[..n] == pre;
    } else {
      assert updated[..n] == pre[i := Row(rows[i].rowid, v)];
      IndexOfUpdate(pre, i, v);
      assert rows[i].rowid != rows[n].rowid;
    }
  }

  /** The `emails_ad` trigger's effect: removing a row drops exactly its rowid from the index. */
  lemma {:induction false} IndexOfRemove(rows: seq<Row>, i: nat)
    requires i < |rows| && RowidsAscending(rows)
    ensures IndexOf(rows[..i] + rows[i + 1..]) == IndexOf(rows) - {rows[i].rowid}
  {
    var n := |rows| - 1;
    var pre := rows[..n];
    assert rows == pre + [rows[n]];
    IndexOfAppend(pre, rows[n]);
    if i == n {
      assert rows[..i] + rows[i + 1..] == pre;
      IndexOfKeys(pre);
      assert rows[i].rowid !in IndexOf(pre);
      DropFresh(IndexOf(pre), rows[n].rowid, Project(rows[n].values));
    } else {
      var shorter := pre[..i] + pre[i + 1..];
      assert rows[..i] + rows[i + 1..] == shorter + [rows[n]];
      IndexOfAppend(shorter, rows[n]);
      IndexOfRemove(pre, i);
      assert rows[i].rowid < rows[n].rowid;
      DropOther(IndexOf(pre), rows[n].rowid, Project(rows[n].values), rows[i].rowid);
    }
  }

  lemma DropFresh<K, V>(m: map<K, V>, k: K, v: V)
    requires k !in m
    ensures m[k := v] - {k} == m
  {
  }

  lemma DropOther<K, V>(m: map<K, V>, k: K, v: V, j: K)
    requires k != j
    ensures (m - {j})[k := v] == m[k := v] - {j}
  {
  }

  /** The `emails_ai` trigger's effect: appending a row indexes its rowid. */
  lemma IndexOfAppend(rows: seq<Row>, r: Row)
    ensures IndexOf(rows + [r]) == IndexOf(rows)[r.rowid := Project(r.values)]
  {
    assert (rows + [r])[..|rows|] == rows;
  }

  // ---------------------------------------------------------------- statements

  function GmailIds(rows: seq<Row>): set<string> {
    set i | 0 <= i < |rows| :: rows[i].values.gmailId
  }

  /** `SELECT 1 FROM emails WHERE gmail_id = ?` finds a row. */
  predicate Archived(rows: seq<Row>, gmailId: string) {
    gmailId in GmailIds(rows)
  }

  /** An `INSERT` of these values would violate the PRIMARY KEY or the UNIQUE constraint. */
  predicate Conflicts(rows: seq<Row>, e: EmailRow) {
    exists i :: 0 <= i < |rows| && (rows[i].values.messageId == e.messageId || rows[i].values.gmailId == e.gmailId)
  }

  datatype DbError = IntegrityError

  /** `INSERT INTO emails ...`, which fires `emails_ai`. */
  function InsertEmail(t: Tables, e: EmailRow): Result<Tables, DbError> {
    if Conflicts(t.emails, e) then Err(IntegrityError)
    else
      Ok(t.(emails := t.emails + [Row(t.nextRowid, e)], fts := t.fts[t.nextRowid := Project(e)],
            nextRowid := t.nextRowid + 1))
  }

  /** An insert keeps the schema's guarantees, and fails exactly on a key clash. */
  lemma InsertEmailConsistent(t: Tables, e: EmailRow)
    requires Consistent(t)
    ensures InsertEmail(t, e).Err? <==> Conflicts(t.emails, e)
    ensures InsertEmail(t, e).Ok? ==> Consistent(InsertEmail(t, e).value)
    ensures InsertEmail(t, e).Ok? ==> Archived(InsertEmail(t, e).value.emails, e.gmailId)
  {
    if !Conflicts(t.emails, e) {
      var rows := t.emails + [Row(t.nextRowid, e)];
      IndexOfAppend(t.emails, Row(t.nextRowid, e));
      assert rows[|rows| - 1].values.gmailId == e.gmailId;
    }
  }

  /** `INSERT INTO attachments ...` */
  function InsertAttachments(t: Tables, rows: seq<AttachmentRow>): Tables {
    t.(attachments := t.attachments + rows)
  }

  function Flagged(r: Row, gmailId: string): Row {
    if r.values.gmailId == gmailId then Row(r.rowid, r.values.(deletedFromGmail := true)) else r
  }

  /** One iteration of the update: row `i` is flagged when it matches, the rest stay. */
  lemma FlagStep(before: seq<Row>, rows: seq<Row>, i: nat, gmailId: string)
    requires |rows| == |before| && i < |rows|
    requires forall j :: 0 <= j < i ==> rows[j] == Flagged(before[j], gmailId)
    requires forall j :: i <= j < |rows| ==> rows[j] == before[j]
    ensures var next := if rows[i].values.gmailId == gmailId then rows[i := Flagged(rows[i], gmailId)] else rows;
      && |next| == |before|
      && (forall j :: 0 <= j < i + 1 ==> next[j] == Flagged(before[j], gmailId))
      && (forall j :: i + 1 <= j < |next| ==> next[j] == before[j])
  {
  }

  /** `UPDATE emails SET deleted_from_gmail = 1 WHERE gmail_id = ?` on the rows. */
  function SetDeleted(rows: seq<Row>, gmailId: string): seq<Row> {
    seq(|rows|, i requires 0 <= i < |rows| => Flagged(rows[i], gmailId))
  }

  /** The same `UPDATE` with its `emails_au` trigger, on the tables. */
  function MarkDeleted(t: Tables, gmailId: string): Tables {
    var rows := SetDeleted(t.emails, gmailId);
    t.(emails := rows, fts := IndexOf(rows))
  }

  /**
   * The update sets the flag on the row with that `gmail_id` and changes
   * nothing else: other rows, other columns, rowids and order stay; with no
   * such row the tables are unchanged; the schema's guarantees hold after.
   */
  lemma MarkDeletedEffect(t: Tables, gmailId: string)
    requires Consistent(t)
    ensures var u := MarkDeleted(t, gmailId);
      && Consistent(u)
      && |u.emails| == |t.emails|
      && (forall i :: 0 <= i < |t.emails| && t.emails[i].values.gmailId == gmailId ==>
            u.emails[i] == Row(t.emails[i].rowid, t.emails[i].values.(deletedFromGmail := true)))
      && (forall i :: 0 <= i < |t.emails| && t.emails[i].values.gmailId != gmailId ==> u.emails[i] == t.emails[i])
      && (!Archived(t.emails, gmailId) ==> u == t)
      && u.attachments == t.attachments && u.cleanupRuns == t.cleanupRuns
  {
    var u := MarkDeleted(t, gmailId);
    MarkDeletedConsistent(t, gmailId);
    if !Archived(t.emails, gmailId) {
      forall i | 0 <= i < |t.emails| ensures u.emails[i] == t.emails[i] {
        assert t.emails[i].values.gmailId in GmailIds(t.emails);
      }
      assert u.emails == t.emails;
      assert u.fts == IndexOf(t.emails) == t.fts;
    }
  }

  lemma MarkDeletedConsistent(t: Tables, gmailId: string)
    requires Consistent(t)
    ensures Consistent(MarkDeleted(t, gmailId))
  {
    var rows := SetDeleted(t.emails, gmailId);
    forall a, b | 0 <= a < b < |rows|
      ensures rows[a].rowid < rows[b].rowid
      ensures rows[a].values.gmailId != rows[b].values.gmailId && rows[a].values.messageId != rows[b].values.messageId
    {
      assert rows[a].rowid == t.emails[a].rowid && rows[b].rowid == t.emails[b].rowid;
      assert t.emails[a].rowid < t.emails[b].rowid;
    }
    forall i | 0 <= i < |rows| ensures rows[i].rowid < t.nextRowid {
      assert rows[i].rowid == t.emails[i].rowid;
    }
  }

  /** `after` is `rows` without its row `i`, which has `gmail_id` `gmailId`. */
  ghost predicate RemovedAt(rows: seq<Row>, i: int, gmailId: string, after: seq<Row>) {
    0 <= i < |rows| && rows[i].values.gmailId == gmailId && after == rows[..i] + rows[i + 1..]
  }

  /** Removing a row together with its index entry keeps the schema's guarantees. */
  lemma RemoveConsistent(t: Tables, i: nat)
    requires Consistent(t) && i < |t.emails|
    ensures Consistent(t.(emails := t.emails[..i] + t.emails[i + 1..], fts := t.fts - {t.emails[i].rowid}))
  {
    IndexOfRemove(t.emails, i);
    RemoveKeepsOrder(t.emails, i, t.nextRowid);
  }

  /** With unique keys, dropping the row of a `gmail_id` leaves no row with it. */
  lemma RemovedGone(rows: seq<Row>, i: nat)
    requires i < |rows| && UniqueKeys(rows)
    ensures !Archived(rows[..i] + rows[i + 1..], rows[i].values.gmailId)
  {
    var after := rows[..i] + rows[i + 1..];
    forall j | 0 <= j < |after| ensures after[j].values.gmailId != rows[i].values.gmailId {
      if j >= i {
        assert after[j] == rows[j + 1];
      } else {
        assert after[j] == rows[j];
      }
    }
  }

  /** Dropping one row keeps rowids ascending, below the next rowid, and keys unique. */
  lemma RemoveKeepsOrder(emails: seq<Row>, i: nat, next: int)
    requires i < |emails| && RowidsAscending(emails) && UniqueKeys(emails)
    requires forall j :: 0 <= j < |emails| ==> emails[j].rowid < next
    ensures var rows := emails[..i] + emails[i + 1..];
      && RowidsAscending(rows) && UniqueKeys(rows)
      && forall j :: 0 <= j < |rows| ==> rows[j].rowid < next
  {
    var rows := emails[..i] + emails[i + 1..];
    forall a | 0 <= a < |rows| ensures rows[a] == emails[if a < i then a else a + 1] {
    }
    forall a, b | 0 <= a < b < |rows|
      ensures rows[a].rowid < rows[b].rowid
      ensures rows[a].values.gmailId != rows[b].values.gmailId && rows[a].values.messageId != rows[b].values.messageId
    {
      var a', b' := if a < i then a else a + 1, if b < i then b else b + 1;
      assert rows[a] == emails[a'] && rows[b] == emails[b'];
    }
  }

  /** Replacing a row's non-key columns, with the `emails_au` index update, keeps the schema's guarantees. */
  lemma UpdateConsistent(t: Tables, i: nat, v: EmailRow)
    requires Consistent(t) && i < |t.emails|
    requires v.gmailId == t.emails[i].values.gmailId && v.messageId == t.emails[i].values.messageId
    ensures var k := t.emails[i].rowid;
      Consistent(t.(emails := t.emails[i := Row(k, v)], fts := (t.fts - {k})[k := Project(v)]))
  {
    IndexOfUpdate(t.emails, i, v);
    var rows := t.emails[i := Row(t.emails[i].rowid, v)];
    forall a, b | 0 <= a < b < |rows|
      ensures rows[a].rowid < rows[b].rowid
      ensures rows[a].values.gmailId != rows[b].values.gmailId && rows[a].values.messageId != rows[b].values.messageId
    {
      assert t.emails[a].rowid < t.emails[b].rowid;
    }
  }

  /** `INSERT INTO cleanup_runs ...` */
  function AppendCleanupRun(t: Tables, run: CleanupRun): Tables {
    t.(cleanupRuns := t.cleanupRuns + [run])
  }

  // ---------------------------------------------------------------- the connection

  class Connection {
    var emails: seq<Row>
    var fts: map<int, FtsEntry>
    var attachments: seq<AttachmentRow>
    var cleanupRuns: seq<CleanupRun>
    var nextRowid: int
    /** The tables as of the last successful `commit()`. */
    var committed: Tables

    /** The tables as this connection sees them, its own pending writes included. */
    function Live(): Tables
      reads this
    {
      Tables(emails, fts, attachments, cleanupRuns, nextRowid)
    }

    ghost predicate Valid()
      reads this
    {
      Consistent(Live()) && Consistent(committed)
    }

    /** `init_db()` on a database file that holds `persisted` (empty on first run). */
    constructor Open(persisted: Tables)
      requires Consistent(persisted)
      ensures Valid() && Live() == persisted && committed == persisted
    {
      emails, fts, attachments := persisted.emails, persisted.fts, persisted.attachments;
      cleanupRuns, nextRowid := persisted.cleanupRuns, persisted.nextRowid;
      committed := persisted;
    }

    /** `SELECT 1 FROM emails WHERE gmail_id = ?` */
    method Exists(gmailId: string) returns (found: bool)
      ensures found <==> exists i :: 0 <= i < |emails| && emails[i].values.gmailId == gmailId
    {
      found := false;
      var i := 0;
      while i < |emails|
        invariant 0 <= i <= |emails|
        invariant found <==> exists j :: 0 <= j < i && emails[j].values.gmailId == gmailId
      {
        if emails[i].values.gmailId == gmailId {
          found := true;
        }
        i := i + 1;
      }
    }

    /** Whether an `INSERT` of `e` would violate a key constraint. */
    method HasConflict(e: EmailRow) returns (clash: bool)
      ensures clash == Conflicts(emails, e)
    {
      clash := false;
      for i := 0 to |emails|
        invariant clash <==> exists j :: 0 <= j < i && (emails[j].values.messageId == e.messageId || emails[j].values.gmailId == e.gmailId)
      {
        if emails[i].values.messageId == e.messageId || emails[i].values.gmailId == e.gmailId {
          clash := true;
        }
      }
    }

    /** `INSERT INTO emails`, then the `emails_ai` trigger adds the new row to the index. */
    method InsertEmailRow(e: EmailRow) returns (ok: bool)
      requires Valid()
      modifies this
      ensures Valid()
      ensures ok == InsertEmail(old(Live()), e).Ok?
      ensures Live() == if ok then InsertEmail(old(Live()), e).value else old(Live())
      ensures committed == old(committed)
    {
      var clash := HasConflict(e);
      if clash {
        return false;
      }
      InsertEmailConsistent(Live(), e);
      var row := Row(nextRowid, e);
      IndexOfAppend(emails, row);
      emails := emails + [row];
      fts := fts[row.rowid := Project(row.values)];
      nextRowid := nextRowid + 1;
      ok := true;
    }

    /** `INSERT INTO attachments` */
    method InsertAttachmentRow(a: AttachmentRow)
      requires Valid()
      modifies this
      ensures Valid()
      ensures Live() == InsertAttachments(old(Live()), [a])
      ensures committed == old(committed)
    {
      attachments := attachments + [a];
    }

    /**
     * `UPDATE emails SET deleted_from_gmail = 1 WHERE gmail_id = ?`, row by
     * row, each updated row firing `emails_au` (delete the old entry, insert
     * the new one).
     */
    method MarkDeletedFromGmail(gmailId: string)
      requires Valid()
      modifies this
      ensures Valid()
      ensures Live() == MarkDeleted(old(Live()), gmailId)
      ensures committed == old(committed)
    {
      ghost var before := emails;
      for i := 0 to |emails|
        invariant Consistent(Live())
        invariant |emails| == |before|
        invariant forall j :: 0 <= j < i ==> emails[j] == Flagged(before[j], gmailId)
        invariant forall j :: i <= j < |emails| ==> emails[j] == before[j]
        invariant committed == old(committed) && nextRowid == old(nextRowid)
        invariant attachments == old(attachments) && cleanupRuns == old(cleanupRuns)
      {
        ghost var rows := emails;
        if emails[i].values.gmailId == gmailId {
          var updated := Row(emails[i].rowid, emails[i].values.(deletedFromGmail := true));
          UpdateConsistent(Live(), i, updated.values);
          fts := (fts - {updated.rowid})[updated.rowid := Project(updated.values)];
          emails := emails[i := updated];
        }
        FlagStep(before, rows, i, gmailId);
      }
      assert emails == SetDeleted(before, gmailId);
    }

    /**
     * `DELETE FROM emails WHERE gmail_id = ?` with the `emails_ad` trigger:
     * the row with that `gmail_id`, if any, leaves the table and the index,
     * and every other row stays, in order. The archiver never deletes a
     * row; this shows the trigger keeps the index consistent all the same.
     */
    method DeleteByGmailId(gmailId: string)
      requires Valid()
      modifies this
      ensures Valid()
      ensures !Archived(old(emails), gmailId) ==> emails == old(emails)
      ensures Archived(old(emails), gmailId) ==>
        exists i :: RemovedAt(old(emails), i, gmailId, emails)
      ensures !Archived(emails, gmailId)
      ensures fts == IndexOf(emails)
      ensures attachments == old(attachments) && cleanupRuns == old(cleanupRuns) && committed == old(committed)
    {
      var i := 0;
      while i < |emails| && emails[i].values.gmailId != gmailId
        invariant 0 <= i <= |emails|
        invariant forall j :: 0 <= j < i ==> emails[j].values.gmailId != gmailId
      {
        i := i + 1;
      }
      if i < |emails| {
        ghost var before := emails;
        RemoveConsistent(Live(), i);
        fts := fts - {emails[i].rowid};
        emails := emails[..i] + emails[i + 1..];
        assert RemovedAt(before, i, gmailId, emails);
        RemovedGone(before, i);
      }
    }

    /** `INSERT INTO cleanup_runs` */
    method AppendCleanupRunRow(run: CleanupRun)
      requires Valid()
      modifies this
      ensures Valid()
      ensures Live() == AppendCleanupRun(old(Live()), run)
      ensures committed == old(committed)
    {
      cleanupRuns := cleanupRuns + [run];
    }

    /**
     * `conn.commit()`. When it raises (`fails`) nothing is made durable and
     * the pending writes stay open for the next commit; nothing rolls back.
     */
    method Commit(fails: bool) returns (ok: bool)
      requires Valid()
      modifies this
      ensures Valid()
      ensures ok == !fails
      ensures Live() == old(Live())
      ensures committed == if ok then Live() else old(committed)
    {
      if fails {
        return false;
      }
      committed := Live();
      ok := true;
    }
  }

  // ---------------------------------------------------------------- print_stats

  /** The first `print_stats` query; the sums are `None` (SQL NULL) on an empty table. */
  datatype Stats = Stats(
    total: nat, deleted: Option<nat>, withAttachments: Option<nat>, totalAttachments: Option<nat>,
    oldest: Option<string>, newest: Option<string>)

  /** The number of rows satisfying `p`, as a `SUM(CASE WHEN ... THEN 1 ELSE 0 END)` counts them. */
  function CountWhere(rows: seq<Row>, p: Row -> bool): (n: nat)
    ensures n <= |rows|
  {
    if rows == [] then 0 else (if p(rows[0]) then 1 else 0) + CountWhere(rows[1..], p)
  }

  predicate IsDeleted(r: Row) { r.values.deletedFromGmail }

  predicate HasAttachments(r: Row) { r.values.hasAttachments }

  /** `SUM(CASE WHEN deleted_from_gmail = 1 THEN 1 ELSE 0 END)`: the number of flagged rows. */
  function CountDeleted(rows: seq<Row>): (n: nat)
    ensures n <= |rows|
    ensures n == |set i | 0 <= i < |rows| && rows[i].values.deletedFromGmail|
  {
    var p: Row -> bool := IsDeleted;
    CountWhereAll(rows, p);
    assert (set i | 0 <= i < |rows| && p(rows[i])) == (set i | 0 <= i < |rows| && rows[i].values.deletedFromGmail);
    CountWhere(rows, p)
  }

  /** `SUM(has_attachments)`: the number of rows with attachments. */
  function CountWithAttachments(rows: seq<Row>): (n: nat)
    ensures n <= |rows|
    ensures n == |set i | 0 <= i < |rows| && rows[i].values.hasAttachments|
  {
    var p: Row -> bool := HasAttachments;
    CountWhereAll(rows, p);
    assert (set i | 0 <= i < |rows| && p(rows[i])) == (set i | 0 <= i < |rows| && rows[i].values.hasAttachments);
    CountWhere(rows, p)
  }

  lemma {:induction false} CountWhereAppend(a: seq<Row>, b: seq<Row>, p: Row -> bool)
    ensures CountWhere(a + b, p) == CountWhere(a, p) + CountWhere(b, p)
  {
    if a == [] {
      assert a + b == b;
    } else {
      assert (a + b)[1..] == a[1..] + b;
      CountWhereAppend(a[1..], b, p);
    }
  }

  /** Counting the first `k` rows counts the indices below `k` whose row satisfies `p`. */
  lemma {:induction false} CountWhereIndices(rows: seq<Row>, p: Row -> bool, k: nat)
    requires k <= |rows|
    ensures CountWhere(rows[..k], p) == |set i | 0 <= i < k && p(rows[i])|
  {
    if k > 0 {
      CountWhereIndices(rows, p, k - 1);
      assert rows[..k] == rows[..k - 1] + [rows[k - 1]];
      CountWhereAppend(rows[..k - 1], [rows[k - 1]], p);
      var before := set i | 0 <= i < k - 1 && p(rows[i]);
      var after := set i | 0 <= i < k && p(rows[i]);
      if p(rows[k - 1]) {
        assert after == before + {k - 1};
      } else {
        assert after == before;
      }
    }
  }

  lemma CountWhereAll(rows: seq<Row>, p: Row -> bool)
    ensures CountWhere(rows, p) == |set i | 0 <= i < |rows| && p(rows[i])|
  {
    CountWhereIndices(rows, p, |rows|);
    assert rows[..|rows|] == rows;
  }

  function SumAttachmentCount(rows: seq<Row>): nat {
    if rows == [] then 0 else rows[0].values.attachmentCount + SumAttachmentCount(rows[1..])
  }

  /** `SUM(attachment_count)` adds up row by row: it is additive and a single row gives its own count. */
  lemma {:induction false} SumAttachmentCountAppend(a: seq<Row>, b: seq<Row>)
    ensures SumAttachmentCount(a + b) == SumAttachmentCount(a) + SumAttachmentCount(b)
    ensures |a| == 1 ==> SumAttachmentCount(a) == a[0].values.attachmentCount
  {
    if a == [] {
      assert a + b == b;
    } else {
      assert (a + b)[1..] == a[1..] + b;
      SumAttachmentCountAppend(a[1..], b);
    }
  }

  /**
   * When every row's `has_attachments` says whether its `attachment_count`
   * is positive (as the rows `backup_emails` inserts do), no more rows have
   * attachments than there are attachments.
   */
  lemma {:induction false} WithAttachmentsBounded(rows: seq<Row>)
    requires forall i :: 0 <= i < |rows| ==> (rows[i].values.hasAttachments <==> rows[i].values.attachmentCount > 0)
    ensures CountWhere(rows, HasAttachments) <= SumAttachmentCount(rows)
  {
    if rows != [] {
      WithAttachmentsBounded(rows[1..]);
    }
  }

  /** `a <= b` between TEXT values under SQLite's BINARY collation: code-point lexicographic. */
  predicate TextLe(a: string, b: string) {
    a == [] || (b != [] && (a[0] < b[0] || (a[0] == b[0] && TextLe(a[1..], b[1..]))))
  }

  lemma {:induction false} TextLeTotal(a: string, b: string)
    ensures TextLe(a, b) || TextLe(b, a)
  {
    if a != [] && b != [] && a[0] == b[0] {
      TextLeTotal(a[1..], b[1..]);
    }
  }

  lemma {:induction false} TextLeTrans(a: string, b: string, c: string)
    requires TextLe(a, b) && TextLe(b, c)
    ensures TextLe(a, c)
  {
    if a != [] && b != [] && c != [] && a[0] == b[0] && b[0] == c[0] {
      TextLeTrans(a[1..], b[1..], c[1..]);
    }
  }

  /** `MIN(date)` / `MAX(date)` over the TEXT column. */
  function MinText(rows: seq<Row>): string
    requires rows != []
  {
    if |rows| == 1 then rows[0].values.date
    else
      var rest := MinText(rows[1..]);
      if TextLe(rows[0].values.date, rest) then rows[0].values.date else rest
  }

  function MaxText(rows: seq<Row>): string
    requires rows != []
  {
    if |rows| == 1 then rows[0].values.date
    else
      var rest := MaxText(rows[1..]);
      if TextLe(rest, rows[0].values.date) then rows[0].values.date else rest
  }

  /** `MIN(date)` is some row's date and no row's date sorts before it. */
  lemma {:induction false} MinTextSpec(rows: seq<Row>)
    requires rows != []
    ensures exists i :: 0 <= i < |rows| && rows[i].values.date == MinText(rows)
    ensures forall i :: 0 <= i < |rows| ==> TextLe(MinText(rows), rows[i].values.date)
  {
    var d := rows[0].values.date;
    if |rows| == 1 {
      assert rows[0].values.date == MinText(rows);
      TextLeRefl(d);
    } else {
      var tail := rows[1..];
      var rest := MinText(tail);
      MinTextSpec(tail);
      var k :| 0 <= k < |tail| && tail[k].values.date == rest;
      assert rows[k + 1].values.date == rest;
      TextLeTotal(d, rest);
      forall i | 0 <= i < |rows| ensures TextLe(MinText(rows), rows[i].values.date) {
        if i == 0 {
          TextLeRefl(d);
        } else {
          assert rows[i] == tail[i - 1];
          if TextLe(d, rest) {
            TextLeTrans(d, rest, rows[i].values.date);
          }
        }
      }
    }
  }

  /** `MAX(date)` is some row's date and no row's date sorts after it. */
  lemma {:induction false} MaxTextSpec(rows: seq<Row>)
    requires rows != []
    ensures exists i :: 0 <= i < |rows| && rows[i].values.date == MaxText(rows)
    ensures forall i :: 0 <= i < |rows| ==> TextLe(rows[i].values.date, MaxText(rows))
  {
    var d := rows[0].values.date;
    if |rows| == 1 {
      assert rows[0].values.date == MaxText(rows);
      TextLeRefl(d);
    } else {
      var tail := rows[1..];
      var rest := MaxText(tail);
      MaxTextSpec(tail);
      var k :| 0 <= k < |tail| && tail[k].values.date == rest;
      assert rows[k + 1].values.date == rest;
      TextLeTotal(rest, d);
      forall i | 0 <= i < |rows| ensures TextLe(rows[i].values.date, MaxText(rows)) {
        if i == 0 {
          TextLeRefl(d);
        } else {
          assert rows[i] == tail[i - 1];
          if TextLe(rest, d) {
            TextLeTrans(rows[i].values.date, rest, d);
          }
        }
      }
    }
  }

  lemma {:induction false} TextLeRefl(a: string)
    ensures TextLe(a, a)
  {
    if a != [] {
      TextLeRefl(a[1..]);
    }
  }

  /** The aggregate query of `print_stats`, as written: the date range compares the date TEXT. */
  function StatsOf(rows: seq<Row>): (s: Stats)
    ensures s.total == |rows|
    ensures rows == [] <==> s.deleted.None?
    ensures s.deleted.Some? ==> s.deleted.value <= s.total && s.withAttachments.Some? && s.withAttachments.value <= s.total
    ensures rows == [] ==> s.withAttachments.None? && s.totalAttachments.None? && s.oldest.None? && s.newest.None?
  {
    if rows == [] then Stats(0, None, None, None, None, None)
    else Stats(|rows|, Some(CountDeleted(rows)), Some(CountWithAttachments(rows)), Some(SumAttachmentCount(rows)),
               Some(MinText(rows)), Some(MaxText(rows)))
  }

  /**
   * On a non-empty table the statistics report the number of flagged rows,
   * the number of rows with attachments, and as oldest and newest a stored
   * date that no other date sorts before, respectively after, as TEXT.
   */
  lemma StatsOfValues(rows: seq<Row>)
    requires rows != []
    ensures var s := StatsOf(rows);
      && s.deleted == Some(|set i | 0 <= i < |rows| && rows[i].values.deletedFromGmail|)
      && s.withAttachments == Some(|set i | 0 <= i < |rows| && rows[i].values.hasAttachments|)
      && s.oldest.Some? && (exists i :: 0 <= i < |rows| && rows[i].values.date == s.oldest.value)
      && (forall i :: 0 <= i < |rows| ==> TextLe(s.oldest.value, rows[i].values.date))
      && s.newest.Some? && (exists i :: 0 <= i < |rows| && rows[i].values.date == s.newest.value)
      && (forall i :: 0 <= i < |rows| ==> TextLe(rows[i].values.date, s.newest.value))
  {
    MinTextSpec(rows);
    MaxTextSpec(rows);
  }

  /** Rows flagged `deleted_from_gmail` are counted by the statistics, and counting is additive. */
  lemma CountDeletedAppend(a: seq<Row>, b: seq<Row>)
    ensures CountDeleted(a + b) == CountDeleted(a) + CountDeleted(b)
  {
    CountWhereAppend(a, b, IsDeleted);
  }

  /**
   * The date range as the statistics evidently mean it: the earliest and
   * latest `date_epoch` among the rows.
   */
  function EpochRange(rows: seq<Row>): (r: (int, int))
    requires rows != []
    ensures forall i :: 0 <= i < |rows| ==> r.0 <= rows[i].values.dateEpoch <= r.1
    ensures exists i :: 0 <= i < |rows| && rows[i].values.dateEpoch == r.0
    ensures exists i :: 0 <= i < |rows| && rows[i].values.dateEpoch == r.1
  {
    if |rows| == 1 then (rows[0].values.dateEpoch, rows[0].values.dateEpoch)
    else
      var rest := EpochRange(rows[1..]);
      var e := rows[0].values.dateEpoch;
      assert forall i :: 1 <= i < |rows| ==> rows[i] == rows[1..][i - 1];
      (if e <= rest.0 then e else rest.0, if e >= rest.1 then e else rest.1)
  }

  function DatedRow(rowid: int, date: string, epoch: int): Row {
    Row(rowid, EmailRow("<" + date + ">", date, "", "", "", "", date, epoch, [], "", "", false, 0, "", "", false))
  }

  /**
   * The TEXT comparison starts with the weekday name, so a 2021 message
   * sorts before a 2020 one: the reported "oldest" is the newer message.
   */
  lemma TextDateRangeMisorders()
    ensures var older := DatedRow(1, "Wed, 01 Jan 2020 00:00:00 +0000", 1577836800);
      var newer := DatedRow(2, "Fri, 01 Jan 2021 00:00:00 +0000", 1609459200);
      && older.values.dateEpoch < newer.values.dateEpoch
      && StatsOf([older, newer]).oldest == Some(newer.values.date)
      && StatsOf([older, newer]).newest == Some(older.values.date)
      && EpochRange([older, newer]) == (older.values.dateEpoch, newer.values.dateEpoch)
  {
    var older := DatedRow(1, "Wed, 01 Jan 2020 00:00:00 +0000", 1577836800);
    var newer := DatedRow(2, "Fri, 01 Jan 2021 00:00:00 +0000", 1609459200);
    assert [older, newer][1..] == [newer];
    assert !TextLe(older.values.date, newer.values.date);
    assert TextLe(newer.values.date, older.values.date);
  }

  /** The second `print_stats` query: `ORDER BY run_at DESC LIMIT 10`. */
  function RecentCleanupRuns(runs: seq<CleanupRun>): seq<CleanupRun> {
    TopDesc(runs, RunAt, 10)
  }

  /**
   * The ten (or fewer) latest runs, newest first, all taken from the table;
   * no run is left out that is later than one shown.
   */
  lemma RecentCleanupRunsSpec(runs: seq<CleanupRun>)
    ensures var r := RecentCleanupRuns(runs);
      && |r| == Min(10, |runs|)
      && (forall i, j :: 0 <= i < j < |r| ==> r[i].runAt >= r[j].runAt)
      && multiset(r) <= multiset(runs)
      && forall x, y :: x in runs && x !in r && y in r ==> y.runAt >= x.runAt
  {
    var r := RecentCleanupRuns(runs);
    TopDescSpec(runs, RunAt, 10);
    forall i, j | 0 <= i < j < |r| ensures r[i].runAt >= r[j].runAt {
      assert RunAt(r[i]) >= RunAt(r[j]);
    }
    forall x, y | x in runs && x !in r && y in r ensures y.runAt >= x.runAt {
      assert RunAt(y) >= RunAt(x);
    }
  }

  function RunAt(run: CleanupRun): int { run.runAt }
}
