/**
 * The retention pass, `cleanup_old_emails` of email-backup/cleanup.py, and
 * the older copy in email-backup/backup.py that has no dry run and sends no
 * notification. It lists every message older than the cutoff, keeps the
 * ones that carry the keep label, moves the rest to the trash and flags
 * their local rows, then logs the run in `cleanup_runs`. Local backups are
 * never deleted.
 *
 * The specification is a fold of `Step` over the listed ids; the methods
 * below are the loops of the source, proved against it.
 */
module Cleanup {
  import opened Wrappers
  import opened Mailbox
  import opened Store
  import opened Seqs

  /** `deleted`, `kept`, and the candidates whose processing raised (logged and skipped). */
  datatype Counts = Counts(deleted: nat, kept: nat, failed: nat)

  function Handled(c: Counts): nat { c.deleted + c.kept + c.failed }

  /**
   * What the pass has done so far: the tables as the connection sees them,
   * the tables as last committed, the ids whose `trash` call went through,
   * in order, and the counts.
   */
  datatype CleanState = CleanState(live: Tables, committed: Tables, trashed: seq<GmailId>, counts: Counts)

  /** The fixed inputs of the per-candidate step; `commitFails(g)` says that the commit after flagging `g` raises. */
  datatype Pass = Pass(mailbox: Mailbox, keepLabelId: Option<LabelId>, dryRun: bool, commitFails: GmailId -> bool)

  /** `keep_label_id and keep_label_id in current_labels` */
  predicate Keeps(keepLabelId: Option<LabelId>, labels: seq<LabelId>) {
    Resolved(keepLabelId) && keepLabelId.value in labels
  }

  function Fail(st: CleanState): CleanState {
    st.(counts := st.counts.(failed := st.counts.failed + 1))
  }

  function Delete(st: CleanState): CleanState {
    st.(counts := st.counts.(deleted := st.counts.deleted + 1))
  }

  /**
   * The body of the inner `for` loop for one candidate: fetch its labels,
   * keep it, count it in a dry run, or trash it, flag its row and commit.
   * Any exception on the way counts the candidate as failed.
   */
  function Step(pass: Pass, st: CleanState, g: GmailId): CleanState {
    match pass.mailbox.fetchLabels(g)
    case None => Fail(st)
    case Some(labels) =>
      if Keeps(pass.keepLabelId, labels) then st.(counts := st.counts.(kept := st.counts.kept + 1))
      else if pass.dryRun then Delete(st)
      else if pass.mailbox.trashFails(g) then Fail(st)
      else Flag(pass.commitFails(g), st.(trashed := st.trashed + [g], live := MarkDeleted(st.live, g)))
  }

  /** `conn.commit()` after the `UPDATE`: the candidate counts as deleted only when it succeeds. */
  function Flag(commitFails: bool, st: CleanState): CleanState {
    if commitFails then Fail(st) else Delete(st.(committed := st.live))
  }

  /** The candidates handled in order. */
  function Sweep(pass: Pass, st: CleanState, ids: seq<GmailId>): CleanState
    decreases |ids|, 1
  {
    if ids == [] then st else SweepThrough(pass, st, ids)
  }

  /** The state once the last of `ids` is handled. */
  function SweepThrough(pass: Pass, st: CleanState, ids: seq<GmailId>): CleanState
    requires ids != []
    decreases |ids|, 0
  {
    Step(pass, Sweep(pass, st, ids[..|ids| - 1]), ids[|ids| - 1])
  }

  lemma SweepLast(pass: Pass, st: CleanState, ids: seq<GmailId>)
    requires ids != []
    ensures Sweep(pass, st, ids) == Step(pass, Sweep(pass, st, ids[..|ids| - 1]), ids[|ids| - 1])
  {
    assert Sweep(pass, st, ids) == SweepThrough(pass, st, ids);
  }

  lemma SweepSnoc(pass: Pass, st: CleanState, ids: seq<GmailId>, g: GmailId)
    ensures Sweep(pass, st, ids + [g]) == Step(pass, Sweep(pass, st, ids), g)
  {
    assert (ids + [g])[..|ids|] == ids;
    SweepLast(pass, st, ids + [g]);
  }

  // ---------------------------------------------------------------- the counts

  /** What happens to one candidate, as far as the counts go. */
  datatype Verdict = Kept | Deleted | Failed

  /** The verdict read off the source's branches, independently of the tables. */
  function VerdictOf(pass: Pass, g: GmailId): Verdict {
    match pass.mailbox.fetchLabels(g)
    case None => Failed
    case Some(labels) =>
      if Keeps(pass.keepLabelId, labels) then Kept
      else if pass.dryRun then Deleted
      else if pass.mailbox.trashFails(g) || pass.commitFails(g) then Failed
      else Deleted
  }

  function Bump(c: Counts, v: Verdict): Counts {
    match v
    case Kept => c.(kept := c.kept + 1)
    case Deleted => c.(deleted := c.deleted + 1)
    case Failed => c.(failed := c.failed + 1)
  }

  /** The counts after the verdicts of `ids`, one at a time. */
  function Tally(pass: Pass, c: Counts, ids: seq<GmailId>): Counts {
    if ids == [] then c else Bump(Tally(pass, c, ids[..|ids| - 1]), VerdictOf(pass, ids[|ids| - 1]))
  }

  /** Each candidate moves exactly one count by one, as its verdict says; the tables play no part. */
  lemma StepCounts(pass: Pass, st: CleanState, g: GmailId)
    ensures Step(pass, st, g).counts == Bump(st.counts, VerdictOf(pass, g))
  {
  }

  /** The counts of a sweep are the tally of the verdicts of its candidates. */
  lemma {:induction false} SweepTally(pass: Pass, st: CleanState, ids: seq<GmailId>)
    ensures Sweep(pass, st, ids).counts == Tally(pass, st.counts, ids)
  {
    if ids != [] {
      var pre := ids[..|ids| - 1];
      SweepTally(pass, st, pre);
      SweepLast(pass, st, ids);
      StepCounts(pass, Sweep(pass, st, pre), ids[|ids| - 1]);
    }
  }

  /**
   * Every candidate is deleted, kept or failed, exactly one of them, so the
   * three counts together grow by the number of candidates.
   */
  lemma {:induction false} TallyHandlesAll(pass: Pass, c: Counts, ids: seq<GmailId>)
    ensures Handled(Tally(pass, c, ids)) == Handled(c) + |ids|
  {
    if ids != [] {
      TallyHandlesAll(pass, c, ids[..|ids| - 1]);
    }
  }

  /** The ids among `ids` whose labels carry the keep label. */
  function KeptIds(pass: Pass, ids: seq<GmailId>): seq<GmailId> {
    if ids == [] then []
    else
      var g := ids[|ids| - 1];
      var labels := pass.mailbox.fetchLabels(g);
      KeptIds(pass, ids[..|ids| - 1]) + (if labels.Some? && Keeps(pass.keepLabelId, labels.value) then [g] else [])
  }

  /**
   * `kept` counts exactly the candidates whose fetched labels contain the
   * resolved keep label; when the keep label does not exist nothing is kept.
   */
  lemma {:induction false} TallyKept(pass: Pass, c: Counts, ids: seq<GmailId>)
    ensures Tally(pass, c, ids).kept == c.kept + |KeptIds(pass, ids)|
    ensures !Resolved(pass.keepLabelId) ==> Tally(pass, c, ids).kept == c.kept
  {
    if ids != [] {
      TallyKept(pass, c, ids[..|ids| - 1]);
    }
  }

  /**
   * A dry run keeps the same candidates as the real run and handles the
   * same number; the two agree on `deleted` too when no `trash` call and no
   * commit of the real run fails. The real run counts a failed trash or
   * commit as a failure, which the dry run, calling neither, counts as deleted.
   */
  lemma {:induction false} DryRunPreviewsCounts(pass: Pass, c: Counts, ids: seq<GmailId>)
    requires !pass.dryRun
    ensures var dry := Tally(pass.(dryRun := true), c, ids);
      var wet := Tally(pass, c, ids);
      && dry.kept == wet.kept
      && dry.deleted + dry.failed == wet.deleted + wet.failed
      && dry.deleted >= wet.deleted
      && ((forall k :: 0 <= k < |ids| ==> !pass.mailbox.trashFails(ids[k]) && !pass.commitFails(ids[k])) ==> dry == wet)
  {
    if ids != [] {
      var pre := ids[..|ids| - 1];
      DryRunPreviewsCounts(pass, c, pre);
      if forall k :: 0 <= k < |ids| ==> !pass.mailbox.trashFails(ids[k]) && !pass.commitFails(ids[k]) {
        assert forall k :: 0 <= k < |pre| ==> ids[k] == pre[k];
      }
    }
  }

  /** A candidate whose `trash` call raises: kept by neither run, deleted in the preview only. */
  lemma DryRunCountsDifferOnTrashFailure(pass: Pass, c: Counts, g: GmailId)
    requires !pass.dryRun && pass.mailbox.fetchLabels(g) == Some([]) && pass.mailbox.trashFails(g)
    ensures Tally(pass.(dryRun := true), c, [g]).deleted == c.deleted + 1
    ensures Tally(pass, c, [g]).deleted == c.deleted
  {
    assert [g][..0] == [];
  }

  // ---------------------------------------------------------------- the tables

  /**
   * `after` is `before` with the deleted flag set on every row whose
   * `gmail_id` is in `trashed`: same rows, same order, same rowids, no
   * other column touched.
   */
  ghost predicate FlaggedFrom(before: seq<Row>, after: seq<Row>, trashed: seq<GmailId>) {
    && |after| == |before|
    && forall i :: 0 <= i < |before| ==>
         after[i] == Row(before[i].rowid, before[i].values.(deletedFromGmail :=
           before[i].values.deletedFromGmail || before[i].values.gmailId in trashed))
  }

  /** What the sweep keeps true from its start `st0`. */
  ghost predicate SweepInv(st0: CleanState, st: CleanState) {
    && Consistent(st.live) && Consistent(st.committed)
    && FlaggedFrom(st0.live.emails, st.live.emails, st.trashed)
    && st.live.attachments == st0.live.attachments
    && st.live.cleanupRuns == st0.live.cleanupRuns
    && st.live.nextRowid == st0.live.nextRowid
  }

  lemma FlaggedFromSnoc(before: seq<Row>, mid: seq<Row>, trashed: seq<GmailId>, g: GmailId)
    requires FlaggedFrom(before, mid, trashed)
    ensures FlaggedFrom(before, SetDeleted(mid, g), trashed + [g])
  {
    var after := SetDeleted(mid, g);
    forall i | 0 <= i < |before|
      ensures after[i] == Row(before[i].rowid, before[i].values.(deletedFromGmail :=
        before[i].values.deletedFromGmail || before[i].values.gmailId in trashed + [g]))
    {
      assert before[i].values.gmailId in trashed + [g] <==> before[i].values.gmailId in trashed || before[i].values.gmailId == g;
    }
  }

  lemma StepInv(pass: Pass, st0: CleanState, st: CleanState, g: GmailId)
    requires st0.trashed == [] && SweepInv(st0, st)
    ensures SweepInv(st0, Step(pass, st, g))
  {
    var labels := pass.mailbox.fetchLabels(g);
    if labels.Some? && !Keeps(pass.keepLabelId, labels.value) && !pass.dryRun && !pass.mailbox.trashFails(g) {
      MarkDeletedConsistent(st.live, g);
      FlaggedFromSnoc(st0.live.emails, st.live.emails, st.trashed, g);
    }
  }

  /**
   * A sweep from a consistent store keeps the schema's guarantees, never
   * removes a local row, and flags exactly the rows of the trashed ids;
   * attachments and the cleanup log stay as they are.
   */
  lemma {:induction false} SweepKeepsBackups(pass: Pass, st0: CleanState, ids: seq<GmailId>)
    requires st0.trashed == [] && Consistent(st0.live) && Consistent(st0.committed)
    ensures SweepInv(st0, Sweep(pass, st0, ids))
  {
    if ids == [] {
      forall i | 0 <= i < |st0.live.emails|
        ensures st0.live.emails[i].values.(deletedFromGmail := st0.live.emails[i].values.deletedFromGmail || st0.live.emails[i].values.gmailId in st0.trashed)
             == st0.live.emails[i].values
      {
      }
    } else {
      var pre := ids[..|ids| - 1];
      SweepKeepsBackups(pass, st0, pre);
      SweepLast(pass, st0, ids);
      StepInv(pass, st0, Sweep(pass, st0, pre), ids[|ids| - 1]);
    }
  }

  /** Why `g` was trashed: its labels were fetched, the keep label is not among them, the run is real and `trash` went through. */
  predicate TrashedFor(pass: Pass, g: GmailId) {
    && !pass.dryRun
    && pass.mailbox.fetchLabels(g).Some?
    && !Keeps(pass.keepLabelId, pass.mailbox.fetchLabels(g).value)
    && !pass.mailbox.trashFails(g)
  }

  /** The candidates among `ids` that a pass trashes, in listing order. */
  function TrashedIds(pass: Pass, ids: seq<GmailId>): seq<GmailId> {
    if ids == [] then []
    else TrashedIds(pass, ids[..|ids| - 1]) + (if TrashedFor(pass, ids[|ids| - 1]) then [ids[|ids| - 1]] else [])
  }

  /** A candidate is among the trashed exactly when it is listed and nothing kept or stopped it; a dry run trashes none. */
  lemma {:induction false} TrashedIdsMembers(pass: Pass, ids: seq<GmailId>)
    ensures forall g :: g in TrashedIds(pass, ids) <==> g in ids && TrashedFor(pass, g)
    ensures pass.dryRun ==> TrashedIds(pass, ids) == []
  {
    if ids != [] {
      var pre := ids[..|ids| - 1];
      TrashedIdsMembers(pass, pre);
      assert ids == pre + [ids[|ids| - 1]];
    }
  }

  /**
   * The `trash` calls that go through are exactly those of the listed
   * candidates that a real run fetched, did not keep and could trash, in
   * listing order.
   */
  lemma {:induction false} SweepTrashes(pass: Pass, st: CleanState, ids: seq<GmailId>)
    ensures Sweep(pass, st, ids).trashed == st.trashed + TrashedIds(pass, ids)
  {
    if ids != [] {
      var pre := ids[..|ids| - 1];
      var g := ids[|ids| - 1];
      var mid := Sweep(pass, st, pre);
      SweepTrashes(pass, st, pre);
      SweepLast(pass, st, ids);
      assert Step(pass, mid, g).trashed == mid.trashed + (if TrashedFor(pass, g) then [g] else []);
      AppendAssoc(st.trashed, TrashedIds(pass, pre), if TrashedFor(pass, g) then [g] else []);
    }
  }

  /**
   * Retention as the store sees it: after a sweep every row keeps its place
   * and rowid, and its deleted flag is set exactly when it was set before or
   * its message was listed and trashed.
   */
  lemma SweepFlagsTrashed(pass: Pass, st0: CleanState, ids: seq<GmailId>)
    requires st0.trashed == [] && Consistent(st0.live) && Consistent(st0.committed)
    ensures var before := st0.live.emails; var after := Sweep(pass, st0, ids).live.emails;
      && |after| == |before|
      && forall i :: 0 <= i < |before| ==>
           && after[i].rowid == before[i].rowid
           && (after[i].values.deletedFromGmail <==>
                 before[i].values.deletedFromGmail
                 || (before[i].values.gmailId in ids && TrashedFor(pass, before[i].values.gmailId)))
  {
    SweepKeepsBackups(pass, st0, ids);
    SweepTrashes(pass, st0, ids);
    TrashedIdsMembers(pass, ids);
    assert Sweep(pass, st0, ids).trashed == TrashedIds(pass, ids);
  }

  /** A dry run touches neither store nor mailbox: only the counts move. */
  lemma {:induction false} DryRunTouchesNothing(pass: Pass, st: CleanState, ids: seq<GmailId>)
    requires pass.dryRun
    ensures Sweep(pass, st, ids) == st.(counts := Sweep(pass, st, ids).counts)
  {
    if ids != [] {
      DryRunTouchesNothing(pass, st, ids[..|ids| - 1]);
      SweepLast(pass, st, ids);
    }
  }

  // ---------------------------------------------------------------- the run

  /**
   * The instants the run takes from the clock: the `before:` date of the
   * listing query (`%Y/%m/%d`), the cutoff day logged (`%Y-%m-%d`), and the
   * time the run is logged.
   */
  datatype Clock = Clock(cutoffQuery: string, cutoffDay: string, runAt: int)

  /** Faults of the store: per-candidate commits, and the commit of the audit row. */
  datatype Faults = Faults(commitFails: GmailId -> bool, logCommitFails: bool)

  /**
   * One call of `cleanup_old_emails`; `notifies` is false for the copy in
   * email-backup/backup.py, which sends no notification.
   */
  datatype Request = Request(
    mailbox: Mailbox, keepLabel: string, retentionDays: int, clock: Clock, faults: Faults,
    dryRun: bool, notifies: bool)

  /**
   * How the call ends: the final state, whether the listing raised (caught,
   * it ends the loop), whether the commit of the audit row raised (uncaught,
   * it ends the call), and whether the completion notice was sent.
   */
  datatype Outcome = Outcome(state: CleanState, listingFailed: bool, raised: bool, notified: bool)

  function PassOf(req: Request): Pass {
    Pass(req.mailbox, LabelIdOf(req.mailbox.labels, req.keepLabel), req.dryRun, req.faults.commitFails)
  }

  function Listing(req: Request): seq<ListResult> {
    req.mailbox.listBefore("before:" + req.clock.cutoffQuery)
  }

  function AuditRow(req: Request, c: Counts): CleanupRun {
    CleanupRun(req.clock.runAt, req.clock.cutoffDay, req.retentionDays, c.deleted, c.kept)
  }

  function Run(req: Request, live: Tables, committed: Tables): Outcome {
    var p := Paginate(Listing(req));
    var s := Sweep(PassOf(req), CleanState(live, committed, [], Counts(0, 0, 0)), p.ids);
    if req.dryRun then Outcome(s, p.failed, false, false)
    else
      var logged := s.(live := AppendCleanupRun(s.live, AuditRow(req, s.counts)));
      if req.faults.logCommitFails then Outcome(logged, p.failed, true, false)
      else Outcome(logged.(committed := logged.live), p.failed, false, req.notifies)
  }

  /**
   * The run's audit trail: a real run appends exactly one `cleanup_runs`
   * row carrying its final counts, the cutoff day and the retention days,
   * even when the listing failed partway, and notifies when asked to and
   * the row was committed; a dry run leaves the store as it was, trashes
   * nothing, logs nothing and sends nothing. Either way the counts are
   * those of the candidates listed before the listing stopped.
   */
  lemma RunAudit(req: Request, live: Tables, committed: Tables)
    ensures var o := Run(req, live, committed);
      var ids := Paginate(Listing(req)).ids;
      && o.state.counts == Tally(PassOf(req), Counts(0, 0, 0), ids)
      && o.listingFailed == Paginate(Listing(req)).failed
      && (!req.dryRun ==>
            o.state.live.cleanupRuns == Sweep(PassOf(req), CleanState(live, committed, [], Counts(0, 0, 0)), ids).live.cleanupRuns
                                        + [CleanupRun(req.clock.runAt, req.clock.cutoffDay, req.retentionDays,
                                                      o.state.counts.deleted, o.state.counts.kept)]
            && o.notified == (req.notifies && !req.faults.logCommitFails))
      && (req.dryRun ==> o.state == CleanState(live, committed, [], o.state.counts) && !o.notified && !o.raised)
  {
    var st := CleanState(live, committed, [], Counts(0, 0, 0));
    var ids := Paginate(Listing(req)).ids;
    SweepTally(PassOf(req), st, ids);
    if req.dryRun {
      DryRunTouchesNothing(PassOf(req), st, ids);
    }
  }

  /** From a consistent store, a real run leaves exactly one new `cleanup_runs` row, and no local row is lost. */
  lemma RunLogsOnce(req: Request, live: Tables, committed: Tables)
    requires Consistent(live) && Consistent(committed) && !req.dryRun
    ensures var o := Run(req, live, committed);
      && o.state.live.cleanupRuns == live.cleanupRuns + [AuditRow(req, o.state.counts)]
      && |o.state.live.emails| == |live.emails|
      && Consistent(o.state.live) && Consistent(o.state.committed)
  {
    var st := CleanState(live, committed, [], Counts(0, 0, 0));
    var s := Sweep(PassOf(req), st, Paginate(Listing(req)).ids);
    SweepKeepsBackups(PassOf(req), st, Paginate(Listing(req)).ids);
    LogKeepsConsistent(s.live, AuditRow(req, s.counts));
    RunLogs(req, live, committed);
  }

  /** A real run's state is the sweep's, with the audit row appended and, unless its commit raised, committed. */
  lemma RunLogs(req: Request, live: Tables, committed: Tables)
    requires !req.dryRun
    ensures var s := Sweep(PassOf(req), CleanState(live, committed, [], Counts(0, 0, 0)), Paginate(Listing(req)).ids);
      var o := Run(req, live, committed);
      && o.state.counts == s.counts
      && o.state.live == AppendCleanupRun(s.live, AuditRow(req, s.counts))
      && (o.state.committed == s.committed || o.state.committed == o.state.live)
  {
  }

  lemma LogKeepsConsistent(t: Tables, run: CleanupRun)
    requires Consistent(t)
    ensures Consistent(AppendCleanupRun(t, run))
  {
    assert AppendCleanupRun(t, run).emails == t.emails;
  }

  /** What `main` does, in order: open the store, run the pass, print the statistics, close. */
  datatype Action = InitDb | RunCleanup(dryRun: bool) | PrintStats | CloseDb

  datatype Plan = Plan(actions: seq<Action>, exitCode: int)

  /**
   * `main`, given whether `cleanup_old_emails` raised: the commit of the
   * audit row is not caught, so a raise ends the process with status 1
   * before `print_stats` and `conn.close()`.
   */
  function CleanupMain(argv: seq<string>, raised: bool): Plan {
    var run := RunCleanup("--dry-run" in argv);
    if raised then Plan([InitDb, run], 1)
    else Plan([InitDb, run, PrintStats, CloseDb], 0)
  }

  /**
   * `main` runs a dry run exactly when some argument is `--dry-run`; it
   * prints the statistics and closes the store exactly when the pass did
   * not raise, and exits with status 1 exactly then.
   */
  lemma CleanupMainSpec(argv: seq<string>, raised: bool)
    ensures var plan := CleanupMain(argv, raised);
      && |plan.actions| >= 2 && plan.actions[..2] == [InitDb, RunCleanup(plan.actions[1].dryRun)]
      && (plan.actions[1].dryRun <==> exists i :: 0 <= i < |argv| && argv[i] == "--dry-run")
      && (plan.exitCode == 1 <==> raised) && (plan.exitCode == 0 <==> !raised)
      && (PrintStats in plan.actions <==> !raised) && (CloseDb in plan.actions <==> !raised)
  {
    var plan := CleanupMain(argv, raised);
    if plan.actions[1].dryRun {
      var i :| 0 <= i < |argv| && argv[i] == "--dry-run";
    }
  }

  /**
   * Tied to the pass itself: `main` exits with status 1, printing no
   * statistics, exactly when a real run's audit-row commit raises; a dry
   * run always reaches the statistics.
   */
  lemma CleanupMainExit(argv: seq<string>, req: Request, live: Tables, committed: Tables)
    ensures var raised := Run(req.(dryRun := "--dry-run" in argv, notifies := true), live, committed).raised;
      var plan := CleanupMain(argv, raised);
      && (plan.exitCode == 1 <==> "--dry-run" !in argv && req.faults.logCommitFails)
      && (PrintStats !in plan.actions <==> "--dry-run" !in argv && req.faults.logCommitFails)
  {
  }

  // ---------------------------------------------------------------- the loop

  function StateOf(conn: Connection, trashed: seq<GmailId>, counts: Counts): CleanState
    reads conn
  {
    CleanState(conn.Live(), conn.committed, trashed, counts)
  }

  /** The body of the inner `for` loop for one candidate; `trashed` records the `trash` calls that went through. */
  method CleanupMessage(pass: Pass, conn: Connection, g: GmailId, trashed0: seq<GmailId>, counts0: Counts)
    returns (trashed: seq<GmailId>, counts: Counts)
    requires conn.Valid()
    modifies conn
    ensures conn.Valid()
    ensures StateOf(conn, trashed, counts) == Step(pass, old(StateOf(conn, trashed0, counts0)), g)
  {
    trashed, counts := trashed0, counts0;
    var labels := pass.mailbox.fetchLabels(g);
    if labels.None? {
      counts := counts.(failed := counts.failed + 1);
      return;
    }
    if Keeps(pass.keepLabelId, labels.value) {
      counts := counts.(kept := counts.kept + 1);
      return;
    }
    if pass.dryRun {
      counts := counts.(deleted := counts.deleted + 1);
      return;
    }
    if pass.mailbox.trashFails(g) {
      counts := counts.(failed := counts.failed + 1);
      return;
    }
    trashed, counts := FlagTrashed(conn, g, pass.commitFails(g), trashed0, counts0);
  }

  /** Once `trash` went through: flag the local row, then commit; the candidate counts as deleted only when the commit does. */
  method FlagTrashed(conn: Connection, g: GmailId, commitFails: bool, trashed0: seq<GmailId>, counts0: Counts)
    returns (trashed: seq<GmailId>, counts: Counts)
    requires conn.Valid()
    modifies conn
    ensures conn.Valid()
    ensures StateOf(conn, trashed, counts)
         == Flag(commitFails, old(StateOf(conn, trashed0, counts0)).(trashed := trashed0 + [g], live := MarkDeleted(old(conn.Live()), g)))
  {
    trashed, counts := trashed0 + [g], counts0;
    conn.MarkDeletedFromGmail(g);
    var ok := conn.Commit(commitFails);
    if !ok {
      counts := counts.(failed := counts.failed + 1);
      return;
    }
    counts := counts.(deleted := counts.deleted + 1);
  }

  /** The inner `for` loop over one page of candidates. */
  method CleanupPage(pass: Pass, conn: Connection, messages: seq<GmailId>, trashed0: seq<GmailId>, counts0: Counts,
                     ghost st: CleanState, ghost handled: seq<GmailId>)
    returns (trashed: seq<GmailId>, counts: Counts)
    requires conn.Valid()
    requires StateOf(conn, trashed0, counts0) == Sweep(pass, st, handled)
    modifies conn
    ensures conn.Valid()
    ensures StateOf(conn, trashed, counts) == Sweep(pass, st, handled + messages)
  {
    trashed, counts := trashed0, counts0;
    assert handled + messages[..0] == handled;
    for i := 0 to |messages|
      invariant conn.Valid()
      invariant StateOf(conn, trashed, counts) == Sweep(pass, st, handled + messages[..i])
    {
      SweepSnoc(pass, st, handled + messages[..i], messages[i]);
      SnocPrefix(handled, messages, i);
      trashed, counts := CleanupMessage(pass, conn, messages[i], trashed, counts);
    }
    assert messages[..|messages|] == messages;
  }

  /** The `while True` loop over the listing; a listing error is caught and ends the loop. */
  method CleanupListing(pass: Pass, conn: Connection, listing: seq<ListResult>)
    returns (listingFailed: bool, trashed: seq<GmailId>, counts: Counts)
    requires conn.Valid()
    modifies conn
    ensures conn.Valid()
    ensures listingFailed == Paginate(listing).failed
    ensures StateOf(conn, trashed, counts)
         == Sweep(pass, old(StateOf(conn, [], Counts(0, 0, 0))), Paginate(listing).ids)
  {
    ghost var st := StateOf(conn, [], Counts(0, 0, 0));
    trashed, counts := [], Counts(0, 0, 0);
    var pageToken := 0;
    ghost var handled: seq<GmailId> := [];
    while true
      invariant conn.Valid()
      invariant 0 <= pageToken <= |listing|
      invariant Paginate(listing) == Pagination(
        handled + PaginateFrom(listing, pageToken).ids, PaginateFrom(listing, pageToken).failed)
      invariant StateOf(conn, trashed, counts) == Sweep(pass, st, handled)
      decreases |listing| - pageToken
    {
      if pageToken >= |listing| {
        PaginateLast(listing, pageToken);
        assert handled + [] == handled;
        return false, trashed, counts;
      }
      var results := listing[pageToken];
      if results.ListError? {
        PaginateLast(listing, pageToken);
        assert handled + [] == handled;
        return true, trashed, counts;
      }
      var messages := results.ids;
      if messages == [] {
        PaginateLast(listing, pageToken);
        assert handled + [] == handled;
        return false, trashed, counts;
      }
      trashed, counts := CleanupPage(pass, conn, messages, trashed, counts, st, handled);
      if !HasNext(results) {
        PaginateLast(listing, pageToken);
        handled := handled + messages;
        return false, trashed, counts;
      }
      PaginateContinues(listing, pageToken);
      AppendAssoc(handled, messages, PaginateFrom(listing, pageToken + 1).ids);
      handled := handled + messages;
      pageToken := pageToken + 1;
    }
  }

  /**
   * `cleanup_old_emails`: resolve the keep label, sweep the listing, then,
   * unless this is a dry run, log the run, commit, and send the notice.
   */
  method CleanupOldEmails(req: Request, conn: Connection)
    returns (deleted: nat, kept: nat, trashed: seq<GmailId>, listingFailed: bool, raised: bool, notified: bool)
    requires conn.Valid()
    modifies conn
    ensures conn.Valid()
    ensures var o := Run(req, old(conn.Live()), old(conn.committed));
      && conn.Live() == o.state.live && conn.committed == o.state.committed && trashed == o.state.trashed
      && deleted == o.state.counts.deleted && kept == o.state.counts.kept
      && listingFailed == o.listingFailed && raised == o.raised && notified == o.notified
  {
    var keepLabelId := LabelIdOf(req.mailbox.labels, req.keepLabel);
    var pass := Pass(req.mailbox, keepLabelId, req.dryRun, req.faults.commitFails);
    var counts;
    listingFailed, trashed, counts := CleanupListing(pass, conn, req.mailbox.listBefore("before:" + req.clock.cutoffQuery));
    deleted, kept := counts.deleted, counts.kept;
    raised, notified := false, false;
    if !req.dryRun {
      conn.AppendCleanupRunRow(CleanupRun(req.clock.runAt, req.clock.cutoffDay, req.retentionDays, deleted, kept));
      var ok := conn.Commit(req.faults.logCommitFails);
      if !ok {
        raised := true;
        return;
      }
      notified := req.notifies;
    }
  }

  /**
   * The copy in email-backup/backup.py: the same pass, never a dry run, and
   * no notification.
   */
  method LegacyCleanupOldEmails(req: Request, conn: Connection)
    returns (deleted: nat, kept: nat, trashed: seq<GmailId>, listingFailed: bool, raised: bool)
    requires conn.Valid()
    modifies conn
    ensures conn.Valid()
    ensures var o := Run(req.(dryRun := false, notifies := false), old(conn.Live()), old(conn.committed));
      && conn.Live() == o.state.live && conn.committed == o.state.committed && trashed == o.state.trashed
      && deleted == o.state.counts.deleted && kept == o.state.counts.kept
      && listingFailed == o.listingFailed && raised == o.raised && !o.notified
  {
    var notified;
    deleted, kept, trashed, listingFailed, raised, notified :=
      CleanupOldEmails(req.(dryRun := false, notifies := false), conn);
  }
}
