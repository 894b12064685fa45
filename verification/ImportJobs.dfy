/** Status and totals of an import job over its files, first pass and retry. */
module ImportJobs {
  import opened Options
  import opened StatementImport
  import C = Categories

  datatype FileStatus = Pending | Success | Failed
  datatype JobStatus = JobPending | Completed | Partial | JobFailed

  datatype FileRow = FileRow(status: FileStatus, counts: Counts)

  const NO_COUNTS := Counts(0, 0, 0, 0)

  datatype Totals = Totals(processed: nat, success: nat, failed: nat, counts: Counts)

  type Outcome = Result<Counts, FileError>

  function Plus(a: Counts, b: Counts): Counts {
    Counts(a.parsed + b.parsed, a.created + b.created, a.skipped + b.skipped, a.uncategorized + b.uncategorized)
  }

  /** Sum of the counters of the files. */
  function SumCounts(files: seq<FileRow>): Counts {
    if files == [] then NO_COUNTS else Plus(SumCounts(files[..|files| - 1]), files[|files| - 1].counts)
  }

  function CountStatus(files: seq<FileRow>, st: FileStatus): nat {
    if files == [] then 0 else CountStatus(files[..|files| - 1], st) + if files[|files| - 1].status == st then 1 else 0
  }

  lemma SumSnoc(files: seq<FileRow>, f: FileRow)
    ensures SumCounts(files + [f]) == Plus(SumCounts(files), f.counts)
    ensures forall st :: CountStatus(files + [f], st) == CountStatus(files, st) + if f.status == st then 1 else 0
  {
    assert (files + [f])[..|files|] == files;
  }

  /** Every counter of a sum is the sum of that counter. */
  lemma SumIs(files: seq<FileRow>, f: FileRow)
    ensures SumCounts([]) == Counts(0, 0, 0, 0)
    ensures var s, t, c := SumCounts(files), SumCounts(files + [f]), f.counts;
      && t.parsed == s.parsed + c.parsed && t.created == s.created + c.created
      && t.skipped == s.skipped + c.skipped && t.uncategorized == s.uncategorized + c.uncategorized
  {
    assert (files + [f])[..|files|] == files;
  }

  /** Adding to one part of a sum adds to the sum. */
  lemma PlusShuffle(p: Counts, u: Counts, c: Counts)
    ensures Plus(Plus(p, u), c) == Plus(Plus(p, c), u)
    ensures Plus(Plus(p, u), c) == Plus(p, Plus(u, c))
  {
  }

  lemma PlusNothingIff(a: Counts, b: Counts)
    ensures a == Plus(a, b) <==> b == NO_COUNTS
  {
  }

  /** `finishJob`. */
  function StatusFor(success: nat, failed: nat): JobStatus {
    if success == 0 then JobFailed else if failed > 0 then Partial else Completed
  }

  /** The row a processed file ends with. */
  function Processed(file: FileRow, outcome: Outcome): FileRow {
    match outcome
    case Ok(c) => FileRow(Success, c)
    case Err(_) => file.(status := Failed)
  }

  function RowAfter(file: FileRow, outcome: Outcome): FileRow {
    if file.status == Pending then Processed(file, outcome) else file
  }

  /** The files after a pass that processes the pending ones with the given outcomes. */
  function AfterPass(files: seq<FileRow>, outcomes: seq<Outcome>): seq<FileRow>
    requires |outcomes| == |files|
  {
    if files == [] then []
    else
      var n := |files| - 1;
      AfterPass(files[..n], outcomes[..n]) + [RowAfter(files[n], outcomes[n])]
  }

  /** The rows of the files a pass processed, after it. */
  function PassRows(files: seq<FileRow>, outcomes: seq<Outcome>): seq<FileRow>
    requires |outcomes| == |files|
  {
    if files == [] then []
    else
      var n := |files| - 1;
      if files[n].status == Pending then PassRows(files[..n], outcomes[..n]) + [RowAfter(files[n], outcomes[n])]
      else PassRows(files[..n], outcomes[..n])
  }

  /** The files a pass leaves alone. */
  function Untouched(files: seq<FileRow>): seq<FileRow> {
    if files == [] then []
    else if files[|files| - 1].status == Pending then Untouched(files[..|files| - 1])
    else Untouched(files[..|files| - 1]) + [files[|files| - 1]]
  }

  /** A file that has not succeeded carries no counts. */
  predicate CleanRow(f: FileRow) {
    f.status != Success ==> f.counts == NO_COUNTS
  }

  predicate CleanRows(files: seq<FileRow>) {
    forall f | f in files :: CleanRow(f)
  }

  /** A file as it reaches the loop: its movements, or nothing when it cannot be read, and the time of its batch. */
  datatype Upload = Upload(content: Option<seq<Parsed>>, at: int)

  /** How a file of a job ends. */
  function UploadOutcome(s: Stock, g: Setting, upload: Upload): Outcome {
    match upload.content
    case None => Err(Unreadable)
    case Some(file) => StatementImport.Outcome(s, g, file, upload.at)
  }

  function AfterUpload(s: Stock, g: Setting, upload: Upload): Stock {
    match upload.content
    case None => s
    case Some(file) => StockAfter(s, g, file, upload.at)
  }

  /** What the pending files leave behind, one after the other. */
  function AfterFiles(s: Stock, g: Setting, files: seq<FileRow>, uploads: seq<Upload>): Stock
    requires |uploads| == |files|
  {
    if files == [] then s
    else
      var n := |files| - 1;
      var before := AfterFiles(s, g, files[..n], uploads[..n]);
      if files[n].status == Pending then AfterUpload(before, g, uploads[n]) else before
  }

  /** How the files of a pass end; a file that is not pending is not looked at. */
  function Outcomes(s: Stock, g: Setting, files: seq<FileRow>, uploads: seq<Upload>): (outcomes: seq<Outcome>)
    requires |uploads| == |files|
    ensures |outcomes| == |files|
  {
    if files == [] then []
    else
      var n := |files| - 1;
      Outcomes(s, g, files[..n], uploads[..n]) +
      [if files[n].status == Pending then UploadOutcome(AfterFiles(s, g, files[..n], uploads[..n]), g, uploads[n])
       else Err(Unreadable)]
  }

  lemma FilesSnoc(s: Stock, g: Setting, files: seq<FileRow>, uploads: seq<Upload>, i: nat)
    requires |uploads| == |files| && i < |files|
    ensures var before := AfterFiles(s, g, files[..i], uploads[..i]);
      if files[i].status == Pending then
        && AfterFiles(s, g, files[..i + 1], uploads[..i + 1]) == AfterUpload(before, g, uploads[i])
        && Outcomes(s, g, files[..i + 1], uploads[..i + 1]) ==
             Outcomes(s, g, files[..i], uploads[..i]) + [UploadOutcome(before, g, uploads[i])]
      else
        && AfterFiles(s, g, files[..i + 1], uploads[..i + 1]) == before
        && Outcomes(s, g, files[..i + 1], uploads[..i + 1]) ==
             Outcomes(s, g, files[..i], uploads[..i]) + [Err(Unreadable)]
  {
    assert files[..i + 1][..i] == files[..i] && uploads[..i + 1][..i] == uploads[..i];
  }

  /** `processFile` with what comes before the movements are known. */
  method ProcessUpload(ledger: ImportLedger, upload: Upload, user: int, options: FileOptions, companies: seq<Company>,
                       ghost start: nat)
    returns (outcome: Outcome)
    requires options.skipDuplicates ==> NothingTwice(ledger.rows, start, user)
    modifies ledger
    ensures ledger.rules == old(ledger.rules) && ledger.defaults == old(ledger.defaults)
    ensures var g, s := Setting(user, options, companies, ledger.rules, ledger.defaults),
                        old(Stock(ledger.rows, ledger.ledger));
      outcome == UploadOutcome(s, g, upload) && Stock(ledger.rows, ledger.ledger) == AfterUpload(s, g, upload)
    ensures old(ledger.rows) <= ledger.rows
    ensures outcome.Ok? ==>
              Balanced(outcome.value) && |ledger.rows| == |old(ledger.rows)| + outcome.value.created
    ensures outcome.Err? ==> ledger.rows == old(ledger.rows)
    ensures options.skipDuplicates ==> NothingTwice(ledger.rows, start, user)
  {
    hide MadeOf, Chosen, NothingTwice, StatementImport.Outcome, StockAfter;
    if upload.content.None? {
      return Err(Unreadable);
    }
    ghost var before, rules, defaults := ledger.rows, ledger.rules, ledger.defaults;
    var file := upload.content.value;
    outcome := ledger.ProcessFile(user, file, options, companies, upload.at);
    if outcome.Ok? {
      MadeLength(user, options, companies, rules, defaults, file, Chosen(before, user, file, options),
                 ledger.rows[|before|..]);
      assert ledger.rows == before + ledger.rows[|before|..];
      if options.skipDuplicates {
        FileAddsNothingTwice(before, ledger.rows[|before|..], user, file, options, companies, rules, defaults, start);
      }
    }
  }

  lemma MadeLength(user: int, options: FileOptions, companies: seq<Company>, rules: C.Rules, defaults: C.Companies,
                   file: seq<Parsed>, ps: seq<nat>, rows: seq<Saved>)
    requires MadeOf(user, options, companies, rules, defaults, file, ps, rows)
    ensures |rows| == |ps|
  {
  }

  lemma NothingYet(s: Stock, g: Setting, files: seq<FileRow>, uploads: seq<Upload>)
    requires |uploads| == |files|
    ensures Tally(0, 0, 0, NO_COUNTS, PassRows(files[..0], [])) && AfterPass(files[..0], []) == []
    ensures AfterFiles(s, g, files[..0], uploads[..0]) == s && Outcomes(s, g, files[..0], uploads[..0]) == []
  {
  }

  lemma TallyMeans(processed: nat, success: nat, failed: nat, counts: Counts, pass: seq<FileRow>)
    requires Tally(processed, success, failed, counts, pass)
    ensures processed == |pass| == success + failed
    ensures success == CountStatus(pass, Success) && failed == CountStatus(pass, Failed) && counts == SumCounts(pass)
  {
  }

  /** One more processed file. */
  lemma TallyOne(processed: nat, success: nat, failed: nat, counts: Counts, pass: seq<FileRow>, row: FileRow,
                 outcome: Outcome)
    requires Tally(processed, success, failed, counts, pass) && CleanRow(row) && row.status == Pending
    ensures var next := pass + [RowAfter(row, outcome)];
      if outcome.Ok? then Tally(processed + 1, success + 1, failed, Plus(counts, outcome.value), next)
      else Tally(processed + 1, success, failed + 1, counts, next)
  {
    hide SumCounts, CountStatus;
    var after := RowAfter(row, outcome);
    SumSnoc(pass, after);
    assert CountStatus(pass + [after], Success) == CountStatus(pass, Success) + if outcome.Ok? then 1 else 0;
    assert CountStatus(pass + [after], Failed) == CountStatus(pass, Failed) + if outcome.Ok? then 0 else 1;
    assert SumCounts(pass + [after]) == Plus(counts, if outcome.Ok? then outcome.value else NO_COUNTS);
  }

  lemma PassSnoc(files: seq<FileRow>, outcomes: seq<Outcome>, row: FileRow, outcome: Outcome)
    requires |outcomes| == |files|
    ensures AfterPass(files + [row], outcomes + [outcome]) == AfterPass(files, outcomes) + [RowAfter(row, outcome)]
    ensures PassRows(files + [row], outcomes + [outcome]) ==
            if row.status == Pending then PassRows(files, outcomes) + [RowAfter(row, outcome)] else PassRows(files, outcomes)
  {
    assert (files + [row])[..|files|] == files && (outcomes + [outcome])[..|files|] == outcomes;
  }

  class ImportJob {
    var files: seq<FileRow>
    var status: JobStatus
    var totals: Totals

    /** `createJob`. */
    constructor (n: nat)
      ensures |files| == n && (forall f | f in files :: f == FileRow(Pending, NO_COUNTS)) && status == JobPending
    {
      files := seq(n, i => FileRow(Pending, NO_COUNTS));
      status := JobPending;
      totals := Totals(0, 0, 0, NO_COUNTS);
    }

    /**
     * The loop shared by `processJob` and `processRetryJob`: process the pending files in
     * order, each against the records that the files before it left, and store the totals of
     * this pass. `start` is any position from which on nothing was there twice, such as the
     * number of records before the job.
     */
    method Pass(ledger: ImportLedger, uploads: seq<Upload>, user: int, options: FileOptions, companies: seq<Company>,
                ghost start: nat)
      returns (ghost outcomes: seq<Outcome>)
      requires |uploads| == |files| && CleanRows(files)
      requires options.skipDuplicates ==> NothingTwice(ledger.rows, start, user)
      modifies this, ledger
      ensures ledger.rules == old(ledger.rules) && ledger.defaults == old(ledger.defaults)
      ensures var g, s := Setting(user, options, companies, ledger.rules, ledger.defaults),
                          old(Stock(ledger.rows, ledger.ledger));
        && outcomes == Outcomes(s, g, old(files), uploads)
        && Stock(ledger.rows, ledger.ledger) == AfterFiles(s, g, old(files), uploads)
      ensures |outcomes| == |old(files)| && files == AfterPass(old(files), outcomes) && CleanRows(files)
      ensures forall o | o in outcomes && o.Ok? :: Balanced(o.value)
      ensures var pass := PassRows(old(files), outcomes);
              && totals == Totals(|pass|, CountStatus(pass, Success), CountStatus(pass, Failed), SumCounts(pass))
              && totals.processed == totals.success + totals.failed
              && (status == JobFailed <==> totals.success == 0)
              && (status == Completed <==> totals.success > 0 && totals.failed == 0)
              && (status == Partial <==> totals.success > 0 && totals.failed > 0)
      // The records of the pass are as many as the totals say, and none is a movement that was there.
      ensures old(ledger.rows) <= ledger.rows && |ledger.rows| == |old(ledger.rows)| + totals.counts.created
      ensures options.skipDuplicates ==> NothingTwice(ledger.rows, start, user)
    {
      hide MadeOf, Chosen, NothingTwice, Tally, UploadOutcome, AfterUpload, Balanced, AfterFiles, Outcomes, AfterPass, PassRows;
      hide SumCounts, CountStatus;
      ghost var g, s := Setting(user, options, companies, ledger.rules, ledger.defaults), Stock(ledger.rows, ledger.ledger);
      var done: seq<FileRow> := [];
      var processed, success, failed, counts := 0, 0, 0, NO_COUNTS;
      outcomes := [];
      NothingYet(s, g, files, uploads);
      for i := 0 to |files|
        invariant files == old(files) && |outcomes| == i
        invariant ledger.rules == g.rules && ledger.defaults == g.defaults
        invariant outcomes == Outcomes(s, g, files[..i], uploads[..i])
        invariant Stock(ledger.rows, ledger.ledger) == AfterFiles(s, g, files[..i], uploads[..i])
        invariant done == AfterPass(files[..i], outcomes) && CleanRows(done)
        invariant forall o | o in outcomes && o.Ok? :: Balanced(o.value)
        invariant Tally(processed, success, failed, counts, PassRows(files[..i], outcomes))
        invariant old(ledger.rows) <= ledger.rows && |ledger.rows| == |old(ledger.rows)| + counts.created
        invariant options.skipDuplicates ==> NothingTwice(ledger.rows, start, user)
      {
        ghost var wasDone, wasOutcomes, pass := done, outcomes, PassRows(files[..i], outcomes);
        var row := files[i];
        assert CleanRow(row);
        FilesSnoc(s, g, files, uploads, i);
        var outcome := Err(Unreadable);
        if row.status == Pending {
          outcome := ProcessUpload(ledger, uploads[i], user, options, companies, start);
          TallyOne(processed, success, failed, counts, pass, row, outcome);
          processed := processed + 1;
          match outcome {
            case Ok(c) =>
              row := FileRow(Success, c);
              counts := Plus(counts, c);
              success := success + 1;
            case Err(_) =>
              row := row.(status := Failed);
              failed := failed + 1;
          }
        }
        done := done + [row];
        outcomes := outcomes + [outcome];
        assert files[..i + 1] == files[..i] + [files[i]];
        PassSnoc(files[..i], wasOutcomes, files[i], outcome);
      }
      assert files[..|files|] == files && uploads[..|files|] == uploads;
      TallyMeans(processed, success, failed, counts, PassRows(files, outcomes));
      files := done;
      status := StatusFor(success, failed);
      totals := Totals(processed, success, failed, counts);
    }

    /** `resetFailedFilesForRetry`. */
    method ResetFailed()
      requires CleanRows(files)
      modifies this
      ensures |files| == |old(files)| && CleanRows(files)
      ensures forall i | 0 <= i < |files| ::
                files[i] == if old(files)[i].status == Failed then FileRow(Pending, NO_COUNTS) else old(files)[i]
      ensures status == JobPending && totals == old(totals).(processed := 0, failed := 0)
    {
      for i := 0 to |files|
        invariant |files| == |old(files)| && CleanRows(files) && totals == old(totals)
        invariant forall j | 0 <= j < |files| ::
                    files[j] == if j < i && old(files)[j].status == Failed then FileRow(Pending, NO_COUNTS)
                                else old(files)[j]
      {
        if files[i].status == Failed {
          files := files[i := FileRow(Pending, NO_COUNTS)];
        }
      }
      status := JobPending;
      totals := totals.(processed := 0, failed := 0);
    }
  }

  /** The running totals of a pass. */
  predicate Tally(processed: nat, success: nat, failed: nat, counts: Counts, pass: seq<FileRow>) {
    && processed == |pass| == success + failed
    && success == CountStatus(pass, Success) && failed == CountStatus(pass, Failed)
    && counts == SumCounts(pass)
  }

  // ---- Totals of a job -------------------------------------------------------------------

  predicate Balanced(c: Counts) {
    c.parsed == c.created + c.skipped
  }

  /** In the first pass the totals are the sums over all files, and parsed = created + skipped in total. */
  lemma {:induction false} FirstPassTotals(files: seq<FileRow>, outcomes: seq<Outcome>)
    requires |outcomes| == |files| && forall f | f in files :: f == FileRow(Pending, NO_COUNTS)
    requires forall o | o in outcomes && o.Ok? :: Balanced(o.value)
    ensures PassRows(files, outcomes) == AfterPass(files, outcomes)
    ensures Balanced(SumCounts(PassRows(files, outcomes)))
  {
    if files != [] {
      var n := |files| - 1;
      assert forall f | f in files[..n] :: f in files;
      assert forall o | o in outcomes[..n] :: o in outcomes;
      FirstPassTotals(files[..n], outcomes[..n]);
      assert files[n] in files && outcomes[n] in outcomes;
      SumSnoc(PassRows(files[..n], outcomes[..n]), RowAfter(files[n], outcomes[n]));
    }
  }

  /** One more file: its counts go to the pass or to the untouched side. */
  lemma PassStep(files: seq<FileRow>, outcomes: seq<Outcome>)
    requires |outcomes| == |files| > 0
    ensures var n := |files| - 1;
            var c := RowAfter(files[n], outcomes[n]).counts;
            && SumCounts(AfterPass(files, outcomes)) == Plus(SumCounts(AfterPass(files[..n], outcomes[..n])), c)
            && (files[n].status == Pending ==>
                SumCounts(PassRows(files, outcomes)) == Plus(SumCounts(PassRows(files[..n], outcomes[..n])), c)
                && Untouched(files) == Untouched(files[..n]))
            && (files[n].status != Pending ==>
                SumCounts(Untouched(files)) == Plus(SumCounts(Untouched(files[..n])), c)
                && PassRows(files, outcomes) == PassRows(files[..n], outcomes[..n]))
  {
    var n := |files| - 1;
    var row := RowAfter(files[n], outcomes[n]);
    SumSnoc(AfterPass(files[..n], outcomes[..n]), row);
    SumSnoc(PassRows(files[..n], outcomes[..n]), row);
    SumSnoc(Untouched(files[..n]), row);
  }

  lemma {:induction false} PassSplits(files: seq<FileRow>, outcomes: seq<Outcome>)
    requires |outcomes| == |files|
    ensures SumCounts(AfterPass(files, outcomes)) ==
            Plus(SumCounts(PassRows(files, outcomes)), SumCounts(Untouched(files)))
  {
    if files == [] {
      PlusNothingIff(NO_COUNTS, NO_COUNTS);
    } else {
      var n := |files| - 1;
      PassSplits(files[..n], outcomes[..n]);
      PassStep(files, outcomes);
      PlusShuffle(SumCounts(PassRows(files[..n], outcomes[..n])), SumCounts(Untouched(files[..n])),
                  RowAfter(files[n], outcomes[n]).counts);
    }
  }

  /** The counts a pass stores are those of all files of the job. */
  predicate TotalsCoverJob(files: seq<FileRow>, outcomes: seq<Outcome>)
    requires |outcomes| == |files|
  {
    SumCounts(PassRows(files, outcomes)) == SumCounts(AfterPass(files, outcomes))
  }

  /** The files a pass leaves alone carry no counts. */
  predicate RestIsEmpty(files: seq<FileRow>) {
    SumCounts(Untouched(files)) == NO_COUNTS
  }

  /**
   * A retry stores totals of the retried files only: they are the sums over the whole
   * job exactly when the files that had succeeded before carry no counts.
   */
  lemma RetryTotalsIff(files: seq<FileRow>, outcomes: seq<Outcome>)
    requires |outcomes| == |files|
    ensures TotalsCoverJob(files, outcomes) <==> RestIsEmpty(files)
  {
    PassSplits(files, outcomes);
    PlusNothingIff(SumCounts(PassRows(files, outcomes)), SumCounts(Untouched(files)));
  }

  lemma UntouchedSnoc(files: seq<FileRow>, f: FileRow)
    ensures Untouched(files + [f]) == if f.status == Pending then Untouched(files) else Untouched(files) + [f]
  {
    assert (files + [f])[..|files|] == files;
  }

  lemma OneUntouched(files: seq<FileRow>)
    requires |files| == 2 && files[0].status == Success && files[1].status == Pending
    ensures Untouched(files) == [files[0]]
  {
    assert files == [files[0]] + [files[1]] && [files[0]] == [] + [files[0]];
    UntouchedSnoc([files[0]], files[1]);
    UntouchedSnoc([], files[0]);
  }

  lemma SumOne(f: FileRow)
    ensures SumCounts([f]) == f.counts
  {
    assert [f][..0] == [];
    assert SumCounts([f]) == Plus(SumCounts([]), f.counts);
  }

  /** The retry of a second file stores totals that leave out a first one that had succeeded. */
  lemma RetryForgetsEarlierFile(files: seq<FileRow>, outcomes: seq<Outcome>)
    requires |files| == 2 && |outcomes| == 2
    requires files[0].status == Success && files[0].counts != NO_COUNTS && files[1].status == Pending
    ensures !TotalsCoverJob(files, outcomes)
  {
    RestIsNotEmpty(files);
    RetryTotalsIff(files, outcomes);
  }

  lemma RestIsNotEmpty(files: seq<FileRow>)
    requires |files| == 2
    requires files[0].status == Success && files[0].counts != NO_COUNTS && files[1].status == Pending
    ensures !RestIsEmpty(files)
  {
    OneUntouched(files);
    SumOne(files[0]);
    var rest := Untouched(files);
    assert rest == [files[0]];
    assert SumCounts(rest) == files[0].counts;
  }

  /** A first pass and a retry of the files that failed: no movement is created twice, and none that was there. */
  method ImportAndRetry(job: ImportJob, ledger: ImportLedger, uploads: seq<Upload>, again: seq<Upload>, user: int,
                        options: FileOptions, companies: seq<Company>)
    requires |uploads| == |again| == |job.files| && CleanRows(job.files) && options.skipDuplicates
    modifies job, ledger
    ensures old(ledger.rows) <= ledger.rows && NothingTwice(ledger.rows, |old(ledger.rows)|, user)
  {
    ghost var start := |ledger.rows|;
    ghost var first := job.Pass(ledger, uploads, user, options, companies, start);
    AfterPassLength(old(job.files), first);
    job.ResetFailed();
    ghost var second := job.Pass(ledger, again, user, options, companies, start);
  }

  lemma {:induction false} AfterPassLength(files: seq<FileRow>, outcomes: seq<Outcome>)
    requires |outcomes| == |files|
    ensures |AfterPass(files, outcomes)| == |files|
  {
    if files != [] {
      AfterPassLength(files[..|files| - 1], outcomes[..|files| - 1]);
    }
  }
}
