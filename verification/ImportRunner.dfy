/**
 Running an import: one row handler inside a savepoint, the simple loop a retry uses, and the batched,
 cancellable background run. The importer (what a row means) is a parameter.

 A session is everything a row can write: the data of the tenant, and the reference context with its
 cache. A row that raises rolls the data and the reference store back to the savepoint.
 */
module ImportRunner {
  import opened Common
  import IC = ImportCache

  type Cells = seq<string>

  datatype FileRow = FileRow(number: nat, cells: Cells)

  /** The validated fields of a row, and what was wrong with it. */
  datatype Checked = Checked(clean: map<string, string>, errors: seq<string>)

  datatype Result = Imported | Skipped(reasons: seq<string>) | Failed(messages: seq<string>) | Raised(message: string)

  datatype Session<W> = Session(data: W, ctx: IC.Context)

  datatype Importer<!W> = Importer(
    keyField: string,
    check: Cells -> Checked,
    process: (Session<W>, map<string, string>) -> (Session<W>, Result))

  datatype ErrorRow = ErrorRow(number: nat, key: Option<string>, message: string)

  datatype RowStatus = RowImported | RowSkipped | RowError

  datatype Progress<W> = Progress(
    session: Session<W>,
    seen: set<Option<string>>,
    errorRows: seq<ErrorRow>,
    imported: nat,
    skipped: nat,
    errors: nat)

  datatype JobStatus = Pending | Running | Completed | JobFailed | Cancelled

  datatype Job = Job(status: JobStatus, processed: nat, imported: nat, skipped: nat, errors: nat)

  const BATCH_SIZE: nat := 500

  // ---------------------------------------------------------------- one row

  function KeyFor<W>(importer: Importer<W>, checked: Checked): Option<string> {
    if importer.keyField in checked.clean then Some(checked.clean[importer.keyField]) else None
  }

  function Messages(number: nat, key: Option<string>, prefix: string, messages: seq<string>): seq<ErrorRow> {
    seq(|messages|, i requires 0 <= i < |messages| => ErrorRow(number, key, prefix + messages[i]))
  }

  function Log<W>(p: Progress<W>, number: nat, key: Option<string>, prefix: string, messages: seq<string>): Progress<W> {
    p.(errorRows := p.errorRows + Messages(number, key, prefix, messages))
  }

  /** The row is processed: it is valid and its key is the first of its kind in the file. */
  predicate Reaches<W>(importer: Importer<W>, p: Progress<W>, row: FileRow) {
    var checked := importer.check(row.cells);
    checked.errors == [] && KeyFor(importer, checked) !in p.seen
  }

  function RolledBack<W>(before: Session<W>, after: Session<W>): Session<W> {
    Session(before.data, IC.RollbackRow(before.ctx, after.ctx))
  }

  function Committed<W>(after: Session<W>): Session<W> { Session(after.data, IC.CommitRow(after.ctx)) }

  function HandleRow<W>(importer: Importer<W>, p: Progress<W>, row: FileRow): (Progress<W>, RowStatus) {
    var checked := importer.check(row.cells);
    var key := KeyFor(importer, checked);
    if checked.errors != [] then (Log(p, row.number, key, "", checked.errors), RowError)
    else if key in p.seen then (Log(p, row.number, key, "", ["Duplicate " + importer.keyField + " within file"]), RowError)
    else
      var q := p.(seen := p.seen + {key});
      var (after, result) := importer.process(p.session, checked.clean);
      match result
      case Raised(message) =>
        (Log(q.(session := RolledBack(p.session, after)), row.number, key, "Could not import row: ", [message]), RowError)
      case Imported => (q.(session := Committed(after)), RowImported)
      case Skipped(reasons) => (Log(q.(session := Committed(after)), row.number, key, "Skipped: ", reasons), RowSkipped)
      case Failed(messages) => (Log(q.(session := Committed(after)), row.number, key, "", messages), RowError)
  }

  function Count<W>(p: Progress<W>, status: RowStatus): Progress<W> {
    match status
    case RowImported => p.(imported := p.imported + 1)
    case RowSkipped => p.(skipped := p.skipped + 1)
    case RowError => p.(errors := p.errors + 1)
  }

  function StepRow<W>(importer: Importer<W>, p: Progress<W>, row: FileRow): Progress<W> {
    var (q, status) := HandleRow(importer, p, row);
    Count(q, status)
  }

  /** The simple sequential loop. */
  function ProcessRows<W>(importer: Importer<W>, p: Progress<W>, rows: seq<FileRow>): Progress<W> {
    if |rows| == 0 then p
    else StepRow(importer, ProcessRows(importer, p, rows[..|rows| - 1]), rows[|rows| - 1])
  }

  /** A run begins with nothing seen, nothing counted and an empty cache. */
  function Begin<W>(session: Session<W>): Progress<W> {
    Progress(session.(ctx := IC.Context(session.ctx.store, map[], map[])), {}, [], 0, 0, 0)
  }

  // ---------------------------------------------------------------- the background run

  /** Data rows are numbered from 2: row 1 of the file is the header. */
  function Numbered(rows: seq<Cells>): seq<FileRow> {
    seq(|rows|, i requires 0 <= i < |rows| => FileRow(i + 2, rows[i]))
  }

  /** `cancelled(k)` is what the check before batch `k` sees in the job record. */
  datatype BatchRun<W> = BatchRun(progress: Progress<W>, processed: nat, cancelled: bool)

  function RunBatches<W>(importer: Importer<W>, p: Progress<W>, rows: seq<FileRow>, k: nat, start: nat, cancelled: nat -> bool): BatchRun<W>
    requires start <= |rows|
    decreases |rows| - start
  {
    if start == |rows| then BatchRun(p, start, false)
    else if cancelled(k) then BatchRun(p, start, true)
    else
      var end := if start + BATCH_SIZE <= |rows| then start + BATCH_SIZE else |rows|;
      RunBatches(importer, ProcessRows(importer, p, rows[start..end]), rows, k + 1, end, cancelled)
  }

  const FILE_GONE := ErrorRow(0, None, "Uploaded file is no longer available")

  datatype Finished<W> = Finished(session: Session<W>, job: Job, errorRows: seq<ErrorRow>)

  function RunJob<W>(importer: Importer<W>, session: Session<W>, job: Job, file: Option<seq<Cells>>, cancelled: nat -> bool): Finished<W> {
    if !job.status.Pending? then Finished(session, job, [])
    else if file.None? then Finished(session, job.(status := JobFailed), [FILE_GONE])
    else
      var run := RunBatches(importer, Begin(session), Numbered(file.value), 0, 0, cancelled);
      Finished(run.progress.session,
               Job(if run.cancelled then Cancelled else Completed,
                   run.processed, run.progress.imported, run.progress.skipped, run.progress.errors),
               run.progress.errorRows)
  }

  // ---------------------------------------------------------------- the batched run is the simple loop

  lemma {:induction false} ProcessConcat<W>(importer: Importer<W>, p: Progress<W>, a: seq<FileRow>, b: seq<FileRow>)
    ensures ProcessRows(importer, ProcessRows(importer, p, a), b) == ProcessRows(importer, p, a + b)
  {
    if |b| == 0 {
      assert a + b == a;
    } else {
      var front := b[..|b| - 1];
      assert (a + b)[..|a + b| - 1] == a + front;
      ProcessConcat(importer, p, a, front);
    }
  }

  /** How many batches a file of `n` rows takes. */
  function BatchCount(n: nat): nat { (n + BATCH_SIZE - 1) / BATCH_SIZE }

  /** Check `i` is the first to see the cancellation, and exactly the batches before it have run. */
  ghost predicate StopsAt(n: nat, processed: nat, cancelled: nat -> bool, i: nat) {
    i < BatchCount(n) && cancelled(i) && processed == i * BATCH_SIZE < n && forall m: nat :: m < i ==> !cancelled(m)
  }

  ghost predicate NeverCancelled(n: nat, cancelled: nat -> bool) {
    forall i: nat :: i < BatchCount(n) ==> !cancelled(i)
  }

  lemma {:induction false} BatchesAreTheLoop<W>(
      importer: Importer<W>, first: Progress<W>, rows: seq<FileRow>, k: nat, start: nat, cancelled: nat -> bool)
    requires start <= |rows|
    ensures var run := RunBatches(importer, ProcessRows(importer, first, rows[..start]), rows, k, start, cancelled);
            run.processed <= |rows| && run.progress == ProcessRows(importer, first, rows[..run.processed])
    decreases |rows| - start
  {
    if start < |rows| && !cancelled(k) {
      var end := if start + BATCH_SIZE <= |rows| then start + BATCH_SIZE else |rows|;
      ProcessConcat(importer, first, rows[..start], rows[start..end]);
      assert rows[..start] + rows[start..end] == rows[..end];
      BatchesAreTheLoop(importer, first, rows, k + 1, end, cancelled);
    }
  }

  lemma {:induction false} WhereBatchesStop<W>(
      importer: Importer<W>, p: Progress<W>, rows: seq<FileRow>, k: nat, start: nat, cancelled: nat -> bool)
    requires if start < |rows| then start == k * BATCH_SIZE else start == |rows| && k == BatchCount(|rows|)
    requires forall i: nat :: i < k ==> !cancelled(i)
    ensures var run := RunBatches(importer, p, rows, k, start, cancelled);
            && (run.cancelled <==> !NeverCancelled(|rows|, cancelled))
            && (if run.cancelled then exists i: nat :: StopsAt(|rows|, run.processed, cancelled, i)
                else run.processed == |rows|)
    decreases |rows| - start
  {
    if start < |rows| {
      if cancelled(k) {
        assert StopsAt(|rows|, start, cancelled, k);
      } else {
        var end := if start + BATCH_SIZE <= |rows| then start + BATCH_SIZE else |rows|;
        WhereBatchesStop(importer, ProcessRows(importer, p, rows[start..end]), rows, k + 1, end, cancelled);
      }
    }
  }

  /**
   The background run refines the simple loop: whatever cancellations arrive, its session, its error
   rows and its counters are those of the loop on the rows it processed. Uncancelled it processes every
   row; cancelled, exactly the whole batches before the first check that saw the cancellation.
   */
  lemma RunRefinesLoop<W>(importer: Importer<W>, session: Session<W>, job: Job, file: seq<Cells>, cancelled: nat -> bool)
    requires job.status.Pending?
    ensures var rows := Numbered(file);
            var done := RunJob(importer, session, job, Some(file), cancelled);
            && done.job.processed <= |rows|
            && (var p := ProcessRows(importer, Begin(session), rows[..done.job.processed]);
                && done.session == p.session
                && done.errorRows == p.errorRows
                && done.job.imported == p.imported && done.job.skipped == p.skipped && done.job.errors == p.errors)
            && done.job.status == (if NeverCancelled(|rows|, cancelled) then Completed else Cancelled)
            && (if NeverCancelled(|rows|, cancelled) then done.job.processed == |rows|
                else done.job.processed % 500 == 0 && exists i: nat :: StopsAt(|rows|, done.job.processed, cancelled, i))
  {
    var rows := Numbered(file);
    assert rows[..0] == [];
    BatchesAreTheLoop(importer, Begin(session), rows, 0, 0, cancelled);
    WhereBatchesStop(importer, Begin(session), rows, 0, 0, cancelled);
  }

  // ---------------------------------------------------------------- when a cancellation takes effect

  /** What the job record says once `done` rows are in, when a cancellation is written after `arrival` rows. */
  function StatusSeen(arrival: nat, done: nat): JobStatus { if arrival <= done then Cancelled else Running }

  /** The check before batch `k` reads the record after `k` full batches. */
  function Sees(arrival: nat): nat -> bool { (k: nat) => StatusSeen(arrival, k * BATCH_SIZE).Cancelled? }

  /** How many rows are in when the last batch of a file of `n` rows starts. */
  function LastBatchStart(n: nat): nat
    requires n > 0
  {
    (BatchCount(n) - 1) * BATCH_SIZE
  }

  /** The first check that can see the cancellation is the one after the batch it arrived in. */
  lemma SeenFrom(arrival: nat, i: nat)
    ensures Sees(arrival)(i) <==> i >= BatchCount(arrival)
  {
  }

  lemma CancelledBeforeLast(n: nat, arrival: nat)
    ensures NeverCancelled(n, Sees(arrival)) <==> n == 0 || LastBatchStart(n) < arrival
  {
    forall i: nat ensures Sees(arrival)(i) <==> i >= BatchCount(arrival) { SeenFrom(arrival, i); }
    if n > 0 {
      assert Sees(arrival)(BatchCount(n) - 1) <==> arrival <= LastBatchStart(n);
    }
  }

  /**
   A cancellation that arrives once `arrival` rows are in ends the job cancelled exactly when the last batch
   has not started by then; the batch it arrived in is still finished. Otherwise every row is processed.
   */
  lemma CancelTakesEffectIff<W>(importer: Importer<W>, session: Session<W>, job: Job, file: seq<Cells>, arrival: nat)
    requires job.status.Pending?
    ensures var done := RunJob(importer, session, job, Some(file), Sees(arrival)).job;
            && (done.status.Cancelled? <==> |file| > 0 && arrival <= LastBatchStart(|file|))
            && (done.status.Cancelled? ==> done.processed == BatchCount(arrival) * BATCH_SIZE)
            && (!done.status.Cancelled? ==> done.status.Completed? && done.processed == |file|)
  {
    RunRefinesLoop(importer, session, job, file, Sees(arrival));
    CancelledBeforeLast(|file|, arrival);
    var done := RunJob(importer, session, job, Some(file), Sees(arrival)).job;
    if done.status.Cancelled? {
      var i: nat :| StopsAt(|file|, done.processed, Sees(arrival), i);
      SeenFrom(arrival, i);
      SeenFrom(arrival, BatchCount(arrival));
    }
  }

  /** A cancellation during the last batch is on the record when the run ends, and is overwritten. */
  lemma LateCancelOverwritten<W>(importer: Importer<W>, session: Session<W>, job: Job, file: seq<Cells>, arrival: nat)
    requires job.status.Pending? && |file| > 0 && LastBatchStart(|file|) < arrival <= |file|
    ensures var done := RunJob(importer, session, job, Some(file), Sees(arrival)).job;
            && StatusSeen(arrival, done.processed).Cancelled?
            && done.status.Completed?
            && done.processed == |file|
  {
    CancelTakesEffectIff(importer, session, job, file, arrival);
  }

  // ---------------------------------------------------------------- counters and keys

  lemma {:induction false} CountersAddUp<W>(importer: Importer<W>, p: Progress<W>, rows: seq<FileRow>)
    ensures var q := ProcessRows(importer, p, rows);
            q.imported + q.skipped + q.errors == p.imported + p.skipped + p.errors + |rows|
  {
    if |rows| > 0 {
      CountersAddUp(importer, p, rows[..|rows| - 1]);
    }
  }

  /** Imported, skipped and errors always add up to the rows processed, cancelled or not. */
  lemma RunCountersAddUp<W>(importer: Importer<W>, session: Session<W>, job: Job, file: seq<Cells>, cancelled: nat -> bool)
    requires job.status.Pending?
    ensures var done := RunJob(importer, session, job, Some(file), cancelled).job;
            done.imported + done.skipped + done.errors == done.processed
  {
    RunRefinesLoop(importer, session, job, file, cancelled);
    var done := RunJob(importer, session, job, Some(file), cancelled).job;
    CountersAddUp(importer, Begin(session), Numbered(file)[..done.processed]);
  }

  predicate ReachedAt<W>(importer: Importer<W>, p: Progress<W>, rows: seq<FileRow>, i: nat)
    requires i < |rows|
  {
    Reaches(importer, ProcessRows(importer, p, rows[..i]), rows[i])
  }

  lemma {:induction false} SeenGrows<W>(importer: Importer<W>, p: Progress<W>, rows: seq<FileRow>, i: nat)
    requires i < |rows| && ReachedAt(importer, p, rows, i)
    ensures KeyFor(importer, importer.check(rows[i].cells)) in ProcessRows(importer, p, rows).seen
  {
    var front := rows[..|rows| - 1];
    if i < |rows| - 1 {
      assert front[..i] == rows[..i];
      SeenGrows(importer, p, front, i);
    }
  }

  /** No key is handed to the importer twice in one run: of several rows with a key, only the first valid one is. */
  lemma NoKeyTwice<W>(importer: Importer<W>, p: Progress<W>, rows: seq<FileRow>, i: nat, j: nat)
    requires i < j < |rows| && ReachedAt(importer, p, rows, i) && ReachedAt(importer, p, rows, j)
    ensures KeyFor(importer, importer.check(rows[i].cells)) != KeyFor(importer, importer.check(rows[j].cells))
  {
    assert rows[..j][..i] == rows[..i];
    SeenGrows(importer, p, rows[..j], i);
  }

  lemma StepSeen<W>(importer: Importer<W>, p: Progress<W>, row: FileRow)
    ensures StepRow(importer, p, row).seen
            == p.seen + if Reaches(importer, p, row) then {KeyFor(importer, importer.check(row.cells))} else {}
  {
  }

  /** Some row among the first `n` that reached the importer has this key. */
  ghost predicate ReachedWith<W>(importer: Importer<W>, p: Progress<W>, rows: seq<FileRow>, n: nat, key: Option<string>)
    requires n <= |rows|
  {
    exists i :: 0 <= i < n && ReachedAt(importer, p, rows, i) && KeyFor(importer, importer.check(rows[i].cells)) == key
  }

  lemma {:induction false} SeenMeaning<W>(importer: Importer<W>, p: Progress<W>, rows: seq<FileRow>, n: nat, key: Option<string>)
    requires n <= |rows|
    ensures key in ProcessRows(importer, p, rows[..n]).seen <==> key in p.seen || ReachedWith(importer, p, rows, n, key)
  {
    hide StepRow, Reaches;
    if n > 0 {
      SeenMeaning(importer, p, rows, n - 1, key);
      assert rows[..n][..n - 1] == rows[..n - 1];
      StepSeen(importer, ProcessRows(importer, p, rows[..n - 1]), rows[n - 1]);
      if ReachedAt(importer, p, rows, n - 1) && KeyFor(importer, importer.check(rows[n - 1].cells)) == key {
        assert ReachedWith(importer, p, rows, n, key);
      }
      assert ReachedWith(importer, p, rows, n - 1, key) ==> ReachedWith(importer, p, rows, n, key);
    }
  }

  /** In a run that begins afresh, a row reaches the importer exactly when it is valid and no earlier row with its key did. */
  lemma ReachedIff<W>(importer: Importer<W>, session: Session<W>, rows: seq<FileRow>, i: nat)
    requires i < |rows|
    ensures ReachedAt(importer, Begin(session), rows, i) <==>
              && importer.check(rows[i].cells).errors == []
              && forall j :: 0 <= j < i && ReachedAt(importer, Begin(session), rows, j) ==>
                   KeyFor(importer, importer.check(rows[j].cells)) != KeyFor(importer, importer.check(rows[i].cells))
  {
    var p, key := Begin(session), KeyFor(importer, importer.check(rows[i].cells));
    SeenMeaning(importer, p, rows, i, key);
  }

  // ---------------------------------------------------------------- what a run leaves behind

  /** What the importer makes of a row where it stands. */
  function ProcessedAt<W>(importer: Importer<W>, p: Progress<W>, rows: seq<FileRow>, i: nat): (Session<W>, Result)
    requires i < |rows|
  {
    importer.process(ProcessRows(importer, p, rows[..i]).session, importer.check(rows[i].cells).clean)
  }

  /** The row's writes stay: it reached the importer and did not raise. */
  predicate KeptAt<W>(importer: Importer<W>, p: Progress<W>, rows: seq<FileRow>, i: nat)
    requires i < |rows|
  {
    ReachedAt(importer, p, rows, i) && !ProcessedAt(importer, p, rows, i).1.Raised?
  }

  /** The data as the last row whose writes stay left it. */
  function LastKept<W>(importer: Importer<W>, p: Progress<W>, rows: seq<FileRow>, n: nat): W
    requires n <= |rows|
  {
    if n == 0 then p.session.data
    else if KeptAt(importer, p, rows, n - 1) then ProcessedAt(importer, p, rows, n - 1).0.data
    else LastKept(importer, p, rows, n - 1)
  }

  lemma LastKeptFront<W>(importer: Importer<W>, p: Progress<W>, rows: seq<FileRow>, n: nat)
    requires n < |rows|
    ensures LastKept(importer, p, rows[..|rows| - 1], n) == LastKept(importer, p, rows, n)
  {
    if n > 0 {
      assert rows[..|rows| - 1][..n - 1] == rows[..n - 1];
      LastKeptFront(importer, p, rows, n - 1);
    }
  }

  /**
   One row: one that is invalid, a duplicate or raises leaves the data exactly as it was, whatever the importer
   wrote before it raised; any other leaves what the importer returned.
   */
  lemma RowData<W>(importer: Importer<W>, p: Progress<W>, row: FileRow)
    ensures var after := importer.process(p.session, importer.check(row.cells).clean);
            HandleRow(importer, p, row).0.session.data ==
              if Reaches(importer, p, row) && !after.1.Raised? then after.0.data else p.session.data
  {
  }

  /** A run leaves the data that the rows that reached the importer and did not raise make of it, one after the other. */
  lemma {:induction false} RunData<W>(importer: Importer<W>, p: Progress<W>, rows: seq<FileRow>)
    ensures ProcessRows(importer, p, rows).session.data == LastKept(importer, p, rows, |rows|)
  {
    if |rows| > 0 {
      var front := rows[..|rows| - 1];
      RunData(importer, p, front);
      LastKeptFront(importer, p, rows, |rows| - 1);
      RowData(importer, ProcessRows(importer, p, front), rows[|rows| - 1]);
    }
  }

  /** How many rows reached the importer and came out the given way. */
  function CameOut<W>(importer: Importer<W>, p: Progress<W>, rows: seq<FileRow>, n: nat, chosen: Result -> bool): nat
    requires n <= |rows|
  {
    if n == 0 then 0
    else CameOut(importer, p, rows, n - 1, chosen)
         + if ReachedAt(importer, p, rows, n - 1) && chosen(ProcessedAt(importer, p, rows, n - 1).1) then 1 else 0
  }

  lemma CameOutFront<W>(importer: Importer<W>, p: Progress<W>, rows: seq<FileRow>, n: nat, chosen: Result -> bool)
    requires n < |rows|
    ensures CameOut(importer, p, rows[..|rows| - 1], n, chosen) == CameOut(importer, p, rows, n, chosen)
  {
    if n > 0 {
      assert rows[..|rows| - 1][..n - 1] == rows[..n - 1];
      CameOutFront(importer, p, rows, n - 1, chosen);
    }
  }

  function IsImported(): Result -> bool { (r: Result) => r.Imported? }

  function IsSkipped(): Result -> bool { (r: Result) => r.Skipped? }

  lemma StepCounts<W>(importer: Importer<W>, p: Progress<W>, row: FileRow)
    ensures var q, result := StepRow(importer, p, row), importer.process(p.session, importer.check(row.cells).clean).1;
            && q.imported == p.imported + (if Reaches(importer, p, row) && result.Imported? then 1 else 0)
            && q.skipped == p.skipped + (if Reaches(importer, p, row) && result.Skipped? then 1 else 0)
            && q.imported + q.skipped + q.errors == p.imported + p.skipped + p.errors + 1
  {
  }

  /** Imported and skipped count exactly the rows the importer said so of; every other row is an error. */
  lemma {:induction false} RunCounts<W>(importer: Importer<W>, p: Progress<W>, rows: seq<FileRow>)
    ensures var q := ProcessRows(importer, p, rows);
            && q.imported == p.imported + CameOut(importer, p, rows, |rows|, IsImported())
            && q.skipped == p.skipped + CameOut(importer, p, rows, |rows|, IsSkipped())
            && q.errors == p.errors + |rows| - CameOut(importer, p, rows, |rows|, IsImported())
                           - CameOut(importer, p, rows, |rows|, IsSkipped())
  {
    hide StepRow, Reaches;
    if |rows| > 0 {
      RunCounts(importer, p, rows[..|rows| - 1]);
      StepCounts(importer, ProcessRows(importer, p, rows[..|rows| - 1]), rows[|rows| - 1]);
      CameOutFront(importer, p, rows, |rows| - 1, IsImported());
      CameOutFront(importer, p, rows, |rows| - 1, IsSkipped());
    }
  }

  /** What is reported for a row: nothing if it was imported, and otherwise each of its reasons, under its number and key. */
  ghost predicate Reports<W>(importer: Importer<W>, p: Progress<W>, row: FileRow, more: seq<ErrorRow>) {
    var checked := importer.check(row.cells);
    && (forall k :: 0 <= k < |more| ==> more[k].number == row.number && more[k].key == KeyFor(importer, checked))
    && (if checked.errors != [] then
          |more| == |checked.errors| && forall k :: 0 <= k < |more| ==> more[k].message == checked.errors[k]
        else if !Reaches(importer, p, row) then |more| == 1
        else
          match importer.process(p.session, checked.clean).1
          case Imported => more == []
          case Skipped(reasons) => |more| == |reasons| && forall k :: 0 <= k < |more| ==> more[k].message == "Skipped: " + reasons[k]
          case Failed(messages) => |more| == |messages| && forall k :: 0 <= k < |more| ==> more[k].message == messages[k]
          case Raised(message) => |more| == 1 && more[0].message == "Could not import row: " + message)
  }

  lemma RowReports<W>(importer: Importer<W>, p: Progress<W>, row: FileRow)
    ensures var q := HandleRow(importer, p, row).0;
            p.errorRows <= q.errorRows && Reports(importer, p, row, q.errorRows[|p.errorRows|..])
  {
    var q, checked := HandleRow(importer, p, row).0, importer.check(row.cells);
    assert q.errorRows == p.errorRows + q.errorRows[|p.errorRows|..];
  }

  /** Each row's reports stand in the run's list, after those of the rows before it. */
  lemma {:induction false} RunReports<W>(importer: Importer<W>, p: Progress<W>, rows: seq<FileRow>, i: nat)
    requires i < |rows|
    ensures var before, after := ProcessRows(importer, p, rows[..i]), ProcessRows(importer, p, rows[..i + 1]);
            && before.errorRows <= after.errorRows <= ProcessRows(importer, p, rows).errorRows
            && Reports(importer, before, rows[i], after.errorRows[|before.errorRows|..])
  {
    hide HandleRow, Reports;
    assert rows[..i + 1][..i] == rows[..i];
    RowReports(importer, ProcessRows(importer, p, rows[..i]), rows[i]);
    if i == |rows| - 1 {
      assert rows[..i + 1] == rows;
    } else {
      var front := rows[..|rows| - 1];
      RunReports(importer, p, front, i);
      assert front[..i] == rows[..i] && front[..i + 1] == rows[..i + 1];
      RowReports(importer, ProcessRows(importer, p, front), rows[|rows| - 1]);
    }
  }

  /**
   A finished job: its data, its counters and its error rows are those of the rows it processed, from the data
   it began with. A job that is not pending, or whose file is gone, writes nothing.
   */
  lemma JobOutcome<W>(importer: Importer<W>, session: Session<W>, job: Job, file: Option<seq<Cells>>, cancelled: nat -> bool)
    ensures var done := RunJob(importer, session, job, file, cancelled);
            if !job.status.Pending? then done == Finished(session, job, [])
            else if file.None? then
              && done.session == session && done.job == job.(status := JobFailed)
              && |done.errorRows| == 1 && done.errorRows[0].number == 0
            else
              && done.job.processed <= |file.value|
              && (var rows := Numbered(file.value)[..done.job.processed];
                  && done.session.data == LastKept(importer, Begin(session), rows, |rows|)
                  && Begin(session).session.data == session.data
                  && done.job.imported == CameOut(importer, Begin(session), rows, |rows|, IsImported())
                  && done.job.skipped == CameOut(importer, Begin(session), rows, |rows|, IsSkipped())
                  && done.job.errors == |rows| - done.job.imported - done.job.skipped)
  {
    if job.status.Pending? && file.Some? {
      RunRefinesLoop(importer, session, job, file.value, cancelled);
      var rows := Numbered(file.value)[..RunJob(importer, session, job, file, cancelled).job.processed];
      RunData(importer, Begin(session), rows);
      RunCounts(importer, Begin(session), rows);
    }
  }

  /** In a job's error list the reports of each processed row of the file stand under its number in the file, where the header is row one. */
  lemma JobReports<W>(importer: Importer<W>, session: Session<W>, job: Job, file: seq<Cells>, cancelled: nat -> bool, i: nat)
    requires job.status.Pending? && i < RunJob(importer, session, job, Some(file), cancelled).job.processed
    ensures i < |file|
    ensures var done, rows := RunJob(importer, session, job, Some(file), cancelled), Numbered(file);
            var before, after := ProcessRows(importer, Begin(session), rows[..i]), ProcessRows(importer, Begin(session), rows[..i + 1]);
            && before.errorRows <= after.errorRows <= done.errorRows
            && Reports(importer, before, FileRow(i + 2, file[i]), after.errorRows[|before.errorRows|..])
  {
    RunRefinesLoop(importer, session, job, file, cancelled);
    var rows := Numbered(file)[..RunJob(importer, session, job, Some(file), cancelled).job.processed];
    RunReports(importer, Begin(session), rows, i);
    assert rows[..i] == Numbered(file)[..i] && rows[..i + 1] == Numbered(file)[..i + 1];
  }

  // ---------------------------------------------------------------- the run over a coherent cache

  /** The importer touches the reference context only by resolving names, at most one warehouse a row. */
  ghost predicate ResolvesOnly<W(!new)>(importer: Importer<W>, options: IC.Options) {
    forall session: Session<W>, clean: map<string, string> :: Scripted(importer, options, session, clean)
  }

  ghost predicate Scripted<W>(importer: Importer<W>, options: IC.Options, session: Session<W>, clean: map<string, string>) {
    exists requests :: IC.OneWarehouse(requests)
      && importer.process(session, clean).0.ctx == IC.ResolveAll(session.ctx, options, requests)
  }

  lemma StepCoherent<W(!new)>(importer: Importer<W>, options: IC.Options, p: Progress<W>, row: FileRow)
    requires ResolvesOnly(importer, options) && IC.BetweenRows(p.session.ctx) && IC.Coherent(p.session.ctx)
    ensures var ctx := StepRow(importer, p, row).session.ctx; IC.BetweenRows(ctx) && IC.Coherent(ctx)
  {
    if Reaches(importer, p, row) {
      var checked := importer.check(row.cells);
      assert Scripted(importer, options, p.session, checked.clean);
      var requests :| IC.OneWarehouse(requests)
        && importer.process(p.session, checked.clean).0.ctx == IC.ResolveAll(p.session.ctx, options, requests);
      var last := IC.Row(requests, importer.process(p.session, checked.clean).1.Raised?);
      IC.RowGrows(p.session.ctx, options, last);
      IC.RowCoherentIff(p.session.ctx, options, last);
      assert forall i: nat, j: nat :: !IC.AliasPair(p.session.ctx, options, requests, i, j);
    }
  }

  /** Every cache entry of a run of such an importer names an entity that is really there, at every row. */
  lemma {:induction false} RunCoherent<W(!new)>(importer: Importer<W>, options: IC.Options, p: Progress<W>, rows: seq<FileRow>)
    requires ResolvesOnly(importer, options) && IC.BetweenRows(p.session.ctx) && IC.Coherent(p.session.ctx)
    ensures var ctx := ProcessRows(importer, p, rows).session.ctx; IC.BetweenRows(ctx) && IC.Coherent(ctx)
  {
    if |rows| > 0 {
      RunCoherent(importer, options, p, rows[..|rows| - 1]);
      StepCoherent(importer, options, ProcessRows(importer, p, rows[..|rows| - 1]), rows[|rows| - 1]);
    }
  }

  // ---------------------------------------------------------------- the run as a run of the cache

  /** The importer touches the reference context only by resolving names. */
  ghost predicate Resolves<W(!new)>(importer: Importer<W>, options: IC.Options) {
    forall session: Session<W>, clean: map<string, string> :: Asks(importer, options, session, clean)
  }

  ghost predicate Asks<W>(importer: Importer<W>, options: IC.Options, session: Session<W>, clean: map<string, string>) {
    exists requests :: importer.process(session, clean).0.ctx == IC.ResolveAll(session.ctx, options, requests)
  }

  /**
   To the reference cache a run is exactly a sequence of rows, one for each that reached the importer, rolled
   back when it raised and committed when it did not. So what is proved of the cache over rows holds of runs.
   */
  lemma {:induction false} RunIsCacheRun<W(!new)>(importer: Importer<W>, options: IC.Options, p: Progress<W>, rows: seq<FileRow>)
    returns (script: seq<IC.Row>)
    requires Resolves(importer, options)
    ensures ProcessRows(importer, p, rows).session.ctx == IC.RunRows(p.session.ctx, options, script)
    ensures |script| == CameOut(importer, p, rows, |rows|, (r: Result) => true)
  {
    hide StepRow, IC.HandleRow, IC.ResolveAll, Asks;
    script := [];
    if |rows| > 0 {
      var front, row := rows[..|rows| - 1], rows[|rows| - 1];
      script := RunIsCacheRun(importer, options, p, front);
      CameOutFront(importer, p, rows, |rows| - 1, (r: Result) => true);
      var mid := ProcessRows(importer, p, front);
      if Reaches(importer, mid, row) {
        var last := StepIsCacheRow(importer, options, mid, row);
        assert (script + [last])[..|script|] == script;
        script := script + [last];
      } else {
        UnreachedKeepsContext(importer, mid, row);
      }
    }
  }

  lemma StepIsCacheRow<W(!new)>(importer: Importer<W>, options: IC.Options, p: Progress<W>, row: FileRow) returns (last: IC.Row)
    requires Resolves(importer, options) && Reaches(importer, p, row)
    ensures StepRow(importer, p, row).session.ctx == IC.HandleRow(p.session.ctx, options, last)
    ensures last.raises == importer.process(p.session, importer.check(row.cells).clean).1.Raised?
  {
    var checked := importer.check(row.cells);
    assert Asks(importer, options, p.session, checked.clean);
    var requests :| importer.process(p.session, checked.clean).0.ctx == IC.ResolveAll(p.session.ctx, options, requests);
    last := IC.Row(requests, importer.process(p.session, checked.clean).1.Raised?);
  }

  lemma UnreachedKeepsContext<W>(importer: Importer<W>, p: Progress<W>, row: FileRow)
    requires !Reaches(importer, p, row)
    ensures StepRow(importer, p, row).session == p.session
  {
  }

  /** A job's cache starts empty, over the store as it was. */
  lemma JobIsCacheRun<W(!new)>(importer: Importer<W>, options: IC.Options, session: Session<W>, job: Job, file: seq<Cells>,
                               cancelled: nat -> bool) returns (script: seq<IC.Row>)
    requires Resolves(importer, options) && job.status.Pending?
    ensures RunJob(importer, session, job, Some(file), cancelled).session.ctx
            == IC.RunRows(IC.Context(session.ctx.store, map[], map[]), options, script)
  {
    RunRefinesLoop(importer, session, job, file, cancelled);
    var done := RunJob(importer, session, job, Some(file), cancelled).job;
    script := RunIsCacheRun(importer, options, Begin(session), Numbered(file)[..done.processed]);
  }
}
