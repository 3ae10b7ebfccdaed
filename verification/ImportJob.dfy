/**
 The background runner as the object that carries the counters and the job record. Each method is tied
 to the function of `ImportRunner` that specifies it.
 */
module ImportJob {
  import opened Common
  import opened ImportRunner
  import IC = ImportCache

  class Runner<!W> {
    const importer: Importer<W>
    var session: Session<W>
    var job: Job
    var seen: set<Option<string>>
    var errorRows: seq<ErrorRow>
    var imported: nat
    var skipped: nat
    var errors: nat

    ghost function State(): Progress<W>
      reads this
    {
      Progress(session, seen, errorRows, imported, skipped, errors)
    }

    constructor (importer: Importer<W>, session: Session<W>, job: Job)
      ensures this.importer == importer
      ensures this.session == session
      ensures this.job == job
      ensures errorRows == []
    {
      this.importer, this.session, this.job := importer, session, job;
      seen, errorRows, imported, skipped, errors := {}, [], 0, 0, 0;
    }

    method AddErrors(number: nat, key: Option<string>, prefix: string, messages: seq<string>)
      modifies this`errorRows
      ensures errorRows == old(errorRows) + Messages(number, key, prefix, messages)
    {
      var i := 0;
      while i < |messages|
        invariant 0 <= i <= |messages|
        invariant errorRows == old(errorRows) + Messages(number, key, prefix, messages[..i])
      {
        errorRows := errorRows + [ErrorRow(number, key, prefix + messages[i])];
        i := i + 1;
      }
      assert messages[..i] == messages;
    }

    /** Validate and persist one row inside a savepoint. */
    method HandleRow(row: FileRow) returns (status: RowStatus)
      modifies this`session, this`seen, this`errorRows
      ensures (State(), status) == ImportRunner.HandleRow(importer, old(State()), row)
      ensures var after := importer.process(old(session), importer.check(row.cells).clean);
              var reaches := Reaches(importer, old(State()), row);
              && session.data == (if reaches && !after.1.Raised? then after.0.data else old(session.data))
              && (status.RowImported? <==> reaches && after.1.Imported?)
              && (status.RowSkipped? <==> reaches && after.1.Skipped?)
      ensures old(errorRows) <= errorRows && Reports(importer, old(State()), row, errorRows[|old(errorRows)|..])
    {
      ImportRunner.RowData(importer, State(), row);
      RowReports(importer, State(), row);
      var checked := importer.check(row.cells);
      var key := KeyFor(importer, checked);
      if checked.errors != [] {
        AddErrors(row.number, key, "", checked.errors);
        return RowError;
      }
      if key in seen {
        AddErrors(row.number, key, "", ["Duplicate " + importer.keyField + " within file"]);
        return RowError;
      }
      seen := seen + {key};
      var savepoint := session;
      var (after, result) := importer.process(session, checked.clean);
      match result
      case Raised(message) =>
        session := RolledBack(savepoint, after);
        AddErrors(row.number, key, "Could not import row: ", [message]);
        return RowError;
      case Imported =>
        session := Committed(after);
        return RowImported;
      case Skipped(reasons) =>
        session := Committed(after);
        AddErrors(row.number, key, "Skipped: ", reasons);
        return RowSkipped;
      case Failed(messages) =>
        session := Committed(after);
        AddErrors(row.number, key, "", messages);
        return RowError;
    }

    /** The rows of a retry, or of one batch. */
    method ProcessRows(rows: seq<FileRow>)
      modifies this`session, this`seen, this`errorRows, this`imported, this`skipped, this`errors
      ensures State() == ImportRunner.ProcessRows(importer, old(State()), rows)
      ensures session.data == LastKept(importer, old(State()), rows, |rows|)
      ensures imported == old(imported) + CameOut(importer, old(State()), rows, |rows|, IsImported())
      ensures skipped == old(skipped) + CameOut(importer, old(State()), rows, |rows|, IsSkipped())
    {
      RunData(importer, State(), rows);
      RunCounts(importer, State(), rows);
      var i := 0;
      while i < |rows|
        invariant 0 <= i <= |rows|
        invariant State() == ImportRunner.ProcessRows(importer, old(State()), rows[..i])
      {
        assert rows[..i + 1][..i] == rows[..i];
        var status := HandleRow(rows[i]);
        match status {
          case RowImported => imported := imported + 1;
          case RowSkipped => skipped := skipped + 1;
          case RowError => errors := errors + 1;
        }
        i := i + 1;
      }
      assert rows[..i] == rows;
    }

    /** Batches of rows, with a look at the job record before each; the counters are written back after each. */
    method Run(file: Option<seq<Cells>>, cancelled: nat -> bool)
      modifies this
      ensures old(errorRows) == [] ==>
        Finished(session, job, errorRows) == RunJob(importer, old(session), old(job), file, cancelled)
      ensures old(errorRows) == [] && old(job).status.Pending? && file.Some? ==>
        && job.processed <= |file.value|
        && var rows := Numbered(file.value)[..job.processed];
           && session.data == LastKept(importer, Begin(old(session)), rows, |rows|)
           && job.imported == CameOut(importer, Begin(old(session)), rows, |rows|, IsImported())
           && job.skipped == CameOut(importer, Begin(old(session)), rows, |rows|, IsSkipped())
           && job.errors == |rows| - job.imported - job.skipped
    {
      JobOutcome(importer, session, job, file, cancelled);
      if !job.status.Pending? { return; }
      job := job.(status := Running);
      if file.None? {
        errorRows := errorRows + [FILE_GONE];
        job := job.(status := JobFailed);
        return;
      }
      var rows := Numbered(file.value);
      session := session.(ctx := IC.Context(session.ctx.store, map[], map[]));
      seen, errorRows, imported, skipped, errors := {}, [], 0, 0, 0;
      var k, start, stopped := 0, 0, false;
      while start < |rows| && !stopped
        invariant 0 <= start <= |rows|
        invariant (if stopped then BatchRun(State(), start, true) else RunBatches(importer, State(), rows, k, start, cancelled))
                  == RunBatches(importer, Begin(old(session)), rows, 0, 0, cancelled)
        decreases |rows| - start, !stopped
      {
        if cancelled(k) {
          stopped := true;
        } else {
          var end := if start + BATCH_SIZE <= |rows| then start + BATCH_SIZE else |rows|;
          ProcessRows(rows[start..end]);
          job := job.(processed := end, imported := imported, skipped := skipped, errors := errors);
          start, k := end, k + 1;
        }
      }
      job := Job(if stopped then Cancelled else Completed, start, imported, skipped, errors);
    }
  }
}
