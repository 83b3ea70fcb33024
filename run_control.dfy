/** Run control of FileScannerService, taken one step at a time: the pause and
    cancellation flags, and the bookkeeping each file-processing task does when it
    finishes (the `results` list and the `processedFiles` counter). */
module RunControl {
  import opened Wrappers
  import opened Models

  /** How one file-processing task ends. */
  datatype TaskOutcome =
    | CancelledAtSemaphore                    // WaitAsync(token) throws outside the try: the task ends Canceled
    | CancelledAtCheck                        // ThrowIfCancellationRequested inside the try: caught and ignored
    | Scanned(result: Option<FileScanResult>) // ScanFileAsync returned (null or a result)

  /** The pause flag (with the ManualResetEvent it drives) and the cancellation token. */
  class FileScannerService {
    var isPaused: bool
    var cancellationRequested: bool

    constructor ()
      ensures !isPaused && !cancellationRequested
    {
      isPaused := false;
      cancellationRequested := false;
    }

    /** IsPaused = true: the pause event is reset and tasks wait at WaitOne. */
    method Pause()
      modifies this
      ensures isPaused
      ensures cancellationRequested == old(cancellationRequested)
    {
      isPaused := true;
    }

    /** IsPaused = false: the pause event is set again. */
    method Resume()
      modifies this
      ensures !isPaused
      ensures cancellationRequested == old(cancellationRequested)
    {
      isPaused := false;
    }

    /** Cancels the token and clears the pause so that waiting tasks are released. */
    method Cancel()
      modifies this
      ensures cancellationRequested && !isPaused
    {
      cancellationRequested := true;
      isPaused := false;
    }

    /** One task of the processing phase, given whether it obtained its semaphore slot
        before the token was cancelled and what ScanFileAsync would return for its file.
        The steps come in the source's order: the semaphore wait, which a cancelled token
        aborts unless the slot was already taken; the pause event (None: the task is held
        at WaitOne and has not finished); ThrowIfCancellationRequested; the scan. */
    method RunTask(acquiredBeforeCancel: bool, scan: Option<FileScanResult>) returns (outcome: Option<TaskOutcome>)
      ensures outcome == Some(CancelledAtSemaphore) <==> cancellationRequested && !acquiredBeforeCancel
      ensures outcome.None? <==> (acquiredBeforeCancel || !cancellationRequested) && isPaused
      ensures outcome == Some(CancelledAtCheck) <==>
                cancellationRequested && acquiredBeforeCancel && !isPaused
      ensures outcome.Some? && outcome.value.Scanned? ==>
                !cancellationRequested && !isPaused && outcome.value.result == scan
    {
      if cancellationRequested && !acquiredBeforeCancel {
        return Some(CancelledAtSemaphore);
      }
      if isPaused {
        return None;
      }
      if cancellationRequested {
        return Some(CancelledAtCheck);
      }
      return Some(Scanned(scan));
    }
  }

  /** The results a sequence of finished tasks appends, in the order the tasks finish. */
  function Appended(outcomes: seq<TaskOutcome>): seq<FileScanResult> {
    if outcomes == [] then []
    else
      var o := outcomes[|outcomes| - 1];
      Appended(outcomes[..|outcomes| - 1]) +
        (if o.Scanned? && o.result.Some? then [o.result.value] else [])
  }

  /** How many of the finished tasks increment processedFiles. */
  function Processed(outcomes: seq<TaskOutcome>): nat {
    if outcomes == [] then 0
    else Processed(outcomes[..|outcomes| - 1]) + (if outcomes[|outcomes| - 1].Scanned? then 1 else 0)
  }

  /** Whether some finished task ended Canceled at the semaphore. */
  function Faulted(outcomes: seq<TaskOutcome>): bool {
    outcomes != [] &&
      (Faulted(outcomes[..|outcomes| - 1]) || outcomes[|outcomes| - 1].CancelledAtSemaphore?)
  }

  /** What `await Task.WhenAll(tasks)` gives ScanFilesAsync: a Canceled task makes it
      throw, so no list is returned (None); otherwise the list the tasks appended. */
  function ScanFilesResult(outcomes: seq<TaskOutcome>): Option<seq<FileScanResult>> {
    if Faulted(outcomes) then None else Some(Appended(outcomes))
  }

  /** The run fails exactly when some task was cancelled at the semaphore; a cancellation
      seen at ThrowIfCancellationRequested is ignored. A successful run returns exactly
      the non-null scan results. */
  lemma {:induction false} ScanFilesResultSpec(outcomes: seq<TaskOutcome>)
    ensures ScanFilesResult(outcomes).None? <==>
              exists k :: 0 <= k < |outcomes| && outcomes[k] == CancelledAtSemaphore
    ensures ScanFilesResult(outcomes).Some? ==>
              forall r :: r in ScanFilesResult(outcomes).value <==> Scanned(Some(r)) in outcomes
  {
    FaultedSpec(outcomes);
    BookkeepingBounds(outcomes);
  }

  lemma {:induction false} FaultedSpec(outcomes: seq<TaskOutcome>)
    ensures Faulted(outcomes) <==> exists k :: 0 <= k < |outcomes| && outcomes[k] == CancelledAtSemaphore
  {
    if outcomes != [] {
      var p := outcomes[..|outcomes| - 1];
      FaultedSpec(p);
      if Faulted(p) {
        var k :| 0 <= k < |p| && p[k] == CancelledAtSemaphore;
        assert outcomes[k] == CancelledAtSemaphore;
      }
      if exists k :: 0 <= k < |outcomes| && outcomes[k] == CancelledAtSemaphore {
        var k :| 0 <= k < |outcomes| && outcomes[k] == CancelledAtSemaphore;
        if k < |p| {
          assert p[k] == CancelledAtSemaphore;
        }
      }
    }
  }

  /** Once the token is cancelled during file discovery, no task holds a slot, so every
      task is cancelled at the semaphore and a run with at least one file fails. */
  lemma {:induction false} CancelledBeforeProcessingFails(outcomes: seq<TaskOutcome>)
    requires outcomes != []
    requires forall k :: 0 <= k < |outcomes| ==> outcomes[k] == CancelledAtSemaphore
    ensures ScanFilesResult(outcomes) == None
  {
    assert outcomes[|outcomes| - 1].CancelledAtSemaphore?;
  }

  /** Every task that scans counts once; only the non-null results are kept, so there
      are never more results than processed files, and the kept results are exactly the
      non-null ones. */
  lemma {:induction false} BookkeepingBounds(outcomes: seq<TaskOutcome>)
    ensures |Appended(outcomes)| <= Processed(outcomes) <= |outcomes|
    ensures forall r :: r in Appended(outcomes) <==> Scanned(Some(r)) in outcomes
    ensures (forall k :: 0 <= k < |outcomes| ==> !outcomes[k].Scanned?) ==> Processed(outcomes) == 0
  {
    if outcomes != [] {
      var p := outcomes[..|outcomes| - 1];
      var o := outcomes[|outcomes| - 1];
      BookkeepingBounds(p);
      assert outcomes == p + [o];
      assert forall k :: 0 <= k < |p| ==> p[k] == outcomes[k];
      forall r ensures r in Appended(outcomes) <==> Scanned(Some(r)) in outcomes {
        assert Scanned(Some(r)) in outcomes <==> Scanned(Some(r)) in p || o == Scanned(Some(r));
      }
      if forall k :: 0 <= k < |outcomes| ==> !outcomes[k].Scanned? {
        assert !o.Scanned?;
        assert forall k :: 0 <= k < |p| ==> !p[k].Scanned?;
      }
    }
  }

  /** The shared results list and processedFiles counter of one ScanFilesAsync call. */
  class ScanRun {
    var results: seq<FileScanResult>
    var processedFiles: nat
    var faulted: bool

    predicate Valid()
      reads this
    {
      |results| <= processedFiles
    }

    constructor ()
      ensures Valid() && results == [] && processedFiles == 0 && !faulted
    {
      results := [];
      processedFiles := 0;
      faulted := false;
    }

    /** The step under the lock: a scanned file counts once and its result, if any, is
        appended; a task cancelled inside the try changes nothing; a task cancelled at
        the semaphore ends Canceled, which WhenAll will report. */
    method Record(outcome: TaskOutcome)
      requires Valid()
      modifies this
      ensures Valid()
      ensures results == old(results) + Appended([outcome])
      ensures processedFiles == old(processedFiles) + Processed([outcome])
      ensures faulted == (old(faulted) || Faulted([outcome]))
    {
      assert [outcome][..0] == [];
      if outcome.CancelledAtSemaphore? {
        faulted := true;
      }
      if outcome.Scanned? {
        if outcome.result.Some? {
          results := results + [outcome.result.value];
        }
        processedFiles := processedFiles + 1;
      }
    }

    /** The tasks finishing one after the other. */
    method RecordAll(outcomes: seq<TaskOutcome>)
      requires Valid()
      modifies this
      ensures Valid()
      ensures results == old(results) + Appended(outcomes)
      ensures processedFiles == old(processedFiles) + Processed(outcomes)
      ensures faulted == (old(faulted) || Faulted(outcomes))
    {
      var i := 0;
      while i < |outcomes|
        invariant 0 <= i <= |outcomes| && Valid()
        invariant results == old(results) + Appended(outcomes[..i])
        invariant processedFiles == old(processedFiles) + Processed(outcomes[..i])
        invariant faulted == (old(faulted) || Faulted(outcomes[..i]))
      {
        Record(outcomes[i]);
        assert outcomes[..i + 1][..i] == outcomes[..i];
        i := i + 1;
      }
      assert outcomes[..i] == outcomes;
    }

    /** `await Task.WhenAll(tasks)` followed by `return results`. */
    method WhenAll() returns (r: Option<seq<FileScanResult>>)
      ensures r.None? <==> faulted
      ensures r.Some? ==> r.value == results
    {
      if faulted {
        return None;
      }
      return Some(results);
    }
  }

  /** The processing phase of ScanFilesAsync: a fresh list and counter, the tasks
      finishing in the given order, then WhenAll. */
  method ProcessFiles(outcomes: seq<TaskOutcome>) returns (r: Option<seq<FileScanResult>>)
    ensures r == ScanFilesResult(outcomes)
  {
    var run := new ScanRun();
    run.RecordAll(outcomes);
    assert run.results == [] + Appended(outcomes) == Appended(outcomes);
    r := run.WhenAll();
  }

  /** ScanFilesAsync when Cancel comes during file discovery: the token is already
      cancelled when the processing tasks start, so no task holds a semaphore slot, each
      is cancelled at WaitAsync, and a run with at least one file returns no list. */
  method CancelDuringDiscovery(scans: seq<Option<FileScanResult>>) returns (r: Option<seq<FileScanResult>>)
    ensures scans != [] <==> r.None?
    ensures scans == [] ==> r == Some([])
  {
    var service := new FileScannerService();
    service.Cancel();
    var outcomes: seq<TaskOutcome> := [];
    var i := 0;
    while i < |scans|
      invariant 0 <= i <= |scans| && |outcomes| == i
      invariant service.cancellationRequested
      invariant forall k :: 0 <= k < i ==> outcomes[k] == CancelledAtSemaphore
    {
      var outcome := service.RunTask(false, scans[i]);
      outcomes := outcomes + [outcome.value];
      i := i + 1;
    }
    if scans != [] {
      CancelledBeforeProcessingFails(outcomes);
    }
    r := ProcessFiles(outcomes);
  }
}
