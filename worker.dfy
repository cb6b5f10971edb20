/**
 * The body of a background extraction job: mark the job processing, run
 * the extraction, record its result or its error in the job store, then
 * remove the uploaded temporary file whatever happened.
 *
 * The file system is the set of existing paths; whether removing the
 * temporary file raises an OSError is a parameter.
 */
module Worker {
  import opened Wrappers
  import opened Utils
  import Schema
  import Extract
  import opened JobStore

  /** The error text a failed job records: the exception's class name, a colon, its message. */
  function FailureText(f: Failure): string {
    FailureClass(f) + ": " + FailureMessage(f)
  }

  /** The recorded text starts with the class name and ends with the message, so both can be read back. */
  lemma FailureTextParts(f: Failure)
    ensures var t := FailureText(f);
      |t| >= |FailureClass(f)| + 2
      && t[..|FailureClass(f)|] == FailureClass(f)
      && t[|FailureClass(f)|..|FailureClass(f)| + 2] == ": "
      && t[|FailureClass(f)| + 2..] == FailureMessage(f)
  {
    var t := FailureText(f);
    var n := |FailureClass(f)|;
    assert t == FailureClass(f) + ": " + FailureMessage(f);
    assert t[..n] == FailureClass(f);
    assert t[n..n + 2] == ": ";
    assert t[n + 2..] == FailureMessage(f);
  }

  /**
   * _run. `during` is the store's jobs while the extraction runs: the job
   * is already marked processing. Afterwards the job is completed with the
   * result, or failed with the error text, and nothing else in the store
   * changes; the temporary file is gone unless removing it failed.
   */
  method Run(store: Store, jobId: string, req: Extract.Request, env: Extract.Environment,
             files: set<string>, removeFails: bool, startedAt: real, finishedAt: real)
    returns (outcome: Result<Schema.ExtractionResult, Failure>, filesAfter: set<string>, ghost during: map<string, JobEntry>)
    requires store.Valid()
    modifies store
    ensures store.Valid()
    ensures during == if jobId in old(store.jobs)
      then old(store.jobs)[jobId := old(store.jobs)[jobId].(status := Processing, updatedAt := startedAt)]
      else old(store.jobs)
    ensures store.ids == old(store.ids)
    ensures jobId !in old(store.jobs) ==> store.jobs == old(store.jobs) && store.disk == old(store.disk)
    ensures jobId in old(store.jobs) ==>
      var e := old(store.jobs)[jobId];
      store.jobs == old(store.jobs)[jobId :=
        if outcome.Ok? then e.(status := Completed, result := Some(outcome.value), updatedAt := finishedAt)
        else e.(status := Failed, error := Some(FailureText(outcome.error)), updatedAt := finishedAt)]
    ensures jobId in old(store.jobs) ==>
      store.disk == if store.persist then old(store.disk)[jobId := store.jobs[jobId]] else old(store.disk)
    ensures outcome == Extract.ExtractPdfSpec(req, env)
    ensures outcome.Ok? ==> outcome.value.docId == env.docId && outcome.value.ingestedAt == env.ingestedAt
    ensures filesAfter == if removeFails then files else files - {env.path.path}
  {
    store.SetProcessing(jobId, startedAt);
    during := store.jobs;
    outcome := Extraction(req, env);
    Record(store, jobId, outcome, finishedAt);
    if jobId in old(store.jobs) {
      ProcessingThenRecorded(old(store.jobs), jobId, outcome, startedAt, finishedAt);
    }
    filesAfter := RemoveTemp(files, env.path.path, removeFails);
  }

  /** Marking a job processing and then recording its outcome leaves the entry as recording alone would, with the later time. */
  lemma ProcessingThenRecorded(jobs: map<string, JobEntry>, jobId: string, outcome: Result<Schema.ExtractionResult, Failure>,
                               startedAt: real, finishedAt: real)
    requires jobId in jobs
    ensures var e := jobs[jobId];
      var during := jobs[jobId := e.(status := Processing, updatedAt := startedAt)];
      var d := during[jobId];
      during[jobId := if outcome.Ok? then d.(status := Completed, result := Some(outcome.value), updatedAt := finishedAt)
                      else d.(status := Failed, error := Some(FailureText(outcome.error)), updatedAt := finishedAt)]
      == jobs[jobId := if outcome.Ok? then e.(status := Completed, result := Some(outcome.value), updatedAt := finishedAt)
                       else e.(status := Failed, error := Some(FailureText(outcome.error)), updatedAt := finishedAt)]
  {
  }

  /** The outcome of the extraction goes to the store: set_completed, or set_failed with the error text. */
  method Record(store: Store, jobId: string, outcome: Result<Schema.ExtractionResult, Failure>, now: real)
    requires store.Valid()
    modifies store
    ensures store.Valid()
    ensures store.ids == old(store.ids)
    ensures jobId !in old(store.jobs) ==> store.jobs == old(store.jobs) && store.disk == old(store.disk)
    ensures jobId in old(store.jobs) ==>
      var e := old(store.jobs)[jobId];
      store.jobs == old(store.jobs)[jobId :=
        if outcome.Ok? then e.(status := Completed, result := Some(outcome.value), updatedAt := now)
        else e.(status := Failed, error := Some(FailureText(outcome.error)), updatedAt := now)]
    ensures jobId in old(store.jobs) ==>
      store.disk == if store.persist then old(store.disk)[jobId := store.jobs[jobId]] else old(store.disk)
  {
    match outcome {
      case Ok(result) =>
        store.SetCompleted(jobId, result, now);
      case Err(failure) =>
        store.SetFailed(jobId, FailureText(failure), now);
    }
  }

  /** extract_pdf(pdf_path, **extract_kwargs), as the worker calls it. */
  method Extraction(req: Extract.Request, env: Extract.Environment) returns (outcome: Result<Schema.ExtractionResult, Failure>)
    ensures outcome == Extract.ExtractPdfSpec(req, env)
    ensures outcome.Ok? ==> outcome.value.docId == env.docId && outcome.value.ingestedAt == env.ingestedAt
  {
    outcome := Extract.ExtractPdf(req, env);
    Extract.ExtractPdfResult(req, env);
  }

  /** The cleanup: remove the file if it exists; an OSError leaves the files as they were. */
  method RemoveTemp(files: set<string>, path: string, removeFails: bool) returns (filesAfter: set<string>)
    ensures !removeFails ==> path !in filesAfter
    ensures forall p :: p != path ==> (p in filesAfter <==> p in files)
    ensures removeFails ==> filesAfter == files
  {
    filesAfter := files;
    if path in files && !removeFails {
      filesAfter := files - {path};
    }
  }
}
