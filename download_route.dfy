/**
 * The result-delivery endpoint (src/app/api/convert-video/download/route.ts).
 *
 * `GET ?id=…` looks the job up in `conversionJobs` and its record in the
 * progress map. An unknown job is answered with 404; a job whose record
 * exists and is not yet 'concluído' with 202 and that record; otherwise the
 * handler awaits the job's promise, removes the job and answers with the
 * file, or, when the promise rejects, removes the job, writes 0 'erro' and
 * answers with 500. After a delivery the record is removed 30 seconds later.
 *
 * The progress map this endpoint reads is taken to be the shared progress
 * store (the name it imports is not exported by the start endpoint).
 * Awaiting a promise that has not settled yet is the answer `Awaiting`; the
 * handler then goes on with `Resume` once the job has settled.
 */
module DownloadRoute {
  import opened Wrappers
  import opened ProgressStore
  import opened StartRoute

  /** What `GET` answers. */
  datatype Answer =
    | MissingId                                                          // 400 'ID de conversão é obrigatório'
    | UnknownJob(conversionId: string)                                   // 404 'Conversão não encontrada'
    | StillRunning(progress: int, status: string, conversionId: string)  // 202 'Conversão ainda em andamento'
    | Awaiting                                                           // suspended on the job's promise
    | File(bytes: Bytes, fileName: string)                               // 200, the converted file
    | ConversionFailed(details: string, conversionId: string)            // 500 'Erro na conversão'

  /** The HTTP status of a final answer. */
  function StatusCode(a: Answer): (code: int)
    requires !a.Awaiting?
    ensures code == 200 <==> a.File?
    ensures code == 202 <==> a.StillRunning?
    ensures code in {200, 202, 400, 404, 500}
  {
    match a
    case MissingId => 400
    case UnknownJob(_) => 404
    case StillRunning(_, _, _) => 202
    case File(_, _) => 200
    case ConversionFailed(_, _) => 500
  }

  /** `searchParams.get('id')` is present and not empty. */
  predicate HasId(query: Option<string>) {
    query.Some? && query.value != ""
  }

  /** The answer once the job's promise has settled: its file, or its error. */
  function Delivered(id: string, job: Job): Answer
    requires job.state.Settled?
  {
    match job.state.settlement
    case Resolved(bytes) => File(bytes, job.outputFileName)
    case Rejected(message) => ConversionFailed(message, id)
  }

  /** What `GET` answers for the given maps, before any change it makes. */
  function Decide(entries: map<string, Record>, jobs: map<string, Job>, query: Option<string>): (a: Answer)
    ensures a.MissingId? <==> !HasId(query)
    ensures a.UnknownJob? <==> HasId(query) && query.value !in jobs
    ensures a.StillRunning? ==> HasId(query) && query.value in jobs && query.value in entries
                                && entries[query.value].status != "concluído"
    ensures a.Awaiting? || a.File? || a.ConversionFailed? ==>
      HasId(query) && query.value in jobs && (query.value !in entries || entries[query.value].status == "concluído")
    ensures a.Awaiting? <==> HasId(query) && query.value in jobs && jobs[query.value].state.Pending?
                             && (query.value !in entries || entries[query.value].status == "concluído")
  {
    if !HasId(query) then MissingId
    else
      var id := query.value;
      if id !in jobs then UnknownJob(id)
      else if id in entries && entries[id].status != "concluído" then
        StillRunning(entries[id].progress, entries[id].status, id)
      else if jobs[id].state.Pending? then Awaiting
      else Delivered(id, jobs[id])
  }

  /** The jobs after the answer: a delivered or failed job is removed. */
  function JobsAfter(jobs: map<string, Job>, query: Option<string>, a: Answer): map<string, Job> {
    if (a.File? || a.ConversionFailed?) && query.Some? then jobs - {query.value} else jobs
  }

  /** The progress map after the answer: a failed job's record becomes 0 'erro'. */
  function EntriesAfter(entries: map<string, Record>, query: Option<string>, a: Answer): map<string, Record> {
    if a.ConversionFailed? && query.Some? then entries[query.value := ErrorRecord] else entries
  }

  /** The part of `GET` after `await job.promise`, for the job read before the await. */
  method Resume(store: Store, registry: JobRegistry, id: string, job: Job) returns (a: Answer)
    requires job.state.Settled?
    modifies store, registry
    ensures a == Delivered(id, job)
    ensures registry.jobs == old(registry.jobs) - {id}
    ensures job.state.settlement.Resolved? ==> store.history == old(store.history) && store.entries == old(store.entries)
    ensures job.state.settlement.Rejected? ==>
      store.history == old(store.history) + [Write(id, ErrorRecord)] && store.entries == old(store.entries)[id := ErrorRecord]
  {
    match job.state.settlement {
      case Resolved(bytes) =>
        registry.Remove(id);
        a := File(bytes, job.outputFileName);
      case Rejected(message) =>
        registry.Remove(id);
        store.UpdateProgress(id, 0, "erro");
        a := ConversionFailed(message, id);
    }
  }

  /** `GET`. */
  method Get(store: Store, registry: JobRegistry, query: Option<string>) returns (a: Answer)
    modifies store, registry
    ensures a == Decide(old(store.entries), old(registry.jobs), query)
    ensures registry.jobs == JobsAfter(old(registry.jobs), query, a)
    ensures store.entries == EntriesAfter(old(store.entries), query, a)
    ensures store.history == old(store.history) + (if a.ConversionFailed? && query.Some? then [Write(query.value, ErrorRecord)] else [])
  {
    if query.None? || query.value == "" {
      return MissingId;
    }
    var id := query.value;
    if id !in registry.jobs {
      return UnknownJob(id);
    }
    var job := registry.jobs[id];
    if id in store.entries && store.entries[id].status != "concluído" {
      var progress := store.entries[id];
      return StillRunning(progress.progress, progress.status, id);
    }
    if job.state.Pending? {
      return Awaiting;
    }
    a := Resume(store, registry, id, job);
  }

  /** The timer set after a delivery: 30 seconds later the record is removed. */
  method ExpireProgress(store: Store, id: string)
    modifies store
    ensures store.history == old(store.history) + [Erase(id)]
    ensures store.entries == old(store.entries) - {id}
    ensures store.GetProgress(id) == NotFound
  {
    store.Delete(id);
  }

  // ------------------------------------------------------------ lemmas

  /** A 202 changes nothing: the job stays registered and the record stays as it was. */
  lemma StillRunningKeepsJob(entries: map<string, Record>, jobs: map<string, Job>, query: Option<string>)
    requires Decide(entries, jobs, query).StillRunning?
    ensures var a := Decide(entries, jobs, query);
      && JobsAfter(jobs, query, a) == jobs && EntriesAfter(entries, query, a) == entries
      && query.value in jobs && query.value in entries
      && a == StillRunning(entries[query.value].progress, entries[query.value].status, query.value)
      && entries[query.value].status != "concluído"
  {
  }

  /** A job with no record at all is not taken to be in progress: the handler goes on to its promise. */
  lemma AbsentRecordNotInProgress(entries: map<string, Record>, jobs: map<string, Job>, id: string)
    requires id != "" && id in jobs && id !in entries
    ensures var a := Decide(entries, jobs, Some(id));
      && !a.StillRunning?
      && (jobs[id].state.Pending? ==> a == Awaiting)
      && (jobs[id].state.Settled? ==> a == Delivered(id, jobs[id]))
  {
  }

  /** After a delivery or a failure the job is gone, so fetching the same id again is answered with 404. */
  lemma SecondFetchNotFound(entries: map<string, Record>, jobs: map<string, Job>, id: string)
    requires var a := Decide(entries, jobs, Some(id)); a.File? || a.ConversionFailed?
    ensures var a := Decide(entries, jobs, Some(id));
      Decide(EntriesAfter(entries, Some(id), a), JobsAfter(jobs, Some(id), a), Some(id)) == UnknownJob(id)
  {
  }

  /**
   * A delivery removes the job but keeps the record; only the expiry timer
   * removes it, and then a poll reads the default record.
   */
  lemma DeliveryKeepsRecord(entries: map<string, Record>, jobs: map<string, Job>, id: string)
    requires Decide(entries, jobs, Some(id)).File?
    ensures var a := Decide(entries, jobs, Some(id));
      && EntriesAfter(entries, Some(id), a) == entries
      && id !in JobsAfter(jobs, Some(id), a)
      && jobs[id].state == Settled(Resolved(a.bytes)) && a.fileName == jobs[id].outputFileName
      && Lookup(EntriesAfter(entries, Some(id), a) - {id}, id) == NotFound
  {
  }

  /** A rejected job is answered with 500 and its details, its record set to 0 'erro', its job removed. */
  lemma FailureAnswer(entries: map<string, Record>, jobs: map<string, Job>, id: string)
    requires id != "" && id in jobs && jobs[id].state.Settled? && jobs[id].state.settlement.Rejected?
    requires id !in entries || entries[id].status == "concluído"
    ensures var a := Decide(entries, jobs, Some(id));
      && a == ConversionFailed(jobs[id].state.settlement.message, id) && StatusCode(a) == 500
      && EntriesAfter(entries, Some(id), a) == entries[id := ErrorRecord]
      && JobsAfter(jobs, Some(id), a) == jobs - {id}
  {
  }
}
