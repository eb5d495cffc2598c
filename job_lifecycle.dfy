/**
 * How the background endpoint, the delivery endpoint and the expiry timer
 * keep `conversionJobs` and the shared progress store in step.
 *
 * `Consistent` says that every registered job has a record, and that the
 * record agrees with the job's promise: not 'concluído' while it is pending,
 * 100 'concluído' once it resolved, 0 'erro' once it rejected. Starting a job
 * under a fresh id, settling it, fetching it and expiring a delivered
 * record all keep that; so does the synchronous endpoint under an id no job
 * is registered under, while a collision with a pending job breaks it.
 * Under it a fetch never waits on a promise and never reaches the 500
 * branch: a resolved job is delivered exactly once, and a rejected job is
 * answered with 202 and 0 'erro' on every fetch, its job never removed.
 */
module JobLifecycle {
  import opened Wrappers
  import opened ProgressStore
  import opened StartRoute
  import opened DownloadRoute
  import ConvertRoute

  /** The record a job's state calls for. */
  predicate Agrees(state: JobState, r: Record) {
    match state
    case Pending => r.status != "concluído"
    case Settled(Resolved(_)) => r == Record(100, "concluído")
    case Settled(Rejected(_)) => r == ErrorRecord
  }

  predicate Consistent(entries: map<string, Record>, jobs: map<string, Job>) {
    forall id :: id in jobs ==> id in entries && Agrees(jobs[id].state, entries[id])
  }

  lemma EmptyConsistent()
    ensures Consistent(map[], map[])
  {
  }

  /** `POST` under a fresh id keeps the maps in step, whether or not a job is registered. */
  lemma {:induction false} PostKeepsConsistent(entries: map<string, Record>, jobs: map<string, Job>, id: string,
                                               req: StartRequest, installed: bool, output: string, now: int)
    requires Consistent(entries, jobs) && id !in jobs
    ensures Consistent(AfterWrites(entries, id, PostWrites(req, installed)),
                       if req.video.None? then jobs else jobs[id := Job(LaunchState(installed), output, now)])
  {
    var w := PostWrites(req, installed);
    var e := AfterWrites(entries, id, w);
    assert e == entries[id := Last(w)];
    var j := if req.video.None? then jobs else jobs[id := Job(LaunchState(installed), output, now)];
    forall k | k in j
      ensures k in e && Agrees(j[k].state, e[k])
    {
      if k != id {
        assert j[k] == jobs[k] && e[k] == entries[k];
      }
    }
  }

  /** The background run settling a pending job keeps the maps in step. */
  lemma {:induction false} BackgroundKeepsConsistent(entries: map<string, Record>, jobs: map<string, Job>, id: string, sc: Script)
    requires Consistent(entries, jobs)
    requires id in jobs ==> jobs[id].state.Pending?
    ensures Consistent(AfterWrites(entries, id, ContinuationWrites(sc)), SettleJob(jobs, id, BackgroundSettlement(sc)))
  {
    var w := ContinuationWrites(sc);
    assert w == FallbackWrites(sc) + FinishWrites(sc);
    var e := AfterWrites(entries, id, w);
    assert e == entries[id := Last(FinishWrites(sc))];
    var j := SettleJob(jobs, id, BackgroundSettlement(sc));
    forall k | k in j
      ensures k in e && Agrees(j[k].state, e[k])
    {
      if k != id {
        assert j[k] == jobs[k] && e[k] == entries[k];
      }
    }
  }

  /** A fetch keeps the maps in step. */
  lemma FetchKeepsConsistent(entries: map<string, Record>, jobs: map<string, Job>, query: Option<string>)
    requires Consistent(entries, jobs)
    ensures var a := Decide(entries, jobs, query);
      Consistent(EntriesAfter(entries, query, a), JobsAfter(jobs, query, a))
  {
    var a := Decide(entries, jobs, query);
    var e, j := EntriesAfter(entries, query, a), JobsAfter(jobs, query, a);
    forall k | k in j
      ensures k in e && Agrees(j[k].state, e[k])
    {
      assert j[k] == jobs[k];
    }
  }

  /** Removing the record of a job that is no longer registered keeps the maps in step. */
  lemma ExpireKeepsConsistent(entries: map<string, Record>, jobs: map<string, Job>, id: string)
    requires Consistent(entries, jobs) && id !in jobs
    ensures Consistent(entries - {id}, jobs)
  {
  }

  /** Any run of writes under an id no job is registered under keeps the maps in step. */
  lemma {:induction false} UnregisteredWritesKeepConsistent(entries: map<string, Record>, jobs: map<string, Job>, id: string, recs: seq<Record>)
    requires Consistent(entries, jobs) && id !in jobs
    ensures Consistent(AfterWrites(entries, id, recs), jobs)
  {
    var e := AfterWrites(entries, id, recs);
    forall k | k in jobs
      ensures k in e && Agrees(jobs[k].state, e[k])
    {
      assert k != id;
      assert e[k] == entries[k];
    }
  }

  /**
   * The synchronous endpoint, which writes under the id its client chose and
   * registers no job, keeps the maps in step, before and after its answer,
   * as long as no background job was registered under that id.
   */
  lemma SyncKeepsConsistent(entries: map<string, Record>, jobs: map<string, Job>, id: string,
                            req: ConvertRoute.ConvertRequest, sc: ConvertRoute.SyncScript)
    requires Consistent(entries, jobs) && id !in jobs
    ensures Consistent(AfterWrites(entries, id, ConvertRoute.SyncWrites(req, sc)), jobs)
    ensures Consistent(AfterWrites(entries, id, ConvertRoute.SyncWrites(req, sc) + ConvertRoute.LateWrites(req, sc)), jobs)
  {
    UnregisteredWritesKeepConsistent(entries, jobs, id, ConvertRoute.SyncWrites(req, sc));
    UnregisteredWritesKeepConsistent(entries, jobs, id, ConvertRoute.SyncWrites(req, sc) + ConvertRoute.LateWrites(req, sc));
  }

  /**
   * Nothing stops a client from sending the id of a pending background job
   * to the synchronous endpoint: a successful synchronous conversion then
   * leaves that job's record at 100 'concluído' while its promise is still
   * pending, and the maps fall out of step.
   */
  lemma SyncUnderPendingJobBreaksConsistent(entries: map<string, Record>, jobs: map<string, Job>, id: string,
                                            req: ConvertRoute.ConvertRequest, sc: ConvertRoute.SyncScript)
    requires id in jobs && jobs[id].state.Pending?
    requires ConvertRoute.Proceeds(req, sc) && ConvertRoute.Failure(sc).None?
    ensures !Consistent(AfterWrites(entries, id, ConvertRoute.SyncWrites(req, sc)), jobs)
  {
    var w := ConvertRoute.ConversionWrites(sc);
    ConvertRoute.ConversionEndsInCompletion(sc);
    assert ConvertRoute.RaceWrites(sc) == w[..|w|] + [];
    assert ConvertRoute.SyncWrites(req, sc) == [Record(0, "iniciando")] + ConvertRoute.PreparingWrites + w;
    assert Last(ConvertRoute.SyncWrites(req, sc)) == Record(100, "concluído");
  }

  /** In step, a fetch never waits on a promise and never fails: its answer is 400, 404, 202 or the file. */
  lemma FetchNeverWaitsOrFails(entries: map<string, Record>, jobs: map<string, Job>, query: Option<string>)
    requires Consistent(entries, jobs)
    ensures var a := Decide(entries, jobs, query); !a.Awaiting? && !a.ConversionFailed?
  {
  }

  /** In step, a resolved job is delivered with its file and output name, and a second fetch gets 404. */
  lemma ResolvedDeliveredOnce(entries: map<string, Record>, jobs: map<string, Job>, id: string)
    requires Consistent(entries, jobs) && id != "" && id in jobs && jobs[id].state.Settled?
    requires jobs[id].state.settlement.Resolved?
    ensures var a := Decide(entries, jobs, Some(id));
      && a == File(jobs[id].state.settlement.artifact, jobs[id].outputFileName)
      && Decide(EntriesAfter(entries, Some(id), a), JobsAfter(jobs, Some(id), a), Some(id)) == UnknownJob(id)
  {
  }

  /**
   * In step, a rejected job is answered with 202, progress 0 and 'erro', and
   * the fetch changes nothing, so every later fetch is answered the same way:
   * the 500 branch is never reached for it.
   */
  lemma RejectedNeverDelivered(entries: map<string, Record>, jobs: map<string, Job>, id: string)
    requires Consistent(entries, jobs) && id != "" && id in jobs && jobs[id].state.Settled?
    requires jobs[id].state.settlement.Rejected?
    ensures var a := Decide(entries, jobs, Some(id));
      && a == StillRunning(0, "erro", id)
      && EntriesAfter(entries, Some(id), a) == entries && JobsAfter(jobs, Some(id), a) == jobs
  {
  }
}
