/**
 * The status endpoint (src/app/api/convert-video/status/route.ts). It keeps
 * a progress map of its own, distinct from the shared progress store that
 * the conversion endpoints write: `GET ?id=…` answers 400 without an id,
 * 404 for an id absent from that local map, and the stored record otherwise;
 * its `updateProgress` writes only the local map.
 */
module StatusRoute {
  import opened Wrappers
  import opened ProgressStore

  /** 400 `{ error: 'ID obrigatório' }`, 404 `{ error: 'Conversão não encontrada' }`, or 200 with the record. */
  datatype Answer = MissingId | NotFound | Found(rec: Record)

  function StatusCode(a: Answer): int {
    match a
    case MissingId => 400
    case NotFound => 404
    case Found(_) => 200
  }

  /** The answer for the local map's current contents. */
  function Respond(local: map<string, Record>, query: Option<string>): (a: Answer)
    ensures a.Found? ==> query.Some? && query.value in local && a.rec == local[query.value]
  {
    if query.None? || query.value == "" then MissingId
    else if query.value !in local then NotFound
    else Found(local[query.value])
  }

  /** The module-level map of this endpoint. */
  class StatusStore {
    var progressStore: map<string, Record>

    constructor ()
      ensures progressStore == map[]
    {
      progressStore := map[];
    }

    /** `updateProgress`: writes the local map only. */
    method UpdateProgress(id: string, progress: int, status: string)
      modifies this
      ensures progressStore == old(progressStore)[id := Record(progress, status)]
    {
      progressStore := progressStore[id := Record(progress, status)];
    }

    /** `GET`: reads the local map and changes nothing. */
    method Get(query: Option<string>) returns (a: Answer)
      ensures a == Respond(progressStore, query)
    {
      if query.None? || query.value == "" {
        return MissingId;
      }
      var id := query.value;
      if id !in progressStore {
        return NotFound;
      }
      a := Found(progressStore[id]);
    }
  }

  /** Each answer and its status code: 400 without an id, 404 for an id never written here, the record otherwise. */
  lemma AnswerForId(local: map<string, Record>, id: string)
    requires id != ""
    ensures id !in local ==> Respond(local, Some(id)) == NotFound && StatusCode(Respond(local, Some(id))) == 404
    ensures id in local ==> Respond(local, Some(id)) == Found(local[id]) && StatusCode(Respond(local, Some(id))) == 200
    ensures StatusCode(Respond(local, None)) == 400 && StatusCode(Respond(local, Some(""))) == 400
  {
  }

  /**
   * The two maps diverge: a write to the shared store is invisible here, so
   * an id the conversion endpoints have written is still answered with 404
   * while the progress endpoint reads the written record.
   */
  method SharedWriteInvisible(shared: Store, local: StatusStore, id: string, p: int, s: string)
    requires id != "" && id !in local.progressStore
    modifies shared
    ensures Respond(local.progressStore, Some(id)) == NotFound
    ensures shared.GetProgress(id) == Record(p, s)
  {
    shared.UpdateProgress(id, p, s);
  }

  /** A local write is read back by the next `GET`. */
  lemma ReadAfterLocalWrite(local: map<string, Record>, id: string, p: int, s: string)
    requires id != ""
    ensures Respond(local[id := Record(p, s)], Some(id)) == Found(Record(p, s))
  {
  }
}
