/**
 * The progress query endpoint (src/app/api/convert-video/progress/route.ts):
 * `GET ?id=…` answers 400 without an id and otherwise 200 with the record
 * `getProgress` reads from the shared progress store, the default record for
 * an id that was never written. It only reads.
 */
module ProgressRoute {
  import opened Wrappers
  import opened ProgressStore

  /** 400 `{ error: 'ID de conversão não fornecido' }` or 200 `{ conversionId, progress, status }`. */
  datatype Answer = MissingId | Progress(conversionId: string, progress: int, status: string)

  function StatusCode(a: Answer): int {
    if a.MissingId? then 400 else 200
  }

  /** The answer for the map's current contents. */
  function Query(entries: map<string, Record>, query: Option<string>): (a: Answer)
    ensures a.MissingId? <==> query.None? || query.value == ""
    ensures a.Progress? ==> a.conversionId == query.value && Record(a.progress, a.status) == Lookup(entries, query.value)
  {
    if query.None? || query.value == "" then MissingId
    else
      var r := Lookup(entries, query.value);
      Progress(query.value, r.progress, r.status)
  }

  /** `GET`: a lookup in the shared store, which it leaves as it is (it has no modifies clause). */
  method Get(store: Store, query: Option<string>) returns (a: Answer)
    ensures a == Query(store.entries, query)
  {
    if query.None? || query.value == "" {
      return MissingId;
    }
    var r := store.GetProgress(query.value);
    a := Progress(query.value, r.progress, r.status);
  }

  /**
   * An id with no entry is answered with 200, progress 0 and 'não encontrado',
   * never with 404; an id with an entry gets that entry and the id it asked for.
   */
  lemma AnswerForId(entries: map<string, Record>, id: string)
    requires id != ""
    ensures StatusCode(Query(entries, Some(id))) == 200
    ensures id !in entries ==> Query(entries, Some(id)) == Progress(id, 0, "não encontrado")
    ensures id in entries ==> Query(entries, Some(id)) == Progress(id, entries[id].progress, entries[id].status)
  {
  }

  /** Only a missing or empty id is refused. */
  lemma MissingIdOnly(entries: map<string, Record>, query: Option<string>)
    ensures StatusCode(Query(entries, query)) == 400 <==> query.None? || query.value == ""
  {
  }

  /** A poll right after `updateProgress(id, p, s)` reads exactly p and s. */
  lemma {:induction false} PollAfterWrite(entries: map<string, Record>, id: string, p: int, s: string)
    requires id != ""
    ensures Query(Apply(entries, [Write(id, Record(p, s))]), Some(id)) == Progress(id, p, s)
  {
    ReadAfterWrite(entries, id, p, s);
  }
}
