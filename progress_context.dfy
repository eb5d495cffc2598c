/**
 * The client-side progress context (src/contexts/ProgressContext.tsx). Its
 * state `progressMap` is replaced on every update by a copy of the previous
 * map with one entry set, so earlier maps are never changed; `getProgress`
 * reads the current map and answers the default record for an unknown id.
 */
module ProgressContext {
  import opened ProgressStore

  /** `new Map(prev)` followed by `set(id, { progress, status })` on the copy. */
  function Updated(prev: map<string, Record>, id: string, progress: int, status: string): map<string, Record> {
    prev[id := Record(progress, status)]
  }

  /** The provider's state. */
  class Provider {
    var progressMap: map<string, Record>

    constructor ()
      ensures progressMap == map[]
    {
      progressMap := map[];
    }

    /** `updateProgress`: the state becomes the updated copy of the previous map. */
    method UpdateProgress(id: string, progress: int, status: string)
      modifies this
      ensures progressMap == Updated(old(progressMap), id, progress, status)
    {
      var prev := progressMap;
      var next := Updated(prev, id, progress, status);
      progressMap := next;
    }

    /** `getProgress`: the entry, or `{ progress: 0, status: 'não encontrado' }`; reads only. */
    function GetProgress(id: string): (r: Record)
      reads this
      ensures id in progressMap ==> r == progressMap[id]
      ensures id !in progressMap ==> r == Record(0, "não encontrado")
    {
      Lookup(progressMap, id)
    }
  }

  /**
   * The updated map holds the new record under id and every other key's entry
   * (or absence) as before, and is at most one entry larger.
   */
  lemma UpdatedMeaning(prev: map<string, Record>, id: string, progress: int, status: string)
    ensures var next := Updated(prev, id, progress, status);
      && Lookup(next, id) == Record(progress, status)
      && (forall k :: k != id ==> (k in next <==> k in prev) && Lookup(next, k) == Lookup(prev, k))
      && next.Keys == prev.Keys + {id}
      && |prev| <= |next| <= |prev| + 1
  {
    var next := Updated(prev, id, progress, status);
    if id in prev {
      assert next.Keys == prev.Keys;
    } else {
      assert next.Keys == prev.Keys + {id};
    }
  }

  /** Updating with the record already stored changes nothing. */
  lemma UpdateSameRecord(prev: map<string, Record>, id: string)
    requires id in prev
    ensures Updated(prev, id, prev[id].progress, prev[id].status) == prev
  {
  }
}
