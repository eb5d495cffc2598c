/**
 * The process-wide progress store of the conversion API
 * (src/app/api/convert-video/progressStore.ts): a map from conversion id to
 * `{ progress, status }`, written by `updateProgress` and read by
 * `getProgress`, which answers a default record for unknown ids.
 *
 * The store is a class whose `entries` field is the map. A ghost `history`
 * records every change in order, so the handlers' write sequences (what a
 * poller can observe over time) are stated as appended history; `Explains`
 * says that the map is what the history produces, and every batch of writes
 * under one id keeps it so (`ExplainsAfterWrites`).
 */
module ProgressStore {

  /** The `{ progress, status }` value kept per conversion id. */
  datatype Record = Record(progress: int, status: string)

  /** What `getProgress` answers for an id that has no entry. */
  const NotFound := Record(0, "não encontrado")

  /** The record every error path of the endpoints leaves behind. */
  const ErrorRecord := Record(0, "erro")

  /** One change to the map: `set` (updateProgress) or `delete`. */
  datatype Op = Write(id: string, rec: Record) | Erase(id: string)

  function Step(m: map<string, Record>, op: Op): map<string, Record> {
    match op
    case Write(id, rec) => m[id := rec]
    case Erase(id) => m - {id}
  }

  /** The map obtained from m by performing ops in order. */
  function Apply(m: map<string, Record>, ops: seq<Op>): map<string, Record>
    decreases |ops|
  {
    if ops == [] then m else Step(Apply(m, ops[..|ops| - 1]), ops[|ops| - 1])
  }

  /** `map.get(id) || default`. */
  function Lookup(m: map<string, Record>, id: string): Record {
    if id in m then m[id] else NotFound
  }

  /** The `set` operations that write recs under one id, in order. */
  function Writes(id: string, recs: seq<Record>): seq<Op> {
    seq(|recs|, i requires 0 <= i < |recs| => Write(id, recs[i]))
  }

  function Last<T>(s: seq<T>): T
    requires |s| > 0
  {
    s[|s| - 1]
  }

  lemma WritesAppend(id: string, a: seq<Record>, b: seq<Record>)
    ensures Writes(id, a + b) == Writes(id, a) + Writes(id, b)
  {
  }

  lemma WritesSnoc(id: string, w: seq<Record>, r: Record)
    ensures Writes(id, w + [r]) == Writes(id, w) + [Write(id, r)]
  {
  }

  /** Performing two batches of changes is performing their concatenation. */
  lemma {:induction false} ApplyConcat(m: map<string, Record>, ops1: seq<Op>, ops2: seq<Op>)
    ensures Apply(m, ops1 + ops2) == Apply(Apply(m, ops1), ops2)
    decreases |ops2|
  {
    if ops2 != [] {
      var all := ops1 + ops2;
      assert all[..|all| - 1] == ops1 + ops2[..|ops2| - 1];
      assert all[|all| - 1] == ops2[|ops2| - 1];
      ApplyConcat(m, ops1, ops2[..|ops2| - 1]);
    } else {
      assert ops1 + ops2 == ops1;
    }
  }

  /** The map after a run of writes under one id: that id holds the last record written. */
  function AfterWrites(m: map<string, Record>, id: string, recs: seq<Record>): map<string, Record> {
    if recs == [] then m else m[id := Last(recs)]
  }

  /**
   * A run of writes under one id leaves that id holding the last record
   * written and every other id as it was; an empty run changes nothing.
   */
  lemma {:induction false} ApplyWrites(m: map<string, Record>, id: string, recs: seq<Record>)
    ensures Apply(m, Writes(id, recs)) == AfterWrites(m, id, recs)
    decreases |recs|
  {
    var ops := Writes(id, recs);
    if recs == [] {
      assert ops == [];
    } else {
      assert ops[..|ops| - 1] == Writes(id, recs[..|recs| - 1]);
      ApplyWrites(m, id, recs[..|recs| - 1]);
    }
  }

  /** The map is what performing the history on an empty map produces. */
  predicate Explains(history: seq<Op>, entries: map<string, Record>) {
    entries == Apply(map[], history)
  }

  /** Appending a run of writes to the history and performing it on the map keeps the one explaining the other. */
  lemma {:induction false} ExplainsAfterWrites(history: seq<Op>, entries: map<string, Record>, id: string, recs: seq<Record>)
    requires Explains(history, entries)
    ensures Explains(history + Writes(id, recs), AfterWrites(entries, id, recs))
  {
    ApplyConcat(map[], history, Writes(id, recs));
    ApplyWrites(entries, id, recs);
  }

  /** The same for a deletion. */
  lemma ExplainsAfterErase(history: seq<Op>, entries: map<string, Record>, id: string)
    requires Explains(history, entries)
    ensures Explains(history + [Erase(id)], entries - {id})
  {
    assert (history + [Erase(id)])[..|history|] == history;
  }

  /** Reading an id that was never written gives `{ progress: 0, status: 'não encontrado' }`. */
  lemma UnknownIdReadsDefault(m: map<string, Record>, id: string)
    requires id !in m
    ensures Lookup(m, id) == Record(0, "não encontrado")
  {
  }

  /** After `updateProgress(id, p, s)` a read of id gives exactly `{ p, s }`: no clamping, no validation. */
  lemma {:induction false} ReadAfterWrite(m: map<string, Record>, id: string, p: int, s: string)
    ensures Lookup(Apply(m, [Write(id, Record(p, s))]), id) == Record(p, s)
  {
    ApplyWrites(m, id, [Record(p, s)]);
    assert Writes(id, [Record(p, s)]) == [Write(id, Record(p, s))];
  }

  /** Two successive writes to one id leave only the second. */
  lemma {:induction false} LastWriteWins(m: map<string, Record>, id: string, r1: Record, r2: Record)
    ensures Apply(m, [Write(id, r1), Write(id, r2)]) == Apply(m, [Write(id, r2)])
  {
    ApplyWrites(m, id, [r1, r2]);
    ApplyWrites(m, id, [r2]);
    assert Writes(id, [r1, r2]) == [Write(id, r1), Write(id, r2)];
    assert Writes(id, [r2]) == [Write(id, r2)];
  }

  /** A write to one id leaves every other id's entry (or absence) unchanged. */
  lemma {:induction false} WriteLeavesOthers(m: map<string, Record>, id: string, r: Record, other: string)
    requires other != id
    ensures var m' := Apply(m, [Write(id, r)]);
      (other in m' <==> other in m) && Lookup(m', other) == Lookup(m, other)
  {
    ApplyWrites(m, id, [r]);
    assert Writes(id, [r]) == [Write(id, r)];
  }

  /** The shared map behind `progressStore`. */
  class Store {
    var entries: map<string, Record>
    ghost var history: seq<Op>

    constructor ()
      ensures Explains(history, entries)
      ensures history == [] && entries == map[]
    {
      entries := map[];
      history := [];
    }

    /** `updateProgress`: overwrite the id's record with `{ progress, status }`. */
    method UpdateProgress(id: string, progress: int, status: string)
      modifies this
      ensures history == old(history) + [Write(id, Record(progress, status))]
      ensures entries == old(entries)[id := Record(progress, status)]
    {
      entries := entries[id := Record(progress, status)];
      history := history + [Write(id, Record(progress, status))];
    }

    /** `getProgress`: the stored record, or the default for an unknown id; reads only. */
    function GetProgress(id: string): (r: Record)
      reads this
      ensures id in entries ==> r == entries[id]
      ensures id !in entries ==> r == NotFound
    {
      Lookup(entries, id)
    }

    /** `delete`, used by the result-delivery path once the grace period is over. */
    method Delete(id: string)
      modifies this
      ensures history == old(history) + [Erase(id)]
      ensures entries == old(entries) - {id}
    {
      entries := entries - {id};
      history := history + [Erase(id)];
    }

    /** Several `updateProgress` calls under one id, in order. */
    method UpdateAll(id: string, recs: seq<Record>)
      modifies this
      ensures history == old(history) + Writes(id, recs)
      ensures entries == AfterWrites(old(entries), id, recs)
    {
      var i := 0;
      while i < |recs|
        invariant 0 <= i <= |recs|
        invariant history == old(history) + Writes(id, recs[..i])
        invariant entries == AfterWrites(old(entries), id, recs[..i])
      {
        UpdateProgress(id, recs[i].progress, recs[i].status);
        assert recs[..i + 1] == recs[..i] + [recs[i]];
        WritesSnoc(id, recs[..i], recs[i]);
        i := i + 1;
      }
      assert recs[..i] == recs;
    }
  }

  /** `globalThis`, which holds the store across module reloads. */
  class GlobalScope {
    var progressStore: Store?

    constructor ()
      ensures progressStore == null
    {
      progressStore := null;
    }
  }

  /**
   * Module initialisation: reuse the store registered on the global scope,
   * otherwise create an empty one and register it.
   */
  method InitProgressStore(g: GlobalScope) returns (s: Store)
    modifies g
    ensures old(g.progressStore) != null ==> s == old(g.progressStore)
    ensures old(g.progressStore) == null ==> fresh(s) && s.history == [] && s.entries == map[]
    ensures g.progressStore == s
  {
    if g.progressStore != null {
      s := g.progressStore;
    } else {
      s := new Store();
      g.progressStore := s;
    }
  }

  /** Loading the module twice yields the same store: initialisation is idempotent. */
  method InitTwice(g: GlobalScope) returns (first: Store, second: Store)
    modifies g
    ensures first == second && g.progressStore == first
    ensures old(g.progressStore) != null ==> first == old(g.progressStore)
  {
    first := InitProgressStore(g);
    second := InitProgressStore(g);
  }
}
