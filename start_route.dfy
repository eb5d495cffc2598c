/**
 * The background conversion endpoint (src/app/api/convert-video/start/route.ts).
 *
 * `POST` writes the opening phases to the shared progress store, starts
 * `runConversionInBackground` without awaiting it and registers the job's
 * future in `conversionJobs`. The background run tries hardware HEVC (NVENC)
 * and, only if that fails, software HEVC (CPU); while a strategy runs each
 * engine progress event is written clamped to [15, 95] under the strategy's
 * phase label. It then checks that the output file exists and settles the job.
 *
 * The part of the background run that JavaScript executes synchronously
 * (the fluent-ffmpeg availability check and the NVENC strategy's opening
 * write of 15) happens inside `Post`, before the job is registered, as in the
 * source; `RunInBackground` is the continuation that runs later and settles
 * the job's future. The engine is a scripted `Run` per strategy.
 */
module StartRoute {
  import opened Wrappers
  import opened Text
  import opened ProgressStore
  import opened Engine
  import opened UploadNaming

  // ---------------------------------------------------------------- jobs

  /** How a job's promise settled: with the converted bytes or with an error message. */
  datatype Settlement = Resolved(artifact: Bytes) | Rejected(message: string)

  /** The state of a job's promise. */
  datatype JobState = Pending | Settled(settlement: Settlement)

  /** An entry of `conversionJobs`: `{ promise, outputFileName, started }`. */
  datatype Job = Job(state: JobState, outputFileName: string, started: int)

  /** Settling the promise of job id; a job already removed from the map is not brought back. */
  function SettleJob(jobs: map<string, Job>, id: string, s: Settlement): (r: map<string, Job>)
    ensures r.Keys == jobs.Keys
    ensures id in jobs ==> r[id] == jobs[id].(state := Settled(s))
    ensures forall other :: other in jobs && other != id ==> r[other] == jobs[other]
  {
    if id in jobs then jobs[id := jobs[id].(state := Settled(s))] else jobs
  }

  /** `conversionJobs`, the module-level map of running and finished jobs. */
  class JobRegistry {
    var jobs: map<string, Job>

    constructor ()
      ensures jobs == map[]
    {
      jobs := map[];
    }

    /** `conversionJobs.set(id, job)`. */
    method Register(id: string, job: Job)
      modifies this
      ensures jobs == old(jobs)[id := job]
    {
      jobs := jobs[id := job];
    }

    /** `conversionJobs.delete(id)`. */
    method Remove(id: string)
      modifies this
      ensures jobs == old(jobs) - {id}
    {
      jobs := jobs - {id};
    }

    /** The job's promise settles. */
    method Settle(id: string, s: Settlement)
      modifies this
      ensures jobs == SettleJob(old(jobs), id, s)
    {
      jobs := SettleJob(jobs, id, s);
    }
  }

  // ---------------------------------------------------------- constants

  const NotInstalledMessage := "fluent-ffmpeg não está instalado"
  // The synchronous endpoint has longer texts under the same two names (`ConvertRoute`).
  const OutputMissingMessage := "Arquivo de saída não foi criado"

  /** The rejection when both strategies failed, naming both causes. */
  function BothFailedMessage(nvencCause: string, cpuCause: string): string {
    "Erro na conversão: NVENC falhou (" + nvencCause + "), CPU também falhou (" + cpuCause + ")"
  }

  /** `Math.min(95, Math.max(15, percent))`. */
  function Clamp(percent: int): (r: int)
    ensures 15 <= r <= 95
    ensures 15 <= percent <= 95 ==> r == percent
    ensures percent < 15 ==> r == 15
    ensures percent > 95 ==> r == 95
  {
    if percent > 95 then 95 else if percent < 15 then 15 else percent
  }

  // ------------------------------------------------------------- traces

  /** One clamped write per engine progress event, labelled with the strategy's phase. */
  function EventWrites(s: Strategy, percents: seq<int>): seq<Record> {
    seq(|percents|, i requires 0 <= i < |percents| => Record(Clamp(percents[i]), Phase(s)))
  }

  /** What a strategy writes after its opening 15: its events, then 95 'finalizando' on 'end'. */
  function StrategyWrites(s: Strategy, run: Run): seq<Record> {
    EventWrites(s, run.progress) + (if run.ending.End? then [Record(95, "finalizando")] else [])
  }

  /** The engine's behaviour for one background job, and whether the output file exists afterwards. */
  datatype Script = Script(nvenc: Run, cpu: Run, outputExists: bool, artifact: Bytes)

  /** One of the two strategies reached 'end'. */
  predicate Encoded(sc: Script) {
    sc.nvenc.ending.End? || sc.cpu.ending.End?
  }

  /**
   * The writes of the fallback chain after NVENC's opening write: NVENC's
   * events and, only if NVENC failed, CPU's opening 15, its events, and
   * 0 'erro' when CPU failed too.
   */
  function FallbackWrites(sc: Script): seq<Record> {
    StrategyWrites(Nvenc, sc.nvenc) + (if sc.nvenc.ending.End? then [] else CpuWrites(sc.cpu))
  }

  /** The CPU tier: its opening 15, its events, and 0 'erro' if it failed as well. */
  function CpuWrites(run: Run): seq<Record> {
    [Record(15, Phase(Cpu))] + StrategyWrites(Cpu, run) + (if run.ending.End? then [] else [ErrorRecord])
  }

  /**
   * The writes after the fallback chain: 98 and 100 on success; otherwise
   * 0 'erro' in the catch, preceded by the output check's own 0 'erro' when
   * the engine ended well but left no file.
   */
  function FinishWrites(sc: Script): seq<Record> {
    if !Encoded(sc) then [ErrorRecord]
    else if !sc.outputExists then [ErrorRecord, ErrorRecord]
    else [Record(98, "finalizando"), Record(100, "concluído")]
  }

  /** The writes of the background run after the NVENC opening write. */
  function ContinuationWrites(sc: Script): seq<Record> {
    FallbackWrites(sc) + FinishWrites(sc)
  }

  /** Every write of `runConversionInBackground` once fluent-ffmpeg has loaded. */
  function BackgroundWrites(sc: Script): seq<Record> {
    [Record(15, Phase(Nvenc))] + ContinuationWrites(sc)
  }

  /** How the background run settles the job. */
  function BackgroundSettlement(sc: Script): Settlement {
    if !Encoded(sc) then Rejected(BothFailedMessage(sc.nvenc.ending.message, sc.cpu.ending.message))
    else if !sc.outputExists then Rejected(OutputMissingMessage)
    else Resolved(sc.artifact)
  }

  // ----------------------------------------------------------- handlers

  /** The form fields `video` and `outputName`. */
  datatype StartRequest = StartRequest(video: Option<Upload>, outputName: Option<string>)

  /** 200 `{ conversionId, message, status: 'started' }` or 400 `{ error: 'Arquivo não fornecido', conversionId }`. */
  datatype StartResponse = Started(conversionId: string) | NoFile(conversionId: string)

  function StatusCode(r: StartResponse): int {
    if r.Started? then 200 else 400
  }

  /** The synchronous start of the background run: the availability check and NVENC's opening write. */
  function LaunchWrites(installed: bool): seq<Record> {
    if installed then [Record(15, Phase(Nvenc))] else [ErrorRecord]
  }

  /** A job whose module failed to load is registered with an already rejected promise. */
  function LaunchState(installed: bool): JobState {
    if installed then Pending else Settled(Rejected(NotInstalledMessage))
  }

  /** Every write `POST` makes, including the synchronous start of the background run. */
  function PostWrites(req: StartRequest, installed: bool): seq<Record> {
    if req.video.None? then [Record(0, "iniciando"), ErrorRecord]
    else [Record(0, "iniciando"), Record(5, "preparando"), Record(10, "convertendo")] + LaunchWrites(installed)
  }

  /**
   * What `runConversionInBackground` does before its first suspension: load
   * fluent-ffmpeg (writing 0 'erro' and rejecting if that fails) and open
   * the NVENC strategy with 15.
   */
  method Launch(store: Store, id: string, installed: bool) returns (state: JobState)
    modifies store
    ensures store.history == old(store.history) + Writes(id, LaunchWrites(installed))
    ensures store.entries == AfterWrites(old(store.entries), id, LaunchWrites(installed))
    ensures state == LaunchState(installed)
  {
    if installed {
      store.UpdateProgress(id, 15, Phase(Nvenc));
      state := Pending;
    } else {
      store.UpdateProgress(id, 0, "erro");
      state := Settled(Rejected(NotInstalledMessage));
    }
    assert Writes(id, LaunchWrites(installed)) == [Write(id, LaunchWrites(installed)[0])];
  }

  /**
   * `POST`: id is the freshly generated conversion id, inputPrefix and
   * generatedOutput the two further ids generated for file names, now the
   * clock reading stored in `started`.
   */
  method Post(store: Store, registry: JobRegistry, id: string, req: StartRequest, installed: bool,
              inputPrefix: string, generatedOutput: string, now: int)
    returns (resp: StartResponse, files: Option<TempFiles>)
    modifies store, registry
    ensures store.history == old(store.history) + Writes(id, PostWrites(req, installed))
    ensures store.entries == AfterWrites(old(store.entries), id, PostWrites(req, installed))
    ensures req.video.None? ==> resp == NoFile(id) && files == None && registry.jobs == old(registry.jobs)
    ensures req.video.Some? ==> resp == Started(id)
    ensures req.video.Some? ==>
      var output := OutputFileName(req.outputName, generatedOutput);
      && files == Some(TempFiles(InputFileName(inputPrefix, req.video.value.name), output))
      && registry.jobs == old(registry.jobs)[id := Job(LaunchState(installed), output, now)]
  {
    ghost var h0 := store.history;
    ghost var w: seq<Record> := [];
    store.UpdateProgress(id, 0, "iniciando");
    WritesSnoc(id, w, Record(0, "iniciando"));
    w := w + [Record(0, "iniciando")];
    if req.video.None? {
      store.UpdateProgress(id, 0, "erro");
      WritesSnoc(id, w, ErrorRecord);
      w := w + [ErrorRecord];
      assert w == PostWrites(req, installed);
      return NoFile(id), None;
    }
    var output := OutputFileName(req.outputName, generatedOutput);
    files := Some(TempFiles(InputFileName(inputPrefix, req.video.value.name), output));
    store.UpdateProgress(id, 5, "preparando");
    WritesSnoc(id, w, Record(5, "preparando"));
    w := w + [Record(5, "preparando")];
    store.UpdateProgress(id, 10, "convertendo");
    WritesSnoc(id, w, Record(10, "convertendo"));
    w := w + [Record(10, "convertendo")];
    var state := Launch(store, id, installed);
    WritesAppend(id, w, LaunchWrites(installed));
    w := w + LaunchWrites(installed);
    assert w == PostWrites(req, installed);
    registry.Register(id, Job(state, output, now));
    resp := Started(id);
  }

  /** One strategy after its opening write: writes each event clamped, then 95 on 'end'; true iff it ended well. */
  method RunStrategy(store: Store, id: string, s: Strategy, run: Run) returns (ok: bool)
    modifies store
    ensures ok <==> run.ending.End?
    ensures store.history == old(store.history) + Writes(id, StrategyWrites(s, run))
    ensures store.entries == AfterWrites(old(store.entries), id, StrategyWrites(s, run))
  {
    var i := 0;
    while i < |run.progress|
      invariant 0 <= i <= |run.progress|
      invariant store.history == old(store.history) + Writes(id, EventWrites(s, run.progress[..i]))
      invariant store.entries == AfterWrites(old(store.entries), id, EventWrites(s, run.progress[..i]))
    {
      store.UpdateProgress(id, Clamp(run.progress[i]), Phase(s));
      assert EventWrites(s, run.progress[..i + 1]) == EventWrites(s, run.progress[..i]) + [Record(Clamp(run.progress[i]), Phase(s))];
      WritesAppend(id, EventWrites(s, run.progress[..i]), [Record(Clamp(run.progress[i]), Phase(s))]);
      i := i + 1;
    }
    assert run.progress[..i] == run.progress;
    if run.ending.End? {
      store.UpdateProgress(id, 95, "finalizando");
      WritesAppend(id, EventWrites(s, run.progress), [Record(95, "finalizando")]);
      ok := true;
    } else {
      assert EventWrites(s, run.progress) + [] == EventWrites(s, run.progress);
      ok := false;
    }
  }

  /** The CPU tier, entered after NVENC failed; true iff the CPU strategy ended well. */
  method TryCpu(store: Store, id: string, run: Run) returns (ok: bool)
    modifies store
    ensures ok <==> run.ending.End?
    ensures store.history == old(store.history) + Writes(id, CpuWrites(run))
    ensures store.entries == AfterWrites(old(store.entries), id, CpuWrites(run))
  {
    store.UpdateProgress(id, 15, Phase(Cpu));
    assert [Write(id, Record(15, Phase(Cpu)))] == Writes(id, [Record(15, Phase(Cpu))]);
    ok := RunStrategy(store, id, Cpu, run);
    ghost var w := [Record(15, Phase(Cpu))] + StrategyWrites(Cpu, run);
    WritesAppend(id, [Record(15, Phase(Cpu))], StrategyWrites(Cpu, run));
    if !ok {
      store.UpdateProgress(id, 0, "erro");
      WritesSnoc(id, w, ErrorRecord);
      w := w + [ErrorRecord];
    }
    assert w == CpuWrites(run);
  }

  /** NVENC, then CPU only if NVENC failed; the failure message when both failed. */
  method Fallback(store: Store, id: string, sc: Script) returns (failure: Option<string>)
    modifies store
    ensures store.history == old(store.history) + Writes(id, FallbackWrites(sc))
    ensures store.entries == AfterWrites(old(store.entries), id, FallbackWrites(sc))
    ensures failure == if Encoded(sc) then None else Some(BothFailedMessage(sc.nvenc.ending.message, sc.cpu.ending.message))
  {
    var encoded := RunStrategy(store, id, Nvenc, sc.nvenc);
    failure := None;
    if encoded {
      assert FallbackWrites(sc) == StrategyWrites(Nvenc, sc.nvenc) + [];
      return;
    }
    encoded := TryCpu(store, id, sc.cpu);
    WritesAppend(id, StrategyWrites(Nvenc, sc.nvenc), CpuWrites(sc.cpu));
    if !encoded {
      failure := Some(BothFailedMessage(sc.nvenc.ending.message, sc.cpu.ending.message));
    }
  }

  /** After the fallback chain: the output check, then 98 and 100 on success or 0 'erro' in the catch. */
  method Finish(store: Store, id: string, sc: Script, failure: Option<string>) returns (settled: Settlement)
    requires failure.None? <==> Encoded(sc)
    modifies store
    ensures store.history == old(store.history) + Writes(id, FinishWrites(sc))
    ensures store.entries == AfterWrites(old(store.entries), id, FinishWrites(sc))
    ensures failure.Some? ==> settled == Rejected(failure.value)
    ensures failure.None? && !sc.outputExists ==> settled == Rejected(OutputMissingMessage)
    ensures failure.None? && sc.outputExists ==> settled == Resolved(sc.artifact)
  {
    var cause := failure;
    ghost var w: seq<Record> := [];
    if cause.None? && !sc.outputExists {
      store.UpdateProgress(id, 0, "erro");
      WritesSnoc(id, w, ErrorRecord);
      w := w + [ErrorRecord];
      cause := Some(OutputMissingMessage);
    }
    if cause.None? {
      store.UpdateProgress(id, 98, "finalizando");
      WritesSnoc(id, w, Record(98, "finalizando"));
      w := w + [Record(98, "finalizando")];
      store.UpdateProgress(id, 100, "concluído");
      WritesSnoc(id, w, Record(100, "concluído"));
      w := w + [Record(100, "concluído")];
      settled := Resolved(sc.artifact);
    } else {
      store.UpdateProgress(id, 0, "erro");
      WritesSnoc(id, w, ErrorRecord);
      w := w + [ErrorRecord];
      settled := Rejected(cause.value);
    }
    assert w == FinishWrites(sc);
  }

  /** The rest of `runConversionInBackground` after `Post`: fallback chain, output check, settlement. */
  method RunInBackground(store: Store, registry: JobRegistry, id: string, sc: Script) returns (settled: Settlement)
    modifies store, registry
    ensures store.history == old(store.history) + Writes(id, ContinuationWrites(sc))
    ensures store.entries == AfterWrites(old(store.entries), id, ContinuationWrites(sc))
    ensures settled == BackgroundSettlement(sc)
    ensures registry.jobs == SettleJob(old(registry.jobs), id, settled)
  {
    var failure := Fallback(store, id, sc);
    settled := Finish(store, id, sc, failure);
    WritesAppend(id, FallbackWrites(sc), FinishWrites(sc));
    registry.Settle(id, settled);
  }

  // ------------------------------------------------------------ lemmas

  predicate IsPhase(status: string) {
    status == Phase(Nvenc) || status == Phase(Cpu)
  }

  /** Every record labelled with a strategy phase lies in [15, 95]. */
  predicate PhaseBounded(w: seq<Record>) {
    forall i :: 0 <= i < |w| && IsPhase(w[i].status) ==> 15 <= w[i].progress <= 95
  }

  /** No record of w carries the given status. */
  predicate Lacks(w: seq<Record>, status: string) {
    forall i :: 0 <= i < |w| ==> w[i].status != status
  }

  lemma StrategyWritesShape(s: Strategy, run: Run)
    ensures PhaseBounded(StrategyWrites(s, run))
    ensures forall i :: 0 <= i < |StrategyWrites(s, run)| ==>
      StrategyWrites(s, run)[i].status in {Phase(s), "finalizando"} && 15 <= StrategyWrites(s, run)[i].progress <= 95
    ensures run.ending.End? ==> StrategyWrites(s, run)[|StrategyWrites(s, run)| - 1] == Record(95, "finalizando")
    ensures |StrategyWrites(s, run)| == |run.progress| + (if run.ending.End? then 1 else 0)
  {
  }

  lemma PhaseBoundedConcat(a: seq<Record>, b: seq<Record>)
    requires PhaseBounded(a) && PhaseBounded(b)
    ensures PhaseBounded(a + b)
  {
    forall i | 0 <= i < |a + b| && IsPhase((a + b)[i].status)
      ensures 15 <= (a + b)[i].progress <= 95
    {
      if i >= |a| {
        assert (a + b)[i] == b[i - |a|];
      }
    }
  }

  /**
   * While a strategy runs, every value written under its phase label is the
   * engine percent clamped to [15, 95], so no phase-labelled record of the
   * background run leaves that range.
   */
  lemma {:induction false} PhaseWritesClamped(sc: Script)
    ensures PhaseBounded(BackgroundWrites(sc))
  {
    StrategyWritesShape(Nvenc, sc.nvenc);
    StrategyWritesShape(Cpu, sc.cpu);
    assert !IsPhase("erro") && !IsPhase("finalizando") && !IsPhase("concluído");
    var head := [Record(15, Phase(Nvenc))];
    var nvenc := StrategyWrites(Nvenc, sc.nvenc);
    var cpu := StrategyWrites(Cpu, sc.cpu);
    PhaseBoundedConcat([Record(15, Phase(Cpu))], cpu);
    PhaseBoundedConcat([Record(15, Phase(Cpu))] + cpu, if sc.cpu.ending.End? then [] else [ErrorRecord]);
    PhaseBoundedConcat(nvenc, if sc.nvenc.ending.End? then [] else CpuWrites(sc.cpu));
    PhaseBoundedConcat(FallbackWrites(sc), FinishWrites(sc));
    PhaseBoundedConcat(head, ContinuationWrites(sc));
  }

  /** The CPU strategy runs (its label is ever written) exactly when NVENC failed. */
  lemma {:induction false} CpuOnlyAfterNvencFails(sc: Script)
    ensures (exists i :: 0 <= i < |BackgroundWrites(sc)| && BackgroundWrites(sc)[i].status == Phase(Cpu))
        <==> sc.nvenc.ending.Error?
  {
    var w := BackgroundWrites(sc);
    StrategyWritesShape(Nvenc, sc.nvenc);
    if sc.nvenc.ending.Error? {
      assert w[1 + |StrategyWrites(Nvenc, sc.nvenc)|] == Record(15, Phase(Cpu));
    } else {
      assert Lacks(w, Phase(Cpu));
    }
  }

  /**
   * At the switch to CPU the record drops back to exactly 15: everything
   * before it is NVENC's, and the CPU tier opens with 15 'conversão CPU'.
   */
  lemma {:induction false} FloorAtSwitch(sc: Script)
    requires sc.nvenc.ending.Error?
    ensures var w := BackgroundWrites(sc); var k := 1 + |sc.nvenc.progress|;
      && k < |w| && w[k] == Record(15, Phase(Cpu))
      && forall i :: 0 <= i < k ==> w[i].status == Phase(Nvenc)
  {
    StrategyWritesShape(Nvenc, sc.nvenc);
  }

  /** No record of w reaches 100 or carries 'concluído'. */
  predicate BeforeCompletion(w: seq<Record>) {
    forall i :: 0 <= i < |w| ==> w[i].progress <= 95 && w[i].status != "concluído"
  }

  lemma BeforeCompletionConcat(a: seq<Record>, b: seq<Record>)
    requires BeforeCompletion(a) && BeforeCompletion(b)
    ensures BeforeCompletion(a + b)
  {
    forall i | 0 <= i < |a + b|
      ensures (a + b)[i].progress <= 95 && (a + b)[i].status != "concluído"
    {
      if i >= |a| {
        assert (a + b)[i] == b[i - |a|];
      }
    }
  }

  /** The fallback chain stays below completion, and when it encoded it ends with 95 'finalizando'. */
  lemma {:induction false} FallbackShape(sc: Script)
    ensures BeforeCompletion([Record(15, Phase(Nvenc))] + FallbackWrites(sc))
    ensures Encoded(sc) ==> |FallbackWrites(sc)| > 0 && Last(FallbackWrites(sc)) == Record(95, "finalizando")
  {
    StrategyWritesShape(Nvenc, sc.nvenc);
    StrategyWritesShape(Cpu, sc.cpu);
    var nvenc := StrategyWrites(Nvenc, sc.nvenc);
    var cpu := StrategyWrites(Cpu, sc.cpu);
    assert BeforeCompletion(nvenc) && BeforeCompletion(cpu);
    BeforeCompletionConcat([Record(15, Phase(Cpu))], cpu);
    BeforeCompletionConcat([Record(15, Phase(Cpu))] + cpu, if sc.cpu.ending.End? then [] else [ErrorRecord]);
    BeforeCompletionConcat(nvenc, if sc.nvenc.ending.End? then [] else CpuWrites(sc.cpu));
    BeforeCompletionConcat([Record(15, Phase(Nvenc))], FallbackWrites(sc));
  }

  /**
   * 100 'concluído' is written only when the job resolves, as the very last
   * write, right after 95 and 98 'finalizando'; no other write reaches 100.
   */
  lemma {:induction false} CompletionOnlyOnSuccess(sc: Script)
    ensures var w := BackgroundWrites(sc);
      (exists i :: 0 <= i < |w| && w[i].progress == 100) <==> BackgroundSettlement(sc).Resolved?
    ensures var w := BackgroundWrites(sc);
      (exists i :: 0 <= i < |w| && w[i].status == "concluído") <==> BackgroundSettlement(sc).Resolved?
    ensures var w := BackgroundWrites(sc);
      BackgroundSettlement(sc).Resolved? ==>
        |w| >= 3 && w[|w| - 3..] == [Record(95, "finalizando"), Record(98, "finalizando"), Record(100, "concluído")]
  {
    var w := BackgroundWrites(sc);
    FallbackShape(sc);
    var body := [Record(15, Phase(Nvenc))] + FallbackWrites(sc);
    assert w == body + FinishWrites(sc);
    if BackgroundSettlement(sc).Resolved? {
      assert body[|body| - 1] == Record(95, "finalizando");
      assert w[|w| - 1] == Record(100, "concluído");
    } else {
      BeforeCompletionConcat(body, FinishWrites(sc));
    }
  }

  /** Every failure leaves 0 'erro' as the final write, after the failing step's own 0 'erro'. */
  lemma {:induction false} FailureEndsInError(sc: Script)
    ensures var w := BackgroundWrites(sc);
      BackgroundSettlement(sc).Rejected? ==> |w| >= 2 && w[|w| - 2] == ErrorRecord && w[|w| - 1] == ErrorRecord
    ensures Encoded(sc) && !sc.outputExists ==> BackgroundSettlement(sc) == Rejected(OutputMissingMessage)
  {
    var w := BackgroundWrites(sc);
    if !Encoded(sc) {
      var c := CpuWrites(sc.cpu);
      assert c[|c| - 1] == ErrorRecord;
      assert w == [Record(15, Phase(Nvenc))] + StrategyWrites(Nvenc, sc.nvenc) + c + [ErrorRecord];
    }
  }

  /** When both strategies fail, the rejection names the NVENC cause and the CPU cause. */
  lemma BothCausesReported(sc: Script)
    requires sc.nvenc.ending.Error? && sc.cpu.ending.Error?
    ensures BackgroundSettlement(sc).Rejected?
    ensures Contains(BackgroundSettlement(sc).message, sc.nvenc.ending.message)
    ensures Contains(BackgroundSettlement(sc).message, sc.cpu.ending.message)
  {
    var n, c := sc.nvenc.ending.message, sc.cpu.ending.message;
    var a, b, d := "Erro na conversão: NVENC falhou (", "), CPU também falhou (", ")";
    assert BothFailedMessage(n, c) == a + n + (b + c + d);
    ContainsMiddle(a, n, b + c + d);
    assert BothFailedMessage(n, c) == (a + n + b) + c + d;
    ContainsMiddle(a + n + b, c, d);
  }

  /** Every percent `POST` and the background run write lies in [0, 100]. */
  lemma {:induction false} PercentsInRange(req: StartRequest, installed: bool, sc: Script)
    ensures forall i :: 0 <= i < |PostWrites(req, installed)| ==> 0 <= PostWrites(req, installed)[i].progress <= 100
    ensures forall i :: 0 <= i < |BackgroundWrites(sc)| ==> 0 <= BackgroundWrites(sc)[i].progress <= 100
  {
    StrategyWritesShape(Nvenc, sc.nvenc);
    StrategyWritesShape(Cpu, sc.cpu);
    var c := CpuWrites(sc.cpu);
    assert forall i :: 0 <= i < |c| ==> 0 <= c[i].progress <= 95;
    var body := [Record(15, Phase(Nvenc))] + FallbackWrites(sc);
    assert forall i :: 0 <= i < |body| ==> 0 <= body[i].progress <= 95;
    assert BackgroundWrites(sc) == body + FinishWrites(sc);
  }

  /**
   * Within one phase the value written follows the engine and may go down:
   * events 50 then 20 under NVENC are written as 50 then 20.
   */
  lemma ProgressMayRegressWithinPhase()
    ensures var w := BackgroundWrites(Script(Run([50, 20], End), Run([], End), true, []));
      w[1] == Record(50, Phase(Nvenc)) && w[2] == Record(20, Phase(Nvenc))
  {
    var w := BackgroundWrites(Script(Run([50, 20], End), Run([], End), true, []));
    assert EventWrites(Nvenc, [50, 20])[0] == Record(50, Phase(Nvenc));
    assert EventWrites(Nvenc, [50, 20])[1] == Record(20, Phase(Nvenc));
  }

  /** A started job's record passes through 0 'iniciando', 5 'preparando', 10 'convertendo' and then the background writes. */
  lemma StartedJobTrace(req: StartRequest, sc: Script)
    requires req.video.Some?
    ensures PostWrites(req, true) + ContinuationWrites(sc)
      == [Record(0, "iniciando"), Record(5, "preparando"), Record(10, "convertendo")] + BackgroundWrites(sc)
  {
  }

  /** What a poll sees right after `POST`: 15 'conversão NVENC' for a started job, 0 'erro' otherwise. */
  lemma {:induction false} RecordAfterPost(m: map<string, Record>, id: string, req: StartRequest, installed: bool)
    ensures Lookup(Apply(m, Writes(id, PostWrites(req, installed))), id)
      == if req.video.Some? && installed then Record(15, Phase(Nvenc)) else ErrorRecord
  {
    ApplyWrites(m, id, PostWrites(req, installed));
  }

  /** What a poll sees once the background run has settled: 100 'concluído' on success, 0 'erro' on failure. */
  lemma {:induction false} RecordAfterBackground(m: map<string, Record>, id: string, sc: Script)
    ensures Lookup(Apply(m, Writes(id, ContinuationWrites(sc))), id)
      == if BackgroundSettlement(sc).Resolved? then Record(100, "concluído") else ErrorRecord
  {
    var w := ContinuationWrites(sc);
    assert w == FallbackWrites(sc) + FinishWrites(sc);
    ApplyWrites(m, id, w);
  }
}
