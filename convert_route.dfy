/**
 * The synchronous conversion endpoint (src/app/api/convert-video/route.ts).
 *
 * `POST` uses the client's conversion id when one is given, otherwise a
 * generated one, and returns it with every response. It writes 0 'iniciando',
 * checks that fluent-ffmpeg loads and that a file was sent, writes
 * 5 'preparando' and 10 'convertendo', and then races the NVENC → CPU chain
 * against an 8-minute timer. Progress is written as the engine reports it
 * (no clamping) and each strategy's 'end' writes 100 'concluído' before the
 * output file is checked. Every error after the opening write is caught,
 * leaves 0 'erro' and is answered with 500, the message and a suggestion
 * chosen by the first keyword rule that matches.
 *
 * The timer is never cleared and the losing conversion is never killed: the
 * model keeps the writes each makes after the response as `LateWrites`.
 */
module ConvertRoute {
  import opened Wrappers
  import opened Text
  import opened ProgressStore
  import opened Engine
  import opened UploadNaming
  import StartRoute

  // ----------------------------------------------------------- messages
  //
  // Each message is one literal in the code. Here the longer ones are
  // written as concatenations of a few pieces, so that the proofs about
  // which characters and keywords a message holds can go piece by piece
  // instead of character by character. `OutputMissingMessage` and
  // `BothFailedMessage` are this endpoint's texts; the background endpoint
  // has shorter messages under the same names (`StartRoute`).

  const UnavailableError := "FFmpeg não está disponível no servidor"
  const UnavailableSuggestion := "Esta aplicação não pode converter vídeos " + "no servidor atual. Considere usar " + "FFmpeg.wasm no navegador."
  const MissingFileError := "Arquivo não fornecido"

  const TimeoutMessage := "TIMEOUT" + ": Conversão excedeu o tempo " + "limite de 8 minutos. " + "Tente um arquivo menor."
  const OutputMissingMessage := "Arquivo de saída " + "não foi criado. " + "Possível erro " + "na conversão."

  /** The rejection when both strategies failed: both causes and a hint about the installation. */
  function BothFailedMessage(nvencCause: string, cpuCause: string): string {
    "Erro na conversão: NVENC falhou (" + nvencCause + "), CPU também falhou (" + cpuCause
    + "). Verifique se o FFmpeg está " + "instalado e se há suporte NVENC."
  }

  /** The errors the handler's catch block can receive once the race has started. */
  datatype Cause = BothFailed(nvencCause: string, cpuCause: string) | OutputMissing | TimedOut

  /** The message of each caught error. */
  function Message(c: Cause): string {
    match c
    case BothFailed(n, cpu) => BothFailedMessage(n, cpu)
    case OutputMissing => OutputMissingMessage
    case TimedOut => TimeoutMessage
  }

  const ModuleSuggestion := "FFmpeg não está disponível no servidor. " + "Use FFmpeg.wasm no navegador como alternativa."
  const TimeoutSuggestion := "Timeout na conversão. " + "Tente um arquivo menor ou menos complexo."
  const MemorySuggestion := "Erro de memória. " + "Tente um arquivo menor."
  const MissingBinarySuggestion := "FFmpeg não encontrado no sistema. " + "Verifique a instalação."
  const DefaultSuggestion := "Tente novamente ou use um arquivo menor"

  /** The suggestion for a caught error, by the first of the keyword tests that matches its message. */
  function Suggestion(message: string): (r: string)
    ensures r in {ModuleSuggestion, TimeoutSuggestion, MemorySuggestion, MissingBinarySuggestion, DefaultSuggestion}
    ensures Contains(message, "fluent-ffmpeg") ==> r == ModuleSuggestion
  {
    if Contains(message, "fluent-ffmpeg") then ModuleSuggestion
    else if Contains(message, "TIMEOUT") || Contains(message, "timeout") then TimeoutSuggestion
    else if Contains(message, "ENOMEM") || Contains(message, "memory") then MemorySuggestion
    else if Contains(message, "ENOENT") then MissingBinarySuggestion
    else DefaultSuggestion
  }

  // ------------------------------------------------------ request, script

  /** The form fields `conversionId`, `video` and `outputName`. */
  datatype ConvertRequest = ConvertRequest(conversionId: Option<string>, video: Option<Upload>, outputName: Option<string>)

  /**
   * Which side of the race settles first. `TimeoutAfter(n)`: the timer fires
   * once the conversion has made n of its writes (all of them if it has
   * fewer). The model does not require n to fall before the conversion
   * settles. It also admits the timer winning after all the writes: after a
   * final 100 'concluído', or after both strategies failed. The code can do
   * neither: the 'end' handler writes 100 and resolves in one step, the CPU
   * error handler rejects in one step, and the race settles before any timer
   * callback runs. The lemmas hold for every n, and those about a timeout
   * that leaves the conversion running (`TimeoutDoesNotCancel`) ask for n
   * below the number of writes.
   */
  datatype Race = ConversionFirst | TimeoutAfter(writes: nat)

  /** The environment of one request: module availability, both engine runs, the race, the output file. */
  datatype SyncScript = SyncScript(installed: bool, nvenc: Run, cpu: Run, race: Race, outputExists: bool, artifact: Bytes)

  /** The converted file, or a JSON error with an optional suggestion. */
  datatype Body = Video(bytes: Bytes, fileName: string) | Problem(error: string, suggestion: Option<string>)

  /** Status code, the `X-Conversion-Id` header, and the body. */
  datatype ConvertResponse = ConvertResponse(status: int, conversionId: string, body: Body)

  /** `formData.get('conversionId') || generateId()`. */
  function ConversionId(req: ConvertRequest, generated: string): (r: string)
    ensures req.conversionId.Some? && req.conversionId.value != "" ==> r == req.conversionId.value
    ensures req.conversionId.None? || req.conversionId.value == "" ==> r == generated
  {
    if req.conversionId.Some? && req.conversionId.value != "" then req.conversionId.value else generated
  }

  // ------------------------------------------------------------- traces

  /** One strategy's writes: each event's percent as reported, then 100 'concluído' on 'end'. */
  function AttemptWrites(s: Strategy, run: Run): seq<Record> {
    seq(|run.progress|, i requires 0 <= i < |run.progress| => Record(run.progress[i], Phase(s)))
    + (if run.ending.End? then [Record(100, "concluído")] else [])
  }

  /** The writes of the conversion promise: NVENC's, then CPU's only if NVENC failed. */
  function ConversionWrites(sc: SyncScript): seq<Record> {
    AttemptWrites(Nvenc, sc.nvenc) + (if sc.nvenc.ending.End? then [] else AttemptWrites(Cpu, sc.cpu))
  }

  predicate Encoded(sc: SyncScript) {
    sc.nvenc.ending.End? || sc.cpu.ending.End?
  }

  /** How many conversion writes precede the response. */
  function Cut(sc: SyncScript): nat {
    var n := |ConversionWrites(sc)|;
    match sc.race
    case ConversionFirst => n
    case TimeoutAfter(k) => if k < n then k else n
  }

  /** The error the handler catches once the race is over, if any. */
  function Failure(sc: SyncScript): Option<Cause> {
    match sc.race
    case TimeoutAfter(_) => Some(TimedOut)
    case ConversionFirst =>
      if !Encoded(sc) then Some(BothFailed(sc.nvenc.ending.message, sc.cpu.ending.message))
      else if !sc.outputExists then Some(OutputMissing)
      else None
  }

  /** The writes made while the race is run: the conversion's up to the cut, and the timer's 0 'erro' if it won. */
  function RaceWrites(sc: SyncScript): seq<Record> {
    ConversionWrites(sc)[..Cut(sc)] + (if sc.race.TimeoutAfter? then [ErrorRecord] else [])
  }

  /** The request reaches the conversion: fluent-ffmpeg loads and a file was sent. */
  predicate Proceeds(req: ConvertRequest, sc: SyncScript) {
    sc.installed && req.video.Some?
  }

  /** The writes around saving the upload: 5 'preparando', then 10 'convertendo'. */
  const PreparingWrites := [Record(5, "preparando"), Record(10, "convertendo")]

  /** The writes once the checks have passed: 5, 10, the race, and the catch's 0 'erro' on failure. */
  function ConvertingWrites(sc: SyncScript): seq<Record> {
    PreparingWrites + RaceWrites(sc) + (if Failure(sc).Some? then [ErrorRecord] else [])
  }

  /** Every write made before the response is sent. */
  function SyncWrites(req: ConvertRequest, sc: SyncScript): seq<Record> {
    [Record(0, "iniciando")] + if !Proceeds(req, sc) then [ErrorRecord] else ConvertingWrites(sc)
  }

  /**
   * The writes made after the response: the never-cleared timer's 0 'erro'
   * when the conversion won, or the rest of the never-killed conversion when
   * the timer won.
   */
  function LateWrites(req: ConvertRequest, sc: SyncScript): seq<Record> {
    if !Proceeds(req, sc) then []
    else if sc.race.ConversionFirst? then [ErrorRecord]
    else ConversionWrites(sc)[Cut(sc)..]
  }

  /** The response of `POST`. */
  function Respond(req: ConvertRequest, sc: SyncScript, generatedId: string, generatedOutput: string): (r: ConvertResponse)
    ensures r.conversionId == ConversionId(req, generatedId)
    ensures r.status in {200, 400, 500}
    ensures r.status == 200 <==> r.body.Video?
    ensures r.status == 200 <==> Proceeds(req, sc) && Failure(sc).None?
    ensures r.status == 400 <==> sc.installed && req.video.None?
  {
    var id := ConversionId(req, generatedId);
    if !sc.installed then ConvertResponse(500, id, Problem(UnavailableError, Some(UnavailableSuggestion)))
    else if req.video.None? then ConvertResponse(400, id, Problem(MissingFileError, None))
    else Reply(id, Failure(sc), sc.artifact, OutputFileName(req.outputName, generatedOutput))
  }

  /** The answer once the race is over: 500 with the caught message and its suggestion, or 200 with the file. */
  function Reply(id: string, failure: Option<Cause>, artifact: Bytes, fileName: string): ConvertResponse {
    match failure
    case Some(c) => ConvertResponse(500, id, Problem(Message(c), Some(Suggestion(Message(c)))))
    case None => ConvertResponse(200, id, Video(artifact, fileName))
  }

  // ----------------------------------------------------------- handlers

  /** `await Promise.race([conversionPromise, timeoutPromise])` and the output check after it. */
  method AwaitRace(store: Store, id: string, sc: SyncScript) returns (failure: Option<Cause>)
    modifies store
    ensures store.history == old(store.history) + Writes(id, RaceWrites(sc))
    ensures store.entries == AfterWrites(old(store.entries), id, RaceWrites(sc))
    ensures failure == Failure(sc)
  {
    var w := ConversionWrites(sc);
    match sc.race {
      case ConversionFirst =>
        store.UpdateAll(id, w);
        assert RaceWrites(sc) == w[..|w|] + [];
        if !Encoded(sc) {
          failure := Some(BothFailed(sc.nvenc.ending.message, sc.cpu.ending.message));
        } else if !sc.outputExists {
          failure := Some(OutputMissing);
        } else {
          failure := None;
        }
      case TimeoutAfter(k) =>
        var n := if k < |w| then k else |w|;
        store.UpdateAll(id, w[..n]);
        store.UpdateProgress(id, 0, "erro");
        WritesAppend(id, w[..n], [ErrorRecord]);
        failure := Some(TimedOut);
    }
  }

  /**
   * `POST`: generatedId is used when the client sent no conversion id;
   * inputPrefix and generatedOutput are the ids generated for file names.
   */
  method Post(store: Store, req: ConvertRequest, sc: SyncScript, generatedId: string, inputPrefix: string, generatedOutput: string)
    returns (resp: ConvertResponse, files: Option<TempFiles>)
    modifies store
    ensures resp == Respond(req, sc, generatedId, generatedOutput)
    ensures store.history == old(store.history) + Writes(ConversionId(req, generatedId), SyncWrites(req, sc))
    ensures store.entries == AfterWrites(old(store.entries), ConversionId(req, generatedId), SyncWrites(req, sc))
    ensures files == if Proceeds(req, sc)
      then Some(TempFiles(InputFileName(inputPrefix, req.video.value.name), OutputFileName(req.outputName, generatedOutput)))
      else None
  {
    var id := ConversionId(req, generatedId);
    ghost var w: seq<Record> := [];
    store.UpdateProgress(id, 0, "iniciando");
    WritesSnoc(id, w, Record(0, "iniciando"));
    w := w + [Record(0, "iniciando")];
    if !sc.installed || req.video.None? {
      store.UpdateProgress(id, 0, "erro");
      WritesSnoc(id, w, ErrorRecord);
      w := w + [ErrorRecord];
      assert w == SyncWrites(req, sc);
      if !sc.installed {
        return ConvertResponse(500, id, Problem(UnavailableError, Some(UnavailableSuggestion))), None;
      }
      return ConvertResponse(400, id, Problem(MissingFileError, None)), None;
    }
    var output := OutputFileName(req.outputName, generatedOutput);
    files := Some(TempFiles(InputFileName(inputPrefix, req.video.value.name), output));
    var failure := Convert(store, id, sc);
    WritesAppend(id, w, ConvertingWrites(sc));
    resp := Reply(id, failure, sc.artifact, output);
  }

  /** The handler once both checks passed: the writes around the race, and the error caught, if any. */
  method Convert(store: Store, id: string, sc: SyncScript) returns (failure: Option<Cause>)
    modifies store
    ensures store.history == old(store.history) + Writes(id, ConvertingWrites(sc))
    ensures store.entries == AfterWrites(old(store.entries), id, ConvertingWrites(sc))
    ensures failure == Failure(sc)
  {
    Prepare(store, id);
    ghost var w := PreparingWrites;
    failure := AwaitRace(store, id, sc);
    WritesAppend(id, w, RaceWrites(sc));
    w := w + RaceWrites(sc);
    if failure.Some? {
      store.UpdateProgress(id, 0, "erro");
      WritesSnoc(id, w, ErrorRecord);
      w := w + [ErrorRecord];
    }
    assert w == ConvertingWrites(sc);
  }

  /** Saving the upload to its temporary file, announced before and after. */
  method Prepare(store: Store, id: string)
    modifies store
    ensures store.history == old(store.history) + Writes(id, PreparingWrites)
    ensures store.entries == AfterWrites(old(store.entries), id, PreparingWrites)
  {
    store.UpdateProgress(id, 5, "preparando");
    store.UpdateProgress(id, 10, "convertendo");
    assert Writes(id, PreparingWrites) == [Write(id, PreparingWrites[0]), Write(id, PreparingWrites[1])];
  }

  /** What happens after the response: the timer fires later, or the conversion runs on. */
  method Aftermath(store: Store, id: string, req: ConvertRequest, sc: SyncScript)
    modifies store
    ensures store.history == old(store.history) + Writes(id, LateWrites(req, sc))
    ensures store.entries == AfterWrites(old(store.entries), id, LateWrites(req, sc))
  {
    if !Proceeds(req, sc) {
      assert Writes(id, LateWrites(req, sc)) == [];
    } else if sc.race.ConversionFirst? {
      store.UpdateProgress(id, 0, "erro");
      assert Writes(id, LateWrites(req, sc)) == [Write(id, ErrorRecord)];
    } else {
      store.UpdateAll(id, LateWrites(req, sc));
    }
  }

  // ------------------------------------------------- suggestion rules

  /** A suggestion rule: the message contains one of the keywords. */
  datatype Rule = Rule(keywords: seq<string>, suggestion: string)

  /** The rules of the handler's catch block, in the order it tests them. */
  const Rules := [
    Rule(["fluent-ffmpeg"], ModuleSuggestion),
    Rule(["TIMEOUT", "timeout"], TimeoutSuggestion),
    Rule(["ENOMEM", "memory"], MemorySuggestion),
    Rule(["ENOENT"], MissingBinarySuggestion)
  ]

  predicate Matches(rule: Rule, message: string) {
    exists k :: 0 <= k < |rule.keywords| && Contains(message, rule.keywords[k])
  }

  /** The suggestion of the first rule that matches, or the fallback. */
  function FirstMatch(rules: seq<Rule>, message: string, fallback: string): string
    decreases |rules|
  {
    if rules == [] then fallback
    else if Matches(rules[0], message) then rules[0].suggestion
    else FirstMatch(rules[1..], message, fallback)
  }

  /** FirstMatch picks the rule that matches with no matching rule before it, or the fallback when none matches. */
  lemma {:induction false} FirstMatchIsFirst(rules: seq<Rule>, message: string, fallback: string, j: nat)
    requires j < |rules| && Matches(rules[j], message)
    requires forall i :: 0 <= i < j ==> !Matches(rules[i], message)
    ensures FirstMatch(rules, message, fallback) == rules[j].suggestion
    decreases j
  {
    if j > 0 {
      assert !Matches(rules[0], message);
      FirstMatchIsFirst(rules[1..], message, fallback, j - 1);
    }
  }

  lemma {:induction false} FirstMatchNone(rules: seq<Rule>, message: string, fallback: string)
    requires forall i :: 0 <= i < |rules| ==> !Matches(rules[i], message)
    ensures FirstMatch(rules, message, fallback) == fallback
    decreases |rules|
  {
    if rules != [] {
      assert !Matches(rules[0], message);
      FirstMatchNone(rules[1..], message, fallback);
    }
  }

  lemma MatchesOne(k: string, suggestion: string, message: string)
    ensures Matches(Rule([k], suggestion), message) <==> Contains(message, k)
  {
    if Contains(message, k) {
      assert Rule([k], suggestion).keywords[0] == k;
    }
  }

  lemma MatchesTwo(k1: string, k2: string, suggestion: string, message: string)
    ensures Matches(Rule([k1, k2], suggestion), message) <==> Contains(message, k1) || Contains(message, k2)
  {
    var rule := Rule([k1, k2], suggestion);
    if Contains(message, k1) {
      assert rule.keywords[0] == k1;
    }
    if Contains(message, k2) {
      assert rule.keywords[1] == k2;
    }
  }

  /** The handler's chain of tests is the first-match reading of the rule table. */
  lemma SuggestionFollowsRules(message: string)
    ensures Suggestion(message) == FirstMatch(Rules, message, DefaultSuggestion)
  {
    MatchesOne("fluent-ffmpeg", ModuleSuggestion, message);
    MatchesTwo("TIMEOUT", "timeout", TimeoutSuggestion, message);
    MatchesTwo("ENOMEM", "memory", MemorySuggestion, message);
    MatchesOne("ENOENT", MissingBinarySuggestion, message);
    var r := Rules;
    var D := DefaultSuggestion;
    assert FirstMatch(r[3..], message, D) == if Matches(r[3], message) then r[3].suggestion else D by {
      assert r[3..][1..] == [];
    }
    assert FirstMatch(r[2..], message, D) == if Matches(r[2], message) then r[2].suggestion else FirstMatch(r[3..], message, D) by {
      assert r[2..][1..] == r[3..];
    }
    assert FirstMatch(r[1..], message, D) == if Matches(r[1], message) then r[1].suggestion else FirstMatch(r[2..], message, D) by {
      assert r[1..][1..] == r[2..];
    }
  }

  lemma TimeoutMessageLacksF()
    ensures 'f' !in TimeoutMessage
  {
    var p1, p2, p3 := ": Conversão excedeu o tempo ", "limite de 8 minutos. ", "Tente um arquivo menor.";
    assert 'f' !in "TIMEOUT";
    assert 'f' !in p1;
    assert 'f' !in p2;
    assert 'f' !in p3;
  }

  /** The timeout rejection gets the timeout suggestion: it does not mention fluent-ffmpeg and starts with TIMEOUT. */
  lemma TimeoutSuggested()
    ensures Suggestion(Message(TimedOut)) == TimeoutSuggestion
  {
    var rest := ": Conversão excedeu o tempo " + "limite de 8 minutos. " + "Tente um arquivo menor.";
    assert TimeoutMessage == "TIMEOUT" + rest;
    TimeoutMessageLacksF();
    AbsentChar(TimeoutMessage, "fluent-ffmpeg", 0);
    ContainsPrefix("TIMEOUT", rest);
  }

  /** The message has none of the characters 'E', 't' and 'y'. */
  predicate LacksKeywordChars(m: string) {
    'E' !in m && 't' !in m && 'y' !in m
  }

  lemma LacksKeywordCharsConcat(a: string, b: string)
    requires LacksKeywordChars(a) && LacksKeywordChars(b)
    ensures LacksKeywordChars(a + b)
  {
  }

  /** A message lacking 'E', 't' and 'y' contains none of the keywords and gets the default suggestion. */
  lemma NoKeywordSuggestsDefault(m: string)
    requires LacksKeywordChars(m)
    ensures Suggestion(m) == DefaultSuggestion
  {
    AbsentChar(m, "fluent-ffmpeg", 5);
    AbsentChar(m, "TIMEOUT", 3);
    AbsentChar(m, "timeout", 0);
    AbsentChar(m, "ENOMEM", 0);
    AbsentChar(m, "memory", 5);
    AbsentChar(m, "ENOENT", 0);
  }

  lemma OutputMissingLacksKeywordChars()
    ensures LacksKeywordChars(OutputMissingMessage)
  {
    var p1, p2, p3, p4 := "Arquivo de saída ", "não foi criado. ", "Possível erro ", "na conversão.";
    assert LacksKeywordChars(p1);
    assert LacksKeywordChars(p2);
    LacksKeywordCharsConcat(p1, p2);
    assert LacksKeywordChars(p3);
    LacksKeywordCharsConcat(p1 + p2, p3);
    assert LacksKeywordChars(p4);
    LacksKeywordCharsConcat(p1 + p2 + p3, p4);
  }

  /** A missing output file matches no rule and gets the default suggestion. */
  lemma OutputMissingSuggestsDefault()
    ensures Suggestion(Message(OutputMissing)) == DefaultSuggestion
  {
    OutputMissingLacksKeywordChars();
    NoKeywordSuggestsDefault(OutputMissingMessage);
  }

  // ------------------------------------------------------------ lemmas

  /** Every response carries the client's conversion id when it sent a non-empty one, the generated id otherwise. */
  lemma ResponseCarriesId(req: ConvertRequest, sc: SyncScript, generatedId: string, generatedOutput: string)
    ensures var id := Respond(req, sc, generatedId, generatedOutput).conversionId;
      && (req.conversionId.Some? && req.conversionId.value != "" ==> id == req.conversionId.value)
      && (req.conversionId.None? || req.conversionId.value == "" ==> id == generatedId)
  {
  }

  /**
   * The record goes 0 'iniciando', 5 'preparando', 10 'convertendo' before
   * encoding starts; without the module (500) or without a file (400) it goes
   * from 0 'iniciando' straight to 0 'erro'.
   */
  lemma OpeningWrites(req: ConvertRequest, sc: SyncScript, generatedId: string, generatedOutput: string)
    ensures Proceeds(req, sc) ==>
      |SyncWrites(req, sc)| >= 3
      && SyncWrites(req, sc)[..3] == [Record(0, "iniciando"), Record(5, "preparando"), Record(10, "convertendo")]
    ensures !Proceeds(req, sc) ==> SyncWrites(req, sc) == [Record(0, "iniciando"), ErrorRecord]
    ensures !sc.installed ==>
      (Respond(req, sc, generatedId, generatedOutput).status == 500
       && Respond(req, sc, generatedId, generatedOutput).body == Problem(UnavailableError, Some(UnavailableSuggestion)))
    ensures sc.installed && req.video.None? ==> Respond(req, sc, generatedId, generatedOutput).status == 400
  {
    if Proceeds(req, sc) {
      assert SyncWrites(req, sc) == [Record(0, "iniciando")] + PreparingWrites + (RaceWrites(sc) + (if Failure(sc).Some? then [ErrorRecord] else []));
    }
  }

  /**
   * Here the engine's percent is written as reported: events 7 and 120 are
   * written as 7 and 120, where the background endpoint writes 15 and 95.
   */
  lemma ProgressNotClamped()
    ensures ConversionWrites(SyncScript(true, Run([7, 120], End), Run([], End), ConversionFirst, true, []))
      == [Record(7, Phase(Nvenc)), Record(120, Phase(Nvenc)), Record(100, "concluído")]
    ensures StartRoute.StrategyWrites(Nvenc, Run([7, 120], End))
      == [Record(15, Phase(Nvenc)), Record(95, Phase(Nvenc)), Record(95, "finalizando")]
  {
    var sc := SyncScript(true, Run([7, 120], End), Run([], End), ConversionFirst, true, []);
    assert AttemptWrites(Nvenc, sc.nvenc) == [Record(7, Phase(Nvenc)), Record(120, Phase(Nvenc))] + [Record(100, "concluído")];
    assert StartRoute.EventWrites(Nvenc, [7, 120]) == [Record(15, Phase(Nvenc)), Record(95, Phase(Nvenc))];
  }

  /**
   * 100 'concluído' is written when the engine reports 'end', before the
   * output file is checked: a run that ends well but leaves no file shows
   * 100 'concluído' and is then answered with 500 and left at 0 'erro'.
   */
  lemma CompletionBeforeOutputCheck(req: ConvertRequest, sc: SyncScript, generatedId: string, generatedOutput: string)
    requires Proceeds(req, sc) && sc.race.ConversionFirst? && Encoded(sc) && !sc.outputExists
    ensures Record(100, "concluído") in SyncWrites(req, sc)
    ensures Last(SyncWrites(req, sc)) == ErrorRecord
    ensures Respond(req, sc, generatedId, generatedOutput)
      == ConvertResponse(500, ConversionId(req, generatedId), Problem(OutputMissingMessage, Some(DefaultSuggestion)))
  {
    assert Failure(sc) == Some(OutputMissing);
    OutputMissingSuggestsDefault();
    CompletedThenError(req, sc);
  }

  /** The writes of a run that ended well without output file: 100 'concluído', then the catch's 0 'erro'. */
  lemma CompletedThenError(req: ConvertRequest, sc: SyncScript)
    requires Proceeds(req, sc) && sc.race.ConversionFirst? && Encoded(sc) && !sc.outputExists
    ensures Record(100, "concluído") in SyncWrites(req, sc)
    ensures Last(SyncWrites(req, sc)) == ErrorRecord
  {
    var w := ConversionWrites(sc);
    ConversionEndsInCompletion(sc);
    assert RaceWrites(sc) == w[..|w|] + [];
    assert SyncWrites(req, sc) == [Record(0, "iniciando")] + PreparingWrites + w + [ErrorRecord];
    assert SyncWrites(req, sc)[3 + |w| - 1] == w[|w| - 1];
  }

  /** A conversion that ended well has 100 'concluído' as its last write. */
  lemma ConversionEndsInCompletion(sc: SyncScript)
    requires Encoded(sc)
    ensures |ConversionWrites(sc)| > 0 && Last(ConversionWrites(sc)) == Record(100, "concluído")
  {
  }

  /**
   * A CPU-labelled record is written exactly when NVENC failed and the CPU
   * engine then reported progress: CPU never runs after NVENC succeeded, and
   * here it has no opening write of its own.
   */
  lemma {:induction false} CpuOnlyAfterNvencFails(sc: SyncScript)
    ensures (exists i :: 0 <= i < |ConversionWrites(sc)| && ConversionWrites(sc)[i].status == Phase(Cpu))
        <==> sc.nvenc.ending.Error? && |sc.cpu.progress| > 0
  {
    var w := ConversionWrites(sc);
    var a := AttemptWrites(Nvenc, sc.nvenc);
    var c := AttemptWrites(Cpu, sc.cpu);
    assert forall i :: 0 <= i < |a| ==> a[i].status in {Phase(Nvenc), "concluído"};
    assert forall i :: 0 <= i < |c| ==> c[i].status in {Phase(Cpu), "concluído"};
    assert forall i :: 0 <= i < |c| && c[i].status == Phase(Cpu) ==> i < |sc.cpu.progress|;
    if sc.nvenc.ending.Error? {
      assert w == a + c;
      if |sc.cpu.progress| > 0 {
        assert w[|a|] == c[0];
      }
    } else {
      assert w == a + [];
    }
  }

  /** When the conversion wins the race with both strategies failed, the error names both causes. */
  lemma BothCausesReported(sc: SyncScript)
    requires sc.race.ConversionFirst? && sc.nvenc.ending.Error? && sc.cpu.ending.Error?
    ensures Failure(sc).Some?
    ensures Contains(Message(Failure(sc).value), sc.nvenc.ending.message)
    ensures Contains(Message(Failure(sc).value), sc.cpu.ending.message)
  {
    var n, c := sc.nvenc.ending.message, sc.cpu.ending.message;
    var a, b := "Erro na conversão: NVENC falhou (", "), CPU também falhou (";
    var d := "). Verifique se o FFmpeg está " + "instalado e se há suporte NVENC.";
    assert BothFailedMessage(n, c) == a + n + (b + c + d);
    ContainsMiddle(a, n, b + c + d);
    assert BothFailedMessage(n, c) == (a + n + b) + c + d;
    ContainsMiddle(a + n + b, c, d);
  }

  /**
   * The response and the last write agree: a 200 carries the file under the
   * output name and follows 100 'concluído'; every other response follows
   * 0 'erro'.
   */
  lemma ResponseMatchesLastWrite(req: ConvertRequest, sc: SyncScript, generatedId: string, generatedOutput: string)
    ensures var r := Respond(req, sc, generatedId, generatedOutput);
      r.status == 200 ==>
        (Last(SyncWrites(req, sc)) == Record(100, "concluído")
         && r.body == Video(sc.artifact, OutputFileName(req.outputName, generatedOutput)))
    ensures var r := Respond(req, sc, generatedId, generatedOutput);
      r.status != 200 ==> (r.status == 400 || r.status == 500) && Last(SyncWrites(req, sc)) == ErrorRecord
  {
    var r := Respond(req, sc, generatedId, generatedOutput);
    if Proceeds(req, sc) && Failure(sc).None? {
      var w := ConversionWrites(sc);
      ConversionEndsInCompletion(sc);
      assert RaceWrites(sc) == w[..|w|] + [];
      assert SyncWrites(req, sc) == [Record(0, "iniciando")] + PreparingWrites + w + [];
      assert SyncWrites(req, sc)[3 + |w| - 1] == w[|w| - 1];
    }
  }

  /**
   * When the timer wins, the record gets the timer's 0 'erro' and the
   * catch's 0 'erro', and the answer is 500 with the timeout message and
   * the timeout suggestion.
   */
  lemma TimeoutResponse(req: ConvertRequest, sc: SyncScript, generatedId: string, generatedOutput: string)
    requires Proceeds(req, sc) && sc.race.TimeoutAfter?
    ensures var w := SyncWrites(req, sc); |w| >= 2 && w[|w| - 2] == ErrorRecord && w[|w| - 1] == ErrorRecord
    ensures Respond(req, sc, generatedId, generatedOutput)
      == ConvertResponse(500, ConversionId(req, generatedId), Problem(TimeoutMessage, Some(TimeoutSuggestion)))
  {
    TimeoutEndsInErrors(req, sc);
    assert Failure(sc) == Some(TimedOut);
    TimeoutSuggested();
  }

  /** After a timeout the timer's 0 'erro' is followed by the catch's. */
  lemma TimeoutEndsInErrors(req: ConvertRequest, sc: SyncScript)
    requires Proceeds(req, sc) && sc.race.TimeoutAfter?
    ensures var w := SyncWrites(req, sc); |w| >= 2 && w[|w| - 2] == ErrorRecord && w[|w| - 1] == ErrorRecord
  {
  }

  /**
   * The timer is never cleared: after a conversion that won the race, even
   * one answered with the file, the record ends at 0 'erro'.
   */
  lemma TimerOverwritesOutcome(req: ConvertRequest, sc: SyncScript)
    requires Proceeds(req, sc) && sc.race.ConversionFirst?
    ensures Last(SyncWrites(req, sc) + LateWrites(req, sc)) == ErrorRecord
  {
  }

  /**
   * The losing conversion is never killed: after a timeout, a conversion
   * that goes on to end well leaves the record at 100 'concluído' although
   * the client was answered with 500.
   */
  lemma TimeoutDoesNotCancel(req: ConvertRequest, sc: SyncScript, generatedId: string, generatedOutput: string)
    requires Proceeds(req, sc) && sc.race.TimeoutAfter? && sc.race.writes < |ConversionWrites(sc)| && Encoded(sc)
    ensures Respond(req, sc, generatedId, generatedOutput).status == 500
    ensures Last(SyncWrites(req, sc) + LateWrites(req, sc)) == Record(100, "concluído")
  {
    ConversionEndsInCompletion(sc);
  }
}
