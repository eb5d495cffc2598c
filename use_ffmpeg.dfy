/**
 * The in-browser converter hook (src/hooks/useFFmpeg.ts): `loadFFmpeg`
 * creates and loads the ffmpeg.wasm instance, and `convertVideo` writes the
 * input into the instance's virtual file system, encodes it with H.265,
 * falling back to H.264 only when H.265 fails, reads the result back and
 * removes the temporary files, ignoring failures of that last step.
 *
 * The library itself is a script: what each of its calls does (load, write,
 * exec, delete) is given as an `Outcome`, and a successful encoding leaves
 * the script's artifact under the output name. A ghost log records which
 * codecs were run.
 */
module UseFFmpeg {
  import opened Wrappers
  import opened Text

  /** The two encodings `convertVideo` can run. */
  datatype Codec = H265 | H264

  /** The browser and the library calls `loadFFmpeg` meets. */
  datatype Environment = Environment(
    isBrowser: bool,             // `typeof window !== 'undefined'`
    hasSharedArrayBuffer: bool,  // `typeof SharedArrayBuffer !== 'undefined'`
    cdnLoad: Outcome,            // `load` with the core fetched from the CDN
    plainLoad: Outcome)          // `load()` with the library's defaults

  /** What the library calls made by one `convertVideo` do. */
  datatype WasmScript = WasmScript(
    write: Outcome,         // reading the File and `writeFile`
    h265: Outcome,          // `exec` with libx265
    h264: Outcome,          // `exec` with libx264
    artifact: Bytes,        // what a successful `exec` leaves under the output name
    deleteInput: Outcome,   // `deleteFile(inputFileName)`
    deleteOutput: Outcome)  // `deleteFile(outputName)`

  const LoadErrorPrefix := "Erro ao carregar FFmpeg: "
  const NotBrowserMessage := "FFmpeg.wasm só funciona no navegador"
  const NoSharedMemoryMessage :=
    "SharedArrayBuffer não está disponível. " + "Verifique se o site está sendo servido com HTTPS e headers CORS corretos."
  const NotLoadedMessage := "FFmpeg não está carregado. Chame loadFFmpeg() primeiro."
  const ConversionErrorPrefix := "Erro na conversão: "

  // ------------------------------------------------------------ naming

  /** `input.${name.split('.').pop()}`: "input." and the text after the last '.' of the name (all of it without one). */
  function InputFileName(name: string): (r: string)
    ensures StartsWith(r, "input.") && |r| == 6 + |AfterLast(name, '.')|
  {
    "input." + AfterLast(name, '.')
  }

  /** The requested name when it already ends with ".mkv", otherwise that name with ".mkv" appended. */
  function EnsureMkv(outputFileName: string): (r: string)
    ensures EndsWith(r, ".mkv")
    ensures EndsWith(outputFileName, ".mkv") <==> r == outputFileName
  {
    if EndsWith(outputFileName, ".mkv") then outputFileName else outputFileName + ".mkv"
  }

  /** The input of "b.e", with e dot-free, is "input.e"; the extension keeps its case. */
  lemma InputNameKeepsExtension(b: string, e: string)
    requires '.' !in e
    ensures InputFileName(b + "." + e) == "input." + e
  {
    AfterLastOfSuffix(b, '.', e);
  }

  /** Forcing the suffix twice is forcing it once. */
  lemma EnsureMkvIdempotent(outputFileName: string)
    ensures EnsureMkv(EnsureMkv(outputFileName)) == EnsureMkv(outputFileName)
  {
  }

  // ------------------------------------------------------------ loading

  /** Whether the library ends up loaded: in a browser with shared memory, by the CDN load or else the plain one. */
  predicate LoadSucceeds(env: Environment) {
    env.isBrowser && env.hasSharedArrayBuffer && (env.cdnLoad.Pass? || env.plainLoad.Pass?)
  }

  /** The error `loadFFmpeg` records: the first check that fails, or the plain load's error when both loads fail. */
  function LoadError(env: Environment): (r: Option<string>)
    ensures r.None? <==> LoadSucceeds(env)
    ensures r.Some? ==> StartsWith(r.value, LoadErrorPrefix)
  {
    if !env.isBrowser then Some(LoadErrorPrefix + NotBrowserMessage)
    else if !env.hasSharedArrayBuffer then Some(LoadErrorPrefix + NoSharedMemoryMessage)
    else if env.cdnLoad.Pass? || env.plainLoad.Pass? then None
    else Some(LoadErrorPrefix + env.plainLoad.message)
  }

  // ------------------------------------------------------------ converting

  /** The codecs run once the input is written: H.265, then H.264 only when H.265 failed. */
  function Attempts(script: WasmScript): (r: seq<Codec>)
    ensures |r| > 0 && r[0] == H265
  {
    if script.h265.Pass? then [H265] else [H265, H264]
  }

  /** The error of the encoding step: none when either codec succeeds, else H.264's. */
  function EncodeFailure(script: WasmScript): (r: Option<string>)
    ensures r.None? <==> script.h265.Pass? || script.h264.Pass?
    ensures r.Some? ==> r.value == script.h264.message
  {
    if script.h265.Pass? || script.h264.Pass? then None else Some(script.h264.message)
  }

  /** What `convertVideo` returns for a loaded instance: the artifact, or the first error, prefixed. */
  function ConversionResult(script: WasmScript): (r: Result<Bytes>)
    ensures r.Failure? ==> StartsWith(r.error, ConversionErrorPrefix)
  {
    if script.write.Fail? then Failure(ConversionErrorPrefix + script.write.message)
    else match EncodeFailure(script)
      case None => Success(script.artifact)
      case Some(message) => Failure(ConversionErrorPrefix + message)
  }

  /**
   * The instance's files after a conversion of a loaded instance, step by
   * step: a failed write leaves them as they were; a failed encoding leaves
   * the input behind; a failed removal of the input leaves both files, and a
   * failed removal of the output leaves the output.
   */
  function FilesAfter(files: map<string, Bytes>, input: string, output: string, content: Bytes, script: WasmScript): (r: map<string, Bytes>)
    ensures forall k :: k != input && k != output ==> (k in r <==> k in files) && (k in r ==> r[k] == files[k])
    ensures script.write.Fail? ==> r == files
  {
    if script.write.Fail? then files
    else if EncodeFailure(script).Some? then files[input := content]
    else
      var encoded := files[input := content][output := script.artifact];
      if script.deleteInput.Fail? then encoded
      else if script.deleteOutput.Fail? then encoded - {input}
      else encoded - {input, output}
  }

  /** The state of `useFFmpeg`: the instance reference, the `isLoaded`, `isLoading` and `error` states, and the instance's files. */
  class FFmpegHook {
    var hasInstance: bool
    var isLoaded: bool
    var isLoading: bool
    var error: Option<string>
    var files: map<string, Bytes>
    ghost var execLog: seq<Codec>

    /** Only a created instance can be loaded. */
    ghost predicate Valid()
      reads this
    {
      isLoaded ==> hasInstance
    }

    constructor ()
      ensures Valid()
      ensures !hasInstance && !isLoaded && !isLoading && error.None? && files == map[] && execLog == []
    {
      hasInstance := false;
      isLoaded := false;
      isLoading := false;
      error := None;
      files := map[];
      execLog := [];
    }

    /**
     * `loadFFmpeg`: nothing changes when a loaded instance exists; otherwise
     * the environment checks, the CDN load and the plain load are tried in
     * turn, `error` ends as `LoadError(env)`, and `isLoading` ends false.
     */
    method LoadFFmpeg(env: Environment)
      requires Valid()
      modifies this
      ensures Valid()
      ensures old(hasInstance && isLoaded) ==>
        hasInstance && isLoaded && isLoading == old(isLoading) && error == old(error)
      ensures !old(hasInstance && isLoaded) ==>
        && !isLoading && error == LoadError(env)
        && isLoaded == LoadSucceeds(env)
        && hasInstance == (old(hasInstance) || (env.isBrowser && env.hasSharedArrayBuffer))
      ensures files == old(files) && execLog == old(execLog)
    {
      if hasInstance && isLoaded {
        return;
      }
      isLoading := true;
      error := None;
      if !env.isBrowser {
        error := Some(LoadErrorPrefix + NotBrowserMessage);
      } else if !env.hasSharedArrayBuffer {
        error := Some(LoadErrorPrefix + NoSharedMemoryMessage);
      } else {
        hasInstance := true;
        if env.cdnLoad.Pass? {
          isLoaded := true;
        } else if env.plainLoad.Pass? {
          isLoaded := true;
        } else {
          error := Some(LoadErrorPrefix + env.plainLoad.message);
        }
      }
      isLoading := false;
    }

    /** The two `exec` attempts: H.265, and H.264 only in its `catch`. */
    method Encode(outputName: string, script: WasmScript) returns (failure: Option<string>)
      modifies this
      ensures failure == EncodeFailure(script)
      ensures execLog == old(execLog) + Attempts(script)
      ensures files == (if failure.None? then old(files)[outputName := script.artifact] else old(files))
      ensures hasInstance == old(hasInstance) && isLoaded == old(isLoaded) && isLoading == old(isLoading) && error == old(error)
    {
      execLog := execLog + [H265];
      if script.h265.Pass? {
        files := files[outputName := script.artifact];
        return None;
      }
      execLog := execLog + [H264];
      if script.h264.Pass? {
        files := files[outputName := script.artifact];
        return None;
      }
      return Some(script.h264.message);
    }

    /** The `finally`-less clean-up: remove the input, then the output; a failure stops it and is ignored. */
    method CleanUp(inputFileName: string, outputName: string, script: WasmScript)
      modifies this
      ensures files == (if script.deleteInput.Fail? then old(files)
                        else if script.deleteOutput.Fail? then old(files) - {inputFileName}
                        else old(files) - {inputFileName, outputName})
      ensures execLog == old(execLog)
      ensures hasInstance == old(hasInstance) && isLoaded == old(isLoaded) && isLoading == old(isLoading) && error == old(error)
    {
      if script.deleteInput.Pass? {
        files := files - {inputFileName};
        if script.deleteOutput.Pass? {
          files := files - {outputName};
        }
      }
    }

    /**
     * `convertVideo`: without a loaded instance it fails with the bare
     * not-loaded message and does nothing else; otherwise it returns
     * `ConversionResult(script)`, having run `Attempts(script)` when the
     * input was written and nothing when it was not.
     */
    method ConvertVideo(inputName: string, content: Bytes, outputFileName: string, script: WasmScript) returns (r: Result<Bytes>)
      modifies this
      ensures !old(hasInstance && isLoaded) ==>
        r == Failure(NotLoadedMessage) && files == old(files) && execLog == old(execLog)
      ensures old(hasInstance && isLoaded) ==> r == ConversionResult(script)
      ensures old(hasInstance && isLoaded) ==>
        execLog == old(execLog) + (if script.write.Pass? then Attempts(script) else [])
      ensures old(hasInstance && isLoaded) ==>
        files == FilesAfter(old(files), InputFileName(inputName), EnsureMkv(outputFileName), content, script)
      ensures r.Success? && script.deleteInput.Pass? && script.deleteOutput.Pass? ==>
        InputFileName(inputName) !in files && EnsureMkv(outputFileName) !in files
      ensures hasInstance == old(hasInstance) && isLoaded == old(isLoaded) && isLoading == old(isLoading) && error == old(error)
    {
      if !hasInstance || !isLoaded {
        return Failure(NotLoadedMessage);
      }
      var inputFileName := InputFileName(inputName);
      var outputName := EnsureMkv(outputFileName);
      if script.write.Fail? {
        return Failure(ConversionErrorPrefix + script.write.message);
      }
      files := files[inputFileName := content];
      var failure := Encode(outputName, script);
      if failure.Some? {
        return Failure(ConversionErrorPrefix + failure.value);
      }
      var data := files[outputName];
      CleanUp(inputFileName, outputName, script);
      r := Success(data);
    }
  }

  // ------------------------------------------------------------ lemmas

  /** An encoding that fails after the input was written returns before the clean-up, so the input stays in the file system. */
  lemma FailedEncodingLeavesInput(files: map<string, Bytes>, input: string, output: string, content: Bytes, script: WasmScript)
    requires script.write.Pass? && ConversionResult(script).Failure?
    ensures input in FilesAfter(files, input, output, content, script)
    ensures FilesAfter(files, input, output, content, script)[input] == content
  {
    assert EncodeFailure(script).Some?;
  }

  /**
   * The temporary files are gone after a conversion when it succeeded and
   * both removals succeeded, and, for two distinct names, only then; a
   * successful conversion whose first removal fails leaves the output
   * holding the artifact.
   */
  lemma TemporaryFilesRemoved(files: map<string, Bytes>, input: string, output: string, content: Bytes, script: WasmScript)
    requires script.write.Pass?
    ensures var r := FilesAfter(files, input, output, content, script);
      ConversionResult(script).Success? && script.deleteInput.Pass? && script.deleteOutput.Pass? ==>
        input !in r && output !in r
    ensures var r := FilesAfter(files, input, output, content, script);
      input != output && input !in r && output !in r ==>
        ConversionResult(script).Success? && script.deleteInput.Pass? && script.deleteOutput.Pass?
    ensures ConversionResult(script).Success? && script.deleteInput.Fail? ==>
      var r := FilesAfter(files, input, output, content, script);
      output in r && r[output] == script.artifact
  {
    var r := FilesAfter(files, input, output, content, script);
    if ConversionResult(script).Failure? {
      FailedEncodingLeavesInput(files, input, output, content, script);
    } else if script.deleteInput.Fail? {
      assert output in r;
    } else if script.deleteOutput.Fail? && input != output {
      assert output in r;
    }
  }

  /** H.264 runs exactly when H.265 failed; when H.265 succeeds H.264 never runs. */
  lemma FallbackOnlyAfterFailure(script: WasmScript)
    ensures H264 in Attempts(script) <==> script.h265.Fail?
    ensures script.h265.Pass? ==> Attempts(script) == [H265]
  {
  }

  /** The result of a conversion does not depend on whether the temporary files could be removed. */
  lemma CleanUpDoesNotMatter(script: WasmScript, deleteInput: Outcome, deleteOutput: Outcome)
    ensures ConversionResult(script.(deleteInput := deleteInput, deleteOutput := deleteOutput)) == ConversionResult(script)
  {
  }

  /** A conversion succeeds exactly when the input is written and one of the two codecs succeeds, and then yields the artifact. */
  lemma ConversionSucceeds(script: WasmScript)
    ensures ConversionResult(script).Success? <==> script.write.Pass? && (script.h265.Pass? || script.h264.Pass?)
    ensures ConversionResult(script).Success? ==> ConversionResult(script).value == script.artifact
    ensures script.write.Pass? && script.h265.Fail? && script.h264.Fail? ==>
      ConversionResult(script) == Failure(ConversionErrorPrefix + script.h264.message)
  {
  }
}
