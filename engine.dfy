/**
 * The transcoding engine (fluent-ffmpeg on the server), reduced to a
 * scripted outcome: the percents its 'progress' events report, in order,
 * followed by its 'end' event or its 'error' event with a message.
 * Percents are the already-rounded integers the handlers store.
 */
module Engine {

  /** How one engine run finishes. */
  datatype Ending = End | Error(message: string)

  /** One scripted engine run. */
  datatype Run = Run(progress: seq<int>, ending: Ending)

  /** The two server-side strategies, tried in this order: hardware HEVC (hevc_nvenc), then software HEVC (libx265). */
  datatype Strategy = Nvenc | Cpu

  /** The status label written while a strategy runs. */
  function Phase(s: Strategy): string {
    match s
    case Nvenc => "conversão NVENC"
    case Cpu => "conversão CPU"
  }
}
