/**
 * Names of the temporary files the two server conversion endpoints create
 * (src/app/api/convert-video/route.ts and .../start/route.ts): the uploaded
 * name with every character outside [A-Za-z0-9.-] replaced by '_', behind a
 * generated prefix, and the output name `outputName || generateId() + '.mkv'`.
 */
module UploadNaming {
  import opened Wrappers

  /** Characters the sanitising pattern `/[^a-zA-Z0-9.-]/g` leaves alone. */
  predicate IsSafe(ch: char) {
    ('a' <= ch <= 'z') || ('A' <= ch <= 'Z') || ('0' <= ch <= '9') || ch == '.' || ch == '-'
  }

  predicate AllSafe(s: string) {
    forall i :: 0 <= i < |s| ==> IsSafe(s[i])
  }

  /** What a sanitised name is made of: safe characters and the replacement '_'. */
  predicate Sanitized(s: string) {
    forall i :: 0 <= i < |s| ==> IsSafe(s[i]) || s[i] == '_'
  }

  /** `name.replace(/[^a-zA-Z0-9.-]/g, '_')`. */
  function Sanitize(name: string): (r: string)
    ensures |r| == |name| && Sanitized(r)
  {
    seq(|name|, i requires 0 <= i < |name| => if IsSafe(name[i]) then name[i] else '_')
  }

  /**
   * Sanitising keeps the length, keeps every safe character in place,
   * replaces every other one by '_', so only safe characters and '_' remain.
   */
  lemma SanitizeMeaning(name: string)
    ensures |Sanitize(name)| == |name| && Sanitized(Sanitize(name))
    ensures forall i :: 0 <= i < |name| && IsSafe(name[i]) ==> Sanitize(name)[i] == name[i]
    ensures forall i :: 0 <= i < |name| && !IsSafe(name[i]) ==> Sanitize(name)[i] == '_'
  {
  }

  /** A name that is already safe is kept as it is, so sanitising twice is sanitising once. */
  lemma SanitizeIdempotent(name: string)
    ensures AllSafe(name) ==> Sanitize(name) == name
    ensures Sanitize(Sanitize(name)) == Sanitize(name)
  {
  }

  /** The temporary input file: `${generateId()}-${sanitised name}`. */
  function InputFileName(prefix: string, name: string): (r: string)
    ensures |r| == |prefix| + 1 + |name|
    ensures r[..|prefix|] == prefix && r[|prefix|] == '-' && Sanitized(r[|prefix| + 1..])
  {
    prefix + "-" + Sanitize(name)
  }

  /** `outputName || `${generateId()}.mkv``: an absent or empty outputName is replaced. */
  function OutputFileName(outputName: Option<string>, generated: string): (r: string)
    ensures r != ""
    ensures outputName.Some? && outputName.value != "" ==> r == outputName.value
    ensures outputName.None? || outputName.value == "" ==> r == generated + ".mkv"
  {
    if outputName.Some? && outputName.value != "" then outputName.value else generated + ".mkv"
  }

  /** The uploaded form field `video`: its file name and content. */
  datatype Upload = Upload(name: string, content: Bytes)

  /** The temporary files a conversion request creates. */
  datatype TempFiles = TempFiles(input: string, output: string)
}
