/**
 * The helpers of the upload page (src/components/DragDrop.tsx): duration and
 * elapsed-time display, file extension and video-file validation, the video
 * list updates (adding with the 500-video limit, selection, removal,
 * clearing converted videos, picking the batch to convert), the output file
 * name, and the effect that copies polled progress into the list.
 *
 * Displayed durations are read back by `ParseClock`, which adds up the
 * space-separated "<number><h|m|s>" parts; both formatters are proved to be
 * undone by it.
 */
module DragDrop {
  import opened Wrappers
  import opened Text
  import opened ProgressStore

  // ------------------------------------------------------------ reading times back

  /** The seconds n hours, minutes or seconds stand for; any other unit counts for nothing. */
  function Scaled(n: nat, unit: char): nat {
    if unit == 'h' then n * 3600 else if unit == 'm' then n * 60 else if unit == 's' then n else 0
  }

  /** The seconds a part "<digits><unit>" stands for. */
  function PartSeconds(part: string): nat {
    if part == [] then 0 else Scaled(ParseNat(part[..|part| - 1]), part[|part| - 1])
  }

  function SumParts(parts: seq<string>): nat
    decreases |parts|
  {
    if parts == [] then 0 else PartSeconds(parts[0]) + SumParts(parts[1..])
  }

  /** The number of seconds a displayed duration such as "1h 05m 09s" stands for. */
  function ParseClock(s: string): nat {
    SumParts(Split(s, ' '))
  }

  lemma {:induction false} SumPartsConcat(a: seq<string>, b: seq<string>)
    ensures SumParts(a + b) == SumParts(a) + SumParts(b)
    decreases |a|
  {
    if a != [] {
      assert (a + b)[1..] == a[1..] + b;
      SumPartsConcat(a[1..], b);
    } else {
      assert a + b == b;
    }
  }

  /** A number followed by its unit, as the template `${n}h` writes it. */
  function Part(n: nat, unit: char): string {
    NatToString(n) + [unit]
  }

  /** A part is a non-empty digit string and its unit: it starts with a digit, holds no space, and stands for n units. */
  lemma PartShape(n: nat, unit: char)
    requires unit != ' '
    ensures var p := Part(n, unit);
      && |p| >= 2 && '0' <= p[0] <= '9' && p[|p| - 1] == unit && ' ' !in p
      && PartSeconds(p) == Scaled(n, unit)
  {
    NatToStringRoundTrip(n);
    var p := Part(n, unit);
    assert p[..|p| - 1] == NatToString(n);
  }

  /** A two-digit part, as `padStart(2, '0')` writes minutes and seconds. */
  function Padded(n: nat, unit: char): string {
    Pad2(n) + [unit]
  }

  lemma PaddedShape(n: nat, unit: char)
    requires unit != ' ' && n < 100
    ensures var p := Padded(n, unit);
      && |p| == 3 && '0' <= p[0] <= '9' && p[|p| - 1] == unit && ' ' !in p
      && PartSeconds(p) == Scaled(n, unit)
  {
    Pad2RoundTrip(n);
    var p := Padded(n, unit);
    assert p[..|p| - 1] == Pad2(n);
  }

  /** The whole hours, the minutes past them and the seconds past those add back up to the total. */
  lemma Decompose(total: nat)
    ensures total == (total / 3600) * 3600 + ((total % 3600) / 60) * 60 + total % 60
    ensures (total % 3600) / 60 < 60 && total % 60 < 60
  {
  }

  // ------------------------------------------------------------ lists of parts

  /** Non-empty parts without spaces, as the formatters write them. */
  predicate Words(ps: seq<string>) {
    forall i :: 0 <= i < |ps| ==> |ps[i]| > 0 && ' ' !in ps[i]
  }

  lemma WordsConcat(a: seq<string>, b: seq<string>)
    requires Words(a) && Words(b)
    ensures Words(a + b)
  {
    forall i | 0 <= i < |a + b|
      ensures |(a + b)[i]| > 0 && ' ' !in (a + b)[i]
    {
      if i >= |a| {
        assert (a + b)[i] == b[i - |a|];
      }
    }
  }

  /** Words joined by single spaces read back as the sum of what each stands for. */
  lemma ParseWords(ps: seq<string>)
    requires |ps| > 0 && Words(ps)
    ensures ParseClock(Join(ps, ' ')) == SumParts(ps)
  {
    SplitJoin(ps, ' ');
  }

  /** The parts each followed by a space. */
  function Spaced(parts: seq<string>): string
    decreases |parts|
  {
    if parts == [] then [] else Spaced(parts[..|parts| - 1]) + parts[|parts| - 1] + " "
  }

  lemma {:induction false} SpacedIsJoin(parts: seq<string>)
    requires |parts| > 0
    ensures Spaced(parts) == Join(parts, ' ') + " "
    decreases |parts|
  {
    if |parts| > 1 {
      var init := parts[..|parts| - 1];
      SpacedIsJoin(init);
      JoinSnoc(init, parts[|parts| - 1], ' ');
      assert init + [parts[|parts| - 1]] == parts;
    } else {
      assert parts[..0] == [];
    }
  }

  /** A join of words neither begins nor ends with a space. */
  lemma JoinedWordsTrimmed(ps: seq<string>)
    requires |ps| > 0 && Words(ps)
    ensures Trim(Join(ps, ' ')) == Join(ps, ' ')
    ensures Trim(Join(ps, ' ') + " ") == Join(ps, ' ')
  {
    JoinEnds(ps, ' ');
    var first := ps[0];
    var last := ps[|ps| - 1];
    assert first[0] in first;
    assert last[|last| - 1] in last;
    TrimBorders(Join(ps, ' '));
  }

  /** Trimming words each followed by a space leaves them joined by single spaces. */
  lemma TrimSpaced(ps: seq<string>)
    requires |ps| > 0 && Words(ps)
    ensures Trim(Spaced(ps)) == Join(ps, ' ')
  {
    SpacedIsJoin(ps);
    JoinedWordsTrimmed(ps);
  }

  /** The same when one more word follows the spaced ones. */
  lemma TrimSpacedThen(ps: seq<string>, q: string)
    requires Words(ps + [q])
    ensures Trim(Spaced(ps) + q) == Join(ps + [q], ' ')
  {
    if ps == [] {
      assert Spaced(ps) + q == Join(ps + [q], ' ');
    } else {
      assert Words(ps) by {
        forall i | 0 <= i < |ps| ensures |ps[i]| > 0 && ' ' !in ps[i] {
          assert ps[i] == (ps + [q])[i];
        }
      }
      SpacedIsJoin(ps);
      JoinSnoc(ps, q, ' ');
      assert Spaced(ps) + q == Join(ps + [q], ' ');
    }
    JoinedWordsTrimmed(ps + [q]);
  }

  // ------------------------------------------------------------ formatDuration

  /** The hour and minute parts shown: each when non-zero. */
  function Leading(h: nat, m: nat): seq<string> {
    (if h > 0 then [Part(h, 'h')] else []) + (if m > 0 then [Part(m, 'm')] else [])
  }

  /** Seconds are shown when non-zero or when nothing else is. */
  predicate ShowsSeconds(h: nat, m: nat, s: nat) {
    s > 0 || (h == 0 && m == 0)
  }

  /** The parts shown for h hours, m minutes and s seconds. */
  function DurationShown(h: nat, m: nat, s: nat): (parts: seq<string>)
    ensures |parts| > 0
  {
    Leading(h, m) + (if ShowsSeconds(h, m, s) then [Part(s, 's')] else [])
  }

  /** The parts `formatDuration` shows for a number of seconds. */
  function DurationParts(seconds: nat): (parts: seq<string>)
    ensures |parts| > 0
  {
    DurationShown(seconds / 3600, (seconds % 3600) / 60, seconds % 60)
  }

  /** A part is a one-word list standing for n units. */
  lemma PartWord(n: nat, unit: char)
    requires unit != ' '
    ensures Words([Part(n, unit)]) && SumParts([Part(n, unit)]) == Scaled(n, unit)
  {
    PartShape(n, unit);
  }

  lemma PaddedWord(n: nat, unit: char)
    requires unit != ' ' && n < 100
    ensures Words([Padded(n, unit)]) && SumParts([Padded(n, unit)]) == Scaled(n, unit)
  {
    PaddedShape(n, unit);
  }

  /** Words and sums of a list that is empty or one part. */
  lemma OptionalPart(shown: bool, n: nat, unit: char)
    requires unit != ' '
    ensures var l := if shown then [Part(n, unit)] else [];
      Words(l) && SumParts(l) == (if shown then Scaled(n, unit) else 0)
  {
    if shown {
      PartWord(n, unit);
    }
  }

  lemma LeadingWords(h: nat, m: nat)
    ensures Words(Leading(h, m)) && (Leading(h, m) == [] <==> h == 0 && m == 0)
    ensures SumParts(Leading(h, m)) == (if h > 0 then h * 3600 else 0) + (if m > 0 then m * 60 else 0)
  {
    var H := if h > 0 then [Part(h, 'h')] else [];
    var M := if m > 0 then [Part(m, 'm')] else [];
    OptionalPart(h > 0, h, 'h');
    OptionalPart(m > 0, m, 'm');
    WordsConcat(H, M);
    SumPartsConcat(H, M);
  }

  lemma LeadingSpaced(h: nat, m: nat)
    ensures Spaced(Leading(h, m)) == (if h > 0 then Part(h, 'h') + " " else "") + (if m > 0 then Part(m, 'm') + " " else "")
  {
    var H := if h > 0 then [Part(h, 'h')] else [];
    var M := if m > 0 then [Part(m, 'm')] else [];
    assert Spaced(H) == (if h > 0 then Part(h, 'h') + " " else "");
    if m > 0 {
      assert (H + M)[..|H + M| - 1] == H;
    } else {
      assert H + M == H;
    }
  }

  lemma ShownWords(h: nat, m: nat, s: nat)
    ensures Words(DurationShown(h, m, s))
    ensures SumParts(DurationShown(h, m, s)) == h * 3600 + m * 60 + s
  {
    LeadingWords(h, m);
    OptionalPart(ShowsSeconds(h, m, s), s, 's');
    var S := if ShowsSeconds(h, m, s) then [Part(s, 's')] else [];
    WordsConcat(Leading(h, m), S);
    SumPartsConcat(Leading(h, m), S);
  }

  /** The text the `+=` steps build before the trim: "Hh " and "Mm " when non-zero, then "Ss" when shown. */
  function Appended(h: nat, m: nat, s: nat): string {
    var r := (if h > 0 then Part(h, 'h') + " " else "") + (if m > 0 then Part(m, 'm') + " " else "");
    if s > 0 || r == "" then r + Part(s, 's') else r
  }

  /** Trimming the appended text leaves the shown parts joined by single spaces. */
  lemma AppendedTrimmed(h: nat, m: nat, s: nat)
    ensures Trim(Appended(h, m, s)) == Join(DurationShown(h, m, s), ' ')
  {
    LeadingSpaced(h, m);
    LeadingWords(h, m);
    ShownWords(h, m, s);
    var L := Leading(h, m);
    if ShowsSeconds(h, m, s) {
      AppendedWithSeconds(h, m, s);
    } else {
      assert DurationShown(h, m, s) == L;
      TrimSpaced(L);
    }
  }

  lemma AppendedWithSeconds(h: nat, m: nat, s: nat)
    requires ShowsSeconds(h, m, s)
    ensures Trim(Appended(h, m, s)) == Join(DurationShown(h, m, s), ' ')
  {
    LeadingSpaced(h, m);
    LeadingWords(h, m);
    ShownWords(h, m, s);
    var L := Leading(h, m);
    assert Appended(h, m, s) == Spaced(L) + Part(s, 's');
    assert DurationShown(h, m, s) == L + [Part(s, 's')];
    TrimSpacedThen(L, Part(s, 's'));
  }

  /**
   * `formatDuration`: "Hh ", "Mm " and "Ss" appended step by step, then
   * trimmed. The result is the shown parts joined by single spaces: "0s" for
   * zero, no zero hours or minutes, seconds only when non-zero or alone, and
   * no trailing space.
   */
  method FormatDuration(seconds: nat) returns (text: string)
    ensures text == Join(DurationParts(seconds), ' ')
  {
    if seconds == 0 {
      assert DurationParts(0) == [Part(0, 's')];
      return Part(0, 's');
    }
    var hours := seconds / 3600;
    var minutes := (seconds % 3600) / 60;
    var remaining := seconds % 60;
    var result := "";
    if hours > 0 {
      result := result + Part(hours, 'h') + " ";
    }
    if minutes > 0 {
      result := result + Part(minutes, 'm') + " ";
    }
    ghost var lead := result;
    assert lead == (if hours > 0 then Part(hours, 'h') + " " else "") + (if minutes > 0 then Part(minutes, 'm') + " " else "");
    if remaining > 0 || result == "" {
      result := result + Part(remaining, 's');
    }
    assert result == Appended(hours, minutes, remaining);
    AppendedTrimmed(hours, minutes, remaining);
    text := Trim(result);
  }

  /** Reading a formatted duration back gives the number of seconds. */
  lemma DurationRoundTrip(seconds: nat)
    ensures ParseClock(Join(DurationParts(seconds), ' ')) == seconds
  {
    var h, m, s := seconds / 3600, (seconds % 3600) / 60, seconds % 60;
    ShownWords(h, m, s);
    ParseWords(DurationShown(h, m, s));
    Decompose(seconds);
  }

  // ------------------------------------------------------------ formatTotalTime

  /** The parts shown for an elapsed time: "Hh MMm SSs", "Mm SSs" or "Ss". */
  function TotalShown(h: nat, m: nat, s: nat): seq<string> {
    if h > 0 then [Part(h, 'h'), Padded(m, 'm'), Padded(s, 's')]
    else if m > 0 then [Part(m, 'm'), Padded(s, 's')]
    else [Part(s, 's')]
  }

  /** The text `formatTotalTime` builds from hours, minutes and seconds. */
  function TotalText(h: nat, m: nat, s: nat): string {
    if h > 0 then Part(h, 'h') + " " + Padded(m, 'm') + " " + Padded(s, 's')
    else if m > 0 then Part(m, 'm') + " " + Padded(s, 's')
    else Part(s, 's')
  }

  /** `formatTotalTime`: whole seconds elapsed, split into hours, minutes and seconds. */
  function FormatTotalTime(milliseconds: nat): (text: string)
    ensures ParseClock(text) == milliseconds / 1000
  {
    var total := milliseconds / 1000;
    Decompose(total);
    TotalShownRoundTrip(total / 3600, (total % 3600) / 60, total % 60);
    TotalText(total / 3600, (total % 3600) / 60, total % 60)
  }

  /** Three words, as shown when there are hours. */
  lemma ThreeWords(a: string, b: string, c: string)
    requires Words([a]) && Words([b]) && Words([c])
    ensures Words([a, b, c]) && SumParts([a, b, c]) == SumParts([a]) + SumParts([b]) + SumParts([c])
    ensures Join([a, b, c], ' ') == a + " " + b + " " + c
  {
    assert [a, b, c][1..] == [b, c];
    assert [b, c][1..] == [c];
    assert Join([b, c], ' ') == b + " " + c;
    assert [a, b, c] == [a] + [b] + [c];
    WordsConcat([a], [b]);
    WordsConcat([a] + [b], [c]);
  }

  /** Two words, as shown when there are minutes but no hours. */
  lemma TwoWords(a: string, b: string)
    requires Words([a]) && Words([b])
    ensures Words([a, b]) && SumParts([a, b]) == SumParts([a]) + SumParts([b])
    ensures Join([a, b], ' ') == a + " " + b
  {
    assert [a, b][1..] == [b];
    assert [a, b] == [a] + [b];
    WordsConcat([a], [b]);
  }

  lemma TotalWithHours(h: nat, m: nat, s: nat)
    requires h > 0 && m < 60 && s < 60
    ensures Words(TotalShown(h, m, s)) && SumParts(TotalShown(h, m, s)) == h * 3600 + m * 60 + s
    ensures TotalText(h, m, s) == Join(TotalShown(h, m, s), ' ')
  {
    PartWord(h, 'h');
    PaddedWord(m, 'm');
    PaddedWord(s, 's');
    ThreeWords(Part(h, 'h'), Padded(m, 'm'), Padded(s, 's'));
  }

  lemma TotalWithMinutes(m: nat, s: nat)
    requires 0 < m < 60 && s < 60
    ensures Words(TotalShown(0, m, s)) && SumParts(TotalShown(0, m, s)) == m * 60 + s
    ensures TotalText(0, m, s) == Join(TotalShown(0, m, s), ' ')
  {
    PartWord(m, 'm');
    PaddedWord(s, 's');
    TwoWords(Part(m, 'm'), Padded(s, 's'));
  }

  lemma TotalShownWords(h: nat, m: nat, s: nat)
    requires m < 60 && s < 60
    ensures Words(TotalShown(h, m, s)) && SumParts(TotalShown(h, m, s)) == h * 3600 + m * 60 + s
    ensures TotalText(h, m, s) == Join(TotalShown(h, m, s), ' ')
  {
    if h > 0 {
      TotalWithHours(h, m, s);
    } else if m > 0 {
      TotalWithMinutes(m, s);
    } else {
      PartWord(s, 's');
    }
  }

  lemma TotalShownRoundTrip(h: nat, m: nat, s: nat)
    requires m < 60 && s < 60
    ensures TotalText(h, m, s) == Join(TotalShown(h, m, s), ' ')
    ensures ParseClock(TotalText(h, m, s)) == h * 3600 + m * 60 + s
  {
    TotalShownWords(h, m, s);
    ParseWords(TotalShown(h, m, s));
  }

  /**
   * The elapsed time is shown as its parts joined by single spaces, the
   * parts after the first padded to two digits, and reading it back gives
   * the whole seconds elapsed.
   */
  lemma TotalTimeRoundTrip(milliseconds: nat)
    ensures var total := milliseconds / 1000;
      FormatTotalTime(milliseconds) == Join(TotalShown(total / 3600, (total % 3600) / 60, total % 60), ' ')
    ensures ParseClock(FormatTotalTime(milliseconds)) == milliseconds / 1000
  {
    var total := milliseconds / 1000;
    Decompose(total);
    TotalShownRoundTrip(total / 3600, (total % 3600) / 60, total % 60);
  }

  // ------------------------------------------------------------ file names

  /** `getFileExtension`: the text after the last '.' (all of the name without one), upper-cased; 'UNKNOWN' when empty. */
  function GetFileExtension(fileName: string): (r: string)
    ensures AfterLast(fileName, '.') == "" ==> r == "UNKNOWN"
    ensures AfterLast(fileName, '.') != "" ==> r == UpperAll(AfterLast(fileName, '.')) && '.' !in r
  {
    var extension := AfterLast(fileName, '.');
    UpperOfLower(extension);
    AfterLastIsLastSegment(fileName, '.');
    var shown := UpperAll(LowerAll(extension));
    if shown == "" then "UNKNOWN" else shown
  }

  /** Upper-casing after lower-casing is upper-casing; the result keeps its length and has no '.' unless the input had one. */
  lemma UpperOfLower(s: string)
    ensures UpperAll(LowerAll(s)) == UpperAll(s)
    ensures '.' !in s ==> '.' !in UpperAll(s)
  {
    assert forall i :: 0 <= i < |s| ==> UpperAll(s)[i] == Upper(s[i]);
  }

  lemma LowerOfUpper(s: string)
    ensures LowerAll(UpperAll(s)) == LowerAll(s)
  {
  }

  /** A name "b.e" whose extension e is non-empty and dot-free has extension e, upper-cased. */
  lemma ExtensionOfDottedName(b: string, e: string)
    requires e != "" && '.' !in e
    ensures GetFileExtension(b + "." + e) == UpperAll(e)
  {
    AfterLastOfSuffix(b, '.', e);
  }

  /** A name with no dot is its own extension; a name ending in a dot has extension 'UNKNOWN'. */
  lemma ExtensionOfUndottedName(name: string, b: string)
    ensures '.' !in name && name != "" ==> GetFileExtension(name) == UpperAll(name)
    ensures GetFileExtension(b + ".") == "UNKNOWN"
  {
    if '.' !in name {
      AfterLastWithout(name, '.');
    }
    AfterLastOfSuffix(b, '.', "");
    assert b + "." + "" == b + ".";
  }

  /** The 16 extensions accepted without a video MIME type. */
  const VideoExtensions: seq<string> :=
    ["mp4", "avi", "mov", "mkv", "wmv", "flv", "webm", "m4v", "mpg", "mpeg", "3gp", "ogv", "ts", "mts", "m2ts", "f4v"]

  /**
   * `isValidVideoFile`: the MIME type starts with 'video/', or the lower-cased
   * text after the last '.' of the name is one of the listed extensions. An
   * absent MIME type is the empty string.
   */
  predicate IsValidVideoFile(fileName: string, mimeType: string): (valid: bool)
    ensures StartsWith(mimeType, "video/") ==> valid
    ensures valid ==> StartsWith(mimeType, "video/") || |AfterLast(fileName, '.')| >= 2
  {
    StartsWith(mimeType, "video/") || LowerAll(AfterLast(fileName, '.')) in VideoExtensions
  }

  /** A video MIME type is enough, whatever the name. */
  lemma VideoMimeTypeAccepted(fileName: string, mimeType: string)
    requires StartsWith(mimeType, "video/")
    ensures IsValidVideoFile(fileName, mimeType)
  {
  }

  /** Without a video MIME type, a name "b.e" is accepted exactly when e, lower-cased, is listed. */
  lemma ExtensionDecides(b: string, e: string, mimeType: string)
    requires '.' !in e && !StartsWith(mimeType, "video/")
    ensures IsValidVideoFile(b + "." + e, mimeType) <==> LowerAll(e) in VideoExtensions
  {
    AfterLastOfSuffix(b, '.', e);
  }

  /** The extension test ignores case: "CLIP.MKV" is accepted as "clip.mkv" is. */
  lemma ValidityIgnoresCase(fileName: string, mimeType: string)
    ensures IsValidVideoFile(UpperAll(fileName), mimeType) == IsValidVideoFile(fileName, mimeType)
  {
    AfterLastCommutesWithCase(fileName);
    LowerOfUpper(AfterLast(fileName, '.'));
  }

  /** A name without any dot is taken whole as its extension, so a file named "ts" or "mp4" counts as a video. */
  lemma DotlessNameIsItsExtension(fileName: string, mimeType: string)
    requires '.' !in fileName
    ensures IsValidVideoFile(fileName, mimeType) <==> StartsWith(mimeType, "video/") || LowerAll(fileName) in VideoExtensions
  {
    AfterLastWithout(fileName, '.');
  }

  /**
   * The name the converted file is saved under: the input name with a final
   * extension (a '.' followed by one or more characters other than '/' and
   * '.', at the end) removed.
   */
  function StripExtension(name: string): (r: string)
    ensures |r| <= |name| && name[..|r|] == r
  {
    var extension := AfterLast(name, '.');
    AfterLastIsLastSegment(name, '.');
    if |extension| < |name| && extension != "" && '/' !in extension then name[..|name| - |extension| - 1] else name
  }

  /** `${name.replace(/\.[^/.]+$/, "")}.mkv`. */
  function OutputName(name: string): (r: string)
    ensures EndsWith(r, ".mkv") && |r| == |StripExtension(name)| + 4
  {
    StripExtension(name) + ".mkv"
  }

  /** "b.e" loses ".e" when e is non-empty and holds neither '.' nor '/'. */
  lemma StripsFinalExtension(b: string, e: string)
    requires e != "" && '.' !in e && '/' !in e
    ensures StripExtension(b + "." + e) == b
    ensures OutputName(b + "." + e) == b + ".mkv"
  {
    AfterLastOfSuffix(b, '.', e);
    var name := b + "." + e;
    assert name[..|name| - |e| - 1] == b;
  }

  /** A name with no dot, or whose last dot ends it or is followed by a '/', is kept whole. */
  lemma KeepsNameWithoutExtension(name: string)
    requires '.' !in name || AfterLast(name, '.') == "" || '/' in AfterLast(name, '.')
    ensures StripExtension(name) == name
  {
    if '.' !in name {
      AfterLastWithout(name, '.');
    }
  }

  // ------------------------------------------------------------ the video list

  /** An entry of the list (preview, format, duration, size, the File object and the timers are not modelled). */
  datatype VideoData = VideoData(
    id: string, name: string, extension: string,
    converting: bool, converted: bool, selected: bool, progress: Option<int>)

  /** r is obtained from s by dropping some of its elements: the rest keep their order. */
  ghost predicate Subsequence<T(!new)>(r: seq<T>, s: seq<T>)
    decreases |s|
  {
    if r == [] then true
    else if s == [] then false
    else (r[0] == s[0] && Subsequence(r[1..], s[1..])) || Subsequence(r, s[1..])
  }

  /** `s.filter(p)`: the elements satisfying p, in order. */
  function Filter<T(!new)>(s: seq<T>, p: T -> bool): (r: seq<T>)
    ensures |r| <= |s|
    ensures forall x :: x in r <==> x in s && p(x)
    decreases |s|
  {
    if s == [] then [] else (if p(s[0]) then [s[0]] else []) + Filter(s[1..], p)
  }

  /**
   * The kept elements keep their order, and each element satisfying p is
   * kept as often as it occurs while no other is kept. Only one sequence
   * has both properties, so together they characterize `filter`.
   */
  lemma {:induction false} FilterMeaning<T(!new)>(s: seq<T>, p: T -> bool)
    ensures Subsequence(Filter(s, p), s)
    ensures forall x :: multiset(Filter(s, p))[x] == if p(x) then multiset(s)[x] else 0
    decreases |s|
  {
    if s != [] {
      FilterMeaning(s[1..], p);
      var rest := Filter(s[1..], p);
      assert s == [s[0]] + s[1..];
      if p(s[0]) {
        assert Filter(s, p) == [s[0]] + rest;
        assert Filter(s, p)[1..] == rest;
      } else {
        assert Filter(s, p) == rest;
      }
    }
  }

  /** Dropping elements never adds occurrences. */
  lemma {:induction false} SubsequenceCounts<T(!new)>(r: seq<T>, s: seq<T>)
    requires Subsequence(r, s)
    ensures multiset(r) <= multiset(s)
    decreases |s|
  {
    if r != [] {
      assert s == [s[0]] + s[1..];
      if r[0] == s[0] && Subsequence(r[1..], s[1..]) {
        SubsequenceCounts(r[1..], s[1..]);
        assert r == [r[0]] + r[1..];
      } else {
        SubsequenceCounts(r, s[1..]);
      }
    }
  }

  /** The properties of `FilterMeaning` leave no choice: a sequence having both is the filtered one. */
  lemma {:induction false} FilterUnique<T(!new)>(r: seq<T>, s: seq<T>, p: T -> bool)
    requires Subsequence(r, s)
    requires forall x :: multiset(r)[x] == if p(x) then multiset(s)[x] else 0
    ensures r == Filter(s, p)
    decreases |s|
  {
    if s == [] {
      assert r == [];
    } else {
      var a := s[0];
      assert s == [a] + s[1..];
      if r != [] && r[0] == a && Subsequence(r[1..], s[1..]) {
        assert r == [a] + r[1..];
        assert p(a) by {
          assert multiset(r)[a] > 0;
        }
        FilterUnique(r[1..], s[1..], p);
        assert Filter(s, p) == [a] + Filter(s[1..], p);
      } else if r == [] {
        assert forall x :: x in s ==> multiset(r)[x] == 0 < multiset(s)[x];
        FilterKeepsNone(s, p);
      } else {
        assert Subsequence(r, s[1..]);
        SubsequenceCounts(r, s[1..]);
        assert !p(a);
        forall x
          ensures multiset(r)[x] == if p(x) then multiset(s[1..])[x] else 0
        {
          if p(x) {
            assert x != a;
          }
        }
        FilterUnique(r, s[1..], p);
      }
    }
  }

  /** Filtering by a property no element has leaves nothing. */
  lemma FilterKeepsNone<T(!new)>(s: seq<T>, p: T -> bool)
    requires forall x :: x in s ==> !p(x)
    ensures Filter(s, p) == []
  {
    if Filter(s, p) != [] {
      assert Filter(s, p)[0] in Filter(s, p);
    }
  }

  /** Filtering distributes over concatenation: the kept elements of s come before those of t. */
  lemma {:induction false} FilterConcat<T(!new)>(s: seq<T>, t: seq<T>, p: T -> bool)
    ensures Filter(s + t, p) == Filter(s, p) + Filter(t, p)
    decreases |s|
  {
    if s != [] {
      assert (s + t)[1..] == s[1..] + t;
      FilterConcat(s[1..], t, p);
    } else {
      assert s + t == t;
    }
  }

  /** Filtering by a property and by its negation splits the sequence. */
  lemma {:induction false} FilterSplits<T(!new)>(s: seq<T>, p: T -> bool, q: T -> bool)
    requires forall x :: q(x) == !p(x)
    ensures |Filter(s, p)| + |Filter(s, q)| == |s|
    decreases |s|
  {
    if s != [] {
      FilterSplits(s[1..], p, q);
    }
  }

  /** Filtering by a property every element has keeps the sequence. */
  lemma {:induction false} FilterKeepsAll<T(!new)>(s: seq<T>, p: T -> bool)
    requires forall x :: x in s ==> p(x)
    ensures Filter(s, p) == s
    decreases |s|
  {
    if s != [] {
      assert forall x :: x in s[1..] ==> x in s;
      FilterKeepsAll(s[1..], p);
      assert s == [s[0]] + s[1..];
    }
  }

  predicate IsConverted(v: VideoData) { v.converted }

  predicate Available(v: VideoData) { !v.converted }

  /** `removeVideo`: every entry with that id is dropped; the others stay, in order. */
  function RemoveVideo(videos: seq<VideoData>, id: string): (r: seq<VideoData>)
    ensures forall v :: v in r <==> v in videos && v.id != id
    ensures Subsequence(r, videos)
    ensures forall v :: multiset(r)[v] == if v.id != id then multiset(videos)[v] else 0
  {
    FilterMeaning(videos, (v: VideoData) => v.id != id);
    Filter(videos, (v: VideoData) => v.id != id)
  }

  lemma RemoveAbsentId(videos: seq<VideoData>, id: string)
    requires forall i :: 0 <= i < |videos| ==> videos[i].id != id
    ensures RemoveVideo(videos, id) == videos
  {
    FilterKeepsAll(videos, (v: VideoData) => v.id != id);
  }

  function Toggled(v: VideoData, id: string): VideoData {
    if v.id == id && !v.converted then v.(selected := !v.selected) else v
  }

  /**
   * `toggleVideoSelection`: only `selected` can change, and it changes exactly
   * for the entries with that id that are not converted.
   */
  function ToggleVideoSelection(videos: seq<VideoData>, id: string): (r: seq<VideoData>)
    ensures |r| == |videos|
    ensures forall i :: 0 <= i < |r| ==> r[i] == videos[i].(selected := r[i].selected)
    ensures forall i :: 0 <= i < |r| ==> (r[i].selected != videos[i].selected <==> videos[i].id == id && !videos[i].converted)
  {
    seq(|videos|, i requires 0 <= i < |videos| => Toggled(videos[i], id))
  }

  /** Toggling twice restores the list. */
  lemma ToggleTwice(videos: seq<VideoData>, id: string)
    ensures ToggleVideoSelection(ToggleVideoSelection(videos, id), id) == videos
  {
  }

  /** There is a video not yet converted and every such video is selected. */
  predicate AllAvailableSelected(videos: seq<VideoData>) {
    (exists i :: 0 <= i < |videos| && Available(videos[i]))
    && forall i :: 0 <= i < |videos| && Available(videos[i]) ==> videos[i].selected
  }

  /**
   * `selectAllVideos`: converted entries are left alone; every other entry is
   * deselected when all of them were selected, and selected otherwise.
   */
  function SelectAllVideos(videos: seq<VideoData>): (r: seq<VideoData>)
    ensures |r| == |videos|
    ensures forall i :: 0 <= i < |r| ==> r[i] == videos[i].(selected := r[i].selected)
    ensures forall i :: 0 <= i < |r| && videos[i].converted ==> r[i] == videos[i]
    ensures forall i :: 0 <= i < |r| && !videos[i].converted ==> r[i].selected == !AllAvailableSelected(videos)
  {
    var target := !AllAvailableSelected(videos);
    seq(|videos|, i requires 0 <= i < |videos| => if Available(videos[i]) then videos[i].(selected := target) else videos[i])
  }

  /** With any video available, select-all flips between "all selected" and "none selected". */
  lemma SelectAllFlips(videos: seq<VideoData>)
    requires exists i :: 0 <= i < |videos| && Available(videos[i])
    ensures AllAvailableSelected(SelectAllVideos(videos)) == !AllAvailableSelected(videos)
  {
    var r := SelectAllVideos(videos);
    var i :| 0 <= i < |videos| && Available(videos[i]);
    assert Available(r[i]);
  }

  /** With every video converted, select-all changes nothing. */
  lemma SelectAllWithNothingAvailable(videos: seq<VideoData>)
    requires forall i :: 0 <= i < |videos| ==> videos[i].converted
    ensures SelectAllVideos(videos) == videos
  {
  }

  const NothingConvertedMessage := "Nenhum vídeo convertido para remover"

  /** What `clearConvertedVideos` leaves and how many entries it reports removed. */
  datatype Cleared = Cleared(remaining: seq<VideoData>, removed: nat)

  /**
   * `clearConvertedVideos`: an error when nothing is converted; otherwise the
   * list keeps exactly its unconverted entries and the count of converted ones
   * is reported.
   */
  function ClearConvertedVideos(videos: seq<VideoData>): (r: Result<Cleared>)
    ensures r.Failure? <==> forall i :: 0 <= i < |videos| ==> !videos[i].converted
    ensures r.Failure? ==> r.error == NothingConvertedMessage
    ensures r.Success? ==> && r.value.removed > 0
                           && r.value.removed + |r.value.remaining| == |videos|
                           && (forall v :: v in r.value.remaining <==> v in videos && !v.converted)
                           && Subsequence(r.value.remaining, videos)
                           && forall v :: multiset(r.value.remaining)[v] == if v.converted then 0 else multiset(videos)[v]
  {
    var converted := Filter(videos, IsConverted);
    FilterSplits(videos, IsConverted, Available);
    FilterMeaning(videos, Available);
    if |converted| == 0 then
      assert forall i :: 0 <= i < |videos| ==> !videos[i].converted by {
        forall i | 0 <= i < |videos| ensures !videos[i].converted {
          assert videos[i] in videos;
        }
      }
      Failure(NothingConvertedMessage)
    else
      assert converted[0] in videos;
      Success(Cleared(Filter(videos, Available), |converted|))
  }

  const NothingSelectedMessage := "Nenhum vídeo selecionado ou todos já foram convertidos"

  /** A video the batch conversion takes: selected, not converting, not converted. */
  predicate ReadyToConvert(v: VideoData) {
    v.selected && !v.converting && !v.converted
  }

  /** The batch `convertSelectedVideos` works through, or its error when there is none. */
  function SelectedForConversion(videos: seq<VideoData>): (r: Result<seq<VideoData>>)
    ensures r.Failure? <==> forall i :: 0 <= i < |videos| ==> !ReadyToConvert(videos[i])
    ensures r.Failure? ==> r.error == NothingSelectedMessage
    ensures r.Success? ==> |r.value| > 0 && forall v :: v in r.value <==> v in videos && ReadyToConvert(v)
    ensures r.Success? ==> Subsequence(r.value, videos)
    ensures r.Success? ==> forall v :: multiset(r.value)[v] == if ReadyToConvert(v) then multiset(videos)[v] else 0
  {
    var batch := Filter(videos, ReadyToConvert);
    FilterMeaning(videos, ReadyToConvert);
    if |batch| == 0 then
      assert forall i :: 0 <= i < |videos| ==> !ReadyToConvert(videos[i]) by {
        forall i | 0 <= i < |videos| ensures !ReadyToConvert(videos[i]) {
          assert videos[i] in videos;
        }
      }
      Failure(NothingSelectedMessage)
    else
      assert batch[0] in videos;
      Success(batch)
  }

  // ------------------------------------------------------------ adding files

  /** A file offered by a drop or by the file picker; an absent MIME type is the empty string. */
  datatype FileInfo = FileInfo(name: string, mimeType: string)

  /** `handleDrop` or `handleSelectFiles`. */
  datatype Source = Dropped | Picked

  predicate IsVideo(f: FileInfo) {
    IsValidVideoFile(f.name, f.mimeType)
  }

  const MaxVideos := 500
  const LimitMessage := "Já atingiu o limite de 500 vídeos."
  const PickedNotVideoMessage := "Por favor, selecione apenas arquivos de vídeo."
  const DroppedNotVideoMessage := "Por favor, arraste apenas arquivos de vídeo. Arquivos detectados: "

  /** One dropped file as the error lists it: its name and, in parentheses, its MIME type or 'sem MIME type'. */
  function Describe(f: FileInfo): string {
    f.name + " (" + (if f.mimeType == "" then "sem MIME type" else f.mimeType) + ")"
  }

  /** The descriptions joined by ", ". */
  function DescribeAll(files: seq<FileInfo>): string
    decreases |files|
  {
    if files == [] then ""
    else if |files| == 1 then Describe(files[0])
    else Describe(files[0]) + ", " + DescribeAll(files[1..])
  }

  /** The error for a selection without videos. */
  function NotVideoMessage(source: Source, files: seq<FileInfo>): string {
    match source
    case Dropped => DroppedNotVideoMessage + DescribeAll(files)
    case Picked => PickedNotVideoMessage
  }

  /** A list entry for an accepted file: not converting, not converted, not selected, no progress yet. */
  function NewVideo(f: FileInfo, id: string): VideoData {
    VideoData(id, f.name, GetFileExtension(f.name), false, false, false, None)
  }

  /** One new entry per file, in order. */
  function NewVideos(files: seq<FileInfo>, freshId: nat -> string): (r: seq<VideoData>)
    ensures |r| == |files|
    ensures forall i :: 0 <= i < |r| ==>
      && r[i].id == freshId(i) && r[i].name == files[i].name && r[i].extension == GetFileExtension(files[i].name)
      && !r[i].converting && !r[i].converted && !r[i].selected && r[i].progress.None?
  {
    seq(|files|, i requires 0 <= i < |files| => NewVideo(files[i], freshId(i)))
  }

  /**
   * `handleDrop` / `handleSelectFiles` followed by `processFiles`: the video
   * files are kept; none is an error, more than 500 entries in all is an
   * error, and otherwise one new entry per video file, with the id `freshId`
   * gives its position, is appended.
   */
  function AddFiles(videos: seq<VideoData>, files: seq<FileInfo>, source: Source, freshId: nat -> string): (r: Result<seq<VideoData>>)
    ensures var valid := Filter(files, IsVideo);
      && (r.Success? <==> |valid| > 0 && |videos| + |valid| <= MaxVideos)
      && (r.Success? ==> |r.value| == |videos| + |valid| <= MaxVideos && r.value[..|videos|] == videos)
      && (r.Success? ==> r.value[|videos|..] == NewVideos(valid, freshId))
  {
    var valid := Filter(files, IsVideo);
    if |valid| == 0 then Failure(NotVideoMessage(source, files))
    else if |videos| + |valid| > MaxVideos then Failure(LimitMessage)
    else
      var added := NewVideos(valid, freshId);
      assert (videos + added)[..|videos|] == videos;
      assert (videos + added)[|videos|..] == added;
      Success(videos + added)
  }

  /** The two errors: no video file at all, or more than 500 entries in all; the list is then left as it was. */
  lemma AddFilesErrors(videos: seq<VideoData>, files: seq<FileInfo>, source: Source, freshId: nat -> string)
    ensures var valid := Filter(files, IsVideo); var r := AddFiles(videos, files, source, freshId);
      && (|valid| == 0 ==> r == Failure(NotVideoMessage(source, files)))
      && (|valid| > 0 && |videos| + |valid| > MaxVideos ==> r == Failure(LimitMessage))
  {
  }

  /**
   * An added entry is a video file offered, starts idle, and carries the
   * file's extension; the k-th added entry is the k-th video file's, with
   * the k-th fresh id.
   */
  lemma AddedEntries(videos: seq<VideoData>, files: seq<FileInfo>, source: Source, freshId: nat -> string, i: nat)
    requires var r := AddFiles(videos, files, source, freshId); r.Success? && |videos| <= i < |r.value|
    ensures var v := AddFiles(videos, files, source, freshId).value[i];
      && (exists f :: f in files && IsVideo(f) && v.name == f.name && v.extension == GetFileExtension(f.name))
      && !v.converting && !v.converted && !v.selected && v.progress.None?
    ensures var v := AddFiles(videos, files, source, freshId).value[i]; var k := i - |videos|;
      var f := Filter(files, IsVideo)[k];
      v.id == freshId(k) && v.name == f.name && v.extension == GetFileExtension(f.name)
  {
    var valid := Filter(files, IsVideo);
    var added := NewVideos(valid, freshId);
    var f := valid[i - |videos|];
    assert f in valid;
    var v := AddFiles(videos, files, source, freshId).value[i];
    assert v == added[i - |videos|] by {
      assert AddFiles(videos, files, source, freshId).value == videos + added;
    }
    assert v == NewVideo(f, freshId(i - |videos|));
    assert f in files && IsVideo(f) && v.name == f.name && v.extension == GetFileExtension(f.name);
  }

  lemma {:induction false} ContainsAfter(p: string, s: string, t: string)
    requires Contains(s, t)
    ensures Contains(p + s, t)
    decreases |p|
  {
    if p != [] {
      assert (p + s)[1..] == p[1..] + s;
      ContainsAfter(p[1..], s, t);
    } else {
      assert p + s == s;
    }
  }

  /** The error for a drop without videos names every file dropped. */
  lemma {:induction false} DropErrorNamesEveryFile(files: seq<FileInfo>, i: nat)
    requires i < |files|
    ensures Contains(DescribeAll(files), files[i].name)
    decreases |files|
  {
    var f := files[0];
    var mime := if f.mimeType == "" then "sem MIME type" else f.mimeType;
    if i == 0 {
      if |files| == 1 {
        ContainsPrefix(f.name, " (" + mime + ")");
        assert Describe(f) == f.name + (" (" + mime + ")");
      } else {
        ContainsPrefix(f.name, " (" + mime + ")" + ", " + DescribeAll(files[1..]));
        assert DescribeAll(files) == f.name + (" (" + mime + ")" + ", " + DescribeAll(files[1..]));
      }
    } else {
      DropErrorNamesEveryFile(files[1..], i - 1);
      ContainsAfter(Describe(f) + ", ", DescribeAll(files[1..]), files[i].name);
    }
  }

  // ------------------------------------------------------------ progress synchronisation

  /** `conversionVideoMap` in insertion order: (conversion id, video id) pairs. */
  type Links = seq<(string, string)>

  /** The conversion id of the first pair naming the video. */
  function FirstConversionFor(links: Links, videoId: string): (r: Option<string>)
    ensures r.None? <==> forall i :: 0 <= i < |links| ==> links[i].1 != videoId
    ensures r.Some? ==> exists i :: 0 <= i < |links| && links[i] == (r.value, videoId)
                                      && forall j :: 0 <= j < i ==> links[j].1 != videoId
    decreases |links|
  {
    if links == [] then None
    else if links[0].1 == videoId then Some(links[0].0)
    else
      var r := FirstConversionFor(links[1..], videoId);
      if r.Some? then
        var i :| 0 <= i < |links[1..]| && links[1..][i] == (r.value, videoId)
                 && forall j :: 0 <= j < i ==> links[1..][j].1 != videoId;
        assert links[i + 1] == (r.value, videoId);
        r
      else r
  }

  /** The inner loop of the synchronisation effect: scan the pairs and stop at the first that names the video. */
  method FindConversionId(links: Links, videoId: string) returns (conversionId: Option<string>)
    ensures conversionId == FirstConversionFor(links, videoId)
  {
    conversionId := None;
    var k := 0;
    while k < |links|
      invariant 0 <= k <= |links|
      invariant FirstConversionFor(links, videoId) == FirstConversionFor(links[k..], videoId)
    {
      if links[k].1 == videoId {
        conversionId := Some(links[k].0);
        break;
      }
      assert links[k..][1..] == links[k + 1..];
      k := k + 1;
    }
  }

  /**
   * One entry of the effect: a converting video with a (non-empty) conversion
   * id takes the record's progress, and stops converting once the status is
   * 'concluído' or 'erro', unless the record is the untouched default.
   */
  function SyncVideo(video: VideoData, conversionId: Option<string>, progressMap: map<string, Record>): (r: VideoData)
    ensures r == video.(progress := r.progress, converting := r.converting)
    ensures r.converting ==> video.converting
    ensures !video.converting || conversionId.None? ==> r == video
  {
    if conversionId.Some? && conversionId.value != "" && video.converting then
      var data := Lookup(progressMap, conversionId.value);
      if data.progress > 0 || data.status != "não encontrado" then
        video.(progress := Some(data.progress), converting := data.status != "concluído" && data.status != "erro")
      else video
    else video
  }

  /** The effect that copies the context's progress into the list. */
  method SyncVideos(videos: seq<VideoData>, links: Links, progressMap: map<string, Record>) returns (r: seq<VideoData>)
    ensures |r| == |videos|
    ensures forall i :: 0 <= i < |videos| ==> r[i] == SyncVideo(videos[i], FirstConversionFor(links, videos[i].id), progressMap)
  {
    r := [];
    var i := 0;
    while i < |videos|
      invariant 0 <= i <= |videos| && |r| == i
      invariant forall j :: 0 <= j < i ==> r[j] == SyncVideo(videos[j], FirstConversionFor(links, videos[j].id), progressMap)
    {
      var conversionId := FindConversionId(links, videos[i].id);
      r := r + [SyncVideo(videos[i], conversionId, progressMap)];
      i := i + 1;
    }
  }

  /**
   * Synchronisation only touches progress and the converting flag, never
   * starts a conversion, and applying it twice is applying it once.
   */
  lemma SyncOnlyAdvances(video: VideoData, conversionId: Option<string>, progressMap: map<string, Record>)
    ensures var v := SyncVideo(video, conversionId, progressMap);
      && v == video.(progress := v.progress, converting := v.converting)
      && (v.converting ==> video.converting)
      && SyncVideo(v, conversionId, progressMap) == v
  {
  }

  /** A converting video whose record reads 'concluído' or 'erro' stops converting and shows the record's progress. */
  lemma SyncStopsWhenFinished(video: VideoData, conversionId: string, progressMap: map<string, Record>)
    requires video.converting && conversionId != "" && conversionId in progressMap
    requires progressMap[conversionId].status in {"concluído", "erro"}
    ensures var v := SyncVideo(video, Some(conversionId), progressMap);
      !v.converting && v.progress == Some(progressMap[conversionId].progress)
  {
  }

  /**
   * A converting video whose record is shown (a positive progress or a
   * status other than 'não encontrado') and still running takes the record's
   * progress and goes on converting.
   */
  lemma SyncTracksRunning(video: VideoData, conversionId: string, progressMap: map<string, Record>)
    requires video.converting && conversionId != ""
    requires var d := Lookup(progressMap, conversionId);
      (d.progress > 0 || d.status != "não encontrado") && d.status != "concluído" && d.status != "erro"
    ensures SyncVideo(video, Some(conversionId), progressMap)
      == video.(progress := Some(Lookup(progressMap, conversionId).progress))
  {
  }

  /**
   * An empty conversion id, or a record that is not shown (such as the
   * default `{ 0, 'não encontrado' }` of an id with no entry), leaves the
   * video as it is.
   */
  lemma SyncIgnoresDefault(video: VideoData, conversionId: string, progressMap: map<string, Record>)
    requires var d := Lookup(progressMap, conversionId);
      conversionId == "" || (d.progress <= 0 && d.status == "não encontrado")
    ensures SyncVideo(video, Some(conversionId), progressMap) == video
  {
  }

  /** A video no pair names, or one that is not converting, is left as it is. */
  lemma SyncLeavesOthers(video: VideoData, links: Links, progressMap: map<string, Record>)
    requires !video.converting || forall i :: 0 <= i < |links| ==> links[i].1 != video.id
    ensures SyncVideo(video, FirstConversionFor(links, video.id), progressMap) == video
  {
  }
}
