/**
 * String helpers shared by the model: the JavaScript string operations the
 * source relies on (startsWith, endsWith, includes, split(c).pop(),
 * toLowerCase/toUpperCase on ASCII letters, number-to-decimal and
 * padStart(2, '0')), with the lemmas the other modules need about them.
 */
module Text {

  predicate StartsWith(s: string, prefix: string) {
    |prefix| <= |s| && s[..|prefix|] == prefix
  }

  predicate EndsWith(s: string, suffix: string) {
    |suffix| <= |s| && s[|s| - |suffix|..] == suffix
  }

  /** `s.includes(t)`: t occurs somewhere in s. */
  predicate Contains(s: string, t: string)
    decreases |s|
  {
    StartsWith(s, t) || (|s| > 0 && Contains(s[1..], t))
  }

  lemma {:induction false} ContainsWitness(s: string, t: string, i: nat)
    requires i + |t| <= |s| && s[i..i + |t|] == t
    ensures Contains(s, t)
    decreases i
  {
    if i > 0 {
      assert s[1..][i - 1..i - 1 + |t|] == s[i..i + |t|];
      ContainsWitness(s[1..], t, i - 1);
    }
  }

  /** Whatever surrounds it, a string contains each of its parts. */
  lemma ContainsMiddle(a: string, t: string, b: string)
    ensures Contains(a + t + b, t)
  {
    var s := a + t + b;
    assert s[|a|..|a| + |t|] == t;
    ContainsWitness(s, t, |a|);
  }

  lemma ContainsPrefix(t: string, b: string)
    ensures Contains(t + b, t)
  {
    ContainsMiddle([], t, b);
    assert [] + t + b == t + b;
  }

  /** An occurrence of t in s has a position. */
  lemma {:induction false} ContainsHasWitness(s: string, t: string) returns (i: nat)
    requires Contains(s, t)
    ensures i + |t| <= |s| && s[i..i + |t|] == t
    decreases |s|
  {
    if StartsWith(s, t) {
      i := 0;
    } else {
      var j := ContainsHasWitness(s[1..], t);
      assert s[1..][j..j + |t|] == s[j + 1..j + 1 + |t|];
      i := j + 1;
    }
  }

  /** A string cannot contain a pattern one of whose characters it lacks. */
  lemma AbsentChar(s: string, t: string, j: nat)
    ensures j < |t| && t[j] !in s ==> !Contains(s, t)
  {
    if Contains(s, t) && j < |t| {
      var i := ContainsHasWitness(s, t);
      assert s[i..i + |t|][j] == t[j];
    }
  }

  /** `s.split(c).pop()`: the text after the last c, or all of s when c does not occur. */
  function AfterLast(s: string, c: char): string
    decreases |s|
  {
    if s == [] then []
    else if s[|s| - 1] == c then []
    else AfterLast(s[..|s| - 1], c) + [s[|s| - 1]]
  }

  /** AfterLast yields the suffix of s that follows its last c: c-free, and preceded by c unless it is all of s. */
  lemma {:induction false} AfterLastIsLastSegment(s: string, c: char)
    ensures var r := AfterLast(s, c);
      && |r| <= |s| && s[|s| - |r|..] == r && c !in r
      && (|r| < |s| ==> s[|s| - |r| - 1] == c)
    decreases |s|
  {
    if s != [] && s[|s| - 1] != c {
      var init := s[..|s| - 1];
      AfterLastIsLastSegment(init, c);
      var r0 := AfterLast(init, c);
      assert s[|s| - |r0| - 1..] == init[|init| - |r0|..] + [s[|s| - 1]];
    }
  }

  /** The segment after a separator that is followed by no other separator is that final segment. */
  lemma {:induction false} AfterLastOfSuffix(b: string, c: char, e: string)
    requires c !in e
    ensures AfterLast(b + [c] + e, c) == e
    decreases |e|
  {
    var s := b + [c] + e;
    if e == [] {
      assert s[|s| - 1] == c;
    } else {
      var e0 := e[..|e| - 1];
      assert s[..|s| - 1] == b + [c] + e0;
      assert forall ch :: ch in e0 ==> ch in e;
      AfterLastOfSuffix(b, c, e0);
      assert e == e0 + [e[|e| - 1]];
    }
  }

  lemma {:induction false} AfterLastWithout(s: string, c: char)
    requires c !in s
    ensures AfterLast(s, c) == s
    decreases |s|
  {
    if s != [] {
      assert forall ch :: ch in s[..|s| - 1] ==> ch in s;
      AfterLastWithout(s[..|s| - 1], c);
      assert s == s[..|s| - 1] + [s[|s| - 1]];
    }
  }

  // ASCII case mapping (JavaScript's toLowerCase/toUpperCase restricted to 'A'..'Z' / 'a'..'z').

  function Lower(ch: char): char {
    if 'A' <= ch <= 'Z' then (ch as int + 32) as char else ch
  }

  function Upper(ch: char): char {
    if 'a' <= ch <= 'z' then (ch as int - 32) as char else ch
  }

  function LowerAll(s: string): string {
    seq(|s|, i requires 0 <= i < |s| => Lower(s[i]))
  }

  function UpperAll(s: string): string {
    seq(|s|, i requires 0 <= i < |s| => Upper(s[i]))
  }

  /** Case-folding a string does not move its characters, so the text after the last '.' is folded in place. */
  lemma {:induction false} AfterLastCommutesWithCase(s: string)
    ensures AfterLast(UpperAll(s), '.') == UpperAll(AfterLast(s, '.'))
    ensures AfterLast(LowerAll(s), '.') == LowerAll(AfterLast(s, '.'))
    decreases |s|
  {
    if s != [] {
      var init := s[..|s| - 1];
      assert UpperAll(s)[..|s| - 1] == UpperAll(init);
      assert LowerAll(s)[..|s| - 1] == LowerAll(init);
      AfterLastCommutesWithCase(init);
    }
  }

  // Decimal numerals.

  function DigitChar(d: nat): char
    requires d < 10
  {
    ('0' as int + d) as char
  }

  function DigitValue(ch: char): nat {
    if '0' <= ch <= '9' then ch as int - '0' as int else 0
  }

  predicate IsDigits(s: string) {
    forall i :: 0 <= i < |s| ==> '0' <= s[i] <= '9'
  }

  /** `n.toString()` for a non-negative integer. */
  function NatToString(n: nat): string
    decreases n
  {
    if n < 10 then [DigitChar(n)] else NatToString(n / 10) + [DigitChar(n % 10)]
  }

  /** Reads a decimal numeral back (leading zeros allowed). */
  function ParseNat(s: string): nat
    decreases |s|
  {
    if s == [] then 0 else ParseNat(s[..|s| - 1]) * 10 + DigitValue(s[|s| - 1])
  }

  /** NatToString writes a non-empty digit string that ParseNat reads back as n. */
  lemma {:induction false} NatToStringRoundTrip(n: nat)
    ensures var s := NatToString(n); |s| > 0 && IsDigits(s) && ParseNat(s) == n
    decreases n
  {
    if n >= 10 {
      NatToStringRoundTrip(n / 10);
      var s := NatToString(n);
      assert s[..|s| - 1] == NatToString(n / 10);
    }
  }

  /** `n.toString().padStart(2, '0')`. */
  function Pad2(n: nat): string {
    if n < 10 then "0" + NatToString(n) else NatToString(n)
  }

  lemma {:induction false} ParseLeadingZero(t: string)
    ensures ParseNat("0" + t) == ParseNat(t)
    decreases |t|
  {
    if t != [] {
      var s := "0" + t;
      assert s[..|s| - 1] == "0" + t[..|t| - 1];
      ParseLeadingZero(t[..|t| - 1]);
    }
  }

  /** Padding keeps the value: ParseNat reads n back, and below 100 the numeral has exactly two digits. */
  lemma Pad2RoundTrip(n: nat)
    ensures var s := Pad2(n); |s| > 0 && IsDigits(s) && ParseNat(s) == n
    ensures n < 100 ==> |Pad2(n)| == 2
  {
    NatToStringRoundTrip(n);
    if n < 10 {
      ParseLeadingZero(NatToString(n));
    } else if n < 100 {
      NatToStringRoundTrip(n / 10);
    }
  }

  // Splitting on and joining with one separator character.

  function Join(parts: seq<string>, sep: char): string
    requires |parts| > 0
    decreases |parts|
  {
    if |parts| == 1 then parts[0] else parts[0] + [sep] + Join(parts[1..], sep)
  }

  /** `s.split(sep)`: never empty; the empty string splits into one empty part. */
  function Split(s: string, sep: char): (r: seq<string>)
    ensures |r| > 0
    decreases |s|
  {
    if s == [] then [""]
    else
      var rest := Split(s[1..], sep);
      if s[0] == sep then [""] + rest else [[s[0]] + rest[0]] + rest[1..]
  }

  lemma {:induction false} SplitConsPart(p: string, tail: string, sep: char)
    requires sep !in p
    ensures Split(p + tail, sep) == [p + Split(tail, sep)[0]] + Split(tail, sep)[1..]
    decreases |p|
  {
    if p != [] {
      assert (p + tail)[1..] == p[1..] + tail;
      assert forall ch :: ch in p[1..] ==> ch in p;
      SplitConsPart(p[1..], tail, sep);
      assert [p[0]] + (p[1..] + Split(tail, sep)[0]) == p + Split(tail, sep)[0];
    } else {
      var r := Split(tail, sep);
      assert p + tail == tail;
      assert p + r[0] == r[0];
      assert r == [r[0]] + r[1..];
    }
  }

  /** Splitting undoes joining when no part holds the separator. */
  lemma {:induction false} SplitJoin(parts: seq<string>, sep: char)
    requires |parts| > 0
    requires forall i :: 0 <= i < |parts| ==> sep !in parts[i]
    ensures Split(Join(parts, sep), sep) == parts
    decreases |parts|
  {
    if |parts| == 1 {
      SplitConsPart(parts[0], "", sep);
      assert parts[0] + "" == parts[0];
    } else {
      var rest := Join(parts[1..], sep);
      SplitJoin(parts[1..], sep);
      assert parts[0] + [sep] + rest == parts[0] + ([sep] + rest);
      SplitConsPart(parts[0], [sep] + rest, sep);
      assert ([sep] + rest)[1..] == rest;
      assert Split([sep] + rest, sep) == [""] + Split(rest, sep);
      assert parts[0] + "" == parts[0];
      assert parts == [parts[0]] + parts[1..];
    }
  }

  /** Joining one more part appends the separator and that part. */
  lemma {:induction false} JoinSnoc(parts: seq<string>, q: string, sep: char)
    requires |parts| > 0
    ensures Join(parts + [q], sep) == Join(parts, sep) + [sep] + q
    decreases |parts|
  {
    if |parts| > 1 {
      assert (parts + [q])[1..] == parts[1..] + [q];
      JoinSnoc(parts[1..], q, sep);
    }
  }

  /** A join of non-empty parts begins with the first part's first character and ends with the last part's last. */
  lemma {:induction false} JoinEnds(parts: seq<string>, sep: char)
    requires |parts| > 0 && forall i :: 0 <= i < |parts| ==> |parts[i]| > 0
    ensures var j := Join(parts, sep); |j| > 0 && j[0] == parts[0][0] && j[|j| - 1] == parts[|parts| - 1][|parts[|parts| - 1]| - 1]
    decreases |parts|
  {
    if |parts| > 1 {
      JoinEnds(parts[1..], sep);
    }
  }

  // JavaScript's trim, for strings whose only white space is ' '.

  function TrimEnd(s: string): string
    decreases |s|
  {
    if s != [] && s[|s| - 1] == ' ' then TrimEnd(s[..|s| - 1]) else s
  }

  function TrimStart(s: string): string
    decreases |s|
  {
    if s != [] && s[0] == ' ' then TrimStart(s[1..]) else s
  }

  /** `s.trim()`. */
  function Trim(s: string): string {
    TrimStart(TrimEnd(s))
  }

  /** Trimming leaves a string that neither begins nor ends with a space unchanged, and drops one trailing space. */
  lemma TrimBorders(x: string)
    requires |x| > 0 && x[0] != ' ' && x[|x| - 1] != ' '
    ensures Trim(x) == x
    ensures Trim(x + " ") == x
  {
    assert (x + " ")[..|x + " "| - 1] == x;
  }
}
