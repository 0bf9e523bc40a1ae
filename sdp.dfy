/** The lenient SDP reader of src/helper.ts (`parseSdp`): `<type>=<value>` lines as in
    section 5 of RFC 4566, separated by CRLF; the types `a`, `p` and `b` collect every
    value in a list, every other type keeps the last value seen. */
module Sdp {
  import opened Wrappers
  import opened Strings

  /** A value is None where the regular expression's capture group matched nothing
      (JavaScript `undefined`), as for the line `i=`. */
  datatype SdpEntry = Single(value: Option<string>) | Multi(values: seq<Option<string>>)

  type SdpMap = map<string, SdpEntry>

  predicate IsMultiKey(k: string) {
    k == "a" || k == "p" || k == "b"
  }

  /** The characters that `.` in a JavaScript regular expression does not match. */
  predicate IsLineTerminator(c: char) {
    c == '\n' || c == '\r' || c == '\U{2028}' || c == '\U{2029}'
  }

  /** The length of the longest prefix of `s` without a line terminator: what `(.+)` captures. */
  function RunLength(s: string): (n: nat)
    ensures n <= |s|
    ensures forall i :: 0 <= i < n ==> !IsLineTerminator(s[i])
    ensures n < |s| ==> IsLineTerminator(s[n])
  {
    if |s| == 0 || IsLineTerminator(s[0]) then 0 else 1 + RunLength(s[1..])
  }

  /** `line.split(/=(.+)?/)` when it has exactly three pieces: the text before the first `=`
      and the capture after it. Every further `=` after the capture starts another match,
      which makes more than three pieces, and such a line is skipped like a line without `=`. */
  function SplitLine(line: string): Option<(string, Option<string>)> {
    var k := IndexOf(line, "=");
    if k == -1 then None
    else
      var rest := line[k + 1..];
      var n := RunLength(rest);
      if Contains(rest[n..], "=") then None
      else Some((line[..k], if n == 0 then None else Some(rest[..n])))
  }

  /** For a line without line terminators (every line of a well-formed SDP body): an entry
      exists exactly when the line holds `=`; the key is the text before the first `=` and
      the value all the text after it, None when that is empty. */
  lemma SplitLineSimple(line: string)
    requires forall i :: 0 <= i < |line| ==> !IsLineTerminator(line[i])
    ensures SplitLine(line).Some? <==> Contains(line, "=")
    ensures SplitLine(line).Some? ==>
      var k := IndexOf(line, "=");
      SplitLine(line).value == (line[..k], if k + 1 == |line| then None else Some(line[k + 1..]))
  {
    var k := IndexOf(line, "=");
    if k != -1 {
      var rest := line[k + 1..];
      assert RunLength(rest) == |rest|;
      assert rest[|rest|..] == [];
      assert !Contains(rest[|rest|..], "=");
      assert rest[..|rest|] == rest;
    }
  }

  /** The values collected so far under a list key (`output[k]`, or a fresh list). */
  function Collected(m: SdpMap, k: string): seq<Option<string>> {
    if k in m && m[k].Multi? then m[k].values else []
  }

  /** One iteration of the parse loop. */
  function Step(m: SdpMap, line: string): SdpMap {
    match SplitLine(line)
    case None => m
    case Some((k, v)) =>
      if IsMultiKey(k) then m[k := Multi(Collected(m, k) + [v])] else m[k := Single(v)]
  }

  /** The dictionary built from `lines`, in order. */
  function Fold(lines: seq<string>): SdpMap
    decreases |lines|
  {
    if |lines| == 0 then map[] else Step(Fold(lines[..|lines| - 1]), lines[|lines| - 1])
  }

  /** Folding one more line is one more step. */
  lemma FoldSnoc(lines: seq<string>, i: nat)
    requires i < |lines|
    ensures Fold(lines[..i + 1]) == Step(Fold(lines[..i]), lines[i])
  {
    assert lines[..i + 1][..i] == lines[..i];
  }

  /** The values of the lines keyed `k`, one per such line, in input order. */
  function ValuesFor(lines: seq<string>, k: string): seq<Option<string>>
    decreases |lines|
  {
    if |lines| == 0 then []
    else
      var earlier := ValuesFor(lines[..|lines| - 1], k);
      match SplitLine(lines[|lines| - 1])
      case Some((k', v)) => if k' == k then earlier + [v] else earlier
      case None => earlier
  }

  /** The grouping rule: a key is present exactly when some line carries it; a list key
      holds every such value in input order, any other key the last one. */
  lemma {:induction false} FoldGroups(lines: seq<string>, k: string)
    ensures k in Fold(lines) <==> |ValuesFor(lines, k)| > 0
    ensures k in Fold(lines) && IsMultiKey(k) ==> Fold(lines)[k] == Multi(ValuesFor(lines, k))
    ensures k in Fold(lines) && !IsMultiKey(k) ==>
      Fold(lines)[k] == Single(ValuesFor(lines, k)[|ValuesFor(lines, k)| - 1])
    decreases |lines|
  {
    if |lines| > 0 {
      FoldGroups(lines[..|lines| - 1], k);
    }
  }

  /** A list key holds a list and any other key a single value. */
  predicate Shaped(m: SdpMap) {
    forall k :: k in m ==> (m[k].Multi? <==> IsMultiKey(k))
  }

  /** Every dictionary the parse builds is shaped. */
  lemma {:induction false} FoldShaped(lines: seq<string>)
    ensures Shaped(Fold(lines))
    decreases |lines|
  {
    if |lines| > 0 {
      FoldShaped(lines[..|lines| - 1]);
    }
  }

  /** The body of parseSdp's loop: one line into the dictionary, which stays shaped. */
  method AddLine(output: SdpMap, line: string) returns (output': SdpMap)
    requires Shaped(output)
    ensures output' == Step(output, line)
    ensures Shaped(output')
  {
    output' := output;
    var sp := SplitLine(line);
    if sp.Some? {
      var (k, v) := sp.value;
      if IsMultiKey(k) {
        if k !in output' {
          output' := output'[k := Multi([])];
        }
        output' := output'[k := Multi(output'[k].values + [v])];
      } else {
        output' := output'[k := Single(v)];
      }
    }
  }

  /** parseSdp's loop: every line folded into the dictionary, in order. */
  method AddLines(lines: seq<string>) returns (output: SdpMap)
    ensures output == Fold(lines)
  {
    output := map[];
    var i := 0;
    while i < |lines|
      invariant 0 <= i <= |lines|
      invariant output == Fold(lines[..i])
    {
      FoldSnoc(lines, i);
      FoldShaped(lines[..i]);
      output := AddLine(output, lines[i]);
      i := i + 1;
    }
    assert lines[..|lines|] == lines;
  }

  /** parseSdp: split the message on CRLF and fold every line into the dictionary. */
  method ParseSdp(msg: string) returns (output: SdpMap)
    ensures output == Fold(Split(msg, "\r\n"))
  {
    var lines := Split(msg, "\r\n");
    output := AddLines(lines);
  }
}
