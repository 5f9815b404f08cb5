/**
 The `concise` trimming `relex` applies to RelEx's output: keep the text
 after the first "Parse 1 of 1", cut it at the last "======", and strip
 the surrounding whitespace. Running RelEx itself (over SSH in a Vagrant
 machine) and printing the result are not modelled.
 */
module Relex {
  import opened Records
  import opened Text

  const ParseMarker := "Parse 1 of 1"
  const Separator := "======"

  /**
   `s.split(sep, 1)[1]`: the text after the first occurrence of `sep`.
   Python raises an error for an empty separator, and indexing `[1]` fails
   when `sep` does not occur; both are preconditions here.
   */
  function AfterFirst(s: string, sep: string): (r: string)
    requires |sep| > 0 && Contains(s, sep)
    ensures |r| + |sep| <= |s| && r == s[|s| - |r|..]
    ensures OccursAt(s, sep, |s| - |r| - |sep|)
    ensures forall i :: 0 <= i < |s| - |r| - |sep| ==> !OccursAt(s, sep, i)
  {
    var i := Find(s, sep).value;
    s[i + |sep|..]
  }

  /**
   `s.rpartition(sep)[0]`: the text before the last occurrence of `sep`,
   or the empty string when `sep` does not occur.
   */
  function BeforeLast(s: string, sep: string): (r: string)
    requires |sep| > 0
    ensures |r| <= |s| && r == s[..|r|]
    ensures Contains(s, sep) ==> OccursAt(s, sep, |r|) && forall i :: |r| < i ==> !OccursAt(s, sep, i)
    ensures !Contains(s, sep) ==> r == ""
  {
    match RFind(s, sep)
    case None => ""
    case Some(i) => s[..i]
  }

  /** The three trimming steps in order. */
  function ConciseRelex(output: string): (r: string)
    requires Contains(output, ParseMarker)
    ensures Trimmed(r)
    ensures !Contains(AfterFirst(output, ParseMarker), Separator) ==> r == ""
  {
    Strip(BeforeLast(AfterFirst(output, ParseMarker), Separator))
  }

  /** An occurrence of `pat` that lies inside the part `a` of `a + b` is an occurrence in `a`. */
  lemma OccursInPrefix(a: string, b: string, pat: string, i: int)
    requires 0 <= i && i + |pat| <= |a|
    ensures OccursAt(a + b, pat, i) <==> OccursAt(a, pat, i)
  {
  }

  /** An occurrence in the part `b` of `a + b` is an occurrence in `b`, shifted by |a|. */
  lemma OccursInSuffix(a: string, b: string, pat: string, i: int)
    requires |a| <= i
    ensures OccursAt(a + b, pat, i) <==> OccursAt(b, pat, i - |a|)
  {
  }

  /**
   The trimmed output is exactly the report RelEx prints between the parse
   header and the closing rule: for output of the shape
   pre, "Parse 1 of 1", whitespace, body, whitespace, "======", tail
   where the header does not occur earlier and the rule does not occur
   later, the result is body.
   */
  lemma ConciseRelexOf(pre: string, ws1: string, body: string, ws2: string, tail: string)
    requires forall i :: 0 <= i < |pre| ==> !OccursAt(pre + ParseMarker, ParseMarker, i)
    requires AllSpace(ws1) && Trimmed(body) && AllSpace(ws2)
    requires forall i :: 0 < i ==> !OccursAt(Separator + tail, Separator, i)
    ensures Contains(pre + ParseMarker + ws1 + body + ws2 + Separator + tail, ParseMarker)
    ensures ConciseRelex(pre + ParseMarker + ws1 + body + ws2 + Separator + tail) == body
  {
    var report := ws1 + body + ws2;
    var rest := report + (Separator + tail);
    var output := pre + ParseMarker + ws1 + body + ws2 + Separator + tail;
    assert output == (pre + ParseMarker) + rest;

    // The first header is the one right after pre.
    OccursInPrefix(pre + ParseMarker, rest, ParseMarker, |pre|);
    assert (pre + ParseMarker)[|pre|..] == ParseMarker;
    assert OccursAt(output, ParseMarker, |pre|);
    forall i | 0 <= i < |pre|
      ensures !OccursAt(output, ParseMarker, i)
    {
      OccursInPrefix(pre + ParseMarker, rest, ParseMarker, i);
    }
    var first := Find(output, ParseMarker).value;
    assert first == |pre|;
    assert AfterFirst(output, ParseMarker) == rest;

    // The last rule is the one right after the report.
    OccursInSuffix(report, Separator + tail, Separator, |report|);
    assert OccursAt(rest, Separator, |report|);
    forall i | |report| < i
      ensures !OccursAt(rest, Separator, i)
    {
      OccursInSuffix(report, Separator + tail, Separator, i);
    }
    var last := RFind(rest, Separator).value;
    assert last == |report|;
    assert BeforeLast(rest, Separator) == report;

    StripOf(ws1, body, ws2);
  }
}
