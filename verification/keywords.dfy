/** `load_keywords`: one keyword per line of the keyword file, stripped, with
    blank lines dropped. */
module Keywords {
  import opened Base
  import opened Text

  /** Index of the first '\n' in `t`, or `|t|` when there is none. */
  function NewlineIndex(t: string): (i: nat)
    ensures i <= |t|
    ensures forall k :: 0 <= k < i ==> t[k] != '\n'
    ensures i < |t| ==> t[i] == '\n'
  {
    if t == [] || t[0] == '\n' then 0 else 1 + NewlineIndex(t[1..])
  }

  /** The lines a Python text file yields when iterated: each line keeps its
      terminating '\n'; a final fragment without one is a line too. */
  function Lines(text: string): (ls: seq<string>)
    decreases |text|
    ensures Flatten(ls) == text
    ensures forall j :: 0 <= j < |ls| ==> ls[j] != []
    ensures forall j :: 0 <= j < |ls| - 1 ==> ls[j][|ls[j]| - 1] == '\n'
    ensures forall j, k :: 0 <= j < |ls| && 0 <= k < |ls[j]| - 1 ==> ls[j][k] != '\n'
  {
    if text == [] then []
    else
      var i := NewlineIndex(text);
      if i == |text| then
        assert Flatten([text]) == text + Flatten([]);
        [text]
      else
        var rest := Lines(text[i + 1..]);
        var ls := [text[..i + 1]] + rest;
        assert ls[1..] == rest;
        assert text == text[..i + 1] + text[i + 1..];
        ls
  }

  /** A keyword: non-empty and without surrounding whitespace. */
  predicate IsKeyword(k: string)
  {
    k != [] && !IsSpace(k[0]) && !IsSpace(k[|k| - 1])
  }

  /** `[line.strip() for line in lines if line.strip()]`. */
  function CleanLines(ls: seq<string>): (ks: seq<string>)
    ensures |ks| <= |ls|
    ensures forall j :: 0 <= j < |ks| ==> IsKeyword(ks[j])
  {
    if ls == [] then []
    else
      var k := Strip(ls[0]);
      StripSpec(ls[0]);
      (if k != [] then [k] else []) + CleanLines(ls[1..])
  }

  /** `load_keywords` on the decoded text of the keyword file. */
  function LoadKeywords(text: string): (ks: seq<string>)
    ensures forall j :: 0 <= j < |ks| ==> IsKeyword(ks[j])
    ensures forall j :: 0 <= j < |ks| ==> '\n' !in ks[j]
  {
    var ls := Lines(text);
    var ks := CleanLines(ls);
    CleanLinesFromLines(ls);
    ks
  }

  /** Every keyword produced is the stripped form of one of the lines; the
      lines here contain '\n' only at their end, so keywords contain none. */
  lemma {:induction false} CleanLinesFromLines(ls: seq<string>)
    requires forall j, k :: 0 <= j < |ls| && 0 <= k < |ls[j]| - 1 ==> ls[j][k] != '\n'
    ensures forall j :: 0 <= j < |CleanLines(ls)| ==> '\n' !in CleanLines(ls)[j]
  {
    if ls != [] {
      CleanLinesFromLines(ls[1..]);
      StripDropsFinalNewline(ls[0]);
    }
  }

  /** Stripping a line whose only '\n' can be its last character leaves no
      '\n' at all, since '\n' is whitespace. */
  lemma StripDropsFinalNewline(l: string)
    requires forall k :: 0 <= k < |l| - 1 ==> l[k] != '\n'
    ensures '\n' !in Strip(l)
  {
    var s := Strip(l);
    StripSpec(l);
    var i :| StrippedAt(l, s, i);
    forall k | 0 <= k < |s| ensures s[k] != '\n' {
      assert s[k] == l[i + k];
      assert IsSpace('\n');
      if i + k == |l| - 1 {
        assert k == |s| - 1;
      }
    }
  }

  /** Cleaning distributes over concatenation of line sequences: the keyword
      list keeps the lines' order. */
  lemma {:induction false} CleanLinesAppend(a: seq<string>, b: seq<string>)
    ensures CleanLines(a + b) == CleanLines(a) + CleanLines(b)
  {
    if a == [] {
      assert a + b == b;
    } else {
      var k := Strip(a[0]);
      var h := if k != [] then [k] else [];
      assert (a + b)[0] == a[0];
      assert (a + b)[1..] == a[1..] + b;
      assert CleanLines(a + b) == h + CleanLines(a[1..] + b);
      CleanLinesAppend(a[1..], b);
      assert h + (CleanLines(a[1..]) + CleanLines(b)) == (h + CleanLines(a[1..])) + CleanLines(b);
    }
  }

  /** Every non-blank line contributes its stripped form. */
  lemma {:induction false} CleanLinesKeepsNonBlank(ls: seq<string>, j: int)
    requires 0 <= j < |ls| && Strip(ls[j]) != []
    ensures Strip(ls[j]) in CleanLines(ls)
  {
    if j > 0 {
      assert ls[j] == ls[1..][j - 1];
      CleanLinesKeepsNonBlank(ls[1..], j - 1);
    }
  }

  /** Every keyword is the stripped form of some line. */
  lemma {:induction false} CleanLinesOnlyStripped(ls: seq<string>, x: string)
    requires x in CleanLines(ls)
    ensures exists j :: 0 <= j < |ls| && x == Strip(ls[j])
  {
    if x != Strip(ls[0]) {
      CleanLinesOnlyStripped(ls[1..], x);
      var j :| 0 <= j < |ls[1..]| && x == Strip(ls[1..][j]);
      assert x == Strip(ls[j + 1]);
    }
  }

  /** The number of keywords is the number of non-blank lines. */
  function NonBlankCount(ls: seq<string>): nat
  {
    if ls == [] then 0 else (if Strip(ls[0]) != [] then 1 else 0) + NonBlankCount(ls[1..])
  }

  lemma {:induction false} CleanLinesLength(ls: seq<string>)
    ensures |CleanLines(ls)| == NonBlankCount(ls)
  {
    if ls != [] {
      CleanLinesLength(ls[1..]);
    }
  }
}
