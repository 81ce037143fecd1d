/**
 The boundary arithmetic of the `delete-frontmatter` command: the length of
 line 0 plus the position of the first `---` in the text that runs from the
 start of line 1 to the start of the last line.
 */
module Frontmatter {
  import opened Wrappers
  import opened Strings
  import opened LineCollector

  const Marker: string := "---"

  /** Each line followed by its line break. */
  function Terminated(ls: seq<string>): string
  {
    if |ls| == 0 then "" else ls[0] + "\n" + Terminated(ls[1..])
  }

  /**
   `getRange({line: 1, ch: 0}, {line: lastLine, ch: 0})`: lines 1 up to, but
   not including, the last line, each with its line break. A document of one
   or two lines yields the empty range.
   */
  function RangeAfterFirstLine(lines: seq<string>): string
    requires |lines| >= 1
  {
    if |lines| < 2 then "" else Terminated(lines[1..|lines| - 1])
  }

  /**
   `firstLineLength + excludeFirstLine.indexOf('---')`, or `None` where the
   source gets `-1` and opens no deletion dialog. The editor always has at
   least one line.
   */
  function FrontmatterLength(lines: seq<string>): (r: Option<int>)
    requires |lines| >= 1
    ensures r.None? ==> forall j :: !OccursAt(RangeAfterFirstLine(lines), Marker, j)
    ensures r.Some? ==> |lines[0]| <= r.value
    ensures r.Some? ==> OccursAt(RangeAfterFirstLine(lines), Marker, r.value - |lines[0]|)
    ensures r.Some? ==> forall j :: 0 <= j < r.value - |lines[0]| ==> !OccursAt(RangeAfterFirstLine(lines), Marker, j)
  {
    match IndexOf(RangeAfterFirstLine(lines), Marker)
    case None => None
    case Some(k) => Some(|lines[0]| + k)
  }

  /** The boundary computed for a whole document text. */
  function DocumentFrontmatterLength(text: string): Option<int>
  {
    FrontmatterLength(Lines(text))
  }

  lemma {:induction false} JoinAsTerminated(ls: seq<string>)
    requires |ls| >= 1
    ensures Join(ls, '\n') == Terminated(ls[..|ls| - 1]) + ls[|ls| - 1]
    decreases |ls|
  {
    if |ls| > 1 {
      JoinAsTerminated(ls[1..]);
      assert ls[1..][..|ls| - 2] == ls[..|ls| - 1][1..];
    }
  }

  /** The document is line 0, its break, the searched range, and the last line. */
  lemma DocumentAroundRange(lines: seq<string>)
    requires |lines| >= 2
    ensures Join(lines, '\n') == lines[0] + "\n" + RangeAfterFirstLine(lines) + lines[|lines| - 1]
  {
    var rest := lines[1..];
    calc {
      Join(lines, '\n');
      lines[0] + ['\n'] + Join(rest, '\n');
      { JoinAsTerminated(rest); }
      lines[0] + ['\n'] + (Terminated(rest[..|rest| - 1]) + rest[|rest| - 1]);
      { assert rest[..|rest| - 1] == lines[1..|lines| - 1]; }
      lines[0] + "\n" + RangeAfterFirstLine(lines) + lines[|lines| - 1];
    }
  }

  /** Occurrences inside the middle part of `a + b + c` are occurrences in `b`. */
  lemma OccursInMiddle(a: string, b: string, c: string, sub: string, k: int)
    requires 0 <= k && k + |sub| <= |b|
    ensures OccursAt(a + b + c, sub, |a| + k) <==> OccursAt(b, sub, k)
  {
    assert (a + b + c)[|a| + k..|a| + k + |sub|] == b[k..k + |sub|];
  }

  /** The first occurrence in the middle part `b` is the first one in `a + b + c` from `|a|` on. */
  lemma FirstInMiddle(a: string, b: string, c: string, sub: string, k: int)
    requires OccursAt(b, sub, k)
    requires forall j :: 0 <= j < k ==> !OccursAt(b, sub, j)
    ensures OccursAt(a + b + c, sub, |a| + k)
    ensures forall j :: |a| <= j < |a| + k ==> !OccursAt(a + b + c, sub, j)
  {
    OccursInMiddle(a, b, c, sub, k);
    forall j | |a| <= j < |a| + k
      ensures !OccursAt(a + b + c, sub, j)
    {
      OccursInMiddle(a, b, c, sub, j - |a|);
    }
  }

  /** No occurrence in the middle part `b` means none lies wholly inside it in `a + b + c`. */
  lemma NoneInMiddle(a: string, b: string, c: string, sub: string)
    requires forall j :: !OccursAt(b, sub, j)
    ensures forall j :: |a| <= j && j + |sub| <= |a| + |b| ==> !OccursAt(a + b + c, sub, j)
  {
    forall j | |a| <= j && j + |sub| <= |a| + |b|
      ensures !OccursAt(a + b + c, sub, j)
    {
      OccursInMiddle(a, b, c, sub, j - |a|);
    }
  }

  /**
   Read against the whole document: a found boundary `n` is followed by `---`
   at offset `n + 1` (past line 0 and its break), with no `---` starting
   between the start of line 1 and there; `None` means no `---` starts and
   ends within lines 1 up to the last line.
   */
  lemma BoundaryInDocument(lines: seq<string>)
    requires |lines| >= 1
    ensures FrontmatterLength(lines).Some? ==>
      OccursAt(Join(lines, '\n'), Marker, FrontmatterLength(lines).value + 1)
    ensures FrontmatterLength(lines).Some? ==>
      forall j :: |lines[0]| + 1 <= j < FrontmatterLength(lines).value + 1 ==> !OccursAt(Join(lines, '\n'), Marker, j)
    ensures FrontmatterLength(lines).None? ==>
      forall j :: |lines[0]| + 1 <= j && j + |Marker| <= |lines[0]| + 1 + |RangeAfterFirstLine(lines)| ==>
        !OccursAt(Join(lines, '\n'), Marker, j)
  {
    if |lines| < 2 {
      assert RangeAfterFirstLine(lines) == "";
    } else {
      match FrontmatterLength(lines)
      case Some(n) => BoundaryFound(lines, n);
      case None => BoundaryAbsent(lines);
    }
  }

  lemma BoundaryFound(lines: seq<string>, n: int)
    requires |lines| >= 2 && FrontmatterLength(lines) == Some(n)
    ensures OccursAt(Join(lines, '\n'), Marker, n + 1)
    ensures forall j :: |lines[0]| + 1 <= j < n + 1 ==> !OccursAt(Join(lines, '\n'), Marker, j)
  {
    FirstMarkerInDocument(lines, n - |lines[0]|);
  }

  lemma FirstMarkerInDocument(lines: seq<string>, k: int)
    requires |lines| >= 2
    requires OccursAt(RangeAfterFirstLine(lines), Marker, k)
    requires forall j :: 0 <= j < k ==> !OccursAt(RangeAfterFirstLine(lines), Marker, j)
    ensures OccursAt(Join(lines, '\n'), Marker, |lines[0]| + 1 + k)
    ensures forall j :: |lines[0]| + 1 <= j < |lines[0]| + 1 + k ==> !OccursAt(Join(lines, '\n'), Marker, j)
  {
    DocumentAroundRange(lines);
    FirstInMiddle(lines[0] + "\n", RangeAfterFirstLine(lines), lines[|lines| - 1], Marker, k);
  }

  lemma BoundaryAbsent(lines: seq<string>)
    requires |lines| >= 2 && FrontmatterLength(lines).None?
    ensures forall j :: |lines[0]| + 1 <= j && j + |Marker| <= |lines[0]| + 1 + |RangeAfterFirstLine(lines)| ==>
      !OccursAt(Join(lines, '\n'), Marker, j)
  {
    var a := lines[0] + "\n";
    DocumentAroundRange(lines);
    NoneInMiddle(a, RangeAfterFirstLine(lines), lines[|lines| - 1], Marker);
  }

  /** On a document text: a found boundary `n` has `---` at offset `n + 1`. */
  lemma DocumentBoundaryHasMarker(text: string)
    ensures DocumentFrontmatterLength(text).Some? ==>
      OccursAt(text, Marker, DocumentFrontmatterLength(text).value + 1)
  {
    BoundaryInDocument(Lines(text));
  }
}
