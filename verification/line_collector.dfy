/**
 `LineCollector`: splits the document into raw lines and classifies each
 distinct line by header level, keeping the lines in order of first occurrence
 (the source keeps them in an insertion-ordered `Map<string, number>`).
 */
module LineCollector {
  import opened Strings

  /** One dictionary entry: the raw, unmodified line and its level 0..3. */
  datatype Entry = Entry(raw: string, level: int)

  /** `getListOfLines`: the document split on `\n`, empty lines kept. */
  function Lines(text: string): (lines: seq<string>)
    ensures |lines| >= 1
    ensures forall i :: 0 <= i < |lines| ==> '\n' !in lines[i]
    ensures Join(lines, '\n') == text
  {
    Split(text, '\n')
  }

  /**
   The header level of a line by substring containment, checked in the order
   `"### "`, `"## "`, `"# "`; anything else is level 0.
   */
  function Classify(line: string): (level: int)
    ensures 0 <= level <= 3
  {
    if Contains(line, "### ") then 3
    else if Contains(line, "## ") then 2
    else if Contains(line, "# ") then 1
    else 0
  }

  /** How many of the three markers occur somewhere in the line. */
  function MarkerCount(line: string): nat
  {
    (if Contains(line, "# ") then 1 else 0)
    + (if Contains(line, "## ") then 1 else 0)
    + (if Contains(line, "### ") then 1 else 0)
  }

  /**
   Each marker contains the shorter ones, so testing the longest first makes the
   level the number of markers the line contains: a line holding `"### "` is
   never level 1 or 2, and a line is a header exactly when it holds `"# "`.
   */
  lemma ClassifyCountsMarkers(line: string)
    ensures Classify(line) == MarkerCount(line)
    ensures Classify(line) >= 1 <==> Contains(line, "# ")
    ensures Classify(line) >= 2 <==> Contains(line, "## ")
    ensures Classify(line) == 3 <==> Contains(line, "### ")
  {
    if Contains(line, "### ") {
      assert "### " == "#" + "## ";
      ContainsTail(line, "#", "## ");
    }
    if Contains(line, "## ") {
      assert "## " == "#" + "# ";
      ContainsTail(line, "#", "# ");
    }
  }

  /** The raw lines stored so far, in insertion order (the map's keys). */
  function Keys(es: seq<Entry>): (ks: seq<string>)
    ensures |ks| == |es|
    ensures forall i :: 0 <= i < |es| ==> ks[i] == es[i].raw
  {
    seq(|es|, i requires 0 <= i < |es| => es[i].raw)
  }

  /** One loop step: a line already present is skipped, a new one is appended. */
  function Add(es: seq<Entry>, line: string): seq<Entry>
  {
    if line in Keys(es) then es else es + [Entry(line, Classify(line))]
  }

  /** Position of the first occurrence of `x` in `s`. */
  function FirstIndex(s: seq<string>, x: string): (k: nat)
    requires x in s
    ensures k < |s| && s[k] == x && x !in s[..k]
  {
    if s[0] == x then 0
    else
      assert s[1..][..FirstIndex(s[1..], x)] == s[1..1 + FirstIndex(s[1..], x)];
      1 + FirstIndex(s[1..], x)
  }

  /** Any position holding the first occurrence of `x` is the one `FirstIndex` finds. */
  lemma {:induction false} FirstIndexUnique(s: seq<string>, x: string, k: nat)
    requires k < |s| && s[k] == x && x !in s[..k]
    ensures FirstIndex(s, x) == k
  {
    if k > 0 {
      assert s[..k][0] == s[0];
    }
    if s[0] != x {
      assert s[1..][..k - 1] == s[1..k];
      assert forall j :: 1 <= j < k ==> s[..k][j] == s[1..k][j - 1];
      FirstIndexUnique(s[1..], x, k - 1);
    }
  }

  /** The first occurrence of a line is unchanged by appending more lines. */
  lemma FirstIndexOfPrefix(s: seq<string>, t: seq<string>, x: string)
    requires x in s
    ensures FirstIndex(s + t, x) == FirstIndex(s, x)
  {
    var k := FirstIndex(s, x);
    assert (s + t)[..k] == s[..k];
    FirstIndexUnique(s + t, x, k);
  }

  /**
   What the dictionary built from `lines` promises: each key is a line with its
   classification, every line is a key, keys are distinct and kept in order of
   first occurrence.
   */
  ghost predicate Summarises(lines: seq<string>, r: seq<Entry>)
  {
    (forall i :: 0 <= i < |r| ==> r[i].raw in lines && r[i].level == Classify(r[i].raw))
    && (forall l :: l in lines <==> l in Keys(r))
    && (forall i, j :: 0 <= i < j < |r| ==> FirstIndex(lines, r[i].raw) < FirstIndex(lines, r[j].raw))
    && (forall i, j :: 0 <= i < j < |r| ==> r[i].raw != r[j].raw)
  }

  /** One loop step keeps the dictionary faithful to the lines seen so far. */
  lemma AddStep(init: seq<string>, last: string, prev: seq<Entry>)
    requires Summarises(init, prev)
    ensures Summarises(init + [last], Add(prev, last))
  {
    var lines := init + [last];
    forall x | x in init
      ensures FirstIndex(lines, x) == FirstIndex(init, x)
    {
      FirstIndexOfPrefix(init, [last], x);
    }
    if last in init {
      AddSeen(init, last, prev);
    } else {
      assert lines[..|init|] == init;
      FirstIndexUnique(lines, last, |init|);
      AddNew(init, last, prev);
    }
  }

  lemma AddSeen(init: seq<string>, last: string, prev: seq<Entry>)
    requires Summarises(init, prev) && last in init
    requires forall x :: x in init ==> FirstIndex(init + [last], x) == FirstIndex(init, x)
    ensures Summarises(init + [last], Add(prev, last))
  {
    var lines := init + [last];
    assert last in Keys(prev);
    assert forall l :: l in lines <==> l in init;
  }

  lemma AddNew(init: seq<string>, last: string, prev: seq<Entry>)
    requires Summarises(init, prev) && last !in init
    requires forall x :: x in init ==> FirstIndex(init + [last], x) == FirstIndex(init, x)
    requires FirstIndex(init + [last], last) == |init|
    ensures Summarises(init + [last], Add(prev, last))
  {
    var lines := init + [last];
    var r := prev + [Entry(last, Classify(last))];
    assert last !in Keys(prev);
    assert Add(prev, last) == r;
    assert Keys(r) == Keys(prev) + [last];
    assert forall l :: l in lines <==> l in init || l == last;
    AddNewOrdered(init, last, prev);
    AddNewDistinct(prev, last);
  }

  lemma AddNewOrdered(init: seq<string>, last: string, prev: seq<Entry>)
    requires Summarises(init, prev) && last !in init
    requires forall x :: x in init ==> FirstIndex(init + [last], x) == FirstIndex(init, x)
    requires FirstIndex(init + [last], last) == |init|
    ensures forall i, j :: 0 <= i < j < |prev| + 1 ==>
      FirstIndex(init + [last], (prev + [Entry(last, Classify(last))])[i].raw)
        < FirstIndex(init + [last], (prev + [Entry(last, Classify(last))])[j].raw)
  {
    var lines := init + [last];
    var r := prev + [Entry(last, Classify(last))];
    forall i, j | 0 <= i < j < |r|
      ensures FirstIndex(lines, r[i].raw) < FirstIndex(lines, r[j].raw)
    {
      assert r[i].raw in init;
      if j < |prev| {
        assert r[j].raw in init;
      }
    }
  }

  lemma AddNewDistinct(prev: seq<Entry>, last: string)
    requires last !in Keys(prev)
    requires forall i, j :: 0 <= i < j < |prev| ==> prev[i].raw != prev[j].raw
    ensures forall i, j :: 0 <= i < j < |prev| + 1 ==>
      (prev + [Entry(last, Classify(last))])[i].raw != (prev + [Entry(last, Classify(last))])[j].raw
  {
    var r := prev + [Entry(last, Classify(last))];
    forall i, j | 0 <= i < j < |r|
      ensures r[i].raw != r[j].raw
    {
      if j == |prev| {
        assert Keys(prev)[i] == r[i].raw;
      }
    }
  }

  /** The fold of `getHeaderDictionary` over `lines`, one `Add` per line. */
  function Collect(lines: seq<string>): seq<Entry>
    decreases |lines|
  {
    if |lines| == 0 then []
    else Add(Collect(lines[..|lines| - 1]), lines[|lines| - 1])
  }

  /**
   The dictionary holds every distinct line once, with its classification,
   in order of first occurrence.
   */
  lemma {:induction false} CollectSummarises(lines: seq<string>)
    ensures forall i :: 0 <= i < |Collect(lines)| ==>
      Collect(lines)[i].raw in lines && Collect(lines)[i].level == Classify(Collect(lines)[i].raw)
    ensures forall l :: l in lines <==> l in Keys(Collect(lines))
    ensures forall i, j :: 0 <= i < j < |Collect(lines)| ==>
      FirstIndex(lines, Collect(lines)[i].raw) < FirstIndex(lines, Collect(lines)[j].raw)
    ensures forall i, j :: 0 <= i < j < |Collect(lines)| ==> Collect(lines)[i].raw != Collect(lines)[j].raw
    decreases |lines|
  {
    if |lines| > 0 {
      var init := lines[..|lines| - 1];
      var last := lines[|lines| - 1];
      assert init + [last] == lines;
      CollectSummarises(init);
      AddStep(init, last, Collect(init));
    }
  }

  /** One more line: skipped if seen before, otherwise appended with its level. */
  lemma CollectSnoc(init: seq<string>, last: string)
    ensures Collect(init + [last])
      == if last in init then Collect(init) else Collect(init) + [Entry(last, Classify(last))]
  {
    var lines := init + [last];
    assert lines[..|lines| - 1] == init;
    CollectSummarises(init);
  }

  /** `getHeaderDictionary`: the classified, deduplicated lines of the document. */
  function HeaderDictionary(text: string): (r: seq<Entry>)
    ensures forall l :: l in Lines(text) <==> l in Keys(r)
  {
    CollectSummarises(Lines(text));
    Collect(Lines(text))
  }

  /** Lines that repeat earlier ones add no entries. */
  lemma {:induction false} CollectIgnoresRepeats(s: seq<string>, t: seq<string>)
    requires forall l :: l in t ==> l in s
    ensures Collect(s + t) == Collect(s)
    decreases |t|
  {
    if |t| > 0 {
      var t' := t[..|t| - 1];
      assert (s + t)[..|s + t| - 1] == s + t';
      CollectIgnoresRepeats(s, t');
      CollectSummarises(s + t');
    } else {
      assert s + t == s;
    }
  }
}
