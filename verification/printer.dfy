/**
 `Printer.printAliases`: walks the collected entries and produces the chunks the
 editor receives through `replaceSelection`, framed as a frontmatter `aliases`
 block. The walk keeps the most recent level-1 and level-2 labels and a
 level-2 ordinal. Next to the walk sits a closed-form description of the same
 context, computed from the entries before each one, and the two are proved to
 agree.
 */
module Printer {
  import opened Strings
  import opened Decimal
  import opened LineCollector

  /** The walk's state: `tempH1`, `tempH2` and `h2Counter`. */
  datatype Context = Context(h1: string, h2: string, h2Counter: nat)

  const Start := Context("", "", 1)

  const OpenChunks: seq<string> := ["---\n", "aliases:\n"]
  const CloseChunk: string := "---\n"

  /** Only levels 1, 2 and 3 reach a `case` of the switch. */
  predicate IsHeader(e: Entry)
  {
    1 <= e.level <= 3
  }

  /** The text shown for an entry: its raw line with the marker token dropped. */
  function Label(e: Entry): string
  {
    RemoveFirstElement(e.raw)
  }

  /** Every alias line starts with this; the link always carries `sel + "#"`. */
  function LinkHead(sel: string): string
  {
    "- \"[[" + sel + "#"
  }

  const LinkTail: string := "]]\"\n"

  /** A well-formed alias line: a quoted wiki link with the selection prefix. */
  predicate IsAliasLine(line: string, sel: string)
  {
    |LinkHead(sel)| + |LinkTail| <= |line|
    && line[..|LinkHead(sel)|] == LinkHead(sel)
    && line[|line| - |LinkTail|..] == LinkTail
  }

  /** The chunk a header entry emits in context `c`. */
  function AliasLine(e: Entry, c: Context, sel: string): string
    requires IsHeader(e)
  {
    var name := Label(e);
    var body :=
      if e.level == 1 then name + "|" + name
      else if e.level == 2 then c.h1 + "#" + name + "|" + NatToString(c.h2Counter) + ". " + name
      else c.h1 + "#" + c.h2 + "#" + name + "| - " + name;
    LinkHead(sel) + body + LinkTail
  }

  lemma AliasLineLevel2(e: Entry, c: Context, sel: string)
    requires e.level == 2
    ensures AliasLine(e, c, sel)
      == LinkHead(sel) + (c.h1 + "#" + Label(e) + "|" + NatToString(c.h2Counter) + ". " + Label(e)) + LinkTail
  {
  }

  lemma AliasLineWellFormed(e: Entry, c: Context, sel: string)
    requires IsHeader(e)
    ensures IsAliasLine(AliasLine(e, c, sel), sel)
  {
    var line := AliasLine(e, c, sel);
    assert line[..|LinkHead(sel)|] == LinkHead(sel);
    assert line[|line| - |LinkTail|..] == LinkTail;
  }

  /** The state change of one switch `case`; other levels change nothing. */
  function Advance(e: Entry, c: Context): Context
  {
    if e.level == 1 then c.(h1 := Label(e), h2Counter := 1)
    else if e.level == 2 then c.(h2 := Label(e), h2Counter := c.h2Counter + 1)
    else c
  }

  /** What one entry sends to the editor: one alias line, or nothing. */
  function Emitted(e: Entry, c: Context, sel: string): seq<string>
  {
    if IsHeader(e) then [AliasLine(e, c, sel)] else []
  }

  function HeaderCount(es: seq<Entry>): nat
  {
    if |es| == 0 then 0
    else (if IsHeader(es[0]) then 1 else 0) + HeaderCount(es[1..])
  }

  lemma {:induction false} HeaderCountAppend(a: seq<Entry>, b: seq<Entry>)
    ensures HeaderCount(a + b) == HeaderCount(a) + HeaderCount(b)
    decreases |a|
  {
    if |a| > 0 {
      assert (a + b)[1..] == a[1..] + b;
      HeaderCountAppend(a[1..], b);
    } else {
      assert a + b == b;
    }
  }

  /** The `for` loop: entries in order, state threaded from one to the next. */
  function Walk(es: seq<Entry>, c: Context, sel: string): (r: seq<string>)
    ensures |r| == HeaderCount(es)
    decreases |es|
  {
    if |es| == 0 then []
    else Emitted(es[0], c, sel) + Walk(es[1..], Advance(es[0], c), sel)
  }

  /** The context after walking `es` from `c`. */
  function Run(es: seq<Entry>, c: Context): Context
    decreases |es|
  {
    if |es| == 0 then c else Run(es[1..], Advance(es[0], c))
  }

  /**
   `printAliases(map, headerSelection)`: the opening `---` and `aliases:`
   chunks, one alias line per header entry, and the closing `---`.
   */
  function PrintAliases(es: seq<Entry>, sel: string): (r: seq<string>)
    ensures |r| == HeaderCount(es) + 3
    ensures r[0] == "---\n" && r[1] == "aliases:\n" && r[|r| - 1] == "---\n"
  {
    OpenChunks + Walk(es, Start, sel) + [CloseChunk]
  }

  lemma {:induction false} WalkLinesWellFormed(es: seq<Entry>, c: Context, sel: string)
    ensures forall k :: 0 <= k < |Walk(es, c, sel)| ==> IsAliasLine(Walk(es, c, sel)[k], sel)
    decreases |es|
  {
    if |es| > 0 {
      WalkLinesWellFormed(es[1..], Advance(es[0], c), sel);
      if IsHeader(es[0]) {
        AliasLineWellFormed(es[0], c, sel);
      }
    }
  }

  /** Every chunk between the framing is a quoted link starting with `sel + "#"`. */
  lemma AliasLinesWellFormed(es: seq<Entry>, sel: string)
    ensures forall k :: 2 <= k < |PrintAliases(es, sel)| - 1 ==> IsAliasLine(PrintAliases(es, sel)[k], sel)
  {
    var body := Walk(es, Start, sel);
    var r := PrintAliases(es, sel);
    WalkLinesWellFormed(es, Start, sel);
    assert forall k :: 2 <= k < |r| - 1 ==> r[k] == body[k - 2];
  }

  // ---------------------------------------------------------------------------
  // The context described from the entries that precede a position.
  // ---------------------------------------------------------------------------

  /** Label of the most recent entry of `level` in `p`, or `""` if there is none. */
  function LastLabel(p: seq<Entry>, level: int): string
    decreases |p|
  {
    if |p| == 0 then ""
    else if p[|p| - 1].level == level then Label(p[|p| - 1])
    else LastLabel(p[..|p| - 1], level)
  }

  /** Level-2 entries in `p` after its last level-1 entry (all of them if none). */
  function H2SinceH1(p: seq<Entry>): nat
    decreases |p|
  {
    if |p| == 0 then 0
    else if p[|p| - 1].level == 1 then 0
    else if p[|p| - 1].level == 2 then 1 + H2SinceH1(p[..|p| - 1])
    else H2SinceH1(p[..|p| - 1])
  }

  /** What the walk's state should be once the entries `p` have been seen. */
  function ContextOf(p: seq<Entry>): Context
  {
    Context(LastLabel(p, 1), LastLabel(p, 2), 1 + H2SinceH1(p))
  }

  /** Every header entry's line, each formatted in the context of its own prefix. */
  function ReferenceBody(es: seq<Entry>, sel: string): seq<string>
    decreases |es|
  {
    if |es| == 0 then []
    else ReferenceBody(es[..|es| - 1], sel) + Emitted(es[|es| - 1], ContextOf(es[..|es| - 1]), sel)
  }

  /**
   One switch `case` moves the context of a prefix to the context of the prefix
   extended by that entry: a level-1 entry takes over `h1` and resets the
   ordinal but keeps `h2`; a level-2 entry takes over `h2` and bumps the ordinal;
   a level-3 or level-0 entry changes nothing.
   */
  lemma AdvanceTracksContext(p: seq<Entry>, e: Entry)
    ensures Advance(e, ContextOf(p)) == ContextOf(p + [e])
    ensures e.level == 1 ==> ContextOf(p + [e]) == ContextOf(p).(h1 := Label(e), h2Counter := 1)
    ensures e.level == 2 ==> ContextOf(p + [e]) == ContextOf(p).(h2 := Label(e), h2Counter := ContextOf(p).h2Counter + 1)
    ensures !(e.level in {1, 2}) ==> ContextOf(p + [e]) == ContextOf(p)
  {
    assert (p + [e])[..|p|] == p;
  }

  lemma {:induction false} RunTracksContext(p: seq<Entry>, rest: seq<Entry>)
    ensures Run(rest, ContextOf(p)) == ContextOf(p + rest)
    decreases |rest|
  {
    if |rest| == 0 {
      assert p + rest == p;
    } else {
      var e := rest[0];
      calc {
        Run(rest, ContextOf(p));
        Run(rest[1..], Advance(e, ContextOf(p)));
        { AdvanceTracksContext(p, e); }
        Run(rest[1..], ContextOf(p + [e]));
        { RunTracksContext(p + [e], rest[1..]); }
        ContextOf(p + [e] + rest[1..]);
        { assert p + [e] + rest[1..] == p + rest; }
        ContextOf(p + rest);
      }
    }
  }

  lemma ReferenceBodySnoc(p: seq<Entry>, e: Entry, sel: string)
    ensures ReferenceBody(p + [e], sel) == ReferenceBody(p, sel) + Emitted(e, ContextOf(p), sel)
  {
    assert (p + [e])[..|p|] == p;
  }

  lemma {:induction false} WalkFromContext(p: seq<Entry>, rest: seq<Entry>, sel: string)
    ensures ReferenceBody(p, sel) + Walk(rest, ContextOf(p), sel) == ReferenceBody(p + rest, sel)
    decreases |rest|
  {
    if |rest| == 0 {
      assert p + rest == p;
    } else {
      var e := rest[0];
      var p' := p + [e];
      var out := Emitted(e, ContextOf(p), sel);
      calc {
        ReferenceBody(p, sel) + Walk(rest, ContextOf(p), sel);
        ReferenceBody(p, sel) + (out + Walk(rest[1..], Advance(e, ContextOf(p)), sel));
        { AdvanceTracksContext(p, e); }
        ReferenceBody(p, sel) + out + Walk(rest[1..], ContextOf(p'), sel);
        { ReferenceBodySnoc(p, e, sel); }
        ReferenceBody(p', sel) + Walk(rest[1..], ContextOf(p'), sel);
        { WalkFromContext(p', rest[1..], sel); }
        ReferenceBody(p' + rest[1..], sel);
        { assert p' + rest[1..] == p + rest; }
        ReferenceBody(p + rest, sel);
      }
    }
  }

  /**
   The stateful walk produces exactly the reference lines: each header entry's
   link embeds the latest level-1 label (and for level 3 the latest level-2
   label), or `""` when there is none, and a level-2 entry's ordinal is one more
   than the level-2 entries since the latest level-1 entry.
   */
  lemma PrintAliasesMatchesReference(es: seq<Entry>, sel: string)
    ensures PrintAliases(es, sel) == OpenChunks + ReferenceBody(es, sel) + [CloseChunk]
  {
    calc {
      PrintAliases(es, sel);
      OpenChunks + Walk(es, Start, sel) + [CloseChunk];
      { assert ContextOf([]) == Start; }
      OpenChunks + Walk(es, ContextOf([]), sel) + [CloseChunk];
      { assert ReferenceBody([], sel) == []; }
      OpenChunks + (ReferenceBody([], sel) + Walk(es, ContextOf([]), sel)) + [CloseChunk];
      { WalkFromContext([], es, sel); assert [] + es == es; }
      OpenChunks + ReferenceBody(es, sel) + [CloseChunk];
    }
  }

  lemma {:induction false} ReferenceBodyLength(es: seq<Entry>, sel: string)
    ensures |ReferenceBody(es, sel)| == HeaderCount(es)
    decreases |es|
  {
    if |es| > 0 {
      var init, last := es[..|es| - 1], es[|es| - 1];
      assert init + [last] == es;
      ReferenceBodySnoc(init, last, sel);
      ReferenceBodyLength(init, sel);
      HeaderCountAppend(init, [last]);
      HeaderCountOfOne(last, ContextOf(init), sel);
    }
  }

  lemma HeaderCountOfOne(e: Entry, c: Context, sel: string)
    ensures HeaderCount([e]) == |Emitted(e, c, sel)|
  {
    assert [e][1..] == [];
  }

  /**
   The alias line for the header at index `i` sits right after the framing and
   the lines of the headers before it, and is formatted in the context of the
   entries before it.
   */
  lemma AliasLineForEntry(es: seq<Entry>, i: nat, sel: string)
    requires i < |es| && IsHeader(es[i])
    ensures 2 + HeaderCount(es[..i]) < |PrintAliases(es, sel)| - 1
    ensures PrintAliases(es, sel)[2 + HeaderCount(es[..i])] == AliasLine(es[i], ContextOf(es[..i]), sel)
  {
    var b := ReferenceBody(es[..i], sel);
    var w := Walk(es[i + 1..], ContextOf(es[..i] + [es[i]]), sel);
    PrintAliasesAt(es, i, sel);
    ReferenceBodyLength(es[..i], sel);
    ChunkAfterOpening(PrintAliases(es, sel), b, AliasLine(es[i], ContextOf(es[..i]), sel), w, HeaderCount(es[..i]));
  }

  /** The output around entry `i`: the reference lines before it, its own chunk, the walk after it. */
  lemma PrintAliasesAt(es: seq<Entry>, i: nat, sel: string)
    requires i < |es|
    ensures PrintAliases(es, sel)
      == OpenChunks + (ReferenceBody(es[..i], sel) + Emitted(es[i], ContextOf(es[..i]), sel)
         + Walk(es[i + 1..], ContextOf(es[..i] + [es[i]]), sel)) + [CloseChunk]
  {
    var pre, e, post := es[..i], es[i], es[i + 1..];
    assert pre + [e] + post == es;
    var w := Walk(post, ContextOf(pre + [e]), sel);
    calc {
      PrintAliases(es, sel);
      { PrintAliasesMatchesReference(es, sel); }
      OpenChunks + ReferenceBody(pre + [e] + post, sel) + [CloseChunk];
      { WalkFromContext(pre + [e], post, sel); }
      OpenChunks + (ReferenceBody(pre + [e], sel) + w) + [CloseChunk];
      { ReferenceBodySnoc(pre, e, sel); }
      OpenChunks + (ReferenceBody(pre, sel) + Emitted(e, ContextOf(pre), sel) + w) + [CloseChunk];
    }
  }

  /** In framed output whose body starts with `n` lines, the next chunk sits at position `2 + n`. */
  lemma ChunkAfterOpening(out: seq<string>, b: seq<string>, x: string, w: seq<string>, n: nat)
    requires out == OpenChunks + (b + [x] + w) + [CloseChunk] && |b| == n
    ensures 2 + n < |out| - 1 && out[2 + n] == x
  {
  }

  lemma {:induction false} WalkAppend(a: seq<Entry>, b: seq<Entry>, c: Context, sel: string)
    ensures Walk(a + b, c, sel) == Walk(a, c, sel) + Walk(b, Run(a, c), sel)
    decreases |a|
  {
    if |a| == 0 {
      assert a + b == b;
    } else {
      assert (a + b)[1..] == a[1..] + b;
      WalkAppend(a[1..], b, Advance(a[0], c), sel);
    }
  }

  lemma WalkCons(e: Entry, q: seq<Entry>, c: Context, sel: string)
    ensures Walk([e] + q, c, sel) == Emitted(e, c, sel) + Walk(q, Advance(e, c), sel)
  {
    assert ([e] + q)[1..] == q;
  }

  /** Walking from the start leaves the context the entries walked describe. */
  lemma RunFromStart(p: seq<Entry>)
    ensures Run(p, Start) == ContextOf(p)
  {
    assert ContextOf([]) == Start;
    RunTracksContext([], p);
    assert [] + p == p;
  }

  lemma Regroup(a: seq<string>, b: seq<string>, c: seq<string>, d: seq<string>, e: seq<string>)
    ensures a + (b + (c + d)) + e == (a + b) + c + (d + e)
  {
  }

  /** The output of `p + q` cut after the lines of `p`. */
  lemma PrintAliasesSplit(p: seq<Entry>, q: seq<Entry>, sel: string)
    ensures 2 + HeaderCount(p) <= |PrintAliases(p + q, sel)|
    ensures PrintAliases(p + q, sel)[..2 + HeaderCount(p)] == OpenChunks + Walk(p, Start, sel)
    ensures PrintAliases(p + q, sel)[2 + HeaderCount(p)..] == Walk(q, Run(p, Start), sel) + [CloseChunk]
  {
    WalkAppend(p, q, Start, sel);
    CutBetween(OpenChunks, Walk(p, Start, sel), Walk(q, Run(p, Start), sel), [CloseChunk]);
  }

  lemma CutBetween(a: seq<string>, b: seq<string>, c: seq<string>, d: seq<string>)
    ensures (a + (b + c) + d)[..|a| + |b|] == a + b
    ensures (a + (b + c) + d)[|a| + |b|..] == c + d
  {
    assert a + (b + c) + d == (a + b) + (c + d);
  }

  /**
   Inserting an entry whose level is neither 1 nor 2 leaves every other line
   as it was: only the entry's own line (if any) appears, after the lines of
   the entries before it.
   */
  lemma ContextFreeEntry(p: seq<Entry>, e: Entry, q: seq<Entry>, sel: string)
    requires !(e.level in {1, 2})
    ensures 2 + HeaderCount(p) <= |PrintAliases(p + q, sel)|
    ensures PrintAliases(p + [e] + q, sel)
      == PrintAliases(p + q, sel)[..2 + HeaderCount(p)]
         + Emitted(e, ContextOf(p), sel)
         + PrintAliases(p + q, sel)[2 + HeaderCount(p)..]
  {
    var c := Run(p, Start);
    RunFromStart(p);
    var wp := Walk(p, Start, sel);
    var out := Emitted(e, c, sel);
    var wq := Walk(q, c, sel);
    PrintAliasesSplit(p, q, sel);
    calc {
      PrintAliases(p + [e] + q, sel);
      { assert p + [e] + q == p + ([e] + q); }
      OpenChunks + Walk(p + ([e] + q), Start, sel) + [CloseChunk];
      { WalkAppend(p, [e] + q, Start, sel); }
      OpenChunks + (wp + Walk([e] + q, c, sel)) + [CloseChunk];
      { WalkCons(e, q, c, sel); assert Advance(e, c) == c; }
      OpenChunks + (wp + (out + wq)) + [CloseChunk];
      { Regroup(OpenChunks, wp, out, wq, [CloseChunk]); }
      (OpenChunks + wp) + out + (wq + [CloseChunk]);
    }
  }

  /** Non-header (level 0) entries leave the output untouched. */
  lemma NonHeaderEntryIsInvisible(p: seq<Entry>, e: Entry, q: seq<Entry>, sel: string)
    requires !IsHeader(e)
    ensures PrintAliases(p + [e] + q, sel) == PrintAliases(p + q, sel)
  {
    ContextFreeEntry(p, e, q, sel);
    var w := PrintAliases(p + q, sel);
    assert w[..2 + HeaderCount(p)] + w[2 + HeaderCount(p)..] == w;
  }

  /** Without an earlier entry of `level`, its slot in the link is empty. */
  lemma {:induction false} LastLabelWithoutLevel(p: seq<Entry>, level: int)
    requires forall k :: 0 <= k < |p| ==> p[k].level != level
    ensures LastLabel(p, level) == ""
    decreases |p|
  {
    if |p| > 0 {
      LastLabelWithoutLevel(p[..|p| - 1], level);
    }
  }

  /**
   A level-2 entry's line names the latest level-1 label and is numbered one
   more than the level-2 entries since that level-1 entry.
   */
  lemma Level2Ordinal(es: seq<Entry>, i: nat, sel: string)
    requires i < |es| && es[i].level == 2
    ensures 2 + HeaderCount(es[..i]) < |PrintAliases(es, sel)| - 1
    ensures PrintAliases(es, sel)[2 + HeaderCount(es[..i])]
      == LinkHead(sel) + (LastLabel(es[..i], 1) + "#" + Label(es[i]) + "|"
         + NatToString(1 + H2SinceH1(es[..i])) + ". " + Label(es[i])) + LinkTail
  {
    AliasLineForEntry(es, i, sel);
    AliasLineLevel2(es[i], ContextOf(es[..i]), sel);
  }

  /**
   A level-2 header with no level-1 entry before it still gives a well-formed
   line: the level-1 slot of its link is empty.
   */
  lemma OrphanLevel2Link(p: seq<Entry>, e: Entry, sel: string)
    requires forall k :: 0 <= k < |p| ==> p[k].level != 1
    requires e.level == 2
    ensures AliasLine(e, ContextOf(p), sel)
      == LinkHead(sel) + ("#" + Label(e) + "|" + NatToString(1 + H2SinceH1(p)) + ". " + Label(e)) + LinkTail
  {
    NoLevel1Context(p);
    Level2LinkInContext(p, e, sel);
  }

  lemma NoLevel1Context(p: seq<Entry>)
    requires forall k :: 0 <= k < |p| ==> p[k].level != 1
    ensures ContextOf(p).h1 == ""
  {
    LastLabelWithoutLevel(p, 1);
  }

  lemma Level2LinkInContext(p: seq<Entry>, e: Entry, sel: string)
    requires ContextOf(p).h1 == "" && e.level == 2
    ensures AliasLine(e, ContextOf(p), sel)
      == LinkHead(sel) + ("#" + Label(e) + "|" + NatToString(1 + H2SinceH1(p)) + ". " + Label(e)) + LinkTail
  {
    var c := ContextOf(p);
    assert NatToString(c.h2Counter) == NatToString(1 + H2SinceH1(p));
    Level2LineWithoutH1(c, e, sel);
  }

  lemma Level2LineWithoutH1(c: Context, e: Entry, sel: string)
    requires c.h1 == "" && e.level == 2
    ensures AliasLine(e, c, sel)
      == LinkHead(sel) + ("#" + Label(e) + "|" + NatToString(c.h2Counter) + ". " + Label(e)) + LinkTail
  {
    AliasLineLevel2(e, c, sel);
    assert c.h1 + "#" == "#";
  }

  /** A level-3 header with no level-1 or level-2 entry before it: both slots are empty. */
  lemma OrphanLevel3Link(p: seq<Entry>, e: Entry, sel: string)
    requires forall k :: 0 <= k < |p| ==> p[k].level != 1 && p[k].level != 2
    requires e.level == 3
    ensures AliasLine(e, ContextOf(p), sel) == LinkHead(sel) + ("#" + "#" + Label(e) + "| - " + Label(e)) + LinkTail
  {
    LastLabelWithoutLevel(p, 1);
    LastLabelWithoutLevel(p, 2);
    Level3LineWithoutHeaders(ContextOf(p), e, sel);
  }

  lemma Level3LineWithoutHeaders(c: Context, e: Entry, sel: string)
    requires c.h1 == "" && c.h2 == "" && e.level == 3
    ensures AliasLine(e, c, sel) == LinkHead(sel) + ("#" + "#" + Label(e) + "| - " + Label(e)) + LinkTail
  {
    assert c.h1 + "#" + c.h2 + "#" == "#" + "#";
  }
}
