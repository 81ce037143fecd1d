/**
 Small documents and the output the model is proved to give for them: the
 aliases for a three-level header hierarchy and for a repeated header line,
 and the frontmatter boundary found (or not) in short documents.
 */
module Scenarios {
  import opened Wrappers
  import opened Strings
  import opened LineCollector
  import opened Decimal
  import opened Printer
  import opened Frontmatter
  import opened Plugin

  /** `sub` cannot occur when one of its characters never sits at the matching offset. */
  lemma AbsentByChar(s: string, sub: string, m: nat)
    requires m < |sub|
    requires forall k :: m <= k && k - m + |sub| <= |s| ==> s[k] != sub[m]
    ensures !Contains(s, sub)
  {
    forall j | 0 <= j && j + |sub| <= |s|
      ensures !OccursAt(s, sub, j)
    {
      assert s[j..j + |sub|][m] == s[j + m];
    }
    ContainsMeansOccurs(s, sub);
  }

  lemma PresentAt(s: string, sub: string, i: nat)
    requires OccursAt(s, sub, i)
    ensures Contains(s, sub)
  {
    ContainsMeansOccurs(s, sub);
  }

  lemma ClassifyLevel1()
    ensures Classify("# Intro") == 1
  {
    AbsentByChar("# Intro", "### ", 1);
    AbsentByChar("# Intro", "## ", 1);
    PresentAt("# Intro", "# ", 0);
  }

  lemma ClassifyLevel2()
    ensures Classify("## Setup") == 2
  {
    AbsentByChar("## Setup", "### ", 2);
    PresentAt("## Setup", "## ", 0);
  }

  lemma ClassifyLevel3()
    ensures Classify("### Step one") == 3
  {
    PresentAt("### Step one", "### ", 0);
  }

  lemma LabelIntro()
    ensures Label(Entry("# Intro", 1)) == "Intro"
  {
    assert "# Intro" == "#" + " " + "Intro";
    RemoveFirstElementOfToken("#", "Intro");
  }

  lemma LabelSetup()
    ensures Label(Entry("## Setup", 2)) == "Setup"
  {
    assert "## Setup" == "##" + " " + "Setup";
    RemoveFirstElementOfToken("##", "Setup");
  }

  lemma LabelStepOne()
    ensures Label(Entry("### Step one", 3)) == "Step one"
  {
    assert "### Step one" == "###" + " " + "Step one";
    RemoveFirstElementOfToken("###", "Step one");
  }

  /**
   A three-level hierarchy with no file name: every link still starts with
   `#`, the level-2 entry is numbered 1 and the level-3 entry carries the
   fixed ` - ` marker.
   */
  lemma HierarchyWithoutFileName()
    ensures HeadersToFrontmatter(HierarchyText, "") == ["---\n", "aliases:\n"] + HierarchyAliasLines + ["---\n"]
  {
    HierarchyLines();
    HierarchyEntries();
    HierarchyAliases();
  }

  const Intro := Entry("# Intro", 1)
  const Setup := Entry("## Setup", 2)
  const StepOne := Entry("### Step one", 3)

  /** The document `# Intro`, `## Setup`, `### Step one`, one header per line. */
  const HierarchyText := Intro.raw + "\n" + Setup.raw + "\n" + StepOne.raw

  /** Three separator-free lines joined by line breaks split back into those lines. */
  lemma LinesOfThree(a: string, b: string, c: string)
    requires '\n' !in a && '\n' !in b && '\n' !in c
    ensures Lines(a + "\n" + b + "\n" + c) == [a, b, c]
  {
    var ls := [a, b, c];
    assert ls[1..] == [b, c];
    assert ls[1..][1..] == [c];
    assert Join([c], '\n') == c;
    assert Join(ls, '\n') == a + "\n" + b + "\n" + c;
    SplitJoin(ls, '\n');
  }

  lemma HierarchyLines()
    ensures Lines(HierarchyText) == [Intro.raw, Setup.raw, StepOne.raw]
  {
    LinesOfThree(Intro.raw, Setup.raw, StepOne.raw);
  }

  /** Three distinct lines are collected as three entries, in order. */
  lemma CollectThree(a: string, b: string, c: string)
    requires a != b && a != c && b != c
    ensures Collect([a, b, c]) == [Entry(a, Classify(a)), Entry(b, Classify(b)), Entry(c, Classify(c))]
  {
    CollectSnoc([], a);
    assert [] + [a] == [a];
    CollectSnoc([a], b);
    assert [a] + [b] == [a, b];
    CollectSnoc([a, b], c);
    assert [a, b] + [c] == [a, b, c];
  }

  lemma HierarchyEntries()
    ensures Collect([Intro.raw, Setup.raw, StepOne.raw]) == [Intro, Setup, StepOne]
  {
    ClassifyLevel1();
    ClassifyLevel2();
    ClassifyLevel3();
    CollectThree(Intro.raw, Setup.raw, StepOne.raw);
  }

  lemma IntroLineParts(c: Context)
    ensures AliasLine(Intro, c, "") == LinkHead("") + ("Intro" + "|" + "Intro") + LinkTail
  {
    LabelIntro();
  }

  lemma IntroLineText()
    ensures LinkHead("") + ("Intro" + "|" + "Intro") + LinkTail == "- \"[[#Intro|Intro]]\"\n"
  {
  }

  lemma SetupLineParts(c: Context)
    requires c.h1 == "Intro" && c.h2Counter == 1
    ensures AliasLine(Setup, c, "") == LinkHead("") + ("Intro" + "#" + "Setup" + "|" + "1" + ". " + "Setup") + LinkTail
  {
    LabelSetup();
    NatToStringOne();
  }

  lemma NatToStringOne()
    ensures NatToString(1) == "1"
  {
  }

  lemma SetupLineText()
    ensures LinkHead("") + ("Intro" + "#" + "Setup" + "|" + "1" + ". " + "Setup") + LinkTail
      == "- \"[[#Intro#Setup|1. Setup]]\"\n"
  {
    RegroupBody(LinkHead(""), "Intro", "#", "Setup", "|", "1", ". ", "Setup", LinkTail);
    SetupHead();
    SetupTail();
    SetupJoined();
  }

  lemma SetupHead()
    ensures LinkHead("") + "Intro" + "#" + "Setup" + "|" == "- \"[[#Intro#Setup|"
  {
  }

  lemma SetupTail()
    ensures "1" + ". " + "Setup" + LinkTail == "1. Setup]]\"\n"
  {
  }

  lemma SetupJoined()
    ensures "- \"[[#Intro#Setup|" + "1. Setup]]\"\n" == "- \"[[#Intro#Setup|1. Setup]]\"\n"
  {
  }

  /** Seven body pieces between a head and a tail, regrouped after the fourth. */
  lemma RegroupBody(head: string, c: string, d: string, e: string, f: string, g: string, h: string, k: string, tail: string)
    ensures head + (c + d + e + f + g + h + k) + tail == (head + c + d + e + f) + (g + h + k + tail)
  {
  }

  lemma StepOneLineParts(c: Context)
    requires c.h1 == "Intro" && c.h2 == "Setup"
    ensures AliasLine(StepOne, c, "")
      == LinkHead("") + ("Intro" + "#" + "Setup" + "#" + "Step one" + "| - " + "Step one") + LinkTail
  {
    LabelStepOne();
  }

  lemma StepOneLineText()
    ensures LinkHead("") + ("Intro" + "#" + "Setup" + "#" + "Step one" + "| - " + "Step one") + LinkTail
      == "- \"[[#Intro#Setup#Step one| - Step one]]\"\n"
  {
    RegroupBody(LinkHead(""), "Intro", "#", "Setup", "#", "Step one", "| - ", "Step one", LinkTail);
    StepOneHead();
    StepOneTail();
    StepOneJoined();
  }

  lemma StepOneHead()
    ensures LinkHead("") + "Intro" + "#" + "Setup" + "#" == "- \"[[#Intro#Setup#"
  {
  }

  lemma StepOneTail()
    ensures "Step one" + "| - " + "Step one" + LinkTail == "Step one| - Step one]]\"\n"
  {
  }

  lemma StepOneJoined()
    ensures "- \"[[#Intro#Setup#" + "Step one| - Step one]]\"\n" == "- \"[[#Intro#Setup#Step one| - Step one]]\"\n"
  {
  }

  const HierarchyAliasLines: seq<string> := [
    "- \"[[#Intro|Intro]]\"\n",
    "- \"[[#Intro#Setup|1. Setup]]\"\n",
    "- \"[[#Intro#Setup#Step one| - Step one]]\"\n"
  ]

  lemma HierarchyWalkLines()
    ensures Walk([Intro, Setup, StepOne], Start, "") == HierarchyAliasLines
  {
    HierarchyWalk();
    IntroLine();
    SetupLine();
    StepOneLine();
  }

  lemma HierarchyAliases()
    ensures PrintAliases([Intro, Setup, StepOne], "") == ["---\n", "aliases:\n"] + HierarchyAliasLines + ["---\n"]
  {
    HierarchyWalkLines();
    Framed([Intro, Setup, StepOne], "", HierarchyAliasLines);
  }

  lemma Framed(es: seq<Entry>, sel: string, w: seq<string>)
    requires Walk(es, Start, sel) == w
    ensures PrintAliases(es, sel) == ["---\n", "aliases:\n"] + w + ["---\n"]
  {
  }

  lemma IntroLine()
    ensures AliasLine(Intro, Start, "") == "- \"[[#Intro|Intro]]\"\n"
  {
    IntroLineParts(Start);
    IntroLineText();
  }

  lemma SetupLine()
    ensures AliasLine(Setup, Context("Intro", "", 1), "") == "- \"[[#Intro#Setup|1. Setup]]\"\n"
  {
    SetupLineParts(Context("Intro", "", 1));
    SetupLineText();
  }

  lemma StepOneLine()
    ensures AliasLine(StepOne, Context("Intro", "Setup", 2), "") == "- \"[[#Intro#Setup#Step one| - Step one]]\"\n"
  {
    StepOneLineParts(Context("Intro", "Setup", 2));
    StepOneLineText();
  }

  lemma AdvanceIntro()
    ensures Advance(Intro, Start) == Context("Intro", "", 1)
  {
    LabelIntro();
  }

  lemma AdvanceSetup()
    ensures Advance(Setup, Context("Intro", "", 1)) == Context("Intro", "Setup", 2)
  {
    LabelSetup();
  }

  /** Three header entries in a row: each is formatted in the context the previous ones leave. */
  lemma WalkThreeHeaders(a: Entry, b: Entry, d: Entry, c: Context, sel: string)
    requires IsHeader(a) && IsHeader(b) && IsHeader(d)
    ensures Walk([a, b, d], c, sel) == [
      AliasLine(a, c, sel),
      AliasLine(b, Advance(a, c), sel),
      AliasLine(d, Advance(b, Advance(a, c)), sel)
    ]
  {
    WalkCons(d, [], Advance(b, Advance(a, c)), sel);
    WalkCons(b, [d], Advance(a, c), sel);
    WalkCons(a, [b, d], c, sel);
    assert [a, b, d] == [a] + [b, d];
    assert [b, d] == [b] + [d];
    assert [d] == [d] + [];
  }

  lemma HierarchyWalk()
    ensures Walk([Intro, Setup, StepOne], Start, "") == [
      AliasLine(Intro, Start, ""),
      AliasLine(Setup, Context("Intro", "", 1), ""),
      AliasLine(StepOne, Context("Intro", "Setup", 2), "")
    ]
  {
    AdvanceIntro();
    AdvanceSetup();
    WalkThreeHeaders(Intro, Setup, StepOne, Start, "");
  }

  /** A header line repeated verbatim yields a single alias line. */
  lemma RepeatedHeaderOnce(fileName: string)
    ensures |HeadersToFrontmatter("# A\n# A", fileName)| == 4
  {
    var ls := ["# A", "# A"];
    assert ls[1..] == ["# A"];
    assert Join(ls, '\n') == "# A\n# A";
    SplitJoin(ls, '\n');
    PresentAt("# A", "# ", 0);
    assert HeaderLineSet(ls) == {"# A"};
  }

  /** Line 0 has length 5 and line 1 is `---`: the boundary is `5 + 0`. */
  lemma BoundaryAfterTitle()
    ensures FrontmatterLength(["title", "---", "body"]) == Some(5)
  {
  }

  /** No `---` after line 0: nothing is found and nothing would be deleted. */
  lemma NoBoundaryWithoutMarker()
    ensures FrontmatterLength(["title", "body", "more"]) == None
  {
    var ls := ["title", "body", "more"];
    assert ls[1..|ls| - 1] == ["body"];
    assert ["body"][1..] == [];
    assert Terminated(["body"]) == "body" + "\n" + "";
    assert RangeAfterFirstLine(ls) == "body\n";
    AbsentByChar("body\n", Marker, 0);
  }

  /** The last line is outside the searched range, so a closing `---` there is not found. */
  lemma ClosingMarkerOnLastLineIgnored()
    ensures FrontmatterLength(["---", "title: x", "---"]) == None
  {
    var ls := ["---", "title: x", "---"];
    assert ls[1..|ls| - 1] == ["title: x"];
    assert ["title: x"][1..] == [];
    assert Terminated(["title: x"]) == "title: x" + "\n" + "";
    assert RangeAfterFirstLine(ls) == "title: x\n";
    AbsentByChar("title: x\n", Marker, 0);
  }
}
