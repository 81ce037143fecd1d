/**
 The two editor commands built on the core: `headers-to-frontmatter`, which
 appends an aliases block made from the document's headers, and
 `delete-frontmatter`, whose boundary is computed in `Frontmatter`.
 */
module Plugin {
  import opened Strings
  import opened LineCollector
  import opened Printer

  /** The distinct lines of the document that read as headers. */
  function HeaderLineSet(lines: seq<string>): set<string>
  {
    set l | l in lines && Contains(l, "# ")
  }

  /** One alias line per distinct line that contains `"# "`. */
  lemma {:induction false} HeaderCountOfCollect(lines: seq<string>)
    ensures HeaderCount(Collect(lines)) == |HeaderLineSet(lines)|
    decreases |lines|
  {
    if |lines| == 0 {
      assert HeaderLineSet(lines) == {};
    } else {
      var init := lines[..|lines| - 1];
      var last := lines[|lines| - 1];
      assert init + [last] == lines;
      HeaderCountOfCollect(init);
      CollectSnoc(init, last);
      HeaderLineSetSnoc(init, last);
      if last !in init {
        var e := Entry(last, Classify(last));
        HeaderCountAppend(Collect(init), [e]);
        assert HeaderCount([e]) == (if IsHeader(e) then 1 else 0);
        ClassifyCountsMarkers(last);
      }
    }
  }

  lemma HeaderLineSetSnoc(init: seq<string>, last: string)
    ensures last in init ==> HeaderLineSet(init + [last]) == HeaderLineSet(init)
    ensures last !in init ==>
      |HeaderLineSet(init + [last])| == |HeaderLineSet(init)| + (if Contains(last, "# ") then 1 else 0)
  {
    var lines := init + [last];
    assert forall l :: l in lines <==> l in init || l == last;
    if last in init {
      assert HeaderLineSet(lines) == HeaderLineSet(init);
    } else if Contains(last, "# ") {
      HeaderLineSetGrows(init, last);
    } else {
      assert HeaderLineSet(lines) == HeaderLineSet(init);
    }
  }

  lemma HeaderLineSetGrows(init: seq<string>, last: string)
    requires last !in init && Contains(last, "# ")
    ensures |HeaderLineSet(init + [last])| == |HeaderLineSet(init)| + 1
  {
    var lines := init + [last];
    assert forall l :: l in lines <==> l in init || l == last;
    assert last !in HeaderLineSet(init);
    assert HeaderLineSet(lines) == HeaderLineSet(init) + {last};
  }

  /**
   `headers-to-frontmatter`: the chunks appended at the end of the document,
   for the file's base name `fileName` (`""` when the view has no file): the
   framing plus one alias line per distinct header line of the document.
   */
  function HeadersToFrontmatter(text: string, fileName: string): (r: seq<string>)
    ensures |r| == 3 + |HeaderLineSet(Lines(text))|
    ensures r[0] == "---\n" && r[1] == "aliases:\n" && r[|r| - 1] == "---\n"
  {
    HeaderCountOfCollect(Lines(text));
    PrintAliases(HeaderDictionary(text), fileName)
  }
}
