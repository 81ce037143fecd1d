# Aliaser plugin core, modelled in Dafny

This project models the core of an Obsidian plugin that turns a note's
markdown headers into a frontmatter `aliases:` block. It also models the
small boundary computation behind the plugin's "delete frontmatter" command.

The header-to-aliases pipeline has three stages:

- **Collect.** `LineCollector` splits the document on `\n`. It classifies
  every distinct raw line by header level. The first of the markers `"### "`,
  `"## "` and `"# "` found anywhere in the line gives level 3, 2 or 1.
  Anything else is level 0. Lines stay in order of first occurrence, because
  the source stores them in an insertion-ordered `Map`. The model stores them
  as a `seq<Entry>` with distinct raw keys.
- **Format.** `Printer.printAliases` walks the entries with the state
  `tempH1`, `tempH2` and `h2Counter`. It emits `---`, `aliases:`, one quoted
  wiki link per level-1/2/3 entry, and a closing `---`. Every link starts with
  `headerSelection + "#"`. A label is the raw line with its first
  space-delimited token dropped (`removeFirstElement`).
  - Level-2 links are numbered by a counter that a level-1 entry resets.
  - Level-3 links use the fixed marker ` - `.
  - A level-1 entry does not clear `tempH2`.
- **Emit.** The editor's `replaceSelection` calls become a pure function.
  It returns the sequence of appended chunks.

The frontmatter boundary is the length of line 0 plus the first index of
`---`. The search runs from the start of line 1 up to the start of the last
line. When nothing is found, the result is `None` and no deletion dialog
opens.

Modules:

- `Strings` models `split`, `join`, `indexOf`, `contains` and
  `removeFirstElement` over `seq<char>`.
- `Decimal` models the decimal rendering of the level-2 counter.
- `LineCollector`, `Printer`, `Frontmatter` and `Plugin` model the stages
  and commands above.
- `Scenarios` works through small documents.

The formatter is proved against an independent description of its context.
`ContextOf(p)` computes the context from the entries `p` before a position:
- the label of the most recent level-1 entry;
- the label of the most recent level-2 entry;
- one more than the number of level-2 entries since the last level-1 entry.

Three behaviours of `main.ts` follow directly from the code and are proved:

- The `#` separator is written even when the file name is empty. The link
  for `# Intro` is then `[[#Intro|Intro]]`. A level-2 header with no level-1
  header before it links as `[[##Orphan|1. Orphan]]`.
- The boundary search stops at the start of the last line, so the last line
  is never searched (`Scenarios.ClosingMarkerOnLastLineIgnored`).
- Level-3 labels use the fixed marker ` - `. No level-3 counter exists.

## Model

| member | source | states |
|---|---|---|
| Strings.IndexOf | main.ts:48 | the result is the first position where the needle occurs; `None`, standing for `-1`, exactly when it occurs nowhere |
| Strings.Split | main.ts:169 | splitting on one separator gives at least one piece, no piece holds the separator, and joining the pieces restores the input |
| Strings.SplitJoin | main.ts:154-156 | splitting undoes joining for any non-empty list of separator-free pieces |
| Strings.RemoveFirstElement | main.ts:152-157 | the label is everything after the first space, or `""` when the line has no space |
| Strings.RemoveFirstElementOfToken | main.ts:152-157 | dropping a space-free leading token and one space returns the remainder unchanged |
| Strings.ContainsTail | main.ts:187-191 | a line containing `x + y` also contains `y`, so a longer marker implies the shorter ones |
| Strings.Contains | main.ts:187-191 | `line.contains(marker)`; `Strings.ContainsMeansOccurs` states it holds exactly when the marker occurs at some position |
| Strings.ContainsMeansOccurs | main.ts:187-191 | a line contains a marker exactly when the marker occurs at some position of it |
| Strings.Join | main.ts:156 | `list.join(' ')`; `Strings.Split` states joining the split pieces restores the input and `Strings.SplitJoin` states splitting undoes joining |
| Decimal.NatToString | main.ts:125 | the counter renders as a non-empty string of decimal digits with no leading zero |
| Decimal.DecimalRoundTrip | main.ts:125 | reading the rendered digits back gives the counter that was rendered |
| Decimal.NatToStringInjective | main.ts:125 | different counters render as different strings |
| LineCollector.Lines | main.ts:167-176 | the document splits into at least one line, none holds `\n`, and joining the lines with `\n` restores the document |
| LineCollector.Classify | main.ts:187-195 | every level is in 0..3 |
| LineCollector.ClassifyCountsMarkers | main.ts:187-195 | the level equals how many of the markers `"# "`, `"## "`, `"### "` the line contains; level at least 1, at least 2 and exactly 3 hold exactly when the line contains `"# "`, `"## "` and `"### "` respectively |
| LineCollector.FirstIndex | main.ts:182-186 | the index returned holds the line and no earlier index does |
| LineCollector.Add | main.ts:183-195 | one loop iteration; `LineCollector.CollectSnoc` states a seen line is skipped and a new one is appended with its level, and `LineCollector.AddStep` states the step keeps the dictionary's invariant |
| LineCollector.Collect | main.ts:182-196 | the whole loop; `LineCollector.CollectSummarises` states its keys are exactly the distinct input lines, each with its level, in order of first occurrence |
| LineCollector.FirstIndexOfPrefix | main.ts:182-186 | appending lines never moves a line's first occurrence |
| LineCollector.CollectSummarises | main.ts:178-199 | every entry's key is an input line with its classified level; every input line is a key; keys are pairwise distinct; entries appear in increasing order of first occurrence |
| LineCollector.AddStep | main.ts:182-196 | one loop step preserves the four properties above, taken over the lines seen so far |
| LineCollector.CollectSnoc | main.ts:182-196 | one more line is skipped if already seen, otherwise appended with its classified level |
| LineCollector.HeaderDictionary | main.ts:178-199 | the dictionary's keys are exactly the document's lines |
| LineCollector.CollectIgnoresRepeats | main.ts:183-185 | lines that repeat earlier ones add no entries |
| Printer.AliasLineWellFormed | main.ts:117-134 | every alias chunk starts with `- "[[` plus the selection plus `#`, and ends with `]]"` and a newline |
| Printer.Label | main.ts:115 | `removeFirstElement(str)` on the raw key; `Strings.RemoveFirstElement` states it is the text after the first space, or `""` |
| Printer.AliasLine | main.ts:117-134 | the text of each `case`; `Printer.AliasLineWellFormed` states its framing, `Printer.Level2Ordinal` its level-2 counter, and `Scenarios.HierarchyWithoutFileName` its three forms on a concrete document |
| Printer.Walk | main.ts:111-135 | the loop emits exactly one chunk per entry of level 1, 2 or 3 |
| Printer.PrintAliases | main.ts:99-139 | the output starts with `---` then `aliases:`, ends with `---`, and has exactly one chunk per header entry between them |
| Printer.AliasLinesWellFormed | main.ts:111-135 | every chunk between the framing lines is a well-formed alias link with the selection prefix |
| Printer.AdvanceTracksContext | main.ts:117-134 | each switch case maps the context of a prefix to the context of the extended prefix: level 1 sets `h1` and resets the counter to 1 but keeps `h2`; level 2 sets `h2` and bumps the counter; levels 0 and 3 change nothing |
| Printer.Advance | main.ts:121-128 | the state updates of the `case`s; `Printer.AdvanceTracksContext` states they turn the context of a prefix into the context of the extended prefix |
| Printer.ContextOf | main.ts:100-128 | the state before an entry, read off the entries before it; `Printer.RunTracksContext` states the loop's state always equals it |
| Printer.ReferenceBody | main.ts:111-135 | one chunk per header entry, each formatted in `Printer.ContextOf` of its prefix; `Printer.PrintAliasesMatchesReference` states the loop produces exactly these chunks |
| Printer.RunTracksContext | main.ts:111-135 | starting from the context of a prefix `p`, walking further entries `rest` ends in the context of `p + rest` |
| Printer.WalkFromContext | main.ts:111-135 | walking the rest from a prefix's context appends exactly the reference lines of the rest |
| Printer.PrintAliasesMatchesReference | main.ts:99-139 | the stateful walk equals the framing around the reference lines, each computed from its own prefix |
| Printer.AliasLineForEntry | main.ts:111-135 | the header at index `i` yields the chunk at position 2 plus the number of earlier headers, formatted in the context of its prefix |
| Printer.ContextFreeEntry | main.ts:130-133 | inserting a level-3 or level-0 entry leaves every other chunk unchanged and adds only its own chunk |
| Printer.NonHeaderEntryIsInvisible | main.ts:117-134 | inserting a level-0 entry anywhere leaves the output unchanged |
| Printer.Level2Ordinal | main.ts:103-128 | a level-2 chunk embeds the latest level-1 label and the number 1 plus the count of level-2 entries since the latest level-1 entry |
| Printer.LastLabelWithoutLevel | main.ts:100-101 | with no earlier entry of a level, that level's slot is `""` |
| Printer.OrphanLevel2Link | main.ts:100-125 | a level-2 header with no earlier level-1 entry still gets a well-formed link with an empty level-1 slot |
| Printer.OrphanLevel3Link | main.ts:100-131 | a level-3 header with no earlier level-1 or level-2 entry still gets a link with both slots empty |
| Frontmatter.FrontmatterLength | main.ts:45-54 | `None` means `---` occurs nowhere in the searched range; otherwise the result is line 0's length plus the first occurrence of `---` in that range |
| Frontmatter.DocumentAroundRange | main.ts:47 | the document is line 0, a line break, the searched range, and the last line |
| Frontmatter.RangeAfterFirstLine | main.ts:47 | `getRange` from line 1 to the start of the last line; `Frontmatter.DocumentAroundRange` states it is exactly the document between the end of line 0's break and the start of the last line |
| Frontmatter.DocumentFrontmatterLength | main.ts:45-51 | the command on a whole document; `Frontmatter.DocumentBoundaryHasMarker` states a found boundary `n` has `---` at offset `n + 1` of the document |
| Frontmatter.BoundaryInDocument | main.ts:45-51 | in the whole document, a found boundary `n` has `---` at offset `n + 1`, with none starting earlier in line 1 onward; `None` means no `---` lies wholly inside the searched lines |
| Frontmatter.DocumentBoundaryHasMarker | main.ts:45-51 | on a document text, a found boundary `n` has `---` at offset `n + 1` |
| Plugin.HeaderCountOfCollect | main.ts:178-199 | the number of alias lines equals the number of distinct document lines containing `"# "` |
| Plugin.HeadersToFrontmatter | main.ts:22-37 | the command appends the framing plus one alias line per distinct header line of the document |
| Scenarios.HierarchyWithoutFileName | main.ts:99-139 | `# Intro`, `## Setup`, `### Step one` with no file name give `[[#Intro\|Intro]]`, `[[#Intro#Setup\|1. Setup]]`, `[[#Intro#Setup#Step one\| - Step one]]` |
| Scenarios.ClassifyLevel2 | main.ts:187-195 | `## Setup` classifies as level 2 |
| Scenarios.RepeatedHeaderOnce | main.ts:182-186 | a header line repeated verbatim yields one alias line |
| Scenarios.BoundaryAfterTitle | main.ts:45-51 | a 5-character line 0 followed by a `---` line gives the boundary 5 |
| Scenarios.NoBoundaryWithoutMarker | main.ts:48-50 | a document with no `---` after line 0 gives no boundary |
| Scenarios.ClosingMarkerOnLastLineIgnored | main.ts:47-48 | a `---` on the last line is outside the searched range and is not found |

## Left out

- Plugin lifecycle is not modelled: `onload`, `onunload`, command registration, `loadSettings` and `saveSettings`. It is host API and persistence.
- The settings tab and the deletion confirmation modal are not modelled, including its `replaceRange` with `'\f'`. They are DOM and UI code.
- The click listener and the interval timer are not modelled. They only log.
- `editor.setCursor(-1)` is read as "append at the end". The chunk sequence is what gets appended.
- `printFileShortcut` is not modelled. It is an unfinished stub whose only effect is an unused `getValue` call.
- `stringRemover` is not modelled. It is dead code: it discards the result of `replace` and returns nothing.
- The file's base name (`view.file?.basename || ''`) is an input string. Obtaining it is host API.
- Document access is modelled by inputs. The document is a string for the convert command and a sequence of lines for the boundary. `\r` handling by the editor is not modelled.
- Frontmatter.FrontmatterLength: requires at least one line, because the host editor always has one. `Frontmatter.DocumentFrontmatterLength` takes any text.
- Lengths and offsets count Dafny characters (Unicode scalar values), not the UTF-16 code units JavaScript counts. They agree on text without astral characters.
- Decimal.NatToString: the counter is an unbounded natural. JavaScript number formatting past 2^53 is not modelled, since a note cannot hold that many headers.
