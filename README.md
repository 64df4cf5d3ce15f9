# cocoatree lockfile parser, modelled in Dafny

cocoatree takes the text of a CocoaPods `Podfile.lock`, pasted by a user,
and draws its dependency graph. `LockfileParser.parse(lockfile:)` does the
work, in five steps:

1. It picks the line break: `"\r\n"` when the text holds a carriage return,
   `"\n"` otherwise.
2. It keeps the PODS section, which is everything before the first
   `DEPENDENCIES:`.
3. It splits that section into lines. Each line is classified by its
   indentation: `"    -"` marks a dependency, `"  -"` a library, and
   anything else is of no kind. The pod name is the second word of the
   trimmed line.
4. It folds the lines into a hierarchy, a map from each library to its
   direct dependencies. The parse fails when some dependency is not itself
   a library, and when there is no library at all.
5. It renders the hierarchy as a graph. The nodes are a synthetic `App`
   node followed by one node per library. The edges run from `App` to each
   root library (one that no library depends on), then from each library
   to each of its dependencies.

The Dafny project follows that structure. There is one module per stage:

- `Wrappers`: `Option`, and `Result`, whose `ParseError` case stands for
  the thrown `ParseError`.
- `Text`: the Foundation string operations the parser uses, over
  `seq<char>`. These are prefix tests, substring search,
  `components(separatedBy:)` (`Split`, with `Join` as its inverse) and
  `trimmingCharacters(in: .whitespacesAndNewlines)` (`Trim`).
- `LockfileLines`: line-break choice, the section cut, `lineType` and
  `nameFromLine`.
- `DependencyHierarchy`: the fold.
  - `BuildHierarchy` states the fold as a function over an explicit
    accumulator.
  - `FlattenedDependencyHierarchy` is the source's loop, proved to compute
    it, followed by the closure check.
  - The lemmas characterise the keys and the value lists without
    reference to the accumulator.
- `GraphDisplay`: `rootLibraries`, the graph as a function (`Render`), the
  source's loops (`FormatHierarchyForDisplay`) proved to build it, and
  order-independent facts about the nodes and edges.
- `LockfileParser`: `parse` as a method, proved to fail exactly when the
  hierarchy is not closed or is empty, and otherwise to return
  `Render` of it.
- `ParserScenarios`: the lockfiles of the repository's unit tests, carried
  through the model. Each lemma concludes that the hierarchy passes (or
  fails) the two checks, and what the rendered graph contains. `Parse`'s
  postcondition turns those facts into the result of the parse.

A Swift `[String: [String]]` becomes a `Hierarchy`. It is a key sequence
in insertion order, plus a map, constrained to have distinct keys and
exactly the map's domain. Swift leaves dictionary and set order
unspecified. So every property about the graph is stated by membership and
counts, never by position, except that `App` comes first.

On one point the code and its test suite disagree, and the model follows
the code. `Tests/AppTests/LockfileParserTests.swift:5-15` expects
`parse("")` to return the `App` node alone. In the code, the only line of
`""` yields no name, so the hierarchy is empty and line 40 throws
(`LockfileParser.EmptyLockfileFails`).

## Model

| member | source | states |
|---|---|---|
| LockfileLines.Classify | Sources/App/LockfileParser.swift:4-19 | A line is a dependency exactly when it starts with `"    -"`, and a library exactly when it starts with `"  -"`. It is of no kind exactly when neither holds. The dependency test comes first, but the two cannot both hold. |
| LockfileLines.NameFromLineCases | Sources/App/LockfileParser.swift:128-135 | `nameFromLine` yields nil exactly when the trimmed line holds no space. A name it yields never holds a space. |
| LockfileLines.NameIsSecondWord | Sources/App/LockfileParser.swift:128-135 | A yielded name is the second space-separated word of the trimmed line: `Trim(line) == first + " " + name + rest`, where `first` has no space and `rest` is empty or starts with a space. |
| LockfileLines.NameFromLine | Sources/App/LockfileParser.swift:128-135 | No contract of its own. Its behaviour is stated by the rows for NameFromLineCases, NameIsSecondWord, NameOfPodLine and NameIgnoresIndent. |
| LockfileLines.NameOfPodLine | Sources/App/LockfileParser.swift:128-135 | Take a lockfile line: an indent of spaces, `"- "`, a name without spaces, then nothing or a space and more text, with the last character of the line not whitespace. It yields that name. |
| LockfileLines.NameIgnoresIndent | Sources/App/LockfileParser.swift:128-135 | Indenting a line with spaces does not change the name it yields. |
| LockfileLines.NameOfVersionedPod | Sources/App/LockfileParser.swift:128-135 | `"  - Foo (1.0)"` yields `Foo`. |
| LockfileLines.PodsSection | Sources/App/LockfileParser.swift:124-126 | The PODS section is a prefix of the text, and the marker starts nowhere inside it. It is the whole text exactly when there is no `DEPENDENCIES:`; otherwise the marker starts right after it. |
| LockfileLines.SectionWithoutMarker | Sources/App/LockfileParser.swift:124-126 | A text missing some character of `DEPENDENCIES:` is its own PODS section. |
| LockfileLines.SectionBeforeMarker | Sources/App/LockfileParser.swift:124-126 | For a text `before + "DEPENDENCIES:" + after`, the PODS section is `before` exactly when the marker starts nowhere in `before + "DEPENDENCIES:"` ahead of its own place. |
| LockfileLines.NoMarkerBeforeBreak | Sources/App/LockfileParser.swift:124-126 | When `before` holds no marker and ends in a character the marker lacks, such as a line feed, the marker starts nowhere in `before + "DEPENDENCIES:"` ahead of its own place. |
| LockfileLines.LineBreak | Sources/App/LockfileParser.swift:34 | No contract of its own. The PodLines row states what splitting on its result gives, in each of its two cases. |
| LockfileLines.PodLines | Sources/App/LockfileParser.swift:34-37 | With a carriage return, the lines joined by `"\r\n"` give back the PODS section and none holds `"\r\n"`. Without one, they join by `"\n"` and none holds a line feed. |
| LockfileLines.PodLinesOfSection | Sources/App/LockfileParser.swift:34-37 | Without carriage returns, the lines are the only line-feed-free list that joins back to the PODS section. |
| Text.Split | Sources/App/LockfileParser.swift:37 | `components(separatedBy:)` returns at least one piece, and joining the pieces with the separator gives back the input. |
| Text.SplitPiecesAreFree | Sources/App/LockfileParser.swift:37 | No piece holds the separator, and no piece followed by the first part of the separator completes it: the matches are leftmost. |
| Text.SplitJoinChar | Sources/App/LockfileParser.swift:37 | Splitting on a character inverts joining with it, for pieces free of that character. |
| Text.SplitIsSingleIff | Sources/App/LockfileParser.swift:130-131 | There is a single piece exactly when the separator does not occur. |
| Text.SplitFirstPiece | Sources/App/LockfileParser.swift:125 | The first piece is the text before the leftmost occurrence of the separator, or the whole text when there is none. |
| Text.Trim | Sources/App/LockfileParser.swift:129 | The trimmed text is a slice of the input, and everything cut off on either side of it is whitespace. It neither starts nor ends with whitespace. It is empty exactly when the whole text is whitespace. |
| Text.TrimStartSkipsBlanks | Sources/App/LockfileParser.swift:129 | Leading whitespace makes no difference to what trimming the front leaves. |
| Text.TrimStartAfterBlanks | Sources/App/LockfileParser.swift:129 | Trimming the front of blanks followed by a non-blank text leaves that text. |
| DependencyHierarchy.Put | Sources/App/LockfileParser.swift:95 | Assigning a library's list updates that one entry of the map. |
| DependencyHierarchy.Step | Sources/App/LockfileParser.swift:99-111 | No contract of its own. The rows for ScanAppend, ScanValue, SkippedLineChangesNothing and HierarchyKeys state what a run of steps does. |
| DependencyHierarchy.Finalize | Sources/App/LockfileParser.swift:93-97 | No contract of its own. The ScanValue row states the open library's final list, and the HierarchyEntry row the resulting entry. |
| DependencyHierarchy.HierarchyKeys | Sources/App/LockfileParser.swift:88-112 | A name is a key exactly when some line is a library line with that name. |
| DependencyHierarchy.HierarchyOfKeys | Sources/App/LockfileParser.swift:99-111 | The same on the raw lines: some line is classified a library and yields that name. |
| DependencyHierarchy.HierarchyEntry | Sources/App/LockfileParser.swift:88-112 | A library's list holds the names of the dependency lines after its last library line, in order, up to the next library line or the end. An earlier line for the same name is overwritten. |
| DependencyHierarchy.ScanAppend | Sources/App/LockfileParser.swift:99-111 | The scan of a concatenation is the scan of the first part, continued over the second. |
| DependencyHierarchy.ScanValue | Sources/App/LockfileParser.swift:99-112 | An open library's final list is its collected names plus the dependency names up to the next library line. A committed library keeps its list. |
| DependencyHierarchy.SkippedLineChangesNothing | Sources/App/LockfileParser.swift:100-109 | A line that yields no name, or yields one but is of no kind, does not change the hierarchy. |
| DependencyHierarchy.LeadingDependenciesDropped | Sources/App/LockfileParser.swift:91-107 | Dependency lines before the first library line are dropped. |
| DependencyHierarchy.UnopenedDepsIgnored | Sources/App/LockfileParser.swift:92-107 | While no library is open, collected dependency names never reach the hierarchy. |
| DependencyHierarchy.FlattenedDependencyHierarchy | Sources/App/LockfileParser.swift:88-122 | The loop with its open-library variables computes the fold. It succeeds exactly when every listed dependency is a key, and then returns the fold's hierarchy; otherwise it returns no partial result. |
| DependencyHierarchy.DependenciesAreLibraries | Sources/App/LockfileParser.swift:114-119 | The nested loops report success exactly when every dependency of every library is itself a library. |
| GraphDisplay.WithoutAre | Sources/App/LockfileParser.swift:79 | The set difference keeps exactly the names outside the excluded set, and repeats none. |
| GraphDisplay.RootLibraries | Sources/App/LockfileParser.swift:76-80 | No contract of its own. The RootLibrariesAre row states which names it returns. |
| GraphDisplay.RootLibrariesAre | Sources/App/LockfileParser.swift:76-80 | The roots are exactly the libraries that no library lists as a dependency, each named once. |
| GraphDisplay.Render | Sources/App/LockfileParser.swift:51-69 | No contract of its own. The rows for RenderNodes, NodeIdsDistinct, RenderEdges and EdgesEndAtNodes state its nodes and edges. |
| GraphDisplay.RenderNodes | Sources/App/LockfileParser.swift:54-60 | `App` is the first node. There is one node per library, so there are 1 + (number of libraries) nodes. A name is a node id exactly when it is `App` or a library. |
| GraphDisplay.NodeIdsDistinct | Sources/App/LockfileParser.swift:54-60 | Node ids are all different exactly when no library is called `App`. |
| GraphDisplay.DependencyEdgesAre | Sources/App/LockfileParser.swift:58-66 | The library edges are exactly the pairs of a library and a name on its list, one per list entry. |
| GraphDisplay.RenderEdges | Sources/App/LockfileParser.swift:56-66 | An edge runs either from `App` to a library nobody depends on, or from a library to a name on its list; every such pair is an edge. There are (number of roots) + (sum of list lengths) edges. |
| GraphDisplay.EdgesEndAtNodes | Sources/App/LockfileParser.swift:51-69 | When the closure check holds, both ends of every edge are nodes. |
| GraphDisplay.FormatHierarchyForDisplay | Sources/App/LockfileParser.swift:51-70 | The loops build the rendered graph. The lookup guard never fires, because every key has a list. |
| LockfileParser.LockfileHierarchy | Sources/App/LockfileParser.swift:32-38 | No contract of its own. The rows for Parse and EmptyIffNoLibraryLine state how the parse's outcome follows from it. |
| LockfileParser.Parse | Sources/App/LockfileParser.swift:32-43 | `parse` throws exactly when a dependency is not a library or there is no library. Otherwise it returns the rendered graph of the hierarchy of the PODS lines. |
| LockfileParser.EmptyIffNoLibraryLine | Sources/App/LockfileParser.swift:38-40 | The hierarchy is empty, so the parse throws, exactly when no PODS line is a library line that yields a name. |
| LockfileParser.SingleNonLibraryLine | Sources/App/LockfileParser.swift:38-40 | A PODS section of one line that is not a library line gives an empty hierarchy. |
| LockfileParser.EmptyLockfileFails | Sources/App/LockfileParser.swift:38-40 | The empty text gives an empty hierarchy, so parsing it throws. |
| LockfileParser.ParsedGraphShape | Sources/App/LockfileParser.swift:51-69 | A successful parse gives `App` first, one node per library, and edges that end at nodes. |
| ParserScenarios.LibraryLine | Sources/App/LockfileParser.swift:11-19 | `"  - " + name` is a library line naming `name`, for a one-word name. |
| ParserScenarios.DependencyLine | Sources/App/LockfileParser.swift:11-19 | `"    - " + name` is a dependency line naming `name`, for a one-word name. |
| ParserScenarios.TitleLine | Sources/App/LockfileParser.swift:11-19 | An empty line, or one that does not start with a space, is of no kind. |
| ParserScenarios.ThreeLines | Sources/App/LockfileParser.swift:34-37 | A text of `PODS:` and two more lines splits into exactly those three lines, when neither line holds a line feed, a carriage return or `DEPENDENCIES:`. |
| ParserScenarios.UnlistedDependency | Sources/App/LockfileParser.swift:114-119 | A library followed by a dependency that is no library fails the closure check. |
| ParserScenarios.OneUnlistedDependencyFails | Sources/App/LockfileParser.swift:114-119 | `"PODS:\n  - A\n    - B"` fails the closure check, for different pod names `A` and `B`. A pod name here is one word: non-empty, without a space, line feed or carriage return, not ending in whitespace, and not holding `DEPENDENCIES:`. |
| ParserScenarios.MalformedLockfileFails | Tests/AppTests/LockfileParserTests.swift:81-97 | The malformed test lockfile (`FlamingMoe` depending on the unlisted `FlamingHomer`) fails the closure check, so the parse throws. |
| ParserScenarios.TwoPlainLibraries | Sources/App/LockfileParser.swift:99-112 | Two library lines followed only by lines of no kind give two libraries with empty lists. |
| ParserScenarios.OneRelatedPair | Sources/App/LockfileParser.swift:99-112 | A leaf library, then a parent library with the leaf as a dependency, gives the leaf an empty list and the parent the list `[leaf]`. |
| ParserScenarios.PlainGraph | Sources/App/LockfileParser.swift:51-80 | Two libraries without dependencies are both nodes, and `App` has an edge to each. |
| ParserScenarios.RelatedGraph | Sources/App/LockfileParser.swift:51-80 | When a parent depends on a leaf, both are nodes and the parent has an edge to the leaf. `App` has an edge to the parent but none to the leaf. |
| ParserScenarios.OmittedSectionParse | Sources/App/LockfileParser.swift:32-43 | A lockfile listing two libraries with different pod names, and no DEPENDENCIES section, parses to both libraries as roots. |
| ParserScenarios.OmittedSectionRenders | Tests/AppTests/LockfileParserTests.swift:38-55 | The omitted-section test lockfile passes both checks, and `SteamedHams` and `CarHole` are nodes. |
| ParserScenarios.FlatParse | Sources/App/LockfileParser.swift:32-43 | Two libraries with different pod names, followed by a DEPENDENCIES section, parse to both libraries as roots. The section after the marker is ignored. |
| ParserScenarios.FlatDependenciesRender | Tests/AppTests/LockfileParserTests.swift:17-36 | The flat test lockfile passes both checks, and `SteamedHams` and `CarHole` are nodes. |
| ParserScenarios.RelatedParse | Sources/App/LockfileParser.swift:32-43 | A leaf library, then a parent library depending on it, then a DEPENDENCIES section, with different pod names and the parent not named `App`: parsing succeeds with the edge from parent to leaf, and only the parent is a root. |
| ParserScenarios.RelatedDependenciesRender | Tests/AppTests/LockfileParserTests.swift:57-79 | In the related test lockfile, `DentalPlan` depends on `LisaNeedsBraces`. It passes both checks. Both are nodes, there is an edge from `DentalPlan` to `LisaNeedsBraces`, and `App` has an edge to `DentalPlan` but not to `LisaNeedsBraces`. |

## Left out

- `Sources/App/Routes/Routes.swift` is not part of this model. It holds HTTP routing, view rendering and JSON serialisation, with no parsing logic.
- The `["data": [...]]` dictionaries of `nodeDict` and `edgeDict` (Sources/App/LockfileParser.swift:137-143) are serialisation shape for the front end. They are modelled as the typed values `Node(id)` and `Edge(source, target)`.
- Dictionary and set order (Sources/App/LockfileParser.swift:58, 79) is unspecified in Swift. The model keeps keys in first-insertion order and lists roots in key order. Every graph property is stated without reference to that order, except that `App` comes first.
- LockfileLines.PodLines tests for the scalar `\r`. Swift's `contains(Character("\r"))` compares grapheme clusters, and `"\r\n"` is one cluster. So Swift splits a text whose every `\r` precedes a `\n` on `"\n"`, leaving a trailing `\r` on each line, which `nameFromLine`'s trimming then removes. The model does not capture that difference.
- Strings are sequences of Unicode scalars. Grapheme clustering and normalisation, which Swift applies in `hasPrefix` and string comparison, are not modelled.
- Text.Trim uses an explicit character set standing in for `CharacterSet.whitespacesAndNewlines`: U+0009 to U+000D, U+0020, U+0085, and the Unicode space, line and paragraph separators. It is not Foundation's own table.
- Text.Split takes leftmost, non-overlapping matches. That is how `components(separatedBy:)` behaves for the separators the parser uses. Foundation's implementation itself is not modelled.
- GraphDisplay.FormatHierarchyForDisplay has no throw for the guard at Sources/App/LockfileParser.swift:62. In the model every key has a list, so the guard cannot fire.
- LockfileParser.Parse is a method, not an expression, because the stages it composes (`FlattenedDependencyHierarchy`, `FormatHierarchyForDisplay`) are loops. The scenario lemmas are stated on `LockfileHierarchy` and `Render`, and `Parse`'s postcondition carries them over to its result.
- The test at Tests/AppTests/LockfileParserTests.swift:5-15 expects `parse("")` to succeed. The model follows the code, where it throws (`LockfileParser.EmptyLockfileFails`).
