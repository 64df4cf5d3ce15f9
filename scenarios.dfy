/**
 * The parser on the lockfiles of its own test suite: each lemma follows one
 * input through the section cut, the split into lines, the line names and the
 * hierarchy, and states the outcome that `Parse` then returns.
 */
module ParserScenarios {
  import opened Wrappers
  import opened Text
  import opened LockfileLines
  import opened DependencyHierarchy
  import opened GraphDisplay
  import opened LockfileParser

  /** A library whose dependency is not listed as a library itself. */
  const MalformedLockfile: string := "PODS:\n" + ("  - " + "FlamingMoe") + "\n" + ("    - " + "FlamingHomer")

  /** A library line of the form `"  - " + name`. */
  lemma LibraryLine(name: string)
    requires name != [] && ' ' !in name && !IsWhitespace(name[|name| - 1])
    ensures Describe("  - " + name) == PodLine(Library, Some(name))
  {
    LibraryLineName(name);
    LibraryLineKind(name);
  }

  lemma LibraryLineName(name: string)
    requires name != [] && ' ' !in name && !IsWhitespace(name[|name| - 1])
    ensures NameFromLine("  - " + name) == Some(name)
  {
    var line := "  - " + name;
    assert "  " + "- " + name + "" == line;
    assert line[|line| - 1] == name[|name| - 1];
    NameOfPodLine("  ", name, "");
  }

  lemma LibraryLineKind(name: string)
    ensures Classify("  - " + name) == Library
  {
    var line := "  - " + name;
    assert line[..|LibraryPrefix|] == LibraryPrefix;
    assert line[3] == ' ';
  }

  /** A dependency line of the form `"    - " + name`. */
  lemma DependencyLine(name: string)
    requires name != [] && ' ' !in name && !IsWhitespace(name[|name| - 1])
    ensures Describe("    - " + name) == PodLine(Dependency, Some(name))
  {
    DependencyLineName(name);
    DependencyLineKind(name);
  }

  /** A dependency line names what the library line one level out names. */
  lemma DependencyLineName(name: string)
    requires name != [] && ' ' !in name && !IsWhitespace(name[|name| - 1])
    ensures NameFromLine("    - " + name) == Some(name)
  {
    assert "    - " + name == "  " + ("  - " + name);
    assert forall i :: 0 <= i < |"  "| ==> "  "[i] == ' ';
    NameIgnoresIndent("  ", "  - " + name);
    LibraryLineName(name);
  }

  lemma DependencyLineKind(name: string)
    ensures Classify("    - " + name) == Dependency
  {
    var line := "    - " + name;
    assert line[..|DependencyPrefix|] == DependencyPrefix;
  }

  /** A line that is empty or starts with anything but a space is of no kind. */
  lemma TitleLine(title: string)
    requires title == [] || title[0] != ' '
    ensures Describe(title).kind == Unknown
  {
    if |title| >= |LibraryPrefix| {
      assert title[..|LibraryPrefix|][0] == title[0];
    }
    if |title| >= |DependencyPrefix| {
      assert title[..|DependencyPrefix|][0] == title[0];
    }
  }

  /** Three lines joined by line feeds. */
  lemma JoinThree(a: string, b: string, c: string)
    ensures Join([a, b, c], "\n") == a + "\n" + b + "\n" + c
  {
    assert [a, b, c][1..] == [b, c] && [b, c][1..] == [c];
    assert Join([b, c], "\n") == b + "\n" + c;
    assert Join([a, b, c], "\n") == a + "\n" + (b + "\n" + c);
  }

  /** The lines of a lockfile made of a title and two more lines, none of
      them holding a line break or the marker. */
  lemma ThreeLines(second: string, third: string)
    requires '\n' !in second && '\r' !in second && !Contains(second, SectionMarker)
    requires '\n' !in third && '\r' !in third && !Contains(third, SectionMarker)
    ensures PodLines("PODS:\n" + second + "\n" + third) == ["PODS:", second, third]
  {
    var lockfile := "PODS:\n" + second + "\n" + third;
    var lines := ["PODS:", second, third];
    JoinThree(lines[0], lines[1], lines[2]);
    assert Join(lines, "\n") == lockfile;
    assert '\r' !in lockfile;
    NoOccurrenceJoin("PODS:\n", second, SectionMarker);
    NoOccurrenceJoin("PODS:\n" + second, "\n", SectionMarker);
    NoOccurrenceJoin("PODS:\n" + second + "\n", third, SectionMarker);
    assert PodsSection(lockfile) == lockfile;
    assert '\n' !in lines[0] && '\n' !in lines[1] && '\n' !in lines[2];
    SplitJoinChar(lines, '\n');
  }

  /** A line of a short indent ending in a space, then a name without the
      marker, holds no marker. */
  lemma BulletFree(bullet: string, name: string)
    requires |bullet| < |SectionMarker| && bullet != [] && bullet[|bullet| - 1] == ' '
    requires !Contains(name, SectionMarker)
    ensures !Contains(bullet + name, SectionMarker)
  {
    NoOccurrenceJoin(bullet, name, SectionMarker);
  }

  /** A library followed by one dependency that is not a library. */
  lemma UnlistedDependency(entries: seq<PodLine>, library: string, dependency: string)
    requires |entries| == 3 && entries[0].kind == Unknown
    requires entries[1] == PodLine(Library, Some(library))
    requires entries[2] == PodLine(Dependency, Some(dependency))
    requires library != dependency
    ensures !Closed(BuildHierarchy(entries))
  {
    HierarchyEntry(entries, 1, library);
    assert entries[2..] == [entries[2]];
    assert DepsUntilNextHeader(entries[2..]) == [dependency];
    HierarchyKeys(entries, dependency);
    var h := BuildHierarchy(entries);
    assert dependency in h.deps[library] && dependency !in h.deps;
  }

  /** A lockfile whose one library depends on a pod it does not list fails
      the closure check. */
  lemma OneUnlistedDependencyFails(library: string, dependency: string)
    requires PodName(library) && PodName(dependency) && library != dependency
    ensures !Closed(LockfileHierarchy("PODS:\n" + ("  - " + library) + "\n" + ("    - " + dependency)))
  {
    var lines := ["PODS:", "  - " + library, "    - " + dependency];
    BulletFree("  - ", library);
    BulletFree("    - ", dependency);
    ThreeLines("  - " + library, "    - " + dependency);
    TitleLine("PODS:");
    LibraryLine(library);
    DependencyLine(dependency);
    var entries := Describes(lines);
    assert entries[0] == Describe("PODS:");
    UnlistedDependency(entries, library, dependency);
  }

  /** The malformed lockfile of the test suite fails the closure check: its
      library `FlamingMoe` depends on `FlamingHomer`, which is no library. */
  lemma MalformedLockfileFails()
    ensures !Closed(LockfileHierarchy(MalformedLockfile))
  {
    LettersArePodName("FlamingMoe");
    LettersArePodName("FlamingHomer");
    assert "FlamingMoe"[7] != "FlamingHomer"[7];
    OneUnlistedDependencyFails("FlamingMoe", "FlamingHomer");
  }

  /** Lines of no kind contribute no dependency. */
  lemma {:induction false} NoKindNoDependencies(entries: seq<PodLine>)
    requires forall i :: 0 <= i < |entries| ==> entries[i].kind == Unknown
    ensures DepsUntilNextHeader(entries) == []
  {
    if entries != [] {
      assert forall i :: 0 <= i < |entries[1..]| ==> entries[1..][i].kind == Unknown;
      NoKindNoDependencies(entries[1..]);
    }
  }

  /** Two libraries without dependencies, then lines of no kind. */
  lemma TwoPlainLibraries(entries: seq<PodLine>, a: string, b: string)
    requires |entries| >= 3 && entries[0].kind == Unknown
    requires entries[1] == PodLine(Library, Some(a)) && entries[2] == PodLine(Library, Some(b))
    requires forall i :: 3 <= i < |entries| ==> entries[i].kind == Unknown
    requires a != b
    ensures BuildHierarchy(entries).deps == map[a := [], b := []]
  {
    var h := BuildHierarchy(entries);
    HierarchyEntry(entries, 1, a);
    assert DepsUntilNextHeader(entries[2..]) == [];
    HierarchyEntry(entries, 2, b);
    assert forall i :: 0 <= i < |entries[3..]| ==> entries[3..][i].kind == Unknown;
    NoKindNoDependencies(entries[3..]);
    forall k | k in h.deps
      ensures k == a || k == b
    {
      HierarchyKeys(entries, k);
    }
  }

  /** One library depending on another, between lines of no kind. */
  lemma OneRelatedPair(entries: seq<PodLine>, leaf: string, parent: string)
    requires |entries| == 5 && entries[0].kind == Unknown && entries[4].kind == Unknown
    requires entries[1] == PodLine(Library, Some(leaf)) && entries[2] == PodLine(Library, Some(parent))
    requires entries[3] == PodLine(Dependency, Some(leaf))
    requires leaf != parent
    ensures BuildHierarchy(entries).deps == map[leaf := [], parent := [leaf]]
  {
    var h := BuildHierarchy(entries);
    HierarchyEntry(entries, 1, leaf);
    assert DepsUntilNextHeader(entries[2..]) == [];
    HierarchyEntry(entries, 2, parent);
    assert entries[3..][1..] == entries[4..] == [entries[4]];
    assert DepsUntilNextHeader(entries[4..]) == [];
    assert DepsUntilNextHeader(entries[3..]) == [leaf];
    forall k | k in h.deps
      ensures k == leaf || k == parent
    {
      HierarchyKeys(entries, k);
    }
  }

  /** The graph of two libraries without dependencies: both are nodes and both
      are roots. */
  lemma PlainGraph(h: Hierarchy, a: string, b: string)
    requires h.deps == map[a := [], b := []]
    ensures Closed(h) && h.keys != []
    ensures Node(a) in Render(h).nodes && Node(b) in Render(h).nodes
    ensures Edge(AppName, a) in Render(h).edges && Edge(AppName, b) in Render(h).edges
  {
    assert a in h.deps;
    RenderNodes(h);
    RenderEdges(h, Edge(AppName, a));
    RenderEdges(h, Edge(AppName, b));
  }

  /** The graph of one library depending on another: both are nodes, the
      dependency is an edge, and only the depending library is a root. */
  lemma RelatedGraph(h: Hierarchy, leaf: string, parent: string)
    requires h.deps == map[leaf := [], parent := [leaf]]
    requires leaf != parent && parent != AppName
    ensures Closed(h) && h.keys != []
    ensures Node(leaf) in Render(h).nodes && Node(parent) in Render(h).nodes
    ensures Edge(parent, leaf) in Render(h).edges
    ensures Edge(AppName, parent) in Render(h).edges && Edge(AppName, leaf) !in Render(h).edges
  {
    assert leaf in h.deps;
    RenderNodes(h);
    RenderEdges(h, Edge(parent, leaf));
    RenderEdges(h, Edge(AppName, parent));
    RenderEdges(h, Edge(AppName, leaf));
    assert IsListed(h, leaf);
  }

  /** The lockfile of the test whose DEPENDENCIES section is omitted. */
  const OmittedSectionLockfile: string := "PODS:\n" + ("  - " + "SteamedHams") + "\n" + ("  - " + "CarHole")

  /** Five lines joined by line feeds. */
  lemma JoinFive(a: string, b: string, c: string, d: string, e: string)
    ensures Join([a, b, c, d, e], "\n") == a + "\n" + b + "\n" + c + "\n" + d + "\n" + e
  {
    JoinThree(c, d, e);
    assert [a, b, c, d, e][1..] == [b, c, d, e] && [b, c, d, e][1..] == [c, d, e];
    assert Join([b, c, d, e], "\n") == b + "\n" + (c + "\n" + d + "\n" + e);
    assert Join([a, b, c, d, e], "\n") == a + "\n" + (b + "\n" + (c + "\n" + d + "\n" + e));
  }

  /** Four lines joined by line feeds. */
  lemma JoinFour(a: string, b: string, c: string, d: string)
    ensures Join([a, b, c, d], "\n") == a + "\n" + b + "\n" + c + "\n" + d
  {
    JoinThree(b, c, d);
    assert [a, b, c, d][1..] == [b, c, d];
    assert Join([a, b, c, d], "\n") == a + "\n" + (b + "\n" + c + "\n" + d);
  }

  /** The text after the marker in the test lockfiles. */
  const AfterMarker: string := "\n    blah blah blah"

  /** The shape of the related-dependencies lockfile. */
  function RelatedShape(leaf: string, parent: string): string {
    "PODS:\n  - " + leaf + "\n  - " + parent + "\n" + "    - " + leaf + "\n" + SectionMarker + AfterMarker
  }

  lemma RelatedLines(leaf: string, parent: string)
    requires '\n' !in leaf && '\r' !in leaf && !Contains(leaf, SectionMarker)
    requires '\n' !in parent && '\r' !in parent && !Contains(parent, SectionMarker)
    ensures PodLines(RelatedShape(leaf, parent)) == ["PODS:", "  - " + leaf, "  - " + parent, "    - " + leaf, ""]
  {
    var lines := ["PODS:", "  - " + leaf, "  - " + parent, "    - " + leaf, ""];
    RelatedSection(leaf, parent);
    RelatedJoin(leaf, parent);
    RelatedWithoutReturns(leaf, parent);
    assert forall i :: 0 <= i < |lines| ==> '\n' !in lines[i];
    PodLinesOfSection(RelatedShape(leaf, parent), lines);
  }

  lemma RelatedJoin(leaf: string, parent: string)
    ensures Join(["PODS:", "  - " + leaf, "  - " + parent, "    - " + leaf, ""], "\n")
            == "PODS:\n  - " + leaf + "\n  - " + parent + "\n" + "    - " + leaf + "\n"
  {
    JoinFive("PODS:", "  - " + leaf, "  - " + parent, "    - " + leaf, "");
  }

  lemma RelatedWithoutReturns(leaf: string, parent: string)
    requires '\r' !in leaf && '\r' !in parent
    ensures '\r' !in RelatedShape(leaf, parent)
  {
    assert '\r' !in AfterMarker && '\r' !in SectionMarker;
  }

  lemma RelatedSection(leaf: string, parent: string)
    requires !Contains(leaf, SectionMarker) && !Contains(parent, SectionMarker)
    ensures PodsSection(RelatedShape(leaf, parent))
            == "PODS:\n  - " + leaf + "\n  - " + parent + "\n" + "    - " + leaf + "\n"
  {
    var m := SectionMarker;
    var t1 := "PODS:\n  - " + leaf;
    NoOccurrenceJoin("PODS:\n  - ", leaf, m);
    NoOccurrenceJoin(t1, "\n  - ", m);
    var t2 := t1 + "\n  - ";
    assert t2[|t2| - 1] == ' ';
    NoOccurrenceJoin(t2, parent, m);
    NoOccurrenceJoin(t2 + parent, "\n", m);
    NoOccurrenceJoin(t2 + parent + "\n", "    - ", m);
    var t3 := t2 + parent + "\n" + "    - ";
    assert t3[|t3| - 1] == ' ';
    NoOccurrenceJoin(t3, leaf, m);
    NoOccurrenceJoin(t3 + leaf, "\n", m);
    var before := t3 + leaf + "\n";
    assert before[|before| - 1] == '\n';
    NoMarkerBeforeBreak(before);
    SectionBeforeMarker(before, AfterMarker);
  }

  /** A name as the test lockfiles write it on a line: one word on one line,
      ending in a character that is not whitespace. */
  predicate OneWord(name: string) {
    && name != [] && ' ' !in name && !IsWhitespace(name[|name| - 1])
    && '\n' !in name && '\r' !in name
  }

  /** A name that also keeps the PODS section whole: it does not hold the
      marker. */
  ghost predicate PodName(name: string) {
    OneWord(name) && !Contains(name, SectionMarker)
  }

  /** A name spelled in ASCII letters only, as the test lockfiles spell
      theirs, is a pod name. */
  lemma LettersArePodName(name: string)
    requires name != []
    requires forall i :: 0 <= i < |name| ==> 'A' <= name[i] <= 'Z' || 'a' <= name[i] <= 'z'
    ensures PodName(name)
  {
    assert ':' in SectionMarker;
    MissingCharNoOccurrence(name, SectionMarker, ':');
  }

  /** Describing two runs of lines one after the other. */
  lemma DescribesAppend(xs: seq<string>, ys: seq<string>)
    ensures Describes(xs + ys) == Describes(xs) + Describes(ys)
  {
    var lines := xs + ys;
    var entries := Describes(xs) + Describes(ys);
    forall i | 0 <= i < |lines|
      ensures Describes(lines)[i] == entries[i]
    {
      if i < |xs| {
        assert lines[i] == xs[i];
      } else {
        assert lines[i] == ys[i - |xs|];
      }
    }
  }

  /** A title and two library lines, described one by one. */
  lemma TwoLibraryEntries(title: string, a: string, b: string)
    requires title != [] && title[0] != ' '
    requires OneWord(a) && OneWord(b)
    ensures var entries := Describes([title, "  - " + a, "  - " + b]);
      && |entries| == 3 && entries[0].kind == Unknown
      && entries[1] == PodLine(Library, Some(a)) && entries[2] == PodLine(Library, Some(b))
  {
    var entries := Describes([title, "  - " + a, "  - " + b]);
    assert entries[0] == Describe(title);
    TitleLine(title);
    assert entries[1] == Describe("  - " + a);
    LibraryLine(a);
    assert entries[2] == Describe("  - " + b);
    LibraryLine(b);
  }

  /** A dependency line and an empty line, described one by one. */
  lemma DependencyThenBlank(name: string)
    requires OneWord(name)
    ensures var entries := Describes(["    - " + name, ""]);
      && |entries| == 2 && entries[0] == PodLine(Dependency, Some(name)) && entries[1].kind == Unknown
  {
    var entries := Describes(["    - " + name, ""]);
    assert entries[0] == Describe("    - " + name);
    DependencyLine(name);
    assert entries[1] == Describe("");
    TitleLine("");
  }

  /** The related lines under a title, described one by one. */
  lemma RelatedEntries(title: string, leaf: string, parent: string)
    requires title != [] && title[0] != ' '
    requires OneWord(leaf) && OneWord(parent)
    ensures var entries := Describes([title, "  - " + leaf, "  - " + parent, "    - " + leaf, ""]);
      && |entries| == 5 && entries[0].kind == Unknown && entries[4].kind == Unknown
      && entries[1] == PodLine(Library, Some(leaf)) && entries[2] == PodLine(Library, Some(parent))
      && entries[3] == PodLine(Dependency, Some(leaf))
  {
    var head := [title, "  - " + leaf, "  - " + parent];
    var tail := ["    - " + leaf, ""];
    assert head + tail == [title, "  - " + leaf, "  - " + parent, "    - " + leaf, ""];
    DescribesAppend(head, tail);
    TwoLibraryEntries(title, leaf, parent);
    DependencyThenBlank(leaf);
    ThreeThenTwo(Describes(head + tail), Describes(head), Describes(tail), leaf, parent);
  }

  lemma ThreeThenTwo(entries: seq<PodLine>, head: seq<PodLine>, tail: seq<PodLine>, leaf: string, parent: string)
    requires entries == head + tail
    requires |head| == 3 && head[0].kind == Unknown
    requires head[1] == PodLine(Library, Some(leaf)) && head[2] == PodLine(Library, Some(parent))
    requires |tail| == 2 && tail[0] == PodLine(Dependency, Some(leaf)) && tail[1].kind == Unknown
    ensures |entries| == 5 && entries[0].kind == Unknown && entries[4].kind == Unknown
    ensures entries[1] == PodLine(Library, Some(leaf)) && entries[2] == PodLine(Library, Some(parent))
    ensures entries[3] == PodLine(Dependency, Some(leaf))
  {
  }

  /** The hierarchy of the related lines: the leaf has no dependencies, the
      parent has the leaf. */
  lemma RelatedHierarchy(title: string, leaf: string, parent: string)
    requires title != [] && title[0] != ' '
    requires OneWord(leaf) && OneWord(parent) && leaf != parent
    ensures HierarchyOf([title, "  - " + leaf, "  - " + parent, "    - " + leaf, ""]).deps
            == map[leaf := [], parent := [leaf]]
  {
    RelatedEntries(title, leaf, parent);
    OneRelatedPair(Describes([title, "  - " + leaf, "  - " + parent, "    - " + leaf, ""]), leaf, parent);
  }

  /** A lockfile in which `parent` depends on `leaf`, which is listed as a
      library too, and a DEPENDENCIES section follows. */
  lemma RelatedParse(leaf: string, parent: string)
    requires PodName(leaf) && PodName(parent) && leaf != parent && parent != AppName
    ensures var h := LockfileHierarchy(RelatedShape(leaf, parent));
      && Closed(h) && h.keys != []
      && Node(leaf) in Render(h).nodes && Node(parent) in Render(h).nodes
      && Edge(parent, leaf) in Render(h).edges
      && Edge(AppName, parent) in Render(h).edges && Edge(AppName, leaf) !in Render(h).edges
  {
    RelatedLines(leaf, parent);
    RelatedHierarchy("PODS:", leaf, parent);
    RelatedGraph(LockfileHierarchy(RelatedShape(leaf, parent)), leaf, parent);
  }

  /** The lockfile of the related-dependencies test, cut where its names start
      and end. */
  const RelatedLockfile: string :=
    "PODS:\n  - " + "LisaNeedsBraces" + "\n  - " + "DentalPlan" + "\n" + "    - " + "LisaNeedsBraces"
    + "\n" + "DEPENDENCIES:" + "\n    blah blah blah"

  lemma RelatedNames()
    ensures PodName("LisaNeedsBraces") && PodName("DentalPlan")
    ensures "LisaNeedsBraces" != "DentalPlan" && "DentalPlan" != AppName
  {
    LettersArePodName("LisaNeedsBraces");
    LettersArePodName("DentalPlan");
    assert "LisaNeedsBraces" != "DentalPlan" by {
      assert "LisaNeedsBraces"[0] != "DentalPlan"[0];
    }
    assert "DentalPlan" != AppName by {
      assert "DentalPlan"[0] != AppName[0];
    }
  }

  /**
   * The related-dependencies test: `DentalPlan` depends on `LisaNeedsBraces`.
   * The parse succeeds; both are nodes, the dependency is an edge, and only
   * `DentalPlan` hangs off `App`.
   */
  lemma RelatedDependenciesRender()
    ensures var h := LockfileHierarchy(RelatedLockfile);
      && Closed(h) && h.keys != []
      && Node("LisaNeedsBraces") in Render(h).nodes && Node("DentalPlan") in Render(h).nodes
      && Edge("DentalPlan", "LisaNeedsBraces") in Render(h).edges
      && Edge(AppName, "DentalPlan") in Render(h).edges
      && Edge(AppName, "LisaNeedsBraces") !in Render(h).edges
  {
    assert RelatedLockfile == RelatedShape("LisaNeedsBraces", "DentalPlan");
    RelatedNames();
    RelatedParse("LisaNeedsBraces", "DentalPlan");
  }

  /** The hierarchy of a title and two library lines: two libraries without
      dependencies. */
  lemma TwoLibrariesHierarchy(title: string, a: string, b: string)
    requires title != [] && title[0] != ' '
    requires OneWord(a) && OneWord(b) && a != b
    ensures HierarchyOf([title, "  - " + a, "  - " + b]).deps == map[a := [], b := []]
  {
    TwoLibraryEntries(title, a, b);
    TwoPlainLibraries(Describes([title, "  - " + a, "  - " + b]), a, b);
  }

  /** A lockfile listing two libraries and no DEPENDENCIES section. */
  lemma OmittedSectionParse(a: string, b: string)
    requires PodName(a) && PodName(b) && a != b
    ensures var h := LockfileHierarchy("PODS:\n" + ("  - " + a) + "\n" + ("  - " + b));
      && Closed(h) && h.keys != []
      && Node(a) in Render(h).nodes && Node(b) in Render(h).nodes
      && Edge(AppName, a) in Render(h).edges && Edge(AppName, b) in Render(h).edges
  {
    BulletFree("  - ", a);
    BulletFree("  - ", b);
    ThreeLines("  - " + a, "  - " + b);
    TwoLibrariesHierarchy("PODS:", a, b);
    PlainGraph(LockfileHierarchy("PODS:\n" + ("  - " + a) + "\n" + ("  - " + b)), a, b);
  }

  lemma FlatNames()
    ensures PodName("SteamedHams") && PodName("CarHole") && "SteamedHams" != "CarHole"
  {
    LettersArePodName("SteamedHams");
    LettersArePodName("CarHole");
    assert "SteamedHams"[0] != "CarHole"[0];
  }

  /**
   * The test whose DEPENDENCIES section is omitted: the parse succeeds, and
   * `SteamedHams` and `CarHole` are nodes, both hanging off `App`.
   */
  lemma OmittedSectionRenders()
    ensures var h := LockfileHierarchy(OmittedSectionLockfile);
      && Closed(h) && h.keys != []
      && Node("SteamedHams") in Render(h).nodes && Node("CarHole") in Render(h).nodes
      && Edge(AppName, "SteamedHams") in Render(h).edges && Edge(AppName, "CarHole") in Render(h).edges
  {
    FlatNames();
    OmittedSectionParse("SteamedHams", "CarHole");
  }

  /** The shape of the flat-dependencies lockfile. */
  function FlatShape(a: string, b: string): string {
    "PODS:\n  - " + a + "\n" + "  - " + b + "\n" + SectionMarker + AfterMarker
  }

  lemma FlatSection(a: string, b: string)
    requires !Contains(a, SectionMarker) && !Contains(b, SectionMarker)
    ensures PodsSection(FlatShape(a, b)) == "PODS:\n  - " + a + "\n" + "  - " + b + "\n"
  {
    var m := SectionMarker;
    var t1 := "PODS:\n  - " + a;
    NoOccurrenceJoin("PODS:\n  - ", a, m);
    NoOccurrenceJoin(t1, "\n", m);
    NoOccurrenceJoin(t1 + "\n", "  - ", m);
    var t2 := t1 + "\n" + "  - ";
    assert t2[|t2| - 1] == ' ';
    NoOccurrenceJoin(t2, b, m);
    NoOccurrenceJoin(t2 + b, "\n", m);
    var before := t2 + b + "\n";
    assert before[|before| - 1] == '\n';
    NoMarkerBeforeBreak(before);
    SectionBeforeMarker(before, AfterMarker);
  }

  lemma FlatJoin(a: string, b: string)
    ensures Join(["PODS:", "  - " + a, "  - " + b, ""], "\n") == "PODS:\n  - " + a + "\n" + "  - " + b + "\n"
  {
    JoinFour("PODS:", "  - " + a, "  - " + b, "");
  }

  lemma FlatWithoutReturns(a: string, b: string)
    requires '\r' !in a && '\r' !in b
    ensures '\r' !in FlatShape(a, b)
  {
    assert '\r' !in AfterMarker && '\r' !in SectionMarker;
  }

  /** The lines of the flat lockfile: the title, two libraries and the empty
      rest of the line before the marker. */
  lemma FlatLines(a: string, b: string)
    requires '\n' !in a && '\r' !in a && !Contains(a, SectionMarker)
    requires '\n' !in b && '\r' !in b && !Contains(b, SectionMarker)
    ensures PodLines(FlatShape(a, b)) == ["PODS:", "  - " + a, "  - " + b, ""]
  {
    var lines := ["PODS:", "  - " + a, "  - " + b, ""];
    FlatSection(a, b);
    FlatJoin(a, b);
    FlatWithoutReturns(a, b);
    assert forall i :: 0 <= i < |lines| ==> '\n' !in lines[i];
    PodLinesOfSection(FlatShape(a, b), lines);
  }

  /** A title and a library line, described one by one. */
  lemma TitleThenLibrary(title: string, name: string)
    requires title != [] && title[0] != ' '
    requires OneWord(name)
    ensures var entries := Describes([title, "  - " + name]);
      && |entries| == 2 && entries[0].kind == Unknown && entries[1] == PodLine(Library, Some(name))
  {
    var entries := Describes([title, "  - " + name]);
    assert entries[0] == Describe(title);
    TitleLine(title);
    assert entries[1] == Describe("  - " + name);
    LibraryLine(name);
  }

  /** A library line and an empty line, described one by one. */
  lemma LibraryThenBlank(name: string)
    requires OneWord(name)
    ensures var entries := Describes(["  - " + name, ""]);
      && |entries| == 2 && entries[0] == PodLine(Library, Some(name)) && entries[1].kind == Unknown
  {
    var entries := Describes(["  - " + name, ""]);
    assert entries[0] == Describe("  - " + name);
    LibraryLine(name);
    assert entries[1] == Describe("");
    TitleLine("");
  }

  /** The flat lines, described one by one. */
  lemma FlatEntries(title: string, a: string, b: string)
    requires title != [] && title[0] != ' '
    requires OneWord(a) && OneWord(b)
    ensures var entries := Describes([title, "  - " + a, "  - " + b, ""]);
      && |entries| == 4 && entries[0].kind == Unknown && entries[3].kind == Unknown
      && entries[1] == PodLine(Library, Some(a)) && entries[2] == PodLine(Library, Some(b))
  {
    var head := [title, "  - " + a];
    var tail := ["  - " + b, ""];
    assert head + tail == [title, "  - " + a, "  - " + b, ""];
    DescribesAppend(head, tail);
    TitleThenLibrary(title, a);
    LibraryThenBlank(b);
    TwoThenTwo(Describes(head + tail), Describes(head), Describes(tail), a, b);
  }

  lemma TwoThenTwo(entries: seq<PodLine>, head: seq<PodLine>, tail: seq<PodLine>, a: string, b: string)
    requires entries == head + tail
    requires |head| == 2 && head[0].kind == Unknown && head[1] == PodLine(Library, Some(a))
    requires |tail| == 2 && tail[0] == PodLine(Library, Some(b)) && tail[1].kind == Unknown
    ensures |entries| == 4 && entries[0].kind == Unknown && entries[3].kind == Unknown
    ensures entries[1] == PodLine(Library, Some(a)) && entries[2] == PodLine(Library, Some(b))
  {
  }

  /** The hierarchy of the flat lines: two libraries without dependencies. */
  lemma FlatHierarchy(title: string, a: string, b: string)
    requires title != [] && title[0] != ' '
    requires OneWord(a) && OneWord(b) && a != b
    ensures HierarchyOf([title, "  - " + a, "  - " + b, ""]).deps == map[a := [], b := []]
  {
    var entries := Describes([title, "  - " + a, "  - " + b, ""]);
    FlatEntries(title, a, b);
    LastOfFourUnknown(entries);
    TwoPlainLibraries(entries, a, b);
  }

  lemma LastOfFourUnknown(entries: seq<PodLine>)
    requires |entries| == 4 && entries[3].kind == Unknown
    ensures forall i :: 3 <= i < |entries| ==> entries[i].kind == Unknown
  {
  }

  /** A lockfile listing two libraries, then a DEPENDENCIES section. */
  lemma FlatParse(a: string, b: string)
    requires PodName(a) && PodName(b) && a != b
    ensures var h := LockfileHierarchy(FlatShape(a, b));
      && Closed(h) && h.keys != []
      && Node(a) in Render(h).nodes && Node(b) in Render(h).nodes
      && Edge(AppName, a) in Render(h).edges && Edge(AppName, b) in Render(h).edges
  {
    FlatLines(a, b);
    FlatHierarchy("PODS:", a, b);
    PlainGraph(LockfileHierarchy(FlatShape(a, b)), a, b);
  }

  /** The lockfile of the flat-dependencies test, cut where its names start
      and end. */
  const FlatLockfile: string :=
    "PODS:\n  - " + "SteamedHams" + "\n" + "  - " + "CarHole" + "\n" + "DEPENDENCIES:" + "\n    blah blah blah"

  /**
   * The flat-dependencies test: the parse succeeds, and `SteamedHams` and
   * `CarHole` are nodes, both hanging off `App`.
   */
  lemma FlatDependenciesRender()
    ensures var h := LockfileHierarchy(FlatLockfile);
      && Closed(h) && h.keys != []
      && Node("SteamedHams") in Render(h).nodes && Node("CarHole") in Render(h).nodes
      && Edge(AppName, "SteamedHams") in Render(h).edges && Edge(AppName, "CarHole") in Render(h).edges
  {
    assert FlatLockfile == FlatShape("SteamedHams", "CarHole");
    FlatNames();
    FlatParse("SteamedHams", "CarHole");
  }
}
