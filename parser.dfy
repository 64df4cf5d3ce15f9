/**
 * `LockfileParser.parse`: the whole pipeline from pasted lockfile text to the
 * graph, with the two ways it can fail, a dependency that is not itself a
 * library and a lockfile without any library.
 */
module LockfileParser {
  import opened Wrappers
  import opened Text
  import opened LockfileLines
  import opened DependencyHierarchy
  import opened GraphDisplay

  /** The hierarchy built from the PODS section of `lockfile`. */
  function LockfileHierarchy(lockfile: string): Hierarchy {
    HierarchyOf(PodLines(lockfile))
  }

  /**
   * `parse(lockfile:)`: picks the line break, cuts the PODS section, splits it
   * into lines, builds and checks the hierarchy, rejects an empty one and
   * renders the rest.
   */
  method Parse(lockfile: string) returns (r: Result<Graph>)
    ensures r.ParseError? <==> !Closed(LockfileHierarchy(lockfile)) || LockfileHierarchy(lockfile).keys == []
    ensures r.Ok? ==> r.value == Render(LockfileHierarchy(lockfile))
  {
    var lineBreak := LineBreak(lockfile);
    var pods := PodsSection(lockfile);
    var lines := Split(pods, lineBreak);
    var hierarchy := FlattenedDependencyHierarchy(lines);
    if hierarchy.ParseError? {
      return ParseError;
    }
    if |hierarchy.value.keys| == 0 {
      return ParseError;
    }
    var graph := FormatHierarchyForDisplay(hierarchy.value);
    return Ok(graph);
  }

  /** The hierarchy is empty, and so the parse fails, exactly when no line of
      the PODS section is a library line that yields a name. */
  lemma EmptyIffNoLibraryLine(lockfile: string)
    ensures LockfileHierarchy(lockfile).keys == []
            <==> forall i :: 0 <= i < |PodLines(lockfile)| ==>
                   Classify(PodLines(lockfile)[i]) != Library || NameFromLine(PodLines(lockfile)[i]).None?
  {
    var lines := PodLines(lockfile);
    var h := LockfileHierarchy(lockfile);
    if h.keys != [] {
      var k := h.keys[0];
      HierarchyOfKeys(lines, k);
    } else {
      forall i | 0 <= i < |lines| && Classify(lines[i]) == Library
        ensures NameFromLine(lines[i]).None?
      {
        if NameFromLine(lines[i]).Some? {
          HierarchyOfKeys(lines, NameFromLine(lines[i]).value);
        }
      }
    }
  }

  /** The empty lockfile has one line, which names nothing, so the parse
      fails. */
  lemma EmptyLockfileFails()
    ensures LockfileHierarchy("").keys == []
  {
    assert !Contains("", SectionMarker);
    assert PodsSection("") == "";
    SplitWithoutChar("", '\n');
    assert PodLines("") == [""];
    SingleNonLibraryLine("");
  }

  /** A PODS section of one line that is not a library line yields nothing. */
  lemma SingleNonLibraryLine(lockfile: string)
    requires |PodLines(lockfile)| == 1 && Classify(PodLines(lockfile)[0]) != Library
    ensures LockfileHierarchy(lockfile).keys == []
  {
    var lines := PodLines(lockfile);
    forall i | 0 <= i < |lines|
      ensures Classify(lines[i]) != Library || NameFromLine(lines[i]).None?
    {
      assert i == 0;
    }
    EmptyIffNoLibraryLine(lockfile);
  }

  /**
   * A successful parse yields the `App` node followed by one node per
   * library, and edges whose ends are all nodes of the graph.
   */
  lemma ParsedGraphShape(lockfile: string)
    requires Closed(LockfileHierarchy(lockfile))
    ensures var g := Render(LockfileHierarchy(lockfile));
      && g.nodes[0] == Node(AppName)
      && |g.nodes| == 1 + |LockfileHierarchy(lockfile).deps|
      && forall e :: e in g.edges ==> Node(e.source) in g.nodes && Node(e.target) in g.nodes
  {
    RenderNodes(LockfileHierarchy(lockfile));
    EdgesEndAtNodes(LockfileHierarchy(lockfile));
  }
}
