/**
 * `flattenedDependencyHierarchy`: the PODS lines folded into a map from each
 * library to its direct dependencies, followed by the closure check that every
 * dependency is itself a library.
 *
 * `BuildHierarchy` is the fold written as a function (the accumulator the
 * source keeps in local variables and a nested closure becomes an explicit
 * `Accumulator` value); `FlattenedDependencyHierarchy` is the loop itself,
 * proved to compute it. The lemmas characterise the fold without reference to
 * the accumulator: which names become keys, and which list each key gets.
 */
module DependencyHierarchy {
  import opened Wrappers
  import opened LockfileLines

  /** Library names and their dependency lists; `keys` records the order in
      which names were first inserted. */
  datatype Table = Table(keys: seq<string>, deps: map<string, seq<string>>)

  ghost predicate Distinct<T>(s: seq<T>) {
    forall i, j :: 0 <= i < j < |s| ==> s[i] != s[j]
  }

  ghost predicate WellFormed(t: Table) {
    && Distinct(t.keys)
    && (forall k :: k in t.deps <==> k in t.keys)
  }

  /** A Swift `[String: [String]]`, with its keys in a fixed order. */
  type Hierarchy = t: Table | WellFormed(t) witness Table([], map[])

  /** `dictionary[name] = deps`: a new name goes to the end of the order, an
      existing one keeps its place and gets the new list. */
  function Put(h: Hierarchy, name: string, deps: seq<string>): (r: Hierarchy)
    ensures r.deps == h.deps[name := deps]
  {
    if name in h.deps then Table(h.keys, h.deps[name := deps])
    else Table(h.keys + [name], h.deps[name := deps])
  }

  /** The state of the scan: the libraries already committed, the library
      whose dependencies are being collected, and those dependencies. */
  datatype Accumulator = Accumulator(finished: Hierarchy, current: Option<string>, currentDeps: seq<string>)

  const Start: Accumulator := Accumulator(Table([], map[]), None, [])

  /** `finalizeCurrentLibrary`: commits the open library, if any. */
  function Finalize(a: Accumulator): Hierarchy {
    match a.current
    case None => a.finished
    case Some(name) => Put(a.finished, name, a.currentDeps)
  }

  /** One line of the scan: a nameless line is skipped; a library line commits
      the open library and opens a new one; a dependency line is appended to
      the open list; any other line changes nothing. */
  function Step(a: Accumulator, line: PodLine): Accumulator {
    match line.name
    case None => a
    case Some(name) =>
      match line.kind
      case Library => Accumulator(Finalize(a), Some(name), [])
      case Dependency => a.(currentDeps := a.currentDeps + [name])
      case Unknown => a
  }

  function Scan(a: Accumulator, lines: seq<PodLine>): Accumulator
    decreases |lines|
  {
    if lines == [] then a else Scan(Step(a, lines[0]), lines[1..])
  }

  /** The hierarchy the scan of `lines` produces. */
  function BuildHierarchy(lines: seq<PodLine>): Hierarchy {
    Finalize(Scan(Start, lines))
  }

  function Describes(lines: seq<string>): (entries: seq<PodLine>)
    ensures |entries| == |lines|
    ensures forall i :: 0 <= i < |lines| ==> entries[i] == Describe(lines[i])
  {
    seq(|lines|, i requires 0 <= i < |lines| => Describe(lines[i]))
  }

  /** The hierarchy of the raw lines of a PODS section. */
  function HierarchyOf(podList: seq<string>): Hierarchy {
    BuildHierarchy(Describes(podList))
  }

  /** The name of a library line, if `line` is one that names something. */
  function HeaderName(line: PodLine): Option<string> {
    if line.kind == Library then line.name else None
  }

  /** The name of a dependency line, if `line` is one that names something. */
  function DependencyName(line: PodLine): Option<string> {
    if line.kind == Dependency then line.name else None
  }

  /** The dependency names at the start of `lines`, up to the first library
      line or the end. Lines of any other kind are passed over. */
  function DepsUntilNextHeader(lines: seq<PodLine>): seq<string> {
    if lines == [] then []
    else if HeaderName(lines[0]).Some? then []
    else
      (if DependencyName(lines[0]).Some? then [DependencyName(lines[0]).value] else [])
      + DepsUntilNextHeader(lines[1..])
  }

  /** The names of all library lines in `lines`. */
  function HeaderNames(lines: seq<PodLine>): set<string> {
    if lines == [] then {}
    else
      (if HeaderName(lines[0]).Some? then {HeaderName(lines[0]).value} else {})
      + HeaderNames(lines[1..])
  }

  /** The closure check: every dependency is also a library. */
  ghost predicate Closed(h: Hierarchy) {
    forall k, d :: k in h.deps && d in h.deps[k] ==> d in h.deps
  }

  lemma {:induction false} HeaderNamesAre(lines: seq<PodLine>, k: string)
    ensures k in HeaderNames(lines) <==> exists i :: 0 <= i < |lines| && HeaderName(lines[i]) == Some(k)
  {
    if lines != [] {
      HeaderNamesAre(lines[1..], k);
      if k in HeaderNames(lines[1..]) {
        var i :| 0 <= i < |lines[1..]| && HeaderName(lines[1..][i]) == Some(k);
        assert HeaderName(lines[i + 1]) == Some(k);
      }
      if exists i :: 0 <= i < |lines| && HeaderName(lines[i]) == Some(k) {
        var i :| 0 <= i < |lines| && HeaderName(lines[i]) == Some(k);
        if i > 0 {
          assert HeaderName(lines[1..][i - 1]) == Some(k);
        }
      }
    }
  }

  /** Scanning a concatenation is scanning the first part, then the second. */
  lemma {:induction false} ScanAppend(a: Accumulator, xs: seq<PodLine>, ys: seq<PodLine>)
    ensures Scan(a, xs + ys) == Scan(Scan(a, xs), ys)
    decreases |xs|
  {
    if xs == [] {
      assert xs + ys == ys;
    } else {
      assert (xs + ys)[1..] == xs[1..] + ys;
      ScanAppend(Step(a, xs[0]), xs[1..], ys);
    }
  }

  /** The scan over one more line is one more step. */
  lemma ScanSnoc(lines: seq<PodLine>, i: nat)
    requires i < |lines|
    ensures Scan(Start, lines[..i + 1]) == Step(Scan(Start, lines[..i]), lines[i])
  {
    assert lines[..i + 1] == lines[..i] + [lines[i]];
    ScanAppend(Start, lines[..i], [lines[i]]);
  }

  /** Scanning adds to the committed-or-open libraries exactly the names of
      the library lines scanned. */
  lemma {:induction false} ScanKeys(a: Accumulator, lines: seq<PodLine>)
    ensures Finalize(Scan(a, lines)).deps.Keys == Finalize(a).deps.Keys + HeaderNames(lines)
    decreases |lines|
  {
    if lines != [] {
      ScanKeys(Step(a, lines[0]), lines[1..]);
    }
  }

  /**
   * Once library `k` has been opened (or committed) and no later line is a
   * library line for `k`, its final list is what it had plus the dependency
   * lines up to the next library line (or, if committed, stays as it was).
   */
  lemma {:induction false} ScanValue(a: Accumulator, lines: seq<PodLine>, k: string)
    requires forall i :: 0 <= i < |lines| ==> HeaderName(lines[i]) != Some(k)
    requires a.current == Some(k) || k in a.finished.deps
    ensures k in Finalize(Scan(a, lines)).deps
    ensures Finalize(Scan(a, lines)).deps[k]
            == if a.current == Some(k) then a.currentDeps + DepsUntilNextHeader(lines) else a.finished.deps[k]
    decreases |lines|
  {
    if lines == [] {
      assert a.currentDeps + [] == a.currentDeps;
    } else {
      var line := lines[0];
      assert HeaderName(line) != Some(k);
      assert forall i :: 0 <= i < |lines[1..]| ==> HeaderName(lines[1..][i]) != Some(k);
      var b := Step(a, line);
      StepKeepsOther(a, line, k);
      ScanValue(b, lines[1..], k);
      if a.current == Some(k) {
        if HeaderName(line).Some? {
          assert DepsUntilNextHeader(lines) == [];
          assert a.currentDeps + [] == a.currentDeps;
        } else if DependencyName(line).Some? {
          var d := DependencyName(line).value;
          assert DepsUntilNextHeader(lines) == [d] + DepsUntilNextHeader(lines[1..]);
          assert a.currentDeps + ([d] + DepsUntilNextHeader(lines[1..]))
                 == (a.currentDeps + [d]) + DepsUntilNextHeader(lines[1..]);
        } else {
          assert DepsUntilNextHeader(lines) == [] + DepsUntilNextHeader(lines[1..]);
          assert [] + DepsUntilNextHeader(lines[1..]) == DepsUntilNextHeader(lines[1..]);
        }
      }
    }
  }

  /** One step on a line that does not open `k` keeps `k` open or committed:
      a library line commits it, a dependency line extends it. */
  lemma StepKeepsOther(a: Accumulator, line: PodLine, k: string)
    requires HeaderName(line) != Some(k)
    requires a.current == Some(k) || k in a.finished.deps
    ensures var b := Step(a, line);
      && (b.current == Some(k) || k in b.finished.deps)
      && (a.current == Some(k) && HeaderName(line).Some? ==>
            b.current != Some(k) && b.finished.deps[k] == a.currentDeps)
      && (a.current == Some(k) && HeaderName(line).None? && DependencyName(line).Some? ==>
            b.current == Some(k) && b.currentDeps == a.currentDeps + [DependencyName(line).value])
      && (a.current == Some(k) && HeaderName(line).None? && DependencyName(line).None? ==> b == a)
      && (a.current != Some(k) ==> b.current != Some(k) && b.finished.deps[k] == a.finished.deps[k])
  {
    if a.current != Some(k) && HeaderName(line).Some? && a.current.Some? {
      assert Finalize(a).deps == a.finished.deps[a.current.value := a.currentDeps];
    }
  }

  /** Keys: a name is a key of the hierarchy exactly when some line of the
      section is a library line with that name. */
  lemma HierarchyKeys(lines: seq<PodLine>, k: string)
    ensures k in BuildHierarchy(lines).deps <==> exists i :: 0 <= i < |lines| && HeaderName(lines[i]) == Some(k)
  {
    ScanKeys(Start, lines);
    HeaderNamesAre(lines, k);
  }

  /** Keys, on the raw lines: a name is a key exactly when some line is
      classified as a library line and yields that name. */
  lemma HierarchyOfKeys(podList: seq<string>, k: string)
    ensures k in HierarchyOf(podList).deps
            <==> exists i :: 0 <= i < |podList| && Classify(podList[i]) == Library && NameFromLine(podList[i]) == Some(k)
  {
    var entries := Describes(podList);
    HierarchyKeys(entries, k);
    if k in HierarchyOf(podList).deps {
      var i :| 0 <= i < |entries| && HeaderName(entries[i]) == Some(k);
      assert entries[i] == Describe(podList[i]);
    }
    if exists i :: 0 <= i < |podList| && Classify(podList[i]) == Library && NameFromLine(podList[i]) == Some(k) {
      var i :| 0 <= i < |podList| && Classify(podList[i]) == Library && NameFromLine(podList[i]) == Some(k);
      assert HeaderName(entries[i]) == Some(k);
    }
  }

  /**
   * Values: the list of library `k` is the run of dependency lines that
   * follows its last library line, up to the next library line or the end.
   * An earlier library line for the same name is overwritten (last wins).
   */
  lemma HierarchyEntry(lines: seq<PodLine>, j: nat, k: string)
    requires j < |lines| && HeaderName(lines[j]) == Some(k)
    requires forall i :: j < i < |lines| ==> HeaderName(lines[i]) != Some(k)
    ensures k in BuildHierarchy(lines).deps
    ensures BuildHierarchy(lines).deps[k] == DepsUntilNextHeader(lines[j + 1..])
  {
    var rest := lines[j + 1..];
    assert lines == lines[..j + 1] + rest;
    ScanAppend(Start, lines[..j + 1], rest);
    ScanSnoc(lines, j);
    var a := Scan(Start, lines[..j + 1]);
    assert a.current == Some(k) && a.currentDeps == [];
    assert forall i :: 0 <= i < |rest| ==> HeaderName(rest[i]) != Some(k);
    ScanValue(a, rest, k);
  }

  /** A line that is neither a named library line nor a named dependency line
      (a blank, a section title, a line without a space) changes nothing. */
  lemma SkippedLineChangesNothing(before: seq<PodLine>, line: PodLine, after: seq<PodLine>)
    requires HeaderName(line).None? && DependencyName(line).None?
    ensures BuildHierarchy(before + [line] + after) == BuildHierarchy(before + after)
  {
    ScanAppend(Start, before + [line], after);
    ScanAppend(Start, before, [line]);
    ScanAppend(Start, before, after);
  }

  /** With no library open, the dependencies collected so far are dropped at
      the next library line, and never committed otherwise. */
  lemma {:induction false} UnopenedDepsIgnored(a: Accumulator, b: Accumulator, lines: seq<PodLine>)
    requires a.current.None? && b.current.None? && a.finished == b.finished
    ensures Finalize(Scan(a, lines)) == Finalize(Scan(b, lines))
    decreases |lines|
  {
    if lines != [] {
      if HeaderName(lines[0]).Some? {
        assert Step(a, lines[0]) == Step(b, lines[0]);
      } else {
        UnopenedDepsIgnored(Step(a, lines[0]), Step(b, lines[0]), lines[1..]);
      }
    }
  }

  /** Dependency lines before the first library line are dropped. */
  lemma LeadingDependenciesDropped(before: seq<PodLine>, after: seq<PodLine>)
    requires forall i :: 0 <= i < |before| ==> HeaderName(before[i]).None?
    ensures BuildHierarchy(before + after) == BuildHierarchy(after)
  {
    ScanAppend(Start, before, after);
    LeadingScanKeepsNothingOpen(Start, before);
    UnopenedDepsIgnored(Scan(Start, before), Start, after);
  }

  /** Without library lines, a scan from nothing open keeps nothing open and
      commits nothing. */
  lemma {:induction false} LeadingScanKeepsNothingOpen(a: Accumulator, lines: seq<PodLine>)
    requires a.current.None?
    requires forall i :: 0 <= i < |lines| ==> HeaderName(lines[i]).None?
    ensures Scan(a, lines).current.None? && Scan(a, lines).finished == a.finished
    decreases |lines|
  {
    if lines != [] {
      assert HeaderName(lines[0]).None?;
      assert forall i :: 0 <= i < |lines[1..]| ==> HeaderName(lines[1..][i]).None?;
      LeadingScanKeepsNothingOpen(Step(a, lines[0]), lines[1..]);
    }
  }

  /**
   * `flattenedDependencyHierarchy`: the scan over the lines with the open
   * library in local variables, then the closure check, which throws on the
   * first dependency that is not a key.
   */
  method FlattenedDependencyHierarchy(podList: seq<string>) returns (r: Result<Hierarchy>)
    ensures r.Ok? <==> Closed(HierarchyOf(podList))
    ensures r.Ok? ==> r.value == HierarchyOf(podList)
  {
    var librariesToDependencies: Hierarchy := Table([], map[]);
    var currentLibraryName: Option<string> := None;
    var currentDependencyNames: seq<string> := [];
    ghost var entries := Describes(podList);
    for i := 0 to |podList|
      invariant Accumulator(librariesToDependencies, currentLibraryName, currentDependencyNames)
                == Scan(Start, entries[..i])
    {
      ScanSnoc(entries, i);
      var line := podList[i];
      var name := NameFromLine(line);
      assert entries[i] == PodLine(Classify(line), name);
      if name.Some? {
        match Classify(line)
        case Library =>
          if currentLibraryName.Some? {
            librariesToDependencies := Put(librariesToDependencies, currentLibraryName.value, currentDependencyNames);
          }
          currentLibraryName := name;
          currentDependencyNames := [];
        case Dependency =>
          currentDependencyNames := currentDependencyNames + [name.value];
        case Unknown =>
      }
    }
    if currentLibraryName.Some? {
      librariesToDependencies := Put(librariesToDependencies, currentLibraryName.value, currentDependencyNames);
    }
    assert entries[..|podList|] == entries;
    var h := librariesToDependencies;
    var closed := DependenciesAreLibraries(h);
    if !closed {
      return ParseError;
    }
    return Ok(h);
  }

  /** The closure check of `flattenedDependencyHierarchy`: looks up every
      dependency of every library, in key order, and stops at the first one
      that is not itself a library. */
  method DependenciesAreLibraries(h: Hierarchy) returns (closed: bool)
    ensures closed <==> Closed(h)
  {
    for i := 0 to |h.keys|
      invariant forall i', d :: 0 <= i' < i && d in h.deps[h.keys[i']] ==> d in h.deps
    {
      var dependencies := h.deps[h.keys[i]];
      for j := 0 to |dependencies|
        invariant forall j' :: 0 <= j' < j ==> dependencies[j'] in h.deps
      {
        if dependencies[j] !in h.deps {
          return false;
        }
      }
    }
    return true;
  }
}
