/**
 * The line-level part of the Podfile.lock parser: choosing the line break,
 * cutting the PODS section off at the DEPENDENCIES marker, classifying a line
 * by its indentation and pulling the pod name out of it.
 */
module LockfileLines {
  import opened Wrappers
  import opened Text

  /** How a line of the PODS section is indented. */
  datatype LineType = Library | Dependency | Unknown

  const LibraryPrefix: string := "  -"
  const DependencyPrefix: string := "    -"
  const SectionMarker: string := "DEPENDENCIES:"

  /**
   * `lineType`: the dependency prefix is tested first, but the two prefixes
   * can never both match (the third character is a space in one and a dash in
   * the other), so each kind holds exactly when its own prefix does.
   */
  function Classify(line: string): (kind: LineType)
    ensures kind == Dependency <==> HasPrefix(line, DependencyPrefix)
    ensures kind == Library <==> HasPrefix(line, LibraryPrefix)
    ensures kind == Unknown <==> !HasPrefix(line, DependencyPrefix) && !HasPrefix(line, LibraryPrefix)
  {
    if HasPrefix(line, DependencyPrefix) then
      assert line[2] == ' ';
      Dependency
    else if HasPrefix(line, LibraryPrefix) then Library
    else Unknown
  }

  /**
   * `nameFromLine`: the second of the pieces that the whitespace-trimmed line
   * splits into at each single space, or nothing when there is only one piece.
   */
  function NameFromLine(line: string): Option<string> {
    var parts := Split(Trim(line), " ");
    if |parts| > 1 then Some(parts[1]) else None
  }

  /** A line yields no name exactly when its trimmed form holds no space, and a
      name never holds a space itself. */
  lemma NameFromLineCases(line: string)
    ensures NameFromLine(line).None? <==> ' ' !in Trim(line)
    ensures NameFromLine(line).Some? ==> ' ' !in NameFromLine(line).value
  {
    var parts := Split(Trim(line), " ");
    SplitIsSingleIff(Trim(line), " ");
    ContainsChar(Trim(line), ' ');
    if |parts| > 1 {
      SplitPiecesAreFree(Trim(line), " ");
      ContainsChar(parts[1], ' ');
    }
  }

  /** Indentation makes no difference to the name a line yields. */
  lemma NameIgnoresIndent(blanks: string, line: string)
    requires forall i :: 0 <= i < |blanks| ==> blanks[i] == ' '
    ensures NameFromLine(blanks + line) == NameFromLine(line)
  {
    TrimStartSkipsBlanks(blanks, line);
  }

  /** A name is the word between the first and the second space of the
      trimmed line: `first` is what precedes it, `rest` what follows it. */
  lemma NameIsSecondWord(line: string) returns (first: string, rest: string)
    requires NameFromLine(line).Some?
    ensures Trim(line) == first + " " + NameFromLine(line).value + rest
    ensures ' ' !in first && (rest == [] || rest[0] == ' ')
  {
    var t := Trim(line);
    var parts := Split(t, " ");
    assert |parts| > 1 && parts[1] == NameFromLine(line).value;
    first := parts[0];
    rest := if |parts| == 2 then "" else " " + Join(parts[2..], " ");
    JoinFirstTwo(parts, " ");
    assert t == first + " " + parts[1] + rest;
    SplitOnCharPieces(t, ' ');
    assert ' ' !in parts[0];
  }

  /**
   * A line as it stands in a lockfile, such as `"  - Foo (1.0)"`: spaces, a
   * dash, a space, the name, and then either nothing or a space and more text.
   * Its name is the word after the dash.
   */
  lemma NameOfPodLine(indent: string, name: string, tail: string)
    requires forall i :: 0 <= i < |indent| ==> indent[i] == ' '
    requires ' ' !in name
    requires tail == [] || tail[0] == ' '
    requires var line := indent + "- " + name + tail; !IsWhitespace(line[|line| - 1])
    ensures NameFromLine(indent + "- " + name + tail) == Some(name)
  {
    var t := "- " + name + tail;
    assert indent + t == indent + "- " + name + tail;
    TrimmedPodLine(indent, t);
    WordsOfBulletLine(name, tail);
    NameFromTrimmed(indent + t, t, name);
  }

  /** Trimming a pod line removes its indentation only. */
  lemma TrimmedPodLine(indent: string, t: string)
    requires forall i :: 0 <= i < |indent| ==> indent[i] == ' '
    requires t != [] && t[0] == '-' && !IsWhitespace(t[|t| - 1])
    ensures Trim(indent + t) == t
  {
    TrimStartAfterBlanks(indent, t);
  }

  /** The second word of `"- " + name + tail` is `name`. */
  lemma WordsOfBulletLine(name: string, tail: string)
    requires ' ' !in name
    requires tail == [] || tail[0] == ' '
    ensures |Split("- " + name + tail, " ")| > 1
    ensures Split("- " + name + tail, " ")[1] == name
  {
    var t, u := "- " + name + tail, name + tail;
    assert t[0] == '-' && t[1] == ' ' && t[2..] == u;
    SplitAtChar(t, ' ', 1);
    if tail == [] {
      SplitWithoutChar(u, ' ');
    } else {
      assert u[|name|] == ' ';
      assert forall j :: 0 <= j < |name| ==> u[j] != ' ' by {
        forall j | 0 <= j < |name| ensures u[j] != ' ' { assert u[j] == name[j]; }
      }
      SplitAtChar(u, ' ', |name|);
      assert u[..|name|] == name;
    }
  }

  /** The name depends on the line only through the words of its trimmed form. */
  lemma NameFromTrimmed(line: string, trimmed: string, name: string)
    requires Trim(line) == trimmed
    requires |Split(trimmed, " ")| > 1 && Split(trimmed, " ")[1] == name
    ensures NameFromLine(line) == Some(name)
  {
  }

  /** The scenario line `"  - Foo (1.0)"` names `Foo`. */
  lemma NameOfVersionedPod()
    ensures NameFromLine("  - Foo (1.0)") == Some("Foo")
  {
    var indent, name, tail := "  ", "Foo", " (1.0)";
    assert indent[0] == ' ' && indent[1] == ' ';
    assert name[0] != ' ' && name[1] != ' ' && name[2] != ' ';
    var line := indent + "- " + name + tail;
    assert line == "  - Foo (1.0)";
    assert line[|line| - 1] == ')';
    NameOfPodLine(indent, name, tail);
  }

  /**
   * `getPodsSection`: the text before the first `DEPENDENCIES:` marker, or
   * the whole text when there is no marker.
   */
  function PodsSection(lockfile: string): (pods: string)
    ensures HasPrefix(lockfile, pods)
    ensures forall j :: 0 <= j < |pods| ==> !OccursAt(lockfile, SectionMarker, j)
    ensures pods == lockfile <==> !Contains(lockfile, SectionMarker)
    ensures pods != lockfile ==> OccursAt(lockfile, SectionMarker, |pods|)
  {
    SplitFirstPiece(lockfile, SectionMarker);
    Split(lockfile, SectionMarker)[0]
  }

  /** Without some character of the marker, the whole text is the PODS
      section. */
  lemma SectionWithoutMarker(lockfile: string, c: char)
    requires c in SectionMarker && c !in lockfile
    ensures PodsSection(lockfile) == lockfile
  {
    MissingCharNoOccurrence(lockfile, SectionMarker, c);
  }

  /**
   * The PODS section of a text holding the marker after `before` is `before`
   * exactly when the marker starts nowhere earlier, including across the
   * seam between `before` and the marker.
   */
  lemma SectionBeforeMarker(before: string, after: string)
    ensures PodsSection(before + SectionMarker + after) == before
            <==> forall j :: 0 <= j < |before| ==> !OccursAt(before + SectionMarker, SectionMarker, j)
  {
    var s, m := before + SectionMarker + after, SectionMarker;
    assert s[|before|..|before| + |m|] == m;
    assert OccursAt(s, m, |before|);
    forall j | 0 <= j < |before|
      ensures OccursAt(s, m, j) <==> OccursAt(before + m, m, j)
    {
      assert s[j..j + |m|] == (before + m)[j..j + |m|];
    }
    var pods := PodsSection(s);
    if forall j :: 0 <= j < |before| ==> !OccursAt(before + m, m, j) {
      assert |pods| >= |before|;
      assert |pods| <= |before|;
      assert pods == s[..|before|] == before;
    }
  }

  /** When `before` holds no marker and ends in a character the marker lacks,
      the marker starts nowhere in `before + SectionMarker` ahead of its own
      place. */
  lemma NoMarkerBeforeBreak(before: string)
    requires !Contains(before, SectionMarker)
    requires before != [] && before[|before| - 1] !in SectionMarker
    ensures forall j :: 0 <= j < |before| ==> !OccursAt(before + SectionMarker, SectionMarker, j)
  {
    var s, m := before + SectionMarker, SectionMarker;
    forall j | 0 <= j < |before|
      ensures !OccursAt(s, m, j)
    {
      if j + |m| <= |before| {
        assert s[j..j + |m|] == before[j..j + |m|];
        assert !OccursAt(before, m, j);
      } else {
        assert s[j..j + |m|][|before| - 1 - j] == before[|before| - 1];
      }
    }
  }

  /** What the hierarchy scan needs to know of a line: its kind and its name. */
  datatype PodLine = PodLine(kind: LineType, name: Option<string>)

  function Describe(line: string): PodLine {
    PodLine(Classify(line), NameFromLine(line))
  }

  /** The line break the parser splits on. */
  function LineBreak(lockfile: string): string {
    if '\r' in lockfile then "\r\n" else "\n"
  }

  /**
   * The lines of the PODS section: split on `"\r\n"` when the text holds any
   * carriage return, and on `"\n"` otherwise.
   */
  function PodLines(lockfile: string): (lines: seq<string>)
    ensures |lines| >= 1
    ensures '\r' in lockfile ==> Join(lines, "\r\n") == PodsSection(lockfile)
    ensures '\r' in lockfile ==> forall i :: 0 <= i < |lines| ==> !Contains(lines[i], "\r\n")
    ensures '\r' !in lockfile ==> Join(lines, "\n") == PodsSection(lockfile)
    ensures '\r' !in lockfile ==> forall i :: 0 <= i < |lines| ==> '\n' !in lines[i]
  {
    var pods := PodsSection(lockfile);
    SplitPiecesAreFree(pods, LineBreak(lockfile));
    SplitOnCharPieces(pods, '\n');
    Split(pods, LineBreak(lockfile))
  }

  /** Without carriage returns, the lines are the only list of lines free of
      line feeds that joins back to the PODS section. */
  lemma PodLinesOfSection(lockfile: string, lines: seq<string>)
    requires '\r' !in lockfile
    requires |lines| >= 1 && forall i :: 0 <= i < |lines| ==> '\n' !in lines[i]
    requires Join(lines, "\n") == PodsSection(lockfile)
    ensures PodLines(lockfile) == lines
  {
    SplitJoinChar(lines, '\n');
  }
}
