// The one artifact a runner uploads: the diff, a marker line and the numstat.
module DiffBundle {
  import opened Text
  import opened Wrappers
  import opened Diff
  import opened DiffParser
  import opened DiffPrinter
  import opened DiffText

  const NUMSTAT_MARKER := "\n===OMADIA-DEV-RUNNER-NUMSTAT-V1===\n"

  /** The first place at or after `from` where `sub` occurs. */
  function IndexOf(s: string, sub: string, from: nat): (i: Option<nat>)
    ensures i.Some? ==> from <= i.value && At(s, sub, i.value) && forall j: nat | from <= j < i.value :: !At(s, sub, j)
    ensures i.None? ==> forall j: nat | from <= j :: !At(s, sub, j)
    decreases |s| - from
  {
    if from + |sub| > |s| then None
    else if At(s, sub, from) then Some(from)
    else if from == |s| then None
    else IndexOf(s, sub, from + 1)
  }

  /** Both halves; without the marker everything is the diff. */
  function SplitDiffBundle(bundle: string): (string, string) {
    match IndexOf(bundle, NUMSTAT_MARKER, 0)
    case None => (bundle, "")
    case Some(i) => (bundle[..i], bundle[i + |NUMSTAT_MARKER|..])
  }

  function BundleDiff(diff: string, numstat: string): string { diff + (NUMSTAT_MARKER + numstat) }

  /** A marker is its line between two line breaks. */
  lemma MarkerBreaks()
    ensures |NUMSTAT_MARKER| > 2 && NUMSTAT_MARKER[0] == '\n' && NUMSTAT_MARKER[1] == '='
    ensures forall k | 0 < k < |NUMSTAT_MARKER| - 1 :: NUMSTAT_MARKER[k] != '\n'
  {
  }

  /** A marker in front of the first one is one in the diff itself, whose last line may lack its break. */
  lemma EarlierMarker(diff: string, numstat: string, j: nat, marker: string)
    requires |marker| > 2 && marker[0] == '\n' && forall k | 0 < k < |marker| - 1 :: marker[k] != '\n'
    requires j < |diff|
    ensures At(diff + (marker + numstat), marker, j) <==> At(diff + "\n", marker, j)
  {
    var (s, t) := (diff + (marker + numstat), diff + "\n");
    assert s[..|diff| + 1] == t;
    if j + |marker| <= |t| {
      assert s[j..j + |marker|] == t[j..j + |marker|];
    } else {
      assert s[|diff|] == marker[0];
      CharAt(s, marker, j, |diff| - j);
    }
  }

  lemma CharAt(s: string, sub: string, j: nat, k: nat)
    requires k < |sub|
    ensures At(s, sub, j) ==> s[j + k] == sub[k]
  {
    if At(s, sub, j) {
      assert s[j..j + |sub|][k] == s[j + k];
    }
  }

  /** Splitting undoes bundling exactly when the diff holds no marker line, the end of the diff taken as a break. */
  lemma SplitBundleIff(diff: string, numstat: string)
    ensures SplitDiffBundle(BundleDiff(diff, numstat)) == (diff, numstat) <==> !Contains(diff + "\n", NUMSTAT_MARKER)
  {
    MarkerBreaks();
    SplitAnyIff(diff, numstat, NUMSTAT_MARKER);
  }

  lemma SplitAnyIff(diff: string, numstat: string, marker: string)
    requires |marker| > 2 && marker[0] == '\n' && forall k | 0 < k < |marker| - 1 :: marker[k] != '\n'
    ensures var s := diff + (marker + numstat);
            var i := IndexOf(s, marker, 0);
            i.Some? && i.value + |marker| <= |s|
            && ((s[..i.value], s[i.value + |marker|..]) == (diff, numstat) <==> !Contains(diff + "\n", marker))
  {
    var s := diff + (marker + numstat);
    assert s[|diff|..|diff| + |marker|] == marker;
    assert At(s, marker, |diff|);
    var i := IndexOf(s, marker, 0).value;
    if i < |diff| {
      EarlierMarker(diff, numstat, i, marker);
      assert |s[..i]| < |diff|;
    } else {
      assert s[..|diff|] == diff && s[|diff| + |marker|..] == numstat;
      forall j: nat | j <= |diff + "\n"| ensures !At(diff + "\n", marker, j) {
        if j < |diff| {
          EarlierMarker(diff, numstat, j, marker);
        }
      }
    }
  }

  // ---- no diff git prints holds a marker line ----

  /** The line begins like no marker. */
  predicate Ordinary(line: string) { line != "" && line[0] != '=' }

  ghost predicate AllOrdinary(lines: seq<string>) { forall k | 0 <= k < |lines| :: Ordinary(lines[k]) }

  lemma {:induction false} HunkLinesOrdinary(hunks: seq<Hunk>)
    requires forall k | 0 <= k < |hunks| :: PrintableHunk(hunks[k])
    ensures AllOrdinary(HunkLines(hunks))
    decreases |hunks|
  {
    if hunks != [] {
      var h := hunks[0];
      HunkLinesOrdinary(hunks[1..]);
      assert HeaderLine(h)[0] == '@';
      assert forall k | 0 <= k < |h.lines| :: PrintableLine(h.lines[k]);
      OrdinaryJoin(h.lines, HunkLines(hunks[1..]));
      OrdinaryJoin([HeaderLine(h)], h.lines + HunkLines(hunks[1..]));
    }
  }

  lemma OrdinaryJoin(a: seq<string>, b: seq<string>)
    requires AllOrdinary(a) && AllOrdinary(b)
    ensures AllOrdinary(a + b)
  {
  }

  lemma ModeLinesOrdinary(f: FileChange)
    ensures AllOrdinary(ModeLines(f))
  {
    assert forall k | 0 <= k < |ModeLines(f)| :: ModeLines(f)[k][0] in {'n', 'd', 'o'};
  }

  lemma NameLinesOrdinary(f: FileChange)
    ensures AllOrdinary(NameLines(f))
  {
    assert forall k | 0 <= k < |NameLines(f)| :: NameLines(f)[k][0] in {'s', 'r', 'c'};
  }

  lemma BinaryLinesOrdinary(f: FileChange)
    ensures AllOrdinary(BinaryLines(f))
  {
    assert forall k | 0 <= k < |BinaryLines(f)| :: BinaryLines(f)[k][0] in {'i', 'B'};
  }

  lemma SideLinesOrdinary(f: FileChange)
    ensures AllOrdinary(SideLines(f))
  {
    assert forall k | 0 <= k < |SideLines(f)| :: SideLines(f)[k][0] in {'i', '-', '+'};
  }

  lemma PreambleOrdinary(f: FileChange)
    ensures AllOrdinary([GitLine(f)]) && AllOrdinary(Preamble(f))
  {
    assert GitLine(f)[0] == 'd';
    ModeLinesOrdinary(f);
    NameLinesOrdinary(f);
    BinaryLinesOrdinary(f);
    SideLinesOrdinary(f);
    OrdinaryJoin(BinaryLines(f), SideLines(f));
    OrdinaryJoin(NameLines(f), BinaryLines(f) + SideLines(f));
    OrdinaryJoin(ModeLines(f), NameLines(f) + (BinaryLines(f) + SideLines(f)));
  }

  lemma {:induction false} BlocksOrdinary(files: seq<FileChange>)
    requires AllWellFormed(files)
    ensures AllOrdinary(Blocks(files))
    decreases |files|
  {
    if files != [] {
      PreambleOrdinary(files[0]);
      HunkLinesOrdinary(files[0].hunks);
      BlocksOrdinary(files[1..]);
      var f := files[0];
      OrdinaryJoin(Preamble(f), HunkLines(f.hunks));
      OrdinaryJoin([GitLine(f)], Preamble(f) + HunkLines(f.hunks));
      OrdinaryJoin(FileBlock(f), Blocks(files[1..]));
    }
  }

  /** After a line break comes the beginning of a line. */
  lemma {:induction false} AfterBreak(lines: seq<string>, j: nat)
    requires NoBreaks(lines) && AllOrdinary(lines)
    requires j + 1 < |Lines(lines) + "\n"| && (Lines(lines) + "\n")[j] == '\n'
    ensures (Lines(lines) + "\n")[j + 1] != '='
    decreases |lines|
  {
    if lines != [] {
      var (head, rest) := (lines[0] + "\n", Lines(lines[1..]) + "\n");
      assert Lines(lines) + "\n" == head + rest;
      if j >= |head| {
        AfterBreak(lines[1..], j - |head|);
      } else {
        assert forall k | 0 <= k < |lines[0]| :: head[k] != '\n';
        assert head[j] == '\n';
        assert (head + rest)[j + 1] == rest[0];
        if |lines| > 1 {
          assert Ordinary(lines[1]);
        }
      }
    }
  }

  /** Whatever a printed diff changes, bundled with any numstat it is split back into both halves. */
  lemma PrintedBundleSplits(files: seq<FileChange>, numstat: string)
    requires AllWellFormed(files)
    ensures SplitDiffBundle(BundleDiff(Print(files), numstat)) == (Print(files), numstat)
  {
    BlocksStripped(files);
    BlocksOrdinary(files);
    MarkerBreaks();
    var text := Print(files) + "\n";
    forall j: nat | j <= |text| ensures !At(text, NUMSTAT_MARKER, j) {
      NoMarkerAt(Blocks(files), j, NUMSTAT_MARKER);
    }
    SplitBundleIff(Print(files), numstat);
  }

  lemma NoMarkerAt(lines: seq<string>, j: nat, marker: string)
    requires NoBreaks(lines) && AllOrdinary(lines)
    requires |marker| > 2 && marker[0] == '\n' && marker[1] == '='
    ensures !At(Lines(lines) + "\n", marker, j)
  {
    var text := Lines(lines) + "\n";
    if At(text, marker, j) {
      assert text[j..j + |marker|][0] == text[j] && text[j..j + |marker|][1] == text[j + 1];
      AfterBreak(lines, j);
    }
  }
}
