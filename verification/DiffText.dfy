// The text of a printed diff, and the whole round trip.
module DiffText {
  import opened Text
  import opened Wrappers
  import opened Diff
  import opened DiffParser
  import opened DiffPrinter
  import opened PrintedTokens
  import opened DiffRoundTrip

  // ---- no printed line is broken, and only hunk lines can end in a carriage return ----

  ghost predicate Clean(lines: seq<string>) {
    forall k | 0 <= k < |lines| :: '\n' !in lines[k] && StripCr(lines[k]) == lines[k]
  }

  ghost predicate Ascii(s: string) { forall k | 0 <= k < |s| :: 32 <= s[k] as int < 127 }

  lemma AsciiClean(front: string, s: string)
    requires '\n' !in front && '\r' !in front && Ascii(s)
    ensures Clean([front + s])
  {
  }

  lemma CleanJoin(a: seq<string>, b: seq<string>)
    requires Clean(a) && Clean(b)
    ensures Clean(a + b)
  {
  }

  lemma Clean3(a: string, b: string, c: string)
    requires Clean([a]) && Clean([b]) && Clean([c])
    ensures Clean([a, b, c])
  {
    CleanJoin([a], [b]);
    CleanJoin([a] + [b], [c]);
    assert [a] + [b] + [c] == [a, b, c];
  }

  lemma AsciiJoin(a: string, b: string)
    requires Ascii(a) && Ascii(b)
    ensures Ascii(a + b)
  {
  }

  lemma DigitsAscii(n: nat)
    ensures Ascii(Digits(n))
  {
    assert forall k | 0 <= k < |Digits(n)| :: IsDigit(Digits(n)[k]);
  }

  lemma RangeAscii(start: nat, count: nat)
    ensures Ascii(RangeText(start, count))
  {
    DigitsAscii(start);
    DigitsAscii(count);
  }

  lemma HeaderAscii(h: Hunk)
    ensures Ascii(HeaderLine(h))
  {
    RangeAscii(h.oldStart, h.oldLines);
    RangeAscii(h.newStart, h.newLines);
    AsciiJoin(RangeText(h.newStart, h.newLines), " @@");
    AsciiJoin(" +", RangeText(h.newStart, h.newLines) + " @@");
    AsciiJoin(RangeText(h.oldStart, h.oldLines), " +" + (RangeText(h.newStart, h.newLines) + " @@"));
  }

  lemma GitLineClean(f: FileChange)
    ensures Clean([GitLine(f)])
  {
    ShownPlain("a/" + Old(f));
    ShownPlain("b/" + f.path);
    AsciiClean(DIFF_GIT, GitPair(Old(f), f.path));
  }

  lemma ModesClean(f: FileChange)
    requires WellFormed(f)
    ensures Clean(ModeLines(f))
  {
    if f.mode.Some? {
      var m := f.mode.value;
      ModeLineClean("new file mode ", m);
      ModeLineClean(NEW_MODE, m);
    }
  }

  lemma ModeLineClean(front: string, m: string)
    requires ModeWord(m) && '\n' !in front
    ensures Clean([front + m])
  {
    assert (front + m)[|front + m| - 1] == m[|m| - 1];
    assert !IsSpace(m[|m| - 1]);
  }

  lemma NamesClean(f: FileChange)
    ensures Clean(NameLines(f))
  {
    ShownPlain(Old(f));
    ShownPlain(f.path);
    var (from, to) := (Shown(Old(f)), Shown(f.path));
    AsciiClean("", SIMILARITY);
    if f.change == Rename {
      AsciiClean(RENAME_FROM, from);
      AsciiClean(RENAME_TO, to);
      Clean3(SIMILARITY, RENAME_FROM + from, RENAME_TO + to);
    } else if f.change == Copy {
      AsciiClean(COPY_FROM, from);
      AsciiClean(COPY_TO, to);
      Clean3(SIMILARITY, COPY_FROM + from, COPY_TO + to);
    }
  }

  lemma BinaryClean(f: FileChange)
    ensures Clean(BinaryLines(f))
  {
    ShownPlain("a/" + Old(f));
    ShownPlain("b/" + f.path);
    var (a, b) := (Shown("a/" + Old(f)), Shown("b/" + f.path) + " differ");
    AsciiJoin(" and ", b);
    AsciiJoin(a, " and " + b);
    AsciiClean("Binary files ", a + (" and " + b));
    assert Clean([INDEX]);
  }

  lemma SideClean(front: string, p: string)
    requires Ascii(front)
    ensures Clean([front + SideShown(p)])
  {
    ShownPlain(p);
    if SideShown(p) == Shown(p) + "\t" {
      var s := front + SideShown(p);
      assert s[|s| - 1] == '\t';
    } else {
      assert SideShown(p) == Shown(p);
      AsciiClean(front, Shown(p));
    }
  }

  /** "--- " or "+++ " and a path or /dev/null. */
  lemma SideOrNullClean(front: string, absent: bool, p: string)
    requires Ascii(front)
    ensures Clean([front + if absent then "/dev/null" else SideShown(p)])
  {
    if absent {
      AsciiClean(front, "/dev/null");
    } else {
      SideClean(front, p);
    }
  }

  lemma IndexClean()
    ensures Clean([INDEX])
  {
  }

  lemma SidesClean(f: FileChange)
    ensures Clean(SideLines(f))
  {
    if f.hunks != [] {
      var minus := if f.change == Add then "/dev/null" else SideShown("a/" + Old(f));
      var plus := if f.change == Delete then "/dev/null" else SideShown("b/" + f.path);
      SideOrNullClean("--- ", f.change == Add, "a/" + Old(f));
      SideOrNullClean("+++ ", f.change == Delete, "b/" + f.path);
      IndexClean();
      Clean3(INDEX, "--- " + minus, "+++ " + plus);
    }
  }

  lemma PreambleClean(f: FileChange)
    requires WellFormed(f)
    ensures Clean([GitLine(f)] + Preamble(f))
  {
    GitLineClean(f);
    ModesClean(f);
    NamesClean(f);
    BinaryClean(f);
    SidesClean(f);
    CleanJoin(BinaryLines(f), SideLines(f));
    CleanJoin(NameLines(f), BinaryLines(f) + SideLines(f));
    CleanJoin(ModeLines(f), NameLines(f) + (BinaryLines(f) + SideLines(f)));
    CleanJoin([GitLine(f)], Preamble(f));
  }

  // ---- carriage returns ----

  function StripHunks(hunks: seq<Hunk>): (r: seq<Hunk>)
    ensures |r| == |hunks|
    ensures forall k | 0 <= k < |r| :: r[k] == hunks[k].(lines := StripAll(hunks[k].lines))
    decreases |hunks|
  {
    if hunks == [] then [] else [hunks[0].(lines := StripAll(hunks[0].lines))] + StripHunks(hunks[1..])
  }

  /** A file change whose hunk lines lost one trailing carriage return each. */
  function Stripped(f: FileChange): FileChange { f.(hunks := StripHunks(f.hunks)) }

  function AllStripped(files: seq<FileChange>): (r: seq<FileChange>)
    ensures |r| == |files| && forall k | 0 <= k < |r| :: r[k] == Stripped(files[k])
    decreases |files|
  {
    if files == [] then [] else [Stripped(files[0])] + AllStripped(files[1..])
  }

  lemma StripAppend(a: seq<string>, b: seq<string>)
    ensures StripAll(a + b) == StripAll(a) + StripAll(b)
  {
  }

  lemma CleanStays(lines: seq<string>)
    requires Clean(lines)
    ensures StripAll(lines) == lines && NoBreaks(lines)
  {
  }

  lemma StripKeepsTag(raw: string)
    requires PrintableLine(raw)
    ensures PrintableLine(StripCr(raw)) && StripCr(raw)[0] == raw[0]
  {
  }

  lemma {:induction false} StripKeepsCounts(body: seq<string>, tag: char)
    requires forall k | 0 <= k < |body| :: PrintableLine(body[k])
    ensures |Side(StripAll(body), tag)| == |Side(body, tag)| && Tagged(StripAll(body), tag) == Tagged(body, tag)
    decreases |body|
  {
    if body != [] {
      var n := |body| - 1;
      StripKeepsTag(body[n]);
      assert StripAll(body)[..n] == StripAll(body[..n]);
      StripKeepsCounts(body[..n], tag);
    }
  }

  lemma StripPrintable(h: Hunk)
    requires PrintableHunk(h)
    ensures PrintableHunk(h.(lines := StripAll(h.lines)))
    ensures Added(StripAll(h.lines)) == Added(h.lines) && Deleted(StripAll(h.lines)) == Deleted(h.lines)
  {
    StripKeepsCounts(h.lines, '+');
    StripKeepsCounts(h.lines, '-');
    forall k | 0 <= k < |h.lines| ensures PrintableLine(StripAll(h.lines)[k]) {
      StripKeepsTag(h.lines[k]);
    }
  }

  lemma {:induction false} StripKeepsTotals(hunks: seq<Hunk>)
    requires forall k | 0 <= k < |hunks| :: PrintableHunk(hunks[k])
    ensures HunkAdditions(StripHunks(hunks)) == HunkAdditions(hunks)
    ensures HunkDeletions(StripHunks(hunks)) == HunkDeletions(hunks)
    decreases |hunks|
  {
    if hunks != [] {
      var n := |hunks| - 1;
      StripPrintable(hunks[n]);
      assert StripHunks(hunks)[..n] == StripHunks(hunks[..n]);
      StripKeepsTotals(hunks[..n]);
    }
  }

  lemma StrippedWellFormed(f: FileChange)
    requires WellFormed(f)
    ensures WellFormed(Stripped(f))
  {
    StripKeepsTotals(f.hunks);
    forall k | 0 <= k < |f.hunks| ensures PrintableHunk(StripHunks(f.hunks)[k]) {
      StripPrintable(f.hunks[k]);
    }
  }

  lemma {:induction false} HunkLinesStripped(hunks: seq<Hunk>)
    requires forall k | 0 <= k < |hunks| :: PrintableHunk(hunks[k])
    ensures StripAll(HunkLines(hunks)) == HunkLines(StripHunks(hunks)) && NoBreaks(HunkLines(hunks))
    decreases |hunks|
  {
    if hunks != [] {
      var h := hunks[0];
      HunkLinesStripped(hunks[1..]);
      HeaderAscii(h);
      Blank(HeaderLine(h));
      AsciiClean("", HeaderLine(h));
      CleanStays([HeaderLine(h)]);
      StripAppend(h.lines, HunkLines(hunks[1..]));
      StripAppend([HeaderLine(h)], h.lines + HunkLines(hunks[1..]));
      assert forall k | 0 <= k < |h.lines| :: PrintableLine(h.lines[k]);
      assert StripHunks(hunks)[1..] == StripHunks(hunks[1..]);
      assert HeaderLine(StripHunks(hunks)[0]) == HeaderLine(h);
    }
  }

  lemma BlockStripped(f: FileChange)
    requires WellFormed(f)
    ensures StripAll(FileBlock(f)) == FileBlock(Stripped(f)) && NoBreaks(FileBlock(f))
  {
    var head := [GitLine(f)] + Preamble(f);
    PreambleClean(f);
    CleanStays(head);
    HunkLinesStripped(f.hunks);
    SamePreamble(f);
    HeadAndHunks(head, HunkLines(f.hunks));
    Assoc([GitLine(f)], Preamble(f), HunkLines(f.hunks));
    Assoc([GitLine(f)], Preamble(f), HunkLines(StripHunks(f.hunks)));
  }

  lemma HeadAndHunks(head: seq<string>, lines: seq<string>)
    requires StripAll(head) == head && NoBreaks(head) && NoBreaks(lines)
    ensures StripAll(head + lines) == head + StripAll(lines) && NoBreaks(head + lines)
  {
    StripAppend(head, lines);
  }

  lemma SamePreamble(f: FileChange)
    ensures GitLine(Stripped(f)) == GitLine(f) && Preamble(Stripped(f)) == Preamble(f)
  {
  }

  lemma {:induction false} BlocksStripped(files: seq<FileChange>)
    requires AllWellFormed(files)
    ensures StripAll(Blocks(files)) == Blocks(AllStripped(files)) && NoBreaks(Blocks(files))
    decreases |files|
  {
    if files != [] {
      BlockStripped(files[0]);
      BlocksStripped(files[1..]);
      StripAppend(FileBlock(files[0]), Blocks(files[1..]));
      assert AllStripped(files)[1..] == AllStripped(files[1..]);
    }
  }

  // ---- the round trip ----

  /** Parsing a printed diff: every file, hunk and count comes back, up to carriage returns at the end of
      hunk lines and names that only an ambiguous header line carries. */
  lemma PrintParse(files: seq<FileChange>, dec: Decoder)
    requires AllWellFormed(files) && Decodes(dec)
    ensures Parse(Print(files), dec) == Ok(AllSeen(AllStripped(files), dec))
  {
    BlocksStripped(files);
    SplitLines(Blocks(files));
    StripAppend(Blocks(files), [""]);
    forall k | 0 <= k < |files| ensures WellFormed(AllStripped(files)[k]) {
      StrippedWellFormed(files[k]);
    }
    BlocksParsed(None, AllStripped(files), dec);
    var all := AllSeen(AllStripped(files), dec);
    assert [] + all == all;
    assert StripAll([""]) == [""];
  }

  ghost predicate NoTrailingCr(f: FileChange) {
    forall k | 0 <= k < |f.hunks| :: StripAll(f.hunks[k].lines) == f.hunks[k].lines
  }

  /** Something other than the header line names the file, or the header line can be read only one way. */
  ghost predicate NameShown(f: FileChange) {
    f.hunks != [] || f.change in {Rename, Copy} || NeedsQuote(f.path) || Unsplit(f.path)
  }

  lemma SeenIff(f: FileChange, dec: Decoder)
    requires WellFormed(f) && Decodes(dec)
    ensures Seen(Stripped(f), dec) == f <==> NoTrailingCr(f) && NameShown(f)
  {
    GitPairIff(f.path, dec);
    StripSameIff(f.hunks);
  }

  lemma StripSameIff(hunks: seq<Hunk>)
    ensures StripHunks(hunks) == hunks <==> forall k | 0 <= k < |hunks| :: StripAll(hunks[k].lines) == hunks[k].lines
  {
    if StripHunks(hunks) == hunks {
      forall k | 0 <= k < |hunks| ensures StripAll(hunks[k].lines) == hunks[k].lines {
        assert StripHunks(hunks)[k] == hunks[k];
      }
    }
  }

  lemma {:induction false} AllSeenAt(files: seq<FileChange>, dec: Decoder)
    ensures |AllSeen(files, dec)| == |files|
    ensures forall k | 0 <= k < |files| :: AllSeen(files, dec)[k] == Seen(files[k], dec)
    decreases |files|
  {
    if files != [] {
      AllSeenAt(files[1..], dec);
    }
  }

  /** The round trip is exact for precisely those diffs where no hunk line ends in a carriage return and
      every file without hunks can be named from its header line. */
  lemma RoundTripIff(files: seq<FileChange>, dec: Decoder)
    requires AllWellFormed(files) && Decodes(dec)
    ensures Parse(Print(files), dec) == Ok(files)
            <==> forall k | 0 <= k < |files| :: NoTrailingCr(files[k]) && NameShown(files[k])
  {
    var seen := AllSeen(AllStripped(files), dec);
    PrintParse(files, dec);
    AllSeenAt(AllStripped(files), dec);
    forall k | 0 <= k < |files|
      ensures seen[k] == files[k] <==> NoTrailingCr(files[k]) && NameShown(files[k])
    {
      SeenIff(files[k], dec);
    }
    assert seen == files <==> forall k | 0 <= k < |files| :: seen[k] == files[k];
  }

  /** An added line that ends in a carriage return: the parser drops it. */
  lemma CarriageReturnLost(dec: Decoder)
    requires Decodes(dec)
    ensures var f := FileChange("p", None, Modify, false, 1, 0, [Hunk(0, 0, 1, 1, ["+x\r"])], None);
            Parse(Print([f]), dec) == Ok([f.(hunks := [Hunk(0, 0, 1, 1, ["+x"])])])
  {
    var line := "+x\r";
    var h := Hunk(0, 0, 1, 1, [line]);
    var f := FileChange("p", None, Modify, false, 1, 0, [h], None);
    OneAdded(line);
    assert Counted(h);
    assert [h][..|[h]| - 1] == [];
    assert HunkAdditions([h]) == 1 && HunkDeletions([h]) == 0;
    assert PrintableHunk(h) && f.hunks[0] == h;
    assert WellFormed(f);
    PrintParse([f], dec);
    assert StripCr(line) == "+x";
    assert StripAll([line]) == ["+x"];
    assert StripHunks([h]) == [Hunk(0, 0, 1, 1, ["+x"])];
    assert AllStripped([f]) == [Stripped(f)];
    assert [Stripped(f)][1..] == [];
    assert AllSeen([Stripped(f)], dec) == [Seen(Stripped(f), dec)] + [];
  }
}
