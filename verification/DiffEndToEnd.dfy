// A set of edits, printed by git, parsed by the host and applied to the pinned base.
module DiffEndToEnd {
  import opened Wrappers
  import opened Diff
  import opened DiffParser
  import opened ParserSoundness
  import opened DiffPrinter
  import opened PrintedTokens
  import opened DiffRoundTrip
  import opened DiffText
  import opened ApplyHunks
  import opened EditScript
  import opened PrintedEdit
  import opened FinalNewline
  import opened CommitBuilder
  import CommittedTree
  import Forge

  /** A file change with the edit behind it: added, deleted, modified, renamed or copied, with or without hunks. */
  datatype Edited = Edited(path: string, oldPath: Option<string>, change: Change, binary: bool, mode: Option<string>,
                           edit: FileEdit) {
    function Hunks(): seq<Hunk> { PrintedEdit.Hunks(edit.Printed(), 0, 0) }

    function Change(): FileChange {
      FileChange(path, oldPath, change, binary, HunkAdditions(Hunks()), HunkDeletions(Hunks()), Hunks(), mode)
    }

    function OldText(): string { FileText(edit.Old(), edit.oldNewline) }
    function NewText(): string { FileText(edit.New(), edit.newNewline) }

    /** Names, mode and edit fit the kind of change, and bodies are made of tagged lines. */
    ghost predicate Valid() {
      && path != ""
      && (if change in {Rename, Copy} then oldPath.Some? && oldPath.value !in {"", path} else oldPath == None)
      && (change == Add ==> mode.Some? && edit.Old() == [])
      && (change == Delete ==> mode == None && edit.New() == [])
      && (mode.Some? ==> ModeWord(mode.value))
      && (binary ==> edit.pieces == [])
      && edit.Valid()
      && forall k | 0 <= k < |edit.pieces| :: Printable(edit.pieces[k].body)
    }

    /** The parser reads the change back: no hunk line ends in a carriage return and its name is shown. */
    ghost predicate Readable() { NoTrailingCr(Change()) && NameShown(Change()) }

    /** The condition under which the applier reaches the new text. */
    predicate Faithful() {
      Harmless([], edit.pieces) && (edit.newNewline || edit.ReachesEnd())
    }
  }

  ghost predicate Printable(body: seq<string>) { forall k | 0 <= k < |body| :: PrintableLine(body[k]) }

  lemma PrintableJoin(a: seq<string>, b: seq<string>)
    requires Printable(a) && Printable(b)
    ensures Printable(a + b)
  {
  }

  lemma {:induction false} MarkedPrintable(body: seq<string>, oldBare: bool, newBare: bool)
    requires Printable(body)
    ensures Printable(Marked(body, oldBare, newBare))
    decreases |body|
  {
    if body != [] {
      var front, last := body[..|body| - 1], body[|body| - 1];
      assert Printable([NOTE]);
      MarkedPrintable(front, oldBare, false);
      MarkedPrintable(front, false, newBare);
      forall start: seq<string>, due: bool | Printable(start) ensures Printable(start + [last] + Note(due)) {
        PrintableJoin(start, [last]);
        PrintableJoin(start + [last], Note(due));
      }
    }
  }

  lemma {:induction false} HunksCounted(pieces: seq<Piece>, oldPos: nat, newPos: nat)
    ensures forall k | 0 <= k < |PrintedEdit.Hunks(pieces, oldPos, newPos)| ::
              Counted(PrintedEdit.Hunks(pieces, oldPos, newPos)[k])
    decreases |pieces|
  {
    if pieces != [] {
      var p := pieces[0];
      HunksCounted(pieces[1..], oldPos + |p.gap| + |OldSide(p.body)|, newPos + |p.gap| + |NewSide(p.body)|);
    }
  }

  lemma PrintedPrintable(f: Edited)
    requires f.Valid()
    ensures forall k | 0 <= k < |f.edit.pieces| :: Printable(f.edit.Printed()[k].body)
  {
    var e := f.edit;
    if e.pieces != [] {
      MarkedPrintable(e.pieces[|e.pieces| - 1].body, !e.oldNewline, !e.newNewline);
    }
  }

  lemma ChangeWellFormed(f: Edited)
    requires f.Valid()
    ensures WellFormed(f.Change())
  {
    var printed := f.edit.Printed();
    PrintedPrintable(f);
    HunksCounted(printed, 0, 0);
    HunksPrint(printed, 0, 0);
    HunkBodies(Hunks(printed, 0, 0), printed, 0);
    forall k | 0 <= k < |f.Hunks()| ensures PrintableHunk(f.Hunks()[k]) {
      assert Printable(printed[k].body);
    }
  }

  /** The changes of a set of edits. */
  function Changes(files: seq<Edited>): (r: seq<FileChange>)
    ensures |r| == |files| && forall k | 0 <= k < |r| :: r[k] == files[k].Change()
  {
    seq(|files|, k requires 0 <= k < |files| => files[k].Change())
  }

  /** Whatever the files of a printed diff are: each readable one is parsed back exactly and no other is, and
      applying the hunks of a readable file to its old text gives its new text exactly if the edit is faithful. */
  lemma PrintParseApply(files: seq<Edited>, dec: Decoder)
    requires Decodes(dec) && forall k | 0 <= k < |files| :: files[k].Valid()
    ensures var parsed := Parse(Print(Changes(files)), dec);
            && parsed.Ok? && |parsed.value| == |files|
            && (forall k | 0 <= k < |files| :: parsed.value[k] == files[k].Change() <==> files[k].Readable())
            && forall k | 0 <= k < |files| && files[k].Readable() ::
                 Applied(files[k].path, files[k].OldText(), parsed.value[k].hunks) == Ok(files[k].NewText()) <==>
                 files[k].Faithful()
  {
    var changes := Changes(files);
    forall k | 0 <= k < |files| ensures WellFormed(changes[k]) {
      ChangeWellFormed(files[k]);
    }
    PrintParse(changes, dec);
    AllSeenAt(AllStripped(changes), dec);
    forall k | 0 <= k < |files|
      ensures Seen(Stripped(changes[k]), dec) == changes[k] <==> files[k].Readable()
    {
      SeenIff(changes[k], dec);
    }
    forall k | 0 <= k < |files|
      ensures Applied(files[k].path, files[k].OldText(), files[k].Hunks()) == Ok(files[k].NewText()) <==>
              files[k].Faithful()
    {
      PrintedFileIff(files[k].path, files[k].edit);
    }
  }

  // ---- and committed ----

  /** The base holds the old text where the edit started from. */
  predicate BasedOn(base: Forge.Tree, f: Edited) {
    f.change == Add || (Origin(f.Change()) in base && base[Origin(f.Change())].content == f.OldText())
  }

  lemma EditReconstructed(base: Forge.Tree, f: Edited)
    requires f.Valid() && BasedOn(base, f)
    ensures Reconstructed(base, f.Change()).Ok?
    ensures Reconstructed(base, f.Change()).value.content == f.NewText() <==> f.Faithful()
  {
    var e := f.edit;
    FileLinesOf(e.Old(), e.oldNewline);
    var out := PrintedLines(f.path, e);
    PrintedFileIff(f.path, e);
  }

  /** The whole way: edits of a base, printed, parsed and committed. A path gets the new text of its edit under the
      mode it should have exactly when the edit is faithful and its path survives the other files; every path no
      file writes is gone or as it was. (A diff with a refused file is turned down before: `CommitBuilder.Prescan`.) */
  lemma PrintedDiffCommitted(base: Forge.Tree, files: seq<Edited>, dec: Decoder)
    requires Decodes(dec)
    requires forall k | 0 <= k < |files| :: files[k].Valid() && files[k].Readable() && BasedOn(base, files[k])
    requires CommittedTree.WrittenOnce(Changes(files))
    ensures Parse(Print(Changes(files)), dec) == Ok(Changes(files)) && PlanOf(base, Changes(files)).Ok?
    ensures var (changes, t) := (Changes(files), Forge.ApplyEdits(base, Edits(base, Changes(files))));
            && (forall k | 0 <= k < |files| && files[k].change != Delete ::
                  CommittedTree.Lookup(t, files[k].path) ==
                  Some(Forge.File(CommittedTree.WantedMode(base, changes[k]), files[k].NewText())) <==>
                  files[k].Faithful() && CommittedTree.Survives(base, changes, k))
            && (forall p | !CommittedTree.Written(changes, p) ::
                  CommittedTree.Lookup(t, p) ==
                  if CommittedTree.Vacated(changes, p) then None else CommittedTree.Lookup(base, p))
  {
    var changes := Changes(files);
    PrintedParsed(files, dec);
    EditsPlanned(base, files);
    forall k | 0 <= k < |files| && files[k].change != Delete
      ensures CommittedTree.Lookup(Forge.ApplyEdits(base, Edits(base, changes)), files[k].path) ==
              Some(Forge.File(CommittedTree.WantedMode(base, changes[k]), files[k].NewText())) <==>
              files[k].Faithful() && CommittedTree.Survives(base, changes, k)
    {
      EditCommitted(base, files, k);
    }
    forall p | !CommittedTree.Written(changes, p)
      ensures CommittedTree.Lookup(Forge.ApplyEdits(base, Edits(base, changes)), p) ==
              if CommittedTree.Vacated(changes, p) then None else CommittedTree.Lookup(base, p)
    {
      CommittedTree.OthersRight(base, changes, p);
    }
  }

  lemma PrintedParsed(files: seq<Edited>, dec: Decoder)
    requires Decodes(dec)
    requires forall k | 0 <= k < |files| :: files[k].Valid() && files[k].Readable()
    ensures Parse(Print(Changes(files)), dec) == Ok(Changes(files))
  {
    PrintParseApply(files, dec);
    assert Parse(Print(Changes(files)), dec).value == Changes(files);
  }

  lemma EditsPlanned(base: Forge.Tree, files: seq<Edited>)
    requires forall k | 0 <= k < |files| :: files[k].Valid() && BasedOn(base, files[k])
    ensures PlanOf(base, Changes(files)).Ok?
  {
    forall k | 0 <= k < |files| ensures Reconstructed(base, Changes(files)[k]).Ok? {
      EditReconstructed(base, files[k]);
    }
    CommittedTree.PlanFits(base, Changes(files));
  }

  lemma EditCommitted(base: Forge.Tree, files: seq<Edited>, k: nat)
    requires PlanOf(base, Changes(files)).Ok? && CommittedTree.WrittenOnce(Changes(files))
    requires k < |files| && files[k].Valid() && BasedOn(base, files[k]) && files[k].change != Delete
    ensures CommittedTree.Lookup(Forge.ApplyEdits(base, Edits(base, Changes(files))), files[k].path) ==
            Some(Forge.File(CommittedTree.WantedMode(base, Changes(files)[k]), files[k].NewText())) <==>
            files[k].Faithful() && CommittedTree.Survives(base, Changes(files), k)
  {
    var changes := Changes(files);
    CommittedTree.CommittedPath(base, changes, changes[k].path);
    assert CommittedTree.LastWriter(changes, k);
    CommittedTree.LastWriterSent(base, changes, k);
    EditReconstructed(base, files[k]);
  }

  // ---- line counts of parsed diffs ----

  lemma {:induction false} SumAppend(a: seq<Hunk>, h: Hunk, tag: char)
    ensures Sum(a + [h], tag) == Sum(a, tag) + Tagged(h.lines, tag)
    decreases |a|
  {
    if a == [] {
      assert [h][1..] == [] && [] + [h] == [h];
    } else {
      assert (a + [h])[1..] == a[1..] + [h];
      SumAppend(a[1..], h, tag);
    }
  }

  lemma {:induction false} SumsAreTotals(hunks: seq<Hunk>)
    ensures Sum(hunks, '+') == HunkAdditions(hunks) && Sum(hunks, '-') == HunkDeletions(hunks)
    decreases |hunks|
  {
    if hunks != [] {
      var front, last := hunks[..|hunks| - 1], hunks[|hunks| - 1];
      assert hunks == front + [last];
      SumsAreTotals(front);
      SumAppend(front, last, '+');
      SumAppend(front, last, '-');
    }
  }

  /** Applying a parsed file's hunks to any base they fit adds and removes exactly as many lines as the file's
      totals say, and every header count matches its body. */
  lemma ParsedLineCount(diff: string, dec: Decoder, k: nat, src: seq<string>, out: seq<string>)
    requires Parse(diff, dec).Ok? && k < |Parse(diff, dec).value|
    requires var f := Parse(diff, dec).value[k]; ApplyFrom(f.path, src, 0, f.hunks) == Ok(out)
    ensures var f := Parse(diff, dec).value[k];
            && |out| == |src| + f.additions - f.deletions
            && forall h | 0 <= h < |f.hunks| :: Counted(f.hunks[h])
  {
    var f := Parse(diff, dec).value[k];
    ParseSound(diff, dec);
    assert Sound(f);
    LineCount(f.path, src, f.hunks, out);
    SumsAreTotals(f.hunks);
  }
}
