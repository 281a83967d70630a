// Whether the committed tree is the one the diff describes.
module CommittedTree {
  import opened Text
  import opened Wrappers
  import opened Diff
  import opened ApplyHunks
  import opened Forge
  import opened CommitBuilder

  function Lookup(t: Tree, p: string): Option<File> { if p in t then Some(t[p]) else None }

  // ---- what the diff describes, path by path ----

  /** The file leaves something at the path. */
  predicate Writes(f: FileChange, p: string) { f.change != Delete && f.path == p }

  /** The file takes the path away: it is deleted, or it is what a rename moves. */
  predicate Vacates(f: FileChange, p: string) {
    (f.change == Delete && f.path == p) || (f.change == Rename && f.oldPath == Some(p) && p != "")
  }

  /** The mode a file should have: the declared one, else the one it had. */
  function WantedMode(base: Tree, f: FileChange): string {
    if f.mode.Some? then f.mode.value
    else if f.change != Add && Origin(f) in base then base[Origin(f)].mode
    else BLOB_MODE
  }

  /** The file a change describes: the hunks applied to the base, under the mode it should have. */
  function WantedFile(base: Tree, f: FileChange): File
    requires Reconstructed(base, f).Ok?
  {
    File(WantedMode(base, f), Reconstructed(base, f).value.content)
  }

  /** Every file that is not deleted can be reconstructed from the base. */
  ghost predicate Fits(base: Tree, files: seq<FileChange>) {
    forall k | 0 <= k < |files| :: files[k].change == Delete || Reconstructed(base, files[k]).Ok?
  }

  predicate Written(files: seq<FileChange>, p: string) { exists k | 0 <= k < |files| :: Writes(files[k], p) }

  predicate Vacated(files: seq<FileChange>, p: string) { exists k | 0 <= k < |files| :: Vacates(files[k], p) }

  /** A path some file leaves something at holds what that file describes; any other path is gone if a file takes
      it away, and else is as it was. */
  ghost predicate Described(base: Tree, files: seq<FileChange>, t: Tree)
    requires Fits(base, files)
  {
    && (forall k | 0 <= k < |files| && files[k].change != Delete ::
          Lookup(t, files[k].path) == Some(WantedFile(base, files[k])))
    && (forall p | !Written(files, p) :: Lookup(t, p) == if Vacated(files, p) then None else Lookup(base, p))
  }

  // ---- what is sent, path by path ----

  /** What a change is committed as. */
  function SentFile(base: Tree, f: FileChange): File
    requires Reconstructed(base, f).Ok?
  {
    File(ResolveMode(f), Reconstructed(base, f).value.content)
  }

  /** What the writes and rename sources leave at a path, if they name it. */
  function LastSent(base: Tree, files: seq<FileChange>, p: string): Option<Option<File>>
    requires Fits(base, files)
    decreases |files|
  {
    if files == [] then None
    else
      var (front, f) := (files[..|files| - 1], files[|files| - 1]);
      if Writes(f, p) then Some(Some(SentFile(base, f)))
      else if RenamedFrom(f) == Some(p) then Some(None)
      else LastSent(base, front, p)
  }

  predicate Deleted(files: seq<FileChange>, p: string) {
    exists k | 0 <= k < |files| :: files[k].change == Delete && files[k].path == p
  }

  lemma {:induction false} ApplyConcat(t: Tree, a: seq<Edit>, b: seq<Edit>)
    ensures ApplyEdits(t, a + b) == ApplyEdits(ApplyEdits(t, a), b)
    decreases |b|
  {
    if b == [] {
      assert a + b == a;
    } else {
      var n := |b| - 1;
      assert (a + b)[..|a + b| - 1] == a + b[..n];
      ApplyConcat(t, a, b[..n]);
    }
  }

  lemma UpsertTree(t: Tree, u: Upsert, p: string)
    requires u.deleteOld != Some(u.path)
    ensures Lookup(ApplyEdits(t, UpsertEdits(u)), p) ==
            if p == u.path then Some(File(u.mode, u.content))
            else if u.deleteOld == Some(p) then None
            else Lookup(t, p)
  {
    var write := Edit(u.path, Some(File(u.mode, u.content)));
    assert [write][..0] == [];
    assert ApplyEdits(t, [write]) == t[u.path := File(u.mode, u.content)];
    if u.deleteOld.Some? {
      var both := [write, Edit(u.deleteOld.value, None)];
      assert UpsertEdits(u) == both && both[..1] == [write];
    } else {
      assert UpsertEdits(u) == [write];
    }
  }

  lemma {:induction false} RemovalsTree(t: Tree, paths: seq<string>, p: string)
    ensures Lookup(ApplyEdits(t, Removals(paths)), p) == if p in paths then None else Lookup(t, p)
    decreases |paths|
  {
    if paths != [] {
      var n := |paths| - 1;
      RemovalsTree(t, paths[..n], p);
      ApplyConcat(t, Removals(paths[..n]), [Edit(paths[n], None)]);
      assert paths == paths[..n] + [paths[n]];
      assert [Edit(paths[n], None)][..0] == [];
    }
  }

  /** What the front says of a path, and the last file. */
  lemma FrontVacated(files: seq<FileChange>, p: string)
    requires files != []
    ensures var (front, f) := (files[..|files| - 1], files[|files| - 1]);
            && (Vacated(files, p) <==> Vacated(front, p) || Vacates(f, p))
            && (Deleted(files, p) <==> Deleted(front, p) || (f.change == Delete && f.path == p))
  {
    var n := |files| - 1;
    var front := files[..n];
    if k: nat :| k < n && Vacates(front[k], p) {
      assert Vacates(files[k], p);
    }
    if k: nat :| k < n && Vacates(files[k], p) {
      assert Vacates(front[k], p);
    }
    if k: nat :| k < n && front[k].change == Delete && front[k].path == p {
      assert files[k].change == Delete && files[k].path == p;
    }
    if k: nat :| k < n && files[k].change == Delete && files[k].path == p {
      assert front[k].change == Delete && front[k].path == p;
    }
  }

  lemma FrontFits(base: Tree, files: seq<FileChange>)
    requires files != []
    ensures var (front, f) := (files[..|files| - 1], files[|files| - 1]);
            Fits(base, files) <==> Fits(base, front) && (f.change == Delete || Reconstructed(base, f).Ok?)
  {
    var n := |files| - 1;
    assert forall k | 0 <= k < n :: files[..n][k] == files[k];
    if Fits(base, files[..n]) && (files[n].change == Delete || Reconstructed(base, files[n]).Ok?) {
      forall k | 0 <= k < |files| ensures files[k].change == Delete || Reconstructed(base, files[k]).Ok? {
        assert k < n ==> files[..n][k] == files[k];
      }
    }
  }

  lemma {:induction false} PlanFits(base: Tree, files: seq<FileChange>)
    ensures PlanOf(base, files).Ok? <==> Fits(base, files)
    decreases |files|
  {
    if files != [] {
      PlanFits(base, files[..|files| - 1]);
      FrontFits(base, files);
    }
  }

  lemma UpsertStep(base: Tree, before: seq<Upsert>, u: Upsert, p: string)
    requires u.deleteOld != Some(u.path)
    ensures Lookup(ApplyEdits(base, AllUpsertEdits(before + [u])), p) ==
            if p == u.path then Some(File(u.mode, u.content))
            else if u.deleteOld == Some(p) then None
            else Lookup(ApplyEdits(base, AllUpsertEdits(before)), p)
  {
    assert (before + [u])[..|before|] == before;
    ApplyConcat(base, AllUpsertEdits(before), UpsertEdits(u));
    UpsertTree(ApplyEdits(base, AllUpsertEdits(before)), u, p);
  }

  lemma {:induction false} UpsertsTree(base: Tree, files: seq<FileChange>, p: string)
    requires PlanOf(base, files).Ok? && Fits(base, files)
    ensures Lookup(ApplyEdits(base, AllUpsertEdits(PlanOf(base, files).value.0)), p) ==
            LastSent(base, files, p).GetOr(Lookup(base, p))
    decreases |files|
  {
    if files != [] {
      var (front, f) := (files[..|files| - 1], files[|files| - 1]);
      PlanStep(base, files);
      UpsertsTree(base, front, p);
      if f.change != Delete {
        UpsertIs(base, f);
        UpsertStep(base, PlanOf(base, front).value.0, Reconstructed(base, f).value, p);
      }
    }
  }

  /** What the last file adds to the writes. */
  lemma PlanStep(base: Tree, files: seq<FileChange>)
    requires files != [] && PlanOf(base, files).Ok?
    ensures var (front, f) := (files[..|files| - 1], files[|files| - 1]);
            && PlanOf(base, front).Ok? && (f.change != Delete ==> Reconstructed(base, f).Ok?)
            && PlanOf(base, files).value.0 == PlanOf(base, front).value.0
                                              + if f.change == Delete then [] else [Reconstructed(base, f).value]
  {
  }

  lemma UpsertIs(base: Tree, f: FileChange)
    requires Reconstructed(base, f).Ok?
    ensures var u := Reconstructed(base, f).value;
            && u.path == f.path && File(u.mode, u.content) == SentFile(base, f)
            && u.deleteOld == RenamedFrom(f) != Some(u.path)
  {
  }

  lemma {:induction false} DeletionsPlanned(base: Tree, files: seq<FileChange>, p: string)
    requires PlanOf(base, files).Ok?
    ensures p in PlanOf(base, files).value.1 <==> Deleted(files, p)
    decreases |files|
  {
    if files != [] {
      var (front, f) := (files[..|files| - 1], files[|files| - 1]);
      DeletionsPlanned(base, front, p);
      FrontVacated(files, p);
      var before := PlanOf(base, front).value.1;
      assert PlanOf(base, files).value.1 == if f.change == Delete then before + [f.path] else before;
    }
  }

  /** The committed tree, path by path: a deleted path is gone, else the last file that writes the path or has it
      as its rename source decides, else it is as in the base. */
  lemma CommittedPath(base: Tree, files: seq<FileChange>, p: string)
    requires PlanOf(base, files).Ok?
    ensures Fits(base, files)
    ensures Lookup(ApplyEdits(base, Edits(base, files)), p) ==
            if Deleted(files, p) then None else LastSent(base, files, p).GetOr(Lookup(base, p))
  {
    PlanFits(base, files);
    var (upserts, deletions) := PlanOf(base, files).value;
    ApplyConcat(base, AllUpsertEdits(upserts), Removals(deletions));
    RemovalsTree(ApplyEdits(base, AllUpsertEdits(upserts)), deletions, p);
    UpsertsTree(base, files, p);
    DeletionsPlanned(base, files, p);
  }

  // ---- when the two are the same ----

  /** The file writes its path and no later file does. */
  predicate LastWriter(files: seq<FileChange>, k: nat)
    requires k < |files|
  {
    files[k].change != Delete && forall j | k < j < |files| :: !Writes(files[j], files[k].path)
  }

  /** A later file has the path as its rename source. */
  predicate MovedLater(files: seq<FileChange>, k: nat)
    requires k < |files|
  {
    exists j | k < j < |files| :: RenamedFrom(files[j]) == Some(files[k].path)
  }

  lemma FrontMoved(files: seq<FileChange>, k: nat)
    requires k < |files| - 1 && LastWriter(files, k)
    ensures var (front, f) := (files[..|files| - 1], files[|files| - 1]);
            && front[k] == files[k] && LastWriter(front, k) && !Writes(f, files[k].path)
            && (MovedLater(files, k) <==> MovedLater(front, k) || RenamedFrom(f) == Some(files[k].path))
  {
    var n := |files| - 1;
    var (front, p) := (files[..n], files[k].path);
    assert forall j | 0 <= j < n :: front[j] == files[j];
    if j: nat :| k < j < n && RenamedFrom(files[j]) == Some(p) {
      assert RenamedFrom(front[j]) == Some(p);
    }
    if j: nat :| k < j < n && RenamedFrom(front[j]) == Some(p) {
      assert RenamedFrom(files[j]) == Some(p);
    }
  }

  lemma {:induction false} LastWriterSent(base: Tree, files: seq<FileChange>, k: nat)
    requires Fits(base, files) && k < |files| && LastWriter(files, k)
    ensures LastSent(base, files, files[k].path) ==
            Some(if MovedLater(files, k) then None else Some(SentFile(base, files[k])))
    decreases |files|
  {
    if k < |files| - 1 {
      FrontMoved(files, k);
      LastWriterSent(base, files[..|files| - 1], k);
    }
  }

  lemma {:induction false} UnwrittenSent(base: Tree, files: seq<FileChange>, p: string)
    requires Fits(base, files) && !Written(files, p)
    ensures (if Deleted(files, p) then None else LastSent(base, files, p).GetOr(Lookup(base, p))) ==
            if Vacated(files, p) then None else Lookup(base, p)
    ensures LastSent(base, files, p) in {None, Some(None)}
    decreases |files|
  {
    if files != [] {
      var n := |files| - 1;
      var front := files[..n];
      assert forall j | 0 <= j < n :: front[j] == files[j];
      assert !Writes(files[n], p);
      UnwrittenSent(base, front, p);
      FrontVacated(files, p);
    }
  }

  /** A file keeps its mode: it declares a regular or executable mode, or is a regular file already. */
  predicate ModeKept(base: Tree, f: FileChange) { ResolveMode(f) == WantedMode(base, f) }

  /** A mode is kept exactly for declared regular or executable modes, new files without a mode, and files that
      were regular already. */
  lemma ModeKeptIff(base: Tree, f: FileChange)
    requires f.change == Add || Origin(f) in base
    ensures ModeKept(base, f) <==>
            || (f.mode.Some? && f.mode.value in {BLOB_MODE, EXECUTABLE_MODE})
            || (f.mode.None? && (f.change == Add || base[Origin(f)].mode == BLOB_MODE))
  {
  }

  /** Files that write the same path describe the same file. */
  ghost predicate WritersAgree(base: Tree, files: seq<FileChange>)
    requires Fits(base, files)
  {
    forall i, k | 0 <= i < k < |files| && files[i].change != Delete && files[k].change != Delete
                  && files[i].path == files[k].path ::
      WantedFile(base, files[i]) == WantedFile(base, files[k])
  }

  /** The last file to write a path keeps its mode, and nothing takes the path away again: it is not deleted and
      no later file has it as its rename source. */
  ghost predicate Survives(base: Tree, files: seq<FileChange>, k: nat)
    requires k < |files|
  {
    ModeKept(base, files[k]) && !Deleted(files, files[k].path) && !MovedLater(files, k)
  }

  lemma {:induction false} LastWriterOf(files: seq<FileChange>, k: nat) returns (j: nat)
    requires k < |files| && files[k].change != Delete
    ensures k <= j < |files| && files[j].path == files[k].path && LastWriter(files, j)
    decreases |files| - k
  {
    if LastWriter(files, k) {
      j := k;
    } else {
      var i :| k < i < |files| && Writes(files[i], files[k].path);
      j := LastWriterOf(files, i);
    }
  }

  /** The last writer of a path gets what it describes exactly when it survives. */
  lemma SurvivesIff(base: Tree, files: seq<FileChange>, k: nat)
    requires PlanOf(base, files).Ok? && Fits(base, files) && k < |files| && LastWriter(files, k)
    ensures Lookup(ApplyEdits(base, Edits(base, files)), files[k].path) == Some(WantedFile(base, files[k])) <==>
            Survives(base, files, k)
  {
    CommittedPath(base, files, files[k].path);
    LastWriterSent(base, files, k);
  }

  lemma OthersRight(base: Tree, files: seq<FileChange>, p: string)
    requires PlanOf(base, files).Ok? && !Written(files, p)
    ensures Lookup(ApplyEdits(base, Edits(base, files)), p) ==
            if Vacated(files, p) then None else Lookup(base, p)
  {
    CommittedPath(base, files, p);
    UnwrittenSent(base, files, p);
  }

  lemma WritersRight(base: Tree, files: seq<FileChange>, t: Tree)
    requires Fits(base, files) && WritersAgree(base, files)
    requires forall k | 0 <= k < |files| && LastWriter(files, k) ::
               Lookup(t, files[k].path) == Some(WantedFile(base, files[k]))
    ensures forall k | 0 <= k < |files| && files[k].change != Delete ::
              Lookup(t, files[k].path) == Some(WantedFile(base, files[k]))
  {
    forall k | 0 <= k < |files| && files[k].change != Delete
      ensures Lookup(t, files[k].path) == Some(WantedFile(base, files[k]))
    {
      var j := LastWriterOf(files, k);
      assert k < j ==> WantedFile(base, files[k]) == WantedFile(base, files[j]);
    }
  }

  lemma DescribedIff(base: Tree, files: seq<FileChange>, t: Tree)
    requires Fits(base, files)
    requires forall p | !Written(files, p) :: Lookup(t, p) == if Vacated(files, p) then None else Lookup(base, p)
    ensures Described(base, files, t) <==>
            && WritersAgree(base, files)
            && forall k | 0 <= k < |files| && LastWriter(files, k) ::
                 Lookup(t, files[k].path) == Some(WantedFile(base, files[k]))
  {
    if WritersAgree(base, files)
       && forall k | 0 <= k < |files| && LastWriter(files, k) ::
            Lookup(t, files[k].path) == Some(WantedFile(base, files[k])) {
      WritersRight(base, files, t);
    }
  }

  /** The committed tree is the one the diff describes exactly when files that write the same path agree on it,
      and the last one to write it keeps its mode, is not deleted by any file and not moved away by a later one. */
  lemma CommittedIff(base: Tree, files: seq<FileChange>)
    requires PlanOf(base, files).Ok?
    ensures Fits(base, files)
    ensures Described(base, files, ApplyEdits(base, Edits(base, files))) <==>
            && WritersAgree(base, files)
            && forall k | 0 <= k < |files| && LastWriter(files, k) :: Survives(base, files, k)
  {
    PlanFits(base, files);
    forall p | !Written(files, p)
      ensures Lookup(ApplyEdits(base, Edits(base, files)), p) == if Vacated(files, p) then None else Lookup(base, p)
    {
      OthersRight(base, files, p);
    }
    DescribedIff(base, files, ApplyEdits(base, Edits(base, files)));
    forall k | 0 <= k < |files| && LastWriter(files, k)
      ensures Lookup(ApplyEdits(base, Edits(base, files)), files[k].path) == Some(WantedFile(base, files[k])) <==>
              Survives(base, files, k)
    {
      SurvivesIff(base, files, k);
    }
  }

  /** No path is written by two files. */
  predicate WrittenOnce(files: seq<FileChange>) {
    forall i, k | 0 <= i < k < |files| && files[i].change != Delete && files[k].change != Delete ::
      files[i].path != files[k].path
  }

  /** The same for a diff that writes each path once, read off the diff and the modes of the base alone. */
  lemma WrittenOnceIff(base: Tree, files: seq<FileChange>)
    requires PlanOf(base, files).Ok? && WrittenOnce(files)
    ensures Fits(base, files)
    ensures Described(base, files, ApplyEdits(base, Edits(base, files))) <==>
            forall k | 0 <= k < |files| && files[k].change != Delete :: Survives(base, files, k)
  {
    CommittedIff(base, files);
    forall k | 0 <= k < |files| && files[k].change != Delete ensures LastWriter(files, k) {
      assert forall j | k < j < |files| :: !Writes(files[j], files[k].path);
    }
  }

  // ---- where it goes right and wrong ----

  function Renamed(from: string, to: string): FileChange {
    FileChange(to, Some(from), Rename, false, 0, 0, [], None)
  }

  lemma UnchangedText(path: string, line: string)
    requires '\n' !in line
    ensures Applied(path, line + "\n", []) == Ok(line + "\n")
  {
    SplitFirst(line, "", '\n');
    assert line + ['\n'] + "" == line + "\n";
    assert [line] + [""] == [line, ""] && [line, ""][..1] == [line];
    assert [line][0..] == [line];
  }

  lemma PlanPair(base: Tree, f: FileChange, g: FileChange)
    requires f.change == Delete || Reconstructed(base, f).Ok?
    requires g.change == Delete || Reconstructed(base, g).Ok?
    ensures PlanOf(base, [f, g]).Ok?
  {
    PlanFits(base, [f, g]);
  }

  /** A file moved aside for another: the renames run in a chain and the tree is right. */
  lemma RenameChainCommitted(a: string, b: string)
    requires '\n' !in a && '\n' !in b
    ensures var base := map["b" := File(BLOB_MODE, a + "\n"), "c" := File(BLOB_MODE, b + "\n")];
            var files := [Renamed("b", "a"), Renamed("c", "b")];
            && PlanOf(base, files).Ok? && Fits(base, files)
            && Described(base, files, ApplyEdits(base, Edits(base, files)))
  {
    var base := map["b" := File(BLOB_MODE, a + "\n"), "c" := File(BLOB_MODE, b + "\n")];
    var files := [Renamed("b", "a"), Renamed("c", "b")];
    UnchangedText("a", a);
    UnchangedText("b", b);
    PlanPair(base, files[0], files[1]);
    assert Origin(files[0]) == "b" && Origin(files[1]) == "c";
    assert ModeKept(base, files[0]) && ModeKept(base, files[1]);
    assert RenamedFrom(files[1]) == Some("c") && files[0].path == "a";
    assert Survives(base, files, 0) && Survives(base, files, 1);
    WrittenOnceIff(base, files);
  }

  /** Swapping two files by renames loses one of them. */
  lemma RenameSwapLosesAFile(a: string, b: string)
    requires '\n' !in a && '\n' !in b
    ensures var base := map["a" := File(BLOB_MODE, a + "\n"), "b" := File(BLOB_MODE, b + "\n")];
            var files := [Renamed("a", "b"), Renamed("b", "a")];
            && PlanOf(base, files).Ok? && Fits(base, files)
            && "b" !in ApplyEdits(base, Edits(base, files))
            && !Described(base, files, ApplyEdits(base, Edits(base, files)))
  {
    var base := map["a" := File(BLOB_MODE, a + "\n"), "b" := File(BLOB_MODE, b + "\n")];
    var files := [Renamed("a", "b"), Renamed("b", "a")];
    UnchangedText("b", a);
    UnchangedText("a", b);
    PlanPair(base, files[0], files[1]);
    assert RenamedFrom(files[1]) == Some(files[0].path);
    assert LastWriter(files, 0) && MovedLater(files, 0);
    CommittedIff(base, files);
    CommittedPath(base, files, "b");
    LastWriterSent(base, files, 0);
  }

  /** A path that changes its type is printed as a deletion and an addition: it is lost, deletions are sent last. */
  lemma TypeChangeLosesThePath(base: Tree, gone: FileChange, new': FileChange)
    requires gone.change == Delete && new'.change == Add && gone.path == new'.path && Reconstructed(base, new').Ok?
    ensures PlanOf(base, [gone, new']).Ok? && Fits(base, [gone, new'])
    ensures gone.path !in ApplyEdits(base, Edits(base, [gone, new']))
    ensures !Described(base, [gone, new'], ApplyEdits(base, Edits(base, [gone, new'])))
  {
    var files := [gone, new'];
    PlanPair(base, gone, new');
    assert files[0].change == Delete && files[0].path == gone.path;
    assert Deleted(files, gone.path);
    CommittedPath(base, files, gone.path);
    assert files[1] == new';
  }

  /** Editing an executable file without a mode line commits it as a regular one. */
  lemma ExecutableBitLost(base: Tree, f: FileChange)
    requires f.change == Modify && f.mode == None && f.oldPath == None && f.path in base
    requires base[f.path].mode == EXECUTABLE_MODE && Reconstructed(base, f).Ok?
    ensures PlanOf(base, [f]).Ok? && Fits(base, [f])
    ensures Lookup(ApplyEdits(base, Edits(base, [f])), f.path) ==
            Some(File(BLOB_MODE, Reconstructed(base, f).value.content))
    ensures !Described(base, [f], ApplyEdits(base, Edits(base, [f])))
  {
    PlanFits(base, [f]);
    CommittedPath(base, [f], f.path);
    assert [f][0].change != Delete;
  }
}
