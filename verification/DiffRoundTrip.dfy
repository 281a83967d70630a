// Parsing what git prints gives the printed file changes back.
module DiffRoundTrip {
  import opened Text
  import opened Wrappers
  import opened Diff
  import opened QuotedPath
  import opened DiffParser
  import opened ParserSoundness
  import opened DiffPrinter
  import opened PrintedTokens

  // ---- kinds of printed lines ----

  /** Only prefixes with the same first character need looking at. */
  lemma FirstCharDecides(line: string)
    requires line != ""
    ensures line[0] != 'd' ==> !StartsWith(line, DIFF_GIT) && !StartsWith(line, DELETED_FILE_MODE)
    ensures line[0] != 'n' ==> !StartsWith(line, NEW_FILE_MODE) && !StartsWith(line, NEW_MODE)
    ensures line[0] != 'r' ==> !StartsWith(line, RENAME_FROM) && !StartsWith(line, RENAME_TO)
    ensures line[0] != 'c' ==> !StartsWith(line, COPY_FROM) && !StartsWith(line, COPY_TO)
    ensures line[0] != 'B' ==> !StartsWith(line, "Binary files ")
    ensures line[0] != 'G' ==> !StartsWith(line, "GIT binary patch")
    ensures line[0] != '-' ==> !StartsWith(line, "--- ")
    ensures line[0] != '+' ==> !StartsWith(line, "+++ ")
    ensures line[0] != '@' ==> !StartsWith(line, "@@ -")
  {
    if line[0] != 'd' { OtherStart(line, DIFF_GIT, 0); OtherStart(line, DELETED_FILE_MODE, 0); }
    if line[0] != 'n' { OtherStart(line, NEW_FILE_MODE, 0); OtherStart(line, NEW_MODE, 0); }
    if line[0] != 'r' { OtherStart(line, RENAME_FROM, 0); OtherStart(line, RENAME_TO, 0); }
    if line[0] != 'c' { OtherStart(line, COPY_FROM, 0); OtherStart(line, COPY_TO, 0); }
    if line[0] != 'B' { OtherStart(line, "Binary files ", 0); }
    if line[0] != 'G' { OtherStart(line, "GIT binary patch", 0); }
    if line[0] != '-' { OtherStart(line, "--- ", 0); }
    if line[0] != '+' { OtherStart(line, "+++ ", 0); }
    if line[0] != '@' { OtherStart(line, "@@ -", 0); }
  }

  predicate Plain(line: string) { !StartsWith(line, DIFF_GIT) && !Classify(line).Header? }

  /** Reading the lines takes the parser from one state of the current file to another. */
  ghost predicate Leads(lines: seq<string>, dec: Decoder, from: FileState, to: FileState) {
    forall more: seq<string> {:trigger lines + more} ::
      ParseFrom(lines + more, Some(from), dec) == ParseFrom(more, Some(to), dec)
  }

  lemma LineLeads(line: string, dec: Decoder, cur: FileState)
    requires Plain(line)
    ensures Leads([line], dec, cur, Updated(cur, line, dec))
  {
    forall more: seq<string>
      ensures ParseFrom([line] + more, Some(cur), dec) == ParseFrom(more, Some(Updated(cur, line, dec)), dec)
    {
      assert ([line] + more)[1..] == more;
    }
  }

  lemma NothingLeads(dec: Decoder, cur: FileState)
    ensures Leads([], dec, cur, cur)
  {
    forall more: seq<string> ensures ParseFrom([] + more, Some(cur), dec) == ParseFrom(more, Some(cur), dec) {
      assert [] + more == more;
    }
  }

  lemma LeadsOn(a: seq<string>, b: seq<string>, dec: Decoder, s0: FileState, s1: FileState, s2: FileState)
    requires Leads(a, dec, s0, s1) && Leads(b, dec, s1, s2)
    ensures Leads(a + b, dec, s0, s2)
  {
    forall more: seq<string> ensures ParseFrom(a + b + more, Some(s0), dec) == ParseFrom(more, Some(s2), dec) {
      LeadsThere(a, b + more, dec, s0, s1);
      LeadsThere(b, more, dec, s1, s2);
      Assoc(a, b, more);
    }
  }

  lemma LeadsThere(lines: seq<string>, more: seq<string>, dec: Decoder, from: FileState, to: FileState)
    requires Leads(lines, dec, from, to)
    ensures ParseFrom(lines + more, Some(from), dec) == ParseFrom(more, Some(to), dec)
  {
  }

  lemma Leads3(a: string, b: string, c: string, dec: Decoder,
               s0: FileState, s1: FileState, s2: FileState, s3: FileState)
    requires Leads([a], dec, s0, s1) && Leads([b], dec, s1, s2) && Leads([c], dec, s2, s3)
    ensures Leads([a, b, c], dec, s0, s3)
  {
    LeadsOn([a], [b], dec, s0, s1, s2);
    LeadsOn([a] + [b], [c], dec, s0, s2, s3);
    assert [a] + [b] + [c] == [a, b, c];
  }

  /** A line that says nothing about the file. */
  lemma IdleLine(line: string, dec: Decoder, cur: FileState)
    requires line != "" && line[0] !in {'d', 'n', 'r', 'c', 'B', 'G', '-', '+', '@'}
    ensures Leads([line], dec, cur, cur)
  {
    FirstCharDecides(line);
    LineLeads(line, dec, cur);
  }

  lemma NewFileModeLine(m: string, dec: Decoder, cur: FileState)
    requires ModeWord(m)
    ensures Leads(["new file mode " + m], dec, cur, cur.(change := Add, mode := Some(m)))
  {
    var line := "new file mode " + m;
    assert line == NEW_FILE_MODE + (" " + m);
    FirstCharDecides(line);
    PrefixOff(NEW_FILE_MODE, " " + m);
    ModeBack("new file mode ", m);
    LineLeads(line, dec, cur);
  }

  lemma NewModeLine(m: string, dec: Decoder, cur: FileState)
    requires ModeWord(m)
    ensures Leads([NEW_MODE + m], dec, cur, cur.(mode := Some(m)))
  {
    FirstCharDecides(NEW_MODE + m);
    OtherStart(NEW_MODE + m, NEW_FILE_MODE, 4);
    PrefixOff(NEW_MODE, m);
    ModeBack(NEW_MODE, m);
    LineLeads(NEW_MODE + m, dec, cur);
  }

  lemma DeletedModeLine(dec: Decoder, cur: FileState)
    ensures Leads(["deleted file mode 100644"], dec, cur, cur.(change := Delete))
  {
    var line := "deleted file mode 100644";
    FirstCharDecides(line);
    OtherStart(line, DIFF_GIT, 1);
    assert line == DELETED_FILE_MODE + " 100644";
    PrefixOff(DELETED_FILE_MODE, " 100644");
    LineLeads(line, dec, cur);
  }

  lemma RenameFromKind(x: string)
    ensures var line := RENAME_FROM + x; Plain(line) && Classify(line) == RenameFrom && line[|RENAME_FROM|..] == x
  {
    FirstCharDecides(RENAME_FROM + x);
    PrefixOff(RENAME_FROM, x);
  }

  lemma RenameFromLine(p: string, dec: Decoder, cur: FileState)
    requires Decodes(dec)
    ensures Leads([RENAME_FROM + Shown(p)], dec, cur, cur.(change := Rename, oldPath := Some(p)))
  {
    TokenBack(p, dec);
    RenameFromKind(Shown(p));
    LineLeads(RENAME_FROM + Shown(p), dec, cur);
  }

  lemma RenameToKind(x: string)
    ensures var line := RENAME_TO + x; Plain(line) && Classify(line) == RenameTo && line[|RENAME_TO|..] == x
  {
    FirstCharDecides(RENAME_TO + x);
    OtherStart(RENAME_TO + x, RENAME_FROM, 7);
    PrefixOff(RENAME_TO, x);
  }

  lemma RenameToLine(p: string, dec: Decoder, cur: FileState)
    requires Decodes(dec)
    ensures Leads([RENAME_TO + Shown(p)], dec, cur, cur.(change := Rename, newPath := Some(p)))
  {
    TokenBack(p, dec);
    RenameToKind(Shown(p));
    LineLeads(RENAME_TO + Shown(p), dec, cur);
  }

  lemma CopyFromKind(x: string)
    ensures var line := COPY_FROM + x; Plain(line) && Classify(line) == CopyFrom && line[|COPY_FROM|..] == x
  {
    FirstCharDecides(COPY_FROM + x);
    PrefixOff(COPY_FROM, x);
  }

  lemma CopyFromLine(p: string, dec: Decoder, cur: FileState)
    requires Decodes(dec)
    ensures Leads([COPY_FROM + Shown(p)], dec, cur, cur.(change := Copy, oldPath := Some(p)))
  {
    TokenBack(p, dec);
    CopyFromKind(Shown(p));
    LineLeads(COPY_FROM + Shown(p), dec, cur);
  }

  lemma CopyToKind(x: string)
    ensures var line := COPY_TO + x; Plain(line) && Classify(line) == CopyTo && line[|COPY_TO|..] == x
  {
    FirstCharDecides(COPY_TO + x);
    OtherStart(COPY_TO + x, COPY_FROM, 5);
    PrefixOff(COPY_TO, x);
  }

  lemma CopyToLine(p: string, dec: Decoder, cur: FileState)
    requires Decodes(dec)
    ensures Leads([COPY_TO + Shown(p)], dec, cur, cur.(change := Copy, newPath := Some(p)))
  {
    TokenBack(p, dec);
    CopyToKind(Shown(p));
    LineLeads(COPY_TO + Shown(p), dec, cur);
  }

  lemma TokenBack(p: string, dec: Decoder)
    requires Decodes(dec)
    ensures UnquotePath(Shown(p), dec) == p
  {
    Blank(Shown(p));
    PathBack(p, "", dec);
  }

  lemma BinaryLine(x: string, dec: Decoder, cur: FileState)
    ensures Leads(["Binary files " + x], dec, cur, cur.(binary := true))
  {
    BinaryKind(x);
    LineLeads("Binary files " + x, dec, cur);
  }

  lemma BinaryKind(x: string)
    ensures var line := "Binary files " + x; Plain(line) && Classify(line) == Binary
  {
    FirstCharDecides("Binary files " + x);
    PrefixOff("Binary files ", x);
  }

  lemma MinusLine(x: string, dec: Decoder, cur: FileState)
    ensures Leads(["--- " + x], dec, cur, cur.(minus := Some(SidePath(x, dec))))
  {
    MinusKind(x);
    LineLeads("--- " + x, dec, cur);
  }

  lemma MinusKind(x: string)
    ensures var line := "--- " + x; Plain(line) && Classify(line) == MinusFile && line[4..] == x
  {
    FirstCharDecides("--- " + x);
    PrefixOff("--- ", x);
  }

  lemma PlusLine(x: string, dec: Decoder, cur: FileState)
    ensures Leads(["+++ " + x], dec, cur, cur.(plus := Some(SidePath(x, dec))))
  {
    PlusKind(x);
    LineLeads("+++ " + x, dec, cur);
  }

  lemma PlusKind(x: string)
    ensures var line := "+++ " + x; Plain(line) && Classify(line) == PlusFile && line[4..] == x
  {
    FirstCharDecides("+++ " + x);
    PrefixOff("+++ ", x);
  }

  lemma HunkHeaderLine(h: Hunk)
    ensures var line := HeaderLine(h); !StartsWith(line, DIFF_GIT) && Classify(line) == Header(h.(lines := []))
  {
    FirstCharDecides(HeaderLine(h));
    HeaderBack(h);
  }

  // ---- the extended header ----

  lemma {:induction false} WordBack(front: string, m: string)
    requires ModeWord(m)
    ensures front == "" || IsSpace(front[|front| - 1]) ==> LastWord(front + m) == m
    decreases |m|
  {
    var n := |m| - 1;
    var s := front + m;
    assert s[..|s| - 1] == front + m[..n] && s[|s| - 1] == m[n];
    assert m == m[..n] + [m[n]];
    if n == 0 {
      assert front + m[..0] == front;
    } else {
      WordBack(front, m[..n]);
    }
  }

  lemma ModeBack(prefix: string, m: string)
    requires ModeWord(m) && prefix != "" && !IsSpace(prefix[0]) && IsSpace(prefix[|prefix| - 1])
    ensures LastWord(Trim(prefix + m)) == m
  {
    assert Trim(prefix + m) == prefix + m;
    WordBack(prefix, m);
  }

  lemma ModesRead(cur: FileState, f: FileChange, dec: Decoder)
    requires WellFormed(f) && cur.change == Modify && cur.mode == None
    ensures Leads(ModeLines(f), dec, cur,
                  cur.(change := if f.change in {Add, Delete} then f.change else Modify, mode := f.mode))
  {
    match f.change {
      case Add => NewFileModeLine(f.mode.value, dec, cur);
      case Delete => DeletedModeLine(dec, cur);
      case _ =>
        NothingLeads(dec, cur);
        if f.mode.Some? {
          var m := f.mode.value;
          IdleLine(OLD_MODE, dec, cur);
          NewModeLine(m, dec, cur);
          LeadsOn([OLD_MODE], [NEW_MODE + m], dec, cur, cur, cur.(mode := Some(m)));
          assert [OLD_MODE] + [NEW_MODE + m] == [OLD_MODE, NEW_MODE + m];
        }
    }
  }

  lemma NamesRead(cur: FileState, f: FileChange, dec: Decoder)
    requires WellFormed(f) && Decodes(dec)
    ensures Leads(NameLines(f), dec, cur,
                  if f.change in {Rename, Copy}
                  then cur.(change := f.change, oldPath := f.oldPath, newPath := Some(f.path)) else cur)
  {
    IdleLine(SIMILARITY, dec, cur);
    NothingLeads(dec, cur);
    var mid := cur.(change := f.change, oldPath := f.oldPath);
    if f.change == Rename {
      RenameFromLine(Old(f), dec, cur);
      RenameToLine(f.path, dec, mid);
      Leads3(SIMILARITY, RENAME_FROM + Shown(Old(f)), RENAME_TO + Shown(f.path),
             dec, cur, cur, mid, mid.(newPath := Some(f.path)));
    } else if f.change == Copy {
      CopyFromLine(Old(f), dec, cur);
      CopyToLine(f.path, dec, mid);
      Leads3(SIMILARITY, COPY_FROM + Shown(Old(f)), COPY_TO + Shown(f.path),
             dec, cur, cur, mid, mid.(newPath := Some(f.path)));
    }
  }

  lemma BinaryRead(cur: FileState, f: FileChange, dec: Decoder)
    requires !cur.binary
    ensures Leads(BinaryLines(f), dec, cur, cur.(binary := f.binary))
  {
    if f.binary {
      var rest := Shown("a/" + Old(f)) + (" and " + (Shown("b/" + f.path) + " differ"));
      IdleLine(INDEX, dec, cur);
      BinaryLine(rest, dec, cur);
      LeadsOn([INDEX], ["Binary files " + rest], dec, cur, cur, cur.(binary := true));
      assert [INDEX] + ["Binary files " + rest] == [INDEX, "Binary files " + rest];
    } else {
      NothingLeads(dec, cur);
    }
  }

  /** Both sides of the file, /dev/null for one that does not exist. */
  function SidesOf(cur: FileState, f: FileChange): FileState {
    if f.hunks == [] then cur
    else cur.(minus := Some(if f.change == Add then None else Some(Old(f))),
              plus := Some(if f.change == Delete then None else Some(f.path)))
  }

  lemma SidesRead(cur: FileState, f: FileChange, dec: Decoder)
    requires Decodes(dec)
    ensures Leads(SideLines(f), dec, cur, SidesOf(cur, f))
  {
    NothingLeads(dec, cur);
    if f.hunks != [] {
      var minus := if f.change == Add then "/dev/null" else SideShown("a/" + Old(f));
      var plus := if f.change == Delete then "/dev/null" else SideShown("b/" + f.path);
      SideBack("a/", Old(f), dec);
      SideBack("b/", f.path, dec);
      var mid := cur.(minus := Some(SidePath(minus, dec)));
      IdleLine(INDEX, dec, cur);
      MinusLine(minus, dec, cur);
      PlusLine(plus, dec, mid);
      Leads3(INDEX, "--- " + minus, "+++ " + plus, dec, cur, cur, mid, mid.(plus := Some(SidePath(plus, dec))));
    }
  }

  function Untouched(a: Option<string>, b: Option<string>): FileState {
    FileState(Modify, false, 0, 0, [], a, b, None, None, None, None, None)
  }

  /** What the parser knows of a file after its extended header. */
  function Headed(f: FileChange, a: Option<string>, b: Option<string>): FileState {
    var named := f.change in {Rename, Copy};
    SidesOf(FileState(f.change, f.binary, 0, 0, [], a, b, None, None,
                      if named then f.oldPath else None, if named then Some(f.path) else None, f.mode), f)
  }

  lemma PreambleRead(f: FileChange, a: Option<string>, b: Option<string>, dec: Decoder)
    requires WellFormed(f) && Decodes(dec)
    ensures Leads(Preamble(f), dec, Untouched(a, b), Headed(f, a, b))
  {
    var s0 := Untouched(a, b);
    var s1 := s0.(change := if f.change in {Add, Delete} then f.change else Modify, mode := f.mode);
    var s2 := if f.change in {Rename, Copy}
              then s1.(change := f.change, oldPath := f.oldPath, newPath := Some(f.path)) else s1;
    var s3 := s2.(binary := f.binary);
    ModesRead(s0, f, dec);
    NamesRead(s1, f, dec);
    BinaryRead(s2, f, dec);
    SidesRead(s3, f, dec);
    LeadsOn(BinaryLines(f), SideLines(f), dec, s2, s3, SidesOf(s3, f));
    LeadsOn(NameLines(f), BinaryLines(f) + SideLines(f), dec, s1, s2, SidesOf(s3, f));
    LeadsOn(ModeLines(f), NameLines(f) + (BinaryLines(f) + SideLines(f)), dec, s0, s1, SidesOf(s3, f));
  }

  // ---- hunks ----

  /** The hunks read into a state. */
  function WithHunks(cur: FileState, hunks: seq<Hunk>): FileState
    decreases |hunks|
  {
    if hunks == [] then cur else WithHunks(WithHunk(cur, hunks[0]), hunks[1..])
  }

  /** The lines cannot be mistaken for more of a hunk body. */
  predicate Fresh(lines: seq<string>) {
    !Surplus(lines) && (lines != [] ==> !IsMark(lines[0]))
  }

  lemma PrintableRuns(line: string)
    requires PrintableLine(line)
    ensures !Stops(line)
  {
    FirstCharDecides(line);
  }

  lemma {:induction false} HunksParsed(cur: FileState, hunks: seq<Hunk>, more: seq<string>, dec: Decoder)
    requires forall k | 0 <= k < |hunks| :: PrintableHunk(hunks[k])
    requires Fresh(more)
    ensures ParseFrom(HunkLines(hunks) + more, Some(cur), dec) == ParseFrom(more, Some(WithHunks(cur, hunks)), dec)
    decreases |hunks|
  {
    if hunks == [] {
      assert HunkLines(hunks) + more == more;
    } else {
      NextFresh(hunks[1..], more);
      FirstHunkParsed(cur, hunks, more, dec);
      HunksParsed(WithHunk(cur, hunks[0]), hunks[1..], more, dec);
    }
  }

  lemma FirstHunkParsed(cur: FileState, hunks: seq<Hunk>, more: seq<string>, dec: Decoder)
    requires hunks != [] && PrintableHunk(hunks[0])
    requires Fresh(HunkLines(hunks[1..]) + more)
    ensures ParseFrom(HunkLines(hunks) + more, Some(cur), dec) ==
            ParseFrom(HunkLines(hunks[1..]) + more, Some(WithHunk(cur, hunks[0])), dec)
  {
    var next := HunkLines(hunks[1..]) + more;
    assert HunkLines(hunks) + more == [HeaderLine(hunks[0])] + (hunks[0].lines + next);
    HunkParsed(cur, hunks[0], next, dec);
  }

  lemma HunkParsed(cur: FileState, h: Hunk, next: seq<string>, dec: Decoder)
    requires PrintableHunk(h) && Fresh(next)
    ensures ParseFrom([HeaderLine(h)] + (h.lines + next), Some(cur), dec) ==
            ParseFrom(next, Some(WithHunk(cur, h)), dec)
  {
    var lines := h.lines + next;
    assert ([HeaderLine(h)] + lines)[1..] == lines;
    HunkHeaderLine(h);
    forall k | 0 <= k < |h.lines| ensures !Stops(h.lines[k]) {
      PrintableRuns(h.lines[k]);
    }
    BodyIff(lines, h.oldLines, h.newLines, h.lines, next);
  }

  lemma NextFresh(hunks: seq<Hunk>, more: seq<string>)
    requires Fresh(more)
    ensures Fresh(HunkLines(hunks) + more)
  {
    if hunks == [] {
      assert HunkLines(hunks) + more == more;
    } else {
      assert (HunkLines(hunks) + more)[0] == HeaderLine(hunks[0]);
      assert HeaderLine(hunks[0])[0] == '@';
    }
  }

  /** Reading hunks only adds hunks and their counts. */
  lemma {:induction false} WithHunksAre(cur: FileState, hunks: seq<Hunk>)
    ensures WithHunks(cur, hunks)
            == cur.(additions := cur.additions + HunkAdditions(hunks),
                    deletions := cur.deletions + HunkDeletions(hunks),
                    hunks := cur.hunks + hunks)
    decreases |hunks|
  {
    if hunks == [] {
      assert cur.hunks + [] == cur.hunks;
    } else {
      WithHunksAre(WithHunk(cur, hunks[0]), hunks[1..]);
      FirstCounts(hunks);
      assert cur.hunks + [hunks[0]] + hunks[1..] == cur.hunks + hunks;
    }
  }

  lemma {:induction false} FirstCounts(hunks: seq<Hunk>)
    requires hunks != []
    ensures HunkAdditions(hunks) == Added(hunks[0].lines) + HunkAdditions(hunks[1..])
    ensures HunkDeletions(hunks) == Deleted(hunks[0].lines) + HunkDeletions(hunks[1..])
    decreases |hunks|
  {
    var n := |hunks| - 1;
    if n == 0 {
      assert hunks[..0] == [] && hunks[1..] == [];
    } else {
      FirstCounts(hunks[..n]);
      assert hunks[..n][1..] == hunks[1..][..n - 1];
    }
  }

  // ---- whole files ----

  /** The path the parser shows: only the "diff --git" line names the file when nothing else does. */
  function SeenPath(f: FileChange, dec: Decoder): string {
    if f.hunks != [] || f.change in {Rename, Copy} then f.path
    else
      match GitPaths(GitPair(f.path, f.path), dec)
      case Some((a, b)) => if f.change == Delete then a else b
      case None => ""
  }

  function Seen(f: FileChange, dec: Decoder): FileChange { f.(path := SeenPath(f, dec)) }

  function AllSeen(files: seq<FileChange>, dec: Decoder): seq<FileChange>
    decreases |files|
  {
    if files == [] then [] else [Seen(files[0], dec)] + AllSeen(files[1..], dec)
  }

  /** The two paths the "diff --git" line gives, if it can be read. */
  function HeaderPaths(f: FileChange, dec: Decoder): (Option<string>, Option<string>) {
    match GitPaths(GitPair(Old(f), f.path), dec)
    case Some((a, b)) => (Some(a), Some(b))
    case None => (None, None)
  }

  function Done(f: FileChange, dec: Decoder): FileState {
    WithHunks(Headed(f, HeaderPaths(f, dec).0, HeaderPaths(f, dec).1), f.hunks)
  }

  /** What is made of a file, field by field. */
  lemma FinalizeFields(s: FileState, f: FileChange)
    requires s.change == f.change && s.mode == f.mode && s.binary == f.binary && s.hunks == f.hunks
    requires s.additions == f.additions && s.deletions == f.deletions
    requires if f.change in {Rename, Copy}
             then s.oldPath == f.oldPath && s.newPath == Some(f.path)
                  && f.oldPath.Some? && f.oldPath.value !in {"", f.path}
             else s.oldPath == None && s.newPath == None && f.oldPath == None
    requires if f.hunks == [] then s.minus == None && s.plus == None
             else s.minus == Some(if f.change == Add then None else Some(Old(f)))
                  && s.plus == Some(if f.change == Delete then None else Some(f.path))
    ensures Finalize(s) ==
            f.(path := if f.hunks != [] || f.change in {Rename, Copy} then f.path
                       else if f.change == Delete then s.aPath.GetOr(s.bPath.GetOr("")) else s.bPath.GetOr(""))
  {
  }

  /** What is made of a file whose header line gave `a` and `b`. */
  lemma FinalizeHeaded(f: FileChange, a: Option<string>, b: Option<string>)
    requires WellFormed(f)
    ensures Finalize(WithHunks(Headed(f, a, b), f.hunks)) ==
            f.(path := if f.hunks != [] || f.change in {Rename, Copy} then f.path
                       else if f.change == Delete then a.GetOr(b.GetOr("")) else b.GetOr(""))
  {
    WithHunksAre(Headed(f, a, b), f.hunks);
    assert [] + f.hunks == f.hunks;
    FinalizeFields(WithHunks(Headed(f, a, b), f.hunks), f);
  }

  lemma FinalizeSeen(f: FileChange, dec: Decoder)
    requires WellFormed(f) && Decodes(dec)
    ensures Finalize(Done(f, dec)) == Seen(f, dec)
  {
    var (a, b) := HeaderPaths(f, dec);
    FinalizeHeaded(f, a, b);
  }

  lemma NewFileIs(f: FileChange, dec: Decoder)
    ensures StartsWith(GitLine(f), DIFF_GIT)
    ensures NewFile(GitLine(f), dec) == Untouched(HeaderPaths(f, dec).0, HeaderPaths(f, dec).1)
  {
    PrefixOff(DIFF_GIT, GitPair(Old(f), f.path));
  }

  lemma GitLineRead(cur: Option<FileState>, f: FileChange, more: seq<string>, dec: Decoder)
    ensures ParseFrom([GitLine(f)] + more, cur, dec) ==
            Following(Flush(cur), ParseFrom(more, Some(Untouched(HeaderPaths(f, dec).0, HeaderPaths(f, dec).1)), dec))
  {
    NewFileIs(f, dec);
    assert ([GitLine(f)] + more)[1..] == more;
  }

  lemma Regrouped(line: string, a: seq<string>, b: seq<string>, c: seq<string>)
    ensures ([line] + (a + b)) + c == [line] + (a + (b + c))
  {
  }

  lemma PreambleThere(f: FileChange, a: Option<string>, b: Option<string>, rest: seq<string>, dec: Decoder)
    requires WellFormed(f) && Decodes(dec)
    ensures ParseFrom(Preamble(f) + rest, Some(Untouched(a, b)), dec) == ParseFrom(rest, Some(Headed(f, a, b)), dec)
  {
    PreambleRead(f, a, b, dec);
  }

  /** One printed file, after whatever came before it. */
  lemma FileParsed(cur: Option<FileState>, f: FileChange, more: seq<string>, dec: Decoder)
    requires WellFormed(f) && Decodes(dec) && Fresh(more)
    ensures ParseFrom(FileBlock(f) + more, cur, dec) == Following(Flush(cur), ParseFrom(more, Some(Done(f, dec)), dec))
  {
    var (a, b) := HeaderPaths(f, dec);
    var rest := HunkLines(f.hunks) + more;
    Regrouped(GitLine(f), Preamble(f), HunkLines(f.hunks), more);
    GitLineRead(cur, f, Preamble(f) + rest, dec);
    PreambleThere(f, a, b, rest, dec);
    HunksParsed(Headed(f, a, b), f.hunks, more, dec);
  }

  lemma BlocksFresh(files: seq<FileChange>)
    ensures Fresh(Blocks(files) + [""])
  {
    if files != [] {
      assert (Blocks(files) + [""])[0] == GitLine(files[0]);
      assert GitLine(files[0])[0] == 'd';
    }
  }

  lemma LastLine(cur: Option<FileState>, dec: Decoder)
    ensures ParseFrom([""], cur, dec) == Ok(Flush(cur))
  {
    assert [""][1..] == [];
  }

  lemma {:induction false} BlocksParsed(cur: Option<FileState>, files: seq<FileChange>, dec: Decoder)
    requires AllWellFormed(files) && Decodes(dec)
    ensures ParseFrom(Blocks(files) + [""], cur, dec) == Ok(Flush(cur) + AllSeen(files, dec))
    decreases |files|
  {
    if files == [] {
      LastLine(cur, dec);
      assert Blocks(files) + [""] == [""];
      assert Flush(cur) + [] == Flush(cur);
    } else {
      FirstFileParsed(cur, files, dec);
      BlocksParsed(Some(Done(files[0], dec)), files[1..], dec);
      DoneSeen(files, dec);
    }
  }

  lemma FirstFileParsed(cur: Option<FileState>, files: seq<FileChange>, dec: Decoder)
    requires files != [] && WellFormed(files[0]) && Decodes(dec)
    ensures ParseFrom(Blocks(files) + [""], cur, dec) ==
            Following(Flush(cur), ParseFrom(Blocks(files[1..]) + [""], Some(Done(files[0], dec)), dec))
  {
    FirstBlock(files);
    BlocksFresh(files[1..]);
    FileParsed(cur, files[0], Blocks(files[1..]) + [""], dec);
  }

  lemma FirstBlock(files: seq<FileChange>)
    requires files != []
    ensures Blocks(files) + [""] == FileBlock(files[0]) + (Blocks(files[1..]) + [""])
  {
  }

  lemma DoneSeen(files: seq<FileChange>, dec: Decoder)
    requires files != [] && WellFormed(files[0]) && Decodes(dec)
    ensures Flush(Some(Done(files[0], dec))) + AllSeen(files[1..], dec) == AllSeen(files, dec)
  {
    FinalizeSeen(files[0], dec);
  }
}
