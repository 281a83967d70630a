// What an accepted diff is worth: header counts, totals and line shapes of everything the parser returns.
module ParserSoundness {
  import opened Text
  import opened Wrappers
  import opened Diff
  import opened QuotedPath
  import opened DiffParser

  /** `body` is what the header declares, markers included, and `rest` cannot be more of it. */
  ghost predicate IsBody(lines: seq<string>, oldLines: nat, newLines: nat, body: seq<string>, rest: seq<string>) {
    && lines == body + rest
    && |OldSide(body)| == oldLines && |NewSide(body)| == newLines
    && (forall k | 0 <= k < |body| :: !Stops(body[k]))
    && !Surplus(rest) && (rest != [] ==> !IsMark(rest[0]))
  }

  lemma FirstCosts(body: seq<string>)
    requires body != []
    ensures |OldSide(body)| == OldCost(body[0]) + |OldSide(body[1..])|
    ensures |NewSide(body)| == NewCost(body[0]) + |NewSide(body[1..])|
  {
    assert body == [body[0]] + body[1..];
    SideAppend([body[0]], body[1..], '+');
    SideAppend([body[0]], body[1..], '-');
    assert [body[0]][..0] == [];
  }

  lemma MarksDoNotStop(line: string)
    requires IsMark(line)
    ensures !Stops(line)
  {
    OtherStart(line, DIFF_GIT, 0);
    OtherStart(line, "@@ -", 0);
  }

  lemma {:induction false} AllMarks(body: seq<string>)
    ensures OldSide(body) == [] && NewSide(body) == [] <==> forall k | 0 <= k < |body| :: IsMark(body[k])
    decreases |body|
  {
    if body != [] {
      FirstCosts(body);
      AllMarks(body[1..]);
      assert body == [body[0]] + body[1..];
    }
  }

  lemma {:induction false} MarkRunIs(marks: seq<string>, rest: seq<string>)
    requires forall k | 0 <= k < |marks| :: IsMark(marks[k])
    requires rest != [] ==> !IsMark(rest[0])
    ensures MarkRun(marks + rest) == |marks|
    decreases |marks|
  {
    if marks == [] {
      assert marks + rest == rest;
    } else {
      assert (marks + rest)[1..] == marks[1..] + rest;
      MarkRunIs(marks[1..], rest);
    }
  }

  lemma EndIff(lines: seq<string>, body: seq<string>, rest: seq<string>)
    ensures ReadBody(lines, 0, 0) == Ok((body, rest)) <==> IsBody(lines, 0, 0, body, rest)
  {
    AllMarks(body);
    if IsBody(lines, 0, 0, body, rest) {
      MarkRunIs(body, rest);
    }
    forall k | 0 <= k < |body| && IsMark(body[k]) ensures !Stops(body[k]) {
      MarksDoNotStop(body[k]);
    }
    var m := MarkRun(lines);
    assert lines == lines[..m] + lines[m..];
  }

  /** The parser takes a body exactly when some prefix of the lines has the declared counts, reaches no
      line that can only come later, and leaves nothing that looks like more of the body. */
  lemma {:induction false} BodyIff(lines: seq<string>, oldLines: nat, newLines: nat, body: seq<string>,
                                   rest: seq<string>)
    ensures ReadBody(lines, oldLines, newLines) == Ok((body, rest)) <==> IsBody(lines, oldLines, newLines, body, rest)
    decreases |lines|
  {
    if oldLines == 0 && newLines == 0 {
      EndIff(lines, body, rest);
    } else if SameHead(lines, oldLines, newLines, body) {
      BodyIff(lines[1..], oldLines - OldCost(lines[0]), newLines - NewCost(lines[0]), body[1..], rest);
      ReadStep(lines, oldLines, newLines, body, rest);
      BodyStepIff(lines, oldLines, newLines, body, rest);
    } else {
      OtherHead(lines, oldLines, newLines, body, rest);
    }
  }

  /** The body starts with the next line, and that line is still due. */
  predicate SameHead(lines: seq<string>, oldLines: nat, newLines: nat, body: seq<string>) {
    lines != [] && body != [] && body[0] == lines[0] && OldCost(lines[0]) <= oldLines && NewCost(lines[0]) <= newLines
  }

  lemma ReadStep(lines: seq<string>, oldLines: nat, newLines: nat, body: seq<string>, rest: seq<string>)
    requires SameHead(lines, oldLines, newLines, body) && (oldLines > 0 || newLines > 0)
    ensures ReadBody(lines, oldLines, newLines) == Ok((body, rest)) <==>
            !Stops(lines[0]) &&
            ReadBody(lines[1..], oldLines - OldCost(lines[0]), newLines - NewCost(lines[0])) == Ok((body[1..], rest))
  {
    HeadIff(lines[0], ReadBody(lines[1..], oldLines - OldCost(lines[0]), newLines - NewCost(lines[0])), body, rest);
  }

  lemma BodyStepIff(lines: seq<string>, oldLines: nat, newLines: nat, body: seq<string>, rest: seq<string>)
    requires SameHead(lines, oldLines, newLines, body)
    ensures IsBody(lines, oldLines, newLines, body, rest) <==>
            !Stops(lines[0]) &&
            IsBody(lines[1..], oldLines - OldCost(lines[0]), newLines - NewCost(lines[0]), body[1..], rest)
  {
    FirstCosts(body);
    ConsIff(lines, body, rest);
    NoneStops(body);
  }

  lemma NoneStops(body: seq<string>)
    requires body != []
    ensures (forall k | 0 <= k < |body| :: !Stops(body[k])) <==>
            !Stops(body[0]) && forall k | 0 <= k < |body[1..]| :: !Stops(body[1..][k])
  {
    assert body == [body[0]] + body[1..];
  }

  lemma ConsIff(lines: seq<string>, body: seq<string>, rest: seq<string>)
    requires lines != [] && body != [] && lines[0] == body[0]
    ensures lines == body + rest <==> lines[1..] == body[1..] + rest
  {
    assert lines == [lines[0]] + lines[1..];
    assert body + rest == [body[0]] + (body[1..] + rest);
    if lines == body + rest {
      assert (body + rest)[1..] == body[1..] + rest;
    }
  }

  lemma HeadIff(head: string, r: BodyRead, body: seq<string>, rest: seq<string>)
    requires body != [] && body[0] == head
    ensures Consed([head], r) == Ok((body, rest)) <==> r == Ok((body[1..], rest))
  {
    assert body == [head] + body[1..];
    if r.Ok? {
      assert ([head] + r.value.0)[1..] == r.value.0;
    }
  }

  lemma OtherHead(lines: seq<string>, oldLines: nat, newLines: nat, body: seq<string>, rest: seq<string>)
    requires !SameHead(lines, oldLines, newLines, body) && (oldLines > 0 || newLines > 0)
    ensures ReadBody(lines, oldLines, newLines) != Ok((body, rest))
    ensures !IsBody(lines, oldLines, newLines, body, rest)
  {
    if body != [] {
      FirstCosts(body);
      assert (body + rest)[0] == body[0];
    }
    if lines != [] && ReadBody(lines, oldLines, newLines).Ok? {
      var (b, _) := ReadBody(lines, oldLines, newLines).value;
      assert b[0] == lines[0];
    }
  }

  // ---- everything the parser returns ----

  ghost predicate SoundHunks(hunks: seq<Hunk>) {
    forall k | 0 <= k < |hunks| :: Counted(hunks[k]) && NoBreaks(hunks[k].lines)
  }

  ghost predicate SoundState(f: FileState) {
    && SoundHunks(f.hunks)
    && f.additions == HunkAdditions(f.hunks) && f.deletions == HunkDeletions(f.hunks)
  }

  ghost predicate Sound(f: FileChange) {
    && SoundHunks(f.hunks)
    && f.additions == HunkAdditions(f.hunks) && f.deletions == HunkDeletions(f.hunks)
    && (f.oldPath.Some? ==> f.change in {Rename, Copy} && f.oldPath.value !in {"", f.path})
  }

  ghost predicate AllSound(files: seq<FileChange>) {
    forall k | 0 <= k < |files| :: Sound(files[k])
  }

  lemma HunkSound(f: FileState, h: Hunk, lines: seq<string>)
    requires SoundState(f) && NoBreaks(lines)
    requires ReadBody(lines, h.oldLines, h.newLines).Ok?
    ensures SoundState(WithHunk(f, h.(lines := ReadBody(lines, h.oldLines, h.newLines).value.0)))
  {
    var (body, rest) := ReadBody(lines, h.oldLines, h.newLines).value;
    BodyIff(lines, h.oldLines, h.newLines, body, rest);
    var hunks := f.hunks + [h.(lines := body)];
    assert hunks[..|hunks| - 1] == f.hunks;
    forall k | 0 <= k < |body| ensures '\n' !in body[k] {
      assert body[k] == lines[k];
    }
  }

  lemma RestUnbroken(lines: seq<string>, oldLines: nat, newLines: nat)
    requires NoBreaks(lines) && ReadBody(lines, oldLines, newLines).Ok?
    ensures NoBreaks(ReadBody(lines, oldLines, newLines).value.1)
  {
    var (body, rest) := ReadBody(lines, oldLines, newLines).value;
    BodyIff(lines, oldLines, newLines, body, rest);
    forall k | 0 <= k < |rest| ensures '\n' !in rest[k] {
      assert rest[k] == lines[|body| + k];
    }
  }

  lemma UpdatedSound(f: FileState, line: string, dec: Decoder)
    requires SoundState(f)
    ensures SoundState(Updated(f, line, dec))
  {
    UpdatedKeepsHunks(f, line, dec);
  }

  lemma UpdatedKeepsHunks(f: FileState, line: string, dec: Decoder)
    ensures var next := Updated(f, line, dec);
            next.hunks == f.hunks && next.additions == f.additions && next.deletions == f.deletions
  {
  }

  lemma {:induction false} ParseFromSound(lines: seq<string>, cur: Option<FileState>, dec: Decoder)
    requires NoBreaks(lines) && (cur.Some? ==> SoundState(cur.value))
    ensures ParseFrom(lines, cur, dec).Ok? ==> AllSound(ParseFrom(lines, cur, dec).value)
    decreases |lines|
  {
    if lines != [] {
      if StartsWith(lines[0], DIFF_GIT) {
        ParseFromSound(lines[1..], Some(NewFile(lines[0], dec)), dec);
      } else if cur.None? {
        ParseFromSound(lines[1..], None, dec);
      } else if Classify(lines[0]).Header? {
        var h := Classify(lines[0]).header;
        if ReadBody(lines[1..], h.oldLines, h.newLines).Ok? {
          var (body, rest) := ReadBody(lines[1..], h.oldLines, h.newLines).value;
          HunkSound(cur.value, h, lines[1..]);
          RestUnbroken(lines[1..], h.oldLines, h.newLines);
          ParseFromSound(rest, Some(WithHunk(cur.value, h.(lines := body))), dec);
        }
      } else {
        UpdatedSound(cur.value, lines[0], dec);
        ParseFromSound(lines[1..], Some(Updated(cur.value, lines[0], dec)), dec);
      }
    }
  }

  /** Every returned file: header counts match bodies, totals match hunks, no line contains a line break. */
  lemma ParseSound(diff: string, dec: Decoder)
    ensures Parse(diff, dec).Ok? ==> AllSound(Parse(diff, dec).value)
  {
    var lines := StripAll(Split(diff, '\n'));
    forall k | 0 <= k < |lines| ensures '\n' !in lines[k] {
      assert lines[k] == StripCr(Split(diff, '\n')[k]);
    }
    ParseFromSound(lines, None, dec);
  }
}
