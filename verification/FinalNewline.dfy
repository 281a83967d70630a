// Byte-for-byte results: the final newline, and the "\ No newline at end of file" markers.
module FinalNewline {
  import opened Text
  import opened Wrappers
  import opened Diff
  import opened ApplyHunks
  import opened EditScript
  import opened PrintedEdit

  /** Lines and a final-newline flag that name a text: an unterminated last line is not empty. */
  ghost predicate Named(lines: seq<string>, newline: bool) {
    && NoBreaks(lines)
    && (lines == [] ==> newline)
    && (lines != [] && !newline ==> lines[|lines| - 1] != "")
  }

  /** Splitting a text into lines undoes putting it together. */
  lemma FileLinesOf(lines: seq<string>, newline: bool)
    requires Named(lines, newline)
    ensures FileLines(FileText(lines, newline)) == lines
  {
    if lines != [] {
      JoinNonempty(lines, newline);
      if newline {
        JoinTail(lines);
        SplitJoin(lines + [""], '\n');
      } else {
        SplitJoin(lines, '\n');
        assert Join(lines, '\n') + "" == Join(lines, '\n');
      }
    }
  }

  lemma {:induction false} JoinTail(lines: seq<string>)
    requires lines != []
    ensures Join(lines, '\n') + "\n" == Join(lines + [""], '\n')
  {
    assert (lines + [""])[1..] == lines[1..] + [""];
    if |lines| > 1 {
      JoinTail(lines[1..]);
    }
  }

  lemma {:induction false} JoinNonempty(lines: seq<string>, newline: bool)
    requires lines != [] && (!newline ==> lines[|lines| - 1] != "")
    ensures FileText(lines, newline) != ""
  {
  }

  // ---- markers ----

  /** A hunk body with its markers. `oldBare` and `newBare` say that the last line of that side has no newline
      and has not been met yet. */
  function Marked(body: seq<string>, oldBare: bool, newBare: bool): seq<string>
    decreases |body|
  {
    if body == [] then []
    else
      var front, last := body[..|body| - 1], body[|body| - 1];
      if IsAdd(last) then Marked(front, oldBare, false) + [last] + Note(newBare)
      else if IsDel(last) then Marked(front, false, newBare) + [last] + Note(oldBare)
      else front + [last] + Note(oldBare || newBare)
  }

  function Note(due: bool): seq<string> { if due then [NOTE] else [] }

  /** An unchanged line, in the body or in front of it, ends the old side exactly when it ends the new one. */
  predicate EndsAgree(body: seq<string>, oldBare: bool, newBare: bool)
    decreases |body|
  {
    if body == [] then oldBare == newBare
    else
      var front, last := body[..|body| - 1], body[|body| - 1];
      if IsAdd(last) then EndsAgree(front, oldBare, false)
      else if IsDel(last) then EndsAgree(front, false, newBare)
      else oldBare == newBare
  }

  ghost predicate Unmarked(body: seq<string>) { forall k | 0 <= k < |body| :: !IsMark(body[k]) }

  lemma {:induction false} UnmarkedKeeps(body: seq<string>)
    requires Unmarked(body)
    ensures !DropsNewline(body)
    ensures body != [] ==> LastKind(body) != Nothing
    decreases |body|
  {
    if body != [] {
      UnmarkedKeeps(body[..|body| - 1]);
    }
  }

  lemma NoteDrops(front: seq<string>, last: string, due: bool)
    requires !IsMark(last)
    ensures DropsNewline(front + [last] + Note(due)) <==> DropsNewline(front) || (due && !IsDel(last))
  {
    var lines := front + [last];
    assert lines[..|front|] == front;
    assert due ==> (lines + [NOTE])[..|lines|] == lines;
    assert !due ==> lines + [] == lines;
  }

  lemma NoteHides(front: seq<string>, last: string, due: bool, hidden: char)
    requires hidden != '\\'
    ensures Side(front + [last] + Note(due), hidden) == Side(front, hidden) + Side([last], hidden)
  {
    SideAppend(front + [last], Note(due), hidden);
    SideAppend(front, [last], hidden);
    assert Side(Note(due), hidden) == [];
  }

  /** Markers are on neither side. */
  lemma {:induction false} MarkedSides(body: seq<string>, oldBare: bool, newBare: bool, hidden: char)
    requires hidden != '\\'
    ensures Side(Marked(body, oldBare, newBare), hidden) == Side(body, hidden)
    decreases |body|
  {
    if body != [] {
      var front, last := body[..|body| - 1], body[|body| - 1];
      assert body == front + [last] + Note(false);
      NoteHides(front, last, false, hidden);
      if IsAdd(last) {
        MarkedSides(front, oldBare, false, hidden);
        NoteHides(Marked(front, oldBare, false), last, newBare, hidden);
      } else if IsDel(last) {
        MarkedSides(front, false, newBare, hidden);
        NoteHides(Marked(front, false, newBare), last, oldBare, hidden);
      } else {
        NoteHides(front, last, oldBare || newBare, hidden);
      }
    }
  }

  /** The marked body drops the newline exactly when its new side ends the new file without one. */
  lemma {:induction false} MarkedDrops(body: seq<string>, oldBare: bool, newBare: bool)
    requires Unmarked(body) && EndsAgree(body, oldBare, newBare)
    ensures DropsNewline(Marked(body, oldBare, newBare)) <==> newBare && NewSide(body) != []
    decreases |body|
  {
    if body != [] {
      var front, last := body[..|body| - 1], body[|body| - 1];
      if IsAdd(last) {
        MarkedDrops(front, oldBare, false);
        NoteDrops(Marked(front, oldBare, false), last, newBare);
      } else if IsDel(last) {
        MarkedDrops(front, false, newBare);
        NoteDrops(Marked(front, false, newBare), last, oldBare);
      } else {
        UnmarkedKeeps(front);
        NoteDrops(front, last, oldBare || newBare);
      }
    }
  }

  /** Earlier bodies without markers do not matter. */
  lemma {:induction false} DropsAfter(a: seq<string>, b: seq<string>)
    requires Unmarked(a) && (b != [] ==> !IsMark(b[0]))
    ensures DropsNewline(a + b) <==> DropsNewline(b)
    ensures b != [] ==> LastKind(a + b) == LastKind(b) != Nothing
    decreases |b|
  {
    if b == [] {
      assert a + b == a;
      UnmarkedKeeps(a);
    } else {
      var front := b[..|b| - 1];
      assert (a + b)[..|a + b| - 1] == a + front;
      DropsAfter(a, front);
    }
  }

  lemma {:induction false} MarkedStart(body: seq<string>, oldBare: bool, newBare: bool)
    requires Unmarked(body)
    ensures Marked(body, oldBare, newBare) != [] ==> !IsMark(Marked(body, oldBare, newBare)[0])
    decreases |body|
  {
    if body != [] {
      var front, last := body[..|body| - 1], body[|body| - 1];
      if IsAdd(last) {
        MarkedStart(front, oldBare, false);
      } else if IsDel(last) {
        MarkedStart(front, false, newBare);
      }
    }
  }

  // ---- whole edits ----

  /** An edit between two named files. The last unchanged line has the same ending on both sides. */
  datatype FileEdit = FileEdit(pieces: seq<Piece>, tail: seq<string>, oldNewline: bool, newNewline: bool) {
    function Old(): seq<string> { Source(pieces, tail) }
    function New(): seq<string> { Target(pieces, tail) }

    ghost predicate Valid() {
      && Named(Old(), oldNewline) && Named(New(), newNewline)
      && (forall k | 0 <= k < |pieces| :: Unmarked(pieces[k].body))
      && (if tail != [] || pieces == [] then oldNewline == newNewline
          else EndsAgree(pieces[|pieces| - 1].body, !oldNewline, !newNewline))
    }

    /** The pieces with markers in the last body, when it reaches the end of the file. */
    function Printed(): seq<Piece> {
      if tail != [] || pieces == [] then pieces
      else
        var n := |pieces| - 1;
        pieces[n := pieces[n].(body := Marked(pieces[n].body, !oldNewline, !newNewline))]
    }

    /** The last hunk shows the new file's last line. */
    predicate ReachesEnd() {
      tail == [] && pieces != [] && NewSide(pieces[|pieces| - 1].body) != []
    }
  }

  /** Two edits whose bodies have the same sides do the same. */
  ghost predicate SameSides(a: seq<Piece>, b: seq<Piece>) {
    |a| == |b| &&
    forall k | 0 <= k < |a| ::
      a[k].gap == b[k].gap && OldSide(a[k].body) == OldSide(b[k].body) && NewSide(a[k].body) == NewSide(b[k].body)
  }

  lemma {:induction false} SameSidesSame(a: seq<Piece>, b: seq<Piece>, tail: seq<string>, carry: seq<string>)
    requires SameSides(a, b)
    ensures Source(a, tail) == Source(b, tail) && Target(a, tail) == Target(b, tail)
    ensures Harmless(carry, a) == Harmless(carry, b)
    decreases |a|
  {
    if a != [] {
      assert SameSides(a[1..], b[1..]);
      var g := carry + a[0].gap;
      SameSidesSame(a[1..], b[1..], tail, if Early(g, a[0].body) then [g[|g| - 1]] else []);
    }
  }

  lemma PrintedSides(e: FileEdit)
    ensures SameSides(e.Printed(), e.pieces)
  {
    if e.tail == [] && e.pieces != [] {
      var last := e.pieces[|e.pieces| - 1].body;
      MarkedSides(last, !e.oldNewline, !e.newNewline, '+');
      MarkedSides(last, !e.oldNewline, !e.newNewline, '-');
    }
  }

  /** All bodies, in order. */
  function Bodies(pieces: seq<Piece>): seq<string>
    decreases |pieces|
  {
    if pieces == [] then [] else Bodies(pieces[..|pieces| - 1]) + pieces[|pieces| - 1].body
  }

  lemma {:induction false} AllLinesAre(hunks: seq<Hunk>, pieces: seq<Piece>)
    requires |hunks| == |pieces| && forall k | 0 <= k < |pieces| :: hunks[k].lines == pieces[k].body
    ensures AllLines(hunks) == Bodies(pieces)
    decreases |hunks|
  {
    if hunks != [] {
      AllLinesAre(hunks[..|hunks| - 1], pieces[..|pieces| - 1]);
    }
  }

  lemma {:induction false} HunkBodies(hunks: seq<Hunk>, pieces: seq<Piece>, oldPos: nat)
    requires Prints(hunks, pieces, oldPos)
    ensures forall k | 0 <= k < |pieces| :: hunks[k].lines == pieces[k].body
    decreases |pieces|
  {
    if pieces != [] {
      HunkBodies(hunks[1..], pieces[1..], oldPos + |pieces[0].gap| + |OldSide(pieces[0].body)|);
      forall k | 1 <= k < |pieces| ensures hunks[k].lines == pieces[k].body {
        assert hunks[1..][k - 1].lines == pieces[1..][k - 1].body;
      }
    }
  }

  lemma {:induction false} BodiesUnmarked(pieces: seq<Piece>)
    requires forall k | 0 <= k < |pieces| :: Unmarked(pieces[k].body)
    ensures Unmarked(Bodies(pieces))
    decreases |pieces|
  {
    if pieces != [] {
      BodiesUnmarked(pieces[..|pieces| - 1]);
    }
  }

  /** The printed markers take the newline away exactly when the last hunk shows an unterminated new last line. */
  lemma PrintedDrops(e: FileEdit)
    requires e.Valid()
    ensures DropsNewline(Bodies(e.Printed())) <==> e.ReachesEnd() && !e.newNewline
  {
    if e.tail != [] || e.pieces == [] {
      BodiesUnmarked(e.pieces);
      UnmarkedKeeps(Bodies(e.pieces));
    } else {
      var n := |e.pieces| - 1;
      var last := e.pieces[n].body;
      var marked := Marked(last, !e.oldNewline, !e.newNewline);
      assert e.Printed()[..n] == e.pieces[..n];
      BodiesUnmarked(e.pieces[..n]);
      MarkedStart(last, !e.oldNewline, !e.newNewline);
      DropsAfter(Bodies(e.pieces[..n]), marked);
      MarkedDrops(last, !e.oldNewline, !e.newNewline);
    }
  }

  lemma SameText(a: seq<string>, b: seq<string>, newline: bool)
    requires NoBreaks(a) && NoBreaks(b) && |a| == |b| && FileText(a, newline) == FileText(b, newline)
    ensures a == b
  {
    if a != [] {
      var end := if newline then "\n" else "";
      var (x, y) := (Join(a, '\n'), Join(b, '\n'));
      assert (x + end)[..|x + end| - |end|] == x && (y + end)[..|y + end| - |end|] == y;
      SplitJoin(a, '\n');
      SplitJoin(b, '\n');
    }
  }

  lemma {:induction false} JoinEnds(lines: seq<string>)
    requires NoBreaks(lines) && lines != [] && lines[|lines| - 1] != ""
    ensures var s := Join(lines, '\n'); s != "" && s[|s| - 1] != '\n'
  {
    if |lines| > 1 {
      JoinEnds(lines[1..]);
    }
  }

  /** A text decides its lines and its final newline. */
  lemma TextDecides(out: seq<string>, a: bool, lines: seq<string>, b: bool)
    requires NoBreaks(out) && |out| == |lines| && Named(lines, b) && (b ==> a)
    ensures FileText(out, a) == FileText(lines, b) <==> out == lines && a == b
  {
    var (x, y) := (FileText(out, a), FileText(lines, b));
    if a && !b {
      JoinEnds(lines);
      assert y == Join(lines, '\n');
      assert x[|x| - 1] == '\n';
    } else if x == y {
      SameText(out, lines, b);
    }
  }

  /** Misplaced or not, the output has exactly the lines of the target. */
  lemma {:induction false} LandingPermutes(carry: seq<string>, pieces: seq<Piece>, tail: seq<string>,
                                           hunks: seq<Hunk>, oldPos: nat)
    requires Prints(hunks, pieces, oldPos)
    ensures var s := Landing(carry, pieces, tail);
            multiset(NewProjection(s.gaps, hunks, s.tail)) == multiset(carry + Target(pieces, tail))
    decreases |pieces|
  {
    if pieces != [] {
      var p := pieces[0];
      var g := carry + p.gap;
      var added, later := NewSide(p.body), Target(pieces[1..], tail);
      Overtake(carry, p.gap, added, later);
      var (gap, next) := if Early(g, p.body) then (g[..|g| - 1], [g[|g| - 1]]) else (g, []);
      assert g == gap + next;
      var rest := Landing(next, pieces[1..], tail);
      LandingPermutes(next, pieces[1..], tail, hunks[1..], oldPos + |p.gap| + |OldSide(p.body)|);
      assert Landing(carry, pieces, tail).gaps[1..] == rest.gaps;
      Regrouped(gap, next, added, NewProjection(rest.gaps, hunks[1..], rest.tail), later);
    }
  }

  lemma Regrouped(gap: seq<string>, next: seq<string>, added: seq<string>, out: seq<string>, later: seq<string>)
    requires multiset(out) == multiset(next + later)
    ensures multiset(gap + (added + out)) == multiset((gap + next) + (added + later))
  {
  }

  lemma SameLines(out: seq<string>, lines: seq<string>)
    requires multiset(out) == multiset(lines) && NoBreaks(lines)
    ensures NoBreaks(out) && |out| == |lines|
  {
    assert |multiset(out)| == |out| && |multiset(lines)| == |lines|;
    forall k | 0 <= k < |out| ensures '\n' !in out[k] {
      assert out[k] in multiset(out);
      assert out[k] in lines;
    }
  }

  lemma PrintedLines(path: string, e: FileEdit) returns (out: seq<string>)
    requires e.Valid()
    ensures ApplyFrom(path, e.Old(), 0, Hunks(e.Printed(), 0, 0)) == Ok(out)
    ensures out == e.New() <==> Harmless([], e.pieces)
    ensures NoBreaks(out) && |out| == |e.New()|
  {
    var printed := e.Printed();
    var hunks, s := Hunks(printed, 0, 0), Landing([], printed, e.tail);
    PrintedSides(e);
    SameSidesSame(printed, e.pieces, e.tail, []);
    PrintedApplies(path, printed, e.tail);
    PrintedEditIff(path, printed, e.tail);
    HunksPrint(printed, 0, 0);
    LandingPermutes([], printed, e.tail, hunks, 0);
    assert [] + e.New() == e.New();
    out := NewProjection(s.gaps, hunks, s.tail);
    SameLines(out, e.New());
  }

  lemma PrintedMarks(e: FileEdit)
    requires e.Valid()
    ensures DropsNewline(AllLines(Hunks(e.Printed(), 0, 0))) <==> e.ReachesEnd() && !e.newNewline
  {
    HunksPrint(e.Printed(), 0, 0);
    HunkBodies(Hunks(e.Printed(), 0, 0), e.Printed(), 0);
    AllLinesAre(Hunks(e.Printed(), 0, 0), e.Printed());
    PrintedDrops(e);
  }

  /** Bytes: applying the printed edit to the source text gives the target text exactly when every early
      insertion is harmless and, if the new file has no final newline, its last line is in the last hunk. */
  lemma PrintedFileIff(path: string, e: FileEdit)
    requires e.Valid()
    ensures Applied(path, FileText(e.Old(), e.oldNewline), Hunks(e.Printed(), 0, 0))
            == Ok(FileText(e.New(), e.newNewline))
            <==> Harmless([], e.pieces) && (e.newNewline || e.ReachesEnd())
  {
    FileLinesOf(e.Old(), e.oldNewline);
    var out := PrintedLines(path, e);
    PrintedMarks(e);
    TextDecides(out, !(e.ReachesEnd() && !e.newNewline), e.New(), e.newNewline);
  }

  /** A file renamed without a hunk: if it had no final newline it gains one. */
  lemma RenameGainsNewline(path: string, line: string)
    requires '\n' !in line && line != ""
    ensures Applied(path, line, []) == Ok(line + "\n")
  {
    FileLinesOf([line], false);
    assert FileText([line], false) == line + "" == line;
    assert [line][0..] == [line];
    assert FileText([line], true) == line + "\n";
  }

  /** An edit of the first line of a file without a final newline, printed without context: the file gains one. */
  lemma EditGainsNewline(path: string, a: string, b: string, c: string)
    requires '\n' !in a && '\n' !in c && c != ""
    ensures var e := FileEdit([Piece([], [['-'] + a, ['+'] + b])], [c], false, false);
            && FileText(e.Old(), false) == a + "\n" + c && FileText(e.New(), false) == b + "\n" + c
            && Applied(path, a + "\n" + c, Hunks(e.Printed(), 0, 0)) == Ok(b + "\n" + c + "\n")
  {
    TwoSides(['-'] + a, ['+'] + b);
    LineReplaced(path, Piece([], [['-'] + a, ['+'] + b]), a, b, c);
  }

  lemma LineReplaced(path: string, p: Piece, a: string, b: string, c: string)
    requires p.gap == [] && Unmarked(p.body) && OldSide(p.body) == [a] && NewSide(p.body) == [b]
    requires c != "" && '\n' !in a && '\n' !in c
    ensures FileText(Source([p], [c]), false) == a + "\n" + c && FileText(Target([p], [c]), false) == b + "\n" + c
    ensures Applied(path, a + "\n" + c, Hunks([p], 0, 0)) == Ok(b + "\n" + c + "\n")
  {
    OnePieceApplied(path, p, [c]);
    assert [] + ([a] + [c]) == [a, c] && [] + ([b] + [c]) == [b, c];
    FirstOfTwo(a, c);
    FirstOfTwo(b, c);
    FileLinesOf([a, c], false);
    PlainBody(p);
  }

  lemma PlainBody(p: Piece)
    requires Unmarked(p.body)
    ensures !DropsNewline(AllLines(Hunks([p], 0, 0)))
  {
    HunksPrint([p], 0, 0);
    HunkBodies(Hunks([p], 0, 0), [p], 0);
    AllLinesAre(Hunks([p], 0, 0), [p]);
    BodiesUnmarked([p]);
    UnmarkedKeeps(Bodies([p]));
  }

  lemma FirstOfTwo(x: string, y: string)
    ensures FileText([x, y], false) == x + "\n" + y && FileText([x, y], true) == x + "\n" + y + "\n"
  {
    assert [x, y][1..] == [y];
    assert Join([x, y], '\n') == x + ['\n'] + Join([y], '\n');
    assert x + ['\n'] + y == x + "\n" + y;
    assert x + "\n" + y + "" == x + "\n" + y;
  }

  lemma TwoSides(minus: string, plus: string)
    requires HasTag(minus, '-') && HasTag(plus, '+')
    ensures OldSide([minus, plus]) == [Content(minus)] && NewSide([minus, plus]) == [Content(plus)]
  {
    assert [minus, plus][..1] == [minus] && [minus][..0] == [];
    assert Side([minus], '+') == [] + [Content(minus)];
    assert Side([minus], '-') == [];
  }
}
