// Printing an edit as hunks the way POSIX.1-2017 `diff -u` numbers them, and applying them again.
module PrintedEdit {
  import opened Text
  import opened Wrappers
  import opened Diff
  import opened ApplyHunks
  import opened EditScript

  /** Unchanged lines, then a hunk body. */
  datatype Piece = Piece(gap: seq<string>, body: seq<string>)

  const NOTE := "\\ No newline at end of file"

  /** One side of the edit: the source hides '+' lines, the target hides '-' lines. */
  function Projection(pieces: seq<Piece>, tail: seq<string>, hidden: char): seq<string>
    decreases |pieces|
  {
    if pieces == [] then tail
    else pieces[0].gap + (Side(pieces[0].body, hidden) + Projection(pieces[1..], tail, hidden))
  }

  function Source(pieces: seq<Piece>, tail: seq<string>): seq<string> { Projection(pieces, tail, '+') }
  function Target(pieces: seq<Piece>, tail: seq<string>): seq<string> { Projection(pieces, tail, '-') }

  /** The first line of a range, or the line before it when the range is empty. */
  function Numbered(pos: nat, n: nat): nat { if n == 0 then pos else pos + 1 }

  /** The hunks of an edit whose first piece starts at line indices `oldPos` and `newPos`. */
  function Hunks(pieces: seq<Piece>, oldPos: nat, newPos: nat): seq<Hunk>
    decreases |pieces|
  {
    if pieces == [] then []
    else
      var p := pieces[0];
      var (o, n) := (oldPos + |p.gap|, newPos + |p.gap|);
      var (oldLines, newLines) := (|OldSide(p.body)|, |NewSide(p.body)|);
      [Hunk(Numbered(o, oldLines), oldLines, Numbered(n, newLines), newLines, p.body)]
      + Hunks(pieces[1..], o + oldLines, n + newLines)
  }

  /** The script the applier runs on those hunks: a hunk without old lines lands one line early
      unless there is no unchanged line in front of it. `carry` is the line it overtook. */
  function Landing(carry: seq<string>, pieces: seq<Piece>, tail: seq<string>): (s: Script)
    ensures |s.gaps| == |pieces|
    decreases |pieces|
  {
    if pieces == [] then Script([], carry + tail)
    else
      var g := carry + pieces[0].gap;
      if Early(g, pieces[0].body) then
        var rest := Landing([g[|g| - 1]], pieces[1..], tail);
        Script([g[..|g| - 1]] + rest.gaps, rest.tail)
      else
        var rest := Landing([], pieces[1..], tail);
        Script([g] + rest.gaps, rest.tail)
  }

  predicate Early(gap: seq<string>, body: seq<string>) { gap != [] && OldSide(body) == [] }

  /** Every insertion that lands early inserts only copies of the line it overtakes. */
  predicate Harmless(carry: seq<string>, pieces: seq<Piece>)
    decreases |pieces|
  {
    pieces == [] ||
    var g, p := carry + pieces[0].gap, pieces[0];
    if Early(g, p.body) then
      && (forall k | 0 <= k < |NewSide(p.body)| :: NewSide(p.body)[k] == g[|g| - 1])
      && Harmless([g[|g| - 1]], pieces[1..])
    else
      Harmless([], pieces[1..])
  }

  // ---- the applier on printed hunks ----

  /** The part of the printed form the applier looks at: bodies and old start lines. */
  ghost predicate Prints(hunks: seq<Hunk>, pieces: seq<Piece>, oldPos: nat)
    decreases |pieces|
  {
    |hunks| == |pieces| &&
    (pieces == [] ||
     var n := |OldSide(pieces[0].body)|;
     && hunks[0].lines == pieces[0].body
     && hunks[0].oldStart == Numbered(oldPos + |pieces[0].gap|, n)
     && Prints(hunks[1..], pieces[1..], oldPos + |pieces[0].gap| + n))
  }

  lemma {:induction false} HunksPrint(pieces: seq<Piece>, oldPos: nat, newPos: nat)
    ensures Prints(Hunks(pieces, oldPos, newPos), pieces, oldPos)
    decreases |pieces|
  {
    if pieces != [] {
      var p := pieces[0];
      HunksPrint(pieces[1..], oldPos + |p.gap| + |OldSide(p.body)|, newPos + |p.gap| + |NewSide(p.body)|);
    }
  }

  /** How many unchanged lines end up in front of each hunk. */
  ghost predicate Sizes(gaps: seq<seq<string>>, pieces: seq<Piece>, carry: nat)
    decreases |pieces|
  {
    |gaps| == |pieces| &&
    (pieces == [] ||
     var g := carry + |pieces[0].gap|;
     if g > 0 && OldSide(pieces[0].body) == [] then |gaps[0]| == g - 1 && Sizes(gaps[1..], pieces[1..], 1)
     else |gaps[0]| == g && Sizes(gaps[1..], pieces[1..], 0))
  }

  lemma {:induction false} LandingSizes(carry: seq<string>, pieces: seq<Piece>, tail: seq<string>)
    ensures Sizes(Landing(carry, pieces, tail).gaps, pieces, |carry|)
    decreases |pieces|
  {
    if pieces != [] {
      var g := carry + pieces[0].gap;
      var next := if Early(g, pieces[0].body) then [g[|g| - 1]] else [];
      LandingSizes(next, pieces[1..], tail);
      assert Landing(carry, pieces, tail).gaps[1..] == Landing(next, pieces[1..], tail).gaps;
    }
  }

  /** A printed hunk asks for the place where its piece ends, one line less if it has no old lines. */
  lemma {:induction false} SizesPlaced(gaps: seq<seq<string>>, hunks: seq<Hunk>, pieces: seq<Piece>,
                                       carry: nat, cursor: nat, oldPos: nat)
    requires oldPos == cursor + carry && carry <= 1
    requires Sizes(gaps, pieces, carry) && Prints(hunks, pieces, oldPos)
    ensures Placed(gaps, hunks, cursor)
    decreases |pieces|
  {
    if pieces != [] {
      var n := |OldSide(pieces[0].body)|;
      var g := carry + |pieces[0].gap|;
      SizesPlaced(gaps[1..], hunks[1..], pieces[1..], if g > 0 && n == 0 then 1 else 0,
                  cursor + |gaps[0]| + n, oldPos + |pieces[0].gap| + n);
    }
  }

  lemma Overtake(carry: seq<string>, gap: seq<string>, want: seq<string>, later: seq<string>)
    ensures carry + (gap + (want + later)) == (carry + gap) + (want + later)
  {
  }

  lemma LastAway(g: seq<string>, later: seq<string>)
    requires g != []
    ensures g[..|g| - 1] + ([] + ([g[|g| - 1]] + later)) == g + ([] + later)
  {
  }

  lemma {:induction false} LandingReads(carry: seq<string>, pieces: seq<Piece>, tail: seq<string>,
                                        hunks: seq<Hunk>, oldPos: nat)
    requires Prints(hunks, pieces, oldPos)
    ensures var s := Landing(carry, pieces, tail); OldProjection(s.gaps, hunks, s.tail) == carry + Source(pieces, tail)
    decreases |pieces|
  {
    if pieces != [] {
      var p := pieces[0];
      var g := carry + p.gap;
      var later := Source(pieces[1..], tail);
      Overtake(carry, p.gap, OldSide(p.body), later);
      var s := Landing(carry, pieces, tail);
      if Early(g, p.body) {
        var next := [g[|g| - 1]];
        LandingReads(next, pieces[1..], tail, hunks[1..], oldPos + |p.gap| + |OldSide(p.body)|);
        LastAway(g, later);
        assert s.gaps[1..] == Landing(next, pieces[1..], tail).gaps;
      } else {
        LandingReads([], pieces[1..], tail, hunks[1..], oldPos + |p.gap| + |OldSide(p.body)|);
        assert [] + later == later;
        assert s.gaps[1..] == Landing([], pieces[1..], tail).gaps;
      }
    }
  }

  lemma {:induction false} Pushed(x: string, added: seq<string>, a: seq<string>, b: seq<string>)
    ensures added + a == [x] + (added + b) <==> (forall k | 0 <= k < |added| :: added[k] == x) && a == [x] + b
  {
    var l, r := added + a, [x] + (added + b);
    if l == r {
      AllCopies(x, added, a, b, |added|);
      assert l[|added|..] == a;
      assert r == added + ([x] + b);
      assert r[|added|..] == [x] + b;
    } else if forall k | 0 <= k < |added| :: added[k] == x {
      assert [x] + added == added + [x];
      assert r == added + ([x] + b);
    }
  }

  lemma {:induction false} AllCopies(x: string, added: seq<string>, a: seq<string>, b: seq<string>, n: nat)
    requires n <= |added| && added + a == [x] + (added + b)
    ensures forall k | 0 <= k < n :: added[k] == x
  {
    if n > 0 {
      AllCopies(x, added, a, b, n - 1);
      assert (added + a)[n - 1] == added[n - 1];
      assert n > 1 ==> ([x] + (added + b))[n - 1] == added[n - 2];
    }
  }

  /** The script writes the edit's target exactly when every early insertion is harmless. */
  lemma {:induction false} LandingIff(carry: seq<string>, pieces: seq<Piece>, tail: seq<string>,
                                        hunks: seq<Hunk>, oldPos: nat)
    requires Prints(hunks, pieces, oldPos)
    ensures var s := Landing(carry, pieces, tail);
            NewProjection(s.gaps, hunks, s.tail) == carry + Target(pieces, tail) <==> Harmless(carry, pieces)
    decreases |pieces|
  {
    if pieces != [] {
      var p := pieces[0];
      var g := carry + p.gap;
      var out := LandingStep(carry, pieces, tail, hunks, oldPos);
      if Early(g, p.body) {
        LandingIff([g[|g| - 1]], pieces[1..], tail, hunks[1..], oldPos + |p.gap| + |OldSide(p.body)|);
        EarlyPiece(carry, pieces, tail, out);
      } else {
        LandingIff([], pieces[1..], tail, hunks[1..], oldPos + |p.gap| + |OldSide(p.body)|);
        OnTimePiece(carry, pieces, tail, out);
      }
    }
  }

  lemma EarlyPiece(carry: seq<string>, pieces: seq<Piece>, tail: seq<string>, out: seq<string>)
    requires pieces != [] && Early(carry + pieces[0].gap, pieces[0].body)
    requires var g := carry + pieces[0].gap;
             out == [g[|g| - 1]] + Target(pieces[1..], tail) <==> Harmless([g[|g| - 1]], pieces[1..])
    ensures var (g, added) := (carry + pieces[0].gap, NewSide(pieces[0].body));
            g[..|g| - 1] + (added + out) == carry + Target(pieces, tail) <==> Harmless(carry, pieces)
  {
    var (added, later) := (NewSide(pieces[0].body), Target(pieces[1..], tail));
    Overtake(carry, pieces[0].gap, added, later);
    EarlyIff(carry + pieces[0].gap, added, out, later);
  }

  lemma OnTimePiece(carry: seq<string>, pieces: seq<Piece>, tail: seq<string>, out: seq<string>)
    requires pieces != [] && !Early(carry + pieces[0].gap, pieces[0].body)
    requires out == [] + Target(pieces[1..], tail) <==> Harmless([], pieces[1..])
    ensures (carry + pieces[0].gap) + (NewSide(pieces[0].body) + out) == carry + Target(pieces, tail) <==>
            Harmless(carry, pieces)
  {
    var (added, later) := (NewSide(pieces[0].body), Target(pieces[1..], tail));
    Overtake(carry, pieces[0].gap, added, later);
    assert [] + later == later;
    OnTimeIff(carry + pieces[0].gap, added, out, later);
  }

  /** What the script writes: the first gap, the first piece's new lines, and the output of the rest. */
  lemma LandingStep(carry: seq<string>, pieces: seq<Piece>, tail: seq<string>, hunks: seq<Hunk>, oldPos: nat)
    returns (out: seq<string>)
    requires pieces != [] && Prints(hunks, pieces, oldPos)
    ensures var (s, g, added) := (Landing(carry, pieces, tail), carry + pieces[0].gap, NewSide(pieces[0].body));
            var (front, next) := if Early(g, pieces[0].body) then (g[..|g| - 1], [g[|g| - 1]]) else (g, []);
            var rest := Landing(next, pieces[1..], tail);
            && out == NewProjection(rest.gaps, hunks[1..], rest.tail)
            && NewProjection(s.gaps, hunks, s.tail) == front + (added + out)
  {
    var g := carry + pieces[0].gap;
    var rest := Landing(if Early(g, pieces[0].body) then [g[|g| - 1]] else [], pieces[1..], tail);
    assert Landing(carry, pieces, tail).gaps[1..] == rest.gaps;
    out := NewProjection(rest.gaps, hunks[1..], rest.tail);
  }

  lemma EarlyIff(g: seq<string>, added: seq<string>, out: seq<string>, later: seq<string>)
    requires g != []
    ensures var front, last := g[..|g| - 1], g[|g| - 1];
            front + (added + out) == g + (added + later) <==>
            (forall k | 0 <= k < |added| :: added[k] == last) && out == [last] + later
  {
    var front, last := g[..|g| - 1], g[|g| - 1];
    Pushed(last, added, out, later);
    Cancel(front, added + out, [last] + (added + later));
    assert g + (added + later) == front + ([last] + (added + later));
  }

  lemma OnTimeIff(g: seq<string>, added: seq<string>, out: seq<string>, later: seq<string>)
    ensures g + (added + out) == g + (added + later) <==> out == later
  {
    Cancel(added, out, later);
    Cancel(g, added + out, added + later);
  }

  lemma Cancel(a: seq<string>, b: seq<string>, c: seq<string>)
    ensures a + b == a + c <==> b == c
  {
    if a + b == a + c {
      assert (a + b)[|a|..] == b;
      assert (a + c)[|a|..] == c;
    }
  }

  /** What the applier makes of printed hunks, for every edit. */
  lemma PrintedApplies(path: string, pieces: seq<Piece>, tail: seq<string>)
    ensures var s, hunks := Landing([], pieces, tail), Hunks(pieces, 0, 0);
            && |hunks| == |pieces|
            && ApplyFrom(path, Source(pieces, tail), 0, hunks) == Ok(NewProjection(s.gaps, hunks, s.tail))
  {
    var src, hunks, s := Source(pieces, tail), Hunks(pieces, 0, 0), Landing([], pieces, tail);
    HunksPrint(pieces, 0, 0);
    LandingSizes([], pieces, tail);
    SizesPlaced(s.gaps, hunks, pieces, 0, 0, 0);
    LandingReads([], pieces, tail, hunks, 0);
    assert src[0..] == [] + src;
    ScriptRuns(path, src, 0, hunks, s);
  }

  /** Lines: an edit printed as hunks and applied to its source gives its target, exactly when it is harmless. */
  lemma PrintedEditIff(path: string, pieces: seq<Piece>, tail: seq<string>)
    ensures ApplyFrom(path, Source(pieces, tail), 0, Hunks(pieces, 0, 0)) == Ok(Target(pieces, tail))
            <==> Harmless([], pieces)
  {
    HunksPrint(pieces, 0, 0);
    PrintedApplies(path, pieces, tail);
    LandingIff([], pieces, tail, Hunks(pieces, 0, 0), 0);
    assert [] + Target(pieces, tail) == Target(pieces, tail);
  }

  /** Hunks that show an old line, or stand at the very start of the file, are always placed right. */
  lemma {:induction false} ContextIsHarmless(pieces: seq<Piece>)
    requires forall k | 0 <= k < |pieces| :: OldSide(pieces[k].body) != [] || (k == 0 && pieces[k].gap == [])
    ensures Harmless([], pieces)
    decreases |pieces|
  {
    if pieces != [] {
      assert [] + pieces[0].gap == pieces[0].gap;
      ContextIsHarmless(pieces[1..]);
    }
  }

  /** What the applier makes of a single printed hunk. */
  lemma OnePieceApplied(path: string, p: Piece, tail: seq<string>)
    ensures Source([p], tail) == p.gap + (OldSide(p.body) + tail)
    ensures Target([p], tail) == p.gap + (NewSide(p.body) + tail)
    ensures var n := |p.gap|;
            ApplyFrom(path, p.gap + (OldSide(p.body) + tail), 0, Hunks([p], 0, 0)) ==
            Ok(if Early(p.gap, p.body) then p.gap[..n - 1] + (NewSide(p.body) + ([p.gap[n - 1]] + tail))
               else p.gap + (NewSide(p.body) + tail))
  {
    PrintedApplies(path, [p], tail);
    assert [p][1..] == [] && [] + p.gap == p.gap;
    assert Source([], tail) == tail && Target([], tail) == tail;
    assert Source([p], tail) == p.gap + (OldSide(p.body) + Source([p][1..], tail));
    assert Target([p], tail) == p.gap + (NewSide(p.body) + Target([p][1..], tail));
    var (s, hunks) := (Landing([], [p], tail), Hunks([p], 0, 0));
    assert [] + tail == tail;
    assert hunks[0].lines == p.body && hunks[1..] == [] && s.gaps[1..] == [];
  }

  /** A line inserted after another one and printed without context lands in front of it. */
  lemma InsertionLandsEarly(path: string, a: string, b: string)
    ensures var pieces := [Piece([a], [['+'] + b])];
            && Source(pieces, []) == [a] && Target(pieces, []) == [a, b]
            && ApplyFrom(path, [a], 0, Hunks(pieces, 0, 0)) == Ok([b, a])
  {
    var p := Piece([a], [['+'] + b]);
    OneAdded(['+'] + b);
    OnePieceApplied(path, p, []);
    assert Content(['+'] + b) == b;
    assert [a] + ([] + []) == [a] && [a] + ([b] + []) == [a, b];
    assert [a][..0] + ([b] + ([a] + [])) == [b, a];
  }
}
