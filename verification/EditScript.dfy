// Applying hunks is running an edit script: unchanged stretches of the base alternate with hunks.
module EditScript {
  import opened Text
  import opened Wrappers
  import opened Diff
  import opened ApplyHunks

  /** A script over `hunks`: the unchanged lines before each hunk, and those after the last one. */
  datatype Script = Script(gaps: seq<seq<string>>, tail: seq<string>)

  /** What the script reads: the base. */
  function OldProjection(gaps: seq<seq<string>>, hunks: seq<Hunk>, tail: seq<string>): seq<string>
    requires |gaps| == |hunks|
    decreases |hunks|
  {
    if hunks == [] then tail
    else gaps[0] + (OldSide(hunks[0].lines) + OldProjection(gaps[1..], hunks[1..], tail))
  }

  /** What the script writes: the result. */
  function NewProjection(gaps: seq<seq<string>>, hunks: seq<Hunk>, tail: seq<string>): seq<string>
    requires |gaps| == |hunks|
    decreases |hunks|
  {
    if hunks == [] then tail
    else gaps[0] + (NewSide(hunks[0].lines) + NewProjection(gaps[1..], hunks[1..], tail))
  }

  /** Each hunk starts where its header says, or where the previous one ended if that is later. */
  predicate Placed(gaps: seq<seq<string>>, hunks: seq<Hunk>, cursor: nat)
    requires |gaps| == |hunks|
    decreases |hunks|
  {
    hunks == [] ||
    (&& |gaps[0]| == Max(cursor, Start(hunks[0])) - cursor
     && Placed(gaps[1..], hunks[1..], cursor + |gaps[0]| + |OldSide(hunks[0].lines)|))
  }

  /** The script explains the base lines from `cursor` on. */
  ghost predicate Reads(s: Script, src: seq<string>, cursor: nat, hunks: seq<Hunk>)
    requires cursor <= |src|
  {
    && |s.gaps| == |hunks|
    && Placed(s.gaps, hunks, cursor)
    && OldProjection(s.gaps, hunks, s.tail) == src[cursor..]
  }

  lemma FirstDiffNone(src: seq<string>, at: nat, want: seq<string>)
    requires at <= |src|
    ensures FirstDiff(src, at, want).None? <==> at + |want| <= |src| && src[at..at + |want|] == want
  {
    if at + |want| <= |src| && src[at..at + |want|] == want {
      forall k | 0 <= k < |want| ensures src[at + k] == want[k] {
        assert src[at..at + |want|][k] == want[k];
      }
      NoDiffer(src, at, want);
    }
  }

  /** A successful run has a script; it reads the base and writes the output. */
  lemma {:induction false} ScriptExists(path: string, src: seq<string>, cursor: nat, hunks: seq<Hunk>)
    returns (s: Script)
    requires cursor <= |src| && ApplyFrom(path, src, cursor, hunks).Ok?
    ensures Reads(s, src, cursor, hunks)
    ensures ApplyFrom(path, src, cursor, hunks) == Ok(NewProjection(s.gaps, hunks, s.tail))
    decreases |hunks|
  {
    if hunks == [] {
      s := Script([], src[cursor..]);
    } else {
      var at := FirstFits(path, src, cursor, hunks);
      var rest := ScriptExists(path, src, at + |OldSide(hunks[0].lines)|, hunks[1..]);
      s := Prepend(src, cursor, hunks, at, rest);
      PrependRuns(path, src, cursor, hunks, at, rest);
    }
  }

  lemma PrependRuns(path: string, src: seq<string>, cursor: nat, hunks: seq<Hunk>, at: nat, rest: Script)
    requires hunks != [] && cursor <= |src| && at == Max(cursor, Start(hunks[0])) && |rest.gaps| == |hunks| - 1
    requires var want := OldSide(hunks[0].lines);
             && at + |want| <= |src| && src[at..at + |want|] == want
             && ApplyFrom(path, src, at + |want|, hunks[1..]) == Ok(NewProjection(rest.gaps, hunks[1..], rest.tail))
    ensures ApplyFrom(path, src, cursor, hunks) == Ok(NewProjection([src[cursor..at]] + rest.gaps, hunks, rest.tail))
  {
    FirstRuns(path, src, cursor, hunks, at, NewProjection(rest.gaps, hunks[1..], rest.tail));
    PrependWrites(src[cursor..at], hunks, rest);
  }

  /** In a successful run the first hunk fits and the rest succeeds. */
  lemma FirstFits(path: string, src: seq<string>, cursor: nat, hunks: seq<Hunk>) returns (at: nat)
    requires hunks != [] && cursor <= |src| && ApplyFrom(path, src, cursor, hunks).Ok?
    ensures at == Max(cursor, Start(hunks[0]))
    ensures var want := OldSide(hunks[0].lines);
            && at + |want| <= |src| && src[at..at + |want|] == want
            && ApplyFrom(path, src, at + |want|, hunks[1..]).Ok?
  {
    at := Max(cursor, Start(hunks[0]));
    FirstDiffNone(src, at, OldSide(hunks[0].lines));
  }

  lemma Slices(src: seq<string>, cursor: nat, at: nat, end: nat)
    requires cursor <= at <= end <= |src|
    ensures src[cursor..] == src[cursor..at] + (src[at..end] + src[end..])
  {
  }

  /** One more hunk in front of a script. */
  lemma Prepend(src: seq<string>, cursor: nat, hunks: seq<Hunk>, at: nat, rest: Script) returns (s: Script)
    requires hunks != [] && cursor <= |src| && at == Max(cursor, Start(hunks[0]))
    requires var want := OldSide(hunks[0].lines);
             at + |want| <= |src| && src[at..at + |want|] == want && Reads(rest, src, at + |want|, hunks[1..])
    ensures s == Script([src[cursor..at]] + rest.gaps, rest.tail)
    ensures Reads(s, src, cursor, hunks)
  {
    s := Script([src[cursor..at]] + rest.gaps, rest.tail);
    assert s.gaps[1..] == rest.gaps;
    Slices(src, cursor, at, at + |OldSide(hunks[0].lines)|);
  }

  lemma PrependWrites(gap: seq<string>, hunks: seq<Hunk>, rest: Script)
    requires hunks != [] && |rest.gaps| == |hunks| - 1
    ensures NewProjection([gap] + rest.gaps, hunks, rest.tail)
            == gap + (NewSide(hunks[0].lines) + NewProjection(rest.gaps, hunks[1..], rest.tail))
  {
    assert ([gap] + rest.gaps)[1..] == rest.gaps;
  }

  lemma Split3(a: seq<string>, b: seq<string>, c: seq<string>, s: seq<string>, cursor: nat)
    requires cursor <= |s| && s[cursor..] == a + (b + c)
    ensures var at := cursor + |a|;
            at + |b| <= |s| && s[cursor..at] == a && s[at..at + |b|] == b && s[at + |b|..] == c
  {
    var t := s[cursor..];
    assert t[..|a|] == a;
    assert t[|a|..][..|b|] == b;
    assert t[|a|..][|b|..] == c;
  }

  /** The first hunk runs where the script puts it. */
  lemma FirstRuns(path: string, src: seq<string>, cursor: nat, hunks: seq<Hunk>, at: nat, out: seq<string>)
    requires hunks != [] && cursor <= |src| && at == Max(cursor, Start(hunks[0]))
    requires var want := OldSide(hunks[0].lines);
             && at + |want| <= |src| && src[at..at + |want|] == want
             && ApplyFrom(path, src, at + |want|, hunks[1..]) == Ok(out)
    ensures ApplyFrom(path, src, cursor, hunks) == Ok(src[cursor..at] + (NewSide(hunks[0].lines) + out))
  {
    FirstDiffNone(src, at, OldSide(hunks[0].lines));
    HunkFits(path, src, cursor, hunks);
    Assoc(src[cursor..at], NewSide(hunks[0].lines), out);
  }

  /** Any script that reads the base is what the run does: it succeeds with what the script writes. */
  lemma {:induction false} ScriptRuns(path: string, src: seq<string>, cursor: nat, hunks: seq<Hunk>, s: Script)
    requires cursor <= |src| && Reads(s, src, cursor, hunks)
    ensures ApplyFrom(path, src, cursor, hunks) == Ok(NewProjection(s.gaps, hunks, s.tail))
    decreases |hunks|
  {
    if hunks != [] {
      var later := OldProjection(s.gaps[1..], hunks[1..], s.tail);
      Split3(s.gaps[0], OldSide(hunks[0].lines), later, src, cursor);
      var at := cursor + |s.gaps[0]|;
      ScriptRuns(path, src, at + |OldSide(hunks[0].lines)|, hunks[1..], Script(s.gaps[1..], s.tail));
      FirstRuns(path, src, cursor, hunks, at, NewProjection(s.gaps[1..], hunks[1..], s.tail));
    }
  }

  /** There is only one script. */
  lemma {:induction false} ScriptUnique(src: seq<string>, cursor: nat, hunks: seq<Hunk>, s: Script, t: Script)
    requires cursor <= |src| && Reads(s, src, cursor, hunks) && Reads(t, src, cursor, hunks)
    ensures s == t
    decreases |hunks|
  {
    if hunks != [] {
      var want := OldSide(hunks[0].lines);
      Split3(s.gaps[0], want, OldProjection(s.gaps[1..], hunks[1..], s.tail), src, cursor);
      Split3(t.gaps[0], want, OldProjection(t.gaps[1..], hunks[1..], t.tail), src, cursor);
      var next := cursor + |s.gaps[0]| + |want|;
      ScriptUnique(src, next, hunks[1..], Script(s.gaps[1..], s.tail), Script(t.gaps[1..], t.tail));
      assert s.gaps == [s.gaps[0]] + s.gaps[1..] && t.gaps == [t.gaps[0]] + t.gaps[1..];
    }
  }

  /** Hunks apply to a base exactly when an edit script of theirs reads it, and the output is what it writes. */
  lemma AppliesIff(path: string, src: seq<string>, hunks: seq<Hunk>, out: seq<string>)
    ensures ApplyFrom(path, src, 0, hunks) == Ok(out) <==>
            exists s :: Reads(s, src, 0, hunks) && out == NewProjection(s.gaps, hunks, s.tail)
  {
    if ApplyFrom(path, src, 0, hunks) == Ok(out) {
      var s := ScriptExists(path, src, 0, hunks);
    }
    forall s | Reads(s, src, 0, hunks) && out == NewProjection(s.gaps, hunks, s.tail)
      ensures ApplyFrom(path, src, 0, hunks) == Ok(out)
    {
      ScriptRuns(path, src, 0, hunks, s);
    }
  }

  // ---- line counts ----

  function Sum(hunks: seq<Hunk>, tag: char): nat
    decreases |hunks|
  {
    if hunks == [] then 0 else Tagged(hunks[0].lines, tag) + Sum(hunks[1..], tag)
  }

  lemma {:induction false} ProjectionLengths(gaps: seq<seq<string>>, hunks: seq<Hunk>, tail: seq<string>)
    requires |gaps| == |hunks|
    ensures |NewProjection(gaps, hunks, tail)| + Sum(hunks, '-') == |OldProjection(gaps, hunks, tail)| + Sum(hunks, '+')
    decreases |hunks|
  {
    if hunks != [] {
      SidesBalance(hunks[0].lines);
      ProjectionLengths(gaps[1..], hunks[1..], tail);
    }
  }

  /** Output lines are base lines plus additions minus deletions. */
  lemma LineCount(path: string, src: seq<string>, hunks: seq<Hunk>, out: seq<string>)
    requires ApplyFrom(path, src, 0, hunks) == Ok(out)
    ensures |out| == |src| + Sum(hunks, '+') - Sum(hunks, '-')
  {
    var s := ScriptExists(path, src, 0, hunks);
    ProjectionLengths(s.gaps, hunks, s.tail);
  }
}
