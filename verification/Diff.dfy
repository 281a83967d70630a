// Hunks, and what their body lines say about the two sides of a file.
module Diff {
  import opened Wrappers

  datatype Hunk = Hunk(oldStart: nat, oldLines: nat, newStart: nat, newLines: nat, lines: seq<string>)

  datatype Change = Add | Modify | Delete | Rename | Copy

  datatype FileChange = FileChange(path: string, oldPath: Option<string>, change: Change, binary: bool,
                                   additions: nat, deletions: nat, hunks: seq<Hunk>, mode: Option<string>)

  predicate IsAdd(raw: string) { HasTag(raw, '+') }
  predicate IsDel(raw: string) { HasTag(raw, '-') }
  predicate IsMark(raw: string) { HasTag(raw, '\\') }

  function Content(raw: string): string {
    if raw == "" then "" else raw[1..]
  }

  predicate HasTag(raw: string, tag: char) { raw != "" && raw[0] == tag }

  /** The lines of a hunk body, in order, without the markers and the lines tagged `hidden`. */
  function Side(body: seq<string>, hidden: char): seq<string>
    decreases |body|
  {
    if body == [] then []
    else
      var last := body[|body| - 1];
      Side(body[..|body| - 1], hidden) + if HasTag(last, hidden) || IsMark(last) then [] else [Content(last)]
  }

  function OldSide(body: seq<string>): seq<string> { Side(body, '+') }
  function NewSide(body: seq<string>): seq<string> { Side(body, '-') }

  function Tagged(body: seq<string>, tag: char): nat
    decreases |body|
  {
    if body == [] then 0
    else Tagged(body[..|body| - 1], tag) + if HasTag(body[|body| - 1], tag) then 1 else 0
  }

  function Added(body: seq<string>): nat { Tagged(body, '+') }
  function Deleted(body: seq<string>): nat { Tagged(body, '-') }

  /** A hunk whose header counts are the counts of its body. */
  predicate Counted(h: Hunk) {
    h.oldLines == |OldSide(h.lines)| && h.newLines == |NewSide(h.lines)|
  }

  /** Both sides share the context lines. */
  lemma {:induction false} SidesBalance(body: seq<string>)
    ensures |NewSide(body)| + Deleted(body) == |OldSide(body)| + Added(body)
    decreases |body|
  {
    if body != [] {
      SidesBalance(body[..|body| - 1]);
    }
  }

  lemma {:induction false} SideAppend(a: seq<string>, b: seq<string>, hidden: char)
    ensures Side(a + b, hidden) == Side(a, hidden) + Side(b, hidden)
    decreases |b|
  {
    if b == [] {
      assert a + b == a;
    } else {
      assert (a + b)[..|a + b| - 1] == a + b[..|b| - 1];
      SideAppend(a, b[..|b| - 1], hidden);
    }
  }

  lemma {:induction false} TaggedAppend(a: seq<string>, b: seq<string>, tag: char)
    ensures Tagged(a + b, tag) == Tagged(a, tag) + Tagged(b, tag)
    decreases |b|
  {
    if b == [] {
      assert a + b == a;
    } else {
      assert (a + b)[..|a + b| - 1] == a + b[..|b| - 1];
      TaggedAppend(a, b[..|b| - 1], tag);
    }
  }

  /** A body of a single added line. */
  lemma OneAdded(line: string)
    requires IsAdd(line)
    ensures OldSide([line]) == [] && NewSide([line]) == [Content(line)]
    ensures Added([line]) == 1 && Deleted([line]) == 0
  {
    var body := [line];
    assert body[..|body| - 1] == [];
    assert Side(body, '+') == Side([], '+') + [];
    assert Side(body, '-') == Side([], '-') + [Content(line)];
    assert Tagged(body, '+') == Tagged([], '+') + 1 && Tagged(body, '-') == Tagged([], '-');
  }

  function HunkAdditions(hunks: seq<Hunk>): nat
    decreases |hunks|
  {
    if hunks == [] then 0 else HunkAdditions(hunks[..|hunks| - 1]) + Added(hunks[|hunks| - 1].lines)
  }

  function HunkDeletions(hunks: seq<Hunk>): nat
    decreases |hunks|
  {
    if hunks == [] then 0 else HunkDeletions(hunks[..|hunks| - 1]) + Deleted(hunks[|hunks| - 1].lines)
  }
}
