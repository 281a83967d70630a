// Applying hunks to a base file, checking every context and deletion line first.
module ApplyHunks {
  import opened Text
  import opened Wrappers
  import opened Diff

  datatype Mismatch =
    | PastEnd(path: string, hunk: Hunk)
    | LineDiffers(path: string, hunk: Hunk, expected: string, actual: Option<string>)

  /** The lines of a file; a final newline does not start another line. */
  function FileLines(s: string): seq<string> {
    if s == "" then []
    else
      var parts := Split(s, '\n');
      if parts[|parts| - 1] == "" then parts[..|parts| - 1] else parts
  }

  /** The text of a file from its lines. */
  function FileText(lines: seq<string>, finalNewline: bool): string {
    if lines == [] then "" else Join(lines, '\n') + if finalNewline then "\n" else ""
  }

  /** Index in the base where a hunk wants to start. */
  function Start(h: Hunk): nat {
    if h.oldStart <= 0 then 0 else h.oldStart - 1
  }

  function Max(a: nat, b: nat): nat { if a < b then b else a }

  /** The first line of `want` that the base does not show from `at` on. */
  function FirstDiff(src: seq<string>, at: nat, want: seq<string>): (r: Option<nat>)
    requires at <= |src|
    ensures var n := r.GetOr(|want|);
            && n <= |want| && at + n <= |src|
            && (forall k | 0 <= k < n :: src[at + k] == want[k])
            && (r.Some? ==> n < |want| && (at + n < |src| ==> src[at + n] != want[n]))
    decreases |want|
  {
    if want == [] then None
    else if at == |src| || src[at] != want[0] then Some(0)
    else
      match FirstDiff(src, at + 1, want[1..])
      case None => None
      case Some(m) => Some(m + 1)
  }

  function Then(front: seq<string>, r: Result<seq<string>, Mismatch>): Result<seq<string>, Mismatch> {
    match r
    case Ok(rest) => Ok(front + rest)
    case Err(e) => Err(e)
  }

  /** The new lines from base index `cursor` on, or the first mismatch. */
  function ApplyFrom(path: string, src: seq<string>, cursor: nat, hunks: seq<Hunk>): Result<seq<string>, Mismatch>
    requires cursor <= |src|
    decreases |hunks|
  {
    if hunks == [] then Ok(src[cursor..])
    else
      var h := hunks[0];
      if Start(h) > |src| then Err(PastEnd(path, h))
      else
        var at := Max(cursor, Start(h));
        var want := OldSide(h.lines);
        match FirstDiff(src, at, want)
        case Some(m) => Err(LineDiffers(path, h, want[m], if at + m < |src| then Some(src[at + m]) else None))
        case None =>
          Then(src[cursor..at] + NewSide(h.lines), ApplyFrom(path, src, at + |want|, hunks[1..]))
  }

  // ---- the "no newline at end of file" marker ----

  datatype Kind = Nothing | Plus | Minus | Context

  /** The kind of the last line that is not a marker. */
  function LastKind(body: seq<string>): Kind
    decreases |body|
  {
    if body == [] then Nothing
    else
      var last := body[|body| - 1];
      if IsMark(last) then LastKind(body[..|body| - 1])
      else if IsAdd(last) then Plus
      else if IsDel(last) then Minus
      else Context
  }

  /** Some marker follows a line of the new side. */
  function DropsNewline(body: seq<string>): bool
    decreases |body|
  {
    body != [] &&
    var front, last := body[..|body| - 1], body[|body| - 1];
    DropsNewline(front) || (IsMark(last) && LastKind(front) in {Plus, Context})
  }

  function AllLines(hunks: seq<Hunk>): seq<string>
    decreases |hunks|
  {
    if hunks == [] then [] else AllLines(hunks[..|hunks| - 1]) + hunks[|hunks| - 1].lines
  }

  /** The new file's text, or why the diff does not fit the base. */
  function Applied(path: string, base: string, hunks: seq<Hunk>): Result<string, Mismatch> {
    match ApplyFrom(path, FileLines(base), 0, hunks)
    case Ok(out) => Ok(FileText(out, !DropsNewline(AllLines(hunks))))
    case Err(e) => Err(e)
  }

  lemma ThenThen(a: seq<string>, b: seq<string>, r: Result<seq<string>, Mismatch>)
    ensures Then(a, Then(b, r)) == Then(a + b, r)
  {
    match r {
      case Ok(rest) => Assoc(a, b, rest);
      case Err(_) =>
    }
  }

  /** Copy base lines `cursor..end`, one at a time. */
  method CopyLines(src: seq<string>, out0: seq<string>, cursor0: nat, end: nat) returns (out: seq<string>, cursor: nat)
    requires cursor0 <= |src| && end <= |src|
    ensures cursor == Max(cursor0, end)
    ensures out == out0 + src[cursor0..cursor]
  {
    out, cursor := out0, cursor0;
    while cursor < end
      invariant cursor0 <= cursor <= Max(cursor0, end)
      invariant out == out0 + src[cursor0..cursor]
    {
      out := out + [src[cursor]];
      cursor := cursor + 1;
    }
  }

  /** The base shows all old lines of the hunk from `at` on. */
  ghost predicate Fits(src: seq<string>, at: nat, hunk: Hunk)
    requires at <= |src|
  {
    FirstDiff(src, at, OldSide(hunk.lines)) == None
  }

  /** The first old line the base does not show from `at` on, and what it shows instead. */
  ghost predicate Misfits(path: string, src: seq<string>, at: nat, hunk: Hunk, failure: Mismatch)
    requires at <= |src|
  {
    var want := OldSide(hunk.lines);
    match FirstDiff(src, at, want)
    case None => false
    case Some(m) => failure == LineDiffers(path, hunk, want[m], if at + m < |src| then Some(src[at + m]) else None)
  }

  /** A hunk that fits, in front of the rest. */
  lemma HunkFits(path: string, src: seq<string>, cursor: nat, hunks: seq<Hunk>)
    requires cursor <= |src| && hunks != [] && Start(hunks[0]) <= |src|
    requires FirstDiff(src, Max(cursor, Start(hunks[0])), OldSide(hunks[0].lines)) == None
    ensures var at := Max(cursor, Start(hunks[0]));
            ApplyFrom(path, src, cursor, hunks) ==
            Then(src[cursor..at] + NewSide(hunks[0].lines),
                 ApplyFrom(path, src, at + |OldSide(hunks[0].lines)|, hunks[1..]))
  {
  }

  lemma ThenNothing(r: Result<seq<string>, Mismatch>)
    ensures Then([], r) == r
  {
    if r.Ok? { assert [] + r.value == r.value; }
  }

  ghost predicate Remains(path: string, src: seq<string>, hunks: seq<Hunk>, k: nat, out: seq<string>, cursor: nat)
    requires k <= |hunks| && cursor <= |src|
  {
    ApplyFrom(path, src, 0, hunks) == Then(out, ApplyFrom(path, src, cursor, hunks[k..]))
  }

  lemma RemainsNext(path: string, src: seq<string>, hunks: seq<Hunk>, k: nat, out: seq<string>, cursor: nat,
                    front: seq<string>, next: nat)
    requires k < |hunks| && cursor <= |src| && next <= |src| && Remains(path, src, hunks, k, out, cursor)
    requires ApplyFrom(path, src, cursor, hunks[k..]) == Then(front, ApplyFrom(path, src, next, hunks[k + 1..]))
    ensures Remains(path, src, hunks, k + 1, out + front, next)
  {
    ThenThen(out, front, ApplyFrom(path, src, next, hunks[k + 1..]));
  }

  /** The state of the loop before hunk `k`: nothing decided yet, and all earlier hunks applied. */
  ghost predicate Midway(path: string, src: seq<string>, hunks: seq<Hunk>, k: nat,
                         out: seq<string>, cursor: nat, lastKind: Kind, noFinalNewline: bool)
  {
    && k <= |hunks| && cursor <= |src|
    && Remains(path, src, hunks, k, out, cursor)
    && lastKind == LastKind(AllLines(hunks[..k]))
    && noFinalNewline == DropsNewline(AllLines(hunks[..k]))
  }

  /** Reconstruct the new content by applying `hunks` onto `base`. */
  method ApplyHunks(base: string, hunks: seq<Hunk>, path: string) returns (r: Result<string, Mismatch>)
    ensures r == Applied(path, base, hunks)
  {
    var src := FileLines(base);
    var out: seq<string> := [];
    var cursor: nat := 0;
    var noFinalNewline := false;
    var lastKind := Nothing;
    ThenNothing(ApplyFrom(path, src, 0, hunks));
    assert hunks[0..] == hunks && hunks[..0] == [];
    for k := 0 to |hunks|
      invariant Midway(path, src, hunks, k, out, cursor, lastKind, noFinalNewline)
    {
      var failure;
      failure, out, cursor, lastKind, noFinalNewline :=
        ApplyHunk(path, src, hunks[k], out, cursor, lastKind, noFinalNewline, hunks, k, AllLines(hunks[..k]));
      if failure.Some? {
        return Err(failure.value);
      }
      AllLinesNext(hunks, k);
    }
    Finished(path, src, hunks, out, cursor, lastKind, noFinalNewline);
    out, cursor := CopyLines(src, out, cursor, |src|);
    if |out| == 0 { return Ok(""); }
    r := Ok(Join(out, '\n') + if noFinalNewline then "" else "\n");
  }

  lemma Finished(path: string, src: seq<string>, hunks: seq<Hunk>,
                 out: seq<string>, cursor: nat, lastKind: Kind, noFinalNewline: bool)
    requires Midway(path, src, hunks, |hunks|, out, cursor, lastKind, noFinalNewline)
    ensures ApplyFrom(path, src, 0, hunks) == Ok(out + src[cursor..|src|])
    ensures noFinalNewline == DropsNewline(AllLines(hunks))
  {
    assert hunks[|hunks|..] == [] && hunks[..|hunks|] == hunks;
    assert src[cursor..|src|] == src[cursor..];
  }

  /** After hunk `k` has been applied the hunks from `k + 1` on remain. */
  lemma Advance(path: string, src: seq<string>, hunks: seq<Hunk>, k: nat,
                out0: seq<string>, cursor0: nat, out: seq<string>, cursor: nat)
    requires k < |hunks| && cursor0 <= |src| && Remains(path, src, hunks, k, out0, cursor0)
    requires Start(hunks[k]) <= |src|
    requires var at := Max(cursor0, Start(hunks[k]));
             && Fits(src, at, hunks[k])
             && out == out0 + src[cursor0..at] + NewSide(hunks[k].lines)
             && cursor == at + |OldSide(hunks[k].lines)|
    ensures Remains(path, src, hunks, k + 1, out, cursor)
  {
    var gap, added := src[cursor0..Max(cursor0, Start(hunks[k]))], NewSide(hunks[k].lines);
    assert hunks[k..][0] == hunks[k] && hunks[k..][1..] == hunks[k + 1..];
    HunkFits(path, src, cursor0, hunks[k..]);
    RemainsNext(path, src, hunks, k, out0, cursor0, gap + added, cursor);
    Assoc(out0, gap, added);
  }

  /** A hunk that does not fit decides the outcome. */
  lemma HunkFails(path: string, src: seq<string>, cursor: nat, hunks: seq<Hunk>, k: nat, out: seq<string>,
                  failure: Mismatch)
    requires cursor <= |src| && k < |hunks| && Start(hunks[k]) <= |src| && Remains(path, src, hunks, k, out, cursor)
    requires Misfits(path, src, Max(cursor, Start(hunks[k])), hunks[k], failure)
    ensures ApplyFrom(path, src, 0, hunks) == Err(failure)
  {
    assert hunks[k..][0] == hunks[k];
  }

  lemma StartsPastEnd(path: string, src: seq<string>, cursor: nat, hunks: seq<Hunk>, k: nat, out: seq<string>)
    requires cursor <= |src| && k < |hunks| && Start(hunks[k]) > |src| && Remains(path, src, hunks, k, out, cursor)
    ensures ApplyFrom(path, src, 0, hunks) == Err(PastEnd(path, hunks[k]))
  {
    assert hunks[k..][0] == hunks[k];
  }

  lemma AllLinesNext(hunks: seq<Hunk>, k: nat)
    requires k < |hunks|
    ensures AllLines(hunks[..k + 1]) == AllLines(hunks[..k]) + hunks[k].lines
  {
    assert hunks[..k + 1][..k] == hunks[..k];
  }

  /** One hunk: copy up to its start, then apply its body. `before` is every hunk line so far. */
  method ApplyHunk(path: string, src: seq<string>, hunk: Hunk, out0: seq<string>, cursor0: nat, lastKind0: Kind,
                   noFinalNewline0: bool, ghost hunks: seq<Hunk>, ghost k: nat, ghost before: seq<string>)
    returns (failure: Option<Mismatch>, out: seq<string>, cursor: nat, lastKind: Kind, noFinalNewline: bool)
    requires k < |hunks| && hunk == hunks[k]
    requires cursor0 <= |src| && Remains(path, src, hunks, k, out0, cursor0)
    requires lastKind0 == LastKind(before) && noFinalNewline0 == DropsNewline(before)
    ensures failure.Some? ==> ApplyFrom(path, src, 0, hunks) == Err(failure.value)
    ensures failure.None? ==>
              && cursor <= |src| && Remains(path, src, hunks, k + 1, out, cursor)
              && lastKind == LastKind(before + hunk.lines) && noFinalNewline == DropsNewline(before + hunk.lines)
  {
    out, cursor, lastKind, noFinalNewline := out0, cursor0, lastKind0, noFinalNewline0;
    var start := if hunk.oldStart <= 0 then 0 else hunk.oldStart - 1;
    if start > |src| {
      StartsPastEnd(path, src, cursor0, hunks, k, out0);
      failure := Some(PastEnd(path, hunk));
      return;
    }
    out, cursor := CopyLines(src, out, cursor, start);
    failure, out, cursor, lastKind, noFinalNewline :=
      ApplyBody(path, src, hunk, out, cursor, lastKind, noFinalNewline, before);
    if failure.Some? {
      HunkFails(path, src, cursor0, hunks, k, out0, failure.value);
    } else {
      Advance(path, src, hunks, k, out0, cursor0, out, cursor);
    }
  }

  /** One hunk's body, line by line, from where the hunk starts. */
  method ApplyBody(path: string, src: seq<string>, hunk: Hunk, out0: seq<string>, cursor0: nat,
                   lastKind0: Kind, noFinalNewline0: bool, ghost before: seq<string>)
    returns (failure: Option<Mismatch>, out: seq<string>, cursor: nat, lastKind: Kind, noFinalNewline: bool)
    requires cursor0 <= |src|
    requires lastKind0 == LastKind(before) && noFinalNewline0 == DropsNewline(before)
    ensures failure.Some? ==> Misfits(path, src, cursor0, hunk, failure.value)
    ensures failure.None? ==>
              && Fits(src, cursor0, hunk)
              && out == out0 + NewSide(hunk.lines)
              && cursor == cursor0 + |OldSide(hunk.lines)| <= |src|
              && lastKind == LastKind(before + hunk.lines)
              && noFinalNewline == DropsNewline(before + hunk.lines)
  {
    failure, out, cursor, lastKind, noFinalNewline := None, out0, cursor0, lastKind0, noFinalNewline0;
    ghost var want := OldSide(hunk.lines);
    assert before + hunk.lines[..0] == before;
    for j := 0 to |hunk.lines|
      invariant failure == None
      invariant cursor == cursor0 + |OldSide(hunk.lines[..j])| <= |src|
      invariant |OldSide(hunk.lines[..j])| <= |want|
      invariant forall k | 0 <= k < cursor - cursor0 :: src[cursor0 + k] == want[k]
      invariant out == out0 + NewSide(hunk.lines[..j])
      invariant lastKind == LastKind(before + hunk.lines[..j])
      invariant noFinalNewline == DropsNewline(before + hunk.lines[..j])
    {
      var raw := hunk.lines[j];
      var text := Content(raw);
      OneMoreLine(hunk.lines, j, before);
      if IsAdd(raw) {
        out := out + [text];
        lastKind := Plus;
      } else if IsMark(raw) {
        if lastKind == Plus || lastKind == Context {
          noFinalNewline := true;
        }
      } else {
        var actual := if cursor < |src| then Some(src[cursor]) else None;
        OldSideAt(hunk.lines, j);
        if actual.None? || actual.value != text {
          MisfitAt(path, src, cursor0, hunk, cursor - cursor0, text);
          failure := Some(LineDiffers(path, hunk, text, actual));
          return;
        }
        cursor := cursor + 1;
        if IsDel(raw) {
          lastKind := Minus;
        } else {
          out := out + [actual.value];
          lastKind := Context;
        }
      }
    }
    assert hunk.lines[..|hunk.lines|] == hunk.lines;
    NoDiffer(src, cursor0, want);
  }

  lemma MisfitAt(path: string, src: seq<string>, at: nat, hunk: Hunk, m: nat, text: string)
    requires at + m <= |src| && m < |OldSide(hunk.lines)| && OldSide(hunk.lines)[m] == text
    requires forall k | 0 <= k < m :: src[at + k] == OldSide(hunk.lines)[k]
    requires at + m < |src| ==> src[at + m] != text
    ensures Misfits(path, src, at, hunk,
                    LineDiffers(path, hunk, text, if at + m < |src| then Some(src[at + m]) else None))
  {
    DiffersAt(src, at, OldSide(hunk.lines), m);
  }

  /** What one more body line adds to everything the loop keeps track of. */
  lemma OneMoreLine(body: seq<string>, j: nat, before: seq<string>)
    requires j < |body|
    ensures OldSide(body[..j + 1]) ==
            OldSide(body[..j]) + if IsAdd(body[j]) || IsMark(body[j]) then [] else [Content(body[j])]
    ensures NewSide(body[..j + 1]) ==
            NewSide(body[..j]) + if IsDel(body[j]) || IsMark(body[j]) then [] else [Content(body[j])]
    ensures |OldSide(body[..j + 1])| <= |OldSide(body)|
    ensures LastKind(before + body[..j + 1]) ==
            if IsMark(body[j]) then LastKind(before + body[..j])
            else if IsAdd(body[j]) then Plus else if IsDel(body[j]) then Minus else Context
    ensures DropsNewline(before + body[..j + 1]) <==>
            DropsNewline(before + body[..j]) || (IsMark(body[j]) && LastKind(before + body[..j]) in {Plus, Context})
  {
    assert body[..j + 1][..j] == body[..j];
    assert (before + body[..j + 1])[..|before| + j] == before + body[..j];
    assert body == body[..j + 1] + body[j + 1..];
    SideAppend(body[..j + 1], body[j + 1..], '+');
  }

  lemma OldSideAt(body: seq<string>, j: nat)
    requires j < |body| && !IsAdd(body[j]) && !IsMark(body[j])
    ensures var n := |OldSide(body[..j])|; n < |OldSide(body)| && OldSide(body)[n] == Content(body[j])
  {
    assert body == body[..j + 1] + body[j + 1..];
    SideAppend(body[..j + 1], body[j + 1..], '+');
    assert body[..j + 1][..j] == body[..j];
  }

  lemma {:induction false} DiffersAt(src: seq<string>, at: nat, want: seq<string>, m: nat)
    requires at + m <= |src| && m < |want|
    requires forall k | 0 <= k < m :: src[at + k] == want[k]
    requires at + m < |src| ==> src[at + m] != want[m]
    ensures FirstDiff(src, at, want) == Some(m)
    decreases m
  {
    if m > 0 {
      assert src[at + 0] == want[0];
      forall k | 0 <= k < m - 1 ensures src[at + 1 + k] == want[1..][k] {
        assert src[at + (k + 1)] == want[k + 1];
      }
      DiffersAt(src, at + 1, want[1..], m - 1);
    }
  }

  lemma {:induction false} NoDiffer(src: seq<string>, at: nat, want: seq<string>)
    requires at + |want| <= |src|
    requires forall k | 0 <= k < |want| :: src[at + k] == want[k]
    ensures FirstDiff(src, at, want) == None
    decreases |want|
  {
    if want != [] {
      assert src[at + 0] == want[0];
      forall k | 0 <= k < |want| - 1 ensures src[at + 1 + k] == want[1..][k] {
        assert src[at + (k + 1)] == want[k + 1];
      }
      NoDiffer(src, at + 1, want[1..]);
    }
  }
}
