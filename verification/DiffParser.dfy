// Parsing unified diffs in git's format into file changes.
module DiffParser {
  import opened Text
  import opened Wrappers
  import opened Diff
  import opened QuotedPath

  /** UTF-8 decoding of a path's bytes. */
  type Decoder = seq<byte> -> string

  datatype Detail = EndsEarly | TooManyTagged | TooManyLines

  datatype Malformed = Malformed(path: string, header: Hunk, detail: Detail)

  /** What has been read of the current file. For the two sides, `Some(None)` is /dev/null. */
  datatype FileState = FileState(change: Change, binary: bool, additions: nat, deletions: nat, hunks: seq<Hunk>,
                                 aPath: Option<string>, bPath: Option<string>,
                                 minus: Option<Option<string>>, plus: Option<Option<string>>,
                                 oldPath: Option<string>, newPath: Option<string>, mode: Option<string>)

  // ---- hunk headers: ^@@ -(\d+)(?:,(\d+))? \+(\d+)(?:,(\d+))? @@ ----

  function DigitRun(s: string): (n: nat)
    ensures n <= |s|
    ensures forall k | 0 <= k < n :: IsDigit(s[k])
    ensures n < |s| ==> !IsDigit(s[n])
  {
    if s == "" || !IsDigit(s[0]) then 0 else 1 + DigitRun(s[1..])
  }

  function DigitValue(c: char): nat
    requires IsDigit(c)
  {
    c as nat - '0' as nat
  }

  function Decimal(s: string): nat
    requires forall k | 0 <= k < |s| :: IsDigit(s[k])
  {
    if s == "" then 0 else Decimal(s[..|s| - 1]) * 10 + DigitValue(s[|s| - 1])
  }

  /** A number and the text after it. */
  function ReadNumber(s: string): Option<(nat, string)> {
    var n := DigitRun(s);
    if n == 0 then None else Some((Decimal(s[..n]), s[n..]))
  }

  datatype Range = Range(start: nat, count: nat, after: string)

  /** `start` or `start,count`; the count defaults to 1. */
  function ReadRange(s: string): Option<Range> {
    var (start, after) :- ReadNumber(s);
    if after != "" && after[0] == ',' then
      var (count, rest) :- ReadNumber(after[1..]);
      Some(Range(start, count, rest))
    else Some(Range(start, 1, after))
  }

  /** The numbers of a hunk header line, with no body lines yet. */
  function ReadHeader(line: string): Option<Hunk> {
    if !StartsWith(line, "@@ -") then None
    else
      var before :- ReadRange(line[4..]);
      if !StartsWith(before.after, " +") then None
      else
        var now :- ReadRange(before.after[2..]);
        if !StartsWith(now.after, " @@") then None
        else Some(Hunk(before.start, before.count, now.start, now.count, []))
  }

  // ---- hunk bodies ----

  /** A line that can only come after the body. */
  predicate Stops(line: string) {
    line == "" || StartsWith(line, "diff --git ") || ReadHeader(line).Some?
  }

  function MarkRun(lines: seq<string>): (n: nat)
    ensures n <= |lines|
    ensures forall k | 0 <= k < n :: IsMark(lines[k])
    ensures n < |lines| ==> !IsMark(lines[n])
  {
    if lines == [] || !IsMark(lines[0]) then 0 else 1 + MarkRun(lines[1..])
  }

  predicate Surplus(lines: seq<string>) {
    lines != [] && (HasTag(lines[0], '+') || HasTag(lines[0], '-') || HasTag(lines[0], ' '))
  }

  /** How much of the declared old and new line counts a body line uses up. */
  function OldCost(raw: string): nat { if IsAdd(raw) || IsMark(raw) then 0 else 1 }
  function NewCost(raw: string): nat { if IsDel(raw) || IsMark(raw) then 0 else 1 }

  type BodyRead = Result<(seq<string>, seq<string>), Detail>

  function Consed(front: seq<string>, r: BodyRead): BodyRead {
    match r
    case Ok((body, rest)) => Ok((front + body, rest))
    case Err(d) => Err(d)
  }

  /** The body of a hunk that still has `oldRem` and `newRem` lines to show, and the lines after it. */
  function ReadBody(lines: seq<string>, oldRem: nat, newRem: nat): (r: BodyRead)
    ensures r.Ok? ==> |r.value.1| <= |lines|
    decreases |lines|
  {
    if oldRem == 0 && newRem == 0 then
      var m := MarkRun(lines);
      if Surplus(lines[m..]) then Err(TooManyLines) else Ok((lines[..m], lines[m..]))
    else if lines == [] || Stops(lines[0]) then Err(EndsEarly)
    else if OldCost(lines[0]) > oldRem || NewCost(lines[0]) > newRem then Err(TooManyTagged)
    else Consed([lines[0]], ReadBody(lines[1..], oldRem - OldCost(lines[0]), newRem - NewCost(lines[0])))
  }

  lemma ConsedTwice(a: seq<string>, b: seq<string>, r: BodyRead)
    ensures Consed(a, Consed(b, r)) == Consed(a + b, r)
  {
    match r {
      case Ok((body, _)) => assert a + (b + body) == a + b + body;
      case Err(_) =>
    }
  }

  /** One more body line, or one too many. */
  lemma BodyStep(lines: seq<string>, next: nat, body: seq<string>, oldRem: nat, newRem: nat)
    requires next < |lines| && !Stops(lines[next]) && (oldRem > 0 || newRem > 0)
    ensures var raw := lines[next];
            Consed(body, ReadBody(lines[next..], oldRem, newRem)) ==
            if OldCost(raw) > oldRem || NewCost(raw) > newRem then Err(TooManyTagged)
            else Consed(body + [raw], ReadBody(lines[next + 1..], oldRem - OldCost(raw), newRem - NewCost(raw)))
  {
    var raw := lines[next];
    assert lines[next..][0] == raw && lines[next..][1..] == lines[next + 1..];
    if OldCost(raw) <= oldRem && NewCost(raw) <= newRem {
      ConsedTwice(body, [raw], ReadBody(lines[next + 1..], oldRem - OldCost(raw), newRem - NewCost(raw)));
    }
  }

  /** All lines are shown: markers, then something that does not look like more of the body. */
  lemma BodyEnd(lines: seq<string>, at: nat, body: seq<string>)
    requires at <= |lines|
    ensures var next := at + MarkRun(lines[at..]);
            Consed(body, ReadBody(lines[at..], 0, 0)) ==
            if Surplus(lines[next..]) then Err(TooManyLines) else Ok((body + lines[at..next], lines[next..]))
  {
    var m := MarkRun(lines[at..]);
    assert lines[at..][..m] == lines[at..at + m] && lines[at..][m..] == lines[at + m..];
  }

  /** Trailing markers, one at a time. */
  method PullMarks(lines: seq<string>, from: nat, front: seq<string>) returns (body: seq<string>, next: nat)
    requires from <= |lines|
    ensures next == from + MarkRun(lines[from..])
    ensures body == front + lines[from..next]
  {
    body, next := front, from;
    while next < |lines| && IsMark(lines[next])
      invariant from <= next <= |lines|
      invariant body == front + lines[from..next]
      invariant from + MarkRun(lines[from..]) == next + MarkRun(lines[next..])
    {
      assert lines[next..][1..] == lines[next + 1..];
      body := body + [lines[next]];
      next := next + 1;
    }
  }

  lemma ConsedNothing(r: BodyRead)
    ensures Consed([], r) == r
  {
    if r.Ok? { assert [] + r.value.0 == r.value.0; }
  }

  lemma CountOne(body: seq<string>, raw: string, tag: char)
    ensures Tagged(body + [raw], tag) == Tagged(body, tag) + if HasTag(raw, tag) then 1 else 0
  {
    assert (body + [raw])[..|body|] == body;
  }

  /** Body lines until both declared counts are used up. */
  method CountedLines(lines: seq<string>, from: nat, oldLines: nat, newLines: nat)
    returns (failure: Option<Detail>, body: seq<string>, next: nat, additions: nat, deletions: nat)
    requires from <= |lines|
    ensures failure.Some? ==> ReadBody(lines[from..], oldLines, newLines) == Err(failure.value)
    ensures failure.None? ==>
              && from <= next <= |lines| && additions == Added(body) && deletions == Deleted(body)
              && ReadBody(lines[from..], oldLines, newLines) == Consed(body, ReadBody(lines[next..], 0, 0))
  {
    var oldRem: int, newRem: int := oldLines, newLines;
    failure, body, next, additions, deletions := None, [], from, 0, 0;
    ghost var whole := ReadBody(lines[from..], oldLines, newLines);
    ConsedNothing(whole);
    while oldRem > 0 || newRem > 0
      invariant from <= next <= |lines| && oldRem >= 0 && newRem >= 0
      invariant whole == Consed(body, ReadBody(lines[next..], oldRem, newRem))
      invariant additions == Added(body) && deletions == Deleted(body)
      decreases |lines| - next
    {
      if next == |lines| || Stops(lines[next]) {
        failure := Some(EndsEarly);
        return;
      }
      var raw := lines[next];
      BodyStep(lines, next, body, oldRem, newRem);
      CountOne(body, raw, '+');
      CountOne(body, raw, '-');
      next := next + 1;
      body := body + [raw];
      if IsAdd(raw) {
        additions := additions + 1;
        newRem := newRem - 1;
      } else if IsDel(raw) {
        deletions := deletions + 1;
        oldRem := oldRem - 1;
      } else if !IsMark(raw) {
        oldRem := oldRem - 1;
        newRem := newRem - 1;
      }
      if oldRem < 0 || newRem < 0 {
        failure := Some(TooManyTagged);
        return;
      }
    }
  }

  /** The markers after the counted lines, and whether more of the body seems to follow them. */
  method EndOfBody(lines: seq<string>, at: nat, counted: seq<string>)
    returns (surplus: bool, body: seq<string>, next: nat)
    requires at <= |lines|
    ensures at <= next <= |lines|
    ensures Consed(counted, ReadBody(lines[at..], 0, 0)) ==
            if surplus then Err(TooManyLines) else Ok((body, lines[next..]))
    ensures Added(body) == Added(counted) && Deleted(body) == Deleted(counted)
  {
    BodyEnd(lines, at, counted);
    body, next := PullMarks(lines, at, counted);
    surplus := next < |lines| && (HasTag(lines[next], '+') || HasTag(lines[next], '-') || HasTag(lines[next], ' '));
    assert surplus <==> Surplus(lines[next..]);
    MarksCountNothing(counted, lines[at..next]);
  }

  /** Read the hunk whose body starts at `from`. */
  method ConsumeHunk(cur: FileState, lines: seq<string>, header: Hunk, from: nat)
    returns (r: Result<FileState, Malformed>, next: nat)
    requires from <= |lines|
    ensures match ReadBody(lines[from..], header.oldLines, header.newLines)
            case Err(d) => r == Err(Malformed(ErrorPath(cur), header, d))
            case Ok((body, rest)) =>
              r == Ok(WithHunk(cur, header.(lines := body))) && from <= next <= |lines| && lines[next..] == rest
  {
    var failure, counted, at, additions, deletions := CountedLines(lines, from, header.oldLines, header.newLines);
    if failure.Some? {
      return Err(Malformed(ErrorPath(cur), header, failure.value)), at;
    }
    var surplus, body;
    surplus, body, next := EndOfBody(lines, at, counted);
    if surplus {
      return Err(Malformed(ErrorPath(cur), header, TooManyLines)), next;
    }
    r := Ok(cur.(additions := cur.additions + additions, deletions := cur.deletions + deletions,
                 hunks := cur.hunks + [header.(lines := body)]));
  }

  lemma {:induction false} MarksCountNothing(body: seq<string>, marks: seq<string>)
    requires forall k | 0 <= k < |marks| :: IsMark(marks[k])
    ensures Added(body + marks) == Added(body) && Deleted(body + marks) == Deleted(body)
    ensures OldSide(body + marks) == OldSide(body) && NewSide(body + marks) == NewSide(body)
    decreases |marks|
  {
    if marks == [] {
      assert body + marks == body;
    } else {
      assert (body + marks)[..|body + marks| - 1] == body + marks[..|marks| - 1];
      MarksCountNothing(body, marks[..|marks| - 1]);
    }
  }

  // ---- paths ----

  function StripAb(p: string): string {
    if StartsWith(p, "a/") || StartsWith(p, "b/") then p[2..] else p
  }

  /** Cut a trailing tab field and undo the quoting. */
  function UnquotePath(token: string, dec: Decoder): string {
    var t := Split(token, '\t')[0];
    if t != "" && t[0] == '"' then
      match Unquote(t[1..])
      case Some((bytes, _)) => dec(bytes)
      case None => t
    else t
  }

  predicate IsLineTerminator(c: char) { c == '\n' || c == '\r' || c == '\U{2028}' || c == '\U{2029}' }

  predicate OneLine(s: string) { forall k | 0 <= k < |s| :: !IsLineTerminator(s[k]) }

  /** The last " b/" with something on both sides, below index `top`. */
  function LastDivider(r: string, top: nat): (i: Option<nat>)
    ensures i.Some? ==> 1 <= i.value < top && i.value + 3 < |r| && At(r, " b/", i.value)
    ensures forall k | (if i.Some? then i.value + 1 else 1) <= k < top && k + 3 < |r| :: !At(r, " b/", k)
  {
    if top <= 1 then None
    else if top + 2 < |r| && At(r, " b/", top - 1) then Some(top - 1)
    else LastDivider(r, top - 1)
  }

  function DropSpaces(s: string): string {
    if s != "" && s[0] == ' ' then DropSpaces(s[1..]) else s
  }

  /** The two paths of a "diff --git" line: quoted, or ^a/(.+) b/(.+)$. */
  function GitPaths(rest: string, dec: Decoder): Option<(string, string)> {
    if StartsWith(rest, "\"") then
      var (first, after) :- Unquote(rest[1..]);
      var second := DropSpaces(after);
      if StartsWith(second, "\"") then
        var (bytes, _) :- Unquote(second[1..]);
        Some((StripAb(dec(first)), StripAb(dec(bytes))))
      else Some((StripAb(dec(first)), StripAb(second)))
    else if StartsWith(rest, "a/") && OneLine(rest[2..]) then
      var i :- LastDivider(rest[2..], |rest|);
      Some((rest[2..2 + i], rest[2 + i + 3..]))
    else None
  }

  /** The last word of a line. */
  function LastWord(s: string): string
    decreases |s|
  {
    if s == "" || IsSpace(s[|s| - 1]) then "" else LastWord(s[..|s| - 1]) + [s[|s| - 1]]
  }

  // ---- files ----

  const NEW_FILE_MODE := "new file mode"
  const NEW_MODE := "new mode "
  const DELETED_FILE_MODE := "deleted file mode"
  const RENAME_FROM := "rename from "
  const RENAME_TO := "rename to "
  const COPY_FROM := "copy from "
  const COPY_TO := "copy to "
  const DIFF_GIT := "diff --git "

  datatype LineKind =
    | NewFileMode | NewMode | DeletedFileMode | RenameFrom | RenameTo | CopyFrom | CopyTo
    | Binary | MinusFile | PlusFile | Header(header: Hunk) | Ignored

  function Classify(line: string): LineKind {
    if StartsWith(line, NEW_FILE_MODE) then NewFileMode
    else if StartsWith(line, NEW_MODE) then NewMode
    else if StartsWith(line, DELETED_FILE_MODE) then DeletedFileMode
    else if StartsWith(line, RENAME_FROM) then RenameFrom
    else if StartsWith(line, RENAME_TO) then RenameTo
    else if StartsWith(line, COPY_FROM) then CopyFrom
    else if StartsWith(line, COPY_TO) then CopyTo
    else if StartsWith(line, "Binary files ") || StartsWith(line, "GIT binary patch") then Binary
    else if StartsWith(line, "--- ") then MinusFile
    else if StartsWith(line, "+++ ") then PlusFile
    else
      match ReadHeader(line)
      case Some(h) => Header(h)
      case None => Ignored
  }

  /** A side's path, or nothing for /dev/null. */
  function SidePath(p: string, dec: Decoder): Option<string> {
    if p == "/dev/null" then None else Some(StripAb(UnquotePath(p, dec)))
  }

  /** What a line other than "diff --git" and a hunk header says about the current file. */
  function Updated(cur: FileState, line: string, dec: Decoder): FileState {
    match Classify(line)
    case NewFileMode => cur.(change := Add, mode := Some(LastWord(Trim(line))))
    case NewMode => cur.(mode := Some(LastWord(Trim(line))))
    case DeletedFileMode => cur.(change := Delete)
    case RenameFrom => cur.(change := Rename, oldPath := Some(UnquotePath(line[|RENAME_FROM|..], dec)))
    case RenameTo => cur.(change := Rename, newPath := Some(UnquotePath(line[|RENAME_TO|..], dec)))
    case CopyFrom => cur.(change := Copy, oldPath := Some(UnquotePath(line[|COPY_FROM|..], dec)))
    case CopyTo => cur.(change := Copy, newPath := Some(UnquotePath(line[|COPY_TO|..], dec)))
    case Binary => cur.(binary := true)
    case MinusFile => cur.(minus := Some(SidePath(line[4..], dec)))
    case PlusFile => cur.(plus := Some(SidePath(line[4..], dec)))
    case _ => cur
  }

  function NewFile(line: string, dec: Decoder): FileState
    requires StartsWith(line, DIFF_GIT)
  {
    var blank := FileState(Modify, false, 0, 0, [], None, None, None, None, None, None, None);
    match GitPaths(line[|DIFF_GIT|..], dec)
    case Some((a, b)) => blank.(aPath := Some(a), bPath := Some(b))
    case None => blank
  }

  function WithHunk(cur: FileState, hunk: Hunk): FileState {
    cur.(additions := cur.additions + Added(hunk.lines), deletions := cur.deletions + Deleted(hunk.lines),
         hunks := cur.hunks + [hunk])
  }

  function OrElse<T>(a: Option<T>, b: Option<T>): Option<T> { if a.Some? then a else b }

  /** The path an error message names. */
  function ErrorPath(cur: FileState): string {
    OrElse(cur.bPath, OrElse(cur.newPath, cur.aPath)).GetOr("(unknown)")
  }

  function Finalize(f: FileState): FileChange {
    var newSide := OrElse(f.newPath, OrElse(f.plus.GetOr(None), f.bPath)).GetOr("");
    var oldSide := OrElse(f.oldPath, OrElse(f.minus.GetOr(None), f.aPath));
    var change :=
      if f.plus == Some(None) then Delete
      else if f.minus == Some(None) && f.change == Modify then Add
      else f.change;
    var path := if change == Delete then oldSide.GetOr(newSide) else newSide;
    var origin :=
      if change in {Rename, Copy} && oldSide.Some? && oldSide.value != "" && oldSide.value != path then oldSide
      else None;
    FileChange(path, origin, change, f.binary, f.additions, f.deletions, f.hunks, f.mode)
  }

  function Flush(cur: Option<FileState>): seq<FileChange> {
    match cur
    case Some(f) => [Finalize(f)]
    case None => []
  }

  type Parsed = Result<seq<FileChange>, Malformed>

  function Following(files: seq<FileChange>, r: Parsed): Parsed {
    match r
    case Ok(more) => Ok(files + more)
    case Err(e) => Err(e)
  }

  /** The files of the remaining lines, when `cur` is the file being read. */
  function ParseFrom(lines: seq<string>, cur: Option<FileState>, dec: Decoder): Parsed
    decreases |lines|
  {
    if lines == [] then Ok(Flush(cur))
    else if StartsWith(lines[0], DIFF_GIT) then
      Following(Flush(cur), ParseFrom(lines[1..], Some(NewFile(lines[0], dec)), dec))
    else if cur.None? then ParseFrom(lines[1..], None, dec)
    else
      match Classify(lines[0])
      case Header(h) =>
        (match ReadBody(lines[1..], h.oldLines, h.newLines)
         case Err(d) => Err(Malformed(ErrorPath(cur.value), h, d))
         case Ok((body, rest)) => ParseFrom(rest, Some(WithHunk(cur.value, h.(lines := body))), dec))
      case _ => ParseFrom(lines[1..], Some(Updated(cur.value, lines[0], dec)), dec)
  }

  /** A line without its one trailing carriage return. */
  function StripCr(line: string): string {
    if line != "" && line[|line| - 1] == '\r' then line[..|line| - 1] else line
  }

  function StripAll(lines: seq<string>): seq<string> {
    seq(|lines|, i requires 0 <= i < |lines| => StripCr(lines[i]))
  }

  function Parse(diff: string, dec: Decoder): Parsed {
    ParseFrom(StripAll(Split(diff, '\n')), None, dec)
  }

  lemma FollowingTwice(a: seq<FileChange>, b: seq<FileChange>, r: Parsed)
    ensures Following(a, Following(b, r)) == Following(a + b, r)
  {
    match r {
      case Ok(more) => assert a + (b + more) == a + b + more;
      case Err(_) =>
    }
  }

  lemma FollowingNothing(r: Parsed)
    ensures Following([], r) == r
  {
    if r.Ok? { assert [] + r.value == r.value; }
  }

  /** Full parse including hunks. */
  method ParseUnifiedDiffDetailed(diff: string, dec: Decoder) returns (r: Parsed)
    ensures r == Parse(diff, dec)
  {
    var lines := StripAll(Split(diff, '\n'));
    var files: seq<FileChange> := [];
    var cur: Option<FileState> := None;
    var i := 0;
    assert lines[0..] == lines;
    FollowingNothing(Parse(diff, dec));
    while i < |lines|
      invariant i <= |lines|
      invariant Parse(diff, dec) == Following(files, ParseFrom(lines[i..], cur, dec))
      decreases |lines| - i
    {
      var line := lines[i];
      assert lines[i..][0] == line && lines[i..][1..] == lines[i + 1..];
      if StartsWith(line, DIFF_GIT) {
        FollowingTwice(files, Flush(cur), ParseFrom(lines[i + 1..], Some(NewFile(line, dec)), dec));
        files := files + Flush(cur);
        cur := Some(NewFile(line, dec));
        i := i + 1;
      } else if cur.None? {
        i := i + 1;
      } else {
        var kind := Classify(line);
        if kind.Header? {
          var read, next := ConsumeHunk(cur.value, lines, kind.header, i + 1);
          if read.Err? {
            return Err(read.error);
          }
          cur := Some(read.value);
          i := next;
        } else {
          cur := Some(Updated(cur.value, line, dec));
          i := i + 1;
        }
      }
    }
    assert lines[i..] == [];
    r := Ok(files + Flush(cur));
  }
}
