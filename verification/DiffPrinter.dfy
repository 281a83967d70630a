// The unified diff git prints for a list of file changes.
module DiffPrinter {
  import opened Text
  import opened Wrappers
  import opened Diff
  import opened QuotedPath
  import opened DiffParser

  // ---- numbers ----

  function DigitChar(d: nat): char
    requires d < 10
  {
    ('0' as int + d) as char
  }

  function Digits(n: nat): (s: string)
    ensures s != "" && forall k | 0 <= k < |s| :: IsDigit(s[k])
    ensures Decimal(s) == n
  {
    if n < 10 then
      assert [DigitChar(n)][..0] == [];
      [DigitChar(n)]
    else
      var front := Digits(n / 10);
      assert (front + [DigitChar(n % 10)])[..|front|] == front;
      front + [DigitChar(n % 10)]
  }

  /** A count of 1 is left out. */
  function RangeText(start: nat, count: nat): string {
    Digits(start) + if count == 1 then "" else "," + Digits(count)
  }

  function HeaderLine(h: Hunk): string {
    "@@ -" + (RangeText(h.oldStart, h.oldLines) + (" +" + (RangeText(h.newStart, h.newLines) + " @@")))
  }

  // ---- paths ----

  predicate Quotable(c: char) {
    var n := c as int;
    n < 32 || n >= 127 || n == 34 || n == 92
  }

  predicate NeedsQuote(p: string) { exists k | 0 <= k < |p| :: Quotable(p[k]) }

  /** A path, quoted when it holds a control character, a quote, a backslash or a non-ASCII character. */
  function Shown(p: string): string {
    if NeedsQuote(p) then Quoted(Utf8All(p)) else p
  }

  /** On the "---" and "+++" lines a path with a space is closed by a tab. */
  function SideShown(p: string): string {
    Shown(p) + if !NeedsQuote(p) && ' ' in p then "\t" else ""
  }

  function Old(f: FileChange): string { f.oldPath.GetOr(f.path) }

  function GitPair(before: string, now: string): string {
    Shown("a/" + before) + (" " + Shown("b/" + now))
  }

  function GitLine(f: FileChange): string { DIFF_GIT + GitPair(Old(f), f.path) }

  // ---- files ----

  const OLD_MODE := "old mode 100644"
  const SIMILARITY := "similarity index 90%"
  const INDEX := "index 1111111..2222222"

  function ModeLines(f: FileChange): seq<string> {
    match f.change
    case Add => ["new file mode " + f.mode.GetOr("")]
    case Delete => ["deleted file mode 100644"]
    case _ => if f.mode.Some? then [OLD_MODE, NEW_MODE + f.mode.value] else []
  }

  function NameLines(f: FileChange): seq<string> {
    match f.change
    case Rename => [SIMILARITY, RENAME_FROM + Shown(Old(f)), RENAME_TO + Shown(f.path)]
    case Copy => [SIMILARITY, COPY_FROM + Shown(Old(f)), COPY_TO + Shown(f.path)]
    case _ => []
  }

  function BinaryLines(f: FileChange): seq<string> {
    if f.binary then [INDEX, "Binary files " + (Shown("a/" + Old(f)) + (" and " + (Shown("b/" + f.path) + " differ")))]
    else []
  }

  function SideLines(f: FileChange): seq<string> {
    if f.hunks == [] then []
    else [INDEX,
          "--- " + (if f.change == Add then "/dev/null" else SideShown("a/" + Old(f))),
          "+++ " + (if f.change == Delete then "/dev/null" else SideShown("b/" + f.path))]
  }

  function HunkLines(hunks: seq<Hunk>): seq<string>
    decreases |hunks|
  {
    if hunks == [] then [] else [HeaderLine(hunks[0])] + (hunks[0].lines + HunkLines(hunks[1..]))
  }

  /** The extended header after the "diff --git" line. */
  function Preamble(f: FileChange): seq<string> {
    ModeLines(f) + (NameLines(f) + (BinaryLines(f) + SideLines(f)))
  }

  function FileBlock(f: FileChange): seq<string> {
    [GitLine(f)] + (Preamble(f) + HunkLines(f.hunks))
  }

  function Blocks(files: seq<FileChange>): seq<string>
    decreases |files|
  {
    if files == [] then [] else FileBlock(files[0]) + Blocks(files[1..])
  }

  function Print(files: seq<FileChange>): string { Lines(Blocks(files)) }

  // ---- what git produces ----

  predicate PrintableLine(raw: string) {
    raw != "" && raw[0] in {'+', '-', ' ', '\\'} && '\n' !in raw
  }

  ghost predicate PrintableHunk(h: Hunk) {
    Counted(h) && forall k | 0 <= k < |h.lines| :: PrintableLine(h.lines[k])
  }

  predicate ModeWord(m: string) { m != "" && forall k | 0 <= k < |m| :: !IsSpace(m[k]) }

  /** A file change as git describes one: names, modes and counts fit together. */
  ghost predicate WellFormed(f: FileChange) {
    && f.path != ""
    && (if f.change in {Rename, Copy} then f.oldPath.Some? && f.oldPath.value !in {"", f.path} else f.oldPath == None)
    && (f.change == Add ==> f.mode.Some?) && (f.change == Delete ==> f.mode == None)
    && (f.mode.Some? ==> ModeWord(f.mode.value))
    && (f.binary ==> f.hunks == [])
    && (forall k | 0 <= k < |f.hunks| :: PrintableHunk(f.hunks[k]))
    && f.additions == HunkAdditions(f.hunks) && f.deletions == HunkDeletions(f.hunks)
  }

  ghost predicate AllWellFormed(files: seq<FileChange>) {
    forall k | 0 <= k < |files| :: WellFormed(files[k])
  }
}
