// The diff policy: which parsed diffs are applied, held for a human, or refused.
module DiffPolicy {
  import opened Text
  import opened Wrappers
  import opened Diff
  import opened DiffParser
  import opened ParserSoundness
  import opened Numstat

  datatype Severity = Gate | Deny
  datatype Decision = Allow | HoldForGate | Refuse

  datatype Finding = Finding(ruleId: string, severity: Severity, paths: seq<string>)
  datatype Verdict = Verdict(decision: Decision, findings: seq<Finding>)

  datatype Overrides = Overrides(maxFiles: Option<int>, maxAddedLines: Option<int>,
                                 extraProtected: seq<string>, unprotected: seq<string>)

  /** The scanner, the glob matcher and the built-in glob and manifest lists. */
  datatype Detectors = Detectors(secrets: (string, seq<string>) -> bool, matches: (string, seq<string>) -> bool,
                                 protected: seq<string>, isManifest: string -> bool)

  datatype Outbound = Outbound(prBody: string, comments: seq<string>, jobTokens: seq<string>)

  const DEFAULT_MAX_FILES := 50
  const DEFAULT_MAX_ADDED_LINES := 5000

  // ---- added content ----

  function PlusLines(lines: seq<string>): seq<string>
    decreases |lines|
  {
    if lines == [] then []
    else
      var last := lines[|lines| - 1];
      PlusLines(lines[..|lines| - 1]) + if HasTag(last, '+') then [last[1..]] else []
  }

  function AddedOfHunks(hunks: seq<Hunk>): seq<string>
    decreases |hunks|
  {
    if hunks == [] then [] else AddedOfHunks(hunks[..|hunks| - 1]) + PlusLines(hunks[|hunks| - 1].lines)
  }

  /** The lines a file's hunks add, without their tags. */
  method AddedLinesOf(f: FileChange) returns (out: seq<string>)
    ensures out == AddedOfHunks(f.hunks)
  {
    out := [];
    for k := 0 to |f.hunks|
      invariant out == AddedOfHunks(f.hunks[..k])
    {
      var lines := f.hunks[k].lines;
      ghost var before := out;
      assert f.hunks[..k + 1][..k] == f.hunks[..k];
      for j := 0 to |lines|
        invariant out == before + PlusLines(lines[..j])
      {
        assert lines[..j + 1][..j] == lines[..j];
        if HasTag(lines[j], '+') {
          out := out + [lines[j][1..]];
        }
      }
      assert lines[..|lines|] == lines;
    }
    assert f.hunks[..|f.hunks|] == f.hunks;
  }

  function AddedOf(files: seq<FileChange>): seq<string>
    decreases |files|
  {
    if files == [] then [] else AddedOf(files[..|files| - 1]) + AddedOfHunks(files[|files| - 1].hunks)
  }

  function Glued(parts: seq<string>): string
    decreases |parts|
  {
    if parts == [] then "" else parts[0] + Glued(parts[1..])
  }

  function WithoutSpace(s: string): string {
    if s == "" then "" else (if IsSpace(s[0]) then "" else [s[0]]) + WithoutSpace(s[1..])
  }

  // ---- paths ----

  function Slashes(p: string): string {
    if p == "" then "" else [if p[0] == '\\' then '/' else p[0]] + Slashes(p[1..])
  }

  function NormalizePath(p: string): string {
    var q := Slashes(p);
    if StartsWith(q, "./") then q[2..] else q
  }

  function Lower(s: string): string {
    if s == "" then ""
    else [if 'A' <= s[0] <= 'Z' then (s[0] as int + 32) as char else s[0]] + Lower(s[1..])
  }

  predicate IsGitInternals(p: string) {
    var segments := Split(NormalizePath(p), '/');
    exists k | 0 <= k < |segments| :: Lower(segments[k]) == ".git" || segments[k] == ".."
  }

  function PathsOf(f: FileChange): seq<string> {
    [f.path] + if f.oldPath.Some? && f.oldPath.value !in {"", f.path} then [f.oldPath.value] else []
  }

  function AllPaths(files: seq<FileChange>): seq<string>
    decreases |files|
  {
    if files == [] then [] else PathsOf(files[0]) + AllPaths(files[1..])
  }

  function Only(paths: seq<string>, keep: string -> bool): seq<string>
    decreases |paths|
  {
    if paths == [] then [] else (if keep(paths[0]) then [paths[0]] else []) + Only(paths[1..], keep)
  }

  /** Links whose target lies in git's own files or outside the tree. */
  function BadLinks(files: seq<FileChange>): seq<string>
    decreases |files|
  {
    if files == [] then []
    else
      var f := files[0];
      var target := Trim(Glued(AddedOfHunks(f.hunks)));
      (if f.mode == Some("120000") && target != "" && IsGitInternals(target) then [f.path + " → " + target] else [])
      + BadLinks(files[1..])
  }

  // ---- the rules ----

  function When(fires: bool, finding: Finding): seq<Finding> { if fires then [finding] else [] }

  function FileTotals(files: seq<FileChange>): Stats
    decreases |files|
  {
    if files == [] then Stats(0, 0, 0)
    else
      var (t, f) := (FileTotals(files[..|files| - 1]), files[|files| - 1]);
      Stats(t.files + 1, t.additions + f.additions, t.deletions + f.deletions)
  }

  /** Something outbound looks like a secret. */
  predicate Leaks(files: seq<FileChange>, out: Outbound, d: Detectors) {
    var added := AddedOf(files);
    || d.secrets(Join(added, '\n'), out.jobTokens)
    || d.secrets(WithoutSpace(Glued(added)), out.jobTokens)
    || (out.prBody != "" && d.secrets(out.prBody, out.jobTokens))
    || exists k | 0 <= k < |out.comments| :: d.secrets(out.comments[k], out.jobTokens)
  }

  ghost predicate All(findings: seq<Finding>, s: Severity) {
    forall k | 0 <= k < |findings| :: findings[k].severity == s
  }

  /** The rules nobody can override. */
  function Denials(files: seq<FileChange>, out: Outbound, d: Detectors): (r: seq<Finding>)
    ensures All(r, Deny)
  {
    var internals := Only(AllPaths(files), IsGitInternals) + BadLinks(files);
    When(internals != [], Finding("git-internals", Deny, internals))
    + When(Leaks(files, out, d), Finding("credential-content", Deny, []))
  }

  function CiGate(files: seq<FileChange>, o: Overrides, d: Detectors): (r: seq<Finding>)
    ensures All(r, Gate)
  {
    var paths := Only(AllPaths(files),
                      p => d.matches(p, d.protected + o.extraProtected) && !d.matches(p, o.unprotected));
    When(paths != [], Finding("protected-ci", Gate, paths))
  }

  function ManifestGate(files: seq<FileChange>, o: Overrides, d: Detectors): (r: seq<Finding>)
    ensures All(r, Gate)
  {
    var paths := Only(AllPaths(files), p => d.isManifest(p) && !d.matches(p, o.unprotected));
    When(paths != [], Finding("dep-manifest-lockfile", Gate, paths))
  }

  function MaxFilesGate(files: seq<FileChange>, o: Overrides): (r: seq<Finding>)
    ensures All(r, Gate)
  {
    When(FileTotals(files).files > o.maxFiles.GetOr(DEFAULT_MAX_FILES), Finding("max-files", Gate, []))
  }

  function MaxLinesGate(files: seq<FileChange>, o: Overrides): (r: seq<Finding>)
    ensures All(r, Gate)
  {
    When(FileTotals(files).additions > o.maxAddedLines.GetOr(DEFAULT_MAX_ADDED_LINES),
         Finding("max-added-lines", Gate, []))
  }

  function IntegrityGate(files: seq<FileChange>, numstat: seq<Entry>): (r: seq<Finding>)
    ensures All(r, Gate)
  {
    When(FileTotals(files) != Uploaded(numstat), Finding("diff-integrity", Gate, []))
  }

  function Gates(files: seq<FileChange>, numstat: seq<Entry>, o: Overrides, d: Detectors): seq<Finding> {
    CiGate(files, o, d) + ManifestGate(files, o, d) + MaxFilesGate(files, o) + MaxLinesGate(files, o)
    + IntegrityGate(files, numstat)
  }

  function Decide(findings: seq<Finding>, approved: bool): Decision {
    if exists k | 0 <= k < |findings| :: findings[k].severity == Deny then Refuse
    else if (exists k | 0 <= k < |findings| :: findings[k].severity == Gate) && !approved then HoldForGate
    else Allow
  }

  function Evaluate(files: seq<FileChange>, numstat: seq<Entry>, out: Outbound, o: Overrides, approved: bool,
                    d: Detectors): Verdict {
    var findings := Denials(files, out, d) + Gates(files, numstat, o, d);
    Verdict(Decide(findings, approved), findings)
  }

  // ---- what the verdict means ----

  lemma AllJoin(a: seq<Finding>, b: seq<Finding>, s: Severity)
    requires All(a, s) && All(b, s)
    ensures All(a + b, s)
  {
  }

  lemma AllFive(a: seq<Finding>, b: seq<Finding>, c: seq<Finding>, d: seq<Finding>, e: seq<Finding>, s: Severity)
    requires All(a, s) && All(b, s) && All(c, s) && All(d, s) && All(e, s)
    ensures All(a + b + c + d + e, s)
  {
    AllJoin(a, b, s);
    AllJoin(a + b, c, s);
    AllJoin(a + b + c, d, s);
    AllJoin(a + b + c + d, e, s);
  }

  lemma DecideSplit(denials: seq<Finding>, gates: seq<Finding>, approved: bool)
    requires All(denials, Deny) && All(gates, Gate)
    ensures Decide(denials + gates, approved) ==
            if denials != [] then Refuse else if gates != [] && !approved then HoldForGate else Allow
  {
    var all := denials + gates;
    assert denials != [] ==> all[0].severity == Deny;
    assert gates != [] ==> all[|denials|].severity == Gate;
    assert denials == [] ==> all == gates;
  }

  lemma OnlyGates(files: seq<FileChange>, numstat: seq<Entry>, o: Overrides, d: Detectors)
    ensures All(Gates(files, numstat, o, d), Gate)
  {
    AllFive(CiGate(files, o, d), ManifestGate(files, o, d), MaxFilesGate(files, o), MaxLinesGate(files, o),
            IntegrityGate(files, numstat), Gate);
  }

  /** A diff is refused exactly when a denial fires; approval and overrides have no say. It is held exactly
      when no denial but some gate fires and nobody approved it. */
  lemma VerdictIff(files: seq<FileChange>, numstat: seq<Entry>, out: Outbound, o: Overrides, approved: bool,
                   d: Detectors)
    ensures var v := Evaluate(files, numstat, out, o, approved, d);
            && (v.decision == Refuse <==> Denials(files, out, d) != [])
            && (v.decision == HoldForGate <==>
                Denials(files, out, d) == [] && Gates(files, numstat, o, d) != [] && !approved)
  {
    OnlyGates(files, numstat, o, d);
    DecideSplit(Denials(files, out, d), Gates(files, numstat, o, d), approved);
  }

  /** Approving turns a held diff into an applied one and changes nothing else. */
  lemma ApprovalOnlyReleases(files: seq<FileChange>, numstat: seq<Entry>, out: Outbound, o: Overrides, d: Detectors)
    ensures var before := Evaluate(files, numstat, out, o, false, d);
            var after := Evaluate(files, numstat, out, o, true, d);
            && after.findings == before.findings
            && after.decision == if before.decision == HoldForGate then Allow else before.decision
  {
  }

  /** No override can make a refused diff anything but refused, or an unrefused one refused. */
  lemma OverridesCannotUndeny(files: seq<FileChange>, numstat: seq<Entry>, out: Outbound, o: Overrides, p: Overrides,
                              approved: bool, also: bool, d: Detectors)
    ensures Evaluate(files, numstat, out, o, approved, d).decision == Refuse
            <==> Evaluate(files, numstat, out, p, also, d).decision == Refuse
  {
    VerdictIff(files, numstat, out, o, approved, d);
    VerdictIff(files, numstat, out, p, also, d);
  }

  /** The scanner sees every added line: as many as the parser counted, from every hunk. */
  lemma {:induction false} PlusLinesAll(lines: seq<string>)
    ensures |PlusLines(lines)| == Added(lines)
    ensures forall k | 0 <= k < |lines| && HasTag(lines[k], '+') :: lines[k][1..] in PlusLines(lines)
    decreases |lines|
  {
    if lines != [] {
      PlusLinesAll(lines[..|lines| - 1]);
    }
  }

  lemma {:induction false} HunksScanned(hunks: seq<Hunk>)
    ensures |AddedOfHunks(hunks)| == HunkAdditions(hunks)
    ensures forall h, k | 0 <= h < |hunks| && 0 <= k < |hunks[h].lines| && HasTag(hunks[h].lines[k], '+') ::
              hunks[h].lines[k][1..] in AddedOfHunks(hunks)
    decreases |hunks|
  {
    if hunks != [] {
      var n := |hunks| - 1;
      HunksScanned(hunks[..n]);
      PlusLinesAll(hunks[n].lines);
      assert forall h | 0 <= h < n :: hunks[..n][h] == hunks[h];
    }
  }

  /** The text scanned for secrets has exactly the added lines the totals count. */
  lemma {:induction false} AllScanned(files: seq<FileChange>)
    requires AllSound(files)
    ensures |AddedOf(files)| == FileTotals(files).additions
    decreases |files|
  {
    if files != [] {
      assert AllSound(files[..|files| - 1]);
      AllScanned(files[..|files| - 1]);
      HunksScanned(files[|files| - 1].hunks);
    }
  }
}
