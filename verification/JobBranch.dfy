// The branch name pinned for a job before it is provisioned.
module JobBranch {
  import opened Text
  import opened CommitBuilder

  predicate IsAlphanumeric(c: char) { 'A' <= c <= 'Z' || 'a' <= c <= 'z' || IsDigit(c) }

  function Alphanumerics(s: string): (r: string)
    ensures forall k | 0 <= k < |r| :: IsAlphanumeric(r[k])
  {
    if s == "" then "" else (if IsAlphanumeric(s[0]) then [s[0]] else "") + Alphanumerics(s[1..])
  }

  function Take(s: string, n: nat): string { if |s| <= n then s else s[..n] }

  /** The first run of digits. */
  function FirstDigits(s: string): (r: string)
    ensures forall k | 0 <= k < |r| :: IsDigit(r[k])
  {
    if s == "" then "" else if IsDigit(s[0]) then LeadingDigits(s) else FirstDigits(s[1..])
  }

  function LeadingDigits(s: string): (r: string)
    ensures forall k | 0 <= k < |r| :: IsDigit(r[k])
  {
    if s == "" || !IsDigit(s[0]) then "" else [s[0]] + LeadingDigits(s[1..])
  }

  /** Every run of characters outside the branch alphabet becomes one dash. */
  function Sanitized(s: string, inRun: bool): string {
    if s == "" then ""
    else if BranchChar(s[0]) then [s[0]] + Sanitized(s[1..], false)
    else (if inRun then "" else "-") + Sanitized(s[1..], true)
  }

  function TrimLeft(s: string): string { if s != "" && s[0] == '-' then TrimLeft(s[1..]) else s }

  function TrimRight(s: string): string {
    if s != "" && s[|s| - 1] == '-' then TrimRight(s[..|s| - 1]) else s
  }

  function IdPart(id: string): string {
    var id8 := Take(Alphanumerics(id), 8);
    if id8 == "" then "job" else id8
  }

  function Slug(sourceRef: string): string {
    var issue := FirstDigits(sourceRef);
    Take(TrimRight(TrimLeft(Sanitized(if issue == "" then "" else "issue-" + issue, false))), 40)
  }

  function JobBranchName(id: string, sourceRef: string): string {
    BRANCH_PREFIX + (IdPart(id) + if Slug(sourceRef) == "" then "" else "-" + Slug(sourceRef))
  }

  /** Letters, digits, dashes and underscores: no dot. */
  predicate Tame(s: string) { forall k | 0 <= k < |s| :: BranchChar(s[k]) && s[k] != '.' }

  lemma {:induction false} SanitizedTame(s: string, inRun: bool)
    requires '.' !in s
    ensures Tame(Sanitized(s, inRun))
  {
    if s != "" {
      SanitizedTame(s[1..], !BranchChar(s[0]));
    }
  }

  lemma {:induction false} TrimLeftTame(s: string)
    requires Tame(s)
    ensures Tame(TrimLeft(s))
  {
    if s != "" && s[0] == '-' { TrimLeftTame(s[1..]); }
  }

  lemma {:induction false} TrimRightTame(s: string)
    requires Tame(s)
    ensures Tame(TrimRight(s))
    decreases |s|
  {
    if s != "" && s[|s| - 1] == '-' { TrimRightTame(s[..|s| - 1]); }
  }

  lemma SlugTame(sourceRef: string)
    ensures Tame(Slug(sourceRef))
  {
    var issue := FirstDigits(sourceRef);
    var raw := if issue == "" then "" else "issue-" + issue;
    SanitizedTame(raw, false);
    TrimLeftTame(Sanitized(raw, false));
    TrimRightTame(TrimLeft(Sanitized(raw, false)));
  }

  /** A tame name under the prefix is a job branch: no "..", no ".lock" at the end. */
  lemma TameIsJobBranch(rest: string)
    requires Tame(rest) && rest != ""
    ensures IsJobBranch(BRANCH_PREFIX + rest)
  {
    var b := BRANCH_PREFIX + rest;
    assert b[..|BRANCH_PREFIX|] == BRANCH_PREFIX;
    forall i | 0 <= i <= |b| ensures !At(b, "..", i) {
      if i < |b| { NotAt(b, "..", i); }
    }
    if |b| >= 5 {
      assert b[|b| - 5..][0] == b[|b| - 5];
    }
  }

  /** The forge accepts the pinned branch name of every job. */
  lemma PinnedBranchAccepted(id: string, sourceRef: string)
    ensures IsJobBranch(JobBranchName(id, sourceRef))
  {
    SlugTame(sourceRef);
    TameIsJobBranch(IdPart(id) + if Slug(sourceRef) == "" then "" else "-" + Slug(sourceRef));
  }
}
