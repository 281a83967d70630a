// Strings as JavaScript sees them: sequences of code units, split and joined on a separator.
module Text {

  predicate StartsWith(s: string, p: string) {
    |p| <= |s| && s[..|p|] == p
  }

  predicate EndsWith(s: string, p: string) {
    |p| <= |s| && s[|s| - |p|..] == p
  }

  /** `sub` occurs in `s` at index `i`. */
  predicate At(s: string, sub: string, i: nat) {
    i + |sub| <= |s| && s[i..i + |sub|] == sub
  }

  predicate Contains(s: string, sub: string) {
    exists i | 0 <= i <= |s| :: At(s, sub, i)
  }

  /** `s.split(sep)`: never empty; `[""]` for the empty string. */
  function Split(s: string, sep: char): (parts: seq<string>)
    ensures |parts| >= 1
    ensures forall k | 0 <= k < |parts| :: sep !in parts[k]
  {
    if s == "" then [""]
    else if s[0] == sep then [""] + Split(s[1..], sep)
    else
      var rest := Split(s[1..], sep);
      [[s[0]] + rest[0]] + rest[1..]
  }

  /** `parts.join(sep)`. */
  function Join(parts: seq<string>, sep: char): string {
    if parts == [] then ""
    else if |parts| == 1 then parts[0]
    else parts[0] + [sep] + Join(parts[1..], sep)
  }

  /** The pieces of a chunked body put back together. */
  function Concat(chunks: seq<string>): string {
    if chunks == [] then "" else chunks[0] + Concat(chunks[1..])
  }

  lemma {:induction false} ConcatAppend(chunks: seq<string>, c: string)
    ensures Concat(chunks + [c]) == Concat(chunks) + c
  {
    if chunks == [] {
      assert [c][1..] == [];
    } else {
      ConcatAppend(chunks[1..], c);
      assert (chunks + [c])[1..] == chunks[1..] + [c];
    }
  }

  /** Every line followed by a newline: how a text file and a unified diff are laid out. */
  function Lines(ls: seq<string>): string {
    if ls == [] then "" else ls[0] + "\n" + Lines(ls[1..])
  }

  ghost predicate NoBreaks(ls: seq<string>) {
    forall k | 0 <= k < |ls| :: '\n' !in ls[k]
  }

  lemma {:induction false} SplitFirst(a: string, b: string, sep: char)
    requires sep !in a
    ensures Split(a + [sep] + b, sep) == [a] + Split(b, sep)
  {
    var s := a + [sep] + b;
    if a == "" {
      assert s[1..] == b;
    } else {
      SplitFirst(a[1..], b, sep);
      assert s[1..] == a[1..] + [sep] + b;
      assert [a[0]] + a[1..] == a;
    }
  }

  lemma {:induction false} SplitWhole(a: string, sep: char)
    requires sep !in a
    ensures Split(a, sep) == [a]
  {
    if a != "" {
      SplitWhole(a[1..], sep);
      assert [a[0]] + a[1..] == a;
    }
  }

  /** Splitting undoes joining when no part contains the separator. */
  lemma {:induction false} SplitJoin(parts: seq<string>, sep: char)
    requires parts != []
    requires forall k | 0 <= k < |parts| :: sep !in parts[k]
    ensures Split(Join(parts, sep), sep) == parts
  {
    if |parts| == 1 {
      SplitWhole(parts[0], sep);
    } else {
      SplitJoin(parts[1..], sep);
      SplitFirst(parts[0], Join(parts[1..], sep), sep);
    }
  }

  /** Joining undoes splitting, always. */
  lemma {:induction false} JoinSplit(s: string, sep: char)
    ensures Join(Split(s, sep), sep) == s
  {
    if s == "" {
    } else if s[0] == sep {
      JoinSplit(s[1..], sep);
    } else {
      JoinSplit(s[1..], sep);
      var rest := Split(s[1..], sep);
      var parts := [[s[0]] + rest[0]] + rest[1..];
      assert parts[1..] == rest[1..];
      if |rest| > 1 {
        assert Join(parts, sep) == [s[0]] + Join(rest, sep);
      }
    }
  }

  lemma {:induction false} LinesIsJoin(ls: seq<string>)
    ensures Lines(ls) == Join(ls + [""], '\n')
  {
    if ls != [] {
      LinesIsJoin(ls[1..]);
      assert (ls + [""])[1..] == ls[1..] + [""];
    }
  }

  /** Splitting a newline-terminated text gives its lines and a final empty string. */
  lemma SplitLines(ls: seq<string>)
    requires NoBreaks(ls)
    ensures Split(Lines(ls), '\n') == ls + [""]
  {
    LinesIsJoin(ls);
    SplitJoin(ls + [""], '\n');
  }

  // ---- small facts about concatenation and occurrence ----

  lemma Regroup(a: string, b: string, ab: string, c: string)
    requires ab == a + b
    ensures a + (b + c) == ab + c
  {
  }

  lemma Assoc<T>(a: seq<T>, b: seq<T>, c: seq<T>)
    ensures a + (b + c) == a + b + c
  {
  }

  lemma Blank(s: string)
    ensures "" + s == s && s + "" == s
  {
  }

  lemma AtShift(c: char, rest: string, sub: string, i: nat)
    ensures At([c] + rest, sub, i + 1) <==> At(rest, sub, i)
  {
    if i + |sub| <= |rest| {
      assert ([c] + rest)[i + 1..i + 1 + |sub|] == rest[i..i + |sub|];
    }
  }

  lemma NotAt(s: string, sub: string, i: nat)
    requires sub != "" && i < |s| && s[i] != sub[0]
    ensures !At(s, sub, i)
  {
    if i + |sub| <= |s| {
      assert s[i..i + |sub|][0] == s[i];
    }
  }

  lemma AtStart(s: string, sub: string)
    ensures At(s, sub, 0) <==> StartsWith(s, sub)
  {
    if |sub| <= |s| {
      assert s[0..|sub|] == s[..|sub|];
    }
  }

  lemma OtherStart(s: string, p: string, k: nat)
    requires k < |p| && (k < |s| ==> s[k] != p[k])
    ensures !StartsWith(s, p)
  {
    if |p| <= |s| {
      assert s[..|p|][k] == s[k];
    }
  }

  // ---- characters ----

  predicate IsDigit(c: char) { '0' <= c <= '9' }

  /** White space as JavaScript trims it. */
  predicate IsSpace(c: char) {
    || '\t' <= c <= '\r'
    || c == ' ' || c == '\U{A0}' || c == '\U{1680}' || '\U{2000}' <= c <= '\U{200A}'
    || c == '\U{2028}' || c == '\U{2029}' || c == '\U{202F}' || c == '\U{205F}' || c == '\U{3000}' || c == '\U{FEFF}'
  }

  function TrimStart(s: string): string {
    if s != "" && IsSpace(s[0]) then TrimStart(s[1..]) else s
  }

  function TrimEnd(s: string): string {
    if s != "" && IsSpace(s[|s| - 1]) then TrimEnd(s[..|s| - 1]) else s
  }

  function Trim(s: string): string {
    TrimEnd(TrimStart(s))
  }
}
