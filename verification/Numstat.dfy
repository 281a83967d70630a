// The uploaded `git diff --numstat` text and its two readers.
module Numstat {
  import opened Text
  import opened Wrappers
  import opened DiffParser

  datatype Entry = Entry(path: string, additions: int, deletions: int, binary: bool)

  datatype Stats = Stats(files: nat, additions: int, deletions: int)

  /** `Number.parseInt(s, 10) || 0`: white space, a sign and leading digits; 0 without digits. */
  function IntPrefix(s: string): int {
    var t := TrimStart(s);
    if t != "" && t[0] == '-' then 0 - LeadingDigits(t[1..]) as int
    else if t != "" && t[0] == '+' then LeadingDigits(t[1..])
    else LeadingDigits(t)
  }

  function LeadingDigits(s: string): nat { Decimal(s[..DigitRun(s)]) }

  /** The tab-separated fields of a row, or nothing for a line that is not one. */
  function Fields(raw: string): Option<seq<string>> {
    var line := StripCr(raw);
    if Trim(line) == "" then None
    else
      var parts := Split(line, '\t');
      if |parts| < 3 then None else Some(parts)
  }

  function Count(field: string): int { if field == "-" then 0 else IntPrefix(field) }

  // ---- the structured reader ----

  function EntryOf(raw: string): seq<Entry> {
    match Fields(raw)
    case None => []
    case Some(parts) =>
      if |parts| < 3 then []
      else [Entry(Join(parts[2..], '\t'), Count(parts[0]), Count(parts[1]), parts[0] == "-" && parts[1] == "-")]
  }

  function EntriesOf(lines: seq<string>): seq<Entry>
    decreases |lines|
  {
    if lines == [] then [] else EntriesOf(lines[..|lines| - 1]) + EntryOf(lines[|lines| - 1])
  }

  function Entries(numstat: string): seq<Entry> { EntriesOf(Split(numstat, '\n')) }

  method ParseNumstatEntries(numstat: string) returns (out: seq<Entry>)
    ensures out == Entries(numstat)
  {
    out := [];
    var lines := Split(numstat, '\n');
    for k := 0 to |lines|
      invariant out == EntriesOf(lines[..k])
    {
      assert lines[..k + 1][..k] == lines[..k];
      var line := StripCr(lines[k]);
      if Trim(line) == "" { continue; }
      var parts := Split(line, '\t');
      if |parts| < 3 { continue; }
      var (a, d) := (parts[0], parts[1]);
      out := out + [Entry(Join(parts[2..], '\t'), if a == "-" then 0 else IntPrefix(a),
                          if d == "-" then 0 else IntPrefix(d), a == "-" && d == "-")];
    }
    assert lines[..|lines|] == lines;
  }

  // ---- the totals reader ----

  function TotalsOf(lines: seq<string>): Stats
    decreases |lines|
  {
    if lines == [] then Stats(0, 0, 0)
    else
      var t := TotalsOf(lines[..|lines| - 1]);
      match Fields(lines[|lines| - 1])
      case None => t
      case Some(parts) =>
        if |parts| < 3 then t
        else Stats(t.files + 1, t.additions + Count(parts[0]), t.deletions + Count(parts[1]))
  }

  function Totals(numstat: string): Stats { TotalsOf(Split(numstat, '\n')) }

  method NumstatTotals(numstat: string) returns (t: Stats)
    ensures t == Totals(numstat)
  {
    var files: nat := 0;
    var additions: int, deletions: int := 0, 0;
    var lines := Split(numstat, '\n');
    for k := 0 to |lines|
      invariant Stats(files, additions, deletions) == TotalsOf(lines[..k])
    {
      assert lines[..k + 1][..k] == lines[..k];
      var line := StripCr(lines[k]);
      if Trim(line) == "" { continue; }
      var parts := Split(line, '\t');
      if |parts| < 3 { continue; }
      files := files + 1;
      if parts[0] != "-" { additions := additions + IntPrefix(parts[0]); }
      if parts[1] != "-" { deletions := deletions + IntPrefix(parts[1]); }
    }
    assert lines[..|lines|] == lines;
    t := Stats(files, additions, deletions);
  }

  // ---- agreement ----

  /** The policy engine's sums: binary rows count nothing. */
  function Uploaded(entries: seq<Entry>): Stats
    decreases |entries|
  {
    if entries == [] then Stats(0, 0, 0)
    else
      var (t, e) := (Uploaded(entries[..|entries| - 1]), entries[|entries| - 1]);
      Stats(t.files + 1, t.additions + (if e.binary then 0 else e.additions),
            t.deletions + (if e.binary then 0 else e.deletions))
  }

  lemma {:induction false} LinesAgree(lines: seq<string>)
    ensures Uploaded(EntriesOf(lines)) == TotalsOf(lines)
    decreases |lines|
  {
    if lines != [] {
      var front := EntriesOf(lines[..|lines| - 1]);
      LinesAgree(lines[..|lines| - 1]);
      var more := EntryOf(lines[|lines| - 1]);
      if more == [] {
        assert front + more == front;
      } else {
        assert (front + more)[..|front + more| - 1] == front;
      }
    }
  }

  /** Both readers see the same files, additions and deletions in every text. */
  lemma ReadersAgree(numstat: string)
    ensures Uploaded(Entries(numstat)) == Totals(numstat)
  {
    LinesAgree(Split(numstat, '\n'));
  }
}
