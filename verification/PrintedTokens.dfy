// Reading back the numbers and paths of a printed diff.
module PrintedTokens {
  import opened Text
  import opened Wrappers
  import opened Diff
  import opened QuotedPath
  import opened DiffParser
  import opened DiffPrinter

  // ---- hunk headers ----

  lemma {:induction false} DigitRunIs(digits: string, more: string)
    requires forall k | 0 <= k < |digits| :: IsDigit(digits[k])
    requires more != "" ==> !IsDigit(more[0])
    ensures DigitRun(digits + more) == |digits|
    decreases |digits|
  {
    if digits == "" {
      assert digits + more == more;
    } else {
      assert (digits + more)[1..] == digits[1..] + more;
      DigitRunIs(digits[1..], more);
    }
  }

  lemma NumberBack(n: nat, more: string)
    requires more != "" ==> !IsDigit(more[0])
    ensures ReadNumber(Digits(n) + more) == Some((n, more))
  {
    DigitRunIs(Digits(n), more);
    assert (Digits(n) + more)[..|Digits(n)|] == Digits(n);
    assert (Digits(n) + more)[|Digits(n)|..] == more;
  }

  lemma RangeBack(start: nat, count: nat, more: string)
    requires more != "" && more[0] == ' '
    ensures ReadRange(RangeText(start, count) + more) == Some(Range(start, count, more))
  {
    if count == 1 {
      assert RangeText(start, count) + more == Digits(start) + more;
      NumberBack(start, more);
    } else {
      var tail := Digits(count) + more;
      assert RangeText(start, count) + more == Digits(start) + ("," + tail);
      NumberBack(start, "," + tail);
      assert ("," + tail)[1..] == tail;
      NumberBack(count, more);
    }
  }

  lemma PrefixOff(p: string, more: string)
    ensures StartsWith(p + more, p) && (p + more)[|p|..] == more
  {
  }

  lemma HeaderBack(h: Hunk)
    ensures ReadHeader(HeaderLine(h)) == Some(h.(lines := []))
  {
    var last := RangeText(h.newStart, h.newLines) + " @@";
    PrefixOff("@@ -", RangeText(h.oldStart, h.oldLines) + (" +" + last));
    RangeBack(h.oldStart, h.oldLines, " +" + last);
    PrefixOff(" +", last);
    RangeBack(h.newStart, h.newLines, " @@");
    assert " @@"[..3] == " @@";
  }

  // ---- paths ----

  lemma {:induction false} QuotedPlain(bs: seq<byte>)
    ensures forall k | 0 <= k < |QuoteBytes(bs)| :: 32 <= QuoteBytes(bs)[k] as int < 127
    decreases |bs|
  {
    if bs != [] {
      QuotedPlain(bs[1..]);
      BytePlain(bs[0]);
    }
  }

  lemma BytePlain(b: byte)
    ensures forall k | 0 <= k < |QuoteByte(b)| :: 32 <= QuoteByte(b)[k] as int < 127
  {
  }

  /** A printed token is plain ASCII text. */
  lemma ShownPlain(p: string)
    ensures forall k | 0 <= k < |Shown(p)| :: 32 <= Shown(p)[k] as int < 127
  {
    QuotedPlain(Utf8All(p));
    if !NeedsQuote(p) {
      forall k | 0 <= k < |p| ensures 32 <= p[k] as int < 127 {
        assert !Quotable(p[k]);
      }
    }
  }

  ghost predicate Decodes(dec: Decoder) { forall p: string :: dec(Utf8All(p)) == p }

  lemma QuotedBack(bs: seq<byte>, more: string)
    ensures var s := Quoted(bs) + more; s[0] == '"' && Unquote(s[1..]) == Some((bs, more))
  {
    assert (Quoted(bs) + more)[1..] == QuoteBytes(bs) + ("\"" + more);
    QuoteRoundTrip(bs, more);
  }

  /** A printed path reads back, with or without the closing tab. */
  lemma PathBack(p: string, tab: string, dec: Decoder)
    requires Decodes(dec) && tab in {"", "\t"}
    ensures UnquotePath(Shown(p) + tab, dec) == p
  {
    var t := Shown(p);
    ShownPlain(p);
    assert '\t' !in t;
    SplitWhole(t, '\t');
    SplitFirst(t, "", '\t');
    assert t + "" == t && t + "\t" + "" == t + "\t";
    assert Split(t + tab, '\t')[0] == t;
    if NeedsQuote(p) {
      QuotedBack(Utf8All(p), "");
    } else if p != "" {
      assert !Quotable(p[0]);
    }
  }

  lemma QuoteWithPrefix(prefix: string, p: string)
    requires !NeedsQuote(prefix)
    ensures NeedsQuote(prefix + p) <==> NeedsQuote(p)
  {
    if NeedsQuote(p) {
      var k :| 0 <= k < |p| && Quotable(p[k]);
      assert (prefix + p)[|prefix| + k] == p[k];
    }
    assert forall k | 0 <= k < |prefix| :: !Quotable((prefix + p)[k]);
    forall k | 0 <= k < |prefix + p| && Quotable((prefix + p)[k]) ensures NeedsQuote(p) {
      assert (prefix + p)[k] == p[k - |prefix|];
    }
  }

  lemma SideBack(side: string, p: string, dec: Decoder)
    requires Decodes(dec) && side in {"a/", "b/"}
    ensures SidePath(SideShown(side + p), dec) == Some(p)
  {
    var t := SideShown(side + p);
    PathBack(side + p, if !NeedsQuote(side + p) && ' ' in side + p then "\t" else "", dec);
    assert (side + p)[2..] == p && (side + p)[..2] == side;
    NotNull(side + p);
  }

  lemma NotNull(p: string)
    requires p != "" && p[0] != '/'
    ensures SideShown(p) != "/dev/null"
  {
    assert SideShown(p)[0] != '/';
  }

  // ---- the "diff --git" line ----

  /** The path holds no " b/" with something after it. */
  ghost predicate Unsplit(p: string) {
    forall j | 0 <= j && j + 3 < |p| :: !At(p, " b/", j)
  }

  lemma PairAt(p: string, k: nat)
    ensures var r := p + (" b/" + p);
            && (k + 3 < |p| ==> (At(r, " b/", |p| + 3 + k) <==> At(p, " b/", k)))
            && At(r, " b/", |p|)
            && !At(r, " b/", |p| + 1) && !At(r, " b/", |p| + 2)
  {
    var r := p + (" b/" + p);
    assert r[|p|..|p| + 3] == " b/";
    if k + 3 < |p| {
      assert r[|p| + 3 + k..|p| + 3 + k + 3] == p[k..k + 3];
    }
    NotAt(r, " b/", |p| + 1);
    NotAt(r, " b/", |p| + 2);
  }

  lemma DividerFound(p: string, top: nat)
    requires p != "" && top > |p| + 3 + |p|
    ensures var i := LastDivider(p + (" b/" + p), top);
            i.Some? && (i.value == |p| || (i.value >= |p| + 3 && At(p, " b/", i.value - |p| - 3)))
  {
    var r := p + (" b/" + p);
    var i := LastDivider(r, top);
    PairAt(p, 0);
    assert At(r, " b/", |p|);
    assert i.Some? && i.value >= |p|;
    if i.value >= |p| + 3 {
      PairAt(p, i.value - |p| - 3);
    }
  }

  /** Both names alike and unquoted: the header line gives them back exactly when the path is unsplit. */
  lemma PlainPairIff(p: string, top: nat)
    requires p != "" && top > |p| + 3 + |p|
    ensures var i := LastDivider(p + (" b/" + p), top);
            i.Some? && i.value >= |p| && (i.value == |p| <==> Unsplit(p))
  {
    DividerFound(p, top);
    var r := p + (" b/" + p);
    if LastDivider(r, top).value == |p| {
      forall j | 0 <= j && j + 3 < |p| ensures !At(p, " b/", j) {
        PairAt(p, j);
        assert !At(r, " b/", |p| + 3 + j);
      }
    }
  }

  /** What the header line says when both names are `p`. */
  lemma GitPairIff(p: string, dec: Decoder)
    requires p != "" && Decodes(dec)
    ensures var pair := GitPaths(GitPair(p, p), dec);
            pair.Some? &&
            if NeedsQuote(p) || Unsplit(p) then pair.value == (p, p)
            else pair.value.0 != p && pair.value.1 != p
  {
    QuoteWithPrefix("a/", p);
    QuoteWithPrefix("b/", p);
    if NeedsQuote(p) {
      QuotedPair(p, dec);
    } else {
      PlainPair(p, dec);
    }
  }

  lemma QuotedPair(p: string, dec: Decoder)
    requires Decodes(dec)
    ensures GitPaths(Quoted(Utf8All("a/" + p)) + (" " + Quoted(Utf8All("b/" + p))), dec) == Some((p, p))
  {
    var (a, b) := ("a/" + p, "b/" + p);
    var second := Quoted(Utf8All(b));
    QuotedBack(Utf8All(a), " " + second);
    QuotedBack(Utf8All(b), "");
    Blank(second);
    assert (" " + second)[1..] == second;
    assert DropSpaces(" " + second) == DropSpaces(second) == second;
    assert second[..1] == "\"";
    var s := Quoted(Utf8All(a)) + (" " + second);
    assert s[..1] == "\"";
    assert a[..2] == "a/" && a[2..] == p && b[..2] == "b/" && b[2..] == p;
  }

  /** An unquoted pair is split at its last divider. */
  lemma PairValue(p: string, dec: Decoder)
    requires p != "" && !NeedsQuote(p)
    ensures var r := p + (" b/" + p);
            var i := LastDivider(r, |r| + 2);
            i.Some? && GitPaths("a/" + p + (" " + ("b/" + p)), dec) == Some((r[..i.value], r[i.value + 3..]))
  {
    var s := "a/" + p + (" " + ("b/" + p));
    var r := p + (" b/" + p);
    assert s == "a/" + r;
    assert s[2..] == r && s[..2] == "a/";
    OtherStart(s, "\"", 0);
    forall k | 0 <= k < |r| ensures !IsLineTerminator(r[k]) {
      if k < |p| {
        assert !Quotable(p[k]);
      } else if k >= |p| + 3 {
        assert !Quotable(p[k - |p| - 3]);
      }
    }
    PlainPairIff(p, |s|);
    var i := LastDivider(r, |s|).value;
    assert s[2..2 + i] == r[..i] && s[2 + i + 3..] == r[i + 3..];
  }

  lemma PlainPair(p: string, dec: Decoder)
    requires p != "" && !NeedsQuote(p)
    ensures var pair := GitPaths("a/" + p + (" " + ("b/" + p)), dec);
            pair.Some? && (pair.value == (p, p) <==> Unsplit(p))
            && (!Unsplit(p) ==> pair.value.0 != p && pair.value.1 != p)
  {
    PairValue(p, dec);
    var r := p + (" b/" + p);
    PlainPairIff(p, |r| + 2);
    var i := LastDivider(r, |r| + 2).value;
    if i == |p| {
      assert r[..i] == p && r[i + 3..] == p;
    }
  }

  lemma LastSplit(p: string, j: nat)
    requires j + 3 < |p| && At(p, " b/", j) && forall k | j < k && k + 3 < |p| :: !At(p, " b/", k)
    ensures var r := p + (" b/" + p); LastDivider(r, |r| + 2) == Some(|p| + 3 + j)
  {
    var r := p + (" b/" + p);
    DividerFound(p, |r| + 2);
    PairAt(p, j);
  }

  lemma NameSplitAt(x: string, y: string)
    ensures At(x + (" b/" + y), " b/", |x|)
  {
  }

  lemma SplitAt(x: string, y: string)
    ensures var p := x + (" b/" + y);
            var (r, i) := (p + (" b/" + p), |p| + 3 + |x|);
            r[..i] == p + (" b/" + x) && r[i + 3..] == y
  {
  }

  /** A path with " b/" in it, and nothing but the header line to name the file: the line is split at the last
      divider, inside the second name. */
  lemma SplitNameMisread(x: string, y: string, dec: Decoder)
    requires y != "" && !NeedsQuote(x + (" b/" + y)) && Decodes(dec)
    requires forall j | |x| < j && j + 3 < |x| + 3 + |y| :: !At(x + (" b/" + y), " b/", j)
    ensures var p := x + (" b/" + y); GitPaths(GitPair(p, p), dec) == Some((p + (" b/" + x), y))
  {
    var p := x + (" b/" + y);
    NameSplitAt(x, y);
    LastSplit(p, |x|);
    SplitAt(x, y);
    PlainShown(p);
    PairValue(p, dec);
  }

  lemma PlainShown(p: string)
    requires !NeedsQuote(p)
    ensures GitPair(p, p) == "a/" + p + (" " + ("b/" + p))
  {
    QuoteWithPrefix("a/", p);
    QuoteWithPrefix("b/", p);
  }

  /** For instance. */
  lemma MisreadName(dec: Decoder)
    requires Decodes(dec)
    ensures GitPaths(GitPair("x b/y", "x b/y"), dec) == Some(("x b/y b/x", "y"))
  {
    assert "x" + (" b/" + "y") == "x b/y";
    assert "x b/y" + (" b/" + "x") == "x b/y b/x";
    SplitNameMisread("x", "y", dec);
  }
}
