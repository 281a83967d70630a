// Git's C-style quoting of path bytes, and the reader that undoes it.
module QuotedPath {
  import opened Text
  import opened Wrappers

  newtype byte = x: int | 0 <= x < 256

  /** UTF-8 of one character. */
  function Utf8(c: char): seq<byte> {
    var n := c as int;
    if n < 0x80 then [n as byte]
    else if n < 0x800 then [(0xC0 + n / 0x40) as byte, (0x80 + n % 0x40) as byte]
    else if n < 0x10000 then
      [(0xE0 + n / 0x1000) as byte, (0x80 + n / 0x40 % 0x40) as byte, (0x80 + n % 0x40) as byte]
    else
      [(0xF0 + n / 0x40000) as byte, (0x80 + n / 0x1000 % 0x40) as byte,
       (0x80 + n / 0x40 % 0x40) as byte, (0x80 + n % 0x40) as byte]
  }

  function Utf8All(s: string): seq<byte> {
    if s == "" then [] else Utf8(s[0]) + Utf8All(s[1..])
  }

  const REPLACEMENT: seq<byte> := [0xEF, 0xBF, 0xBD]

  /** The bytes the reader takes for one plain character. It encodes one UTF-16 code unit at a time, so a
      character that needs two of them comes out as two replacement characters. */
  function UnitBytes(c: char): seq<byte> {
    if c as int < 0x10000 then Utf8(c) else REPLACEMENT + REPLACEMENT
  }

  predicate IsOctal(c: char) { '0' <= c <= '7' }

  /** The single-letter escapes; any other escaped code unit stands for its own code, cut to a byte. */
  function Escape(c: char): seq<byte> {
    match c
    case 'n' => [10]
    case 't' => [9]
    case 'r' => [13]
    case '"' => [34]
    case '\\' => [92]
    case 'a' => [7]
    case 'b' => [8]
    case 'f' => [12]
    case 'v' => [11]
    case _ =>
      var n := c as int;
      if n < 0x10000 then [(n % 256) as byte]
      else [((0xD800 + (n - 0x10000) / 0x400) % 256) as byte] + REPLACEMENT
  }

  function Digit(c: char): nat
    requires IsOctal(c)
  {
    c as nat - '0' as nat
  }

  /** How many octal digits, at most `most`, the text starts with. */
  function OctalRun(s: string, most: nat): (n: nat)
    ensures n <= most && n <= |s|
    ensures forall k | 0 <= k < n :: IsOctal(s[k])
    ensures n < most && n < |s| ==> !IsOctal(s[n])
  {
    if most == 0 || s == "" || !IsOctal(s[0]) then 0 else 1 + OctalRun(s[1..], most - 1)
  }

  function OctalValue(s: string): nat
    requires forall k | 0 <= k < |s| :: IsOctal(s[k])
  {
    if s == "" then 0 else OctalValue(s[..|s| - 1]) * 8 + Digit(s[|s| - 1])
  }

  type Token = Option<(seq<byte>, string)>

  /** Bytes in front of a token still to be read. */
  function Prepend(bs: seq<byte>, r: Token): Token {
    match r
    case None => None
    case Some((rest, after)) => Some((bs + rest, after))
  }

  /** Text after an opening quote: the bytes up to the closing quote, and what follows it. */
  function Unquote(s: string): Token
    decreases |s|
  {
    if s == "" then None
    else if s[0] == '"' then Some(([], s[1..]))
    else if s[0] == '\\' then
      if |s| == 1 then None
      else
        var n := OctalRun(s[1..], 3);
        if n > 0 then Prepend([(OctalValue(s[1..1 + n]) % 256) as byte], Unquote(s[1 + n..]))
        else Prepend(Escape(s[1]), Unquote(s[2..]))
    else Prepend(UnitBytes(s[0]), Unquote(s[1..]))
  }

  lemma PrependTwice(a: seq<byte>, b: seq<byte>, r: Token)
    ensures Prepend(a, Prepend(b, r)) == Prepend(a + b, r)
  {
    match r {
      case None =>
      case Some((rest, after)) => assert a + (b + rest) == a + b + rest;
    }
  }

  /** Read the quoted token that opens at `start`; `end` is the index after its closing quote. */
  method ReadQuoted(s: string, start: nat) returns (r: Option<(seq<byte>, nat)>)
    requires start < |s|
    ensures r == match Unquote(s[start + 1..])
                 case None => None
                 case Some((bytes, after)) => Some((bytes, |s| - |after|))
  {
    var bytes: seq<byte> := [];
    var i := start + 1;
    PrependNothing(Unquote(s[i..]));
    while i < |s|
      invariant start + 1 <= i <= |s|
      invariant Unquote(s[start + 1..]) == Prepend(bytes, Unquote(s[i..]))
    {
      var ch := s[i];
      if ch == '"' {
        CloseStep(s, i, bytes);
        return Some((bytes, i + 1));
      }
      var read, next;
      if ch == '\\' {
        if i + 1 == |s| { return None; }
        read, next := ReadEscape(s, i);
      } else {
        UnitStep(s, i);
        read, next := UnitBytes(ch), i + 1;
      }
      PrependTwice(bytes, read, Unquote(s[next..]));
      bytes, i := bytes + read, next;
    }
    return None;
  }

  lemma PrependNothing(r: Token)
    ensures Prepend([], r) == r
  {
    match r {
      case None =>
      case Some((rest, after)) => assert [] + rest == rest;
    }
  }

  lemma CloseStep(s: string, i: nat, bytes: seq<byte>)
    requires i < |s| && s[i] == '"'
    ensures Prepend(bytes, Unquote(s[i..])) == Some((bytes, s[i + 1..]))
  {
    assert s[i..][1..] == s[i + 1..];
    assert bytes + [] == bytes;
  }

  lemma UnitStep(s: string, i: nat)
    requires i < |s| && s[i] !in {'"', '\\'}
    ensures Unquote(s[i..]) == Prepend(UnitBytes(s[i]), Unquote(s[i + 1..]))
  {
    assert s[i..][1..] == s[i + 1..];
  }

  /** The bytes an escape at `at` stands for: up to three octal digits, or one letter. */
  method ReadEscape(s: string, at: nat) returns (read: seq<byte>, next: nat)
    requires at + 1 < |s| && s[at] == '\\'
    ensures at + 1 < next <= |s|
    ensures Unquote(s[at..]) == Prepend(read, Unquote(s[next..]))
  {
    var i := at + 1;
    var e := s[i];
    if IsOctal(e) {
      var oct := [e];
      var k := 0;
      while k < 2 && i + 1 < |s| && IsOctal(s[i + 1])
        invariant 0 <= k <= 2 && i < |s| && i == at + 1 + k
        invariant oct == s[at + 1..i + 1]
        invariant forall j | 0 <= j < |oct| :: IsOctal(oct[j])
      {
        oct := oct + [s[i + 1]];
        i := i + 1;
        k := k + 1;
      }
      OctalStep(s[at..], oct);
      assert s[at..][1 + |oct|..] == s[i + 1..];
      read := [(OctalValue(oct) % 256) as byte];
    } else {
      assert s[at..][2..] == s[i + 1..];
      read := Escape(e);
    }
    next := i + 1;
  }

  lemma OctalStep(s: string, oct: string)
    requires 1 <= |oct| <= 3 && |s| > |oct| && s[0] == '\\' && s[1..1 + |oct|] == oct
    requires forall k | 0 <= k < |oct| :: IsOctal(oct[k])
    requires |oct| < 3 && |s| > 1 + |oct| ==> !IsOctal(s[1 + |oct|])
    ensures Unquote(s) == Prepend([(OctalValue(oct) % 256) as byte], Unquote(s[1 + |oct|..]))
  {
    forall k | 0 <= k < |oct| ensures IsOctal(s[1..][k]) {
      assert s[1..][k] == oct[k];
    }
    OctalRunIs(s[1..], 3, |oct|);
  }

  lemma {:induction false} OctalRunIs(s: string, most: nat, n: nat)
    requires n <= most && n <= |s|
    requires forall k | 0 <= k < n :: IsOctal(s[k])
    requires n < most && n < |s| ==> !IsOctal(s[n])
    ensures OctalRun(s, most) == n
  {
    if n > 0 {
      OctalRunIs(s[1..], most - 1, n - 1);
    }
  }

  // ---- the writer: what git emits ----

  function OctalChar(d: nat): char
    requires d < 8
  {
    ('0' as int + d) as char
  }

  function QuoteByte(b: byte): string {
    var n := b as int;
    if n == 7 then "\\a" else if n == 8 then "\\b" else if n == 9 then "\\t" else if n == 10 then "\\n"
    else if n == 11 then "\\v" else if n == 12 then "\\f" else if n == 13 then "\\r"
    else if n == 34 then "\\\"" else if n == 92 then "\\\\"
    else if n < 32 || n >= 127 then ['\\', OctalChar(n / 64), OctalChar(n / 8 % 8), OctalChar(n % 8)]
    else [n as char]
  }

  function QuoteBytes(bs: seq<byte>): string {
    if bs == [] then "" else QuoteByte(bs[0]) + QuoteBytes(bs[1..])
  }

  /** A quoted token: always three digits per octal escape, so digits may follow. */
  function Quoted(bs: seq<byte>): string {
    "\"" + QuoteBytes(bs) + "\""
  }

  lemma UnquoteByte(b: byte, more: string)
    ensures Unquote(QuoteByte(b) + more) == Prepend([b], Unquote(more))
  {
    TokenFor(b);
    UnquoteToken(QuoteByte(b), b, more);
  }

  /** A token for one byte: the byte itself, a letter escape, or three octal digits. */
  predicate StandsFor(t: string, b: byte) {
    || (|t| == 1 && t[0] !in {'"', '\\'} && UnitBytes(t[0]) == [b])
    || (|t| == 2 && t[0] == '\\' && !IsOctal(t[1]) && Escape(t[1]) == [b])
    || t == OctalToken(b)
  }

  function OctalToken(b: byte): string {
    var n := b as nat;
    ['\\', OctalChar(n / 64), OctalChar(n / 8 % 8), OctalChar(n % 8)]
  }

  lemma TokenFor(b: byte)
    ensures StandsFor(QuoteByte(b), b)
  {
  }

  lemma UnquoteToken(t: string, b: byte, more: string)
    requires StandsFor(t, b)
    ensures Unquote(t + more) == Prepend([b], Unquote(more))
  {
    if t == OctalToken(b) {
      UnquoteOctal(b as nat, more);
    } else if |t| == 2 {
      assert t == ['\\', t[1]];
      UnquoteLetter(t[1], more);
    } else {
      assert (t + more)[1..] == more;
    }
  }

  lemma UnquoteLetter(e: char, more: string)
    requires !IsOctal(e)
    ensures Unquote(['\\', e] + more) == Prepend(Escape(e), Unquote(more))
  {
    var s := ['\\', e] + more;
    assert s[2..] == more;
    assert s[1..][0] == e;
  }

  lemma UnquoteOctal(n: nat, more: string)
    requires n < 256
    ensures Unquote(['\\', OctalChar(n / 64), OctalChar(n / 8 % 8), OctalChar(n % 8)] + more) ==
            Prepend([n as byte], Unquote(more))
  {
    var oct := [OctalChar(n / 64), OctalChar(n / 8 % 8), OctalChar(n % 8)];
    var s := ['\\', OctalChar(n / 64), OctalChar(n / 8 % 8), OctalChar(n % 8)] + more;
    assert s[1..4] == oct && s[4..] == more;
    OctalStep(s, oct);
    ThreeDigits(n);
  }

  lemma ThreeDigits(n: nat)
    requires n < 256
    ensures OctalValue([OctalChar(n / 64), OctalChar(n / 8 % 8), OctalChar(n % 8)]) == n
  {
    var a, b, c := OctalChar(n / 64), OctalChar(n / 8 % 8), OctalChar(n % 8);
    assert [a, b, c][..2] == [a, b] && [a, b][..1] == [a] && [a][..0] == [];
    assert OctalValue([a]) == n / 64;
    assert OctalValue([a, b]) == n / 64 * 8 + n / 8 % 8;
  }

  /** Reading back any quoted byte sequence gives exactly those bytes and stops after the closing quote. */
  lemma {:induction false} QuoteRoundTrip(bs: seq<byte>, more: string)
    ensures Unquote(QuoteBytes(bs) + ("\"" + more)) == Some((bs, more))
  {
    var close := "\"" + more;
    if bs == [] {
      Blank(close);
      assert close[1..] == more;
    } else {
      Regroup(QuoteByte(bs[0]), QuoteBytes(bs[1..]), QuoteBytes(bs), close);
      UnquoteByte(bs[0], QuoteBytes(bs[1..]) + close);
      QuoteRoundTrip(bs[1..], more);
      assert [bs[0]] + bs[1..] == bs;
    }
  }

  // ---- quoting with core.quotePath off: characters above ASCII are left as they are ----

  function QuoteChar(c: char): string {
    if c as int >= 128 then [c] else QuoteByte(c as byte)
  }

  function QuoteText(p: string): string {
    if p == "" then "" else QuoteChar(p[0]) + QuoteText(p[1..])
  }

  lemma UnquoteChar(c: char, more: string)
    ensures Unquote(QuoteChar(c) + more) == Prepend(UnitBytes(c), Unquote(more))
  {
    if c as int >= 128 {
      assert ([c] + more)[1..] == more;
    } else {
      UnquoteByte(c as byte, more);
    }
  }

  function UnitBytesAll(p: string): seq<byte> {
    if p == "" then [] else UnitBytes(p[0]) + UnitBytesAll(p[1..])
  }

  lemma {:induction false} UnquoteText(p: string, more: string)
    ensures Unquote(QuoteText(p) + ("\"" + more)) == Some((UnitBytesAll(p), more))
  {
    var close := "\"" + more;
    if p == "" {
      Blank(close);
      assert close[1..] == more;
    } else {
      Regroup(QuoteChar(p[0]), QuoteText(p[1..]), QuoteText(p), close);
      UnquoteChar(p[0], QuoteText(p[1..]) + close);
      UnquoteText(p[1..], more);
    }
  }

  /** Every character fits one UTF-16 code unit. */
  predicate Basic(p: string) { forall k | 0 <= k < |p| :: p[k] as int < 0x10000 }

  lemma {:induction false} UnitBytesIff(p: string)
    ensures UnitBytesAll(p) == Utf8All(p) <==> Basic(p)
  {
    if p != "" {
      UnitBytesIff(p[1..]);
      assert p == [p[0]] + p[1..];
      SameHead(UnitBytes(p[0]), UnitBytesAll(p[1..]), Utf8(p[0]), Utf8All(p[1..]));
    }
  }

  lemma SameHead(a: seq<byte>, x: seq<byte>, b: seq<byte>, y: seq<byte>)
    requires a != [] && b != [] && (a == b || a[0] != b[0])
    ensures a + x == b + y <==> a == b && x == y
  {
    if a + x == b + y {
      assert (a + x)[0] == a[0] && (b + y)[0] == b[0];
      assert (a + x)[|a|..] == x && (b + y)[|b|..] == y;
    }
  }

  /** A quoted path with its non-ASCII characters left alone reads back exactly when none of them
      lies outside the basic multilingual plane. */
  lemma QuoteTextRoundTrip(p: string, more: string)
    ensures Unquote(QuoteText(p) + ("\"" + more)) == Some((Utf8All(p), more)) <==> Basic(p)
  {
    UnquoteText(p, more);
    UnitBytesIff(p);
  }

  /** One character outside that plane, left alone between the quotes: two replacement characters come back. */
  lemma AstralMisread()
    ensures Unquote(QuoteText("\U{1F600}") + "\"") == Some((REPLACEMENT + REPLACEMENT, ""))
    ensures REPLACEMENT + REPLACEMENT != Utf8All("\U{1F600}")
  {
    var p := "\U{1F600}";
    UnquoteText(p, "");
    assert "\"" + "" == "\"";
    assert UnitBytesAll(p) == UnitBytes(p[0]) + [] == REPLACEMENT + REPLACEMENT;
    assert Utf8All(p) == Utf8(p[0]) + [];
    assert Utf8(p[0])[0] == 0xF0;
  }
}
