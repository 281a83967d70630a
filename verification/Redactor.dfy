// The streamed key redactor of the LLM proxy: a rolling window over a chunked body.
// A body is its latin1 view, one character per byte.
module Redactor {
  import opened Text

  const MARKER: string := "[REDACTED]"

  /** Every leftmost, non-overlapping occurrence of `secret` replaced by the marker. */
  function Redact(s: string, secret: string): string {
    if secret == "" || |s| < |secret| then s
    else if StartsWith(s, secret) then MARKER + Redact(s[|secret|..], secret)
    else [s[0]] + Redact(s[1..], secret)
  }

  ghost predicate Free(s: string, secret: string) {
    forall i: nat :: !At(s, secret, i)
  }

  // ---- what redaction does to one buffer ----

  lemma RedactMatch(s: string, rest: string, secret: string)
    requires secret != "" && s == secret + rest
    ensures Redact(s, secret) == MARKER + Redact(rest, secret)
  {
    assert s[|secret|..] == rest;
  }

  lemma RedactMiss(c: char, rest: string, secret: string)
    requires secret != "" && !StartsWith([c] + rest, secret)
    ensures Redact([c] + rest, secret) == [c] + Redact(rest, secret)
  {
    assert ([c] + rest)[1..] == rest;
  }

  /** Text before the first occurrence passes through unchanged. */
  lemma {:induction false} Skip(u: string, w: string, secret: string)
    requires secret != ""
    requires forall i: nat | i < |u| :: !At(u + w, secret, i)
    ensures Redact(u + w, secret) == u + Redact(w, secret)
  {
    if u == "" {
      Blank(w);
      Blank(Redact(w, secret));
    } else {
      var u' := u[1..];
      Regroup([u[0]], u', u, w);
      forall i: nat | i < |u'| ensures !At(u' + w, secret, i) {
        AtShift(u[0], u' + w, secret, i);
      }
      Skip(u', w, secret);
      AtStart(u + w, secret);
      RedactMiss(u[0], u' + w, secret);
      Regroup([u[0]], u', u, Redact(w, secret));
    }
  }

  /** The first occurrence becomes the marker and scanning resumes after it. */
  lemma FirstOccurrence(u: string, v: string, secret: string)
    requires secret != ""
    requires forall i: nat | i < |u| :: !At(u + secret + v, secret, i)
    ensures Redact(u + secret + v, secret) == u + MARKER + Redact(v, secret)
  {
    assert u + secret + v == u + (secret + v);
    Skip(u, secret + v, secret);
    assert (secret + v)[|secret|..] == v;
    assert u + MARKER + Redact(v, secret) == u + (MARKER + Redact(v, secret));
  }

  /**
   * Redacting `p` settles a prefix, which is empty or ends in a marker, and leaves a tail
   * without the secret; whatever follows `p` can only affect that tail.
   */
  ghost function Settled(p: string, secret: string): (string, string)
    requires secret != ""
  {
    if |p| < |secret| then ("", p)
    else if StartsWith(p, secret) then
      var (d, t) := Settled(p[|secret|..], secret);
      (MARKER + d, t)
    else
      var (d, t) := Settled(p[1..], secret);
      if d == "" then ("", p) else ([p[0]] + d, t)
  }

  lemma EndsWithMore(a: string, b: string, m: string)
    requires EndsWith(b, m)
    ensures EndsWith(a + b, m)
  {
    assert (a + b)[|a + b| - |m|..] == b[|b| - |m|..];
  }

  lemma {:induction false} SettledParts(p: string, secret: string)
    requires secret != ""
    ensures var (done, tail) := Settled(p, secret);
            && Redact(p, secret) == done + tail
            && (if done == "" then tail == p else EndsWith(done, MARKER))
  {
    if |p| < |secret| {
      Blank(p);
    } else if StartsWith(p, secret) {
      var p' := p[|secret|..];
      var (d, t) := Settled(p', secret);
      SettledParts(p', secret);
      Regroup(MARKER, d, MARKER + d, t);
      if d == "" {
        Blank(MARKER);
      } else {
        EndsWithMore(MARKER, d, MARKER);
      }
    } else {
      var p' := p[1..];
      var (d, t) := Settled(p', secret);
      SettledParts(p', secret);
      if d == "" {
        Blank(t);
        Blank(p);
      } else {
        EndsWithMore([p[0]], d, MARKER);
        Regroup([p[0]], d, [p[0]] + d, t);
      }
    }
  }

  lemma {:induction false} SettledTailFree(p: string, secret: string)
    requires secret != ""
    ensures Free(Settled(p, secret).1, secret)
  {
    if |p| < |secret| {
    } else if StartsWith(p, secret) {
      SettledTailFree(p[|secret|..], secret);
    } else {
      var p' := p[1..];
      SettledTailFree(p', secret);
      SettledParts(p', secret);
      if Settled(p', secret).0 == "" {
        AtStart(p, secret);
        assert p == [p[0]] + p';
        forall i: nat ensures !At(p, secret, i) {
          if i > 0 {
            AtShift(p[0], p', secret, i - 1);
          }
        }
      }
    }
  }

  lemma {:induction false} SettledStays(p: string, q: string, secret: string)
    requires secret != ""
    ensures Redact(p + q, secret) == Settled(p, secret).0 + Redact(Settled(p, secret).1 + q, secret)
  {
    if |p| < |secret| {
      Blank(Redact(p + q, secret));
    } else if StartsWith(p, secret) {
      var p' := p[|secret|..];
      var (d, t) := Settled(p', secret);
      Regroup(secret, p', p, q);
      RedactMatch(p + q, p' + q, secret);
      SettledStays(p', q, secret);
      Regroup(MARKER, d, MARKER + d, Redact(t + q, secret));
    } else {
      var p' := p[1..];
      var (d, t) := Settled(p', secret);
      Regroup([p[0]], p', p, q);
      PrefixStays(p, q, secret);
      RedactMiss(p[0], p' + q, secret);
      SettledStays(p', q, secret);
      SettledParts(p', secret);
      if d == "" {
        Blank(Redact(p' + q, secret));
        Blank(Redact(p + q, secret));
      } else {
        Regroup([p[0]], d, [p[0]] + d, Redact(t + q, secret));
      }
    }
  }

  lemma PrefixStays(p: string, q: string, secret: string)
    requires |secret| <= |p|
    ensures StartsWith(p + q, secret) <==> StartsWith(p, secret)
  {
    assert (p + q)[..|secret|] == p[..|secret|];
  }

  // ---- the rolling window ----

  /** A proper prefix of the secret of length `k` agrees with the last `k` characters of "...[REDACTED]". */
  predicate Overlap(secret: string, k: nat)
    requires k <= |secret|
  {
    if k <= |MARKER| then secret[..k] == MARKER[|MARKER| - k..]
    else secret[k - |MARKER|..k] == MARKER
  }

  /** No proper prefix of the secret can be completed by a marker already written. */
  predicate Separable(secret: string) {
    forall k | 1 <= k < |secret| :: !Overlap(secret, k)
  }

  /** What `push` does to the carried bytes: the pair (emitted, carried). */
  function PushStep(carry: string, chunk: string, secret: string): (r: (string, string))
    ensures secret != "" ==> r.0 + r.1 == Redact(carry + chunk, secret)
  {
    if secret == "" then (chunk, carry)
    else
      var red := Redact(carry + chunk, secret);
      var keep := |secret| - 1;
      if |red| <= keep then ("", red)
      else (red[..|red| - keep], red[|red| - keep..])
  }

  /** What `push` has emitted and what it still carries after the chunks, in order. */
  function Pushed(chunks: seq<string>, secret: string): (string, string)
    decreases |chunks|
  {
    if chunks == [] then ("", "")
    else
      var (out, carry) := Pushed(chunks[..|chunks| - 1], secret);
      var (emit, next) := PushStep(carry, chunks[|chunks| - 1], secret);
      (out + emit, next)
  }

  /** Everything the client receives: all the pushes, then the flush. */
  function Stream(chunks: seq<string>, secret: string): string {
    Pushed(chunks, secret).0 + Pushed(chunks, secret).1
  }

  /** Cutting a redacted buffer `keep` characters before its end loses nothing for what follows. */
  lemma CutIsSafe(buf: string, q: string, secret: string)
    requires Separable(secret) && secret != ""
    ensures var (emit, next) := PushStep("", buf, secret);
            Redact(buf + q, secret) == emit + Redact(next + q, secret)
  {
    Blank(buf);
    var (emit, next) := PushStep("", buf, secret);
    var (done, tail) := Settled(buf, secret);
    SettledParts(buf, secret);
    SettledStays(buf, q, secret);
    SettledTailFree(buf, secret);
    if |tail| >= |secret| - 1 {
      CutInTail(done, tail, emit, next, q, secret);
    } else {
      CutInDone(done, tail, emit, next, q, secret);
    }
  }

  lemma CutInTail(done: string, tail: string, emit: string, next: string, q: string, secret: string)
    requires secret != "" && Free(tail, secret)
    requires done + tail == emit + next && |next| == |secret| - 1 <= |tail|
    ensures done + Redact(tail + q, secret) == emit + Redact(next + q, secret)
  {
    var settled := SplitPoint(tail, done, next, emit);
    PassThrough(settled, next, q, secret);
    Regroup(done, settled, emit, Redact(next + q, secret));
  }

  lemma PassThrough(sent: string, window: string, q: string, secret: string)
    requires secret != "" && |window| == |secret| - 1 && Free(sent + window, secret)
    ensures Redact((sent + window) + q, secret) == sent + Redact(window + q, secret)
  {
    SentIsInert(sent, window, q, secret);
    Skip(sent, window + q, secret);
    assert sent + (window + q) == (sent + window) + q;
  }

  /** An occurrence starting before the window would lie entirely in what was already scanned. */
  lemma SentIsInert(sent: string, window: string, q: string, secret: string)
    requires secret != "" && |window| == |secret| - 1 && Free(sent + window, secret)
    ensures forall i: nat | i < |sent| :: !At(sent + (window + q), secret, i)
  {
    forall i: nat | i < |sent| ensures !At(sent + (window + q), secret, i) {
      assert !At(sent + window, secret, i);
      assert (sent + (window + q))[i..i + |secret|] == (sent + window)[i..i + |secret|];
    }
  }

  lemma CutInDone(done: string, tail: string, emit: string, next: string, q: string, secret: string)
    requires Separable(secret) && secret != ""
    requires done == "" || EndsWith(done, MARKER)
    requires done + tail == emit + next && |tail| <= |next| < |secret|
    ensures done + Redact(tail + q, secret) == emit + Redact(next + q, secret)
  {
    var held := SplitPoint(next, emit, tail, done);
    HeldThrough(emit, held, tail + q, secret);
    Regroup(held, tail, next, q);
    Regroup(emit, held, done, Redact(tail + q, secret));
  }

  lemma HeldThrough(sent: string, held: string, rest: string, secret: string)
    requires Separable(secret) && secret != "" && |held| < |secret|
    requires sent + held == "" || EndsWith(sent + held, MARKER)
    ensures Redact(held + rest, secret) == held + Redact(rest, secret)
  {
    HeldIsInert(sent, held, rest, secret);
    Skip(held, rest, secret);
  }

  /** Two splits of one string: the longer right part is `mid` followed by the shorter one. */
  lemma SplitPoint(right: string, left: string, shortRight: string, longLeft: string) returns (mid: string)
    requires left + right == longLeft + shortRight && |shortRight| <= |right|
    ensures right == mid + shortRight && longLeft == left + mid
  {
    var n := |left|;
    mid := right[..|right| - |shortRight|];
    assert right == (left + right)[n..];
    assert shortRight == (longLeft + shortRight)[|longLeft|..] == right[|right| - |shortRight|..];
    assert longLeft == (longLeft + shortRight)[..|longLeft|] == left + mid;
  }

  /** Settled characters still held back cannot start an occurrence. */
  lemma HeldIsInert(sent: string, held: string, rest: string, secret: string)
    requires Separable(secret) && secret != ""
    requires |held| < |secret|
    requires sent + held == "" || EndsWith(sent + held, MARKER)
    ensures forall i: nat | i < |held| :: !At(held + rest, secret, i)
  {
    forall i: nat | i < |held| ensures !At(held + rest, secret, i) {
      var k := |held| - i;
      assert !Overlap(secret, k);
      var done := sent + held;
      assert held[i..] == done[|done| - k..];
      if i + |secret| <= |held + rest| {
        assert (held + rest)[i..i + |secret|][..k] == held[i..];
        if k <= |MARKER| {
          assert done[|done| - k..] == MARKER[|MARKER| - k..];
        } else {
          assert done[|done| - k..][k - |MARKER|..] == MARKER;
          assert secret[k - |MARKER|..k] == secret[..k][k - |MARKER|..];
        }
      }
    }
  }

  /** What one push leaves to be done is exactly what the whole buffer still needs. */
  lemma PushThen(carry: string, chunk: string, q: string, secret: string)
    requires Separable(secret)
    requires secret == "" ==> carry == ""
    ensures var (emit, next) := PushStep(carry, chunk, secret);
            Redact(carry + (chunk + q), secret) == emit + Redact(next + q, secret)
  {
    if secret == "" {
      Blank(q);
      Blank(chunk + q);
    } else {
      Blank(carry + chunk);
      Regroup(carry, chunk, carry + chunk, q);
      CutIsSafe(carry + chunk, q, secret);
    }
  }

  /** `out` was written and `carry` is held back after `fed` went in: whatever follows, nothing is lost. */
  ghost predicate InStep(fed: string, out: string, carry: string, secret: string) {
    && (secret == "" ==> carry == "")
    && forall q :: Redact(fed + q, secret) == out + Redact(carry + q, secret)
  }

  lemma StepKeepsFor(fed: string, out: string, carry: string, chunk: string, q: string, secret: string)
    requires Separable(secret) && (secret == "" ==> carry == "")
    requires Redact(fed + (chunk + q), secret) == out + Redact(carry + (chunk + q), secret)
    ensures var (emit, next) := PushStep(carry, chunk, secret);
            Redact(fed + chunk + q, secret) == out + emit + Redact(next + q, secret)
  {
    var (emit, next) := PushStep(carry, chunk, secret);
    Regroup(fed, chunk, fed + chunk, q);
    PushThen(carry, chunk, q, secret);
    Regroup(out, emit, out + emit, Redact(next + q, secret));
  }

  lemma StepKeeps(fed: string, out: string, carry: string, chunk: string, secret: string)
    requires Separable(secret) && InStep(fed, out, carry, secret)
    ensures var (emit, next) := PushStep(carry, chunk, secret);
            InStep(fed + chunk, out + emit, next, secret)
  {
    var (emit, next) := PushStep(carry, chunk, secret);
    forall q ensures Redact(fed + chunk + q, secret) == out + emit + Redact(next + q, secret) {
      StepKeepsFor(fed, out, carry, chunk, q, secret);
    }
  }

  /** Flushing completes the redaction of everything fed. */
  lemma FlushCompletes(fed: string, out: string, carry: string, secret: string)
    requires InStep(fed, out, carry, secret)
    requires secret != "" ==> |carry| < |secret|
    ensures out + carry == Redact(fed, secret)
  {
    Blank(fed);
    Blank(carry);
    assert Redact(fed + "", secret) == out + Redact(carry + "", secret);
  }

  lemma {:induction false} PushedInStep(chunks: seq<string>, secret: string)
    requires Separable(secret)
    ensures InStep(Concat(chunks), Pushed(chunks, secret).0, Pushed(chunks, secret).1, secret)
    ensures secret != "" ==> |Pushed(chunks, secret).1| < |secret|
    decreases |chunks|
  {
    if chunks == [] {
      forall q ensures Redact("" + q, secret) == "" + Redact("" + q, secret) {
        Blank(Redact("" + q, secret));
      }
    } else {
      var front, last := chunks[..|chunks| - 1], chunks[|chunks| - 1];
      var (out, carry) := Pushed(front, secret);
      PushedInStep(front, secret);
      StepKeeps(Concat(front), out, carry, last, secret);
      assert chunks == front + [last];
      ConcatAppend(front, last);
    }
  }

  /** The client cannot tell how the body was cut into chunks. */
  ghost predicate ChunkingInvisible(secret: string) {
    forall chunks: seq<string> :: Stream(chunks, secret) == Redact(Concat(chunks), secret)
  }

  lemma StreamEqualsWhole(chunks: seq<string>, secret: string)
    requires Separable(secret)
    ensures Stream(chunks, secret) == Redact(Concat(chunks), secret)
  {
    PushedInStep(chunks, secret);
    FlushCompletes(Concat(chunks), Pushed(chunks, secret).0, Pushed(chunks, secret).1, secret);
  }

  /** A secret without ']' is always separable; provider keys are of this kind. */
  lemma BracketFreeIsSeparable(secret: string)
    requires ']' !in secret
    ensures Separable(secret)
  {
    forall k | 1 <= k < |secret| ensures !Overlap(secret, k) {
      assert secret[k - 1] != ']';
      if k <= |MARKER| {
        assert MARKER[|MARKER| - k..][k - 1] == ']';
        assert secret[..k][k - 1] == secret[k - 1];
      } else {
        assert secret[k - |MARKER|..k][|MARKER| - 1] == secret[k - 1];
      }
    }
  }

  // ---- the exact set of secrets for which chunking is invisible ----

  /** A buffer shorter than two secrets that holds one is changed, unless the secret is the marker. */
  lemma RedactChanges(s: string, at: nat, secret: string)
    requires secret != "" && secret != MARKER
    requires At(s, secret, at) && |s| < 2 * |secret|
    ensures Redact(s, secret) != s
  {
    var j := FirstAt(s, at, secret);
    var v := s[j + |secret|..];
    assert s == s[..j] + secret + v;
    FirstOccurrence(s[..j], v, secret);
    var marked := s[..j] + MARKER + v;
    if |secret| == |MARKER| {
      assert marked[j..j + |MARKER|] == MARKER;
      assert s[j..j + |MARKER|] == secret;
    }
  }

  lemma FirstAt(s: string, at: nat, secret: string) returns (j: nat)
    requires At(s, secret, at)
    ensures j <= at && At(s, secret, j) && forall i: nat | i < j :: !At(s, secret, i)
    decreases at
  {
    if i: nat :| i < at && At(s, secret, i) {
      j := FirstAt(s, i, secret);
    } else {
      j := at;
    }
  }

  lemma TwoChunks(a: string, b: string, secret: string)
    requires secret != ""
    ensures Concat([a, b]) == a + b
    ensures var (emit, next) := PushStep("", a, secret);
            Stream([a, b], secret) == emit + Redact(next + b, secret)
  {
    var (emit, next) := PushStep("", a, secret);
    var (emit', next') := PushStep(next, b, secret);
    assert [a, b][..1] == [a] && [a][..0] == [];
    assert Pushed([a], secret) == ("" + emit, next);
    Blank(emit);
    assert Pushed([a, b], secret) == (emit + emit', next');
    Regroup(emit, emit', emit + emit', next');
    Blank(b);
    assert [b][1..] == [] && Concat([b]) == b;
    assert [a, b][1..] == [b];
  }

  /** What the client sees when the body is a secret cut off and completed by a second chunk. */
  lemma RedactedThenRest(rest: string, secret: string)
    requires secret != "" && |rest| < |secret|
    ensures Redact(secret, secret) == MARKER
    ensures Redact(secret + rest, secret) == MARKER + rest
  {
    RedactMatch(secret, "", secret);
    RedactMatch(secret + rest, rest, secret);
  }

  lemma Completed(next: string, k: nat, secret: string)
    requires k <= |secret| && k <= |next| && next[|next| - k..] == secret[..k]
    ensures At(next + secret[k..], secret, |next| - k)
  {
    var front := next[..|next| - k];
    assert next + secret[k..] == front + secret;
  }

  /** The secret starts with the end of a marker: cut the body after a first secret. */
  lemma ShortOverlapShows(secret: string, k: nat)
    requires 1 <= k < |secret| && k <= |MARKER| && Overlap(secret, k)
    ensures Shows(secret, secret[k..], secret)
  {
    var rest := secret[k..];
    var (emit, next) := PushStep("", secret, secret);
    Blank(secret);
    RedactedThenRest("", secret);
    MarkerTail(emit, next, k);
    Completed(next, k, secret);
    NotMarker(secret, k);
    RedactChanges(next + rest, |next| - k, secret);
    ShowDifference(secret, rest, emit, next);
  }

  /** A body in two chunks that the client can tell from the same body in one. */
  ghost predicate Shows(a: string, b: string, secret: string) {
    Stream([a, b], secret) != Redact(Concat([a, b]), secret)
  }

  lemma NotMarker(secret: string, k: nat)
    requires 1 <= k < |secret| && k <= |MARKER| && Overlap(secret, k)
    ensures secret != MARKER
  {
    assert secret[..k][0] == MARKER[|MARKER| - k];
  }

  lemma ShowDifference(secret: string, rest: string, emit: string, next: string)
    requires secret != "" && |rest| < |secret|
    requires (emit, next) == PushStep("", secret, secret) && emit + next == MARKER
    requires Redact(next + rest, secret) != next + rest
    ensures Shows(secret, rest, secret)
  {
    TwoChunks(secret, rest, secret);
    RedactedThenRest(rest, secret);
    Differ(emit, next + rest, Redact(next + rest, secret));
    Regroup(emit, next, MARKER, rest);
  }

  lemma MarkerTail(emit: string, next: string, k: nat)
    requires emit + next == MARKER && k <= |next|
    ensures next[|next| - k..] == MARKER[|MARKER| - k..]
  {
    assert next == MARKER[|emit|..];
  }

  lemma Differ(a: string, b: string, c: string)
    requires b != c
    ensures a + b != a + c
  {
    assert (a + b)[|a|..] == b && (a + c)[|a|..] == c;
  }

  /** The secret holds a whole marker further in: replay its head right before a first secret. */
  lemma LongOverlapShows(secret: string, i: nat)
    requires 1 <= i && i + |MARKER| < |secret| && At(secret, MARKER, i)
    requires forall j: nat | j < i :: !At(secret, MARKER, j)
    ensures Shows(secret[..i] + secret, secret[i + |MARKER|..], secret)
  {
    var head := secret[..i];
    var rest := secret[i + |MARKER|..];
    FirstIsAt(secret, i, rest);
    FirstIsAt(secret, i, "");
    HeadMarker(secret, i);
    Blank(head + secret);
    Blank(head + MARKER);
    assert PushStep("", head + secret, secret) == ("", head + MARKER);
    TwoChunks(head + secret, rest, secret);
    RedactedThenRest("", secret);
    assert |head + MARKER + rest| > |MARKER|;
  }

  lemma HeadMarker(secret: string, i: nat)
    requires At(secret, MARKER, i)
    ensures secret[..i] + MARKER + secret[i + |MARKER|..] == secret
  {
    assert secret == secret[..i] + secret[i..i + |MARKER|] + secret[i + |MARKER|..];
  }

  /** With the first marker at `i`, a secret preceded by its own first `i` characters is found in place. */
  lemma FirstIsAt(secret: string, i: nat, rest: string)
    requires 1 <= i && i + |MARKER| < |secret| && At(secret, MARKER, i)
    requires forall j: nat | j < i :: !At(secret, MARKER, j)
    requires |rest| < |secret|
    ensures Redact(secret[..i] + secret + rest, secret) == secret[..i] + MARKER + rest
  {
    forall j: nat | j < i ensures !At(secret[..i] + secret + rest, secret, j) {
      NotEarlier(secret, i, j, rest);
    }
    FirstOccurrence(secret[..i], rest, secret);
  }

  lemma NotEarlier(secret: string, i: nat, j: nat, rest: string)
    requires j < i && i + |MARKER| < |secret| && At(secret, MARKER, i) && !At(secret, MARKER, j)
    ensures !At(secret[..i] + secret + rest, secret, j)
  {
    var s := secret[..i] + secret + rest;
    assert secret[j..j + |MARKER|] != MARKER;
    var t :| 0 <= t < |MARKER| && secret[j + t] != MARKER[t];
    assert secret[i..i + |MARKER|][t] == MARKER[t];
    assert s[i + j + t] == secret[j + t];
    assert s[j..j + |secret|][i + t] == s[i + j + t];
  }

  /** Chunking is invisible exactly when no proper prefix of the secret continues a marker. */
  lemma ChunkingInvisibleIff(secret: string)
    ensures ChunkingInvisible(secret) <==> Separable(secret)
  {
    if Separable(secret) {
      forall chunks: seq<string>
        ensures Stream(chunks, secret) == Redact(Concat(chunks), secret)
      {
        StreamEqualsWhole(chunks, secret);
      }
    } else {
      var k :| 1 <= k < |secret| && Overlap(secret, k);
      ghost var a, b := secret, secret[k..];
      if k <= |MARKER| {
        ShortOverlapShows(secret, k);
      } else {
        var i := FirstAt(secret, k - |MARKER|, MARKER);
        if i == 0 {
          assert secret[0..|MARKER|] == secret[..|MARKER|];
          assert Overlap(secret, |MARKER|);
          ShortOverlapShows(secret, |MARKER|);
          b := secret[|MARKER|..];
        } else {
          assert i <= k - |MARKER|;
          LongOverlapShows(secret, i);
          a, b := secret[..i] + secret, secret[i + |MARKER|..];
        }
      }
      assert Shows(a, b, secret);
    }
  }

  /** A secret that begins with the marker's last character: the client can tell where the body was cut. */
  lemma ChunkingShows()
    ensures Stream(["]x", "x"], "]x") != Redact(Concat(["]x", "x"]), "]x")
  {
    var secret := "]x";
    assert secret[..1] == "]" == MARKER[|MARKER| - 1..];
    ShortOverlapShows(secret, 1);
    assert secret[1..] == "x";
  }

  // ---- no secret in the output ----

  /** From `i` on the secret reads like a marker, as far as both go. */
  predicate ReadsMarker(secret: string, i: nat)
    requires i <= |secret|
  {
    if i + |MARKER| <= |secret| then secret[i..i + |MARKER|] == MARKER
    else secret[i..] == MARKER[..|secret| - i]
  }

  /** A body that starts with the first `i` characters of the secret and then the secret has no match before that. */
  predicate NoEarlier(secret: string, i: nat)
    requires i <= |secret|
  {
    forall j: nat | j < i :: !At(secret[..i] + secret, secret, j)
  }

  /** The secret can be put together from a marker and text around it: it is part of the marker, it begins with the
      end of a marker, or it goes on with a marker after text that is not redacted in front of a match. */
  predicate Leaky(secret: string) {
    || Contains(MARKER, secret)
    || (exists k | 1 <= k <= |MARKER| && k < |secret| :: Overlap(secret, k))
    || (exists i | 1 <= i < |secret| :: ReadsMarker(secret, i) && NoEarlier(secret, i))
  }

  lemma InMarkerLeaks(secret: string)
    requires secret != "" && Contains(MARKER, secret)
    ensures !Free(Redact(secret, secret), secret)
  {
    RedactMatch(secret, "", secret);
    Blank(MARKER);
    var i: nat :| i <= |MARKER| && At(MARKER, secret, i);
    assert At(Redact(secret, secret), secret, i);
  }

  lemma AfterMarkerLeaks(secret: string, k: nat)
    requires 1 <= k <= |MARKER| && k < |secret| && Overlap(secret, k)
    ensures !Free(Redact(secret + secret[k..], secret), secret)
  {
    RedactedThenRest(secret[k..], secret);
    Completed(MARKER, k, secret);
    assert At(Redact(secret + secret[k..], secret), secret, |MARKER| - k);
  }

  lemma StillNoEarlier(secret: string, i: nat, z: string)
    requires i < |secret| && NoEarlier(secret, i)
    ensures forall j: nat | j < i :: !At(secret[..i] + secret + z, secret, j)
  {
    var u := secret[..i] + secret;
    forall j: nat | j < i ensures !At(u + z, secret, j) {
      assert !At(u, secret, j);
      assert (u + z)[j..j + |secret|] == u[j..j + |secret|];
    }
  }

  lemma BeforeMarkerLeaks(secret: string, i: nat)
    requires 1 <= i < |secret| && ReadsMarker(secret, i) && NoEarlier(secret, i)
    ensures var z := if i + |MARKER| <= |secret| then secret[i + |MARKER|..] else "";
            !Free(Redact(secret[..i] + secret + z, secret), secret)
  {
    var z := if i + |MARKER| <= |secret| then secret[i + |MARKER|..] else "";
    StillNoEarlier(secret, i, z);
    FirstOccurrence(secret[..i], z, secret);
    MarkerStands(secret, i, z);
    assert At(secret[..i] + MARKER + z, secret, 0);
  }

  lemma MarkerStands(secret: string, i: nat, z: string)
    requires i <= |secret| && ReadsMarker(secret, i)
    requires z == if i + |MARKER| <= |secret| then secret[i + |MARKER|..] else ""
    ensures var out := secret[..i] + MARKER + z; |out| >= |secret| && out[0..|secret|] == secret
  {
    if i + |MARKER| <= |secret| {
      HeadMarker(secret, i);
    } else {
      assert secret == secret[..i] + secret[i..];
    }
  }

  /** An occurrence at the start of the output that is none of the input begins in text before the first marker. */
  lemma StartShown(s: string, secret: string)
    requires secret != "" && |s| >= |secret| && !StartsWith(s, secret) && At(Redact(s, secret), secret, 0)
    ensures exists i | 1 <= i < |secret| :: ReadsMarker(secret, i) && NoEarlier(secret, i)
  {
    AtStart(s, secret);
    if Free(s, secret) {
      Blank(s);
      Skip(s, "", secret);
    } else {
      var at: nat :| At(s, secret, at);
      var i := FirstAt(s, at, secret);
      var (u, v) := (s[..i], s[i + |secret|..]);
      assert s == u + secret + v;
      FirstOccurrence(u, v, secret);
      BeforeFirst(u, v, secret, Redact(v, secret));
    }
  }

  lemma BeforeFirst(u: string, v: string, secret: string, rest: string)
    requires u != "" && forall j: nat | j < |u| :: !At(u + secret + v, secret, j)
    requires At(u + MARKER + rest, secret, 0)
    ensures 1 <= |u| < |secret| && ReadsMarker(secret, |u|) && NoEarlier(secret, |u|)
  {
    var (s, out) := (u + secret + v, u + MARKER + rest);
    assert !At(s, secret, 0);
    SameStart(u, secret + v, MARKER + rest, secret);
    assert s == u + (secret + v) && out == u + (MARKER + rest);
    MarkerRead(u, rest, secret);
    forall j: nat | j < |u| ensures !At(u + secret, secret, j) {
      assert !At(s, secret, j);
      assert s[j..j + |secret|] == (u + secret)[j..j + |secret|];
    }
  }

  lemma SameStart(u: string, a: string, b: string, secret: string)
    ensures |secret| <= |u| ==> (At(u + a, secret, 0) <==> At(u + b, secret, 0))
  {
    if |secret| <= |u| {
      assert (u + a)[0..|secret|] == u[0..|secret|] == (u + b)[0..|secret|];
    }
  }

  lemma MarkerRead(u: string, rest: string, secret: string)
    requires |u| < |secret| <= |u + MARKER + rest| && (u + MARKER + rest)[0..|secret|] == secret
    ensures secret[..|u|] == u && ReadsMarker(secret, |u|)
  {
    var out := u + MARKER + rest;
    var i := |u|;
    assert out[0..|secret|][..i] == u;
    assert out[i..i + |MARKER|] == MARKER;
    if i + |MARKER| <= |secret| {
      assert out[0..|secret|][i..i + |MARKER|] == MARKER;
    } else {
      assert out[0..|secret|][i..] == MARKER[..|secret| - i];
    }
  }

  /** After a marker only an occurrence that is part of it or begins with its end can overlap it. */
  lemma AcrossMarker(rest: string, i: nat, secret: string)
    requires secret != "" && !Contains(MARKER, secret) && Free(rest, secret)
    requires forall k | 1 <= k <= |MARKER| && k < |secret| :: !Overlap(secret, k)
    ensures !At(MARKER + rest, secret, i)
  {
    AtJoin(MARKER, rest, secret, i);
    if i >= |MARKER| {
      assert !At(rest, secret, i - |MARKER|);
    } else if i + |secret| <= |MARKER| {
      assert !At(MARKER, secret, i);
    } else {
      assert !Overlap(secret, |MARKER| - i);
    }
  }

  /** An occurrence in a joined text is in one of the parts or starts with the end of the first. */
  lemma AtJoin(a: string, b: string, secret: string, i: nat)
    ensures At(a + b, secret, i) ==>
              if i >= |a| then At(b, secret, i - |a|)
              else if i + |secret| <= |a| then At(a, secret, i)
              else secret[..|a| - i] == a[i..]
  {
    if At(a + b, secret, i) {
      var s, n := a + b, |secret|;
      if i >= |a| {
        assert s[i..i + n] == b[i - |a|..i - |a| + n];
      } else if i + n <= |a| {
        assert s[i..i + n] == a[i..i + n];
      } else {
        assert s[i..i + n][..|a| - i] == s[i..|a|] == a[i..];
      }
    }
  }

  lemma {:induction false} OutputFree(s: string, secret: string)
    requires secret != "" && !Leaky(secret)
    ensures Free(Redact(s, secret), secret)
  {
    var out := Redact(s, secret);
    if |s| < |secret| {
    } else if StartsWith(s, secret) {
      var rest := Redact(s[|secret|..], secret);
      OutputFree(s[|secret|..], secret);
      forall i: nat ensures !At(MARKER + rest, secret, i) {
        AcrossMarker(rest, i, secret);
      }
    } else {
      var rest := Redact(s[1..], secret);
      OutputFree(s[1..], secret);
      if At(out, secret, 0) {
        StartShown(s, secret);
      }
      forall i: nat ensures !At([s[0]] + rest, secret, i) {
        if i > 0 {
          AtShift(s[0], rest, secret, i - 1);
        }
      }
    }
  }

  /** For every secret: no body leaks it through its own redaction exactly when it is not leaky. */
  lemma NoLeakIff(secret: string)
    requires secret != ""
    ensures (forall body :: Free(Redact(body, secret), secret)) <==> !Leaky(secret)
  {
    if Contains(MARKER, secret) {
      InMarkerLeaks(secret);
    } else if k :| 1 <= k <= |MARKER| && k < |secret| && Overlap(secret, k) {
      AfterMarkerLeaks(secret, k);
    } else if i :| 1 <= i < |secret| && ReadsMarker(secret, i) && NoEarlier(secret, i) {
      BeforeMarkerLeaks(secret, i);
    } else {
      forall body ensures Free(Redact(body, secret), secret) {
        OutputFree(body, secret);
      }
    }
  }

  /** A secret that begins with the marker's last character comes back when it is followed by its own rest. */
  lemma SecretComesBack()
    ensures Redact("]xx", "]x") == MARKER + "x" && Contains(MARKER + "x", "]x")
  {
    var secret := "]x";
    assert secret[..1] == "]" == MARKER[|MARKER| - 1..];
    assert secret[1..] == "x" && secret + "x" == "]xx";
    RedactedThenRest("x", secret);
    AfterMarkerLeaks(secret, 1);
    var i: nat :| At(MARKER + "x", secret, i);
  }

  /** A secret that cannot leak is also one for which chunking is invisible. */
  lemma UnleakyIsSeparable(secret: string)
    requires secret != "" && !Leaky(secret)
    ensures Separable(secret)
  {
    forall k | 1 <= k < |secret| ensures !Overlap(secret, k) {
      if k > |MARKER| && Overlap(secret, k) {
        var i := FirstAt(secret, k - |MARKER|, MARKER);
        assert i > 0 by {
          assert !Overlap(secret, |MARKER|);
          AtStart(secret, MARKER);
        }
        FirstMarkerFree(secret, i);
        assert ReadsMarker(secret, i);
      }
    }
  }

  lemma FirstMarkerFree(secret: string, i: nat)
    requires i + |MARKER| < |secret| && At(secret, MARKER, i)
    requires forall j: nat | j < i :: !At(secret, MARKER, j)
    ensures NoEarlier(secret, i)
  {
    forall j: nat | j < i ensures !At(secret[..i] + secret, secret, j) {
      NotEarlier(secret, i, j, "");
      Blank(secret[..i] + secret);
    }
  }

  /** However the body is cut: the client gets the redaction of the whole body, without the secret in it, exactly for
      the secrets that are not leaky. */
  lemma StreamCleanIff(secret: string)
    requires secret != ""
    ensures (forall chunks: seq<string> ::
               Stream(chunks, secret) == Redact(Concat(chunks), secret) && Free(Stream(chunks, secret), secret)) <==>
            !Leaky(secret)
  {
    NoLeakIff(secret);
    if Leaky(secret) {
      var body :| !Free(Redact(body, secret), secret);
      Blank(body);
      assert [body][1..] == [] && Concat([body]) == body;
      assert Stream([body], secret) == Redact(Concat([body]), secret) ==> !Free(Stream([body], secret), secret);
    } else {
      UnleakyIsSeparable(secret);
      forall chunks: seq<string>
        ensures Stream(chunks, secret) == Redact(Concat(chunks), secret) && Free(Stream(chunks, secret), secret)
      {
        StreamEqualsWhole(chunks, secret);
      }
    }
  }

  /** A bracket-free secret, as provider keys are, leaks only if it is part of the marker's word. */
  lemma PlainLeakyIff(secret: string)
    requires secret != "" && '[' !in secret && ']' !in secret
    ensures Leaky(secret) <==> Contains("REDACTED", secret)
  {
    PlainInMarker(secret);
    BracketFreeIsSeparable(secret);
    forall i | 1 <= i < |secret| ensures !ReadsMarker(secret, i) {
      assert i + |MARKER| <= |secret| ==> secret[i..i + |MARKER|][0] == secret[i];
      assert secret[i..][0] == secret[i] && MARKER[..1][0] == '[';
    }
  }

  lemma PlainInMarker(secret: string)
    requires secret != "" && '[' !in secret && ']' !in secret
    ensures Contains(MARKER, secret) <==> Contains("REDACTED", secret)
  {
    assert MARKER == ['['] + "REDACTED" + [']'];
    InBrackets("REDACTED", secret);
  }

  lemma InBrackets(word: string, secret: string)
    requires secret != "" && '[' !in secret && ']' !in secret
    ensures Contains(['['] + word + [']'], secret) <==> Contains(word, secret)
  {
    var s := ['['] + word + [']'];
    forall i: nat | i < |word| ensures At(s, secret, i + 1) <==> At(word, secret, i) {
      if i + |secret| <= |word| {
        assert s[i + 1..i + 1 + |secret|] == word[i..i + |secret|];
      } else if i + 1 + |secret| <= |s| {
        assert s[i + 1..i + 1 + |secret|][|secret| - 1] == ']';
      }
    }
    if i: nat :| i <= |s| && At(s, secret, i) {
      assert s[i..i + |secret|][0] == s[i];
      assert 0 < i <= |word|;
      assert At(word, secret, i - 1);
    }
    if i: nat :| i <= |word| && At(word, secret, i) {
      assert At(s, secret, i + 1);
    }
  }

  // ---- the class ----

  class StreamRedactor {
    const secret: string
    var carry: string

    constructor (secret: string)
      ensures this.secret == secret && carry == ""
    {
      this.secret := secret;
      carry := "";
    }

    /** Feed one upstream chunk; the bytes safe to write to the client now. */
    method Push(chunk: string) returns (emit: string)
      modifies this
      ensures (emit, carry) == PushStep(old(carry), chunk, secret)
    {
      if secret == "" {
        return chunk;
      }
      var combined := carry + chunk;
      var redacted := Redact(combined, secret);
      var keep := |secret| - 1;
      if |redacted| <= keep {
        carry := redacted;
        return "";
      }
      emit := redacted[..|redacted| - keep];
      carry := redacted[|redacted| - keep..];
    }

    /** The held-back tail, once the stream ends. */
    method Flush() returns (tail: string)
      modifies this
      ensures tail == old(carry) && carry == ""
    {
      tail := carry;
      carry := "";
    }
  }
}
