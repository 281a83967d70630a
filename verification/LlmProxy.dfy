// The two loops that carry an upstream response to the client: metering and redaction together.
module LlmProxy {
  import opened Text
  import opened Wrappers
  import opened SseUsage
  import R = Redactor

  const MAX_ENFORCED_BUFFER_BYTES: nat := 32 * 1024 * 1024

  /** One upstream chunk: its bytes, and the text the streaming decoder yields for it. */
  datatype Chunk = Chunk(bytes: string, text: string)

  function Bytes(chunks: seq<Chunk>): seq<string> {
    seq(|chunks|, i requires 0 <= i < |chunks| => chunks[i].bytes)
  }

  function Texts(chunks: seq<Chunk>): seq<string> {
    seq(|chunks|, i requires 0 <= i < |chunks| => chunks[i].text)
  }

  /** Usage of a whole response: drained events for a stream, the top-level object otherwise. */
  function UsageOfBody(isSse: bool, text: string, parse: JsonParser): Usage {
    if isSse then Drained(NoUsage, text, parse).0
    else
      match if text == "" then None else parse(text)
      case Some(body) => (match Field(body, "usage") case Some(j) => Applied(NoUsage, j) case None => NoUsage)
      case None => NoUsage
  }

  /** What either loop keeps true after the chunks `seen`. */
  ghost predicate Midway(seen: seq<Chunk>, out: string, carry: string, usage: Usage, sseRest: string, json: string,
                         isSse: bool, secret: string, parse: JsonParser)
  {
    && (out, carry) == R.Pushed(Bytes(seen), secret)
    && (if isSse then (usage, sseRest) == Drained(NoUsage, Concat(Texts(seen)), parse) && json == ""
        else usage == NoUsage && sseRest == "" && json == Concat(Texts(seen)))
  }

  /** The body both loops share: meter the raw text, redact the bytes. */
  method TakeChunk(acc: UsageAccumulator, redactor: R.StreamRedactor, chunk: Chunk, sseRest: string, json: string,
                   isSse: bool, parse: JsonParser, ghost seen: seq<Chunk>, ghost out: string)
    returns (safe: string, sseRest': string, json': string)
    requires Midway(seen, out, redactor.carry, acc.usage, sseRest, json, isSse, redactor.secret, parse)
    modifies acc, redactor
    ensures Midway(seen + [chunk], out + safe, redactor.carry, acc.usage, sseRest', json', isSse,
                   redactor.secret, parse)
  {
    ghost var text := Concat(Texts(seen));
    assert Concat(Texts(seen + [chunk])) == text + chunk.text by {
      assert Texts(seen + [chunk]) == Texts(seen) + [chunk.text];
      ConcatAppend(Texts(seen), chunk.text);
    }
    assert Bytes(seen + [chunk]) == Bytes(seen) + [chunk.bytes];
    assert Bytes(seen + [chunk])[..|seen|] == Bytes(seen);
    sseRest', json' := sseRest, json;
    if isSse {
      DrainInTwo(NoUsage, text, chunk.text, parse);
      sseRest' := acc.Drain(sseRest + chunk.text, parse);
    } else {
      json' := json + chunk.text;
    }
    safe := redactor.Push(chunk.bytes);
  }

  /** Usage of a non-stream body, read once the whole of it has arrived. */
  method MeterJson(acc: UsageAccumulator, isSse: bool, json: string, parse: JsonParser)
    requires isSse ==> json == ""
    requires !isSse ==> acc.usage == NoUsage
    modifies acc
    ensures acc.usage == if isSse then old(acc.usage) else UsageOfBody(false, json, parse)
  {
    if !isSse && json != "" {
      var body := parse(json);
      if body.Some? {
        var j := Field(body.value, "usage");
        if j.Some? { acc.ApplyUsage(j.value); }
      }
    }
  }

  /**
   * Stream-through delivery. `chunks` is whatever arrived before the stream ended or broke;
   * both exits flush the held-back tail.
   */
  method StreamThrough(chunks: seq<Chunk>, isSse: bool, secret: string, parse: JsonParser)
    returns (out: string, usage: Usage)
    ensures out == R.Stream(Bytes(chunks), secret)
    ensures usage == UsageOfBody(isSse, Concat(Texts(chunks)), parse)
  {
    var acc := new UsageAccumulator();
    var redactor := new R.StreamRedactor(secret);
    out := "";
    var sseRest, json := "", "";
    for k := 0 to |chunks|
      invariant redactor.secret == secret
      invariant Midway(chunks[..k], out, redactor.carry, acc.usage, sseRest, json, isSse, secret, parse)
    {
      assert chunks[..k + 1] == chunks[..k] + [chunks[k]];
      var safe;
      safe, sseRest, json := TakeChunk(acc, redactor, chunks[k], sseRest, json, isSse, parse, chunks[..k], out);
      out := out + safe;
    }
    assert chunks[..|chunks|] == chunks;
    var tail := redactor.Flush();
    out := out + tail;
    MeterJson(acc, isSse, json, parse);
    usage := acc.usage;
  }

  function TotalBytes(chunks: seq<Chunk>): nat {
    |Concat(Bytes(chunks))|
  }

  lemma TotalBytesNext(chunks: seq<Chunk>, k: nat)
    requires k < |chunks|
    ensures chunks[..k + 1] == chunks[..k] + [chunks[k]]
    ensures TotalBytes(chunks[..k + 1]) == TotalBytes(chunks[..k]) + |chunks[k].bytes|
  {
    assert Bytes(chunks[..k + 1]) == Bytes(chunks[..k]) + [chunks[k].bytes];
    ConcatAppend(Bytes(chunks[..k]), chunks[k].bytes);
  }

  /** The chunks the enforced path takes in: all of them, or up to the one that bursts the ceiling. */
  ghost predicate Accepted(chunks: seq<Chunk>, n: nat) {
    && n <= |chunks|
    && TotalBytes(chunks[..n]) <= MAX_ENFORCED_BUFFER_BYTES
    && (n < |chunks| ==> TotalBytes(chunks[..n + 1]) > MAX_ENFORCED_BUFFER_BYTES)
  }

  /**
   * Metered delivery: the body is consumed and redacted into a bounded buffer, the budget hook
   * sees its usage, and only then is anything written; `None` is the 402 answer.
   */
  method MeteredEnforced(chunks: seq<Chunk>, isSse: bool, secret: string, parse: JsonParser, exceeded: Usage -> bool)
    returns (delivered: Option<string>, usage: Usage, truncated: bool, taken: nat)
    ensures Accepted(chunks, taken) && (truncated <==> taken < |chunks|)
    ensures usage == UsageOfBody(isSse, Concat(Texts(chunks[..taken])), parse)
    ensures delivered == if usage.seen && exceeded(usage) then None
                         else Some(R.Stream(Bytes(chunks[..taken]), secret))
  {
    var acc := new UsageAccumulator();
    var redactor := new R.StreamRedactor(secret);
    var out := "";
    var sseRest, json := "", "";
    var bytesRead := 0;
    truncated := false;
    var k := 0;
    assert chunks[..0] == [];
    while k < |chunks|
      invariant 0 <= k <= |chunks| && redactor.secret == secret && !truncated
      invariant bytesRead == TotalBytes(chunks[..k]) <= MAX_ENFORCED_BUFFER_BYTES
      invariant Midway(chunks[..k], out, redactor.carry, acc.usage, sseRest, json, isSse, secret, parse)
    {
      TotalBytesNext(chunks, k);
      bytesRead := bytesRead + |chunks[k].bytes|;
      if bytesRead > MAX_ENFORCED_BUFFER_BYTES {
        truncated := true;
        break;
      }
      var safe;
      safe, sseRest, json := TakeChunk(acc, redactor, chunks[k], sseRest, json, isSse, parse, chunks[..k], out);
      out := out + safe;
      k := k + 1;
    }
    taken := k;
    var tail := redactor.Flush();
    out := out + tail;
    MeterJson(acc, isSse, json, parse);
    usage := acc.usage;
    delivered := if usage.seen && exceeded(usage) then None else Some(out);
  }

  lemma Sent(chunks: seq<string>) returns (sent: seq<Chunk>)
    ensures Bytes(sent) == chunks
  {
    sent := seq(|chunks|, i requires 0 <= i < |chunks| => Chunk(chunks[i], ""));
  }

  /** The client gets the redaction of the whole body, and the provider key is not in it. */
  ghost predicate Clean(chunks: seq<string>, secret: string) {
    R.Stream(chunks, secret) == R.Redact(Concat(chunks), secret) && R.Free(R.Stream(chunks, secret), secret)
  }

  /** What either loop delivers is clean, however the body is cut, exactly for keys that are not leaky; a key without
      brackets is leaky only as a part of "REDACTED". */
  lemma DeliveredIsClean(secret: string)
    requires secret != ""
    ensures (forall chunks: seq<Chunk> :: Clean(Bytes(chunks), secret)) <==> !R.Leaky(secret)
    ensures '[' !in secret && ']' !in secret ==> (R.Leaky(secret) <==> Contains("REDACTED", secret))
  {
    if '[' !in secret && ']' !in secret {
      R.PlainLeakyIff(secret);
    }
    R.StreamCleanIff(secret);
    if !R.Leaky(secret) {
      forall chunks: seq<Chunk> ensures Clean(Bytes(chunks), secret) {
        assert R.Free(R.Stream(Bytes(chunks), secret), secret);
      }
    } else {
      var chunks: seq<string> :|
        !(R.Stream(chunks, secret) == R.Redact(Concat(chunks), secret) && R.Free(R.Stream(chunks, secret), secret));
      var sent := Sent(chunks);
      assert !Clean(Bytes(sent), secret);
    }
  }
}
