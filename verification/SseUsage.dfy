// Reading token usage off a server-sent-event stream, chunk by chunk.
module SseUsage {
  import opened Text
  import opened Wrappers

  datatype Json =
    | JNull
    | JBool(b: bool)
    | JNum(n: real)
    | JStr(s: string)
    | JArr(items: seq<Json>)
    | JObj(fields: map<string, Json>)

  /** `JSON.parse`; `None` where it throws. */
  type JsonParser = string -> Option<Json>

  function Field(j: Json, key: string): Option<Json> {
    if j.JObj? && key in j.fields then Some(j.fields[key]) else None
  }

  function NumField(j: Json, key: string): Option<real> {
    match Field(j, key)
    case Some(JNum(n)) => Some(n)
    case _ => None
  }

  datatype Usage = Usage(input: real, output: real, cacheRead: real, cacheCreation: real, seen: bool)

  const NoUsage := Usage(0.0, 0.0, 0.0, 0.0, false)

  /** The counters after reading one `usage` object. */
  function Applied(u: Usage, j: Json): Usage {
    var i := NumField(j, "input_tokens");
    var o := NumField(j, "output_tokens");
    var r := NumField(j, "cache_read_input_tokens");
    var c := NumField(j, "cache_creation_input_tokens");
    Usage(i.GetOr(u.input), o.GetOr(u.output), r.GetOr(u.cacheRead), c.GetOr(u.cacheCreation),
          u.seen || i.Some? || o.Some? || r.Some? || c.Some?)
  }

  /** The `usage` object an event carries: under `message` for a start, at the top for a delta. */
  function UsageOf(event: Json): Option<Json> {
    match Field(event, "type")
    case Some(JStr(t)) =>
      if t == "message_start" then
        var msg :- Field(event, "message");
        Field(msg, "usage")
      else if t == "message_delta" then Field(event, "usage")
      else None
    case _ => None
  }

  function Ingested(u: Usage, event: Json): Usage {
    match UsageOf(event)
    case Some(j) => Applied(u, j)
    case None => u
  }

  function DataLines(lines: seq<string>): seq<string> {
    if lines == [] then []
    else if StartsWith(lines[0], "data:") then [Trim(lines[0][5..])] + DataLines(lines[1..])
    else DataLines(lines[1..])
  }

  lemma {:induction false} DataLinesAppend(a: seq<string>, line: string)
    ensures DataLines(a + [line]) ==
            DataLines(a) + if StartsWith(line, "data:") then [Trim(line[5..])] else []
  {
    if a == [] {
      assert [line][1..] == [];
    } else {
      DataLinesAppend(a[1..], line);
      assert (a + [line])[1..] == a[1..] + [line];
    }
  }

  /** The event one block between blank lines stands for, if it holds parseable data. */
  function EventOf(block: string, parse: JsonParser): Option<Json> {
    var data := DataLines(Split(block, '\n'));
    if data == [] then None else parse(Join(data, '\n'))
  }

  function AfterBlock(u: Usage, block: string, parse: JsonParser): Usage {
    match EventOf(block, parse)
    case Some(event) => Ingested(u, event)
    case None => u
  }

  const BLANK: string := "\n\n"

  /** `buffer.indexOf("\n\n")`. */
  function BlankAt(buffer: string): (r: Option<nat>)
    ensures r.Some? ==> At(buffer, BLANK, r.value) && forall i: nat | i < r.value :: !At(buffer, BLANK, i)
    ensures r.None? ==> forall i: nat :: !At(buffer, BLANK, i)
  {
    if |buffer| < 2 then None
    else if buffer[..2] == BLANK then assert buffer[0..2] == buffer[..2]; Some(0)
    else
      assert forall i: nat | 0 < i :: At(buffer, BLANK, i) <==> At(buffer[1..], BLANK, i - 1) by {
        forall i: nat | 0 < i ensures At(buffer, BLANK, i) <==> At(buffer[1..], BLANK, i - 1) {
          if i + 2 <= |buffer| {
            assert buffer[i..i + 2] == buffer[1..][i - 1..i + 1];
          }
        }
      }
      assert buffer[0..2] == buffer[..2];
      match BlankAt(buffer[1..])
      case None => None
      case Some(i) => Some(i + 1)
  }

  /** Whole-buffer reading: the usage and the unconsumed tail. */
  function Drained(u: Usage, buffer: string, parse: JsonParser): (Usage, string)
    decreases |buffer|
  {
    match BlankAt(buffer)
    case None => (u, buffer)
    case Some(i) => Drained(AfterBlock(u, buffer[..i], parse), buffer[i + 2..], parse)
  }

  /** A blank line already in the buffer is still the first one when more text arrives. */
  lemma BlankStays(a: string, b: string)
    requires BlankAt(a).Some?
    ensures BlankAt(a + b) == BlankAt(a)
  {
    var i := BlankAt(a).value;
    assert (a + b)[i..i + 2] == a[i..i + 2];
    assert At(a + b, BLANK, i);
    forall j: nat | j < i ensures !At(a + b, BLANK, j) {
      assert !At(a, BLANK, j);
      assert (a + b)[j..j + 2] == a[j..j + 2];
    }
  }

  /** Draining what has arrived and then the rest equals draining everything at once. */
  lemma {:induction false} DrainInTwo(u: Usage, a: string, b: string, parse: JsonParser)
    ensures var (u', rest) := Drained(u, a, parse);
            Drained(u, a + b, parse) == Drained(u', rest + b, parse)
    decreases |a|
  {
    match BlankAt(a) {
      case None =>
      case Some(i) =>
        BlankStays(a, b);
        assert (a + b)[..i] == a[..i];
        assert (a + b)[i + 2..] == a[i + 2..] + b;
        DrainInTwo(AfterBlock(u, a[..i], parse), a[i + 2..], b, parse);
    }
  }

  /** What the delivery loop does with the decoded chunks. */
  function DrainedInChunks(u: Usage, rest: string, chunks: seq<string>, parse: JsonParser): (Usage, string)
    decreases |chunks|
  {
    if chunks == [] then (u, rest)
    else
      var (u', rest') := Drained(u, rest + chunks[0], parse);
      DrainedInChunks(u', rest', chunks[1..], parse)
  }

  /** A buffer with no blank line drains to itself. */
  ghost predicate Settled(rest: string) {
    forall i: nat :: !At(rest, BLANK, i)
  }

  lemma {:induction false} LeftoverSettled(u: Usage, buffer: string, parse: JsonParser)
    ensures Settled(Drained(u, buffer, parse).1)
    decreases |buffer|
  {
    match BlankAt(buffer) {
      case None =>
      case Some(i) => LeftoverSettled(AfterBlock(u, buffer[..i], parse), buffer[i + 2..], parse);
    }
  }

  /** For every chunking: same usage, same leftover, and no blank line left over. */
  lemma {:induction false} ChunkingIrrelevant(u: Usage, rest: string, chunks: seq<string>, parse: JsonParser)
    requires Settled(rest)
    ensures DrainedInChunks(u, rest, chunks, parse) == Drained(u, rest + Concat(chunks), parse)
    ensures Settled(DrainedInChunks(u, rest, chunks, parse).1)
    decreases |chunks|
  {
    if chunks == [] {
      Blank(rest);
    } else {
      var now, later := rest + chunks[0], Concat(chunks[1..]);
      var (u', rest') := Drained(u, now, parse);
      LeftoverSettled(u, now, parse);
      ChunkingIrrelevant(u', rest', chunks[1..], parse);
      DrainInTwo(u, now, later, parse);
      Regroup(rest, chunks[0], now, later);
    }
  }

  // ---- what the drained usage is ----

  /** The blocks a buffer closes with a blank line. */
  function Blocks(buffer: string): (seq<string>, string)
    decreases |buffer|
  {
    match BlankAt(buffer)
    case None => ([], buffer)
    case Some(i) =>
      var (blocks, rest) := Blocks(buffer[i + 2..]);
      ([buffer[..i]] + blocks, rest)
  }

  function Closed(blocks: seq<string>): string {
    if blocks == [] then "" else blocks[0] + BLANK + Closed(blocks[1..])
  }

  /** The last number any block reports under `key`, or what was known before. */
  function LastReported(blocks: seq<string>, key: string, before: real, parse: JsonParser): real
    decreases |blocks|
  {
    if blocks == [] then before
    else
      var event := EventOf(blocks[|blocks| - 1], parse);
      var usage := if event.Some? then UsageOf(event.value) else None;
      if usage.Some? && NumField(usage.value, key).Some? then NumField(usage.value, key).value
      else LastReported(blocks[..|blocks| - 1], key, before, parse)
  }

  function AfterBlocks(u: Usage, blocks: seq<string>, parse: JsonParser): Usage
    decreases |blocks|
  {
    if blocks == [] then u
    else AfterBlock(AfterBlocks(u, blocks[..|blocks| - 1], parse), blocks[|blocks| - 1], parse)
  }

  /** The buffer is its blocks, each closed by a blank line, followed by the leftover. */
  lemma {:induction false} BlocksPartition(buffer: string)
    ensures buffer == Closed(Blocks(buffer).0) + Blocks(buffer).1
    decreases |buffer|
  {
    match BlankAt(buffer) {
      case None =>
        Blank(buffer);
      case Some(i) =>
        var (blocks, rest) := Blocks(buffer[i + 2..]);
        BlocksPartition(buffer[i + 2..]);
        ClosedCons(buffer[..i], blocks);
        CutAt(buffer, i);
        Regroup(buffer[..i] + BLANK, Closed(blocks), buffer[..i] + BLANK + Closed(blocks), rest);
    }
  }

  lemma ClosedCons(block: string, blocks: seq<string>)
    ensures Closed([block] + blocks) == block + BLANK + Closed(blocks)
  {
    assert ([block] + blocks)[1..] == blocks;
  }

  lemma CutAt(buffer: string, i: nat)
    requires At(buffer, BLANK, i)
    ensures buffer == buffer[..i] + BLANK + buffer[i + 2..]
  {
    assert buffer == buffer[..i] + buffer[i..i + 2] + buffer[i + 2..];
  }

  lemma {:induction false} AfterBlocksFirst(u: Usage, block: string, blocks: seq<string>, parse: JsonParser)
    ensures AfterBlocks(u, [block] + blocks, parse) == AfterBlocks(AfterBlock(u, block, parse), blocks, parse)
    decreases |blocks|
  {
    var all := [block] + blocks;
    if blocks == [] {
      assert all[..0] == [];
    } else {
      AfterBlocksFirst(u, block, blocks[..|blocks| - 1], parse);
      assert all[..|all| - 1] == [block] + blocks[..|blocks| - 1];
    }
  }

  lemma {:induction false} DrainedIsBlocks(u: Usage, buffer: string, parse: JsonParser)
    ensures Drained(u, buffer, parse) == (AfterBlocks(u, Blocks(buffer).0, parse), Blocks(buffer).1)
    decreases |buffer|
  {
    match BlankAt(buffer) {
      case None =>
      case Some(i) =>
        var u' := AfterBlock(u, buffer[..i], parse);
        DrainedIsBlocks(u', buffer[i + 2..], parse);
        AfterBlocksFirst(u, buffer[..i], Blocks(buffer[i + 2..]).0, parse);
    }
  }

  lemma {:induction false} LastWriterWins(u: Usage, blocks: seq<string>, parse: JsonParser)
    ensures var r := AfterBlocks(u, blocks, parse);
            && r.input == LastReported(blocks, "input_tokens", u.input, parse)
            && r.output == LastReported(blocks, "output_tokens", u.output, parse)
            && r.cacheRead == LastReported(blocks, "cache_read_input_tokens", u.cacheRead, parse)
            && r.cacheCreation == LastReported(blocks, "cache_creation_input_tokens", u.cacheCreation, parse)
    decreases |blocks|
  {
    if blocks != [] {
      LastWriterWins(u, blocks[..|blocks| - 1], parse);
    }
  }

  // ---- the accumulator and the splitter as the proxy runs them ----

  class UsageAccumulator {
    var usage: Usage

    constructor ()
      ensures usage == NoUsage
    {
      usage := NoUsage;
    }

    method ApplyUsage(j: Json)
      modifies this
      ensures usage == Applied(old(usage), j)
    {
      var i := NumField(j, "input_tokens");
      if i.Some? { usage := usage.(input := i.value, seen := true); }
      var o := NumField(j, "output_tokens");
      if o.Some? { usage := usage.(output := o.value, seen := true); }
      var r := NumField(j, "cache_read_input_tokens");
      if r.Some? { usage := usage.(cacheRead := r.value, seen := true); }
      var c := NumField(j, "cache_creation_input_tokens");
      if c.Some? { usage := usage.(cacheCreation := c.value, seen := true); }
    }

    method Ingest(event: Json)
      modifies this
      ensures usage == Ingested(old(usage), event)
    {
      var t := Field(event, "type");
      if t == Some(JStr("message_start")) {
        var msg := Field(event, "message");
        if msg.Some? {
          var j := Field(msg.value, "usage");
          if j.Some? { ApplyUsage(j.value); }
        }
      } else if t == Some(JStr("message_delta")) {
        var j := Field(event, "usage");
        if j.Some? { ApplyUsage(j.value); }
      }
    }

    /** Consume every complete event; the tail to prepend to the next chunk. */
    method Drain(buffer: string, parse: JsonParser) returns (rest: string)
      modifies this
      ensures (usage, rest) == Drained(old(usage), buffer, parse)
    {
      rest := buffer;
      while true
        invariant Drained(usage, rest, parse) == Drained(old(usage), buffer, parse)
        decreases |rest|
      {
        var idx := BlankAt(rest);
        if idx.None? { return; }
        var block := rest[..idx.value];
        var data := CollectData(block);
        rest := rest[idx.value + 2..];
        if data != [] {
          var event := parse(Join(data, '\n'));
          if event.Some? { Ingest(event.value); }
        }
      }
    }
  }

  method CollectData(block: string) returns (data: seq<string>)
    ensures data == DataLines(Split(block, '\n'))
  {
    data := [];
    var lines := Split(block, '\n');
    for k := 0 to |lines|
      invariant data == DataLines(lines[..k])
    {
      DataLinesAppend(lines[..k], lines[k]);
      assert lines[..k + 1] == lines[..k] + [lines[k]];
      if StartsWith(lines[k], "data:") {
        data := data + [Trim(lines[k][5..])];
      }
    }
    assert lines[..|lines|] == lines;
  }
}
