/**
 * The generate endpoint's streaming relay: it reads the upstream event
 * stream chunk by chunk, reassembles lines split across reads in a buffer
 * that keeps only the trailing incomplete line, forwards the text of every
 * `content_block_delta` line as a `data: {"content": ...}` frame, and ends a
 * normally closed stream with exactly one `data: [DONE]` frame.
 *
 * The frames are a subset of the event-stream format of section 9.2 of the
 * WHATWG HTML Living Standard: only `data:` fields, lines ended by `\n`.
 */
module Relay {
  import opened Wrappers
  import opened Lines
  import opened JsonText
  import opened Prompt

  const DataPrefix := "data: "
  const DoneMarker := "[DONE]"
  const ContentBlockDelta := "content_block_delta"

  /** The simplified outbound unit: one content fragment, or the terminal sentinel. */
  datatype RelayEvent = Content(text: string) | Done

  /** How an event is written on the outbound stream. */
  function Frame(e: RelayEvent): (r: string)
    ensures |r| > |DataPrefix| + 2 && r[..|DataPrefix|] == DataPrefix
    ensures r[|r| - 2..] == "\n\n"
  {
    match e
    case Content(t) => DataPrefix + EncodeContent(t) + "\n\n"
    case Done => DataPrefix + DoneMarker + "\n\n"
  }

  const SentinelFrame := Frame(Done)

  function Frames(es: seq<RelayEvent>): (r: seq<string>)
    ensures |r| == |es|
  {
    if es == [] then [] else [Frame(es[0])] + Frames(es[1..])
  }

  lemma {:induction false} FramesAppend(a: seq<RelayEvent>, b: seq<RelayEvent>)
    ensures Frames(a + b) == Frames(a) + Frames(b)
  {
    if a == [] {
      assert a + b == b;
    } else {
      assert (a + b)[1..] == a[1..] + b;
      FramesAppend(a[1..], b);
    }
  }

  lemma {:induction false} FramesAt(es: seq<RelayEvent>, i: nat)
    requires i < |es|
    ensures Frames(es)[i] == Frame(es[i])
  {
    if i > 0 {
      FramesAt(es[1..], i - 1);
    }
  }

  /** Distinct events are written as distinct frames. */
  lemma FrameInjective(a: RelayEvent, b: RelayEvent)
    requires Frame(a) == Frame(b)
    ensures a == b
  {
    if a.Content? && b.Content? {
      var n := |Frame(a)|;
      assert EncodeContent(a.text) == Frame(a)[6..n - 2];
      assert EncodeContent(b.text) == Frame(b)[6..n - 2];
      EncodeContentInjective(a.text, b.text);
    }
  }

  predicate StartsWith(s: string, prefix: string)
  {
    |prefix| <= |s| && s[..|prefix|] == prefix
  }

  /**
   * A line the relay must forward: a `data: ` line whose payload is not
   * `[DONE]`, parses, has type `content_block_delta` and non-empty `delta.text`.
   */
  predicate IsDeltaLine(parse: Parser, line: string)
  {
    && StartsWith(line, DataPrefix)
    && line[|DataPrefix|..] != DoneMarker
    && parse(line[|DataPrefix|..]).Some?
    && parse(line[|DataPrefix|..]).value.eventType == ContentBlockDelta
    && parse(line[|DataPrefix|..]).value.deltaText != ""
  }

  /**
   * The fragment the relay forwards for one complete upstream line: only a
   * `data: ` line whose payload is not `[DONE]`, parses, has type
   * `content_block_delta` and carries a non-empty `delta.text`.
   */
  function DeltaText(parse: Parser, line: string): (r: Option<string>)
    ensures !StartsWith(line, DataPrefix) ==> r == None
    ensures line == DataPrefix + DoneMarker ==> r == None
    ensures StartsWith(line, DataPrefix) && parse(line[|DataPrefix|..]).None? ==> r == None
    ensures (StartsWith(line, DataPrefix) && parse(line[|DataPrefix|..]).Some?
             && parse(line[|DataPrefix|..]).value.eventType != ContentBlockDelta) ==> r == None
    ensures r.Some? ==>
              (&& r.value != ""
               && StartsWith(line, DataPrefix)
               && parse(line[|DataPrefix|..]).Some?
               && parse(line[|DataPrefix|..]).value.eventType == ContentBlockDelta
               && parse(line[|DataPrefix|..]).value.deltaText == r.value)
    ensures r.Some? <==> IsDeltaLine(parse, line)
    ensures IsDeltaLine(parse, line) ==> r == Some(parse(line[|DataPrefix|..]).value.deltaText)
  {
    if !StartsWith(line, DataPrefix) then None
    else
      var data := line[|DataPrefix|..];
      if data == DoneMarker then None
      else match parse(data)
        case None => None
        case Some(p) =>
          if p.eventType == ContentBlockDelta && p.deltaText != "" then Some(p.deltaText) else None
  }

  /** The events the relay emits for a run of complete lines, in line order. */
  function LineEvents(parse: Parser, lines: seq<string>): (r: seq<RelayEvent>)
    ensures |r| <= |lines|
    ensures forall i :: 0 <= i < |r| ==> r[i].Content? && r[i].text != ""
  {
    if lines == [] then []
    else
      var head := match DeltaText(parse, lines[0]) case Some(t) => [Content(t)] case None => [];
      head + LineEvents(parse, lines[1..])
  }

  lemma {:induction false} LineEventsAppend(parse: Parser, a: seq<string>, b: seq<string>)
    ensures LineEvents(parse, a + b) == LineEvents(parse, a) + LineEvents(parse, b)
  {
    if a == [] {
      assert a + b == b;
    } else {
      assert (a + b)[1..] == a[1..] + b;
      LineEventsAppend(parse, a[1..], b);
    }
  }

  /** How the upstream body ends: a normal close, or a failed read. */
  datatype Ending = Closed | ReadFailed

  /** The upstream response body: absent, or the chunks read before it ended. */
  datatype Upstream = NoBody | Body(chunks: seq<string>, ending: Ending)

  /**
   * What the relay emits, stated on the whole upstream text: one event per
   * content line among its complete lines, then the sentinel if the stream
   * closed normally. How the text was cut into chunks plays no part.
   */
  function RelayEvents(parse: Parser, upstream: Upstream): (r: seq<RelayEvent>)
    ensures upstream.NoBody? ==> r == []
    ensures (upstream.Body? && upstream.ending == Closed) <==> (|r| > 0 && r[|r| - 1] == Done)
    ensures forall i :: 0 <= i < |r| - 1 ==> r[i].Content?
  {
    match upstream
    case NoBody => []
    case Body(chunks, ending) =>
      var events := LineEvents(parse, CompleteLines(Flatten(chunks)));
      if ending == Closed then events + [Done] else events
  }

  /**
   * The `ReadableStream` the endpoint returns: its line buffer and the frames
   * enqueued on its controller. `received` and `lines` are the text read so
   * far and the complete lines taken from it.
   */
  class StreamRelay {
    const parse: Parser
    var buffer: string
    var enqueued: seq<string>
    var closed: bool
    ghost var received: string
    ghost var lines: seq<string>

    /** What has been processed, followed by the buffer, is exactly what was read. */
    ghost predicate Valid()
      reads this
    {
      && NoNewline(buffer)
      && AllNoNewline(lines)
      && Terminated(lines) + buffer == received
      && (!closed ==> enqueued == Frames(LineEvents(parse, lines)))
    }

    constructor (parse: Parser)
      ensures Valid() && this.parse == parse && !closed
      ensures buffer == "" && enqueued == [] && received == "" && lines == []
    {
      this.parse := parse;
      buffer := "";
      enqueued := [];
      closed := false;
      received := "";
      lines := [];
    }

    /** The body of the inner `for` loop: the frame, if any, for one complete line. */
    method RelayLine(line: string)
      modifies this`enqueued
      ensures enqueued == old(enqueued) + Frames(LineEvents(parse, [line]))
    {
      assert [line][1..] == [];
      if StartsWith(line, DataPrefix) {
        var data := line[|DataPrefix|..];
        if data == DoneMarker {
          return;
        }
        var parsed := parse(data);
        if parsed.Some? && parsed.value.eventType == ContentBlockDelta {
          var text := parsed.value.deltaText;
          if text != "" {
            enqueued := enqueued + [Frame(Content(text))];
          }
        }
      }
    }

    /** The inner `for` loop over the complete lines of one read. */
    method RelayLines(complete: seq<string>)
      modifies this`enqueued
      ensures enqueued == old(enqueued) + Frames(LineEvents(parse, complete))
    {
      for i := 0 to |complete|
        invariant enqueued == old(enqueued) + Frames(LineEvents(parse, complete[..i]))
      {
        assert complete[..i + 1] == complete[..i] + [complete[i]];
        LineEventsAppend(parse, complete[..i], [complete[i]]);
        FramesAppend(LineEvents(parse, complete[..i]), LineEvents(parse, [complete[i]]));
        AppendAssoc(old(enqueued), Frames(LineEvents(parse, complete[..i])), Frames(LineEvents(parse, [complete[i]])));
        RelayLine(complete[i]);
      }
      assert complete[..|complete|] == complete;
    }

    /** One turn of the read loop, for a read that delivered `chunk`. */
    method Read(chunk: string)
      requires Valid() && !closed
      modifies this
      ensures Valid() && !closed
      ensures received == old(received) + chunk
      ensures lines == old(lines) + CompleteLines(old(buffer) + chunk)
      ensures buffer == Remainder(old(buffer) + chunk)
      ensures enqueued == old(enqueued) + Frames(LineEvents(parse, CompleteLines(old(buffer) + chunk)))
    {
      buffer := buffer + chunk;
      var parts := Split(buffer);
      buffer := parts[|parts| - 1];
      var complete := parts[..|parts| - 1];
      RelayLines(complete);
      AppendChunk(old(lines), old(buffer), chunk);
      LineEventsAppend(parse, old(lines), complete);
      FramesAppend(LineEvents(parse, old(lines)), LineEvents(parse, complete));
      lines := lines + complete;
      received := received + chunk;
    }

    /** The end of the read loop: the sentinel on a normal close, then `controller.close()`. */
    method Finish(normalEnd: bool)
      requires Valid() && !closed
      modifies this
      ensures Valid() && closed
      ensures enqueued == old(enqueued) + (if normalEnd then [SentinelFrame] else [])
      ensures buffer == old(buffer) && lines == old(lines) && received == old(received)
    {
      if normalEnd {
        enqueued := enqueued + [SentinelFrame];
      }
      closed := true;
    }
  }

  /**
   * The `start` callback: without a body the stream is closed empty;
   * otherwise every chunk is fed through the buffer, and the loop ends on a
   * normal close (sentinel) or a failed read (no sentinel). What is left in
   * the buffer at the end is never processed.
   */
  method Start(parse: Parser, upstream: Upstream) returns (out: seq<string>)
    ensures out == Frames(RelayEvents(parse, upstream))
  {
    match upstream
    case NoBody =>
      out := [];
    case Body(chunks, ending) =>
      var relay := new StreamRelay(parse);
      var i := 0;
      while i < |chunks|
        invariant 0 <= i <= |chunks|
        invariant relay.Valid() && !relay.closed && relay.parse == parse
        invariant relay.received == Flatten(chunks[..i])
      {
        relay.Read(chunks[i]);
        FlattenPrefix(chunks, i);
        i := i + 1;
      }
      assert chunks[..|chunks|] == chunks;
      SplitTerminated(relay.lines, relay.buffer);
      relay.Finish(ending == Closed);
      out := relay.enqueued;
      FramesAppend(LineEvents(parse, relay.lines), [Done]);
  }

  /** The endpoint's answer: a JSON error with its status, or the event stream. */
  datatype Response = JsonError(status: nat, body: string) | EventStream(frames: seq<string>)

  /** JSON.stringify({ error: 'Generation failed' }). */
  const ErrorBody := "{\"error\":\"Generation failed\"}"

  /**
   * The POST handler. `body` is None when the request body is not JSON;
   * `upstreamOk` is the upstream response's `ok`. Returns the prompt sent
   * upstream (if the call was made) and the response.
   */
  method Post(body: Option<GenerateRequest>, upstreamOk: bool, parse: Parser, upstream: Upstream)
    returns (sent: Option<string>, response: Response)
    ensures body.None? ==> sent == None
    ensures body.Some? ==> sent == Some(RequestPrompt(body.value))
    ensures body.None? || !upstreamOk ==> response == JsonError(500, ErrorBody)
    ensures body.Some? && upstreamOk ==> response == EventStream(Frames(RelayEvents(parse, upstream)))
  {
    if body.None? {
      return None, JsonError(500, ErrorBody);
    }
    var req := body.value;
    var fullPrompt := ComposePrompt(req.basePrompt, req.topic, req.tone, req.length);
    sent := Some(fullPrompt);
    if !upstreamOk {
      return sent, JsonError(500, ErrorBody);
    }
    var frames := Start(parse, upstream);
    response := EventStream(frames);
  }

  // ---------------------------------------------------------------------
  // Properties of the relay's output
  // ---------------------------------------------------------------------

  lemma ContentFrameIsNotSentinel(e: RelayEvent)
    requires e.Content?
    ensures Frame(e) != SentinelFrame
  {
    assert Frame(e)[6] == '{';
    assert SentinelFrame[6] == '[';
  }

  /**
   * A normally closed stream ends with the sentinel frame and carries it
   * nowhere else; a stream whose read failed, or that had no body, carries
   * no sentinel at all.
   */
  lemma ExactlyOneSentinel(parse: Parser, upstream: Upstream)
    ensures var out := Frames(RelayEvents(parse, upstream));
      if upstream.Body? && upstream.ending == Closed then
        |out| >= 1 && out[|out| - 1] == SentinelFrame
        && forall i :: 0 <= i < |out| - 1 ==> out[i] != SentinelFrame
      else
        forall i :: 0 <= i < |out| ==> out[i] != SentinelFrame
  {
    var es := RelayEvents(parse, upstream);
    var out := Frames(es);
    if upstream.Body? {
      var content := LineEvents(parse, CompleteLines(Flatten(upstream.chunks)));
      forall i | 0 <= i < |content|
        ensures Frames(es)[i] != SentinelFrame
      {
        FramesAt(es, i);
        ContentFrameIsNotSentinel(content[i]);
      }
      if upstream.ending == Closed {
        FramesAt(es, |es| - 1);
      }
    }
  }

  /**
   * Events come out in line order, and a line whose payload does not parse
   * contributes nothing: the lines before and after it are relayed as if it
   * were not there.
   */
  lemma MalformedLineSkipped(parse: Parser, before: seq<string>, line: string, after: seq<string>)
    requires StartsWith(line, DataPrefix) && parse(line[|DataPrefix|..]).None?
    ensures LineEvents(parse, before + [line] + after)
         == LineEvents(parse, before) + LineEvents(parse, after)
  {
    LineEventsAppend(parse, before + [line], after);
    LineEventsAppend(parse, before, [line]);
  }

  /** A `content_block_delta` line with text is relayed as exactly one content event, in place. */
  lemma DeltaLineRelayed(parse: Parser, before: seq<string>, line: string, after: seq<string>)
    requires IsDeltaLine(parse, line)
    ensures LineEvents(parse, before + [line] + after)
         == LineEvents(parse, before) + [Content(parse(line[|DataPrefix|..]).value.deltaText)]
            + LineEvents(parse, after)
  {
    LineEventsAppend(parse, before + [line], after);
    LineEventsAppend(parse, before, [line]);
    assert [line][1..] == [];
  }

  /** Every line that is no `content_block_delta` line with text is relayed as nothing. */
  lemma OtherLineDropped(parse: Parser, before: seq<string>, line: string, after: seq<string>)
    requires !IsDeltaLine(parse, line)
    ensures LineEvents(parse, before + [line] + after)
         == LineEvents(parse, before) + LineEvents(parse, after)
  {
    LineEventsAppend(parse, before + [line], after);
    LineEventsAppend(parse, before, [line]);
    assert DeltaText(parse, line) == None;
    assert [line][1..] == [];
    assert LineEvents(parse, [line]) == [];
    assert LineEvents(parse, before) + [] == LineEvents(parse, before);
  }

  /**
   * Text after the last newline of the upstream body is never relayed:
   * adding an unterminated line at the end changes nothing.
   */
  lemma UnterminatedTailDiscarded(parse: Parser, lines: seq<string>, tail: string, ending: Ending)
    requires AllNoNewline(lines) && NoNewline(tail)
    ensures RelayEvents(parse, Body([Terminated(lines) + tail], ending))
         == RelayEvents(parse, Body([Terminated(lines)], ending))
  {
    assert Flatten([Terminated(lines) + tail]) == Terminated(lines) + tail;
    assert Flatten([Terminated(lines)]) == Terminated(lines) + "";
    SplitTerminated(lines, tail);
    SplitTerminated(lines, "");
  }

  /** One content event per fragment, in the fragments' order. */
  function ContentEvents(texts: seq<string>): (r: seq<RelayEvent>)
    ensures |r| == |texts|
  {
    if texts == [] then [] else [Content(texts[0])] + ContentEvents(texts[1..])
  }

  /**
   * Lines that each carry a delta fragment are relayed as exactly those
   * fragments, one event per line, in line order.
   */
  lemma {:induction false} DeltaLinesRelayedInOrder(parse: Parser, lines: seq<string>, texts: seq<string>)
    requires |lines| == |texts|
    requires forall i :: 0 <= i < |lines| ==> DeltaText(parse, lines[i]) == Some(texts[i])
    ensures LineEvents(parse, lines) == ContentEvents(texts)
  {
    if lines != [] {
      DeltaLinesRelayedInOrder(parse, lines[1..], texts[1..]);
    }
  }
}
