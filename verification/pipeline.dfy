/**
 * The two halves together: what the page makes of the frames the relay
 * writes. The relay's output is a run of newline-terminated lines, two per
 * event (the `data:` line and the blank line that ends the event). Read in
 * chunks cut at frame boundaries, the page's per-chunk decoder recovers
 * exactly the relayed fragments; read in chunks cut anywhere, only a decoder
 * with a carry-over buffer does.
 */
module Pipeline {
  import opened Wrappers
  import opened Lines
  import opened JsonText
  import opened Relay
  import opened Client

  /** The `data:` payload of an event's frame. */
  function FrameData(e: RelayEvent): string
  {
    match e
    case Content(t) => EncodeContent(t)
    case Done => DoneMarker
  }

  /** The lines of the relay's output: each event's `data:` line, then a blank line. */
  function FrameLines(es: seq<RelayEvent>): (r: seq<string>)
    ensures |r| == 2 * |es|
  {
    if es == [] then [] else [DataPrefix + FrameData(es[0]), ""] + FrameLines(es[1..])
  }

  /** The fragments carried by the content events, in order; the sentinel carries none. */
  function EventTexts(es: seq<RelayEvent>): (r: seq<string>)
    ensures |r| <= |es|
  {
    if es == [] then []
    else (if es[0].Content? then [es[0].text] else []) + EventTexts(es[1..])
  }

  lemma {:induction false} EventTextsAppend(a: seq<RelayEvent>, b: seq<RelayEvent>)
    ensures EventTexts(a + b) == EventTexts(a) + EventTexts(b)
  {
    if a == [] {
      assert a + b == b;
    } else {
      assert (a + b)[1..] == a[1..] + b;
      EventTextsAppend(a[1..], b);
      AppendAssoc(EventTexts([a[0]]), EventTexts(a[1..]), EventTexts(b));
    }
  }

  /** No event carries an empty fragment (the relay never emits one). */
  predicate NonEmptyTexts(es: seq<RelayEvent>)
  {
    forall i :: 0 <= i < |es| && es[i].Content? ==> es[i].text != ""
  }

  lemma FrameIsTwoLines(e: RelayEvent)
    ensures NoNewline(DataPrefix + FrameData(e))
    ensures Frame(e) == Terminated([DataPrefix + FrameData(e), ""])
  {
    if e.Content? {
      EncodeContentNoNewline(e.text);
    }
    assert [DataPrefix + FrameData(e), ""][1..] == [""];
    assert [""][1..] == [];
  }

  /** The relay's output, read as one text, is exactly its frame lines, each terminated. */
  lemma {:induction false} FramesAreLines(es: seq<RelayEvent>)
    ensures AllNoNewline(FrameLines(es))
    ensures Flatten(Frames(es)) == Terminated(FrameLines(es))
  {
    if es != [] {
      var head := [DataPrefix + FrameData(es[0]), ""];
      FramesAreLines(es[1..]);
      FrameIsTwoLines(es[0]);
      TerminatedAppend(head, FrameLines(es[1..]));
      assert Frames(es)[1..] == Frames(es[1..]);
      var ls := FrameLines(es);
      forall i | 0 <= i < |ls|
        ensures NoNewline(ls[i])
      {
        if i >= 2 {
          assert ls[i] == FrameLines(es[1..])[i - 2];
        }
      }
    }
  }

  /** The page's decoding of one event's two lines: its fragment, or nothing. */
  lemma FrameLinesDecoded(parse: Parser, e: RelayEvent)
    requires ReadsContentFrames(parse)
    requires e.Content? ==> e.text != ""
    ensures LinesFragments(parse, [DataPrefix + FrameData(e), ""]) == EventTexts([e])
  {
    var line := DataPrefix + FrameData(e);
    assert line[|DataPrefix|..] == FrameData(e);
    assert LineFragment(parse, "") == None;
    if e.Content? {
      assert FrameData(e)[0] == '{' != DoneMarker[0];
      assert parse(FrameData(e)) == Some(ContentPayload(e.text));
      assert LineFragment(parse, line) == Some(e.text);
    }
    assert [line, ""][1..] == [""];
    assert [""][1..] == [];
  }

  /** The page decodes the relay's frame lines into exactly the relayed fragments. */
  lemma {:induction false} FrameLinesDecodedInOrder(parse: Parser, es: seq<RelayEvent>)
    requires ReadsContentFrames(parse)
    requires NonEmptyTexts(es)
    ensures LinesFragments(parse, FrameLines(es)) == EventTexts(es)
  {
    if es != [] {
      FrameLinesDecoded(parse, es[0]);
      FrameLinesDecodedInOrder(parse, es[1..]);
      LinesFragmentsAppend(parse, [DataPrefix + FrameData(es[0]), ""], FrameLines(es[1..]));
      assert [es[0]] + es[1..] == es;
      EventTextsAppend([es[0]], es[1..]);
    }
  }

  /** A chunk holding whole frames is decoded by the page into their fragments. */
  lemma WholeFramesDecoded(parse: Parser, es: seq<RelayEvent>)
    requires ReadsContentFrames(parse)
    requires NonEmptyTexts(es)
    ensures ChunkFragments(parse, Flatten(Frames(es))) == EventTexts(es)
  {
    FramesAreLines(es);
    SplitTerminated(FrameLines(es), "");
    assert Terminated(FrameLines(es)) + "" == Terminated(FrameLines(es));
    LinesFragmentsAppend(parse, FrameLines(es), [""]);
    FrameLinesDecodedInOrder(parse, es);
    assert LineFragment(parse, "") == None;
    assert [""][1..] == [];
  }

  /** The chunks the page reads when each read delivers one group of whole frames. */
  function AlignedChunks(groups: seq<seq<RelayEvent>>): (r: seq<string>)
    ensures |r| == |groups|
  {
    if groups == [] then [] else [Flatten(Frames(groups[0]))] + AlignedChunks(groups[1..])
  }

  /**
   * Reads cut at frame boundaries, in any grouping: the page's per-chunk
   * decoder yields every relayed fragment, in order, and nothing else.
   */
  lemma {:induction false} AlignedChunksDecoded(parse: Parser, groups: seq<seq<RelayEvent>>)
    requires ReadsContentFrames(parse)
    requires NonEmptyTexts(Flatten(groups))
    ensures StreamFragments(parse, AlignedChunks(groups)) == EventTexts(Flatten(groups))
  {
    if groups != [] {
      var rest := Flatten(groups[1..]);
      assert Flatten(groups) == groups[0] + rest;
      assert NonEmptyTexts(groups[0]) by {
        forall i | 0 <= i < |groups[0]| && groups[0][i].Content?
          ensures groups[0][i].text != ""
        {
          assert groups[0][i] == Flatten(groups)[i];
        }
      }
      assert NonEmptyTexts(rest) by {
        forall i | 0 <= i < |rest| && rest[i].Content?
          ensures rest[i].text != ""
        {
          assert rest[i] == Flatten(groups)[|groups[0]| + i];
        }
      }
      WholeFramesDecoded(parse, groups[0]);
      AlignedChunksDecoded(parse, groups[1..]);
      assert AlignedChunks(groups)[1..] == AlignedChunks(groups[1..]);
      EventTextsAppend(groups[0], rest);
    }
  }

  /** The relay's events for a body are its delta lines' content events, then perhaps the sentinel. */
  lemma RelayTexts(parse: Parser, upstream: Upstream)
    ensures NonEmptyTexts(RelayEvents(parse, upstream))
    ensures upstream.Body? ==>
      EventTexts(RelayEvents(parse, upstream))
        == EventTexts(LineEvents(parse, CompleteLines(Flatten(upstream.chunks))))
  {
    if upstream.Body? {
      var events := LineEvents(parse, CompleteLines(Flatten(upstream.chunks)));
      EventTextsAppend(events, [Done]);
      assert EventTexts([Done]) == [];
    }
  }

  /**
   * End to end, for reads cut at frame boundaries: the text the page shows
   * is the concatenation of the fragments the relay forwarded, whatever
   * JSON.parse the relay used upstream.
   */
  lemma EndToEnd(upstreamParse: Parser, parse: Parser, upstream: Upstream, groups: seq<seq<RelayEvent>>)
    requires ReadsContentFrames(parse)
    requires Flatten(groups) == RelayEvents(upstreamParse, upstream)
    ensures Flatten(StreamFragments(parse, AlignedChunks(groups)))
         == Flatten(EventTexts(RelayEvents(upstreamParse, upstream)))
  {
    RelayTexts(upstreamParse, upstream);
    AlignedChunksDecoded(parse, groups);
  }

  /**
   * The buffered decoder does not depend on how the relay's output is cut
   * into reads: any chunks that concatenate to it decode to the relayed
   * fragments.
   */
  lemma BufferedDecodingIgnoresChunking(parse: Parser, es: seq<RelayEvent>, chunks: seq<string>)
    requires ReadsContentFrames(parse)
    requires NonEmptyTexts(es)
    requires Flatten(chunks) == Flatten(Frames(es))
    ensures Flatten(LinesFragments(parse, CompleteLines(Flatten(chunks)))) == Flatten(EventTexts(es))
  {
    FramesAreLines(es);
    SplitTerminated(FrameLines(es), "");
    assert Terminated(FrameLines(es)) + "" == Terminated(FrameLines(es));
    FrameLinesDecodedInOrder(parse, es);
  }

  /** A read holding only `data:`, without its space, contributes nothing. */
  lemma PrefixWithoutSpaceDecodesNothing(parse: Parser)
    ensures ChunkFragments(parse, "data:") == []
  {
    SplitNoNewline("data:");
    assert !StartsWith("data:", DataPrefix);
    assert ["data:"][1..] == [];
  }

  /** A read holding the rest of a content frame, cut after `data:`, contributes nothing. */
  lemma FrameTailDecodesNothing(parse: Parser, text: string)
    ensures ChunkFragments(parse, " " + EncodeContent(text) + "\n\n") == []
  {
    var rest := " " + EncodeContent(text);
    EncodeContentNoNewline(text);
    assert NoNewline(rest) by {
      assert rest == [' '] + EncodeContent(text);
    }
    assert rest + "\n\n" == Terminated([rest, ""]) + "" by {
      assert [rest, ""][1..] == [""] && [""][1..] == [];
    }
    SplitTerminated([rest, ""], "");
    assert !StartsWith(rest, DataPrefix) by {
      assert rest[1] == '{';
    }
    assert Split(rest + "\n\n") == [rest, "", ""];
    assert LineFragment(parse, rest) == None && LineFragment(parse, "") == None;
    assert [rest, "", ""][1..] == ["", ""] && ["", ""][1..] == [""] && [""][1..] == [];
    assert LinesFragments(parse, [""]) == [];
    assert LinesFragments(parse, ["", ""]) == [];
    assert LinesFragments(parse, [rest, "", ""]) == [];
  }

  /** The two reads together are the whole frame. */
  lemma SplitFrameConcatenates(text: string)
    ensures Flatten(["data:", " " + EncodeContent(text) + "\n\n"]) == Flatten(Frames([Content(text)]))
  {
    var tail := " " + EncodeContent(text) + "\n\n";
    var chunks := ["data:", tail];
    var es := [Content(text)];
    assert chunks[1..] == [tail] && [tail][1..] == [];
    assert Frames(es) == [Frame(Content(text))];
    assert Frames(es)[1..] == [];
  }

  /**
   * The page's per-chunk decoder as written loses a frame cut across two
   * reads: a content frame delivered as `data:` and then the rest
   * contributes nothing, while the buffered decoder recovers its fragment.
   */
  lemma SplitFrameIsLost(parse: Parser, text: string)
    requires ReadsContentFrames(parse)
    requires text != ""
    ensures var chunks := ["data:", " " + EncodeContent(text) + "\n\n"];
      && Flatten(chunks) == Flatten(Frames([Content(text)]))
      && StreamFragments(parse, chunks) == []
      && Flatten(LinesFragments(parse, CompleteLines(Flatten(chunks)))) == text
  {
    var tail := " " + EncodeContent(text) + "\n\n";
    var chunks := ["data:", tail];
    var es := [Content(text)];
    SplitFrameConcatenates(text);
    PrefixWithoutSpaceDecodesNothing(parse);
    FrameTailDecodesNothing(parse, text);
    assert chunks[1..] == [tail] && [tail][1..] == [];
    assert StreamFragments(parse, [tail]) == ChunkFragments(parse, tail) + StreamFragments(parse, []);
    assert StreamFragments(parse, chunks) == ChunkFragments(parse, "data:") + StreamFragments(parse, [tail]);
    BufferedDecodingIgnoresChunking(parse, es, chunks);
    assert EventTexts(es) == [text];
    assert Flatten([text]) == text + Flatten([text][1..]);
  }
}
