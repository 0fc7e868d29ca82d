/**
 * The page's `generateContent`: topic validation, the POST to the generate
 * endpoint, and the read loop that decodes each chunk of the relay's stream
 * on its own (split on `\n`, no carry-over between chunks) and appends every
 * truthy `content` to the text shown on the page.
 */
module Client {
  import opened Wrappers
  import opened Lines
  import opened JsonText
  import opened Prompt
  import opened Relay

  /** One entry of the `templates` table; the icon is left out. */
  datatype Template = Template(id: string, name: string, prompt: string, placeholder: string)

  const Templates: seq<Template> := [
    Template("blog", "Blog Post", "Write a comprehensive blog post about",
             "e.g., benefits of meditation for mental health"),
    Template("article", "Article", "Write a detailed article about",
             "e.g., future of renewable energy"),
    Template("email", "Email", "Write a professional email about",
             "e.g., requesting a meeting with a client"),
    Template("social", "Social Media", "Create engaging social media content about",
             "e.g., launching a new product"),
    Template("product", "Product Description", "Write a compelling product description for",
             "e.g., ergonomic office chair"),
    Template("creative", "Creative Writing", "Write a creative piece about",
             "e.g., a journey through space"),
    Template("ideas", "Ideas & Brainstorm", "Generate creative ideas for",
             "e.g., marketing campaign for eco-friendly products")
  ]

  function FindTemplate(ts: seq<Template>, id: string): (r: Option<Template>)
    ensures r.Some? ==> r.value in ts && r.value.id == id
    ensures r.None? ==> forall i :: 0 <= i < |ts| ==> ts[i].id != id
  {
    if ts == [] then None
    else if ts[0].id == id then Some(ts[0])
    else FindTemplate(ts[1..], id)
  }

  /** The base prompt the page sends for a template id, if the id is in the table. */
  function TemplatePrompt(id: string): (r: Option<string>)
    ensures r.Some? <==> exists i :: 0 <= i < |Templates| && Templates[i].id == id
    ensures r.Some? ==> exists i :: 0 <= i < |Templates| && Templates[i].id == id && Templates[i].prompt == r.value
  {
    match FindTemplate(Templates, id)
    case Some(t) => Some(t.prompt)
    case None => None
  }

  /** No two templates share an id, so the lookup is unambiguous. */
  lemma TemplateIdsDistinct()
    ensures forall i, j :: 0 <= i < j < |Templates| ==> Templates[i].id != Templates[j].id
  {
  }

  /** Any template the page can select is found again by its id, with its own prompt. */
  lemma SelectedTemplateFound(t: Template)
    ensures t in Templates ==> TemplatePrompt(t.id) == Some(t.prompt)
  {
    if t in Templates {
      TemplateIdsDistinct();
      var f := FindTemplate(Templates, t.id);
      assert f.Some?;
      var i :| 0 <= i < |Templates| && Templates[i] == f.value;
      var j :| 0 <= j < |Templates| && Templates[j] == t;
      assert i == j;
    }
  }

  // ---------------------------------------------------------------------
  // String.prototype.trim
  // ---------------------------------------------------------------------

  /** ECMAScript WhiteSpace and LineTerminator code points: what `trim` removes. */
  predicate IsTrimmable(c: char)
  {
    || c == '\t' || c == '\n' || c == '\U{B}' || c == '\U{C}' || c == '\r' || c == ' '
    || c == '\U{A0}' || c == '\U{1680}' || ('\U{2000}' <= c <= '\U{200A}')
    || c == '\U{2028}' || c == '\U{2029}' || c == '\U{202F}' || c == '\U{205F}'
    || c == '\U{3000}' || c == '\U{FEFF}'
  }

  /** Every character is white space (true of the empty string). */
  predicate AllTrimmable(s: string)
  {
    forall i :: 0 <= i < |s| ==> IsTrimmable(s[i])
  }

  function TrimStart(s: string): (r: string)
    ensures |r| <= |s|
  {
    if s != [] && IsTrimmable(s[0]) then TrimStart(s[1..]) else s
  }

  function TrimEnd(s: string): (r: string)
    ensures |r| <= |s|
  {
    if s != [] && IsTrimmable(s[|s| - 1]) then TrimEnd(s[..|s| - 1]) else s
  }

  /** `s.trim()`: white space removed at both ends. */
  function Trim(s: string): (r: string)
    ensures |r| <= |s|
  {
    TrimEnd(TrimStart(s))
  }

  /** `trimStart` keeps a suffix of its input. */
  lemma {:induction false} TrimStartSuffix(s: string)
    ensures TrimStart(s) == s[|s| - |TrimStart(s)|..]
  {
    if s != [] && IsTrimmable(s[0]) {
      TrimStartSuffix(s[1..]);
    }
  }

  /** `trimEnd` keeps a prefix of its input. */
  lemma {:induction false} TrimEndPrefix(s: string)
    ensures TrimEnd(s) == s[..|TrimEnd(s)|]
  {
    if s != [] && IsTrimmable(s[|s| - 1]) {
      TrimEndPrefix(s[..|s| - 1]);
    }
  }

  lemma AllTrimmableConcat(a: string, b: string)
    requires AllTrimmable(a) && AllTrimmable(b)
    ensures AllTrimmable(a + b)
  {
    forall i | 0 <= i < |a + b|
      ensures IsTrimmable((a + b)[i])
    {
      if i >= |a| {
        assert (a + b)[i] == b[i - |a|];
      }
    }
  }

  lemma {:induction false} TrimStartBlank(s: string)
    requires AllTrimmable(s)
    ensures TrimStart(s) == ""
  {
    if s != [] {
      assert IsTrimmable(s[0]);
      assert AllTrimmable(s[1..]) by {
        forall i | 0 <= i < |s[1..]|
          ensures IsTrimmable(s[1..][i])
        {
          assert s[1..][i] == s[i + 1];
        }
      }
      TrimStartBlank(s[1..]);
    }
  }

  /** All that `trimStart` drops is white space, and what it keeps starts with none. */
  lemma {:induction false} TrimStartDropsBlank(s: string)
    ensures AllTrimmable(s[..|s| - |TrimStart(s)|])
    ensures TrimStart(s) != [] ==> !IsTrimmable(TrimStart(s)[0])
  {
    if s != [] && IsTrimmable(s[0]) {
      var r := TrimStart(s[1..]);
      TrimStartDropsBlank(s[1..]);
      assert s[..|s| - |r|] == [s[0]] + s[1..][..|s| - 1 - |r|];
      AllTrimmableConcat([s[0]], s[1..][..|s| - 1 - |r|]);
    }
  }

  /** All that `trimEnd` drops is white space, and what it keeps ends with none. */
  lemma {:induction false} TrimEndDropsBlank(s: string)
    ensures AllTrimmable(s[|TrimEnd(s)|..])
    ensures TrimEnd(s) != [] ==> !IsTrimmable(TrimEnd(s)[|TrimEnd(s)| - 1])
  {
    if s != [] && IsTrimmable(s[|s| - 1]) {
      var r := TrimEnd(s[..|s| - 1]);
      TrimEndDropsBlank(s[..|s| - 1]);
      assert s[|r|..] == s[..|s| - 1][|r|..] + [s[|s| - 1]];
      AllTrimmableConcat(s[..|s| - 1][|r|..], [s[|s| - 1]]);
    }
  }

  lemma TrimKeepsSlice(s: string)
    ensures var a := |s| - |TrimStart(s)|;
      0 <= a <= a + |Trim(s)| <= |s| && Trim(s) == s[a..a + |Trim(s)|]
  {
    var t := TrimStart(s);
    var r := TrimEnd(t);
    var a := |s| - |t|;
    TrimStartSuffix(s);
    TrimEndPrefix(t);
    assert r == s[a..a + |r|];
  }

  lemma TrimDropsTrailing(s: string)
    ensures AllTrimmable(s[|s| - |TrimStart(s)| + |Trim(s)|..])
  {
    var t := TrimStart(s);
    var r := TrimEnd(t);
    var a := |s| - |t|;
    TrimEndDropsBlank(t);
    TrimStartSuffix(s);
    assert s[a + |r|..] == t[|r|..];
  }

  /**
   * What `trim` keeps is one slice of the input that neither starts nor ends
   * with white space, and all it drops is white space.
   */
  lemma TrimIsSlice(s: string)
    ensures var a := |s| - |TrimStart(s)|;
      && 0 <= a <= a + |Trim(s)| <= |s| && Trim(s) == s[a..a + |Trim(s)|]
      && AllTrimmable(s[..a]) && AllTrimmable(s[a + |Trim(s)|..])
    ensures Trim(s) != [] ==> !IsTrimmable(Trim(s)[0]) && !IsTrimmable(Trim(s)[|Trim(s)| - 1])
  {
    TrimStartDropsBlank(s);
    TrimEndDropsBlank(TrimStart(s));
    var t := TrimStart(s);
    if Trim(s) != [] {
      TrimEndPrefix(t);
      assert Trim(s)[0] == t[0];
    }
    TrimKeepsSlice(s);
    TrimDropsTrailing(s);
  }

  /** A topic is rejected exactly when it is nothing but white space. */
  lemma TrimEmptyIffBlank(s: string)
    ensures Trim(s) == "" <==> AllTrimmable(s)
  {
    var t := TrimStart(s);
    var a := |s| - |t|;
    if Trim(s) == "" {
      TrimStartDropsBlank(s);
      TrimEndDropsBlank(t);
      assert t[0..] == t;
      assert s == s[..a] + t;
      AllTrimmableConcat(s[..a], t);
    }
    if AllTrimmable(s) {
      TrimStartBlank(s);
    }
  }

  // ---------------------------------------------------------------------
  // Decoding the relay's stream, chunk by chunk
  // ---------------------------------------------------------------------

  /**
   * A line the page shows text for: a `data: ` line whose payload is not
   * `[DONE]`, parses, and has a non-empty `content`.
   */
  predicate IsContentLine(parse: Parser, line: string)
  {
    && StartsWith(line, DataPrefix)
    && line[|DataPrefix|..] != DoneMarker
    && parse(line[|DataPrefix|..]).Some?
    && parse(line[|DataPrefix|..]).value.content != ""
  }

  /**
   * The text one line of a chunk adds: a `data: ` line whose payload is not
   * `[DONE]`, parses, and has a non-empty `content`.
   */
  function LineFragment(parse: Parser, line: string): (r: Option<string>)
    ensures !StartsWith(line, DataPrefix) ==> r == None
    ensures line == DataPrefix + DoneMarker ==> r == None
    ensures StartsWith(line, DataPrefix) && parse(line[|DataPrefix|..]).None? ==> r == None
    ensures r.Some? ==>
              (&& r.value != ""
               && StartsWith(line, DataPrefix)
               && parse(line[|DataPrefix|..]).Some?
               && parse(line[|DataPrefix|..]).value.content == r.value)
    ensures r.Some? <==> IsContentLine(parse, line)
    ensures IsContentLine(parse, line) ==> r == Some(parse(line[|DataPrefix|..]).value.content)
  {
    if !StartsWith(line, DataPrefix) then None
    else
      var data := line[|DataPrefix|..];
      if data == DoneMarker then None
      else match parse(data)
        case None => None
        case Some(p) => if p.content != "" then Some(p.content) else None
  }

  function LinesFragments(parse: Parser, lines: seq<string>): (r: seq<string>)
    ensures |r| <= |lines|
  {
    if lines == [] then []
    else
      var head := match LineFragment(parse, lines[0]) case Some(c) => [c] case None => [];
      head + LinesFragments(parse, lines[1..])
  }

  lemma {:induction false} LinesFragmentsAppend(parse: Parser, a: seq<string>, b: seq<string>)
    ensures LinesFragments(parse, a + b) == LinesFragments(parse, a) + LinesFragments(parse, b)
  {
    if a == [] {
      assert a + b == b;
    } else {
      assert (a + b)[1..] == a[1..] + b;
      LinesFragmentsAppend(parse, a[1..], b);
    }
  }

  /** One more line of a prefix adds at most one fragment, at the end. */
  lemma LinesPrefixStep(parse: Parser, before: seq<string>, lines: seq<string>, j: nat)
    requires j < |lines|
    ensures |LinesFragments(parse, [lines[j]])| <= 1
    ensures before + LinesFragments(parse, lines[..j + 1])
         == before + LinesFragments(parse, lines[..j]) + LinesFragments(parse, [lines[j]])
  {
    assert lines[..j + 1] == lines[..j] + [lines[j]];
    LinesFragmentsAppend(parse, lines[..j], [lines[j]]);
  }

  /** The fragments one read yields: its own lines only. */
  function ChunkFragments(parse: Parser, chunk: string): seq<string>
  {
    LinesFragments(parse, Split(chunk))
  }

  /** The fragments of a run of reads, in order, each chunk decoded on its own. */
  function StreamFragments(parse: Parser, chunks: seq<string>): seq<string>
  {
    if chunks == [] then [] else ChunkFragments(parse, chunks[0]) + StreamFragments(parse, chunks[1..])
  }

  lemma {:induction false} StreamFragmentsAppend(parse: Parser, a: seq<string>, b: seq<string>)
    ensures StreamFragments(parse, a + b) == StreamFragments(parse, a) + StreamFragments(parse, b)
  {
    if a == [] {
      assert a + b == b;
    } else {
      assert (a + b)[1..] == a[1..] + b;
      StreamFragmentsAppend(parse, a[1..], b);
      AppendAssoc(ChunkFragments(parse, a[0]), StreamFragments(parse, a[1..]), StreamFragments(parse, b));
    }
  }

  /**
   * A `[DONE]` line or a line whose payload does not parse is skipped, and
   * the lines after it are still decoded.
   */
  lemma SkippedLineDoesNotStopDecoding(parse: Parser, before: seq<string>, line: string, after: seq<string>)
    requires line == DataPrefix + DoneMarker
          || (StartsWith(line, DataPrefix) && parse(line[|DataPrefix|..]).None?)
    ensures LinesFragments(parse, before + [line] + after)
         == LinesFragments(parse, before) + LinesFragments(parse, after)
  {
    LinesFragmentsAppend(parse, before + [line], after);
    LinesFragmentsAppend(parse, before, [line]);
  }

  /** A content line adds exactly its `content` to the text, in place. */
  lemma ContentLineDecoded(parse: Parser, before: seq<string>, line: string, after: seq<string>)
    requires IsContentLine(parse, line)
    ensures LinesFragments(parse, before + [line] + after)
         == LinesFragments(parse, before) + [parse(line[|DataPrefix|..]).value.content]
            + LinesFragments(parse, after)
  {
    LinesFragmentsAppend(parse, before + [line], after);
    LinesFragmentsAppend(parse, before, [line]);
    assert [line][1..] == [];
  }

  // ---------------------------------------------------------------------
  // The page state and generateContent
  // ---------------------------------------------------------------------

  /** What `fetch('/api/generate')` and the reader gave the page. */
  datatype Reply =
    | FetchFailed
    | NotOk
    | NoReader
    | Streamed(chunks: seq<string>, ending: Ending)

  /** Effects of `generateContent` outside its own variables, in order. */
  datatype UiEffect =
    | SetGenerating(on: bool)
    | SetContent(text: string)
    | ShowAlert(message: string)
    | PostRequest(request: GenerateRequest)

  const TopicAlert := "Please enter a topic"
  const FailureAlert := "Failed to generate content. Please try again."

  /** The state updates an append of each fragment publishes, each with the whole text so far. */
  function Publishes(fragments: seq<string>): (r: seq<UiEffect>)
    ensures |r| == |fragments|
  {
    if fragments == [] then []
    else Publishes(fragments[..|fragments| - 1]) + [SetContent(Flatten(fragments))]
  }

  /** The fragments the page appends for a reply. */
  function ReplyFragments(parse: Parser, reply: Reply): seq<string>
  {
    if reply.Streamed? then StreamFragments(parse, reply.chunks) else []
  }

  /** Whether the page reaches the end of the stream without an exception. */
  predicate ReplySucceeds(reply: Reply)
  {
    reply.Streamed? && reply.ending == Closed
  }

  /**
   * Each published text is the text before it with one more fragment
   * appended: the shown content only ever grows at its end.
   */
  lemma {:induction false} PublishesOnlyAppend(fragments: seq<string>, i: nat)
    requires i < |fragments|
    ensures Publishes(fragments)[i] == SetContent(Flatten(fragments[..i + 1]))
    ensures Flatten(fragments[..i + 1]) == Flatten(fragments[..i]) + fragments[i]
  {
    var n := |fragments|;
    FlattenAppend(fragments[..i], [fragments[i]]);
    assert fragments[..i + 1] == fragments[..i] + [fragments[i]];
    if i < n - 1 {
      var init := fragments[..n - 1];
      PublishesOnlyAppend(init, i);
      assert init[..i + 1] == fragments[..i + 1];
    } else {
      assert fragments[..i + 1] == fragments;
    }
  }

  /** Appending at most one fragment publishes at most one new text: the whole text so far. */
  lemma PublishStep(sofar: seq<string>, more: seq<string>)
    requires |more| <= 1
    ensures Flatten(sofar + more) == Flatten(sofar) + Flatten(more)
    ensures Publishes(sofar + more)
         == Publishes(sofar) + (if more == [] then [] else [SetContent(Flatten(sofar + more))])
  {
    FlattenAppend(sofar, more);
    if more == [] {
      assert sofar + more == sofar;
    } else {
      var grown := sofar + more;
      assert grown[..|grown| - 1] == sofar;
    }
  }

  /**
   * The effects of one accepted generation, in order: flag on, content
   * cleared, the request posted, one published text per fragment, the
   * failure alert unless the stream ended normally, flag off.
   */
  function RunEffects(request: GenerateRequest, fragments: seq<string>, succeeded: bool): seq<UiEffect>
  {
    [SetGenerating(true), SetContent(""), PostRequest(request)]
    + Publishes(fragments)
    + (if succeeded then [] else [ShowAlert(FailureAlert)])
    + [SetGenerating(false)]
  }

  lemma RunEffectsParts(request: GenerateRequest, fragments: seq<string>, succeeded: bool)
    ensures RunEffects(request, fragments, succeeded)
         == [SetGenerating(true), SetContent(""), PostRequest(request)]
            + (Publishes(fragments) + (if succeeded then [] else [ShowAlert(FailureAlert)]))
            + [SetGenerating(false)]
  {
  }

  class Generator {
    var selectedTemplate: Template
    var topic: string
    var tone: string
    var length: string
    var generatedContent: string
    var isGenerating: bool
    ghost var effects: seq<UiEffect>

    /** The initial React state of the page. */
    constructor ()
      ensures selectedTemplate == Templates[0] && topic == ""
      ensures tone == DefaultTone && length == DefaultLength
      ensures generatedContent == "" && !isGenerating && effects == []
    {
      selectedTemplate := Templates[0];
      topic := "";
      tone := DefaultTone;
      length := DefaultLength;
      generatedContent := "";
      isGenerating := false;
      effects := [];
    }

    /** The request body `generateContent` posts for the current form state. */
    function Request(): (r: GenerateRequest)
      reads this`selectedTemplate, this`topic, this`tone, this`length
      ensures selectedTemplate in Templates ==> TemplatePrompt(r.template) == Some(r.basePrompt)
    {
      SelectedTemplateFound(selectedTemplate);
      GenerateRequest(selectedTemplate.id, Trim(topic), tone, length, selectedTemplate.prompt)
    }

    /** A click on a template card selects it (`setSelectedTemplate(template)`). */
    method SelectTemplate(t: Template)
      requires t in Templates
      modifies this`selectedTemplate
      ensures selectedTemplate == t && selectedTemplate in Templates
      ensures TemplatePrompt(selectedTemplate.id) == Some(selectedTemplate.prompt)
    {
      selectedTemplate := t;
      SelectedTemplateFound(t);
    }

    /**
     * The state after an accepted generation, from the effects `before` it:
     * not generating, the content is every fragment of the reply in order,
     * and the effects added are those of `RunEffects`.
     */
    ghost predicate Finished(parse: Parser, request: GenerateRequest, reply: Reply, before: seq<UiEffect>)
      reads this`generatedContent, this`isGenerating, this`effects
    {
      && !isGenerating
      && generatedContent == Flatten(ReplyFragments(parse, reply))
      && effects == before + RunEffects(request, ReplyFragments(parse, reply), ReplySucceeds(reply))
    }

    /** The innermost step: one line of a chunk. */
    method HandleLine(parse: Parser, line: string, content: string) returns (next: string)
      requires generatedContent == content
      modifies this`generatedContent, this`effects
      ensures generatedContent == next
      ensures next == content + Flatten(LinesFragments(parse, [line]))
      ensures effects == old(effects) + (if LinesFragments(parse, [line]) == [] then [] else [SetContent(next)])
    {
      assert [line][1..] == [];
      next := content;
      if StartsWith(line, DataPrefix) {
        var data := line[|DataPrefix|..];
        if data == DoneMarker {
          return;
        }
        var parsed := parse(data);
        if parsed.Some? && parsed.value.content != "" {
          next := content + parsed.value.content;
          generatedContent := next;
          effects := effects + [SetContent(next)];
        }
      }
    }

    /** The `for` loop over the lines of one chunk. */
    method HandleChunk(parse: Parser, chunk: string, content: string,
                       ghost before: seq<string>, ghost start: seq<UiEffect>)
      returns (next: string)
      requires generatedContent == content && content == Flatten(before)
      requires effects == start + Publishes(before)
      modifies this`generatedContent, this`effects
      ensures generatedContent == next
      ensures next == Flatten(before + ChunkFragments(parse, chunk))
      ensures effects == start + Publishes(before + ChunkFragments(parse, chunk))
    {
      var lines := Split(chunk);
      next := content;
      ghost var got := before;
      assert lines[..0] == [] && before + [] == before;
      for j := 0 to |lines|
        invariant got == before + LinesFragments(parse, lines[..j])
        invariant generatedContent == next && next == Flatten(got)
        invariant effects == start + Publishes(got)
      {
        LinesPrefixStep(parse, before, lines, j);
        ghost var more := LinesFragments(parse, [lines[j]]);
        PublishStep(got, more);
        ghost var published := Publishes(got);
        next := HandleLine(parse, lines[j], next);
        AppendAssoc(start, published, if more == [] then [] else [SetContent(next)]);
        got := got + more;
      }
      assert lines[..|lines|] == lines;
    }

    /** The `while (true)` read loop, one chunk per turn. */
    method ReadStream(parse: Parser, chunks: seq<string>, ghost start: seq<UiEffect>)
      returns (content: string)
      requires generatedContent == "" && effects == start
      modifies this`generatedContent, this`effects
      ensures generatedContent == content
      ensures content == Flatten(StreamFragments(parse, chunks))
      ensures effects == start + Publishes(StreamFragments(parse, chunks))
    {
      content := "";
      var i := 0;
      while i < |chunks|
        invariant 0 <= i <= |chunks|
        invariant generatedContent == content
        invariant content == Flatten(StreamFragments(parse, chunks[..i]))
        invariant effects == start + Publishes(StreamFragments(parse, chunks[..i]))
      {
        assert chunks[..i + 1] == chunks[..i] + [chunks[i]];
        StreamFragmentsAppend(parse, chunks[..i], [chunks[i]]);
        assert StreamFragments(parse, [chunks[i]]) == ChunkFragments(parse, chunks[i]);
        content := HandleChunk(parse, chunks[i], content, StreamFragments(parse, chunks[..i]), start);
        i := i + 1;
      }
      assert chunks[..|chunks|] == chunks;
    }

    /**
     * The `try`/`catch`/`finally` part of `generateContent`: the flag is set
     * and the content reset before the request, every fragment is appended
     * and published in order, any failure ends in the failure alert, and the
     * flag is cleared in every outcome.
     */
    method Run(parse: Parser, request: GenerateRequest, reply: Reply)
      modifies this`generatedContent, this`isGenerating, this`effects
      ensures Finished(parse, request, reply, old(effects))
    {
      isGenerating := true;
      generatedContent := "";
      ghost var before := effects;
      effects := effects + [SetGenerating(true), SetContent(""), PostRequest(request)];
      ghost var start := effects;
      ghost var middle: seq<UiEffect>;
      if !reply.Streamed? {
        effects := effects + [ShowAlert(FailureAlert)];
        middle := [ShowAlert(FailureAlert)];
      } else {
        var content := ReadStream(parse, reply.chunks, start);
        ghost var published := effects;
        if reply.ending == ReadFailed {
          effects := effects + [ShowAlert(FailureAlert)];
        }
        middle := Publishes(StreamFragments(parse, reply.chunks))
                  + (if reply.ending == Closed then [] else [ShowAlert(FailureAlert)]);
      }
      assert effects == start + middle;
      isGenerating := false;
      effects := effects + [SetGenerating(false)];
      RunEffectsParts(request, ReplyFragments(parse, reply), ReplySucceeds(reply));
      AppendAssoc(before, [SetGenerating(true), SetContent(""), PostRequest(request)], middle);
      AppendAssoc(before, [SetGenerating(true), SetContent(""), PostRequest(request)] + middle, [SetGenerating(false)]);
    }

    /**
     * `generateContent`: a blank topic is rejected with an alert and nothing
     * else; otherwise the trimmed topic and the form state are posted.
     */
    method GenerateContent(parse: Parser, reply: Reply)
      modifies this`generatedContent, this`isGenerating, this`effects
      ensures Trim(topic) == "" ==> generatedContent == old(generatedContent)
      ensures Trim(topic) == "" ==> isGenerating == old(isGenerating)
      ensures Trim(topic) == "" ==> effects == old(effects) + [ShowAlert(TopicAlert)]
      ensures Trim(topic) != "" ==> Finished(parse, Request(), reply, old(effects))
    {
      var trimmed := Trim(topic);
      if trimmed == "" {
        effects := effects + [ShowAlert(TopicAlert)];
      } else {
        var request := GenerateRequest(selectedTemplate.id, trimmed, tone, length, selectedTemplate.prompt);
        Run(parse, request, reply);
      }
    }
  }

  // ---------------------------------------------------------------------
  // Decoding with a carry-over buffer (the corrected reader)
  // ---------------------------------------------------------------------

  /** One read of the buffered decoder: the new complete lines add their fragments at the end. */
  lemma DecodeStep(parse: Parser, done: seq<string>, buffer: string, chunk: string)
    requires AllNoNewline(done) && NoNewline(buffer)
    ensures NoNewline(Remainder(buffer + chunk))
    ensures AllNoNewline(done + CompleteLines(buffer + chunk))
    ensures Terminated(done + CompleteLines(buffer + chunk)) + Remainder(buffer + chunk)
         == Terminated(done) + buffer + chunk
    ensures Flatten(LinesFragments(parse, done + CompleteLines(buffer + chunk)))
         == Flatten(LinesFragments(parse, done)) + Flatten(LinesFragments(parse, CompleteLines(buffer + chunk)))
  {
    var complete := CompleteLines(buffer + chunk);
    AppendChunk(done, buffer, chunk);
    LinesFragmentsAppend(parse, done, complete);
    FlattenAppend(LinesFragments(parse, done), LinesFragments(parse, complete));
  }

  /**
   * The read loop with the relay's line reassembly: each chunk is appended to
   * a buffer, only complete lines are decoded, and the trailing incomplete
   * line waits for the next read.
   */
  method DecodeBuffered(parse: Parser, chunks: seq<string>) returns (content: string)
    ensures content == Flatten(LinesFragments(parse, CompleteLines(Flatten(chunks))))
  {
    var buffer := "";
    ghost var done: seq<string> := [];
    content := "";
    var i := 0;
    while i < |chunks|
      invariant 0 <= i <= |chunks|
      invariant NoNewline(buffer) && AllNoNewline(done)
      invariant Terminated(done) + buffer == Flatten(chunks[..i])
      invariant content == Flatten(LinesFragments(parse, done))
    {
      var complete := CompleteLines(buffer + chunks[i]);
      DecodeStep(parse, done, buffer, chunks[i]);
      FlattenPrefix(chunks, i);
      content := content + Flatten(LinesFragments(parse, complete));
      buffer := Remainder(buffer + chunks[i]);
      done := done + complete;
      i := i + 1;
    }
    assert chunks[..|chunks|] == chunks;
    SplitTerminated(done, buffer);
  }
}
