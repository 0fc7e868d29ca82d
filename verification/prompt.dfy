/**
 * The prompt composer of the generate endpoint: two fixed tables (six tones,
 * four lengths) looked up with a silent fallback, and one fixed template that
 * surrounds the topic with the base prompt, the two looked-up phrases and a
 * block of Markdown formatting directives.
 */
module Prompt {
  import opened Wrappers

  /** The JSON body the page POSTs to the endpoint. */
  datatype GenerateRequest = GenerateRequest(
    template: string, topic: string, tone: string, length: string, basePrompt: string)

  const SystemPrompts: map<string, string> := map[
    "professional" := "Write in a professional, polished tone suitable for business contexts.",
    "casual" := "Write in a casual, conversational tone that feels friendly and approachable.",
    "friendly" := "Write in a warm, friendly tone that connects with readers.",
    "formal" := "Write in a formal, academic tone with proper structure.",
    "creative" := "Write in a creative, imaginative tone that engages readers.",
    "persuasive" := "Write in a persuasive tone that convinces and motivates readers."
  ]

  const LengthInstructions: map<string, string> := map[
    "short" := "Keep it concise, around 200-300 words.",
    "medium" := "Write a medium-length piece, around 400-600 words.",
    "long" := "Write a comprehensive piece, around 800-1000 words.",
    "very-long" := "Write an extensive, detailed piece of 1200+ words."
  ]

  const DefaultTone := "professional"
  const DefaultLength := "medium"

  /** Everything the template places after the length instruction. */
  const FormattingBlock: string :=
    "\n\nFormat the content with proper markdown formatting including:\n"
    + "- Clear headings (use ##, ###)\n"
    + "- Bullet points where appropriate\n"
    + "- Bold text for emphasis\n"
    + "- Proper paragraphs with spacing\n"
    + "\nMake it engaging, well-structured, and valuable to readers."

  /** The tone sentence: the mapped one for a known key, else the professional one. */
  function ToneSentence(tone: string): (r: string)
    ensures r in SystemPrompts.Values
    ensures tone in SystemPrompts ==> r == SystemPrompts[tone]
    ensures tone !in SystemPrompts ==> r == SystemPrompts[DefaultTone]
  {
    if tone in SystemPrompts then SystemPrompts[tone] else SystemPrompts[DefaultTone]
  }

  /** The length instruction: the mapped one for a known key, else the medium one. */
  function LengthInstruction(length: string): (r: string)
    ensures r in LengthInstructions.Values
    ensures length in LengthInstructions ==> r == LengthInstructions[length]
    ensures length !in LengthInstructions ==> r == LengthInstructions[DefaultLength]
  {
    if length in LengthInstructions then LengthInstructions[length]
    else LengthInstructions[DefaultLength]
  }

  /** The text the template puts before the tone sentence. */
  function Lead(basePrompt: string, topic: string): string
  {
    basePrompt + " \"" + topic + "\". "
  }

  /** The `fullPrompt` template. */
  function ComposePrompt(basePrompt: string, topic: string, tone: string, length: string): (r: string)
    ensures |r| >= |Lead(basePrompt, topic)| + |FormattingBlock|
    ensures r[..|Lead(basePrompt, topic)|] == Lead(basePrompt, topic)
    ensures r[|r| - |FormattingBlock|..] == FormattingBlock
    ensures r[|Lead(basePrompt, topic)|..|r| - |FormattingBlock|]
         == ToneSentence(tone) + " " + LengthInstruction(length)
  {
    var lead := Lead(basePrompt, topic);
    var middle := ToneSentence(tone) + " " + LengthInstruction(length);
    var r := lead + middle + FormattingBlock;
    assert r[..|lead|] == lead;
    assert r[|lead|..|r| - |FormattingBlock|] == middle;
    r
  }

  /** The prompt the endpoint sends upstream for a request body. */
  function RequestPrompt(req: GenerateRequest): string
  {
    ComposePrompt(req.basePrompt, req.topic, req.tone, req.length)
  }

  /**
   * An unknown tone or length key composes exactly the prompt of the default
   * selection (professional, medium), with nothing reported.
   */
  lemma UnknownKeysComposeDefaultPrompt(basePrompt: string, topic: string, tone: string, length: string)
    ensures tone !in SystemPrompts ==>
      ComposePrompt(basePrompt, topic, tone, length) == ComposePrompt(basePrompt, topic, DefaultTone, length)
    ensures length !in LengthInstructions ==>
      ComposePrompt(basePrompt, topic, tone, length) == ComposePrompt(basePrompt, topic, tone, DefaultLength)
  {
    var lead := Lead(basePrompt, topic);
    var a := ComposePrompt(basePrompt, topic, tone, length);
    assert a == lead + (ToneSentence(tone) + " " + LengthInstruction(length)) + FormattingBlock by {
      assert a == a[..|lead|] + a[|lead|..|a| - |FormattingBlock|] + a[|a| - |FormattingBlock|..];
    }
    var b := ComposePrompt(basePrompt, topic, DefaultTone, length);
    assert b == lead + (ToneSentence(DefaultTone) + " " + LengthInstruction(length)) + FormattingBlock by {
      assert b == b[..|lead|] + b[|lead|..|b| - |FormattingBlock|] + b[|b| - |FormattingBlock|..];
    }
    var c := ComposePrompt(basePrompt, topic, tone, DefaultLength);
    assert c == lead + (ToneSentence(tone) + " " + LengthInstruction(DefaultLength)) + FormattingBlock by {
      assert c == c[..|lead|] + c[|lead|..|c| - |FormattingBlock|] + c[|c| - |FormattingBlock|..];
    }
  }

  // ---------------------------------------------------------------------
  // The lookups as the source writes them: `TABLE[key] || TABLE.default`
  // on a plain object literal. Property access also finds the members every
  // object inherits from Object.prototype; those are truthy, so the `||`
  // fallback does not apply and their string form ends up in the prompt.
  // ---------------------------------------------------------------------

  /** Names of the functions inherited from Object.prototype. */
  const InheritedMethods: set<string> := {
    "constructor", "hasOwnProperty", "isPrototypeOf", "propertyIsEnumerable",
    "toString", "valueOf", "toLocaleString",
    "__defineGetter__", "__defineSetter__", "__lookupGetter__", "__lookupSetter__"
  }

  /** How a template literal renders an inherited member found under `key`. */
  function InheritedProperty(key: string): Option<string>
  {
    if key == "__proto__" then Some("[object Object]")
    else if key == "constructor" then Some("function Object() { [native code] }")
    else if key in InheritedMethods then Some("function " + key + "() { [native code] }")
    else None
  }

  /** `table[key]` on a JavaScript object literal, own keys first, rendered as text. */
  function PropertyLookup(table: map<string, string>, key: string): Option<string>
  {
    if key in table then Some(table[key]) else InheritedProperty(key)
  }

  /** `SYSTEM_PROMPTS[tone] || SYSTEM_PROMPTS.professional` as written. */
  function ToneSentenceAsWritten(tone: string): (r: string)
    ensures tone in SystemPrompts ==> r == SystemPrompts[tone]
    ensures tone !in SystemPrompts && InheritedProperty(tone).Some? ==> r == InheritedProperty(tone).value
    ensures tone !in SystemPrompts && InheritedProperty(tone).None? ==> r == SystemPrompts[DefaultTone]
  {
    match PropertyLookup(SystemPrompts, tone)
    case Some(v) => if v != "" then v else SystemPrompts[DefaultTone]
    case None => SystemPrompts[DefaultTone]
  }

  /** `LENGTH_INSTRUCTIONS[length] || LENGTH_INSTRUCTIONS.medium` as written. */
  function LengthInstructionAsWritten(length: string): (r: string)
    ensures length in LengthInstructions ==> r == LengthInstructions[length]
    ensures length !in LengthInstructions && InheritedProperty(length).Some? ==> r == InheritedProperty(length).value
    ensures length !in LengthInstructions && InheritedProperty(length).None? ==> r == LengthInstructions[DefaultLength]
  {
    match PropertyLookup(LengthInstructions, length)
    case Some(v) => if v != "" then v else LengthInstructions[DefaultLength]
    case None => LengthInstructions[DefaultLength]
  }

  /** On every key that is not an inherited member name, the source's lookups are the fallback lookups. */
  lemma AsWrittenAgreesOnOrdinaryKeys(key: string)
    requires InheritedProperty(key).None?
    ensures ToneSentenceAsWritten(key) == ToneSentence(key)
    ensures LengthInstructionAsWritten(key) == LengthInstruction(key)
  {
  }

  /** The tone "constructor" is no tone, yet it gets no professional fallback. */
  lemma ConstructorToneEscapesFallback()
    ensures "constructor" !in SystemPrompts
    ensures ToneSentenceAsWritten("constructor") == "function Object() { [native code] }"
    ensures ToneSentenceAsWritten("constructor") !in SystemPrompts.Values
    ensures ToneSentence("constructor") == SystemPrompts[DefaultTone]
  {
  }

  /** The length "toString" is no length, yet it gets no medium fallback. */
  lemma ToStringLengthEscapesFallback()
    ensures "toString" !in LengthInstructions
    ensures LengthInstructionAsWritten("toString") == "function toString() { [native code] }"
    ensures LengthInstructionAsWritten("toString") !in LengthInstructions.Values
    ensures LengthInstruction("toString") == LengthInstructions[DefaultLength]
  {
  }
}
