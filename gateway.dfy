/**
 * The four calls into the language model (src/lib/ai/claude.ts): how each
 * one assembles its request, and what it returns once the reply arrives.
 * The hosted model is a parameter `llm` mapping a request to the awaited
 * result of `messages.create`: either a rejection, or the text of the
 * reply's first text block, absent when the reply has none.
 */
module Gateway {
  import opened Wrappers
  import opened Strings
  import opened Http
  import opened StoryParser

  /** The four fixed system prompts, by name; `SystemText` gives each one's text. */
  datatype SystemPrompt = Consultant | Expedience | Weaver | Assistant

  /** A `messages.create` request: token budget, system prompt and the one user message. */
  datatype LlmRequest = LlmRequest(maxTokens: nat, system: SystemPrompt, user: string)

  /** The hosted model, as the route handlers see it. */
  type Llm = LlmRequest -> Outcome<Option<string>>

  const BaseContext: string := "You are a skilled writing assistant helping authors craft their stories.\nYou respect the author's voice and vision above all else.\nYou never impose your own style - you enhance and support theirs."

  const ConsultantSystem: string := BaseContext + "\n\n" + "You are in CONSULTANT mode. The author has selected a portion of their text and wants your feedback.\n- Give honest, constructive feedback\n- Be specific about what works and what could be stronger\n- Suggest alternatives only when asked\n- Never rewrite their work unless explicitly requested\n- Keep responses concise and actionable"

  const ExpedienceSystem: string := BaseContext + "\n\n" + "You are in EXPEDIENCE mode. The author knows exactly what they want - they've described it in detail.\nYour job is to execute their vision faithfully.\n\nGuidelines:\n- Follow their description precisely\n- Match the tone/style they've established in their existing work\n- Write prose that sounds like THEM, not like you\n- Don't add elements they didn't describe\n- Don't editorialize or add your own flourishes\n- Output ONLY the prose - no explanations, no meta-commentary"

  const StoryWeaverSystem: string := BaseContext + "\n\n" + "You are in STORY WEAVER mode. This is collaborative, adventure-game style writing.\nThe author makes choices, you continue the narrative based on those choices.\n\nGuidelines:\n- Continue the story based on the author's choice\n- Write 2-4 paragraphs of narrative continuation\n- End at a decision point\n- Offer 3 distinct choices for what happens next\n- Choices should be meaningfully different, not just variations\n- Keep the author's established tone and style\n- This is THEIR story - you're helping them discover it\n\nOutput format (use exactly this structure):\nNARRATIVE:\n[Your narrative continuation here]\n\nCHOICES:\n1. [First choice]\n2. [Second choice]\n3. [Third choice]"

  const QuickAssistSystem: string := BaseContext + "\n\n" + "You are providing quick writing assistance.\nOutput ONLY the revised text - no explanations, no quotes, no meta-commentary.\nIf no changes are needed, return the original text exactly."

  /** The text sent as `system` for each prompt. */
  function SystemText(p: SystemPrompt): string {
    match p
    case Consultant => ConsultantSystem
    case Expedience => ExpedienceSystem
    case Weaver => StoryWeaverSystem
    case Assistant => QuickAssistSystem
  }

  const FeedbackFallback: string := "Unable to generate feedback."
  const GenerationFallback: string := "Unable to generate content."

  // ---------------------------------------------------------------------
  // Consultant mode: getWritingFeedback
  // ---------------------------------------------------------------------

  function FeedbackPrompt(selectedText: string, fullContext: string, question: string): string {
    "Here's the full context of what I'm working on:\n\n---\n" + fullContext + "\n---\n\nI've selected this specific passage:\n\n\""
      + selectedText + "\"\n\nMy question: " + question
  }

  function FeedbackRequest(selectedText: string, fullContext: string, question: string): LlmRequest {
    LlmRequest(1024, Consultant, FeedbackPrompt(selectedText, fullContext, question))
  }

  /** `getWritingFeedback`: the reply text, or the fixed fallback when the reply has no text block. */
  function GetWritingFeedback(llm: Llm, selectedText: string, fullContext: string, question: string): (r: Outcome<string>)
    ensures llm(FeedbackRequest(selectedText, fullContext, question)).Threw? <==> r.Threw?
  {
    match llm(FeedbackRequest(selectedText, fullContext, question))
    case Threw(e) => Threw(e)
    case Returned(block) => Returned(block.GetOr(FeedbackFallback))
  }

  /** A text block is returned as it is; without one the fallback is returned. */
  lemma FeedbackText(llm: Llm, selectedText: string, fullContext: string, question: string)
    requires llm(FeedbackRequest(selectedText, fullContext, question)).Returned?
    ensures var block := llm(FeedbackRequest(selectedText, fullContext, question)).value;
            GetWritingFeedback(llm, selectedText, fullContext, question)
              == Returned(if block.Some? then block.value else FeedbackFallback)
  {
  }

  /** The question ends the prompt and the passage is quoted just before it. */
  lemma FeedbackPromptEnds(selectedText: string, fullContext: string, question: string)
    ensures EndsWith(FeedbackPrompt(selectedText, fullContext, question),
                     "\"" + selectedText + "\"\n\nMy question: " + question)
  {
    var p := FeedbackPrompt(selectedText, fullContext, question);
    var tail := "\"" + selectedText + "\"\n\nMy question: " + question;
    var head := "Here's the full context of what I'm working on:\n\n---\n" + fullContext + "\n---\n\nI've selected this specific passage:\n\n";
    assert p == head + tail;
  }

  // ---------------------------------------------------------------------
  // Expedience mode: generateFromDescription
  // ---------------------------------------------------------------------

  // The header is one text; its opening words are a separate short literal so
  // that the verifier can read the characters that tell it apart from the
  // other headers (HeadersDiffer compares them at indices 0 and 7).
  const ContextHeader: string := "Here's my " + "existing work for style/tone reference:\n\n---\n"
  const StyleHeader: string := "Style notes: "
  const RequestHeader: string := "Here's what I want you to write:\n\n"

  /** The reference section: present only when `context` is not empty. */
  function ContextSection(context: string): string {
    if context != "" then ContextHeader + (context + "\n---\n\n") else ""
  }

  /** The style line: present only when `styleReference` is truthy. */
  function StyleSection(styleReference: Option<string>): string {
    if Truthy(styleReference) then StyleHeader + (styleReference.value + "\n\n") else ""
  }

  function RequestSection(description: string): string {
    RequestHeader + (description + "\n\nWrite this now. Output only the prose.")
  }

  /** The user message of `generateFromDescription` (claude.ts line 84). */
  function GenerationPrompt(description: string, context: string, styleReference: Option<string>): string {
    ContextSection(context) + (StyleSection(styleReference) + RequestSection(description))
  }

  function GenerationRequest(description: string, context: string, styleReference: Option<string>): LlmRequest {
    LlmRequest(2048, Expedience, GenerationPrompt(description, context, styleReference))
  }

  /** `generateFromDescription`: the reply text, or the fixed fallback. */
  function GenerateFromDescription(llm: Llm, description: string, context: string, styleReference: Option<string>): (r: Outcome<string>)
    ensures llm(GenerationRequest(description, context, styleReference)).Threw? <==> r.Threw?
  {
    match llm(GenerationRequest(description, context, styleReference))
    case Threw(e) => Threw(e)
    case Returned(block) => Returned(block.GetOr(GenerationFallback))
  }

  lemma GenerationText(llm: Llm, description: string, context: string, styleReference: Option<string>)
    requires llm(GenerationRequest(description, context, styleReference)).Returned?
    ensures var block := llm(GenerationRequest(description, context, styleReference)).value;
            GenerateFromDescription(llm, description, context, styleReference)
              == Returned(if block.Some? then block.value else GenerationFallback)
  {
  }

  /** What follows the reference section: the style line, then the request. */
  lemma PromptAfterContext(description: string, context: string, styleReference: Option<string>)
    ensures GenerationPrompt(description, context, styleReference)[|ContextSection(context)|..]
         == StyleSection(styleReference) + RequestSection(description)
  {
    StartsWithAppend(ContextSection(context), StyleSection(styleReference) + RequestSection(description));
  }

  /** The style line opens what follows the reference section when there is
      one, and the request opens it otherwise. */
  lemma StyleThenRequest(description: string, styleReference: Option<string>)
    ensures Truthy(styleReference) ==>
              && StartsWith(StyleSection(styleReference) + RequestSection(description), StyleHeader)
              && (StyleSection(styleReference) + RequestSection(description))[|StyleHeader|..][..|styleReference.value|]
                 == styleReference.value
    ensures !Truthy(styleReference) ==>
              StartsWith(StyleSection(styleReference) + RequestSection(description), RequestHeader)
  {
    var style := StyleSection(styleReference);
    var rest := style + RequestSection(description);
    StartsWithAppend(style, RequestSection(description));
    if Truthy(styleReference) {
      InfixOfPrefix(rest, StyleHeader, styleReference.value, "\n\n");
    } else {
      assert rest == RequestSection(description);
      StartsWithAppend(RequestHeader, description + "\n\nWrite this now. Output only the prose.");
    }
  }

  /** The three headers differ in their first characters. */
  lemma HeadersDiffer(s: string)
    ensures StartsWith(s, RequestHeader) ==> !StartsWith(s, ContextHeader) && !StartsWith(s, StyleHeader)
    ensures StartsWith(s, StyleHeader) ==> !StartsWith(s, ContextHeader)
  {
    if StartsWith(s, RequestHeader) {
      StartsWithDiffer(s, ContextHeader, RequestHeader, 7);
      StartsWithDiffer(s, StyleHeader, RequestHeader, 0);
    }
    if StartsWith(s, StyleHeader) {
      StartsWithDiffer(s, ContextHeader, StyleHeader, 0);
    }
  }

  /** With a context, the prompt opens with the header and then the context. */
  lemma PromptWithContext(description: string, context: string, styleReference: Option<string>)
    requires context != ""
    ensures StartsWith(GenerationPrompt(description, context, styleReference), ContextHeader)
    ensures GenerationPrompt(description, context, styleReference)[|ContextHeader|..][..|context|] == context
  {
    var p := GenerationPrompt(description, context, styleReference);
    StartsWithAppend(ContextSection(context), StyleSection(styleReference) + RequestSection(description));
    InfixOfPrefix(p, ContextHeader, context, "\n---\n\n");
  }

  /** The prompt opens with the reference section exactly when there is a
      context, and the context follows the section's header verbatim. */
  lemma ContextShownIff(description: string, context: string, styleReference: Option<string>)
    ensures StartsWith(GenerationPrompt(description, context, styleReference), ContextHeader) <==> context != ""
    ensures context != "" ==>
              GenerationPrompt(description, context, styleReference)[|ContextHeader|..][..|context|] == context
  {
    if context == "" {
      PromptAfterContext(description, context, styleReference);
      StyleThenRequest(description, styleReference);
      HeadersDiffer(GenerationPrompt(description, context, styleReference));
    } else {
      PromptWithContext(description, context, styleReference);
    }
  }

  /** After the reference section, the style line is there exactly when
      `styleReference` is truthy, and carries it verbatim. */
  lemma StyleShownIff(description: string, context: string, styleReference: Option<string>)
    ensures var rest := GenerationPrompt(description, context, styleReference)[|ContextSection(context)|..];
            StartsWith(rest, StyleHeader) <==> Truthy(styleReference)
    ensures Truthy(styleReference) ==>
              var rest := GenerationPrompt(description, context, styleReference)[|ContextSection(context)|..];
              rest[|StyleHeader|..][..|styleReference.value|] == styleReference.value
  {
    PromptAfterContext(description, context, styleReference);
    StyleThenRequest(description, styleReference);
    HeadersDiffer(StyleSection(styleReference) + RequestSection(description));
  }

  /** Whatever the optional sections, the prompt ends with the description and the closing instruction. */
  lemma GenerationPromptEnds(description: string, context: string, styleReference: Option<string>)
    ensures EndsWith(GenerationPrompt(description, context, styleReference), RequestSection(description))
    ensures context == "" && !Truthy(styleReference) ==> GenerationPrompt(description, context, styleReference) == RequestSection(description)
  {
    EndsWithAppend(ContextSection(context) + StyleSection(styleReference), RequestSection(description));
  }

  // ---------------------------------------------------------------------
  // Story-weaver mode: continueStory
  // ---------------------------------------------------------------------

  const BeginStory: string := "Begin the story. Set the scene and give me my first choices."
  const ChooseHeader: string := "I choose: "

  /** The user message of `continueStory` (claude.ts lines 134-138). */
  function StoryPrompt(storyContext: string, authorChoice: Option<string>): string {
    "Story so far:\n\n" + storyContext + "\n\n" + (if Truthy(authorChoice) then ChooseHeader + authorChoice.value else BeginStory)
  }

  function StoryRequest(storyContext: string, authorChoice: Option<string>): LlmRequest {
    LlmRequest(1024, Weaver, StoryPrompt(storyContext, authorChoice))
  }

  /** The prompt ends with the author's choice when one is given, otherwise with the opening request. */
  lemma StoryPromptEnds(storyContext: string, authorChoice: Option<string>)
    ensures Truthy(authorChoice) ==> EndsWith(StoryPrompt(storyContext, authorChoice), ChooseHeader + authorChoice.value)
    ensures !Truthy(authorChoice) ==> EndsWith(StoryPrompt(storyContext, authorChoice), BeginStory)
    ensures StartsWith(StoryPrompt(storyContext, authorChoice), "Story so far:\n\n" + storyContext + "\n\n")
  {
    var head := "Story so far:\n\n" + storyContext + "\n\n";
    var tail := if Truthy(authorChoice) then ChooseHeader + authorChoice.value else BeginStory;
    assert StoryPrompt(storyContext, authorChoice) == head + tail;
  }

  /** What `continueStory` resolves to. */
  datatype StoryReply = StoryReply(narrative: string, choices: seq<string>)

  /** The parsed reply of `continueStory`; `lastAction` does not enter the request. */
  function StoryOutcome(llm: Llm, storyContext: string, lastAction: string, authorChoice: Option<string>): (r: Outcome<StoryReply>)
    ensures llm(StoryRequest(storyContext, authorChoice)).Threw? <==> r.Threw?
  {
    match llm(StoryRequest(storyContext, authorChoice))
    case Threw(e) => Threw(e)
    case Returned(block) => Returned(StoryReply(Narrative(ReplyText(block)), Choices(ReplyText(block))))
  }

  /** `continueStory`: one request, then the parsing loop of `ParseReply`. */
  method ContinueStory(llm: Llm, storyContext: string, lastAction: string, authorChoice: Option<string>)
    returns (r: Outcome<StoryReply>)
    ensures r == StoryOutcome(llm, storyContext, lastAction, authorChoice)
  {
    var response := llm(StoryRequest(storyContext, authorChoice));
    if response.Threw? {
      return Threw(response.thrown);
    }
    var narrative, choices := ParseReply(response.value);
    r := Returned(StoryReply(narrative, choices));
  }

  /** When the model answers in the format its system prompt asks for, the
      story reply is exactly that narrative and those choices. */
  lemma StoryOutcomeOfFormattedReply(llm: Llm, storyContext: string, lastAction: string, authorChoice: Option<string>,
                                     narrative: string, choices: seq<string>)
    requires llm(StoryRequest(storyContext, authorChoice)) == Returned(Some(FormatReply(narrative, choices)))
    requires Trimmed(narrative)
    requires forall k: nat :: !OccursAt(narrative, ChoicesMarker, k)
    requires CleanChoices(choices) && OneLineEach(choices)
    ensures StoryOutcome(llm, storyContext, lastAction, authorChoice) == Returned(StoryReply(narrative, choices))
  {
    ParseFormatted(narrative, choices);
  }

  // ---------------------------------------------------------------------
  // Quick assistance: quickAssist
  // ---------------------------------------------------------------------

  datatype AssistType = Grammar | Clarity | Stronger | Shorter

  /** The name the request body uses for each kind. */
  function AssistName(t: AssistType): string {
    match t
    case Grammar => "grammar"
    case Clarity => "clarity"
    case Stronger => "stronger"
    case Shorter => "shorter"
  }

  /** Membership in `["grammar", "clarity", "stronger", "shorter"]`. */
  function ParseAssistType(s: string): (r: Option<AssistType>)
    ensures r.Some? ==> AssistName(r.value) == s
  {
    if s == "grammar" then Some(Grammar)
    else if s == "clarity" then Some(Clarity)
    else if s == "stronger" then Some(Stronger)
    else if s == "shorter" then Some(Shorter)
    else None
  }

  /** Every kind is recognised by its own name, so the kinds and the four names correspond one to one. */
  lemma AssistNameRoundTrip(t: AssistType)
    ensures ParseAssistType(AssistName(t)) == Some(t)
  {
  }

  lemma AssistNamesOnly(s: string)
    ensures ParseAssistType(s).Some? <==> s in {"grammar", "clarity", "stronger", "shorter"}
  {
  }

  function AssistInstruction(t: AssistType): string {
    match t
    case Grammar => "Fix any grammar or punctuation issues. Keep everything else identical."
    case Clarity => "Improve clarity while keeping the same meaning and voice. Minimal changes only."
    case Stronger => "Make this more impactful. Stronger verbs, tighter prose. Keep the author's voice."
    case Shorter => "Condense this while keeping the essential meaning. Cut ruthlessly but preserve voice."
  }

  function AssistPrompt(text: string, t: AssistType): string {
    RevisionPrompt(AssistInstruction(t), text)
  }

  /** The user message of `quickAssist`: the instruction for the kind, then the text to revise. */
  function RevisionPrompt(instruction: string, text: string): string {
    instruction + "\n\nText to revise:\n" + text
  }

  function AssistRequest(text: string, t: AssistType): LlmRequest {
    LlmRequest(1024, Assistant, AssistPrompt(text, t))
  }

  /** `quickAssist`: the reply text, or the input text itself when the reply has no text block. */
  function QuickAssist(llm: Llm, text: string, t: AssistType): (r: Outcome<string>)
    ensures llm(AssistRequest(text, t)).Threw? <==> r.Threw?
  {
    match llm(AssistRequest(text, t))
    case Threw(e) => Threw(e)
    case Returned(block) => Returned(block.GetOr(text))
  }

  lemma QuickAssistText(llm: Llm, text: string, t: AssistType)
    requires llm(AssistRequest(text, t)).Returned?
    ensures llm(AssistRequest(text, t)).value.None? ==> QuickAssist(llm, text, t) == Returned(text)
    ensures llm(AssistRequest(text, t)).value.Some? ==> QuickAssist(llm, text, t) == Returned(llm(AssistRequest(text, t)).value.value)
  {
  }

  /** The text to revise closes the prompt, after the instruction for the chosen kind. */
  lemma AssistPromptShape(instruction: string, text: string)
    ensures StartsWith(RevisionPrompt(instruction, text), instruction)
    ensures EndsWith(RevisionPrompt(instruction, text), "\n\nText to revise:\n" + text)
  {
    var tail := "\n\nText to revise:\n" + text;
    assert RevisionPrompt(instruction, text) == instruction + tail;
    StartsWithAppend(instruction, tail);
    EndsWithAppend(instruction, tail);
  }

  // ---------------------------------------------------------------------
  // The lazily created client
  // ---------------------------------------------------------------------

  /** An SDK client; it keeps the API key it was constructed with. */
  class Client {
    const apiKey: Option<string>

    constructor(apiKey: Option<string>)
      ensures this.apiKey == apiKey
    {
      this.apiKey := apiKey;
    }
  }

  /** The module-level `_anthropic` slot of claude.ts. */
  class ClientSlot {
    var client: Client?
    /** How many clients `GetClient` has constructed. */
    ghost var constructed: nat

    ghost predicate Valid()
      reads this
    {
      constructed <= 1 && (client == null <==> constructed == 0)
    }

    constructor()
      ensures Valid() && client == null && constructed == 0
    {
      client := null;
      constructed := 0;
    }

    /** `getClient`: builds the client from `ANTHROPIC_API_KEY` on the first
        call and returns that same instance on every later call. */
    method GetClient(env: map<string, string>) returns (c: Client)
      requires Valid()
      modifies this
      ensures Valid() && client == c
      ensures old(client) != null ==> c == old(client) && constructed == old(constructed)
      ensures old(client) == null ==> fresh(c) && constructed == 1
      ensures old(client) == null ==> c.apiKey == (if "ANTHROPIC_API_KEY" in env then Some(env["ANTHROPIC_API_KEY"]) else None)
    {
      if client == null {
        var key := if "ANTHROPIC_API_KEY" in env then Some(env["ANTHROPIC_API_KEY"]) else None;
        client := new Client(key);
        constructed := constructed + 1;
      }
      c := client;
    }
  }

  /** Two calls in a row, even with different environments, give the same
      client, and at most one client is ever constructed. */
  method GetClientTwice(slot: ClientSlot, env1: map<string, string>, env2: map<string, string>)
    returns (c1: Client, c2: Client)
    requires slot.Valid()
    modifies slot
    ensures c1 == c2 && slot.constructed <= 1
  {
    c1 := slot.GetClient(env1);
    c2 := slot.GetClient(env2);
  }
}
