/**
 * The `POST` handlers of the four AI routes (the `route.ts` files under src/app/api/ai):
 * a chain of guards over the JSON body, one call into the gateway, and a
 * `catch` that turns any rejection into a 500 reply. The body is what
 * `request.json()` settles to; its fields are optional strings.
 */
module AiRoutes {
  import opened Wrappers
  import opened Strings
  import opened Http
  import opened Gateway

  /** Why a guard stopped the request: the status and the `error` text. */
  datatype Rejection = Rejection(status: nat, message: string)

  function Reject<T>(r: Rejection): Reply<T> {
    ErrorJson(r.status, r.message)
  }

  /** `error instanceof Error ? error.message : "Unknown error"`. */
  function ErrorText(e: Thrown): string {
    match e
    case ErrorObject(m) => m
    case NonError => "Unknown error"
  }

  // ---------------------------------------------------------------------
  // generate
  // ---------------------------------------------------------------------

  datatype GenerateBody = GenerateBody(description: Option<string>, context: Option<string>, styleReference: Option<string>)

  /** The arguments `generateFromDescription` receives. */
  datatype GenerateCall = GenerateCall(description: string, context: string, styleReference: Option<string>)

  const MissingApiKey: string := "ANTHROPIC_API_KEY is not configured. Add it to .env.local"

  /** The description guard, and the defaults applied to the other fields. */
  function CheckGenerate(body: GenerateBody): (r: Result<GenerateCall, Rejection>)
    ensures r.Ok? <==> Truthy(body.description)
    ensures r.Ok? ==> r.value == GenerateCall(body.description.value, OrEmpty(body.context), body.styleReference)
    ensures r.Err? ==> r.error == Rejection(400, "Description is required")
  {
    if !Truthy(body.description) then Err(Rejection(400, "Description is required"))
    else Ok(GenerateCall(body.description.value, OrEmpty(body.context), body.styleReference))
  }

  function GenerateFailed(e: Thrown): Reply<string> {
    ErrorJson(500, "Failed to generate: " + ErrorText(e))
  }

  /** `POST /api/ai/generate`: the key check comes first, before the body is read. */
  function GeneratePost(env: map<string, string>, body: Outcome<GenerateBody>, llm: Llm): Reply<string> {
    if !EnvSet(env, "ANTHROPIC_API_KEY") then ErrorJson(500, MissingApiKey)
    else
      match body
      case Threw(e) => GenerateFailed(e)
      case Returned(b) =>
        match CheckGenerate(b)
        case Err(r) => Reject(r)
        case Ok(call) =>
          match GenerateFromDescription(llm, call.description, call.context, call.styleReference)
          case Threw(e) => GenerateFailed(e)
          case Returned(content) => Json(200, content)
  }

  /** Without an API key the reply is the configuration error, whatever the body and the model. */
  lemma GenerateNeedsKey(env: map<string, string>, body: Outcome<GenerateBody>, llm: Llm)
    requires !EnvSet(env, "ANTHROPIC_API_KEY")
    ensures GeneratePost(env, body, llm) == ErrorJson(500, "ANTHROPIC_API_KEY is not configured. Add it to .env.local")
  {
  }

  /** A reply is 200 exactly when the key is set, the body parses, the
      description is truthy and the model call resolves; its content is then
      the gateway's text, with `context` defaulted to "" and
      `styleReference` passed through. */
  lemma GenerateSucceedsIff(env: map<string, string>, body: Outcome<GenerateBody>, llm: Llm)
    ensures GeneratePost(env, body, llm).Json? <==>
              && EnvSet(env, "ANTHROPIC_API_KEY") && body.Returned? && Truthy(body.value.description)
              && llm(GenerationRequest(body.value.description.value, OrEmpty(body.value.context), body.value.styleReference)).Returned?
    ensures GeneratePost(env, body, llm).Json? ==>
              GeneratePost(env, body, llm) ==
                Json(200, GenerateFromDescription(llm, body.value.description.value, OrEmpty(body.value.context), body.value.styleReference).value)
  {
  }

  /** A missing or empty description is a 400, and the model is not asked. */
  lemma GenerateRejectsWithoutDescription(env: map<string, string>, b: GenerateBody, llm: Llm, other: Llm)
    requires EnvSet(env, "ANTHROPIC_API_KEY") && !Truthy(b.description)
    ensures GeneratePost(env, Returned(b), llm) == ErrorJson(400, "Description is required")
    ensures GeneratePost(env, Returned(b), llm) == GeneratePost(env, Returned(b), other)
  {
  }

  /** A rejection, from the body or from the model, is a 500 carrying the error's message. */
  lemma GenerateFailure(env: map<string, string>, body: Outcome<GenerateBody>, llm: Llm)
    requires EnvSet(env, "ANTHROPIC_API_KEY")
    requires body.Threw? ||
             (Truthy(body.value.description) &&
              llm(GenerationRequest(body.value.description.value, OrEmpty(body.value.context), body.value.styleReference)).Threw?)
    ensures var e := if body.Threw? then body.thrown
                     else llm(GenerationRequest(body.value.description.value, OrEmpty(body.value.context), body.value.styleReference)).thrown;
            GeneratePost(env, body, llm) == ErrorJson(500, "Failed to generate: " + ErrorText(e))
  {
  }

  // ---------------------------------------------------------------------
  // assist
  // ---------------------------------------------------------------------

  datatype AssistBody = AssistBody(text: Option<string>, assistType: Option<string>)

  datatype AssistCall = AssistCall(text: string, kind: AssistType)

  /** The presence guard, then membership of `assistType` in the four kinds. */
  function CheckAssist(body: AssistBody): (r: Result<AssistCall, Rejection>)
    ensures r.Err? && r.error.message == "Text and assist type are required" <==> !Truthy(body.text) || !Truthy(body.assistType)
    ensures r.Err? && r.error.message == "Invalid assist type" <==>
              Truthy(body.text) && Truthy(body.assistType) && ParseAssistType(body.assistType.value).None?
    ensures r.Err? ==> r.error.status == 400
    ensures r.Ok? ==> r.value.text == body.text.value && AssistName(r.value.kind) == body.assistType.value
  {
    if !Truthy(body.text) || !Truthy(body.assistType) then Err(Rejection(400, "Text and assist type are required"))
    else
      match ParseAssistType(body.assistType.value)
      case None => Err(Rejection(400, "Invalid assist type"))
      case Some(t) => Ok(AssistCall(body.text.value, t))
  }

  const AssistFailed: string := "Failed to process request"

  /** `POST /api/ai/assist`. */
  function AssistPost(body: Outcome<AssistBody>, llm: Llm): Reply<string> {
    match body
    case Threw(_) => ErrorJson(500, AssistFailed)
    case Returned(b) =>
      match CheckAssist(b)
      case Err(r) => Reject(r)
      case Ok(call) =>
        match QuickAssist(llm, call.text, call.kind)
        case Threw(_) => ErrorJson(500, AssistFailed)
        case Returned(result) => Json(200, result)
  }

  /** The model is asked only once both checks pass; the reply is then its
      `{ result }`, or the generic 500 when the call rejects. */
  lemma AssistOutcome(b: AssistBody, llm: Llm, other: Llm)
    ensures CheckAssist(b).Err? ==>
              AssistPost(Returned(b), llm) == ErrorJson(400, CheckAssist(b).error.message)
              && AssistPost(Returned(b), llm) == AssistPost(Returned(b), other)
    ensures CheckAssist(b).Ok? ==>
              var call := CheckAssist(b).value;
              AssistPost(Returned(b), llm) ==
                (match QuickAssist(llm, call.text, call.kind)
                 case Returned(result) => Json(200, result)
                 case Threw(_) => ErrorJson(500, "Failed to process request"))
  {
  }

  /** Every kind named in the body is accepted by its exact name only. */
  lemma AssistTypeAccepted(text: string, kind: AssistType)
    requires text != ""
    ensures CheckAssist(AssistBody(Some(text), Some(AssistName(kind)))) == Ok(AssistCall(text, kind))
  {
    AssistNameRoundTrip(kind);
  }

  lemma AssistBodyUnreadable(e: Thrown, llm: Llm)
    ensures AssistPost(Threw(e), llm) == ErrorJson(500, "Failed to process request")
  {
  }

  // ---------------------------------------------------------------------
  // feedback
  // ---------------------------------------------------------------------

  datatype FeedbackBody = FeedbackBody(selectedText: Option<string>, fullContext: Option<string>, question: Option<string>)

  datatype FeedbackCall = FeedbackCall(selectedText: string, fullContext: string, question: string)

  function CheckFeedback(body: FeedbackBody): (r: Result<FeedbackCall, Rejection>)
    ensures r.Ok? <==> Truthy(body.selectedText) && Truthy(body.question)
    ensures r.Ok? ==> r.value == FeedbackCall(body.selectedText.value, OrEmpty(body.fullContext), body.question.value)
    ensures r.Err? ==> r.error == Rejection(400, "Selected text and question are required")
  {
    if !Truthy(body.selectedText) || !Truthy(body.question) then Err(Rejection(400, "Selected text and question are required"))
    else Ok(FeedbackCall(body.selectedText.value, OrEmpty(body.fullContext), body.question.value))
  }

  const FeedbackFailed: string := "Failed to generate feedback"

  /** `POST /api/ai/feedback`. */
  function FeedbackPost(body: Outcome<FeedbackBody>, llm: Llm): Reply<string> {
    match body
    case Threw(_) => ErrorJson(500, FeedbackFailed)
    case Returned(b) =>
      match CheckFeedback(b)
      case Err(r) => Reject(r)
      case Ok(call) =>
        match GetWritingFeedback(llm, call.selectedText, call.fullContext, call.question)
        case Threw(_) => ErrorJson(500, FeedbackFailed)
        case Returned(feedback) => Json(200, feedback)
  }

  /** A 200 exactly when both fields are truthy and the call resolves; the
      feedback is then the gateway's text, `fullContext` defaulting to "". */
  lemma FeedbackOutcome(b: FeedbackBody, llm: Llm, other: Llm)
    ensures !(Truthy(b.selectedText) && Truthy(b.question)) ==>
              FeedbackPost(Returned(b), llm) == ErrorJson(400, "Selected text and question are required")
              && FeedbackPost(Returned(b), llm) == FeedbackPost(Returned(b), other)
    ensures Truthy(b.selectedText) && Truthy(b.question) ==>
              var answer := GetWritingFeedback(llm, b.selectedText.value, OrEmpty(b.fullContext), b.question.value);
              FeedbackPost(Returned(b), llm) ==
                (if answer.Returned? then Json(200, answer.value) else ErrorJson(500, "Failed to generate feedback"))
  {
  }

  // ---------------------------------------------------------------------
  // storyweaver
  // ---------------------------------------------------------------------

  datatype StoryBody = StoryBody(storyContext: Option<string>, lastAction: Option<string>, authorChoice: Option<string>)

  datatype StoryCall = StoryCall(storyContext: string, lastAction: string, authorChoice: Option<string>)

  /** Either the context or the choice is enough; only both missing is rejected. */
  function CheckStory(body: StoryBody): (r: Result<StoryCall, Rejection>)
    ensures r.Err? <==> !Truthy(body.storyContext) && !Truthy(body.authorChoice)
    ensures r.Ok? ==> r.value == StoryCall(OrEmpty(body.storyContext), OrEmpty(body.lastAction), body.authorChoice)
    ensures r.Err? ==> r.error == Rejection(400, "Story context or author choice is required")
  {
    if !Truthy(body.storyContext) && !Truthy(body.authorChoice) then Err(Rejection(400, "Story context or author choice is required"))
    else Ok(StoryCall(OrEmpty(body.storyContext), OrEmpty(body.lastAction), body.authorChoice))
  }

  const StoryFailed: string := "Failed to continue story"

  /** `POST /api/ai/storyweaver`: the parsed `{ narrative, choices }` is returned as it is. */
  function StoryPost(body: Outcome<StoryBody>, llm: Llm): Reply<StoryReply> {
    match body
    case Threw(_) => ErrorJson(500, StoryFailed)
    case Returned(b) =>
      match CheckStory(b)
      case Err(r) => Reject(r)
      case Ok(call) =>
        match StoryOutcome(llm, call.storyContext, call.lastAction, call.authorChoice)
        case Threw(_) => ErrorJson(500, StoryFailed)
        case Returned(reply) => Json(200, reply)
  }

  /** The storyweaver reply: the 400 needs both fields falsy and asks no
      model; otherwise the request carries the context (or "") and the
      choice as given, and the reply is the parse of the model's text. */
  lemma StoryRouteOutcome(b: StoryBody, llm: Llm, other: Llm)
    ensures !Truthy(b.storyContext) && !Truthy(b.authorChoice) ==>
              StoryPost(Returned(b), llm) == ErrorJson(400, "Story context or author choice is required")
              && StoryPost(Returned(b), llm) == StoryPost(Returned(b), other)
    ensures Truthy(b.storyContext) || Truthy(b.authorChoice) ==>
              var response := llm(StoryRequest(OrEmpty(b.storyContext), b.authorChoice));
              StoryPost(Returned(b), llm) ==
                (if response.Threw? then ErrorJson(500, "Failed to continue story")
                 else Json(200, StoryReply(StoryParser.Narrative(StoryParser.ReplyText(response.value)),
                                           StoryParser.Choices(StoryParser.ReplyText(response.value)))))
  {
  }

  /** `lastAction` never reaches the model: two bodies that differ only in it get the same reply. */
  lemma StoryIgnoresLastAction(b: StoryBody, lastAction: Option<string>, llm: Llm)
    ensures StoryPost(Returned(b), llm) == StoryPost(Returned(b.(lastAction := lastAction)), llm)
  {
  }
}
