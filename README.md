# penned-works, modelled in Dafny

penned-works is a writing application built with Next.js. An author keeps projects made of chapters and writes in a rich-text editor that saves itself. A hosted language model helps in three ways:
- "pure" mode gives feedback on a selected passage;
- "expedience" mode drafts prose from a description;
- "story weaver" mode is an interactive narrative in which the model continues the story and offers numbered choices.

This project models the parts of the application whose behaviour can be stated exactly, and proves properties of them:

- **`StoryParser`** (`story_parser.dfy`): the parser that splits the model's story-weaver reply into a narrative and a list of choices at the `NARRATIVE:` and `CHOICES:` markers, and strips a leading ordinal from each choice line. The regular expressions are written out character by character. The parsing loop is a method proved against the functions that describe the matches. A round-trip lemma shows that a reply laid out in the format the system prompt asks for parses back to its narrative and choices.
- **`Gateway`** (`gateway.dfy`): the four model calls of `claude.ts`. Each is described by the request it sends (token budget, system prompt, user prompt) and by what it makes of the reply, including the fixed fallbacks used when the reply has no text block. The module also has the lazily built, shared client.
- **`Env`** (`env.dfy`): the `.env.local` loader. One `KEY=VALUE` line parser feeds two loaders:
  - `ensureEnvLoaded`, which has skip guards;
  - the unguarded `loadEnv` that the four AI routes repeat.
- **`AiRoutes`** (`ai_routes.dfy`): the guard chains of `POST /api/ai/generate`, `/assist`, `/feedback` and `/storyweaver`. Each maps a request body to a status and an error message, or to one model call.
- **`Auth`** (`auth.dfy`): registration and login as a state machine over the `users` table and the session record.
- **`Library`** (`library.dfy`): chapter creation (order and default title), project creation (with its first chapter), and the newest-first project listing.
- **`Editor`** (`editor.dfy`): the plain-text to HTML conversion of `insertContent`, the debounced save that is gated on the last saved content, and the selection-popup rule.
- **`StoryWeaver`** (`story_weaver.dfy`): the client panel's append-only log of narrative and choice beats. It covers the full story and the counts derived from the log, and the three actions that call the story route.

`Wrappers`, `Strings` and `Http` hold the shared vocabulary:
- `Option` and `Result`;
- the JavaScript string operations: `trim` with the ECMAScript white-space set, `split`, `join`, `indexOf` and ASCII `toLowerCase`;
- truthiness;
- the settled outcome of an awaited call;
- the JSON reply a route returns.

Inputs the model takes as parameters:
- **The hosted model** is a function from a request to an outcome. Either it throws, or it returns an optional text block.
- **A request body** is an `Outcome` too: `request.json()` can throw.
- **bcrypt** is a `hashOf` function and a `matches` predicate.
- **New ids and the clock** are parameters. A new id need not be fresh: a taken one fails like the database's primary key.
- **The `.env.local` file** is given by its contents, or by "no file".

## Model

| member | source | states |
|---|---|---|
| StoryParser.ReplyText | src/lib/ai/claude.ts:143-144 | `textBlock?.text \|\| ""`: the text of the first text block, or `""` without one (`NoTextBlock`). |
| StoryParser.NarrativeGroup | src/lib/ai/claude.ts:147 | Group 1 of `NARRATIVE:\s*([\s\S]*?)(?=CHOICES:\|$)`: absent without the marker, otherwise from after the first marker and the white space behind it up to the next `CHOICES:` or the end (characterised independently by `NarrativeGroupIs`). |
| StoryParser.ChoicesGroup | src/lib/ai/claude.ts:148 | Group 1 of `CHOICES:\s*([\s\S]*?)$`: everything after the first `CHOICES:` and the white space behind it, absent without the marker. |
| StoryParser.ChoiceLines | src/lib/ai/claude.ts:155 | `split(/\n/)` of the choices group, then the lines whose trim is non-empty, in order (`BlankFilterRedundant`). |
| StoryParser.KeepWith | src/lib/ai/claude.ts:156-159 | What a push loop collects when it cleans each line with a given function: each non-empty cleaned line, in order (`KeepWithAppend`, `KeepWithWellFormed`). |
| StoryParser.KeepChoices | src/lib/ai/claude.ts:156-159 | The choices the loop pushes: `KeepWith` with `CleanChoice`. The loop invariant of `ParseReply` is stated with it (`KeepChoicesStep`, `KeepChoicesWellFormed`). |
| StoryParser.Narrative | src/lib/ai/claude.ts:150 | `narrativeMatch ? narrativeMatch[1].trim() : text` (its cases are `NarrativeWithMarker` and `NarrativeWithoutMarker`). |
| StoryParser.StripOrdinal | src/lib/ai/claude.ts:157 | `replace(/^\d+\.\s*/, "")`: one run of digits at column 0, the dot and the white space after it removed, anything else kept (`OrdinalStripped`, `IndentedOrdinalKept`). |
| StoryParser.CleanChoice | src/lib/ai/claude.ts:157 | The line without its ordinal, trimmed. |
| StoryParser.Choices | src/lib/ai/claude.ts:151-160 | No choices without a `CHOICES:` match; otherwise the loop over the non-blank lines of the group (`ChoicesWellFormed`, `NumberedChoices`). |
| StoryParser.ParseReply | src/lib/ai/claude.ts:143-162 | The parsing loop returns the narrative and the choices that the match functions define for the reply text (`""` when there is no text block). |
| StoryParser.ChoicesOrEnd | src/lib/ai/claude.ts:147 | The lookahead `(?=CHOICES:\|$)` stops at the first `CHOICES:` at or after the start, or at the end of the text. |
| StoryParser.NarrativeWithoutMarker | src/lib/ai/claude.ts:147-150 | Without a `NARRATIVE:` marker the narrative is the whole reply text, unmodified. |
| StoryParser.NoTextBlock | src/lib/ai/claude.ts:143-153 | Without a text block the narrative is `""` and there are no choices. |
| StoryParser.NoChoicesAtSpace | src/lib/ai/claude.ts:147 | `CHOICES:` cannot start at a white-space character, so the lazy group ends where the marker begins. |
| StoryParser.ChoicesOrEndIs | src/lib/ai/claude.ts:147 | The end of the narrative group is characterised without the search: the first marker position, or the end. |
| StoryParser.NarrativeGroupIs | src/lib/ai/claude.ts:147 | The narrative group runs from after the first `NARRATIVE:` and its white space up to the first following `CHOICES:` or the end. |
| StoryParser.NarrativeWithMarker | src/lib/ai/claude.ts:147-150 | With a marker, the narrative is the trimmed text between the first `NARRATIVE:` and the next `CHOICES:` (or the end). |
| StoryParser.NoChoicesWithoutMarker | src/lib/ai/claude.ts:148-153 | Without a `CHOICES:` marker the choices list is empty. |
| StoryParser.KeepChoicesStep | src/lib/ai/claude.ts:156-159 | One more loop iteration appends exactly that line's cleaned text when it is not empty. |
| StoryParser.KeepChoicesAppend | src/lib/ai/claude.ts:156-159 | The choices of two line lists in sequence are the choices of each, in order. |
| StoryParser.KeepChoicesSingle | src/lib/ai/claude.ts:157-158 | A line gives at most one choice: its cleaned text, when non-empty. |
| StoryParser.KeepChoicesWellFormed | src/lib/ai/claude.ts:155-159 | Every kept choice is non-empty and trimmed, and there are no more choices than lines. |
| StoryParser.CleanBlank | src/lib/ai/claude.ts:155-157 | A blank line cleans to `""`. |
| StoryParser.BlankFilterRedundant | src/lib/ai/claude.ts:155-158 | Filtering blank lines before the loop changes no result. |
| StoryParser.ChoicesWellFormed | src/lib/ai/claude.ts:153-160 | Returned choices are non-empty and trimmed, at most one per non-blank line after the marker; no cap of three. |
| StoryParser.IndentedOrdinalKept | src/lib/ai/claude.ts:157 | A line that starts with white space keeps its ordinal: it is only trimmed. |
| StoryParser.OrdinalStripped | src/lib/ai/claude.ts:157 | `digits.` at column 0 and the white space after it are removed, and the rest is trimmed. |
| StoryParser.RepeatedOrdinalExample | src/lib/ai/claude.ts:157 | Only one ordinal is removed: `"1. 2. x"` gives `"2. x"`. |
| StoryParser.BareOrdinalExample | src/lib/ai/claude.ts:157-158 | A bare ordinal `"1."` gives no choice. |
| StoryParser.Numbered | src/lib/ai/claude.ts:127-130 | The numbered choice lines of the requested format, one per choice. |
| StoryParser.NumberedLineCleans | src/lib/ai/claude.ts:157 | Cleaning a numbered line `n. choice` gives the choice back. |
| StoryParser.NumberedChoices | src/lib/ai/claude.ts:127-159 | Numbered lines give back exactly their choices, however many there are. |
| StoryParser.FormattedChoiceLines | src/lib/ai/claude.ts:127-159 | The choices text of a formatted reply parses to its choices. |
| StoryParser.FormattedChoicesMarker | src/lib/ai/claude.ts:123-147 | In a formatted reply the first `CHOICES:` is the marker line, when the narrative has none. |
| StoryParser.NarrativeOfLayout | src/lib/ai/claude.ts:147-150 | A text laid out as the format lays it out has the given narrative. |
| StoryParser.FormattedNarrative | src/lib/ai/claude.ts:123-150 | The narrative of a formatted reply is its narrative. |
| StoryParser.FormattedChoicesGroup | src/lib/ai/claude.ts:127-148 | The choices group of a formatted reply is its numbered lines. |
| StoryParser.ParseFormatted | src/lib/ai/claude.ts:123-162 | A reply in the `NARRATIVE:`/`CHOICES:` format of the system prompt parses back to its trimmed narrative and its choices. |
| Gateway.SystemText | src/lib/ai/claude.ts:17-19 | The `system` text of each mode: `BASE_CONTEXT`, a blank line, then the mode text of claude.ts lines 30-37, 69-80, 109-130 or 180-184, word for word. |
| Gateway.FeedbackPrompt | src/lib/ai/claude.ts:41-51 | The consultant message: the full context between `---` lines, the quoted passage and `My question: ` with the question (`FeedbackPromptEnds`). |
| Gateway.FeedbackRequest | src/lib/ai/claude.ts:27-51 | The consultant request: 1024 tokens, the consultant system text and the feedback prompt as the one user message. |
| Gateway.ContextSection | src/lib/ai/claude.ts:84 | The reference section: the header, the context and a closing `---`, only when `context` is non-empty (`ContextShownIff`). |
| Gateway.StyleSection | src/lib/ai/claude.ts:84 | `Style notes: ` and the reference, only when `styleReference` is truthy (`StyleShownIff`). |
| Gateway.RequestSection | src/lib/ai/claude.ts:84-88 | The request header, the description and the closing instruction (`GenerationPromptEnds`). |
| Gateway.GenerationPrompt | src/lib/ai/claude.ts:84 | The draft request with the optional reference section and style line (`ContextShownIff`, `StyleShownIff`, `GenerationPromptEnds`). |
| Gateway.GenerationRequest | src/lib/ai/claude.ts:66-89 | The expedience request: 2048 tokens, the expedience system text and the generation prompt. |
| Gateway.StoryPrompt | src/lib/ai/claude.ts:134-138 | `Story so far:`, the story, then `I choose: ` and the choice when it is truthy, else the opening request (`StoryPromptEnds`). |
| Gateway.StoryRequest | src/lib/ai/claude.ts:106-139 | The story-weaver request: 1024 tokens, the story-weaver system text and the story prompt; `lastAction` is not part of it (`AiRoutes.StoryIgnoresLastAction`). |
| Gateway.AssistInstruction | src/lib/ai/claude.ts:170-175 | The instruction of each of the four kinds, word for word. |
| Gateway.RevisionPrompt | src/lib/ai/claude.ts:188-191 | The instruction, a blank line, `Text to revise:` on its own line, then the text (`AssistPromptShape`). |
| Gateway.AssistPrompt | src/lib/ai/claude.ts:188-191 | The revision prompt with the instruction of the requested kind. |
| Gateway.AssistRequest | src/lib/ai/claude.ts:177-192 | The quick-assist request: 1024 tokens, the quick-assist system text and the assist prompt. |
| Gateway.GetWritingFeedback | src/lib/ai/claude.ts:22-58 | The feedback call fails exactly when the model call fails. |
| Gateway.FeedbackText | src/lib/ai/claude.ts:56-57 | A text block is returned as-is; without one the reply is "Unable to generate feedback.". |
| Gateway.FeedbackPromptEnds | src/lib/ai/claude.ts:41-51 | The quoted passage and then the question close the feedback prompt. |
| Gateway.GenerateFromDescription | src/lib/ai/claude.ts:61-95 | The generation call fails exactly when the model call fails. |
| Gateway.GenerationText | src/lib/ai/claude.ts:93-94 | A text block is returned as-is; without one the reply is "Unable to generate content.". |
| Gateway.PromptAfterContext | src/lib/ai/claude.ts:84-88 | After the reference section come the style line (if any) and the request. |
| Gateway.StyleThenRequest | src/lib/ai/claude.ts:84-88 | The style line opens what follows exactly when the style reference is truthy; otherwise the request does. |
| Gateway.HeadersDiffer | src/lib/ai/claude.ts:84 | The three section headers cannot be confused: they differ in their first characters. |
| Gateway.PromptWithContext | src/lib/ai/claude.ts:84 | With a context, the prompt opens with the reference header followed by the context. |
| Gateway.ContextShownIff | src/lib/ai/claude.ts:84 | The prompt opens with the reference section if and only if the context is non-empty. |
| Gateway.StyleShownIff | src/lib/ai/claude.ts:84 | After the reference section, the style line is present if and only if `styleReference` is truthy, and carries its value. |
| Gateway.GenerationPromptEnds | src/lib/ai/claude.ts:84-88 | The prompt always ends with the description and the closing instruction. With neither optional section, that is the whole prompt. |
| Gateway.StoryPromptEnds | src/lib/ai/claude.ts:134-138 | The story prompt opens with the story so far. It ends with `I choose: ` and the choice when one is given, otherwise with the opening request. |
| Gateway.StoryOutcome | src/lib/ai/claude.ts:98-163 | `continueStory` fails exactly when the model call fails. `lastAction` never enters the request. |
| Gateway.ContinueStory | src/lib/ai/claude.ts:98-163 | The method (one request, then the parsing loop) computes `StoryOutcome`. |
| Gateway.StoryOutcomeOfFormattedReply | src/lib/ai/claude.ts:123-162 | A model reply in the requested format yields exactly its narrative and choices. |
| Gateway.ParseAssistType | src/app/api/ai/assist/route.ts:38 | A recognised kind has exactly the given name. |
| Gateway.AssistNameRoundTrip | src/lib/ai/claude.ts:168-175 | Each kind is recognised by its own name. |
| Gateway.AssistNamesOnly | src/app/api/ai/assist/route.ts:38 | Exactly the four names grammar, clarity, stronger and shorter are recognised. |
| Gateway.QuickAssist | src/lib/ai/claude.ts:166-198 | The assist call fails exactly when the model call fails. |
| Gateway.QuickAssistText | src/lib/ai/claude.ts:196-197 | Without a text block the input text comes back unchanged; otherwise the block's text does. |
| Gateway.AssistPromptShape | src/lib/ai/claude.ts:188-191 | The revision message opens with the instruction it is given (for `quickAssist`, the chosen kind's) and ends with a blank line, `Text to revise:` and the text. |
| Gateway.Client.constructor | src/lib/ai/claude.ts:9-11 | A client keeps the API key it was built with. |
| Gateway.ClientSlot.constructor | src/lib/ai/claude.ts:6 | The slot starts empty, with no client built. |
| Gateway.ClientSlot.GetClient | src/lib/ai/claude.ts:7-14 | The first call builds one client from `ANTHROPIC_API_KEY`; later calls return that same instance and build nothing. |
| Gateway.GetClientTwice | src/lib/ai/claude.ts:7-14 | Two calls return the same client, and at most one client is ever built, even when the environment changed in between. |
| Env.ParseLine | src/lib/env.ts:22-27 | The loop body for one line: trim, skip blanks and `#` comments, split at `=` and assign the rejoined rest when the key is non-empty and an `=` was present (`ParseLineIsByIndex`, `KeyValueLine`). |
| Env.ApplyLine | src/lib/env.ts:22-27 | One line's effect: the parsed key set to its value, or the variables unchanged (`IgnoredLines`). |
| Env.FileLines | src/lib/env.ts:21 | `content.split("\n")`: the pieces between newlines, at least one. |
| Env.ApplyLines | src/lib/env.ts:21-29 | The loop over the lines in order, each assignment overwriting (`ApplyLinesLookup`, `ApplyLinesKeys`). |
| Env.ParseLineIsByIndex | src/lib/env.ts:22-27 | The split-and-rejoin parse equals the `indexOf` description: the key is the text before the first `=`, the value everything after it. |
| Env.CommentsAndBlanksIgnored | src/lib/env.ts:22-23 | Lines that are blank or start with `#` after trimming assign nothing. |
| Env.NoKeyIgnored | src/lib/env.ts:24-25 | Lines with no `=`, or with an empty key, assign nothing. |
| Env.KeyValueLine | src/lib/env.ts:22-27 | A trimmed `K=REST` line assigns exactly `REST` to `K`. Later `=` signs are kept, and `K=` assigns `""`. |
| Env.SpacedKeyExample | src/lib/env.ts:22-26 | The key is not trimmed: `A = b` assigns `" b"` to `"A "`. |
| Env.ApplyLinesLookup | src/lib/env.ts:21-29 | The last line assigning a key decides its value. A key no line assigns keeps its value, or stays absent. |
| Env.ApplyLinesKeys | src/lib/env.ts:21-29 | No variable disappears, and only keys some line assigns change. |
| Env.IgnoredLines | src/lib/env.ts:21-29 | Lines that each assign nothing leave the variables unchanged. |
| Env.ApplyLinesTwice | src/app/api/ai/generate/route.ts:6-22 | Loading the same file twice (the four route modules each load it) is the same as loading it once. |
| Env.SkipsLoading | src/lib/env.ts:9-16 | The two early returns: `NODE_ENV` is `"production"`, or `DATABASE_URL` or `ANTHROPIC_API_KEY` is set and non-empty (used by `EnsureEnvLoaded`). |
| Env.Environment.constructor | src/lib/env.ts:7 | The environment starts as given. |
| Env.Environment.LoadLines | src/lib/env.ts:21-29 | The loop leaves the variables as the line-by-line application of the file defines them. |
| Env.Environment.LoadEnv | src/app/api/ai/generate/route.ts:6-20 | The routes' loader changes nothing when the file is absent. Otherwise it applies every line, overwriting existing values unconditionally. |
| Env.Environment.EnsureEnvLoaded | src/lib/env.ts:7-31 | Nothing changes in production, when `DATABASE_URL` is set, or when `ANTHROPIC_API_KEY` is set. Otherwise the file is loaded as the routes load it. |
| AiRoutes.ErrorText | src/app/api/ai/generate/route.ts:55 | `error instanceof Error ? error.message : "Unknown error"`. |
| AiRoutes.GenerateFailed | src/app/api/ai/generate/route.ts:53-59 | 500 with `Failed to generate: ` and that text (`GenerateFailure`). |
| AiRoutes.GeneratePost | src/app/api/ai/generate/route.ts:26-61 | The key check before the body, then the description check, then the call; 200 with `content` or the 500 replies (`GenerateSucceedsIff`, `GenerateFailure`). |
| AiRoutes.CheckGenerate | src/app/api/ai/generate/route.ts:39-50 | Accepted if and only if the description is truthy. `context` defaults to `""` and `styleReference` passes through. Otherwise 400 "Description is required". |
| AiRoutes.GenerateNeedsKey | src/app/api/ai/generate/route.ts:28-34 | Without `ANTHROPIC_API_KEY` the reply is the 500 configuration error, whatever the body and the model. |
| AiRoutes.GenerateSucceedsIff | src/app/api/ai/generate/route.ts:26-52 | The reply is 200 if and only if the key is set, the body parses, the description is truthy and the model call resolves. `content` is the generator's result. |
| AiRoutes.GenerateRejectsWithoutDescription | src/app/api/ai/generate/route.ts:39-44 | A falsy description gives 400, and the reply does not depend on the model. |
| AiRoutes.GenerateFailure | src/app/api/ai/generate/route.ts:53-59 | A thrown error gives 500 "Failed to generate: " plus its message, or "Unknown error" for a non-`Error` value. |
| AiRoutes.AssistPost | src/app/api/ai/assist/route.ts:26-55 | Both checks, then the call; 200 with `result` or 500 "Failed to process request" (`AssistOutcome`). |
| AiRoutes.CheckAssist | src/app/api/ai/assist/route.ts:31-43 | A missing `text` or `assistType` gives "Text and assist type are required". An unknown kind gives "Invalid assist type". Both are 400. |
| AiRoutes.AssistOutcome | src/app/api/ai/assist/route.ts:31-54 | The model is asked only after both checks pass. The reply is then `{result}`, or 500 "Failed to process request". |
| AiRoutes.AssistTypeAccepted | src/app/api/ai/assist/route.ts:38-45 | Every kind, named exactly, is accepted with the text. |
| AiRoutes.AssistBodyUnreadable | src/app/api/ai/assist/route.ts:48-54 | An unreadable body gives 500 "Failed to process request". |
| AiRoutes.FeedbackPost | src/app/api/ai/feedback/route.ts:26-52 | The check, then the call; 200 with `feedback` or 500 "Failed to generate feedback" (`FeedbackOutcome`). |
| AiRoutes.CheckFeedback | src/app/api/ai/feedback/route.ts:31-42 | Accepted if and only if both `selectedText` and `question` are truthy; `fullContext` defaults to `""`. |
| AiRoutes.FeedbackOutcome | src/app/api/ai/feedback/route.ts:31-51 | A missing field gives 400 without asking the model. Otherwise the reply is `{feedback}`, or 500 "Failed to generate feedback". |
| AiRoutes.StoryPost | src/app/api/ai/storyweaver/route.ts:26-52 | The check, then `continueStory`, its result returned as it is, or 500 "Failed to continue story" (`StoryRouteOutcome`). |
| AiRoutes.CheckStory | src/app/api/ai/storyweaver/route.ts:31-42 | Rejected only when both `storyContext` and `authorChoice` are falsy. `storyContext` and `lastAction` default to `""`; `authorChoice` passes through. |
| AiRoutes.StoryRouteOutcome | src/app/api/ai/storyweaver/route.ts:31-51 | The 400 asks no model. Otherwise the parser's `{narrative, choices}` is returned unchanged, or 500 "Failed to continue story". |
| AiRoutes.StoryIgnoresLastAction | src/app/api/ai/storyweaver/route.ts:38-44 | Bodies that differ only in `lastAction` get the same reply. |
| Auth.NormalizeUsername | src/app/api/auth/register/route.ts:25 | The normalised username is trimmed and has the length of the trimmed input. |
| Auth.NormalizeIdempotent | src/app/api/auth/register/route.ts:25 | Normalising twice is normalising once. |
| Auth.NormalizeIgnoresPadding | src/app/api/auth/login/route.ts:26 | White space on either side of a name does not change its normal form. |
| Auth.NormalizeIgnoresCase | src/app/api/auth/login/route.ts:26 | Names equal once lower-cased (ASCII) have the same normal form. |
| Auth.NormalizeIgnoresCaseAndPadding | src/app/api/auth/login/route.ts:26 | A name typed in another ASCII case and with white space around it normalises like the name itself. |
| Auth.FindUser | src/app/api/auth/login/route.ts:27-31 | The lookup finds the first row with the normalised username, or reports that none has it. |
| Auth.UsernameMissing | src/app/api/auth/register/route.ts:17 | `!username \|\| !username.trim()`: absent, empty or only white space. Login uses the same test (login/route.ts:17). |
| Auth.CheckRegister | src/app/api/auth/register/route.ts:17-36 | The username check comes first. A password that is missing or shorter than 4 (raw length) is a 400. A taken name is a 409. An accepted registration stores the normalised name and keeps the trimmed name as the display name. |
| Auth.DuplicateRejected | src/app/api/auth/register/route.ts:28-36 | An existing normalised username gives 409 "Username already taken", and the table is unchanged. |
| Auth.IdCollisionFails | src/app/api/auth/register/route.ts:42-62 | An accepted registration whose new id is already a row's id fails on the primary key: 500 "Registration failed" and the table unchanged. |
| Auth.RegisterKeepsUnique | src/app/api/auth/register/route.ts:28-50 | Registration preserves the uniqueness of usernames. |
| Auth.RegisterKeepsIdsUnique | src/app/api/auth/register/route.ts:42-50 | Registration keeps ids unique, and a successful one appends exactly one row, with the new id. |
| Auth.NewUser | src/app/api/auth/register/route.ts:42-48 | The inserted row: the new id, the normalised name, the hash, the trimmed display name and `now`. |
| Auth.RegisteredUsers | src/app/api/auth/register/route.ts:12-64 | The table after a registration: the new row appended when the guard accepts and the id is free, otherwise unchanged. |
| Auth.RegisterReply | src/app/api/auth/register/route.ts:12-64 | 500 for an unreadable body, the guard's 400/409, 500 for a taken id, else `{ success: true }`. |
| Auth.RegisteredNameNormal | src/app/api/auth/register/route.ts:25-47 | Stored usernames are already normalised, and the display name is non-empty. |
| Auth.CheckLogin | src/app/api/auth/login/route.ts:17-43 | Missing username or password gives 400, with no minimum length. Success names a stored user with the normalised name whose hash matches. |
| Auth.LoginFailureIsGeneric | src/app/api/auth/login/route.ts:33-43 | An unknown user and a wrong password get the identical 401 "Invalid username or password". |
| Auth.SessionName | src/app/api/auth/login/route.ts:48 | `user.displayName \|\| user.username`. |
| Auth.LoginReply | src/app/api/auth/login/route.ts:12-56 | 500 "Login failed" for an unreadable body, the guard's 400/401, else `{ success: true }`. |
| Auth.RegisteredUserCanLogIn | src/app/api/auth/register/route.ts:39-57 | A user registered under a free id logs in with the same name, in any case or padding, and a matching password. The session then shows the display name. |
| Auth.UserTable.constructor | src/lib/db/schema-pg.ts:4-10 | The table starts with the given rows. |
| Auth.Session.constructor | src/lib/auth/session.ts:4-8 | A fresh session is logged out and holds no user. |
| Auth.Session.LogIn | src/app/api/auth/register/route.ts:53-57 | Logging in sets `isLoggedIn`, `userId` and `username`. |
| Auth.Register | src/app/api/auth/register/route.ts:12-64 | The reply and the table are as the registration functions say. An id already in use gives 500 with nothing written. On success the new id was free and the session is the new user's, under the trimmed display name; otherwise the session is unchanged. |
| Auth.Login | src/app/api/auth/login/route.ts:12-57 | The method reads the table and never writes it. The session changes only on success, and then holds the user's id and `displayName \|\| username`. |
| Library.ProjectChapters | src/app/api/chapters/route.ts:17-21 | The project's chapters are exactly the rows with that project id. |
| Library.MaxOrder | src/app/api/chapters/route.ts:23-24 | `Math.max` of the orders is at least every order and is one of them. |
| Library.NextOrder | src/app/api/chapters/route.ts:23-35 | `maxOrder + 1`, with -1 for a project without chapters (`NextOrderAbove`, `NextOrderConsecutive`). |
| Library.NextOrderAbove | src/app/api/chapters/route.ts:23-35 | The new order is above every existing order of the project. It is either the maximum plus 1, or 0 when the project has no chapters. |
| Library.NextOrderConsecutive | src/app/api/chapters/route.ts:23-35 | When the existing orders are 0..n-1, the new order is n. |
| Library.DefaultTitleNumber | src/app/api/chapters/route.ts:33 | The default title is "Chapter " plus the decimal existing count + 1. Different counts give different titles. |
| Library.ChapterTitle | src/app/api/chapters/route.ts:33 | `title \|\| \`Chapter ${count + 1}\``. |
| Library.NewChapter | src/app/api/chapters/route.ts:30-39 | The inserted chapter: the project's next order and default title, empty content, word count 0, both stamps `now`. |
| Library.Touch | src/app/api/chapters/route.ts:42 | The update sets `updatedAt` on the rows with that id, and only on those. |
| Library.ChapterById | src/app/api/chapters/route.ts:44 | The read-back finds the first row with that id. |
| Library.ChapterReadBack | src/app/api/chapters/route.ts:28-46 | With a fresh id, the chapter read back is the one just inserted. |
| Library.ProjectById | src/app/api/projects/route.ts:52 | The read-back finds the first project with that id. |
| Library.ProjectReadBack | src/app/api/projects/route.ts:28-54 | With a fresh id, the project read back is the one just inserted. |
| Library.NewProject | src/app/api/projects/route.ts:31-37 | The inserted project, with `description \|\| null`. |
| Library.FirstChapter | src/app/api/projects/route.ts:40-50 | The "Chapter 1" at order 0 created with every project. |
| Library.NewProjectChapters | src/app/api/projects/route.ts:40-50 | A new project has exactly its "Chapter 1" at order 0. The next untitled chapter is "Chapter 2" at order 1. |
| Library.Insert | src/app/api/projects/route.ts:9 | Insertion adds exactly the one row. |
| Library.InsertAscending | src/app/api/projects/route.ts:9 | Insertion keeps the order ascending by `updatedAt`. |
| Library.InsertBounded | src/app/api/projects/route.ts:9 | A lower bound on `updatedAt` that holds for the new row and every sorted row holds for every row after the insertion. |
| Library.SortByUpdated | src/app/api/projects/route.ts:9 | Sorting is a permutation of the rows. |
| Library.SortAscending | src/app/api/projects/route.ts:9 | The sorted rows ascend by `updatedAt`. |
| Library.Reversed | src/app/api/projects/route.ts:10 | `reverse()`: same length, and position i holds the row at position n-1-i. |
| Library.ReversedDescending | src/app/api/projects/route.ts:10 | Reversing an ascending list gives a descending permutation of it. |
| Library.ListingNewestFirst | src/app/api/projects/route.ts:7-10 | The listing holds every project exactly once, newest first. |
| Library.Database.constructor | src/lib/db/schema.ts:4-24 | The tables start as given. |
| Library.Database.CreateChapter | src/app/api/chapters/route.ts:7-51 | Without a project id: 400 and nothing written. A chapter id already in the table, or a project id that names no project: 500 "Failed to create chapter" and nothing written. Otherwise it appends one chapter (order, default title, `""`, 0, `now`), touches the project's `updatedAt`, and replies 201 with exactly the chapter inserted. |
| Library.Database.CreateProject | src/app/api/projects/route.ts:18-59 | Without a title: 400 and nothing written. A project id in use: 500 and nothing written; a chapter id in use: 500 after the project row is written. Otherwise it appends one project (a falsy description stored as null) and its "Chapter 1" at order 0, all with the same `now`, and replies 201 with exactly that project and `firstChapterId`. |
| Library.Database.ListProjects | src/app/api/projects/route.ts:7-15 | The listing is the sorted rows reversed: a permutation of the table, descending by `updatedAt`. |
| Library.ReverseInPlace | src/app/api/projects/route.ts:10 | `reverse()` leaves the array reversed. |
| Editor.Chunks | src/components/editor/Editor.tsx:108-109 | `split(/\n\n+/)` yields at least one piece, and the first piece is a prefix of the text. |
| Editor.ChunksHaveNoBlankLine | src/components/editor/Editor.tsx:109 | No piece contains two newlines in a row. |
| Editor.ChunksOfSpace | src/components/editor/Editor.tsx:109 | White-space text splits into white-space pieces. |
| Editor.ChunksOfParagraph | src/components/editor/Editor.tsx:109 | Text without a blank line is a single piece. |
| Editor.ChunksAfterParagraph | src/components/editor/Editor.tsx:109 | A paragraph followed by a blank line is the first piece, and the rest splits on its own. |
| Editor.Block | src/components/editor/Editor.tsx:111-114 | `<p>` around the trimmed paragraph with each newline as `<br>`. |
| Editor.Render | src/components/editor/Editor.tsx:110-116 | The blocks of the non-blank pieces, in order, joined with `""`. |
| Editor.ToHtml | src/components/editor/Editor.tsx:108-116 | The split, filter, map and join of `insertContent` (`ParagraphsRoundTrip`, `NoNewlineInHtml`). |
| Editor.NoNewlineInBlock | src/components/editor/Editor.tsx:111-114 | A `<p>` block contains no newline. |
| Editor.NoNewlineInRender | src/components/editor/Editor.tsx:110-116 | The joined blocks contain no newline. |
| Editor.NoNewlineInHtml | src/components/editor/Editor.tsx:108-116 | The converted HTML contains no newline: every newline inside a paragraph became `<br>`. |
| Editor.RenderBlank | src/components/editor/Editor.tsx:110 | White-space pieces produce no block. |
| Editor.BlankInsertsNothing | src/components/editor/Editor.tsx:108-116 | Text made only of white space converts to `""`. |
| Editor.SingleParagraph | src/components/editor/Editor.tsx:108-116 | A paragraph with text becomes exactly one `<p>` block of its trimmed text with `<br>` line breaks. |
| Editor.ParagraphsRoundTrip | src/components/editor/Editor.tsx:108-116 | Paragraphs joined by blank lines split back into the same paragraphs. The HTML is one block per paragraph with text, in order. |
| Editor.PopupFor | src/components/editor/Editor.tsx:73-93 | A popup exists exactly in pure mode with more than 10 selected characters, and then shows the selection. |
| Editor.EditorState.constructor | src/components/editor/Editor.tsx:34-38 | `lastContentRef` starts as the initial content, with no timer, no popup and nothing saved. |
| Editor.EditorState.HandleSave | src/components/editor/Editor.tsx:127-138 | Each call saves once. `lastContent` moves only when the save resolves. |
| Editor.EditorState.OnUpdate | src/components/editor/Editor.tsx:59-72 | An update replaces any pending timer by one for the new content, so at most one save is pending. |
| Editor.EditorState.TimerFires | src/components/editor/Editor.tsx:67-71 | The timer saves the content it captured only when that content differs from `lastContent`. |
| Editor.EditorState.Unmount | src/components/editor/Editor.tsx:149-155 | Unmounting clears the pending timer. |
| Editor.EditorState.SetContent | src/components/editor/Editor.tsx:98-103 | `setContent` records the content as the last saved, without saving. |
| Editor.EditorState.InsertContent | src/components/editor/Editor.tsx:104-124 | The inserted markup is the conversion of the text. The resulting document is saved at once, with no gating. |
| Editor.EditorState.OnSelectionUpdate | src/components/editor/Editor.tsx:73-93 | The popup is set as `PopupFor` says, and nothing else changes. |
| StoryWeaver.NarrativeTexts | src/components/editor/StoryWeaverMode.tsx:26-28 | There are no more narrative texts than beats. |
| StoryWeaver.ChoicesMade | src/components/editor/StoryWeaverMode.tsx:219 | Choice beats and narrative beats together are all the beats. |
| StoryWeaver.FullStory | src/components/editor/StoryWeaverMode.tsx:25-30 | The narrative texts joined by blank lines (`FullStoryAddsNarrative`, `FullStoryIgnoresChoice`). |
| StoryWeaver.WordCount | src/components/editor/StoryWeaverMode.tsx:221 | The number of white-space-separated words of the full story (`WordCountAddsNarrative`). |
| StoryWeaver.FullStoryIgnoresChoice | src/components/editor/StoryWeaverMode.tsx:25-30 | A choice beat changes neither the full story nor anything but the count of choices, which grows by one. |
| StoryWeaver.FullStoryAddsNarrative | src/components/editor/StoryWeaverMode.tsx:25-30 | A narrative beat extends the full story by `"\n\n"` and its text. An absent text counts as `""`. |
| StoryWeaver.WordCountAddsNarrative | src/components/editor/StoryWeaverMode.tsx:221 | The word count grows by exactly the words of the new narrative. |
| StoryWeaver.ChoiceStep | src/components/editor/StoryWeaverMode.tsx:60-75 | The story sent with a choice is the story before it, and a choice with its narrative counts as exactly one more choice made. |
| StoryWeaver.AlternatingExtend | src/components/editor/StoryWeaverMode.tsx:60-80 | A choice and then its narrative keep the log alternating. |
| StoryWeaver.AlternatingStep | src/components/editor/StoryWeaverMode.tsx:60-80 | In an alternating log the choices made are half the beats, and each step adds one. |
| StoryWeaver.NarrativeCount | src/components/editor/StoryWeaverMode.tsx:219 | When narratives sit at the even positions, the number of choices is half the length. |
| StoryWeaver.StartRequest | src/components/editor/StoryWeaverMode.tsx:40-43 | The setup prompt as `storyContext`, with "Begin a new story" only when the prompt is empty. |
| StoryWeaver.ChoiceRequest | src/components/editor/StoryWeaverMode.tsx:67-70 | The full story and the choice. |
| StoryWeaver.StartRequestAccepted | src/components/editor/StoryWeaverMode.tsx:40-43 | The start request always passes the route's check and carries the setup prompt. |
| StoryWeaver.ChoiceRequestAccepted | src/components/editor/StoryWeaverMode.tsx:67-88 | A choice request is rejected only when both the choice and the story are empty. A custom choice with text always passes. |
| StoryWeaver.Panel.constructor | src/components/editor/StoryWeaverMode.tsx:18-23 | The panel starts empty, not started, with the setup prompt `initialContext \|\| ""`. |
| StoryWeaver.Panel.SetSetupPrompt | src/components/editor/StoryWeaverMode.tsx:135 | Typing a setup prompt changes only the prompt. |
| StoryWeaver.Panel.SetCustomChoice | src/components/editor/StoryWeaverMode.tsx:195 | Typing a custom choice changes only that field. |
| StoryWeaver.Panel.StartStory | src/components/editor/StoryWeaverMode.tsx:32-54 | The log becomes one narrative beat: the response's narrative, or the error text. "Begin a new story" is sent only with an empty prompt. The choices are replaced only when a response arrives. |
| StoryWeaver.Panel.MakeChoice | src/components/editor/StoryWeaverMode.tsx:56-84 | The choice beat and exactly one narrative beat are appended, whether the call succeeds or fails. The choices are cleared and then set from the response. The story sent is the same before and after the choice beat. The log stays alternating. |
| StoryWeaver.Panel.HandleCustomChoice | src/components/editor/StoryWeaverMode.tsx:56-91 | A blank custom choice changes nothing. Otherwise it is sent untrimmed and passes the route's check. The log gains the choice beat and the response's narrative (or the error text), the choices come from the response (or are cleared), loading ends, one more choice is counted, the log stays alternating, and the input is cleared. |
| Http.Truthy | src/app/api/chapters/route.ts:12 | JavaScript truthiness of a string field, as every route guard uses it: present and not `""`. |
| Strings.Trim | src/app/api/auth/register/route.ts:25 | `String.prototype.trim`: the result is trimmed (`TrimIsInfix`, `TrimEmptyIff`, `TrimIdempotent`). |
| Strings.TrimIsInfix | src/app/api/auth/register/route.ts:25 | What `trim` keeps is an infix of the input, and what it drops on either side is white space. |
| Strings.TrimEmptyIff | src/app/api/auth/register/route.ts:17 | `s.trim()` is empty exactly when `s` is all white space. |
| Strings.TrimIdempotent | src/app/api/auth/register/route.ts:25 | Trimming twice is trimming once. |
| Strings.TrimSurrounded | src/app/api/auth/login/route.ts:26 | White space added on both sides does not change the trim. |
| Strings.ToLower | src/app/api/auth/register/route.ts:25 | `toLowerCase` on ASCII: same length, each character lowered in place. |
| Strings.ToLowerIdempotent | src/app/api/auth/register/route.ts:25 | Lower-casing twice is lower-casing once. |
| Strings.TrimLower | src/app/api/auth/login/route.ts:26 | Trimming and lower-casing commute. |
| Strings.SplitWhere | src/lib/env.ts:21 | `split` at a separator character: at least one piece (`SplitPiecesHaveNoSeparator`, `JoinSplit`, `SplitJoin`). |
| Strings.SplitPiecesHaveNoSeparator | src/lib/env.ts:21 | No piece of a split contains the separator. |
| Strings.Join | src/lib/env.ts:26 | `parts.join(sep)` (`JoinSplit`, `SplitJoin`). |
| Strings.JoinSplit | src/lib/env.ts:24-26 | Splitting at a character and joining with it gives the text back. |
| Strings.SplitJoin | src/lib/env.ts:24-26 | Joining pieces free of the character and splitting again gives the pieces back. |
| Strings.ReplaceAll | src/components/editor/Editor.tsx:113 | `replace(/c/g, rep)`: with a non-empty replacement the text does not shrink (`ReplaceAllRemoves`). |
| Strings.ReplaceAllRemoves | src/components/editor/Editor.tsx:113 | After replacing every `c` by text free of `c`, no `c` is left. |
| Strings.Words | src/components/editor/StoryWeaverMode.tsx:221 | `split(/\s+/).filter(Boolean)`: the maximal runs of non-white-space (`WordsAppend`, `WordsOfSpace`). |
| Strings.WordsAppend | src/components/editor/StoryWeaverMode.tsx:221 | A white-space character between two texts separates their words. |
| Strings.WordsOfSpace | src/components/editor/StoryWeaverMode.tsx:221 | White space alone has no words. |

## Left out

- The hosted model's SDK, model id and network are left out. A call is an input function from the request to an outcome, and only its first text block is read.
- The database drivers (SQLite and PostgreSQL through Drizzle) are left out. Tables are sequences of rows in insertion order.
  - Database errors, and therefore the 500 "Failed to fetch projects" reply of `GET /api/projects`, are not modelled.
  - The foreign key from `chapters.project_id` to `projects.id` (src/lib/db/schema.ts:15-17) is modelled as enforced, which is better-sqlite3's default. A chapter for an unknown project fails at the insert, and the route replies 500. Its `onDelete: "cascade"` is not modelled, because no route modelled here deletes a project.
- `users` is defined only in src/lib/db/schema-pg.ts. Both auth routes import it through the SQLite schema, which does not define it. The model assumes the table exists as schema-pg.ts declares it, because otherwise every auth request would fail with 500.
- bcrypt is the `hashOf` function and the `matches` predicate. Salting makes the real hash nondeterministic; that is not modelled.
- uuid generation and `new Date()` are not modelled; ids and the timestamp are parameters. An id already in its table stands for a uuid collision. The insert then fails on the primary key and the route replies 500, as the `catch` does. Concurrent requests, and rows they add between a check and an insert, are not modelled.
- iron-session, the cookie and `session.save()` are left out. The session is a plain record changed in place.
- The file system is left out. The `.env.local` contents are an input string, or absent.
- Request bodies whose fields are not strings (numbers, objects, arrays) are left out: their behaviour is not modelled, and every field is an `Option<string>`.
- `toLowerCase` is modelled on ASCII letters only.
- `String.length` counts characters (code points), not UTF-16 code units.
- `getClient` is modelled without the SDK's own handling of a missing key.
- The story parser's `\s` is the ECMAScript white-space set exactly as `trim` uses it.
- Library.SortByUpdated: SQL leaves the order of rows with equal `updatedAt` unspecified. The model is a stable insertion sort, and only ascending order and permutation are proved.
- Editor.EditorState: the rich-text document, the HTML it produces, and the 1500 ms timer are left out. Only the "at most one pending save" bookkeeping is kept. `isSaving` and `lastSaved` only drive the status bar, so they are left out. The cursor position, selection coordinates and the click-outside handler are left out too.
- Editor.EditorState.HandleSave also stands for `handleApplyEdit` and the Ctrl+S handler (src/components/editor/Editor.tsx:140-170). Both call it unconditionally, with the editor's current HTML.
- Editor.EditorState.InsertContent: the change event that the editor itself raises after an insertion is not modelled inside the method. It is a separate OnUpdate call.
- StoryWeaver.Panel: rendering, export and `onClose` are left out. `isLoading` is modelled only as false once an action completes.
- StoryWeaver.Panel.StartStory and StoryWeaver.Panel.MakeChoice: an error reply from the route is not an exception to `fetch`. The panel then shows a narrative beat with no text and no choices. This is modelled as the absent `narrative` of the response.
- The story-bible extraction pipeline, the other UI components, and the routes `/api/auth/check` and `/api/auth/logout` are not part of this model.
