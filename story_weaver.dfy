/**
 * The story-weaver panel (src/components/editor/StoryWeaverMode.tsx): an
 * append-only log of narrative and choice beats, the full story derived
 * from it, the stats line, and the three actions that call
 * `POST /api/ai/storyweaver`. Each action is one method: the request body
 * it sends is an out-parameter and the settled `res.json()` is an input.
 */
module StoryWeaver {
  import opened Wrappers
  import opened Strings
  import opened Http
  import AiRoutes

  /** A beat. A narrative beat's content is `data.narrative`, which is
      absent when the route answered with an `{ error }` body. */
  datatype Beat = Narrative(content: Option<string>) | Choice(choice: string)

  /** The fields of `data` the panel reads. */
  datatype StoryData = StoryData(narrative: Option<string>, choices: Option<seq<string>>)

  const BeginStory: string := "Begin a new story"
  const StartError: string := "Error starting story. Please try again."
  const ContinueError: string := "Error continuing story. Please try again."

  /** `.filter(narrative).map(content)`; `join` renders an absent content as "". */
  function NarrativeTexts(beats: seq<Beat>): (r: seq<string>)
    ensures |r| <= |beats|
  {
    if beats == [] then []
    else
      var rest := NarrativeTexts(beats[..|beats| - 1]);
      match beats[|beats| - 1]
      case Narrative(c) => rest + [c.GetOr("")]
      case Choice(_) => rest
  }

  /** `getFullStory`. */
  function FullStory(beats: seq<Beat>): string {
    Join(NarrativeTexts(beats), "\n\n")
  }

  /** The "choices made" count. */
  function ChoicesMade(beats: seq<Beat>): (n: nat)
    ensures n + |NarrativeTexts(beats)| == |beats|
  {
    if beats == [] then 0
    else ChoicesMade(beats[..|beats| - 1]) + (if beats[|beats| - 1].Choice? then 1 else 0)
  }

  /** The "words" count: `getFullStory().split(/\s+/).filter(Boolean).length`. */
  function WordCount(beats: seq<Beat>): nat {
    |Words(FullStory(beats))|
  }

  lemma SnocPrefix(beats: seq<Beat>, b: Beat)
    ensures (beats + [b])[..|beats|] == beats && (beats + [b])[|beats|] == b
  {
  }

  /** Choice beats never show in the full story. */
  lemma FullStoryIgnoresChoice(beats: seq<Beat>, choice: string)
    ensures NarrativeTexts(beats + [Choice(choice)]) == NarrativeTexts(beats)
    ensures FullStory(beats + [Choice(choice)]) == FullStory(beats)
    ensures ChoicesMade(beats + [Choice(choice)]) == ChoicesMade(beats) + 1
  {
    SnocPrefix(beats, Choice(choice));
  }

  lemma {:induction false} JoinSnoc(parts: seq<string>, last: string, sep: string)
    requires parts != []
    ensures Join(parts + [last], sep) == Join(parts, sep) + sep + last
  {
    if |parts| == 1 {
      assert (parts + [last])[1..] == [last];
    } else {
      assert (parts + [last])[1..] == parts[1..] + [last];
      JoinSnoc(parts[1..], last, sep);
    }
  }

  /** A narrative beat extends the full story by a blank line and its text. */
  lemma FullStoryAddsNarrative(beats: seq<Beat>, content: Option<string>)
    ensures NarrativeTexts(beats + [Narrative(content)]) == NarrativeTexts(beats) + [content.GetOr("")]
    ensures FullStory(beats + [Narrative(content)]) ==
              if NarrativeTexts(beats) == [] then content.GetOr("") else FullStory(beats) + "\n\n" + content.GetOr("")
    ensures ChoicesMade(beats + [Narrative(content)]) == ChoicesMade(beats)
  {
    SnocPrefix(beats, Narrative(content));
    if NarrativeTexts(beats) != [] {
      JoinSnoc(NarrativeTexts(beats), content.GetOr(""), "\n\n");
    }
  }

  /** The words of the story grow by exactly the words of the new narrative. */
  lemma WordCountAddsNarrative(beats: seq<Beat>, content: Option<string>)
    ensures WordCount(beats + [Narrative(content)]) == WordCount(beats) + |Words(content.GetOr(""))|
  {
    FullStoryAddsNarrative(beats, content);
    var t := content.GetOr("");
    if NarrativeTexts(beats) == [] {
      assert FullStory(beats) == "";
      assert Words("") == [];
    } else {
      var s := FullStory(beats);
      ParagraphBreak(s, t);
      WordsAppend(s, '\n', ['\n'] + t);
      WordsAppend([], '\n', t);
      assert Words([]) == [];
    }
  }

  /** The blank line between two paragraphs, as two line breaks. */
  lemma ParagraphBreak(s: string, t: string)
    ensures s + "\n\n" + t == s + ['\n'] + (['\n'] + t)
    ensures ['\n'] + t == [] + ['\n'] + t
  {
  }

  /** A choice and then its narrative: the story sent with the choice is the
      story before it, and one more choice has been made. */
  lemma ChoiceStep(beats: seq<Beat>, choice: string, content: Option<string>)
    ensures FullStory(beats + [Choice(choice)]) == FullStory(beats)
    ensures ChoicesMade(beats + [Choice(choice), Narrative(content)]) == ChoicesMade(beats) + 1
  {
    FullStoryIgnoresChoice(beats, choice);
    assert beats + [Choice(choice), Narrative(content)] == (beats + [Choice(choice)]) + [Narrative(content)];
    FullStoryAddsNarrative(beats + [Choice(choice)], content);
  }

  /** The shape the actions keep: a narrative, then choice/narrative pairs. */
  predicate Alternating(beats: seq<Beat>) {
    |beats| % 2 == 1 && forall i :: 0 <= i < |beats| ==> (beats[i].Narrative? <==> i % 2 == 0)
  }

  lemma AlternatingExtend(beats: seq<Beat>, choice: string, content: Option<string>)
    requires Alternating(beats)
    ensures Alternating(beats + [Choice(choice), Narrative(content)])
  {
    var next := beats + [Choice(choice), Narrative(content)];
    var n := |beats|;
    assert n % 2 == 1 && (n + 1) % 2 == 0 && (n + 2) % 2 == 1;
    forall i | 0 <= i < |next| ensures (next[i].Narrative? <==> i % 2 == 0) {
      if i < n {
        assert next[i] == beats[i];
      } else if i == n {
        assert next[i] == Choice(choice);
      } else {
        assert next[i] == Narrative(content);
      }
    }
  }

  /** A choice followed by its narrative keeps the log alternating; there is
      then one more narrative than choices made. */
  lemma AlternatingStep(beats: seq<Beat>, choice: string, content: Option<string>)
    requires Alternating(beats)
    ensures Alternating(beats + [Choice(choice), Narrative(content)])
    ensures ChoicesMade(beats) == |beats| / 2
    ensures ChoicesMade(beats + [Choice(choice), Narrative(content)]) == ChoicesMade(beats) + 1
  {
    AlternatingExtend(beats, choice, content);
    FullStoryIgnoresChoice(beats, choice);
    assert beats + [Choice(choice), Narrative(content)] == (beats + [Choice(choice)]) + [Narrative(content)];
    FullStoryAddsNarrative(beats + [Choice(choice)], content);
    NarrativeCount(beats);
  }

  lemma {:induction false} NarrativeCount(beats: seq<Beat>)
    requires forall i :: 0 <= i < |beats| ==> (beats[i].Narrative? <==> i % 2 == 0)
    ensures ChoicesMade(beats) == |beats| / 2
  {
    if beats != [] {
      var init := beats[..|beats| - 1];
      assert forall i :: 0 <= i < |init| ==> init[i] == beats[i];
      NarrativeCount(init);
      assert beats[|init|].Choice? <==> |init| % 2 == 1;
      HalfStep(|init|);
    }
  }

  /** One more position adds one to the half exactly when that position is odd. */
  lemma HalfStep(n: nat)
    ensures (n + 1) / 2 == n / 2 + (if n % 2 == 1 then 1 else 0)
  {
  }

  /** What the start request carries: the setup prompt always, and the
      author choice "Begin a new story" only when the prompt is empty. */
  function StartRequest(setupPrompt: string): AiRoutes.StoryBody {
    AiRoutes.StoryBody(Some(setupPrompt), None, if setupPrompt != "" then None else Some(BeginStory))
  }

  /** `makeChoice`'s request: the story so far and the choice. */
  function ChoiceRequest(beats: seq<Beat>, choice: string): AiRoutes.StoryBody {
    AiRoutes.StoryBody(Some(FullStory(beats)), None, Some(choice))
  }

  /** The route never rejects the start request. */
  lemma StartRequestAccepted(setupPrompt: string)
    ensures AiRoutes.CheckStory(StartRequest(setupPrompt)).Ok?
    ensures AiRoutes.CheckStory(StartRequest(setupPrompt)).value.storyContext == setupPrompt
  {
  }

  /** The route rejects a choice only when both the choice and the story are empty;
      a custom choice with text always gets through. */
  lemma ChoiceRequestAccepted(beats: seq<Beat>, choice: string)
    ensures AiRoutes.CheckStory(ChoiceRequest(beats, choice)).Ok? <==> choice != "" || FullStory(beats) != ""
    ensures Trim(choice) != "" ==> AiRoutes.CheckStory(ChoiceRequest(beats, choice)).Ok?
  {
    if Trim(choice) != "" && choice == "" {
      TrimEmptyIff(choice);
    }
  }

  /** The panel's state. */
  class Panel {
    var beats: seq<Beat>
    var currentChoices: seq<string>
    var customChoice: string
    var isLoading: bool
    var hasStarted: bool
    var setupPrompt: string

    /** `setupPrompt` starts as `initialContext || ""`. */
    constructor(initialContext: Option<string>)
      ensures beats == [] && currentChoices == [] && customChoice == ""
      ensures !isLoading && !hasStarted && setupPrompt == OrEmpty(initialContext)
    {
      beats := [];
      currentChoices := [];
      customChoice := "";
      isLoading := false;
      hasStarted := false;
      setupPrompt := OrEmpty(initialContext);
    }

    method SetSetupPrompt(text: string)
      modifies this
      ensures setupPrompt == text
      ensures beats == old(beats) && currentChoices == old(currentChoices) && customChoice == old(customChoice)
      ensures isLoading == old(isLoading) && hasStarted == old(hasStarted)
    {
      setupPrompt := text;
    }

    method SetCustomChoice(text: string)
      modifies this
      ensures customChoice == text
      ensures beats == old(beats) && currentChoices == old(currentChoices) && setupPrompt == old(setupPrompt)
      ensures isLoading == old(isLoading) && hasStarted == old(hasStarted)
    {
      customChoice := text;
    }

    /** `startStory`: the log becomes exactly one narrative beat, the
        response's or the error text; choices are replaced only when a
        response arrived. */
    method StartStory(response: Outcome<StoryData>) returns (sent: AiRoutes.StoryBody)
      modifies this
      ensures sent == StartRequest(old(setupPrompt))
      ensures hasStarted && !isLoading
      ensures response.Returned? ==> beats == [Narrative(response.value.narrative)]
                                     && currentChoices == response.value.choices.GetOr([])
      ensures response.Threw? ==> beats == [Narrative(Some(StartError))] && currentChoices == old(currentChoices)
      ensures customChoice == old(customChoice) && setupPrompt == old(setupPrompt)
      ensures Alternating(beats)
    {
      isLoading := true;
      hasStarted := true;
      sent := AiRoutes.StoryBody(Some(setupPrompt), None, if setupPrompt != "" then None else Some(BeginStory));
      match response {
        case Returned(data) =>
          beats := [Narrative(data.narrative)];
          currentChoices := data.choices.GetOr([]);
        case Threw(_) =>
          beats := [Narrative(Some(StartError))];
      }
      isLoading := false;
    }

    /** `makeChoice`: appends the choice beat, clears the choices, sends the
        story as it was before the choice, then appends exactly one
        narrative beat whether or not the call succeeded. */
    method MakeChoice(choice: string, response: Outcome<StoryData>) returns (sent: AiRoutes.StoryBody)
      modifies this
      ensures sent == ChoiceRequest(old(beats), choice)
      ensures sent == ChoiceRequest(old(beats) + [Choice(choice)], choice)
      ensures !isLoading
      ensures response.Returned? ==> beats == old(beats) + [Choice(choice), Narrative(response.value.narrative)]
                                     && currentChoices == response.value.choices.GetOr([])
      ensures response.Threw? ==> beats == old(beats) + [Choice(choice), Narrative(Some(ContinueError))]
                                  && currentChoices == []
      ensures ChoicesMade(beats) == ChoicesMade(old(beats)) + 1
      ensures Alternating(old(beats)) ==> Alternating(beats)
      ensures customChoice == old(customChoice) && setupPrompt == old(setupPrompt) && hasStarted == old(hasStarted)
    {
      isLoading := true;
      var before := beats;
      var content := if response.Returned? then response.value.narrative else Some(ContinueError);
      ChoiceStep(before, choice, content);
      if Alternating(before) {
        AlternatingExtend(before, choice, content);
      }
      sent := ChoiceRequest(before, choice);
      // The choice beat is appended and the choices cleared before the call
      // resolves; the narrative beat and the new choices follow it.
      beats := before + [Choice(choice), Narrative(content)];
      currentChoices := if response.Returned? then response.value.choices.GetOr([]) else [];
      isLoading := false;
    }

    /** `handleCustomChoice`: a blank custom choice does nothing; otherwise
        it is submitted as typed (untrimmed) and the input is cleared. */
    method HandleCustomChoice(response: Outcome<StoryData>) returns (sent: Option<AiRoutes.StoryBody>)
      modifies this
      ensures Trim(old(customChoice)) == "" ==>
                sent == None && beats == old(beats) && currentChoices == old(currentChoices)
                && customChoice == old(customChoice) && isLoading == old(isLoading)
      ensures Trim(old(customChoice)) != "" ==>
                && sent == Some(ChoiceRequest(old(beats), old(customChoice)))
                && AiRoutes.CheckStory(sent.value).Ok?
                && beats == old(beats) + [Choice(old(customChoice)),
                                          Narrative(if response.Returned? then response.value.narrative else Some(ContinueError))]
                && currentChoices == (if response.Returned? then response.value.choices.GetOr([]) else [])
                && !isLoading
                && ChoicesMade(beats) == ChoicesMade(old(beats)) + 1
                && (Alternating(old(beats)) ==> Alternating(beats))
                && customChoice == ""
      ensures setupPrompt == old(setupPrompt) && hasStarted == old(hasStarted)
    {
      if Trim(customChoice) == "" {
        return None;
      }
      var choice := customChoice;
      var body := MakeChoice(choice, response);
      ChoiceRequestAccepted(old(beats), choice);
      customChoice := "";
      sent := Some(body);
    }
  }
}
