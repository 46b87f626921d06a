/**
 * The parser that `continueStory` (src/lib/ai/claude.ts) applies to the
 * model's reply: the narrative is the text after the `NARRATIVE:` marker,
 * the choices are the non-blank lines after the `CHOICES:` marker with a
 * leading `1.`-style ordinal removed. The two regular expressions are
 * written out as searches for the markers; the loop that collects the
 * choices is the method `ParseReply`.
 */
module StoryParser {
  import opened Wrappers
  import opened Strings

  const NarrativeMarker: string := "NARRATIVE:"
  const ChoicesMarker: string := "CHOICES:"

  /** `textBlock?.text || ""`: the reply text, or nothing when the reply has no text block. */
  function ReplyText(block: Option<string>): string {
    block.GetOr("")
  }

  /** The first index at or after `from` where `CHOICES:` starts, or the end
      of the text: where the lazy group of the narrative pattern stops. */
  function ChoicesOrEnd(text: string, from: nat): (k: nat)
    requires from <= |text|
    ensures from <= k <= |text|
    ensures forall p :: from <= p < k ==> !OccursAt(text, ChoicesMarker, p)
    ensures k < |text| ==> OccursAt(text, ChoicesMarker, k)
  {
    match Find(text, ChoicesMarker, from)
    case None => |text|
    case Some(k) => k
  }

  /** Group 1 of the pattern `NARRATIVE:\s*([\s\S]*?)(?=CHOICES:|$)`: absent when the
      marker is absent; otherwise the text from the end of the white space
      after the first marker up to the next `CHOICES:` or the end. */
  function NarrativeGroup(text: string): Option<string>
  {
    match Find(text, NarrativeMarker, 0)
    case None => None
    case Some(i) =>
      var j := SkipWhile(text, IsSpace, i + |NarrativeMarker|);
      Some(text[j..ChoicesOrEnd(text, j)])
  }

  /** Group 1 of the pattern `CHOICES:\s*([\s\S]*?)$`: everything after the first
      `CHOICES:` and the white space that follows it. */
  function ChoicesGroup(text: string): Option<string>
  {
    match Find(text, ChoicesMarker, 0)
    case None => None
    case Some(c) => Some(text[SkipWhile(text, IsSpace, c + |ChoicesMarker|)..])
  }

  /** `narrativeMatch ? narrativeMatch[1].trim() : text`. */
  function Narrative(text: string): string
  {
    match NarrativeGroup(text)
    case Some(g) => Trim(g)
    case None => text
  }

  // The pattern `^\d+\.\s*` replaced by "": one run of digits followed by a
  // dot, and the white space after the dot, removed from the very start of the line.
  function StripOrdinal(line: string): string
  {
    var d := SkipWhile(line, IsDigit, 0);
    if 0 < d < |line| && line[d] == '.' then line[SkipWhile(line, IsSpace, d + 1)..] else line
  }

  /** What one choice line contributes: the line without its ordinal, trimmed. */
  function CleanChoice(line: string): string {
    Trim(StripOrdinal(line))
  }

  /** `.filter((line) => line.trim())`. */
  function NonBlankLines(lines: seq<string>): (r: seq<string>)
    ensures |r| <= |lines|
  {
    if lines == [] then []
    else (if Trim(lines[0]) != "" then [lines[0]] else []) + NonBlankLines(lines[1..])
  }

  /** What a loop pushes for `lines` when it cleans each line with `clean`:
      every cleaned line that is not empty, in order. */
  function KeepWith(lines: seq<string>, clean: string -> string): seq<string>
  {
    if lines == [] then [] else KeepWith(lines[..|lines| - 1], clean) + Pushed(clean(lines[|lines| - 1]))
  }

  /** What one cleaned line pushes: itself, unless it is empty. */
  function Pushed(cleaned: string): seq<string> {
    if cleaned != "" then [cleaned] else []
  }

  lemma KeepWithPush(prefix: seq<string>, line: string, clean: string -> string)
    ensures KeepWith(prefix + [line], clean) == KeepWith(prefix, clean) + Pushed(clean(line))
  {
    assert (prefix + [line])[..|prefix|] == prefix;
  }

  lemma {:induction false} KeepWithAppend(a: seq<string>, b: seq<string>, clean: string -> string)
    ensures KeepWith(a + b, clean) == KeepWith(a, clean) + KeepWith(b, clean)
    decreases |b|
  {
    if b == [] {
      assert a + b == a;
    } else {
      var b', last := b[..|b| - 1], b[|b| - 1];
      assert (a + b)[..|a + b| - 1] == a + b';
      assert (a + b)[|a + b| - 1] == last;
      KeepWithAppend(a, b', clean);
    }
  }

  lemma {:induction false} KeepWithWellFormed(lines: seq<string>, clean: string -> string, ok: string -> bool)
    requires forall line :: ok(clean(line))
    ensures |KeepWith(lines, clean)| <= |lines|
    ensures forall m :: 0 <= m < |KeepWith(lines, clean)| ==>
              KeepWith(lines, clean)[m] != "" && ok(KeepWith(lines, clean)[m])
  {
    if lines != [] {
      KeepWithWellFormed(lines[..|lines| - 1], clean, ok);
    }
  }

  /** The choices that the `continueStory` loop pushes for `lines`. */
  function KeepChoices(lines: seq<string>): seq<string>
  {
    KeepWith(lines, CleanChoice)
  }

  /** The lines of the choices group that the loop visits. */
  function ChoiceLines(group: string): seq<string> {
    NonBlankLines(SplitWhere(group, IsNewline))
  }

  /** The `choices` array `continueStory` returns for the reply text. */
  function Choices(text: string): seq<string>
  {
    match ChoicesGroup(text)
    case None => []
    case Some(g) => KeepChoices(ChoiceLines(g))
  }

  /** The parsing half of `continueStory`: the narrative, and the loop that
      pushes each cleaned, non-empty choice line. */
  method ParseReply(block: Option<string>) returns (narrative: string, choices: seq<string>)
    ensures narrative == Narrative(ReplyText(block))
    ensures choices == Choices(ReplyText(block))
  {
    var text := ReplyText(block);
    var narrativeMatch := NarrativeGroup(text);
    var choicesMatch := ChoicesGroup(text);
    narrative := if narrativeMatch.Some? then Trim(narrativeMatch.value) else text;
    choices := [];
    if choicesMatch.Some? {
      var choiceLines := ChoiceLines(choicesMatch.value);
      var i := 0;
      while i < |choiceLines|
        invariant 0 <= i <= |choiceLines|
        invariant choices == KeepChoices(choiceLines[..i])
      {
        var cleaned := CleanChoice(choiceLines[i]);
        KeepChoicesStep(choiceLines, i);
        if cleaned != "" {
          choices := choices + [cleaned];
        }
        i := i + 1;
      }
      assert choiceLines[..i] == choiceLines;
    }
  }

  /** One more line extends the kept choices by that line's contribution. */
  lemma KeepChoicesStep(lines: seq<string>, i: nat)
    requires i < |lines|
    ensures KeepChoices(lines[..i + 1])
         == KeepChoices(lines[..i]) + (if CleanChoice(lines[i]) != "" then [CleanChoice(lines[i])] else [])
  {
    assert lines[..i + 1] == lines[..i] + [lines[i]];
    KeepWithPush(lines[..i], lines[i], CleanChoice);
  }

  // ---------------------------------------------------------------------
  // Properties of the parse
  // ---------------------------------------------------------------------

  /** Without a `NARRATIVE:` marker the narrative is the whole reply, unmodified. */
  lemma NarrativeWithoutMarker(text: string)
    requires forall k: nat :: !OccursAt(text, NarrativeMarker, k)
    ensures Narrative(text) == text
  {
  }

  /** Without a text block the narrative is empty and there are no choices. */
  lemma NoTextBlock()
    ensures Narrative(ReplyText(None)) == ""
    ensures Choices(ReplyText(None)) == []
  {
    assert ReplyText(None) == "";
  }

  /** `CHOICES:` cannot start at a white-space character. */
  lemma NoChoicesAtSpace(text: string, p: nat)
    requires p < |text| && IsSpace(text[p])
    ensures !OccursAt(text, ChoicesMarker, p)
  {
  }

  /** Where the narrative group stops, described without the search. */
  lemma ChoicesOrEndIs(text: string, from: nat, k: nat)
    requires from <= k <= |text|
    requires k < |text| ==> OccursAt(text, ChoicesMarker, k)
    requires forall p :: from <= p < k ==> !OccursAt(text, ChoicesMarker, p)
    ensures ChoicesOrEnd(text, from) == k
  {
  }

  /** The narrative group, described without the searches. */
  lemma NarrativeGroupIs(text: string, i: nat, k: nat)
    requires OccursAt(text, NarrativeMarker, i)
    requires forall p :: 0 <= p < i ==> !OccursAt(text, NarrativeMarker, p)
    requires i + |NarrativeMarker| <= k <= |text|
    requires k < |text| ==> OccursAt(text, ChoicesMarker, k)
    requires forall p :: i + |NarrativeMarker| <= p < k ==> !OccursAt(text, ChoicesMarker, p)
    ensures SkipWhile(text, IsSpace, i + |NarrativeMarker|) <= k
    ensures NarrativeGroup(text) == Some(text[SkipWhile(text, IsSpace, i + |NarrativeMarker|)..k])
  {
    var start := i + |NarrativeMarker|;
    FindFirst(text, NarrativeMarker, 0, i);
    var j := SkipWhile(text, IsSpace, start);
    if k < j {
      NoChoicesAtSpace(text, k);
    }
    ChoicesOrEndIs(text, j, k);
  }

  /** With a marker first found at `i`, the narrative is the text after it,
      up to the first `CHOICES:` at or after the marker's end (or the end of
      the reply), trimmed. */
  lemma NarrativeWithMarker(text: string, i: nat, k: nat)
    requires OccursAt(text, NarrativeMarker, i)
    requires forall p :: 0 <= p < i ==> !OccursAt(text, NarrativeMarker, p)
    requires i + |NarrativeMarker| <= k <= |text|
    requires k < |text| ==> OccursAt(text, ChoicesMarker, k)
    requires forall p :: i + |NarrativeMarker| <= p < k ==> !OccursAt(text, ChoicesMarker, p)
    ensures Narrative(text) == Trim(text[i + |NarrativeMarker|..k])
  {
    var start := i + |NarrativeMarker|;
    NarrativeGroupIs(text, i, k);
    var j := SkipWhile(text, IsSpace, start);
    TrimInfixAfterSkip(text, start, j, k);
  }

  /** Without a `CHOICES:` marker there are no choices. */
  lemma NoChoicesWithoutMarker(text: string)
    requires forall k: nat :: !OccursAt(text, ChoicesMarker, k)
    ensures Choices(text) == []
  {
  }

  /** The choices of concatenated line lists are the choices of each, in order:
      the parse keeps line order. */
  lemma KeepChoicesAppend(a: seq<string>, b: seq<string>)
    ensures KeepChoices(a + b) == KeepChoices(a) + KeepChoices(b)
  {
    KeepWithAppend(a, b, CleanChoice);
  }

  /** One line gives at most one choice: its cleaned text, when not empty. */
  lemma KeepChoicesSingle(line: string)
    ensures KeepChoices([line]) == if CleanChoice(line) != "" then [CleanChoice(line)] else []
  {
    assert [] + [line] == [line];
    KeepWithPush([], line, CleanChoice);
  }

  /** Every choice is non-empty and trimmed, and there are at most as many
      choices as lines. */
  lemma KeepChoicesWellFormed(lines: seq<string>)
    ensures |KeepChoices(lines)| <= |lines|
    ensures forall m :: 0 <= m < |KeepChoices(lines)| ==>
              KeepChoices(lines)[m] != "" && Trimmed(KeepChoices(lines)[m])
  {
    KeepWithWellFormed(lines, CleanChoice, Trimmed);
  }

  /** A blank line cleans to the empty string. */
  lemma CleanBlank(line: string)
    requires Trim(line) == ""
    ensures CleanChoice(line) == ""
  {
    TrimEmptyIff(line);
    if |line| > 0 {
      assert IsSpace(line[0]);
      assert SkipWhile(line, IsDigit, 0) == 0;
    }
  }

  /** The filter on blank lines before the loop changes nothing: a blank line
      cleans to the empty string. */
  lemma {:induction false} BlankFilterRedundant(lines: seq<string>)
    ensures KeepChoices(NonBlankLines(lines)) == KeepChoices(lines)
  {
    if lines != [] {
      var first, rest := lines[0], lines[1..];
      BlankFilterRedundant(rest);
      assert lines == [first] + rest;
      KeepChoicesAppend([first], rest);
      if Trim(first) != "" {
        assert NonBlankLines(lines) == [first] + NonBlankLines(rest);
        KeepChoicesAppend([first], NonBlankLines(rest));
      } else {
        assert NonBlankLines(lines) == NonBlankLines(rest);
        CleanBlank(first);
        KeepChoicesSingle(first);
      }
    }
  }

  /** Every returned choice is non-empty and trimmed, and there are no more
      choices than non-blank lines after the `CHOICES:` marker. */
  lemma ChoicesWellFormed(text: string)
    ensures forall m :: 0 <= m < |Choices(text)| ==> Choices(text)[m] != "" && Trimmed(Choices(text)[m])
    ensures ChoicesGroup(text).Some? ==> |Choices(text)| <= |ChoiceLines(ChoicesGroup(text).value)|
  {
    if ChoicesGroup(text).Some? {
      KeepChoicesWellFormed(ChoiceLines(ChoicesGroup(text).value));
    }
  }

  /** An ordinal is removed only at the very start of the raw line: a line
      that starts with white space is only trimmed. */
  lemma IndentedOrdinalKept(line: string)
    requires |line| > 0 && IsSpace(line[0])
    ensures CleanChoice(line) == Trim(line)
  {
  }

  /** A line of digits, a dot and a rest gives the rest, trimmed. */
  lemma OrdinalStripped(digits: string, rest: string)
    requires |digits| > 0 && forall q :: 0 <= q < |digits| ==> IsDigit(digits[q])
    ensures CleanChoice(digits + "." + rest) == Trim(rest)
  {
    var line := digits + "." + rest;
    var d := |digits|;
    assert forall q :: 0 <= q < d ==> line[q] == digits[q];
    assert line[d] == '.' && line[d + 1..] == rest;
    var e := StripAfterDot(line, d);
    TrimSuffixAfterSkip(line, d + 1, e);
  }

  /** After a run of digits and a dot at `d`, the ordinal ends where the
      white space after the dot ends. */
  lemma StripAfterDot(line: string, d: nat) returns (e: nat)
    requires 0 < d < |line| && line[d] == '.'
    requires forall q :: 0 <= q < d ==> IsDigit(line[q])
    ensures d + 1 <= e <= |line| && forall q :: d + 1 <= q < e ==> IsSpace(line[q])
    ensures StripOrdinal(line) == line[e..]
  {
    SkipWhileOver(line, IsDigit, 0, d);
    assert SkipWhile(line, IsDigit, d) == d;
    e := SkipWhile(line, IsSpace, d + 1);
  }

  /** Example: the first ordinal is removed and a second one is kept. */
  lemma RepeatedOrdinalExample()
    ensures CleanChoice("1. 2. x") == "2. x"
  {
    var rest := "2. x";
    assert Trimmed(rest);
    assert "1. 2. x" == NumberedLine(1, rest);
    NumberedLineCleans(1, rest);
  }

  /** Example: a bare ordinal gives no choice. */
  lemma BareOrdinalExample()
    ensures CleanChoice("1.") == ""
  {
    OrdinalStripped("1", "");
    assert "1" + "." + "" == "1.";
    TrimEmptyIff("");
  }

  // ---------------------------------------------------------------------
  // The reply format the system prompt asks for, and its parse
  // ---------------------------------------------------------------------

  /** The `n. choice` line of the requested output format. */
  function NumberedLine(n: nat, choice: string): string {
    NatToString(n) + ". " + choice
  }

  /** The choices numbered from 1, one line each. */
  function Numbered(choices: seq<string>): (r: seq<string>)
    ensures |r| == |choices|
  {
    if choices == [] then []
    else Numbered(choices[..|choices| - 1]) + [NumberedLine(|choices|, choices[|choices| - 1])]
  }

  /** A reply in exactly the structure the system prompt of `continueStory`
      requests: the marker lines, the narrative, a blank line, and the numbered choices. */
  function FormatReply(narrative: string, choices: seq<string>): string {
    NarrativeMarker + "\n" + narrative + "\n\n" + ChoicesMarker + "\n" + Join(Numbered(choices), "\n")
  }

  /** Each choice is non-empty and has no white space at its ends. */
  predicate CleanChoices(choices: seq<string>) {
    forall m :: 0 <= m < |choices| ==> choices[m] != "" && Trimmed(choices[m])
  }

  /** `s` contains no line break. */
  predicate OneLine(s: string) {
    forall i :: 0 <= i < |s| ==> s[i] != '\n'
  }

  /** No line contains a line break. */
  predicate OneLineEach(lines: seq<string>) {
    forall m :: 0 <= m < |lines| ==> OneLine(lines[m])
  }

  lemma CleanChoicesSplit(choices: seq<string>)
    requires choices != [] && CleanChoices(choices)
    ensures CleanChoices(choices[..|choices| - 1])
    ensures choices[|choices| - 1] != "" && Trimmed(choices[|choices| - 1])
  {
  }

  lemma OneLineEachSplit(lines: seq<string>)
    requires lines != [] && OneLineEach(lines)
    ensures OneLineEach(lines[..|lines| - 1])
    ensures OneLine(lines[|lines| - 1])
  {
  }

  /** A numbered line cleans to its choice. */
  lemma NumberedLineCleans(n: nat, choice: string)
    requires choice != "" && Trimmed(choice)
    ensures CleanChoice(NumberedLine(n, choice)) == choice
  {
    var d, rest := NatToString(n), [' '] + choice;
    assert ". " == "." + [' '];
    assert NumberedLine(n, choice) == d + "." + rest;
    OrdinalStripped(d, rest);
    TrimSpacePrefixed(' ', choice);
  }

  /** A numbered line has a line break only where its choice has one. */
  lemma NumberedLineOneLine(n: nat, choice: string)
    requires OneLine(choice)
    ensures OneLine(NumberedLine(n, choice))
  {
    var d := NatToString(n);
    var line := NumberedLine(n, choice);
    forall i | 0 <= i < |line|
      ensures line[i] != '\n'
    {
      if i < |d| {
        assert line[i] == d[i];
        assert IsDigit(d[i]);
      } else if i >= |d| + 2 {
        assert line[i] == choice[i - |d| - 2];
      }
    }
  }

  /** One more line at the end contributes its cleaned text. */
  lemma KeepChoicesSnoc(prefix: seq<string>, line: string, choice: string)
    requires CleanChoice(line) == choice && choice != ""
    ensures KeepChoices(prefix + [line]) == KeepChoices(prefix) + [choice]
  {
    KeepWithPush(prefix, line, CleanChoice);
  }

  /** Numbering one more choice adds exactly that choice to the kept choices. */
  lemma NumberedChoicesStep(init: seq<string>, last: string)
    requires KeepChoices(Numbered(init)) == init
    requires last != "" && Trimmed(last)
    ensures KeepChoices(Numbered(init + [last])) == init + [last]
  {
    var all := init + [last];
    assert all[..|all| - 1] == init;
    var prev, line := Numbered(init), NumberedLine(|all|, last);
    assert Numbered(all) == prev + [line];
    NumberedLineCleans(|all|, last);
    KeepChoicesSnoc(prev, line, last);
  }

  /** Numbered lines give back exactly their choices, however many there are. */
  lemma {:induction false} NumberedChoices(choices: seq<string>)
    requires CleanChoices(choices)
    ensures KeepChoices(Numbered(choices)) == choices
  {
    if choices != [] {
      var init, last := choices[..|choices| - 1], choices[|choices| - 1];
      assert choices == init + [last];
      CleanChoicesSplit(choices);
      NumberedChoices(init);
      NumberedChoicesStep(init, last);
    }
  }

  /** Numbering adds no line breaks. */
  lemma {:induction false} NumberedOneLine(choices: seq<string>)
    requires OneLineEach(choices)
    ensures OneLineEach(Numbered(choices))
  {
    if choices != [] {
      var n := |choices|;
      OneLineEachSplit(choices);
      NumberedOneLine(choices[..n - 1]);
      NumberedLineOneLine(n, choices[n - 1]);
    }
  }

  /** The first numbered line carries the ordinal 1. */
  lemma {:induction false} NumberedFirst(choices: seq<string>)
    requires choices != []
    ensures Numbered(choices)[0] == NumberedLine(1, choices[0])
  {
    if |choices| > 1 {
      NumberedFirst(choices[..|choices| - 1]);
    }
  }

  /** The choices text of a formatted reply parses back to its choices. */
  lemma FormattedChoiceLines(choices: seq<string>)
    requires CleanChoices(choices) && OneLineEach(choices)
    ensures KeepChoices(ChoiceLines(Join(Numbered(choices), "\n"))) == choices
  {
    var body := Join(Numbered(choices), "\n");
    if choices == [] {
      assert body == "";
      assert SplitWhere(body, IsNewline) == [""];
      TrimEmptyIff("");
    } else {
      NumberedOneLine(choices);
      SplitJoin(Numbered(choices), '\n', IsNewline);
      BlankFilterRedundant(Numbered(choices));
      NumberedChoices(choices);
    }
  }

  /** A marker cannot straddle a line break when it has none itself. */
  lemma NotAcrossNewline(s: string, pat: string, p: nat, q: nat)
    requires p <= q < p + |pat| && q < |s| && s[q] == '\n'
    requires forall i :: 0 <= i < |pat| ==> pat[i] != '\n'
    ensures !OccursAt(s, pat, p)
  {
  }

  /** A piece of an embedded string is the same piece of the host. */
  lemma SliceWithin(f: string, inner: string, off: nat, i: nat, j: nat)
    requires off + |inner| <= |f| && f[off..off + |inner|] == inner
    requires i <= j <= |inner|
    ensures f[off + i..off + j] == inner[i..j]
  {
    forall k | 0 <= k < j - i
      ensures f[off + i..off + j][k] == inner[i..j][k]
    {
      assert f[off + i + k] == f[off..off + |inner|][i + k];
    }
  }

  /** In a text that opens with the `NARRATIVE:` line, a narrative without
      `CHOICES:` and a blank line, no `CHOICES:` starts before that blank line ends. */
  lemma NoChoicesMarkerBefore(f: string, narrative: string)
    requires forall k: nat :: !OccursAt(narrative, ChoicesMarker, k)
    requires 13 + |narrative| <= |f|
    requires f[..10] == NarrativeMarker && f[10] == '\n' && f[11..11 + |narrative|] == narrative
    requires f[11 + |narrative|] == '\n' && f[12 + |narrative|] == '\n'
    ensures forall p :: 0 <= p < 13 + |narrative| ==> !OccursAt(f, ChoicesMarker, p)
  {
    var c := 13 + |narrative|;
    forall p | 0 <= p < c
      ensures !OccursAt(f, ChoicesMarker, p)
    {
      if p < 10 {
        assert f[p] == NarrativeMarker[p];
      } else if p == 10 || p >= c - 2 {
        NotAcrossNewline(f, ChoicesMarker, p, p);
      } else if p + 8 <= 11 + |narrative| {
        if OccursAt(f, ChoicesMarker, p) {
          SliceWithin(f, narrative, 11, p - 11, p - 3);
          assert OccursAt(narrative, ChoicesMarker, p - 11);
        }
      } else {
        NotAcrossNewline(f, ChoicesMarker, p, c - 2);
      }
    }
  }

  /** In a formatted reply, `CHOICES:` first occurs on its own marker line. */
  lemma FormattedChoicesMarker(narrative: string, choices: seq<string>)
    requires forall k: nat :: !OccursAt(narrative, ChoicesMarker, k)
    ensures OccursAt(FormatReply(narrative, choices), ChoicesMarker, 13 + |narrative|)
    ensures forall p :: 0 <= p < 13 + |narrative| ==> !OccursAt(FormatReply(narrative, choices), ChoicesMarker, p)
  {
    var f := FormatReply(narrative, choices);
    var c := 13 + |narrative|;
    assert f[..10] == NarrativeMarker;
    assert f[10] == '\n';
    assert f[11..11 + |narrative|] == narrative;
    assert f[c - 2] == '\n' && f[c - 1] == '\n';
    assert f[c..c + 8] == ChoicesMarker;
    NoChoicesMarkerBefore(f, narrative);
  }

  /** Where the pieces of a formatted reply lie. */
  lemma FormatReplyPieces(narrative: string, choices: seq<string>)
    ensures |FormatReply(narrative, choices)| == 22 + |narrative| + |Join(Numbered(choices), "\n")|
    ensures OccursAt(FormatReply(narrative, choices), NarrativeMarker, 0)
    ensures FormatReply(narrative, choices)[10..13 + |narrative|] == "\n" + narrative + "\n\n"
    ensures FormatReply(narrative, choices)[21 + |narrative|] == '\n'
    ensures FormatReply(narrative, choices)[22 + |narrative|..] == Join(Numbered(choices), "\n")
  {
    var f := FormatReply(narrative, choices);
    assert f[..10] == NarrativeMarker;
  }

  /** A reply laid out as the format lays it out has the given narrative. */
  lemma NarrativeOfLayout(text: string, narrative: string)
    requires Trimmed(narrative)
    requires OccursAt(text, NarrativeMarker, 0)
    requires OccursAt(text, ChoicesMarker, 13 + |narrative|)
    requires text[10..13 + |narrative|] == "\n" + narrative + "\n\n"
    requires forall p :: 10 <= p < 13 + |narrative| ==> !OccursAt(text, ChoicesMarker, p)
    ensures Narrative(text) == narrative
  {
    var c := 13 + |narrative|;
    var mid := text[10..c];
    assert mid == ['\n'] + narrative + ['\n', '\n'];
    TrimPadded(['\n'], narrative, ['\n', '\n']);
    assert Trim(mid) == narrative;
    NarrativeWithMarker(text, 0, c);
  }

  /** The narrative of a formatted reply is its narrative. */
  lemma FormattedNarrative(narrative: string, choices: seq<string>)
    requires Trimmed(narrative)
    requires forall k: nat :: !OccursAt(narrative, ChoicesMarker, k)
    ensures Narrative(FormatReply(narrative, choices)) == narrative
  {
    FormatReplyPieces(narrative, choices);
    FormattedChoicesMarker(narrative, choices);
    NarrativeOfLayout(FormatReply(narrative, choices), narrative);
  }

  /** The choices group of a formatted reply is its numbered lines. */
  lemma FormattedChoicesGroup(narrative: string, choices: seq<string>)
    requires forall k: nat :: !OccursAt(narrative, ChoicesMarker, k)
    ensures ChoicesGroup(FormatReply(narrative, choices)) == Some(Join(Numbered(choices), "\n"))
  {
    var f := FormatReply(narrative, choices);
    var c := 13 + |narrative|;
    var body := Join(Numbered(choices), "\n");
    FormattedChoicesMarker(narrative, choices);
    FindFirst(f, ChoicesMarker, 0, c);
    assert f[c + 8] == '\n';
    assert f[c + 9..] == body;
    if choices != [] {
      NumberedFirst(choices);
      JoinStartsWithFirst(Numbered(choices), "\n");
      assert body[0] == NatToString(1)[0];
      assert f[c + 9] == body[0];
    }
    assert SkipWhile(f, IsSpace, c + 8) == c + 9;
  }

  /** Parsing a reply in the requested format gives back its narrative and
      its choices, for any number of choices: the parse inverts the format. */
  lemma ParseFormatted(narrative: string, choices: seq<string>)
    requires Trimmed(narrative)
    requires forall k: nat :: !OccursAt(narrative, ChoicesMarker, k)
    requires CleanChoices(choices) && OneLineEach(choices)
    ensures Narrative(FormatReply(narrative, choices)) == narrative
    ensures Choices(FormatReply(narrative, choices)) == choices
  {
    FormattedNarrative(narrative, choices);
    FormattedChoicesGroup(narrative, choices);
    FormattedChoiceLines(choices);
  }
}
