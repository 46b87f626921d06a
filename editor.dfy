/**
 * The editor component's logic (src/components/editor/Editor.tsx): the
 * plain-text to HTML conversion used by `insertContent`, the debounced
 * auto-save gated on `lastContentRef`, and the selection-popup rule. The
 * document itself belongs to the rich-text editor: the HTML it reports and
 * the outcome of `onSave` are inputs.
 */
module Editor {
  import opened Wrappers
  import opened Strings

  // ---------------------------------------------------------------------
  // Plain text to HTML
  // ---------------------------------------------------------------------

  /** No two newlines in a row: `s` holds no match of `\n\n+`. */
  predicate NoBlankLine(s: string) {
    forall i :: 0 <= i < |s| - 1 ==> !(s[i] == '\n' && s[i + 1] == '\n')
  }

  /** `s.split(/\n\n+/)`: the pieces between maximal runs of two or more newlines. */
  function Chunks(s: string): (r: seq<string>)
    ensures |r| >= 1
    ensures StartsWith(s, r[0])
    decreases |s|
  {
    if s == [] then [""]
    else if |s| >= 2 && s[0] == '\n' && s[1] == '\n' then [""] + Chunks(s[SkipWhile(s, IsNewline, 0)..])
    else
      var rest := Chunks(s[1..]);
      assert s == [s[0]] + s[1..];
      [[s[0]] + rest[0]] + rest[1..]
  }

  /** No chunk contains a blank line: every run of two or more newlines separates. */
  lemma {:induction false} ChunksHaveNoBlankLine(s: string)
    ensures forall k :: 0 <= k < |Chunks(s)| ==> NoBlankLine(Chunks(s)[k])
    decreases |s|
  {
    if s == [] {
    } else if |s| >= 2 && s[0] == '\n' && s[1] == '\n' {
      ChunksHaveNoBlankLine(s[SkipWhile(s, IsNewline, 0)..]);
    } else {
      var rest := Chunks(s[1..]);
      ChunksHaveNoBlankLine(s[1..]);
      var first := [s[0]] + rest[0];
      assert NoBlankLine(rest[0]);
      forall i | 0 <= i < |first| - 1 ensures !(first[i] == '\n' && first[i + 1] == '\n') {
        if i == 0 {
          assert first[1] == rest[0][0] == s[1];
        } else {
          assert first[i] == rest[0][i - 1] && first[i + 1] == rest[0][i];
        }
      }
      assert Chunks(s)[1..] == rest[1..];
    }
  }

  /** White space never splits into anything but white space. */
  lemma {:induction false} ChunksOfSpace(s: string)
    requires AllSpace(s)
    ensures forall k :: 0 <= k < |Chunks(s)| ==> AllSpace(Chunks(s)[k])
    decreases |s|
  {
    if s == [] {
    } else if |s| >= 2 && s[0] == '\n' && s[1] == '\n' {
      var j := SkipWhile(s, IsNewline, 0);
      assert AllSpace(s[j..]) by {
        forall i | 0 <= i < |s[j..]| ensures IsSpace(s[j..][i]) {
          assert s[j..][i] == s[j + i];
        }
      }
      ChunksOfSpace(s[j..]);
    } else {
      assert AllSpace(s[1..]) by {
        forall i | 0 <= i < |s[1..]| ensures IsSpace(s[1..][i]) {
          assert s[1..][i] == s[i + 1];
        }
      }
      ChunksOfSpace(s[1..]);
      assert Chunks(s)[1..] == Chunks(s[1..])[1..];
    }
  }

  /** A text without blank lines is a single chunk. */
  lemma {:induction false} ChunksOfParagraph(s: string)
    requires NoBlankLine(s)
    ensures Chunks(s) == [s]
    decreases |s|
  {
    if s != [] {
      assert NoBlankLine(s[1..]) by {
        forall i | 0 <= i < |s[1..]| - 1 ensures !(s[1..][i] == '\n' && s[1..][i + 1] == '\n') {
          assert s[1..][i] == s[i + 1] && s[1..][i + 1] == s[i + 2];
        }
      }
      ChunksOfParagraph(s[1..]);
      assert [s[0]] + s[1..] == s;
    }
  }

  /** A paragraph, a blank line and the rest: the paragraph is the first chunk. */
  lemma {:induction false} ChunksAfterParagraph(p: string, rest: string)
    requires NoBlankLine(p) && (p == [] || p[|p| - 1] != '\n')
    requires rest == [] || rest[0] != '\n'
    ensures Chunks(p + "\n\n" + rest) == [p] + Chunks(rest)
    decreases |p|
  {
    var s := p + "\n\n" + rest;
    if p == [] {
      assert s == "\n\n" + rest;
      assert SkipWhile(s, IsNewline, 0) == 2 by {
        assert SkipWhile(s, IsNewline, 0) == SkipWhile(s, IsNewline, 2);
      }
      assert s[2..] == rest;
    } else {
      assert s[0] == p[0];
      assert |p| >= 2 ==> s[1] == p[1];
      assert s[1..] == p[1..] + "\n\n" + rest;
      assert NoBlankLine(p[1..]) by {
        forall i | 0 <= i < |p[1..]| - 1 ensures !(p[1..][i] == '\n' && p[1..][i + 1] == '\n') {
          assert p[1..][i] == p[i + 1] && p[1..][i + 1] == p[i + 2];
        }
      }
      ChunksAfterParagraph(p[1..], rest);
      assert [p[0]] + p[1..] == p;
    }
  }

  /** What `insertContent` makes of a paragraph:
      `<p>${p.trim().replace(/\n/g, '<br>')}</p>`. */
  function Block(p: string): string {
    "<p>" + ReplaceAll(Trim(p), '\n', "<br>") + "</p>"
  }

  /** `.filter(p => p.trim()).map(Block).join("")`. */
  function Render(chunks: seq<string>): string {
    if chunks == [] then ""
    else (if Trim(chunks[0]) != "" then Block(chunks[0]) else "") + Render(chunks[1..])
  }

  /** The conversion `insertContent` applies to the text it is given. */
  function ToHtml(content: string): string {
    Render(Chunks(content))
  }

  predicate NoNewline(s: string) {
    forall i :: 0 <= i < |s| ==> s[i] != '\n'
  }

  lemma NoNewlineConcat(a: string, b: string)
    requires NoNewline(a) && NoNewline(b)
    ensures NoNewline(a + b)
  {
    forall i | 0 <= i < |a + b| ensures (a + b)[i] != '\n' {
      if i >= |a| {
        assert (a + b)[i] == b[i - |a|];
      }
    }
  }

  lemma NoNewlineInBlock(p: string)
    ensures NoNewline(Block(p))
  {
    var inner := ReplaceAll(Trim(p), '\n', "<br>");
    ReplaceAllRemoves(Trim(p), '\n', "<br>");
    var b := Block(p);
    forall i | 0 <= i < |b| ensures b[i] != '\n' {
      if 3 <= i < 3 + |inner| {
        assert b[i] == inner[i - 3];
      }
    }
  }

  lemma {:induction false} NoNewlineInRender(chunks: seq<string>)
    ensures NoNewline(Render(chunks))
  {
    if chunks != [] {
      NoNewlineInRender(chunks[1..]);
      var head := if Trim(chunks[0]) != "" then Block(chunks[0]) else "";
      NoNewlineInBlock(chunks[0]);
      NoNewlineConcat(head, Render(chunks[1..]));
    }
  }

  /** The result is one line: every newline inside a paragraph became `<br>`. */
  lemma NoNewlineInHtml(content: string)
    ensures forall i :: 0 <= i < |ToHtml(content)| ==> ToHtml(content)[i] != '\n'
  {
    NoNewlineInRender(Chunks(content));
  }

  lemma {:induction false} RenderBlank(chunks: seq<string>)
    requires forall k :: 0 <= k < |chunks| ==> AllSpace(chunks[k])
    ensures Render(chunks) == ""
  {
    if chunks != [] {
      TrimEmptyIff(chunks[0]);
      RenderBlank(chunks[1..]);
    }
  }

  /** Text made only of white space inserts nothing. */
  lemma BlankInsertsNothing(content: string)
    requires AllSpace(content)
    ensures ToHtml(content) == ""
  {
    ChunksOfSpace(content);
    RenderBlank(Chunks(content));
  }

  /** A paragraph with text becomes exactly one `<p>` block. */
  lemma SingleParagraph(p: string)
    requires NoBlankLine(p) && Trim(p) != ""
    ensures ToHtml(p) == "<p>" + ReplaceAll(Trim(p), '\n', "<br>") + "</p>"
  {
    ChunksOfParagraph(p);
  }

  /** A paragraph that can stand between blank lines: not empty, no blank
      line inside, no newline at either end. */
  predicate Paragraph(p: string) {
    p != [] && NoBlankLine(p) && p[0] != '\n' && p[|p| - 1] != '\n'
  }

  predicate Paragraphs(ps: seq<string>) {
    forall k :: 0 <= k < |ps| ==> Paragraph(ps[k])
  }

  /** Paragraphs joined by blank lines split back into the same paragraphs,
      so the HTML has one block per paragraph with text, in order. */
  lemma {:induction false} ParagraphsRoundTrip(ps: seq<string>)
    requires |ps| >= 1 && Paragraphs(ps)
    ensures Chunks(Join(ps, "\n\n")) == ps
    ensures ToHtml(Join(ps, "\n\n")) == Render(ps)
    decreases |ps|
  {
    if |ps| == 1 {
      ChunksOfParagraph(ps[0]);
    } else {
      var rest := Join(ps[1..], "\n\n");
      assert Paragraph(ps[1]);
      JoinStartsWithFirst(ps[1..], "\n\n");
      assert rest[0] == ps[1][0];
      ChunksAfterParagraph(ps[0], rest);
      ParagraphsRoundTrip(ps[1..]);
      assert ps == [ps[0]] + ps[1..];
    }
  }

  // ---------------------------------------------------------------------
  // Save gating and the selection popup
  // ---------------------------------------------------------------------

  datatype WritingMode = Pure | Expedience | StoryWeaver

  /** The popup a selection of `selected` shows, if any. */
  function PopupFor(mode: WritingMode, selected: string): (r: Option<string>)
    ensures r.Some? <==> mode == Pure && |selected| > 10
    ensures r.Some? ==> r.value == selected
  {
    if mode != Pure then None else if |selected| > 10 then Some(selected) else None
  }

  /** One mounted editor: the content last saved or set, the content the
      pending save timer captured (at most one timer exists), the popup,
      and every content passed to `onSave` so far. */
  class EditorState {
    const mode: WritingMode
    var lastContent: string
    var pending: Option<string>
    var popup: Option<string>
    var saved: seq<string>

    constructor(initialContent: string, mode: WritingMode)
      ensures this.mode == mode && lastContent == initialContent
      ensures pending == None && popup == None && saved == []
    {
      this.mode := mode;
      lastContent := initialContent;
      pending := None;
      popup := None;
      saved := [];
    }

    /** `handleSave`: calls `onSave`; only a save that resolves (`ok`)
        moves `lastContent`. */
    method HandleSave(content: string, ok: bool)
      modifies this
      ensures saved == old(saved) + [content]
      ensures lastContent == if ok then content else old(lastContent)
      ensures pending == old(pending) && popup == old(popup)
    {
      saved := saved + [content];
      if ok {
        lastContent := content;
      }
    }

    /** `onUpdate`: the pending timer, if any, is cleared and replaced by
        one that captured the new content. */
    method OnUpdate(content: string)
      modifies this
      ensures pending == Some(content)
      ensures lastContent == old(lastContent) && saved == old(saved) && popup == old(popup)
    {
      pending := Some(content);
    }

    /** The timer firing: the captured content is saved only when it differs
        from `lastContent`. */
    method TimerFires(ok: bool)
      modifies this
      ensures pending == None && popup == old(popup)
      ensures old(pending).None? || old(pending).value == old(lastContent) ==>
                saved == old(saved) && lastContent == old(lastContent)
      ensures old(pending).Some? && old(pending).value != old(lastContent) ==>
                saved == old(saved) + [old(pending).value] && lastContent == (if ok then old(pending).value else old(lastContent))
    {
      var content := pending;
      pending := None;
      if content.Some? && content.value != lastContent {
        HandleSave(content.value, ok);
      }
    }

    /** Unmounting clears the pending timer. */
    method Unmount()
      modifies this
      ensures pending == None
      ensures lastContent == old(lastContent) && saved == old(saved) && popup == old(popup)
    {
      pending := None;
    }

    /** `setContent`: replaces the document and records it as saved, without a save. */
    method SetContent(content: string)
      modifies this
      ensures lastContent == content
      ensures pending == old(pending) && saved == old(saved) && popup == old(popup)
    {
      lastContent := content;
    }

    /** `insertContent`: the converted text is inserted at the cursor and the
        resulting document, `documentAfter`, is saved at once, changed or not. */
    method InsertContent(text: string, documentAfter: string, ok: bool) returns (inserted: string)
      modifies this
      ensures inserted == ToHtml(text)
      ensures saved == old(saved) + [documentAfter]
      ensures lastContent == if ok then documentAfter else old(lastContent)
      ensures pending == old(pending) && popup == old(popup)
    {
      inserted := Render(Chunks(text));
      HandleSave(documentAfter, ok);
    }

    /** `onSelectionUpdate`: a popup only in pure mode and only for more than
        ten selected characters; otherwise it is cleared. */
    method OnSelectionUpdate(selected: string)
      modifies this
      ensures popup == PopupFor(mode, selected)
      ensures lastContent == old(lastContent) && pending == old(pending) && saved == old(saved)
    {
      if mode != Pure {
        popup := None;
        return;
      }
      if |selected| > 10 {
        popup := Some(selected);
      } else {
        popup := None;
      }
    }
  }
}
