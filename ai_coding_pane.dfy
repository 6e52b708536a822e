/** The pure text helpers of the coding pane: parseCodeBlocks (fenced blocks
    with a content-sniffing fallback), extractCodeFromResponse (peel the first
    fenced block of any tag) and the preview effect that composes them. */
module AiCodingPane {
  import opened Text
  import opened Fences
  import opened CodeTypes

  /** The pane's parsed code: the three fields and the text they came from. */
  datatype ParsedCode = ParsedCode(html: string, css: string, javascript: string, fullCode: string)

  /** The pattern parseCodeBlocks uses for each field; the script field takes
      a `javascript` or a `typescript` block. */
  function PatternOf(f: Field): Pattern
  {
    match f
    case Html => HtmlBlock
    case Css => CssBlock
    case Javascript => ScriptBlock
  }

  function FieldOf(r: ParsedCode, f: Field): string
  {
    match f
    case Html => r.html
    case Css => r.css
    case Javascript => r.javascript
  }

  /** The trimmed body of a block, or "" when there is none. */
  function TrimmedOrEmpty(body: Option<string>): (r: string)
    requires body.Some? ==> FenceFree(body.value)
    ensures body.None? ==> r == ""
    ensures FenceFree(r) && IsTrimmed(r)
  {
    match body
    case None => ""
    case Some(b) =>
      TrimFenceFree(b);
      Trim(b)
  }

  /** True when some field's pattern finds a block in code. */
  predicate HasAnyBlock(code: string)
  {
    Capture(HtmlBlock, code).Some? || Capture(CssBlock, code).Some? || Capture(ScriptBlock, code).Some?
  }

  /** The content-sniffing fallback: markup if the text has '<'; otherwise,
      if it has both braces, a stylesheet when it mentions "@media" or ':'
      and a script when it does not; otherwise nothing. At most one field is
      set, and it is set to the text itself, untrimmed. */
  function Guess(code: string): (r: ParsedCode)
    ensures r.fullCode == code
    ensures r.html == "" || (r.css == "" && r.javascript == "")
    ensures r.css == "" || r.javascript == ""
    ensures r.html == "" || r.html == code
    ensures r.css == "" || r.css == code
    ensures r.javascript == "" || r.javascript == code
    ensures r.html != "" <==> '<' in code
    ensures r.css != "" <==>
      '<' !in code && '{' in code && '}' in code && (Includes(code, "@media") || ':' in code)
    ensures r.javascript != "" <==>
      '<' !in code && '{' in code && '}' in code && !Includes(code, "@media") && ':' !in code
  {
    if '<' in code then ParsedCode(code, "", "", code)
    else if '{' in code && '}' in code then
      if Includes(code, "@media") || ':' in code then ParsedCode("", code, "", code)
      else ParsedCode("", "", code, code)
    else ParsedCode("", "", "", code)
  }

  /** parseCodeBlocks: fields start empty; each is the trimmed first block of
      its pattern; only when no pattern matches at all does the fallback
      guess one field from the whole text. */
  function ParseCodeBlocks(code: string): (r: ParsedCode)
    ensures r.fullCode == code
    ensures HasAnyBlock(code) ==>
      (Capture(HtmlBlock, code).None? ==> r.html == "") &&
      (Capture(CssBlock, code).None? ==> r.css == "") &&
      (Capture(ScriptBlock, code).None? ==> r.javascript == "")
    ensures HasAnyBlock(code) ==>
      IsTrimmed(r.html) && IsTrimmed(r.css) && IsTrimmed(r.javascript) &&
      FenceFree(r.html) && FenceFree(r.css) && FenceFree(r.javascript)
    ensures !HasAnyBlock(code) ==> r == Guess(code)
  {
    var h := Capture(HtmlBlock, code);
    var c := Capture(CssBlock, code);
    var j := Capture(ScriptBlock, code);
    if h.None? && c.None? && j.None? then Guess(code)
    else ParsedCode(TrimmedOrEmpty(h), TrimmedOrEmpty(c), TrimmedOrEmpty(j), code)
  }

  /** extractCodeFromResponse: the trimmed body of the first fenced block of
      any word tag (or none), or the text unchanged when there is no such
      block. What it peels out holds no fence and no outer whitespace. */
  function ExtractCodeFromResponse(text: string): (r: string)
    ensures Capture(AnyBlock, text).None? ==> r == text
    ensures Capture(AnyBlock, text).Some? ==> FenceFree(r) && IsTrimmed(r) && |r| <= |text|
  {
    match Capture(AnyBlock, text)
    case Some(body) =>
      TrimFenceFree(body);
      Trim(body)
    case None => text
  }

  /** The first opener of any word tag decides what is peeled: the trimmed
      text up to the next fence, or the whole text when no fence follows. */
  lemma PeelTakesFirstBlock(text: string, i: nat, b: nat)
    requires OpenerEnd(AnyBlock, text, i) == Some(b)
    requires forall j :: 0 <= j < i ==> OpenerEnd(AnyBlock, text, j).None?
    ensures NextFence(text, b).Some? ==>
      ExtractCodeFromResponse(text) == Trim(text[b..NextFence(text, b).value])
    ensures NextFence(text, b).None? ==> ExtractCodeFromResponse(text) == text
  {
    FirstOpenerDecides(AnyBlock, text, i, b);
  }

  /** What extractCodeFromResponse returns holds no block of any tag: either
      its first block was peeled, leaving no fence, or it had none. */
  lemma PeeledHasNoBlock(streamed: string)
    ensures !HasAnyBlock(ExtractCodeFromResponse(streamed))
  {
    var code := ExtractCodeFromResponse(streamed);
    if Capture(AnyBlock, streamed).Some? {
      FenceFreeNoCapture(HtmlBlock, code);
      FenceFreeNoCapture(CssBlock, code);
      FenceFreeNoCapture(ScriptBlock, code);
    } else {
      NoAnyCaptureNoCapture(HtmlBlock, code);
      NoAnyCaptureNoCapture(CssBlock, code);
      NoAnyCaptureNoCapture(ScriptBlock, code);
    }
  }

  /** The preview effect: the parsed code shown for a streamed reply. The
      code view gets the peeled text, and at most one field is filled. */
  function PreviewParse(streamed: string): (r: ParsedCode)
    ensures r.fullCode == ExtractCodeFromResponse(streamed)
    ensures r.html != "" ==> r.css == "" && r.javascript == ""
    ensures r.css != "" ==> r.javascript == ""
  {
    PeeledHasNoBlock(streamed);
    ParseCodeBlocks(ExtractCodeFromResponse(streamed))
  }

  /** The first opener of field f's pattern decides that field, as long as
      a closing fence follows it. For the script field the opener is
      "```javascript\n" or "```typescript\n", whichever comes first. */
  lemma ParseTakesFirstBlock(code: string, f: Field, i: nat, b: nat)
    requires OpenerEnd(PatternOf(f), code, i) == Some(b) && NextFence(code, b).Some?
    requires forall j :: 0 <= j < i ==> OpenerEnd(PatternOf(f), code, j).None?
    ensures FieldOf(ParseCodeBlocks(code), f) == Trim(code[b..NextFence(code, b).value])
  {
    FirstOpenerDecides(PatternOf(f), code, i, b);
  }

  /** The script opener at j is either of the two tagged openers. */
  lemma ScriptOpener(s: string, j: nat)
    ensures OpenerEnd(ScriptBlock, s, j).Some? <==>
      StartsAt(s, j, Opener("javascript")) || StartsAt(s, j, Opener("typescript"))
    ensures OpenerEnd(ScriptBlock, s, j).Some? ==> OpenerEnd(ScriptBlock, s, j).value == j + 14
  {
  }

  /** peeling is idempotent: what it returns has no fence left to peel. */
  lemma ExtractFromResponseIdempotent(text: string)
    ensures ExtractCodeFromResponse(ExtractCodeFromResponse(text)) == ExtractCodeFromResponse(text)
  {
    var r := ExtractCodeFromResponse(text);
    if Capture(AnyBlock, text).Some? {
      FenceFreeNoCapture(AnyBlock, r);
    }
  }

  /** In the preview effect the fenced patterns of parseCodeBlocks never
      match: the text it receives either had its first block peeled (and so
      holds no fence), or had no block of any tag, and every html, css or
      script opener is also an any-tag opener. The fields are therefore
      always guessed. */
  lemma PreviewAlwaysGuesses(streamed: string)
    ensures !HasAnyBlock(ExtractCodeFromResponse(streamed))
    ensures PreviewParse(streamed) == Guess(ExtractCodeFromResponse(streamed))
  {
    PeeledHasNoBlock(streamed);
  }

  /** As written, the preview shows only the first block of a reply: when
      that block (of any tag) holds markup, the css and script fields stay
      empty whatever other blocks the reply holds. */
  lemma PreviewDropsLaterBlocks(streamed: string, h: string)
    requires Capture(AnyBlock, streamed) == Some(h) && '<' in Trim(h)
    ensures PreviewParse(streamed).html == Trim(h)
    ensures PreviewParse(streamed).css == "" && PreviewParse(streamed).javascript == ""
  {
    PreviewAlwaysGuesses(streamed);
  }

  /** A reply with an html block followed by a css block. */
  function TwoBlockReply(): (s: string)
    ensures |s| == 28
  {
    "```html\n<p>```\n```css\np{}```"
  }

  lemma TwoBlockReplyAnyOpener()
    ensures OpenerEnd(AnyBlock, TwoBlockReply(), 0) == Some(8)
  {
    var s := TwoBlockReply();
    assert s[0] == '`' && s[1] == '`' && s[2] == '`' && s[7] == '\n';
    WordRunExact(s, 3, 4);
  }

  lemma TwoBlockReplyHtmlBlock()
    ensures OpenerEnd(HtmlBlock, TwoBlockReply(), 0) == Some(8)
    ensures NextFence(TwoBlockReply(), 8) == Some(11)
    ensures TwoBlockReply()[8..11] == "<p>"
  {
    var s := TwoBlockReply();
    assert s[0..8] == Opener("html");
    assert s[11] == '`' && s[12] == '`' && s[13] == '`';
    assert s[8] == '<' && s[9] == 'p' && s[10] == '>';
  }

  lemma TwoBlockReplyCssBlock()
    ensures OpenerEnd(CssBlock, TwoBlockReply(), 15) == Some(22)
    ensures NextFence(TwoBlockReply(), 22) == Some(25)
    ensures TwoBlockReply()[22..25] == "p{}"
  {
    var s := TwoBlockReply();
    assert s[15..22] == Opener("css");
    assert s[25] == '`' && s[26] == '`' && s[27] == '`';
    assert s[22] == 'p' && s[23] == '{' && s[24] == '}';
  }

  /** The two-block reply meets the premise of PreviewDropsLaterBlocks with
      markup "<p>", yet holds the css block "p{}", which the preview loses. */
  lemma TwoBlockReplyCaptures(s: string)
    requires s == TwoBlockReply()
    ensures Capture(AnyBlock, s) == Some("<p>")
    ensures Capture(HtmlBlock, s) == Some("<p>")
    ensures Capture(CssBlock, s) == Some("p{}")
  {
    TwoBlockReplyAnyOpener();
    TwoBlockReplyHtmlBlock();
    FirstOpenerDecides(AnyBlock, s, 0, 8);
    FirstOpenerDecides(HtmlBlock, s, 0, 8);
    TwoBlockReplyCssBlock();
    assert forall j :: 0 <= j < 15 ==> OpenerEnd(CssBlock, s, j).None?;
    FirstOpenerDecides(CssBlock, s, 15, 22);
  }

  /** The two-block reply holds the css block p{}, yet the preview shows
      the markup <p> and leaves the stylesheet empty. */
  lemma TwoBlockReplyLosesCss(s: string)
    requires s == TwoBlockReply()
    ensures Capture(CssBlock, s) == Some("p{}")
    ensures PreviewParse(s).html == "<p>" && PreviewParse(s).css == ""
  {
    TwoBlockReplyCaptures(s);
    FirstBlockMarkupP(s);
  }

  /** A reply whose first block of any tag is <p> previews as that markup
      alone. */
  lemma FirstBlockMarkupP(s: string)
    requires Capture(AnyBlock, s) == Some("<p>")
    ensures PreviewParse(s).html == "<p>" && PreviewParse(s).css == ""
  {
    TrimOfTrimmed("<p>");
    assert "<p>"[0] == '<';
    PreviewDropsLaterBlocks(s, "<p>");
  }

  /** The preview as evidently intended: each field comes from its own
      tagged block of the reply, and only a reply without any tagged block
      falls back to guessing on the peeled code; the code view still shows
      the peeled code. */
  function PreviewParseIntended(streamed: string): (r: ParsedCode)
    ensures r.fullCode == ExtractCodeFromResponse(streamed)
    ensures !HasAnyBlock(streamed) ==> r == PreviewParse(streamed)
  {
    if HasAnyBlock(streamed) then
      ParseCodeBlocks(streamed).(fullCode := ExtractCodeFromResponse(streamed))
    else
      PreviewAlwaysGuesses(streamed);
      PreviewParse(streamed)
  }

  /** Every field whose block appears in the reply is shown, trimmed, in
      the intended preview, and a field without a block is empty when
      another field has one. */
  lemma PreviewIntendedShowsEveryBlock(streamed: string, f: Field)
    ensures Capture(PatternOf(f), streamed).Some? ==>
      FieldOf(PreviewParseIntended(streamed), f) == Trim(Capture(PatternOf(f), streamed).value)
    ensures HasAnyBlock(streamed) && Capture(PatternOf(f), streamed).None? ==>
      FieldOf(PreviewParseIntended(streamed), f) == ""
  {
  }
}
