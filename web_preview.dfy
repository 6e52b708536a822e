/** The two HTML documents the preview builds from a code state: the one
    written into the preview frame and the one copied to the clipboard. Both
    splice the stylesheet, the markup and the script, unescaped and in that
    order, into a fixed text. Writing the frame and the clipboard is not
    modelled. */
module WebPreview {
  import opened Text
  import opened CodeTypes

  /** A fixed text with three holes: before the stylesheet, between the
      stylesheet and the markup, between the markup and the script, and
      after the script. */
  datatype Template = Template(head: string, afterStyle: string, afterBody: string, tail: string)

  /** Where the stylesheet, the markup and the script start in the document
      that t makes from code. */
  function CssAt(t: Template): nat
  {
    |t.head|
  }

  function HtmlAt(t: Template, code: CodeState): nat
  {
    |t.head| + |code.css| + |t.afterStyle|
  }

  function ScriptAt(t: Template, code: CodeState): nat
  {
    HtmlAt(t, code) + |code.html| + |t.afterBody|
  }

  /** The document t makes from code. It opens with the head and closes with
      the tail, and each field stands verbatim at its own offset. */
  function Render(t: Template, code: CodeState): (doc: string)
    ensures |doc| == ScriptAt(t, code) + |code.javascript| + |t.tail|
    ensures StartsAt(doc, 0, t.head)
    ensures StartsAt(doc, CssAt(t), code.css)
    ensures StartsAt(doc, CssAt(t) + |code.css|, t.afterStyle)
    ensures StartsAt(doc, HtmlAt(t, code), code.html)
    ensures StartsAt(doc, HtmlAt(t, code) + |code.html|, t.afterBody)
    ensures StartsAt(doc, ScriptAt(t, code), code.javascript)
    ensures StartsAt(doc, |doc| - |t.tail|, t.tail)
  {
    var doc := t.head + code.css + t.afterStyle + code.html + t.afterBody + code.javascript + t.tail;
    var a := |t.head|;
    var b := a + |code.css|;
    var c := b + |t.afterStyle|;
    var d := c + |code.html|;
    var e := d + |t.afterBody|;
    var f := e + |code.javascript|;
    assert doc[..a] == t.head;
    assert doc[a..b] == code.css;
    assert doc[b..c] == t.afterStyle;
    assert doc[c..d] == code.html;
    assert doc[d..e] == t.afterBody;
    assert doc[e..f] == code.javascript;
    assert doc[f..] == t.tail;
    doc
  }

  /** Reads the three fields back out of a document of template t, given the
      lengths of the stylesheet and the markup. */
  function ReadBack(t: Template, doc: string, cssLen: nat, htmlLen: nat): (code: CodeState)
    requires |t.head| + cssLen + |t.afterStyle| + htmlLen + |t.afterBody| + |t.tail| <= |doc|
    ensures |code.css| == cssLen && |code.html| == htmlLen
  {
    var a := |t.head|;
    var c := a + cssLen + |t.afterStyle|;
    var e := c + htmlLen + |t.afterBody|;
    CodeState(doc[c..c + htmlLen], doc[a..a + cssLen], doc[e..|doc| - |t.tail|])
  }

  /** Nothing is escaped: every field can be read back out of the document
      unchanged, so documents of equal-length fields differ exactly when the
      code states do. */
  lemma ReadBackRender(t: Template, code: CodeState)
    ensures ReadBack(t, Render(t, code), |code.css|, |code.html|) == code
  {
    var doc := Render(t, code);
    assert doc[CssAt(t)..CssAt(t) + |code.css|] == code.css;
    assert doc[HtmlAt(t, code)..HtmlAt(t, code) + |code.html|] == code.html;
    assert doc[ScriptAt(t, code)..ScriptAt(t, code) + |code.javascript|] == code.javascript;
  }

  /** Among code states whose stylesheets and markups have equal lengths,
      rendering is one-to-one. */
  lemma RenderInjective(t: Template, c1: CodeState, c2: CodeState)
    requires Render(t, c1) == Render(t, c2)
    requires |c1.css| == |c2.css| && |c1.html| == |c2.html|
    ensures c1 == c2
  {
    ReadBackRender(t, c1);
    ReadBackRender(t, c2);
  }

  /** A match of p + q at i is a match of p at i followed by one of q. */
  lemma StartsAtConcat(s: string, i: nat, p: string, q: string)
    requires StartsAt(s, i, p + q)
    ensures StartsAt(s, i, p) && StartsAt(s, i + |p|, q)
  {
    assert s[i..i + |p|] == s[i..i + |p + q|][..|p|];
    assert s[i + |p|..i + |p| + |q|] == s[i..i + |p + q|][|p|..];
  }

  /** Splitting the four fixed pieces: a piece written p + q shows p and
      then q at its place in every document of template t. */
  lemma HeadSplit(t: Template, code: CodeState, p: string, q: string)
    requires t.head == p + q
    ensures StartsAt(Render(t, code), 0, p)
    ensures StartsAt(Render(t, code), CssAt(t) - |q|, q)
  {
    StartsAtConcat(Render(t, code), 0, p, q);
  }

  lemma AfterStyleSplit(t: Template, code: CodeState, p: string, q: string)
    requires t.afterStyle == p + q
    ensures StartsAt(Render(t, code), CssAt(t) + |code.css|, p)
    ensures StartsAt(Render(t, code), HtmlAt(t, code) - |q|, q)
  {
    StartsAtConcat(Render(t, code), CssAt(t) + |code.css|, p, q);
  }

  lemma AfterBodySplit(t: Template, code: CodeState, p: string, q: string)
    requires t.afterBody == p + q
    ensures StartsAt(Render(t, code), HtmlAt(t, code) + |code.html|, p)
    ensures StartsAt(Render(t, code), ScriptAt(t, code) - |q|, q)
  {
    StartsAtConcat(Render(t, code), HtmlAt(t, code) + |code.html|, p, q);
  }

  lemma TailSplit(t: Template, code: CodeState, p: string, q: string)
    requires t.tail == p + q
    ensures StartsAt(Render(t, code), ScriptAt(t, code) + |code.javascript|, p)
    ensures StartsAt(Render(t, code), |Render(t, code)| - |q|, q)
  {
    StartsAtConcat(Render(t, code), ScriptAt(t, code) + |code.javascript|, p, q);
  }

  // The fixed text of the copied document, piece by piece.
  const Doctype: string := "<!DOCTYPE html>"
  const CopyHeadRest: string := "\n<html>\n<head>\n  <meta charset=\"utf-8\">\n  <meta name=\"viewport\" content=\"width=device-width, initial-scale=1.0\">\n  "
  const StyleOpen: string := "<style>\n"
  const StyleClose: string := "\n  </style>"
  const HeadClose: string := "\n</head>\n"
  const BodyOpen: string := "<body>\n"
  const ScriptOpen: string := "<script>\n"
  const ScriptClose: string := "\n</script>"
  const BodyClose: string := "\n</body>\n"
  const HtmlClose: string := "</html>"

  /** The document copied to the clipboard. */
  const CopyTemplate: Template := Template(
    (Doctype + CopyHeadRest) + StyleOpen,
    (StyleClose + HeadClose) + BodyOpen,
    "\n" + ScriptOpen,
    ScriptClose + (BodyClose + HtmlClose))

  // The fixed text of the preview document, piece by piece.
  const PreviewHead: string := "\n      <!DOCTYPE html>\n      <html>\n        <head>\n          <meta charset=\"utf-8\">\n          <meta name=\"viewport\" content=\"width=device-width, initial-scale=1.0\">\n          <style>\n            "
  const PreviewAfterStyle: string := "\n          </style>\n        </head>\n        <body>\n          "
  const PreviewIndent: string := "\n          "
  const TryOpen: string := "<script>\n            try {\n              "
  const CatchOpen: string := "\n            } catch (error) {"
  const PreviewTailRest: string := "\n              console.error('Error in preview:', error);\n            }\n          </script>\n        </body>\n      </html>\n    "

  /** The document written into the preview frame: the script runs inside a
      try/catch that logs its error. */
  const PreviewTemplate: Template := Template(
    PreviewHead,
    PreviewAfterStyle,
    PreviewIndent + TryOpen,
    CatchOpen + PreviewTailRest)

  /** updatePreview's document: the stylesheet, the markup and the script each stand
      verbatim at their own offsets. */
  function PreviewDocument(code: CodeState): (doc: string)
    ensures |doc| == ScriptAt(PreviewTemplate, code) + |code.javascript| + |PreviewTemplate.tail|
    ensures StartsAt(doc, CssAt(PreviewTemplate), code.css)
    ensures StartsAt(doc, HtmlAt(PreviewTemplate, code), code.html)
    ensures StartsAt(doc, ScriptAt(PreviewTemplate, code), code.javascript)
  {
    Render(PreviewTemplate, code)
  }

  /** handleCopyCode's document: the stylesheet, the markup and the script each stand
      verbatim at their own offsets. */
  function CopyDocument(code: CodeState): (doc: string)
    ensures |doc| == ScriptAt(CopyTemplate, code) + |code.javascript| + |CopyTemplate.tail|
    ensures StartsAt(doc, CssAt(CopyTemplate), code.css)
    ensures StartsAt(doc, HtmlAt(CopyTemplate, code), code.html)
    ensures StartsAt(doc, ScriptAt(CopyTemplate, code), code.javascript)
  {
    Render(CopyTemplate, code)
  }

  /** The copied document starts with the doctype and ends with the closing
      html tag. */
  lemma CopyDocumentBounds(code: CodeState)
    ensures var doc := CopyDocument(code);
      StartsAt(doc, 0, Doctype) && StartsAt(doc, |doc| - |HtmlClose|, HtmlClose)
  {
    assert CopyDocument(code) == Render(CopyTemplate, code);
    HeadSplit(CopyTemplate, code, Doctype, CopyHeadRest + StyleOpen);
    TailSplit(CopyTemplate, code, ScriptClose + BodyClose, HtmlClose);
  }

  /** In the copied document the stylesheet stands inside the style
      element. */
  lemma CopyDocumentStyle(code: CodeState)
    ensures var doc := CopyDocument(code);
      StartsAt(doc, CssAt(CopyTemplate) - |StyleOpen|, StyleOpen) &&
      StartsAt(doc, CssAt(CopyTemplate), code.css) &&
      StartsAt(doc, CssAt(CopyTemplate) + |code.css|, StyleClose)
  {
    assert CopyDocument(code) == Render(CopyTemplate, code);
    HeadSplit(CopyTemplate, code, Doctype + CopyHeadRest, StyleOpen);
    AfterStyleSplit(CopyTemplate, code, StyleClose, HeadClose + BodyOpen);
  }

  /** In the copied document the markup opens the body. */
  lemma CopyDocumentMarkup(code: CodeState)
    ensures var doc := CopyDocument(code);
      StartsAt(doc, HtmlAt(CopyTemplate, code) - |BodyOpen|, BodyOpen) &&
      StartsAt(doc, HtmlAt(CopyTemplate, code), code.html)
  {
    assert CopyDocument(code) == Render(CopyTemplate, code);
    AfterStyleSplit(CopyTemplate, code, StyleClose + HeadClose, BodyOpen);
  }

  /** In the copied document the script stands inside the script element. */
  lemma CopyDocumentScript(code: CodeState)
    ensures var doc := CopyDocument(code);
      StartsAt(doc, ScriptAt(CopyTemplate, code) - |ScriptOpen|, ScriptOpen) &&
      StartsAt(doc, ScriptAt(CopyTemplate, code), code.javascript) &&
      StartsAt(doc, ScriptAt(CopyTemplate, code) + |code.javascript|, ScriptClose)
  {
    assert CopyDocument(code) == Render(CopyTemplate, code);
    AfterBodySplit(CopyTemplate, code, "\n", ScriptOpen);
    TailSplit(CopyTemplate, code, ScriptClose, BodyClose + HtmlClose);
  }

  /** The copied document: the doctype first, the closing html tag last, and
      between them the stylesheet, the markup and the script in that order,
      each in its element. */
  lemma CopyDocumentLayout(code: CodeState)
    ensures var doc := CopyDocument(code);
      StartsAt(doc, 0, Doctype) &&
      StartsAt(doc, |doc| - |HtmlClose|, HtmlClose) &&
      StartsAt(doc, CssAt(CopyTemplate) - |StyleOpen|, StyleOpen) &&
      StartsAt(doc, CssAt(CopyTemplate), code.css) &&
      StartsAt(doc, CssAt(CopyTemplate) + |code.css|, StyleClose) &&
      StartsAt(doc, HtmlAt(CopyTemplate, code) - |BodyOpen|, BodyOpen) &&
      StartsAt(doc, HtmlAt(CopyTemplate, code), code.html) &&
      StartsAt(doc, ScriptAt(CopyTemplate, code) - |ScriptOpen|, ScriptOpen) &&
      StartsAt(doc, ScriptAt(CopyTemplate, code), code.javascript) &&
      StartsAt(doc, ScriptAt(CopyTemplate, code) + |code.javascript|, ScriptClose) &&
      CssAt(CopyTemplate) < HtmlAt(CopyTemplate, code) < ScriptAt(CopyTemplate, code)
  {
    CopyDocumentBounds(code);
    CopyDocumentStyle(code);
    CopyDocumentMarkup(code);
    CopyDocumentScript(code);
  }

  /** In the preview document "try {" comes just before the script ... */
  lemma PreviewTryBeforeScript(code: CodeState)
    ensures StartsAt(PreviewDocument(code), ScriptAt(PreviewTemplate, code) - |TryOpen|, TryOpen)
  {
    assert PreviewDocument(code) == Render(PreviewTemplate, code);
    AfterBodySplit(PreviewTemplate, code, PreviewIndent, TryOpen);
  }

  /** ... and "} catch (error) {" just after it. */
  lemma PreviewCatchAfterScript(code: CodeState)
    ensures var at := ScriptAt(PreviewTemplate, code) + |code.javascript|;
      StartsAt(PreviewDocument(code), at, CatchOpen)
  {
    assert PreviewDocument(code) == Render(PreviewTemplate, code);
    TailSplit(PreviewTemplate, code, CatchOpen, PreviewTailRest);
  }

  /** In the preview document the script stands between "try {" and
      "} catch (error) {", inside the script element. */
  lemma PreviewWrapsScript(code: CodeState)
    ensures var doc := PreviewDocument(code);
      var at := ScriptAt(PreviewTemplate, code);
      StartsAt(doc, at - |TryOpen|, TryOpen) &&
      StartsAt(doc, at, code.javascript) &&
      StartsAt(doc, at + |code.javascript|, CatchOpen)
  {
    PreviewTryBeforeScript(code);
    PreviewCatchAfterScript(code);
  }
}
