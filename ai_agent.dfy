/** The agent that turns a language-model reply into a new code state. The
    request itself is not modelled: its reply is a parameter. */
module AiAgent {
  import opened Text
  import opened Fences
  import opened CodeTypes

  /** The block pattern extractCodeBlocks uses for each field; the script
      field accepts only the tag `javascript`. */
  function PatternOf(f: Field): Pattern
  {
    match f
    case Html => HtmlBlock
    case Css => CssBlock
    case Javascript => JavascriptBlock
  }

  /** The tag whose block fills field f. */
  function TagOf(f: Field): (t: string)
    ensures Tags(PatternOf(f)) == [t]
  {
    match f
    case Html => "html"
    case Css => "css"
    case Javascript => "javascript"
  }

  /** One field of extractCodeBlocks: the trimmed body of the first block of
      pattern p, or the fallback when p finds no block. A field taken from a
      block has no whitespace at either end and holds no fence. */
  function BlockOr(p: Pattern, response: string, fallback: string): (r: string)
    ensures Capture(p, response).None? ==> r == fallback
    ensures Capture(p, response).Some? ==> IsTrimmed(r) && FenceFree(r) && |r| <= |response|
  {
    match Capture(p, response)
    case Some(body) =>
      TrimFenceFree(body);
      Trim(body)
    case None => fallback
  }

  /** extractCodeBlocks: each field is the trimmed first block of its tag,
      or the agent's current value for that field. A field without a block
      keeps its value; one with a block is trimmed and holds no fence. */
  function ExtractCodeBlocks(response: string, current: CodeState): (r: CodeState)
    ensures Capture(HtmlBlock, response).None? ==> r.html == current.html
    ensures Capture(HtmlBlock, response).Some? ==> IsTrimmed(r.html) && FenceFree(r.html)
    ensures Capture(CssBlock, response).None? ==> r.css == current.css
    ensures Capture(CssBlock, response).Some? ==> IsTrimmed(r.css) && FenceFree(r.css)
    ensures Capture(JavascriptBlock, response).None? ==> r.javascript == current.javascript
    ensures Capture(JavascriptBlock, response).Some? ==>
      IsTrimmed(r.javascript) && FenceFree(r.javascript)
  {
    CodeState(
      BlockOr(HtmlBlock, response, current.html),
      BlockOr(CssBlock, response, current.css),
      BlockOr(JavascriptBlock, response, current.javascript))
  }

  /** At position j, the opener of field f's pattern is exactly the text
      "```" + tag + "\n". */
  lemma OpenerOfField(f: Field, s: string, j: nat)
    ensures OpenerEnd(PatternOf(f), s, j).Some? <==> StartsAt(s, j, Opener(TagOf(f)))
    ensures OpenerEnd(PatternOf(f), s, j).Some? ==>
      OpenerEnd(PatternOf(f), s, j).value == j + |Opener(TagOf(f))|
  {
  }

  /** Each field is decided on its own: it depends only on the reply and on
      the same field of the current code. */
  lemma FieldsIndependent(response: string, c1: CodeState, c2: CodeState, f: Field)
    requires Get(c1, f) == Get(c2, f)
    ensures Get(ExtractCodeBlocks(response, c1), f) == Get(ExtractCodeBlocks(response, c2), f)
  {
  }

  /** The first "```tag\n" decides field f: with a later "```" the field is
      the trimmed text up to the first such fence; without one the field
      keeps its current value. */
  lemma FirstBlockDecides(response: string, current: CodeState, f: Field, i: nat)
    requires StartsAt(response, i, Opener(TagOf(f)))
    requires forall j :: 0 <= j < i ==> !StartsAt(response, j, Opener(TagOf(f)))
    ensures var b := i + |Opener(TagOf(f))|;
      NextFence(response, b).Some? ==>
        Get(ExtractCodeBlocks(response, current), f) ==
        Trim(response[b..NextFence(response, b).value])
    ensures var b := i + |Opener(TagOf(f))|;
      NextFence(response, b).None? ==>
        Get(ExtractCodeBlocks(response, current), f) == Get(current, f)
  {
    var p := PatternOf(f);
    var b := i + |Opener(TagOf(f))|;
    OpenerOfField(f, response, i);
    forall j | 0 <= j < i
      ensures OpenerEnd(p, response, j).None?
    {
      OpenerOfField(f, response, j);
    }
    FirstOpenerDecides(p, response, i, b);
  }

  /** A present but empty block sets its field to "", whatever it held. */
  lemma EmptyBlockClears(response: string, current: CodeState, f: Field, i: nat)
    requires StartsAt(response, i, Opener(TagOf(f)) + "```")
    requires forall j :: 0 <= j < i ==> !StartsAt(response, j, Opener(TagOf(f)))
    ensures Get(ExtractCodeBlocks(response, current), f) == ""
  {
    var o := Opener(TagOf(f));
    var b := i + |o|;
    assert response[i..b] == (o + "```")[..|o|];
    assert StartsAt(response, i, o);
    assert response[b..b + 3] == (o + "```")[|o|..];
    assert FenceAt(response, b);
    FirstBlockDecides(response, current, f, i);
  }

  /** A field whose "```tag\n" opener does not occur keeps its current value;
      in particular a "```typescript\n" block never fills the script field. */
  lemma AbsentBlockKeepsField(response: string, current: CodeState, f: Field)
    requires !Includes(response, Opener(TagOf(f)))
    ensures Get(ExtractCodeBlocks(response, current), f) == Get(current, f)
  {
    forall j | 0 <= j <= |response|
      ensures OpenerEnd(PatternOf(f), response, j).None?
    {
      OpenerOfField(f, response, j);
    }
    NoOpenerNoCapture(PatternOf(f), response);
  }

  /** A reply without any of the three openers leaves the code unchanged. */
  lemma NoBlockKeepsCode(response: string, current: CodeState)
    requires !Includes(response, Opener("html"))
    requires !Includes(response, Opener("css"))
    requires !Includes(response, Opener("javascript"))
    ensures ExtractCodeBlocks(response, current) == current
  {
    AbsentBlockKeepsField(response, current, Html);
    AbsentBlockKeepsField(response, current, Css);
    AbsentBlockKeepsField(response, current, Javascript);
  }

  /** Every field that changed came from a block: it is trimmed and holds
      no fence. */
  lemma ChangedFieldsAreClean(response: string, current: CodeState, f: Field)
    requires Get(ExtractCodeBlocks(response, current), f) != Get(current, f)
    ensures IsTrimmed(Get(ExtractCodeBlocks(response, current), f))
    ensures FenceFree(Get(ExtractCodeBlocks(response, current), f))
  {
  }

  /** Extracting the same reply again, from the first result, changes
      nothing. */
  lemma ExtractIdempotent(response: string, current: CodeState)
    ensures var once := ExtractCodeBlocks(response, current);
      ExtractCodeBlocks(response, once) == once
  {
  }

  /** The agent: its conversation history and the code state it last
      produced. The API key read from the environment is not modelled. */
  class AIAgent {
    var conversationHistory: seq<ChatMessage>
    var currentCode: CodeState

    constructor ()
      ensures conversationHistory == [] && currentCode == EmptyCode
    {
      conversationHistory := [];
      currentCode := EmptyCode;
    }

    /** generateCode: the code passed in becomes the fallback, the reply is
        extracted from it, and the agent keeps what it returns. reply is the
        model's answer, or None when the request failed; the failure is passed
        on (None), and by then currentCode already holds the code passed in. */
    method GenerateCode(code: CodeState, reply: Option<string>) returns (r: Option<CodeState>)
      modifies this
      ensures reply.Some? ==> r == Some(ExtractCodeBlocks(reply.value, code)) && currentCode == r.value
      ensures reply.None? ==> r.None? && currentCode == code
      ensures conversationHistory == old(conversationHistory)
    {
      currentCode := code;
      if reply.None? {
        return None;
      }
      var codeBlocks := ExtractCodeBlocks(reply.value, currentCode);
      currentCode := codeBlocks;
      r := Some(codeBlocks);
    }

    /** getConversationHistory. */
    method GetConversationHistory() returns (h: seq<ChatMessage>)
      ensures h == conversationHistory
    {
      h := conversationHistory;
    }

    /** clearHistory: empty history and empty code. */
    method ClearHistory()
      modifies this
      ensures conversationHistory == [] && currentCode == EmptyCode
    {
      conversationHistory := [];
      currentCode := CodeState("", "", "");
    }
  }
}
