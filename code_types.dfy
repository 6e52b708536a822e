/** The page's three-part source code and the chat entries kept beside it. */
module CodeTypes {

  /** The generated page: markup, stylesheet and script. */
  datatype CodeState = CodeState(html: string, css: string, javascript: string)

  /** The code state every session and agent starts from. */
  const EmptyCode: CodeState := CodeState("", "", "")

  /** Names the three fields, so that a property can be stated once for all. */
  datatype Field = Html | Css | Javascript

  function Get(c: CodeState, f: Field): string
  {
    match f
    case Html => c.html
    case Css => c.css
    case Javascript => c.javascript
  }

  /** An entry of the agent's conversation history. */
  datatype ChatMessage = ChatMessage(role: string, content: string)
}
