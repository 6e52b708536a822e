/** The session store of the editor: the current code and the conversation
    shown beside it. Loading from and saving to browser storage is not
    modelled. */
module UseCodeState {
  import opened CodeTypes

  class CodeSession {
    var code: CodeState
    var conversation: seq<string>

    /** The initial state: empty code and no conversation. */
    constructor ()
      ensures code == EmptyCode && conversation == []
    {
      code := CodeState("", "", "");
      conversation := [];
    }

    /** clearCode: empty code and no conversation. */
    method ClearCode()
      modifies this
      ensures code == EmptyCode && conversation == []
    {
      code := CodeState("", "", "");
      conversation := [];
    }

    /** updateCode: the new code replaces the old one wholesale; the
        conversation is left as it is. */
    method UpdateCode(newCode: CodeState)
      modifies this
      ensures code == newCode && conversation == old(conversation)
    {
      code := newCode;
    }

    /** addToConversation: the messages are appended in order, so the old
        conversation is a prefix of the new one, which is longer by exactly
        the number of messages; the code is left as it is. */
    method AddToConversation(messages: seq<string>)
      modifies this
      ensures conversation == old(conversation) + messages
      ensures |conversation| == |old(conversation)| + |messages|
      ensures conversation[..|old(conversation)|] == old(conversation)
      ensures conversation[|old(conversation)|..] == messages
      ensures code == old(code)
    {
      conversation := conversation + messages;
    }
  }
}
