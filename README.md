# Fenced-block extraction, preview documents and editor state of an AI web-code assistant

The assistant asks a language model for a web page and receives a markdown
reply. This project models, in Dafny, the text handling that turns such a
reply into a three-field code state `{html, css, javascript}`, the two HTML
documents built from that state, and the small state holders around it:

- `Text` — the primitives: the fence of three backticks, the `\w` character class,
  `includes`, and `trim` over a fixed whitespace set.
- `Fences` — the five regular expressions of the form
  `` /```tag\n([\s\S]*?)```/ `` written out as explicit searches: an opener
  at each position, tried left to right, with the lazy body ending at the
  first fence after the opener. The central fact is that the first opener
  alone decides the match (`FirstOpenerDecides`): an opener is a fence, word
  characters and a line feed, so no later opener can start inside it, and if
  no fence follows the first opener none follows any later one either.
- `AiAgent` — the agent's `extractCodeBlocks` (each field is the trimmed
  first block of its tag, or the agent's current value), and the agent
  object with `generateCode` and `clearHistory` as methods on a class.
- `AiCodingPane` — the pane's `parseCodeBlocks` (fields start empty, the
  script field also takes `typescript`, and a content-sniffing guess runs
  only when no block matched), `extractCodeFromResponse` (peel the first
  block of any word tag), and the preview effect that composes them.
- `WebPreview` — the preview-frame document and the copied document, both
  a fixed template with the stylesheet, the markup and the script spliced in
  verbatim.
- `Sidebar` — the explorer's set of expanded paths, the toggle, the path of
  an item, and which rows the tree lists.
- `UseCodeState` — the editor's code and conversation store, as a class.

The two extractors differ, and the model follows the code of each. A
reading that merges them does not match the code: in `parseCodeBlocks` the
guess works on the untrimmed text and leaves unguessed fields empty rather
than at an earlier value, and `extractCodeBlocks` has no guess at all and
accepts only the tag `javascript` for the script field.

## Model

| member | source | states |
|---|---|---|
| Text.NextFence | src/lib/aiAgent.ts:65-67 | the lazy body before the closing fence ends at the first fence at or after the opener's end; no fence lies between, and when there is none no fence follows at all |
| Text.WordRun | src/components/layout/AICodingPane.tsx:96 | the run of `\w` characters at a position is maximal: every character in it is a word character and the one after it is not |
| Text.IncludesFrom | src/components/layout/AICodingPane.tsx:81-84 | `includes` from a position is true exactly when the pattern occurs at some position at or after it |
| Text.Includes | src/components/layout/AICodingPane.tsx:81-84 | `includes` is true exactly when the pattern occurs somewhere in the text |
| Text.TrimStart | src/lib/aiAgent.ts:70-72 | removing leading whitespace keeps a suffix, everything removed is whitespace, and the result does not start with whitespace |
| Text.TrimEnd | src/lib/aiAgent.ts:70-72 | removing trailing whitespace keeps a prefix, everything removed is whitespace, and the result does not end with whitespace |
| Text.Trim | src/lib/aiAgent.ts:70-72 | the result of `trim` has whitespace at neither end and is no longer than its input |
| Text.TrimIsSlice | src/lib/aiAgent.ts:70-72 | `trim` keeps one contiguous slice of its input and removes only whitespace, from the front and from the back |
| Text.TrimOfTrimmed | src/lib/aiAgent.ts:70-72 | text with no whitespace at either end is left as it is by `trim` |
| Text.TrimIdempotent | src/lib/aiAgent.ts:70-72 | trimming twice is trimming once |
| Text.TrimFenceFree | src/lib/aiAgent.ts:65-72 | trimming a block body that holds no fence yields text that holds none |
| Fences.TaggedOpenerEnd | src/components/layout/AICodingPane.tsx:76 | an alternation of tags matches at a position exactly when some tag's opener (a fence, the tag, a line feed) starts there, and the opener then ends just after that tag's line feed |
| Fences.OpenerEnd | src/components/layout/AICodingPane.tsx:96 | every opener, of any of the five patterns, is a fence followed by word characters and a line feed |
| Fences.MatchAt | src/lib/aiAgent.ts:65-67 | a match found at a position is reported as starting at that position |
| Fences.MatchAtShape | src/lib/aiAgent.ts:65-67 | a match is an opener, a body holding no fence, and the closing fence right after the body |
| Fences.SearchFrom | src/lib/aiAgent.ts:65-67 | the search returns a match at its reported position and no position before it, from the starting point on, has a match; when it returns none, no position has one |
| Fences.Search | src/lib/aiAgent.ts:65-67 | `String.prototype.match` returns the leftmost match: no earlier position matches, and none at all when it returns nothing |
| Fences.Capture | src/lib/aiAgent.ts:70-72 | the captured group `match[1]` never contains a fence |
| Fences.NoFenceInsideOpener | src/components/layout/AICodingPane.tsx:96 | no fence starts strictly inside an opener |
| Fences.FirstOpenerDecides | src/lib/aiAgent.ts:65-67 | the leftmost opener decides the whole match: with a fence after it, the capture is the text up to the first such fence; without one, the pattern matches nowhere |
| Fences.NoOpenerNoCapture | src/lib/aiAgent.ts:65-67 | a text in which no opener of the pattern occurs has no match |
| Fences.FenceFreeNoCapture | src/components/layout/AICodingPane.tsx:96-98 | a text holding no fence matches none of the five patterns |
| Fences.WordRunExact | src/components/layout/AICodingPane.tsx:96 | a run of n word characters followed by a non-word character is exactly the `\w+` run there |
| Fences.AnyOpenerSubsumes | src/components/layout/AICodingPane.tsx:67-77 | every html, css, javascript or typescript opener is also an opener of the any-tag pattern, ending at the same place |
| Fences.NoAnyCaptureNoCapture | src/components/layout/AICodingPane.tsx:96-98 | when the any-tag pattern finds no block, none of the tagged patterns finds one |
| AiAgent.TagOf | src/lib/aiAgent.ts:65-67 | each field of the agent has exactly one tag: html, css, javascript |
| AiAgent.BlockOr | src/lib/aiAgent.ts:70-72 | a field with no block is the fallback; a field taken from a block has no outer whitespace and holds no fence |
| AiAgent.OpenerOfField | src/lib/aiAgent.ts:65-67 | at any position, a field's pattern opens exactly where a fence, the tag and a line feed occur |
| AiAgent.FieldsIndependent | src/lib/aiAgent.ts:70-72 | each extracted field depends only on the reply and the same field of the current code |
| AiAgent.ExtractCodeBlocks | src/lib/aiAgent.ts:64-74 | a field whose tag has no block keeps the agent's current value, and a field taken from a block has no outer whitespace and holds no fence (which block is stated by `FirstBlockDecides`) |
| AiAgent.FirstBlockDecides | src/lib/aiAgent.ts:65-72 | the first opener (a fence, the tag, a line feed) of a field decides it: with a fence after it the field is the trimmed text up to that fence, without one the field keeps its current value |
| AiAgent.EmptyBlockClears | src/lib/aiAgent.ts:66-71 | a present but empty block sets its field to "", whatever it held |
| AiAgent.AbsentBlockKeepsField | src/lib/aiAgent.ts:67-72 | a field whose opener does not occur keeps its current value; in particular a typescript block never fills the script field |
| AiAgent.NoBlockKeepsCode | src/lib/aiAgent.ts:64-74 | a reply with none of the three openers returns the current code unchanged |
| AiAgent.ChangedFieldsAreClean | src/lib/aiAgent.ts:65-72 | every field that changed came from a block: no outer whitespace and no fence |
| AiAgent.ExtractIdempotent | src/lib/aiAgent.ts:64-74 | extracting the same reply again, with the first result as the current code, changes nothing |
| AiAgent.AIAgent.constructor | src/lib/aiAgent.ts:14-18 | a new agent has an empty history and three empty fields |
| AiAgent.AIAgent.GenerateCode | src/lib/aiAgent.ts:76-82 | the code passed in is the fallback; the agent keeps and returns the extracted code; a failed request is passed on with the passed-in code installed; the history is unchanged |
| AiAgent.AIAgent.GetConversationHistory | src/lib/aiAgent.ts:84-86 | returns the history as it is |
| AiAgent.AIAgent.ClearHistory | src/lib/aiAgent.ts:88-95 | empties the history and resets the code to three empty strings |
| AiCodingPane.TrimmedOrEmpty | src/components/layout/AICodingPane.tsx:67-77 | a field with no block is ""; one with a block is trimmed and holds no fence |
| AiCodingPane.Guess | src/components/layout/AICodingPane.tsx:80-90 | the guess sets at most one field, to the untrimmed text: markup exactly when the text has '<'; otherwise, with both braces, a stylesheet exactly when it has "@media" or ':' and a script exactly when it has neither |
| AiCodingPane.ParseCodeBlocks | src/components/layout/AICodingPane.tsx:59-93 | fullCode is the input unchanged; once any block matched, unmatched fields are "" and every field is trimmed and holds no fence; with no block at all the result is the guess |
| AiCodingPane.ExtractCodeFromResponse | src/components/layout/AICodingPane.tsx:95-99 | without a block of any word tag the text is returned unchanged; with one, the result is trimmed, holds no fence and is no longer than the text |
| AiCodingPane.PeelTakesFirstBlock | src/components/layout/AICodingPane.tsx:95-99 | the first opener of any word tag decides the result: with a fence after it, the trimmed text up to the first such fence; without one, the text unchanged |
| AiCodingPane.PeeledHasNoBlock | src/components/layout/AICodingPane.tsx:95-99 | what `extractCodeFromResponse` returns holds no html, css, javascript or typescript block |
| AiCodingPane.ParseTakesFirstBlock | src/components/layout/AICodingPane.tsx:67-77 | the first opener of a field's pattern decides that field, as its trimmed body up to the next fence |
| AiCodingPane.ScriptOpener | src/components/layout/AICodingPane.tsx:76-77 | the script field's pattern opens at a position exactly when the opener of the tag javascript or of the tag typescript starts there, and the opener is then 14 characters long |
| AiCodingPane.ExtractFromResponseIdempotent | src/components/layout/AICodingPane.tsx:95-99 | peeling twice is peeling once |
| AiCodingPane.PreviewParse | src/components/layout/AICodingPane.tsx:52-57 | the preview effect hands the peeled text to the code view and fills at most one of the three fields |
| AiCodingPane.PreviewAlwaysGuesses | src/components/layout/AICodingPane.tsx:52-57 | the text the preview effect parses never holds a tagged block, so its fields are always guessed |
| AiCodingPane.PreviewDropsLaterBlocks | src/components/layout/AICodingPane.tsx:52-57 | when the reply's first block holds markup, the preview shows that markup and leaves css and script empty, whatever other blocks follow |
| AiCodingPane.TwoBlockReplyCaptures | src/components/layout/AICodingPane.tsx:52-57 | a reply of an html block `<p>` then a css block `p{}` has `<p>` as its first block of any tag and as its html block, and `p{}` as its css block |
| AiCodingPane.TwoBlockReplyLosesCss | src/components/layout/AICodingPane.tsx:52-57 | a reply of an html block `<p>` then a css block `p{}` holds the css block, yet the preview shows markup `<p>` and an empty stylesheet |
| AiCodingPane.PreviewParseIntended | src/components/layout/AICodingPane.tsx:52-57 | the corrected preview keeps the peeled code for the code view and agrees with the current preview on replies without a tagged block |
| AiCodingPane.PreviewIntendedShowsEveryBlock | src/components/layout/AICodingPane.tsx:52-77 | in the corrected preview every field whose block the reply holds shows that block trimmed, and once the reply holds any tagged block the fields without one are empty |
| WebPreview.Render | src/components/features/WebPreview.tsx:58-73 | a document is the template's head, then the stylesheet, markup and script each verbatim at its own offset, separated by the template's fixed text, then its tail |
| WebPreview.ReadBack | src/components/features/WebPreview.tsx:64-70 | reading a document back yields fields of the given lengths |
| WebPreview.ReadBackRender | src/components/features/WebPreview.tsx:64-70 | nothing is escaped: every field reads back unchanged out of the document |
| WebPreview.RenderInjective | src/components/features/WebPreview.tsx:25-46 | the document depends on the three fields only, and code states with equal-length fields that differ give different documents |
| WebPreview.PreviewDocument | src/components/features/WebPreview.tsx:25-46 | the preview document is the template's text plus the three fields, and the stylesheet, the markup and the script each stand verbatim at their own offsets |
| WebPreview.CopyDocument | src/components/features/WebPreview.tsx:58-73 | the copied document is the template's text plus the three fields, and the stylesheet, the markup and the script each stand verbatim at their own offsets |
| WebPreview.CopyDocumentBounds | src/components/features/WebPreview.tsx:58-73 | the copied document starts with `<!DOCTYPE html>` and ends with `</html>` |
| WebPreview.CopyDocumentStyle | src/components/features/WebPreview.tsx:63-65 | in the copied document the stylesheet stands between `<style>` and `</style>` |
| WebPreview.CopyDocumentMarkup | src/components/features/WebPreview.tsx:67-68 | in the copied document the markup follows `<body>` |
| WebPreview.CopyDocumentScript | src/components/features/WebPreview.tsx:69-71 | in the copied document the script stands between `<script>` and `</script>` |
| WebPreview.CopyDocumentLayout | src/components/features/WebPreview.tsx:58-73 | the copied document: doctype first, `</html>` last, and stylesheet, markup and script in that order, each in its element |
| WebPreview.PreviewTryBeforeScript | src/components/features/WebPreview.tsx:38-39 | in the preview document `try {` comes right before the script |
| WebPreview.PreviewCatchAfterScript | src/components/features/WebPreview.tsx:39-40 | in the preview document `} catch (error) {` comes right after the script |
| WebPreview.PreviewWrapsScript | src/components/features/WebPreview.tsx:37-43 | the preview document wraps the script in `try { … } catch` |
| Sidebar.Toggled | src/components/layout/Sidebar.tsx:41-49 | toggling flips the path's membership and leaves every other path's membership as it was |
| Sidebar.ToggleTwice | src/components/layout/Sidebar.tsx:43-47 | toggling the same path twice restores the set |
| Sidebar.ChildPath | src/components/layout/Sidebar.tsx:52 | a top-level item's path is its name; a child's path is the parent's path, a slash and its name |
| Sidebar.RenderItem | src/components/layout/Sidebar.tsx:51-83 | an item's row comes first and deeper rows follow; a file, a collapsed folder or an item without children shows one row; for an expanded folder with children the rows one level down are exactly its children, in order, each under the folder's path; every row's path is built from its parent's, and deeper rows hang under expanded folders |
| Sidebar.RenderItems | src/components/layout/Sidebar.tsx:76-78 | the rows at the list's depth are exactly the items, in order, each under the parent's path; every row's path is built from its parent's |
| Sidebar.CollapsedShowsTopLevel | src/components/layout/Sidebar.tsx:76 | with nothing expanded only the top-level items are listed |
| Sidebar.CollapsedItemRow | src/components/layout/Sidebar.tsx:76 | an item whose path is not expanded shows its own row alone |
| Sidebar.InitialRows | src/components/layout/Sidebar.tsx:12-39 | at start the explorer lists src and, as src is expanded, its two collapsed folders src/components and src/app |
| Sidebar.SidebarState.Rows | src/components/layout/Sidebar.tsx:89 | the explorer lists at least one row per top-level item, each built from its parent's path; exactly one per item when nothing is expanded; and at start src, src/components and src/app |
| Sidebar.SidebarState.constructor | src/components/layout/Sidebar.tsx:39 | only "src" is expanded at start |
| Sidebar.SidebarState.ToggleFolder | src/components/layout/Sidebar.tsx:41-49 | the new set is the old one with the path's membership flipped |
| Sidebar.SidebarState.ClickItem | src/components/layout/Sidebar.tsx:60 | a click on a file leaves the set as it is; a click on a folder toggles its path |
| UseCodeState.CodeSession.constructor | src/hooks/useCodeState.ts:7-8 | the initial code is three empty strings and the conversation is empty |
| UseCodeState.CodeSession.ClearCode | src/hooks/useCodeState.ts:25-30 | resets the code to three empty strings and the conversation to empty |
| UseCodeState.CodeSession.UpdateCode | src/hooks/useCodeState.ts:32-34 | replaces the code wholesale and leaves the conversation as it was |
| UseCodeState.CodeSession.AddToConversation | src/hooks/useCodeState.ts:36-38 | appends the messages in order: the old conversation is a prefix, the messages are the suffix, the length grows by their number, the code is unchanged |

## Findings

| source | as written | input that shows it | evidently intended | confidence | as-written member | corrected member |
|---|---|---|---|---|---|---|
| src/components/layout/AICodingPane.tsx:52-57 | the preview parses the text already peeled by `extractCodeFromResponse`, which holds no fence of three backticks, so the tagged patterns of `parseCodeBlocks` never match and its fields are always guessed from the first block alone | a reply of an html block `<p>` followed by a css block `p{}` (`TwoBlockReply`): the preview shows html `<p>` and css "" | each field taken from its own tagged block of the reply: html `<p>` and css `p{}` | medium, not executed | AiCodingPane.TwoBlockReplyLosesCss, AiCodingPane.PreviewDropsLaterBlocks | AiCodingPane.PreviewParseIntended, AiCodingPane.PreviewIntendedShowsEveryBlock |

## Left out

- The request to the language model (src/lib/aiAgent.ts:20-62) is network I/O: `GenerateCode` takes the reply, or its absence when the request fails, as a parameter; the prompt and the API key are not modelled.
- Text.Trim: removes only space, tab, line feed, carriage return, form feed and vertical tab, not every Unicode white-space and line-terminator character that ECMAScript's `trim` removes.
- Regular expressions in general are not modelled; only the five patterns the code uses are, each as an explicit search.
- The preview frame write and the clipboard copy (src/components/features/WebPreview.tsx:48-54, 75-81) are DOM side effects; only the document strings are modelled.
- Loading and saving the code and conversation in browser storage (src/hooks/useCodeState.ts:11-23, 28-29) is storage I/O and is not modelled; nor is the toast hook.
- The pane's submission handler, streaming, chat state and JSX (src/components/layout/AICodingPane.tsx:19-50, 101-246) are asynchronous UI. They also call the agent with arguments its declarations do not take (`new AIAgent(apiKey)` against a constructor without parameters, `generateCode(prompt, handleStream)` against a code-state parameter), so only the pure helpers and the preview effect are modelled.
- The agent's `conversationHistory` is never appended to by the code; the model keeps it as a field that only `ClearHistory` changes.
- AiAgent.AIAgent.GetConversationHistory: returns the history as a value; the source returns its private array by reference, so a caller could push into the agent's history through it. No caller in this tree does, and that aliasing is not modelled.
- Sidebar.FileItem: the optional children list is two constructors, `Bare` (no list) and `Listed` (a list, possibly empty); the icons and markup of a row are left out, and a row records only its path, name, parent, depth, kind and expansion.
- Sidebar.SidebarState.ToggleFolder: the copy-then-mutate of the JavaScript `Set` is a value update here; sets are values in Dafny, so the previous set is never altered.
- GitHub sign-in, repository creation, the split pane, the terminal, the editor wrapper and the page layout are UI, HTTP or library glue and are not part of this model.
