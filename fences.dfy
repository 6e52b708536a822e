/** The fenced-block regular expressions of the extractors, written out as
    explicit searches. Each has the shape
      "```" + tag + "\n" + ([\s\S]*?) + "```"
    and JavaScript's `String.prototype.match` returns the leftmost match, whose
    lazy capture ends at the first "```" after the opener. */
module Fences {
  import opened Text

  /** The five patterns used in the source. */
  datatype Pattern =
    | HtmlBlock        // /```html\n([\s\S]*?)```/
    | CssBlock         // /```css\n([\s\S]*?)```/
    | JavascriptBlock  // /```javascript\n([\s\S]*?)```/
    | ScriptBlock      // /```(?:javascript|typescript)\n([\s\S]*?)```/
    | AnyBlock         // /```(?:\w+)?\n([\s\S]*?)```/

  /** The literal tags a tagged pattern accepts, in the order the alternation
      tries them. */
  function Tags(p: Pattern): seq<string>
    requires !p.AnyBlock?
  {
    match p
    case HtmlBlock => ["html"]
    case CssBlock => ["css"]
    case JavascriptBlock => ["javascript"]
    case ScriptBlock => ["javascript", "typescript"]
  }

  /** The opening line of a block tagged t. */
  function Opener(t: string): string
  {
    "```" + t + "\n"
  }

  predicate IsWordTag(t: string)
  {
    forall k :: 0 <= k < |t| ==> IsWordChar(t[k])
  }

  /** What every opener looks like: a fence at i, then word characters, then
      a line feed just before b. */
  predicate OpenerShape(s: string, i: int, b: int)
  {
    FenceAt(s, i) && i + 4 <= b <= |s| && s[b - 1] == '\n' &&
    forall k :: i + 3 <= k < b - 1 ==> IsWordChar(s[k])
  }

  lemma OpenerHasShape(s: string, i: nat, t: string)
    requires IsWordTag(t) && StartsAt(s, i, Opener(t))
    ensures OpenerShape(s, i, i + |t| + 4)
  {
    var o := Opener(t);
    assert s[i..i + |o|] == o;
    assert s[i] == o[0] && s[i + 1] == o[1] && s[i + 2] == o[2];
    assert s[i + |t| + 3] == o[|t| + 3];
    forall k | i + 3 <= k < i + |t| + 3
      ensures IsWordChar(s[k])
    {
      assert s[k] == o[k - i] == t[k - i - 3];
    }
  }

  /** The end of the opener of a tagged alternation at i: the first tag in
      tags whose opener starts at i decides. */
  function TaggedOpenerEnd(tags: seq<string>, s: string, i: nat): (r: Option<nat>)
    requires forall t :: t in tags ==> IsWordTag(t)
    ensures r.Some? ==> OpenerShape(s, i, r.value)
    ensures r.Some? ==> exists t :: t in tags && StartsAt(s, i, Opener(t)) && r.value == i + |Opener(t)|
    ensures r.None? ==> forall t :: t in tags ==> !StartsAt(s, i, Opener(t))
  {
    if tags == [] then None
    else if StartsAt(s, i, Opener(tags[0])) then
      OpenerHasShape(s, i, tags[0]);
      Some(i + |tags[0]| + 4)
    else TaggedOpenerEnd(tags[1..], s, i)
  }

  /** The index just after the opener of pattern p at i, if one starts there.
      For `(?:\w+)?\n` the optional tag can only be the whole run of word
      characters, since a line feed must follow it. */
  function OpenerEnd(p: Pattern, s: string, i: nat): (r: Option<nat>)
    ensures r.Some? ==> OpenerShape(s, i, r.value)
  {
    if p.AnyBlock? then
      if FenceAt(s, i) then
        var w := WordRun(s, i + 3);
        if i + 3 + w < |s| && s[i + 3 + w] == '\n' then Some(i + 4 + w) else None
      else None
    else
      assert forall t :: t in Tags(p) ==> IsWordTag(t);
      TaggedOpenerEnd(Tags(p), s, i)
  }

  /** A regex match: the opener starts at open (the match index) and the
      captured body is s[start..end], followed by the closing fence. */
  datatype Span = Span(open: nat, start: nat, end: nat)

  /** The match of p that starts exactly at i, if any. */
  function MatchAt(p: Pattern, s: string, i: nat): (r: Option<Span>)
    ensures r.Some? ==> r.value.open == i
  {
    match OpenerEnd(p, s, i)
    case None => None
    case Some(b) =>
      match NextFence(s, b)
      case None => None
      case Some(e) => Some(Span(i, b, e))
  }

  /** A match is an opener, then a body without a fence, then the closing
      fence. */
  lemma MatchAtShape(p: Pattern, s: string, i: nat)
    requires MatchAt(p, s, i).Some?
    ensures var m := MatchAt(p, s, i).value;
      OpenerShape(s, i, m.start) && m.start <= m.end && FenceAt(s, m.end) &&
      forall j :: m.start <= j < m.end ==> !FenceAt(s, j)
  {
  }

  /** The leftmost match of p at or after position i. */
  function SearchFrom(p: Pattern, s: string, i: nat): (r: Option<Span>)
    requires i <= |s|
    ensures r.Some? ==> i <= r.value.open <= |s| && MatchAt(p, s, r.value.open) == r
    ensures forall k :: i <= k <= |s| && (r.None? || k < r.value.open) ==> MatchAt(p, s, k).None?
    decreases |s| - i
  {
    var m := MatchAt(p, s, i);
    if m.Some? then
      assert m.value.open == i;
      m
    else if i == |s| then None
    else SearchFrom(p, s, i + 1)
  }

  /** `s.match(p)` with the regex semantics: the leftmost match. */
  function Search(p: Pattern, s: string): (r: Option<Span>)
    ensures r.Some? ==> r.value.open <= |s| && MatchAt(p, s, r.value.open) == r
    ensures forall k :: 0 <= k <= |s| && (r.None? || k < r.value.open) ==> MatchAt(p, s, k).None?
  {
    SearchFrom(p, s, 0)
  }

  /** `match[1]`: the captured body of the leftmost match, which never holds
      a fence. */
  function Capture(p: Pattern, s: string): (r: Option<string>)
    ensures r.Some? ==> FenceFree(r.value)
  {
    match Search(p, s)
    case None => None
    case Some(sp) =>
      MatchAtShape(p, s, sp.open);
      FenceFreeSlice(s, sp.start, sp.end);
      Some(s[sp.start..sp.end])
  }

  /** No fence starts strictly inside an opener: after its three backticks
      come only word characters and a line feed. */
  lemma NoFenceInsideOpener(s: string, i: nat, b: nat)
    requires OpenerShape(s, i, b)
    ensures forall k :: i < k < b ==> !FenceAt(s, k)
  {
    assert s[i + 3] != '`' by {
      if i + 3 < b - 1 { assert IsWordChar(s[i + 3]); }
    }
    forall k | i + 3 <= k < b
      ensures s[k] != '`'
    {
      if k < b - 1 { assert IsWordChar(s[k]); }
    }
  }

  /** The leftmost opener alone decides the match: if a closing fence
      follows it, the capture is the text up to the first such fence; if none
      does, no later opener can have one either, so nothing matches. */
  lemma FirstOpenerDecides(p: Pattern, s: string, i: nat, b: nat)
    requires OpenerEnd(p, s, i) == Some(b)
    requires forall j :: 0 <= j < i ==> OpenerEnd(p, s, j).None?
    ensures NextFence(s, b).Some? ==>
      Search(p, s) == Some(Span(i, b, NextFence(s, b).value)) &&
      Capture(p, s) == Some(s[b..NextFence(s, b).value])
    ensures NextFence(s, b).None? ==> Search(p, s).None? && Capture(p, s).None?
  {
    if NextFence(s, b).None? {
      FirstOpenerUnclosed(p, s, i, b);
    } else {
      FirstOpenerClosed(p, s, i, b);
    }
  }

  lemma FirstOpenerClosed(p: Pattern, s: string, i: nat, b: nat)
    requires OpenerEnd(p, s, i) == Some(b) && NextFence(s, b).Some?
    requires forall j :: 0 <= j < i ==> OpenerEnd(p, s, j).None?
    ensures Search(p, s) == Some(Span(i, b, NextFence(s, b).value))
  {
    var e := NextFence(s, b).value;
    var r := Search(p, s);
    assert MatchAt(p, s, i) == Some(Span(i, b, e));
    assert r.Some? && r.value.open <= i;
    assert OpenerEnd(p, s, r.value.open).Some?;
    assert r.value.open == i;
  }

  lemma FirstOpenerUnclosed(p: Pattern, s: string, i: nat, b: nat)
    requires OpenerEnd(p, s, i) == Some(b) && NextFence(s, b).None?
    requires forall j :: 0 <= j < i ==> OpenerEnd(p, s, j).None?
    ensures Search(p, s).None?
  {
    NoFenceInsideOpener(s, i, b);
    forall k | 0 <= k <= |s|
      ensures MatchAt(p, s, k).None?
    {
      if k > i {
        assert !FenceAt(s, k);
      }
    }
  }

  /** Without an opener anywhere there is no match. */
  lemma NoOpenerNoCapture(p: Pattern, s: string)
    requires forall j :: 0 <= j <= |s| ==> OpenerEnd(p, s, j).None?
    ensures Capture(p, s).None?
  {
    assert forall k :: 0 <= k <= |s| ==> MatchAt(p, s, k).None?;
  }

  /** A fence-free string matches no pattern, since every opener begins with
      a fence. */
  lemma FenceFreeNoCapture(p: Pattern, s: string)
    requires FenceFree(s)
    ensures Capture(p, s).None?
  {
    forall k | 0 <= k <= |s|
      ensures OpenerEnd(p, s, k).None?
    {
      assert !FenceAt(s, k);
    }
    NoOpenerNoCapture(p, s);
  }

  /** The run of word characters at k is exactly n long when n word
      characters are followed by a non-word character. */
  lemma {:induction false} WordRunExact(s: string, k: nat, n: nat)
    requires k + n < |s| && !IsWordChar(s[k + n])
    requires forall j :: k <= j < k + n ==> IsWordChar(s[j])
    ensures WordRun(s, k) == n
    decreases n
  {
    if n > 0 {
      WordRunExact(s, k + 1, n - 1);
    }
  }

  /** Every tagged opener is also an opener of the any-word pattern, ending
      at the same place: its tag is a whole run of word characters. */
  lemma AnyOpenerSubsumes(p: Pattern, s: string, i: nat, b: nat)
    requires OpenerEnd(p, s, i) == Some(b)
    ensures OpenerEnd(AnyBlock, s, i) == Some(b)
  {
    WordRunExact(s, i + 3, b - i - 4);
  }

  /** If the any-word pattern finds nothing, no tagged pattern does either. */
  lemma NoAnyCaptureNoCapture(p: Pattern, s: string)
    requires Capture(AnyBlock, s).None?
    ensures Capture(p, s).None?
  {
    assert Search(AnyBlock, s).None?;
    forall k | 0 <= k <= |s|
      ensures MatchAt(p, s, k).None?
    {
      if OpenerEnd(p, s, k).Some? {
        AnyOpenerSubsumes(p, s, k, OpenerEnd(p, s, k).value);
        assert MatchAt(AnyBlock, s, k).None?;
      }
    }
  }
}
