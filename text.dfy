/** String primitives shared by the code-block extractors: the "```" fence,
    word characters as in the regular-expression class \w, substring search,
    and the whitespace trim applied to every extracted block. */
module Text {

  /** True when s[i..i+3] is a fence of three backticks. */
  predicate FenceAt(s: string, i: int)
  {
    0 <= i && i + 3 <= |s| && s[i] == '`' && s[i + 1] == '`' && s[i + 2] == '`'
  }

  /** A string in which no fence starts anywhere. */
  ghost predicate FenceFree(s: string)
  {
    forall j :: !FenceAt(s, j)
  }

  /** The index of the first fence that starts at or after i, if any; this is
      how the lazy `[\s\S]*?` before a closing fence settles on its end. */
  function NextFence(s: string, i: nat): (r: Option<nat>)
    requires i <= |s|
    ensures r.Some? ==> i <= r.value && FenceAt(s, r.value)
    ensures r.Some? ==> forall j :: i <= j < r.value ==> !FenceAt(s, j)
    ensures r.None? ==> forall j :: i <= j ==> !FenceAt(s, j)
    decreases |s| - i
  {
    if i + 3 > |s| then None
    else if FenceAt(s, i) then Some(i)
    else NextFence(s, i + 1)
  }

  datatype Option<T> = None | Some(value: T)

  /** The characters matched by \w: ASCII letters, digits and underscore. */
  predicate IsWordChar(c: char)
  {
    ('a' <= c <= 'z') || ('A' <= c <= 'Z') || ('0' <= c <= '9') || c == '_'
  }

  /** The length of the run of word characters starting at k. */
  function WordRun(s: string, k: nat): (w: nat)
    requires k <= |s|
    ensures k + w <= |s|
    ensures forall j :: k <= j < k + w ==> IsWordChar(s[j])
    ensures k + w == |s| || !IsWordChar(s[k + w])
    decreases |s| - k
  {
    if k < |s| && IsWordChar(s[k]) then 1 + WordRun(s, k + 1) else 0
  }

  /** True when the pattern p occurs in s starting at index i. */
  predicate StartsAt(s: string, i: int, p: string)
  {
    0 <= i && i + |p| <= |s| && s[i..i + |p|] == p
  }

  /** `String.prototype.includes` restricted to positions from i on. */
  function IncludesFrom(s: string, p: string, i: nat): (r: bool)
    requires i <= |s|
    ensures r <==> exists k :: i <= k && StartsAt(s, k, p)
    decreases |s| - i
  {
    if StartsAt(s, i, p) then true
    else if i + |p| >= |s| then false
    else IncludesFrom(s, p, i + 1)
  }

  /** `s.includes(p)`. */
  function Includes(s: string, p: string): (r: bool)
    ensures r <==> exists k :: StartsAt(s, k, p)
  {
    IncludesFrom(s, p, 0)
  }

  /** The whitespace removed by trim in this model: space, tab, line feed,
      carriage return, form feed and vertical tab. */
  predicate IsSpace(c: char)
  {
    c == ' ' || c == '\t' || c == '\n' || c == '\r' || c == '\U{C}' || c == '\U{B}'
  }

  /** Neither end of s is whitespace. */
  predicate IsTrimmed(s: string)
  {
    s == [] || (!IsSpace(s[0]) && !IsSpace(s[|s| - 1]))
  }

  /** s without its leading whitespace: a suffix of s, preceded only by
      whitespace, that does not itself start with whitespace. */
  function TrimStart(s: string): (r: string)
    ensures |r| <= |s| && r == s[|s| - |r|..]
    ensures forall k :: 0 <= k < |s| - |r| ==> IsSpace(s[k])
    ensures r == [] || !IsSpace(r[0])
  {
    if |s| > 0 && IsSpace(s[0]) then TrimStart(s[1..]) else s
  }

  /** s without its trailing whitespace: a prefix of s, followed only by
      whitespace, that does not itself end with whitespace. */
  function TrimEnd(s: string): (r: string)
    ensures |r| <= |s| && r == s[..|r|]
    ensures forall k :: |r| <= k < |s| ==> IsSpace(s[k])
    ensures r == [] || !IsSpace(r[|r| - 1])
  {
    if |s| > 0 && IsSpace(s[|s| - 1]) then TrimEnd(s[..|s| - 1]) else s
  }

  /** `String.prototype.trim` over the whitespace set above: the leading
      and then the trailing whitespace removed. */
  function Trim(s: string): (r: string)
    ensures IsTrimmed(r)
    ensures |r| <= |s|
  {
    TrimEnd(TrimStart(s))
  }

  /** What trim keeps is the contiguous slice s[a..a+|r|] and everything it
      removes is whitespace: a run at the front, a run at the back. */
  lemma TrimIsSlice(s: string)
    ensures var r := Trim(s); var a := |s| - |TrimStart(s)|;
      a + |r| <= |s| && r == s[a..a + |r|] &&
      (forall k :: 0 <= k < a ==> IsSpace(s[k])) &&
      (forall k :: a + |r| <= k < |s| ==> IsSpace(s[k]))
  {
    var t := TrimStart(s);
    var r := TrimEnd(t);
    var a := |s| - |t|;
    assert t == s[a..];
    assert r == t[..|r|];
    assert r == s[a..a + |r|];
    forall k | a + |r| <= k < |s|
      ensures IsSpace(s[k])
    {
      assert s[k] == t[k - a];
    }
  }

  /** A string with no whitespace at either end is left as it is by trim. */
  lemma TrimOfTrimmed(s: string)
    requires IsTrimmed(s)
    ensures Trim(s) == s
  {
    assert TrimStart(s) == s;
  }

  /** trim is idempotent. */
  lemma TrimIdempotent(s: string)
    ensures Trim(Trim(s)) == Trim(s)
  {
    TrimOfTrimmed(Trim(s));
  }

  /** A slice of a string is fence-free when no fence of the whole string
      starts inside the slice with room to finish in it. */
  lemma FenceFreeSlice(s: string, a: nat, b: nat)
    requires a <= b <= |s|
    requires forall j :: a <= j < b ==> !FenceAt(s, j)
    ensures FenceFree(s[a..b])
  {
    var t := s[a..b];
    forall j | 0 <= j && j + 3 <= |t|
      ensures !FenceAt(t, j)
    {
      assert !FenceAt(s, a + j);
      assert t[j] == s[a + j] && t[j + 1] == s[a + j + 1] && t[j + 2] == s[a + j + 2];
    }
  }

  /** trim keeps a fence-free string fence-free: each of its two steps
      keeps a slice. */
  lemma TrimFenceFree(s: string)
    requires FenceFree(s)
    ensures FenceFree(Trim(s))
  {
    var t := TrimStart(s);
    FenceFreeSlice(s, |s| - |t|, |s|);
    assert s[|s| - |t|..|s|] == t;
    FenceFreeSlice(t, 0, |TrimEnd(t)|);
    assert t[0..|TrimEnd(t)|] == TrimEnd(t);
  }
}
