/**
 `extract_code`: the first fenced block of a model reply, found with
 `re.search(r"```(?:\w+\n)?(.*?)```", text, re.DOTALL)` and its group 1.

 The regex is a loose simplification of a CommonMark fenced code block
 (section 4.5 of the CommonMark specification): the opening fence is exactly
 three backticks anywhere in the text, the info string is one word directly
 followed by a newline, and the block ends at the next three backticks.
 */
module CodeFence {
  import opened Wrappers
  import opened Text

  const Fence: string := "```"

  predicate FenceAt(s: string, i: int) { OccursAt(s, Fence, i) }

  // ---------------------------------------------------------------------
  // Reference semantics of the regex
  // ---------------------------------------------------------------------

  /** `s[a..p]` is a tag line `\w+\n`. */
  predicate TagLineAt(s: string, a: int, p: int) {
    && 0 <= a && a + 2 <= p <= |s|
    && s[p - 1] == '\n'
    && forall k :: a <= k < p - 1 ==> IsWordChar(s[k])
  }

  /**
   A way the regex can match `s`: an opening fence at `i`, group 1 spanning
   `s[p..j]` (after the optional tag line), and a closing fence at `j`.
   */
  predicate Candidate(s: string, i: int, p: int, j: int) {
    && FenceAt(s, i)
    && (p == i + 3 || TagLineAt(s, i + 3, p))
    && p <= j
    && FenceAt(s, j)
  }

  /**
   The match `re.search` reports: the leftmost start; at that start the tag
   line is taken whenever some match takes it (the optional group is greedy);
   and the closing fence is the first one after the group starts (`.*?` is lazy).
   */
  ghost predicate Selected(s: string, i: int, p: int, j: int) {
    && Candidate(s, i, p, j)
    && Leftmost(s, i)
    && (p == i + 3 ==> Untagged(s, i))
    && (forall j' :: p <= j' < j ==> !FenceAt(s, j'))
  }

  /** No match starts before `i`. */
  ghost predicate Leftmost(s: string, i: int) {
    forall i', p', j' :: i' < i ==> !Candidate(s, i', p', j')
  }

  /** No match starting at `i` takes a tag line. */
  ghost predicate Untagged(s: string, i: int) {
    forall p', j' :: Candidate(s, i, p', j') ==> p' == i + 3
  }

  // ---------------------------------------------------------------------
  // The extraction
  // ---------------------------------------------------------------------

  /** Number of word characters starting at `a`. */
  function WordRun(s: string, a: nat): (n: nat)
    requires a <= |s|
    ensures a + n <= |s|
    ensures forall k :: a <= k < a + n ==> IsWordChar(s[k])
    ensures a + n == |s| || !IsWordChar(s[a + n])
    decreases |s| - a
  {
    if a < |s| && IsWordChar(s[a]) then 1 + WordRun(s, a + 1) else 0
  }

  /** Length of the tag line `\w+\n` at `a`, or 0 when there is none. */
  function TagLength(s: string, a: nat): nat
    requires a <= |s|
  {
    var w := WordRun(s, a);
    if w > 0 && a + w < |s| && s[a + w] == '\n' then w + 1 else 0
  }

  /**
   Where the regex matches: the opening fence `i`, and group 1 as `s[p..j]`.
   The opening fence is the first one in the text; the group starts after
   it and its tag line, if any; it ends at the next fence.
   */
  function MatchBounds(s: string): Option<(nat, nat, nat)> {
    match IndexOf(s, Fence, 0)
    case None => None
    case Some(i) =>
      var p := i + 3 + TagLength(s, i + 3);
      match IndexOf(s, Fence, p)
      case None => None
      case Some(j) => Some((i, p, j))
  }

  /** `extract_code(output)`: group 1 of the first match, or `None`. */
  function ExtractCode(s: string): (r: Option<string>)
    ensures r.Some? ==> !Contains(r.value, Fence)
  {
    match MatchBounds(s)
    case None => None
    case Some((i, p, j)) =>
      NoFenceInside(s, p, j);
      Some(s[p..j])
  }

  lemma FenceInSlice(s: string, p: nat, j: nat, k: int)
    requires p <= j <= |s|
    requires OccursAt(s[p..j], Fence, k)
    ensures FenceAt(s, p + k)
  {
    var t := s[p..j];
    assert |Fence| == 3 && 0 <= k && k + 3 <= |t|;
    assert t[k] == s[p + k] && t[k + 1] == s[p + k + 1] && t[k + 2] == s[p + k + 2];
    assert t[k..k + 3] == [t[k], t[k + 1], t[k + 2]];
    assert s[p + k..p + k + 3] == [s[p + k], s[p + k + 1], s[p + k + 2]];
  }

  lemma NoFenceInside(s: string, p: nat, j: nat)
    requires p <= j <= |s|
    requires forall k :: p <= k < j ==> !FenceAt(s, k)
    ensures !Contains(s[p..j], Fence)
  {
    forall k | OccursAt(s[p..j], Fence, k)
      ensures false
    {
      FenceInSlice(s, p, j, k);
    }
  }

  // ---------------------------------------------------------------------
  // Agreement with the regex
  // ---------------------------------------------------------------------

  lemma FenceStartsWithBacktick(s: string, j: int)
    requires FenceAt(s, j)
    ensures s[j] == '`'
  {
    assert s[j..j + 3][0] == s[j];
  }

  /** The tag line, when present, is unique and is the one `TagLength` measures. */
  lemma TagLengthSpec(s: string, a: nat)
    requires a <= |s|
    ensures TagLength(s, a) > 0 ==> TagLineAt(s, a, a + TagLength(s, a))
    ensures forall p :: TagLineAt(s, a, p) ==> p == a + TagLength(s, a)
  {
    var w := WordRun(s, a);
    forall p | TagLineAt(s, a, p)
      ensures p == a + TagLength(s, a)
    {
      assert !IsWordChar(s[p - 1]);
    }
  }

  /** No closing fence can start inside the opening fence's tag line. */
  lemma NoFenceInTag(s: string, a: nat, j: int)
    requires a <= |s| && a <= j < a + TagLength(s, a)
    ensures !FenceAt(s, j)
  {
    TagLengthSpec(s, a);
    if FenceAt(s, j) {
      FenceStartsWithBacktick(s, j);
    }
  }

  /** Every candidate starts at or after the first fence and closes at or after `p`. */
  lemma CandidatesAfterFirstFence(s: string, i: nat)
    requires IndexOf(s, Fence, 0) == Some(i)
    ensures forall i', p', j' :: Candidate(s, i', p', j') ==>
      i <= i' && i + 3 + TagLength(s, i + 3) <= j'
  {
    var p := i + 3 + TagLength(s, i + 3);
    forall i', p', j' | Candidate(s, i', p', j')
      ensures i <= i' && p <= j'
    {
      if j' < p { NoFenceInTag(s, i + 3, j'); }
    }
  }

  /** The first fence and the first fence after its group start make the selected match. */
  lemma {:induction false} FirstFencesSelected(s: string, i: nat, j: nat)
    requires IndexOf(s, Fence, 0) == Some(i)
    requires IndexOf(s, Fence, i + 3 + TagLength(s, i + 3)) == Some(j)
    ensures Selected(s, i, i + 3 + TagLength(s, i + 3), j)
  {
    var p := i + 3 + TagLength(s, i + 3);
    TagLengthSpec(s, i + 3);
    CandidatesAfterFirstFence(s, i);
    assert Candidate(s, i, p, j);
    assert Leftmost(s, i);
    assert p == i + 3 ==> Untagged(s, i);
  }

  /** Without a fence at or after the group start, the regex finds no match at all. */
  lemma NoClosingFence(s: string, i: nat)
    requires IndexOf(s, Fence, 0) == Some(i)
    requires IndexOf(s, Fence, i + 3 + TagLength(s, i + 3)).None?
    ensures forall i', p', j' :: !Candidate(s, i', p', j')
  {
    CandidatesAfterFirstFence(s, i);
  }

  /** The bounds found are those of the match `re.search` selects. */
  lemma MatchBoundsSelected(s: string)
    ensures MatchBounds(s).Some? ==>
      var (i, p, j) := MatchBounds(s).value; Selected(s, i, p, j)
    ensures MatchBounds(s).None? ==> forall i, p, j :: !Candidate(s, i, p, j)
  {
    match IndexOf(s, Fence, 0)
    case None =>
    case Some(i) =>
      var p := i + 3 + TagLength(s, i + 3);
      match IndexOf(s, Fence, p)
      case None =>
        NoClosingFence(s, i);
      case Some(j) =>
        FirstFencesSelected(s, i, j);
  }

  /** The result is group 1 of exactly the match `re.search` selects. */
  lemma ExtractCodeIsSelectedMatch(s: string)
    ensures ExtractCode(s).Some? ==>
      exists i, p, j :: Selected(s, i, p, j) && ExtractCode(s).value == s[p..j]
    ensures ExtractCode(s).None? ==> forall i, p, j :: !Candidate(s, i, p, j)
  {
    MatchBoundsSelected(s);
    if MatchBounds(s).Some? {
      var (i, p, j) := MatchBounds(s).value;
      assert Selected(s, i, p, j) && ExtractCode(s).value == s[p..j];
    }
  }

  /** `extract_code` gives `None` exactly when the text lacks two non-overlapping fences. */
  lemma ExtractCodeNoneIff(s: string)
    ensures ExtractCode(s).None? <==>
      !exists i, j :: i + 3 <= j && FenceAt(s, i) && FenceAt(s, j)
  {
    ExtractCodeIsSelectedMatch(s);
    if exists i, j :: i + 3 <= j && FenceAt(s, i) && FenceAt(s, j) {
      var i, j :| i + 3 <= j && FenceAt(s, i) && FenceAt(s, j);
      assert Candidate(s, i, i + 3, j);
    }
  }

  lemma FenceHere(s: string, i: nat)
    requires i + 3 <= |s| && s[i] == '`' && s[i + 1] == '`' && s[i + 2] == '`'
    ensures FenceAt(s, i)
  {
    assert s[i..i + 3] == Fence;
  }

  lemma NoFenceHere(s: string, i: nat)
    requires i < |s| && s[i] != '`'
    ensures !FenceAt(s, i)
  {
    if FenceAt(s, i) { FenceStartsWithBacktick(s, i); }
  }

  /** Without a tag line the text right after the opening fence, newline included, is kept. */
  lemma UntaggedKeepsNewline()
    ensures ExtractCode("```\nx```") == Some("\nx")
  {
    var s := "```\nx```";
    FenceHere(s, 0);
    FenceHere(s, 5);
    NoFenceHere(s, 3);
    NoFenceHere(s, 4);
    assert WordRun(s, 3) == 0;
    assert MatchBounds(s) == Some((0, 3, 5));
    assert ExtractCode(s) == Some(s[3..5]);
    assert s[3..5] == "\nx";
  }

  /** A one-word tag line is dropped. */
  lemma TaggedDropsTag()
    ensures ExtractCode("```py\nx```") == Some("x")
  {
    var s := "```py\nx```";
    FenceHere(s, 0);
    FenceHere(s, 7);
    NoFenceHere(s, 6);
    assert WordRun(s, 5) == 0;
    assert WordRun(s, 3) == 2;
    assert MatchBounds(s) == Some((0, 6, 7));
    assert ExtractCode(s) == Some(s[6..7]);
    assert s[6..7] == "x";
  }

  /** Four backticks in a row hold no two non-overlapping fences. */
  lemma FourBackticksGiveNone()
    ensures ExtractCode("") == None
    ensures ExtractCode("````") == None
  {
    ExtractCodeNoneIff("````");
  }
}
