/** Locating the JSON candidate in the model's reply: first the pattern
    "```json" \s* ( \{ .*? \} ) \s* "```" (dot matching newlines), and only
    when it matches nowhere the pattern \{ .* \}. */
module Extraction {
  import opened Wrappers

  /** Python's `\s` in a str pattern: the characters for which `str.isspace()`
      holds. */
  predicate IsSpace(c: char) {
    || '\t' <= c <= '\r'
    || '\U{1C}' <= c <= '\U{1F}'
    || c == ' '
    || c == '\U{85}'
    || c == '\U{A0}'
    || c == '\U{1680}'
    || '\U{2000}' <= c <= '\U{200A}'
    || c == '\U{2028}'
    || c == '\U{2029}'
    || c == '\U{202F}'
    || c == '\U{205F}'
    || c == '\U{3000}'
  }

  const OpenFence: string := "```json"
  const CloseFence: string := "```"

  /** `s[i..i + 7] == OpenFence`, character by character. */
  predicate OpenFenceAt(s: string, i: nat) {
    && i + 7 <= |s|
    && s[i] == '`' && s[i + 1] == '`' && s[i + 2] == '`'
    && s[i + 3] == 'j' && s[i + 4] == 's' && s[i + 5] == 'o' && s[i + 6] == 'n'
  }

  /** `s[i..i + 3] == CloseFence`, character by character. */
  predicate CloseFenceAt(s: string, i: nat) {
    i + 3 <= |s| && s[i] == '`' && s[i + 1] == '`' && s[i + 2] == '`'
  }

  lemma FenceAtMeansSlice(s: string, i: nat)
    ensures OpenFenceAt(s, i) <==> i + |OpenFence| <= |s| && s[i..i + |OpenFence|] == OpenFence
    ensures CloseFenceAt(s, i) <==> i + |CloseFence| <= |s| && s[i..i + |CloseFence|] == CloseFence
  {
    if i + |OpenFence| <= |s| && s[i..i + |OpenFence|] == OpenFence {
      assert forall j :: 0 <= j < 7 ==> s[i + j] == OpenFence[j];
    }
    if i + |CloseFence| <= |s| && s[i..i + |CloseFence|] == CloseFence {
      assert forall j :: 0 <= j < 3 ==> s[i + j] == CloseFence[j];
    }
  }

  /** The index where a greedy `\s*` starting at `i` stops. */
  function SkipSpace(s: string, i: nat): (r: nat)
    requires i <= |s|
    ensures i <= r <= |s|
    ensures forall j :: i <= j < r ==> IsSpace(s[j])
    ensures r == |s| || !IsSpace(s[r])
    decreases |s| - i
  {
    if i == |s| || !IsSpace(s[i]) then i else SkipSpace(s, i + 1)
  }

  /** "```json" at `i`, then whitespace, then `{`. Since neither `{` nor a
      backquote is whitespace, `\s*` cannot give anything back, so the
      position of that `{` is fixed: `OpenBrace(s, i)`. */
  predicate OpensAt(s: string, i: nat) {
    && OpenFenceAt(s, i)
    && SkipSpace(s, i + 7) < |s|
    && s[SkipSpace(s, i + 7)] == '{'
  }

  function OpenBrace(s: string, i: nat): nat
    requires i + 7 <= |s|
  {
    SkipSpace(s, i + 7)
  }

  /** `}` at `q`, then whitespace, then "```". */
  predicate ClosesAt(s: string, q: nat) {
    && q < |s|
    && s[q] == '}'
    && CloseFenceAt(s, SkipSpace(s, q + 1))
  }

  /** The fenced pattern matches from `i` with the braced group ending at `q`. */
  predicate FenceMatch(s: string, i: nat, q: nat) {
    OpensAt(s, i) && OpenBrace(s, i) < q && ClosesAt(s, q)
  }

  ghost predicate HasFenceMatch(s: string, i: nat) {
    exists q: nat :: FenceMatch(s, i, q)
  }

  /** The earliest `q >= j` at which the fence closes: the non-greedy `.*?`. */
  function FindClose(s: string, j: nat): (r: Option<nat>)
    requires j <= |s|
    ensures r.Some? ==> j <= r.value && ClosesAt(s, r.value)
    ensures r.Some? ==> forall q :: j <= q < r.value ==> !ClosesAt(s, q)
    ensures r.None? ==> forall q :: j <= q ==> !ClosesAt(s, q)
    decreases |s| - j
  {
    if j == |s| then None
    else if ClosesAt(s, j) then Some(j)
    else FindClose(s, j + 1)
  }

  /** The fenced pattern matches from `i`, as the matcher decides it. */
  predicate MatchesAt(s: string, i: nat) {
    OpensAt(s, i) && FindClose(s, OpenBrace(s, i) + 1).Some?
  }

  /** The matcher's decision agrees with the pattern: it matches from `i`
      exactly when some brace ends the group, and then it picks the earliest. */
  lemma MatchesAtIff(s: string, i: nat)
    ensures MatchesAt(s, i) <==> HasFenceMatch(s, i)
    ensures MatchesAt(s, i) ==> FenceMatch(s, i, FindClose(s, OpenBrace(s, i) + 1).value)
  {
    if HasFenceMatch(s, i) {
      var q: nat :| FenceMatch(s, i, q);
      assert OpenBrace(s, i) + 1 <= q < |s|;
    }
    if MatchesAt(s, i) {
      assert FenceMatch(s, i, FindClose(s, OpenBrace(s, i) + 1).value);
    }
  }

  /** `re.search` for the fenced pattern from position `i` on: the leftmost
      start at which it matches. */
  function FindFence(s: string, i: nat): (r: Option<nat>)
    requires i <= |s|
    ensures r.Some? ==> i <= r.value && MatchesAt(s, r.value)
    ensures r.Some? ==> forall k :: i <= k < r.value ==> !MatchesAt(s, k)
    ensures r.None? ==> forall k :: i <= k ==> !MatchesAt(s, k)
    decreases |s| - i
  {
    if i == |s| then None
    else if MatchesAt(s, i) then Some(i)
    else FindFence(s, i + 1)
  }

  /** A candidate is the half-open range `[start, end)` of the reply. */
  datatype Span = Span(start: nat, end: nat)

  /** The first occurrence of `c` at or after `i`. */
  function FirstFrom(s: string, c: char, i: nat): (r: Option<nat>)
    requires i <= |s|
    ensures r.Some? ==> i <= r.value < |s| && s[r.value] == c
    ensures r.Some? ==> forall j :: i <= j < r.value ==> s[j] != c
    ensures r.None? ==> forall j :: i <= j < |s| ==> s[j] != c
    decreases |s| - i
  {
    if i == |s| then None
    else if s[i] == c then Some(i)
    else FirstFrom(s, c, i + 1)
  }

  /** The last occurrence of `c` before `n`. */
  function LastBefore(s: string, c: char, n: nat): (r: Option<nat>)
    requires n <= |s|
    ensures r.Some? ==> r.value < n && s[r.value] == c
    ensures r.Some? ==> forall j :: r.value < j < n ==> s[j] != c
    ensures r.None? ==> forall j :: 0 <= j < n ==> s[j] != c
  {
    if n == 0 then None
    else if s[n - 1] == c then Some(n - 1)
    else LastBefore(s, c, n - 1)
  }

  /** Stage one: the braced group of the leftmost fenced match. */
  function Fenced(s: string): (r: Option<Span>)
    ensures r.Some? ==> r.value.start + 2 <= r.value.end <= |s|
    ensures r.Some? ==> s[r.value.start] == '{' && s[r.value.end - 1] == '}'
  {
    match FindFence(s, 0)
    case Some(i) =>
      MatchesAtIff(s, i);
      Some(Span(OpenBrace(s, i), FindClose(s, OpenBrace(s, i) + 1).value + 1))
    case None => None
  }

  /** Stage two, `\{.*\}` with a greedy dot: from the first `{` of the text to
      its last `}`. */
  function Fallback(s: string): (r: Option<Span>)
    ensures r.Some? <==> exists a, b :: 0 <= a < b < |s| && s[a] == '{' && s[b] == '}'
    ensures r.Some? ==> r.value.start + 2 <= r.value.end <= |s|
    ensures r.Some? ==> s[r.value.start] == '{' && forall j :: 0 <= j < r.value.start ==> s[j] != '{'
    ensures r.Some? ==> s[r.value.end - 1] == '}' && forall j :: r.value.end <= j < |s| ==> s[j] != '}'
  {
    match FirstFrom(s, '{', 0)
    case None => None
    case Some(a) =>
      match LastBefore(s, '}', |s|)
      case Some(b) =>
        if a < b then Some(Span(a, b + 1)) else None
      case None => None
  }

  /** The candidate JSON text of a reply, or `None` ("No JSON found in
      response"). Every candidate is a stretch of the reply that begins with
      `{` and ends with `}`. */
  function Extract(s: string): (r: Option<Span>)
    ensures r.Some? ==> r.value.start + 2 <= r.value.end <= |s|
    ensures r.Some? ==> s[r.value.start] == '{' && s[r.value.end - 1] == '}'
  {
    match Fenced(s)
    case Some(sp) => Some(sp)
    case None => Fallback(s)
  }

  /** The text of a candidate. */
  function Candidate(s: string, sp: Span): string
    requires sp.start <= sp.end <= |s|
  {
    s[sp.start..sp.end]
  }

  /** The search finds a fence at `i` when one matches there and none
      matches before. */
  lemma LeftmostFence(s: string, i: nat)
    requires MatchesAt(s, i)
    requires forall k: nat :: k < i ==> !MatchesAt(s, k)
    ensures FindFence(s, 0) == Some(i)
  {
    var h := FindFence(s, 0);
    assert h.Some?;
    assert !(h.value < i);
  }

  /** The earliest close from `j` is `q` when `q` closes and nothing between
      does. */
  lemma EarliestClose(s: string, j: nat, q: nat)
    requires j <= q && ClosesAt(s, q)
    requires forall q' :: j <= q' < q ==> !ClosesAt(s, q')
    ensures j <= |s| && FindClose(s, j) == Some(q)
  {
    var c := FindClose(s, j);
    assert c.Some?;
    assert !(c.value < q);
  }

  /** Precedence of the fence: once some fence matches, the candidate is the
      group of the leftmost matching fence, cut at its earliest closing brace,
      whatever braces the rest of the text holds. */
  lemma FencePrecedence(s: string, i: nat, q: nat)
    requires FenceMatch(s, i, q)
    requires forall k: nat :: k < i ==> !HasFenceMatch(s, k)
    requires forall q' :: OpenBrace(s, i) < q' < q ==> !ClosesAt(s, q')
    ensures Extract(s) == Some(Span(OpenBrace(s, i), q + 1))
  {
    MatchesAtIff(s, i);
    NoEarlierMatch(s, i);
    LeftmostFence(s, i);
    EarliestClose(s, OpenBrace(s, i) + 1, q);
    FencedAt(s, i);
  }

  /** What stage one returns once the search has found the fence at `i`. */
  lemma FencedAt(s: string, i: nat)
    requires FindFence(s, 0) == Some(i)
    ensures OpenBrace(s, i) + 1 <= |s| && FindClose(s, OpenBrace(s, i) + 1).Some?
    ensures Extract(s) == Some(Span(OpenBrace(s, i), FindClose(s, OpenBrace(s, i) + 1).value + 1))
  {
  }

  lemma NoEarlierMatch(s: string, i: nat)
    requires forall k: nat :: k < i ==> !HasFenceMatch(s, k)
    ensures forall k: nat :: k < i ==> !MatchesAt(s, k)
  {
    forall k: nat | k < i ensures !MatchesAt(s, k) {
      MatchesAtIff(s, k);
    }
  }

  /** Without a matching fence the candidate is exactly the bare-brace span. */
  lemma NoFenceFallback(s: string)
    requires forall k: nat :: !HasFenceMatch(s, k)
    ensures Extract(s) == Fallback(s)
  {
    var h := FindFence(s, 0);
    MatchesAtIff(s, if h.Some? then h.value else 0);
  }

  /** "No JSON found" happens exactly when no fence matches and no `}` follows
      any `{`. */
  lemma NoCandidateIff(s: string)
    ensures Extract(s).None? <==>
      (forall k: nat :: !HasFenceMatch(s, k)) && !(exists a, b :: 0 <= a < b < |s| && s[a] == '{' && s[b] == '}')
  {
    var h := FindFence(s, 0);
    MatchesAtIff(s, if h.Some? then h.value else 0);
    forall k: nat | HasFenceMatch(s, k) ensures Extract(s).Some? {
      MatchesAtIff(s, k);
    }
  }
}
