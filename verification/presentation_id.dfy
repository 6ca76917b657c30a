/** The server-side URL parser: `extractPresentationId` in
    pages/api/translate.js, i.e. `url.match(/\/presentation\/d\/([a-zA-Z0-9-_]+)/)`
    followed by taking capture group 1, or `null` when there is no match. */
module PresentationId {
  import opened Wrappers

  /** The character class `[a-zA-Z0-9-_]` (the `-` after the range `0-9` is a
      literal hyphen). */
  predicate IsIdChar(c: char) {
    || ('a' <= c <= 'z')
    || ('A' <= c <= 'Z')
    || ('0' <= c <= '9')
    || c == '-'
    || c == '_'
  }

  predicate AllIdChars(s: string) {
    forall k :: 0 <= k < |s| ==> IsIdChar(s[k])
  }

  /** The literal part of the pattern. */
  const Marker: string := "/presentation/d/"

  /** The whole pattern matches with its start at index `i`: the marker, then at
      least one identifier character. */
  predicate MatchesAt(s: string, i: int) {
    && 0 <= i
    && i + |Marker| < |s|
    && s[i..i + |Marker|] == Marker
    && IsIdChar(s[i + |Marker|])
  }

  /** `i` is where a left-to-right regular-expression search first succeeds. */
  predicate IsFirstMatch(s: string, i: int) {
    MatchesAt(s, i) && forall k :: 0 <= k < i ==> !MatchesAt(s, k)
  }

  /** `id` is what the greedy `+` captures at `j`: it occurs at `j`, consists of
      identifier characters only, and the character after it (if any) is not one. */
  predicate IsMaximalRunAt(s: string, j: int, id: string) {
    && 0 <= j
    && j + |id| <= |s|
    && s[j..j + |id|] == id
    && AllIdChars(id)
    && (j + |id| == |s| || !IsIdChar(s[j + |id|]))
  }

  /** What `extractPresentationId` promises: `id` is the greedy capture at the
      leftmost position where the pattern matches. */
  ghost predicate IsExtractionOf(url: string, id: string) {
    exists i :: IsFirstMatch(url, i) && IsMaximalRunAt(url, i + |Marker|, id)
  }

  /** The greedy run of identifier characters starting at `j`. */
  function IdRun(s: string, j: nat): (id: string)
    requires j <= |s|
    ensures IsMaximalRunAt(s, j, id)
    decreases |s| - j
  {
    if j < |s| && IsIdChar(s[j]) then
      var rest := IdRun(s, j + 1);
      assert s[j..j + 1 + |rest|] == [s[j]] + s[j + 1..j + 1 + |rest|];
      [s[j]] + rest
    else
      []
  }

  /** The leftmost match position at or after `from`, if any. */
  function FirstMatchFrom(s: string, from: nat): (r: Option<nat>)
    ensures r.Some? ==> from <= r.value && MatchesAt(s, r.value)
    ensures r.Some? ==> forall k :: from <= k < r.value ==> !MatchesAt(s, k)
    ensures r.None? ==> forall k :: from <= k ==> !MatchesAt(s, k)
    decreases |s| - from
  {
    if |s| <= from + |Marker| then None
    else if MatchesAt(s, from) then Some(from)
    else FirstMatchFrom(s, from + 1)
  }

  /** `extractPresentationId(url)`: `None` stands for the source's `null`. */
  function ExtractPresentationId(url: string): (r: Option<string>)
    ensures r.None? <==> forall i :: !MatchesAt(url, i)
    ensures r.Some? ==> IsExtractionOf(url, r.value)
    ensures r.Some? ==> |r.value| > 0 && AllIdChars(r.value)
  {
    match FirstMatchFrom(url, 0)
    case None => None
    case Some(i) =>
      var id := IdRun(url, i + |Marker|);
      assert IsFirstMatch(url, i);
      Some(id)
  }

  /** A greedy capture is at least as long as any run of identifier
      characters at the same position. */
  lemma MaximalRunIsLongest(s: string, j: int, a: string, b: string)
    requires IsMaximalRunAt(s, j, a)
    requires 0 <= j && j + |b| <= |s| && s[j..j + |b|] == b && AllIdChars(b)
    ensures |b| <= |a|
  {
    RunCharIsId(s, j, b, |a|);
  }

  lemma RunCharIsId(s: string, j: int, b: string, n: nat)
    requires 0 <= j && j + |b| <= |s| && s[j..j + |b|] == b && AllIdChars(b)
    ensures n < |b| ==> IsIdChar(s[j + n])
  {
    if n < |b| {
      assert s[j + n] == b[n];
    }
  }

  /** The greedy capture at a given position is unique. */
  lemma MaximalRunUnique(s: string, j: int, a: string, b: string)
    requires IsMaximalRunAt(s, j, a) && IsMaximalRunAt(s, j, b)
    ensures a == b
  {
    MaximalRunIsLongest(s, j, a, b);
    MaximalRunIsLongest(s, j, b, a);
  }

  /** The parser returns exactly the identifiers its specification describes,
      and `null` exactly when there is none. */
  lemma ExtractionCharacterised(url: string, id: string)
    ensures ExtractPresentationId(url) == Some(id) <==> IsExtractionOf(url, id)
  {
    var r := ExtractPresentationId(url);
    if IsExtractionOf(url, id) {
      var i :| IsFirstMatch(url, i) && IsMaximalRunAt(url, i + |Marker|, id);
      assert r.Some?;
      var i' :| IsFirstMatch(url, i') && IsMaximalRunAt(url, i' + |Marker|, r.value);
      MaximalRunUnique(url, i + |Marker|, id, r.value);
    }
  }

  /** A run of identifier characters ended by the end of the text or by
      another character is exactly what the greedy capture takes. */
  lemma IdRunOfDelimited(a: string, id: string, rest: string)
    requires AllIdChars(id)
    requires rest == [] || !IsIdChar(rest[0])
    ensures IdRun(a + id + rest, |a|) == id
  {
    var s := a + id + rest;
    assert s[|a|..|a| + |id|] == id;
    assert |a| + |id| < |s| ==> s[|a| + |id|] == rest[0];
    MaximalRunUnique(s, |a|, IdRun(s, |a|), id);
  }
}
