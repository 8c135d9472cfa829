/** `RegExp.prototype.exec` for the pattern `/\/courses\/(.*)\/reviews/`, which
    the middleware uses to find a course slug. The engine tries start positions
    from the left; at each it lets `(.*)` run to the end of the line and then
    backs off until `/reviews` follows, so the first start position that can
    match wins and the capture there is as long as possible. */
module SlugPattern {

  import opened Wrappers
  import opened Strings

  const Prefix := "/courses/"
  const Suffix := "/reviews"

  /** The pattern matches `p[i..j + |Suffix|]`, capturing `p[i + |Prefix|..j]`. */
  predicate IsMatch(p: string, i: int, j: int) {
    && OccursAt(p, i, Prefix)
    && i + |Prefix| <= j
    && OccursAt(p, j, Suffix)
    && NoLineTerminatorIn(p, i + |Prefix|, j)
  }

  /** `(i, j)` is the match `exec` reports when it starts scanning at `from`:
      the leftmost start, and at that start the longest capture. */
  ghost predicate IsFirstLongest(p: string, from: int, i: int, j: int) {
    && from <= i
    && IsMatch(p, i, j)
    && (forall i', j' :: from <= i' && IsMatch(p, i', j') ==> i <= i')
    && (forall j' :: IsMatch(p, i, j') ==> j' <= j)
  }

  /** Where greedy `.*` starting at `k` stops: the first line terminator at or
      after `k`, or the end of the input. */
  function LineEnd(p: string, k: nat): (e: nat)
    requires k <= |p|
    ensures k <= e <= |p|
    ensures NoLineTerminatorIn(p, k, e)
    ensures e < |p| ==> IsLineTerminator(p[e])
    decreases |p| - k
  {
    if k == |p| || IsLineTerminator(p[k]) then k else LineEnd(p, k + 1)
  }

  /** Backing off from `hi` towards `lo`: the last position in `[lo, hi]` where
      `Suffix` occurs. */
  function Backtrack(p: string, lo: nat, hi: nat): (r: Option<nat>)
    requires lo <= hi <= |p|
    ensures r.Some? ==> lo <= r.value <= hi && OccursAt(p, r.value, Suffix)
    ensures r.Some? ==> forall j :: r.value < j <= hi ==> !OccursAt(p, j, Suffix)
    ensures r.None? ==> forall j :: lo <= j <= hi ==> !OccursAt(p, j, Suffix)
    decreases hi - lo
  {
    if OccursAt(p, hi, Suffix) then Some(hi)
    else if hi == lo then None
    else Backtrack(p, lo, hi - 1)
  }

  /** A match that cannot cross a line terminator ends no later than the first
      one. */
  lemma BeforeLineEnd(p: string, k: nat, j: int)
    requires k <= j <= |p|
    ensures NoLineTerminatorIn(p, k, j) <==> j <= LineEnd(p, k)
  {
  }

  /** The end of the longest match that starts at `i`, if any. */
  function LongestAt(p: string, i: nat): (r: Option<nat>)
    requires OccursAt(p, i, Prefix)
    ensures r.Some? ==> IsMatch(p, i, r.value)
    ensures r.Some? ==> forall j :: IsMatch(p, i, j) ==> j <= r.value
    ensures r.None? ==> forall j :: !IsMatch(p, i, j)
  {
    var k := i + |Prefix|;
    var e := LineEnd(p, k);
    var r := Backtrack(p, k, e);
    assert forall j :: IsMatch(p, i, j) ==> j <= e by {
      forall j | IsMatch(p, i, j) {
        BeforeLineEnd(p, k, j);
      }
    }
    if r.Some? then BeforeLineEnd(p, k, r.value); r else r
  }

  /** `exec` with the search starting at `from`; the result is the capture. */
  function ExecFrom(p: string, from: nat): (r: Option<string>)
    requires from <= |p|
    ensures r.Some? <==> exists i, j :: from <= i && IsMatch(p, i, j)
    ensures r.Some? ==> exists i, j :: IsFirstLongest(p, from, i, j) && r.value == p[i + |Prefix|..j]
    decreases |p| - from
  {
    var m := if OccursAt(p, from, Prefix) then LongestAt(p, from) else None;
    if m.Some? then
      assert IsFirstLongest(p, from, from, m.value);
      Some(p[from + |Prefix|..m.value])
    else
      assert forall j :: !IsMatch(p, from, j);
      if from == |p| then None
      else
        var r := ExecFrom(p, from + 1);
        if r.Some? then SkipStart(p, from, from + 1, r.value); r else r
  }

  /** A start position where nothing matches does not change which match is
      first. */
  lemma SkipStart(p: string, from: nat, next: nat, capture: string)
    requires next == from + 1 <= |p|
    requires forall j :: !IsMatch(p, from, j)
    requires exists i, j :: IsFirstLongest(p, next, i, j) && capture == p[i + |Prefix|..j]
    ensures exists i, j :: IsFirstLongest(p, from, i, j) && capture == p[i + |Prefix|..j]
  {
    var i, j :| IsFirstLongest(p, next, i, j) && capture == p[i + |Prefix|..j];
    assert IsFirstLongest(p, from, i, j);
  }

  /** A capture never spans a line terminator. */
  lemma CaptureOnOneLine(p: string, capture: string)
    requires exists i, j :: IsFirstLongest(p, 0, i, j) && capture == p[i + |Prefix|..j]
    ensures OnOneLine(capture)
  {
    var i, j :| IsFirstLongest(p, 0, i, j) && capture == p[i + |Prefix|..j];
    assert forall t :: 0 <= t < |capture| ==> capture[t] == p[i + |Prefix| + t];
  }

  /** The capture group of `/\/courses\/(.*)\/reviews/.exec(p)`, or `None` when
      `exec` returns `null`. */
  function Exec(p: string): (r: Option<string>)
    ensures r.Some? <==> exists i, j :: IsMatch(p, i, j)
    ensures r.Some? ==> OnOneLine(r.value)
  {
    var r := ExecFrom(p, 0);
    if r.Some? then CaptureOnOneLine(p, r.value); r else r
  }

  /** The capture `Exec` returns is that of the leftmost match, taken as long
      as possible. */
  lemma ExecIsFirstLongest(p: string)
    ensures Exec(p).Some? ==>
      exists i, j :: IsFirstLongest(p, 0, i, j) && Exec(p).value == p[i + |Prefix|..j]
  {
  }

  /** On the route shape `/courses/<slug>/reviews` the capture is exactly
      `<slug>`, whatever the slug contains, as long as it stays on one line. */
  lemma ExecCourseReviews(slug: string)
    requires OnOneLine(slug)
    ensures Exec(Prefix + slug + Suffix) == Some(slug)
  {
    var p := Prefix + slug + Suffix;
    var j0 := |Prefix| + |slug|;
    assert p[..|Prefix|] == Prefix;
    assert p[j0..j0 + |Suffix|] == Suffix;
    assert p[|Prefix|..j0] == slug;
    assert NoLineTerminatorIn(p, |Prefix|, j0) by {
      assert forall t :: |Prefix| <= t < j0 ==> p[t] == slug[t - |Prefix|];
    }
    assert IsMatch(p, 0, j0);
    var r := ExecFrom(p, 0);
    var i, j :| IsFirstLongest(p, 0, i, j) && r.value == p[i + |Prefix|..j];
    assert i == 0;
    assert j == j0;
  }

  /** Nothing shorter than the two literals together can match. */
  lemma ExecNeedsRoom(p: string)
    requires |p| < |Prefix| + |Suffix|
    ensures Exec(p).None?
  {
  }
}
