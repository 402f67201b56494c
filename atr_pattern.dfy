/**
 * The search `Pattern.compile("3B(.{6}|.{10})805A(.{20})829000").matcher(atr).find(0)`
 * written out as an index search. At each start position the 6-character
 * alternative is tried before the 10-character one; the first start position
 * at which either succeeds is the match. `.` is Java's default dot: any
 * character except a line terminator.
 */
module AtrPattern {
  import opened Wrappers

  /** Java's default `.`: everything but \n, \r, U+0085, U+2028 and U+2029. */
  predicate IsDot(c: char) {
    c != '\n' && c != '\r' && c != '\U{0085}' && c != '\U{2028}' && c != '\U{2029}'
  }

  /** `.{n}` matches s[from..from + n]. */
  predicate DotsAt(s: string, from: nat, n: nat) {
    from + n <= |s| && forall i :: from <= i < from + n ==> IsDot(s[i])
  }

  /** The literal `lit` occurs at position p. */
  predicate LiteralAt(s: string, p: nat, lit: string) {
    p + |lit| <= |s| && s[p..p + |lit|] == lit
  }

  /**
   * The pattern matches at start p when the first group is `.{gap}`:
   * "3B", gap characters, "805A", the 20-character group, "829000".
   */
  predicate MatchesWith(s: string, p: nat, gap: nat) {
    && LiteralAt(s, p, "3B")
    && DotsAt(s, p + 2, gap)
    && LiteralAt(s, p + 2 + gap, "805A")
    && DotsAt(s, p + 6 + gap, 20)
    && LiteralAt(s, p + 26 + gap, "829000")
  }

  /** A successful find: where the match starts and which alternative the first group took. */
  datatype Match = Match(start: nat, gap: nat) {
    /** Position of the 20-character second group. */
    function GroupStart(): nat { start + 6 + gap }
  }

  /** The pattern matches at p with the alternative regex backtracking picks there. */
  ghost predicate FirstAlternativeAt(s: string, m: Match) {
    && (m.gap == 6 || m.gap == 10)
    && MatchesWith(s, m.start, m.gap)
    && (m.gap == 10 ==> !MatchesWith(s, m.start, 6))
  }

  ghost predicate MatchesAt(s: string, p: nat) {
    MatchesWith(s, p, 6) || MatchesWith(s, p, 10)
  }

  /** The match attempt at one start position, alternatives in order. */
  function MatchAt(s: string, p: nat): (r: Option<Match>)
    ensures r.Some? <==> MatchesAt(s, p)
    ensures r.Some? ==> r.value.start == p && FirstAlternativeAt(s, r.value)
  {
    if MatchesWith(s, p, 6) then Some(Match(p, 6))
    else if MatchesWith(s, p, 10) then Some(Match(p, 10))
    else None
  }

  /** `find(from)`: the match at the least start position not before `from`. */
  function FindFrom(s: string, from: nat): (r: Option<Match>)
    requires from <= |s|
    decreases |s| - from
    ensures r.Some? ==> from <= r.value.start && FirstAlternativeAt(s, r.value)
    ensures r.Some? ==> forall q :: from <= q < r.value.start ==> !MatchesAt(s, q)
    ensures r.None? ==> forall q :: from <= q <= |s| ==> !MatchesAt(s, q)
  {
    match MatchAt(s, from)
    case Some(m) => Some(m)
    case None => if from == |s| then None else FindFrom(s, from + 1)
  }

  /** `find(0)` on the whole power-on string. */
  function Find(s: string): (r: Option<Match>)
    ensures r.Some? ==> FirstAlternativeAt(s, r.value)
    ensures r.Some? ==> forall q :: 0 <= q < r.value.start ==> !MatchesAt(s, q)
    ensures r.None? <==> forall q :: 0 <= q <= |s| ==> !MatchesAt(s, q)
  {
    var r := FindFrom(s, 0);
    assert r.Some? ==> r.value.start <= |s| && MatchesAt(s, r.value.start);
    r
  }
}
