/**
 * Hand-written equivalents of the regular-expression searches the backend runs:
 * `re.search(LIT + "([C]+)" + CLOSE, s)` for a literal `LIT`, a character class `C`
 * and an optional closing character `CLOSE` that is not in `C`.
 *
 * The regex engine tries start positions from the left; at each one it matches `LIT`,
 * then the longest run of `C` characters, and then `CLOSE`. A shorter run cannot help
 * when `CLOSE` is not in `C`, since the character after a shorter run is in `C`.
 * So the match is at the least position where `LIT` occurs followed by a non-empty
 * maximal run (followed by `CLOSE`), and the captured group is that maximal run.
 */
module Scan {
  import opened Wrappers
  import opened Strings

  /** The end of the longest run of `inRun` characters starting at `i` (see `RunEndSpec`). */
  function RunEnd(s: string, i: nat, inRun: char -> bool): (e: nat)
    requires i <= |s|
    ensures i <= e <= |s|
    decreases |s| - i
  {
    if i < |s| && inRun(s[i]) then RunEnd(s, i + 1, inRun) else i
  }

  /** Every character of the run is in the class, and the one after it is not. */
  lemma {:induction false} RunEndSpec(s: string, i: nat, inRun: char -> bool)
    requires i <= |s|
    ensures forall k :: i <= k < RunEnd(s, i, inRun) ==> inRun(s[k])
    ensures RunEnd(s, i, inRun) == |s| || !inRun(s[RunEnd(s, i, inRun)])
    decreases |s| - i
  {
    if i < |s| && inRun(s[i]) {
      RunEndSpec(s, i + 1, inRun);
    }
  }

  /** The pattern matches with its literal at `p`. */
  predicate MatchesAt(s: string, lit: string, inRun: char -> bool, closer: Option<char>, p: nat) {
    && OccursAt(s, lit, p)
    && var e := RunEnd(s, p + |lit|, inRun);
       && e > p + |lit|
       && (closer.Some? ==> e < |s| && s[e] == closer.value)
  }

  /** The group captured by a match at `p`. */
  function CaptureAt(s: string, lit: string, inRun: char -> bool, p: nat): string
    requires p + |lit| <= |s|
  {
    s[p + |lit|..RunEnd(s, p + |lit|, inRun)]
  }

  /** The leftmost match position at or after `p` (see `FirstMatchSpec`). */
  function FirstMatchFrom(s: string, lit: string, inRun: char -> bool, closer: Option<char>, p: nat): (r: Option<nat>)
    requires p <= |s|
    ensures r.Some? ==> p <= r.value && r.value + |lit| <= |s|
    decreases |s| - p
  {
    if MatchesAt(s, lit, inRun, closer, p) then Some(p)
    else if p == |s| then None
    else FirstMatchFrom(s, lit, inRun, closer, p + 1)
  }

  /** The position found is a match, none lies before it, and `None` means there is none at all. */
  lemma {:induction false} FirstMatchSpec(s: string, lit: string, inRun: char -> bool, closer: Option<char>, p: nat)
    requires p <= |s|
    ensures var r := FirstMatchFrom(s, lit, inRun, closer, p);
            && (r.Some? ==> MatchesAt(s, lit, inRun, closer, r.value))
            && (r.Some? ==> forall q :: p <= q < r.value ==> !MatchesAt(s, lit, inRun, closer, q))
            && (r.None? ==> forall q :: p <= q ==> !MatchesAt(s, lit, inRun, closer, q))
    decreases |s| - p
  {
    if !MatchesAt(s, lit, inRun, closer, p) && p < |s| {
      FirstMatchSpec(s, lit, inRun, closer, p + 1);
    }
  }

  /** `m = re.search(...)`, giving `m.group(1)`, or `None` when nothing matches (see `SearchSpec`). */
  function Search(s: string, lit: string, inRun: char -> bool, closer: Option<char>): Option<string> {
    match FirstMatchFrom(s, lit, inRun, closer, 0)
    case None => None
    case Some(p) => Some(CaptureAt(s, lit, inRun, p))
  }

  /**
   * `re.search` fails exactly when the pattern matches nowhere; otherwise the group is
   * captured at the leftmost match.
   */
  lemma SearchSpec(s: string, lit: string, inRun: char -> bool, closer: Option<char>)
    ensures Search(s, lit, inRun, closer).None? <==> forall q :: !MatchesAt(s, lit, inRun, closer, q)
    ensures Search(s, lit, inRun, closer).Some? ==>
              exists p :: && MatchesAt(s, lit, inRun, closer, p)
                          && (forall q :: q < p ==> !MatchesAt(s, lit, inRun, closer, q))
                          && Search(s, lit, inRun, closer).value == CaptureAt(s, lit, inRun, p)
  {
    FirstMatchSpec(s, lit, inRun, closer, 0);
  }

  /** A captured group is a non-empty maximal run of `inRun` characters that directly follows the literal. */
  lemma CaptureIsMaximalRun(s: string, lit: string, inRun: char -> bool, closer: Option<char>, p: nat)
    requires MatchesAt(s, lit, inRun, closer, p)
    ensures var v := CaptureAt(s, lit, inRun, p);
            && |v| > 0
            && (forall k :: 0 <= k < |v| ==> inRun(v[k]))
            && s[p..p + |lit| + |v|] == lit + v
            && (p + |lit| + |v| == |s| || !inRun(s[p + |lit| + |v|]))
  {
    RunEndSpec(s, p + |lit|, inRun);
    var v := CaptureAt(s, lit, inRun, p);
    assert s[p..p + |lit| + |v|] == s[p..p + |lit|] + v;
  }

  /** The least `q` in `[p, bound]` with `P(q)` (see `FirstFromSpec`). */
  function FirstFrom(P: nat -> bool, p: nat, bound: nat): (r: Option<nat>)
    requires p <= bound
    ensures r.Some? ==> p <= r.value <= bound && P(r.value)
    decreases bound - p
  {
    if P(p) then Some(p)
    else if p == bound then None
    else FirstFrom(P, p + 1, bound)
  }

  lemma {:induction false} FirstFromSpec(P: nat -> bool, p: nat, bound: nat)
    requires p <= bound
    ensures FirstFrom(P, p, bound).Some? ==> forall q: nat :: p <= q < FirstFrom(P, p, bound).value ==> !P(q)
    ensures FirstFrom(P, p, bound).None? ==> forall q: nat :: p <= q <= bound ==> !P(q)
    decreases bound - p
  {
    if !P(p) && p < bound {
      FirstFromSpec(P, p + 1, bound);
    }
  }

  /** The greatest `r < hi` with `P(r)` (see `LastBelowSpec`). */
  function LastBelow(P: nat -> bool, hi: nat): (r: Option<nat>)
    ensures r.Some? ==> r.value < hi && P(r.value)
    decreases hi
  {
    if hi == 0 then None
    else if P(hi - 1) then Some(hi - 1)
    else LastBelow(P, hi - 1)
  }

  lemma {:induction false} LastBelowSpec(P: nat -> bool, hi: nat)
    ensures LastBelow(P, hi).Some? ==> forall r: nat :: LastBelow(P, hi).value < r < hi ==> !P(r)
    ensures LastBelow(P, hi).None? ==> forall r: nat :: r < hi ==> !P(r)
    decreases hi
  {
    if hi > 0 && !P(hi - 1) {
      LastBelowSpec(P, hi - 1);
    }
  }
}
