/**
 * Go's `strings.Join`, which the operator's command line uses to list the
 * accepted log levels, and `Contains`, a predicate used to state that such a
 * listing names every element.
 */
module Strings {

  /** `t` occurs in `s` starting at index `k`. */
  predicate OccursAt(s: string, t: string, k: int) {
    0 <= k && k + |t| <= |s| && s[k..k + |t|] == t
  }

  /** `t` occurs somewhere in `s`. */
  predicate Contains(s: string, t: string) {
    exists k | 0 <= k <= |s| :: OccursAt(s, t, k)
  }

  /** `strings.Join(xs, sep)`: the elements in order with `sep` between neighbours. */
  function Join(xs: seq<string>, sep: string): (r: string)
    ensures |xs| == 0 ==> r == ""
    ensures |xs| > 0 ==> |r| >= |xs[0]| && r[..|xs[0]|] == xs[0]
  {
    if |xs| == 0 then ""
    else if |xs| == 1 then xs[0]
    else xs[0] + sep + Join(xs[1..], sep)
  }

  /** An occurrence inside `s` is an occurrence inside `p + s`, shifted by `|p|`. */
  lemma OccursAfterPrefix(p: string, s: string, t: string, k: int)
    requires OccursAt(s, t, k)
    ensures OccursAt(p + s, t, |p| + k)
  {
    assert (p + s)[|p| + k..|p| + k + |t|] == s[k..k + |t|];
  }

  /** Every element of a joined list appears in the joined text. */
  lemma {:induction false} JoinContainsEach(xs: seq<string>, sep: string, i: int)
    requires 0 <= i < |xs|
    ensures Contains(Join(xs, sep), xs[i])
  {
    if i == 0 {
      assert OccursAt(Join(xs, sep), xs[0], 0);
    } else {
      JoinContainsEach(xs[1..], sep, i - 1);
      var k :| OccursAt(Join(xs[1..], sep), xs[1..][i - 1], k);
      OccursAfterPrefix(xs[0] + sep, Join(xs[1..], sep), xs[i], k);
      assert Join(xs, sep) == xs[0] + sep + Join(xs[1..], sep);
    }
  }
}
