/**
 The string operations the reading queries rely on: `SUBSTR(timestamp, 1, w)`
 (and Python's `s[:w]`, which agrees with it), and the order in which
 `ORDER BY key` sorts text under SQLite's default BINARY collation, i.e.
 lexicographic comparison of code points (UTF-8 byte order is code point order).
 */
module TextOrder {

  /** `SUBSTR(s, 1, w)`: the first `w` characters, or all of `s` when it is shorter. */
  function Prefix(s: string, w: nat): (p: string)
    ensures |p| == if |s| <= w then |s| else w
    ensures s[..|p|] == p
  {
    if |s| <= w then s else s[..w]
  }

  /**
   Strict lexicographic order on strings: a proper prefix comes first, and
   otherwise the first position where the strings differ decides.
   */
  predicate Less(a: string, b: string)
    ensures |a| < |b| && a == b[..|a|] ==> Less(a, b)
    decreases |a|
  {
    if |b| == 0 then false
    else if |a| == 0 then true
    else if a[0] == b[0] then Less(a[1..], b[1..])
    else a[0] < b[0]
  }

  /** Past a common prefix, the first differing character decides the order. */
  lemma {:induction false} LessAtFirstDifference(a: string, b: string, i: nat)
    requires i < |a| && i < |b| && a[..i] == b[..i] && a[i] != b[i]
    ensures Less(a, b) <==> a[i] < b[i]
    decreases i
  {
    if i > 0 {
      assert a[0] == a[..i][0] == b[..i][0] == b[0];
      assert a[1..][..i - 1] == a[..i][1..] == b[..i][1..] == b[1..][..i - 1];
      LessAtFirstDifference(a[1..], b[1..], i - 1);
    }
  }

  lemma {:induction false} LessIrreflexive(a: string)
    ensures !Less(a, a)
    decreases |a|
  {
    if |a| > 0 {
      LessIrreflexive(a[1..]);
    }
  }

  lemma {:induction false} LessTransitive(a: string, b: string, c: string)
    requires Less(a, b) && Less(b, c)
    ensures Less(a, c)
    decreases |a|
  {
    if |a| > 0 && a[0] == b[0] && b[0] == c[0] {
      LessTransitive(a[1..], b[1..], c[1..]);
    }
  }

  lemma {:induction false} LessTotal(a: string, b: string)
    ensures a == b || Less(a, b) || Less(b, a)
    decreases |a|
  {
    if |a| > 0 && |b| > 0 && a[0] == b[0] {
      LessTotal(a[1..], b[1..]);
      if a[1..] == b[1..] {
        assert a == [a[0]] + a[1..] && b == [b[0]] + b[1..];
      }
    }
  }
}
