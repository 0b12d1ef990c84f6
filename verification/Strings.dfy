/** Finding a fixed text inside another. */
module Strings {
  import opened Wrappers

  /** The first position of `t` in `s`. */
  function Find(s: string, t: string): Option<nat> {
    if t <= s then Some(0)
    else if s == "" then None
    else
      var rest := Find(s[1..], t);
      if rest.Some? then Some(rest.value + 1) else None
  }

  predicate At(s: string, t: string, k: nat) {
    k + |t| <= |s| && s[k..k + |t|] == t
  }

  lemma AtShift(s: string, t: string, k: nat)
    requires s != ""
    ensures At(s, t, k + 1) <==> At(s[1..], t, k)
    ensures At(s, t, 0) <==> t <= s
  {
    if k + 1 + |t| <= |s| {
      assert s[k + 1..k + 1 + |t|] == s[1..][k..k + |t|];
    }
  }

  lemma {:induction false} FindIsFirst(s: string, t: string)
    ensures Find(s, t).Some? ==> At(s, t, Find(s, t).value)
    ensures forall k: nat | At(s, t, k) :: Find(s, t).Some? && Find(s, t).value <= k
  {
    if s != "" {
      FindIsFirst(s[1..], t);
      var i := Find(s[1..], t);
      if i.Some? {
        AtShift(s, t, i.value);
      }
      forall k: nat | At(s, t, k) ensures Find(s, t).Some? && Find(s, t).value <= k {
        AtShift(s, t, if k > 0 then k - 1 else 0);
      }
    }
  }

  ghost predicate Occurs(s: string, t: string) {
    exists k: nat :: At(s, t, k)
  }

  /** An occurrence in `a + b` lies in `a`, in `b`, or across the seam. */
  lemma AtAppend(a: string, b: string, t: string, k: nat)
    requires At(a + b, t, k)
    ensures k + |t| <= |a| ==> At(a, t, k)
    ensures k >= |a| ==> At(b, t, k - |a|)
    ensures k < |a| < k + |t| ==> t[|a| - k - 1] == a[|a| - 1] && t[|a| - k] == b[0]
  {
  }

  /** No occurrence appears at a seam next to a character that is not in `t`. */
  lemma JoinOccurs(a: string, b: string, t: string)
    requires a == "" || b == "" || a[|a| - 1] !in t || b[0] !in t
    ensures Occurs(a + b, t) ==> Occurs(a, t) || Occurs(b, t)
  {
    if Occurs(a + b, t) {
      var k: nat :| At(a + b, t, k);
      AtAppend(a, b, t, k);
    }
  }

  /** The first occurrence after a part without any, for a `t` whose first character does not come back. */
  lemma FindAfter(a: string, t: string, b: string)
    requires t != "" && (forall j | 0 < j < |t| :: t[j] != t[0]) && !Occurs(a, t)
    ensures Find(a + t + b, t) == Some(|a|)
  {
    var s := a + t + b;
    FindIsFirst(s, t);
    assert At(s, t, |a|);
    var k := Find(s, t).value;
    assert s == a + (t + b);
    AtAppend(a, t + b, t, k);
  }

  lemma ShiftOccurs(s: string, t: string)
    requires s != "" && Occurs(s[1..], t)
    ensures Occurs(s, t)
  {
    var k: nat :| At(s[1..], t, k);
    assert s[k + 1..k + 1 + |t|] == s[1..][k..k + |t|];
    assert At(s, t, k + 1);
  }
}
