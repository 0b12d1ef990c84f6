/** What the solver needs to be told about finite sets, maps and multisets. */
module Collections {
  lemma IsEmpty<T>(s: set<T>)
    requires forall x: T :: x !in s
    ensures s == {}
  {
    forall x: T ensures x in s <==> x in {} {
    }
  }

  lemma HasElement<T>(s: set<T>)
    requires s != {}
    ensures exists x: T :: x in s
  {
    if !exists x: T :: x in s {
      IsEmpty(s);
    }
  }

  /** Some element of `s`, as a loop over a dictionary visits one after another. */
  method Pick<T(==)>(s: set<T>) returns (x: T)
    requires s != {}
    ensures x in s
  {
    HasElement(s);
    x :| x in s;
  }

  lemma SameMap<K, V>(a: map<K, V>, b: map<K, V>)
    requires forall k: K :: k in a <==> k in b
    requires forall k: K | k in a :: a[k] == b[k]
    ensures a == b
  {
    assert a.Keys == b.Keys;
  }

  /** The sequence without its `k`-th element. */
  function Without<T>(s: seq<T>, k: nat): seq<T>
    requires k < |s|
  {
    s[..k] + s[k + 1..]
  }

  lemma WithoutLeaves<T>(s: seq<T>, k: nat)
    requires k < |s|
    ensures multiset(Without(s, k)) == multiset(s) - multiset{s[k]}
    ensures multiset(s) == multiset(Without(s, k)) + multiset{s[k]}
  {
    assert s == s[..k] + [s[k]] + s[k + 1..];
  }

  lemma IndexIn<T>(s: seq<T>, x: T) returns (k: nat)
    requires x in s
    ensures k < |s| && s[k] == x
  {
    k :| 0 <= k < |s| && s[k] == x;
  }

  /** Where `s` holds `x`, if a permutation of it does. */
  lemma FindElement<T>(s: seq<T>, x: T, permuted: seq<T>) returns (k: nat)
    requires multiset(s) == multiset(permuted) && x in permuted
    ensures k < |s| && s[k] == x
  {
    assert x in multiset(permuted);
    k :| 0 <= k < |s| && s[k] == x;
  }
}
