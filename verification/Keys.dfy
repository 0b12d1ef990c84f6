/** Dictionary keys, identified with their `repr()`, in the order `sorted(..., key=repr)` visits them. */
module Keys {
  type Key = string

  /** Lexicographic order by code point. */
  predicate Less(a: Key, b: Key) {
    if b == "" then false
    else if a == "" then true
    else a[0] < b[0] || (a[0] == b[0] && Less(a[1..], b[1..]))
  }

  lemma {:induction false} LessIsTotal(a: Key, b: Key)
    ensures a == b || Less(a, b) || Less(b, a)
    ensures !(Less(a, b) && Less(b, a))
    ensures !Less(a, a)
  {
    if a != "" {
      LessIsTotal(a[1..], a[1..]);
      if b != "" {
        LessIsTotal(a[1..], b[1..]);
        assert a == [a[0]] + a[1..] && b == [b[0]] + b[1..];
      }
    }
  }

  lemma {:induction false} LessIsTransitive(a: Key, b: Key, c: Key)
    requires Less(a, b) && Less(b, c)
    ensures Less(a, c)
  {
    if a != "" && a[0] == b[0] == c[0] {
      LessIsTransitive(a[1..], b[1..], c[1..]);
    }
  }

  ghost predicate Ascending(keys: seq<Key>) {
    forall i, j | 0 <= i < j < |keys| :: Less(keys[i], keys[j])
  }

  function Insert(k: Key, keys: seq<Key>): seq<Key> {
    if keys == [] then [k]
    else if k == keys[0] then keys
    else if Less(k, keys[0]) then [k] + keys
    else [keys[0]] + Insert(k, keys[1..])
  }

  function Sorted(keys: seq<Key>): seq<Key> {
    if keys == [] then [] else Insert(keys[0], Sorted(keys[1..]))
  }

  lemma {:induction false} InsertKeeps(k: Key, keys: seq<Key>)
    requires Ascending(keys)
    ensures Ascending(Insert(k, keys))
    ensures forall x :: x in Insert(k, keys) <==> x == k || x in keys
  {
    if keys != [] {
      LessIsTotal(k, keys[0]);
      if Less(k, keys[0]) {
        forall j | 0 < j < |keys| ensures Less(k, keys[j]) {
          LessIsTransitive(k, keys[0], keys[j]);
        }
      } else if k != keys[0] {
        var rest := Insert(k, keys[1..]);
        InsertKeeps(k, keys[1..]);
        assert forall x | x in keys[1..] :: Less(keys[0], x);
        assert forall j | 0 <= j < |rest| :: rest[j] in rest && Less(keys[0], rest[j]);
      }
    }
  }

  lemma {:induction false} SortedKeeps(keys: seq<Key>)
    ensures Ascending(Sorted(keys))
    ensures forall x :: x in Sorted(keys) <==> x in keys
  {
    if keys != [] {
      SortedKeeps(keys[1..]);
      InsertKeeps(keys[0], Sorted(keys[1..]));
    }
  }

  lemma HeadIsElement(keys: seq<Key>)
    ensures keys != [] ==> keys[0] in keys
  {
  }

  /** Ascending sequences with the same elements are equal. */
  lemma {:induction false} AscendingIsUnique(a: seq<Key>, b: seq<Key>)
    requires Ascending(a) && Ascending(b)
    requires forall x :: x in a <==> x in b
    ensures a == b
  {
    HeadIsElement(b);
    if a != [] {
      assert a[0] in b && b != [] && b[0] in a;
      LessIsTotal(a[0], b[0]);
      assert a[0] == b[0];
      forall x ensures x in a[1..] <==> x in b[1..] {
        LessIsTotal(a[0], a[0]);
        assert x in a[1..] ==> Less(a[0], x) && x in a;
        assert x in b[1..] ==> Less(b[0], x) && x in b;
      }
      AscendingIsUnique(a[1..], b[1..]);
      assert a == [a[0]] + a[1..] && b == [b[0]] + b[1..];
    }
  }

  /** Dictionaries with the same keys are visited in the same order, whatever their insertion order. */
  lemma SortedIgnoresOrder(a: seq<Key>, b: seq<Key>)
    requires forall x :: x in a <==> x in b
    ensures Sorted(a) == Sorted(b)
  {
    SortedKeeps(a);
    SortedKeeps(b);
    AscendingIsUnique(Sorted(a), Sorted(b));
  }
}
