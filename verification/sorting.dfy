/** Ordering results by display name. Both backends hand the comparison to
    the platform (SQLite's collation for `ORDER BY ... ASC` on Android,
    `localizedCaseInsensitiveCompare` on Darwin), so the order is a parameter
    `le` ("not after") on the sort key; all that is assumed of it is that it
    is a total preorder. Neither platform promises how ties are broken, and the model
    fixes one choice: an insertion sort that keeps ties in input order. */
module Sorting {
  import opened Text

  ghost predicate TotalPreorder<K(!new)>(le: (K, K) -> bool) {
    && (forall a, b :: le(a, b) || le(b, a))
    && (forall a, b, c :: le(a, b) && le(b, c) ==> le(a, c))
  }

  ghost predicate SortedBy<T, K>(s: seq<T>, key: T -> K, le: (K, K) -> bool) {
    forall i, j :: 0 <= i < j < |s| ==> le(key(s[i]), key(s[j]))
  }

  /** An element not after the head of a sorted sequence, nor after any
      of its elements, can go in front. */
  lemma ConsSorted<T, K(!new)>(x: T, s: seq<T>, key: T -> K, le: (K, K) -> bool)
    requires SortedBy(s, key, le)
    requires forall j :: 0 <= j < |s| ==> le(key(x), key(s[j]))
    ensures SortedBy([x] + s, key, le)
  {
    forall i, j | 0 <= i < j < |[x] + s|
      ensures le(key(([x] + s)[i]), key(([x] + s)[j]))
    {
      if i == 0 {
        assert ([x] + s)[j] == s[j - 1];
      } else {
        assert ([x] + s)[i] == s[i - 1] && ([x] + s)[j] == s[j - 1];
      }
    }
  }

  /** Places `x` before the first element it is not after. */
  function Insert<T(==), K(!new)>(x: T, s: seq<T>, key: T -> K, le: (K, K) -> bool): (r: seq<T>)
    ensures multiset(r) == multiset(s) + multiset{x}
    ensures TotalPreorder(le) && SortedBy(s, key, le) ==> SortedBy(r, key, le)
  {
    if |s| == 0 then [x]
    else if le(key(x), key(s[0])) then
      assert TotalPreorder(le) && SortedBy(s, key, le) ==> SortedBy([x] + s, key, le) by {
        if TotalPreorder(le) && SortedBy(s, key, le) {
          forall j | 0 <= j < |s|
            ensures le(key(x), key(s[j]))
          {
            if j > 0 {
              assert le(key(s[0]), key(s[j]));
            }
          }
          ConsSorted(x, s, key, le);
        }
      }
      [x] + s
    else
      assert s == [s[0]] + s[1..];
      var rest := Insert(x, s[1..], key, le);
      assert TotalPreorder(le) && SortedBy(s, key, le) ==> SortedBy([s[0]] + rest, key, le) by {
        if TotalPreorder(le) && SortedBy(s, key, le) {
          assert le(key(s[0]), key(x));
          forall j | 0 <= j < |rest|
            ensures le(key(s[0]), key(rest[j]))
          {
            assert rest[j] in multiset(rest);
            if rest[j] != x {
              assert rest[j] in multiset(s[1..]);
              var k :| 0 <= k < |s[1..]| && s[1..][k] == rest[j];
              assert le(key(s[0]), key(s[k + 1]));
            }
          }
          assert SortedBy(s[1..], key, le);
          ConsSorted(s[0], rest, key, le);
        }
      }
      [s[0]] + rest
  }

  /** Orders `s` by `key` under `le`: the result is a rearrangement of `s`,
      and whenever `le` is a total preorder it is sorted. */
  function SortBy<T(==), K(!new)>(s: seq<T>, key: T -> K, le: (K, K) -> bool): (r: seq<T>)
    ensures multiset(r) == multiset(s)
    ensures TotalPreorder(le) ==> SortedBy(r, key, le)
  {
    if |s| == 0 then []
    else
      assert s == [s[0]] + s[1..];
      Insert(s[0], SortBy(s[1..], key, le), key, le)
  }

  // ---------------------------------------------------------------------
  // One concrete order: code-point order after ASCII lower-casing
  // ---------------------------------------------------------------------

  predicate LexLe(a: string, b: string) {
    if |a| == 0 then true
    else if |b| == 0 then false
    else if a[0] != b[0] then a[0] < b[0]
    else LexLe(a[1..], b[1..])
  }

  lemma {:induction false} LexLeTotal(a: string, b: string)
    ensures LexLe(a, b) || LexLe(b, a)
  {
    if |a| > 0 && |b| > 0 && a[0] == b[0] {
      LexLeTotal(a[1..], b[1..]);
    }
  }

  lemma {:induction false} LexLeTransitive(a: string, b: string, c: string)
    requires LexLe(a, b) && LexLe(b, c)
    ensures LexLe(a, c)
  {
    if |a| > 0 && |b| > 0 && |c| > 0 && a[0] == b[0] && b[0] == c[0] {
      LexLeTransitive(a[1..], b[1..], c[1..]);
    }
  }

  /** Case-insensitive ascending order on ASCII letters. */
  predicate IgnoreCaseLe(a: string, b: string) {
    LexLe(Lower(a), Lower(b))
  }

  lemma IgnoreCaseLeIsTotalPreorder()
    ensures TotalPreorder(IgnoreCaseLe)
  {
    forall a, b
      ensures IgnoreCaseLe(a, b) || IgnoreCaseLe(b, a)
    {
      LexLeTotal(Lower(a), Lower(b));
    }
    forall a, b, c | IgnoreCaseLe(a, b) && IgnoreCaseLe(b, c)
      ensures IgnoreCaseLe(a, c)
    {
      LexLeTransitive(Lower(a), Lower(b), Lower(c));
    }
  }

  function Identity(s: string): string {
    s
  }

  /** The three comparisons the example below needs. */
  lemma ExampleComparisons()
    ensures IgnoreCaseLe("Alice", "charlie")
    ensures !IgnoreCaseLe("bob", "Alice")
    ensures IgnoreCaseLe("bob", "charlie")
  {
    assert Lower("bob") == "bob";
    assert Lower("Alice") == "alice";
    assert Lower("charlie") == "charlie";
  }

  lemma SortTwoExample()
    ensures SortBy(["Alice", "charlie"], Identity, IgnoreCaseLe) == ["Alice", "charlie"]
  {
    ExampleComparisons();
    var s := ["Alice", "charlie"];
    assert s[1..] == ["charlie"] && s[1..][1..] == [];
    assert SortBy(["charlie"], Identity, IgnoreCaseLe) == ["charlie"];
  }

  /** With a case-insensitive order, "bob", "Alice", "charlie" come out as
      "Alice", "bob", "charlie". */
  lemma CaseInsensitiveExample()
    ensures SortBy(["bob", "Alice", "charlie"], Identity, IgnoreCaseLe) == ["Alice", "bob", "charlie"]
  {
    ExampleComparisons();
    SortTwoExample();
    var s := ["bob", "Alice", "charlie"];
    var two := ["Alice", "charlie"];
    assert s[1..] == two && two[1..] == ["charlie"];
    assert Insert("bob", ["charlie"], Identity, IgnoreCaseLe) == ["bob", "charlie"];
  }
}
