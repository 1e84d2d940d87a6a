/** Byte-wise order of strings and sorting by a string key. */
module Order {
  import opened Common

  /** Go's `<=` on strings. */
  predicate LexLe(a: string, b: string) {
    a == "" || (b != "" && (a[0] < b[0] || (a[0] == b[0] && LexLe(a[1..], b[1..]))))
  }

  /** A prefix comes first; otherwise the first byte that differs decides. */
  lemma {:induction false} LexLeIff(a: string, b: string)
    ensures LexLe(a, b) <==> a <= b || exists i :: 0 <= i < |a| && i < |b| && a[..i] == b[..i] && a[i] < b[i]
  {
    if a != "" && b != "" && a[0] == b[0] {
      LexLeIff(a[1..], b[1..]);
      if i :| 0 <= i < |a[1..]| && i < |b[1..]| && a[1..][..i] == b[1..][..i] && a[1..][i] < b[1..][i] {
        assert a[..i + 1] == [a[0]] + a[1..][..i] && b[..i + 1] == [b[0]] + b[1..][..i];
        assert a[i + 1] < b[i + 1];
      }
      if i :| 0 <= i < |a| && i < |b| && a[..i] == b[..i] && a[i] < b[i] {
        assert a[1..][..i - 1] == a[..i][1..] && b[1..][..i - 1] == b[..i][1..];
        assert a[1..][i - 1] < b[1..][i - 1];
      }
      assert a == [a[0]] + a[1..] && b == [b[0]] + b[1..];
    } else if a != "" && b != "" && a[0] < b[0] {
      assert a[..0] == b[..0];
    }
  }

  lemma {:induction false} LexTotal(a: string, b: string)
    ensures LexLe(a, b) || LexLe(b, a)
    ensures LexLe(a, b) && LexLe(b, a) ==> a == b
  {
    if a != "" && b != "" {
      LexTotal(a[1..], b[1..]);
      assert a == [a[0]] + a[1..] && b == [b[0]] + b[1..];
    }
  }

  lemma {:induction false} LexTransitive(a: string, b: string, c: string)
    requires LexLe(a, b) && LexLe(b, c)
    ensures LexLe(a, c)
  {
    if a != "" && a[0] == b[0] == c[0] {
      LexTransitive(a[1..], b[1..], c[1..]);
    }
  }

  predicate SortedBy<T>(items: seq<T>, key: T -> string) {
    forall i, j :: 0 <= i < j < |items| ==> LexLe(key(items[i]), key(items[j]))
  }

  function InsertBy<T>(x: T, items: seq<T>, key: T -> string): seq<T> {
    if items == [] then [x]
    else if LexLe(key(x), key(items[0])) then [x] + items
    else [items[0]] + InsertBy(x, items[1..], key)
  }

  function SortBy<T>(items: seq<T>, key: T -> string): seq<T> {
    if items == [] then [] else InsertBy(items[0], SortBy(items[1..], key), key)
  }

  lemma {:induction false} InsertByPermutes<T>(x: T, items: seq<T>, key: T -> string)
    ensures multiset(InsertBy(x, items, key)) == multiset(items) + multiset{x}
  {
    if items != [] && !LexLe(key(x), key(items[0])) {
      InsertByPermutes(x, items[1..], key);
      assert items == [items[0]] + items[1..];
    }
  }

  lemma {:induction false} InsertBySorted<T>(x: T, items: seq<T>, key: T -> string)
    requires SortedBy(items, key)
    ensures SortedBy(InsertBy(x, items, key), key)
  {
    if items != [] {
      LexTotal(key(x), key(items[0]));
      if LexLe(key(x), key(items[0])) {
        forall i | 0 <= i < |items| ensures LexLe(key(x), key(items[i])) {
          if i > 0 { LexTransitive(key(x), key(items[0]), key(items[i])); }
        }
      } else {
        var rest := InsertBy(x, items[1..], key);
        InsertBySorted(x, items[1..], key);
        InsertByPermutes(x, items[1..], key);
        forall i | 0 <= i < |rest| ensures LexLe(key(items[0]), key(rest[i])) {
          assert rest[i] in multiset(rest);
          if rest[i] in items[1..] {
            var j :| 0 <= j < |items[1..]| && items[1..][j] == rest[i];
            assert items[j + 1] == rest[i];
          }
        }
      }
    }
  }

  lemma {:induction false} SortByIsSort<T>(items: seq<T>, key: T -> string)
    ensures SortedBy(SortBy(items, key), key)
    ensures multiset(SortBy(items, key)) == multiset(items)
  {
    if items != [] {
      SortByIsSort(items[1..], key);
      InsertBySorted(items[0], SortBy(items[1..], key), key);
      InsertByPermutes(items[0], SortBy(items[1..], key), key);
      assert items == [items[0]] + items[1..];
    }
  }

  lemma SameMembers<T>(s: seq<T>, t: seq<T>)
    requires multiset(s) == multiset(t)
    ensures forall x :: x in s <==> x in t
  {
    assert forall x :: x in s <==> x in multiset(s);
    assert forall x :: x in t <==> x in multiset(t);
  }

  lemma CountedTwice<T>(t: seq<T>, i: nat, j: nat)
    requires i < j < |t| && t[i] == t[j]
    ensures multiset(t)[t[i]] >= 2
  {
    assert t == t[..i] + [t[i]] + t[i + 1..j] + [t[j]] + t[j + 1..];
  }

  lemma {:induction false} DistinctOnce<T>(s: seq<T>, x: T)
    requires Distinct(s)
    ensures multiset(s)[x] <= 1
  {
    if s != [] {
      DistinctOnce(s[1..], x);
      assert s == [s[0]] + s[1..];
      assert s[0] !in s[1..];
    }
  }

  /** A permutation of a sequence without repetition has none. */
  lemma PermutationIsDistinct<T>(s: seq<T>, t: seq<T>, i: nat, j: nat)
    requires Distinct(s) && multiset(s) == multiset(t) && i < j < |t|
    ensures t[i] != t[j]
  {
    DistinctOnce(s, t[i]);
    if t[i] == t[j] {
      CountedTwice(t, i, j);
    }
  }
}
