/** Lexicographic string order and the ordered permutation that the library sorts return. */
module Ordering {

  /** Byte-wise lexicographic order, as `strings.Compare(a, b) <= 0`. */
  predicate Leq(a: string, b: string) {
    a == [] || (b != [] && (a[0] < b[0] || (a[0] == b[0] && Leq(a[1..], b[1..]))))
  }

  lemma LeqReflexive(a: string)
    ensures Leq(a, a)
  {
  }

  lemma LeqTotal(a: string, b: string)
    ensures Leq(a, b) || Leq(b, a)
  {
  }

  lemma {:induction false} LeqAntisymmetric(a: string, b: string)
    requires Leq(a, b) && Leq(b, a)
    ensures a == b
  {
    if a != [] {
      LeqAntisymmetric(a[1..], b[1..]);
      assert a == [a[0]] + a[1..] && b == [b[0]] + b[1..];
    }
  }

  lemma {:induction false} LeqTransitive(a: string, b: string, c: string)
    requires Leq(a, b) && Leq(b, c)
    ensures Leq(a, c)
  {
    if a != [] && a[0] == b[0] && b[0] == c[0] {
      LeqTransitive(a[1..], b[1..], c[1..]);
    }
  }

  /** They agree before position n, where a is the smaller one or at its end. */
  predicate DiffersAt(a: string, b: string, n: int) {
    && 0 <= n <= |a| && n <= |b| && a[..n] == b[..n]
    && (n == |a| || (n < |b| && a[n] < b[n]))
  }

  /** The first difference decides, and a prefix comes before what it starts. */
  lemma {:induction false} LeqExactly(a: string, b: string)
    ensures Leq(a, b) <==> exists n :: DiffersAt(a, b, n)
  {
    if a != [] && b != [] && a[0] == b[0] {
      LeqExactly(a[1..], b[1..]);
      if n :| DiffersAt(a[1..], b[1..], n) {
        assert a[..n + 1] == [a[0]] + a[1..][..n] && b[..n + 1] == [b[0]] + b[1..][..n];
        assert DiffersAt(a, b, n + 1);
      }
      if n :| DiffersAt(a, b, n) {
        DiffersLater(a, b, n);
      }
    } else if Leq(a, b) {
      assert DiffersAt(a, b, 0);
    } else if n :| DiffersAt(a, b, n) {
      if n > 0 {
        SameStart(a, b, n);
      }
    }
  }

  lemma SameStart(a: string, b: string, n: int)
    requires DiffersAt(a, b, n) && n > 0
    ensures a != [] && b != [] && a[0] == b[0]
  {
    assert a[..n][0] == a[0] && b[..n][0] == b[0];
  }

  lemma DiffersLater(a: string, b: string, n: int)
    requires a != [] && b != [] && a[0] == b[0] && DiffersAt(a, b, n)
    ensures DiffersAt(a[1..], b[1..], n - 1)
  {
    assert a[1..][..n - 1] == a[..n][1..] && b[1..][..n - 1] == b[..n][1..];
  }

  /** Neighbours are in order. */
  predicate Sorted<T>(s: seq<T>, key: T -> string) {
    forall i :: 0 <= i < |s| - 1 ==> Leq(key(s[i]), key(s[i + 1]))
  }

  lemma {:induction false} SortedPairs<T>(s: seq<T>, key: T -> string, i: nat, j: nat)
    requires Sorted(s, key) && i <= j < |s|
    ensures Leq(key(s[i]), key(s[j]))
    decreases j - i
  {
    if i == j {
      LeqReflexive(key(s[i]));
    } else {
      SortedPairs(s, key, i + 1, j);
      LeqTransitive(key(s[i]), key(s[i + 1]), key(s[j]));
    }
  }

  function Insert<T>(x: T, s: seq<T>, key: T -> string): (r: seq<T>)
    requires Sorted(s, key)
    ensures Sorted(r, key) && multiset(r) == multiset{x} + multiset(s)
    ensures r != [] && (r[0] == x || (s != [] && r[0] == s[0]))
  {
    if s == [] || Leq(key(x), key(s[0])) then [x] + s
    else
      LeqTotal(key(x), key(s[0]));
      var r := Insert(x, s[1..], key);
      assert s == [s[0]] + s[1..];
      [s[0]] + r
  }

  /** The ordered permutation of s. */
  function SortBy<T>(s: seq<T>, key: T -> string): (r: seq<T>)
    ensures Sorted(r, key) && multiset(r) == multiset(s) && |r| == |s|
  {
    if s == [] then [] else
      var r := Insert(s[0], SortBy(s[1..], key), key);
      assert s == [s[0]] + s[1..];
      assert |r| == |multiset(r)| == |multiset(s)|;
      r
  }

  ghost predicate KeysIdentify<T>(s: seq<T>, key: T -> string) {
    forall x, y :: x in s && y in s && key(x) == key(y) ==> x == y
  }

  lemma SameElements<T>(a: seq<T>, b: seq<T>)
    requires multiset(a) == multiset(b)
    ensures forall x :: x in a <==> x in b
  {
    forall x
      ensures x in a <==> x in b
    {
      assert x in multiset(a) <==> x in multiset(b);
    }
  }

  lemma SmallestFirst<T>(a: seq<T>, b: seq<T>, key: T -> string)
    requires Sorted(a, key) && Sorted(b, key) && multiset(a) == multiset(b) && a != [] && b != []
    ensures Leq(key(a[0]), key(b[0]))
  {
    SameElements(a, b);
    assert b[0] in a;
    var i :| 0 <= i < |a| && a[i] == b[0];
    SortedPairs(a, key, 0, i);
  }

  lemma SameHead<T>(a: seq<T>, b: seq<T>, key: T -> string)
    requires Sorted(a, key) && Sorted(b, key) && multiset(a) == multiset(b) && a != [] && b != []
    requires KeysIdentify(a, key)
    ensures a[0] == b[0] && multiset(a[1..]) == multiset(b[1..])
  {
    SmallestFirst(a, b, key);
    SmallestFirst(b, a, key);
    LeqAntisymmetric(key(a[0]), key(b[0]));
    assert b[0] in a by {
      SameElements(a, b);
    }
    assert a == [a[0]] + a[1..] && b == [b[0]] + b[1..];
    assert multiset(a[1..]) == multiset(a) - multiset{a[0]};
    assert multiset(b[1..]) == multiset(b) - multiset{b[0]};
  }

  /** Ordered permutations are unique, so any correct library sort returns the same sequence. */
  lemma {:induction false} SortedUnique<T>(a: seq<T>, b: seq<T>, key: T -> string)
    requires Sorted(a, key) && Sorted(b, key) && multiset(a) == multiset(b)
    requires KeysIdentify(a, key)
    ensures a == b
  {
    assert |a| == |multiset(a)| == |multiset(b)| == |b|;
    if a != [] {
      SameHead(a, b, key);
      SortedUnique(a[1..], b[1..], key);
      assert a == [a[0]] + a[1..] && b == [b[0]] + b[1..];
    }
  }

  /** Sorting forgets the order in which the elements arrived. */
  lemma SortCanonical<T>(a: seq<T>, b: seq<T>, key: T -> string)
    requires multiset(a) == multiset(b) && KeysIdentify(a, key)
    ensures SortBy(a, key) == SortBy(b, key)
  {
    var r := SortBy(a, key);
    assert KeysIdentify(r, key) by {
      SameElements(a, r);
    }
    SortedUnique(r, SortBy(b, key), key);
  }

  function Self(s: string): string { s }

  function Names(s: seq<string>): seq<string> { SortBy(s, Self) }

  lemma NamesMembers(s: seq<string>)
    ensures forall x :: x in Names(s) <==> x in s
  {
    SameElements(s, Names(s));
  }

  /** The keys of a map in ascending order, as `slices.Sorted(maps.Keys(m))`. */
  ghost function KeySeq(keys: set<string>): (r: seq<string>)
    ensures Distinct(r) && forall x :: x in r <==> x in keys
    decreases keys
  {
    if keys == {} then [] else
      var k :| k in keys;
      [k] + KeySeq(keys - {k})
  }

  ghost predicate Distinct<T>(s: seq<T>) {
    forall i, j :: 0 <= i < j < |s| ==> s[i] != s[j]
  }

  lemma {:induction false} DistinctMultiset<T>(a: seq<T>, x: T)
    requires Distinct(a)
    ensures multiset(a)[x] == if x in a then 1 else 0
  {
    if a != [] {
      assert a == [a[0]] + a[1..];
      DistinctMultiset(a[1..], x);
    }
  }

  /** Two duplicate-free listings of one set are permutations of each other. */
  lemma SameListing<T>(a: seq<T>, b: seq<T>)
    requires Distinct(a) && Distinct(b) && forall x :: x in a <==> x in b
    ensures multiset(a) == multiset(b)
  {
    forall x
      ensures multiset(a)[x] == multiset(b)[x]
    {
      DistinctMultiset(a, x);
      DistinctMultiset(b, x);
    }
  }

  /** They sort to the same sequence. */
  lemma ListingsSortAlike(a: seq<string>, b: seq<string>)
    requires Distinct(a) && Distinct(b) && forall x :: x in a <==> x in b
    ensures Names(a) == Names(b)
  {
    SameListing(a, b);
    SortCanonical(a, b, Self);
  }

  lemma OccursTwice(b: seq<string>, i: nat, j: nat)
    requires i < j < |b| && b[i] == b[j]
    ensures multiset(b)[b[i]] >= 2
  {
    assert b == b[..j] + [b[j]] + b[j + 1..];
    assert b[..j][i] == b[i];
    assert b[i] in multiset(b[..j]);
  }

  lemma NamesDistinct(a: seq<string>)
    requires Distinct(a)
    ensures Distinct(Names(a))
  {
    var b := Names(a);
    forall i, j | 0 <= i < j < |b|
      ensures b[i] != b[j]
    {
      DistinctMultiset(a, b[i]);
      if b[i] == b[j] {
        OccursTwice(b, i, j);
        assert false;
      }
    }
  }

  /** The ascending listing of a key set. */
  ghost function SortedKeys(keys: set<string>): (r: seq<string>)
  {
    Names(KeySeq(keys))
  }

  lemma SortedKeysListing(keys: set<string>)
    ensures Distinct(SortedKeys(keys)) && forall x :: x in SortedKeys(keys) <==> x in keys
  {
    NamesDistinct(KeySeq(keys));
    NamesMembers(KeySeq(keys));
  }

  /** Collects the keys of a map in whatever order it is walked, and sorts them. */
  method ListKeys(keys: set<string>) returns (names: seq<string>)
    ensures names == SortedKeys(keys)
  {
    var rest := keys;
    var listed: seq<string> := [];
    while rest != {}
      invariant Distinct(listed)
      invariant forall x :: x in keys <==> x in listed || x in rest
      invariant forall x :: x in listed ==> x !in rest
      decreases rest
    {
      var k :| k in rest;
      listed, rest := listed + [k], rest - {k};
    }
    ListingsSortAlike(listed, KeySeq(keys));
    names := Names(listed);
  }
}
