/** `Array.prototype.find` and `Array.prototype.filter` over sequences. */
module Collections {
  import opened Wrappers

  /** The index of the first element satisfying `p`, as `findIndex` without the `-1`. */
  function FindIndex<T>(s: seq<T>, p: T -> bool): (r: Option<nat>)
    ensures r.None? <==> forall i | 0 <= i < |s| :: !p(s[i])
    ensures r.Some? ==> r.value < |s| && p(s[r.value])
    ensures r.Some? ==> forall j | 0 <= j < r.value :: !p(s[j])
  {
    if s == [] then None
    else if p(s[0]) then Some(0)
    else match FindIndex(s[1..], p)
      case None => None
      case Some(k) => Some(k + 1)
  }

  /** `s.find(p)`: the first element satisfying `p`, if any. */
  function Find<T>(s: seq<T>, p: T -> bool): (r: Option<T>)
    ensures r.None? <==> forall i | 0 <= i < |s| :: !p(s[i])
    ensures r.Some? ==> r.value in s && p(r.value)
    ensures r.Some? ==> exists i | 0 <= i < |s| :: s[i] == r.value && forall j | 0 <= j < i :: !p(s[j])
  {
    match FindIndex(s, p)
    case None => None
    case Some(i) => Some(s[i])
  }

  /** `s` holds no element twice. */
  predicate NoDuplicates<T(==)>(s: seq<T>) {
    forall i, j | 0 <= i < j < |s| :: s[i] != s[j]
  }

  /** `s.filter(x => among.includes(x))`. */
  function Keep<T(==)>(s: seq<T>, among: seq<T>): (r: seq<T>)
    ensures |r| <= |s|
    ensures forall x | x in r :: x in s && x in among
    ensures forall x | x in s && x in among :: x in r
  {
    if s == [] then []
    else if s[0] in among then [s[0]] + Keep(s[1..], among)
    else Keep(s[1..], among)
  }

  /** `s.filter(x => !among.includes(x))`. */
  function Drop<T(==)>(s: seq<T>, among: seq<T>): (r: seq<T>)
    ensures |r| <= |s|
    ensures forall x | x in r :: x in s && x !in among
    ensures forall x | x in s && x !in among :: x in r
  {
    if s == [] then []
    else if s[0] in among then Drop(s[1..], among)
    else [s[0]] + Drop(s[1..], among)
  }

  /**
   * Filtering preserves order: the kept elements of `a + b` are those of `a`
   * followed by those of `b`.
   */
  lemma {:induction false} KeepConcat<T>(a: seq<T>, b: seq<T>, among: seq<T>)
    ensures Keep(a + b, among) == Keep(a, among) + Keep(b, among)
  {
    if a == [] {
      assert a + b == b;
    } else {
      var ab := a + b;
      assert ab[0] == a[0] && ab[1..] == a[1..] + b;
      KeepConcat(a[1..], b, among);
      if a[0] in among {
        calc {
          Keep(ab, among);
          [a[0]] + Keep(a[1..] + b, among);
          [a[0]] + (Keep(a[1..], among) + Keep(b, among));
          ([a[0]] + Keep(a[1..], among)) + Keep(b, among);
        }
      }
    }
  }

  /** Likewise for the dropped elements. */
  lemma {:induction false} DropConcat<T>(a: seq<T>, b: seq<T>, among: seq<T>)
    ensures Drop(a + b, among) == Drop(a, among) + Drop(b, among)
  {
    if a == [] {
      assert a + b == b;
    } else {
      var ab := a + b;
      assert ab[0] == a[0] && ab[1..] == a[1..] + b;
      DropConcat(a[1..], b, among);
      if a[0] !in among {
        calc {
          Drop(ab, among);
          [a[0]] + Drop(a[1..] + b, among);
          [a[0]] + (Drop(a[1..], among) + Drop(b, among));
          ([a[0]] + Drop(a[1..], among)) + Drop(b, among);
        }
      }
    }
  }

  /** Keeping and dropping the same elements splits `s` between the two results. */
  lemma {:induction false} KeepDropMultiset<T>(s: seq<T>, among: seq<T>)
    ensures multiset(Keep(s, among)) + multiset(Drop(s, among)) == multiset(s)
  {
    if s != [] {
      KeepDropMultiset(s[1..], among);
      assert s == [s[0]] + s[1..];
      assert multiset(s) == multiset{s[0]} + multiset(s[1..]);
      if s[0] in among {
        assert Keep(s, among) == [s[0]] + Keep(s[1..], among);
        assert Drop(s, among) == Drop(s[1..], among);
      } else {
        assert Keep(s, among) == Keep(s[1..], among);
        assert Drop(s, among) == [s[0]] + Drop(s[1..], among);
      }
    }
  }

  lemma {:induction false} KeepNoDuplicates<T>(s: seq<T>, among: seq<T>)
    requires NoDuplicates(s)
    ensures NoDuplicates(Keep(s, among))
  {
    if s != [] {
      KeepNoDuplicates(s[1..], among);
      assert s[0] !in s[1..];
    }
  }

  /** In a duplicate-free sequence every element occurs exactly once. */
  lemma {:induction false} NoDuplicatesCount<T>(s: seq<T>, x: T)
    requires NoDuplicates(s)
    ensures multiset(s)[x] == if x in s then 1 else 0
  {
    if s != [] {
      NoDuplicatesCount(s[1..], x);
      assert s == [s[0]] + s[1..];
      assert s[0] !in s[1..];
    }
  }

  /** Two duplicate-free sequences with the same elements are permutations of each other. */
  lemma SameElementsSameMultiset<T>(a: seq<T>, b: seq<T>)
    requires NoDuplicates(a) && NoDuplicates(b)
    requires forall x :: x in a <==> x in b
    ensures multiset(a) == multiset(b)
  {
    forall x ensures multiset(a)[x] == multiset(b)[x] {
      NoDuplicatesCount(a, x);
      NoDuplicatesCount(b, x);
    }
  }
}
