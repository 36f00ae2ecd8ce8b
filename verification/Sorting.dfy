/** Sorting by Go's string order, which for UTF-8 text is the order of code points. */
module Sorting {
  predicate Leq(a: string, b: string) {
    a == "" || (b != "" && (a[0] < b[0] || (a[0] == b[0] && Leq(a[1..], b[1..]))))
  }

  lemma {:induction false} LeqTotal(a: string, b: string)
    ensures Leq(a, b) || Leq(b, a)
  {
    if a != "" && b != "" && a[0] == b[0] { LeqTotal(a[1..], b[1..]); }
  }

  lemma {:induction false} LeqTrans(a: string, b: string, c: string)
    requires Leq(a, b) && Leq(b, c)
    ensures Leq(a, c)
  {
    if a != "" && a[0] == b[0] && b[0] == c[0] { LeqTrans(a[1..], b[1..], c[1..]); }
  }

  lemma {:induction false} LeqAntisymmetric(a: string, b: string)
    requires Leq(a, b) && Leq(b, a)
    ensures a == b
  {
    if a != "" {
      LeqAntisymmetric(a[1..], b[1..]);
      assert a == [a[0]] + a[1..] && b == [b[0]] + b[1..];
    }
  }

  /** In ascending order of the key. */
  ghost predicate Ascending<T>(s: seq<T>, key: T -> string) {
    forall i, j :: 0 <= i < j < |s| ==> Leq(key(s[i]), key(s[j]))
  }

  function Insert<T>(x: T, s: seq<T>, key: T -> string): seq<T> {
    if s == [] || Leq(key(x), key(s[0])) then [x] + s else [s[0]] + Insert(x, s[1..], key)
  }

  function SortBy<T>(s: seq<T>, key: T -> string): seq<T> {
    if s == [] then [] else Insert(s[0], SortBy(s[1..], key), key)
  }

  function Itself(): string -> string { (x: string) => x }

  function SortStrings(s: seq<string>): seq<string> { SortBy(s, Itself()) }

  lemma {:induction false} InsertFacts<T>(x: T, s: seq<T>, key: T -> string)
    requires Ascending(s, key)
    ensures multiset(Insert(x, s, key)) == multiset(s) + multiset{x} && Ascending(Insert(x, s, key), key)
  {
    var r := Insert(x, s, key);
    if s == [] {
    } else if Leq(key(x), key(s[0])) {
      forall j | 0 < j < |r| ensures Leq(key(r[0]), key(r[j])) {
        if j > 1 { LeqTrans(key(x), key(s[0]), key(s[j - 1])); }
      }
    } else {
      LeqTotal(key(x), key(s[0]));
      assert s == [s[0]] + s[1..];
      var rest := Insert(x, s[1..], key);
      InsertFacts(x, s[1..], key);
      forall j | 0 <= j < |rest| ensures Leq(key(s[0]), key(rest[j])) {
        assert rest[j] in multiset(rest);
        assert rest[j] == x || rest[j] in s[1..];
      }
    }
  }

  /** Sorting orders the elements and keeps each as often as it occurs. */
  lemma {:induction false} SortFacts<T>(s: seq<T>, key: T -> string)
    ensures multiset(SortBy(s, key)) == multiset(s) && Ascending(SortBy(s, key), key)
    ensures forall x :: x in SortBy(s, key) <==> x in s
  {
    if s != [] {
      SortFacts(s[1..], key);
      InsertFacts(s[0], SortBy(s[1..], key), key);
      assert s == [s[0]] + s[1..];
    }
    forall x ensures x in SortBy(s, key) <==> x in s {
      assert x in SortBy(s, key) <==> x in multiset(SortBy(s, key));
      assert x in s <==> x in multiset(s);
    }
  }

  /** Distinct elements have distinct keys. */
  ghost predicate Injective<T(!new)>(key: T -> string) { forall x, y :: key(x) == key(y) ==> x == y }

  lemma FirstIsLeast<T>(s: seq<T>, key: T -> string, x: T)
    requires Ascending(s, key) && x in s
    ensures Leq(key(s[0]), key(x))
  {
    LeqTotal(key(x), key(x));
    var i :| 0 <= i < |s| && s[i] == x;
  }

  lemma SameFirst<T(!new)>(a: seq<T>, b: seq<T>, key: T -> string)
    requires Ascending(a, key) && Ascending(b, key) && Injective(key) && multiset(a) == multiset(b) && a != []
             && b != []
    ensures a[0] == b[0]
  {
    assert a[0] in multiset(b) && b[0] in multiset(a);
    FirstIsLeast(a, key, b[0]);
    FirstIsLeast(b, key, a[0]);
    LeqAntisymmetric(key(a[0]), key(b[0]));
  }

  /** A multiset has one ascending arrangement. */
  lemma {:induction false} AscendingIsUnique<T(!new)>(a: seq<T>, b: seq<T>, key: T -> string)
    requires Ascending(a, key) && Ascending(b, key) && Injective(key) && multiset(a) == multiset(b)
    ensures a == b
  {
    assert |a| == |multiset(a)| && |b| == |multiset(b)|;
    if a != [] {
      SameFirst(a, b, key);
      assert a == [a[0]] + a[1..] && b == [a[0]] + b[1..];
      assert multiset(a[1..]) == multiset(a) - multiset{a[0]} && multiset(b[1..]) == multiset(b) - multiset{a[0]};
      AscendingIsUnique(a[1..], b[1..], key);
    }
  }

  /** The result of sorting depends on the multiset of elements alone. */
  lemma SortIgnoresOrder<T(!new)>(a: seq<T>, b: seq<T>, key: T -> string)
    requires Injective(key) && multiset(a) == multiset(b)
    ensures SortBy(a, key) == SortBy(b, key)
  {
    SortFacts(a, key);
    SortFacts(b, key);
    AscendingIsUnique(SortBy(a, key), SortBy(b, key), key);
  }

  function Keys<T>(s: seq<T>, key: T -> string): (k: seq<string>)
    ensures |k| == |s| && forall i :: 0 <= i < |s| ==> k[i] == key(s[i])
  {
    seq(|s|, i requires 0 <= i < |s| => key(s[i]))
  }

  lemma {:induction false} InsertCommutes<T>(x: T, s: seq<T>, key: T -> string)
    ensures Insert(key(x), Keys(s, key), Itself()) == Keys(Insert(x, s, key), key)
  {
    if s != [] && !Leq(key(x), key(s[0])) {
      assert Keys(s, key)[1..] == Keys(s[1..], key);
      InsertCommutes(x, s[1..], key);
      KeysInsertBehind(x, s, key);
    }
  }

  lemma KeysInsertBehind<T>(x: T, s: seq<T>, key: T -> string)
    requires s != [] && !Leq(key(x), key(s[0]))
    ensures Keys(Insert(x, s, key), key) == [key(s[0])] + Keys(Insert(x, s[1..], key), key)
  {}

  /** Sorting the keys gives the keys of the sorted elements. */
  lemma {:induction false} SortCommutes<T>(s: seq<T>, key: T -> string)
    ensures SortStrings(Keys(s, key)) == Keys(SortBy(s, key), key)
  {
    if s != [] {
      assert Keys(s, key)[1..] == Keys(s[1..], key);
      SortCommutes(s[1..], key);
      InsertCommutes(s[0], SortBy(s[1..], key), key);
    }
  }
}
