/** Filtering sequences, as the source's append loops do. */
module Seqs {
  function Keep<T(!new)>(items: seq<T>, wanted: T -> bool): (kept: seq<T>)
    ensures forall x :: x in kept <==> x in items && wanted(x)
  {
    if items == [] then []
    else
      var rest := Keep(items[1..], wanted);
      if wanted(items[0]) then [items[0]] + rest else rest
  }

  lemma {:induction false} KeepAppend<T(!new)>(a: seq<T>, b: seq<T>, wanted: T -> bool)
    ensures Keep(a + b, wanted) == Keep(a, wanted) + Keep(b, wanted)
  {
    if a == [] {
      assert a + b == b;
    } else {
      assert (a + b)[1..] == a[1..] + b;
      KeepAppend(a[1..], b, wanted);
    }
  }

  lemma KeepStep<T(!new)>(items: seq<T>, i: nat, wanted: T -> bool)
    requires i < |items|
    ensures Keep(items[..i + 1], wanted) == Keep(items[..i], wanted) + (if wanted(items[i]) then [items[i]] else [])
  {
    assert items[..i + 1] == items[..i] + [items[i]];
    KeepAppend(items[..i], [items[i]], wanted);
    assert [items[i]][1..] == [];
  }

  lemma KeepOne<T(!new)>(x: T, wanted: T -> bool)
    requires wanted(x)
    ensures Keep([x], wanted) == [x]
  {
    assert [x][1..] == [];
  }

  lemma {:induction false} KeepExt<T(!new)>(items: seq<T>, f: T -> bool, g: T -> bool)
    requires forall x :: x in items ==> f(x) == g(x)
    ensures Keep(items, f) == Keep(items, g)
  {
    if items != [] { KeepExt(items[1..], f, g); }
  }

  lemma {:induction false} KeepNone<T(!new)>(items: seq<T>, wanted: T -> bool)
    requires forall x :: x in items ==> !wanted(x)
    ensures Keep(items, wanted) == []
  {
    if items != [] { KeepNone(items[1..], wanted); }
  }

  /** Filtering keeps each wanted element as often as it occurs. */
  lemma {:induction false} KeepMultiset<T(!new)>(items: seq<T>, wanted: T -> bool, x: T)
    ensures multiset(Keep(items, wanted))[x] == if wanted(x) then multiset(items)[x] else 0
  {
    if items != [] {
      assert items == [items[0]] + items[1..];
      KeepMultiset(items[1..], wanted, x);
    }
  }

  /** What survives a filter depends on the multiset of elements alone. */
  lemma KeepIgnoresOrder<T(!new)>(items: seq<T>, items': seq<T>, wanted: T -> bool)
    requires multiset(items) == multiset(items')
    ensures multiset(Keep(items, wanted)) == multiset(Keep(items', wanted))
    ensures |Keep(items, wanted)| == |Keep(items', wanted)|
    ensures |Keep(items, wanted)| <= 1 ==> Keep(items, wanted) == Keep(items', wanted)
  {
    var k, k' := Keep(items, wanted), Keep(items', wanted);
    forall x ensures multiset(k)[x] == multiset(k')[x] {
      KeepMultiset(items, wanted, x);
      KeepMultiset(items', wanted, x);
    }
    assert |k| == |multiset(k)| && |k'| == |multiset(k')|;
    if |k| == 1 { assert k[0] in multiset(k'); }
  }
}
