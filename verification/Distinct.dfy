/** Appending to a list only what it does not contain yet, as the parsers do. */
module Distinct {
  /** The elements of a sequence in the order of their first occurrences. */
  function Dedup<T(==)>(s: seq<T>): seq<T> {
    if s == [] then []
    else
      var d, last := Dedup(s[..|s| - 1]), s[|s| - 1];
      if last in d then d else d + [last]
  }

  lemma DedupStep<T>(s: seq<T>, x: T)
    ensures Dedup(s + [x]) == if x in Dedup(s) then Dedup(s) else Dedup(s) + [x]
  {
    assert (s + [x])[..|s|] == s;
  }

  ghost predicate NoRepeats<T>(s: seq<T>) { forall i, j :: 0 <= i < j < |s| ==> s[i] != s[j] }

  /** Nothing is lost, nothing is added, nothing is repeated. */
  lemma {:induction false} DedupFacts<T>(s: seq<T>)
    ensures forall x :: x in Dedup(s) <==> x in s
    ensures NoRepeats(Dedup(s)) && |Dedup(s)| <= |s| && (Dedup(s) == [] <==> s == [])
  {
    if s != [] {
      DedupFacts(s[..|s| - 1]);
      assert s == s[..|s| - 1] + [s[|s| - 1]];
    }
  }

  /** Position k of s holds the first occurrence of x. */
  ghost predicate FirstAt<T>(s: seq<T>, k: int, x: T) { 0 <= k < |s| && s[k] == x && x !in s[..k] }

  /** The elements of d occur in s for the first time in the order in which d lists them. */
  ghost predicate InOrderOf<T(!new)>(d: seq<T>, s: seq<T>) {
    forall i, j, k, l :: 0 <= i < j < |d| && FirstAt(s, k, d[i]) && FirstAt(s, l, d[j]) ==> k < l
  }

  lemma {:induction false} DedupInOrder<T(!new)>(s: seq<T>)
    ensures InOrderOf(Dedup(s), s)
  {
    if s != [] {
      var n := |s| - 1;
      var t, x := s[..n], s[n];
      DedupInOrder(t);
      DedupFacts(t);
      var d := Dedup(s);
      forall i, j, k, l | 0 <= i < j < |d| && FirstAt(s, k, d[i]) && FirstAt(s, l, d[j]) ensures k < l {
        assert d[i] in t;
        var m :| 0 <= m < n && t[m] == d[i];
        assert s[..n] == t && k < n;
        assert s[..k] == t[..k] && FirstAt(t, k, d[i]);
        if l < n { assert s[..l] == t[..l] && FirstAt(t, l, d[j]); }
        if l < n && j < |Dedup(t)| { assert Dedup(t)[j] == d[j] && Dedup(t)[i] == d[i]; }
      }
    }
  }
}
