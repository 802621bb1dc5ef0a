/** Sequences that list sets, in any order. */
module Collections {
  function Elems<T(==)>(l: seq<T>): set<T> {
    set x | x in l
  }

  predicate NoDuplicates<T(==)>(l: seq<T>) {
    forall i, j :: 0 <= i < j < |l| ==> l[i] != l[j]
  }

  /** l enumerates s: every element once, in some order. */
  predicate Lists<T(==)>(l: seq<T>, s: set<T>) {
    NoDuplicates(l) && Elems(l) == s
  }

  lemma SetHasListing<T>(s: set<T>) returns (l: seq<T>)
    ensures Lists(l, s)
    decreases s
  {
    if s == {} {
      l := [];
    } else {
      var e :| e in s;
      var rest := SetHasListing(s - {e});
      l := rest + [e];
      assert forall i :: 0 <= i < |rest| ==> rest[i] in Elems(rest);
      ElemsOfConcat(rest, [e]);
      assert Elems([e]) == {e};
    }
  }

  lemma ElemsOfConcat<T>(a: seq<T>, b: seq<T>)
    ensures Elems(a + b) == Elems(a) + Elems(b)
  {
  }

  lemma {:induction false} ListingLength<T>(l: seq<T>, s: set<T>)
    requires Lists(l, s)
    ensures |l| == |s|
  {
    if l != [] {
      var front, last := l[..|l| - 1], l[|l| - 1];
      ElemsOfConcat(front, [last]);
      assert l == front + [last];
      assert Elems(front) == s - {last};
      ListingLength(front, s - {last});
    }
  }

  lemma NonEmptyHasMember<T>(l: seq<T>)
    ensures l != [] ==> exists x :: x in l
  {
    if l != [] {
      assert l[0] in l;
    }
  }
}
