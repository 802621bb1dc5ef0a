/** The order of strings, character by character. */
module Strings {
  import opened Collections

  predicate Before(s: string, t: string) {
    if t == "" then false
    else if s == "" then true
    else if s[0] != t[0] then s[0] < t[0]
    else Before(s[1..], t[1..])
  }

  lemma {:induction false} BeforeIsTotal(s: string, t: string)
    ensures Before(s, t) || Before(t, s) || s == t
    ensures !(Before(s, t) && Before(t, s))
    ensures s == t ==> !Before(s, t)
  {
    if s != "" && t != "" && s[0] == t[0] {
      BeforeIsTotal(s[1..], t[1..]);
      assert s == [s[0]] + s[1..] && t == [t[0]] + t[1..];
    }
  }

  lemma {:induction false} BeforeIsTransitive(s: string, t: string, u: string)
    requires Before(s, t) && Before(t, u)
    ensures Before(s, u)
  {
    if s != "" && s[0] == t[0] && t[0] == u[0] {
      BeforeIsTransitive(s[1..], t[1..], u[1..]);
    }
  }

  /** The order of a dictionary: the first place where two strings differ decides, and without one the shorter comes first. */
  lemma BeforeIsDictionaryOrder(s: string, t: string)
    ensures Before(s, t) <==> s < t || exists i :: 0 <= i < |s| && i < |t| && s[..i] == t[..i] && s[i] < t[i]
  {
    if Before(s, t) {
      var i := FirstDifference(s, t);
      assert i == |s| ==> s[..i] == s;
    }
    if s < t {
      DifferenceDecides(s, t, |s|);
    }
    if i :| 0 <= i < |s| && i < |t| && s[..i] == t[..i] && s[i] < t[i] {
      DifferenceDecides(s, t, i);
    }
  }

  lemma {:induction false} FirstDifference(s: string, t: string) returns (i: nat)
    requires Before(s, t)
    ensures i <= |s| && i < |t| && s[..i] == t[..i] && (i < |s| ==> s[i] < t[i])
  {
    if s == "" || s[0] != t[0] {
      i := 0;
    } else {
      var j := FirstDifference(s[1..], t[1..]);
      i := j + 1;
      assert s[..i] == [s[0]] + s[1..][..j] && t[..i] == [t[0]] + t[1..][..j];
    }
  }

  lemma {:induction false} DifferenceDecides(s: string, t: string, i: nat)
    requires i <= |s| && i < |t| && s[..i] == t[..i] && (i < |s| ==> s[i] < t[i])
    ensures Before(s, t)
  {
    if i > 0 {
      assert s[..i][0] == t[..i][0];
      assert s[1..][..i - 1] == s[..i][1..] && t[1..][..i - 1] == t[..i][1..];
      DifferenceDecides(s[1..], t[1..], i - 1);
    }
  }

  predicate Ascending(l: seq<string>) {
    forall i, j :: 0 <= i < j < |l| ==> Before(l[i], l[j])
  }

  /** A set of strings has one ascending listing. */
  lemma {:induction false} AscendingIsUnique(l: seq<string>, m: seq<string>)
    requires Ascending(l) && Ascending(m) && (forall x :: x in l <==> x in m)
    ensures l == m
  {
    if l == [] || m == [] {
      NonEmptyHasMember(l);
      NonEmptyHasMember(m);
    } else {
      FirstIsLeast(l, m);
      FirstIsLeast(m, l);
      BeforeIsTotal(l[0], m[0]);
      forall x | x in l[1..] || x in m[1..] ensures x in l[1..] && x in m[1..] {
        TailWithoutFirst(l, x);
        TailWithoutFirst(m, x);
      }
      AscendingIsUnique(l[1..], m[1..]);
      assert l == [l[0]] + l[1..] && m == [m[0]] + m[1..];
    }
  }

  lemma FirstIsLeast(l: seq<string>, m: seq<string>)
    requires Ascending(l) && l != [] && m != [] && m[0] in l
    ensures l[0] == m[0] || Before(l[0], m[0])
  {
  }

  lemma TailWithoutFirst(l: seq<string>, x: string)
    requires Ascending(l) && l != []
    ensures x in l[1..] <==> x in l && x != l[0]
  {
    assert l == [l[0]] + l[1..];
    if x in l[1..] {
      var i :| 1 <= i < |l| && l[i] == x;
      BeforeIsTotal(l[0], l[i]);
    }
  }

  /** The least of a non-empty list. */
  method Least(l: seq<string>) returns (least: string)
    requires l != []
    ensures least in l && forall x :: x in l ==> !Before(x, least)
  {
    least := l[0];
    BeforeIsTotal(least, least);
    for i := 0 to |l|
      invariant least in l && forall x :: x in l[..i] ==> !Before(x, least)
    {
      assert l[..i + 1] == l[..i] + [l[i]];
      if Before(l[i], least) {
        forall x | x in l[..i] ensures !Before(x, l[i]) {
          if Before(x, l[i]) {
            BeforeIsTransitive(x, l[i], least);
          }
        }
        least := l[i];
        BeforeIsTotal(least, least);
      }
    }
    assert l[..|l|] == l;
  }

  method Sort(s: set<string>) returns (l: seq<string>)
    ensures Ascending(l) && forall x :: x in l <==> x in s
  {
    l := [];
    var todo := s;
    while todo != {}
      invariant todo <= s && (forall x :: x in l <==> x in s - todo)
      invariant Ascending(l) && forall x, y :: x in l && y in todo ==> Before(x, y)
      decreases |todo|
    {
      var least := LeastOf(todo);
      forall y | y in todo && y != least ensures Before(least, y) {
        BeforeIsTotal(least, y);
      }
      l := l + [least];
      todo := todo - {least};
    }
  }

  method LeastOf(s: set<string>) returns (least: string)
    requires s != {}
    ensures least in s && forall x :: x in s ==> !Before(x, least)
  {
    least :| least in s;
    BeforeIsTotal(least, least);
    var todo := s - {least};
    while todo != {}
      invariant todo <= s && least in s && forall x :: x in s && x !in todo ==> !Before(x, least)
      decreases |todo|
    {
      var y :| y in todo;
      if Before(y, least) {
        forall x | x in s && x !in todo ensures !Before(x, y) {
          if Before(x, y) {
            BeforeIsTransitive(x, y, least);
          }
        }
        least := y;
        BeforeIsTotal(least, least);
      }
      todo := todo - {y};
    }
  }
}
