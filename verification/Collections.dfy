/** Sequences without repetitions, least elements, and positions of elements that meet a test. */
module Collections {
  ghost predicate NoRepeats<T>(s: seq<T>) {
    forall i, j :: 0 <= i < j < |s| ==> s[i] != s[j]
  }

  ghost function Elements<T>(s: seq<T>): set<T> {
    set x | x in s
  }

  lemma OneMore<T>(s: seq<T>, x: T)
    requires NoRepeats(s) && x !in s
    ensures NoRepeats(s + [x]) && Elements(s + [x]) == Elements(s) + {x}
  {
  }

  predicate IsLeast(a: int, s: set<int>) {
    a in s && forall b :: b in s ==> a <= b
  }

  lemma {:induction false} LeastExists(s: set<int>)
    requires exists a :: a in s
    ensures exists a :: IsLeast(a, s)
    decreases |s|
  {
    var a :| a in s;
    var rest := s - {a};
    if exists b :: b in rest {
      LeastExists(rest);
      var b :| IsLeast(b, rest);
      assert forall x :: x in s ==> x == a || x in rest;
      var least := if a <= b then a else b;
      assert IsLeast(least, s);
    } else {
      assert forall x :: x in s ==> x == a || x in rest;
      assert IsLeast(a, s);
    }
  }

  /** The positions in `at`, in ascending order, are those of the elements that meet the test. */
  ghost predicate Locates<E(!new)>(s: seq<E>, test: E -> bool, at: seq<nat>) {
    && (forall k :: 0 <= k < |at| ==> at[k] < |s| && test(s[at[k]]))
    && (forall k, l :: 0 <= k < l < |at| ==> at[k] < at[l])
    && forall i :: 0 <= i < |s| && test(s[i]) ==> i in at
  }

  lemma LocatesStay<E(!new)>(s: seq<E>, e: E, test: E -> bool, at: seq<nat>)
    requires Locates(s, test, at) && !test(e)
    ensures Locates(s + [e], test, at)
  {
  }

  lemma LocatesNext<E(!new)>(s: seq<E>, e: E, test: E -> bool, at: seq<nat>)
    requires Locates(s, test, at) && test(e)
    ensures Locates(s + [e], test, at + [|s|])
  {
    var more := at + [|s|];
    assert more[|at|] == |s|;
    forall i | 0 <= i < |s| + 1 && test((s + [e])[i])
      ensures i in more
    {
      assert i < |s| ==> i in at;
    }
  }

  /** The last element that meets the test is number i. */
  ghost predicate IsLastWhere<E(!new)>(s: seq<E>, test: E -> bool, i: int) {
    0 <= i < |s| && test(s[i]) && forall j :: i < j < |s| ==> !test(s[j])
  }

  ghost predicate Nowhere<E(!new)>(s: seq<E>, test: E -> bool) {
    forall j :: 0 <= j < |s| ==> !test(s[j])
  }

  lemma LastWhereNext<E(!new)>(s: seq<E>, e: E, test: E -> bool, i: int)
    ensures test(e) ==> (IsLastWhere(s + [e], test, i) <==> i == |s|)
    ensures !test(e) ==> (IsLastWhere(s + [e], test, i) <==> IsLastWhere(s, test, i))
    ensures Nowhere(s + [e], test) <==> Nowhere(s, test) && !test(e)
  {
    var more := s + [e];
    assert more[|s|] == e && forall j :: 0 <= j < |s| ==> more[j] == s[j];
  }
}
