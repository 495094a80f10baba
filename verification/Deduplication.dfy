/** Lists without repetitions, in the order of first occurrences. */
module Deduplication {

  /** The items in the order of their first occurrences. */
  function FirstSeen<T(==)>(s: seq<T>): seq<T>
  {
    if s == [] then []
    else
      var before, x := FirstSeen(s[..|s| - 1]), s[|s| - 1];
      if x in before then before else before + [x]
  }

  predicate Distinct<T(==)>(s: seq<T>)
  {
    forall i :: 0 <= i < |s| ==> s[i] !in s[..i]
  }

  lemma DistinctConcat<T>(a: seq<T>, b: seq<T>)
    requires Distinct(a) && Distinct(b) && forall i :: 0 <= i < |b| ==> b[i] !in a
    ensures Distinct(a + b)
  {
    var s := a + b;
    forall i | 0 <= i < |s| ensures s[i] !in s[..i] {
      if i < |a| {
        assert s[..i] == a[..i] && s[i] == a[i];
      } else {
        assert s[..i] == a + b[..i - |a|] && s[i] == b[i - |a|];
      }
    }
  }

  ghost predicate Marks<T(!new)>(seen: set<T>, items: seq<T>)
  {
    forall x :: x in seen <==> x in items
  }

  lemma MarksMore<T(!new)>(seen: set<T>, items: seq<T>, x: T)
    requires Marks(seen, items)
    ensures Marks(seen + {x}, items + [x]) && (x in seen <==> x in items)
  {
  }

  lemma FirstSeenSnoc<T>(s: seq<T>, x: T)
    ensures FirstSeen(s + [x]) == if x in FirstSeen(s) then FirstSeen(s) else FirstSeen(s) + [x]
  {
    assert (s + [x])[..|s|] == s;
  }

  lemma {:induction false} FirstSeenIsDistinct<T>(s: seq<T>)
    ensures Distinct(FirstSeen(s)) && forall x :: x in FirstSeen(s) <==> x in s
  {
    if s != [] {
      var front := s[..|s| - 1];
      FirstSeenIsDistinct(front);
      assert s == front + [s[|s| - 1]];
    }
  }

  lemma FirstSeenHas<T>(s: seq<T>, i: nat)
    requires i < |FirstSeen(s)|
    ensures FirstSeen(s)[i] in s
  {
    FirstSeenIsDistinct(s);
    assert FirstSeen(s)[i] in FirstSeen(s);
  }

  lemma {:induction false} FirstSeenGrows<T>(a: seq<T>, b: seq<T>)
    ensures FirstSeen(a) <= FirstSeen(a + b)
  {
    if b == [] {
      assert a + b == a;
    } else {
      var front := b[..|b| - 1];
      FirstSeenGrows(a, front);
      assert a + b == (a + front) + [b[|b| - 1]];
      FirstSeenSnoc(a + front, b[|b| - 1]);
    }
  }

  lemma PrefixIsDistinct<T>(a: seq<T>, b: seq<T>)
    requires a <= b && Distinct(b)
    ensures Distinct(a)
  {
    assert forall i :: 0 <= i < |a| ==> a[i] == b[i];
  }

  /** An item never comes before one that occurred earlier. */
  lemma FirstSeenInOrder<T>(s: seq<T>, i: nat, j: nat, n: nat)
    requires i < j < |FirstSeen(s)| && n <= |s| && FirstSeen(s)[j] in s[..n]
    ensures FirstSeen(s)[i] in s[..n]
  {
    FirstSeenGrows(s[..n], s[n..]);
    assert s[..n] + s[n..] == s;
    FirstSeenIsDistinct(s[..n]);
    FirstSeenIsDistinct(s);
    var k :| 0 <= k < |FirstSeen(s[..n])| && FirstSeen(s[..n])[k] == FirstSeen(s)[j];
    assert k == j;
    FirstSeenHas(s[..n], i);
    assert FirstSeen(s[..n])[i] == FirstSeen(s)[i];
  }
}
