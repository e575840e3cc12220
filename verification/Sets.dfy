// Counting in finite sets, and the lists that enumerate them.
module Sets {

  lemma SizesAddUp<T>(a: set<T>, b: set<T>)
    ensures |b| + |a - b| == |a| + |b - a|
  {
    assert b == (b - a) + (a * b);
    assert a == (a - b) + (a * b);
  }

  /** What one more element adds to a difference. */
  lemma GainByOne<T>(a: set<T>, b: set<T>, x: T)
    ensures |a + {x} - b| == |a - b| + if x in b || x in a then 0 else 1
  {
    assert a + {x} - b == if x in b || x in a then a - b else (a - b) + {x};
  }

  /** The next element of an iteration in no particular order. */
  method Pick<T>(s: set<T>) returns (x: T)
    requires s != {}
    ensures x in s
  {
    x :| x in s;
  }

  ghost function Some<T>(s: set<T>): (x: T)
    requires s != {}
    ensures x in s
  {
    var x :| x in s; x
  }

  lemma SubsetSize<T>(a: set<T>, b: set<T>)
    requires a <= b
    ensures |a| <= |b|
  {
    assert b == a + (b - a);
  }

  // ---- Ascending lists ----

  predicate Ascending(s: seq<nat>) {
    forall i, j :: 0 <= i < j < |s| ==> s[i] < s[j]
  }

  function Elements(s: seq<nat>): set<nat> {
    set i | i in s
  }

  lemma {:induction false} AscendingSize(s: seq<nat>)
    requires Ascending(s)
    ensures |Elements(s)| == |s|
  {
    if s != [] {
      var last, rest := s[|s| - 1], s[..|s| - 1];
      assert s == rest + [last];
      assert Elements(s) == Elements(rest) + {last};
      assert last !in rest;
      AscendingSize(rest);
    }
  }

  lemma {:induction false} AscendingUnique(s: seq<nat>, t: seq<nat>)
    requires Ascending(s) && Ascending(t) && Elements(s) == Elements(t)
    ensures s == t
  {
    AscendingSize(s);
    AscendingSize(t);
    if s != [] {
      var n := |s| - 1;
      assert s[n] in Elements(t) && t[n] in Elements(s);
      assert s[n] == t[n];
      forall i | i in Elements(s[..n])
        ensures i in Elements(t[..n])
      {
        assert i in Elements(t);
      }
      forall i | i in Elements(t[..n])
        ensures i in Elements(s[..n])
      {
        assert i in Elements(s);
      }
      AscendingUnique(s[..n], t[..n]);
      assert s == s[..n] + [s[n]] && t == t[..n] + [t[n]];
    }
  }
}
