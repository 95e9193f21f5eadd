/** Finite sets: an element of a non-empty set, and sizes of subsets. */
module Sets {

  ghost function Any<T>(s: set<T>): (x: T)
    requires s != {}
    ensures x in s
  {
    var x :| x in s;
    x
  }

  lemma {:induction false} SubsetSize<T>(a: set<T>, b: set<T>)
    requires a <= b
    ensures |a| <= |b|
  {
    if a != {} {
      var x := Any(a);
      SubsetSize(a - {x}, b - {x});
    }
  }

  lemma Smaller<T>(a: set<T>, b: set<T>, x: T)
    requires a <= b && x in b && x !in a
    ensures |a| < |b|
  {
    SubsetSize(a, b - {x});
  }

  function Elements<T(==)>(s: seq<T>): set<T> { set x | x in s }

  lemma {:induction false} ElementsCount<T>(s: seq<T>)
    requires forall i, j :: 0 <= i < j < |s| ==> s[i] != s[j]
    ensures |Elements(s)| == |s|
  {
    if s != [] {
      var n := |s| - 1;
      ElementsCount(s[..n]);
      assert s[n] !in s[..n];
      assert Elements(s) == Elements(s[..n]) + {s[n]};
    }
  }

  /** The values of a function on the elements of a sequence. */
  function Image<A, B(==)>(s: seq<A>, f: A -> B): set<B> {
    set i | 0 <= i < |s| :: f(s[i])
  }

  /** Two functions that tell the same elements apart take equally many values. */
  lemma {:induction false} SameCount<A, B, C>(s: seq<A>, f: A -> B, g: A -> C)
    requires forall i, j :: 0 <= i < |s| && 0 <= j < |s| ==> (f(s[i]) == f(s[j]) <==> g(s[i]) == g(s[j]))
    ensures |Image(s, f)| == |Image(s, g)|
  {
    if s == [] {
      assert Image(s, f) == {} && Image(s, g) == {};
    } else {
      var n := |s| - 1;
      SameCount(s[..n], f, g);
      ImageStep(s, f);
      ImageStep(s, g);
      assert forall i :: 0 <= i < n ==> (f(s[i]) == f(s[n]) <==> g(s[i]) == g(s[n]));
      OneMore(Image(s[..n], f), f(s[n]));
      OneMore(Image(s[..n], g), g(s[n]));
    }
  }

  lemma OneMore<T>(s: set<T>, x: T)
    ensures |s + {x}| == |s| + if x in s then 0 else 1
  {
    if x in s { assert s + {x} == s; }
  }

  lemma ImageStep<A, B>(s: seq<A>, f: A -> B)
    requires s != []
    ensures var n := |s| - 1;
            && Image(s, f) == Image(s[..n], f) + {f(s[n])}
            && (f(s[n]) in Image(s[..n], f) <==> exists i :: 0 <= i < n && f(s[i]) == f(s[n]))
  {
    var n := |s| - 1;
    forall b ensures b in Image(s, f) <==> b in Image(s[..n], f) + {f(s[n])} {
      if b in Image(s, f) {
        var i :| 0 <= i < |s| && f(s[i]) == b;
        assert i < n ==> f(s[..n][i]) == b;
      }
      if b in Image(s[..n], f) {
        var i :| 0 <= i < n && f(s[..n][i]) == b;
        assert f(s[i]) == b;
      }
    }
    if i :| 0 <= i < n && f(s[i]) == f(s[n]) { assert f(s[..n][i]) == f(s[n]); }
  }
}
