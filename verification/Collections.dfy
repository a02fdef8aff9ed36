/** Small facts about finite sets of ids and about sums over them. */
module Collections {

  datatype Option<+T> = None | Some(value: T)

  lemma NoMemberIsEmpty<T(!new)>(s: set<T>)
    requires forall x :: x !in s
    ensures s == {}
  {
  }

  /** A member of a nonempty set. */
  lemma Member<T(!new)>(s: set<T>) returns (x: T)
    requires s != {}
    ensures x in s
  {
    if forall y :: y !in s {
      NoMemberIsEmpty(s);
      assert false;
    }
    x :| x in s;
  }

  lemma SameMembers<T(!new)>(s: set<T>, t: set<T>)
    requires forall x :: x in s <==> x in t
    ensures s == t
  {
  }

  lemma SameMaps<K(!new), V>(a: map<K, V>, b: map<K, V>)
    requires a.Keys == b.Keys && forall k | k in a :: a[k] == b[k]
    ensures a == b
  {
  }

  /** A member of the larger set that the smaller one lacks. */
  lemma MissingMember<T(!new)>(s: set<T>, t: set<T>) returns (x: T)
    requires s <= t && s != t
    ensures x in t && x !in s
  {
    if forall y :: y in t ==> y in s {
      SameMembers(s, t);
      assert false;
    }
    x :| x in t && x !in s;
  }

  lemma {:induction false} SubsetSize<T(!new)>(s: set<T>, t: set<T>)
    requires s <= t
    ensures |s| <= |t|
    ensures |s| == |t| ==> s == t
  {
    if s != {} {
      var x := Member(s);
      SubsetSize(s - {x}, t - {x});
      assert s == s - {x} + {x} && t == t - {x} + {x};
    }
  }

  lemma {:induction false} MinExists(s: set<int>)
    requires s != {}
    ensures exists m :: m in s && forall x | x in s :: m <= x
  {
    var y := Member(s);
    var rest := s - {y};
    if rest == {} {
      assert s == {y};
      assert y in s && forall x | x in s :: y <= x;
    } else {
      MinExists(rest);
      var m :| m in rest && forall x | x in rest :: m <= x;
      var least := if m <= y then m else y;
      forall x | x in s ensures least <= x {
        assert x == y || x in rest;
      }
      assert least in s;
    }
  }

  /** The least element of a nonempty set. A walk over a `std::map` meets its keys in this order. */
  function MinOf(s: set<int>): (m: int)
    requires s != {}
    ensures m in s && forall x | x in s :: m <= x
  {
    MinExists(s);
    var m :| m in s && forall x | x in s :: m <= x;
    m
  }

  /** Sum of `f` over a finite set. */
  ghost function SumOver(s: set<int>, f: int -> int): int
  {
    if s == {} then 0 else
      var x := MinOf(s);
      f(x) + SumOver(s - {x}, f)
  }

  lemma {:induction false} SumRemove(s: set<int>, f: int -> int, y: int)
    requires y in s
    ensures SumOver(s, f) == f(y) + SumOver(s - {y}, f)
  {
    var x := MinOf(s);
    if x != y {
      SumRemove(s - {x}, f, y);
      var rest := s - {y};
      assert x in rest && MinOf(rest) == x;
      assert s - {x} - {y} == s - {y} - {x};
    }
  }

  lemma {:induction false} SumSame(s: set<int>, f: int -> int, g: int -> int)
    requires forall x | x in s :: f(x) == g(x)
    ensures SumOver(s, f) == SumOver(s, g)
  {
    if s != {} {
      SumSame(s - {MinOf(s)}, f, g);
    }
  }

  // ----- sequences -----

  lemma Regroup<T>(a: seq<T>, b: seq<T>, c: seq<T>)
    ensures (a + b) + c == a + (b + c)
  {
  }

  /** From a place on, the sequence continues with a part. */
  ghost predicate Holds<T>(s: seq<T>, at: nat, part: seq<T>)
  {
    at + |part| <= |s| && s[at..at + |part|] == part
  }

  lemma HoldsSplit<T>(s: seq<T>, at: nat, a: seq<T>, b: seq<T>)
    requires Holds(s, at, a + b)
    ensures Holds(s, at, a) && Holds(s, at + |a|, b)
  {
    var both := s[at..at + |a + b|];
    assert both[..|a|] == a && both[|a|..] == b;
    assert s[at..at + |a|] == both[..|a|];
    assert s[at + |a|..at + |a| + |b|] == both[|a|..];
  }
}
