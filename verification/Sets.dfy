/** Lists without repetition, and the size of subsets, which several termination arguments use. */
module Sets {
  ghost predicate Distinct<T>(s: seq<T>) {
    forall i, j | 0 <= i < j < |s| :: s[i] != s[j]
  }

  lemma {:induction false} SubsetSize<T>(a: set<T>, b: set<T>)
    requires a <= b
    ensures |a| <= |b|
    ensures a != b ==> |a| < |b|
  {
    if a == {} {
      if b != {} {
        var x :| x in b;
      }
    } else {
      var x :| x in a;
      SubsetSize(a - {x}, b - {x});
      assert a - {x} == b - {x} ==> a == b by {
        if a - {x} == b - {x} { assert a == a - {x} + {x} && b == b - {x} + {x}; }
      }
    }
  }

  // ----- first occurrences -----

  /** The list without what is repeated: each element where it stands first. */
  function FirstOnes<T(==)>(s: seq<T>): seq<T> {
    if s == [] then [] else
      var init, last := s[..|s| - 1], s[|s| - 1];
      if last in init then FirstOnes(init) else FirstOnes(init) + [last]
  }

  /** The least position of `x`. */
  function FirstAt<T(==)>(s: seq<T>, x: T): (i: nat)
    requires x in s
    ensures i < |s| && s[i] == x && forall j | 0 <= j < i :: s[j] != x
  {
    if s[0] == x then 0 else 1 + FirstAt(s[1..], x)
  }

  lemma {:induction false} FirstOnesMeans<T>(s: seq<T>)
    ensures Distinct(FirstOnes(s))
    ensures forall x :: x in FirstOnes(s) <==> x in s
  {
    if s != [] {
      FirstOnesMeans(s[..|s| - 1]);
      assert s == s[..|s| - 1] + [s[|s| - 1]];
    }
  }

  lemma {:induction false} FirstOnesFrom<T>(s: seq<T>, i: nat)
    requires i < |FirstOnes(s)|
    ensures FirstOnes(s)[i] in s
  {
    var init := s[..|s| - 1];
    assert s == init + [s[|s| - 1]];
    if i < |FirstOnes(init)| { FirstOnesFrom(init, i); }
  }

  /** The elements keep the order in which they appear. */
  lemma {:induction false} FirstOnesInOrder<T>(s: seq<T>, i: nat, j: nat)
    requires i < j < |FirstOnes(s)|
    ensures FirstOnes(s)[i] in s && FirstOnes(s)[j] in s
    ensures FirstAt(s, FirstOnes(s)[i]) < FirstAt(s, FirstOnes(s)[j])
  {
    var firsts, init := FirstOnes(s), s[..|s| - 1];
    var a, b := firsts[i], firsts[j];
    FirstOnesFrom(s, i);
    FirstOnesFrom(s, j);
    FirstOnesMeans(init);
    FirstAtPrefix(s, a);
    FirstAtPrefix(s, b);
    assert a == FirstOnes(init)[i] && a in FirstOnes(init);
    if j < |FirstOnes(init)| {
      FirstOnesInOrder(init, i, j);
    }
  }

  lemma FirstAtPrefix<T>(s: seq<T>, x: T)
    requires s != [] && x in s
    ensures if x in s[..|s| - 1] then FirstAt(s, x) == FirstAt(s[..|s| - 1], x) else FirstAt(s, x) == |s| - 1
  {
    var init, a := s[..|s| - 1], FirstAt(s, x);
    if x in init {
      assert s[FirstAt(init, x)] == x;
      assert a <= FirstAt(init, x) && s[a] == init[a];
    } else {
      assert forall j | 0 <= j < |init| :: init[j] != x && s[j] == init[j];
    }
  }

  lemma FirstOnesAppend<T>(s: seq<T>, x: T)
    ensures FirstOnes(s + [x]) == if x in s then FirstOnes(s) else FirstOnes(s) + [x]
  {
    assert (s + [x])[..|s|] == s;
  }

  lemma {:induction false} FirstOnesOfKnown<T>(s: seq<T>, t: seq<T>)
    requires forall x | x in t :: x in s
    ensures FirstOnes(s + t) == FirstOnes(s)
  {
    if t == [] {
      assert s + t == s;
    } else {
      var init, last := t[..|t| - 1], t[|t| - 1];
      FirstOnesOfKnown(s, init);
      FirstOnesAppend(s + init, last);
      assert s + t == s + init + [last];
    }
  }
}
