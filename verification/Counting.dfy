/** How many elements of a list satisfy a condition. */
module Counting {
  ghost function Where<T>(s: seq<T>, p: T -> bool): set<int> {
    set i | 0 <= i < |s| && p(s[i])
  }

  ghost function Count<T>(s: seq<T>, p: T -> bool): nat {
    |Where(s, p)|
  }

  lemma CountSnoc<T>(s: seq<T>, x: T, p: T -> bool)
    ensures Count(s + [x], p) == Count(s, p) + if p(x) then 1 else 0
  {
    var before := Where(s, p);
    assert Where(s + [x], p) == before + if p(x) then {|s|} else {};
  }

  lemma CountNothing<T>(p: T -> bool)
    ensures Count([], p) == 0
  {
    assert Where([], p) == {};
  }
}
