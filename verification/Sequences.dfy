/** Sequences without repetitions. */
module Sequences {
  ghost predicate Distinct<T>(s: seq<T>) {
    forall i, j :: 0 <= i < j < |s| ==> s[i] != s[j]
  }

  /** The elements without repetitions, each at its first use. */
  function FirstUses<T(==)>(s: seq<T>): seq<T> {
    if s == [] then []
    else
      var before := FirstUses(s[..|s| - 1]);
      if s[|s| - 1] in before then before else before + [s[|s| - 1]]
  }

  lemma {:induction false} FirstUsesOnce<T>(s: seq<T>)
    ensures Distinct(FirstUses(s))
    ensures forall x :: x in FirstUses(s) <==> x in s
  {
    if s != [] {
      FirstUsesOnce(s[..|s| - 1]);
      assert s == s[..|s| - 1] + [s[|s| - 1]];
    }
  }

  lemma FirstUsesAppend<T>(before: seq<T>, x: T)
    ensures FirstUses(before + [x])
         == if x in FirstUses(before) then FirstUses(before) else FirstUses(before) + [x]
  {
    assert (before + [x])[..|before|] == before;
  }

  lemma Associative<T>(a: seq<T>, b: seq<T>, c: seq<T>)
    ensures (a + b) + c == a + (b + c)
  {
  }

  /** The places where a flag is set. */
  function Where(flags: seq<bool>): set<nat> {
    set i: nat | i < |flags| && flags[i]
  }

  lemma WhereNothing(flags: seq<bool>)
    requires flags == []
    ensures |Where(flags)| == 0
  {
    assert Where(flags) == {};
  }

  lemma WhereOneMore(flags: seq<bool>, flag: bool)
    ensures |Where(flags + [flag])| == |Where(flags)| + if flag then 1 else 0
  {
    assert Where(flags + [flag]) == Where(flags) + if flag then {|flags|} else {};
  }

  /** The places from the second on whose element is such. */
  ghost function PlacesAfterFirst<T>(s: seq<T>, such: T -> bool): set<nat> {
    set i: nat | 0 < i < |s| && such(s[i])
  }

  lemma NoPlaceAfterFirst<T>(s: seq<T>, such: T -> bool)
    requires |s| <= 1
    ensures |PlacesAfterFirst(s, such)| == 0
  {
    assert PlacesAfterFirst(s, such) == {};
  }

  lemma PlacesOneMore<T>(s: seq<T>, x: T, such: T -> bool)
    requires s != []
    ensures |PlacesAfterFirst(s + [x], such)| == |PlacesAfterFirst(s, such)| + if such(x) then 1 else 0
  {
    assert PlacesAfterFirst(s + [x], such) == PlacesAfterFirst(s, such) + if such(x) then {|s|} else {};
  }

  function Elements<T>(s: seq<T>): set<T> {
    set x | x in s
  }

  lemma {:induction false} DistinctSize<T>(s: seq<T>)
    requires Distinct(s)
    ensures |Elements(s)| == |s|
  {
    if s != [] {
      var init, last := s[..|s| - 1], s[|s| - 1];
      DistinctSize(init);
      assert s == init + [last];
      assert Elements(s) == Elements(init) + {last};
    }
  }
}
