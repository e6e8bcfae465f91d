/** The JavaScript array operations the catalogue code chains together. */
module Lists {

  /** `array.filter(p)`: the elements satisfying `p`, in their original order. */
  function Filter<T>(s: seq<T>, p: T -> bool): (r: seq<T>)
    ensures |r| <= |s|
  {
    if s == [] then []
    else if p(s[0]) then [s[0]] + Filter(s[1..], p)
    else Filter(s[1..], p)
  }

  /** `filter` keeps exactly the elements that satisfy the predicate. */
  lemma {:induction false} FilterMembers<T(!new)>(s: seq<T>, p: T -> bool)
    ensures forall x :: x in Filter(s, p) <==> x in s && p(x)
  {
    if s != [] {
      FilterMembers(s[1..], p);
      assert s == [s[0]] + s[1..];
    }
  }

  /** Filtering a one-element head: the head is kept exactly when it passes. */
  lemma FilterCons<T>(x: T, s: seq<T>, p: T -> bool)
    ensures Filter([x] + s, p) == (if p(x) then [x] else []) + Filter(s, p)
  {
    assert ([x] + s)[1..] == s;
  }

  /** Filtering a concatenation filters each part: the order of the input is kept. */
  lemma {:induction false} FilterConcat<T>(a: seq<T>, b: seq<T>, p: T -> bool)
    ensures Filter(a + b, p) == Filter(a, p) + Filter(b, p)
  {
    if a == [] {
      assert a + b == b;
    } else {
      var x, rest := a[0], a[1..];
      var h: seq<T> := if p(x) then [x] else [];
      assert a == [x] + rest;
      assert a + b == [x] + (rest + b);
      FilterCons(x, rest + b, p);
      FilterCons(x, rest, p);
      FilterConcat(rest, b, p);
      assert h + (Filter(rest, p) + Filter(b, p)) == (h + Filter(rest, p)) + Filter(b, p);
    }
  }
}
