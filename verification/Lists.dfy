/** Picking from a list what meets a condition: all of it in order, or the last of it. */
module Lists {
  import opened Prelude

  function Where<A>(s: seq<A>, p: A -> bool): (r: seq<A>)
    ensures forall x | x in r :: x in s && p(x)
    ensures forall x | x in s && p(x) :: x in r
    decreases |s|
  {
    if s == [] then []
    else
      var init, x := s[..|s| - 1], s[|s| - 1];
      assert forall y | y in s :: y in init || y == x;
      Where(init, p) + if p(x) then [x] else []
  }

  function Last<A>(s: seq<A>, p: A -> bool): (r: Option<A>)
    ensures r.None? <==> forall x | x in s :: !p(x)
    ensures r.Some? ==> r.value in s && p(r.value)
    decreases |s|
  {
    if s == [] then None
    else if p(s[|s| - 1]) then Some(s[|s| - 1])
    else
      assert forall y | y in s :: y in s[..|s| - 1] || y == s[|s| - 1];
      Last(s[..|s| - 1], p)
  }

  lemma {:induction false} WhereOfTwo<A>(a: seq<A>, b: seq<A>, p: A -> bool)
    ensures Where(a + b, p) == Where(a, p) + Where(b, p)
    decreases |b|
  {
    if b == [] {
      assert a + b == a;
    } else {
      assert (a + b)[..|a + b| - 1] == a + b[..|b| - 1];
      WhereOfTwo(a, b[..|b| - 1], p);
    }
  }

  lemma {:induction false} LastOfTwo<A>(a: seq<A>, b: seq<A>, p: A -> bool)
    ensures Last(a + b, p) == if Last(b, p).Some? then Last(b, p) else Last(a, p)
    decreases |b|
  {
    if b == [] {
      assert a + b == a;
    } else {
      assert (a + b)[..|a + b| - 1] == a + b[..|b| - 1];
      LastOfTwo(a, b[..|b| - 1], p);
    }
  }

  /** Nothing after it meets the condition. */
  lemma {:induction false} LastIsLast<A>(s: seq<A>, p: A -> bool) returns (i: nat)
    requires Last(s, p).Some?
    ensures i < |s| && s[i] == Last(s, p).value && forall j | i < j < |s| :: !p(s[j])
    decreases |s|
  {
    i := |s| - 1;
    if !p(s[i]) { i := LastIsLast(s[..i], p); }
  }
}
