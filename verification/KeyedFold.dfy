/** Statements that each read and write one row of a table, run one after the other: their effect on a row is
    that of the statements about that row alone. */
module KeyedFold {
  import opened Prelude

  function Get<K(==), R>(rows: map<K, R>, k: K): Option<R>
  {
    if k in rows then Some(rows[k]) else None
  }

  /** `f` gives the new row from the old one, if there is an old one; None when the statement fails. */
  function Run<K(==), R, E>(f: (Option<R>, E) -> Option<R>, key: E -> K, rows: map<K, R>, es: seq<E>): Option<map<K, R>>
    decreases |es|
  {
    if es == [] then Some(rows)
    else
      match Run(f, key, rows, es[..|es| - 1])
      case None => None
      case Some(m) =>
        var e := es[|es| - 1];
        match f(Get(m, key(e)), e)
        case None => None
        case Some(r) => Some(m[key(e) := r])
  }

  /** The same on one row. */
  function RunRow<R, E>(f: (Option<R>, E) -> Option<R>, row: Option<R>, es: seq<E>): Option<Option<R>>
    decreases |es|
  {
    if es == [] then Some(row)
    else
      match RunRow(f, row, es[..|es| - 1])
      case None => None
      case Some(m) =>
        match f(m, es[|es| - 1])
        case None => None
        case Some(r) => Some(Some(r))
  }

  /** The statements about row `k`. */
  function About<K(==), E>(key: E -> K, k: K, es: seq<E>): seq<E>
    decreases |es|
  {
    if es == [] then []
    else About(key, k, es[..|es| - 1]) + if key(es[|es| - 1]) == k then [es[|es| - 1]] else []
  }

  ghost predicate RowAgrees<K, R, E>(
    f: (Option<R>, E) -> Option<R>, key: E -> K, rows: map<K, R>, es: seq<E>, rows': map<K, R>, k: K)
  {
    RunRow(f, Get(rows, k), About(key, k, es)) == Some(Get(rows', k))
  }

  /** A run succeeds if and only if it succeeds on every row, and gives every row what the run on it gives. */
  lemma {:induction false} RunIsRowByRow<K(!new), R, E>(
    f: (Option<R>, E) -> Option<R>, key: E -> K, rows: map<K, R>, es: seq<E>)
    ensures Run(f, key, rows, es).Some? <==> forall k :: RunRow(f, Get(rows, k), About(key, k, es)).Some?
    ensures Run(f, key, rows, es).Some? ==> forall k :: RowAgrees(f, key, rows, es, Run(f, key, rows, es).value, k)
    decreases |es|
  {
    if es != [] {
      var init, e := es[..|es| - 1], es[|es| - 1];
      RunIsRowByRow(f, key, rows, init);
      forall k ensures RunRow(f, Get(rows, k), About(key, k, es)) ==
                         if k == key(e) then
                           (match RunRow(f, Get(rows, k), About(key, k, init))
                            case None => None
                            case Some(m) => match f(m, e) case None => None case Some(r) => Some(Some(r)))
                         else RunRow(f, Get(rows, k), About(key, k, init))
      {
        if k == key(e) {
          assert About(key, k, es)[..|About(key, k, es)| - 1] == About(key, k, init);
        } else {
          assert About(key, k, es) == About(key, k, init);
        }
      }
      if Run(f, key, rows, init).Some? {
        var m := Run(f, key, rows, init).value;
        assert RowAgrees(f, key, rows, init, m, key(e));
        if Run(f, key, rows, es).Some? {
          var m' := Run(f, key, rows, es).value;
          forall k ensures RowAgrees(f, key, rows, es, m', k) { assert RowAgrees(f, key, rows, init, m, k); }
        }
      }
    }
  }

  /** So two runs with the same statements about every row are the same. */
  lemma SameAboutEachRow<K(!new), R, E>(
    f: (Option<R>, E) -> Option<R>, key: E -> K, rows: map<K, R>, es: seq<E>, es': seq<E>)
    requires forall k :: About(key, k, es) == About(key, k, es')
    ensures Run(f, key, rows, es) == Run(f, key, rows, es')
  {
    RunIsRowByRow(f, key, rows, es);
    RunIsRowByRow(f, key, rows, es');
    if Run(f, key, rows, es).Some? {
      var m, m' := Run(f, key, rows, es).value, Run(f, key, rows, es').value;
      forall k ensures Get(m, k) == Get(m', k) {
        assert RowAgrees(f, key, rows, es, m, k) && RowAgrees(f, key, rows, es', m', k);
      }
      forall k ensures (k in m <==> k in m') && (k in m ==> m[k] == m'[k]) { assert Get(m, k) == Get(m', k); }
      assert m == m';
    }
  }

  // ---------------------------------------------------------------- lists gathered account by account

  function Gather<A, E>(order: seq<A>, of: A -> seq<E>): seq<E>
  {
    if order == [] then [] else of(order[0]) + Gather(order[1..], of)
  }

  lemma {:induction false} AboutOfTwo<K, E>(key: E -> K, k: K, a: seq<E>, b: seq<E>)
    ensures About(key, k, a + b) == About(key, k, a) + About(key, k, b)
    decreases |b|
  {
    if b == [] {
      assert a + b == a;
    } else {
      AboutOfTwo(key, k, a, b[..|b| - 1]);
      assert (a + b)[..|a + b| - 1] == a + b[..|b| - 1];
    }
  }

  lemma {:induction false} AboutNothing<K, E>(key: E -> K, k: K, es: seq<E>)
    requires forall e | e in es :: key(e) != k
    ensures About(key, k, es) == []
    decreases |es|
  {
    if es != [] { AboutNothing(key, k, es[..|es| - 1]); }
  }

  predicate NoRepeats<A(==)>(order: seq<A>)
  {
    forall i, j | 0 <= i < j < |order| :: order[i] != order[j]
  }

  /** When all statements about a row come from one account, the gathered ones are that account's, in its order,
      wherever the account stands. */
  lemma {:induction false} AboutGathered<A, K, E>(key: E -> K, k: K, order: seq<A>, of: A -> seq<E>, owner: A)
    requires NoRepeats(order) && forall a, e | a in order && e in of(a) && key(e) == k :: a == owner
    ensures About(key, k, Gather(order, of)) == if owner in order then About(key, k, of(owner)) else []
    decreases |order|
  {
    if order != [] {
      var a, rest := order[0], order[1..];
      AboutOfTwo(key, k, of(a), Gather(rest, of));
      AboutGathered(key, k, rest, of, owner);
      if a != owner { AboutNothing(key, k, of(a)); }
    }
  }

  lemma {:induction false} GatherOfTwo<A, E>(x: seq<A>, y: seq<A>, of: A -> seq<E>)
    ensures Gather(x + y, of) == Gather(x, of) + Gather(y, of)
    decreases |x|
  {
    if x == [] {
      assert x + y == y;
    } else {
      assert (x + y)[1..] == x[1..] + y;
      GatherOfTwo(x[1..], y, of);
    }
  }

  lemma TakeOut<A, E>(y: seq<A>, i: nat, of: A -> seq<E>)
    requires i < |y|
    ensures multiset(Gather(y, of)) == multiset(of(y[i])) + multiset(Gather(y[..i] + y[i + 1..], of))
  {
    var front, back := y[..i], y[i + 1..];
    GatherOfTwo(front, y[i..], of);
    GatherOfTwo(front, back, of);
    assert y == front + y[i..] && y[i..][1..] == back;
  }

  lemma WithoutOne<A>(x: seq<A>, y: seq<A>, i: nat)
    requires x != [] && i < |y| && y[i] == x[0] && multiset(x) == multiset(y)
    ensures multiset(x[1..]) == multiset(y[..i] + y[i + 1..])
  {
    assert x == [x[0]] + x[1..];
    assert y == y[..i] + [x[0]] + y[i + 1..];
    var rest := y[..i] + y[i + 1..];
    assert multiset(y) == multiset(y[..i]) + multiset{x[0]} + multiset(y[i + 1..]) == multiset{x[0]} + multiset(rest);
    assert multiset(x[1..]) == multiset(x) - multiset{x[0]};
    assert multiset(rest) == multiset(y) - multiset{x[0]};
  }

  /** The gathered elements do not depend on the order of the accounts. */
  lemma {:induction false} GatherAsMultiset<A, E>(x: seq<A>, y: seq<A>, of: A -> seq<E>)
    requires multiset(x) == multiset(y)
    ensures multiset(Gather(x, of)) == multiset(Gather(y, of))
    decreases |x|
  {
    if x == [] {
      assert |multiset(y)| == 0;
    } else {
      assert x[0] in multiset(y);
      var i :| 0 <= i < |y| && y[i] == x[0];
      WithoutOne(x, y, i);
      GatherAsMultiset(x[1..], y[..i] + y[i + 1..], of);
      TakeOut(y, i, of);
    }
  }
}
