/** What the confirmations and ends of a block make of the rows of internal_withdrawals, column by column. */
module SweepRows {
  import opened Prelude
  import opened Lists
  import opened Messages
  import opened Sweeps

  function SendingOf(m: Memo): Confirmation -> bool { (c: Confirmation) => c.memo == OfMemo(m) }

  function EndingOf(m: Memo): Finish -> bool { (w: Finish) => w.memo == OfMemo(m) && !w.failed }

  /** What the ends add to the amount of a sweep. */
  function EndedAmount(ends: seq<Finish>, m: Memo): int
    decreases |ends|
  {
    if ends == [] then 0
    else
      var w := ends[|ends| - 1];
      EndedAmount(ends[..|ends| - 1], m) + if w.memo == OfMemo(m) && !w.failed then w.amount else 0
  }

  /** Only the sending changes, to that of the last confirmation. */
  predicate RowAfterSends(r: Row, r': Row, cs: seq<Confirmation>, m: Memo)
  {
    && r' == r.(sendingLt := r'.sendingLt)
    && match Last(cs, SendingOf(m))
       case None => r'.sendingLt == r.sendingLt
       case Some(c) => r'.sendingLt == Some(c.lt)
  }

  /** For every list of confirmations that is accepted. */
  lemma {:induction false} SendsTell(t: Table, cs: seq<Confirmation>, m: Memo)
    requires ConfirmAll(t, cs).Ok?
    ensures m in ConfirmAll(t, cs).value.rows <==> m in t.rows
    ensures if m in t.rows then RowAfterSends(t.rows[m], ConfirmAll(t, cs).value.rows[m], cs, m)
            else Last(cs, SendingOf(m)).None?
    decreases |cs|
  {
    if cs != [] { SendsTell(t, cs[..|cs| - 1], m); }
  }

  /** The end is that of the last end that did not fail, the amount grows by all of these, and an end that failed
      makes the sweep fail. */
  ghost predicate RowAfterEnds(r: Row, r': Row, ws: seq<Finish>, m: Memo)
  {
    && r'.created == r.created && r'.from == r.from && r'.sinceLt == r.sinceLt && r'.expiredAt == r.expiredAt
    && r'.sendingLt == r.sendingLt
    && r'.amount == r.amount + EndedAmount(ws, m)
    && (r'.failed <==> r.failed || Fails(ws, m))
    && match Last(ws, EndingOf(m))
       case None => r'.finishLt == r.finishLt && r'.finishedAt == r.finishedAt
       case Some(w) => r'.finishLt == Some(w.lt) && r'.finishedAt == Some(w.utime)
  }

  /** For every list of ends that is accepted. */
  lemma {:induction false} EndsTell(t: Table, ws: seq<Finish>, m: Memo)
    requires FinishAll(t, ws).Ok?
    ensures m in FinishAll(t, ws).value.rows <==> m in t.rows
    ensures m in t.rows ==> RowAfterEnds(t.rows[m], FinishAll(t, ws).value.rows[m], ws, m)
    decreases |ws|
  {
    if ws != [] {
      EndsTell(t, ws[..|ws| - 1], m);
      if m in t.rows { OneMoreEnd(t.rows[m], FinishAll(t, ws[..|ws| - 1]).value.rows[m], ws, m); }
    }
  }

  lemma OneMoreEnd(r: Row, r1: Row, ws: seq<Finish>, m: Memo)
    requires ws != [] && RowAfterEnds(r, r1, ws[..|ws| - 1], m)
    ensures RowAfterEnds(r, if ws[|ws| - 1].memo == OfMemo(m) then Finished(r1, ws[|ws| - 1]) else r1, ws, m)
  {
    assert forall w :: w in ws <==> w in ws[..|ws| - 1] || w == ws[|ws| - 1];
  }

  lemma {:induction false} AmountOfTwo(a: seq<Finish>, b: seq<Finish>, m: Memo)
    ensures EndedAmount(a + b, m) == EndedAmount(a, m) + EndedAmount(b, m)
    decreases |b|
  {
    if b == [] {
      assert a + b == a;
    } else {
      assert (a + b)[..|a + b| - 1] == a + b[..|b| - 1];
      AmountOfTwo(a, b[..|b| - 1], m);
    }
  }

  /** Why a single confirmation or end is refused. */
  lemma RefusedBecause(t: Table, c: Confirmation, w: Finish)
    ensures Confirm(t, c).Ok? <==> c.memo.OfMemo? && c.memo.memo in t.rows && !t.rows[c.memo.memo].failed
    ensures Confirm(t, c) == Err(BadMemo) <==> !c.memo.OfMemo?
    ensures Confirm(t, c) == Err(UnknownMemo) <==> c.memo.OfMemo? && c.memo.memo !in t.rows
    ensures Finishing(t, w) == Err(BadMemo) <==> !w.memo.OfMemo?
    ensures Confirm(t, c) == Err(ExpiredButSent)
       <==> c.memo.OfMemo? && c.memo.memo in t.rows && t.rows[c.memo.memo].failed
    ensures Finishing(t, w) == Err(ExpiredButSent)
       <==> w.memo.OfMemo? && w.memo.memo in t.rows && t.rows[w.memo.memo].failed
    ensures Finishing(t, w) == Err(InvalidEventOrder)
       <==> w.memo.OfMemo?
            && (w.memo.memo in t.rows ==> !t.rows[w.memo.memo].failed && t.rows[w.memo.memo].sendingLt.None?)
    ensures Finishing(t, w).Ok?
       <==> w.memo.OfMemo? && w.memo.memo in t.rows
            && !t.rows[w.memo.memo].failed && t.rows[w.memo.memo].sendingLt.Some?
  {
  }

  /** Expiry fails exactly the sweeps that expired before the cutoff and were never confirmed; nothing else changes. */
  lemma ExpiryFails(t: Table, cutoff: Time)
    ensures var t' := SetExpired(t, cutoff);
      && t'.next == t.next && t'.rows.Keys == t.rows.Keys
      && forall m | m in t.rows ::
           && t'.rows[m] == t.rows[m].(failed := t'.rows[m].failed)
           && (t'.rows[m].failed <==>
                 t.rows[m].failed || (t.rows[m].expiredAt < cutoff && t.rows[m].sendingLt.None?))
  {
  }
}
