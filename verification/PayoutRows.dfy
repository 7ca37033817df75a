/** What the reports of a block make of the rows of external_withdrawals, column by column. */
module PayoutRows {
  import opened Prelude
  import opened Lists
  import opened Payouts
  import opened PayoutInvariants

  function About(k: RowKey): Report -> bool { (e: Report) => e.msg == k.msg && e.to == k.to }

  function SentAbout(k: RowKey): Report -> bool { (e: Report) => e.msg == k.msg && e.to == k.to && !e.failed }

  /** A list is accepted if and only if every report is about a row that did not fail, neither before nor by an earlier
      report of the list. */
  ghost predicate AllKnown(p: Ledger, es: seq<Report>)
  {
    && (forall e | e in es :: RowKey(e.msg, e.to) in p.rows && !p.rows[RowKey(e.msg, e.to)].failed)
    && (forall i, j | 0 <= i < j < |es| && es[i].msg == es[j].msg && es[i].to == es[j].to :: !es[i].failed)
  }

  /** The hash and the failure are those of the last report; time and logical time those of the last one that was
      sent. Nothing else changes, and without a report nothing. */
  predicate RowAfter(r: Row, r': Row, es: seq<Report>, k: RowKey)
  {
    && r'.queryId == r.queryId && r'.expiredAt == r.expiredAt && r'.confirmed == r.confirmed
    && (match Last(es, About(k))
        case None => r'.txHash == r.txHash && r'.failed == r.failed
        case Some(e) => r'.txHash == Some(e.txHash) && r'.failed == e.failed)
    && (match Last(es, SentAbout(k))
        case None => r'.processedLt == r.processedLt && r'.processedAt == r.processedAt
        case Some(e) => r'.processedLt == Some(e.lt) && r'.processedAt == Some(e.utime))
  }

  /** A row has failed after some reports if it had before or one of them says so. */
  lemma FailedIffEarlier(r: Row, r': Row, es: seq<Report>, k: RowKey)
    requires RowAfter(r, r', es, k)
    requires forall i, j | 0 <= i < j < |es| && es[i].msg == es[j].msg && es[i].to == es[j].to :: !es[i].failed
    requires forall e | e in es :: RowKey(e.msg, e.to) == k ==> !r.failed
    ensures r'.failed
       <==> r.failed || exists i :: 0 <= i < |es| && es[i].msg == k.msg && es[i].to == k.to && es[i].failed
  {
    if Last(es, About(k)).Some? {
      var n := LastIsLast(es, About(k));
      if i :| 0 <= i < |es| && es[i].msg == k.msg && es[i].to == k.to && es[i].failed {
        assert About(k)(es[i]) && About(k)(es[n]);
        assert i == n;
      }
    } else {
      assert forall i | 0 <= i < |es| :: es[i] in es && !About(k)(es[i]);
    }
  }

  ghost predicate RowsAfter(p: Ledger, p': Ledger, es: seq<Report>)
  {
    p'.rows.Keys == p.rows.Keys && forall k | k in p.rows :: RowAfter(p.rows[k], p'.rows[k], es, k)
  }

  ghost predicate TellsReports(p: Ledger, es: seq<Report>, r: Result<Ledger, Error>)
  {
    (r.Ok? <==> AllKnown(p, es)) && (r.Ok? ==> RowsAfter(p, r.value, es))
  }

  /** For every list of reports: when it is accepted, and what each row is then. */
  lemma {:induction false} ReportsTell(p: Ledger, es: seq<Report>)
    ensures TellsReports(p, es, ApplyReports(p, es))
    decreases |es|
  {
    if es == [] {
      assert RowsAfter(p, p, es);
    } else {
      var init, e := es[..|es| - 1], es[|es| - 1];
      ReportsTell(p, init);
      OneMoreTells(p, init, ApplyReports(p, init), e);
      assert es == init + [e];
    }
  }

  lemma OneMoreTells(p: Ledger, init: seq<Report>, r: Result<Ledger, Error>, e: Report)
    requires TellsReports(p, init, r)
    ensures TellsReports(p, init + [e], if r.Err? then r else UpdateWithdrawal(r.value, e))
  {
    if r.Ok? {
      OneMoreAccepted(p, r.value, init, e);
      if UpdateWithdrawal(r.value, e).Ok? { RowsAfterOneMore(p, r.value, init, e); }
    } else if AllKnown(p, init + [e]) {
      FewerAccepted(p, init, e);
    }
  }

  lemma UpdateIsSettle(p: Ledger, e: Report, k: RowKey)
    requires UpdateWithdrawal(p, e).Ok? && k in p.rows
    ensures var p' := UpdateWithdrawal(p, e).value;
      && p'.rows.Keys == p.rows.Keys
      && p'.rows[k] == (if RowKey(e.msg, e.to) == k then Settle(p.rows[k], e) else p.rows[k])
      && (RowKey(e.msg, e.to) == k ==> !p.rows[k].failed)
  {
  }

  lemma RowsAfterOneMore(p: Ledger, p1: Ledger, init: seq<Report>, e: Report)
    requires RowsAfter(p, p1, init) && UpdateWithdrawal(p1, e).Ok?
    ensures RowsAfter(p, UpdateWithdrawal(p1, e).value, init + [e])
  {
    var p' := UpdateWithdrawal(p1, e).value;
    forall k | k in p.rows ensures RowAfter(p.rows[k], p'.rows[k], init + [e], k) {
      UpdateIsSettle(p1, e, k);
      OneMoreReport(p.rows[k], p1.rows[k], init, e, k);
    }
  }

  lemma FewerAccepted(p: Ledger, init: seq<Report>, e: Report)
    requires AllKnown(p, init + [e])
    ensures AllKnown(p, init)
  {
    assert forall x | x in init :: x in init + [e];
    assert forall i | 0 <= i < |init| :: init[i] == (init + [e])[i];
  }

  lemma OneMoreAccepted(p: Ledger, p1: Ledger, init: seq<Report>, e: Report)
    requires AllKnown(p, init) && RowsAfter(p, p1, init)
    ensures UpdateWithdrawal(p1, e).Ok? <==> AllKnown(p, init + [e])
  {
    var k := RowKey(e.msg, e.to);
    if k in p.rows {
      FailedIffEarlier(p.rows[k], p1.rows[k], init, k);
      OneMoreKnown(p, p1.rows[k].failed, init, e);
    } else {
      assert e in init + [e];
    }
  }

  lemma OneMoreKnown(p: Ledger, failedNow: bool, init: seq<Report>, e: Report)
    requires AllKnown(p, init) && RowKey(e.msg, e.to) in p.rows
    requires failedNow
      <==> (p.rows[RowKey(e.msg, e.to)].failed
            || exists i :: 0 <= i < |init| && init[i].msg == e.msg && init[i].to == e.to && init[i].failed)
    ensures !failedNow <==> AllKnown(p, init + [e])
  {
    var es := init + [e];
    if AllKnown(p, es) {
      assert e in es;
      forall i | 0 <= i < |init| && init[i].msg == e.msg && init[i].to == e.to ensures !init[i].failed {
        assert es[i] == init[i] && es[|init|] == e;
      }
    }
  }

  /** One more report changes its row and no other. */
  lemma OneMoreReport(r: Row, r1: Row, init: seq<Report>, e: Report, k: RowKey)
    requires RowAfter(r, r1, init, k)
    ensures RowAfter(r, if RowKey(e.msg, e.to) == k then Settle(r1, e) else r1, init + [e], k)
       || (RowKey(e.msg, e.to) == k && r1.failed)
  {
    LastOfTwo(init, [e], About(k));
    LastOfTwo(init, [e], SentAbout(k));
    assert [e][..0] == [];
  }

  /** Why a single report is refused. */
  lemma RefusedBecause(p: Ledger, e: Report)
    ensures var r, k := UpdateWithdrawal(p, e), RowKey(e.msg, e.to);
      && (r == Err(ExpiredButExecuted) <==> k in p.rows && p.rows[k].failed)
      && (r == Err(NoRows) <==> k !in p.rows && e.failed)
      && (r == Err(UnknownWithdrawal) <==> k !in p.rows && !e.failed)
      && (r.Ok? <==> k in p.rows && !p.rows[k].failed)
  {
  }

  // ---------------------------------------------------------------- expiry

  /** The row expired before the cutoff, nobody reported it as sent and it had not failed yet. */
  predicate GivenUpNow(r: Row, cutoff: Time)
  {
    r.expiredAt < cutoff && r.processedLt.None? && !r.failed
  }

  /** Expiry fails exactly these rows and releases exactly their requests; nothing else of a row or request changes. */
  lemma ExpiryFails(p: Ledger, cutoff: Time)
    ensures var p' := SetExpired(p, cutoff);
      && p'.nextId == p.nextId && p'.rows.Keys == p.rows.Keys && p'.requests.Keys == p.requests.Keys
      && (forall k | k in p.rows ::
            p'.rows[k] == p.rows[k].(failed := p.rows[k].failed || GivenUpNow(p.rows[k], cutoff)))
      && (forall q | q in p.requests ::
            && p'.requests[q] == p.requests[q].(processing := p'.requests[q].processing)
            && (p'.requests[q].processing <==>
                  && p.requests[q].processing
                  && forall k | k in p.rows && p.rows[k].queryId == q :: !GivenUpNow(p.rows[k], cutoff)))
  {
    forall q ensures q in OverdueIds(p, cutoff)
                <==> exists k :: k in p.rows && p.rows[k].queryId == q && GivenUpNow(p.rows[k], cutoff)
    {
    }
  }
}
